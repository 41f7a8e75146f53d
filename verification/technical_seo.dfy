/**
 * The technical SEO analyzer (src/analyzers/technical_seo.py): title and
 * meta-description presence and length, canonical link, Open Graph tags,
 * and a fixed credit for the successful fetch.
 */
module TechnicalSeo {
  import opened Config
  import opened Scoring
  import opened Fetcher
  import opened Wrappers
  import Format

  /** What is recorded about the title or the meta description. */
  datatype TagDetails =
    | Missing
    | Present(length: nat, optimalLength: bool, content: string)

  datatype TechnicalDetails = TechnicalDetails(
    title: TagDetails,
    metaDescription: TagDetails,
    canonicalPresent: bool,
    openGraphPresent: bool,
    openGraphComplete: bool,
    httpStatus: int)

  /** "<subject> too <verdict> (<n> chars), aim for <lo>-<hi>". */
  function LengthMessage(subject: string, verdict: string, n: nat, lo: nat, hi: nat): string {
    subject + " too " + verdict + " (" + Format.NatToString(n) + " chars), aim for "
    + Format.NatToString(lo) + "-" + Format.NatToString(hi)
  }

  /** A tag text is missing when it is absent or empty (Python's falsy string). */
  predicate IsMissing(text: Option<string>) {
    text.None? || |text.value| == 0
  }

  /**
   * The shared shape of the title and meta-description checks: nothing and
   * `missingRec` for a missing text; otherwise `base` points, `bonus` more
   * for a length within `[lo, hi]`, and a too-short or too-long message.
   */
  function AnalyzeLengthTag(
    text: Option<string>, missingRec: string, subject: string,
    base: int, bonus: int, lo: nat, hi: nat): (r: SubScore<TagDetails>)
    requires lo <= hi
    ensures IsMissing(text) ==> r == SubScore(0, Missing, [missingRec])
    ensures !IsMissing(text) ==>
              var n := |text.value|;
              && r.details == Present(n, lo <= n <= hi, text.value)
              && r.points == (if lo <= n <= hi then base + bonus else base)
              && (n < lo ==> r.recommendations == [LengthMessage(subject, "short", n, lo, hi)])
              && (n > hi ==> r.recommendations == [LengthMessage(subject, "long", n, lo, hi)])
              && (lo <= n <= hi ==> r.recommendations == [])
  {
    if IsMissing(text) then SubScore(0, Missing, [missingRec])
    else
      var n := |text.value|;
      var optimal := lo <= n <= hi;
      var recs :=
        if optimal then []
        else if n < lo then [LengthMessage(subject, "short", n, lo, hi)]
        else [LengthMessage(subject, "long", n, lo, hi)];
      SubScore(if optimal then base + bonus else base, Present(n, optimal, text.value), recs)
  }

  /** `_analyze_title`: 0 when missing, 15 when present, 30 when its length is in [50, 60]. */
  function AnalyzeTitle(title: Option<string>): (r: SubScore<TagDetails>)
    ensures r.points in {0, 15, 30}
    ensures r.points == 0 <==> IsMissing(title)
    ensures r.points == 30 <==> !IsMissing(title) && OptimalTitleLengthMin <= |title.value| <= OptimalTitleLengthMax
    ensures IsMissing(title) ==> r.recommendations == ["Add a title tag"]
    ensures |r.recommendations| <= 1
    ensures r.recommendations == [] <==> r.points == 30
  {
    AnalyzeLengthTag(title, "Add a title tag", "Title is", 15, 15, OptimalTitleLengthMin, OptimalTitleLengthMax)
  }

  /** `_analyze_meta_description`: 0 when missing, 12 when present, 25 when its length is in [150, 160]. */
  function AnalyzeMetaDescription(meta: Option<string>): (r: SubScore<TagDetails>)
    ensures r.points in {0, 12, 25}
    ensures r.points == 0 <==> IsMissing(meta)
    ensures r.points == 25 <==> !IsMissing(meta) && OptimalMetaDescLengthMin <= |meta.value| <= OptimalMetaDescLengthMax
    ensures IsMissing(meta) ==> r.recommendations == ["Add a meta description"]
    ensures |r.recommendations| <= 1
    ensures r.recommendations == [] <==> r.points == 25
  {
    AnalyzeLengthTag(meta, "Add a meta description", "Meta description", 12, 13,
                     OptimalMetaDescLengthMin, OptimalMetaDescLengthMax)
  }

  /** `_analyze_canonical`: 10 points for a canonical link. */
  function CanonicalPoints(present: bool): (p: int)
    ensures p == 0 || p == 10
    ensures p == 10 <==> present
  {
    if present then 10 else 0
  }

  /** `_analyze_open_graph`: 15 points with both tags, 7 with one, none without. */
  function OpenGraphPoints(ogTitle: bool, ogDescription: bool): (p: int)
    ensures p in {0, 7, 15}
    ensures p == 15 <==> ogTitle && ogDescription
    ensures p == 0 <==> !ogTitle && !ogDescription
  {
    if ogTitle && ogDescription then 15 else if ogTitle || ogDescription then 7 else 0
  }

  /** The fixed credit for a page that was fetched at all. */
  const FetchCredit: int := 10

  /**
   * `TechnicalSEOAnalyzer.analyze`: the sum of the four checks and the fetch
   * credit. It lies in [10, 90], so the cap at 100 never applies; the title
   * message, if any, comes before the meta-description message.
   */
  function AnalyzeTechnical(c: WebContent): (r: ModuleResult<TechnicalDetails>)
    ensures r.moduleName == "Technical SEO"
    ensures r.score == AnalyzeTitle(c.title).points + AnalyzeMetaDescription(c.metaDescription).points
                       + CanonicalPoints(c.hasCanonical) + OpenGraphPoints(c.hasOgTitle, c.hasOgDescription)
                       + FetchCredit
    ensures 10 <= r.score <= 90
    ensures r.status == GetStatus(r.score)
    ensures r.recommendations == AnalyzeTitle(c.title).recommendations
                                 + AnalyzeMetaDescription(c.metaDescription).recommendations
    ensures |r.recommendations| <= 2
    ensures r.details == TechnicalDetails(AnalyzeTitle(c.title).details, AnalyzeMetaDescription(c.metaDescription).details,
                                          c.hasCanonical, c.hasOgTitle || c.hasOgDescription,
                                          c.hasOgTitle && c.hasOgDescription, 200)
    ensures r.details.httpStatus == 200
  {
    var title := AnalyzeTitle(c.title);
    var meta := AnalyzeMetaDescription(c.metaDescription);
    var ogPresent := c.hasOgTitle || c.hasOgDescription;
    var ogComplete := c.hasOgTitle && c.hasOgDescription;
    var total := title.points + meta.points + CanonicalPoints(c.hasCanonical)
                 + OpenGraphPoints(c.hasOgTitle, c.hasOgDescription) + FetchCredit;
    var score := if total < 100 then total else 100;
    ModuleResult(
      "Technical SEO",
      score,
      GetStatus(score),
      TechnicalDetails(title.details, meta.details, c.hasCanonical, ogPresent, ogComplete, 200),
      title.recommendations + meta.recommendations)
  }

  /** The technical score is 90, its maximum, exactly when every check passes in full. */
  lemma TechnicalPerfectIff(c: WebContent)
    ensures AnalyzeTechnical(c).score == 90 <==>
              && !IsMissing(c.title) && OptimalTitleLengthMin <= |c.title.value| <= OptimalTitleLengthMax
              && !IsMissing(c.metaDescription)
              && OptimalMetaDescLengthMin <= |c.metaDescription.value| <= OptimalMetaDescLengthMax
              && c.hasCanonical && c.hasOgTitle && c.hasOgDescription
  {
    var t := AnalyzeTitle(c.title).points;
    var m := AnalyzeMetaDescription(c.metaDescription).points;
    var k := CanonicalPoints(c.hasCanonical);
    var o := OpenGraphPoints(c.hasOgTitle, c.hasOgDescription);
    assert t <= 30 && m <= 25 && k <= 10 && o <= 15;
  }

  /** A page with neither title nor meta description gets exactly the two "add" messages. */
  lemma MissingTagsRecommendations(c: WebContent)
    requires IsMissing(c.title) && IsMissing(c.metaDescription)
    ensures AnalyzeTechnical(c).recommendations == ["Add a title tag", "Add a meta description"]
    ensures AnalyzeTechnical(c).score <= 35
  {
  }
}
