/**
 * The content analyzer (src/analyzers/content_analyzer.py): a score per
 * keyword from where it appears and how dense it is, the keyword cluster's
 * mean score, and a content score from the word count and the mean density.
 */
module ContentAnalyzer {
  import opened Config
  import opened Scoring
  import opened Wrappers
  import opened Fetcher
  import opened TextUtils
  import opened KeywordProcessor
  import Format

  /** What is found about one keyword. */
  datatype KeywordScore = KeywordScore(
    keyword: string,
    score: int,
    inTitle: bool,
    inMeta: bool,
    inH1: bool,
    inHeadings: seq<Level>,
    inFirst100Words: bool,
    density: real,
    distributionScore: int,
    recommendations: seq<string>)

  datatype ClusterScore = ClusterScore(
    keywords: seq<string>,
    clusterScore: int,
    individualScores: seq<KeywordScore>)

  datatype ContentDetails = ContentDetails(
    wordCount: nat,
    adequateLength: bool,
    avgKeywordDensity: real,
    keywordCluster: ClusterScore)

  /**
   * Credit for a keyword's density: full inside the optimal band,
   * proportional below it, and 20 points lost per percentage point above it.
   */
  function DensityScore(density: real): (r: real)
    ensures density >= 0.0 ==> 0.0 <= r <= 100.0
    ensures density >= 0.0 ==> (r == 100.0 <==> OptimalKeywordDensityMin <= density <= OptimalKeywordDensityMax)
    ensures density < OptimalKeywordDensityMin ==> r == density * 100.0
    ensures density > OptimalKeywordDensityMax ==>
              r == (if 100.0 - 20.0 * (density - 3.0) > 0.0 then 100.0 - 20.0 * (density - 3.0) else 0.0)
  {
    if OptimalKeywordDensityMin <= density <= OptimalKeywordDensityMax then 100.0
    else if density < OptimalKeywordDensityMin then (density / OptimalKeywordDensityMin) * 100.0
    else
      var d := 100.0 - (density - OptimalKeywordDensityMax) * 20.0;
      if d > 0.0 then d else 0.0
  }

  /** Above the band, one more percentage point of density costs 20 points, down to 0. */
  lemma DensityPenaltyStep(density: real)
    requires density >= OptimalKeywordDensityMax
    ensures DensityScore(density + 1.0) == if DensityScore(density) - 20.0 > 0.0 then DensityScore(density) - 20.0 else 0.0
  {
  }

  /** Some text of the list matches the keyword (the loop stops at the first that does). */
  function AnyMatch(lex: Lexicon, kv: KeywordVariation, texts: seq<string>): (b: bool)
    ensures b <==> exists j :: 0 <= j < |texts| && MatchKeywordInText(lex, kv, texts[j])
  {
    if |texts| == 0 then false
    else MatchKeywordInText(lex, kv, texts[0]) || AnyMatch(lex, kv, texts[1..])
  }

  /** Levels strictly increasing: each level listed once, in tag order. */
  predicate StrictlyIncreasing(s: seq<Level>) {
    forall i, j :: 0 <= i < j < |s| ==> s[i] < s[j]
  }

  /** The levels from `from` to 6 that satisfy `p`, in order. */
  function LevelsWhere(p: Level -> bool, from: int): (r: seq<Level>)
    requires 1 <= from <= 7
    ensures StrictlyIncreasing(r)
    ensures forall i :: 0 <= i < |r| ==> from <= r[i]
    ensures forall l: Level :: from <= l ==> (l in r <==> p(l))
    decreases 7 - from
  {
    if from == 7 then []
    else
      var rest := LevelsWhere(p, from + 1);
      if p(from) then [from as Level] + rest else rest
  }

  /** The heading levels with a heading that matches the keyword. */
  function MatchingLevels(lex: Lexicon, kv: KeywordVariation, h: HeadingTable): (r: seq<Level>)
    ensures StrictlyIncreasing(r)
    ensures forall l: Level :: l in r <==> AnyMatch(lex, kv, HeadingsAt(h, l))
  {
    LevelsWhere((l: Level) => AnyMatch(lex, kv, HeadingsAt(h, l)), 1)
  }

  /** The credit every keyword gets for its distribution (a fixed value in the source). */
  const DistributionScore: int := 70

  /** 1 for a check that failed, 0 for one that passed. */
  function Failed(b: bool): nat {
    if b then 1 else 0
  }

  function TitleMessage(original: string): string {
    "Add '" + original + "' to title tag"
  }

  function MetaMessage(original: string): string {
    "Add '" + original + "' to meta description"
  }

  function H1Message(original: string): string {
    "Include '" + original + "' in H1 heading"
  }

  function LowDensityMessage(density: real): string
    requires density >= 0.0
  {
    "Increase keyword density (currently " + Format.FormatTenths(density) + "%)"
  }

  /**
   * The per-keyword messages: one per failed check, in the order title, meta
   * description, H1, density. Each message sits at the index that counts the
   * failed checks before it.
   */
  function KeywordRecommendations(original: string, inTitle: bool, inMeta: bool, inH1: bool, density: real): (r: seq<string>)
    requires density >= 0.0
    ensures |r| == Failed(!inTitle) + Failed(!inMeta) + Failed(!inH1) + Failed(density < OptimalKeywordDensityMin)
    ensures r == [] <==> inTitle && inMeta && inH1 && density >= OptimalKeywordDensityMin
    ensures !inTitle ==> r[0] == TitleMessage(original)
    ensures !inMeta ==> r[Failed(!inTitle)] == MetaMessage(original)
    ensures !inH1 ==> r[Failed(!inTitle) + Failed(!inMeta)] == H1Message(original)
    ensures density < OptimalKeywordDensityMin ==> r[|r| - 1] == LowDensityMessage(density)
  {
    (if inTitle then [] else [TitleMessage(original)])
    + (if inMeta then [] else [MetaMessage(original)])
    + (if inH1 then [] else [H1Message(original)])
    + (if density < OptimalKeywordDensityMin then [LowDensityMessage(density)] else [])
  }

  /** The weakest possible keyword still scores 10, from the fixed distribution credit. */
  lemma KeywordScoreFloor(
    inTitle: bool, inMeta: bool, inH1: bool, inHeadings: nat, inFirst100Words: bool, densityScore: real)
    requires densityScore >= 0.0
    ensures CalculateKeywordScore(inTitle, inMeta, inH1, inHeadings, inFirst100Words, densityScore, DistributionScore as real) >= 10
  {
    assert CalculateKeywordScore(false, false, false, 0, false, 0.0, DistributionScore as real) == 10;
    KeywordScoreMonotone(
      false, false, false, 0, false, 0.0, DistributionScore as real,
      inTitle, inMeta, inH1, inHeadings, inFirst100Words, densityScore, DistributionScore as real);
  }

  /** `_analyze_keyword`. */
  function AnalyzeKeyword(lex: Lexicon, c: WebContent, kv: KeywordVariation): (k: KeywordScore)
    ensures k.keyword == kv.original
    ensures k.inTitle == MatchKeywordInText(lex, kv, c.title.GetOr(""))
    ensures k.inMeta == MatchKeywordInText(lex, kv, c.metaDescription.GetOr(""))
    ensures k.inH1 == MatchKeywordInText(lex, kv, c.h1.GetOr(""))
    ensures StrictlyIncreasing(k.inHeadings)
    ensures forall l: Level :: l in k.inHeadings <==>
              exists j :: 0 <= j < |HeadingsAt(c.headings, l)| && MatchKeywordInText(lex, kv, HeadingsAt(c.headings, l)[j])
    ensures k.inFirst100Words == MatchKeywordInText(lex, kv, GetFirstNWords(c.bodyText, 100))
    ensures k.density == CalculateDensity(kv.original, c.bodyText)
    ensures k.distributionScore == 70
    ensures 10 <= k.score <= 100
    ensures k.score == CalculateKeywordScore(k.inTitle, k.inMeta, k.inH1, |k.inHeadings|, k.inFirst100Words,
                                             DensityScore(k.density), 70.0)
    ensures k.recommendations == KeywordRecommendations(kv.original, k.inTitle, k.inMeta, k.inH1, k.density)
  {
    var inTitle := MatchKeywordInText(lex, kv, c.title.GetOr(""));
    var inMeta := MatchKeywordInText(lex, kv, c.metaDescription.GetOr(""));
    var inH1 := MatchKeywordInText(lex, kv, c.h1.GetOr(""));
    var inHeadings := MatchingLevels(lex, kv, c.headings);
    var inFirst100Words := MatchKeywordInText(lex, kv, GetFirstNWords(c.bodyText, 100));
    var density := CalculateDensity(kv.original, c.bodyText);
    var densityScore := DensityScore(density);
    KeywordScoreFloor(inTitle, inMeta, inH1, |inHeadings|, inFirst100Words, densityScore);
    var score := CalculateKeywordScore(inTitle, inMeta, inH1, |inHeadings|, inFirst100Words,
                                       densityScore, DistributionScore as real);
    KeywordScore(kv.original, score, inTitle, inMeta, inH1, inHeadings, inFirst100Words, density,
                 DistributionScore, KeywordRecommendations(kv.original, inTitle, inMeta, inH1, density))
  }

  function SumScores(ks: seq<KeywordScore>): int {
    if |ks| == 0 then 0 else ks[0].score + SumScores(ks[1..])
  }

  function SumDensities(ks: seq<KeywordScore>): real {
    if |ks| == 0 then 0.0 else ks[0].density + SumDensities(ks[1..])
  }

  /** Bounds on every score bound their sum. */
  lemma {:induction false} SumScoresBetween(ks: seq<KeywordScore>, lo: int, hi: int)
    requires forall k :: 0 <= k < |ks| ==> lo <= ks[k].score <= hi
    ensures lo * |ks| <= SumScores(ks) <= hi * |ks|
    decreases |ks|
  {
    if |ks| > 0 {
      SumScoresBetween(ks[1..], lo, hi);
      assert lo * |ks| == lo + lo * (|ks| - 1);
      assert hi * |ks| == hi + hi * (|ks| - 1);
    }
  }

  lemma {:induction false} SumDensitiesNonNegative(ks: seq<KeywordScore>)
    requires forall k :: 0 <= k < |ks| ==> ks[k].density >= 0.0
    ensures SumDensities(ks) >= 0.0
    decreases |ks|
  {
    if |ks| > 0 {
      SumDensitiesNonNegative(ks[1..]);
    }
  }

  /** The mean of the keyword scores, truncated; 0 without keywords. */
  function MeanScore(ks: seq<KeywordScore>): int {
    if |ks| == 0 then 0 else Truncate(SumScores(ks) as real / |ks| as real)
  }

  /** The mean density of the keywords; 0 without keywords. */
  function MeanDensity(ks: seq<KeywordScore>): real {
    if |ks| == 0 then 0.0 else SumDensities(ks) / |ks| as real
  }

  /** A mean of integers between `lo` and `hi` lies between them too. */
  lemma RealMeanBetween(sum: int, n: nat, lo: int, hi: int)
    requires n > 0 && lo * n <= sum <= hi * n
    ensures lo as real <= sum as real / n as real <= hi as real
  {
    var q := sum as real / n as real;
    assert q * n as real == sum as real;
    assert (lo * n) as real == lo as real * n as real;
    assert (hi * n) as real == hi as real * n as real;
  }

  /** The cluster score lies between the lowest and the highest keyword score. */
  lemma MeanScoreBetween(ks: seq<KeywordScore>, lo: int, hi: int)
    requires |ks| > 0
    requires forall k :: 0 <= k < |ks| ==> lo <= ks[k].score <= hi
    ensures lo <= MeanScore(ks) <= hi
  {
    SumScoresBetween(ks, lo, hi);
    RealMeanBetween(SumScores(ks), |ks|, lo, hi);
    TruncateBetween(SumScores(ks) as real / |ks| as real, lo, hi);
  }

  lemma MeanDensityNonNegative(ks: seq<KeywordScore>)
    requires forall k :: 0 <= k < |ks| ==> ks[k].density >= 0.0
    ensures MeanDensity(ks) >= 0.0
  {
    SumDensitiesNonNegative(ks);
  }

  function KeywordScores(lex: Lexicon, c: WebContent, kvs: seq<KeywordVariation>): (r: seq<KeywordScore>)
    ensures |r| == |kvs|
    ensures forall i :: 0 <= i < |kvs| ==> r[i] == AnalyzeKeyword(lex, c, kvs[i])
  {
    seq(|kvs|, i requires 0 <= i < |kvs| => AnalyzeKeyword(lex, c, kvs[i]))
  }

  /** The cluster of all keywords: their originals in order, the scores, and the mean score in [0, 100]. */
  function AnalyzeCluster(lex: Lexicon, c: WebContent, kvs: seq<KeywordVariation>): (cl: ClusterScore)
    ensures |cl.keywords| == |kvs| && forall i :: 0 <= i < |kvs| ==> cl.keywords[i] == kvs[i].original
    ensures cl.individualScores == KeywordScores(lex, c, kvs)
    ensures cl.clusterScore == MeanScore(cl.individualScores)
    ensures |kvs| == 0 ==> cl.clusterScore == 0
    ensures |kvs| > 0 ==> 10 <= cl.clusterScore <= 100
  {
    var scores := KeywordScores(lex, c, kvs);
    assert |kvs| > 0 ==> 10 <= MeanScore(scores) <= 100 by {
      if |kvs| > 0 {
        MeanScoreBetween(scores, 10, 100);
      }
    }
    ClusterScore(seq(|kvs|, i requires 0 <= i < |kvs| => kvs[i].original), MeanScore(scores), scores)
  }

  /** Credit for the word count: 50 from the minimum up, proportional below it. */
  function WordCountCredit(wordCount: nat): (r: real)
    ensures 0.0 <= r <= 50.0
    ensures r == 50.0 <==> wordCount >= MinWordCount
    ensures wordCount < MinWordCount ==> r == wordCount as real / 6.0
  {
    if wordCount >= MinWordCount then 50.0 else (wordCount as real / MinWordCount as real) * 50.0
  }

  /**
   * Credit for the mean density: 50 inside the optimal band, proportional
   * below it, and 10 points lost per percentage point above it.
   */
  function DensityHealth(avg: real): (r: real)
    requires avg >= 0.0
    ensures 0.0 <= r <= 50.0
    ensures r == 50.0 <==> OptimalKeywordDensityMin <= avg <= OptimalKeywordDensityMax
    ensures avg < OptimalKeywordDensityMin ==> r == avg * 50.0
    ensures avg > OptimalKeywordDensityMax ==>
              r == (if 50.0 - 10.0 * (avg - 3.0) > 0.0 then 50.0 - 10.0 * (avg - 3.0) else 0.0)
  {
    if OptimalKeywordDensityMin <= avg <= OptimalKeywordDensityMax then 50.0
    else if avg < OptimalKeywordDensityMin then (avg / OptimalKeywordDensityMin) * 50.0
    else
      var d := 50.0 - (avg - OptimalKeywordDensityMax) * 10.0;
      if d > 0.0 then d else 0.0
  }

  /**
   * The mean-density credit is the per-keyword density score at half scale:
   * both follow one rule, 10 points lost per percentage point above the band
   * out of 50 being 20 out of 100.
   */
  lemma HealthIsHalfScore(d: real)
    requires d >= 0.0
    ensures DensityHealth(d) * 2.0 == DensityScore(d)
  {
  }

  function LengthMessage(wordCount: nat): string {
    "Increase content length to at least " + Format.NatToString(MinWordCount)
    + " words (currently " + Format.NatToString(wordCount) + ")"
  }

  function ImproveDensityMessage(avg: real): string
    requires avg >= 0.0
  {
    "Improve keyword density (currently " + Format.FormatTenths(avg) + "%)"
  }

  function ReduceDensityMessage(avg: real): string
    requires avg >= 0.0
  {
    "Reduce keyword density to avoid keyword stuffing (currently " + Format.FormatTenths(avg) + "%)"
  }

  /**
   * The module-level messages: the length message for a short page first,
   * then one density message for a mean density below ("improve") or above
   * ("reduce") the band.
   */
  function ContentRecommendations(wordCount: nat, avg: real): (r: seq<string>)
    requires avg >= 0.0
    ensures |r| == Failed(wordCount < MinWordCount)
                   + Failed(!(OptimalKeywordDensityMin <= avg <= OptimalKeywordDensityMax))
    ensures r == [] <==> wordCount >= MinWordCount && OptimalKeywordDensityMin <= avg <= OptimalKeywordDensityMax
    ensures wordCount < MinWordCount ==> r[0] == LengthMessage(wordCount)
    ensures avg < OptimalKeywordDensityMin ==> r[|r| - 1] == ImproveDensityMessage(avg)
    ensures avg > OptimalKeywordDensityMax ==> r[|r| - 1] == ReduceDensityMessage(avg)
  {
    (if wordCount >= MinWordCount then [] else [LengthMessage(wordCount)])
    + (if OptimalKeywordDensityMin <= avg <= OptimalKeywordDensityMax then []
       else if avg < OptimalKeywordDensityMin then [ImproveDensityMessage(avg)]
       else [ReduceDensityMessage(avg)])
  }

  lemma ClusterDensityNonNegative(lex: Lexicon, c: WebContent, kvs: seq<KeywordVariation>)
    ensures MeanDensity(AnalyzeCluster(lex, c, kvs).individualScores) >= 0.0
  {
    var scores := AnalyzeCluster(lex, c, kvs).individualScores;
    forall k | 0 <= k < |scores|
      ensures scores[k].density >= 0.0
    {
      assert scores[k] == AnalyzeKeyword(lex, c, kvs[k]);
    }
    MeanDensityNonNegative(scores);
  }

  /** Two credits of at most 50 each truncate to 100 only when both are full. */
  lemma FullCredits(w: real, d: real)
    requires 0.0 <= w <= 50.0 && 0.0 <= d <= 50.0
    ensures Truncate(w + d) == 100 <==> w == 50.0 && d == 50.0
  {
  }

  /**
   * The truncated sum of the two credits: it lies in [0, 100] without any
   * clamp, and is 100 exactly when both credits are full.
   */
  function ContentScore(wordCount: nat, avg: real): (n: int)
    requires avg >= 0.0
    ensures 0 <= n <= 100
    ensures n == 100 <==> wordCount >= MinWordCount && OptimalKeywordDensityMin <= avg <= OptimalKeywordDensityMax
    ensures n as real <= WordCountCredit(wordCount) + DensityHealth(avg) < n as real + 1.0
  {
    var total := WordCountCredit(wordCount) + DensityHealth(avg);
    TruncateBetween(total, 0, 100);
    FullCredits(WordCountCredit(wordCount), DensityHealth(avg));
    Truncate(total)
  }

  /**
   * `ContentAnalyzer.analyze`: the truncated sum of the word-count credit and
   * the density credit, which lies in [0, 100] without any clamp.
   */
  function AnalyzeContent(lex: Lexicon, c: WebContent, kvs: seq<KeywordVariation>): (r: ModuleResult<ContentDetails>)
    ensures r.moduleName == "Content Analysis"
    ensures var cluster := AnalyzeCluster(lex, c, kvs);
            var avg := MeanDensity(cluster.individualScores);
            && avg >= 0.0
            && r.details == ContentDetails(c.wordCount, c.wordCount >= MinWordCount, avg, cluster)
            && r.score == ContentScore(c.wordCount, avg)
            && r.recommendations == ContentRecommendations(c.wordCount, avg)
    ensures 0 <= r.score <= 100
    ensures r.status == GetStatus(r.score)
    ensures |r.recommendations| <= 2
  {
    var cluster := AnalyzeCluster(lex, c, kvs);
    var scores := cluster.individualScores;
    ClusterDensityNonNegative(lex, c, kvs);
    var avg := MeanDensity(scores);
    var score := ContentScore(c.wordCount, avg);
    ModuleResult(
      "Content Analysis",
      score,
      GetStatus(score),
      ContentDetails(c.wordCount, c.wordCount >= MinWordCount, avg, cluster),
      ContentRecommendations(c.wordCount, avg))
  }

  /** The content score is 100 exactly when the page is long enough and the mean density is in band. */
  lemma ContentPerfectIff(lex: Lexicon, c: WebContent, kvs: seq<KeywordVariation>)
    ensures AnalyzeContent(lex, c, kvs).score == 100 <==>
              && c.wordCount >= MinWordCount
              && var avg := MeanDensity(AnalyzeCluster(lex, c, kvs).individualScores);
                 OptimalKeywordDensityMin <= avg <= OptimalKeywordDensityMax
  {
    var avg := MeanDensity(AnalyzeCluster(lex, c, kvs).individualScores);
    ClusterDensityNonNegative(lex, c, kvs);
    assert AnalyzeContent(lex, c, kvs).score == ContentScore(c.wordCount, avg);
  }
}
