/**
 * The link analyzer (src/analyzers/link_analyzer.py): internal links
 * against the recommended minimum, the presence of external links, and a
 * fixed base.
 */
module LinkAnalyzer {
  import opened Config
  import opened Scoring
  import opened Fetcher
  import Format

  datatype LinkDetails = LinkDetails(internalCount: nat, recommendedMin: nat, externalCount: nat)

  function CountInternal(links: seq<Link>): (n: nat)
    ensures n <= |links|
  {
    if |links| == 0 then 0 else (if links[0].isInternal then 1 else 0) + CountInternal(links[1..])
  }

  function CountExternal(links: seq<Link>): (n: nat)
    ensures n <= |links|
  {
    if |links| == 0 then 0 else (if links[0].isExternal then 1 else 0) + CountExternal(links[1..])
  }

  /** Every link is either internal or external, never both: the fetcher's classification. */
  predicate Classified(links: seq<Link>) {
    forall k :: 0 <= k < |links| ==> links[k].isExternal == !links[k].isInternal
  }

  /** With classified links, the internal and the external links together are all the links. */
  lemma {:induction false} CountsPartition(links: seq<Link>)
    requires Classified(links)
    ensures CountInternal(links) + CountExternal(links) == |links|
    decreases |links|
  {
    if |links| > 0 {
      CountsPartition(links[1..]);
    }
  }

  /** Every page the fetcher builds has its links classified. */
  lemma WellFormedClassified(c: WebContent)
    requires WellFormed(c)
    ensures CountInternal(c.links) + CountExternal(c.links) == |c.links|
  {
    CountsPartition(c.links);
  }

  /**
   * Credit for internal links: 35 from the recommended minimum up (above the
   * maximum too), otherwise the proportional share of 35, as a float.
   */
  function InternalCredit(count: nat): (x: real)
    ensures count >= RecommendedInternalLinksMin ==> x == 35.0
    ensures count < RecommendedInternalLinksMin ==> x == (count as real / RecommendedInternalLinksMin as real) * 35.0
  {
    if RecommendedInternalLinksMin <= count <= RecommendedInternalLinksMax then 35.0
    else if count < RecommendedInternalLinksMin then (count as real / RecommendedInternalLinksMin as real) * 35.0
    else 35.0
  }

  /** The truncated proportional credit is exactly 7 points per internal link below five. */
  lemma InternalPointsBelowMinimum(count: nat)
    requires count < RecommendedInternalLinksMin
    ensures Truncate(InternalCredit(count)) == 7 * count
  {
    assert InternalCredit(count) == (7 * count) as real;
  }

  /**
   * `LinkAnalyzer.analyze`: truncated internal credit, 25 for any external
   * link, and a base of 40. The score lies in [40, 100]; the internal-link
   * message, if any, comes before the external-link message.
   */
  function AnalyzeLinks(c: WebContent): (r: ModuleResult<LinkDetails>)
    ensures r.moduleName == "Links"
    ensures var internal := CountInternal(c.links);
            var external := CountExternal(c.links);
            && r.details == LinkDetails(internal, RecommendedInternalLinksMin, external)
            && r.score == (if internal >= RecommendedInternalLinksMin then 35 else 7 * internal)
                          + (if external > 0 then 25 else 0) + 40
            && r.recommendations ==
                 (if internal < RecommendedInternalLinksMin
                  then ["Add " + Format.NatToString(RecommendedInternalLinksMin - internal) + " more internal link(s)"]
                  else [])
                 + (if external == 0 then ["Add some external links to authoritative sources"] else [])
    ensures 40 <= r.score <= 100
    ensures r.status == GetStatus(r.score)
  {
    var internal := CountInternal(c.links);
    var external := CountExternal(c.links);
    var internalRecs :=
      if internal < RecommendedInternalLinksMin
      then ["Add " + Format.NatToString(RecommendedInternalLinksMin - internal) + " more internal link(s)"]
      else [];
    var externalRecs := if external > 0 then [] else ["Add some external links to authoritative sources"];
    assert internal < RecommendedInternalLinksMin ==> Truncate(InternalCredit(internal)) == 7 * internal by {
      if internal < RecommendedInternalLinksMin {
        InternalPointsBelowMinimum(internal);
      }
    }
    var total := Truncate(InternalCredit(internal)) + (if external > 0 then 25 else 0) + 25 + 15;
    var score := if total < 100 then total else 100;
    ModuleResult(
      "Links",
      score,
      GetStatus(score),
      LinkDetails(internal, RecommendedInternalLinksMin, external),
      internalRecs + externalRecs)
  }

  /** The link score is 100 exactly when there are at least five internal links and some external one. */
  lemma LinkPerfectIff(c: WebContent)
    ensures AnalyzeLinks(c).score == 100 <==>
              CountInternal(c.links) >= RecommendedInternalLinksMin && CountExternal(c.links) > 0
  {
  }
}
