/**
 * The scoring engine (src/core/scoring.py): the module-result envelope, the
 * weighted overall score, the weighted per-keyword score, and the
 * passed/warning/failed classification.
 */
module Scoring {
  import opened Config

  datatype Status = Passed | Warning | Failed

  /** How good a status is, for comparing them: failed < warning < passed. */
  function Rank(s: Status): nat {
    match s
    case Failed => 0
    case Warning => 1
    case Passed => 2
  }

  /** The envelope every analyzer returns; `details` is specific to each analyzer. */
  datatype ModuleResult<D> = ModuleResult(
    moduleName: string,
    score: int,
    status: Status,
    details: D,
    recommendations: seq<string>)

  /** A sub-check's points, what it recorded and what it recommends. */
  datatype SubScore<D> = SubScore(points: int, details: D, recommendations: seq<string>)

  /** Python's `int(x)` on a float: truncation toward zero. */
  function Truncate(x: real): (r: int)
    ensures x >= 0.0 ==> r as real <= x < r as real + 1.0
    ensures x < 0.0 ==> r as real - 1.0 < x <= r as real
  {
    if x >= 0.0 then x.Floor else -((-x).Floor)
  }

  lemma TruncateMonotone(x: real, y: real)
    requires x <= y
    ensures Truncate(x) <= Truncate(y)
  {
  }

  /** An integer bound below (above) a value is kept below (above) its truncation. */
  lemma TruncateBetween(x: real, lo: int, hi: int)
    requires lo as real <= x <= hi as real
    ensures lo <= Truncate(x) <= hi
  {
  }

  /** `min(100, max(0, v))`. */
  function Clamp100(v: int): (r: int)
    ensures 0 <= r <= 100
    ensures 0 <= v <= 100 ==> r == v
    ensures v < 0 ==> r == 0
    ensures v > 100 ==> r == 100
  {
    if v < 0 then 0 else if v > 100 then 100 else v
  }

  /** The weighted sum of the five module scores. */
  function WeightedModuleSum(keyword: int, technical: int, content: int, structure: int, link: int): real
  {
    var w := ScoreWeights;
    keyword as real * w.keywordAnalysis
    + technical as real * w.technicalSeo
    + content as real * w.contentAnalysis
    + structure as real * w.structure
    + link as real * w.links
  }

  /** The weighted sum of scores in `[lo, hi]` stays in `[lo, hi]`: it is a weighted average. */
  lemma WeightedSumBetween(k: int, t: int, c: int, s: int, l: int, lo: int, hi: int)
    requires lo <= k <= hi && lo <= t <= hi && lo <= c <= hi && lo <= s <= hi && lo <= l <= hi
    ensures lo as real <= WeightedModuleSum(k, t, c, s, l) <= hi as real
  {
  }

  /**
   * The overall score: weighted sum of the five module scores, truncated and
   * clamped to [0, 100]. When all five scores are already in [0, 100] the
   * clamp never changes anything, because the weights sum to one.
   */
  function CalculateOverallScore(keyword: int, technical: int, content: int, structure: int, link: int): (r: int)
    ensures 0 <= r <= 100
    ensures 0 <= keyword <= 100 && 0 <= technical <= 100 && 0 <= content <= 100
            && 0 <= structure <= 100 && 0 <= link <= 100
            ==> r == Truncate(WeightedModuleSum(keyword, technical, content, structure, link))
  {
    var sum := WeightedModuleSum(keyword, technical, content, structure, link);
    var inRange := 0 <= keyword <= 100 && 0 <= technical <= 100 && 0 <= content <= 100
                   && 0 <= structure <= 100 && 0 <= link <= 100;
    assert inRange ==> 0 <= Truncate(sum) <= 100 by {
      if inRange {
        WeightedSumBetween(keyword, technical, content, structure, link, 0, 100);
        TruncateBetween(sum, 0, 100);
      }
    }
    Clamp100(Truncate(sum))
  }

  /** The overall score of module scores in `[lo, hi]` is itself in `[lo, hi]`. */
  lemma OverallScoreBetween(keyword: int, technical: int, content: int, structure: int, link: int, lo: int, hi: int)
    requires 0 <= lo <= hi <= 100
    requires lo <= keyword <= hi && lo <= technical <= hi && lo <= content <= hi
    requires lo <= structure <= hi && lo <= link <= hi
    ensures lo <= CalculateOverallScore(keyword, technical, content, structure, link) <= hi
  {
    WeightedSumBetween(keyword, technical, content, structure, link, lo, hi);
    TruncateBetween(WeightedModuleSum(keyword, technical, content, structure, link), lo, hi);
  }

  /** Raising any module score never lowers the overall score. */
  lemma OverallScoreMonotone(
    k: int, t: int, c: int, s: int, l: int,
    k': int, t': int, c': int, s': int, l': int)
    requires k <= k' && t <= t' && c <= c' && s <= s' && l <= l'
    ensures CalculateOverallScore(k, t, c, s, l) <= CalculateOverallScore(k', t', c', s', l')
  {
    TruncateMonotone(WeightedModuleSum(k, t, c, s, l), WeightedModuleSum(k', t', c', s', l'));
  }

  /** Credit for heading matches: 50 per heading level matched, capped at 100. */
  function HeadingsSignal(matches: int): (r: int)
    ensures r <= 100
    ensures matches >= 2 ==> r == 100
    ensures matches < 2 ==> r == 50 * matches
  {
    if matches * 50 < 100 then matches * 50 else 100
  }

  function Indicator(b: bool): real {
    if b then 100.0 else 0.0
  }

  /** The weighted sum of the seven per-keyword signals. */
  function KeywordSignalSum(
    inTitle: bool, inMeta: bool, inH1: bool, inHeadings: int,
    inFirst100Words: bool, densityScore: real, distributionScore: real): real
  {
    var w := KeywordScoreWeights;
    Indicator(inTitle) * w.titleMatch
    + Indicator(inMeta) * w.metaMatch
    + Indicator(inH1) * w.h1Match
    + HeadingsSignal(inHeadings) as real * w.headingsMatch
    + Indicator(inFirst100Words) * w.first100Words
    + densityScore * w.densityScore
    + distributionScore * w.distributionScore
  }

  /** A keyword's match score: the weighted signal sum, truncated and clamped to [0, 100]. */
  function CalculateKeywordScore(
    inTitle: bool, inMeta: bool, inH1: bool, inHeadings: int,
    inFirst100Words: bool, densityScore: real, distributionScore: real): (r: int)
    ensures 0 <= r <= 100
    ensures 0.0 <= densityScore <= 100.0 && 0.0 <= distributionScore <= 100.0 && inHeadings >= 0 ==>
              var sum := KeywordSignalSum(inTitle, inMeta, inH1, inHeadings, inFirst100Words, densityScore, distributionScore);
              r as real <= sum < r as real + 1.0
  {
    Clamp100(Truncate(KeywordSignalSum(inTitle, inMeta, inH1, inHeadings, inFirst100Words, densityScore, distributionScore)))
  }

  /**
   * Turning a boolean signal on, matching more headings, or raising the
   * density or distribution score never lowers a keyword's score.
   */
  lemma KeywordScoreMonotone(
    inTitle: bool, inMeta: bool, inH1: bool, inHeadings: int, inFirst100Words: bool, densityScore: real, distributionScore: real,
    inTitle': bool, inMeta': bool, inH1': bool, inHeadings': int, inFirst100Words': bool, densityScore': real, distributionScore': real)
    requires inTitle ==> inTitle'
    requires inMeta ==> inMeta'
    requires inH1 ==> inH1'
    requires inHeadings <= inHeadings'
    requires inFirst100Words ==> inFirst100Words'
    requires densityScore <= densityScore' && distributionScore <= distributionScore'
    ensures CalculateKeywordScore(inTitle, inMeta, inH1, inHeadings, inFirst100Words, densityScore, distributionScore)
         <= CalculateKeywordScore(inTitle', inMeta', inH1', inHeadings', inFirst100Words', densityScore', distributionScore')
  {
    TruncateMonotone(
      KeywordSignalSum(inTitle, inMeta, inH1, inHeadings, inFirst100Words, densityScore, distributionScore),
      KeywordSignalSum(inTitle', inMeta', inH1', inHeadings', inFirst100Words', densityScore', distributionScore'));
  }

  /**
   * Each signal alone scores its weight: title 20, meta description 15, H1 15,
   * one matched heading level 5 (two or more 10), first hundred words 10, and
   * 0.15 of the density or distribution score.
   */
  lemma SingleSignalScores(x: real)
    requires 0.0 <= x <= 100.0
    ensures CalculateKeywordScore(true, false, false, 0, false, 0.0, 0.0) == 20
    ensures CalculateKeywordScore(false, true, false, 0, false, 0.0, 0.0) == 15
    ensures CalculateKeywordScore(false, false, true, 0, false, 0.0, 0.0) == 15
    ensures CalculateKeywordScore(false, false, false, 1, false, 0.0, 0.0) == 5
    ensures CalculateKeywordScore(false, false, false, 2, false, 0.0, 0.0) == 10
    ensures CalculateKeywordScore(false, false, false, 0, true, 0.0, 0.0) == 10
    ensures CalculateKeywordScore(false, false, false, 0, false, x, 0.0) == Truncate(0.15 * x)
    ensures CalculateKeywordScore(false, false, false, 0, false, 0.0, x) == Truncate(0.15 * x)
  {
  }

  /** Every signal at its best gives a perfect keyword score. */
  lemma KeywordScorePerfect(inHeadings: int)
    requires inHeadings >= 2
    ensures CalculateKeywordScore(true, true, true, inHeadings, true, 100.0, 100.0) == 100
  {
  }

  /** `get_status`: 80 and above pass, 60 to 79 warn, below 60 fail. */
  function GetStatus(score: int): (s: Status)
    ensures s == Passed <==> score >= 80
    ensures s == Warning <==> 60 <= score < 80
    ensures s == Failed <==> score < 60
  {
    if score >= 80 then Passed
    else if score >= 60 then Warning
    else Failed
  }

  /** A higher score never gets a worse status. */
  lemma GetStatusMonotone(a: int, b: int)
    requires a <= b
    ensures Rank(GetStatus(a)) <= Rank(GetStatus(b))
  {
  }
}
