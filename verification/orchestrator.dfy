/**
 * The analysis run (src/core/orchestrator.py): the four analyzers on one
 * fetched page, the overall score from the five module scores, and the
 * top recommendations drawn from every module and ranked by score.
 */
module Orchestrator {
  import opened Wrappers
  import opened Scoring
  import opened TextUtils
  import opened KeywordProcessor
  import opened Fetcher
  import opened TechnicalSeo
  import opened ContentAnalyzer
  import opened StructureAnalyzer
  import opened LinkAnalyzer
  import opened Ranking

  /** Everything one run reports. `analyzedAt` is the caller's timestamp. */
  datatype AnalysisReport = AnalysisReport(
    url: string,
    analyzedAt: string,
    overallScore: int,
    keywordCluster: ClusterScore,
    technicalSeo: ModuleResult<TechnicalDetails>,
    contentAnalysis: ModuleResult<ContentDetails>,
    structureAnalysis: ModuleResult<StructureDetails>,
    linkAnalysis: ModuleResult<LinkDetails>,
    topRecommendations: seq<string>)

  /** The keyword candidate of one keyword score: its first recommendation at its score. */
  function KeywordCandidate(k: KeywordScore): Candidate
    requires k.recommendations != []
  {
    Candidate(KeywordSource, k.score, k.recommendations[0])
  }

  /** The positions of the keywords that have any recommendation, in increasing order. */
  function CandidateIndices(scores: seq<KeywordScore>): (ix: seq<nat>)
    ensures forall j :: 0 <= j < |ix| ==> ix[j] < |scores| && scores[ix[j]].recommendations != []
    ensures forall i, j :: 0 <= i < j < |ix| ==> ix[i] < ix[j]
    ensures forall k :: 0 <= k < |scores| && scores[k].recommendations != [] ==> k in ix
  {
    if |scores| == 0 then []
    else
      var init := scores[..|scores| - 1];
      assert forall k :: 0 <= k < |init| ==> init[k] == scores[k];
      CandidateIndices(init) + (if scores[|scores| - 1].recommendations != [] then [|scores| - 1] else [])
  }

  /** The candidates of the keywords at `CandidateIndices(scores)`, built as the source's loop appends them. */
  function CandidatesInOrder(scores: seq<KeywordScore>): (r: seq<Candidate>)
    ensures |r| == |CandidateIndices(scores)|
    ensures forall j :: 0 <= j < |r| ==> r[j] == KeywordCandidate(scores[CandidateIndices(scores)[j]])
  {
    if |scores| == 0 then []
    else
      var init := scores[..|scores| - 1];
      var last := scores[|scores| - 1];
      var front := CandidatesInOrder(init);
      var r := front + (if last.recommendations != [] then [KeywordCandidate(last)] else []);
      var ix := CandidateIndices(scores);
      var ixInit := CandidateIndices(init);
      assert ix == ixInit + (if last.recommendations != [] then [|scores| - 1] else []);
      assert forall j :: 0 <= j < |r| ==> r[j] == KeywordCandidate(scores[ix[j]]) by {
        forall j | 0 <= j < |r|
          ensures r[j] == KeywordCandidate(scores[ix[j]])
        {
          if j < |front| {
            assert ix[j] == ixInit[j];
            assert init[ixInit[j]] == scores[ixInit[j]];
          }
        }
      }
      r
  }

  /**
   * One candidate per keyword that has any recommendation, in keyword order:
   * the `j`-th candidate is the one of the `j`-th keyword with messages.
   * Every candidate belongs to such a keyword and every such keyword has its
   * candidate; keywords without recommendations contribute nothing.
   */
  function KeywordCandidates(scores: seq<KeywordScore>): (r: seq<Candidate>)
    ensures |r| == |CandidateIndices(scores)|
    ensures forall j :: 0 <= j < |r| ==> r[j] == KeywordCandidate(scores[CandidateIndices(scores)[j]])
    ensures forall i :: 0 <= i < |r| ==> r[i].source == KeywordSource
    ensures forall c :: c in r ==>
              exists k :: 0 <= k < |scores| && scores[k].recommendations != [] && c == KeywordCandidate(scores[k])
    ensures forall k :: 0 <= k < |scores| && scores[k].recommendations != [] ==> KeywordCandidate(scores[k]) in r
  {
    var r := CandidatesInOrder(scores);
    var ix := CandidateIndices(scores);
    assert forall c :: c in r ==>
             exists k :: 0 <= k < |scores| && scores[k].recommendations != [] && c == KeywordCandidate(scores[k]) by {
      forall c | c in r
        ensures exists k :: 0 <= k < |scores| && scores[k].recommendations != [] && c == KeywordCandidate(scores[k])
      {
        var j :| 0 <= j < |r| && r[j] == c;
        assert c == KeywordCandidate(scores[ix[j]]);
      }
    }
    assert forall k :: 0 <= k < |scores| && scores[k].recommendations != [] ==> KeywordCandidate(scores[k]) in r by {
      forall k | 0 <= k < |scores| && scores[k].recommendations != []
        ensures KeywordCandidate(scores[k]) in r
      {
        var j :| 0 <= j < |ix| && ix[j] == k;
        assert r[j] == KeywordCandidate(scores[k]);
      }
    }
    r
  }

  /**
   * The keyword bucket: the two lowest-scoring keyword candidates, lowest
   * first. No candidate left out scores below a kept one.
   */
  function KeywordBucket(scores: seq<KeywordScore>): (r: seq<Candidate>)
    ensures var cands := KeywordCandidates(scores);
            && |r| == (if |cands| < 2 then |cands| else 2)
            && SortedByScore(r)
            && multiset(r) <= multiset(cands)
    ensures r == SortByScore(KeywordCandidates(scores))[..|r|]
    ensures KeepsLowest(r, KeywordCandidates(scores))
    ensures forall i :: 0 <= i < |r| ==> r[i].source == KeywordSource
  {
    var cands := KeywordCandidates(scores);
    var r := Lowest(cands, 2);
    LowestPrefix(cands, 2);
    LowestKeepsLowest(cands, 2);
    assert forall i :: 0 <= i < |r| ==> r[i].source == KeywordSource by {
      forall i | 0 <= i < |r|
        ensures r[i].source == KeywordSource
      {
        assert r[i] in multiset(cands);
        var j :| 0 <= j < |cands| && cands[j] == r[i];
      }
    }
    r
  }

  /** Keyword candidates of equal score enter the bucket in keyword order. */
  lemma KeywordBucketTiesInOrder(scores: seq<KeywordScore>, k: int)
    ensures var kept := WithScore(KeywordBucket(scores), k);
            var all := WithScore(KeywordCandidates(scores), k);
            |kept| <= |all| && all[..|kept|] == kept
  {
    LowestTiesKeepOrder(KeywordCandidates(scores), 2, k);
  }

  /** A module's bucket: its first two recommendations, each at the module's score. */
  function ModuleCandidates(source: Source, score: int, recs: seq<string>): (r: seq<Candidate>)
    ensures |r| == (if |recs| < 2 then |recs| else 2)
    ensures forall i :: 0 <= i < |r| ==> r[i] == Candidate(source, score, recs[i])
  {
    var kept := Take(recs, 2);
    seq(|kept|, i requires 0 <= i < |kept| => Candidate(source, score, kept[i]))
  }

  /**
   * All candidates, bucket by bucket: keyword, technical, content, structure,
   * links. Each source's candidates are exactly its bucket.
   */
  function AllCandidates(
    cluster: ClusterScore,
    technical: ModuleResult<TechnicalDetails>,
    content: ModuleResult<ContentDetails>,
    structure: ModuleResult<StructureDetails>,
    links: ModuleResult<LinkDetails>): (r: seq<Candidate>)
    ensures |r| <= 10
    ensures SourcesOrdered(r)
    ensures FromSource(r, KeywordSource) == KeywordBucket(cluster.individualScores)
    ensures FromSource(r, TechnicalSource) == ModuleCandidates(TechnicalSource, technical.score, technical.recommendations)
    ensures FromSource(r, ContentSource) == ModuleCandidates(ContentSource, content.score, content.recommendations)
    ensures FromSource(r, StructureSource) == ModuleCandidates(StructureSource, structure.score, structure.recommendations)
    ensures FromSource(r, LinksSource) == ModuleCandidates(LinksSource, links.score, links.recommendations)
  {
    var kb := KeywordBucket(cluster.individualScores);
    var tc := ModuleCandidates(TechnicalSource, technical.score, technical.recommendations);
    var cc := ModuleCandidates(ContentSource, content.score, content.recommendations);
    var sc := ModuleCandidates(StructureSource, structure.score, structure.recommendations);
    var lc := ModuleCandidates(LinksSource, links.score, links.recommendations);
    FiveBuckets(kb, tc, cc, sc, lc);
    kb + tc + cc + sc + lc
  }

  /**
   * The texts of the eight lowest-scoring candidates, lowest first: the texts
   * of a score-sorted selection from the candidates that no left-out
   * candidate undercuts, and that among equal scores takes the earliest.
   * With at most eight candidates every one appears.
   */
  function TopRecommendations(cands: seq<Candidate>): (r: seq<string>)
    ensures |r| == (if |cands| < 8 then |cands| else 8)
    ensures RankedTexts(r, cands)
    ensures TextsDrawnFrom(r, cands)
    ensures |cands| <= 8 ==> TextsCover(r, cands)
  {
    var top := Lowest(cands, 8);
    LowestKeepsLowest(cands, 8);
    LowestTiesInOrder(cands, 8);
    SelectedTexts(cands, top);
    Texts(top)
  }

  /** The texts of a ranked selection of the candidates: their number, their source and, for few candidates, all of them. */
  lemma SelectedTexts(cands: seq<Candidate>, top: seq<Candidate>)
    requires |top| == (if |cands| < 8 then |cands| else 8)
    requires SortedByScore(top) && multiset(top) <= multiset(cands)
    requires KeepsLowest(top, cands) && TiesInOrder(top, cands)
    requires |cands| <= 8 ==> multiset(top) == multiset(cands)
    ensures |Texts(top)| == (if |cands| < 8 then |cands| else 8)
    ensures RankedTexts(Texts(top), cands)
    ensures TextsDrawnFrom(Texts(top), cands)
    ensures |cands| <= 8 ==> TextsCover(Texts(top), cands)
  {
    TextsDrawn(top, cands);
    TextsKept(top, cands);
  }

  /**
   * `r` lists the texts of candidates chosen from `cands` in order of score,
   * none left out scoring below one chosen, and ties in their order in `cands`.
   */
  ghost predicate RankedTexts(r: seq<string>, cands: seq<Candidate>) {
    exists top :: && Texts(top) == r && SortedByScore(top) && multiset(top) <= multiset(cands)
                  && KeepsLowest(top, cands) && TiesInOrder(top, cands)
  }

  /** Every text of `r` is the text of a candidate. */
  predicate TextsDrawnFrom(r: seq<string>, cands: seq<Candidate>) {
    forall i :: 0 <= i < |r| ==> exists c :: c in cands && c.text == r[i]
  }

  /** The text of every candidate is in `r`. */
  predicate TextsCover(r: seq<string>, cands: seq<Candidate>) {
    forall c :: c in cands ==> c.text in r
  }

  /**
   * Among the eight top candidates, those of equal score come in bucket
   * order: keyword, technical, content, structure, links.
   */
  lemma TopTiesFollowBuckets(
    cluster: ClusterScore,
    technical: ModuleResult<TechnicalDetails>,
    content: ModuleResult<ContentDetails>,
    structure: ModuleResult<StructureDetails>,
    links: ModuleResult<LinkDetails>,
    k: int)
    ensures SourcesOrdered(WithScore(Lowest(AllCandidates(cluster, technical, content, structure, links), 8), k))
  {
    LowestTiesOrdered(AllCandidates(cluster, technical, content, structure, links), 8, k);
  }

  /** The report of one run, assembled from the four module results. */
  function AssembleReport(
    url: string, analyzedAt: string,
    technical: ModuleResult<TechnicalDetails>,
    content: ModuleResult<ContentDetails>,
    structure: ModuleResult<StructureDetails>,
    links: ModuleResult<LinkDetails>): (r: AnalysisReport)
    ensures r.url == url && r.analyzedAt == analyzedAt
    ensures r.keywordCluster == content.details.keywordCluster
    ensures r.technicalSeo == technical && r.contentAnalysis == content
    ensures r.structureAnalysis == structure && r.linkAnalysis == links
    ensures r.overallScore == CalculateOverallScore(
              r.keywordCluster.clusterScore, technical.score, content.score, structure.score, links.score)
    ensures r.topRecommendations == ReportRecommendations(r.keywordCluster, technical, content, structure, links)
    ensures |r.topRecommendations| <= 8
  {
    var cluster := content.details.keywordCluster;
    AnalysisReport(
      url, analyzedAt,
      CalculateOverallScore(cluster.clusterScore, technical.score, content.score, structure.score, links.score),
      cluster, technical, content, structure, links,
      ReportRecommendations(cluster, technical, content, structure, links))
  }

  /** The top recommendations drawn from all the candidates of one run. */
  function ReportRecommendations(
    cluster: ClusterScore,
    technical: ModuleResult<TechnicalDetails>,
    content: ModuleResult<ContentDetails>,
    structure: ModuleResult<StructureDetails>,
    links: ModuleResult<LinkDetails>): (r: seq<string>)
    ensures |r| <= 8
  {
    TopRecommendations(AllCandidates(cluster, technical, content, structure, links))
  }

  /** The ranges the cluster and the four analyzers keep their scores in. */
  predicate InAnalyzerRanges(k: int, t: int, c: int, s: int, l: int) {
    0 <= k <= 100 && 10 <= t <= 90 && 0 <= c <= 100 && 60 <= s <= 100 && 40 <= l <= 100
  }

  /**
   * Module scores in the analyzers' ranges give an overall score in [12, 98]:
   * the technical score tops out at 90 and the structure and link scores never
   * fall below 60 and 40.
   */
  lemma OverallScoreRange(k: int, t: int, c: int, s: int, l: int)
    requires InAnalyzerRanges(k, t, c, s, l)
    ensures 12 <= CalculateOverallScore(k, t, c, s, l) <= 98
  {
    OverallScoreMonotone(0, 10, 0, 60, 40, k, t, c, s, l);
    OverallScoreMonotone(k, t, c, s, l, 100, 90, 100, 100, 100);
    assert WeightedModuleSum(0, 10, 0, 60, 40) == 12.0;
    assert WeightedModuleSum(100, 90, 100, 100, 100) == 98.0;
  }

  /** `run_analysis` once the page is fetched. */
  function Analyze(lex: Lexicon, c: WebContent, url: string, keywords: seq<string>, analyzedAt: string): (r: AnalysisReport)
    ensures r == AssembleReport(
              url, analyzedAt, AnalyzeTechnical(c), AnalyzeContent(lex, c, ProcessKeywords(lex, keywords)),
              AnalyzeStructure(c), AnalyzeLinks(c))
  {
    var kvs := ProcessKeywords(lex, keywords);
    AssembleReport(url, analyzedAt, AnalyzeTechnical(c), AnalyzeContent(lex, c, kvs), AnalyzeStructure(c), AnalyzeLinks(c))
  }

  /** The overall score of a run weighs the keyword cluster's score and the four module scores. */
  lemma RunOverallScore(lex: Lexicon, c: WebContent, url: string, keywords: seq<string>, analyzedAt: string)
    ensures var r := Analyze(lex, c, url, keywords, analyzedAt);
            && r.keywordCluster == AnalyzeCluster(lex, c, ProcessKeywords(lex, keywords))
            && r.overallScore == CalculateOverallScore(
                 r.keywordCluster.clusterScore, r.technicalSeo.score, r.contentAnalysis.score,
                 r.structureAnalysis.score, r.linkAnalysis.score)
  {
  }

  /** The overall score of a run lies in [12, 98]. */
  lemma RunOverallScoreRange(lex: Lexicon, c: WebContent, url: string, keywords: seq<string>, analyzedAt: string)
    ensures 12 <= Analyze(lex, c, url, keywords, analyzedAt).overallScore <= 98
  {
    RunOverallScore(lex, c, url, keywords, analyzedAt);
    ModuleScoresRange(lex, c, ProcessKeywords(lex, keywords));
  }

  /** The module scores of one page, weighed, lie in [12, 98]. */
  lemma ModuleScoresRange(lex: Lexicon, c: WebContent, kvs: seq<KeywordVariation>)
    ensures 12 <= CalculateOverallScore(
                    AnalyzeCluster(lex, c, kvs).clusterScore, AnalyzeTechnical(c).score,
                    AnalyzeContent(lex, c, kvs).score, AnalyzeStructure(c).score, AnalyzeLinks(c).score) <= 98
  {
    OverallScoreRange(AnalyzeCluster(lex, c, kvs).clusterScore, AnalyzeTechnical(c).score,
                      AnalyzeContent(lex, c, kvs).score, AnalyzeStructure(c).score, AnalyzeLinks(c).score);
  }

  /** `run_analysis`: a failed fetch ends the run with the fetcher's message. */
  function RunAnalysis(
    fetched: Result<WebContent, FetchFailure>, lex: Lexicon, url: string,
    keywords: seq<string>, analyzedAt: string): (r: Result<AnalysisReport, string>)
    ensures fetched.Failure? <==> r.Failure?
    ensures fetched.Failure? ==> r.error == FailureMessage(fetched.error)
    ensures fetched.Success? ==> r.value == Analyze(lex, fetched.value, url, keywords, analyzedAt)
  {
    match fetched
    case Failure(f) => Failure(FailureMessage(f))
    case Success(c) => Success(Analyze(lex, c, url, keywords, analyzedAt))
  }

  lemma {:induction false} NoneAtMost(s: seq<Candidate>, b: int)
    requires forall i :: 0 <= i < |s| ==> s[i].score > b
    ensures CountAtMost(s, b) == 0
    decreases |s|
  {
    if |s| > 0 {
      NoneAtMost(s[..|s| - 1], b);
    }
  }

  /**
   * Both technical messages of a page without title and meta description
   * rank among the top eight whenever the technical score is below the
   * structure and link scores: only the two keyword and the two content
   * candidates can rank before them.
   */
  lemma TechnicalMessagesKept(
    cluster: ClusterScore,
    technical: ModuleResult<TechnicalDetails>,
    content: ModuleResult<ContentDetails>,
    structure: ModuleResult<StructureDetails>,
    links: ModuleResult<LinkDetails>)
    requires technical.recommendations == ["Add a title tag", "Add a meta description"]
    requires technical.score < structure.score && technical.score < links.score
    ensures var top := TopRecommendations(AllCandidates(cluster, technical, content, structure, links));
            "Add a title tag" in top && "Add a meta description" in top
  {
    var t := technical.score;
    var kb := KeywordBucket(cluster.individualScores);
    var tc := ModuleCandidates(TechnicalSource, t, technical.recommendations);
    var cc := ModuleCandidates(ContentSource, content.score, content.recommendations);
    var sc := ModuleCandidates(StructureSource, structure.score, structure.recommendations);
    var lc := ModuleCandidates(LinksSource, links.score, links.recommendations);
    var title := Candidate(TechnicalSource, t, "Add a title tag");
    var meta := Candidate(TechnicalSource, t, "Add a meta description");
    TechnicalBucket(t);
    ModuleBucketAbove(StructureSource, structure.score, structure.recommendations, t);
    ModuleBucketAbove(LinksSource, links.score, links.recommendations, t);
    LowBucketKept(kb, tc, cc, sc, lc, title);
    LowBucketKept(kb, tc, cc, sc, lc, meta);
  }

  lemma TechnicalBucket(t: int)
    ensures var tc := ModuleCandidates(TechnicalSource, t, ["Add a title tag", "Add a meta description"]);
            && Candidate(TechnicalSource, t, "Add a title tag") in tc
            && Candidate(TechnicalSource, t, "Add a meta description") in tc
            && |tc| == 2
  {
    var tc := ModuleCandidates(TechnicalSource, t, ["Add a title tag", "Add a meta description"]);
    assert tc[0] == Candidate(TechnicalSource, t, "Add a title tag");
    assert tc[1] == Candidate(TechnicalSource, t, "Add a meta description");
  }

  /** Every candidate of a module scoring above `t` scores above `t`. */
  lemma ModuleBucketAbove(source: Source, score: int, recs: seq<string>, t: int)
    requires score > t
    ensures var mc := ModuleCandidates(source, score, recs);
            forall i :: 0 <= i < |mc| ==> mc[i].score > t
  {
  }

  /** The counting argument behind `TechnicalMessagesKept`, on the buckets themselves. */
  lemma LowBucketKept(kb: seq<Candidate>, tc: seq<Candidate>, cc: seq<Candidate>, sc: seq<Candidate>, lc: seq<Candidate>, x: Candidate)
    requires |kb| <= 2 && |cc| <= 2 && |tc| <= 4 && x in tc
    requires forall i :: 0 <= i < |sc| ==> sc[i].score > x.score
    requires forall i :: 0 <= i < |lc| ==> lc[i].score > x.score
    ensures x.text in TopRecommendations(kb + tc + cc + sc + lc)
  {
    var t := x.score;
    var cands := kb + tc + cc + sc + lc;
    assert CountAtMost(cands, t) <= 8 by {
      CountAtMostAppend(kb + tc + cc + sc, lc, t);
      CountAtMostAppend(kb + tc + cc, sc, t);
      CountAtMostAppend(kb + tc, cc, t);
      CountAtMostAppend(kb, tc, t);
      NoneAtMost(sc, t);
      NoneAtMost(lc, t);
    }
    assert x in cands;
    LowRankedKept(cands, x, 8);
    var top := Lowest(cands, 8);
    var j :| 0 <= j < |top| && top[j] == x;
    assert Texts(top)[j] == x.text;
  }

  /**
   * A page with neither a title nor a meta description always has both "add"
   * messages among its top recommendations: its technical score is at most
   * 35, below every structure and link score.
   */
  lemma MissingTagsRankedTop(lex: Lexicon, c: WebContent, url: string, keywords: seq<string>, analyzedAt: string)
    requires IsMissing(c.title) && IsMissing(c.metaDescription)
    ensures "Add a title tag" in Analyze(lex, c, url, keywords, analyzedAt).topRecommendations
    ensures "Add a meta description" in Analyze(lex, c, url, keywords, analyzedAt).topRecommendations
  {
    var technical := AnalyzeTechnical(c);
    var structure := AnalyzeStructure(c);
    var links := AnalyzeLinks(c);
    assert technical.recommendations == ["Add a title tag", "Add a meta description"]
        && technical.score < structure.score && technical.score < links.score by {
      MissingTagsRecommendations(c);
    }
    MissingTagsInReport(
      url, analyzedAt, technical, AnalyzeContent(lex, c, ProcessKeywords(lex, keywords)), structure, links);
  }

  /** The report built from module results whose technical messages rank first keeps both. */
  lemma MissingTagsInReport(
    url: string, analyzedAt: string,
    technical: ModuleResult<TechnicalDetails>,
    content: ModuleResult<ContentDetails>,
    structure: ModuleResult<StructureDetails>,
    links: ModuleResult<LinkDetails>)
    requires technical.recommendations == ["Add a title tag", "Add a meta description"]
    requires technical.score < structure.score && technical.score < links.score
    ensures var r := AssembleReport(url, analyzedAt, technical, content, structure, links);
            "Add a title tag" in r.topRecommendations && "Add a meta description" in r.topRecommendations
  {
    TechnicalMessagesKept(content.details.keywordCluster, technical, content, structure, links);
  }
}
