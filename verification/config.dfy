/** Threshold bands and weight tables of the analysis pipeline (src/config.py). */
module Config {

  const OptimalKeywordDensityMin: real := 1.0
  const OptimalKeywordDensityMax: real := 3.0

  const OptimalTitleLengthMin: nat := 50
  const OptimalTitleLengthMax: nat := 60

  const OptimalMetaDescLengthMin: nat := 150
  const OptimalMetaDescLengthMax: nat := 160

  const RecommendedInternalLinksMin: nat := 5
  const RecommendedInternalLinksMax: nat := 10

  const MinWordCount: nat := 300

  /** Seconds a page fetch may take. */
  const RequestTimeout: nat := 10

  /** Weights of the five module scores in the overall score. */
  datatype ScoreWeightTable = ScoreWeightTable(
    keywordAnalysis: real,
    technicalSeo: real,
    contentAnalysis: real,
    structure: real,
    links: real)
  {
    function Sum(): real {
      keywordAnalysis + technicalSeo + contentAnalysis + structure + links
    }

    /** Non-negative weights that add up to one: a weighted average. */
    predicate Valid() {
      && keywordAnalysis >= 0.0 && technicalSeo >= 0.0 && contentAnalysis >= 0.0
      && structure >= 0.0 && links >= 0.0
      && Sum() == 1.0
    }
  }

  /** Weights of the seven per-keyword signals in a keyword score. */
  datatype KeywordWeightTable = KeywordWeightTable(
    titleMatch: real,
    metaMatch: real,
    h1Match: real,
    headingsMatch: real,
    first100Words: real,
    densityScore: real,
    distributionScore: real)
  {
    function Sum(): real {
      titleMatch + metaMatch + h1Match + headingsMatch + first100Words + densityScore + distributionScore
    }

    predicate Valid() {
      && titleMatch >= 0.0 && metaMatch >= 0.0 && h1Match >= 0.0 && headingsMatch >= 0.0
      && first100Words >= 0.0 && densityScore >= 0.0 && distributionScore >= 0.0
      && Sum() == 1.0
    }
  }

  const ScoreWeights: ScoreWeightTable := ScoreWeightTable(0.40, 0.20, 0.20, 0.10, 0.10)

  const KeywordScoreWeights: KeywordWeightTable :=
    KeywordWeightTable(0.20, 0.15, 0.15, 0.10, 0.10, 0.15, 0.15)

  lemma WeightTablesValid()
    ensures ScoreWeights.Valid()
    ensures KeywordScoreWeights.Valid()
  {
  }

  /** Every band is non-empty, and the word-count threshold can be divided by. */
  lemma BandsWellFormed()
    ensures OptimalKeywordDensityMin <= OptimalKeywordDensityMax
    ensures OptimalTitleLengthMin <= OptimalTitleLengthMax
    ensures OptimalMetaDescLengthMin <= OptimalMetaDescLengthMax
    ensures RecommendedInternalLinksMin <= RecommendedInternalLinksMax
    ensures MinWordCount > 0 && OptimalKeywordDensityMin > 0.0
  {
  }
}
