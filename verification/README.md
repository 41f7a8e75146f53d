# SEO scoring core, in Dafny

This project models the deterministic scoring pipeline of `seo_optimizer`. The pipeline reads a page that has already been fetched and parsed, together with a list of target keywords. It produces one report:

- a technical SEO score;
- a content score, which embeds one score per keyword and the keyword cluster's mean;
- a structure score and a link score;
- an overall weighted score with a passed/warning/failed status;
- the eight recommendations from the worst-scoring sources.

Python floats are exact `real`s and `int()` is truncation toward zero. Strings are `seq<char>`.

Modules follow the source files:

| module | file |
|---|---|
| `Config` | `src/config.py` |
| `Scoring` | `src/core/scoring.py` |
| `TextUtils` | `src/utils/text_utils.py` |
| `KeywordProcessor` | `src/core/keyword_processor.py` |
| `Fetcher` | the pure rules of `src/core/fetcher.py` |
| `TechnicalSeo`, `ContentAnalyzer`, `StructureAnalyzer`, `LinkAnalyzer` | the four files under `src/analyzers/` |
| `Ranking`, `Orchestrator` | `src/core/orchestrator.py` |
| `Validation` | `src/utils/validation.py` |

`Wrappers`, `Strings` and `Format` are helper modules:

- `Wrappers`: `Option` and `Result`.
- `Strings`: Python's `str.strip`, `str.split`, `str.count`, `in` and `join`.
- `Format`: decimal rendering of integers and of `{x:.1f}`, applied to the exact value (see Left out).

The NLTK stop-word set and the Porter stemmer arrive as a `TextUtils.Lexicon` value. The HTTP fetch arrives as a `Result<WebContent, FetchFailure>` value. The report's timestamp is a parameter.

Facts about the code that the model keeps:

- The module-level density credit in `ContentAnalyzer.analyze` is the per-keyword density score at half scale. Above the band it loses 10 points out of 50 per percentage point (`src/analyzers/content_analyzer.py:64`); the per-keyword score loses 20 out of 100 (`:106`).
- `KeywordVariation` has no `normalized` field. The normalised keyword appears only among `variations`.
- The stemmed form is looked for in the stems of *all* the text's tokens. The text's stop words are kept.
- `run_analysis` takes no AI toggle, and its `verbose` flag is unused.

## Model

| member | source | states |
|---|---|---|
| Config.WeightTablesValid | src/config.py:18-34 | Both weight tables are non-negative and sum to exactly 1, so each weighted score is a weighted average. |
| Config.BandsWellFormed | src/config.py:1-13 | Every band has min ≤ max: density 1–3, title 50–60, meta 150–160, internal links 5–10. The word-count minimum and the density minimum are positive, so the proportional credits never divide by zero. |
| Scoring.Truncate | src/core/scoring.py:28 | `int()` on a real: the result is within one of its argument, on the side of zero. |
| Scoring.Clamp100 | src/core/scoring.py:28 | `min(100, max(0, v))` lies in [0, 100]. It is the identity on [0, 100], 0 below and 100 above. |
| Scoring.WeightedSumBetween | src/core/scoring.py:20-26 | Module scores in [lo, hi] give a weighted sum in [lo, hi]. |
| Scoring.CalculateOverallScore | src/core/scoring.py:13-28 | The overall score lies in [0, 100] for any inputs. When all five inputs are in [0, 100] the clamp never binds: the score is the truncated weighted sum. |
| Scoring.OverallScoreBetween | src/core/scoring.py:13-28 | Module scores all in [lo, hi] give an overall score in [lo, hi]. |
| Scoring.OverallScoreMonotone | src/core/scoring.py:13-28 | Raising any module score never lowers the overall score. |
| Scoring.HeadingsSignal | src/core/scoring.py:43 | The headings signal is 50 per matched level and saturates at 100 from two matches on. |
| Scoring.CalculateKeywordScore | src/core/scoring.py:30-49 | A keyword score lies in [0, 100] whatever the signal values. With the density and distribution scores in [0, 100] and a non-negative heading count, the clamp never binds: the score is the weighted signal sum truncated. |
| Scoring.SingleSignalScores | src/core/scoring.py:39-47 | Each signal alone scores its weight: title 20, meta description 15, H1 15, first hundred words 10, one heading level 5 and two 10, and 0.15 of the density or distribution score, truncated. |
| Scoring.KeywordScoreMonotone | src/core/scoring.py:39-47 | Turning title, meta, H1 or first-100-words on never lowers the keyword score. Neither do more heading matches or a higher density or distribution score. |
| Scoring.KeywordScorePerfect | src/core/scoring.py:30-49 | All signals at their best (two or more heading levels, density and distribution 100) give exactly 100. |
| Scoring.GetStatus | src/core/scoring.py:51-57 | Passed iff score ≥ 80, warning iff 60 ≤ score < 80, failed iff score < 60. |
| Scoring.GetStatusMonotone | src/core/scoring.py:51-57 | A higher score never gets a worse status. |
| TextUtils.NormalizeText | src/utils/text_utils.py:25-26 | The result is the lower-cased text with exactly its leading and trailing whitespace cut: a slice of the lower-cased text, everything before and after it whitespace, its own ends not whitespace. |
| TextUtils.NormalizeTextIdempotent | src/utils/text_utils.py:25-26 | Normalising twice is normalising once. |
| TextUtils.Tokenize | src/utils/text_utils.py:28-30 | Every token is a non-empty, lower-case run of word characters. |
| TextUtils.TokenizeAppend | src/utils/text_utils.py:28-30 | When no word character meets another at the seam, the tokens of a concatenation are the tokens of the first part followed by those of the second (`\b\w+\b` matches never straddle a non-word character). |
| TextUtils.TokenizeWord | src/utils/text_utils.py:28-30 | A non-empty run of word characters is exactly one token, itself lower-cased. |
| TextUtils.TokenizeGap | src/utils/text_utils.py:28-30 | A stretch with no word character yields no token. |
| TextUtils.TokenizePunctuated | src/utils/text_utils.py:28-30 | `tokenize("A,b")` is `["a", "b"]`: punctuation splits words and case is folded. |
| TextUtils.TokenizeJoin | src/utils/text_utils.py:28-30 | Tokenising tokens joined by single spaces gives the same tokens back: tokenize is the inverse of `' '.join` on tokens. |
| TextUtils.RemoveStopWords | src/utils/text_utils.py:32-35 | The result is a subsequence of the input that holds no stop word. Every other word keeps all its occurrences: each word occurs as often as in the input, or never if it is a stop word. |
| TextUtils.StemWords | src/utils/text_utils.py:37-41 | Same length as the input; element i is the stem of the lower-cased word i. |
| TextUtils.CalculateDensity | src/utils/text_utils.py:43-62 | The density is never negative, and it is 0 when the text has no tokens. |
| TextUtils.GetFirstNWords | src/utils/text_utils.py:64-66 | Tokenising the result gives exactly the first min(n, #tokens) tokens of the text. Every other character is a single space with a word character on each side, and the result is lower case. |
| TextUtils.JoinSingleSpaced | src/utils/text_utils.py:66 | Tokens joined by " " contain no other separator: each non-word character is one space between two word characters. |
| TextUtils.DensityPositiveIffPresent | src/utils/text_utils.py:53-62 | For a one-token keyword and a non-empty text, the density is positive exactly when the lower-cased keyword occurs in the lower-cased text. |
| TextUtils.DensityOfOneToken | src/utils/text_utils.py:56-57 | For a one-token keyword the density is (raw substring count / token count) · 100. |
| TextUtils.DensityExample | src/utils/text_utils.py:43-62 | Three copies of a token followed by two words that lack its first letter give a density of 60 per hundred. "seo seo seo optimization guide" is one instance. |
| TextUtils.DensityCanExceedHundred | src/utils/text_utils.py:56-57 | Counting raw substrings makes the density unbounded: any token has density 200 in its own double ("seo" in "seoseo"). |
| KeywordProcessor.ProcessKeyword | src/core/keyword_processor.py:12-34 | `original` is the stripped input. Its stop-word-free form is the space-join of the non-stop tokens of the normalised keyword, and tokenises back to them. `stemmed` is the space-join of their stems. `variations` is exactly the set {normalised, stop-word-free, stemmed}, so it has no duplicates and at most three entries. |
| KeywordProcessor.StemmedForm | src/core/keyword_processor.py:20-21 | With a stemmer that maps tokens to tokens, `stemmed` has as many tokens as the stop-word-free form, and token i is the stem of token i. |
| KeywordProcessor.MatchKeywordInText | src/core/keyword_processor.py:36-55 | A match holds iff the text is non-empty and one of these holds: the lower-cased original occurs in the normalised text; the non-empty stop-word-free form occurs there; or the non-empty stemmed form occurs in the stemmed text. An empty text never matches, and an empty form never matches through its branch. |
| KeywordProcessor.KeywordMatchesItself | src/core/keyword_processor.py:12-55 | Every non-empty keyword matches its own text. |
| KeywordProcessor.OnlyStopWords | src/core/keyword_processor.py:16-53 | A keyword made only of stop words has empty stop-word-free and stemmed forms. It matches a text iff its literal form occurs there. |
| KeywordProcessor.StemmedMatch | src/core/keyword_processor.py:48-53 | The keyword matches when the stems of its remaining words occur consecutively among the stems of the text's words, whatever the surface forms ("running shoes" in "run shoe"). |
| KeywordProcessor.ProcessKeywords | src/core/keyword_processor.py:57-58 | One processed keyword per input, in input order. |
| Fetcher.ExtractLink | src/core/fetcher.py:59-68 | A link is internal iff its href is relative (not `http://` or `https://`) or contains the page URL. `isExternal` is exactly the negation. The text is stripped, and `nofollow` holds iff `rel` lists it. |
| Fetcher.ExtractImage | src/core/fetcher.py:49-54 | An image has alt text iff its alt attribute (or "") is not blank. |
| Fetcher.CollapseWhitespace | src/core/fetcher.py:45 | `' '.join(text.split())` has the same words as the text and is single-spaced, with no leading or trailing space. |
| Fetcher.CollapseIdempotent | src/core/fetcher.py:45 | Collapsing whitespace twice is collapsing it once. |
| Fetcher.StripHeadings | src/core/fetcher.py:32-38 | Every level's heading list is the stripped list of that level's tag texts. |
| Fetcher.ExtractContent | src/core/fetcher.py:7-69 | The page built from parsed texts is well formed. Title and meta description are the stripped texts when present, and the H1 is the first `h1` heading. Its body is single-spaced with the parsed text's words, and its word count is their number. Entry `k` of the images and of the links is built from the `k`-th parsed image or anchor. The canonical and Open Graph flags are the parser's. |
| Fetcher.FailureMessage | src/core/fetcher.py:82-89 | Each failure's message starts with its kind's fixed prefix. The HTTP and generic messages end with the library's own message. |
| Fetcher.MessageShowsKind | src/core/fetcher.py:82-89 | A message starts with the prefix of a kind iff it is a failure of that kind, so the kind can be read back from the message. |
| TechnicalSeo.AnalyzeLengthTag | src/analyzers/technical_seo.py:41-97 | A missing or empty text scores 0 with only its "add" message. A present text scores the base, plus the bonus iff its length is in the band. A present text out of band gets exactly one "too short" or "too long" message, matching the side of the band it falls on. |
| TechnicalSeo.AnalyzeTitle | src/analyzers/technical_seo.py:41-68 | The title sub-score is in {0, 15, 30}. It is 0 iff the title is missing or empty, then with exactly "Add a title tag". It is 30 iff the length is in [50, 60], which is also exactly when there is no message. |
| TechnicalSeo.AnalyzeMetaDescription | src/analyzers/technical_seo.py:70-97 | The meta sub-score is in {0, 12, 25}. It is 0 iff the meta description is missing or empty, then with exactly "Add a meta description". It is 25 iff the length is in [150, 160], which is also exactly when there is no message. |
| TechnicalSeo.CanonicalPoints | src/analyzers/technical_seo.py:99-109 | 10 points iff a canonical link exists, else 0. |
| TechnicalSeo.OpenGraphPoints | src/analyzers/technical_seo.py:111-125 | 15 iff both Open Graph tags exist, 0 iff neither exists, 7 otherwise. |
| TechnicalSeo.AnalyzeTechnical | src/analyzers/technical_seo.py:7-39 | The score is the sum of the four sub-scores plus 10 and lies in [10, 90], so `min(100, …)` never binds. The status follows the score. There are at most two messages, title first. The details are the title and meta details, the canonical flag, "some Open Graph tag" and "both Open Graph tags", and HTTP status 200. |
| TechnicalSeo.TechnicalPerfectIff | src/analyzers/technical_seo.py:7-125 | The technical score reaches its maximum of 90 iff title and meta lengths are in band, the canonical link exists and both Open Graph tags exist. |
| TechnicalSeo.MissingTagsRecommendations | src/analyzers/technical_seo.py:7-97 | A page without title or meta description gets exactly the two "add" messages and scores at most 35. |
| ContentAnalyzer.DensityScore | src/analyzers/content_analyzer.py:101-106 | For any density ≥ 0 the score is in [0, 100], and 100 iff the density is inside [1, 3]. Below the band it is density × 100; above it, 100 − 20 × (density − 3), but never below 0. |
| ContentAnalyzer.DensityPenaltyStep | src/analyzers/content_analyzer.py:105-106 | From density 3 on, one more percentage point lowers the density score by 20, stopping at 0. |
| ContentAnalyzer.AnyMatch | src/analyzers/content_analyzer.py:90-94 | Some heading of a level matches iff the loop over that level finds a match. |
| ContentAnalyzer.MatchingLevels | src/analyzers/content_analyzer.py:89-94 | `in_headings` lists each level at most once, strictly in tag order h1..h6. A level is listed iff one of its headings matches the keyword. |
| ContentAnalyzer.KeywordRecommendations | src/analyzers/content_analyzer.py:120-128 | One message per failed check: title, meta description, H1, density below 1, in that order. Each message sits at the index that counts the failed checks before it. There are none iff the keyword is in title, meta and H1 with density ≥ 1. |
| ContentAnalyzer.KeywordScoreFloor | src/analyzers/content_analyzer.py:108-118 | The fixed distribution score of 70 alone gives every keyword a score of at least 10. |
| ContentAnalyzer.AnalyzeKeyword | src/analyzers/content_analyzer.py:84-149 | Each presence flag is the match result on its text; a missing tag reads as "". The density is the keyword's density in the body. The distribution score is 70. The score is the keyword score of these signals and lies in [10, 100]. The messages are those of `KeywordRecommendations`. |
| ContentAnalyzer.MeanScoreBetween | src/analyzers/content_analyzer.py:37-42 | The truncated mean of keyword scores lies between their lowest and highest bound. |
| ContentAnalyzer.AnalyzeCluster | src/analyzers/content_analyzer.py:31-43 | `keywords` lists the originals in input order. The cluster score is the truncated mean of the keyword scores: 0 with no keyword, otherwise in [10, 100]. |
| ContentAnalyzer.WordCountCredit | src/analyzers/content_analyzer.py:45-53 | The word-count credit is in [0, 50], and full iff the page has at least 300 words. Below 300 it is proportional: word count / 300 × 50. |
| ContentAnalyzer.DensityHealth | src/analyzers/content_analyzer.py:56-64 | The mean-density credit is in [0, 50], and full iff the mean density is in [1, 3]. Below the band it is mean × 50; above it, 50 − 10 × (mean − 3), but never below 0. |
| ContentAnalyzer.HealthIsHalfScore | src/analyzers/content_analyzer.py:56-64 | For every density ≥ 0 the mean-density credit is exactly half the per-keyword density score of the same value. |
| ContentAnalyzer.ContentRecommendations | src/analyzers/content_analyzer.py:45-65 | One message for a page under 300 words, first. Then one density message when the mean is out of band: "Improve…" below it, "Reduce…" above it. There are none iff the page has at least 300 words and the mean density is in band. |
| ContentAnalyzer.ContentScore | src/analyzers/content_analyzer.py:67 | The sum of the two credits, truncated. It lies in [0, 100] without any clamp, and is 100 iff both credits are full. |
| ContentAnalyzer.AnalyzeContent | src/analyzers/content_analyzer.py:30-82 | The details carry the word count, the length verdict, a non-negative mean density and the cluster. The score lies in [0, 100], the status follows it, and there are at most two messages. |
| ContentAnalyzer.ContentPerfectIff | src/analyzers/content_analyzer.py:45-67 | The content score is 100 iff the page has at least 300 words and the keywords' mean density is in [1, 3]. |
| StructureAnalyzer.AnalyzeH1 | src/analyzers/structure_analyzer.py:35-53 | No H1: 0 points and "Add an H1 heading to the page". One H1: 30 and no message. n > 1: 15 and "Use only one H1 heading (found n)". "proper" holds iff there is exactly one. |
| StructureAnalyzer.Outline | src/analyzers/structure_analyzer.py:55-62 | The outline lists one entry per heading in level order. Each level occurs exactly as often as the page has headings at that level. |
| StructureAnalyzer.AnalyzeHierarchy | src/analyzers/structure_analyzer.py:55-69 | Always 25 points and no message. The structure has one entry per heading, ordered h1..h6, with the right count per level. |
| StructureAnalyzer.CountWithAlt | src/analyzers/structure_analyzer.py:73 | The count is at most the image count, and equal to it iff every image has alt text. |
| StructureAnalyzer.AnalyzeImages | src/analyzers/structure_analyzer.py:71-89 | With and without alt add up to the total. None lacking alt gives 15 and no message, and happens iff every image has alt. k > 0 lacking alt gives max(0, 15 − 3k) and "Add alt text to k image(s)". |
| StructureAnalyzer.AnalyzeStructure | src/analyzers/structure_analyzer.py:6-33 | The score is min(100, H1 points + 25 + image points + 35), so it lies in [60, 100] and the status is never failed. The details are the H1 count, the H1 details, the constant `has_proper_hierarchy`, the hierarchy and the image details. At most two messages, H1 before images. |
| StructureAnalyzer.StructurePerfectIff | src/analyzers/structure_analyzer.py:6-89 | The structure score is 100 iff there is exactly one H1 and at most one image lacks alt text. |
| LinkAnalyzer.CountsPartition | src/analyzers/link_analyzer.py:12-16 | With every link classified as exactly one kind, internal plus external counts equal the number of links. |
| LinkAnalyzer.WellFormedClassified | src/analyzers/link_analyzer.py:12-16 | On every page the fetcher builds, internal plus external counts equal the number of links. |
| LinkAnalyzer.InternalCredit | src/analyzers/link_analyzer.py:18-27 | 35 from five internal links up, with no penalty above ten. Below five, count/5 · 35. |
| LinkAnalyzer.InternalPointsBelowMinimum | src/analyzers/link_analyzer.py:20-27 | Below five internal links the truncated credit is exactly 7 per link. |
| LinkAnalyzer.AnalyzeLinks | src/analyzers/link_analyzer.py:7-52 | Score = (35 if ≥ 5 internal else 7 per internal link) + (25 if any external) + 40, which lies in [40, 100]. The messages are "Add 5−c more internal link(s)" below five, then the authoritative-sources message when there is no external link. |
| LinkAnalyzer.LinkPerfectIff | src/analyzers/link_analyzer.py:7-52 | The link score is 100 iff there are at least five internal links and some external one. |
| Ranking.Insert | src/core/orchestrator.py:76 | One stable insertion step adds exactly the new candidate: one more element, the same multiset plus it. |
| Ranking.InsertSorted | src/core/orchestrator.py:76 | Inserting into a score-sorted sequence keeps it sorted. |
| Ranking.InsertStable | src/core/orchestrator.py:76 | Inserting keeps the order among candidates of each score and puts the new one last. |
| Ranking.SortByScore | src/core/orchestrator.py:76 | `sort(key=score)` gives a sequence sorted by non-decreasing score that is a permutation of its input. |
| Ranking.SortStable | src/core/orchestrator.py:76 | The sort is stable: the candidates of each score appear in their original order. |
| Ranking.Take | src/core/orchestrator.py:78 | `s[:n]` is the prefix of length min(n, \|s\|). |
| Ranking.Lowest | src/core/orchestrator.py:76-78 | The first n by score are sorted and drawn from the candidates. With at most n candidates they are all of them. |
| Ranking.LowestPrefix | src/core/orchestrator.py:76-78 | The kept candidates are a prefix of the sorted ones: none scores above a candidate left out. |
| Ranking.LowestKeepsLowest | src/core/orchestrator.py:76-78 | No candidate left out of the first `n` by score scores below one that is kept. |
| Ranking.LowestTiesInOrder | src/core/orchestrator.py:76-78 | For every score, the kept candidates with it are the first candidates with it. |
| Ranking.FiveBuckets | src/core/orchestrator.py:51-74 | Five single-source buckets laid end to end come in bucket order, and each source's candidates are its bucket. |
| Ranking.WithScoreOrdered | src/core/orchestrator.py:76 | Picking the candidates of one score from a bucket-ordered list keeps them in bucket order. |
| Ranking.CountAtMostPermutation | src/core/orchestrator.py:76 | The number of candidates at or below a score does not depend on their order. |
| Ranking.LowRankedKept | src/core/orchestrator.py:76-78 | A candidate with at most n candidates (itself included) scoring no more than it is among the first n. |
| Orchestrator.KeywordCandidates | src/core/orchestrator.py:53-55 | The `j`-th candidate is the first message, at its score, of the `j`-th keyword that has messages. `CandidateIndices` lists those keywords in increasing order. So every candidate belongs to a keyword with messages, and every such keyword has its candidate. |
| Orchestrator.CandidateIndices | src/core/orchestrator.py:53-55 | Strictly increasing positions: every position holds a keyword with messages, and every such keyword is listed. |
| Orchestrator.KeywordBucket | src/core/orchestrator.py:53-57 | The bucket is the first min(2, candidates) entries of the stably sorted keyword candidates. No candidate left out scores below a kept one. |
| Orchestrator.KeywordBucketTiesInOrder | src/core/orchestrator.py:53-57 | Keyword candidates of equal score enter the bucket in keyword order. |
| Orchestrator.ModuleCandidates | src/core/orchestrator.py:59-69 | Each module contributes its first min(2, #messages) messages, each tagged with the module's score. |
| Orchestrator.AllCandidates | src/core/orchestrator.py:51-74 | At most ten candidates, bucket by bucket in the order keyword, technical, content, structure, links. The candidates of each source are exactly that source's bucket. |
| Orchestrator.TopRecommendations | src/core/orchestrator.py:71-78 | min(8, #candidates) entries: the texts of a score-sorted selection of the candidates. No candidate left out scores below a kept one, and among equal scores the earliest are kept. With at most eight candidates, every candidate's text appears. |
| Ranking.LowestTiesOrdered | src/core/orchestrator.py:71-78 | If the candidates come in bucket order, then the kept candidates of any one score come in bucket order too. |
| Orchestrator.TopTiesFollowBuckets | src/core/orchestrator.py:51-78 | Among the eight top candidates, those of equal score come in bucket order: keyword, technical, content, structure, links. |
| Orchestrator.AssembleReport | src/core/orchestrator.py:41-92 | The report holds the four module results, and the cluster is the content analyzer's. The overall score is the weighted score of the cluster and module scores. At most eight top recommendations are taken from the collected candidates. |
| Orchestrator.OverallScoreRange | src/core/orchestrator.py:43-49 | Module scores in the analyzers' ranges give an overall score in [12, 98]. |
| Orchestrator.RunOverallScore | src/core/orchestrator.py:41-49 | A run's overall score is `calculate_overall_score` of its cluster score and its four module scores. |
| Orchestrator.RunOverallScoreRange | src/core/orchestrator.py:24-49 | Every run's overall score lies in [12, 98]. |
| Orchestrator.RunAnalysis | src/core/orchestrator.py:24-92 | A run fails iff the fetch fails, and then with the fetcher's message and no partial report. Otherwise it is the analysis of the fetched page. |
| Ranking.LowestTiesKeepOrder | src/core/orchestrator.py:71-78 | Candidates of equal score keep their order through the sort and cut: those kept are the first of that score. |
| Orchestrator.TechnicalMessagesKept | src/core/orchestrator.py:51-78 | When the technical messages are the two "add" messages and the technical score is below the structure and link scores, both reach the top eight. |
| Orchestrator.MissingTagsRankedTop | src/core/orchestrator.py:24-92 | A page with neither title nor meta description always gets "Add a title tag" and "Add a meta description" among its top recommendations. |
| Validation.KeptPieces | src/utils/validation.py:19 | Entry `k` is the stripped piece at the `k`-th non-blank position, so every non-blank piece is kept once per occurrence, in input order. None are kept iff every piece is blank. |
| Validation.NonBlankIndices | src/utils/validation.py:19 | Strictly increasing positions: each holds a non-blank piece, and every non-blank piece is listed. |
| Validation.ValidateKeywords | src/utils/validation.py:14-27 | "Keywords cannot be empty" iff the input is blank. "No valid keywords provided" iff it is not blank but no piece survives. "Too many keywords (max 50)" iff more than 50 survive. A success is the comma-split pieces, stripped, with empties dropped, in order: 1 to 50 non-empty stripped strings without commas. |
| Validation.NoKeywordsIffOnlyCommas | src/utils/validation.py:16-22 | A non-blank input yields no keyword iff it consists of commas and whitespace only. |
| Validation.AllBlankIffOnlyCommas | src/utils/validation.py:19-22 | Every comma-separated piece is blank iff the text holds only commas and whitespace. |
| Validation.OnlyCommasRefused | src/utils/validation.py:21-22 | ",," is refused with "No valid keywords provided". |

## Left out

- HTTP and HTML: the network request, its timeout and user agent, and BeautifulSoup are not modelled. The parser's output is a `Fetcher.RawPage`: tag texts, attributes, and the three `soup.find` lookups for canonical, `og:title` and `og:description` as booleans. The fetch outcome is a `Result` input to `Orchestrator.RunAnalysis`.
- Images and anchors: the body-text extraction removes every `script`, `style`, `nav`, `header` and `footer` element before images and links are collected (`src/core/fetcher.py:15-17`, `:41-42`). A `Fetcher.RawPage` therefore holds only the images and anchors outside those elements, as the parser yields them.
- Fetcher.FailureMessage: states the fixed prefix of each message and that the HTTP and generic messages end with the library's text. The library's exception texts are parameters.
- `is_valid_url`: depends on `urllib.parse`, whose behaviour is not part of this model.
- NLTK: the English stop-word list and the Porter stemmer are a `TextUtils.Lexicon` parameter. `ensure_nltk_data` only downloads resources and is not modelled.
- Character classes: `\w` is ASCII letters, digits and `_`, and `lower()` maps only A–Z. Unicode word characters and case mapping are not modelled. Whitespace is Python's exact `str.isspace` set.
- Floating point: reals are exact. Truncation may differ from CPython where a binary float lands just below an integer. `Format.FormatTenths` rounds the exact value half to even, while CPython's `{x:.1f}` rounds the nearest binary double, so a density in a message can differ in its last digit (23 of 80 tokens is 28.75 per cent: CPython prints 28.7, the model 28.8).
- `analyzed_at`: `datetime.now()` is the caller's `analyzedAt` parameter.
- Details dictionaries are typed records. The per-keyword `findings` dict repeats fields already in `KeywordScore` and is dropped. The canonical link's `href` is not recorded.
- StructureAnalyzer.AnalyzeHierarchy: records each heading's level (1–6) rather than the tag string; `Fetcher.TagName` gives the tag name of a level. `ContentAnalyzer.KeywordScore.inHeadings` likewise holds the matching levels rather than the tags `h1`…`h6`.
- KeywordProcessor.ProcessKeyword: `variations` is `list(set(...))`, whose order Python leaves unspecified, so it is a set.
- TextUtils.CalculateDensity: the multi-word count is modelled as a scan for the word-boundary phrase pattern (`PhraseCount`), with no property of its own beyond being a count; the Unicode details of `\b`, `\s` and `\w` in Python's `re` are approximated as above.
- TextUtils.DensityExample: proved for every token repeated three times before two words lacking its first letter. The literal string is one instance and is not stated separately.
- `run_analysis`'s `verbose` flag has no effect and is not a parameter.
- The AI analyzer, the CLI, the renderers and exporters, and the Django application are outside this core.
