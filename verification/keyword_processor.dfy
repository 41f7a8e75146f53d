/**
 * Keyword processing (src/core/keyword_processor.py): each keyword is
 * trimmed, normalised, stripped of stop words and stemmed, and a page text
 * matches a keyword when the text contains its literal form, its
 * stop-word-free form, or (after stemming the text) its stemmed form.
 */
module KeywordProcessor {
  import opened Strings
  import opened TextUtils

  /**
   * The processed forms of one keyword. `variations` is `list(set(...))` in
   * the source, whose order is unspecified, so it is kept as a set.
   */
  datatype KeywordVariation = KeywordVariation(
    original: string,
    stemmed: string,
    variations: set<string>,
    stopWordsRemoved: string)

  /** The stemmer never turns a token into something that is not a token. */
  ghost predicate StemmerKeepsTokens(lex: Lexicon) {
    forall w :: IsToken(w) ==> IsToken(lex.stem(w))
  }

  /** `process_keyword`. */
  function ProcessKeyword(lex: Lexicon, keyword: string): (kv: KeywordVariation)
    ensures kv.original == Strip(keyword)
    ensures kv.stopWordsRemoved == Join(RemoveStopWords(lex, Tokenize(NormalizeText(kv.original))), " ")
    ensures Tokenize(kv.stopWordsRemoved) == RemoveStopWords(lex, Tokenize(NormalizeText(kv.original)))
    ensures kv.stemmed == Join(StemWords(lex, Tokenize(kv.stopWordsRemoved)), " ")
    ensures kv.variations == {NormalizeText(kv.original), kv.stopWordsRemoved, kv.stemmed}
  {
    var original := Strip(keyword);
    var normalized := NormalizeText(original);
    var words := Tokenize(normalized);
    var wordsNoStop := RemoveStopWords(lex, words);
    TokenizeJoin(wordsNoStop);
    var stopWordsRemoved := Join(wordsNoStop, " ");
    var stemmed := Join(StemWords(lex, wordsNoStop), " ");
    var variations := {normalized, stopWordsRemoved, stemmed};
    KeywordVariation(original, stemmed, variations, stopWordsRemoved)
  }

  /**
   * With a stemmer that maps tokens to tokens, the stemmed form has as many
   * words as the stop-word-free form, and word `i` is the stem of word `i`.
   */
  lemma StemmedForm(lex: Lexicon, keyword: string)
    requires StemmerKeepsTokens(lex)
    ensures var kv := ProcessKeyword(lex, keyword);
            var kept := Tokenize(kv.stopWordsRemoved);
            var stems := Tokenize(kv.stemmed);
            |stems| == |kept| && forall i :: 0 <= i < |kept| ==> stems[i] == lex.stem(kept[i])
  {
    var kv := ProcessKeyword(lex, keyword);
    StemsOfTokens(lex, Tokenize(kv.stopWordsRemoved));
  }

  lemma StemsOfTokens(lex: Lexicon, ws: seq<string>)
    requires StemmerKeepsTokens(lex)
    requires forall k :: 0 <= k < |ws| ==> IsToken(ws[k])
    ensures var stems := Tokenize(Join(StemWords(lex, ws), " "));
            |stems| == |ws| && forall i :: 0 <= i < |ws| ==> stems[i] == lex.stem(ws[i])
  {
    var stems := StemWords(lex, ws);
    forall i | 0 <= i < |ws|
      ensures IsToken(stems[i]) && stems[i] == lex.stem(ws[i])
    {
      LowerOfLowercase(ws[i]);
    }
    TokenizeJoin(stems);
  }

  /** The text the stemmed form is looked for in: the stems of the text's tokens, space-joined. */
  function StemmedText(lex: Lexicon, textNormalized: string): string {
    Join(StemWords(lex, Tokenize(textNormalized)), " ")
  }

  /**
   * `match_keyword_in_text`: an empty text never matches; otherwise the
   * literal keyword, the non-empty stop-word-free form, or the non-empty
   * stemmed form (in the stemmed text) must occur.
   */
  function MatchKeywordInText(lex: Lexicon, kv: KeywordVariation, text: string): (r: bool)
    ensures |text| == 0 ==> !r
    ensures |text| > 0 && IsSubstring(Lower(kv.original), NormalizeText(text)) ==> r
    ensures |text| > 0 && |kv.stopWordsRemoved| > 0 && IsSubstring(kv.stopWordsRemoved, NormalizeText(text)) ==> r
    ensures r <==>
              |text| > 0 &&
              (|| IsSubstring(Lower(kv.original), NormalizeText(text))
               || (|kv.stopWordsRemoved| > 0 && IsSubstring(kv.stopWordsRemoved, NormalizeText(text)))
               || (|kv.stemmed| > 0 && IsSubstring(kv.stemmed, StemmedText(lex, NormalizeText(text)))))
  {
    if |text| == 0 then false
    else
      var textNormalized := NormalizeText(text);
      if IsSubstring(Lower(kv.original), textNormalized) then true
      else if |kv.stopWordsRemoved| > 0 && IsSubstring(kv.stopWordsRemoved, textNormalized) then true
      else |kv.stemmed| > 0 && IsSubstring(kv.stemmed, StemmedText(lex, textNormalized))
  }

  /** Every non-empty keyword matches its own text. */
  lemma KeywordMatchesItself(lex: Lexicon, keyword: string)
    requires |keyword| > 0
    ensures MatchKeywordInText(lex, ProcessKeyword(lex, keyword), keyword)
  {
    var kv := ProcessKeyword(lex, keyword);
    assert Lower(kv.original) == NormalizeText(keyword) by {
      LowerStrip(keyword);
    }
    LiteralSelfMatch(lex, kv, keyword);
  }

  /** A keyword whose lower-cased literal form is the normalised text matches that text. */
  lemma LiteralSelfMatch(lex: Lexicon, kv: KeywordVariation, text: string)
    requires |text| > 0 && Lower(kv.original) == NormalizeText(text)
    ensures MatchKeywordInText(lex, kv, text)
  {
    var t := NormalizeText(text);
    assert OccursAt(t, t, 0);
  }

  /**
   * A keyword made only of stop words has empty stop-word-free and stemmed
   * forms, so it matches only through its literal text.
   */
  lemma OnlyStopWords(lex: Lexicon, keyword: string, text: string)
    requires forall w :: w in Tokenize(NormalizeText(Strip(keyword))) ==> w in lex.stopWords
    ensures var kv := ProcessKeyword(lex, keyword);
            && kv.stopWordsRemoved == "" && kv.stemmed == ""
            && (MatchKeywordInText(lex, kv, text) <==> |text| > 0 && IsSubstring(Lower(kv.original), NormalizeText(text)))
  {
    var kv := ProcessKeyword(lex, keyword);
    var kept := RemoveStopWords(lex, Tokenize(NormalizeText(kv.original)));
    assert kept == [];
  }

  /**
   * Matching by stems: when the stems of the keyword's remaining words appear
   * consecutively among the stems of the text's words, the keyword matches,
   * whatever the surface forms ("running shoes" in "run shoe").
   */
  lemma StemmedMatch(lex: Lexicon, keyword: string, text: string, i: nat)
    requires StemmerKeepsTokens(lex)
    requires |text| > 0
    requires StemsOccurAt(
               StemWords(lex, Tokenize(ProcessKeyword(lex, keyword).stopWordsRemoved)),
               StemWords(lex, Tokenize(NormalizeText(text))), i)
    ensures MatchKeywordInText(lex, ProcessKeyword(lex, keyword), text)
  {
    var kv := ProcessKeyword(lex, keyword);
    var ws := Tokenize(kv.stopWordsRemoved);
    var tt := Tokenize(NormalizeText(text));
    assert kv.stemmed == Join(StemWords(lex, ws), " ");
    assert StemmedText(lex, NormalizeText(text)) == Join(StemWords(lex, tt), " ");
    StemmedPhrase(lex, ws, tt, i);
    StemmedBranch(lex, kv, text);
  }

  /** The non-empty run `ks` occurs in `ts` from index `i`. */
  predicate StemsOccurAt(ks: seq<string>, ts: seq<string>, i: nat) {
    0 < |ks| && i + |ks| <= |ts| && ts[i..i + |ks|] == ks
  }

  /** A run of stems inside the text's stems puts their join inside the stemmed text. */
  lemma StemmedPhrase(lex: Lexicon, ws: seq<string>, tt: seq<string>, i: nat)
    requires StemmerKeepsTokens(lex)
    requires forall k :: 0 <= k < |ws| ==> IsToken(ws[k])
    requires StemsOccurAt(StemWords(lex, ws), StemWords(lex, tt), i)
    ensures |Join(StemWords(lex, ws), " ")| > 0
    ensures IsSubstring(Join(StemWords(lex, ws), " "), Join(StemWords(lex, tt), " "))
  {
    var ks := StemWords(lex, ws);
    var ts := StemWords(lex, tt);
    FirstStemNonEmpty(lex, ws);
    JoinLength(ks, " ");
    JoinInfix(ts, " ", i, i + |ks|);
  }

  /** The stem of a token is never empty. */
  lemma FirstStemNonEmpty(lex: Lexicon, ws: seq<string>)
    requires StemmerKeepsTokens(lex)
    requires |ws| > 0 && IsToken(ws[0])
    ensures |StemWords(lex, ws)| > 0 && |StemWords(lex, ws)[0]| > 0
  {
    LowerOfLowercase(ws[0]);
    assert IsToken(lex.stem(ws[0]));
  }

  /** A non-empty stemmed form found in the stemmed text is a match. */
  lemma StemmedBranch(lex: Lexicon, kv: KeywordVariation, text: string)
    requires |text| > 0 && |kv.stemmed| > 0
    requires IsSubstring(kv.stemmed, StemmedText(lex, NormalizeText(text)))
    ensures MatchKeywordInText(lex, kv, text)
  {
  }

  /** `process_keywords`: one processed keyword per input keyword, in order. */
  function ProcessKeywords(lex: Lexicon, keywords: seq<string>): (r: seq<KeywordVariation>)
    ensures |r| == |keywords|
    ensures forall i :: 0 <= i < |keywords| ==> r[i] == ProcessKeyword(lex, keywords[i])
  {
    seq(|keywords|, i requires 0 <= i < |keywords| => ProcessKeyword(lex, keywords[i]))
  }
}
