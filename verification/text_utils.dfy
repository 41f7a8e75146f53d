/**
 * Text helpers of the pipeline (src/utils/text_utils.py): normalisation,
 * word tokenisation, stop-word removal, stemming and keyword density.
 *
 * The NLTK resources are not modelled: the English stop-word set and the
 * Porter stemmer arrive as a `Lexicon` value.
 */
module TextUtils {
  import opened Wrappers
  import opened Strings

  /** The stop-word set and the stemming function the pipeline is run with. */
  datatype Lexicon = Lexicon(stopWords: set<string>, stem: string -> string)

  /** What tokenisation produces: a non-empty, lower-case run of word characters. */
  predicate IsToken(w: string) {
    |w| > 0 && All(w, IsWordChar) && IsLowercase(w)
  }

  /** `a` is `b` with some elements left out (greedy matching is complete for this). */
  ghost predicate IsSubsequence<T>(a: seq<T>, b: seq<T>)
    decreases |b|
  {
    || |a| == 0
    || (|b| > 0 && if a[0] == b[0] then IsSubsequence(a[1..], b[1..]) else IsSubsequence(a, b[1..]))
  }

  /**
   * `normalize_text`: the lower-cased text with its leading and trailing
   * whitespace cut off, and nothing else.
   */
  function NormalizeText(text: string): (r: string)
    ensures |r| <= |text| && IsLowercase(r)
    ensures var lower := Lower(text);
            var i := LeadingSpaces(lower);
            && i + |r| <= |lower| && r == lower[i..i + |r|]
            && (forall k :: 0 <= k < i ==> IsSpace(lower[k]))
            && (forall k :: i + |r| <= k < |lower| ==> IsSpace(lower[k]))
    ensures |r| > 0 ==> NotSpace(r[0]) && NotSpace(r[|r| - 1])
  {
    StripOfLowercase(Lower(text));
    Strip(Lower(text))
  }

  lemma NormalizeTextIdempotent(text: string)
    ensures NormalizeText(NormalizeText(text)) == NormalizeText(text)
  {
    var r := NormalizeText(text);
    LowerOfLowercase(r);
    StripIdempotent(Lower(text));
  }

  /** `tokenize`: the maximal runs of word characters of the lower-cased text. */
  function Tokenize(text: string): (r: seq<string>)
    ensures forall k :: 0 <= k < |r| ==> IsToken(r[k])
  {
    var lower := Lower(text);
    var r := Runs(lower, IsWordChar);
    assert forall k, j :: 0 <= k < |r| && 0 <= j < |r[k]| ==> !IsUpper(r[k][j]) by {
      forall k, j | 0 <= k < |r| && 0 <= j < |r[k]|
        ensures !IsUpper(r[k][j])
      {
        var i :| 0 <= i < |lower| && lower[i] == r[k][j];
      }
    }
    r
  }

  lemma JoinLowercase(ws: seq<string>, sep: string)
    requires IsLowercase(sep)
    requires forall k :: 0 <= k < |ws| ==> IsLowercase(ws[k])
    ensures IsLowercase(Join(ws, sep))
  {
    var s := Join(ws, sep);
    forall i | 0 <= i < |s|
      ensures !IsUpper(s[i])
    {
      JoinChars(ws, sep, s[i]);
      if s[i] !in sep {
        var k :| 0 <= k < |ws| && s[i] in ws[k];
        var j :| 0 <= j < |ws[k]| && ws[k][j] == s[i];
      } else {
        var j :| 0 <= j < |sep| && sep[j] == s[i];
      }
    }
  }

  /** Tokenising space-joined tokens gives the same tokens back. */
  lemma TokenizeJoin(ws: seq<string>)
    requires forall k :: 0 <= k < |ws| ==> IsToken(ws[k])
    ensures Tokenize(Join(ws, " ")) == ws
  {
    var j := Join(ws, " ");
    JoinOfTokensLower(ws);
    JoinOfTokensRuns(ws);
    TokenizeOfLowercase(j);
  }

  /**
   * Tokenising a concatenation tokenises each part, when no word crosses
   * the boundary. With `TokenizeWord` and `TokenizeGap` this fixes the
   * tokens of every text: cut it into maximal words and the gaps between.
   */
  lemma TokenizeAppend(a: string, b: string)
    requires |a| == 0 || |b| == 0 || !IsWordChar(a[|a| - 1]) || !IsWordChar(b[0])
    ensures Tokenize(a + b) == Tokenize(a) + Tokenize(b)
  {
    LowerAppend(a, b);
    var la, lb := Lower(a), Lower(b);
    assert |la| > 0 && |lb| > 0 ==> la[|la| - 1] == LowerChar(a[|a| - 1]) && lb[0] == LowerChar(b[0]);
    RunsAppend(la, lb, IsWordChar);
  }

  /** A word is one token: itself, lower-cased. */
  lemma TokenizeWord(w: string)
    requires |w| > 0 && All(w, IsWordChar)
    ensures Tokenize(w) == [Lower(w)]
  {
    var lw := Lower(w);
    assert All(lw, IsWordChar) by {
      forall i | 0 <= i < |lw|
        ensures IsWordChar(lw[i])
      {
        assert lw[i] == LowerChar(w[i]);
      }
    }
    RunsTakeRun(lw, "", IsWordChar);
    assert lw + "" == lw;
  }

  /** A stretch without word characters has no token. */
  lemma TokenizeGap(g: string)
    requires NoneOf(g, IsWordChar)
    ensures Tokenize(g) == []
  {
    var lg := Lower(g);
    assert NoneOf(lg, IsWordChar) by {
      forall i | 0 <= i < |lg|
        ensures !IsWordChar(lg[i])
      {
        assert lg[i] == LowerChar(g[i]);
      }
    }
    RunsSkip(lg, "", IsWordChar);
    assert lg + "" == lg;
  }

  /** Punctuation separates tokens: "A,b" gives "a" then "b". */
  lemma TokenizePunctuated()
    ensures Tokenize("A,b") == ["a", "b"]
  {
    assert "A,b" == "A" + ("," + "b");
    TokenizeAppend(",", "b");
    TokenizeAppend("A", "," + "b");
    TokenizeWord("A");
    TokenizeGap(",");
    TokenizeWord("b");
    assert Lower("A") == "a" && Lower("b") == "b";
  }

  lemma TokenizeOfLowercase(t: string)
    requires Lower(t) == t
    ensures Tokenize(t) == Runs(t, IsWordChar)
  {
  }

  lemma JoinOfTokensLower(ws: seq<string>)
    requires forall k :: 0 <= k < |ws| ==> IsToken(ws[k])
    ensures Lower(Join(ws, " ")) == Join(ws, " ")
  {
    JoinLowercase(ws, " ");
    LowerOfLowercase(Join(ws, " "));
  }

  lemma JoinOfTokensRuns(ws: seq<string>)
    requires forall k :: 0 <= k < |ws| ==> IsToken(ws[k])
    ensures Runs(Join(ws, " "), IsWordChar) == ws
  {
    assert NoneOf(" ", IsWordChar);
    RunsOfJoin(ws, " ", IsWordChar);
  }

  /**
   * `remove_stop_words`: the words that are not stop words, every occurrence
   * kept, in their original order.
   */
  function RemoveStopWords(lex: Lexicon, words: seq<string>): (r: seq<string>)
    ensures forall k :: 0 <= k < |r| ==> r[k] in words && r[k] !in lex.stopWords
    ensures forall w :: w in words && w !in lex.stopWords ==> w in r
    ensures forall w :: multiset(r)[w] == if w in lex.stopWords then 0 else multiset(words)[w]
    ensures IsSubsequence(r, words)
    decreases |words|
  {
    if |words| == 0 then []
    else
      assert words == [words[0]] + words[1..];
      var rest := RemoveStopWords(lex, words[1..]);
      var r := if words[0] in lex.stopWords then rest else [words[0]] + rest;
      assert forall w :: multiset(r)[w] == if w in lex.stopWords then 0 else multiset(words)[w];
      CountsKeepWords(lex.stopWords, words, r);
      r
  }

  /** Counts that are the input's for every word but the dropped ones, which never occur, keep exactly the other words. */
  lemma CountsKeepWords(dropped: set<string>, words: seq<string>, r: seq<string>)
    requires forall w :: multiset(r)[w] == if w in dropped then 0 else multiset(words)[w]
    ensures forall k :: 0 <= k < |r| ==> r[k] in words && r[k] !in dropped
    ensures forall w :: w in words && w !in dropped ==> w in r
  {
    forall k | 0 <= k < |r|
      ensures r[k] in words && r[k] !in dropped
    {
      assert multiset(r)[r[k]] > 0;
    }
    forall w | w in words && w !in dropped
      ensures w in r
    {
      assert multiset(words)[w] > 0;
    }
  }

  /** `stem_word`: the stem of the lower-cased word. */
  function StemWord(lex: Lexicon, word: string): string {
    lex.stem(Lower(word))
  }

  /** `stem_words`: each word replaced by its stem, order and length kept. */
  function StemWords(lex: Lexicon, words: seq<string>): (r: seq<string>)
    ensures |r| == |words|
    ensures forall k :: 0 <= k < |words| ==> r[k] == StemWord(lex, words[k])
  {
    seq(|words|, k requires 0 <= k < |words| => StemWord(lex, words[k]))
  }

  /** The regular-expression assertion `\b` at position `i` of `t`. */
  predicate IsBoundary(t: string, i: int)
    requires 0 <= i <= |t|
  {
    (i > 0 && IsWordChar(t[i - 1])) != (i < |t| && IsWordChar(t[i]))
  }

  /**
   * End of the match of `w1\s+w2...\s+wn` in `t` starting at `i`. Each word
   * starts with a word character, so the greedy `\s+` must take every space.
   */
  function MatchPhraseBody(t: string, i: nat, words: seq<string>): (r: Option<nat>)
    requires i <= |t| && |words| > 0
    ensures r.Some? ==> i <= r.value <= |t|
    decreases |words|
  {
    if !StartsWith(t[i..], words[0]) then None
    else
      var j := i + |words[0]|;
      if |words| == 1 then Some(j)
      else
        var k := j + RunLength(t[j..], IsSpace);
        if k == j then None else MatchPhraseBody(t, k, words[1..])
  }

  /** End of a match of `\b w1\s+...\s+wn \b` at `i`; with no words the pattern is `\b\b`. */
  function MatchPhraseAt(t: string, i: nat, words: seq<string>): (r: Option<nat>)
    requires i <= |t|
    ensures r.Some? ==> i <= r.value <= |t|
  {
    if !IsBoundary(t, i) then None
    else if |words| == 0 then Some(i)
    else
      match MatchPhraseBody(t, i, words)
      case None => None
      case Some(e) => if IsBoundary(t, e) then Some(e) else None
  }

  /**
   * `len(re.findall(pattern, t))` for the phrase pattern, scanning from
   * `from`: after a match the scan resumes at its end, after an empty match
   * one position later.
   */
  function PhraseCount(t: string, words: seq<string>, from: nat): nat
    requires from <= |t| + 1
    decreases |t| + 1 - from
  {
    if from > |t| then 0
    else
      match MatchPhraseAt(t, from, words)
      case Some(e) => 1 + PhraseCount(t, words, if e > from then e else from + 1)
      case None => PhraseCount(t, words, from + 1)
  }

  /**
   * `calculate_density`: keyword occurrences per hundred words of `text`. A
   * one-token keyword is counted as a raw substring of the lower-cased text;
   * any other keyword through the word-boundary phrase pattern.
   */
  function CalculateDensity(keyword: string, text: string): (d: real)
    ensures d >= 0.0
    ensures |Tokenize(text)| == 0 ==> d == 0.0
  {
    var textLower := Lower(text);
    var keywordLower := Lower(keyword);
    var totalWords := |Tokenize(text)|;
    if totalWords == 0 then 0.0
    else
      var keywordWords := Tokenize(keywordLower);
      var count :=
        if |keywordWords| == 1 then CountOccurrences(textLower, keywordLower)
        else PhraseCount(textLower, keywordWords, 0);
      (count as real / totalWords as real) * 100.0
  }

  /**
   * Every character that is not a word character is a single space between
   * two word characters: the shape of tokens joined by " ".
   */
  predicate SingleSpaced(r: string) {
    forall i :: 0 <= i < |r| && !IsWordChar(r[i]) ==>
      r[i] == ' ' && 0 < i < |r| - 1 && IsWordChar(r[i - 1]) && IsWordChar(r[i + 1])
  }

  lemma {:induction false} JoinSingleSpaced(ws: seq<string>)
    requires forall k :: 0 <= k < |ws| ==> IsToken(ws[k])
    ensures SingleSpaced(Join(ws, " "))
    ensures |ws| > 0 ==> var j := Join(ws, " "); |j| > 0 && IsWordChar(j[0]) && IsWordChar(j[|j| - 1])
    decreases |ws|
  {
    if |ws| == 1 {
      assert Join(ws, " ") == ws[0];
    } else if |ws| > 1 {
      var w := ws[0];
      var rest := Join(ws[1..], " ");
      JoinSingleSpaced(ws[1..]);
      var j := Join(ws, " ");
      assert j == w + " " + rest;
      forall i | 0 <= i < |j| && !IsWordChar(j[i])
        ensures j[i] == ' ' && 0 < i < |j| - 1 && IsWordChar(j[i - 1]) && IsWordChar(j[i + 1])
      {
        if i < |w| {
          assert false;
        } else if i == |w| {
          assert j[i - 1] == w[|w| - 1] && j[i + 1] == rest[0];
        } else {
          var m := i - |w| - 1;
          assert j[i] == rest[m];
          assert j[i - 1] == rest[m - 1] && j[i + 1] == rest[m + 1];
        }
      }
      assert j[0] == w[0] && j[|j| - 1] == rest[|rest| - 1];
    }
  }

  /**
   * The first `n` tokens of `text`, joined by single spaces: it tokenises
   * back to those tokens, every other character is one space between two
   * of them, and it is lower case like the tokens.
   */
  function GetFirstNWords(text: string, n: nat): (r: string)
    ensures var words := Tokenize(text);
            Tokenize(r) == words[..if n < |words| then n else |words|]
    ensures SingleSpaced(r)
    ensures IsLowercase(r)
  {
    var words := Tokenize(text);
    var prefix := words[..if n < |words| then n else |words|];
    TokenizeJoin(prefix);
    JoinSingleSpaced(prefix);
    JoinLowercase(prefix, " ");
    Join(prefix, " ")
  }

  /** For a one-token keyword the density is positive exactly when the keyword occurs in the text. */
  lemma DensityPositiveIffPresent(keyword: string, text: string)
    requires |Tokenize(keyword)| == 1 && |Tokenize(text)| > 0
    ensures CalculateDensity(keyword, text) > 0.0 <==> IsSubstring(Lower(keyword), Lower(text))
  {
    LowerOfLowercase(Lower(keyword));
    assert |Lower(keyword)| > 0;
    CountPositiveIffSubstring(Lower(text), Lower(keyword));
  }

  /** The density of a one-token keyword from its raw count and the text's word count. */
  lemma DensityOfOneToken(keyword: string, text: string, count: nat, total: nat)
    requires |Tokenize(Lower(keyword))| == 1
    requires |Tokenize(text)| == total > 0
    requires CountOccurrences(Lower(text), Lower(keyword)) == count
    ensures CalculateDensity(keyword, text) == (count as real / total as real) * 100.0
  {
  }

  /** A single token is tokenised as itself. */
  lemma TokensOfToken(w: string)
    requires IsToken(w)
    ensures Tokenize(w) == [w]
  {
    assert Join([w], " ") == w;
    TokenizeJoin([w]);
  }

  /** Two copies of a token side by side form one token. */
  lemma DoubledToken(w: string)
    requires IsToken(w)
    ensures IsToken(w + w)
  {
    assert forall i :: 0 <= i < |w + w| ==> (w + w)[i] == w[if i < |w| then i else i - |w|];
  }

  /** A token, a space and a text hold one occurrence of the token more than the text. */
  lemma CountWordStep(w: string, t: string)
    requires IsToken(w)
    ensures CountOccurrences(w + " " + t, w) == 1 + CountOccurrences(t, w)
  {
    assert w + " " + t == w + (" " + t);
    assert " " + t == [' '] + t;
    CountSkipChar(' ', t, w);
    CountAfterMatch(w, " " + t);
  }

  /**
   * The density of "seo" in "seo seo seo optimization guide" is 60 per
   * hundred, and so for any token `w` repeated three times before two words
   * that do not contain its first letter: three matches in five words.
   */
  lemma DensityExample(w: string, a: string, b: string)
    requires IsToken(w) && IsToken(a) && IsToken(b)
    requires w[0] !in a && w[0] !in b
    ensures CalculateDensity(w, w + " " + w + " " + w + " " + a + " " + b) == 60.0
  {
    var words := [w, w, w, a, b];
    var tail := a + " " + b;
    var text := w + " " + (w + " " + (w + " " + tail));
    assert Join(words, " ") == text by {
      assert Join(words[4..], " ") == b;
      assert Join(words[3..], " ") == tail;
      assert Join(words[2..], " ") == w + " " + tail;
      assert Join(words[1..], " ") == w + " " + (w + " " + tail);
    }
    assert Tokenize(text) == words by {
      TokenizeJoin(words);
    }
    assert Lower(text) == text by {
      JoinLowercase(words, " ");
      LowerOfLowercase(text);
    }
    assert |Tokenize(Lower(w))| == 1 by {
      LowerOfLowercase(w);
      TokensOfToken(w);
    }
    assert CountOccurrences(text, w) == 3 by {
      assert w[0] !in tail;
      CountWithoutFirstChar(tail, w);
      CountWordStep(w, tail);
      CountWordStep(w, w + " " + tail);
      CountWordStep(w, w + " " + (w + " " + tail));
    }
    LowerOfLowercase(w);
    DensityOfThreeInFive(w, text);
    RegroupFiveWords(w, a, b);
  }

  lemma RegroupFiveWords(w: string, a: string, b: string)
    ensures w + " " + w + " " + w + " " + a + " " + b == w + " " + (w + " " + (w + " " + (a + " " + b)))
  {
  }

  /** A one-word keyword counted three times in a five-word text has a density of 60. */
  lemma DensityOfThreeInFive(keyword: string, text: string)
    requires |Tokenize(Lower(keyword))| == 1
    requires |Tokenize(text)| == 5
    requires CountOccurrences(Lower(text), Lower(keyword)) == 3
    ensures CalculateDensity(keyword, text) == 60.0
  {
    DensityOfOneToken(keyword, text, 3, 5);
  }

  /**
   * A one-word keyword is counted as a raw substring, so it is also counted
   * inside longer words and the density is not bounded by 100: "seo" in
   * "seoseo" has density 200, and so has any token in its own double.
   */
  lemma DensityCanExceedHundred(w: string)
    requires IsToken(w)
    ensures CalculateDensity(w, w + w) == 200.0
  {
    DoubledToken(w);
    assert |Tokenize(w + w)| == 1 by {
      TokensOfToken(w + w);
    }
    assert |Tokenize(Lower(w))| == 1 by {
      LowerOfLowercase(w);
      TokensOfToken(w);
    }
    assert CountOccurrences(Lower(w + w), Lower(w)) == 2 by {
      LowerOfLowercase(w);
      LowerOfLowercase(w + w);
      assert w == w + "";
      CountAfterMatch(w, "");
      CountAfterMatch(w, w);
    }
    DensityOfTwiceInOne(w, w + w);
  }

  /** A one-word keyword counted twice in a one-word text has a density of 200. */
  lemma DensityOfTwiceInOne(keyword: string, text: string)
    requires |Tokenize(Lower(keyword))| == 1
    requires |Tokenize(text)| == 1
    requires CountOccurrences(Lower(text), Lower(keyword)) == 2
    ensures CalculateDensity(keyword, text) == 200.0
  {
    DensityOfOneToken(keyword, text, 2, 1);
  }
}
