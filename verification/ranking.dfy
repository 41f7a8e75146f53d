/**
 * The recommendation ranking of the orchestrator (src/core/orchestrator.py):
 * candidates tagged with the score of the module or keyword they come from,
 * put in order of score by a stable sort (Python's `list.sort` with a key),
 * and cut to a prefix.
 */
module Ranking {

  /** The module a recommendation comes from. */
  datatype Source = KeywordSource | TechnicalSource | ContentSource | StructureSource | LinksSource

  /** A recommendation with the score it is ranked by. */
  datatype Candidate = Candidate(source: Source, score: int, text: string)

  /** The position of a source's bucket in the list of all candidates. */
  function BucketRank(src: Source): nat {
    match src
    case KeywordSource => 0
    case TechnicalSource => 1
    case ContentSource => 2
    case StructureSource => 3
    case LinksSource => 4
  }

  /** The candidates come bucket by bucket, in bucket-rank order. */
  predicate SourcesOrdered(s: seq<Candidate>) {
    forall i, j :: 0 <= i < j < |s| ==> BucketRank(s[i].source) <= BucketRank(s[j].source)
  }

  predicate AllFrom(b: seq<Candidate>, src: Source) {
    forall i :: 0 <= i < |b| ==> b[i].source == src
  }

  /** The candidates of `s` from source `src`, in their order in `s`. */
  function FromSource(s: seq<Candidate>, src: Source): seq<Candidate> {
    if |s| == 0 then []
    else FromSource(s[..|s| - 1], src) + (if s[|s| - 1].source == src then [s[|s| - 1]] else [])
  }

  lemma {:induction false} FromSourceAppend(a: seq<Candidate>, b: seq<Candidate>, src: Source)
    ensures FromSource(a + b, src) == FromSource(a, src) + FromSource(b, src)
    decreases |b|
  {
    if |b| > 0 {
      assert (a + b)[..|a + b| - 1] == a + b[..|b| - 1];
      FromSourceAppend(a, b[..|b| - 1], src);
    } else {
      assert a + b == a;
    }
  }

  /** A bucket whose candidates all come from `from` yields itself for `from` and nothing for any other source. */
  lemma {:induction false} FromSourceOfBucket(b: seq<Candidate>, from: Source, src: Source)
    requires forall i :: 0 <= i < |b| ==> b[i].source == from
    ensures FromSource(b, src) == if src == from then b else []
    decreases |b|
  {
    if |b| > 0 {
      FromSourceOfBucket(b[..|b| - 1], from, src);
      assert b == b[..|b| - 1] + [b[|b| - 1]];
    }
  }

  /**
   * Five buckets, one per source, laid end to end in bucket-rank order: the
   * sources come in order, and each source's candidates are its bucket.
   */
  lemma FiveBuckets(kb: seq<Candidate>, tc: seq<Candidate>, cc: seq<Candidate>, sc: seq<Candidate>, lc: seq<Candidate>)
    requires AllFrom(kb, KeywordSource) && AllFrom(tc, TechnicalSource) && AllFrom(cc, ContentSource)
    requires AllFrom(sc, StructureSource) && AllFrom(lc, LinksSource)
    ensures SourcesOrdered(kb + tc + cc + sc + lc)
    ensures var all := kb + tc + cc + sc + lc;
            && FromSource(all, KeywordSource) == kb && FromSource(all, TechnicalSource) == tc
            && FromSource(all, ContentSource) == cc && FromSource(all, StructureSource) == sc
            && FromSource(all, LinksSource) == lc
  {
    BucketsOrdered(kb, tc, cc, sc, lc);
    BucketsFromSource(kb, tc, cc, sc, lc, KeywordSource);
    BucketsFromSource(kb, tc, cc, sc, lc, TechnicalSource);
    BucketsFromSource(kb, tc, cc, sc, lc, ContentSource);
    BucketsFromSource(kb, tc, cc, sc, lc, StructureSource);
    BucketsFromSource(kb, tc, cc, sc, lc, LinksSource);
  }

  lemma BucketsOrdered(kb: seq<Candidate>, tc: seq<Candidate>, cc: seq<Candidate>, sc: seq<Candidate>, lc: seq<Candidate>)
    requires AllFrom(kb, KeywordSource) && AllFrom(tc, TechnicalSource) && AllFrom(cc, ContentSource)
    requires AllFrom(sc, StructureSource) && AllFrom(lc, LinksSource)
    ensures SourcesOrdered(kb + tc + cc + sc + lc)
  {
    AppendBucket([], kb, KeywordSource);
    assert [] + kb == kb;
    AppendBucket(kb, tc, TechnicalSource);
    AppendBucket(kb + tc, cc, ContentSource);
    AppendBucket(kb + tc + cc, sc, StructureSource);
    AppendBucket(kb + tc + cc + sc, lc, LinksSource);
  }

  lemma BucketsFromSource(kb: seq<Candidate>, tc: seq<Candidate>, cc: seq<Candidate>, sc: seq<Candidate>, lc: seq<Candidate>, src: Source)
    requires AllFrom(kb, KeywordSource) && AllFrom(tc, TechnicalSource) && AllFrom(cc, ContentSource)
    requires AllFrom(sc, StructureSource) && AllFrom(lc, LinksSource)
    ensures FromSource(kb + tc + cc + sc + lc, src)
            == (if src == KeywordSource then kb else []) + (if src == TechnicalSource then tc else [])
               + (if src == ContentSource then cc else []) + (if src == StructureSource then sc else [])
               + (if src == LinksSource then lc else [])
  {
    FromSourceAppend(kb + tc + cc + sc, lc, src);
    FromSourceAppend(kb + tc + cc, sc, src);
    FromSourceAppend(kb + tc, cc, src);
    FromSourceAppend(kb, tc, src);
    FromSourceOfBucket(kb, KeywordSource, src);
    FromSourceOfBucket(tc, TechnicalSource, src);
    FromSourceOfBucket(cc, ContentSource, src);
    FromSourceOfBucket(sc, StructureSource, src);
    FromSourceOfBucket(lc, LinksSource, src);
  }

  /** Appending a bucket of a source ranked no lower than everything so far keeps the sources ordered. */
  lemma AppendBucket(a: seq<Candidate>, b: seq<Candidate>, src: Source)
    requires SourcesOrdered(a) && forall i :: 0 <= i < |a| ==> BucketRank(a[i].source) <= BucketRank(src)
    requires forall i :: 0 <= i < |b| ==> b[i].source == src
    ensures SourcesOrdered(a + b)
    ensures forall i :: 0 <= i < |a + b| ==> BucketRank((a + b)[i].source) <= BucketRank(src)
  {
  }

  predicate SortedByScore(s: seq<Candidate>) {
    forall i, j :: 0 <= i < j < |s| ==> s[i].score <= s[j].score
  }

  /** The candidates of score `k`, in their order in `s`. */
  function WithScore(s: seq<Candidate>, k: int): seq<Candidate> {
    if |s| == 0 then []
    else WithScore(s[..|s| - 1], k) + (if s[|s| - 1].score == k then [s[|s| - 1]] else [])
  }

  /** Picking the candidates of one score keeps the sources in order. */
  lemma {:induction false} WithScoreOrdered(s: seq<Candidate>, k: int)
    requires SourcesOrdered(s)
    ensures SourcesOrdered(WithScore(s, k))
    ensures forall c :: c in WithScore(s, k) ==> c in s
    decreases |s|
  {
    if |s| > 0 {
      var init := s[..|s| - 1];
      var last := s[|s| - 1];
      WithScoreOrdered(init, k);
      var w := WithScore(init, k);
      forall c | c in w
        ensures BucketRank(c.source) <= BucketRank(last.source)
      {
        var i :| 0 <= i < |init| && init[i] == c;
        assert s[i] == c;
      }
    }
  }

  lemma {:induction false} WithScoreAppend(a: seq<Candidate>, b: seq<Candidate>, k: int)
    ensures WithScore(a + b, k) == WithScore(a, k) + WithScore(b, k)
    decreases |b|
  {
    if |b| > 0 {
      assert (a + b)[..|a + b| - 1] == a + b[..|b| - 1];
      WithScoreAppend(a, b[..|b| - 1], k);
    } else {
      assert a + b == a;
    }
  }

  /**
   * Insert `x` after every candidate of `s` whose score is at most its own:
   * the step of a stable insertion sort.
   */
  function Insert(s: seq<Candidate>, x: Candidate): (r: seq<Candidate>)
    ensures |r| == |s| + 1
    ensures multiset(r) == multiset(s) + multiset{x}
    decreases |s|
  {
    if |s| == 0 then [x]
    else if s[|s| - 1].score <= x.score then s + [x]
    else
      var init := s[..|s| - 1];
      assert s == init + [s[|s| - 1]];
      Insert(init, x) + [s[|s| - 1]]
  }

  /** A bound on every score of `s` and on `x` bounds every score after the insertion. */
  lemma {:induction false} InsertBounded(s: seq<Candidate>, x: Candidate, b: int)
    requires forall i :: 0 <= i < |s| ==> s[i].score <= b
    requires x.score <= b
    ensures forall i :: 0 <= i < |Insert(s, x)| ==> Insert(s, x)[i].score <= b
    decreases |s|
  {
    if |s| > 0 && s[|s| - 1].score > x.score {
      InsertBounded(s[..|s| - 1], x, b);
    }
  }

  /** Inserting into a sorted sequence keeps it sorted. */
  lemma {:induction false} InsertSorted(s: seq<Candidate>, x: Candidate)
    requires SortedByScore(s)
    ensures SortedByScore(Insert(s, x))
    decreases |s|
  {
    if |s| > 0 && s[|s| - 1].score > x.score {
      var init := s[..|s| - 1];
      InsertSorted(init, x);
      InsertBounded(init, x, s[|s| - 1].score);
    }
  }

  /** Inserting keeps the order among candidates of any one score, the new one last. */
  lemma {:induction false} InsertStable(s: seq<Candidate>, x: Candidate, k: int)
    ensures WithScore(Insert(s, x), k) == WithScore(s, k) + (if x.score == k then [x] else [])
    decreases |s|
  {
    if |s| == 0 {
      assert Insert(s, x) == [x];
      assert [x][..0] == [];
    } else if s[|s| - 1].score <= x.score {
      WithScoreAppend(s, [x], k);
      assert [x][..0] == [];
    } else {
      var init := s[..|s| - 1];
      var last := s[|s| - 1];
      var added := if x.score == k then [x] else [];
      assert s == init + [last];
      assert Insert(s, x) == Insert(init, x) + [last];
      InsertStable(init, x, k);
      WithScoreAppend(Insert(init, x), [last], k);
      WithScoreAppend(init, [last], k);
      var moved := WithScore([last], k);
      assert WithScore(Insert(s, x), k) == WithScore(init, k) + added + moved;
      assert WithScore(s, k) == WithScore(init, k) + moved;
      // `last` scores above `x`, so at most one of the two has score `k`.
      if added == [] {
        assert WithScore(init, k) + added + moved == WithScore(init, k) + moved;
        assert WithScore(s, k) + added == WithScore(s, k);
      } else {
        assert moved == [];
        assert WithScore(init, k) + added + moved == WithScore(init, k) + added;
        assert WithScore(s, k) == WithScore(init, k);
      }
    }
  }

  /** `sorted(s, key=score)`: a stable sort by score. */
  function SortByScore(s: seq<Candidate>): (r: seq<Candidate>)
    ensures SortedByScore(r)
    ensures multiset(r) == multiset(s)
    ensures |r| == |s|
    decreases |s|
  {
    if |s| == 0 then []
    else
      assert s == s[..|s| - 1] + [s[|s| - 1]];
      var sortedInit := SortByScore(s[..|s| - 1]);
      InsertSorted(sortedInit, s[|s| - 1]);
      Insert(sortedInit, s[|s| - 1])
  }

  /** The sort is stable: the candidates of each score keep their relative order. */
  lemma {:induction false} SortStable(s: seq<Candidate>, k: int)
    ensures WithScore(SortByScore(s), k) == WithScore(s, k)
    decreases |s|
  {
    if |s| > 0 {
      var init := s[..|s| - 1];
      SortStable(init, k);
      InsertStable(SortByScore(init), s[|s| - 1], k);
    }
  }

  /** `s[:n]`. */
  function Take<T>(s: seq<T>, n: nat): (r: seq<T>)
    ensures |r| == (if n < |s| then n else |s|)
    ensures r == s[..|r|]
  {
    if n < |s| then s[..n] else s
  }

  function Texts(s: seq<Candidate>): (r: seq<string>)
    ensures |r| == |s| && forall i :: 0 <= i < |s| ==> r[i] == s[i].text
  {
    seq(|s|, i requires 0 <= i < |s| => s[i].text)
  }

  /** Candidates drawn from `cands` are candidates of `cands`. */
  lemma TextsDrawn(top: seq<Candidate>, cands: seq<Candidate>)
    requires multiset(top) <= multiset(cands)
    ensures forall i :: 0 <= i < |top| ==> top[i] in cands
    ensures forall i :: 0 <= i < |Texts(top)| ==> exists c :: c in cands && c.text == Texts(top)[i]
  {
    forall i | 0 <= i < |top|
      ensures top[i] in cands
    {
      assert top[i] in multiset(top);
    }
    forall i | 0 <= i < |Texts(top)|
      ensures exists c :: c in cands && c.text == Texts(top)[i]
    {
      assert top[i] in multiset(top);
      assert top[i] in cands && top[i].text == Texts(top)[i];
    }
  }

  /** A permutation of `cands` keeps the text of every candidate. */
  lemma TextsKept(top: seq<Candidate>, cands: seq<Candidate>)
    ensures multiset(top) == multiset(cands) ==> forall c :: c in cands ==> c.text in Texts(top)
  {
    if multiset(top) == multiset(cands) {
      forall c | c in cands
        ensures c.text in Texts(top)
      {
        assert c in multiset(top);
        var i :| 0 <= i < |top| && top[i] == c;
        assert Texts(top)[i] == c.text;
      }
    }
  }

  /**
   * The first `n` candidates by score: in order of score, drawn from `s`,
   * and with at most `n` candidates all are kept.
   */
  function Lowest(s: seq<Candidate>, n: nat): (r: seq<Candidate>)
    ensures |r| == (if n < |s| then n else |s|)
    ensures SortedByScore(r)
    ensures multiset(r) <= multiset(s)
    ensures |s| <= n ==> multiset(r) == multiset(s)
  {
    var sorted := SortByScore(s);
    var r := Take(sorted, n);
    assert sorted == r + sorted[|r|..];
    r
  }

  /** The kept candidates are a prefix of the sorted ones, so none scores above one left out. */
  lemma LowestPrefix(s: seq<Candidate>, n: nat)
    ensures var r := Lowest(s, n);
            var sorted := SortByScore(s);
            && sorted[..|r|] == r
            && forall i, j :: 0 <= i < |r| <= j < |sorted| ==> r[i].score <= sorted[j].score
  {
  }

  /**
   * Candidates of equal score keep their order through `Lowest`: those of
   * score `k` that are kept are the first of those of score `k` in `s`.
   */
  lemma LowestTiesKeepOrder(s: seq<Candidate>, n: nat, k: int)
    ensures var kept := WithScore(Lowest(s, n), k);
            var all := WithScore(s, k);
            |kept| <= |all| && all[..|kept|] == kept
  {
    var sorted := SortByScore(s);
    var kept := Lowest(s, n);
    var rest := sorted[|kept|..];
    LowestPrefix(s, n);
    assert sorted == kept + rest;
    WithScoreAppend(kept, rest, k);
    SortStable(s, k);
    var picked := WithScore(kept, k);
    assert WithScore(s, k) == picked + WithScore(rest, k);
    assert (picked + WithScore(rest, k))[..|picked|] == picked;
  }

  /** If `s` is in bucket order, so are the candidates of any one score that `Lowest` keeps. */
  lemma LowestTiesOrdered(s: seq<Candidate>, n: nat, k: int)
    requires SourcesOrdered(s)
    ensures SourcesOrdered(WithScore(Lowest(s, n), k))
  {
    var kept := WithScore(Lowest(s, n), k);
    var all := WithScore(s, k);
    LowestTiesKeepOrder(s, n, k);
    WithScoreOrdered(s, k);
    assert all[..|kept|] == kept;
    forall i, j | 0 <= i < j < |kept|
      ensures BucketRank(kept[i].source) <= BucketRank(kept[j].source)
    {
      assert kept[i] == all[i] && kept[j] == all[j];
    }
  }

  /** No candidate of `s` left out of `top` scores below one kept in it. */
  predicate KeepsLowest(top: seq<Candidate>, s: seq<Candidate>) {
    forall t, c :: t in top && c in multiset(s) - multiset(top) ==> t.score <= c.score
  }

  /** For every score, the candidates of `top` with it are the first of those of `s` with it. */
  ghost predicate TiesInOrder(top: seq<Candidate>, s: seq<Candidate>) {
    forall k :: |WithScore(top, k)| <= |WithScore(s, k)| && WithScore(s, k)[..|WithScore(top, k)|] == WithScore(top, k)
  }

  /** `Lowest` keeps the lowest-scoring candidates: none left out scores below a kept one. */
  lemma LowestKeepsLowest(s: seq<Candidate>, n: nat)
    ensures KeepsLowest(Lowest(s, n), s)
  {
    var sorted := SortByScore(s);
    LowestPrefix(s, n);
    SortedPrefixKeepsLowest(s, sorted, |Lowest(s, n)|);
  }

  /** A prefix of a sorted permutation of `s` keeps the lowest of `s`. */
  lemma SortedPrefixKeepsLowest(s: seq<Candidate>, sorted: seq<Candidate>, m: nat)
    requires multiset(s) == multiset(sorted) && SortedByScore(sorted) && m <= |sorted|
    ensures KeepsLowest(sorted[..m], s)
  {
    var r := sorted[..m];
    var rest := sorted[m..];
    assert sorted == r + rest;
    assert multiset(s) == multiset(r) + multiset(rest);
    TakeBackAdded(multiset(r), multiset(rest));
    PrefixBelowRest(sorted, m);
    forall t, c | t in r && c in multiset(s) - multiset(r)
      ensures t.score <= c.score
    {
      assert c in multiset(rest);
    }
  }

  /** In a sequence sorted by score, nothing before position `m` scores above anything from `m` on. */
  lemma PrefixBelowRest(sorted: seq<Candidate>, m: nat)
    requires SortedByScore(sorted) && m <= |sorted|
    ensures forall t, c :: t in sorted[..m] && c in sorted[m..] ==> t.score <= c.score
  {
    forall t, c | t in sorted[..m] && c in sorted[m..]
      ensures t.score <= c.score
    {
      var i :| 0 <= i < m && sorted[..m][i] == t;
      var j :| 0 <= j < |sorted| - m && sorted[m..][j] == c;
      assert sorted[i] == t && sorted[m + j] == c;
    }
  }

  /** Taking away what was added gives back the rest. */
  lemma TakeBackAdded<T>(a: multiset<T>, b: multiset<T>)
    ensures (a + b) - a == b
  {
  }

  /** Among equal scores, `Lowest` keeps the earliest candidates. */
  lemma LowestTiesInOrder(s: seq<Candidate>, n: nat)
    ensures TiesInOrder(Lowest(s, n), s)
  {
    var r := Lowest(s, n);
    forall k
      ensures |WithScore(r, k)| <= |WithScore(s, k)| && WithScore(s, k)[..|WithScore(r, k)|] == WithScore(r, k)
    {
      LowestTiesKeepOrder(s, n, k);
    }
  }

  /** Number of candidates scoring at most `b`. */
  function CountAtMost(s: seq<Candidate>, b: int): (n: nat)
    ensures n <= |s|
  {
    if |s| == 0 then 0 else CountAtMost(s[..|s| - 1], b) + (if s[|s| - 1].score <= b then 1 else 0)
  }

  lemma {:induction false} CountAtMostAppend(a: seq<Candidate>, c: seq<Candidate>, b: int)
    ensures CountAtMost(a + c, b) == CountAtMost(a, b) + CountAtMost(c, b)
    decreases |c|
  {
    if |c| > 0 {
      assert (a + c)[..|a + c| - 1] == a + c[..|c| - 1];
      CountAtMostAppend(a, c[..|c| - 1], b);
    } else {
      assert a + c == a;
    }
  }

  /** The count depends only on which candidates there are, not on their order. */
  lemma {:induction false} CountAtMostPermutation(s: seq<Candidate>, t: seq<Candidate>, b: int)
    requires multiset(s) == multiset(t)
    ensures CountAtMost(s, b) == CountAtMost(t, b)
    decreases |s|
  {
    if |s| > 0 {
      var x := s[|s| - 1];
      var init := s[..|s| - 1];
      assert x in multiset(t) by {
        assert s == init + [x];
      }
      var i :| 0 <= i < |t| && t[i] == x;
      var rest := t[..i] + t[i + 1..];
      assert multiset(rest) == multiset(init) by {
        RemoveOne(s, t, i);
      }
      CountAtMostPermutation(init, rest, b);
      var one := if x.score <= b then 1 else 0;
      assert CountAtMost([x], b) == one by {
        assert [x][..0] == [];
      }
      assert CountAtMost(s, b) == CountAtMost(init, b) + one;
      var pre := t[..i];
      var post := t[i + 1..];
      assert t == pre + [x] + post;
      assert rest == pre + post;
      CountAtMostAppend(pre + [x], post, b);
      CountAtMostAppend(pre, [x], b);
      CountAtMostAppend(pre, post, b);
      assert CountAtMost(t, b) == CountAtMost(rest, b) + one;
    } else {
      assert |t| == |multiset(t)| == 0;
    }
  }

  /** Taking the last element off `s` and its copy at `i` off `t` keeps them permutations. */
  lemma RemoveOne(s: seq<Candidate>, t: seq<Candidate>, i: nat)
    requires multiset(s) == multiset(t) && |s| > 0 && i < |t| && t[i] == s[|s| - 1]
    ensures multiset(t[..i] + t[i + 1..]) == multiset(s[..|s| - 1])
  {
    var x := s[|s| - 1];
    var init := s[..|s| - 1];
    var rest := t[..i] + t[i + 1..];
    assert s == init + [x];
    assert t == t[..i] + [x] + t[i + 1..];
    assert multiset(t) == multiset(t[..i]) + multiset{x} + multiset(t[i + 1..]);
    assert multiset(rest) == multiset(t[..i]) + multiset(t[i + 1..]);
    assert multiset(rest) + multiset{x} == multiset(init) + multiset{x};
    assert forall y :: multiset(rest)[y] == multiset(init)[y] by {
      forall y ensures multiset(rest)[y] == multiset(init)[y] {
        assert (multiset(rest) + multiset{x})[y] == (multiset(init) + multiset{x})[y];
      }
    }
  }

  /** In a sorted sequence, everything up to index `j` scores at most `s[j]`. */
  lemma {:induction false} CountAtMostSortedPrefix(s: seq<Candidate>, j: nat)
    requires SortedByScore(s) && j < |s|
    ensures CountAtMost(s, s[j].score) >= j + 1
    decreases |s|
  {
    if j < |s| - 1 {
      CountAtMostSortedPrefix(s[..|s| - 1], j);
    } else {
      assert forall i :: 0 <= i < |s| ==> s[i].score <= s[j].score;
      AllAtMost(s, s[j].score);
    }
  }

  lemma {:induction false} AllAtMost(s: seq<Candidate>, b: int)
    requires forall i :: 0 <= i < |s| ==> s[i].score <= b
    ensures CountAtMost(s, b) == |s|
    decreases |s|
  {
    if |s| > 0 {
      AllAtMost(s[..|s| - 1], b);
    }
  }

  /**
   * A candidate with at most `n` candidates (itself included) scoring no
   * more than it is among the first `n` by score.
   */
  lemma LowRankedKept(s: seq<Candidate>, c: Candidate, n: nat)
    requires c in s && CountAtMost(s, c.score) <= n
    ensures c in Lowest(s, n)
  {
    var sorted := SortByScore(s);
    assert c in multiset(sorted);
    var j :| 0 <= j < |sorted| && sorted[j] == c;
    assert j < n by {
      CountAtMostPermutation(s, sorted, c.score);
      CountAtMostSortedPrefix(sorted, j);
    }
    LowestPrefix(s, n);
    assert Lowest(s, n)[j] == c;
  }
}
