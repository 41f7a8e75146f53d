/**
 * Keyword-list validation (src/utils/validation.py): a comma-separated
 * string becomes the list of its non-blank pieces, stripped, or an error.
 */
module Validation {
  import opened Wrappers
  import opened Strings

  const MaxKeywords: nat := 50

  /** Every piece, stripped. */
  function StripAll(pieces: seq<string>): (r: seq<string>)
    ensures |r| == |pieces| && forall j :: 0 <= j < |pieces| ==> r[j] == Strip(pieces[j])
  {
    seq(|pieces|, j requires 0 <= j < |pieces| => Strip(pieces[j]))
  }

  /** The positions of the non-empty strings of `ws`, in increasing order. */
  function NonEmptyIndices(ws: seq<string>): (ix: seq<nat>)
    ensures forall k :: 0 <= k < |ix| ==> ix[k] < |ws| && ws[ix[k]] != []
    ensures forall i, k :: 0 <= i < k < |ix| ==> ix[i] < ix[k]
    ensures forall j :: 0 <= j < |ws| && ws[j] != [] ==> j in ix
  {
    if |ws| == 0 then []
    else
      var init := ws[..|ws| - 1];
      assert forall j :: 0 <= j < |init| ==> init[j] == ws[j];
      NonEmptyIndices(init) + (if ws[|ws| - 1] != [] then [|ws| - 1] else [])
  }

  /** The positions of the pieces that are not blank, in increasing order. */
  function NonBlankIndices(pieces: seq<string>): (ix: seq<nat>)
    ensures forall k :: 0 <= k < |ix| ==> ix[k] < |pieces| && Strip(pieces[ix[k]]) != []
    ensures forall i, k :: 0 <= i < k < |ix| ==> ix[i] < ix[k]
    ensures forall j :: 0 <= j < |pieces| && Strip(pieces[j]) != [] ==> j in ix
  {
    var stripped := StripAll(pieces);
    var ix := NonEmptyIndices(stripped);
    assert forall j :: 0 <= j < |pieces| && Strip(pieces[j]) != [] ==> j in ix by {
      forall j | 0 <= j < |pieces| && Strip(pieces[j]) != []
        ensures j in ix
      {
        assert stripped[j] != [];
      }
    }
    ix
  }

  /**
   * The stripped pieces that are not blank, in order and once per
   * occurrence: entry `k` is the stripped piece at the `k`-th non-blank
   * position.
   */
  function KeptPieces(pieces: seq<string>): (r: seq<string>)
    ensures |r| == |NonBlankIndices(pieces)|
    ensures forall k :: 0 <= k < |r| ==> r[k] == Strip(pieces[NonBlankIndices(pieces)[k]])
    ensures |r| <= |pieces|
    ensures forall k :: 0 <= k < |r| ==> r[k] != [] && exists j :: 0 <= j < |pieces| && r[k] == Strip(pieces[j])
    ensures r == [] <==> AllBlank(pieces)
  {
    var r := NonEmptyInOrder(StripAll(pieces));
    var ix := NonBlankIndices(pieces);
    assert ix == NonEmptyIndices(StripAll(pieces));
    SelectionFacts(pieces, ix, r);
    r
  }

  /**
   * Strings picked at the increasing non-blank positions of `pieces` number
   * at most the pieces, are non-empty stripped pieces, and are none exactly
   * when every piece is blank.
   */
  lemma SelectionFacts(pieces: seq<string>, ix: seq<nat>, r: seq<string>)
    requires forall k :: 0 <= k < |ix| ==> ix[k] < |pieces| && Strip(pieces[ix[k]]) != []
    requires forall i, k :: 0 <= i < k < |ix| ==> ix[i] < ix[k]
    requires forall j :: 0 <= j < |pieces| && Strip(pieces[j]) != [] ==> j in ix
    requires |r| == |ix| && forall k :: 0 <= k < |r| ==> r[k] == Strip(pieces[ix[k]])
    ensures |r| <= |pieces|
    ensures forall k :: 0 <= k < |r| ==> r[k] != [] && exists j :: 0 <= j < |pieces| && r[k] == Strip(pieces[j])
    ensures r == [] <==> AllBlank(pieces)
  {
    IndicesBounded(ix, |pieces|);
    assert forall k :: 0 <= k < |r| ==> r[k] != [] && exists j :: 0 <= j < |pieces| && r[k] == Strip(pieces[j]) by {
      forall k | 0 <= k < |r|
        ensures r[k] != [] && exists j :: 0 <= j < |pieces| && r[k] == Strip(pieces[j])
      {
        assert r[k] == Strip(pieces[ix[k]]);
      }
    }
    if |ix| > 0 {
      assert Strip(pieces[ix[0]]) != [];
    }
    if r == [] {
      forall j | 0 <= j < |pieces|
        ensures Strip(pieces[j]) == []
      {
        if Strip(pieces[j]) != [] {
          assert false;
        }
      }
    }
  }

  /** The entries of `ws` at `NonEmptyIndices(ws)`, as the list comprehension builds them. */
  function NonEmptyInOrder(ws: seq<string>): (r: seq<string>)
    ensures |r| == |NonEmptyIndices(ws)|
    ensures forall k :: 0 <= k < |r| ==> r[k] == ws[NonEmptyIndices(ws)[k]]
  {
    if |ws| == 0 then []
    else
      var init := ws[..|ws| - 1];
      var last := ws[|ws| - 1];
      var front := NonEmptyInOrder(init);
      var r := front + (if last != [] then [last] else []);
      var ix := NonEmptyIndices(ws);
      var ixInit := NonEmptyIndices(init);
      assert ix == ixInit + (if last != [] then [|ws| - 1] else []);
      assert forall k :: 0 <= k < |r| ==> r[k] == ws[ix[k]] by {
        forall k | 0 <= k < |r|
          ensures r[k] == ws[ix[k]]
        {
          if k < |front| {
            assert ix[k] == ixInit[k];
            assert init[ixInit[k]] == ws[ixInit[k]];
          }
        }
      }
      r
  }

  /** Strictly increasing positions below `n` number at most `n`. */
  lemma {:induction false} IndicesBounded(ix: seq<nat>, n: nat)
    requires forall k :: 0 <= k < |ix| ==> ix[k] < n
    requires forall i, k :: 0 <= i < k < |ix| ==> ix[i] < ix[k]
    ensures |ix| <= n
    decreases n
  {
    if |ix| > 0 {
      assert ix[0] < n;
      var init := ix[..|ix| - 1];
      assert forall k :: 0 <= k < |init| ==> init[k] < n - 1 by {
        forall k | 0 <= k < |init| ensures init[k] < n - 1 {
          assert ix[k] < ix[|ix| - 1];
        }
      }
      IndicesBounded(init, n - 1);
    }
  }

  /**
   * `validate_keywords`: blank input is refused, then the non-blank pieces
   * between commas are kept, stripped; none left or more than fifty is an
   * error too.
   */
  function ValidateKeywords(s: string): (r: Result<seq<string>, string>)
    ensures All(s, IsSpace) <==> r == Failure("Keywords cannot be empty")
    ensures r.Success? ==> r.value == KeptPieces(SplitOn(s, ','))
    ensures r.Success? ==> 1 <= |r.value| <= MaxKeywords
    ensures r.Success? ==> forall k :: 0 <= k < |r.value| ==>
              r.value[k] != [] && Strip(r.value[k]) == r.value[k] && ',' !in r.value[k]
    ensures r == Failure("No valid keywords provided") <==> !All(s, IsSpace) && KeptPieces(SplitOn(s, ',')) == []
    ensures r == Failure("Too many keywords (max 50)") <==> !All(s, IsSpace) && |KeptPieces(SplitOn(s, ','))| > MaxKeywords
  {
    if |s| == 0 || All(s, IsSpace) then Failure("Keywords cannot be empty")
    else
      var kept := KeptPieces(SplitOn(s, ','));
      KeptClean(SplitOn(s, ','));
      if |kept| == 0 then Failure("No valid keywords provided")
      else if |kept| > MaxKeywords then Failure("Too many keywords (max 50)")
      else Success(kept)
  }

  /** Kept pieces are already stripped, and hold no character their pieces lack. */
  lemma KeptClean(pieces: seq<string>)
    requires forall j :: 0 <= j < |pieces| ==> ',' !in pieces[j]
    ensures forall k :: 0 <= k < |KeptPieces(pieces)| ==>
              Strip(KeptPieces(pieces)[k]) == KeptPieces(pieces)[k] && ',' !in KeptPieces(pieces)[k]
  {
    var kept := KeptPieces(pieces);
    forall k | 0 <= k < |kept|
      ensures Strip(kept[k]) == kept[k] && ',' !in kept[k]
    {
      var j :| 0 <= j < |pieces| && kept[k] == Strip(pieces[j]);
      StripIdempotent(pieces[j]);
      StripChars(pieces[j], ',');
    }
  }

  /**
   * A text that is not blank still yields no keyword exactly when it holds
   * nothing but commas and whitespace.
   */
  lemma NoKeywordsIffOnlyCommas(s: string)
    requires !All(s, IsSpace)
    ensures ValidateKeywords(s) == Failure("No valid keywords provided") <==> OnlyCommasAndSpace(s)
  {
    var kept := KeptPieces(SplitOn(s, ','));
    assert ValidateKeywords(s) == Failure("No valid keywords provided") <==> kept == [];
    assert kept == [] <==> AllBlank(SplitOn(s, ','));
    AllBlankIffOnlyCommas(s);
  }

  /** Every piece strips to nothing. */
  predicate AllBlank(pieces: seq<string>) {
    forall j :: 0 <= j < |pieces| ==> Strip(pieces[j]) == []
  }

  /** The text holds nothing but commas and whitespace. */
  predicate OnlyCommasAndSpace(s: string) {
    forall i :: 0 <= i < |s| ==> s[i] == ',' || IsSpace(s[i])
  }

  /** Every comma-separated piece is blank exactly when the text holds only commas and whitespace. */
  lemma AllBlankIffOnlyCommas(s: string)
    ensures AllBlank(SplitOn(s, ',')) <==> OnlyCommasAndSpace(s)
  {
    var pieces := SplitOn(s, ',');
    if OnlyCommasAndSpace(s) {
      forall j | 0 <= j < |pieces| ensures Strip(pieces[j]) == [] {
        forall m | 0 <= m < |pieces[j]| ensures IsSpace(pieces[j][m]) {
          JoinedWordChars(pieces, [','], j, pieces[j][m]);
        }
        StripEmptyIffBlank(pieces[j]);
      }
    }
    if AllBlank(pieces) {
      forall i | 0 <= i < |s| ensures s[i] == ',' || IsSpace(s[i]) {
        JoinChars(pieces, [','], s[i]);
        if s[i] != ',' {
          var j :| 0 <= j < |pieces| && s[i] in pieces[j];
          StripEmptyIffBlank(pieces[j]);
        }
      }
    }
  }

  /** Nothing but commas is refused for having no valid keyword. */
  lemma OnlyCommasRefused()
    ensures ValidateKeywords(",,") == Failure("No valid keywords provided")
  {
    assert !IsSpace(",,"[0]);
    NoKeywordsIffOnlyCommas(",,");
  }
}
