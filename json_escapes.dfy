/**
 * The backslash repair applied to LaTeX fields of the equations file: a
 * backslash with no backslash on either side is doubled, so that it becomes
 * a valid JSON escape; backslashes already in a run of two or more, and every
 * other character, are kept as they are.
 */
module JsonEscapes {

  const Backslash: char := '\\'

  /** The backslash at `k` has no backslash immediately before or after it. */
  predicate Lone(s: string, k: nat)
    requires k < |s|
  {
    && s[k] == Backslash
    && (k == 0 || s[k - 1] != Backslash)
    && (k + 1 == |s| || s[k + 1] != Backslash)
  }

  predicate NoLone(s: string) {
    forall k :: 0 <= k < |s| ==> !Lone(s, k)
  }

  /**
   * The substitution, left to right; `prev` says whether the character just
   * before `s` in the original text is a backslash.
   */
  function EscapeFrom(s: string, prev: bool): (r: string)
    ensures s != [] ==> r != [] && r[0] == s[0]
  {
    if s == [] then []
    else if s[0] == Backslash && !prev && (|s| == 1 || s[1] != Backslash) then
      [Backslash, Backslash] + EscapeFrom(s[1..], true)
    else [s[0]] + EscapeFrom(s[1..], s[0] == Backslash)
  }

  function Escape(s: string): string {
    EscapeFrom(s, false)
  }

  /** What position `k` of the original becomes: two backslashes if it is lone, else itself. */
  function Piece(s: string, k: nat): string
    requires k < |s|
  {
    if Lone(s, k) then [Backslash, Backslash] else [s[k]]
  }

  /** The independent reference: the pieces of positions i, i+1, ... concatenated. */
  function Pieces(s: string, i: nat): string
    requires i <= |s|
    decreases |s| - i
  {
    if i == |s| then [] else Piece(s, i) + Pieces(s, i + 1)
  }

  /** How many lone backslashes lie at or after `i`. */
  function LoneCount(s: string, i: nat): nat
    requires i <= |s|
    decreases |s| - i
  {
    if i == |s| then 0 else (if Lone(s, i) then 1 else 0) + LoneCount(s, i + 1)
  }

  /** The substitution agrees with the position-by-position reference. */
  lemma {:induction false} EscapeFromIsPieces(s: string, i: nat)
    requires i <= |s|
    ensures EscapeFrom(s[i..], i > 0 && s[i - 1] == Backslash) == Pieces(s, i)
    decreases |s| - i
  {
    if i < |s| {
      EscapeFromIsPieces(s, i + 1);
      assert s[i..][1..] == s[i + 1..];
      assert |s[i..]| == 1 <==> i + 1 == |s|;
    }
  }

  lemma EscapeIsPieces(s: string)
    ensures Escape(s) == Pieces(s, 0)
  {
    EscapeFromIsPieces(s, 0);
    assert s[0..] == s;
  }

  /** Each lone backslash adds exactly one character. */
  lemma {:induction false} PiecesLength(s: string, i: nat)
    requires i <= |s|
    ensures |Pieces(s, i)| == |s| - i + LoneCount(s, i)
    decreases |s| - i
  {
    if i < |s| {
      PiecesLength(s, i + 1);
    }
  }

  /** Without lone backslashes from `i` on, the pieces are the text itself. */
  lemma {:induction false} PiecesUnchanged(s: string, i: nat)
    requires i <= |s|
    requires forall k :: i <= k < |s| ==> !Lone(s, k)
    ensures Pieces(s, i) == s[i..]
    decreases |s| - i
  {
    if i < |s| {
      PiecesUnchanged(s, i + 1);
      assert !Lone(s, i);
      assert Piece(s, i) == [s[i]];
      assert s[i..] == [s[i]] + s[i + 1..];
    }
  }

  /** A lone backslash at or after `i` is counted. */
  lemma {:induction false} LoneCounted(s: string, i: nat, k: nat)
    requires i <= k < |s| && Lone(s, k)
    ensures LoneCount(s, i) > 0
    decreases k - i
  {
    if i < k {
      LoneCounted(s, i + 1, k);
    }
  }

  /** The text is left unchanged exactly when it has no lone backslash. */
  lemma EscapeFixedIff(s: string)
    ensures Escape(s) == s <==> NoLone(s)
  {
    EscapeIsPieces(s);
    PiecesLength(s, 0);
    if NoLone(s) {
      PiecesUnchanged(s, 0);
      assert s[0..] == s;
    } else {
      var k :| 0 <= k < |s| && Lone(s, k);
      LoneCounted(s, 0, k);
    }
  }

  /** Every backslash of `r` has a backslash neighbour, counting `prev` as the one before r[0]. */
  predicate NoLoneAfter(r: string, prev: bool) {
    forall k :: 0 <= k < |r| && r[k] == Backslash ==>
      (k == 0 && prev) || (k > 0 && r[k - 1] == Backslash) || (k + 1 < |r| && r[k + 1] == Backslash)
  }

  /** The substitution leaves no lone backslash behind. */
  lemma {:induction false} EscapeFromNoLone(s: string, prev: bool)
    ensures NoLoneAfter(EscapeFrom(s, prev), prev)
  {
    if s != [] {
      var r := EscapeFrom(s, prev);
      if s[0] == Backslash && !prev && (|s| == 1 || s[1] != Backslash) {
        var rest := EscapeFrom(s[1..], true);
        EscapeFromNoLone(s[1..], true);
        assert r == [Backslash, Backslash] + rest;
        forall k | 2 <= k < |r| && r[k] == Backslash
          ensures r[k - 1] == Backslash || (k + 1 < |r| && r[k + 1] == Backslash)
        {
          assert rest[k - 2] == Backslash;
          if k > 2 && rest[k - 3] == Backslash {
            assert r[k - 1] == rest[k - 3];
          } else if k > 2 {
            assert r[k + 1] == rest[k - 1];
          }
        }
      } else {
        var p := s[0] == Backslash;
        var rest := EscapeFrom(s[1..], p);
        EscapeFromNoLone(s[1..], p);
        assert r == [s[0]] + rest;
        forall k | 0 <= k < |r| && r[k] == Backslash
          ensures (k == 0 && prev) || (k > 0 && r[k - 1] == Backslash) || (k + 1 < |r| && r[k + 1] == Backslash)
        {
          if k == 0 {
            if !prev {
              assert r[1] == rest[0] == s[1];
            }
          } else {
            assert rest[k - 1] == Backslash;
            if k == 1 && p {
              assert r[0] == Backslash;
            } else if k > 1 && rest[k - 2] == Backslash {
              assert r[k - 1] == rest[k - 2];
            } else {
              assert r[k + 1] == rest[k];
            }
          }
        }
      }
    }
  }

  lemma EscapeNoLone(s: string)
    ensures NoLone(Escape(s))
  {
    EscapeFromNoLone(s, false);
  }

  /** Escaping twice is escaping once. */
  lemma EscapeIdempotent(s: string)
    ensures Escape(Escape(s)) == Escape(s)
  {
    EscapeNoLone(s);
    EscapeFixedIff(Escape(s));
  }

  /** The characters other than backslashes, in order. */
  function Others(s: string): (r: string)
    ensures Backslash !in r
  {
    if s == [] then [] else (if s[0] == Backslash then [] else [s[0]]) + Others(s[1..])
  }

  /** Every other character is kept, in its order. */
  lemma {:induction false} EscapeFromKeepsOthers(s: string, prev: bool)
    ensures Others(EscapeFrom(s, prev)) == Others(s)
  {
    if s != [] {
      var r := EscapeFrom(s, prev);
      if s[0] == Backslash && !prev && (|s| == 1 || s[1] != Backslash) {
        var rest := EscapeFrom(s[1..], true);
        EscapeFromKeepsOthers(s[1..], true);
        assert r[1..] == [Backslash] + rest;
        assert r[1..][1..] == rest;
      } else {
        EscapeFromKeepsOthers(s[1..], s[0] == Backslash);
        assert r[1..] == EscapeFrom(s[1..], s[0] == Backslash);
      }
    }
  }

  lemma EscapeKeepsOthers(s: string)
    ensures Others(Escape(s)) == Others(s)
  {
    EscapeFromKeepsOthers(s, false);
  }
}
