/**
 * The string operations the tools use on text fields: Python's str.strip(),
 * str.strip(chars), str.lower()/upper(), substring tests, slicing, decimal
 * formatting of an int, and str.split("\n") / "\n".join(...).
 *
 * Case mapping is ASCII-only (see README "## Left out").
 */
module Text {

  /** Python's str.isspace() for one character. */
  predicate IsSpace(c: char) {
    || c == ' '
    || ('\t' <= c <= '\r')
    || ('\U{1c}' <= c <= '\U{1f}')
    || c == '\U{85}'
    || c == '\U{a0}'
    || c == '\U{1680}'
    || ('\U{2000}' <= c <= '\U{200a}')
    || c == '\U{2028}'
    || c == '\U{2029}'
    || c == '\U{202f}'
    || c == '\U{205f}'
    || c == '\U{3000}'
  }

  function RStrip(s: string): (r: string)
    ensures |r| <= |s| && r == s[..|r|]
    ensures r == [] || !IsSpace(r[|r| - 1])
  {
    if s == [] || !IsSpace(s[|s| - 1]) then s else RStrip(s[..|s| - 1])
  }

  /** No white space at either end. */
  predicate IsStripped(s: string) {
    s == [] || (!IsSpace(s[0]) && !IsSpace(s[|s| - 1]))
  }

  /** Python's str.strip(): no leading or trailing white space is left. */
  function Strip(s: string): (r: string)
    ensures |r| <= |s|
    ensures IsStripped(r)
  {
    if s != [] && IsSpace(s[0]) then Strip(s[1..])
    else if s != [] && IsSpace(s[|s| - 1]) then Strip(s[..|s| - 1])
    else s
  }

  /** A stripped text is left as it is. */
  lemma StrippedFixed(s: string)
    requires IsStripped(s)
    ensures Strip(s) == s
  {
  }

  /** Stripping is idempotent. */
  lemma StripIdempotent(s: string)
    ensures Strip(Strip(s)) == Strip(s)
  {
    StrippedFixed(Strip(s));
  }

  /** `r` is `s` with its first `i` characters and its tail after them removed, all of them white space. */
  predicate WsTrimmed(s: string, r: string, i: nat) {
    && i + |r| <= |s| && r == s[i..i + |r|]
    && (forall k :: 0 <= k < i ==> IsSpace(s[k]))
    && (forall k :: i + |r| <= k < |s| ==> IsSpace(s[k]))
  }

  /** Stripping removes white space at the two ends and nothing else. */
  lemma {:induction false} StripTrims(s: string)
    ensures exists i: nat :: WsTrimmed(s, Strip(s), i)
    decreases |s|
  {
    var r := Strip(s);
    if s != [] && IsSpace(s[0]) {
      StripTrims(s[1..]);
      var i: nat :| WsTrimmed(s[1..], r, i);
      assert s[1..][i..i + |r|] == s[i + 1..i + 1 + |r|];
      assert WsTrimmed(s, r, i + 1);
    } else if s != [] && IsSpace(s[|s| - 1]) {
      StripTrims(s[..|s| - 1]);
      var i: nat :| WsTrimmed(s[..|s| - 1], r, i);
      assert WsTrimmed(s, r, i);
    } else {
      assert WsTrimmed(s, r, 0);
    }
  }

  /** The characters of `s` that are not white space, in order. */
  function NonWs(s: string): (r: string)
    ensures |r| <= |s|
  {
    if s == [] then [] else (if IsSpace(s[0]) then [] else [s[0]]) + NonWs(s[1..])
  }

  lemma {:induction false} NonWsAppend(a: string, b: string)
    ensures NonWs(a + b) == NonWs(a) + NonWs(b)
  {
    if a == [] {
      assert a + b == b;
    } else {
      var head := if IsSpace(a[0]) then [] else [a[0]];
      assert (a + b)[0] == a[0] && (a + b)[1..] == a[1..] + b;
      assert NonWs(a + b) == head + NonWs(a[1..] + b);
      NonWsAppend(a[1..], b);
      assert NonWs(a) == head + NonWs(a[1..]);
    }
  }

  lemma {:induction false} NonWsOfSpaces(s: string)
    requires forall k :: 0 <= k < |s| ==> IsSpace(s[k])
    ensures NonWs(s) == []
  {
    if s != [] {
      NonWsOfSpaces(s[1..]);
    }
  }

  /** Stripping keeps every character that is not white space, in order. */
  lemma StripKeepsNonWs(s: string)
    ensures NonWs(Strip(s)) == NonWs(s)
  {
    StripTrims(s);
    var r := Strip(s);
    var i: nat :| WsTrimmed(s, r, i);
    assert s == s[..i] + r + s[i + |r|..];
    NonWsAppend(s[..i] + r, s[i + |r|..]);
    NonWsAppend(s[..i], r);
    NonWsOfSpaces(s[..i]);
    NonWsOfSpaces(s[i + |r|..]);
  }

  /** Python's str.strip(c) for a single character c. */
  function StripChar(s: string, c: char): (r: string)
    ensures |r| <= |s|
    ensures r == [] || (r[0] != c && r[|r| - 1] != c)
  {
    RStripChar(LStripChar(s, c), c)
  }

  function LStripChar(s: string, c: char): (r: string)
    ensures |r| <= |s| && r == s[|s| - |r|..]
    ensures r == [] || r[0] != c
  {
    if s == [] || s[0] != c then s else LStripChar(s[1..], c)
  }

  function RStripChar(s: string, c: char): (r: string)
    ensures |r| <= |s| && r == s[..|r|]
    ensures r == [] || r[|r| - 1] != c
  {
    if s == [] || s[|s| - 1] != c then s else RStripChar(s[..|s| - 1], c)
  }

  /** `r` is `s` with its first `i` characters and its tail after them removed, all of them `c`. */
  predicate CharTrimmed(s: string, r: string, i: nat, c: char) {
    && i + |r| <= |s| && r == s[i..i + |r|]
    && (forall k :: 0 <= k < i ==> s[k] == c)
    && (forall k :: i + |r| <= k < |s| ==> s[k] == c)
  }

  lemma {:induction false} LStripCharRemoves(s: string, c: char)
    ensures forall k :: 0 <= k < |s| - |LStripChar(s, c)| ==> s[k] == c
  {
    if s != [] && s[0] == c {
      LStripCharRemoves(s[1..], c);
    }
  }

  lemma {:induction false} RStripCharRemoves(s: string, c: char)
    ensures forall k :: |RStripChar(s, c)| <= k < |s| ==> s[k] == c
  {
    if s != [] && s[|s| - 1] == c {
      RStripCharRemoves(s[..|s| - 1], c);
    }
  }

  /** A slice of a suffix is a slice of the whole text. */
  lemma SliceOfSuffix(s: string, i: nat, j: nat, len: nat)
    requires i + j + len <= |s|
    ensures s[i..][j..j + len] == s[i + j..i + j + len]
  {
  }

  /** Cutting a run of `c` from the front and then one from the back trims `s` to a slice. */
  lemma TrimmedBothEnds(s: string, left: string, r: string, c: char)
    requires |left| <= |s| && left == s[|s| - |left|..]
    requires |r| <= |left| && r == left[..|r|]
    requires forall k :: 0 <= k < |s| - |left| ==> s[k] == c
    requires forall k :: |r| <= k < |left| ==> left[k] == c
    ensures CharTrimmed(s, r, |s| - |left|, c)
  {
    var i := |s| - |left|;
    SliceOfSuffix(s, i, 0, |r|);
    forall k | i + |r| <= k < |s|
      ensures s[k] == c
    {
      assert s[k] == left[k - i];
    }
  }

  /** str.strip(c) removes copies of c at the two ends and nothing else. */
  lemma StripCharTrims(s: string, c: char)
    ensures CharTrimmed(s, StripChar(s, c), |s| - |LStripChar(s, c)|, c)
  {
    var left := LStripChar(s, c);
    LStripCharRemoves(s, c);
    RStripCharRemoves(left, c);
    TrimmedBothEnds(s, left, RStripChar(left, c), c);
  }

  function LowerChar(c: char): char {
    if 'A' <= c <= 'Z' then (c as int + 32) as char else c
  }

  function UpperChar(c: char): char {
    if 'a' <= c <= 'z' then (c as int - 32) as char else c
  }

  /** Python's str.lower(), on ASCII letters. */
  function Lower(s: string): (r: string)
    ensures |r| == |s|
    ensures forall k :: 0 <= k < |s| ==> r[k] == LowerChar(s[k])
  {
    if s == [] then [] else [LowerChar(s[0])] + Lower(s[1..])
  }

  /** A text without upper-case ASCII letters is its own lower-case form. */
  lemma LowerNoUpper(s: string)
    requires forall k :: 0 <= k < |s| ==> !('A' <= s[k] <= 'Z')
    ensures Lower(s) == s
  {
    assert forall k :: 0 <= k < |s| ==> Lower(s)[k] == s[k];
  }

  /** Python's str.upper(), on ASCII letters. */
  function Upper(s: string): (r: string)
    ensures |r| == |s|
    ensures forall k :: 0 <= k < |s| ==> r[k] == UpperChar(s[k])
  {
    if s == [] then [] else [UpperChar(s[0])] + Upper(s[1..])
  }

  predicate StartsWith(s: string, prefix: string) {
    |prefix| <= |s| && s[..|prefix|] == prefix
  }

  predicate EndsWith(s: string, suffix: string) {
    |suffix| <= |s| && s[|s| - |suffix|..] == suffix
  }

  /** Python's `sub in s`. */
  predicate Contains(s: string, sub: string)
    decreases |s|
  {
    StartsWith(s, sub) || (s != [] && Contains(s[1..], sub))
  }

  /** A text that lacks one of the characters of `sub` does not contain `sub`. */
  lemma {:induction false} MissingCharNotContained(s: string, sub: string, q: nat)
    requires q < |sub|
    requires forall k :: 0 <= k < |s| ==> s[k] != sub[q]
    ensures !Contains(s, sub)
  {
    if |sub| <= |s| {
      assert s[..|sub|][q] != sub[q];
    }
    if s != [] {
      MissingCharNotContained(s[1..], sub, q);
    }
  }

  /** Python's s[:n] for n >= 0. */
  function Take(s: string, n: nat): (r: string)
    ensures |r| <= n && |r| <= |s| && r == s[..|r|]
    ensures |s| <= n ==> r == s
  {
    if |s| <= n then s else s[..n]
  }

  /** Python's s[-n:] for n >= 1. */
  function TakeLast(s: string, n: nat): (r: string)
    requires n >= 1
    ensures |r| <= n && |r| <= |s| && r == s[|s| - |r|..]
    ensures |s| <= n ==> r == s
    ensures |s| > n ==> |r| == n
  {
    if |s| <= n then s else s[|s| - n..]
  }

  function Digit(d: nat): char
    requires d < 10
  {
    ('0' as int + d) as char
  }

  /** Decimal rendering of a natural number, as Python's f"{i}". */
  function NatToString(n: nat): (r: string)
    ensures |r| >= 1
    ensures n >= 10 <==> |r| >= 2
    ensures forall k :: 0 <= k < |r| ==> '0' <= r[k] <= '9'
  {
    if n < 10 then [Digit(n)] else NatToString(n / 10) + [Digit(n % 10)]
  }

  /** Different numbers have different decimal renderings. */
  lemma {:induction false} NatToStringInjective(a: nat, b: nat)
    requires NatToString(a) == NatToString(b)
    ensures a == b
  {
    if a >= 10 && b >= 10 {
      var ra, rb := NatToString(a), NatToString(b);
      assert ra[|ra| - 1] == Digit(a % 10) && rb[|rb| - 1] == Digit(b % 10);
      assert ra[..|ra| - 1] == NatToString(a / 10);
      assert rb[..|rb| - 1] == NatToString(b / 10);
      NatToStringInjective(a / 10, b / 10);
    }
  }

  /** Python's str.split("\n"): always at least one piece, none holding a newline. */
  function Lines(s: string): (r: seq<string>)
    ensures |r| >= 1
  {
    if s == [] then [""]
    else
      var rest := Lines(s[1..]);
      if s[0] == '\n' then [""] + rest else [[s[0]] + rest[0]] + rest[1..]
  }

  /** Python's "\n".join(lines). */
  function Join(lines: seq<string>): string {
    if lines == [] then ""
    else if |lines| == 1 then lines[0]
    else lines[0] + "\n" + Join(lines[1..])
  }

  /** Splitting at a newline splits the pieces. */
  lemma {:induction false} LinesAt(a: string, b: string)
    ensures Lines(a + "\n" + b) == Lines(a) + Lines(b)
  {
    if a == [] {
      assert a + "\n" + b == "\n" + b;
      assert ("\n" + b)[1..] == b;
    } else {
      assert (a + "\n" + b)[1..] == a[1..] + "\n" + b;
      LinesAt(a[1..], b);
    }
  }

  /** Joining what was split gives back the text. */
  lemma {:induction false} JoinLines(s: string)
    ensures Join(Lines(s)) == s
  {
    if s != [] {
      var rest := Lines(s[1..]);
      JoinLines(s[1..]);
      if s[0] == '\n' {
        assert Lines(s) == [""] + rest;
        assert Join([""] + rest) == "" + "\n" + Join(rest) by {
          assert ([""] + rest)[1..] == rest;
        }
      } else {
        var r := [[s[0]] + rest[0]] + rest[1..];
        assert Lines(s) == r;
        if |rest| == 1 {
          assert Join(r) == [s[0]] + rest[0];
        } else {
          assert r[1..] == rest[1..];
          assert Join(r) == [s[0]] + rest[0] + "\n" + Join(rest[1..]);
        }
      }
    }
  }

  /** The position of the first newline of s. */
  function FirstNewline(s: string): (i: nat)
    requires '\n' in s
    ensures i < |s| && s[i] == '\n' && '\n' !in s[..i]
  {
    if s[0] == '\n' then 0
    else
      assert '\n' in s[1..] by {
        var k :| 0 <= k < |s| && s[k] == '\n';
        assert s[1..][k - 1] == '\n';
      }
      var j := FirstNewline(s[1..]);
      assert s[..j + 1] == [s[0]] + s[1..][..j];
      j + 1
  }

  /** The position of the last newline of s. */
  function LastNewline(s: string): (i: nat)
    requires '\n' in s
    ensures i < |s| && s[i] == '\n' && '\n' !in s[i + 1..]
  {
    if s[|s| - 1] == '\n' then |s| - 1
    else
      assert '\n' in s[..|s| - 1] by {
        var k :| 0 <= k < |s| && s[k] == '\n';
        assert s[..|s| - 1][k] == '\n';
      }
      var j := LastNewline(s[..|s| - 1]);
      assert s[j + 1..] == s[..|s| - 1][j + 1..] + [s[|s| - 1]];
      j
  }

  lemma {:induction false} LinesNoNewline(s: string)
    requires '\n' !in s
    ensures Lines(s) == [s]
  {
    if s != [] {
      assert '\n' !in s[1..];
      LinesNoNewline(s[1..]);
      assert s[0] != '\n';
      assert [s[0]] + s[1..] == s;
    }
  }

  /** The first newline is the one with no newline before it. */
  lemma FirstNewlineUnique(s: string, j: nat)
    requires j < |s| && s[j] == '\n' && '\n' !in s[..j]
    ensures FirstNewline(s) == j
  {
    var f := FirstNewline(s);
  }

  lemma FirstBeforeLast(s: string)
    requires '\n' in s
    ensures FirstNewline(s) <= LastNewline(s)
  {
  }

  /** Dropping the first line of a text that has several. */
  lemma DropFirstLine(t: string)
    requires '\n' in t
    ensures |Lines(t)| >= 2
    ensures Join(Lines(t)[1..]) == t[FirstNewline(t) + 1..]
  {
    var i := FirstNewline(t);
    assert t == t[..i] + "\n" + t[i + 1..];
    LinesAt(t[..i], t[i + 1..]);
    LinesNoNewline(t[..i]);
    JoinLines(t[i + 1..]);
    assert Lines(t)[1..] == Lines(t[i + 1..]);
  }

  /** The last line of a text that has several, and the lines before it. */
  lemma SplitLastLine(t: string)
    requires '\n' in t
    ensures var lines := Lines(t);
      && |lines| >= 2
      && lines[|lines| - 1] == t[LastNewline(t) + 1..]
      && lines[..|lines| - 1] == Lines(t[..LastNewline(t)])
  {
    var k := LastNewline(t);
    assert t == t[..k] + "\n" + t[k + 1..];
    LinesAt(t[..k], t[k + 1..]);
    LinesNoNewline(t[k + 1..]);
  }

  /** Dropping both the first and the last line of a text that has several. */
  lemma DropFirstAndLastLine(t: string)
    requires '\n' in t
    ensures var lines := Lines(t);
      && |lines| >= 2
      && (FirstNewline(t) == LastNewline(t) ==> lines[1..|lines| - 1] == [])
      && (FirstNewline(t) < LastNewline(t) ==>
            Join(lines[1..|lines| - 1]) == t[FirstNewline(t) + 1..LastNewline(t)])
  {
    var i, k := FirstNewline(t), LastNewline(t);
    FirstBeforeLast(t);
    SplitLastLine(t);
    var lines := Lines(t);
    var m := t[..k];
    assert lines[1..|lines| - 1] == Lines(m)[1..];
    if i == k {
      assert '\n' !in m;
      LinesNoNewline(m);
    } else {
      assert m[..i] == t[..i];
      FirstNewlineUnique(m, i);
      DropFirstLine(m);
      assert m[i + 1..] == t[i + 1..k];
    }
  }

  /** The lines the fence stripping keeps, as Python's split and slicing pick them. */
  function FenceKept(text: string): seq<string> {
    var lines := Lines(text);
    if |lines| == 1 then []
    else if Strip(lines[|lines| - 1]) == "```" then lines[1..|lines| - 1]
    else lines[1..]
  }

  /**
   * What remains of a fenced text, by newline positions: the text after the
   * first line, without the last line when that line is a closing fence.
   */
  function Unfenced(t: string): string {
    if '\n' !in t then "" else UnfencedAt(t, FirstNewline(t), LastNewline(t), Strip(t[LastNewline(t) + 1..]) == "```")
  }

  /** The text between the first newline `i` and the last newline `k`, or after `i` when the fence is not closed. */
  function UnfencedAt(t: string, i: nat, k: nat, closed: bool): string
    requires i <= k < |t|
  {
    if !closed then Strip(t[i + 1..])
    else if i < k then Strip(t[i + 1..k])
    else ""
  }

  lemma FenceKeptIsUnfenced(text: string)
    ensures Strip(Join(FenceKept(text))) == Unfenced(text)
  {
    if '\n' !in text {
      LinesNoNewline(text);
      assert FenceKept(text) == [];
    } else {
      var i, k := FirstNewline(text), LastNewline(text);
      var closed := Strip(text[k + 1..]) == "```";
      FirstBeforeLast(text);
      KeptLines(text, i, k, closed);
      assert Unfenced(text) == UnfencedAt(text, i, k, closed);
    }
  }

  lemma KeptLines(text: string, i: nat, k: nat, closed: bool)
    requires '\n' in text && i == FirstNewline(text) && k == LastNewline(text) && i <= k
    requires closed == (Strip(text[k + 1..]) == "```")
    ensures Strip(Join(FenceKept(text))) == UnfencedAt(text, i, k, closed)
  {
    var lines := Lines(text);
    SplitLastLine(text);
    assert lines[|lines| - 1] == text[k + 1..];
    if !closed {
      DropFirstLine(text);
      assert FenceKept(text) == lines[1..];
    } else {
      DropFirstAndLastLine(text);
      assert FenceKept(text) == lines[1..|lines| - 1];
    }
  }

  /**
   * The fence stripping of the issue parser and of the LLM reply parser:
   * strip; if the text starts with ``` drop its first line, and its last
   * line too when that line is ``` after stripping; strip again.
   */
  function Unfence(raw: string): (r: string)
    ensures !StartsWith(Strip(raw), "```") ==> r == Strip(raw)
    ensures StartsWith(Strip(raw), "```") ==> r == Unfenced(Strip(raw))
  {
    var text := Strip(raw);
    if StartsWith(text, "```") then
      FenceKeptIsUnfenced(text);
      Strip(Join(FenceKept(text)))
    else
      text
  }

  /** re.sub(r"\s+", " ", s); `inRun` says a run of white space has just been replaced. */
  function CollapseWs(s: string, inRun: bool): (r: string)
    ensures |r| <= |s|
    ensures forall k :: 0 <= k < |r| ==> IsSpace(r[k]) ==> r[k] == ' '
  {
    if s == [] then []
    else if !IsSpace(s[0]) then [s[0]] + CollapseWs(s[1..], false)
    else if inRun then CollapseWs(s[1..], true)
    else " " + CollapseWs(s[1..], true)
  }

  /** Collapsing keeps every character that is not white space, in order. */
  lemma {:induction false} CollapseWsKeepsNonWs(s: string, inRun: bool)
    ensures NonWs(CollapseWs(s, inRun)) == NonWs(s)
  {
    if s != [] {
      CollapseWsKeepsNonWs(s[1..], IsSpace(s[0]));
      var t := CollapseWs(s[1..], IsSpace(s[0]));
      if !IsSpace(s[0]) {
        assert ([s[0]] + t)[1..] == t;
      } else if !inRun {
        assert (" " + t)[1..] == t;
      }
    }
  }

  /** A text without white space is left as it is. */
  lemma {:induction false} CollapseWsNoWs(s: string, inRun: bool)
    requires forall k :: 0 <= k < |s| ==> !IsSpace(s[k])
    ensures CollapseWs(s, inRun) == s
  {
    if s != [] {
      CollapseWsNoWs(s[1..], false);
      assert s == [s[0]] + s[1..];
    }
  }

  /** No two white-space characters are adjacent. */
  predicate NoAdjacentWs(r: string) {
    forall k :: 0 <= k < |r| - 1 ==> !(IsSpace(r[k]) && IsSpace(r[k + 1]))
  }

  /** No two white-space characters are adjacent after collapsing. */
  lemma {:induction false} CollapseWsSingle(s: string, inRun: bool)
    ensures NoAdjacentWs(CollapseWs(s, inRun))
    ensures inRun ==> CollapseWs(s, inRun) == [] || !IsSpace(CollapseWs(s, inRun)[0])
  {
    if s != [] {
      CollapseWsSingle(s[1..], IsSpace(s[0]));
      var r := CollapseWs(s, inRun);
      var t := CollapseWs(s[1..], IsSpace(s[0]));
      if r != t {
        assert r == [r[0]] + t;
        forall k | 0 <= k < |r| - 1 ensures !(IsSpace(r[k]) && IsSpace(r[k + 1])) {
          assert r[k + 1] == t[k];
          if k > 0 {
            assert r[k] == t[k - 1];
          }
        }
      }
    }
  }

  /** Every white-space character is a plain space. */
  predicate PlainSpaces(r: string) {
    forall k :: 0 <= k < |r| ==> IsSpace(r[k]) ==> r[k] == ' '
  }

  /** Stripping a character from both ends keeps both white-space properties. */
  lemma StripCharKeepsSpacing(s: string, c: char)
    requires PlainSpaces(s) && NoAdjacentWs(s)
    ensures PlainSpaces(StripChar(s, c)) && NoAdjacentWs(StripChar(s, c))
  {
    StripCharTrims(s, c);
    SliceKeepsSpacing(s, StripChar(s, c), |s| - |LStripChar(s, c)|);
  }

  /** Both white-space properties hold of every slice. */
  lemma SliceKeepsSpacing(s: string, r: string, i: nat)
    requires i + |r| <= |s| && r == s[i..i + |r|]
    requires PlainSpaces(s) && NoAdjacentWs(s)
    ensures PlainSpaces(r) && NoAdjacentWs(r)
  {
    assert forall k :: 0 <= k < |r| ==> r[k] == s[i + k];
  }
}
