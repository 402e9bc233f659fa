/**
 * The slug rules the tools use to build identifiers and folder names:
 * lower-case the text, turn every maximal run of characters outside
 * [a-z0-9] into one '-', strip '-' from both ends, and (for the id
 * builders) keep a bounded prefix or fall back to a fixed word.
 */
module Slugs {
  import opened Text

  predicate IsAlnum(c: char) {
    ('a' <= c <= 'z') || ('0' <= c <= '9')
  }

  /** re.sub(r"[^a-z0-9]+", "-", s); `inRun` says a run has just been replaced. */
  function RunsToDash(s: string, inRun: bool): (r: string)
    ensures |r| <= |s|
  {
    if s == [] then []
    else if IsAlnum(s[0]) then [s[0]] + RunsToDash(s[1..], false)
    else if inRun then RunsToDash(s[1..], true)
    else "-" + RunsToDash(s[1..], true)
  }

  /** Characters from [a-z0-9-] only, and never two '-' in a row. */
  predicate WellFormed(t: string) {
    && (forall k :: 0 <= k < |t| ==> IsAlnum(t[k]) || t[k] == '-')
    && (forall k :: 0 <= k < |t| - 1 ==> !(t[k] == '-' && t[k + 1] == '-'))
  }

  /** A slug body: well formed and with no '-' at either end. */
  predicate IsSlugBody(t: string) {
    WellFormed(t) && (t == [] || (t[0] != '-' && t[|t| - 1] != '-'))
  }

  lemma {:induction false} RunsToDashWellFormed(s: string, inRun: bool)
    ensures WellFormed(RunsToDash(s, inRun))
    ensures inRun ==> RunsToDash(s, inRun) == [] || RunsToDash(s, inRun)[0] != '-'
  {
    if s != [] {
      RunsToDashWellFormed(s[1..], !IsAlnum(s[0]));
    }
  }

  lemma InfixWellFormed(t: string, i: nat, j: nat)
    requires i <= j <= |t| && WellFormed(t)
    ensures WellFormed(t[i..j])
  {
    var u := t[i..j];
    forall k | 0 <= k < |u| - 1
      ensures !(u[k] == '-' && u[k + 1] == '-')
    {
      assert u[k] == t[i + k] && u[k + 1] == t[i + k + 1];
    }
  }

  /** The common core of every slug rule: no length cap, no fallback. */
  function SlugBody(s: string): (r: string)
    ensures IsSlugBody(r)
    ensures |r| <= |s|
  {
    SlugBodyShape(s);
    StripChar(RunsToDash(Lower(s), false), '-')
  }

  lemma SlugBodyShape(s: string)
    ensures IsSlugBody(StripChar(RunsToDash(Lower(s), false), '-'))
  {
    RunsToDashWellFormed(Lower(s), false);
    StripDashesWellFormed(RunsToDash(Lower(s), false));
  }

  lemma StripDashesWellFormed(runs: string)
    ensures WellFormed(runs) ==> WellFormed(StripChar(runs, '-'))
  {
    var l := LStripChar(runs, '-');
    var r := RStripChar(l, '-');
    assert r == runs[|runs| - |l|..|runs| - |l| + |r|];
    if WellFormed(runs) {
      InfixWellFormed(runs, |runs| - |l|, |runs| - |l| + |r|);
    }
  }

  lemma LowerFixed(t: string)
    requires WellFormed(t)
    ensures Lower(t) == t
  {
    assert forall k :: 0 <= k < |t| ==> Lower(t)[k] == t[k];
  }

  /** A slug body is its own slug body. */
  lemma SlugBodyIdempotent(s: string)
    ensures SlugBody(SlugBody(s)) == SlugBody(s)
  {
    var t := SlugBody(s);
    LowerFixed(t);
    SlugBodyFixed(t, false);
    assert LStripChar(t, '-') == t;
    assert RStripChar(t, '-') == t;
  }

  lemma {:induction false} SlugBodyFixed(t: string, inRun: bool)
    requires WellFormed(t)
    requires inRun ==> t == [] || t[0] != '-'
    ensures RunsToDash(t, inRun) == t
  {
    if t != [] {
      InfixWellFormed(t, 1, |t|);
      if |t| >= 2 {
        assert !(t[0] == '-' && t[1] == '-');
      }
      SlugBodyFixed(t[1..], !IsAlnum(t[0]));
      assert [t[0]] + t[1..] == t;
    }
  }

  /**
   * The id slug of the submission, promotion and harvest tools: the slug
   * body cut to `cap` characters, or `fallback` when nothing is left.
   */
  function Slug(s: string, cap: nat, fallback: string): (r: string)
    requires cap >= 1 && fallback != [] && |fallback| <= cap
    ensures |r| <= cap && r != []
    ensures SlugBody(s) == [] ==> r == fallback
    ensures SlugBody(s) != [] ==> |r| <= |SlugBody(s)| && r == SlugBody(s)[..|r|] && WellFormed(r) && r[0] != '-'
    ensures |SlugBody(s)| >= cap ==> |r| == cap
    ensures SlugBody(s) != [] && |SlugBody(s)| < cap ==> r == SlugBody(s)
  {
    var body := Take(SlugBody(s), cap);
    InfixWellFormed(SlugBody(s), 0, |body|);
    if body == [] then fallback else body
  }

  /** A non-empty slug body within the cap is its own slug. */
  lemma SlugOfSlugBody(t: string, cap: nat, fallback: string)
    requires cap >= 1 && fallback != [] && |fallback| <= cap
    requires IsSlugBody(t) && t != [] && |t| <= cap
    ensures Slug(t, cap, fallback) == t
  {
    LowerFixed(t);
    SlugBodyFixed(t, false);
    assert LStripChar(t, '-') == t;
    assert RStripChar(t, '-') == t;
  }
}
