/**
 * The equation harvester: normalise the LaTeX bodies found in source
 * files, keep long enough ones, add code lines that look like formulas,
 * then deduplicate by digest in first-seen order and count by kind.
 * The regular expressions, the directory walk and the digest are inputs.
 */
module Harvest {
  import opened Wrappers
  import opened Text
  import opened Records

  // ---------------------------------------------------------------------
  // Normalisation

  /** Strip, collapse every white-space run to one space, then strip '$' from both ends. */
  function Normalize(eq: string): (n: string)
    ensures |n| <= |eq|
    ensures n == [] || (n[0] != '$' && n[|n| - 1] != '$')
  {
    StripChar(CollapseWs(Strip(eq), false), '$')
  }

  /**
   * Normalising changes only white space and '$': every other character
   * survives in order, and the result is the collapsed text with a run of
   * '$' cut from each end.
   */
  lemma NormalizeContent(eq: string)
    ensures NonWs(CollapseWs(Strip(eq), false)) == NonWs(eq)
    ensures exists i: nat :: CharTrimmed(CollapseWs(Strip(eq), false), Normalize(eq), i, '$')
  {
    var c := CollapseWs(Strip(eq), false);
    StripKeepsNonWs(eq);
    CollapseWsKeepsNonWs(Strip(eq), false);
    StripCharTrims(c, '$');
    var i := |c| - |LStripChar(c, '$')|;
    assert CharTrimmed(c, Normalize(eq), i, '$');
  }

  /** A normalised hit has only plain spaces as white space, and never two in a row. */
  lemma NormalizeSpaces(eq: string)
    ensures PlainSpaces(Normalize(eq)) && NoAdjacentWs(Normalize(eq))
  {
    CollapseWsSingle(Strip(eq), false);
    StripCharKeepsSpacing(CollapseWs(Strip(eq), false), '$');
  }

  /** The shortest LaTeX hit kept after normalising. */
  const MinLatexLen := 8

  // ---------------------------------------------------------------------
  // Hits of one file

  /** A scanned file: its path, its suffix, and its text (None when it could not be read). */
  datatype SourceFile = SourceFile(path: string, suffix: string, text: Option<string>)

  /** The pattern matchers and the line splitter, which are left abstract. */
  datatype Matchers = Matchers(
    extract: string -> seq<string>,
    splitLines: string -> seq<string>,
    codeEq: string -> bool,
    mathHint: string -> bool)

  function LatexHit(n: string, path: string): HarvestEntry {
    HarvestEntry(Some(n), "latex", path, None, None, None)
  }

  /** The extracted bodies, each normalised, in order. */
  function NormalizeAll(bodies: seq<string>): (normed: seq<string>)
    ensures |normed| == |bodies|
    ensures forall k :: 0 <= k < |bodies| ==> normed[k] == Normalize(bodies[k])
  {
    seq(|bodies|, k requires 0 <= k < |bodies| => Normalize(bodies[k]))
  }

  /** The normalised bodies at least 8 long, in order, as LaTeX hits of one file. */
  function KeepLong(normed: seq<string>, path: string): (hits: seq<HarvestEntry>)
    ensures |hits| <= |normed|
  {
    if normed == [] then []
    else
      var rest := KeepLong(normed[1..], path);
      if |normed[0]| >= MinLatexLen then [LatexHit(normed[0], path)] + rest else rest
  }

  function LatexHits(bodies: seq<string>, path: string): seq<HarvestEntry> {
    KeepLong(NormalizeAll(bodies), path)
  }

  /** Every LaTeX hit is the file's, unstamped, of kind "latex", with an equation at least 8 long. */
  predicate LatexShaped(hits: seq<HarvestEntry>, path: string) {
    forall k :: 0 <= k < |hits| ==>
      && hits[k].equation.Some?
      && |hits[k].equation.value| >= MinLatexLen
      && hits[k] == LatexHit(hits[k].equation.value, path)
  }

  lemma {:induction false} KeepLongShaped(normed: seq<string>, path: string)
    ensures LatexShaped(KeepLong(normed, path), path)
  {
    if normed != [] {
      KeepLongShaped(normed[1..], path);
    }
  }

  /** A string is a hit exactly when it is one of the normalised bodies and at least 8 long. */
  lemma {:induction false} KeepLongExact(normed: seq<string>, path: string, n: string)
    ensures LatexHit(n, path) in KeepLong(normed, path) <==> n in normed && |n| >= MinLatexLen
  {
    if normed != [] {
      KeepLongExact(normed[1..], path, n);
      assert normed == [normed[0]] + normed[1..];
    }
  }

  /** The LaTeX hits of a file are exactly the bodies whose normal form is at least 8 long. */
  lemma LatexHitsExact(bodies: seq<string>, path: string, n: string)
    ensures LatexHit(n, path) in LatexHits(bodies, path) <==>
      |n| >= MinLatexLen && exists j :: 0 <= j < |bodies| && Normalize(bodies[j]) == n
  {
    var normed := NormalizeAll(bodies);
    KeepLongExact(normed, path, n);
    if n in normed {
      var j :| 0 <= j < |normed| && normed[j] == n;
      assert Normalize(bodies[j]) == n;
    }
  }

  lemma LatexHitsShaped(bodies: seq<string>, path: string)
    ensures LatexShaped(LatexHits(bodies, path), path)
  {
    KeepLongShaped(NormalizeAll(bodies), path);
  }

  /** What follows the first '=' of a line. */
  function AfterFirstEq(line: string): (rhs: string)
    requires '=' in line
    ensures |rhs| < |line| && rhs == line[|line| - |rhs|..]
    ensures '=' in line[..|line| - |rhs|]
  {
    if line[0] == '=' then line[1..]
    else
      assert '=' in line[1..];
      var rhs := AfterFirstEq(line[1..]);
      assert line[..|line| - |rhs|] == [line[0]] + line[1..][..|line| - 1 - |rhs|];
      rhs
  }

  /**
   * A code line is kept when the pattern matches, it holds neither "=="
   * nor "!=", the hint matches, and its right-hand side after the first
   * '=' is at least 5 characters once stripped. The code pattern only
   * matches lines holding '=', so the test for '=' adds nothing for it.
   */
  predicate KeepCodeLine(line: string, m: Matchers) {
    && m.codeEq(line)
    && !Contains(line, "==") && !Contains(line, "!=")
    && m.mathHint(line)
    && '=' in line
    && |Strip(AfterFirstEq(line))| >= 5
  }

  function CodeHit(line: string, path: string, number: nat): HarvestEntry {
    HarvestEntry(Some(Strip(line)), "code", path, Some(number), Some(number), None)
  }

  /** The lines that pass `keep`, each with its number, counting from `first`, in order. */
  function Numbered(lines: seq<string>, first: nat, keep: string -> bool): (kept: seq<(string, nat)>)
    ensures |kept| <= |lines|
    decreases |lines|
  {
    if lines == [] then []
    else
      var rest := Numbered(lines[1..], first + 1, keep);
      if keep(lines[0]) then [(lines[0], first)] + rest else rest
  }

  /** A numbered line is kept exactly when it passes `keep`. */
  lemma {:induction false} NumberedExact(lines: seq<string>, first: nat, keep: string -> bool, p: (string, nat))
    ensures p in Numbered(lines, first, keep) <==>
      exists j :: 0 <= j < |lines| && keep(lines[j]) && p == (lines[j], first + j)
    decreases |lines|
  {
    if lines != [] {
      NumberedExact(lines[1..], first + 1, keep, p);
      if p !in Numbered(lines, first, keep) {
        forall j | 0 <= j < |lines| && keep(lines[j]) ensures p != (lines[j], first + j) {
          if j > 0 {
            assert lines[1..][j - 1] == lines[j];
          }
        }
      } else if p != (lines[0], first) || !keep(lines[0]) {
        var j :| 0 <= j < |lines| - 1 && keep(lines[1..][j]) && p == (lines[1..][j], first + 1 + j);
        assert lines[1..][j] == lines[j + 1];
      }
    }
  }

  /** The kept lines of a Python file, numbered from 1, as stripped code hits, in order. */
  function CodeHits(lines: seq<string>, path: string, m: Matchers): (hits: seq<HarvestEntry>)
    ensures |hits| <= |lines|
  {
    var kept := Numbered(lines, 1, line => KeepCodeLine(line, m));
    seq(|kept|, k requires 0 <= k < |kept| => CodeHit(kept[k].0, path, kept[k].1))
  }

  /** Every code hit comes from a kept line and carries that line's number. */
  lemma CodeHitsSound(lines: seq<string>, path: string, m: Matchers, k: nat)
    requires k < |CodeHits(lines, path, m)|
    ensures exists j :: 0 <= j < |lines| && KeepCodeLine(lines[j], m) && CodeHits(lines, path, m)[k] == CodeHit(lines[j], path, 1 + j)
  {
    var keep := line => KeepCodeLine(line, m);
    var kept := Numbered(lines, 1, keep);
    NumberedExact(lines, 1, keep, kept[k]);
    var j :| 0 <= j < |lines| && keep(lines[j]) && kept[k] == (lines[j], 1 + j);
    assert CodeHits(lines, path, m)[k] == CodeHit(lines[j], path, 1 + j);
  }

  /** Every kept line becomes a code hit with its number. */
  lemma CodeHitsComplete(lines: seq<string>, path: string, m: Matchers, j: nat)
    requires j < |lines| && KeepCodeLine(lines[j], m)
    ensures CodeHit(lines[j], path, 1 + j) in CodeHits(lines, path, m)
  {
    var keep := line => KeepCodeLine(line, m);
    var kept := Numbered(lines, 1, keep);
    NumberedExact(lines, 1, keep, (lines[j], 1 + j));
    var k :| 0 <= k < |kept| && kept[k] == (lines[j], 1 + j);
    assert CodeHits(lines, path, m)[k] == CodeHit(lines[j], path, 1 + j);
  }

  /** What every raw hit looks like: a LaTeX or code hit without a digest yet. */
  predicate RawHit(h: HarvestEntry) {
    (h.kind == "latex" || h.kind == "code") && h.sha1 == None
  }

  predicate AllRaw(hits: seq<HarvestEntry>) {
    forall k :: 0 <= k < |hits| ==> RawHit(hits[k])
  }

  lemma CodeHitsRaw(lines: seq<string>, path: string, m: Matchers)
    ensures AllRaw(CodeHits(lines, path, m))
  {
  }

  /** The suffixes the walk scans. */
  predicate Scanned(f: SourceFile) {
    Lower(f.suffix) in {".md", ".tex", ".py", ".txt"}
  }

  /** The hits of one file: its LaTeX hits, then, for Python files, its code hits numbered from 1. */
  function FileHits(f: SourceFile, m: Matchers): (hits: seq<HarvestEntry>)
    ensures !Scanned(f) || f.text.None? ==> hits == []
  {
    if !Scanned(f) || f.text.None? then []
    else
      LatexHits(m.extract(f.text.value), f.path)
      + (if Lower(f.suffix) == ".py" then CodeHits(m.splitLines(f.text.value), f.path, m) else [])
  }

  lemma FileHitsRaw(f: SourceFile, m: Matchers)
    ensures AllRaw(FileHits(f, m))
  {
    if Scanned(f) && f.text.Some? {
      var latex := LatexHits(m.extract(f.text.value), f.path);
      LatexHitsShaped(m.extract(f.text.value), f.path);
      assert AllRaw(latex);
      CodeHitsRaw(m.splitLines(f.text.value), f.path, m);
    }
  }

  /** The raw hits of all files, in walk order. */
  function HarvestFiles(files: seq<SourceFile>, m: Matchers): seq<HarvestEntry>
  {
    if files == [] then [] else HarvestFiles(files[..|files| - 1], m) + FileHits(files[|files| - 1], m)
  }

  lemma {:induction false} HarvestFilesRaw(files: seq<SourceFile>, m: Matchers)
    ensures AllRaw(HarvestFiles(files, m))
  {
    if files != [] {
      HarvestFilesRaw(files[..|files| - 1], m);
      FileHitsRaw(files[|files| - 1], m);
    }
  }

  /** The walk over the files, appending each file's hits, proved against HarvestFiles. */
  method CollectHits(files: seq<SourceFile>, m: Matchers) returns (out: seq<HarvestEntry>)
    ensures out == HarvestFiles(files, m)
  {
    out := [];
    for i := 0 to |files|
      invariant out == HarvestFiles(files[..i], m)
    {
      assert files[..i + 1][..i] == files[..i];
      out := out + FileHits(files[i], m);
    }
    assert files[..|files|] == files;
  }

  // ---------------------------------------------------------------------
  // Deduplication

  function Key(h: HarvestEntry, digest: string -> string): string {
    digest(h.equation.GetOr(""))
  }

  function Stamp(h: HarvestEntry, digest: string -> string): HarvestEntry {
    h.(sha1 := Some(Key(h, digest)))
  }

  /** The digests of a list of hits. */
  function Keys(u: seq<HarvestEntry>, digest: string -> string): set<string> {
    if u == [] then {} else Keys(u[..|u| - 1], digest) + {Key(u[|u| - 1], digest)}
  }

  lemma {:induction false} KeysMember(u: seq<HarvestEntry>, digest: string -> string, x: string)
    ensures x in Keys(u, digest) <==> exists k :: 0 <= k < |u| && Key(u[k], digest) == x
  {
    if u != [] {
      var init := u[..|u| - 1];
      KeysMember(init, digest, x);
      assert forall k :: 0 <= k < |init| ==> init[k] == u[k];
    }
  }

  /** Digests pairwise distinct. */
  predicate DistinctKeys(u: seq<HarvestEntry>, digest: string -> string) {
    forall j, k :: 0 <= j < k < |u| ==> Key(u[j], digest) != Key(u[k], digest)
  }

  /** Every kept entry carries its own digest as sha1. */
  predicate Stamped(u: seq<HarvestEntry>, digest: string -> string) {
    forall k :: 0 <= k < |u| ==> u[k].sha1 == Some(Key(u[k], digest))
  }

  /** The dict keyed by digest, in insertion order: a hit whose digest is new is stamped and kept. */
  function Dedup(hits: seq<HarvestEntry>, digest: string -> string): (u: seq<HarvestEntry>)
    ensures |u| <= |hits|
  {
    if hits == [] then []
    else
      var u := Dedup(hits[..|hits| - 1], digest);
      var h := hits[|hits| - 1];
      if Key(h, digest) in Keys(u, digest) then u else u + [Stamp(h, digest)]
  }

  /** Deduplication loses no digest. */
  lemma {:induction false} DedupKeys(hits: seq<HarvestEntry>, digest: string -> string)
    ensures Keys(Dedup(hits, digest), digest) == Keys(hits, digest)
  {
    if hits != [] {
      var u := Dedup(hits[..|hits| - 1], digest);
      DedupKeys(hits[..|hits| - 1], digest);
      var u' := u + [Stamp(hits[|hits| - 1], digest)];
      assert u'[..|u'| - 1] == u;
    }
  }

  /** The kept digests are pairwise distinct, and each kept entry is stamped with its digest. */
  lemma {:induction false} DedupDistinct(hits: seq<HarvestEntry>, digest: string -> string)
    ensures DistinctKeys(Dedup(hits, digest), digest)
    ensures Stamped(Dedup(hits, digest), digest)
  {
    if hits != [] {
      var u := Dedup(hits[..|hits| - 1], digest);
      var h := hits[|hits| - 1];
      DedupDistinct(hits[..|hits| - 1], digest);
      if Key(h, digest) !in Keys(u, digest) {
        var u' := u + [Stamp(h, digest)];
        forall j | 0 <= j < |u| ensures Key(u[j], digest) != Key(h, digest) {
          KeysMember(u, digest, Key(h, digest));
        }
        assert forall j :: 0 <= j < |u| ==> u'[j] == u[j];
      }
    }
  }

  /** Adding hits never reorders or drops what is already kept: the kept list only grows at its end. */
  lemma {:induction false} DedupPrefix(hits: seq<HarvestEntry>, more: seq<HarvestEntry>, digest: string -> string)
    ensures |Dedup(hits, digest)| <= |Dedup(hits + more, digest)|
    ensures Dedup(hits + more, digest)[..|Dedup(hits, digest)|] == Dedup(hits, digest)
    decreases |more|
  {
    if more == [] {
      assert hits + more == hits;
    } else {
      var init := more[..|more| - 1];
      DedupPrefix(hits, init, digest);
      assert (hits + more)[..|hits + more| - 1] == hits + init;
      var u := Dedup(hits, digest);
      var v := Dedup(hits + init, digest);
      var w := Dedup(hits + more, digest);
      assert w[..|v|] == v;
      assert w[..|u|] == w[..|v|][..|u|];
    }
  }

  /** No earlier hit has the digest of hit `m`. */
  predicate FirstOfKey(hits: seq<HarvestEntry>, m: nat, digest: string -> string)
    requires m < |hits|
  {
    forall m' :: 0 <= m' < m ==> Key(hits[m'], digest) != Key(hits[m], digest)
  }

  /** `e` is the stamped first hit with some digest. */
  predicate StampedFirst(hits: seq<HarvestEntry>, e: HarvestEntry, digest: string -> string) {
    exists m :: 0 <= m < |hits| && e == Stamp(hits[m], digest) && FirstOfKey(hits, m, digest)
  }

  lemma StampedFirstGrows(hits: seq<HarvestEntry>, e: HarvestEntry, digest: string -> string)
    requires hits != [] && StampedFirst(hits[..|hits| - 1], e, digest)
    ensures StampedFirst(hits, e, digest)
  {
    var init := hits[..|hits| - 1];
    var m :| 0 <= m < |init| && e == Stamp(init[m], digest) && FirstOfKey(init, m, digest);
    assert init[m] == hits[m];
    forall m' | 0 <= m' < m ensures Key(hits[m'], digest) != Key(hits[m], digest) {
      assert init[m'] == hits[m'];
    }
    assert FirstOfKey(hits, m, digest);
  }

  /** Every kept entry is the stamped first hit with its digest. */
  lemma {:induction false} DedupKeepsFirst(hits: seq<HarvestEntry>, digest: string -> string, k: nat)
    requires k < |Dedup(hits, digest)|
    ensures StampedFirst(hits, Dedup(hits, digest)[k], digest)
  {
    var init := hits[..|hits| - 1];
    var u := Dedup(init, digest);
    var h := hits[|hits| - 1];
    var keep := Key(h, digest) !in Keys(u, digest);
    assert Dedup(hits, digest) == if keep then u + [Stamp(h, digest)] else u;
    if k < |u| {
      DedupKeepsFirst(init, digest, k);
      assert Dedup(hits, digest)[k] == u[k];
      StampedFirstGrows(hits, u[k], digest);
    } else {
      var m := |hits| - 1;
      assert keep && Dedup(hits, digest)[k] == Stamp(hits[m], digest);
      DedupKeys(init, digest);
      forall m' | 0 <= m' < m ensures Key(hits[m'], digest) != Key(hits[m], digest) {
        assert init[m'] == hits[m'];
        KeysMember(init, digest, Key(init[m'], digest));
      }
      assert FirstOfKey(hits, m, digest);
    }
  }

  /** The dedup loop with its dict of seen digests, proved against Dedup. */
  method DedupHits(hits: seq<HarvestEntry>, digest: string -> string) returns (uniq: seq<HarvestEntry>)
    ensures uniq == Dedup(hits, digest)
  {
    uniq := [];
    var seen: set<string> := {};
    for i := 0 to |hits|
      invariant uniq == Dedup(hits[..i], digest)
      invariant seen == Keys(uniq, digest)
    {
      assert hits[..i + 1][..i] == hits[..i];
      var h := hits[i];
      var key := digest(h.equation.GetOr(""));
      if key !in seen {
        var old_ := uniq;
        uniq := uniq + [h.(sha1 := Some(key))];
        seen := seen + {key};
        assert uniq[..|uniq| - 1] == old_;
      }
    }
    assert hits[..|hits|] == hits;
  }

  // ---------------------------------------------------------------------
  // Counting by kind

  /** A kind's count, 0 when it is not listed. */
  function Lookup(counts: seq<(string, nat)>, kind: string): nat {
    if counts == [] then 0
    else if counts[0].0 == kind then counts[0].1
    else Lookup(counts[1..], kind)
  }

  function Total(counts: seq<(string, nat)>): nat {
    if counts == [] then 0 else counts[0].1 + Total(counts[1..])
  }

  /** Add one to a kind's count, appending it with count 1 when it is new. */
  function Bump(counts: seq<(string, nat)>, kind: string): (r: seq<(string, nat)>)
    ensures Total(r) == Total(counts) + 1
    ensures Lookup(r, kind) == Lookup(counts, kind) + 1
    ensures forall other :: other != kind ==> Lookup(r, other) == Lookup(counts, other)
  {
    if counts == [] then [(kind, 1)]
    else if counts[0].0 == kind then [(kind, counts[0].1 + 1)] + counts[1..]
    else [counts[0]] + Bump(counts[1..], kind)
  }

  /** The by_kind counter of the kept hits, in first-seen order of kinds. */
  function KindCounts(u: seq<HarvestEntry>): (counts: seq<(string, nat)>)
    ensures Total(counts) == |u|
  {
    if u == [] then [] else Bump(KindCounts(u[..|u| - 1]), u[|u| - 1].kind)
  }

  /** How many hits have a kind. */
  function CountKind(u: seq<HarvestEntry>, kind: string): nat {
    if u == [] then 0 else CountKind(u[..|u| - 1], kind) + (if u[|u| - 1].kind == kind then 1 else 0)
  }

  /** Each kind's entry in by_kind is the number of kept hits of that kind. */
  lemma {:induction false} KindCountsExact(u: seq<HarvestEntry>, kind: string)
    ensures Lookup(KindCounts(u), kind) == CountKind(u, kind)
  {
    if u != [] {
      KindCountsExact(u[..|u| - 1], kind);
    }
  }

  /** The counting loop, proved against KindCounts. */
  method CountByKind(u: seq<HarvestEntry>) returns (counts: seq<(string, nat)>)
    ensures counts == KindCounts(u)
  {
    counts := [];
    for i := 0 to |u|
      invariant counts == KindCounts(u[..i])
    {
      assert u[..i + 1][..i] == u[..i];
      counts := Bump(counts, u[i].kind);
    }
    assert u[..|u|] == u;
  }

  // ---------------------------------------------------------------------
  // The run

  /**
   * The written document: raw and unique counts, by_kind, the scan root,
   * and the deduplicated entries; unique never exceeds raw and the
   * by_kind counts add up to unique.
   */
  method HarvestMain(files: seq<SourceFile>, m: Matchers, digest: string -> string, scanRoot: string)
    returns (doc: HarvestDoc)
    ensures doc.entries == Dedup(HarvestFiles(files, m), digest)
    ensures doc.stats.raw == Some(|HarvestFiles(files, m)|)
    ensures doc.stats.unique == Some(|doc.entries|) && |doc.entries| <= |HarvestFiles(files, m)|
    ensures doc.stats.byKind == Some(KindCounts(doc.entries)) && Total(doc.stats.byKind.value) == |doc.entries|
    ensures doc.stats.scanRoot == Some(scanRoot)
  {
    var hits := CollectHits(files, m);
    var uniq := DedupHits(hits, digest);
    var byKind := CountByKind(uniq);
    doc := HarvestDoc(HarvestStats(Some(|hits|), Some(|uniq|), Some(byKind), Some(scanRoot)), uniq);
  }
}
