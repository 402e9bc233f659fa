/**
 * Queueing a new submission: mint "sub-<date>-<slug>", disambiguate it
 * against the ids already queued with "-2", "-3", ..., and append one
 * pending entry with stripped text fields.
 */
module Submit {
  import opened Text
  import opened Slugs
  import opened Records

  /** The command-line arguments; each repeated --assumption / --evidence is one item. */
  datatype SubmitArgs = SubmitArgs(
    name: string,
    equation: string,
    description: string,
    source: string,
    units: string,
    theory: string,
    submitter: string,
    assumptions: seq<string>,
    evidence: seq<string>)

  /** "sub-", the date, "-" and the name's slug (at most 48 characters, "equation" when empty). */
  function BaseSubmissionId(today: string, name: string): (id: string)
    ensures |today| + 6 <= |id| <= |today| + 53
    ensures id == "sub-" + today + "-" + id[|today| + 5..]
    ensures SlugBody(name) == [] ==> id[|today| + 5..] == "equation"
    ensures id == "sub-" + today + "-" + Slug(name, 48, "equation")
  {
    var slug := Slug(name, 48, "equation");
    var id := "sub-" + today + "-" + slug;
    assert id[|today| + 5..] == slug;
    id
  }

  /** A name that is already a slug body of at most 48 characters is used as it is. */
  lemma BaseSubmissionIdOfSlug(today: string, name: string)
    requires IsSlugBody(name) && name != [] && |name| <= 48
    ensures BaseSubmissionId(today, name) == "sub-" + today + "-" + name
  {
    SlugOfSlugBody(name, 48, "equation");
  }

  /** The n-th alternative to a taken id. */
  function Candidate(base: string, n: nat): string {
    base + "-" + NatToString(n)
  }

  lemma CandidateInjective(base: string, a: nat, b: nat)
    requires Candidate(base, a) == Candidate(base, b)
    ensures a == b
  {
    var ca, cb := Candidate(base, a), Candidate(base, b);
    assert ca[|base| + 1..] == NatToString(a);
    assert cb[|base| + 1..] == NatToString(b);
    NatToStringInjective(a, b);
  }

  /**
   * `id` is what the disambiguation yields: free, and either the base
   * itself or the first candidate from -2 on that is free.
   */
  ghost predicate IsFirstFree(base: string, existing: set<string>, id: string) {
    && id !in existing
    && (id == base ||
        (base in existing &&
         exists n :: 2 <= n && id == Candidate(base, n) && forall j :: 2 <= j < n ==> Candidate(base, j) in existing))
  }

  /** The disambiguation picks exactly one id. */
  lemma FirstFreeUnique(base: string, existing: set<string>, x: string, y: string)
    requires IsFirstFree(base, existing, x) && IsFirstFree(base, existing, y)
    ensures x == y
  {
    if x != base && y != base {
      var n :| 2 <= n && x == Candidate(base, n) && forall j :: 2 <= j < n ==> Candidate(base, j) in existing;
      var m :| 2 <= m && y == Candidate(base, m) && forall j :: 2 <= j < m ==> Candidate(base, j) in existing;
    }
  }

  /** The base and the candidates -2 .. -(n-1). */
  ghost function Tried(base: string, n: nat): set<string>
    requires n >= 2
  {
    {base} + set j | 2 <= j < n :: Candidate(base, j)
  }

  lemma {:induction false} TriedSize(base: string, n: nat)
    requires n >= 2
    ensures |Tried(base, n)| == n - 1
  {
    if n > 2 {
      TriedSize(base, n - 1);
      assert Tried(base, n) == Tried(base, n - 1) + {Candidate(base, n - 1)};
      assert |Candidate(base, n - 1)| > |base|;
      forall j | 2 <= j < n - 1
        ensures Candidate(base, j) != Candidate(base, n - 1)
      {
        if Candidate(base, j) == Candidate(base, n - 1) {
          CandidateInjective(base, j, n - 1);
        }
      }
    }
  }

  /** The while loop that appends -2, -3, ... until the id is free. */
  method FreeId(base: string, existing: set<string>) returns (id: string)
    ensures IsFirstFree(base, existing, id)
  {
    id := base;
    var i: nat := 2;
    while id in existing
      invariant i >= 2
      invariant id == if i == 2 then base else Candidate(base, i - 1)
      invariant i > 2 ==> base in existing
      invariant forall j :: 2 <= j < i - 1 ==> Candidate(base, j) in existing
      invariant i - 2 <= |existing|
      decreases |existing| + 2 - i
    {
      assert Tried(base, i) <= existing;
      TriedSize(base, i);
      SubsetSize(Tried(base, i), existing);
      id := Candidate(base, i);
      i := i + 1;
    }
  }

  lemma SubsetSize(a: set<string>, b: set<string>)
    requires a <= b
    ensures |a| <= |b|
  {
    assert b == a + (b - a);
  }

  /** Python's [x.strip() for x in items if x.strip()]. */
  function NonBlank(items: seq<string>): (r: seq<string>)
    ensures |r| <= |items|
    ensures forall k :: 0 <= k < |r| ==> r[k] != [] && IsStripped(r[k])
    ensures forall k :: 0 <= k < |items| ==> Strip(items[k]) != [] ==> Strip(items[k]) in r
    ensures forall x :: x in r ==> exists k :: 0 <= k < |items| && x == Strip(items[k])
  {
    if items == [] then []
    else if Strip(items[0]) == [] then NonBlank(items[1..])
    else [Strip(items[0])] + NonBlank(items[1..])
  }

  /** Items that are already stripped and non-blank are kept as they are. */
  lemma {:induction false} NonBlankKeepsClean(items: seq<string>)
    requires forall k :: 0 <= k < |items| ==> items[k] != [] && IsStripped(items[k])
    ensures NonBlank(items) == items
  {
    if items != [] {
      StrippedFixed(items[0]);
      NonBlankKeepsClean(items[1..]);
    }
  }

  /** NonBlank is idempotent. */
  lemma NonBlankIdempotent(items: seq<string>)
    ensures NonBlank(NonBlank(items)) == NonBlank(items)
  {
    NonBlankKeepsClean(NonBlank(items));
  }

  /** The new queue entry: pending, empty review, both artifacts planned, text fields stripped. */
  function NewEntry(args: SubmitArgs, id: string, today: string): (e: Submission)
    ensures e.status == "pending" && e.review == EmptyReview
    ensures e.animation == Planned && e.image == Planned
    ensures IsStripped(e.name) && IsStripped(e.equationLatex) && IsStripped(e.description)
    ensures IsStripped(e.source) && IsStripped(e.units) && IsStripped(e.theory)
    ensures forall k :: 0 <= k < |e.assumptions| ==> e.assumptions[k] != []
    ensures forall k :: 0 <= k < |e.evidence| ==> e.evidence[k] != []
    ensures e.submissionId == id && e.submittedAt == today && e.submitter == args.submitter
    ensures e.name == Strip(args.name) && e.equationLatex == Strip(args.equation) && e.description == Strip(args.description)
    ensures e.source == Strip(args.source) && e.units == Strip(args.units) && e.theory == Strip(args.theory)
    ensures e.assumptions == NonBlank(args.assumptions) && e.evidence == NonBlank(args.evidence)
  {
    Submission(
      submissionId := id,
      submittedAt := today,
      submitter := args.submitter,
      status := "pending",
      name := Strip(args.name),
      equationLatex := Strip(args.equation),
      description := Strip(args.description),
      source := Strip(args.source),
      units := Strip(args.units),
      theory := Strip(args.theory),
      assumptions := NonBlank(args.assumptions),
      evidence := NonBlank(args.evidence),
      animation := Planned,
      image := Planned,
      review := EmptyReview)
  }

  /** Arguments that are already stripped, with no blank list item, are stored exactly as given. */
  lemma NewEntryKeepsCleanArgs(args: SubmitArgs, id: string, today: string)
    requires IsStripped(args.name) && IsStripped(args.equation) && IsStripped(args.description)
    requires IsStripped(args.source) && IsStripped(args.units) && IsStripped(args.theory)
    requires forall k :: 0 <= k < |args.assumptions| ==> args.assumptions[k] != [] && IsStripped(args.assumptions[k])
    requires forall k :: 0 <= k < |args.evidence| ==> args.evidence[k] != [] && IsStripped(args.evidence[k])
    ensures var e := NewEntry(args, id, today);
      && e.name == args.name && e.equationLatex == args.equation && e.description == args.description
      && e.source == args.source && e.units == args.units && e.theory == args.theory
      && e.assumptions == args.assumptions && e.evidence == args.evidence
  {
    StrippedFixed(args.name);
    StrippedFixed(args.equation);
    StrippedFixed(args.description);
    StrippedFixed(args.source);
    StrippedFixed(args.units);
    StrippedFixed(args.theory);
    NonBlankKeepsClean(args.assumptions);
    NonBlankKeepsClean(args.evidence);
  }

  /**
   * A whole submission: exactly one entry is appended, the entries before
   * it are unchanged, and its id is new to the queue.
   */
  method SubmitEquation(store: SubmissionStore, args: SubmitArgs, today: string) returns (id: string)
    modifies store
    ensures IsFirstFree(BaseSubmissionId(today, args.name), SubmissionIds(old(store.entries)), id)
    ensures store.entries == old(store.entries) + [NewEntry(args, id, today)]
    ensures store.lastUpdated == today
    ensures forall k :: 0 <= k < |old(store.entries)| ==> old(store.entries)[k].submissionId != id
  {
    var existing := SubmissionIds(store.entries);
    id := FreeId(BaseSubmissionId(today, args.name), existing);
    store.entries := store.entries + [NewEntry(args, id, today)];
    store.lastUpdated := today;
  }
}
