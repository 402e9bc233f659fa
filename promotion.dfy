/**
 * Promotion of a submission into the ranked board: find the submission,
 * refuse one that is missing or already promoted, settle the five
 * components and the total, mint the ranked id, append the ranked record
 * and mark the submission promoted with a back-reference to it.
 */
module Promotion {
  import opened Wrappers
  import opened Text
  import opened Slugs
  import opened Records
  import Scoring

  /** The command-line arguments; a component or manual score of -1 means "not given". */
  datatype PromoteArgs = PromoteArgs(
    submissionId: string,
    tractability: int,
    plausibility: int,
    validation: int,
    artifact: int,
    novelty: int,
    fromReview: bool,
    equationId: string,
    manualScore: int)

  /** Why a promotion exits before writing anything. */
  datatype PromoteError = NotFound | AlreadyPromoted | MissingComponents

  /** The five clamped components of the promoted record. */
  datatype Components = Components(tractability: int, plausibility: int, validation: int, artifact: int, novelty: int)

  predicate InRanges(c: Components) {
    && 0 <= c.tractability <= 20 && 0 <= c.plausibility <= 20 && 0 <= c.validation <= 20
    && 0 <= c.artifact <= 10 && 0 <= c.novelty <= 30
  }

  function Sum(c: Components): int {
    c.tractability + c.plausibility + c.validation + c.artifact + c.novelty
  }

  /** The first entry at or after `from` with the given submission id. */
  function FindSubmission(entries: seq<Submission>, id: string, from: nat): (r: Option<nat>)
    requires from <= |entries|
    decreases |entries| - from
    ensures r.Some? ==> from <= r.value < |entries| && entries[r.value].submissionId == id
    ensures r.Some? ==> forall j :: from <= j < r.value ==> entries[j].submissionId != id
    ensures r.None? ==> forall j :: from <= j < |entries| ==> entries[j].submissionId != id
  {
    if from == |entries| then None
    else if entries[from].submissionId == id then Some(from)
    else FindSubmission(entries, id, from + 1)
  }

  /** The smallest of the five component arguments. */
  function MinArg(args: PromoteArgs): int {
    Scoring.Min(Scoring.Min(Scoring.Min(args.tractability, args.plausibility), Scoring.Min(args.validation, args.artifact)), args.novelty)
  }

  /**
   * The components: from the stored review (a missing value reads as 0)
   * under --from-review, otherwise from the arguments, all five of which
   * must then be given. Either way each is clamped to its range.
   */
  function SettleComponents(e: Submission, args: PromoteArgs): (r: Result<Components, PromoteError>)
    ensures r.Success? ==> InRanges(r.value)
    ensures r.Failure? <==> !args.fromReview && MinArg(args) < 0
    ensures r.Failure? ==> r.error == MissingComponents
    ensures args.fromReview ==>
      var sc := e.review.scores.GetOr(Scores(0, 0, 0, 0, None));
      r == Success(Components(
        Scoring.Clamp(sc.tractability, 0, 20), Scoring.Clamp(sc.plausibility, 0, 20),
        Scoring.Clamp(sc.validation, 0, 20), Scoring.Clamp(sc.artifactCompleteness, 0, 10),
        Scoring.Clamp(e.review.novelty.GetOr(0), 0, 30)))
    ensures !args.fromReview && r.Success? ==>
      r.value == Components(
        Scoring.Clamp(args.tractability, 0, 20), Scoring.Clamp(args.plausibility, 0, 20),
        Scoring.Clamp(args.validation, 0, 20), Scoring.Clamp(args.artifact, 0, 10),
        Scoring.Clamp(args.novelty, 0, 30))
  {
    if args.fromReview then
      var sc := e.review.scores.GetOr(Scores(0, 0, 0, 0, None));
      Success(Components(
        Scoring.Clamp(sc.tractability, 0, 20),
        Scoring.Clamp(sc.plausibility, 0, 20),
        Scoring.Clamp(sc.validation, 0, 20),
        Scoring.Clamp(sc.artifactCompleteness, 0, 10),
        Scoring.Clamp(e.review.novelty.GetOr(0), 0, 30)))
    else if MinArg(args) < 0 then Failure(MissingComponents)
    else
      Success(Components(
        Scoring.Clamp(args.tractability, 0, 20),
        Scoring.Clamp(args.plausibility, 0, 20),
        Scoring.Clamp(args.validation, 0, 20),
        Scoring.Clamp(args.artifact, 0, 10),
        Scoring.Clamp(args.novelty, 0, 30)))
  }

  /** A manual promotion whose five arguments are all in range keeps them exactly. */
  lemma ManualComponentsKept(e: Submission, args: PromoteArgs)
    requires !args.fromReview
    requires 0 <= args.tractability <= 20 && 0 <= args.plausibility <= 20 && 0 <= args.validation <= 20
    requires 0 <= args.artifact <= 10 && 0 <= args.novelty <= 30
    ensures SettleComponents(e, args) ==
      Success(Components(args.tractability, args.plausibility, args.validation, args.artifact, args.novelty))
  {
  }

  /** Python truthiness of an optional number: present and not zero. */
  predicate Truthy(v: Option<int>) {
    v.Some? && v.value != 0
  }

  /**
   * The total: the clamped manual score when given; otherwise, under
   * --from-review, a truthy stored blended score, else a truthy stored
   * score; otherwise the sum of the components.
   */
  function Total(c: Components, e: Submission, args: PromoteArgs): (t: int)
    ensures args.manualScore >= 0 ==> t == Scoring.Clamp(args.manualScore, 0, 100) && 0 <= t <= 100
    ensures args.manualScore < 0 && !args.fromReview ==> t == Sum(c)
    ensures args.manualScore < 0 && args.fromReview && Truthy(e.review.blendedScore) ==> t == e.review.blendedScore.value
    ensures args.manualScore < 0 && args.fromReview && !Truthy(e.review.blendedScore) && Truthy(e.review.score) ==> t == e.review.score.value
    ensures args.manualScore < 0 && args.fromReview && !Truthy(e.review.blendedScore) && !Truthy(e.review.score) ==> t == Sum(c)
  {
    if args.manualScore >= 0 then Scoring.Clamp(args.manualScore, 0, 100)
    else if args.fromReview && Truthy(e.review.blendedScore) then e.review.blendedScore.value
    else if args.fromReview && Truthy(e.review.score) then e.review.score.value
    else Sum(c)
  }

  /** Without stored scores to copy, the total is a score out of 100. */
  lemma TotalOutOfHundred(c: Components, e: Submission, args: PromoteArgs)
    requires InRanges(c)
    requires args.manualScore >= 0 || !args.fromReview
    ensures 0 <= Total(c, e, args) <= 100
  {
  }

  /** The id before the collision check: the stripped --equation-id, or "eq-" and the name's slug. */
  function BaseId(e: Submission, args: PromoteArgs): (id: string)
    ensures id != []
    ensures Strip(args.equationId) != [] ==> id == Strip(args.equationId)
    ensures Strip(args.equationId) == [] ==> StartsWith(id, "eq-") && 4 <= |id| <= 59
    ensures Strip(args.equationId) == [] ==> id == "eq-" + Slug(e.name, 56, "submission")
  {
    if Strip(args.equationId) != [] then Strip(args.equationId)
    else "eq-" + Slug(e.name, 56, "submission")
  }

  /** Without --equation-id, a name that is a slug body of at most 56 characters gives "eq-" and the name. */
  lemma BaseIdOfSlug(e: Submission, args: PromoteArgs)
    requires Strip(args.equationId) == []
    requires IsSlugBody(e.name) && e.name != [] && |e.name| <= 56
    ensures BaseId(e, args) == "eq-" + e.name
  {
    SlugOfSlugBody(e.name, 56, "submission");
  }

  /** A taken id gets one suffix: "-" and the last 8 characters of the submission id's slug. */
  function NewId(base: string, existing: set<string>, submissionId: string): (id: string)
    ensures base !in existing ==> id == base
    ensures base in existing ==> |base| + 2 <= |id| <= |base| + 9 && id[..|base| + 1] == base + "-"
    ensures base in existing ==> id == base + "-" + TakeLast(Slug(submissionId, 56, "submission"), 8)
  {
    if base in existing then
      var tail := TakeLast(Slug(submissionId, 56, "submission"), 8);
      assert 1 <= |tail| <= 8;
      var id := base + "-" + tail;
      assert id[..|base| + 1] == base + "-";
      id
    else base
  }

  /** The appended ranked record. */
  function PromotedRecord(e: Submission, id: string, c: Components, total: int, today: string): RankedRecord {
    RankedRecord(
      id := id,
      name := e.name,
      firstSeen := today,
      source := e.source,
      submitter := Some(e.submitter),
      repoUrl := Some("https://github.com/RDM3DC/" + id),
      score := total,
      scores := Some(Scores(c.tractability, c.plausibility, c.validation, c.artifact, None)),
      units := e.units,
      theory := e.theory,
      animation := e.animation,
      image := e.image,
      description := e.description,
      assumptions := e.assumptions,
      date := today,
      equationLatex := e.equationLatex,
      tags := Tags(Some(NoveltyTag(c.novelty, today)), None))
  }

  /** The submission after promotion: status "promoted" and a fresh review pointing at the new id. */
  function PromotedEntry(e: Submission, id: string, c: Components, total: int, today: string): Submission {
    e.(status := "promoted",
       review := Review(
         date := Some(today),
         equationId := id,
         score := Some(total),
         heuristicScore := None,
         scores := Some(Scores(c.tractability, c.plausibility, c.validation, c.artifact, None)),
         novelty := Some(c.novelty),
         methodTag := None,
         llmScores := None,
         llmModel := None,
         blendedScore := None,
         manualScore := None))
  }

  /** What a promotion does: which entry, the record it appends and what the entry becomes. */
  datatype Change = Change(index: nat, record: RankedRecord, entry: Submission)

  /**
   * A whole promotion on both documents. It succeeds exactly when the id is
   * found, the entry is not promoted yet and the components are settled;
   * no other status (pending, needs-review, ready) is required.
   */
  function Promote(entries: seq<Submission>, rows: seq<RankedRecord>, args: PromoteArgs, today: string): (r: Result<Change, PromoteError>)
    ensures FindSubmission(entries, args.submissionId, 0).None? ==> r == Failure(NotFound)
    ensures (FindSubmission(entries, args.submissionId, 0).Some? &&
             Scoring.IsPromoted(entries[FindSubmission(entries, args.submissionId, 0).value]))
            ==> r == Failure(AlreadyPromoted)
    ensures r.Success? <==>
      && FindSubmission(entries, args.submissionId, 0).Some?
      && !Scoring.IsPromoted(entries[FindSubmission(entries, args.submissionId, 0).value])
      && (args.fromReview || MinArg(args) >= 0)
    ensures r.Success? ==>
      && r.value.index == FindSubmission(entries, args.submissionId, 0).value
      && r.value.entry.status == "promoted"
      && r.value.entry.review.equationId == r.value.record.id
      && r.value.entry.review.score == Some(r.value.record.score)
      && r.value.entry.submissionId == args.submissionId
  {
    match FindSubmission(entries, args.submissionId, 0)
    case None => Failure(NotFound)
    case Some(k) =>
      var e := entries[k];
      if Scoring.IsPromoted(e) then Failure(AlreadyPromoted)
      else
        match SettleComponents(e, args)
        case Failure(err) => Failure(err)
        case Success(c) =>
          var total := Total(c, e, args);
          var id := NewId(BaseId(e, args), RowIds(rows), args.submissionId);
          Success(Change(k, PromotedRecord(e, id, c, total, today), PromotedEntry(e, id, c, total, today)))
  }

  /** The record's components are clamped into their ranges, and a fresh base id is used unchanged. */
  lemma PromotedRecordShape(entries: seq<Submission>, rows: seq<RankedRecord>, args: PromoteArgs, today: string)
    requires Promote(entries, rows, args, today).Success?
    ensures var ch := Promote(entries, rows, args, today).value;
      var e := entries[ch.index];
      && ch.record.scores.Some? && ch.record.scores.value.novelty.None?
      && InRanges(Components(ch.record.scores.value.tractability, ch.record.scores.value.plausibility,
                             ch.record.scores.value.validation, ch.record.scores.value.artifactCompleteness,
                             ch.record.tags.novelty.value.score))
      && ch.record.tags.novelty == Some(NoveltyTag(ch.entry.review.novelty.value, today))
      && (BaseId(e, args) !in RowIds(rows) ==> ch.record.id == BaseId(e, args) && ch.record.id !in RowIds(rows))
  {
  }

  /** Replacing the first match by an entry with the same id keeps it the first match. */
  lemma {:induction false} FindAfterUpdate(entries: seq<Submission>, id: string, k: nat, e: Submission, from: nat)
    requires from <= k < |entries|
    requires FindSubmission(entries, id, from) == Some(k)
    requires e.submissionId == id
    ensures FindSubmission(entries[k := e], id, from) == Some(k)
    decreases k - from
  {
    if from < k {
      FindAfterUpdate(entries, id, k, e, from + 1);
    }
  }

  /** Once promoted, the same submission cannot be promoted again. */
  lemma SecondPromotionRejected(entries: seq<Submission>, rows: seq<RankedRecord>, args: PromoteArgs,
                                ch: Change, args2: PromoteArgs, today: string, today2: string)
    requires Promote(entries, rows, args, today) == Success(ch)
    requires args2.submissionId == args.submissionId
    ensures Promote(entries[ch.index := ch.entry], rows + [ch.record], args2, today2) == Failure(AlreadyPromoted)
  {
    RejectsAfterUpdate(entries, rows + [ch.record], args2, today2, ch.index, ch.entry);
  }

  /** Writing a promoted entry over the first match makes any later promotion of that id fail. */
  lemma RejectsAfterUpdate(entries: seq<Submission>, rows: seq<RankedRecord>, args: PromoteArgs, today: string,
                           k: nat, entry: Submission)
    requires FindSubmission(entries, args.submissionId, 0) == Some(k)
    requires entry.submissionId == args.submissionId && entry.status == "promoted"
    ensures Promote(entries[k := entry], rows, args, today) == Failure(AlreadyPromoted)
  {
    var entries2 := entries[k := entry];
    FindAfterUpdate(entries, args.submissionId, k, entry, 0);
    Scoring.PromotedStatusIsPromoted(entry);
    RejectsPromoted(entries2, rows, args, today, k);
  }

  /** A submission whose first match is already promoted is refused. */
  lemma RejectsPromoted(entries: seq<Submission>, rows: seq<RankedRecord>, args: PromoteArgs, today: string, k: nat)
    requires FindSubmission(entries, args.submissionId, 0) == Some(k)
    requires k < |entries| && Scoring.IsPromoted(entries[k])
    ensures Promote(entries, rows, args, today) == Failure(AlreadyPromoted)
  {
  }

  /**
   * A submission that was scored below the threshold ("needs-review") is
   * promoted all the same: promotion does not look at readiness.
   */
  lemma NeedsReviewIsPromotable(entries: seq<Submission>, rows: seq<RankedRecord>, args: PromoteArgs, today: string)
    requires FindSubmission(entries, args.submissionId, 0).Some?
    requires entries[FindSubmission(entries, args.submissionId, 0).value].status == "needs-review"
    requires args.fromReview
    ensures Promote(entries, rows, args, today).Success?
  {
    LowerNoUpper("needs-review");
  }

  /**
   * The suffixed id is not checked again, so it can collide too: with
   * "eq-e" and "eq-e-sub1" on the board, promoting submission "sub1" named
   * "e" appends a second "eq-e-sub1". In general, any short slug-shaped
   * submission id `sub` collides once the board holds both `base` and
   * `base + "-" + sub`.
   */
  lemma SuffixedIdCanCollide(base: string, sub: string)
    requires IsSlugBody(sub) && 1 <= |sub| <= 8
    ensures NewId(base, {base, base + "-" + sub}, sub) == base + "-" + sub
  {
    SlugOfSlugBody(sub, 56, "submission");
  }

  /**
   * Under --from-review a stored blended score wins over the stored score,
   * so a submission scored with both a manual override and an LLM blend is
   * promoted with the blend.
   */
  lemma FromReviewPrefersBlend(e: Submission, args: PromoteArgs, c: Components)
    requires args.fromReview && args.manualScore < 0
    requires e.review.blendedScore == Some(84) && e.review.score == Some(90) && e.review.manualScore == Some(90)
    ensures Total(c, e, args) == 84
  {
  }

  /**
   * Promotion on the two stores, in place: the search loop, then the
   * append to the ranked board and the update of the entry it found.
   * Nothing is written when the promotion is refused.
   */
  method PromoteSubmission(subs: SubmissionStore, ranked: RankedStore, args: PromoteArgs, today: string)
    returns (r: Result<string, PromoteError>)
    modifies subs, ranked
    ensures var p := Promote(old(subs.entries), old(ranked.entries), args, today);
      p.Failure? ==>
        && r == Failure(p.error)
        && subs.entries == old(subs.entries) && ranked.entries == old(ranked.entries)
        && subs.lastUpdated == old(subs.lastUpdated) && ranked.lastUpdated == old(ranked.lastUpdated)
    ensures var p := Promote(old(subs.entries), old(ranked.entries), args, today);
      p.Success? ==>
        && r == Success(p.value.record.id)
        && ranked.entries == old(ranked.entries) + [p.value.record]
        && subs.entries == old(subs.entries)[p.value.index := p.value.entry]
        && subs.lastUpdated == today && ranked.lastUpdated == today
  {
    var entries := subs.entries;
    var k := 0;
    while k < |entries| && entries[k].submissionId != args.submissionId
      invariant 0 <= k <= |entries|
      invariant FindSubmission(entries, args.submissionId, 0) == FindSubmission(entries, args.submissionId, k)
    {
      k := k + 1;
    }
    if k == |entries| {
      return Failure(NotFound);
    }
    var e := entries[k];
    if Scoring.IsPromoted(e) {
      return Failure(AlreadyPromoted);
    }
    var settled := SettleComponents(e, args);
    if settled.Failure? {
      return Failure(settled.error);
    }
    var c := settled.value;
    var total := Total(c, e, args);
    var existing := RowIds(ranked.entries);
    var id := NewId(BaseId(e, args), existing, args.submissionId);
    ranked.entries := ranked.entries + [PromotedRecord(e, id, c, total, today)];
    ranked.lastUpdated := today;
    subs.entries := entries[k := PromotedEntry(e, id, c, total, today)];
    subs.lastUpdated := today;
    return Success(id);
  }
}
