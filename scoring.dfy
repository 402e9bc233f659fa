/**
 * The deterministic scorer of the submission queue: the heuristic
 * sub-scores, the 40/60 blend with an LLM total, the choice of the entries
 * to score, the score precedence and status step of the scoring loop, and
 * the write-back of a promoted submission's score to the ranked board.
 */
module Scoring {
  import opened Wrappers
  import opened Text
  import opened Records

  /** max(lo, min(hi, v)). */
  function Clamp(v: int, lo: int, hi: int): (r: int)
    ensures lo <= hi ==> lo <= r <= hi
    ensures lo <= v <= hi ==> r == v
    ensures v < lo ==> r == lo
    ensures lo <= hi < v ==> r == hi
  {
    var m := if v < hi then v else hi;
    if m < lo then lo else m
  }

  function Min(a: int, b: int): int { if a < b then a else b }

  function Max(a: int, b: int): int { if a < b then b else a }

  // ---------------------------------------------------------------------
  // The heuristic

  predicate IsLetter(c: char) {
    ('a' <= c <= 'z') || ('A' <= c <= 'Z')
  }

  /** The number of ASCII letters at the start of `s`. */
  function LetterRun(s: string): (n: nat)
    ensures n <= |s|
    ensures forall k :: 0 <= k < n ==> IsLetter(s[k])
    ensures n < |s| ==> !IsLetter(s[n])
  {
    if s != [] && IsLetter(s[0]) then 1 + LetterRun(s[1..]) else 0
  }

  /**
   * The distinct matches of re.findall(r'\\[a-zA-Z]+', s): every LaTeX
   * command of `s`, a backslash and a maximal run of letters.
   */
  function Commands(s: string): (r: set<string>)
    ensures forall c :: c in r ==> |c| >= 2 && c[0] == '\\' && forall k :: 1 <= k < |c| ==> IsLetter(c[k])
    decreases |s|
  {
    if |s| < 2 then {}
    else if s[0] == '\\' && IsLetter(s[1]) then
      var n := 1 + LetterRun(s[1..]);
      assert forall k :: 1 <= k < n ==> s[..n][k] == s[1..][k - 1];
      {s[..n]} + Commands(s[n..])
    else Commands(s[1..])
  }

  /**
   * Every backslash followed by a letter starts a match: the backslash and
   * the whole run of letters after it is one of the commands.
   */
  lemma {:induction false} CommandsComplete(s: string, i: nat)
    requires i + 1 < |s| && s[i] == '\\' && IsLetter(s[i + 1])
    ensures s[i..i + 1 + LetterRun(s[i + 1..])] in Commands(s)
    decreases |s|, 1
  {
    var m := LetterRun(s[i + 1..]);
    if s[0] == '\\' && IsLetter(s[1]) {
      var n := 1 + LetterRun(s[1..]);
      assert Commands(s) == {s[..n]} + Commands(s[n..]);
      if i > 0 {
        ShiftedCommand(s, n, i, m);
      }
    } else {
      assert Commands(s) == Commands(s[1..]);
      ShiftedCommand(s, 1, i, m);
    }
  }

  /** The induction step of CommandsComplete: the same command found in the suffix from `n`. */
  lemma {:induction false} ShiftedCommand(s: string, n: nat, i: nat, m: nat)
    requires 1 <= n <= i && i + 1 < |s| && s[i] == '\\' && IsLetter(s[i + 1])
    requires m == LetterRun(s[i + 1..])
    ensures s[i..i + 1 + m] in Commands(s[n..])
    decreases |s|, 0
  {
    var t := s[n..];
    assert t[i - n] == s[i] && t[i - n + 1] == s[i + 1];
    assert t[i - n + 1..] == s[i + 1..];
    CommandsComplete(t, i - n);
    SliceOfSuffix(s, n, i - n, 1 + m);
  }

  /** Python's any(tok in s for tok in toks). */
  predicate ContainsAny(s: string, toks: seq<string>) {
    toks != [] && (Contains(s, toks[0]) || ContainsAny(s, toks[1..]))
  }

  const ExternalKeywords: seq<string> := ["peer", "journal", "arxiv", "doi", "experiment", "replicat"]

  /** An evidence item that speaks of dimensions or units. */
  predicate Dimensional(item: string) {
    Contains(Lower(item), "dimension") || Contains(Lower(item), "unit")
  }

  /** An evidence item that cites an external source. */
  predicate External(item: string) {
    ContainsAny(Lower(item), ExternalKeywords)
  }

  predicate AnyDimensional(items: seq<string>) {
    items != [] && (Dimensional(items[0]) || AnyDimensional(items[1..]))
  }

  predicate AnyExternal(items: seq<string>) {
    items != [] && (External(items[0]) || AnyExternal(items[1..]))
  }

  /** Tractability before clamping. */
  function RawTractability(eq: string): int {
    var low := Lower(eq);
    var hasEquals := Contains(eq, "=");
    16
    - (if |eq| > 300 then 3 else if |eq| > 180 then 1 else 0)
    + (if Contains(low, "\\int") || Contains(low, "\\sum") then 1 else 0)
    + (if hasEquals then 1 else 0)
    + (if |Commands(eq)| >= 4 then 1 else 0)
    - (if hasEquals then 0 else 3)
  }

  /** Plausibility before clamping. */
  function RawPlausibility(eq: string): int {
    var low := Lower(eq);
    16
    + (if Contains(low, "\\frac") || Contains(low, "\\partial") || Contains(low, "\\nabla") then 2 else 0)
    + (if ContainsAny(low, ["sin", "cos", "exp", "log"]) then 1 else 0)
    + (if |eq| > 40 then 1 else 0)
    - (if Contains(eq, "=") then 0 else 2)
  }

  /** Validation before clamping. */
  function RawValidation(e: Submission): int {
    var nA := |e.assumptions|;
    var nE := |e.evidence|;
    8
    + (if nA > 0 then Min(4, nA) else 0)
    + (if Upper(e.units) == "OK" && AnyDimensional(e.evidence) then 2 else 0)
    + (if nE == 0 then 0 else if AnyExternal(e.evidence) then Min(6, 2 * nE) else Min(4, nE))
  }

  /** An artifact counts once its status is anything but "planned" or "". */
  predicate ArtifactDone(a: Artifact) {
    StatusDone(a.status)
  }

  predicate StatusDone(status: string) {
    Lower(status) != "planned" && Lower(status) != ""
  }

  /** Artifact completeness before clamping. */
  function RawArtifact(e: Submission): int {
    4 + (if ArtifactDone(e.animation) then 3 else 0) + (if ArtifactDone(e.image) then 3 else 0)
  }

  /** Novelty before clamping. */
  function RawNovelty(e: Submission): int {
    var cmds := |Commands(e.equationLatex)|;
    var nA := |e.assumptions|;
    16
    + (if cmds >= 8 then 6 else if cmds >= 6 then 4 else if cmds >= 4 then 2 else 0)
    + (if nA >= 3 then 3 else if nA >= 2 then 2 else if nA >= 1 then 1 else 0)
    + (if AnyExternal(e.evidence) then 2 else 0)
    + (if |e.equationLatex| > 80 && cmds >= 5 then 2 else 0)
  }

  /** The five sub-scores and their total. */
  datatype Metrics = Metrics(
    tractability: int,
    plausibility: int,
    validation: int,
    artifactCompleteness: int,
    novelty: int,
    score: int)

  /** The heuristic: each sub-score clamped to its range, the total their sum. */
  function Heuristic(e: Submission): (m: Metrics)
    ensures 0 <= m.tractability <= 20 && 0 <= m.plausibility <= 20 && 0 <= m.validation <= 20
    ensures 0 <= m.artifactCompleteness <= 10 && 0 <= m.novelty <= 30
    ensures m.score == m.tractability + m.plausibility + m.validation + m.artifactCompleteness + m.novelty
  {
    var t := Clamp(RawTractability(e.equationLatex), 0, 20);
    var p := Clamp(RawPlausibility(e.equationLatex), 0, 20);
    var v := Clamp(RawValidation(e), 0, 20);
    var a := Clamp(RawArtifact(e), 0, 10);
    var n := Clamp(RawNovelty(e), 0, 30);
    Metrics(t, p, v, a, n, t + p + v + a + n)
  }

  /**
   * No clamp of the heuristic ever binds: every raw sub-score already lies
   * in a narrower range, so the total lies in 52..98.
   */
  lemma HeuristicRange(e: Submission)
    ensures 10 <= RawTractability(e.equationLatex) <= 19
    ensures 14 <= RawPlausibility(e.equationLatex) <= 20
    ensures 8 <= RawValidation(e) <= 20
    ensures RawArtifact(e) in {4, 7, 10}
    ensures 16 <= RawNovelty(e) <= 29
    ensures Heuristic(e) == Metrics(RawTractability(e.equationLatex), RawPlausibility(e.equationLatex),
                                     RawValidation(e), RawArtifact(e), RawNovelty(e), Heuristic(e).score)
    ensures 52 <= Heuristic(e).score <= 98
  {
    TractabilityRange(e.equationLatex);
    PlausibilityRange(e.equationLatex);
    ValidationRange(e);
    NoveltyRange(e);
  }

  lemma TractabilityRange(eq: string)
    ensures 10 <= RawTractability(eq) <= 19
  {
  }

  lemma PlausibilityRange(eq: string)
    ensures 14 <= RawPlausibility(eq) <= 20
  {
  }

  lemma ValidationRange(e: Submission)
    ensures 8 <= RawValidation(e) <= 20
  {
  }

  lemma NoveltyRange(e: Submission)
    ensures 16 <= RawNovelty(e) <= 29
  {
  }

  // ---------------------------------------------------------------------
  // The blend

  /**
   * int(round(0.4 * h + 0.6 * l)). 4h + 6l is even, so 0.4h + 0.6l is a
   * multiple of 0.2 and never a .5 tie: the result is the nearest integer.
   */
  function Blend(h: int, l: int): (r: int)
    ensures (r as real) - 0.5 < 0.4 * (h as real) + 0.6 * (l as real) < (r as real) + 0.5
    ensures Min(h, l) <= r <= Max(h, l)
  {
    var n := 4 * h + 6 * l;
    assert n == 2 * (2 * h + 3 * l);
    (n + 5) / 10
  }

  /** With any heuristic total, an LLM total of 100 blends to at least 81. */
  lemma BlendOfFullMarks(h: int)
    requires 52 <= h
    ensures Blend(h, 100) >= 81
  {
  }

  /** An all-20 reply (LLM total 100) takes every submission to at least 81. */
  lemma FullMarksClearThreshold(e: Submission)
    ensures Blend(Heuristic(e).score, 100) >= 81
  {
    HeuristicRange(e);
    BlendOfFullMarks(Heuristic(e).score);
  }

  // ---------------------------------------------------------------------
  // Picking the entries to score

  /** Which entries a run scores: one id, all pending ones, or the latest one. */
  datatype Selection = ById(id: string) | AllPending(includePromoted: bool) | Latest(includePromoted: bool)

  /** The command line's choice: a non-blank --submission-id first, then --all-pending. */
  function SelectionOf(submissionIdArg: string, allPending: bool, includePromoted: bool): (sel: Selection)
    ensures Strip(submissionIdArg) != [] ==> sel == ById(Strip(submissionIdArg))
    ensures Strip(submissionIdArg) == [] && allPending ==> sel == AllPending(includePromoted)
    ensures Strip(submissionIdArg) == [] && !allPending ==> sel == Latest(includePromoted)
  {
    if Strip(submissionIdArg) != [] then ById(Strip(submissionIdArg))
    else if allPending then AllPending(includePromoted)
    else Latest(includePromoted)
  }

  /** Whether the id and all-pending selections take `e`. */
  predicate Picked(e: Submission, sel: Selection)
    requires !sel.Latest?
  {
    match sel
    case ById(id) => e.submissionId == id
    case AllPending(inc) => inc || Lower(e.status) == "pending"
  }

  /** Whether the latest-entry selection may stop at `e`. */
  predicate LatestCandidate(e: Submission, includePromoted: bool) {
    var status := Lower(e.status);
    || (includePromoted && status in {"pending", "needs-review", "ready", "promoted"})
    || status == "pending"
  }

  /** The indices below `n` that `sel` takes, in ascending order. */
  function PickedBelow(entries: seq<Submission>, sel: Selection, n: nat): (r: seq<nat>)
    requires !sel.Latest? && n <= |entries|
    ensures forall k :: 0 <= k < n ==> (k in r <==> Picked(entries[k], sel))
    ensures forall i :: 0 <= i < |r| ==> r[i] < n
    ensures forall i, j :: 0 <= i < j < |r| ==> r[i] < r[j]
  {
    if n == 0 then []
    else
      var prefix := PickedBelow(entries, sel, n - 1);
      if Picked(entries[n - 1], sel) then prefix + [n - 1] else prefix
  }

  /** The last index below `n` at which the latest-entry selection stops. */
  function LastCandidate(entries: seq<Submission>, includePromoted: bool, n: nat): (r: Option<nat>)
    requires n <= |entries|
    ensures r.Some? ==> r.value < n && LatestCandidate(entries[r.value], includePromoted)
    ensures r.Some? ==> forall j :: r.value < j < n ==> !LatestCandidate(entries[j], includePromoted)
    ensures r.None? ==> forall j :: 0 <= j < n ==> !LatestCandidate(entries[j], includePromoted)
  {
    if n == 0 then None
    else if LatestCandidate(entries[n - 1], includePromoted) then Some(n - 1)
    else LastCandidate(entries, includePromoted, n - 1)
  }

  /** The indices of the entries a run scores, in ascending order. */
  function PickEntries(entries: seq<Submission>, sel: Selection): (r: seq<nat>)
    ensures forall i :: 0 <= i < |r| ==> r[i] < |entries|
    ensures forall i, j :: 0 <= i < j < |r| ==> r[i] < r[j]
    ensures !sel.Latest? ==> forall k :: 0 <= k < |entries| ==> (k in r <==> Picked(entries[k], sel))
    ensures sel.Latest? ==> |r| <= 1
    ensures sel.Latest? && r == [] ==> forall k :: 0 <= k < |entries| ==> !LatestCandidate(entries[k], sel.includePromoted)
    ensures sel.Latest? && |r| == 1 ==>
      LatestCandidate(entries[r[0]], sel.includePromoted)
      && forall j :: r[0] < j < |entries| ==> !LatestCandidate(entries[j], sel.includePromoted)
  {
    match sel
    case Latest(inc) =>
      (match LastCandidate(entries, inc, |entries|)
       case None => []
       case Some(k) => [k])
    case _ => PickedBelow(entries, sel, |entries|)
  }

  // ---------------------------------------------------------------------
  // Rescoring one submission

  /** The command-line switches of a scoring run. */
  datatype ScoreOptions = ScoreOptions(
    includePromoted: bool,
    syncEquations: bool,
    useLlm: bool,
    llmModel: string,
    manualScore: int,
    threshold: int)

  /** The final score: a manual score (>= 0) clamped to 0..100, else the blend, else the heuristic total. */
  function FinalScore(heuristicScore: int, blended: Option<int>, manualScore: int): (r: int)
    ensures manualScore >= 0 ==> r == Clamp(manualScore, 0, 100) && 0 <= r <= 100
    ensures manualScore < 0 && blended.Some? ==> r == blended.value
    ensures manualScore < 0 && blended.None? ==> r == heuristicScore
  {
    if manualScore >= 0 then Clamp(manualScore, 0, 100)
    else if blended.Some? then blended.value
    else heuristicScore
  }

  /** The review's "method" tag, which names the rule that chose the final score. */
  function MethodTag(opts: ScoreOptions, blended: Option<int>): string {
    if opts.manualScore >= 0 then "manual-override"
    else if blended.Some? then "blended-v1 (" + opts.llmModel + ")"
    else "heuristic-v2"
  }

  /** What the scoring loop hands to the ranked-board sync: final metrics, the LLM reply and the blend. */
  datatype SyncMetrics = SyncMetrics(metrics: Metrics, llm: Option<LlmScores>, blended: Option<int>)

  /** The metrics of one rescoring; `reply` is what the LLM scorer returned for the entry. */
  function Rescored(e: Submission, opts: ScoreOptions, reply: Option<LlmScores>): (sm: SyncMetrics)
    ensures sm.llm == (if opts.useLlm then reply else None)
    ensures sm.blended.Some? <==> sm.llm.Some?
    ensures sm.llm.Some? ==> sm.blended == Some(Blend(Heuristic(e).score, sm.llm.value.llmTotal))
    ensures sm.metrics.score == FinalScore(Heuristic(e).score, sm.blended, opts.manualScore)
    ensures sm.metrics == Heuristic(e).(score := sm.metrics.score)
  {
    var h := Heuristic(e);
    var llm := if opts.useLlm then reply else None;
    var blended := if llm.Some? then Some(Blend(h.score, llm.value.llmTotal)) else None;
    SyncMetrics(h.(score := FinalScore(h.score, blended, opts.manualScore)), llm, blended)
  }

  /** The review a rescoring writes; it keeps the prior review's (stripped) equationId and nothing else. */
  function NewReview(e: Submission, opts: ScoreOptions, sm: SyncMetrics, today: string): Review {
    var m := sm.metrics;
    Review(
      date := Some(today),
      equationId := Strip(e.review.equationId),
      score := Some(m.score),
      heuristicScore := Some(Heuristic(e).score),
      scores := Some(Scores(m.tractability, m.plausibility, m.validation, m.artifactCompleteness, None)),
      novelty := Some(m.novelty),
      methodTag := Some(MethodTag(opts, sm.blended)),
      llmScores := sm.llm,
      llmModel := if sm.llm.Some? then Some(opts.llmModel) else None,
      blendedScore := sm.blended,
      manualScore := if opts.manualScore >= 0 then Some(opts.manualScore) else None)
  }

  predicate IsPromoted(e: Submission) {
    Lower(e.status) == "promoted"
  }

  /** A promoted entry keeps its status; any other becomes ready or needs-review by the threshold. */
  function NewStatus(e: Submission, opts: ScoreOptions, finalScore: int): (s: string)
    ensures IsPromoted(e) ==> s == e.status
    ensures !IsPromoted(e) ==> (s == "ready" <==> finalScore >= opts.threshold)
    ensures !IsPromoted(e) ==> (s == "needs-review" <==> finalScore < opts.threshold)
  {
    if IsPromoted(e) then e.status
    else if finalScore >= opts.threshold then "ready"
    else "needs-review"
  }

  /** The entry after its own rescoring, before any sync. */
  function RescoredEntry(e: Submission, opts: ScoreOptions, reply: Option<LlmScores>, today: string): Submission {
    var sm := Rescored(e, opts, reply);
    e.(review := NewReview(e, opts, sm, today), status := NewStatus(e, opts, sm.metrics.score))
  }

  /** A promoted entry is skipped unless --include-promoted is given. */
  predicate Skipped(e: Submission, opts: ScoreOptions) {
    IsPromoted(e) && !opts.includePromoted
  }

  /**
   * What a rescored entry says: the review's score follows the precedence
   * rule, its method names that rule, the prior equationId is kept, and the
   * status moves only for a submission that is not promoted.
   */
  lemma RescoredEntryFacts(e: Submission, opts: ScoreOptions, reply: Option<LlmScores>, today: string)
    ensures var r := RescoredEntry(e, opts, reply, today);
      var h := Heuristic(e).score;
      && r.review.equationId == Strip(e.review.equationId)
      && r.review.heuristicScore == Some(h)
      && (opts.manualScore >= 0 ==> r.review.score == Some(Clamp(opts.manualScore, 0, 100))
                                    && r.review.methodTag == Some("manual-override"))
      && (opts.manualScore < 0 && opts.useLlm && reply.Some? ==>
            r.review.score == Some(Blend(h, reply.value.llmTotal))
            && r.review.methodTag == Some("blended-v1 (" + opts.llmModel + ")"))
      && (opts.manualScore < 0 && (!opts.useLlm || reply.None?) ==>
            r.review.score == Some(h) && r.review.methodTag == Some("heuristic-v2"))
      && (IsPromoted(e) ==> r.status == e.status)
      && (!IsPromoted(e) ==> (r.status == "ready" <==> r.review.score.value >= opts.threshold))
  {
  }

  /** A text without backslashes has no LaTeX commands. */
  lemma {:induction false} NoBackslashNoCommands(s: string)
    requires forall k :: 0 <= k < |s| ==> s[k] != '\\'
    ensures Commands(s) == {}
  {
    if |s| >= 2 {
      NoBackslashNoCommands(s[1..]);
    }
  }

  /** The lower-cased "E=mc^2" holds none of the heuristic's backslash keywords ... */
  lemma EnergyMassNoCommandKeywords(low: string)
    requires low == "e=mc^2"
    ensures !Contains(low, "\\int") && !Contains(low, "\\sum")
    ensures !Contains(low, "\\frac") && !Contains(low, "\\partial") && !Contains(low, "\\nabla")
  {
    MissingCharNotContained(low, "\\int", 0);
    MissingCharNotContained(low, "\\sum", 0);
    MissingCharNotContained(low, "\\frac", 0);
    MissingCharNotContained(low, "\\partial", 0);
    MissingCharNotContained(low, "\\nabla", 0);
  }

  /** ... and none of its function names. */
  lemma EnergyMassNoFunctionNames(low: string)
    requires low == "e=mc^2"
    ensures !ContainsAny(low, ["sin", "cos", "exp", "log"])
  {
    MissingCharNotContained(low, "sin", 1);
    MissingCharNotContained(low, "cos", 1);
    MissingCharNotContained(low, "exp", 1);
    MissingCharNotContained(low, "log", 1);
    var names := ["sin", "cos", "exp", "log"];
    assert !ContainsAny(low, names[3..]) by {
      assert names[3..][1..] == [];
    }
    assert !ContainsAny(low, names[2..]) by {
      assert names[2..][1..] == names[3..];
    }
    assert !ContainsAny(low, names[1..]) by {
      assert names[1..][1..] == names[2..];
    }
  }

  /** The facts about "E=mc^2" the heuristic looks at. */
  lemma EnergyMassText(eq: string)
    requires eq == "E=mc^2"
    ensures |eq| == 6 && Lower(eq) == "e=mc^2" && Commands(eq) == {} && Contains(eq, "=")
  {
    EnergyMassLower(eq);
    EnergyMassNoBackslash(eq);
    assert StartsWith(eq[1..], "=");
  }

  lemma EnergyMassLower(eq: string)
    requires eq == "E=mc^2"
    ensures Lower(eq) == "e=mc^2"
  {
    var low := Lower(eq);
    assert low[0] == 'e' && low[1] == '=' && low[2] == 'm' && low[3] == 'c' && low[4] == '^' && low[5] == '2';
  }

  lemma EnergyMassNoBackslash(eq: string)
    requires eq == "E=mc^2"
    ensures Commands(eq) == {}
  {
    assert forall k :: 0 <= k < |eq| ==> eq[k] != '\\';
    NoBackslashNoCommands(eq);
  }

  lemma EnergyMassTractability(eq: string)
    requires eq == "E=mc^2"
    ensures RawTractability(eq) == 17
  {
    EnergyMassText(eq);
    EnergyMassNoCommandKeywords(Lower(eq));
  }

  lemma EnergyMassPlausibility(eq: string)
    requires eq == "E=mc^2"
    ensures RawPlausibility(eq) == 16
  {
    EnergyMassText(eq);
    EnergyMassNoCommandKeywords(Lower(eq));
    EnergyMassNoFunctionNames(Lower(eq));
  }

  lemma PlannedNotDone(status: string)
    requires status == "planned"
    ensures !StatusDone(status)
  {
    LowerNoUpper(status);
  }

  lemma BareValidation(e: Submission)
    requires e.assumptions == [] && e.evidence == []
    ensures RawValidation(e) == 8
  {
  }

  lemma BareArtifact(e: Submission)
    requires !StatusDone(e.animation.status) && !StatusDone(e.image.status)
    ensures RawArtifact(e) == 4
  {
  }

  lemma BareNovelty(e: Submission)
    requires Commands(e.equationLatex) == {} && e.assumptions == [] && e.evidence == []
    ensures RawNovelty(e) == 16
  {
  }

  /** "E=mc^2" with no assumptions or evidence and planned artifacts scores 17+16+8+4+16 = 61. */
  lemma EnergyMassHeuristic(e: Submission)
    requires e.equationLatex == "E=mc^2" && e.assumptions == [] && e.evidence == []
    requires e.animation.status == "planned" && e.image.status == "planned"
    ensures Heuristic(e) == Metrics(17, 16, 8, 4, 16, 61)
  {
    HeuristicRange(e);
    EnergyMassTractability(e.equationLatex);
    EnergyMassPlausibility(e.equationLatex);
    EnergyMassText(e.equationLatex);
    BareValidation(e);
    PlannedNotDone(e.animation.status);
    PlannedNotDone(e.image.status);
    BareArtifact(e);
    BareNovelty(e);
  }

  lemma PromotedStatusIsPromoted(e: Submission)
    requires e.status == "promoted"
    ensures IsPromoted(e)
  {
    LowerNoUpper(e.status);
  }

  lemma PendingNotPromoted(e: Submission)
    requires e.status == "pending"
    ensures !IsPromoted(e)
  {
    LowerNoUpper(e.status);
  }

  /** Under the default threshold 65 that submission is sent to review. */
  lemma EnergyMassNeedsReview(e: Submission, opts: ScoreOptions, today: string)
    requires e.equationLatex == "E=mc^2" && e.assumptions == [] && e.evidence == []
    requires e.animation.status == "planned" && e.image.status == "planned" && e.status == "pending"
    requires opts.manualScore < 0 && !opts.useLlm && opts.threshold == 65
    ensures RescoredEntry(e, opts, None, today).status == "needs-review"
  {
    EnergyMassHeuristic(e);
    PendingNotPromoted(e);
    var sm := Rescored(e, opts, None);
    assert sm.metrics.score == 61;
    assert RescoredEntry(e, opts, None, today).status == NewStatus(e, opts, sm.metrics.score);
  }

  // ---------------------------------------------------------------------
  // Syncing a promoted submission's score to the ranked board

  /** The key a ranked row is looked up by: its stripped name or its stripped id. */
  function RowKey(row: RankedRecord, byName: bool): string {
    Strip(if byName then row.name else row.id)
  }

  /** The first row at or after `from` whose key is `key`. */
  function FindRow(rows: seq<RankedRecord>, byName: bool, key: string, from: nat): (r: Option<nat>)
    requires from <= |rows|
    decreases |rows| - from
    ensures r.Some? ==> from <= r.value < |rows| && RowKey(rows[r.value], byName) == key
    ensures r.Some? ==> forall j :: from <= j < r.value ==> RowKey(rows[j], byName) != key
    ensures r.None? ==> forall j :: from <= j < |rows| ==> RowKey(rows[j], byName) != key
  {
    if from == |rows| then None
    else
      var here := RowKey(rows[from], byName);
      if here == key then Some(from) else FindRow(rows, byName, key, from + 1)
  }

  /**
   * The ranked id a submission resolves to: its review's equationId, or,
   * only when that is blank, the id of the first row with the same name;
   * "" when neither resolves.
   */
  function ResolvedId(rows: seq<RankedRecord>, sub: Submission): (id: string)
    ensures Strip(sub.review.equationId) != [] ==> id == Strip(sub.review.equationId)
    ensures Strip(sub.review.equationId) == [] && FindRow(rows, true, Strip(sub.name), 0).None? ==> id == []
    ensures Strip(sub.review.equationId) == [] && FindRow(rows, true, Strip(sub.name), 0).Some? ==>
      id == Strip(rows[FindRow(rows, true, Strip(sub.name), 0).value].id)
  {
    var own := Strip(sub.review.equationId);
    if own != [] then own
    else match FindRow(rows, true, Strip(sub.name), 0)
      case None => []
      case Some(k) => Strip(rows[k].id)
  }

  /** With no recorded id, the first row whose stripped name is the submission's gives the id. */
  lemma ResolvedIdByName(rows: seq<RankedRecord>, sub: Submission, k: nat)
    requires Strip(sub.review.equationId) == []
    requires k < |rows| && Strip(rows[k].name) == Strip(sub.name)
    requires forall j :: 0 <= j < k ==> Strip(rows[j].name) != Strip(sub.name)
    ensures ResolvedId(rows, sub) == Strip(rows[k].id)
  {
    assert RowKey(rows[k], true) == Strip(sub.name);
  }

  /** The row the sync overwrites, if any: the first whose stripped id is the resolved id. */
  function SyncTarget(rows: seq<RankedRecord>, sub: Submission): (r: Option<nat>)
    ensures r.Some? ==> r.value < |rows| && ResolvedId(rows, sub) != [] && Strip(rows[r.value].id) == ResolvedId(rows, sub)
    ensures r.Some? ==> forall j :: 0 <= j < r.value ==> Strip(rows[j].id) != ResolvedId(rows, sub)
    ensures r.None? ==> ResolvedId(rows, sub) == [] || forall j :: 0 <= j < |rows| ==> Strip(rows[j].id) != ResolvedId(rows, sub)
  {
    var id := ResolvedId(rows, sub);
    if id == [] then None else FindRow(rows, false, id, 0)
  }

  /** The row's score as written: the blend, when there is one, replaces the final score. */
  function SyncedScoreAsWritten(sm: SyncMetrics): int {
    if sm.blended.Some? then sm.blended.value else sm.metrics.score
  }

  /** The row's score as intended: the final score, manual override included. */
  function SyncedScore(sm: SyncMetrics): int {
    sm.metrics.score
  }

  /** The synced row: score, four sub-scores, the novelty tag and (when present) the LLM tag. */
  function SyncedRow(row: RankedRecord, sm: SyncMetrics, today: string): RankedRecord {
    var m := sm.metrics;
    row.(score := SyncedScore(sm),
         scores := Some(Scores(m.tractability, m.plausibility, m.validation, m.artifactCompleteness, None)),
         tags := Tags(Some(NoveltyTag(m.novelty, today)), if sm.llm.Some? then sm.llm else row.tags.llm))
  }

  /** With the corrected score, the ranked row always agrees with the review the loop wrote. */
  lemma SyncedRowAgreesWithReview(row: RankedRecord, e: Submission, opts: ScoreOptions,
                                  reply: Option<LlmScores>, today: string)
    ensures SyncedRow(row, Rescored(e, opts, reply), today).score
         == RescoredEntry(e, opts, reply, today).review.score.value
  {
  }

  /**
   * As written, a manual override together with a successful LLM reply
   * puts the blend on the ranked row while the review records the manual
   * score: "E=mc^2" (heuristic 61) with an all-20 reply blends to 84, and a
   * manual score of 90 is lost on the board.
   */
  lemma SyncedScoreAsWrittenLosesManual(e: Submission, opts: ScoreOptions, reply: LlmScores, today: string)
    requires e.equationLatex == "E=mc^2" && e.assumptions == [] && e.evidence == []
    requires e.animation.status == "planned" && e.image.status == "planned"
    requires opts.useLlm && opts.manualScore == 90 && reply.llmTotal == 100
    ensures RescoredEntry(e, opts, Some(reply), today).review.score == Some(90)
    ensures SyncedScoreAsWritten(Rescored(e, opts, Some(reply))) == 84
  {
    EnergyMassHeuristic(e);
  }

  /**
   * Writes a promoted submission's metrics back to data/equations.json:
   * the first row with the resolved id is overwritten and the review gets
   * that id; when no row resolves nothing is written.
   */
  method SyncEquationScore(ranked: RankedStore, sub: Submission, sm: SyncMetrics, today: string)
    returns (updated: bool, sub': Submission)
    modifies ranked
    ensures updated <==> SyncTarget(old(ranked.entries), sub).Some?
    ensures updated ==>
      var k := SyncTarget(old(ranked.entries), sub).value;
      && ranked.entries == old(ranked.entries)[k := SyncedRow(old(ranked.entries)[k], sm, today)]
      && ranked.lastUpdated == today
      && sub' == sub.(review := sub.review.(equationId := ResolvedId(old(ranked.entries), sub)))
    ensures !updated ==> ranked.entries == old(ranked.entries) && ranked.lastUpdated == old(ranked.lastUpdated) && sub' == sub
  {
    var rows := ranked.entries;
    var eqId := Strip(sub.review.equationId);
    if eqId == [] {
      var subName := Strip(sub.name);
      var i := 0;
      while i < |rows|
        invariant 0 <= i <= |rows|
        invariant FindRow(rows, true, subName, 0) == FindRow(rows, true, subName, i)
      {
        if Strip(rows[i].name) == subName {
          eqId := Strip(rows[i].id);
          break;
        }
        i := i + 1;
      }
      if eqId == [] {
        return false, sub;
      }
    }
    assert eqId == ResolvedId(rows, sub);
    var k := 0;
    while k < |rows| && Strip(rows[k].id) != eqId
      invariant 0 <= k <= |rows|
      invariant FindRow(rows, false, eqId, 0) == FindRow(rows, false, eqId, k)
    {
      k := k + 1;
    }
    if k == |rows| {
      return false, sub;
    }
    ranked.entries := rows[k := SyncedRow(rows[k], sm, today)];
    ranked.lastUpdated := today;
    updated := true;
    sub' := sub.(review := sub.review.(equationId := eqId));
  }

  // ---------------------------------------------------------------------
  // The scoring loop

  /** The state the scoring loop threads: both documents and the two counters. */
  datatype Boards = Boards(
    subs: seq<Submission>,
    rows: seq<RankedRecord>,
    rowsUpdated: string,
    scored: nat,
    synced: nat)

  /** Every target is an index of the submissions. */
  predicate InRange(targets: seq<nat>, n: nat) {
    forall i :: 0 <= i < |targets| ==> targets[i] < n
  }

  /** No target occurs twice. */
  predicate Distinct(targets: seq<nat>) {
    forall p, q :: 0 <= p < q < |targets| ==> targets[p] != targets[q]
  }

  /** One iteration of the loop, on entry `k`; `replies[k]` is the LLM scorer's outcome for it. */
  function ScoreOne(b: Boards, k: nat, opts: ScoreOptions, replies: seq<Option<LlmScores>>, today: string): (r: Boards)
    requires k < |b.subs| == |replies|
    ensures |r.subs| == |b.subs| && |r.rows| == |b.rows|
  {
    var e := b.subs[k];
    if Skipped(e, opts) then b
    else
      Advance(b, k, RescoredEntry(e, opts, replies[k], today), Rescored(e, opts, replies[k]),
              IsPromoted(e) && opts.syncEquations, today)
  }

  /**
   * The rest of an iteration once entry `k` is rescored to `e1`: store it,
   * count it, and when `sync` holds write `sm` to the ranked row it
   * resolves to.
   */
  function Advance(b: Boards, k: nat, e1: Submission, sm: SyncMetrics, sync: bool, today: string): (r: Boards)
    requires k < |b.subs|
    ensures |r.subs| == |b.subs| && |r.rows| == |b.rows|
  {
    if sync then
      match SyncTarget(b.rows, e1)
      case None => b.(subs := b.subs[k := e1], scored := b.scored + 1)
      case Some(j) =>
        var e2 := e1.(review := e1.review.(equationId := ResolvedId(b.rows, e1)));
        Boards(b.subs[k := e2], b.rows[j := SyncedRow(b.rows[j], sm, today)], today, b.scored + 1, b.synced + 1)
    else b.(subs := b.subs[k := e1], scored := b.scored + 1)
  }

  /** The loop over `targets`, in order. */
  function ScoreAll(b: Boards, targets: seq<nat>, opts: ScoreOptions, replies: seq<Option<LlmScores>>, today: string): (r: Boards)
    requires |b.subs| == |replies| && InRange(targets, |b.subs|)
    ensures |r.subs| == |b.subs| && |r.rows| == |b.rows|
    decreases |targets|
  {
    if targets == [] then b
    else
      var mid := ScoreAll(b, targets[..|targets| - 1], opts, replies, today);
      ScoreOne(mid, targets[|targets| - 1], opts, replies, today)
  }

  /** The entry with its review's equationId cleared: what a sync may change is set aside. */
  function Forget(e: Submission): Submission {
    e.(review := e.review.(equationId := []))
  }

  /** What becomes of entry `e` when the loop reaches it, up to the equationId a sync may set. */
  function Processed(e: Submission, opts: ScoreOptions, reply: Option<LlmScores>, today: string): Submission {
    if Skipped(e, opts) then e else RescoredEntry(e, opts, reply, today)
  }

  /** One iteration touches only its own entry ... */
  lemma ScoreOneOthers(b: Boards, k: nat, opts: ScoreOptions, replies: seq<Option<LlmScores>>, today: string, j: nat)
    requires k < |b.subs| == |replies| && j < |b.subs| && j != k
    ensures ScoreOne(b, k, opts, replies, today).subs[j] == b.subs[j]
  {
  }

  /** ... which becomes its own rescoring, up to the equationId. */
  lemma ScoreOneSelf(b: Boards, k: nat, opts: ScoreOptions, replies: seq<Option<LlmScores>>, today: string)
    requires k < |b.subs| == |replies|
    ensures Forget(ScoreOne(b, k, opts, replies, today).subs[k]) == Forget(Processed(b.subs[k], opts, replies[k], today))
  {
  }

  /** Entries that are not targets are never changed. */
  lemma {:induction false} ScoreAllLeavesOthers(b: Boards, targets: seq<nat>, opts: ScoreOptions,
                                                 replies: seq<Option<LlmScores>>, today: string, j: nat)
    requires |b.subs| == |replies| && InRange(targets, |b.subs|) && j < |b.subs|
    requires forall i :: 0 <= i < |targets| ==> targets[i] != j
    ensures ScoreAll(b, targets, opts, replies, today).subs[j] == b.subs[j]
  {
    if targets != [] {
      var front := targets[..|targets| - 1];
      ScoreAllLeavesOthers(b, front, opts, replies, today, j);
      ScoreOneOthers(ScoreAll(b, front, opts, replies, today), targets[|targets| - 1], opts, replies, today, j);
    }
  }

  /**
   * Each target, occurring once, ends up as its own rescoring (or as it was,
   * when skipped), whatever the other targets did; only the equationId may
   * differ, set by a sync.
   */
  lemma {:induction false} ScoreAllOnTarget(b: Boards, targets: seq<nat>, opts: ScoreOptions,
                                            replies: seq<Option<LlmScores>>, today: string, p: nat)
    requires |b.subs| == |replies| && InRange(targets, |b.subs|) && Distinct(targets)
    requires p < |targets|
    ensures Forget(ScoreAll(b, targets, opts, replies, today).subs[targets[p]])
         == Forget(Processed(b.subs[targets[p]], opts, replies[targets[p]], today))
  {
    var front := targets[..|targets| - 1];
    var last := targets[|targets| - 1];
    var j := targets[p];
    var mid := ScoreAll(b, front, opts, replies, today);
    if p == |targets| - 1 {
      ScoreAllLeavesOthers(b, front, opts, replies, today, j);
      ScoreOneSelf(mid, j, opts, replies, today);
    } else {
      assert front[p] == j;
      ScoreAllOnTarget(b, front, opts, replies, today, p);
      ScoreOneOthers(mid, last, opts, replies, today, j);
    }
  }

  /** Without --include-promoted and --sync-equations together, the ranked board is untouched. */
  lemma {:induction false} ScoreAllKeepsBoard(b: Boards, targets: seq<nat>, opts: ScoreOptions,
                                              replies: seq<Option<LlmScores>>, today: string)
    requires |b.subs| == |replies| && InRange(targets, |b.subs|)
    requires !(opts.includePromoted && opts.syncEquations)
    ensures ScoreAll(b, targets, opts, replies, today).rows == b.rows
    ensures ScoreAll(b, targets, opts, replies, today).rowsUpdated == b.rowsUpdated
    ensures ScoreAll(b, targets, opts, replies, today).synced == b.synced
  {
    if targets != [] {
      ScoreAllKeepsBoard(b, targets[..|targets| - 1], opts, replies, today);
    }
  }

  /** One iteration of the scoring loop, on entry `k`. */
  method ScoreStep(subs: SubmissionStore, ranked: RankedStore, k: nat, opts: ScoreOptions,
                   replies: seq<Option<LlmScores>>, today: string, count: nat, eqSync: nat)
    returns (count': nat, eqSync': nat)
    requires k < |subs.entries| == |replies|
    modifies subs, ranked
    ensures Boards(subs.entries, ranked.entries, ranked.lastUpdated, count', eqSync')
         == ScoreOne(Boards(old(subs.entries), old(ranked.entries), old(ranked.lastUpdated), count, eqSync),
                     k, opts, replies, today)
    ensures subs.lastUpdated == old(subs.lastUpdated)
  {
    var e := subs.entries[k];
    if Skipped(e, opts) {
      return count, eqSync;
    }
    var sm := Rescored(e, opts, replies[k]);
    var e1 := RescoredEntry(e, opts, replies[k], today);
    count', eqSync' := AdvanceStep(subs, ranked, k, e1, sm, IsPromoted(e) && opts.syncEquations, today, count, eqSync);
  }

  /** The rest of one iteration, as Advance states it. */
  method AdvanceStep(subs: SubmissionStore, ranked: RankedStore, k: nat, e1: Submission, sm: SyncMetrics,
                     sync: bool, today: string, count: nat, eqSync: nat)
    returns (count': nat, eqSync': nat)
    requires k < |subs.entries|
    modifies subs, ranked
    ensures Boards(subs.entries, ranked.entries, ranked.lastUpdated, count', eqSync')
         == Advance(Boards(old(subs.entries), old(ranked.entries), old(ranked.lastUpdated), count, eqSync),
                    k, e1, sm, sync, today)
    ensures subs.lastUpdated == old(subs.lastUpdated)
  {
    subs.entries := subs.entries[k := e1];
    count', eqSync' := count + 1, eqSync;
    if sync {
      var synced, e2 := SyncEquationScore(ranked, e1, sm, today);
      if synced {
        subs.entries := subs.entries[k := e2];
        eqSync' := eqSync' + 1;
      }
    }
  }

  /** The scoring loop over the picked targets, threading both documents. */
  method ScoreTargets(subs: SubmissionStore, ranked: RankedStore, targets: seq<nat>, opts: ScoreOptions,
                      replies: seq<Option<LlmScores>>, today: string)
    returns (count: nat, eqSync: nat)
    requires |subs.entries| == |replies| && InRange(targets, |subs.entries|)
    modifies subs, ranked
    ensures var r := ScoreAll(Boards(old(subs.entries), old(ranked.entries), old(ranked.lastUpdated), 0, 0),
                              targets, opts, replies, today);
      && subs.entries == r.subs && ranked.entries == r.rows && ranked.lastUpdated == r.rowsUpdated
      && count == r.scored && eqSync == r.synced
    ensures subs.lastUpdated == today
  {
    ghost var b0 := Boards(subs.entries, ranked.entries, ranked.lastUpdated, 0, 0);
    count, eqSync := 0, 0;
    var i := 0;
    while i < |targets|
      invariant 0 <= i <= |targets|
      invariant |b0.subs| == |replies|
      invariant InRange(targets[..i], |b0.subs|)
      invariant Boards(subs.entries, ranked.entries, ranked.lastUpdated, count, eqSync)
             == ScoreAll(b0, targets[..i], opts, replies, today)
    {
      assert targets[..i + 1][..i] == targets[..i];
      count, eqSync := ScoreStep(subs, ranked, targets[i], opts, replies, today, count, eqSync);
      i := i + 1;
    }
    assert targets[..|targets|] == targets;
    subs.lastUpdated := today;
  }

  /** Why a scoring run stops before it writes anything. */
  datatype ScoreError = MissingApiKey | NoMatchingSubmission

  /**
   * A whole scoring run: the API-key check, the pick, then the loop. On
   * either error neither document changes.
   */
  method ScoreMain(subs: SubmissionStore, ranked: RankedStore, submissionIdArg: string, allPending: bool,
                   opts: ScoreOptions, apiKeySet: bool, replies: seq<Option<LlmScores>>, today: string)
    returns (r: Result<(nat, nat), ScoreError>)
    requires |subs.entries| == |replies|
    modifies subs, ranked
    ensures opts.useLlm && !apiKeySet ==> r == Failure(MissingApiKey)
    ensures var targets := PickEntries(old(subs.entries), SelectionOf(submissionIdArg, allPending, opts.includePromoted));
      && (!(opts.useLlm && !apiKeySet) && targets == [] ==> r == Failure(NoMatchingSubmission))
      && (!(opts.useLlm && !apiKeySet) && targets != [] ==> r.Success?)
      && (r.Success? ==>
            var b := ScoreAll(Boards(old(subs.entries), old(ranked.entries), old(ranked.lastUpdated), 0, 0),
                              targets, opts, replies, today);
            && subs.entries == b.subs && ranked.entries == b.rows && r.value == (b.scored, b.synced)
            && subs.lastUpdated == today && ranked.lastUpdated == b.rowsUpdated)
    ensures r.Failure? ==> subs.entries == old(subs.entries) && ranked.entries == old(ranked.entries)
    ensures r.Failure? ==> subs.lastUpdated == old(subs.lastUpdated) && ranked.lastUpdated == old(ranked.lastUpdated)
  {
    if opts.useLlm && !apiKeySet {
      return Failure(MissingApiKey);
    }
    var targets := PickEntries(subs.entries, SelectionOf(submissionIdArg, allPending, opts.includePromoted));
    if targets == [] {
      return Failure(NoMatchingSubmission);
    }
    var count, eqSync := ScoreTargets(subs, ranked, targets, opts, replies, today);
    return Success((count, eqSync));
  }
}
