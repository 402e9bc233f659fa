/**
 * Scoring of the core equations: validation grows with the number of
 * derived equations (ranked rows and promoted submissions) that mention the
 * core concept's keywords, artifacts add to completeness, and the total is
 * the four sub-scores normalised to 100. The dry run writes nothing.
 */
module CoreScoring {
  import opened Wrappers
  import opened Text
  import opened Records
  import Scoring
  import Export

  /** Which keywords mark a derived equation as building on a core concept. */
  const KeywordMap: map<string, seq<string>> := map[
    "core-phase-ambiguity" := ["phase", "branch", "multi-valued", "2pi"],
    "core-phase-lift" := ["phase-lift", "phase lift", "resolved phase", "unwrap"],
    "core-unwrap-rule" := ["unwrap", "phase-lift", "branch-safe"],
    "core-path-continuity" := ["path continuity", "stateful phase", "resolved phase", "branch-safe"],
    "core-pr-root" := ["pr-root", "phase-resolved root", "sqrt"],
    "core-winding-parity" := ["winding", "parity", "holonomy", "z2", "z₂"],
    "core-conformal-metric" := ["conformal", "adaptive-pi", "adaptive-π", "metric", "ruler"],
    "core-adaptive-arc-length" := ["arc length", "adaptive geometry", "conformal"],
    "core-pi-a" := ["adaptive-pi", "adaptive-π", "pi_a", "πₐ", "pi-a"],
    "core-pi-a-dynamics" := ["adaptive-pi", "adaptive-π", "reinforce", "decay", "pi_a", "entropy"],
    "core-arp-ode" := ["conductance", "arp", "adaptive resistance", "g_ij", "reinforcement"],
    "core-curvature-salience" := ["curvature", "salience", "kappa"],
    "core-reinforce-decay-memory" := ["reinforce", "decay", "memory", "stimulus"],
    "core-phase-lifted-stokes" := ["stokes", "holonomy", "quantization", "phase-lift"]]

  /** The keyword list of a core id; none for an id the map does not know. */
  function Keywords(coreId: string): (ks: seq<string>)
    ensures coreId !in KeywordMap ==> ks == []
  {
    if coreId in KeywordMap then KeywordMap[coreId] else []
  }

  /** The four text fields of a derived equation that the keyword search reads. */
  datatype Derived = Derived(name: string, description: string, source: string, equationLatex: string)

  function FromRanked(r: RankedRecord): Derived {
    Derived(r.name, r.description, r.source, r.equationLatex)
  }

  function FromSubmission(s: Submission): Derived {
    Derived(s.name, s.description, s.source, s.equationLatex)
  }

  /** The derived pool: every ranked row, then every submission whose status is "promoted" in any case. */
  function Pool(ranked: seq<RankedRecord>, subs: seq<Submission>): (pool: seq<Derived>)
    ensures |pool| >= |ranked|
    ensures forall k :: 0 <= k < |ranked| ==> pool[k] == FromRanked(ranked[k])
  {
    var promoted := PromotedOnly(subs);
    seq(|ranked|, k requires 0 <= k < |ranked| => FromRanked(ranked[k])) + promoted
  }

  function PromotedOnly(subs: seq<Submission>): (r: seq<Derived>)
    ensures |r| <= |subs|
    ensures forall d :: d in r ==> exists k :: 0 <= k < |subs| && Scoring.IsPromoted(subs[k]) && d == FromSubmission(subs[k])
    ensures forall k :: 0 <= k < |subs| && Scoring.IsPromoted(subs[k]) ==> FromSubmission(subs[k]) in r
  {
    if subs == [] then []
    else
      var rest := PromotedOnly(subs[1..]);
      assert forall k :: 1 <= k < |subs| ==> subs[k] == subs[1..][k - 1];
      if Scoring.IsPromoted(subs[0]) then [FromSubmission(subs[0])] + rest else rest
  }

  /** The filter keeps document order: filtering a concatenation concatenates the filtered parts. */
  lemma {:induction false} PromotedOnlyAppend(a: seq<Submission>, b: seq<Submission>)
    ensures PromotedOnly(a + b) == PromotedOnly(a) + PromotedOnly(b)
  {
    if a != [] {
      assert (a + b)[1..] == a[1..] + b;
      PromotedOnlyAppend(a[1..], b);
    } else {
      assert a + b == b;
    }
  }

  /** The lower-cased search text: the four fields joined by spaces. */
  function SearchText(d: Derived): string {
    Lower(d.name + " " + d.description + " " + d.source + " " + d.equationLatex)
  }

  predicate Mentions(d: Derived, keywords: seq<string>) {
    exists i :: 0 <= i < |keywords| && Contains(SearchText(d), Lower(keywords[i]))
  }

  /** How many entries of the pool mention a keyword; each entry counts once. */
  function DerivCount(keywords: seq<string>, pool: seq<Derived>): (n: nat)
    ensures n <= |pool|
    ensures keywords == [] ==> n == 0
  {
    if pool == [] then 0
    else DerivCount(keywords, pool[..|pool| - 1]) + (if Mentions(pool[|pool| - 1], keywords) then 1 else 0)
  }

  /** The count over two pools is the sum of their counts: promoted submissions only add. */
  lemma {:induction false} DerivCountAppend(keywords: seq<string>, a: seq<Derived>, b: seq<Derived>)
    ensures DerivCount(keywords, a + b) == DerivCount(keywords, a) + DerivCount(keywords, b)
    decreases |b|
  {
    if b == [] {
      assert a + b == a;
    } else {
      assert (a + b)[..|a + b| - 1] == a + b[..|b| - 1];
      DerivCountAppend(keywords, a, b[..|b| - 1]);
    }
  }

  /** Every entry of the pool mentions a keyword exactly when the count is the pool's size. */
  lemma {:induction false} DerivCountFull(keywords: seq<string>, pool: seq<Derived>)
    ensures DerivCount(keywords, pool) == |pool| <==> forall k :: 0 <= k < |pool| ==> Mentions(pool[k], keywords)
  {
    if pool != [] {
      var init := pool[..|pool| - 1];
      DerivCountFull(keywords, init);
      assert forall k :: 0 <= k < |init| ==> init[k] == pool[k];
    }
  }

  /** score_core.py's counting loop, for one core id's keywords. */
  method CountDerivatives(keywords: seq<string>, pool: seq<Derived>) returns (count: nat)
    ensures count == DerivCount(keywords, pool)
  {
    if keywords == [] {
      return 0;
    }
    count := 0;
    for i := 0 to |pool|
      invariant count == DerivCount(keywords, pool[..i])
    {
      assert pool[..i + 1][..i] == pool[..i];
      var hit := false;
      var text := SearchText(pool[i]);
      for j := 0 to |keywords|
        invariant hit <==> exists q :: 0 <= q < j && Contains(text, Lower(keywords[q]))
      {
        if Contains(text, Lower(keywords[j])) {
          hit := true;
        }
      }
      if hit {
        count := count + 1;
      }
    }
    assert pool[..|pool|] == pool;
  }

  /** One artifact slot: 2 for a path or a done status, 1 in progress; a bare string counts 2 unless planned or blank. */
  function SlotScore(ref: ArtifactRef): (r: nat)
    ensures r <= 2
    ensures ref.NoArtifact? ==> r == 0
    ensures ref.ArtifactDict? && Strip(ref.artifact.path) != [] ==> r == 2
  {
    match ref
    case ArtifactDict(a) =>
      var status := Lower(a.status);
      if Strip(a.path) != [] || status in {"linked", "complete", "done"} then 2
      else if status == "in-progress" then 1
      else 0
    case ArtifactText(t) =>
      if Strip(t) != [] && Lower(Strip(t)) != "planned" then 2 else 0
    case NoArtifact => 0
  }

  /** Animation plus image, so 0..4. */
  function ArtifactScore(e: CoreRecord): (r: nat)
    ensures r <= 4
    ensures Scoring.Clamp(r, 0, 10) == r
  {
    SlotScore(e.animation) + SlotScore(e.image)
  }

  /** 4 for a theory of exactly PASS, else 2 when it mentions ASSUMPTION; 2 more for units OK. */
  function BaseValidation(theory: string, units: string): (v: nat)
    ensures v <= 6
  {
    (if Upper(theory) == "PASS" then 4 else if Contains(Upper(theory), "ASSUMPTION") then 2 else 0)
    + (if Upper(units) == "OK" then 2 else 0)
  }

  /** The derivative boost: 2 per derivative, at most 12. */
  function Boost(n: nat): (b: nat)
    ensures b <= 12 && b <= 2 * n
    ensures n <= 6 ==> b == 2 * n
  {
    Scoring.Min(12, 2 * n)
  }

  function Validation(e: CoreRecord, n: nat): int {
    Scoring.Clamp(BaseValidation(e.theory, e.units) + Boost(n), 0, 20)
  }

  /** The clamp of validation never binds: the raw value is at most 6 + 12 = 18. */
  lemma ValidationNeverClamped(e: CoreRecord, n: nat)
    ensures Validation(e, n) == BaseValidation(e.theory, e.units) + Boost(n) <= 18
  {
  }

  /** The total: round(100 * (t + p + v + a) / 70) with t and p clamped to 0..20 first. */
  function CoreTotal(e: CoreRecord, n: nat): (total: int)
    ensures 0 <= total <= 100
    ensures total == Export.NormalisedScore(
      Scoring.Clamp(e.tractability, 0, 20) + Scoring.Clamp(e.plausibility, 0, 20) + Validation(e, n) + ArtifactScore(e))
  {
    var t := Scoring.Clamp(e.tractability, 0, 20);
    var p := Scoring.Clamp(e.plausibility, 0, 20);
    var s := t + p + Validation(e, n) + Scoring.Clamp(ArtifactScore(e), 0, 10);
    ValidationNeverClamped(e, n);
    Export.NormalisedScore(s)
  }

  /** The entry with `n` derivatives: validation, artifactCompleteness, score and derivativeCount overwritten. */
  function ScoredWith(e: CoreRecord, n: nat): CoreRecord {
    e.(validation := Validation(e, n),
       artifactCompleteness := ArtifactScore(e),
       score := Some(CoreTotal(e, n)),
       derivativeCount := Some(n))
  }

  /** The entry after scoring against the pool. */
  function ScoredCore(e: CoreRecord, pool: seq<Derived>): (r: CoreRecord)
    ensures r == e.(validation := r.validation, artifactCompleteness := r.artifactCompleteness,
                    score := r.score, derivativeCount := r.derivativeCount)
    ensures 0 <= r.validation <= 18 && 0 <= r.artifactCompleteness <= 4
    ensures r.score.Some? && 0 <= r.score.value <= 100
    ensures r.derivativeCount == Some(DerivCount(Keywords(e.id), pool) as int)
    ensures var n := DerivCount(Keywords(e.id), pool);
      && r.validation == BaseValidation(e.theory, e.units) + Boost(n)
      && r.artifactCompleteness == SlotScore(e.animation) + SlotScore(e.image)
      && r.score == Some(CoreTotal(e, n))
  {
    var n := DerivCount(Keywords(e.id), pool);
    ValidationNeverClamped(e, n);
    ScoredWith(e, n)
  }

  /** Scoring is a function of the entry and the pool: scoring twice changes nothing more. */
  lemma ScoredCoreIdempotent(e: CoreRecord, pool: seq<Derived>)
    ensures ScoredCore(ScoredCore(e, pool), pool) == ScoredCore(e, pool)
  {
  }

  /**
   * The whole run on core.json: every entry is rescored against the pool,
   * in place, unless this is a dry run, in which case nothing is written.
   * `subs` is None when data/submissions.json does not exist.
   */
  method ScoreCore(store: CoreStore, ranked: seq<RankedRecord>, subs: Option<seq<Submission>>, dryRun: bool)
    returns (updated: nat)
    modifies store
    ensures updated == |old(store.entries)|
    ensures dryRun ==> store.entries == old(store.entries)
    ensures !dryRun ==> |store.entries| == |old(store.entries)|
    ensures !dryRun ==> forall k :: 0 <= k < |store.entries| ==>
      store.entries[k] == ScoredCore(old(store.entries)[k], Pool(ranked, subs.GetOr([])))
  {
    var pool := Pool(ranked, subs.GetOr([]));
    var entries := store.entries;
    var scored: seq<CoreRecord> := [];
    for i := 0 to |entries|
      invariant store.entries == entries
      invariant |scored| == i
      invariant forall k :: 0 <= k < i ==> scored[k] == ScoredCore(entries[k], pool)
    {
      var e := entries[i];
      var n := CountDerivatives(Keywords(e.id), pool);
      scored := scored + [ScoredWith(e, n)];
    }
    updated := |entries|;
    if !dryRun {
      store.entries := scored;
    }
  }
}
