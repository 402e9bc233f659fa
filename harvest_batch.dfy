/**
 * The harvest batch scorer: from the saved cursor, pick at most `batch`
 * LaTeX hits not scored before, score each with a fixed keyword
 * heuristic, and put it on the ranked board when it reaches the threshold
 * or among the scored candidates otherwise. The cursor only moves forward.
 */
module HarvestBatch {
  import opened Wrappers
  import opened Text
  import opened Slugs
  import opened Records
  import Scoring

  // ---------------------------------------------------------------------
  // Ids

  /** The harvest slug: at most 40 characters, "harvest" when nothing is left. */
  function Slug40(s: string): (r: string)
    ensures 1 <= |r| <= 40
    ensures WellFormed(r) && r[0] != '-'
  {
    assert WellFormed("harvest") by {
      assert forall k :: 0 <= k < 7 ==> IsAlnum("harvest"[k]);
    }
    Slug(s, 40, "harvest")
  }

  /** Drops the leading ASCII letters. */
  function SkipLetters(s: string): (r: string)
    ensures |r| <= |s| && r == s[|s| - |r|..]
    ensures r == [] || !Scoring.IsLetter(r[0])
  {
    if s != [] && Scoring.IsLetter(s[0]) then SkipLetters(s[1..]) else s
  }

  /** Two backslashes in a row at position `k`. */
  predicate DoubleAt(s: string, k: int)
    requires 0 <= k < |s| - 1
  {
    s[k] == '\\' && s[k + 1] == '\\'
  }

  /**
   * The pattern in score_harvest_batch.py is two literal backslashes followed by a run
   * of ASCII letters, matched left to right without overlap; each match is
   * removed. A command written with a single backslash, as LaTeX read from
   * JSON is, does not match and stays.
   */
  function DropCommands(s: string): (r: string)
    ensures |r| <= |s|
    decreases |s|
  {
    if s == [] then []
    else if |s| >= 3 && s[0] == '\\' && s[1] == '\\' && Scoring.IsLetter(s[2]) then DropCommands(SkipLetters(s[2..]))
    else [s[0]] + DropCommands(s[1..])
  }

  /** A text with no two backslashes in a row, such as single-backslash LaTeX, is left as it is. */
  lemma {:induction false} DropCommandsKeepsSingle(s: string)
    requires forall k :: 0 <= k < |s| - 1 ==> !DoubleAt(s, k)
    ensures DropCommands(s) == s
    decreases |s|
  {
    if s != [] {
      assert |s| >= 3 ==> !DoubleAt(s, 0);
      forall k | 0 <= k < |s[1..]| - 1
        ensures !DoubleAt(s[1..], k)
      {
        assert !DoubleAt(s, k + 1);
      }
      DropCommandsKeepsSingle(s[1..]);
    }
  }

  /** A doubled command word and everything up to the next non-letter is removed. */
  lemma DropCommandsRemovesDouble(word: string, rest: string)
    requires word != [] && forall k :: 0 <= k < |word| ==> Scoring.IsLetter(word[k])
    requires rest == [] || !Scoring.IsLetter(rest[0])
    ensures DropCommands(['\\', '\\'] + (word + rest)) == DropCommands(rest)
  {
    var tail := word + rest;
    var s := ['\\', '\\'] + tail;
    assert s[2..] == tail && s[2] == word[0];
    SkipWord(word, rest);
  }

  lemma {:induction false} SkipWord(word: string, rest: string)
    requires forall k :: 0 <= k < |word| ==> Scoring.IsLetter(word[k])
    requires rest == [] || !Scoring.IsLetter(rest[0])
    ensures SkipLetters(word + rest) == rest
    decreases |word|
  {
    if word == [] {
      assert word + rest == rest;
    } else {
      assert (word + rest)[1..] == word[1..] + rest;
      SkipWord(word[1..], rest);
    }
  }

  /** The ranked id of a harvested equation: doubled command words dropped, white space collapsed, slugged. */
  function SafeId(eq: string): (id: string)
    ensures 12 <= |id| <= 51
    ensures id == "eq-harvest-" + id[11..]
    ensures WellFormed(id[11..]) && id[11] != '-'
  {
    var slug := Slug40(Strip(CollapseWs(DropCommands(eq), false)));
    assert ("eq-harvest-" + slug)[11..] == slug;
    "eq-harvest-" + slug
  }

  /** A slug body of at most 40 characters is its own harvest id suffix. */
  lemma SafeIdOfSlug(t: string)
    requires IsSlugBody(t) && t != [] && |t| <= 40
    ensures SafeId(t) == "eq-harvest-" + t
  {
    assert forall k :: 0 <= k < |t| - 1 ==> !DoubleAt(t, k);
    DropCommandsKeepsSingle(t);
    assert forall k :: 0 <= k < |t| ==> !IsSpace(t[k]);
    CollapseWsNoWs(t, false);
    StrippedFixed(t);
    SlugOfSlugBody(t, 40, "harvest");
  }

  // ---------------------------------------------------------------------
  // The heuristic

  datatype HarvestScores = HarvestScores(
    total: int,
    novelty: int,
    tractability: int,
    plausibility: int,
    validation: int,
    artifactCompleteness: int)

  /** The marker lists of the heuristic; an `if` fires when the lower-cased equation contains any of them. */
  const ArpMarks: seq<string> := ["arp", "g_{ij}", "\\dot{g"]
  const PhaseMarks: seq<string> := ["theta_r", "phase", "unwrap"]
  const SumMarks: seq<string> := ["\\int", "\\sum"]
  const CalculusMarks: seq<string> := ["\\frac", "\\partial", "\\nabla"]
  const FunctionMarks: seq<string> := ["sin", "cos", "exp", "log"]

  function Novelty(eq: string, source: string): (n: int)
    ensures 8 <= n <= 27
  {
    var low := Lower(eq);
    var n := 8
      + (if Scoring.ContainsAny(low, ArpMarks) then 6 else 0)
      + (if Contains(low, "\\pi_a") || Contains(eq, "π_a") then 7 else 0)
      + (if Scoring.ContainsAny(low, PhaseMarks) then 4 else 0)
      + (if Contains(Lower(source), "canonical-core") then 2 else 0);
    Scoring.Clamp(n, 0, 30)
  }

  function Tractability(eq: string): (t: int)
    ensures 10 <= t <= 15
  {
    var low := Lower(eq);
    var t := 14
      - (if |eq| > 180 then 3 else 0)
      - (if Scoring.ContainsAny(low, SumMarks) then 1 else 0)
      + (if Contains(eq, "=") || Contains(low, "\\boxed") then 1 else 0);
    Scoring.Clamp(t, 0, 20)
  }

  function Plausibility(eq: string): (p: int)
    ensures 14 <= p <= 16
  {
    var low := Lower(eq);
    var p := 14
      + (if Scoring.ContainsAny(low, CalculusMarks) then 1 else 0)
      + (if Scoring.ContainsAny(low, FunctionMarks) then 1 else 0);
    Scoring.Clamp(p, 0, 20)
  }

  function HarvestValidation(eq: string): (v: int)
    ensures v == 4 || v == 6
    ensures v == 6 <==> Contains(eq, "=")
  {
    Scoring.Clamp(4 + (if Contains(eq, "=") then 2 else 0), 0, 20)
  }

  /** The five sub-scores and their sum; the sum is at least 36 and at most 64. */
  function Heuristic(eq: string, source: string): (sc: HarvestScores)
    ensures sc.total == sc.novelty + sc.tractability + sc.plausibility + sc.validation + sc.artifactCompleteness
    ensures sc.artifactCompleteness == 0
    ensures 8 <= sc.novelty <= 27 && 10 <= sc.tractability <= 15 && 14 <= sc.plausibility <= 16
    ensures 4 <= sc.validation <= 6
    ensures 36 <= sc.total <= 64
  {
    var n := Novelty(eq, source);
    var t := Tractability(eq);
    var p := Plausibility(eq);
    var v := HarvestValidation(eq);
    HarvestScores(n + t + p + v, n, t, p, v, 0)
  }

  /** The default threshold of the batch scorer. */
  const DefaultThreshold := 68

  // ---------------------------------------------------------------------
  // Selection from the cursor

  /** Python truthiness of an optional sha1. */
  predicate HasSha1(sha1: Option<string>) {
    sha1.Some? && sha1.value != []
  }

  /** The sha1 of every scored candidate that has one. */
  function Already(entries: seq<ScoredEntry>): (seen: set<string>)
    ensures forall k :: 0 <= k < |entries| && HasSha1(entries[k].sha1) ==> entries[k].sha1.value in seen
  {
    set k | 0 <= k < |entries| && HasSha1(entries[k].sha1) :: entries[k].sha1.value
  }

  /** A harvest entry is picked when its kind mentions latex and its sha1 was not scored before. */
  predicate Eligible(he: HarvestEntry, seen: set<string>) {
    Contains(Lower(he.kind), "latex") && !(HasSha1(he.sha1) && he.sha1.value in seen)
  }

  /** The picked harvest indices and the new cursor. */
  datatype Selection = Selection(picked: seq<nat>, next: nat)

  function Room(room: int): nat {
    if room > 0 then room else 0
  }

  /** The selection loop from index `i` with room for `room` more picks. */
  function Select(h: seq<HarvestEntry>, seen: set<string>, i: nat, room: int): (sel: Selection)
    ensures i <= sel.next
    decreases |h| - i
  {
    if i >= |h| || room <= 0 then Selection([], i)
    else if !Eligible(h[i], seen) then Select(h, seen, i + 1, room)
    else
      var rest := Select(h, seen, i + 1, room - 1);
      Selection([i] + rest.picked, rest.next)
  }

  /** The cursor stays inside the harvest and stops early only when the batch is full. */
  predicate WithinBounds(h: seq<HarvestEntry>, i: nat, room: int, sel: Selection) {
    && (i <= |h| ==> sel.next <= |h|)
    && |sel.picked| <= Room(room)
    && (sel.next < |h| ==> |sel.picked| == Room(room))
  }

  /** Every pick is an eligible index between the old and the new cursor. */
  predicate PicksEligible(h: seq<HarvestEntry>, seen: set<string>, i: nat, sel: Selection) {
    forall j :: 0 <= j < |sel.picked| ==>
      i <= sel.picked[j] < sel.next && sel.picked[j] < |h| && Eligible(h[sel.picked[j]], seen)
  }

  predicate Increasing(picked: seq<nat>) {
    forall j, j' :: 0 <= j < j' < |picked| ==> picked[j] < picked[j']
  }

  /** No eligible entry between the old and the new cursor is left out. */
  predicate SkipsNone(h: seq<HarvestEntry>, seen: set<string>, i: nat, sel: Selection) {
    forall x :: i <= x < sel.next && x < |h| && Eligible(h[x], seen) ==> x in sel.picked
  }

  /** At most `room` picks; the cursor stays in the harvest and stops early only on a full batch. */
  lemma {:induction false} SelectBounds(h: seq<HarvestEntry>, seen: set<string>, i: nat, room: int)
    ensures WithinBounds(h, i, room, Select(h, seen, i, room))
    decreases |h| - i
  {
    if i >= |h| || room <= 0 {
    } else if !Eligible(h[i], seen) {
      SelectBounds(h, seen, i + 1, room);
    } else {
      SelectBounds(h, seen, i + 1, room - 1);
    }
  }

  /** Every pick is an eligible index between the old and the new cursor, in increasing order. */
  lemma {:induction false} SelectPicked(h: seq<HarvestEntry>, seen: set<string>, i: nat, room: int)
    ensures PicksEligible(h, seen, i, Select(h, seen, i, room))
    ensures Increasing(Select(h, seen, i, room).picked)
    decreases |h| - i
  {
    if i >= |h| || room <= 0 {
    } else if !Eligible(h[i], seen) {
      SelectPicked(h, seen, i + 1, room);
    } else {
      SelectPicked(h, seen, i + 1, room - 1);
      var rest := Select(h, seen, i + 1, room - 1);
      var sel := Select(h, seen, i, room);
      assert sel.picked == [i] + rest.picked;
      assert forall j :: 1 <= j < |sel.picked| ==> sel.picked[j] == rest.picked[j - 1];
    }
  }

  /** No eligible entry between the old and the new cursor is skipped. */
  lemma {:induction false} SelectComplete(h: seq<HarvestEntry>, seen: set<string>, i: nat, room: int)
    ensures SkipsNone(h, seen, i, Select(h, seen, i, room))
    decreases |h| - i
  {
    if i >= |h| || room <= 0 {
    } else if !Eligible(h[i], seen) {
      SelectComplete(h, seen, i + 1, room);
    } else {
      SelectComplete(h, seen, i + 1, room - 1);
    }
  }

  /** The while loop over the harvest, proved against Select. */
  method SelectBatch(h: seq<HarvestEntry>, seen: set<string>, cursor: nat, batch: int) returns (picked: seq<nat>, i: nat)
    ensures Selection(picked, i) == Select(h, seen, cursor, batch)
  {
    picked := [];
    i := cursor;
    while i < |h| && |picked| < batch
      invariant cursor <= i
      invariant Select(h, seen, cursor, batch) ==
        Selection(picked + Select(h, seen, i, batch - |picked|).picked, Select(h, seen, i, batch - |picked|).next)
      decreases |h| - i
    {
      if !Eligible(h[i], seen) {
        i := i + 1;
        continue;
      }
      assert picked + ([i] + Select(h, seen, i + 1, batch - |picked| - 1).picked)
        == (picked + [i]) + Select(h, seen, i + 1, batch - |picked| - 1).picked;
      picked := picked + [i];
      i := i + 1;
    }
    assert picked + [] == picked;
  }

  // ---------------------------------------------------------------------
  // Placement

  /** The scored-candidate record of a picked entry: the stripped equation, its source and its scores. */
  function ScoredOf(he: HarvestEntry, today: string): (c: ScoredEntry)
    ensures c.equation == Strip(he.equation.GetOr(""))
    ensures c.score == Heuristic(c.equation, he.source).total && 36 <= c.score <= 64
    ensures c.kind == he.kind && c.sha1 == he.sha1 && c.lineStart == he.lineStart && c.scoredAt == today
  {
    var eq := Strip(he.equation.GetOr(""));
    var sc := Heuristic(eq, he.source);
    ScoredEntry(eq, he.kind, he.source, he.lineStart, he.sha1, today, sc.total,
      Scores(sc.tractability, sc.plausibility, sc.validation, sc.artifactCompleteness, Some(sc.novelty)))
  }

  /**
   * The id of a promoted entry: its safe id, suffixed once with "-" and at
   * most 8 characters of its sha1 when taken; the suffixed id is not
   * checked again, so it can still collide.
   */
  function HarvestId(safe: string, sha1: Option<string>, ids: set<string>): (id: string)
    ensures safe !in ids ==> id == safe
    ensures safe in ids ==> |safe| + 1 <= |id| <= |safe| + 9 && id[..|safe| + 1] == safe + "-"
    ensures safe in ids ==> id == safe + "-" + Take(sha1.GetOr(""), 8)
  {
    if safe in ids then safe + "-" + Take(sha1.GetOr(""), 8) else safe
  }

  /** The name and description every promoted candidate gets. */
  const CandidateName := "Harvest candidate (auto-scored)"
  const CandidateDescription := "Auto-promoted from harvest after heuristic scoring (review recommended)."

  /** The ranked record of a promoted candidate. */
  function RankedOf(c: ScoredEntry, id: string, today: string): (r: RankedRecord)
    ensures r.id == id && r.score == c.score && r.equationLatex == c.equation
    ensures r.source == "harvest: " + c.source && r.animation == Planned && r.image == Planned
  {
    RankedRecord(
      id := id,
      name := CandidateName,
      firstSeen := today,
      source := "harvest: " + c.source,
      submitter := None,
      repoUrl := None,
      score := c.score,
      scores := Some(c.scores),
      units := "TBD",
      theory := "TBD",
      animation := Planned,
      image := Planned,
      description := CandidateDescription,
      assumptions := [],
      date := today,
      equationLatex := c.equation,
      tags := Tags(None, None))
  }

  /** The candidate records of the picked entries, in pick order. */
  function Candidates(items: seq<HarvestEntry>, today: string): (cands: seq<ScoredEntry>)
    ensures |cands| == |items|
    ensures forall j :: 0 <= j < |items| ==> cands[j] == ScoredOf(items[j], today) && cands[j].score <= 64
  {
    seq(|items|, j requires 0 <= j < |items| => ScoredOf(items[j], today))
  }

  /** The ranked board, the candidates and the taken ids after placing some picked entries. */
  datatype Placed = Placed(ranked: seq<RankedRecord>, scored: seq<ScoredEntry>, ids: set<string>)

  /**
   * One candidate placed: at or above the threshold it goes onto the
   * ranked board under HarvestId of its safe id and that id is recorded as taken; below it
   * it is appended to the scored candidates.
   */
  function PlaceOne(c: ScoredEntry, threshold: int, today: string, acc: Placed): (r: Placed)
    ensures c.score < threshold ==> r == acc.(scored := acc.scored + [c])
    ensures c.score >= threshold ==> r.scored == acc.scored && |r.ranked| == |acc.ranked| + 1
    ensures c.score >= threshold ==> r.ranked[..|acc.ranked|] == acc.ranked && r.ranked[|acc.ranked|].id in r.ids
    ensures acc.ids <= r.ids
  {
    if c.score >= threshold then
      var id := HarvestId(SafeId(c.equation), c.sha1, acc.ids);
      var r := Placed(acc.ranked + [RankedOf(c, id, today)], acc.scored, acc.ids + {id});
      assert r.ranked[..|acc.ranked|] == acc.ranked;
      r
    else
      acc.(scored := acc.scored + [c])
  }

  /** The promotion loop over the candidates, in order. */
  function Place(cands: seq<ScoredEntry>, threshold: int, today: string, acc: Placed): Placed
    decreases |cands|
  {
    if cands == [] then acc
    else Place(cands[1..], threshold, today, PlaceOne(cands[0], threshold, today, acc))
  }

  /** The candidates below the threshold, in order. */
  function Below(cands: seq<ScoredEntry>, threshold: int): (r: seq<ScoredEntry>)
    ensures |r| <= |cands|
    ensures forall k :: 0 <= k < |r| ==> r[k].score < threshold
  {
    if cands == [] then []
    else if cands[0].score < threshold then [cands[0]] + Below(cands[1..], threshold)
    else Below(cands[1..], threshold)
  }

  /** How many candidates reach the threshold; with Below, every candidate is accounted for once. */
  function AboveCount(cands: seq<ScoredEntry>, threshold: int): (n: nat)
    ensures n + |Below(cands, threshold)| == |cands|
  {
    if cands == [] then 0
    else (if cands[0].score >= threshold then 1 else 0) + AboveCount(cands[1..], threshold)
  }

  /** The candidates below the threshold are appended, in order, to those already there. */
  lemma {:induction false} PlaceScored(cands: seq<ScoredEntry>, threshold: int, today: string, acc: Placed)
    ensures Place(cands, threshold, today, acc).scored == acc.scored + Below(cands, threshold)
    decreases |cands|
  {
    if cands == [] {
      assert acc.scored + [] == acc.scored;
    } else {
      var next := PlaceOne(cands[0], threshold, today, acc);
      PlaceScored(cands[1..], threshold, today, next);
      if cands[0].score < threshold {
        assert next.scored + Below(cands[1..], threshold) == acc.scored + Below(cands, threshold);
      }
    }
  }

  /** One ranked record is appended per promotion, after the records already there. */
  lemma {:induction false} PlaceRanked(cands: seq<ScoredEntry>, threshold: int, today: string, acc: Placed)
    ensures |Place(cands, threshold, today, acc).ranked| == |acc.ranked| + AboveCount(cands, threshold)
    ensures Place(cands, threshold, today, acc).ranked[..|acc.ranked|] == acc.ranked
    decreases |cands|
  {
    if cands != [] {
      var next := PlaceOne(cands[0], threshold, today, acc);
      PlaceRanked(cands[1..], threshold, today, next);
      var r := Place(cands[1..], threshold, today, next).ranked;
      assert r[..|acc.ranked|] == r[..|next.ranked|][..|acc.ranked|];
    }
  }

  /** Candidates all below the threshold are all kept as candidates. */
  lemma {:induction false} AllBelow(cands: seq<ScoredEntry>, threshold: int)
    requires forall k :: 0 <= k < |cands| ==> cands[k].score < threshold
    ensures Below(cands, threshold) == cands && AboveCount(cands, threshold) == 0
  {
    if cands != [] {
      AllBelow(cands[1..], threshold);
      assert [cands[0]] + cands[1..] == cands;
    }
  }

  /** Above the largest heuristic total nothing is promoted: every picked entry becomes a candidate. */
  lemma HighThresholdPromotesNothing(items: seq<HarvestEntry>, threshold: int, today: string, acc: Placed)
    requires threshold > 64
    ensures Place(Candidates(items, today), threshold, today, acc).ranked == acc.ranked
    ensures Place(Candidates(items, today), threshold, today, acc).scored == acc.scored + Candidates(items, today)
  {
    var cands := Candidates(items, today);
    AllBelow(cands, threshold);
    PlaceScored(cands, threshold, today, acc);
    PlaceRanked(cands, threshold, today, acc);
  }

  /** In particular the default threshold 68 never promotes a harvested entry. */
  lemma DefaultThresholdPromotesNothing(items: seq<HarvestEntry>, today: string, acc: Placed)
    ensures Place(Candidates(items, today), DefaultThreshold, today, acc).ranked == acc.ranked
    ensures |Place(Candidates(items, today), DefaultThreshold, today, acc).scored| == |acc.scored| + |items|
  {
    HighThresholdPromotesNothing(items, DefaultThreshold, today, acc);
  }

  /** Every id on the board is among the taken ids, before and after the run. */
  predicate IdsRecorded(p: Placed) {
    forall k :: 0 <= k < |p.ranked| ==> p.ranked[k].id in p.ids
  }

  /** A promoted id is added to the taken ids, so later collisions see it. */
  lemma {:induction false} PromotedIdsRecorded(cands: seq<ScoredEntry>, threshold: int, today: string, acc: Placed)
    requires IdsRecorded(acc)
    ensures IdsRecorded(Place(cands, threshold, today, acc))
    decreases |cands|
  {
    if cands != [] {
      var next := PlaceOne(cands[0], threshold, today, acc);
      assert IdsRecorded(next);
      PromotedIdsRecorded(cands[1..], threshold, today, next);
    }
  }

  /** The picked harvest entries, in pick order. */
  function Items(h: seq<HarvestEntry>, picked: seq<nat>): (items: seq<HarvestEntry>)
    requires forall j :: 0 <= j < |picked| ==> picked[j] < |h|
    ensures |items| == |picked|
    ensures forall j :: 0 <= j < |picked| ==> items[j] == h[picked[j]]
  {
    seq(|picked|, j requires 0 <= j < |picked| => h[picked[j]])
  }

  /** Placing from position `i` is placing candidate `i`, then the rest. */
  lemma PlaceStep(cands: seq<ScoredEntry>, i: nat, threshold: int, today: string, acc: Placed)
    requires i < |cands|
    ensures Place(cands[i..], threshold, today, acc)
         == Place(cands[i + 1..], threshold, today, PlaceOne(cands[i], threshold, today, acc))
    ensures AboveCount(cands[i..], threshold)
         == (if cands[i].score >= threshold then 1 else 0) + AboveCount(cands[i + 1..], threshold)
  {
    assert cands[i..][1..] == cands[i + 1..];
  }

  /** The promotion loop over the picked entries, proved against Place. */
  method PlaceAll(items: seq<HarvestEntry>, threshold: int, today: string, acc: Placed) returns (r: Placed, promotions: nat)
    ensures r == Place(Candidates(items, today), threshold, today, acc)
    ensures promotions == AboveCount(Candidates(items, today), threshold)
  {
    var cands := Candidates(items, today);
    r := acc;
    promotions := 0;
    for i := 0 to |items|
      invariant Place(cands, threshold, today, acc) == Place(cands[i..], threshold, today, r)
      invariant AboveCount(cands, threshold) == promotions + AboveCount(cands[i..], threshold)
    {
      PlaceStep(cands, i, threshold, today, r);
      var c := ScoredOf(items[i], today);
      r := PlaceOne(c, threshold, today, r);
      if c.score >= threshold {
        promotions := promotions + 1;
      }
    }
    assert cands[|items|..] == [];
  }

  /**
   * One run: select from the cursor, place the picks, move the cursor,
   * touch the ranked board only when something was promoted, and set
   * stats.count to the number of candidates.
   */
  method ScoreBatch(harvest: seq<HarvestEntry>, scored: ScoredStore, ranked: RankedStore, batch: int, threshold: int, today: string)
    returns (promotions: nat)
    modifies scored, ranked
    ensures var sel := Select(harvest, Already(old(scored.entries)), old(scored.cursor), batch);
      && scored.cursor == sel.next
      && PicksEligible(harvest, Already(old(scored.entries)), old(scored.cursor), sel)
      && var r := Place(Candidates(Items(harvest, sel.picked), today), threshold, today,
                        Placed(old(ranked.entries), old(scored.entries), RowIds(old(ranked.entries))));
      && scored.entries == r.scored
      && (promotions > 0 ==> ranked.entries == r.ranked && ranked.lastUpdated == today)
      && (promotions == 0 ==> ranked.entries == old(ranked.entries) && ranked.lastUpdated == old(ranked.lastUpdated))
    ensures old(scored.cursor) <= scored.cursor
    ensures scored.lastUpdated == today && scored.statsCount == Some(|scored.entries|)
  {
    var seen := Already(scored.entries);
    var picked, next := SelectBatch(harvest, seen, scored.cursor, batch);
    SelectPicked(harvest, seen, scored.cursor, batch);
    scored.cursor := next;
    scored.lastUpdated := today;
    var r;
    r, promotions := PlaceAll(Items(harvest, picked), threshold, today,
                              Placed(ranked.entries, scored.entries, RowIds(ranked.entries)));
    scored.entries := r.scored;
    if promotions > 0 {
      ranked.entries := r.ranked;
      ranked.lastUpdated := today;
    }
    scored.statsCount := Some(|scored.entries|);
  }


}
