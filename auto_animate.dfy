/**
 * Choosing the next equation to animate and shortening its description for
 * the scene: an entry whose stripped animation path is empty still needs an
 * animation; the phase-coupled law goes first when it does.
 */
module AutoAnimate {
  import opened Wrappers
  import opened Text
  import opened Records

  /** Ids animated ahead of the board order while they have no animation. */
  const PriorityIds: seq<string> := ["eq-arp-phase-critical-collapse"]

  /** The description length used for the scene. */
  const DefaultMaxLen: int := 120

  const Ellipsis: char := '\U{2026}'

  /** The entry's animation path is empty once stripped. */
  predicate Unanimated(e: RankedRecord) {
    Strip(e.animation.path) == []
  }

  /** The position of the first entry satisfying `p`, or None when there is none. */
  function FirstWhere(entries: seq<RankedRecord>, p: RankedRecord -> bool): (r: Option<nat>)
    ensures r.Some? ==> r.value < |entries| && p(entries[r.value])
    ensures r.Some? ==> forall k :: 0 <= k < r.value ==> !p(entries[k])
    ensures r.None? ==> forall k :: 0 <= k < |entries| ==> !p(entries[k])
  {
    if entries == [] then None
    else if p(entries[0]) then Some(0)
    else match FirstWhere(entries[1..], p)
      case None => None
      case Some(i) => Some(i + 1)
  }

  /** An unanimated entry carrying the id `id`. */
  predicate PendingWithId(e: RankedRecord, id: string) {
    e.id == id && Unanimated(e)
  }

  /**
   * The position picked: for each priority id in turn the first unanimated
   * entry with that id, and failing all of them the first unanimated entry.
   */
  function PickFrom(entries: seq<RankedRecord>, priorityIds: seq<string>): Option<nat> {
    if priorityIds == [] then FirstWhere(entries, Unanimated)
    else
      match FirstWhere(entries, e => PendingWithId(e, priorityIds[0]))
      case Some(i) => Some(i)
      case None => PickFrom(entries, priorityIds[1..])
  }

  /** The entry to animate next, if any. */
  function PickEntry(entries: seq<RankedRecord>): Option<RankedRecord> {
    match PickFrom(entries, PriorityIds)
    case None => None
    case Some(i) => if i < |entries| then Some(entries[i]) else None
  }

  /** Whatever the priority list, a picked position holds an unanimated entry. */
  lemma {:induction false} PickFromSound(entries: seq<RankedRecord>, priorityIds: seq<string>)
    ensures var r := PickFrom(entries, priorityIds);
      r.Some? ==> r.value < |entries| && Unanimated(entries[r.value])
  {
    if priorityIds != [] && FirstWhere(entries, e => PendingWithId(e, priorityIds[0])).None? {
      PickFromSound(entries, priorityIds[1..]);
    }
  }

  /** Nothing is picked exactly when every entry already has an animation. */
  lemma {:induction false} PickFromNone(entries: seq<RankedRecord>, priorityIds: seq<string>)
    ensures PickFrom(entries, priorityIds).None? <==> forall k :: 0 <= k < |entries| ==> !Unanimated(entries[k])
  {
    PickFromSound(entries, priorityIds);
    if priorityIds != [] && FirstWhere(entries, e => PendingWithId(e, priorityIds[0])).None? {
      PickFromNone(entries, priorityIds[1..]);
    }
  }

  /** When no priority entry is pending, the first unanimated entry is picked. */
  lemma {:induction false} PickFromFallback(entries: seq<RankedRecord>, priorityIds: seq<string>)
    requires forall k, j :: 0 <= k < |entries| && 0 <= j < |priorityIds| ==> !PendingWithId(entries[k], priorityIds[j])
    ensures PickFrom(entries, priorityIds) == FirstWhere(entries, Unanimated)
  {
    if priorityIds != [] {
      PickFromFallback(entries, priorityIds[1..]);
    }
  }

  /** The priority entry, while it has no animation, is picked ahead of every other entry. */
  lemma PriorityWins(entries: seq<RankedRecord>, k: nat)
    requires k < |entries| && PendingWithId(entries[k], PriorityIds[0])
    ensures var e := PickEntry(entries);
      e.Some? && e.value.id == PriorityIds[0] && Unanimated(e.value)
  {
    var first := FirstWhere(entries, e => PendingWithId(e, PriorityIds[0]));
    assert first.Some?;
  }

  /** Without a pending priority entry the first unanimated entry of the board is picked. */
  lemma PickEntryFallback(entries: seq<RankedRecord>, k: nat)
    requires forall j :: 0 <= j < |entries| ==> !PendingWithId(entries[j], PriorityIds[0])
    requires k < |entries| && Unanimated(entries[k])
    requires forall j :: 0 <= j < k ==> !Unanimated(entries[j])
    ensures PickEntry(entries) == Some(entries[k])
  {
    PickFromFallback(entries, PriorityIds);
  }

  /** The picker's outcome: a pending entry of the board, or None exactly when none is pending. */
  lemma PickEntryExact(entries: seq<RankedRecord>)
    ensures PickEntry(entries).None? <==> forall k :: 0 <= k < |entries| ==> !Unanimated(entries[k])
    ensures PickEntry(entries).Some? ==> PickEntry(entries).value in entries && Unanimated(PickEntry(entries).value)
  {
    PickFromSound(entries, PriorityIds);
    PickFromNone(entries, PriorityIds);
  }

  /** str.replace("\n", " "). */
  function Flatten(s: string): string {
    seq(|s|, k requires 0 <= k < |s| => if s[k] == '\n' then ' ' else s[k])
  }

  /** Python's s[:n], where a negative n counts from the end. */
  function SliceTo(s: string, n: int): (r: string)
    ensures |r| <= |s| && r == s[..|r|]
    ensures n >= 0 ==> |r| == if n <= |s| then n else |s|
    ensures n < 0 ==> |r| == if |s| + n > 0 then |s| + n else 0
  {
    if n >= 0 then Take(s, n)
    else if |s| + n > 0 then s[..|s| + n]
    else []
  }

  /** The description stripped, with its line breaks turned into spaces. */
  function Prepared(s: Option<string>): string {
    Flatten(Strip(s.GetOr("")))
  }

  lemma PreparedShape(s: Option<string>)
    ensures '\n' !in Prepared(s) && IsStripped(Prepared(s))
    ensures |Prepared(s)| == |Strip(s.GetOr(""))|
  {
    var t := Strip(s.GetOr(""));
    var p := Prepared(s);
    assert forall k :: 0 <= k < |p| ==> p[k] != '\n';
    if t != [] {
      assert p[0] == t[0] && p[|p| - 1] == t[|t| - 1];
    }
  }

  /**
   * The scene description: the prepared text when it fits `maxLen`, else
   * its first maxLen - 1 characters right-stripped, followed by an ellipsis.
   */
  function ClampDesc(s: Option<string>, maxLen: int): (r: string)
    ensures '\n' !in r && IsStripped(r)
    ensures maxLen >= 1 ==> |r| <= maxLen
    ensures |Prepared(s)| <= maxLen ==> r == Prepared(s)
    ensures |Prepared(s)| > maxLen ==>
      |r| >= 1 && r[|r| - 1] == Ellipsis && r[..|r| - 1] <= Prepared(s)
    ensures |Prepared(s)| > maxLen ==> r == RStrip(SliceTo(Prepared(s), maxLen - 1)) + [Ellipsis]
  {
    PreparedShape(s);
    var p := Prepared(s);
    if |p| <= maxLen then p
    else
      var cut := RStrip(SliceTo(p, maxLen - 1));
      assert cut <= p;
      assert forall k :: 0 <= k < |cut| ==> cut[k] == p[k];
      var r := cut + [Ellipsis];
      assert r[..|r| - 1] == cut;
      r
  }

  /** A one-line stripped description that fits is used as it is. */
  lemma ClampFits(t: string, maxLen: int)
    requires '\n' !in t && IsStripped(t) && |t| <= maxLen
    ensures ClampDesc(Some(t), maxLen) == t
  {
    StrippedFixed(t);
    assert Flatten(t) == t;
  }

  /** Clamping a clamped description changes nothing. */
  lemma ClampIdempotent(s: Option<string>, maxLen: int)
    requires maxLen >= 1
    ensures ClampDesc(Some(ClampDesc(s, maxLen)), maxLen) == ClampDesc(s, maxLen)
  {
    ClampFits(ClampDesc(s, maxLen), maxLen);
  }
}
