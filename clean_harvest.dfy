/**
 * Cleaning the harvest document: entries whose equation is missing, blank,
 * or literally "none"/"null" in any case are dropped, the rest keep their
 * order, and the unique count is reset to what is left.
 */
module CleanHarvest {
  import opened Wrappers
  import opened Text
  import opened Records

  /** A missing equation, a blank one, or the words none/null in any case. */
  predicate IsBad(eq: Option<string>) {
    eq.None? || Strip(eq.value) == [] || Lower(Strip(eq.value)) in {"none", "null"}
  }

  /** The entries that survive, in their original order. */
  function Kept(entries: seq<HarvestEntry>): (kept: seq<HarvestEntry>)
    ensures |kept| <= |entries|
    ensures forall k :: 0 <= k < |kept| ==> !IsBad(kept[k].equation)
  {
    if entries == [] then []
    else if IsBad(entries[0].equation) then Kept(entries[1..])
    else [entries[0]] + Kept(entries[1..])
  }

  /** How many entries were dropped. */
  function Removed(entries: seq<HarvestEntry>): nat {
    |entries| - |Kept(entries)|
  }

  /** The number of entries whose equation is bad, counted one by one. */
  function BadCount(entries: seq<HarvestEntry>): (n: nat)
    ensures n <= |entries|
  {
    if entries == [] then 0 else (if IsBad(entries[0].equation) then 1 else 0) + BadCount(entries[1..])
  }

  /** The removed count printed in the summary is the number of bad entries. */
  lemma {:induction false} RemovedIsBadCount(entries: seq<HarvestEntry>)
    ensures Removed(entries) == BadCount(entries)
  {
    if entries != [] {
      RemovedIsBadCount(entries[1..]);
    }
  }

  /** Filtering distributes over concatenation, so survivors keep their relative order. */
  lemma {:induction false} KeptAppend(a: seq<HarvestEntry>, b: seq<HarvestEntry>)
    ensures Kept(a + b) == Kept(a) + Kept(b)
  {
    if a == [] {
      assert a + b == b;
    } else {
      assert (a + b)[1..] == a[1..] + b;
      KeptAppend(a[1..], b);
    }
  }

  /** An entry survives exactly when its equation is good. */
  lemma {:induction false} KeptExact(entries: seq<HarvestEntry>, e: HarvestEntry)
    ensures e in Kept(entries) <==> e in entries && !IsBad(e.equation)
  {
    if entries != [] {
      KeptExact(entries[1..], e);
      assert entries == [entries[0]] + entries[1..];
    }
  }

  /** Nothing is removed exactly when every equation is good. */
  lemma {:induction false} KeptAll(entries: seq<HarvestEntry>)
    ensures Kept(entries) == entries <==> forall k :: 0 <= k < |entries| ==> !IsBad(entries[k].equation)
  {
    if entries != [] {
      KeptAll(entries[1..]);
      assert forall k :: 1 <= k < |entries| ==> entries[1..][k - 1] == entries[k];
      if IsBad(entries[0].equation) {
        assert |Kept(entries)| < |entries|;
      }
    }
  }

  /** A second filter removes nothing. */
  lemma KeptIdempotent(entries: seq<HarvestEntry>)
    ensures Kept(Kept(entries)) == Kept(entries)
  {
    KeptAll(Kept(entries));
  }

  /** The written document: the survivors as entries, unique reset to their number, other stats kept. */
  function Clean(doc: HarvestDoc): (r: HarvestDoc)
    ensures r.entries == Kept(doc.entries)
    ensures r.stats == doc.stats.(unique := Some(|r.entries|))
    ensures |doc.entries| - |r.entries| == BadCount(doc.entries)
  {
    RemovedIsBadCount(doc.entries);
    var kept := Kept(doc.entries);
    HarvestDoc(doc.stats.(unique := Some(|kept|)), kept)
  }

  /** Cleaning a cleaned document changes nothing. */
  lemma CleanIdempotent(doc: HarvestDoc)
    ensures Clean(Clean(doc)) == Clean(doc)
    ensures Removed(Clean(doc).entries) == 0
  {
    KeptIdempotent(doc.entries);
  }
}
