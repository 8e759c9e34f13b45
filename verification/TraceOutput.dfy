/** What the trace reader prints and counts for each record, and what its counters come to. */
module TraceOutput {
  import opened AllocationTrace
  import opened TraceAccounting
  import opened Wrappers

  // The address that a record wants to add to the map, once the record's old one is out of it.
  predicate Adds(live: map<nat, nat>, r: Record) {
    r.Malloc? || (r.Realloc? && (r.old_ != r.address || r.old_ !in live))
  }

  // A later time prints the state as it was before the record, unless nothing has a time yet; an earlier one is noted,
  // and does not set the clock back. After that comes the note of an address that the map has already.
  lemma PrintsExactly(w: World, r: Record)
    ensures var w', now := Apply(w, r), w.state.time;
      var clock := if r.time > now && now > 0 then
                     [Snapshot(now, Full(w.live) % 0x1_0000_0000_0000_0000, w.state.unknownFrees)]
                   else if r.time < now then [TimeGoesBack(r.time, now)] else [];
      var note := if Adds(w.live, r) && r.address in w.live && (r.Realloc? ==> r.old_ != r.address)
                  then [RepeatedEntry(r.address, r.size)] else [];
      w'.out == w.out + clock + note && w'.state.time == if r.time > now then r.time else now
  {
    hide Full;
    assert w.out + [] == w.out;
  }

  // The map: an address to be freed or moved leaves, and an added one enters unless it is there already. A record in
  // place changes the size.
  lemma LiveExactly(w: World, r: Record, a: nat)
    ensures var live := Apply(w, r).live;
      if r.Free? then Lookup(live, a) == if a == r.address then None else Lookup(w.live, a)
      else if r.Realloc? && r.old_ == r.address && r.old_ in w.live then
        Lookup(live, a) == if a == r.address then Some(r.size) else Lookup(w.live, a)
      else
        Lookup(live, a) == if a == r.address && a !in w.live then Some(r.size)
                           else if r.Realloc? && a == r.old_ then None
                           else Lookup(w.live, a)
  {
    hide Full;
  }

  // Every record is counted once: by its kind, and apart if the map does not have what it frees or moves.
  lemma CountsExactly(w: World, r: Record)
    ensures var s, s' := w.state, Apply(w, r).state;
      var known := (r.Free? && r.address in w.live) || (r.Realloc? && r.old_ in w.live);
      && s'.mallocs == s.mallocs + (if r.Malloc? then 1 else 0)
      && s'.reallocs == s.reallocs + (if r.Realloc? && known then 1 else 0)
      && s'.unknownReallocs == s.unknownReallocs + (if r.Realloc? && !known then 1 else 0)
      && s'.frees == s.frees + (if r.Free? && known then 1 else 0)
      && s'.unknownFrees == s.unknownFrees + (if r.Free? && !known then 1 else 0)
  {
    hide Full;
  }

  function OfKind(records: seq<Record>, kind: Record -> bool): set<nat> {
    set i: nat | i < |records| && kind(records[i])
  }

  lemma OfKindMore(records: seq<Record>, r: Record, kind: Record -> bool)
    ensures |OfKind(records + [r], kind)| == |OfKind(records, kind)| + if kind(r) then 1 else 0
  {
    var all, before := OfKind(records + [r], kind), OfKind(records, kind);
    assert all == before + if kind(r) then {|records|} else {};
  }

  // In the end the clock shows the latest time of the trace, and the counters of a kind together count its records.
  lemma {:induction false} CountersExactly(records: seq<Record>)
    ensures var s := Run(START, records).state;
      && (forall r :: r in records ==> r.time <= s.time)
      && (s.time == 0 || exists r :: r in records && r.time == s.time)
      && s.mallocs == |OfKind(records, (r: Record) => r.Malloc?)|
      && s.reallocs + s.unknownReallocs == |OfKind(records, (r: Record) => r.Realloc?)|
      && s.frees + s.unknownFrees == |OfKind(records, (r: Record) => r.Free?)|
    decreases |records|
  {
    if records == [] {
      assert forall kind :: OfKind(records, kind) == {};
    } else {
      var before, last := records[..|records| - 1], records[|records| - 1];
      CountersExactly(before);
      assert records == before + [last];
      RunAppend(START, before, last);
      PrintsExactly(Run(START, before), last);
      CountsExactly(Run(START, before), last);
      OfKindMore(before, last, (r: Record) => r.Malloc?);
      OfKindMore(before, last, (r: Record) => r.Realloc?);
      OfKindMore(before, last, (r: Record) => r.Free?);
      hide Run, Apply, OfKind;
    }
  }

  // What is printed as the size of the live allocations is their sum.
  lemma FullExactly(live: map<nat, nat>, a: nat, size: nat)
    requires a !in live
    ensures Full(map[]) == 0 && Full(live[a := size]) == Full(live) + size
  {
    FullWithout(live[a := size], a);
    assert live[a := size] - {a} == live;
    hide Full;
    assert Full(map[]) == 0 by { FullOfNothing(); }
  }

  lemma FullOfNothing()
    ensures Full(map[]) == 0
  {
  }

  // The last lines: the state, unless nothing has a time, and the totals.
  lemma FinishExactly(w: World)
    ensures Finish(w).out == w.out
      + (if w.state.time > 0 then
           [Snapshot(w.state.time, Full(w.live) % 0x1_0000_0000_0000_0000, w.state.unknownFrees)] else [])
      + [Totals(w.state.mallocs, w.state.reallocs, w.state.frees, w.state.unknownReallocs)]
    ensures Finish(w).state == w.state && Finish(w).live == w.live
  {
    hide Full;
    assert w.out + [] == w.out;
  }
}
