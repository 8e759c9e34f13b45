/** What the counters and the map of the trace reader mean, over whole traces. */
module TraceAccounting {
  import opened AllocationTrace
  import opened Wrappers

  ghost function Run(w: World, records: seq<Record>): World
    decreases |records|
  {
    if records == [] then w else Run(Apply(w, records[0]), records[1..])
  }

  lemma {:induction false} RunAppend(w: World, records: seq<Record>, r: Record)
    ensures Run(w, records + [r]) == Apply(Run(w, records), r)
    decreases |records|
  {
    if records == [] {
    } else {
      assert (records + [r])[1..] == records[1..] + [r];
      RunAppend(Apply(w, records[0]), records[1..], r);
    }
  }

  // The complete records before the first garbage command.
  function Records(b: seq<byte>): seq<Record>
    decreases |b|
  {
    if b == [] || !IsCommand(b[0]) || |b| < EntrySize(b[0]) then []
    else [FirstRecord(b)] + Records(b[EntrySize(b[0])..])
  }

  predicate Notice(line: Line) { !line.RepeatedEntry? }

  // Parsing runs the complete records and then prints at most one notice.
  lemma {:induction false} ParseRuns(w: World, b: seq<byte>)
    ensures var p, ran := ParseAll(w, b).world, Run(w, Records(b));
      p.state == ran.state && p.live == ran.live
      && (p.out == ran.out || exists line :: Notice(line) && p.out == ran.out + [line])
    decreases |b|
  {
    hide FirstRecord, Apply;
    if b != [] {
      if !IsCommand(b[0]) {
        assert Notice(GarbageCommand(SignedChar(b[0])));
      } else if EntrySize(b[0]) <= |b| {
        ParseRuns(Apply(w, FirstRecord(b)), b[EntrySize(b[0])..]);
        assert Records(b)[1..] == Records(b[EntrySize(b[0])..]);
      }
    }
  }

  function Repeats(out: seq<Line>): nat {
    if out == [] then 0 else Repeats(out[..|out| - 1]) + if Notice(out[|out| - 1]) then 0 else 1
  }

  lemma RepeatsNotice(out: seq<Line>, line: Line)
    ensures Repeats(out + [line]) == Repeats(out) + if Notice(line) then 0 else 1
  {
    assert (out + [line])[..|out|] == out;
  }

  // Conservation of allocations, and every record in exactly one counter.
  ghost predicate Balanced(w: World, records: nat) {
    var s := w.state;
    && |w.live| + s.frees + Repeats(w.out) == s.mallocs + s.unknownReallocs
    && s.mallocs + s.reallocs + s.frees + s.unknownReallocs + s.unknownFrees == records
  }

  lemma BalancedNotice(w: World, line: Line, n: nat)
    requires Balanced(w, n) && Notice(line)
    ensures Balanced(w.(out := w.out + [line]), n)
  {
    RepeatsNotice(w.out, line);
  }

  lemma BalancedPrint(w: World, n: nat)
    requires Balanced(w, n)
    ensures Balanced(Print(w), n)
  {
    if w.state.time != 0 {
      BalancedNotice(w, Snapshot(w.state.time, Full(w.live) % 0x1_0000_0000_0000_0000, w.state.unknownFrees), n);
    }
  }

  lemma BalancedSetTime(w: World, time: nat, n: nat)
    requires Balanced(w, n)
    ensures Balanced(SetTime(w, time), n)
  {
    if time > w.state.time {
      BalancedPrint(w, n);
    } else if time < w.state.time {
      BalancedNotice(w, TimeGoesBack(time, w.state.time), n);
    }
  }

  // One more live entry or one more warning.
  lemma AddOne(w: World, address: nat, size: nat)
    ensures var after := Add(w, address, size);
      after.state == w.state && |after.live| + Repeats(after.out) == |w.live| + Repeats(w.out) + 1
  {
    RepeatsNotice(w.out, RepeatedEntry(address, size));
  }

  lemma BalancedCount(w: World, r: Record, n: nat)
    requires Balanced(w, n)
    ensures Balanced(Count(w, r), n + 1)
  {
    hide Repeats, Add;
    match r
    case Malloc(_, size, address) => AddOne(w, address, size);
    case Realloc(_, old_, size, address) =>
      if old_ !in w.live {
        AddOne(w.(state := w.state.(unknownReallocs := w.state.unknownReallocs + 1)), address, size);
      } else if old_ != address {
        assert |w.live - {old_}| == |w.live| - 1;
        AddOne(w.(live := w.live - {old_}), address, size);
      } else {
        assert w.live[old_ := size].Keys == w.live.Keys;
      }
    case Free(_, address) =>
      if address in w.live {
        assert |w.live - {address}| == |w.live| - 1;
      }
  }

  lemma BalancedStep(w: World, r: Record, n: nat)
    requires Balanced(w, n)
    ensures Balanced(Apply(w, r), n + 1)
  {
    hide Balanced, SetTime, Count;
    BalancedSetTime(w, r.time, n);
    BalancedCount(SetTime(w, r.time), r, n);
  }

  lemma {:induction false} BalancedRun(w: World, records: seq<Record>, n: nat)
    requires Balanced(w, n)
    ensures Balanced(Run(w, records), n + |records|)
    decreases |records|
  {
    if records == [] {
    } else {
      hide Balanced, Apply;
      BalancedStep(w, records[0], n);
      BalancedRun(Apply(w, records[0]), records[1..], n + 1);
    }
  }

  lemma BalancedFinish(w: World, n: nat)
    requires Balanced(w, n)
    ensures Balanced(Finish(w), n)
  {
    BalancedPrint(w, n);
    var s := w.state;
    BalancedNotice(Print(w), Totals(s.mallocs, s.reallocs, s.frees, s.unknownReallocs), n);
  }

  lemma BalancedParse(file: seq<byte>)
    ensures Balanced(ParseAll(START, file).world, |Records(file)|)
  {
    assert Balanced(START, 0);
    hide ParseAll, Run, Records, Balanced;
    BalancedRun(START, Records(file), 0);
    ParseRuns(START, file);
    var p, ran := ParseAll(START, file).world, Run(START, Records(file));
    if p.out != ran.out {
      var line :| Notice(line) && p.out == ran.out + [line];
      BalancedNotice(ran, line, |Records(file)|);
      assert p == ran.(out := ran.out + [line]);
    } else {
      assert p == ran;
    }
  }

  // For every file, garbage or truncated ones included.
  lemma ReportBalanced(file: seq<byte>)
    ensures Balanced(Report(START, file), |Records(file)|)
  {
    hide ParseAll, Finish, Records, Balanced;
    BalancedParse(file);
    var p, n := ParseAll(START, file), |Records(file)|;
    if p.garbage || p.used == |file| {
      BalancedFinish(p.world, n);
    } else {
      BalancedNotice(p.world, CorruptEnd(|file| - p.used), n);
      BalancedFinish(p.world.(out := p.world.out + [CorruptEnd(|file| - p.used)]), n);
    }
  }

  // The meaning of a trace without a map: the last record that names an address decides.

  function LastEvent(records: seq<Record>, a: nat): Option<nat> {
    if records == [] then None
    else
      var before := LastEvent(records[..|records| - 1], a);
      match records[|records| - 1]
      case Malloc(_, size, address) => if a == address then Some(size) else before
      case Realloc(_, old_, size, address) =>
        if a == address then Some(size) else if a == old_ then None else before
      case Free(_, address) => if a == address then None else before
  }

  function Lookup(live: map<nat, nat>, a: nat): Option<nat> {
    if a in live then Some(live[a]) else None
  }

  ghost predicate Agrees(live: map<nat, nat>, records: seq<Record>) {
    forall a :: Lookup(live, a) == LastEvent(records, a)
  }

  // r adds an address that the map already holds, with another size.
  predicate Overwrites(live: map<nat, nat>, r: Record) {
    match r
    case Malloc(_, size, address) => address in live && live[address] != size
    case Realloc(_, old_, size, address) => old_ != address && address in live && live[address] != size
    case Free(_, _) => false
  }

  ghost function LiveAfter(records: seq<Record>, n: nat): map<nat, nat>
    requires n <= |records|
  {
    Run(START, records[..n]).live
  }

  lemma LiveStep(records: seq<Record>, n: nat)
    requires n < |records|
    ensures var w := Run(START, records[..n]);
      LiveAfter(records, n + 1) == Count(w, records[n]).live
  {
    assert records[..n + 1] == records[..n] + [records[n]];
    RunAppend(START, records[..n], records[n]);
  }

  lemma AgreesStep(w: World, records: seq<Record>, r: Record)
    requires Agrees(w.live, records)
    ensures Agrees(Count(w, r).live, records + [r]) <==> !Overwrites(w.live, r)
  {
    var after := Count(w, r).live;
    assert (records + [r])[..|records|] == records;
    if Overwrites(w.live, r) {
      assert Lookup(w.live, r.address) == LastEvent(records, r.address);
      assert Lookup(after, r.address) != LastEvent(records + [r], r.address);
    } else {
      forall a ensures Lookup(after, a) == LastEvent(records + [r], a) {
        assert Lookup(w.live, a) == LastEvent(records, a);
      }
    }
  }

  lemma StartAgrees(records: seq<Record>)
    ensures Agrees(LiveAfter(records, 0), records[..0])
  {
    assert records[..0] == [];
  }

  ghost predicate AgreesUpTo(records: seq<Record>, n: nat)
    requires n <= |records|
  {
    forall i :: 0 <= i <= n ==> Agrees(LiveAfter(records, i), records[..i])
  }

  // The map is the last-event meaning after every prefix of the trace exactly when no record
  // adds an address that is still live under another size.
  lemma {:induction false} MapIsLastEvent(records: seq<Record>, n: nat)
    requires n <= |records|
    ensures AgreesUpTo(records, n) <==> forall i :: 0 <= i < n ==> !Overwrites(LiveAfter(records, i), records[i])
    decreases n
  {
    hide Agrees, Overwrites, Run, Count;
    if n == 0 {
      StartAgrees(records);
    } else {
      MapIsLastEvent(records, n - 1);
      LiveStep(records, n - 1);
      if AgreesUpTo(records, n - 1) {
        assert records[..n] == records[..n - 1] + [records[n - 1]];
        AgreesStep(Run(START, records[..n - 1]), records[..n - 1], records[n - 1]);
      }
    }
  }
}
