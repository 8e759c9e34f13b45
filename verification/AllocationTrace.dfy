/** The allocation trace reader: binary records, a live-allocation map, and a refilled buffer. */
module AllocationTrace {
  type byte = x: int | 0 <= x < 0x100

  datatype Fields = Fields(
    time: nat, mallocs: nat, reallocs: nat, frees: nat, unknownReallocs: nat, unknownFrees: nat)

  datatype Line =
    | Snapshot(time: nat, full: nat, unknown: nat)
    | RepeatedEntry(address: nat, size: nat)
    | TimeGoesBack(time: nat, after: nat)
    | GarbageCommand(command: int)
    | CorruptEnd(count: nat)
    | Totals(mallocs: nat, reallocs: nat, frees: nat, unknownReallocs: nat)

  datatype World = World(state: Fields, live: map<nat, nat>, out: seq<Line>)

  datatype Record =
    | Malloc(time: nat, size: nat, address: nat)
    | Realloc(time: nat, old_: nat, size: nat, address: nat)
    | Free(time: nat, address: nat)

  const START := World(Fields(0, 0, 0, 0, 0, 0), map[], [])

  // Bytes on disk

  function LittleEndian(b: seq<byte>): nat {
    if b == [] then 0 else b[0] + 0x100 * LittleEndian(b[1..])
  }

  predicate IsCommand(b: byte) { 1 <= b <= 3 }

  function EntrySize(command: byte): nat
    requires IsCommand(command)
  {
    if command == 1 then 5 + 2 * 8 else if command == 2 then 5 + 3 * 8 else 5 + 8
  }

  // The record at the front of b.
  function FirstRecord(b: seq<byte>): Record
    requires b != [] && IsCommand(b[0]) && EntrySize(b[0]) <= |b|
  {
    var time := LittleEndian(b[1..5]);
    var first := LittleEndian(b[5..13]);
    if b[0] == 1 then Malloc(time, first, LittleEndian(b[13..21]))
    else if b[0] == 2 then Realloc(time, first, LittleEndian(b[13..21]), LittleEndian(b[21..29]))
    else Free(time, first)
  }

  // What one record does

  ghost function Full(live: map<nat, nat>): nat
    decreases |live|
  {
    if live == map[] then 0
    else
      var a :| a in live;
      live[a] + Full(live - {a})
  }

  lemma {:induction false} FullWithout(live: map<nat, nat>, a: nat)
    requires a in live
    ensures Full(live) == live[a] + Full(live - {a})
    decreases |live|
  {
    var b :| b in live && Full(live) == live[b] + Full(live - {b});
    if a != b {
      FullWithout(live - {b}, a);
      FullWithout(live - {a}, b);
      assert live - {a} - {b} == live - {b} - {a};
    }
  }

  ghost function Print(w: World): World {
    if w.state.time == 0 then w
    else w.(out := w.out + [Snapshot(w.state.time, Full(w.live) % 0x1_0000_0000_0000_0000, w.state.unknownFrees)])
  }

  ghost function SetTime(w: World, time: nat): World {
    if time > w.state.time then Print(w).(state := w.state.(time := time))
    else if time < w.state.time then w.(out := w.out + [TimeGoesBack(time, w.state.time)])
    else w
  }

  function Add(w: World, address: nat, size: nat): World {
    if address in w.live then w.(out := w.out + [RepeatedEntry(address, size)])
    else w.(live := w.live[address := size])
  }

  function Count(w: World, r: Record): World {
    var s := w.state;
    match r
    case Malloc(_, size, address) => Add(w, address, size).(state := s.(mallocs := s.mallocs + 1))
    case Realloc(_, old_, size, address) =>
      if old_ !in w.live then
        Add(w.(state := s.(unknownReallocs := s.unknownReallocs + 1)), address, size)
      else if old_ != address then
        Add(w.(live := w.live - {old_}), address, size).(state := s.(reallocs := s.reallocs + 1))
      else
        w.(live := w.live[old_ := size], state := s.(reallocs := s.reallocs + 1))
    case Free(_, address) =>
      if address !in w.live then w.(state := s.(unknownFrees := s.unknownFrees + 1))
      else w.(live := w.live - {address}, state := s.(frees := s.frees + 1))
  }

  ghost function Apply(w: World, r: Record): World { Count(SetTime(w, r.time), r) }

  // One pass over bytes

  datatype Parsed = Parsed(world: World, used: nat, garbage: bool)

  function SignedChar(b: byte): int { if b < 0x80 then b else b - 0x100 }

  ghost function ParseAll(w: World, b: seq<byte>): (p: Parsed)
    ensures p.used <= |b|
    ensures !p.garbage ==> |b| - p.used < 29
    decreases |b|
  {
    if b == [] then Parsed(w, 0, false)
    else if !IsCommand(b[0]) then Parsed(w.(out := w.out + [GarbageCommand(SignedChar(b[0]))]), 0, true)
    else if |b| < EntrySize(b[0]) then Parsed(w, 0, false)
    else
      var p := ParseAll(Apply(w, FirstRecord(b)), b[EntrySize(b[0])..]);
      p.(used := p.used + EntrySize(b[0]))
  }

  lemma FirstRecordStays(b: seq<byte>, more: seq<byte>)
    requires b != [] && IsCommand(b[0]) && EntrySize(b[0]) <= |b|
    ensures FirstRecord(b + more) == FirstRecord(b)
  {
    assert (b + more)[1..5] == b[1..5] && (b + more)[5..13] == b[5..13];
    assert |b| >= 21 ==> (b + more)[13..21] == b[13..21];
    assert |b| >= 29 ==> (b + more)[21..29] == b[21..29];
  }

  // Parsing a prefix first and the unread rest together with what follows later changes nothing.
  lemma {:induction false} ParseInTwo(w: World, b: seq<byte>, more: seq<byte>)
    ensures var p, all := ParseAll(w, b), ParseAll(w, b + more);
      if p.garbage then all == p
      else var q := ParseAll(p.world, b[p.used..] + more);
        all == q.(used := p.used + q.used)
    decreases |b|
  {
    if b != [] && IsCommand(b[0]) && EntrySize(b[0]) <= |b| {
      var n := EntrySize(b[0]);
      var w' := Apply(w, FirstRecord(b));
      ParseOne(w, b, more);
      hide ParseAll, FirstRecord, Apply, EntrySize, IsCommand;
      ParseInTwo(w', b[n..], more);
      DropTwice(b, n, ParseAll(w', b[n..]).used);
    } else {
      NothingRead(w, b);
    }
  }

  // A whole record in front is read first, whatever follows.
  lemma ParseOne(w: World, b: seq<byte>, more: seq<byte>)
    requires b != [] && IsCommand(b[0]) && EntrySize(b[0]) <= |b|
    ensures var n := EntrySize(b[0]);
      var w' := Apply(w, FirstRecord(b));
      var p, q := ParseAll(w', b[n..]), ParseAll(w', b[n..] + more);
      n > 0 && ParseAll(w, b) == p.(used := p.used + n) && ParseAll(w, b + more) == q.(used := q.used + n)
  {
    FirstRecordStays(b, more);
    assert (b + more)[EntrySize(b[0])..] == b[EntrySize(b[0])..] + more;
    hide FirstRecord, Apply;
  }

  lemma NothingRead(w: World, b: seq<byte>)
    requires b == [] || !IsCommand(b[0]) || |b| < EntrySize(b[0])
    ensures ParseAll(w, b).garbage || (ParseAll(w, b) == Parsed(w, 0, false) && b[0..] == b)
  {
  }

  lemma DropTwice(b: seq<byte>, n: nat, k: nat)
    requires n + k <= |b|
    ensures b[n..][k..] == b[n + k..]
  {
  }

  ghost function Finish(w: World): World {
    var p, s := Print(w), w.state;
    p.(out := p.out + [Totals(s.mallocs, s.reallocs, s.frees, s.unknownReallocs)])
  }

  // The whole run on the unread bytes b.
  ghost function Report(w: World, b: seq<byte>): World {
    var p := ParseAll(w, b);
    if p.garbage || p.used == |b| then Finish(p.world)
    else Finish(p.world.(out := p.world.out + [CorruptEnd(|b| - p.used)]))
  }

  lemma ReportInTwo(w: World, b: seq<byte>, more: seq<byte>)
    ensures var p := ParseAll(w, b);
      Report(w, b + more) == if p.garbage then Finish(p.world) else Report(p.world, b[p.used..] + more)
  {
    hide ParseAll, Finish;
    ParseInTwo(w, b, more);
  }
}
