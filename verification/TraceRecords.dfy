/** The trace file as its writer lays it out, and what the reader makes of it. */
module TraceRecords {
  import opened AllocationTrace
  import opened TraceAccounting

  // Little-endian words, each byte given by the digit of base 256 that it holds.

  function Word32(n: nat): seq<byte> {
    [n % 0x100, n / 0x100 % 0x100, n / 0x1_0000 % 0x100, n / 0x100_0000 % 0x100]
  }

  function Word64(n: nat): seq<byte> {
    [n % 0x100, n / 0x100 % 0x100, n / 0x1_0000 % 0x100, n / 0x100_0000 % 0x100,
     n / 0x1_0000_0000 % 0x100, n / 0x100_0000_0000 % 0x100, n / 0x1_0000_0000_0000 % 0x100,
     n / 0x100_0000_0000_0000 % 0x100]
  }

  predicate Fits32(n: nat) { n < 0x1_0000_0000 }

  predicate Fits64(n: nat) { n < 0x1_0000_0000_0000_0000 }

  predicate Fits(r: Record) {
    match r
    case Malloc(time, size, address) => Fits32(time) && Fits64(size) && Fits64(address)
    case Realloc(time, old_, size, address) => Fits32(time) && Fits64(old_) && Fits64(size) && Fits64(address)
    case Free(time, address) => Fits32(time) && Fits64(address)
  }

  function RecordBytes(r: Record): seq<byte> {
    match r
    case Malloc(time, size, address) => [1] + Word32(time) + Word64(size) + Word64(address)
    case Realloc(time, old_, size, address) => [2] + Word32(time) + Word64(old_) + Word64(size) + Word64(address)
    case Free(time, address) => [3] + Word32(time) + Word64(address)
  }

  function FileBytes(records: seq<Record>): seq<byte> {
    if records == [] then [] else RecordBytes(records[0]) + FileBytes(records[1..])
  }

  // Reading words back

  lemma DivideTwice(n: nat)
    ensures n / 0x1_0000 == n / 0x100 / 0x100 && n / 0x100_0000 == n / 0x1_0000 / 0x100
  {
  }

  lemma FirstByte(d: byte, b: seq<byte>)
    ensures LittleEndian([d] + b) == d + 0x100 * LittleEndian(b)
  {
    assert ([d] + b)[1..] == b;
  }

  lemma FromDigits(d0: byte, d1: byte, d2: byte, d3: byte, b: seq<byte>)
    ensures LittleEndian([d0, d1, d2, d3] + b)
      == d0 + 0x100 * d1 + 0x1_0000 * d2 + 0x100_0000 * d3 + 0x1_0000_0000 * LittleEndian(b)
  {
    hide LittleEndian;
    FirstByte(d3, b);
    FirstByte(d2, [d3] + b);
    FirstByte(d1, [d2] + ([d3] + b));
    FirstByte(d0, [d1] + ([d2] + ([d3] + b)));
    assert [d0, d1, d2, d3] + b == [d0] + ([d1] + ([d2] + ([d3] + b)));
  }

  // Four digits in front.
  lemma ReadDigits(n: nat, b: seq<byte>)
    requires Fits32(n)
    ensures LittleEndian(Word32(n) + b) == n + 0x1_0000_0000 * LittleEndian(b)
  {
    DivideTwice(n);
    FromDigits(n % 0x100, n / 0x100 % 0x100, n / 0x1_0000 % 0x100, n / 0x100_0000 % 0x100, b);
    hide LittleEndian;
  }

  lemma ReadWord32(n: nat)
    requires Fits32(n)
    ensures LittleEndian(Word32(n)) == n
  {
    ReadDigits(n, []);
    assert Word32(n) + [] == Word32(n) && LittleEndian([]) == 0;
    hide Word32, LittleEndian;
  }

  // The digits of a word whose upper half is h.

  lemma DigitStays(q: nat, h: nat)
    ensures (q + 0x100 * h) % 0x100 == q % 0x100
  {
  }

  lemma LowerQuotients(l: nat, h: nat)
    ensures var n := l + 0x1_0000_0000 * h;
      && n / 0x100 == l / 0x100 + 0x100 * (0x1_0000 * h)
      && n / 0x1_0000 == l / 0x1_0000 + 0x100 * (0x100 * h)
      && n / 0x100_0000 == l / 0x100_0000 + 0x100 * h
  {
  }

  lemma UpperQuotients(l: nat, h: nat)
    requires Fits32(l)
    ensures var n := l + 0x1_0000_0000 * h;
      && n / 0x1_0000_0000 == h && n / 0x100_0000_0000 == h / 0x100
      && n / 0x1_0000_0000_0000 == h / 0x1_0000 && n / 0x100_0000_0000_0000 == h / 0x100_0000
  {
  }

  lemma TwoHalves(l: nat, h: nat)
    requires Fits32(l)
    ensures Word64(l + 0x1_0000_0000 * h) == Word32(l) + Word32(h)
  {
    LowerQuotients(l, h);
    UpperQuotients(l, h);
    DigitStays(l, 0x100_0000 * h);
    DigitStays(l / 0x100, 0x1_0000 * h);
    DigitStays(l / 0x1_0000, 0x100 * h);
    DigitStays(l / 0x100_0000, h);
  }

  lemma ReadWord64(n: nat)
    requires Fits64(n)
    ensures LittleEndian(Word64(n)) == n
  {
    var l, h := n % 0x1_0000_0000, n / 0x1_0000_0000;
    TwoHalves(l, h);
    hide Word64, Word32, LittleEndian;
    ReadWord32(h);
    ReadDigits(l, Word32(h));
  }

  // Reading records back

  // Fields in a row, taken apart at the offsets that the reader uses.
  lemma TakenApart(code: byte, a: seq<byte>, b: seq<byte>, more: seq<byte>)
    requires |a| == 4 && |b| == 8
    ensures var s := [code] + a + b + more;
      s[0] == code && s[1..5] == a && s[5..13] == b && s[13..] == more
  {
  }

  lemma TakenLater(s: seq<byte>, at: nat, c: seq<byte>, more: seq<byte>)
    requires at <= |s| && s[at..] == c + more && |c| == 8
    ensures at + 8 <= |s| && s[at..at + 8] == c && s[at + 8..] == more
  {
    assert s[at..at + 8] == s[at..][..8] && s[at + 8..] == s[at..][8..];
  }

  lemma FirstFields(code: byte, time: nat, first: nat, more: seq<byte>)
    requires Fits32(time) && Fits64(first)
    ensures var s := [code] + Word32(time) + Word64(first) + more;
      s[0] == code && LittleEndian(s[1..5]) == time && LittleEndian(s[5..13]) == first && s[13..] == more
  {
    TakenApart(code, Word32(time), Word64(first), more);
    hide LittleEndian;
    ReadWord32(time);
    ReadWord64(first);
  }

  lemma LaterField(s: seq<byte>, at: nat, n: nat, more: seq<byte>)
    requires Fits64(n) && at <= |s| && s[at..] == Word64(n) + more
    ensures at + 8 <= |s| && LittleEndian(s[at..at + 8]) == n && s[at + 8..] == more
  {
    TakenLater(s, at, Word64(n), more);
    hide LittleEndian;
    ReadWord64(n);
  }

  // The record in front of any bytes is the one that was written there, and takes as many bytes.
  ghost predicate ReadsAs(b: seq<byte>, r: Record, more: seq<byte>) {
    b != [] && IsCommand(b[0]) && EntrySize(b[0]) <= |b| && FirstRecord(b) == r && b[EntrySize(b[0])..] == more
  }

  lemma ReadMalloc(time: nat, size: nat, address: nat, more: seq<byte>)
    requires Fits(Malloc(time, size, address))
    ensures ReadsAs(RecordBytes(Malloc(time, size, address)) + more, Malloc(time, size, address), more)
  {
    var b := RecordBytes(Malloc(time, size, address)) + more;
    assert b == [1] + Word32(time) + Word64(size) + (Word64(address) + more);
    hide Word32, Word64, LittleEndian, RecordBytes;
    FirstFields(1, time, size, Word64(address) + more);
    LaterField(b, 13, address, more);
  }

  lemma ReadRealloc(time: nat, old_: nat, size: nat, address: nat, more: seq<byte>)
    requires Fits(Realloc(time, old_, size, address))
    ensures ReadsAs(RecordBytes(Realloc(time, old_, size, address)) + more, Realloc(time, old_, size, address), more)
  {
    var b := RecordBytes(Realloc(time, old_, size, address)) + more;
    var rest := Word64(address) + more;
    assert b == [2] + Word32(time) + Word64(old_) + (Word64(size) + rest);
    hide Word32, Word64, LittleEndian, RecordBytes;
    FirstFields(2, time, old_, Word64(size) + rest);
    LaterField(b, 13, size, rest);
    LaterField(b, 21, address, more);
  }

  lemma ReadFree(time: nat, address: nat, more: seq<byte>)
    requires Fits(Free(time, address))
    ensures ReadsAs(RecordBytes(Free(time, address)) + more, Free(time, address), more)
  {
    assert RecordBytes(Free(time, address)) + more == [3] + Word32(time) + Word64(address) + more;
    hide Word32, Word64, LittleEndian, RecordBytes;
    FirstFields(3, time, address, more);
  }

  lemma ReadRecord(r: Record, more: seq<byte>)
    requires Fits(r)
    ensures ReadsAs(RecordBytes(r) + more, r, more)
  {
    hide ReadsAs, RecordBytes, Fits32, Fits64;
    match r
    case Malloc(time, size, address) => ReadMalloc(time, size, address, more);
    case Realloc(time, old_, size, address) => ReadRealloc(time, old_, size, address, more);
    case Free(time, address) => ReadFree(time, address, more);
  }

  predicate AllFit(records: seq<Record>) { forall r :: r in records ==> Fits(r) }

  // A written trace is read whole, whatever follows it: every record is applied, in its order.
  lemma {:induction false} ParseWritten(w: World, records: seq<Record>, more: seq<byte>)
    requires AllFit(records)
    ensures var p := ParseAll(Run(w, records), more);
      ParseAll(w, FileBytes(records) + more) == p.(used := |FileBytes(records)| + p.used)
    decreases |records|
  {
    if records == [] {
      assert FileBytes(records) + more == more;
    } else {
      var rest := FileBytes(records[1..]) + more;
      assert FileBytes(records) + more == RecordBytes(records[0]) + rest;
      ReadRecord(records[0], rest);
      ParseOneRecord(w, RecordBytes(records[0]) + rest);
      hide ParseAll, RecordBytes, Fits, Apply, FirstRecord;
      ParseWritten(Apply(w, records[0]), records[1..], more);
    }
  }

  lemma ParseOneRecord(w: World, b: seq<byte>)
    requires b != [] && IsCommand(b[0]) && EntrySize(b[0]) <= |b|
    ensures var p := ParseAll(Apply(w, FirstRecord(b)), b[EntrySize(b[0])..]);
      ParseAll(w, b) == p.(used := p.used + EntrySize(b[0]))
  {
    hide Apply, FirstRecord;
  }

  // What may stand behind the last whole record: nothing, the front of a record, or a byte that is no command.

  ghost predicate TornRecord(tail: seq<byte>) {
    exists r, k :: Fits(r) && 0 < k < |RecordBytes(r)| && tail == RecordBytes(r)[..k]
  }

  ghost predicate Garbage(tail: seq<byte>) {
    tail != [] && tail[0] != 1 && tail[0] != 2 && tail[0] != 3
  }

  ghost predicate IsTail(tail: seq<byte>) { tail == [] || TornRecord(tail) || Garbage(tail) }

  lemma ParseTail(w: World, tail: seq<byte>)
    requires IsTail(tail)
    ensures ParseAll(w, tail) == Parsed(if Garbage(tail) then Noted(w, tail) else w, 0, Garbage(tail))
  {
    if TornRecord(tail) {
      var r, k :| Fits(r) && 0 < k < |RecordBytes(r)| && tail == RecordBytes(r)[..k];
      ReadRecord(r, []);
      assert RecordBytes(r) + [] == RecordBytes(r);
      assert tail[0] == RecordBytes(r)[0];
    }
  }

  // What the run prints after the records in ran. A garbage command is printed as a signed byte.
  ghost function Noted(ran: World, tail: seq<byte>): World {
    if Garbage(tail) then
      var code: int := tail[0];
      ran.(out := ran.out + [GarbageCommand(if code < 128 then code else code - 256)])
    else if tail == [] then ran
    else ran.(out := ran.out + [CorruptEnd(|tail|)])
  }

  // The report on a trace is that of its records, with the torn end or the garbage noted after them.
  lemma ReportWritten(w: World, records: seq<Record>, tail: seq<byte>)
    requires AllFit(records) && IsTail(tail)
    ensures Report(w, FileBytes(records) + tail) == Finish(Noted(Run(w, records), tail))
  {
    ParseTail(Run(w, records), tail);
    hide ParseAll, Run, FileBytes, Finish, TornRecord, Fits, RecordBytes, AllFit;
    ParseWritten(w, records, tail);
  }

  // Every file is such a file

  lemma DigitsBack(d0: byte, d1: byte, d2: byte, d3: byte)
    ensures var n := d0 + 0x100 * d1 + 0x1_0000 * d2 + 0x100_0000 * d3;
      Fits32(n) && Word32(n) == [d0, d1, d2, d3]
  {
    var n := d0 + 0x100 * d1 + 0x1_0000 * d2 + 0x100_0000 * d3;
    assert n / 0x100 == d1 + 0x100 * d2 + 0x1_0000 * d3;
    assert n / 0x1_0000 == d2 + 0x100 * d3;
    assert n / 0x100_0000 == d3;
  }

  lemma Word32Back(b: seq<byte>)
    requires |b| == 4
    ensures Fits32(LittleEndian(b)) && Word32(LittleEndian(b)) == b
  {
    FromDigits(b[0], b[1], b[2], b[3], []);
    DigitsBack(b[0], b[1], b[2], b[3]);
    assert LittleEndian([]) == 0 && [b[0], b[1], b[2], b[3]] + [] == b;
    hide LittleEndian, Word32;
  }

  lemma Word64Back(b: seq<byte>)
    requires |b| == 8
    ensures Fits64(LittleEndian(b)) && Word64(LittleEndian(b)) == b
  {
    var low, high := LittleEndian(b[..4]), LittleEndian(b[4..]);
    Word32Back(b[..4]);
    Word32Back(b[4..]);
    assert b == b[..4] + b[4..];
    hide Word32, Word64, LittleEndian;
    ReadDigits(low, b[4..]);
    TwoHalves(low, high);
  }

  // A whole record in front is the bytes of what is read there.
  lemma RecordBack(b: seq<byte>)
    requires b != [] && IsCommand(b[0]) && |b| == EntrySize(b[0])
    ensures Fits(FirstRecord(b)) && RecordBytes(FirstRecord(b)) == b
  {
    hide LittleEndian, Word32, Word64, Fits32, Fits64;
    Word32Back(b[1..5]);
    Word64Back(b[5..13]);
    if b[0] == 1 {
      Word64Back(b[13..21]);
      assert b == [b[0]] + b[1..5] + b[5..13] + b[13..21];
    } else if b[0] == 2 {
      Word64Back(b[13..21]);
      Word64Back(b[21..29]);
      assert b == [b[0]] + b[1..5] + b[5..13] + b[13..21] + b[21..29];
    } else {
      assert b == [b[0]] + b[1..5] + b[5..13];
    }
  }

  lemma TailIsTorn(tail: seq<byte>)
    requires tail != [] && IsCommand(tail[0]) && |tail| < EntrySize(tail[0])
    ensures TornRecord(tail)
  {
    var whole := tail + seq(EntrySize(tail[0]) - |tail|, _ => 0);
    RecordBack(whole);
    assert whole[..|tail|] == tail;
    hide RecordBytes, FirstRecord;
  }

  ghost predicate Splits(b: seq<byte>, records: seq<Record>, tail: seq<byte>) {
    AllFit(records) && IsTail(tail) && b == FileBytes(records) + tail
  }

  lemma NoRecord(b: seq<byte>)
    requires b == [] || !IsCommand(b[0]) || |b| < EntrySize(b[0])
    ensures Splits(b, Records(b), b)
  {
    if b != [] && IsCommand(b[0]) {
      TailIsTorn(b);
    }
    assert Records(b) == [] && FileBytes([]) == [];
    hide TornRecord, FileBytes, Records, Fits;
    assert b == [] + b;
  }

  lemma OneMoreRecord(b: seq<byte>, tail: seq<byte>)
    requires b != [] && IsCommand(b[0]) && EntrySize(b[0]) <= |b|
    requires Splits(b[EntrySize(b[0])..], Records(b[EntrySize(b[0])..]), tail)
    ensures Splits(b, Records(b), tail)
  {
    var n := EntrySize(b[0]);
    FirstOfPrefix(b);
    RecordBack(b[..n]);
    RecordsBehind(b);
    hide FirstRecord, RecordBytes, IsTail, Fits, FileBytes, Records, AllFit, IsCommand, EntrySize;
    AllFitMore(FirstRecord(b), Records(b[n..]));
    Joined(b, n, FileBytes(Records(b[n..])), tail);
  }

  lemma AllFitMore(r: Record, rest: seq<Record>)
    requires Fits(r) && AllFit(rest)
    ensures AllFit([r] + rest)
  {
  }

  lemma Joined(b: seq<byte>, n: nat, middle: seq<byte>, tail: seq<byte>)
    requires n <= |b| && b[n..] == middle + tail
    ensures b == b[..n] + middle + tail
  {
    assert b == b[..n] + b[n..];
  }

  // Any bytes at all are the records that Records finds in them, and then a tail; so what is said of written files
  // holds of every file.
  lemma {:induction false} EveryFile(b: seq<byte>)
    ensures exists tail :: Splits(b, Records(b), tail)
    decreases |b|
  {
    if b == [] || !IsCommand(b[0]) || |b| < EntrySize(b[0]) {
      NoRecord(b);
    } else {
      var rest := b[EntrySize(b[0])..];
      EveryFile(rest);
      hide Splits, Records;
      var tail :| Splits(rest, Records(rest), tail);
      OneMoreRecord(b, tail);
    }
  }

  lemma RecordsBehind(b: seq<byte>)
    requires b != [] && IsCommand(b[0]) && EntrySize(b[0]) <= |b|
    ensures var rest := Records(b[EntrySize(b[0])..]);
      Records(b) == [FirstRecord(b)] + rest && FileBytes(Records(b)) == RecordBytes(FirstRecord(b)) + FileBytes(rest)
  {
    hide FirstRecord, RecordBytes;
    assert Records(b)[1..] == Records(b[EntrySize(b[0])..]);
  }

  lemma FirstOfPrefix(b: seq<byte>)
    requires b != [] && IsCommand(b[0]) && EntrySize(b[0]) <= |b|
    ensures FirstRecord(b) == FirstRecord(b[..EntrySize(b[0])])
  {
    var n := EntrySize(b[0]);
    FirstRecordStays(b[..n], b[n..]);
    assert b[..n] + b[n..] == b;
  }
}
