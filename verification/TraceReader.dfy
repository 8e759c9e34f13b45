/** The trace reader as it runs: one fixed buffer, refilled by fread, parsed in place and moved down. */
module TraceReader {
  import opened AllocationTrace
  import TraceAccounting
  import opened TraceRecords

  lemma Slices(s: seq<byte>, p: nat, q: nat, i: nat, j: nat)
    requires i <= j && p + j <= q <= |s|
    ensures s[p..q][i..j] == s[p + i..p + j]
  {
    forall k | 0 <= k < j - i ensures s[p..q][i..j][k] == s[p + i..p + j][k] {
      assert s[p..q][i + k] == s[p + (i + k)];
    }
  }

  lemma ModAdd(x: nat, y: nat)
    ensures (x % 0x1_0000_0000_0000_0000 + y) % 0x1_0000_0000_0000_0000 == (x + y) % 0x1_0000_0000_0000_0000
  {
  }

  lemma RecordSlices(s: seq<byte>, p: nat)
    requires p < |s| && IsCommand(s[p]) && p + EntrySize(s[p]) <= |s|
    ensures FirstRecord(s[p..p + EntrySize(s[p])]) ==
      var time, first := LittleEndian(s[p + 1..p + 5]), LittleEndian(s[p + 5..p + 13]);
      if s[p] == 1 then Malloc(time, first, LittleEndian(s[p + 13..p + 21]))
      else if s[p] == 2 then Realloc(time, first, LittleEndian(s[p + 13..p + 21]), LittleEndian(s[p + 21..p + 29]))
      else Free(time, first)
  {
    hide LittleEndian;
    var q := p + EntrySize(s[p]);
    Slices(s, p, q, 1, 5);
    Slices(s, p, q, 5, 13);
    if s[p] != 3 {
      Slices(s, p, q, 13, 21);
    }
    if s[p] == 2 {
      Slices(s, p, q, 21, 29);
    }
  }

  // What a parse leaves unread is one incomplete record: parsing it again does nothing.
  lemma RestIsIncomplete(w: World, b: seq<byte>)
    requires !ParseAll(w, b).garbage
    ensures var p := ParseAll(w, b); ParseAll(p.world, b[p.used..]) == Parsed(p.world, 0, false)
  {
    hide ParseAll;
    ParseInTwo(w, b, []);
    assert b + [] == b;
    var rest := b[ParseAll(w, b).used..];
    assert rest + [] == rest;
    var p, q := ParseAll(w, b), ParseAll(w, b).(used := ParseAll(w, b).used);
    assert ParseAll(p.world, rest).(used := p.used + ParseAll(p.world, rest).used) == p;
  }

  ghost function Later(p: Parsed, n: nat): Parsed { p.(used := p.used + n) }

  lemma ParseNothing(w: World)
    ensures ParseAll(w, []) == Parsed(w, 0, false)
  {
  }

  lemma ParseStep(w: World, b: seq<byte>)
    requires b != []
    ensures !IsCommand(b[0]) ==>
              ParseAll(w, b) == Parsed(w.(out := w.out + [GarbageCommand(SignedChar(b[0]))]), 0, true)
    ensures IsCommand(b[0]) ==> var n := EntrySize(b[0]);
      ParseAll(w, b) == if |b| < n then Parsed(w, 0, false)
                        else Later(ParseAll(Apply(w, FirstRecord(b[..n])), b[n..]), n)
  {
    hide Apply, FirstRecord;
    if IsCommand(b[0]) && EntrySize(b[0]) <= |b| {
      var n := EntrySize(b[0]);
      FirstRecordStays(b[..n], b[n..]);
      assert b[..n] + b[n..] == b;
    }
  }

  // The run so far, with kept in the buffer and rest in the file, comes to the same end.
  ghost predicate Continues(w: World, kept: seq<byte>, rest: seq<byte>, first: World, file: seq<byte>) {
    && Report(w, kept + rest) == Report(first, file)
    && ParseAll(w, kept) == Parsed(w, 0, false)
    && ParseAll(w, kept + rest).garbage == ParseAll(first, file).garbage
  }

  lemma Refilled(w: World, kept: seq<byte>, rest: seq<byte>, n: nat, first: World, file: seq<byte>)
    requires Continues(w, kept, rest, first, file) && n <= |rest|
    ensures var b := kept + rest[..n];
      var p := ParseAll(w, b);
      if p.garbage then Report(first, file) == Finish(p.world) && ParseAll(first, file).garbage
      else Continues(p.world, b[p.used..], rest[n..], first, file)
  {
    hide ParseAll, Report, Finish;
    var b := kept + rest[..n];
    assert b + rest[n..] == kept + rest;
    ReportInTwo(w, b, rest[n..]);
    ParseInTwo(w, b, rest[n..]);
    if !ParseAll(w, b).garbage {
      RestIsIncomplete(w, b);
    }
  }

  lemma AtEnd(w: World, kept: seq<byte>, first: World, file: seq<byte>)
    requires Continues(w, kept, [], first, file)
    ensures Report(first, file) ==
            Finish(if kept == [] then w else w.(out := w.out + [CorruptEnd(|kept|)]))
  {
    hide ParseAll, Finish;
    assert kept + [] == kept;
  }

  const BUFFER_SIZE: nat := 1024 * 1024

  class Reader {
    var state: Fields
    var live: map<nat, nat>
    var out: seq<Line>
    var unread: seq<byte>  // what the file still holds
    const buffer: array<byte>

    constructor (file: seq<byte>)
      ensures fresh(this) && fresh(buffer) && buffer.Length == BUFFER_SIZE
      ensures World() == START && unread == file
    {
      state, live, out, unread := Fields(0, 0, 0, 0, 0, 0), map[], [], file;
      buffer := new byte[BUFFER_SIZE];
    }

    ghost function World(): World
      reads this
    {
      AllocationTrace.World(state, live, out)
    }

    // The live bytes, summed in 64 bits in whatever order the map yields its entries.
    method SumSizes() returns (full: nat)
      ensures full == Full(live) % 0x1_0000_0000_0000_0000
    {
      var keys := live.Keys;
      full := 0;
      assert live - (live.Keys - keys) == live;
      while keys != {}
        invariant keys <= live.Keys && full < 0x1_0000_0000_0000_0000
        invariant (full + Full(live - (live.Keys - keys))) % 0x1_0000_0000_0000_0000
               == Full(live) % 0x1_0000_0000_0000_0000
      {
        var address :| address in keys;
        ghost var others := live - (live.Keys - (keys - {address}));
        FullWithout(live - (live.Keys - keys), address);
        assert live - (live.Keys - keys) - {address} == others;
        ModAdd(full + live[address], Full(others));
        full := (full + live[address]) % 0x1_0000_0000_0000_0000;
        keys := keys - {address};
      }
      assert live - (live.Keys - keys) == map[];
    }

    method PrintState()
      modifies this`out
      ensures World() == Print(old(World()))
    {
      if state.time == 0 {
        return;
      }
      var full := SumSizes();
      out := out + [Snapshot(state.time, full, state.unknownFrees)];
    }

    method AddEntry(address: nat, size: nat)
      modifies this`live, this`out
      ensures World() == Add(old(World()), address, size)
    {
      if address in live {
        out := out + [RepeatedEntry(address, size)];
        return;
      }
      live := live[address := size];
    }

    method ParseMalloc(p: nat, ghost time: nat)
      requires p + 16 <= buffer.Length
      modifies this`state, this`live, this`out
      ensures World() == Count(old(World()),
                               Malloc(time, LittleEndian(buffer[p..p + 8]), LittleEndian(buffer[p + 8..p + 16])))
    {
      var size := LittleEndian(buffer[p..p + 8]);
      var address := LittleEndian(buffer[p + 8..p + 16]);
      AddEntry(address, size);
      state := state.(mallocs := state.mallocs + 1);
    }

    method ParseRealloc(p: nat, ghost time: nat)
      requires p + 24 <= buffer.Length
      modifies this`state, this`live, this`out
      ensures World() == Count(old(World()),
                               Realloc(time, LittleEndian(buffer[p..p + 8]), LittleEndian(buffer[p + 8..p + 16]),
                                       LittleEndian(buffer[p + 16..p + 24])))
    {
      var old_ := LittleEndian(buffer[p..p + 8]);
      var size := LittleEndian(buffer[p + 8..p + 16]);
      var address := LittleEndian(buffer[p + 16..p + 24]);
      if old_ !in live {
        state := state.(unknownReallocs := state.unknownReallocs + 1);
        AddEntry(address, size);
      } else if old_ != address {
        live := live - {old_};
        AddEntry(address, size);
        state := state.(reallocs := state.reallocs + 1);
      } else {
        live := live[old_ := size];
        state := state.(reallocs := state.reallocs + 1);
      }
    }

    method ParseFree(p: nat, ghost time: nat)
      requires p + 8 <= buffer.Length
      modifies this`state, this`live, this`out
      ensures World() == Count(old(World()), Free(time, LittleEndian(buffer[p..p + 8])))
    {
      var address := LittleEndian(buffer[p..p + 8]);
      if address !in live {
        state := state.(unknownFrees := state.unknownFrees + 1);
      } else {
        live := live - {address};
        state := state.(frees := state.frees + 1);
      }
    }

    // One complete record at p; its time is handled before its effect.
    method ParseRecord(p: nat, command: byte)
      requires p < buffer.Length && buffer[p] == command
      requires IsCommand(command) && p + EntrySize(command) <= buffer.Length
      modifies this`state, this`live, this`out
      ensures World() == Apply(old(World()), FirstRecord(buffer[p..p + EntrySize(command)]))
    {
      RecordSlices(buffer[..], p);
      hide LittleEndian, Full, Count, Print, FirstRecord;
      var time := LittleEndian(buffer[p + 1..p + 5]);
      if time > state.time {
        PrintState();
        state := state.(time := time);
      } else if time < state.time {
        out := out + [TimeGoesBack(time, state.time)];
      }
      assert World() == SetTime(old(World()), time);
      if command == 1 {
        ParseMalloc(p + 5, time);
      } else if command == 2 {
        ParseRealloc(p + 5, time);
      } else {
        ParseFree(p + 5, time);
      }
    }

    // The number of bytes parsed, or -1 for garbage.
    method Parse(end: nat) returns (result: int)
      requires end <= buffer.Length
      modifies this`state, this`live, this`out
      ensures var p := ParseAll(old(World()), buffer[..end]);
        World() == p.world && result == if p.garbage then -1 else p.used
    {
      hide Apply, FirstRecord, ParseAll;
      result := 0;
      ghost var all := ParseAll(World(), buffer[..end]);
      assert buffer[0..end] == buffer[..end];
      while result < end
        invariant 0 <= result <= end
        invariant all == Later(ParseAll(World(), buffer[result..end]), result)
      {
        ParseStep(World(), buffer[result..end]);
        var command := buffer[result];
        if !IsCommand(command) {
          out := out + [GarbageCommand(SignedChar(command))];
          return -1;
        }
        var entry := EntrySize(command);
        if end - result < entry {
          return;
        }
        Slices(buffer[..], result, end, 0, entry);
        Slices(buffer[..], result, end, entry, end - result);
        ParseRecord(result, command);
        result := result + entry;
      }
      ParseNothing(World());
    }

    // Any read the C library allows: short reads are possible, nothing is read only at the end of the file.
    method Fread(at: nat, capacity: nat) returns (read: nat)
      requires at + capacity <= buffer.Length
      modifies this`unread, buffer
      ensures read <= capacity && read <= |old(unread)|
      ensures read == 0 <==> capacity == 0 || old(unread) == []
      ensures unread == old(unread)[read..]
      ensures buffer[..at + read] == old(buffer[..at]) + old(unread)[..read]
    {
      if capacity == 0 || unread == [] {
        assert buffer[..at] == buffer[..at + 0];
        return 0;
      }
      read :| 1 <= read <= capacity && read <= |unread|;
      forall i | 0 <= i < read {
        buffer[at + i] := unread[i];
      }
      unread := unread[read..];
    }

    method MoveDown(from: nat, count: nat)
      requires from + count <= buffer.Length
      modifies buffer
      ensures buffer[..count] == old(buffer[from..from + count])
    {
      forall i | 0 <= i < count {
        buffer[i] := buffer[from + i];
      }
    }

    method PrintResults()
      modifies this`out
      ensures World() == Finish(old(World()))
    {
      PrintState();
      out := out + [Totals(state.mallocs, state.reallocs, state.frees, state.unknownReallocs)];
    }

    // One turn of the loop: read, parse what is there, move the incomplete record to the front.
    method Turn(data: nat, ghost first: World, ghost file: seq<byte>) returns (kept: nat, stop: bool)
      requires buffer.Length == BUFFER_SIZE && data < 29
      requires Continues(World(), buffer[..data], unread, first, file)
      modifies this, buffer
      ensures if stop then Finish(World()) == Report(first, file) && (unread == [] || ParseAll(first, file).garbage)
              else kept < 29 && |unread| < |old(unread)| && Continues(World(), buffer[..kept], unread, first, file)
    {
      hide ParseAll, Report, Continues, Finish;
      ghost var w, pending, rest := World(), buffer[..data], unread;
      var read := Fread(data, buffer.Length - data);
      if read == 0 {
        AtEnd(w, pending, first, file);
        if data != 0 {
          out := out + [CorruptEnd(data)];
        }
        return data, true;
      }
      kept := data + read;
      Refilled(w, pending, rest, read, first, file);
      ghost var b := pending + rest[..read];
      assert buffer[..kept] == b;
      var parsed := Parse(kept);
      if parsed < 0 {
        return kept, true;
      }
      kept := kept - parsed;
      if kept > 0 {
        assert buffer[parsed..parsed + kept] == b[parsed..];
        MoveDown(parsed, kept);
      }
      assert buffer[..kept] == b[parsed..];
      stop := false;
    }

    // However the reads split the file, the run ends as one pass over the whole file does,
    // and it stops early only at a garbage command.
    method Run()
      requires buffer.Length == BUFFER_SIZE
      modifies this, buffer
      ensures World() == Report(old(World()), old(unread))
      ensures unread == [] || ParseAll(old(World()), old(unread)).garbage
    {
      ghost var first, file := World(), unread;
      ParseNothing(World());
      assert buffer[..0] == [] && [] + unread == unread;
      var data, stop := 0, false;
      while !stop
        invariant if stop then Finish(World()) == Report(first, file) && (unread == [] || ParseAll(first, file).garbage)
                  else 0 <= data < 29 && Continues(World(), buffer[..data], unread, first, file)
        decreases !stop, |unread|
      {
        data, stop := Turn(data, first, file);
      }
      PrintResults();
    }

    // Run on the file that a writer of records leaves, whole, torn inside a last record or followed by garbage:
    // every record is counted as it was written.
    method RunWritten(ghost records: seq<Record>, ghost tail: seq<byte>)
      requires buffer.Length == BUFFER_SIZE
      requires AllFit(records) && IsTail(tail)
      requires unread == FileBytes(records) + tail
      modifies this, buffer
      ensures World() == Finish(Noted(TraceAccounting.Run(old(World()), records), tail))
    {
      hide Report, Finish, Noted, TraceAccounting.Run, FileBytes, IsTail, ParseAll;
      ReportWritten(World(), records, tail);
      Run();
    }
  }
}
