/** The packer's own SHA-1: a scratch array of 80 words, the padding built in place. */
module PackerSha1 {
  import opened Sha1Spec

  function Sha1Shift(v: Word, shift: nat): Word
    requires 0 < shift < 32
  {
    (v << shift) | (v >> (32 - shift))
  }

  // The macro _shiftswap on the five working variables.
  function ShiftSwap(r: Regs, f: Word, v: Word, w: Word): Regs {
    Regs(Plus(Plus(Plus(Plus(Sha1Shift(r.a, 5), f), r.e), v), w), r.a, Sha1Shift(r.b, 30), r.c, r.d)
  }

  lemma NextRound(h: Regs, m: seq<Word>, t: nat, f: Word)
    requires |m| == 16
    requires var r := Rounds(h, m, t); f == F(t, r.b, r.c, r.d)
    ensures ShiftSwap(Rounds(h, m, t), f, K(t), W(m, t)) == Rounds(h, m, t + 1)
  {
    var r := Rounds(h, m, t);
    assert Sha1Shift(r.a, 5) == Rotl(r.a, 5);
    assert Sha1Shift(r.b, 30) == Rotl(r.b, 30);
  }

  lemma OrForms(x: Word, y: Word, z: Word)
    ensures (x & y) | (!x & z) == Ch(x, y, z)
    ensures (x & y) | (x & z) | (y & z) == Maj(x, y, z)
  {
  }

  function Choose(b: Word, c: Word, d: Word): (f: Word)
    ensures f == Ch(b, c, d)
  {
    OrForms(b, c, d);
    (b & c) | (!b & d)
  }

  function Majority(b: Word, c: Word, d: Word): (f: Word)
    ensures f == Maj(b, c, d)
  {
    OrForms(b, c, d);
    (b & c) | (b & d) | (c & d)
  }

  function RegsOf(s: seq<Word>): Regs
    requires |s| == 5
  {
    Regs(s[0], s[1], s[2], s[3], s[4])
  }

  ghost predicate Scheduled(temp: seq<Word>, m: seq<Word>, n: nat) {
    |m| == 16 && n <= |temp| && forall j :: 0 <= j < n ==> temp[j] == W(m, j)
  }

  lemma NextWord(temp: seq<Word>, m: seq<Word>, t: nat)
    requires 16 <= t < |temp| && Scheduled(temp, m, t)
    ensures Sha1Shift(Xor(temp[t - 3], temp[t - 8], temp[t - 14], temp[t - 16]), 1) == W(m, t)
  {
    assert temp[t - 3] == W(m, t - 3) && temp[t - 8] == W(m, t - 8);
    assert temp[t - 14] == W(m, t - 14) && temp[t - 16] == W(m, t - 16);
  }

  // The macro _shiftshiftswap.
  method ShiftShiftSwap(temp: array<Word>, round: nat, r: Regs, f: Word, v: Word, ghost h: Regs, ghost m: seq<Word>)
      returns (next: Regs)
    requires 16 <= round < temp.Length && Scheduled(temp[..], m, round)
    requires r == Rounds(h, m, round) && f == F(round, r.b, r.c, r.d) && v == K(round)
    modifies temp
    ensures Scheduled(temp[..], m, round + 1) && next == Rounds(h, m, round + 1)
  {
    hide Ch, Maj, Parity, Plus, Xor, Sha1Shift, Rotl, W;
    NextWord(temp[..], m, round);
    temp[round] := Sha1Shift(Xor(temp[round - 3], temp[round - 8], temp[round - 14], temp[round - 16]), 1);
    NextRound(h, m, round, f);
    next := ShiftSwap(r, f, v, temp[round]);
  }

  method AddTo(sha: array<Word>, r: Regs)
    requires sha.Length == 5
    modifies sha
    ensures var h := RegsOf(old(sha[..]));
            RegsOf(sha[..]) == Regs(Plus(h.a, r.a), Plus(h.b, r.b), Plus(h.c, r.c), Plus(h.d, r.d), Plus(h.e, r.e))
  {
    hide Plus;
    sha[0] := Plus(sha[0], r.a);
    sha[1] := Plus(sha[1], r.b);
    sha[2] := Plus(sha[2], r.c);
    sha[3] := Plus(sha[3], r.d);
    sha[4] := Plus(sha[4], r.e);
  }

  method Sha1PartHash(sha: array<Word>, temp: array<Word>)
    requires sha.Length == 5 && temp.Length == 80 && sha != temp
    modifies sha, temp
    ensures RegsOf(sha[..]) == Compress(RegsOf(old(sha[..])), old(temp[..16]))
  {
    ghost var m := temp[..16];
    ghost var h := RegsOf(sha[..]);
    var r, round := Regs(sha[0], sha[1], sha[2], sha[3], sha[4]), 0;
    assert r == Rounds(h, m, 0) && Scheduled(temp[..], m, 16);
    hide Choose, Majority, Ch, Maj, Parity, Plus, Sha1Shift, Rotl, Round, Rounds, ShiftSwap, W;
    while round < 16
      invariant 0 <= round <= 16 && r == Rounds(h, m, round)
      invariant Scheduled(temp[..], m, 16) && sha[..] == old(sha[..])
    {
      NextRound(h, m, round, Choose(r.b, r.c, r.d));
      r := ShiftSwap(r, Choose(r.b, r.c, r.d), 0x5a827999, temp[round]);
      round := round + 1;
    }
    while round < 20
      invariant 16 <= round <= 20 && r == Rounds(h, m, round)
      invariant Scheduled(temp[..], m, round) && sha[..] == old(sha[..])
    {
      r := ShiftShiftSwap(temp, round, r, Choose(r.b, r.c, r.d), 0x5a827999, h, m);
      round := round + 1;
    }
    while round < 40
      invariant 20 <= round <= 40 && r == Rounds(h, m, round)
      invariant Scheduled(temp[..], m, round) && sha[..] == old(sha[..])
    {
      r := ShiftShiftSwap(temp, round, r, Parity(r.b, r.c, r.d), 0x6ed9eba1, h, m);
      round := round + 1;
    }
    while round < 60
      invariant 40 <= round <= 60 && r == Rounds(h, m, round)
      invariant Scheduled(temp[..], m, round) && sha[..] == old(sha[..])
    {
      r := ShiftShiftSwap(temp, round, r, Majority(r.b, r.c, r.d), 0x8f1bbcdc, h, m);
      round := round + 1;
    }
    while round < 80
      invariant 60 <= round <= 80 && r == Rounds(h, m, round)
      invariant Scheduled(temp[..], m, round) && sha[..] == old(sha[..])
    {
      r := ShiftShiftSwap(temp, round, r, Parity(r.b, r.c, r.d), 0xca62c1d6, h, m);
      round := round + 1;
    }
    AddTo(sha, r);
  }

  // The bytes s, then zeros, read as words.
  function ByteAt(s: seq<Byte>, i: nat): Byte { if i < |s| then s[i] else 0 }

  function WordAt(s: seq<Byte>, j: nat): Word {
    BigEndian(ByteAt(s, 4 * j), ByteAt(s, 4 * j + 1), ByteAt(s, 4 * j + 2), ByteAt(s, 4 * j + 3))
  }

  function PutByte(w: Word, i: nat, x: Byte): Word {
    Or(w, Up(x as Word, 3 - i % 4))
  }

  lemma PutByteAppends(s: seq<Byte>, x: Byte, j: nat)
    ensures WordAt(s + [x], j) == if j == |s| / 4 then PutByte(WordAt(s, j), |s|, x) else WordAt(s, j)
  {
    hide BigEndian, Up, Or;
    forall i: nat ensures ByteAt(s + [x], i) == if i == |s| then x else ByteAt(s, i) {
    }
    if j == |s| / 4 {
      OrLast(ByteAt(s, 4 * j), ByteAt(s, 4 * j + 1), ByteAt(s, 4 * j + 2), x);
    }
  }

  lemma OrZero(u: Word)
    ensures Or(u, 0) == u == Or(0, u)
  {
  }

  lemma OrLast(b0: Byte, b1: Byte, b2: Byte, x: Byte)
    ensures BigEndian(x, 0, 0, 0) == Or(BigEndian(0, 0, 0, 0), Up(x as Word, 3))
    ensures BigEndian(b0, x, 0, 0) == Or(BigEndian(b0, 0, 0, 0), Up(x as Word, 2))
    ensures BigEndian(b0, b1, x, 0) == Or(BigEndian(b0, b1, 0, 0), Up(x as Word, 1))
    ensures BigEndian(b0, b1, b2, x) == Or(BigEndian(b0, b1, b2, 0), Up(x as Word, 0))
  {
    assert Up(0, 0) == 0 && Up(0, 1) == 0 && Up(0, 2) == 0 && Up(0, 3) == 0;
    hide Up, Or;
    forall u ensures Or(u, 0) == u == Or(0, u) {
      OrZero(u);
    }
  }

  lemma ZeroByteAt(n: nat, i: nat)
    ensures ByteAt(ZeroBytes(n), i) == 0
  {
    if n != 0 {
      ZeroByteAt(n - 1, i);
    }
  }

  // From any block boundary on, the marked message is the rest of the data, 0x80, and zeros.
  lemma MarkedTail(m: seq<Byte>, n: nat, i: nat)
    requires 64 * n <= |m|
    ensures ByteAt(Marked(m), 64 * n + i) == ByteAt(m[64 * n..] + [0x80], i)
  {
    if 64 * n + i > |m| {
      ZeroByteAt(Zeros(|m|), 64 * n + i - |m| - 1);
    }
  }

  lemma MarkedTailWord(m: seq<Byte>, n: nat, j: nat)
    requires 64 * n <= |m|
    ensures WordAt(Marked(m), 16 * n + j) == WordAt(m[64 * n..] + [0x80], j)
  {
    hide BigEndian;
    MarkedTail(m, n, 4 * j);
    MarkedTail(m, n, 4 * j + 1);
    MarkedTail(m, n, 4 * j + 2);
    MarkedTail(m, n, 4 * j + 3);
  }

  // len << 3 for a length held in 32 bits.
  function LengthField(len: nat): Word { Bits(len) << 3 }

  // What the code hashes: its length field is the 32-bit product len << 3, the word before it stays zero.
  function CodePadded(m: seq<Byte>): (w: seq<Word>)
    ensures |w| == 16 * Blocks(|m|)
  {
    Words(Marked(m), 16 * Blocks(|m|) - 2) + [0, LengthField(|m|)]
  }

  function Doubled(x: Word): Word { x << 1 }

  function Mask(k: nat): Word { if k == 0 then 0xffff_ffff else Doubled(Mask(k - 1)) }

  function Pow2(k: nat): nat { if k == 0 then 1 else 2 * Pow2(k - 1) }

  predicate Apart(x: Word, mask: Word) { x & mask == 0 }

  lemma BitApart(x: Word, mask: Word, one: bool)
    requires Apart(x, mask)
    ensures Apart(WithBit(x, one), Doubled(mask))
  {
  }

  lemma ZeroApart(mask: Word)
    ensures Apart(0, mask)
  {
  }

  lemma {:induction false} BitsBelow(n: nat, k: nat)
    requires n < Pow2(k)
    ensures Apart(Bits(n), Mask(k))
  {
    hide Apart, WithBit, Doubled;
    if k != 0 && n != 0 {
      BitsBelow(n / 2, k - 1);
      BitApart(Bits(n / 2), Mask(k - 1), n % 2 == 1);
    } else {
      ZeroApart(Mask(k));
    }
  }

  lemma TopBit()
    ensures Mask(31) == 0x8000_0000 && Pow2(31) == 0x8000_0000
  {
    assert Mask(8) == 0xffff_ff00 && Pow2(8) == 0x100;
    assert Mask(16) == 0xffff_0000 && Pow2(16) == 0x1_0000;
    assert Mask(24) == 0xff00_0000 && Pow2(24) == 0x100_0000;
  }

  lemma {:induction false} BitsNonZero(n: nat)
    requires 0 < n < 0x1_0000_0000
    ensures Bits(n) != 0
  {
    if n % 2 == 0 {
      TopBit();
      BitsBelow(n / 2, 31);
      BitsNonZero(n / 2);
    }
  }

  lemma ShiftThrice(x: Word)
    ensures ((x << 1) << 1) << 1 == x << 3
  {
  }

  lemma BitsTwice(n: nat)
    ensures Bits(2 * n) == Bits(n) << 1
  {
  }

  lemma BitsTimes8(n: nat)
    ensures Bits(8 * n) == Bits(n) << 3
  {
    hide Bits;
    BitsTwice(n);
    BitsTwice(2 * n);
    BitsTwice(4 * n);
    ShiftThrice(Bits(n));
  }

  // The padding built in place is the padding of section 5.1.1 exactly for messages below 2^29 bytes.
  lemma PaddingExact(m: seq<Byte>)
    requires |m| < 0x1_0000_0000
    ensures CodePadded(m) == Padded(m) <==> |m| < 0x2000_0000
  {
    var bits := 8 * |m|;
    var n := 16 * Blocks(|m|) - 2;
    BitsTimes8(|m|);
    if |m| < 0x2000_0000 {
      assert bits / 0x1_0000_0000 == 0;
    } else {
      BitsNonZero(bits / 0x1_0000_0000);
      assert CodePadded(m)[n] == 0 && Padded(m)[n] == Bits(bits / 0x1_0000_0000);
    }
  }

  lemma OrLaws(x: Word, y: Word, z: Word)
    ensures Or(x, y) == Or(y, x)
    ensures Or(x, Or(y, z)) == Or(Or(x, y), z)
  {
  }

  // Four bytes gathered from the last one to the first one.
  function LoadWord(b0: Byte, b1: Byte, b2: Byte, b3: Byte): (w: Word)
    ensures w == BigEndian(b0, b1, b2, b3)
  {
    hide Up, Or;
    var u, v, x, y := Up(b0 as Word, 3), Up(b1 as Word, 2), Up(b2 as Word, 1), Up(b3 as Word, 0);
    OrLaws(y, Or(Or(u, v), x), y);
    OrLaws(x, Or(u, v), y);
    OrLaws(y, x, Or(u, v));
    OrLaws(v, u, y);
    OrLaws(Or(y, x), v, u);
    Or(Or(Or(Up(b3 as Word, 0), Up(b2 as Word, 1)), Up(b1 as Word, 2)), Up(b0 as Word, 3))
  }

  ghost predicate Holds(temp: seq<Word>, s: seq<Byte>) {
    16 <= |temp| && forall j :: 0 <= j < 16 ==> temp[j] == WordAt(s, j)
  }

  // The inner loop of the block loop.
  method LoadBlock(data: array<Byte>, start: nat, temp: array<Word>) returns (block: nat)
    requires start + 64 <= data.Length && temp.Length == 80
    modifies temp
    ensures block == start + 64 && Holds(temp[..], data[start..])
  {
    hide BigEndian, LoadWord;
    var i, end := 0, start + 64;
    block := start;
    while block < end
      invariant 0 <= i <= 16 && block == start + 4 * i
      invariant forall j :: 0 <= j < i ==> temp[j] == WordAt(data[start..], j)
    {
      temp[i] := LoadWord(data[block], data[block + 1], data[block + 2], data[block + 3]);
      i, block := i + 1, block + 4;
    }
  }

  method Clear(temp: array<Word>)
    requires temp.Length == 80
    modifies temp
    ensures Holds(temp[..], [])
  {
    assert forall j: nat :: WordAt([], j) == 0;
    for i := 0 to 16
      invariant forall j :: 0 <= j < i ==> temp[j] == 0
    {
      temp[i] := 0;
    }
  }

  method AddByte(temp: array<Word>, last: nat, x: Byte, ghost s: seq<Byte>)
    requires temp.Length == 80 && last == |s| < 64 && Holds(temp[..], s)
    modifies temp
    ensures Holds(temp[..], s + [x])
  {
    hide WordAt, PutByte;
    forall j | 0 <= j < 16
      ensures WordAt(s + [x], j) == if j == last / 4 then PutByte(WordAt(s, j), last, x) else WordAt(s, j)
    {
      PutByteAppends(s, x, j);
    }
    temp[last / 4] := PutByte(temp[last / 4], last, x);
  }

  // The bytes after the last whole block and the marker 0x80.
  method PackTail(data: array<Byte>, block: nat, temp: array<Word>)
    requires block <= data.Length < block + 64 && temp.Length == 80
    modifies temp
    ensures Holds(temp[..], data[block..] + [0x80])
  {
    hide Holds, WordAt;
    Clear(temp);
    var end, last := data.Length - block, 0;
    assert data[block..block] == [];
    while last < end
      invariant 0 <= last <= end && Holds(temp[..], data[block..block + last])
    {
      AddByte(temp, last, data[last + block], data[block..block + last]);
      assert data[block..block + last] + [data[last + block]] == data[block..block + last + 1];
      last := last + 1;
    }
    assert data[block..block + end] == data[block..];
    AddByte(temp, last, 0x80, data[block..]);
  }

  lemma CodeWord(m: seq<Byte>, n: nat, j: nat)
    requires 64 * n <= |m| && 16 * n + j < 16 * Blocks(|m|) - 2
    ensures CodePadded(m)[16 * n + j] == WordAt(m[64 * n..] + [0x80], j)
  {
    hide BigEndian;
    MarkedTailWord(m, n, j);
  }

  lemma WholeBlock(m: seq<Byte>, n: nat, temp: seq<Word>)
    requires 64 * (n + 1) <= |m| && Holds(temp, m[64 * n..])
    ensures n + 1 < Blocks(|m|)
    ensures temp[..16] == CodePadded(m)[16 * n..16 * (n + 1)]
  {
    hide BigEndian, Blocks, Zeros;
    BlocksOfLength(|m|);
    forall j | 0 <= j < 16 ensures temp[j] == CodePadded(m)[16 * n + j] {
      CodeWord(m, n, j);
    }
  }

  // The tail leaves room for the length.
  lemma ShortTail(m: seq<Byte>, n: nat, temp: seq<Word>)
    requires 64 * n <= |m| < 64 * n + 56 && Holds(temp, m[64 * n..] + [0x80])
    ensures Blocks(|m|) == n + 1
    ensures temp[..16][15 := LengthField(|m|)] == CodePadded(m)[16 * n..16 * (n + 1)]
  {
    assert BigEndian(0, 0, 0, 0) == 0 by {
      assert Up(0, 3) == 0 && Up(0, 2) == 0 && Up(0, 1) == 0 && Up(0, 0) == 0 && Or(0, 0) == 0;
      hide Up, Or;
    }
    hide BigEndian, LengthField, Blocks, Zeros;
    BlocksOf(n, |m| - 64 * n);
    forall j | 0 <= j < 14 ensures temp[j] == CodePadded(m)[16 * n + j] {
      CodeWord(m, n, j);
    }
  }

  // The tail fills its block; the length stands after zeros in a block of its own.
  lemma LongTail(m: seq<Byte>, n: nat, temp: seq<Word>)
    requires 64 * n + 56 <= |m| < 64 * (n + 1) && Holds(temp, m[64 * n..] + [0x80])
    ensures Blocks(|m|) == n + 2 && temp[..16] == CodePadded(m)[16 * n..16 * (n + 1)]
  {
    hide BigEndian, LengthField, Blocks, Zeros;
    BlocksOf(n, |m| - 64 * n);
    forall j | 0 <= j < 16 ensures temp[j] == CodePadded(m)[16 * n + j] {
      CodeWord(m, n, j);
    }
  }

  lemma LengthBlock(m: seq<Byte>, n: nat, temp: seq<Word>)
    requires 64 * n + 56 <= |m| < 64 * (n + 1) && Holds(temp, [])
    ensures Blocks(|m|) == n + 2
    ensures temp[..16][15 := LengthField(|m|)] == CodePadded(m)[16 * (n + 1)..16 * (n + 2)]
  {
    assert BigEndian(0, 0, 0, 0) == 0 by {
      assert Up(0, 3) == 0 && Up(0, 2) == 0 && Up(0, 1) == 0 && Up(0, 0) == 0 && Or(0, 0) == 0;
      hide Up, Or;
    }
    hide BigEndian, LengthField, Blocks, Zeros;
    BlocksOf(n, |m| - 64 * n);
    assert Blocks(|m|) == n + 2;
    forall j | 0 <= j < 14 ensures temp[j] == CodePadded(m)[16 * (n + 1) + j] {
      assert 16 * (n + 1) + j == 16 * n + (16 + j);
      CodeWord(m, n, 16 + j);
    }
  }

  method StoreDigest(sha: array<Word>, dest: array<Byte>)
    requires sha.Length == 5 && dest.Length == 20
    modifies dest
    ensures dest[..] == Digest(RegsOf(sha[..]))
  {
    hide LowByte, Down;
    var i := 19;
    while i >= 0
      invariant -1 <= i <= 19
      invariant forall j :: i < j < 20 ==> dest[j] == ByteOf(sha[j / 4], j % 4)
    {
      dest[i] := LowByte(Down(sha[i / 4], (3 - i) % 4));
      i := i - 1;
    }
  }

  // The last one or two blocks.
  method HashTail(data: array<Byte>, block: nat, sha: array<Word>, temp: array<Word>, ghost n: nat)
    requires sha.Length == 5 && temp.Length == 80 && sha != temp
    requires block == 64 * n <= data.Length < block + 64
    requires RegsOf(sha[..]) == HashBlocks(CodePadded(data[..]), n)
    modifies sha, temp
    ensures RegsOf(sha[..]) == HashBlocks(CodePadded(data[..]), Blocks(data.Length))
  {
    hide Holds, CodePadded, Compress, LengthField;
    ghost var m, last := data[..], n;
    var end := data.Length - block;
    PackTail(data, block, temp);
    if end >= 56 {
      LongTail(m, n, temp[..]);
      Sha1PartHash(sha, temp);
      Clear(temp);
      LengthBlock(m, n, temp[..]);
      last := n + 1;
    } else {
      ShortTail(m, n, temp[..]);
    }
    ghost var before := temp[..16];
    temp[15] := LengthField(data.Length);
    assert temp[..16] == before[15 := LengthField(|m|)];
    Sha1PartHash(sha, temp);
  }

  // The caller's length is a uint32; in its last 64 values the cursor of the block loop would wrap around.
  method HashSha1(data: array<Byte>, dest: array<Byte>)
    requires data.Length < 0xffff_ffc0 && dest.Length == 20
    modifies dest
    ensures dest[..] == Digest(HashBlocks(CodePadded(old(data[..])), Blocks(data.Length)))
    ensures data.Length < 0x2000_0000 ==> dest[..] == Sha1(old(data[..]))
  {
    hide Holds, CodePadded, Compress, Digest, Padded;
    var len := data.Length;
    ghost var m := data[..];
    ghost var cp := CodePadded(m);
    var temp := new Word[80];
    var sha := new Word[5];
    sha[0], sha[1], sha[2], sha[3], sha[4] := 0x67452301, 0xefcdab89, 0x98badcfe, 0x10325476, 0xc3d2e1f0;
    var block := 0;
    ghost var n := 0;
    while block + 64 <= len
      invariant block == 64 * n <= len && RegsOf(sha[..]) == HashBlocks(cp, n)
      invariant data[..] == m
    {
      block := LoadBlock(data, block, temp);
      WholeBlock(m, n, temp[..]);
      Sha1PartHash(sha, temp);
      n := n + 1;
    }
    HashTail(data, block, sha, temp, n);
    StoreDigest(sha, dest);
    if len < 0x2000_0000 {
      PaddingExact(m);
    }
  }
}
