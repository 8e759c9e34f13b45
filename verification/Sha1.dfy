/** SHA-1 as sections 4.1.1, 4.2.1, 5.1.1, 5.2.1, 5.3.1 and 6.1.2 of FIPS 180-4 define it. */
module Sha1Spec {
  type Byte = bv8
  type Word = bv32

  datatype Regs = Regs(a: Word, b: Word, c: Word, d: Word, e: Word)

  // Section 5.3.1: the initial hash value.
  const H0 := Regs(0x67452301, 0xefcdab89, 0x98badcfe, 0x10325476, 0xc3d2e1f0)

  // Section 2.2.2: rotation to the left by n bits.
  function Rotl(x: Word, n: nat): Word
    requires 0 < n < 32
  {
    (x << n) | (x >> (32 - n))
  }

  // Section 4.1.1.
  function Ch(x: Word, y: Word, z: Word): Word { (x & y) ^ (!x & z) }

  function Parity(x: Word, y: Word, z: Word): Word { x ^ y ^ z }

  function Maj(x: Word, y: Word, z: Word): Word { (x & y) ^ (x & z) ^ (y & z) }

  function F(t: nat, x: Word, y: Word, z: Word): Word {
    if t < 20 then Ch(x, y, z)
    else if t < 40 then Parity(x, y, z)
    else if t < 60 then Maj(x, y, z)
    else Parity(x, y, z)
  }

  // Section 4.2.1.
  function K(t: nat): Word {
    if t < 20 then 0x5a827999
    else if t < 40 then 0x6ed9eba1
    else if t < 60 then 0x8f1bbcdc
    else 0xca62c1d6
  }

  function Xor(u: Word, v: Word, x: Word, y: Word): Word { u ^ v ^ x ^ y }

  // Step 1 of section 6.1.2: the message schedule of one block.
  function W(m: seq<Word>, t: nat): Word
    requires |m| == 16
  {
    if t < 16 then m[t]
    else Rotl(Xor(W(m, t - 3), W(m, t - 8), W(m, t - 14), W(m, t - 16)), 1)
  }

  function Or(x: Word, y: Word): Word { x | y }

  // Section 2.2.2: addition modulo 2^32.
  function Plus(x: Word, y: Word): Word { x + y }

  // Step 3 of section 6.1.2: one round.
  function Round(r: Regs, f: Word, k: Word, w: Word): Regs {
    Regs(Plus(Plus(Plus(Plus(Rotl(r.a, 5), f), r.e), k), w), r.a, Rotl(r.b, 30), r.c, r.d)
  }

  // Steps 2 and 3 of section 6.1.2: the working variables after the first t rounds.
  function Rounds(h: Regs, m: seq<Word>, t: nat): Regs
    requires |m| == 16
  {
    if t == 0 then h
    else
      var r := Rounds(h, m, t - 1);
      Round(r, F(t - 1, r.b, r.c, r.d), K(t - 1), W(m, t - 1))
  }

  // Step 4 of section 6.1.2.
  function Compress(h: Regs, m: seq<Word>): Regs
    requires |m| == 16
  {
    var r := Rounds(h, m, 80);
    Regs(Plus(h.a, r.a), Plus(h.b, r.b), Plus(h.c, r.c), Plus(h.d, r.d), Plus(h.e, r.e))
  }

  // The hash value after the first n blocks.
  function HashBlocks(m: seq<Word>, n: nat): Regs
    requires 16 * n <= |m|
  {
    if n == 0 then H0 else Compress(HashBlocks(m, n - 1), m[16 * (n - 1)..16 * n])
  }

  function BigEndian(b0: Byte, b1: Byte, b2: Byte, b3: Byte): Word {
    Or(Or(Or(Up(b0 as Word, 3), Up(b1 as Word, 2)), Up(b2 as Word, 1)), Up(b3 as Word, 0))
  }

  // Section 5.2.1: bytes read as 32-bit words, most significant byte first.
  function Words(s: seq<Byte>, n: nat): (w: seq<Word>)
    requires |s| == 4 * n
    ensures |w| == n
  {
    seq(n, j requires 0 <= j < n => BigEndian(s[4 * j], s[4 * j + 1], s[4 * j + 2], s[4 * j + 3]))
  }

  // Section 5.1.1: how many zero bytes follow the byte 0x80 (k = 8 * Zeros + 7 zero bits).
  predicate Fills(len: nat, z: nat) { (len + 1 + z) % 64 == 56 }

  function Zeros(len: nat): (z: nat)
    ensures Fills(len, z)
  {
    (55 - len) % 64
  }

  lemma ZerosLeast(len: nat, z: nat)
    requires z < Zeros(len)
    ensures !Fills(len, z)
  {
  }

  function ZeroBytes(n: nat): (s: seq<Byte>)
    ensures |s| == n
  {
    if n == 0 then [] else ZeroBytes(n - 1) + [0]
  }

  // The number of 512-bit blocks after padding.
  function Blocks(len: nat): nat { (len + 8) / 64 + 1 }

  lemma Division(a: int, q: int, r: int)
    requires a == 64 * q + r && 0 <= r < 64
    ensures a / 64 == q && a % 64 == r
  {
  }

  // The last block holds the length as well, if its tail leaves 8 bytes; otherwise one more block does.
  lemma BlocksOf(q: int, r: int)
    requires 0 <= q && 0 <= r < 64
    ensures Blocks(64 * q + r) == if r < 56 then q + 1 else q + 2
    ensures Zeros(64 * q + r) == if r < 56 then 55 - r else 119 - r
  {
    if r < 56 {
      Division(64 * q + r + 8, q, r + 8);
      Division(55 - (64 * q + r), -q, 55 - r);
    } else {
      Division(64 * q + r + 8, q + 1, r - 56);
      Division(55 - (64 * q + r), -q - 1, 119 - r);
    }
  }

  lemma BlocksOfLength(len: nat)
    ensures 64 * (len / 64) + len % 64 == len
    ensures Blocks(len) == if len % 64 < 56 then len / 64 + 1 else len / 64 + 2
    ensures len + 1 + Zeros(len) == 64 * Blocks(len) - 8
  {
    BlocksOf(len / 64, len % 64);
    hide Blocks, Zeros;
  }

  function Marked(m: seq<Byte>): (s: seq<Byte>)
    ensures |s| == 64 * Blocks(|m|) - 8
  {
    BlocksOfLength(|m|);
    m + [0x80] + ZeroBytes(Zeros(|m|))
  }

  function WithBit(x: Word, one: bool): Word { (x << 1) | (if one then 1 else 0) }

  // The 32 low bits of the binary representation of n.
  function Bits(n: nat): Word { if n == 0 then 0 else WithBit(Bits(n / 2), n % 2 == 1) }

  // Section 5.1.1: the padded message, its 64-bit length in the two last words.
  function Padded(m: seq<Byte>): (w: seq<Word>)
    requires |m| < 0x2000_0000_0000_0000
    ensures |w| == 16 * Blocks(|m|)
  {
    Words(Marked(m), 16 * Blocks(|m|) - 2) + [Bits(8 * |m| / 0x1_0000_0000), Bits(8 * |m|)]
  }

  // Byte k of a word, counted from the most significant one.
  function ByteOf(x: Word, k: nat): Byte
    requires k < 4
  {
    LowByte(Down(x, 3 - k))
  }

  function LowByte(x: Word): Byte { (x & 0xff) as Byte }

  // Shifts by whole bytes, the distance being one of four constants.
  function Down(x: Word, k: nat): Word
    requires k < 4
  {
    if k == 0 then x else if k == 1 then x >> 8 else if k == 2 then x >> 16 else x >> 24
  }

  function Up(x: Word, k: nat): Word
    requires k < 4
  {
    if k == 0 then x else if k == 1 then x << 8 else if k == 2 then x << 16 else x << 24
  }

  // Section 6.1.2: the digest H0 || H1 || H2 || H3 || H4.
  function Digest(h: Regs): (s: seq<Byte>)
    ensures |s| == 20
  {
    var words := [h.a, h.b, h.c, h.d, h.e];
    seq(20, i requires 0 <= i < 20 => ByteOf(words[i / 4], i % 4))
  }

  function Sha1(m: seq<Byte>): (s: seq<Byte>)
    requires |m| < 0x2000_0000_0000_0000
    ensures |s| == 20
  {
    Digest(HashBlocks(Padded(m), Blocks(|m|)))
  }

  // The operations on three words whose bits together run through all eight cases, and on words that carry or shift
  // out: as the operations treat all positions of a word alike, these values tell each of them from any other.

  lemma ThreeWords()
    ensures Ch(0xf0f0_f0f0, 0xcccc_cccc, 0xaaaa_aaaa) == 0xcaca_caca
    ensures Parity(0xf0f0_f0f0, 0xcccc_cccc, 0xaaaa_aaaa) == 0x9696_9696
    ensures Maj(0xf0f0_f0f0, 0xcccc_cccc, 0xaaaa_aaaa) == 0xe8e8_e8e8
    ensures Or(0xf0f0_f0f0, 0xcccc_cccc) == 0xfcfc_fcfc
  {
  }

  lemma FourWords()
    ensures Xor(0xff00_ff00, 0xf0f0_f0f0, 0xcccc_cccc, 0xaaaa_aaaa) == 0x6996_6996
  {
  }

  lemma SumsAndShifts()
    ensures Plus(0xffff_ffff, 1) == 0 && Plus(0x89ab_cdef, 0x1234_5678) == 0x9be0_2467
    ensures Rotl(0x8123_4567, 5) == 0x2468_acf0 && Rotl(0x8123_4567, 30) == 0xe048_d159
    ensures Rotl(0x8123_4567, 1) == 0x0246_8acf
  {
  }

  lemma BytesOfWord()
    ensures BigEndian(0x81, 0x23, 0x45, 0x67) == 0x8123_4567
    ensures ByteOf(0x8123_4567, 0) == 0x81 && ByteOf(0x8123_4567, 1) == 0x23
    ensures ByteOf(0x8123_4567, 2) == 0x45 && ByteOf(0x8123_4567, 3) == 0x67
  {
  }

  lemma WithBitPlus(x: Word)
    ensures WithBit(x, true) == Plus(WithBit(x, false), 1)
    ensures WithBit(Plus(x, 1), false) == Plus(WithBit(x, true), 1)
  {
  }

  // Counting modulo 2^32.
  lemma {:induction false} BitsCount(n: nat)
    ensures Bits(0) == 0
    ensures Bits(n + 1) == Plus(Bits(n), 1)
  {
    hide WithBit, Plus;
    WithBitPlus(Bits(n / 2));
    if n % 2 == 0 {
      assert (n + 1) / 2 == n / 2;
      if n == 0 {
        assert WithBit(0, false) == 0 by { WithBitOfNothing(); }
      }
    } else {
      assert (n + 1) / 2 == n / 2 + 1;
      BitsCount(n / 2);
    }
  }

  lemma WithBitOfNothing()
    ensures WithBit(0, false) == 0
  {
  }
}
