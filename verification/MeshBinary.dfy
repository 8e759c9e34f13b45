/** The .binobj format: big-endian 32-bit counts, float bit patterns and corner indices. */
module MeshBinary {
  type byte = x: int | 0 <= x < 0x100
  type Word = x: int | 0 <= x < 0x1_0000_0000  // the bit pattern of a 32-bit float

  datatype Corner = Corner(position: int, uv: int, normal: int)

  datatype Mesh = Mesh(positions: seq<Word>, uvs: seq<Word>, normals: seq<Word>, corners: seq<Corner>)

  datatype Error = StructError | TrailingBytes

  datatype Result<+T> = Ok(value: T) | Err(error: Error) {
    predicate IsFailure() { Err? }
    function PropagateFailure<U>(): Result<U> requires Err? { Err(error) }
    function Extract(): T requires Ok? { value }
  }

  function PackWord(n: Word): (b: seq<byte>)
    ensures |b| == 4
  {
    var q1 := n / 0x100;
    var q2 := q1 / 0x100;
    var q3 := q2 / 0x100;
    [q3, q2 % 0x100, q1 % 0x100, n % 0x100]
  }

  function ReadWord(b: seq<byte>, at: nat): Word
    requires at + 4 <= |b|
  {
    Number(b[at], b[at + 1], b[at + 2], b[at + 3])
  }

  function Number(b0: byte, b1: byte, b2: byte, b3: byte): Word {
    0x100 * (0x100 * (0x100 * b0 + b1) + b2) + b3
  }

  predicate IsInt32(n: int) { -0x8000_0000 <= n < 0x8000_0000 }

  function PackInt(n: int): (b: seq<byte>)
    requires IsInt32(n)
    ensures |b| == 4
  {
    PackWord(if n < 0 then n + 0x1_0000_0000 else n)
  }

  function ReadInt(b: seq<byte>, at: nat): (n: int)
    requires at + 4 <= |b|
    ensures IsInt32(n)
  {
    var w := ReadWord(b, at);
    if w < 0x8000_0000 then w else w - 0x1_0000_0000
  }

  lemma PackNumber(b0: byte, b1: byte, b2: byte, b3: byte)
    ensures PackWord(Number(b0, b1, b2, b3)) == [b0, b1, b2, b3]
  {
    var n := Number(b0, b1, b2, b3);
    assert n / 0x100 == 0x100 * (0x100 * b0 + b1) + b2;
    assert n / 0x100 / 0x100 == 0x100 * b0 + b1;
    assert n / 0x100 / 0x100 / 0x100 == b0;
  }

  lemma PackRead(b: seq<byte>, at: nat)
    requires at + 4 <= |b|
    ensures PackWord(ReadWord(b, at)) == b[at..at + 4]
    ensures PackInt(ReadInt(b, at)) == b[at..at + 4]
  {
    hide Number, PackWord;
    PackNumber(b[at], b[at + 1], b[at + 2], b[at + 3]);
  }

  lemma ReadPack(n: Word)
    ensures ReadWord(PackWord(n), 0) == n
  {
  }

  lemma ReadPackInt(n: int)
    requires IsInt32(n)
    ensures ReadInt(PackInt(n), 0) == n
  {
    ReadPack(if n < 0 then n + 0x1_0000_0000 else n);
  }

  // struct.pack of several floats, struct.unpack_from of several floats.
  function PackWords(ws: seq<Word>): (b: seq<byte>)
    ensures |b| == 4 * |ws|
  {
    if ws == [] then [] else PackWords(ws[..|ws| - 1]) + PackWord(ws[|ws| - 1])
  }

  function ReadWords(b: seq<byte>, at: nat, n: nat): (ws: seq<Word>)
    requires at + 4 * n <= |b|
    ensures |ws| == n
  {
    if n == 0 then [] else ReadWords(b, at, n - 1) + [ReadWord(b, at + 4 * (n - 1))]
  }

  lemma {:induction false} PackReadWords(b: seq<byte>, at: nat, n: nat)
    requires at + 4 * n <= |b|
    ensures PackWords(ReadWords(b, at, n)) == b[at..at + 4 * n]
  {
    if n == 0 {
    } else {
      var last := at + 4 * (n - 1);
      PackWordsSnoc(ReadWords(b, at, n - 1), ReadWord(b, last));
      hide PackWord, ReadWord, PackWords;
      PackReadWords(b, at, n - 1);
      PackRead(b, last);
      JoinedSlices(b, at, last, last + 4);
    }
  }

  lemma PackWordsSnoc(ws: seq<Word>, w: Word)
    ensures PackWords(ws + [w]) == PackWords(ws) + PackWord(w)
  {
    hide PackWord;
    assert (ws + [w])[..|ws|] == ws;
  }

  lemma JoinedSlices(b: seq<byte>, i: nat, j: nat, k: nat)
    requires i <= j <= k <= |b|
    ensures b[i..j] + b[j..k] == b[i..k]
  {
  }

  lemma Regrouped(x: seq<byte>, y: seq<byte>, z: seq<byte>, post: seq<byte>)
    ensures x + (y + z) + post == x + y + (z + post) == x + y + z + post
  {
  }

  lemma ReadInside(pre: seq<byte>, b: seq<byte>, post: seq<byte>)
    requires |b| == 4
    ensures ReadWord(pre + b + post, |pre|) == ReadWord(b, 0)
    ensures ReadInt(pre + b + post, |pre|) == ReadInt(b, 0)
  {
    hide Number;
    var s := pre + b + post;
    assert s[|pre|] == b[0] && s[|pre| + 1] == b[1] && s[|pre| + 2] == b[2] && s[|pre| + 3] == b[3];
  }

  lemma {:induction false} ReadPackWords(pre: seq<byte>, ws: seq<Word>, post: seq<byte>)
    ensures ReadWords(pre + PackWords(ws) + post, |pre|, |ws|) == ws
    decreases |ws|
  {
    if ws == [] {
    } else {
      var n := |ws| - 1;
      var before, last := PackWords(ws[..n]), PackWord(ws[n]);
      assert PackWords(ws) == before + last;
      hide PackWord, ReadWord, PackWords;
      ReadPackWords(pre, ws[..n], last + post);
      Regrouped(pre, before, last, post);
      ReadInside(pre + before, last, post);
      ReadPack(ws[n]);
    }
  }

  // A count and that many floats.
  function Section(ws: seq<Word>): seq<byte>
    requires IsInt32(|ws|)
  {
    PackInt(|ws|) + PackWords(ws)
  }

  function ReadSection(b: seq<byte>, at: nat): (r: Result<(seq<Word>, nat)>)
    ensures r.Ok? ==> IsInt32(|r.value.0|) && at + 4 + 4 * |r.value.0| == r.value.1 <= |b|
  {
    if at + 4 > |b| then Err(StructError)
    else
      var n := ReadInt(b, at);
      if n < 0 || at + 4 + 4 * n > |b| then Err(StructError)
      else Ok((ReadWords(b, at + 4, n), at + 4 + 4 * n))
  }

  lemma SectionOfRead(b: seq<byte>, at: nat)
    requires ReadSection(b, at).Ok?
    ensures var (ws, next) := ReadSection(b, at).value;
      Section(ws) == b[at..next]
  {
    hide PackInt, ReadInt, PackWords, ReadWords;
    var n := ReadInt(b, at);
    PackRead(b, at);
    PackReadWords(b, at + 4, n);
    assert b[at..at + 4 + 4 * n] == b[at..at + 4] + b[at + 4..at + 4 + 4 * n];
  }

  lemma ReadOfSection(pre: seq<byte>, ws: seq<Word>, post: seq<byte>)
    requires IsInt32(|ws|)
    ensures ReadSection(pre + Section(ws) + post, |pre|) == Ok((ws, |pre + Section(ws)|))
  {
    hide PackInt, ReadInt, PackWords, ReadWords;
    var head := PackInt(|ws|);
    var b := pre + Section(ws) + post;
    ReadInside(pre, head, PackWords(ws) + post);
    assert b == pre + head + (PackWords(ws) + post);
    ReadPackInt(|ws|);
    ReadPackWords(pre + head, ws, post);
    assert b == pre + head + PackWords(ws) + post;
  }

  // Corners: three signed indices each.
  predicate CornerFits(c: Corner) { IsInt32(c.position) && IsInt32(c.uv) && IsInt32(c.normal) }

  function PackCorner(c: Corner): (b: seq<byte>)
    requires CornerFits(c)
    ensures |b| == 12
  {
    PackInt(c.position) + PackInt(c.uv) + PackInt(c.normal)
  }

  function ReadCorner(b: seq<byte>, at: nat): (c: Corner)
    requires at + 12 <= |b|
    ensures CornerFits(c)
  {
    Corner(ReadInt(b, at), ReadInt(b, at + 4), ReadInt(b, at + 8))
  }

  predicate CornersFit(cs: seq<Corner>) { forall i :: 0 <= i < |cs| ==> CornerFits(cs[i]) }

  function PackCorners(cs: seq<Corner>): (b: seq<byte>)
    requires CornersFit(cs)
    ensures |b| == 12 * |cs|
  {
    if cs == [] then [] else PackCorners(cs[..|cs| - 1]) + PackCorner(cs[|cs| - 1])
  }

  function ReadCorners(b: seq<byte>, at: nat, n: nat): (cs: seq<Corner>)
    requires at + 12 * n <= |b|
    ensures |cs| == n && CornersFit(cs)
  {
    if n == 0 then [] else ReadCorners(b, at, n - 1) + [ReadCorner(b, at + 12 * (n - 1))]
  }

  lemma PackReadCorner(b: seq<byte>, at: nat)
    requires at + 12 <= |b|
    ensures PackCorner(ReadCorner(b, at)) == b[at..at + 12]
  {
    hide PackInt, ReadInt;
    PackRead(b, at);
    PackRead(b, at + 4);
    PackRead(b, at + 8);
  }

  lemma {:induction false} PackReadCorners(b: seq<byte>, at: nat, n: nat)
    requires at + 12 * n <= |b|
    ensures PackCorners(ReadCorners(b, at, n)) == b[at..at + 12 * n]
  {
    hide PackCorner, ReadCorner;
    if n != 0 {
      PackReadCorners(b, at, n - 1);
      PackReadCorner(b, at + 12 * (n - 1));
      assert ReadCorners(b, at, n)[..n - 1] == ReadCorners(b, at, n - 1);
      assert b[at..at + 12 * n] == b[at..at + 12 * (n - 1)] + b[at + 12 * (n - 1)..at + 12 * n];
    }
  }

  lemma ReadPackCorner(pre: seq<byte>, c: Corner, post: seq<byte>)
    requires CornerFits(c)
    ensures ReadCorner(pre + PackCorner(c) + post, |pre|) == c
  {
    hide PackInt, ReadInt;
    var x, y, z := PackInt(c.position), PackInt(c.uv), PackInt(c.normal);
    var b := pre + PackCorner(c) + post;
    ReadPackInt(c.position);
    ReadPackInt(c.uv);
    ReadPackInt(c.normal);
    ReadInside(pre, x, y + z + post);
    assert b == pre + x + (y + z + post);
    ReadInside(pre + x, y, z + post);
    assert b == pre + x + y + (z + post);
    ReadInside(pre + x + y, z, post);
    assert b == pre + x + y + z + post;
  }

  lemma {:induction false} ReadPackCorners(pre: seq<byte>, cs: seq<Corner>, post: seq<byte>)
    requires CornersFit(cs)
    ensures ReadCorners(pre + PackCorners(cs) + post, |pre|, |cs|) == cs
    decreases |cs|
  {
    hide PackCorner, ReadCorner;
    if cs != [] {
      var n := |cs| - 1;
      var last := PackCorner(cs[n]);
      ReadPackCorners(pre, cs[..n], last + post);
      assert pre + PackCorners(cs[..n]) + (last + post) == pre + PackCorners(cs) + post;
      ReadPackCorner(pre + PackCorners(cs[..n]), cs[n], post);
      assert pre + PackCorners(cs[..n]) + last + post == pre + PackCorners(cs) + post;
    }
  }

  // Whole files

  predicate Fits(m: Mesh) {
    IsInt32(|m.positions|) && IsInt32(|m.uvs|) && IsInt32(|m.normals|) && IsInt32(|m.corners|) && CornersFit(m.corners)
  }

  // obj2binobj.py packs any mesh whose counts and indices are 32-bit; otherwise struct.pack raises.
  function Encode(m: Mesh): Result<seq<byte>> {
    if !Fits(m) then Err(StructError)
    else Ok(Section(m.positions) + Section(m.uvs) + Section(m.normals) + PackInt(|m.corners|) + PackCorners(m.corners))
  }

  // A negative corner count reads no corner and moves the offset back, away from the end.
  function ReadCornerSection(b: seq<byte>, at: nat): Result<seq<Corner>> {
    if at + 4 > |b| then Err(StructError)
    else
      var n := ReadInt(b, at);
      if n >= 0 && at + 4 + 12 * n > |b| then Err(StructError)
      else if at + 4 + 12 * n != |b| then Err(TrailingBytes)
      else Ok(ReadCorners(b, at + 4, n))
  }

  // binobj2obj.py accepts a file only when its last corner ends where the file ends.
  function Decode(b: seq<byte>): Result<Mesh> {
    var (positions, at1) :- ReadSection(b, 0);
    var (uvs, at2) :- ReadSection(b, at1);
    var (normals, at3) :- ReadSection(b, at2);
    var corners :- ReadCornerSection(b, at3);
    Ok(Mesh(positions, uvs, normals, corners))
  }

  lemma CornersOfRead(b: seq<byte>, at: nat)
    requires at <= |b| && ReadCornerSection(b, at).Ok?
    ensures var cs := ReadCornerSection(b, at).value;
      IsInt32(|cs|) && CornersFit(cs) && PackInt(|cs|) + PackCorners(cs) == b[at..]
  {
    hide PackInt, ReadInt, PackCorners, ReadCorners;
    var n := ReadInt(b, at);
    PackRead(b, at);
    PackReadCorners(b, at + 4, n);
    CutAfter(b, at, 4);
    assert b[at + 4..at + 4 + 12 * n] == b[at + 4..];
  }

  lemma CutAfter(b: seq<byte>, at: nat, n: nat)
    requires at + n <= |b|
    ensures b[at..] == b[at..at + n] + b[at + n..]
  {
  }

  lemma ReadOfCorners(pre: seq<byte>, cs: seq<Corner>)
    requires IsInt32(|cs|) && CornersFit(cs)
    ensures ReadCornerSection(pre + (PackInt(|cs|) + PackCorners(cs)), |pre|) == Ok(cs)
  {
    hide PackInt, ReadInt, PackCorners, ReadCorners;
    var head, tail := PackInt(|cs|), PackCorners(cs);
    var b := pre + (head + tail);
    ReadInside(pre, head, tail);
    assert b == pre + head + tail;
    ReadPackInt(|cs|);
    ReadPackCorners(pre + head, cs, []);
    assert b == pre + head + tail + [];
  }

  // Decoding loses nothing: packing the decoded mesh gives the file back.
  lemma EncodeDecode(b: seq<byte>)
    requires Decode(b).Ok?
    ensures Encode(Decode(b).value) == Ok(b)
  {
    hide Section, ReadSection, ReadCornerSection, PackInt, PackCorners;
    var at1 := ReadSection(b, 0).value.1;
    var at2 := ReadSection(b, at1).value.1;
    var at3 := ReadSection(b, at2).value.1;
    SectionOfRead(b, 0);
    SectionOfRead(b, at1);
    SectionOfRead(b, at2);
    CornersOfRead(b, at3);
    assert b == b[0..at1] + b[at1..at2] + b[at2..at3] + b[at3..];
    var m := Decode(b).value;
    var x, y := PackInt(|m.corners|), PackCorners(m.corners);
    assert b[0..at1] + b[at1..at2] + b[at2..at3] + x + y == b[0..at1] + b[at1..at2] + b[at2..at3] + (x + y);
  }

  lemma DecodeEncode(m: Mesh)
    requires Fits(m)
    ensures Decode(Encode(m).value) == Ok(m)
  {
    hide Section, ReadSection, ReadCornerSection, PackInt, PackCorners;
    var p, u, n := Section(m.positions), Section(m.uvs), Section(m.normals);
    var x, y := PackInt(|m.corners|), PackCorners(m.corners);
    var b := Encode(m).value;
    ReadOfSection([], m.positions, u + n + x + y);
    assert b == [] + p + (u + n + x + y);
    ReadOfSection(p, m.uvs, n + x + y);
    assert b == p + u + (n + x + y);
    ReadOfSection(p + u, m.normals, x + y);
    assert b == p + u + n + (x + y);
    ReadOfCorners(p + u + n, m.corners);
    assert [] + p == p;
  }
}
