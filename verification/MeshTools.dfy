/** binobj2obj.py and obj2binobj.py as they run, each against its specification. */
module MeshTools {
  import opened MeshText
  import opened MeshBinary
  import opened MeshObj
  import opened Wrappers

  // The input bytes and the nonlocal offset of binobj2obj.py.
  class BinReader {
    const data: seq<byte>
    var offset: nat

    constructor (data: seq<byte>)
      ensures this.data == data && offset == 0
    {
      this.data, offset := data, 0;
    }

    // read_floats(read_int())
    method ReadFloats() returns (r: Result<seq<Word>>)
      modifies this
      ensures match ReadSection(data, old(offset))
        case Err(e) => r == Err(e)
        case Ok((ws, next)) => r == Ok(ws) && offset == next
    {
      if offset + 4 > |data| {
        return Err(StructError);
      }
      var count := ReadInt(data, offset);
      offset := offset + 4;
      if count < 0 || offset + 4 * count > |data| {
        return Err(StructError);
      }
      r := Ok(ReadWords(data, offset, count));
      offset := offset + 4 * count;
    }

    method ReadAllCorners() returns (r: Result<seq<Corner>>)
      modifies this
      ensures r == ReadCornerSection(data, old(offset))
    {
      if offset + 4 > |data| {
        return Err(StructError);
      }
      var count := ReadInt(data, offset);
      offset := offset + 4;
      var corners, i := [], 0;
      while i < count
        invariant offset == old(offset) + 4 <= |data| && 0 <= i && (i <= count || i == 0)
        invariant offset + 12 * i <= |data| && corners == ReadCorners(data, offset, i)
      {
        if offset + 12 * (i + 1) > |data| {
          return Err(StructError);
        }
        corners := corners + [ReadCorner(data, offset + 12 * i)];
        i := i + 1;
      }
      if offset + 12 * count != |data| {
        return Err(TrailingBytes);
      }
      r := Ok(corners);
    }
  }

  method WriteFloatLines(f: FloatText, tag: string, ws: seq<Word>, size: nat, out: string, ghost before: seq<string>)
      returns (r: string)
    requires size > 0 && out == JoinLines(before)
    ensures r == JoinLines(before + FloatLines(f, tag, ws, size, |ws| / size))
  {
    hide PrintWords, JoinWords;
    r := out;
    assert before + [] == before;
    for i := 0 to |ws| / size
      invariant size * i <= |ws| && r == JoinLines(before + FloatLines(f, tag, ws, size, i))
    {
      GroupFits(|ws|, size, i);
      var line := JoinWords([tag] + PrintWords(f, ws[size * i..size * (i + 1)]));
      JoinLinesSnoc(before + FloatLines(f, tag, ws, size, i), line);
      assert before + FloatLines(f, tag, ws, size, i) + [line] == before + FloatLines(f, tag, ws, size, i + 1);
      r := r + line + "\n";
    }
  }

  lemma GroupFits(n: nat, size: nat, i: nat)
    requires size > 0 && i < n / size
    ensures size * i + size == size * (i + 1) <= n
  {
    assert size * (n / size) <= n;
    assert size * (i + 1) <= size * (n / size);
  }

  lemma JoinLinesSnoc(lines: seq<string>, line: string)
    ensures JoinLines(lines + [line]) == JoinLines(lines) + line + "\n"
  {
    assert (lines + [line])[..|lines|] == lines;
  }

  lemma NoFaceLines(cs: seq<Corner>, before: seq<string>)
    ensures before + FaceLines(cs, 0) == before
  {
  }

  lemma FaceLinesSnoc(cs: seq<Corner>, t: nat, before: seq<string>)
    requires 3 * (t + 1) <= |cs|
    ensures before + FaceLines(cs, t + 1)
      == before + FaceLines(cs, t) + [FaceLine(cs[3 * t], cs[3 * t + 1], cs[3 * t + 2])]
  {
    hide FaceLine;
  }

  method WriteFaceLines(cs: seq<Corner>, out: string, ghost before: seq<string>) returns (r: string)
    requires out == JoinLines(before)
    ensures r == JoinLines(before + FaceLines(cs, |cs| / 3))
  {
    hide FaceLine, FaceLines, JoinLines;
    r := out;
    NoFaceLines(cs, before);
    for t := 0 to |cs| / 3
      invariant r == JoinLines(before + FaceLines(cs, t))
    {
      var line := FaceLine(cs[3 * t], cs[3 * t + 1], cs[3 * t + 2]);
      JoinLinesSnoc(before + FaceLines(cs, t), line);
      FaceLinesSnoc(cs, t, before);
      r := r + line + "\n";
    }
  }

  lemma CommentLines()
    ensures JoinLines([FIRST_COMMENT, SECOND_COMMENT]) == FIRST_COMMENT + "\n" + SECOND_COMMENT + "\n"
  {
    hide FIRST_COMMENT, SECOND_COMMENT;
    JoinLinesSnoc([], FIRST_COMMENT);
    JoinLinesSnoc([] + [FIRST_COMMENT], SECOND_COMMENT);
    assert [] + [FIRST_COMMENT] + [SECOND_COMMENT] == [FIRST_COMMENT, SECOND_COMMENT];
    assert "" + FIRST_COMMENT + "\n" + SECOND_COMMENT + "\n" == FIRST_COMMENT + "\n" + SECOND_COMMENT + "\n";
  }

  // The four index loops.
  method WriteMesh(f: FloatText, m: Mesh) returns (text: string)
    ensures text == PrintObj(f, m)
  {
    hide FloatLines, FaceLines, FIRST_COMMENT, SECOND_COMMENT, JoinLines;
    ghost var lines := [FIRST_COMMENT, SECOND_COMMENT];
    text := FIRST_COMMENT + "\n" + SECOND_COMMENT + "\n";
    CommentLines();
    text := WriteFloatLines(f, "v", m.positions, 3, text, lines);
    lines := lines + FloatLines(f, "v", m.positions, 3, |m.positions| / 3);
    text := WriteFloatLines(f, "vt", m.uvs, 2, text, lines);
    lines := lines + FloatLines(f, "vt", m.uvs, 2, |m.uvs| / 2);
    text := WriteFloatLines(f, "vn", m.normals, 3, text, lines);
    lines := lines + FloatLines(f, "vn", m.normals, 3, |m.normals| / 3);
    text := WriteFaceLines(m.corners, text, lines);
  }

  method ConvertToObj(f: FloatText, data: seq<byte>) returns (r: Result<string>)
    ensures r == BinToObj(f, data)
  {
    hide ReadSection, ReadCornerSection, PrintObj;
    var reader := new BinReader(data);
    var positions :- reader.ReadFloats();
    var uvs :- reader.ReadFloats();
    var normals :- reader.ReadFloats();
    var corners :- reader.ReadAllCorners();
    var text := WriteMesh(f, Mesh(positions, uvs, normals, corners));
    r := Ok(text);
  }

  method ReadFace(words: seq<string>) returns (r: Option<seq<Corner>>)
    ensures r == ParseFace(words)
  {
    var face := [];
    assert ParseFace(words[..0]) == Some([]);
    hide ParseVertex, ParseFace;
    for i := 0 to |words|
      invariant ParseFace(words[..i]) == Some(face)
    {
      ParseFaceSnoc(words[..i], words[i]);
      assert words[..i] + [words[i]] == words[..i + 1];
      match ParseVertex(words[i])
      case None =>
        FaceFails(words, i + 1);
        return None;
      case Some(c) =>
        face := face + [c];
    }
    assert words[..|words|] == words;
    r := Some(face);
  }

  lemma {:induction false} FaceFails(words: seq<string>, i: nat)
    requires i <= |words| && ParseFace(words[..i]).None?
    ensures ParseFace(words).None?
    decreases |words|
  {
    if i == |words| {
      assert words[..i] == words;
    } else {
      var n := |words| - 1;
      assert words[..n][..i] == words[..i];
      FaceFails(words[..n], i);
    }
  }

  // for i in range(1, len(face) - 1)
  method Triangulate(face: seq<Corner>) returns (corners: seq<Corner>)
    ensures corners == Fan(face, |face|)
  {
    corners := [];
    var i := 1;
    while i < |face| - 1
      invariant 1 <= i && (i <= |face| - 1 || i == 1)
      invariant corners == if |face| < 2 then [] else Fan(face, i + 1)
    {
      corners := corners + [face[0], face[i], face[i + 1]];
      i := i + 1;
    }
  }

  method ReadLine(f: FloatText, m: Mesh, line: string) returns (r: Option<Mesh>)
    ensures r == ParseLine(f, m, line)
  {
    hide Words, ParseFloats, ParseFace, Fan;
    var parts := Words(line);
    if parts == [] || parts[0][0] == '#' {
      return Some(m);
    }
    if parts[0] == "f" {
      var face := ReadFace(parts[1..]);
      if face.None? {
        return None;
      }
      var triangles := Triangulate(face.value);
      return Some(m.(corners := m.corners + triangles));
    }
    r := ParseParts(f, m, parts);
  }

  method WriteCorners(corners: seq<Corner>, out: seq<byte>) returns (r: Result<seq<byte>>)
    ensures r == if CornersFit(corners) then Ok(out + PackCorners(corners)) else Err(StructError)
  {
    hide PackCorner, CornerFits;
    var bytes := out;
    for i := 0 to |corners|
      invariant CornersFit(corners[..i]) && bytes == out + PackCorners(corners[..i])
    {
      if !CornerFits(corners[i]) {
        return Err(StructError);
      }
      assert corners[..i + 1][..i] == corners[..i];
      bytes := bytes + PackCorner(corners[i]);
    }
    assert corners[..|corners|] == corners;
    r := Ok(bytes);
  }

  method ConvertToBin(f: FloatText, text: string) returns (r: Result<seq<byte>>)
    ensures r == ObjToBin(f, text)
  {
    hide ParseLine, PackInt, PackCorners;
    var lines, m := Lines(text), EMPTY;
    for i := 0 to |lines|
      invariant ParseLines(f, lines[..i]) == Some(m)
    {
      ParseLinesSnoc(f, lines[..i], lines[i]);
      assert lines[..i] + [lines[i]] == lines[..i + 1];
      var next := ReadLine(f, m, lines[i]);
      if next.None? {
        LinesFail(f, lines, i + 1);
        return Err(StructError);
      }
      m := next.value;
    }
    assert lines[..|lines|] == lines;
    if !IsInt32(|m.positions|) || !IsInt32(|m.uvs|) || !IsInt32(|m.normals|) || !IsInt32(|m.corners|) {
      return Err(StructError);
    }
    var out := PackInt(|m.positions|);
    out := out + PackWords(m.positions);
    out := out + PackInt(|m.uvs|);
    out := out + PackWords(m.uvs);
    out := out + PackInt(|m.normals|);
    out := out + PackWords(m.normals);
    out := out + PackInt(|m.corners|);
    assert out == Section(m.positions) + Section(m.uvs) + Section(m.normals) + PackInt(|m.corners|);
    r := WriteCorners(m.corners, out);
  }

  lemma {:induction false} LinesFail(f: FloatText, lines: seq<string>, i: nat)
    requires i <= |lines| && ParseLines(f, lines[..i]).None?
    ensures ParseLines(f, lines).None?
    decreases |lines|
  {
    if i == |lines| {
      assert lines[..i] == lines;
    } else {
      var n := |lines| - 1;
      assert lines[..n][..i] == lines[..i];
      LinesFail(f, lines[..n], i);
    }
  }
}
