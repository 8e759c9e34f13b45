/** Lines of an .obj text that the printer never writes: faces with missing indices, and what is skipped. */
module MeshFaces {
  import opened MeshText
  import opened MeshBinary
  import opened MeshObj
  import opened Wrappers

  // A corner as other programs write it: indices joined by slashes, with any of them left out.

  type Indices = s: seq<Option<int>> | s != [] witness [None]

  function FieldText(index: Option<int>): string {
    match index case None => "" case Some(i) => PrintInt(i + 1)
  }

  function CornerText(indices: Indices): string {
    if |indices| == 1 then FieldText(indices[0]) else FieldText(indices[0]) + "/" + CornerText(indices[1..])
  }

  // Position, uv and normal; what is missing is -1, and what comes after the third is not looked at.
  function CornerOf(indices: Indices): Corner {
    Corner(IndexAt(indices, 0), IndexAt(indices, 1), IndexAt(indices, 2))
  }

  function IndexAt(indices: Indices, i: nat): int {
    if i < |indices| && indices[i].Some? then indices[i].value else -1
  }

  function FieldTexts(indices: seq<Option<int>>): (texts: seq<string>)
    ensures |texts| == |indices|
    ensures forall i :: 0 <= i < |indices| ==> texts[i] == FieldText(indices[i])
  {
    if indices == [] then [] else [FieldText(indices[0])] + FieldTexts(indices[1..])
  }

  lemma FieldTextIs(index: Option<int>)
    ensures Field(FieldText(index))
    ensures ParseIndex(FieldText(index)) == Some(if index.Some? then index.value else -1)
  {
    hide PrintInt, ParseInt;
    if index.Some? {
      PrintIntField(index.value + 1);
      ParsePrintInt(index.value + 1);
    }
  }

  lemma SplitOne(s: string)
    requires Field(s)
    ensures SplitSlash(s) == [s]
  {
    UpToIs(s, |s|, Slash);
  }

  lemma {:induction false} SplitCorner(indices: Indices)
    ensures SplitSlash(CornerText(indices)) == FieldTexts(indices)
    decreases |indices|
  {
    hide SplitSlash, FieldText, Field, ParseIndex;
    FieldTextIs(indices[0]);
    if |indices| == 1 {
      SplitOne(FieldText(indices[0]));
    } else {
      SplitCorner(indices[1..]);
      SplitSlashFirst(FieldText(indices[0]), CornerText(indices[1..]));
    }
  }

  lemma ParseCorner(indices: Indices)
    ensures ParseVertex(CornerText(indices)) == Some(CornerOf(indices))
  {
    hide SplitSlash, FieldTexts, CornerText, ParseIndex, FieldText;
    SplitCorner(indices);
    var fields := FieldTexts(indices) + ["", ""];
    assert FieldText(None) == "" by { FieldTextOfNone(); }
    forall i: nat | i < 3 ensures ParseIndex(fields[i]) == Some(IndexAt(indices, i)) {
      FieldTextIs(if i < |indices| then indices[i] else None);
    }
  }

  lemma FieldTextOfNone()
    ensures FieldText(None) == ""
  {
  }

  // The usual shorter forms, and a corner without a position.
  lemma ShortForms(p: int, u: int, n: int)
    ensures ParseVertex(PrintInt(p + 1)) == Some(Corner(p, -1, -1))
    ensures ParseVertex(PrintInt(p + 1) + "/" + PrintInt(u + 1)) == Some(Corner(p, u, -1))
    ensures ParseVertex(PrintInt(p + 1) + "/" + ("/" + PrintInt(n + 1))) == Some(Corner(p, -1, n))
    ensures ParseVertex("/" + (PrintInt(u + 1) + "/" + PrintInt(n + 1))) == Some(Corner(-1, u, n))
  {
    hide PrintInt, ParseVertex;
    OneTwoThree(Some(p), Some(u), None);
    OneTwoThree(Some(p), None, Some(n));
    OneTwoThree(None, Some(u), Some(n));
    assert "" + "/" + PrintInt(n + 1) == "/" + PrintInt(n + 1);
    assert "" + "/" + (PrintInt(u + 1) + "/" + PrintInt(n + 1)) == "/" + (PrintInt(u + 1) + "/" + PrintInt(n + 1));
  }

  lemma OneTwoThree(p: Option<int>, u: Option<int>, n: Option<int>)
    ensures ParseVertex(FieldText(p)) == Some(CornerOf([p]))
    ensures ParseVertex(FieldText(p) + "/" + FieldText(u)) == Some(CornerOf([p, u]))
    ensures ParseVertex(FieldText(p) + "/" + (FieldText(u) + "/" + FieldText(n))) == Some(CornerOf([p, u, n]))
  {
    hide FieldText, ParseVertex, CornerOf;
    ParseCorner([p]);
    ParseCorner([p, u]);
    ParseCorner([p, u, n]);
    assert [p, u][1..] == [u] && [p, u, n][1..] == [u, n] && [u, n][1..] == [n];
    assert CornerText([u, n]) == FieldText(u) + "/" + FieldText(n);
  }

  // A face line

  // A corner with at least one slash or number is one word.
  predicate Written(indices: Indices) { indices != [None] }

  function CornerTexts(face: seq<Indices>): (words: seq<string>)
    ensures |words| == |face| && forall i :: 0 <= i < |face| ==> words[i] == CornerText(face[i])
  {
    if face == [] then [] else CornerTexts(face[..|face| - 1]) + [CornerText(face[|face| - 1])]
  }

  function Corners(face: seq<Indices>): (corners: seq<Corner>)
    ensures |corners| == |face| && forall i :: 0 <= i < |face| ==> corners[i] == CornerOf(face[i])
  {
    if face == [] then [] else Corners(face[..|face| - 1]) + [CornerOf(face[|face| - 1])]
  }

  function FaceText(face: seq<Indices>): string { JoinWords(["f"] + CornerTexts(face)) }

  lemma FieldTextToken(index: Option<int>)
    ensures forall i :: 0 <= i < |FieldText(index)| ==> !Space(FieldText(index)[i])
    ensures index.Some? ==> FieldText(index) != ""
  {
  }

  lemma {:induction false} CornerTextToken(indices: Indices)
    ensures forall i :: 0 <= i < |CornerText(indices)| ==> !Space(CornerText(indices)[i])
    ensures Written(indices) ==> CornerText(indices) != ""
    decreases |indices|
  {
    hide FieldText;
    FieldTextToken(indices[0]);
    if |indices| > 1 {
      CornerTextToken(indices[1..]);
      assert !Space('/');
    }
  }

  lemma {:induction false} ParseFaceTexts(face: seq<Indices>)
    ensures ParseFace(CornerTexts(face)) == Some(Corners(face))
    decreases |face|
  {
    hide CornerText, ParseVertex, CornerOf;
    if face != [] {
      var n := |face| - 1;
      ParseFaceTexts(face[..n]);
      ParseCorner(face[n]);
      ParseFaceSnoc(CornerTexts(face[..n]), CornerText(face[n]));
    }
  }

  lemma FaceTokens(face: seq<Indices>)
    requires forall i :: 0 <= i < |face| ==> Written(face[i])
    ensures forall i :: 0 <= i < |face| ==> Token(CornerTexts(face)[i])
  {
    hide CornerText, Written;
    forall i | 0 <= i < |face| ensures Token(CornerTexts(face)[i]) {
      CornerTextToken(face[i]);
    }
  }

  lemma FaceWords(f: FloatText, m: Mesh, words: seq<string>, face: seq<Corner>)
    requires forall i :: 0 <= i < |words| ==> Token(words[i])
    requires ParseFace(words) == Some(face)
    ensures ParseLine(f, m, JoinWords(["f"] + words)) == Some(m.(corners := m.corners + Fan(face, |face|)))
    ensures OneLine(JoinWords(["f"] + words))
  {
    assert Token("f");
    hide Token, JoinWords, ParseLine, ParseParts, ParseFace, Fan, OneLine;
    var parts := ["f"] + words;
    assert parts[1..] == words;
    JoinOneLine(parts);
    ParseJoined(f, m, parts);
    ParseFaceParts(f, m, parts);
  }

  lemma FaceIsRead(f: FloatText, m: Mesh, face: seq<Indices>)
    requires forall i :: 0 <= i < |face| ==> Written(face[i])
    ensures ParseLine(f, m, FaceText(face)) == Some(m.(corners := m.corners + Fan(Corners(face), |face|)))
    ensures OneLine(FaceText(face))
  {
    hide Token, JoinWords, ParseLine, ParseFace, Fan, CornerTexts, Corners, CornerText, CornerOf, OneLine;
    FaceTokens(face);
    ParseFaceTexts(face);
    FaceWords(f, m, CornerTexts(face), Corners(face));
  }

  // A face line at the end of any text adds its triangles, with -1 for every missing index, to what is baked.
  lemma FaceIsBaked(f: FloatText, lines: seq<string>, m: Mesh, face: seq<Indices>)
    requires AllOneLine(lines) && ParseLines(f, lines) == Some(m)
    requires forall i :: 0 <= i < |face| ==> Written(face[i])
    ensures var baked := ObjToBin(f, JoinLines(lines + [FaceText(face)]));
      var after := m.(corners := m.corners + Fan(Corners(face), |face|));
      (baked.Ok? <==> Fits(after)) && (baked.Ok? ==> Decode(baked.value) == Ok(after))
  {
    hide OneLine, ParseLine, Written, Fan, Corners, FaceText, Decode, Encode, Fits;
    FaceIsRead(f, m, face);
    ParseLinesSnoc(f, lines, FaceText(face));
    hide ParseLines;
    LinesJoin(lines + [FaceText(face)]);
    var after := m.(corners := m.corners + Fan(Corners(face), |face|));
    EncodeFits(after);
    if Fits(after) {
      DecodeEncode(after);
    }
  }

  // Other lines

  lemma {:induction false} ParseFloatsExactly(f: FloatText, words: seq<string>)
    ensures ParseFloats(f, words).Some? <==> forall i :: 0 <= i < |words| ==> f.parse(words[i]).Some?
    ensures ParseFloats(f, words).Some? ==>
              && |ParseFloats(f, words).value| == |words|
              && forall i :: 0 <= i < |words| ==> ParseFloats(f, words).value[i] == f.parse(words[i]).value
    decreases |words|
  {
    if words != [] {
      ParseFloatsExactly(f, words[..|words| - 1]);
    }
  }

  predicate Numbers(f: FloatText, parts: seq<string>, size: nat)
    requires 2 <= size < |parts|
  {
    f.parse(parts[1]).Some? && f.parse(parts[2]).Some? && (size == 3 ==> |parts| > 3 && f.parse(parts[3]).Some?)
  }

  lemma TwoOrThree(f: FloatText, parts: seq<string>, size: nat)
    requires 2 <= size <= 3 && size < |parts|
    ensures ParseFloats(f, parts[1..size + 1]).Some? <==> Numbers(f, parts, size)
    ensures Numbers(f, parts, size) ==>
              ParseFloats(f, parts[1..size + 1]).value
              == [f.parse(parts[1]).value, f.parse(parts[2]).value]
                 + if size == 3 then [f.parse(parts[3]).value] else []
  {
    hide ParseFloats;
    var words := parts[1..size + 1];
    ParseFloatsExactly(f, words);
    assert words[0] == parts[1] && words[1] == parts[2] && (size == 3 ==> words[2] == parts[3]);
  }

  // A line of numbers: too few of them or one that is no number stop the program, and more are not looked at.
  lemma FloatsExactly(f: FloatText, m: Mesh, parts: seq<string>, size: nat)
    requires parts != [] && FloatTag(parts[0], size) && forall i :: 0 <= i < |parts| ==> parts[i] != []
    ensures ParseParts(f, m, parts).Some? <==> |parts| > size && Numbers(f, parts, size)
    ensures |parts| > size && Numbers(f, parts, size) ==>
              var ws := [f.parse(parts[1]).value, f.parse(parts[2]).value]
                        + if size == 3 then [f.parse(parts[3]).value] else [];
              ParseParts(f, m, parts) == Some(Extend(m, parts[0], ws))
  {
    hide ParseFloats, ParseFace, Fan;
    if |parts| > size {
      TwoOrThree(f, parts, size);
    }
  }

  // Empty lines, comments and lines of any other kind leave the mesh alone.
  lemma OthersSkipped(f: FloatText, m: Mesh, parts: seq<string>)
    requires forall i :: 0 <= i < |parts| ==> parts[i] != []
    requires parts == [] || (parts[0] != "v" && parts[0] != "vt" && parts[0] != "vn" && parts[0] != "f")
    ensures ParseParts(f, m, parts) == Some(m)
  {
    hide ParseFloats, ParseFace, Fan;
  }
}
