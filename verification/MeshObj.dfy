/** The text .obj form of a mesh, and the round trip through it. */
module MeshObj {
  import opened MeshText
  import opened MeshBinary
  import opened Wrappers

  // '%.9g' and float() followed by packing as a 32-bit float; parse fails where Python raises.
  datatype FloatText = FloatText(print_: Word -> string, parse: string -> Option<Word>) {
    // w is written as one word that reads back as w.
    predicate Printable(w: Word) { Token(print_(w)) && parse(print_(w)) == Some(w) }
  }

  const EMPTY := Mesh([], [], [], [])

  // Reading text

  function ParseFloats(f: FloatText, words: seq<string>): Option<seq<Word>> {
    if words == [] then Some([])
    else
      match (ParseFloats(f, words[..|words| - 1]), f.parse(words[|words| - 1]))
      case (Some(ws), Some(w)) => Some(ws + [w])
      case _ => None
  }

  function ParseIndex(field: string): Option<int> {
    if field == "" then Some(-1)
    else match ParseInt(field) case None => None case Some(n) => Some(n - 1)
  }

  function ParseVertex(word: string): Option<Corner> {
    var fields := SplitSlash(word) + ["", ""];
    match (ParseIndex(fields[0]), ParseIndex(fields[1]), ParseIndex(fields[2]))
    case (Some(p), Some(u), Some(n)) => Some(Corner(p, u, n))
    case _ => None
  }

  function ParseFace(words: seq<string>): (r: Option<seq<Corner>>)
    ensures r.Some? ==> |r.value| == |words|
  {
    if words == [] then Some([])
    else
      match (ParseFace(words[..|words| - 1]), ParseVertex(words[|words| - 1]))
      case (Some(face), Some(c)) => Some(face + [c])
      case _ => None
  }

  // The triangles of the fan up to corner n.
  function Fan(face: seq<Corner>, n: nat): seq<Corner>
    requires n <= |face|
  {
    if n < 3 then [] else Fan(face, n - 1) + [face[0], face[n - 2], face[n - 1]]
  }

  // An n-corner face becomes n - 2 triangles, the t-th one joining corners 0, t + 1 and t + 2.
  lemma {:induction false} FanTriangles(face: seq<Corner>, n: nat)
    requires n <= |face|
    ensures |Fan(face, n)| == if n < 3 then 0 else 3 * (n - 2)
    ensures forall t :: 0 <= t < n - 2 ==> Fan(face, n)[3 * t..3 * t + 3] == [face[0], face[t + 1], face[t + 2]]
  {
    if n >= 3 {
      FanTriangles(face, n - 1);
      var before := Fan(face, n - 1);
      forall t | 0 <= t < n - 2
        ensures Fan(face, n)[3 * t..3 * t + 3] == [face[0], face[t + 1], face[t + 2]]
      {
        if t < n - 3 {
          assert Fan(face, n)[3 * t..3 * t + 3] == before[3 * t..3 * t + 3];
        }
      }
    }
  }

  function ParseLine(f: FloatText, m: Mesh, line: string): Option<Mesh> { ParseParts(f, m, Words(line)) }

  function ParseParts(f: FloatText, m: Mesh, parts: seq<string>): Option<Mesh>
    requires forall i :: 0 <= i < |parts| ==> parts[i] != []
  {
    if parts == [] || parts[0][0] == '#' then Some(m)
    else if parts[0] == "v" then
      if |parts| < 4 then None
      else match ParseFloats(f, parts[1..4])
        case None => None
        case Some(ws) => Some(m.(positions := m.positions + ws))
    else if parts[0] == "vt" then
      if |parts| < 3 then None
      else match ParseFloats(f, parts[1..3])
        case None => None
        case Some(ws) => Some(m.(uvs := m.uvs + ws))
    else if parts[0] == "vn" then
      if |parts| < 4 then None
      else match ParseFloats(f, parts[1..4])
        case None => None
        case Some(ws) => Some(m.(normals := m.normals + ws))
    else if parts[0] == "f" then
      match ParseFace(parts[1..])
      case None => None
      case Some(face) => Some(m.(corners := m.corners + Fan(face, |face|)))
    else Some(m)
  }

  function ParseLines(f: FloatText, lines: seq<string>): Option<Mesh> {
    if lines == [] then Some(EMPTY)
    else match ParseLines(f, lines[..|lines| - 1])
      case None => None
      case Some(m) => ParseLine(f, m, lines[|lines| - 1])
  }

  // Writing text

  const FIRST_WORDS :=
    [" 3D mesh decoded ", "from .binobj ", "(source of truth; ", "baked back to ", ".binobj at build ", "time)."]
  const FIRST_COMMENT := "#" + Text(FIRST_WORDS)
  const SECOND_WORDS := [" UVs are stored ", "raw here; the ", "V coordinate ", "is flipped (1-v) ", "at load time."]
  const SECOND_COMMENT := "#" + Text(SECOND_WORDS)

  function Text(pieces: seq<string>): string {
    if pieces == [] then "" else Text(pieces[..|pieces| - 1]) + pieces[|pieces| - 1]
  }

  function PrintWords(f: FloatText, ws: seq<Word>): (words: seq<string>)
    ensures |words| == |ws|
  {
    if ws == [] then [] else PrintWords(f, ws[..|ws| - 1]) + [f.print_(ws[|ws| - 1])]
  }

  // The first k lines of size values each under one tag.
  function FloatLines(f: FloatText, tag: string, ws: seq<Word>, size: nat, k: nat): (lines: seq<string>)
    requires size * k <= |ws|
    ensures |lines| == k
  {
    if k == 0 then []
    else
      assert size * (k - 1) == size * k - size;
      FloatLines(f, tag, ws, size, k - 1) + [JoinWords([tag] + PrintWords(f, ws[size * (k - 1)..size * k]))]
  }

  function PrintVertex(c: Corner): string {
    PrintInt(c.position + 1) + "/" + (PrintInt(c.uv + 1) + "/" + PrintInt(c.normal + 1))
  }

  function FaceLines(cs: seq<Corner>, k: nat): (lines: seq<string>)
    requires 3 * k <= |cs|
    ensures |lines| == k
  {
    if k == 0 then []
    else
      var t := 3 * (k - 1);
      FaceLines(cs, k - 1) + [FaceLine(cs[t], cs[t + 1], cs[t + 2])]
  }

  function FaceLine(a: Corner, b: Corner, c: Corner): string {
    JoinWords(["f", PrintVertex(a), PrintVertex(b), PrintVertex(c)])
  }

  function ObjLines(f: FloatText, m: Mesh): seq<string> {
    [FIRST_COMMENT, SECOND_COMMENT]
    + FloatLines(f, "v", m.positions, 3, |m.positions| / 3)
    + FloatLines(f, "vt", m.uvs, 2, |m.uvs| / 2)
    + FloatLines(f, "vn", m.normals, 3, |m.normals| / 3)
    + FaceLines(m.corners, |m.corners| / 3)
  }

  // What the text can hold: whole groups only.
  function WholeGroups(m: Mesh): Mesh {
    Mesh(m.positions[..3 * (|m.positions| / 3)], m.uvs[..2 * (|m.uvs| / 2)],
         m.normals[..3 * (|m.normals| / 3)], m.corners[..3 * (|m.corners| / 3)])
  }

  predicate AllPrintable(f: FloatText, ws: seq<Word>) { forall i :: 0 <= i < |ws| ==> f.Printable(ws[i]) }

  predicate MeshPrintable(f: FloatText, m: Mesh) {
    AllPrintable(f, m.positions) && AllPrintable(f, m.uvs) && AllPrintable(f, m.normals)
  }

  // Every printed line is read back

  lemma {:induction false} ParsePrintWords(f: FloatText, ws: seq<Word>)
    requires AllPrintable(f, ws)
    ensures ParseFloats(f, PrintWords(f, ws)) == Some(ws)
    ensures forall i :: 0 <= i < |ws| ==> Token(PrintWords(f, ws)[i])
  {
    hide Token;
    if ws != [] {
      var n := |ws| - 1;
      ParsePrintWords(f, ws[..n]);
      assert PrintWords(f, ws)[..n] == PrintWords(f, ws[..n]);
      assert f.Printable(ws[n]);
      assert ws[..n] + [ws[n]] == ws;
    }
  }

  lemma PrintIntField(n: int)
    ensures Field(PrintInt(n)) && Token(PrintInt(n))
  {
  }

  lemma PrintVertexToken(c: Corner)
    ensures Token(PrintVertex(c))
  {
    hide PrintInt;
    PrintIntField(c.position + 1);
    PrintIntField(c.uv + 1);
    PrintIntField(c.normal + 1);
  }

  lemma ParsePrintVertex(c: Corner)
    ensures ParseVertex(PrintVertex(c)) == Some(c)
  {
    hide PrintInt, ParseInt, SplitSlash;
    PrintIntField(c.position + 1);
    PrintIntField(c.uv + 1);
    PrintIntField(c.normal + 1);
    SplitSlashThree(PrintInt(c.position + 1), PrintInt(c.uv + 1), PrintInt(c.normal + 1));
    ParsePrintInt(c.position + 1);
    ParsePrintInt(c.uv + 1);
    ParsePrintInt(c.normal + 1);
  }

  predicate FloatTag(tag: string, size: nat) {
    (tag == "v" && size == 3) || (tag == "vt" && size == 2) || (tag == "vn" && size == 3)
  }

  function Extend(m: Mesh, tag: string, ws: seq<Word>): Mesh {
    if tag == "v" then m.(positions := m.positions + ws)
    else if tag == "vt" then m.(uvs := m.uvs + ws)
    else m.(normals := m.normals + ws)
  }

  lemma ParseFloatParts(f: FloatText, m: Mesh, parts: seq<string>)
    requires parts != [] && FloatTag(parts[0], |parts| - 1) && forall i :: 0 <= i < |parts| ==> parts[i] != []
    ensures ParseParts(f, m, parts) ==
      match ParseFloats(f, parts[1..]) case None => None case Some(ws) => Some(Extend(m, parts[0], ws))
  {
    hide ParseFloats, ParseFace;
    assert parts[1..] == parts[1..|parts|];
  }

  lemma ParseJoined(f: FloatText, m: Mesh, words: seq<string>)
    requires forall i :: 0 <= i < |words| ==> Token(words[i])
    ensures forall i :: 0 <= i < |words| ==> words[i] != []
    ensures ParseLine(f, m, JoinWords(words)) == ParseParts(f, m, words)
  {
    hide Words, JoinWords, ParseParts;
    WordsJoin(words);
  }

  lemma TokensBehind(tag: string, words: seq<string>)
    requires Token(tag) && forall i :: 0 <= i < |words| ==> Token(words[i])
    ensures forall i :: 0 <= i < |[tag] + words| ==> Token(([tag] + words)[i])
    ensures ([tag] + words)[1..] == words
  {
    hide Token;
  }

  lemma ParseFloatLine(f: FloatText, m: Mesh, tag: string, ws: seq<Word>)
    requires FloatTag(tag, |ws|) && AllPrintable(f, ws)
    ensures ParseLine(f, m, JoinWords([tag] + PrintWords(f, ws))) == Some(Extend(m, tag, ws))
  {
    assert Token(tag);
    hide Token, Words, PrintWords, JoinWords, ParseFloats, ParseParts, ParseLine, AllPrintable, Extend;
    ParsePrintWords(f, ws);
    TokensBehind(tag, PrintWords(f, ws));
    var words := [tag] + PrintWords(f, ws);
    ParseJoined(f, m, words);
    ParseFloatParts(f, m, words);
  }

  lemma ParseFaceSnoc(words: seq<string>, w: string)
    ensures ParseFace(words + [w]) ==
      match (ParseFace(words), ParseVertex(w))
      case (Some(face), Some(c)) => Some(face + [c])
      case _ => None
  {
    assert (words + [w])[..|words|] == words;
  }

  lemma ParseThree(x: string, y: string, z: string, a: Corner, b: Corner, c: Corner)
    requires ParseVertex(x) == Some(a) && ParseVertex(y) == Some(b) && ParseVertex(z) == Some(c)
    ensures ParseFace([x, y, z]) == Some([a, b, c])
  {
    assert ParseFace([]) == Some([]);
    hide ParseVertex, ParseFace;
    ParseFaceSnoc([], x);
    ParseFaceSnoc([] + [x], y);
    ParseFaceSnoc([] + [x] + [y], z);
    assert [] + [x] + [y] + [z] == [x, y, z] && [] + [a] + [b] + [c] == [a, b, c];
  }

  lemma FanOfThree(a: Corner, b: Corner, c: Corner)
    ensures Fan([a, b, c], 3) == [a, b, c]
  {
  }

  lemma ParseFaceParts(f: FloatText, m: Mesh, parts: seq<string>)
    requires parts != [] && parts[0] == "f" && forall i :: 0 <= i < |parts| ==> parts[i] != []
    ensures ParseParts(f, m, parts) ==
      match ParseFace(parts[1..])
      case None => None
      case Some(face) => Some(m.(corners := m.corners + Fan(face, |face|)))
  {
    hide ParseFace, Fan, ParseFloats;
    assert parts[0][0] == 'f';
  }

  lemma ParseTriangle(f: FloatText, m: Mesh, x: string, y: string, z: string, a: Corner, b: Corner, c: Corner)
    requires x != [] && y != [] && z != []
    requires ParseVertex(x) == Some(a) && ParseVertex(y) == Some(b) && ParseVertex(z) == Some(c)
    ensures ParseParts(f, m, ["f", x, y, z]) == Some(m.(corners := m.corners + [a, b, c]))
  {
    hide ParseVertex, ParseFace, Fan, ParseParts;
    ParseThree(x, y, z, a, b, c);
    FanOfThree(a, b, c);
    ParseFaceParts(f, m, ["f", x, y, z]);
    assert ["f", x, y, z][1..] == [x, y, z];
  }

  lemma ParseFaceLine(f: FloatText, m: Mesh, a: Corner, b: Corner, c: Corner)
    ensures ParseLine(f, m, FaceLine(a, b, c)) == Some(m.(corners := m.corners + [a, b, c]))
  {
    assert Token("f");
    hide Token, PrintVertex, JoinWords, ParseLine, ParseVertex, ParseParts;
    PrintVertexToken(a);
    PrintVertexToken(b);
    PrintVertexToken(c);
    ParseJoined(f, m, ["f", PrintVertex(a), PrintVertex(b), PrintVertex(c)]);
    ParsePrintVertex(a);
    ParsePrintVertex(b);
    ParsePrintVertex(c);
    ParseTriangle(f, m, PrintVertex(a), PrintVertex(b), PrintVertex(c), a, b, c);
  }

  lemma ParseLinesSnoc(f: FloatText, lines: seq<string>, line: string)
    ensures ParseLines(f, lines + [line]) ==
            match ParseLines(f, lines) case None => None case Some(m) => ParseLine(f, m, line)
  {
    assert (lines + [line])[..|lines|] == lines;
  }

  lemma PrintableSlice(f: FloatText, ws: seq<Word>, i: nat, j: nat)
    requires i <= j <= |ws| && AllPrintable(f, ws)
    ensures AllPrintable(f, ws[i..j])
  {
  }

  lemma {:induction false} FloatStage(f: FloatText, lines: seq<string>, m: Mesh, tag: string, ws: seq<Word>, size: nat,
                                      k: nat)
    requires FloatTag(tag, size) && size * k <= |ws| && AllPrintable(f, ws)
    requires ParseLines(f, lines) == Some(m)
    ensures ParseLines(f, lines + FloatLines(f, tag, ws, size, k)) == Some(Extend(m, tag, ws[..size * k]))
    decreases k
  {
    hide ParseLines, ParseLine, JoinWords, PrintWords, AllPrintable, Extend;
    if k == 0 {
      assert lines + [] == lines;
      ExtendNothing(m, tag);
    } else {
      var i, j := size * (k - 1), size * k;
      assert j == i + size;
      var before, line := FloatLines(f, tag, ws, size, k - 1), JoinWords([tag] + PrintWords(f, ws[i..j]));
      FloatStage(f, lines, m, tag, ws, size, k - 1);
      ParseLinesSnoc(f, lines + before, line);
      assert lines + FloatLines(f, tag, ws, size, k) == lines + before + [line];
      PrintableSlice(f, ws, i, j);
      ParseFloatLine(f, Extend(m, tag, ws[..i]), tag, ws[i..j]);
      ExtendTwice(m, tag, ws[..i], ws[i..j]);
      assert ws[..i] + ws[i..j] == ws[..j];
    }
  }

  lemma ExtendNothing(m: Mesh, tag: string)
    ensures Extend(m, tag, []) == m
  {
  }

  lemma ExtendTwice(m: Mesh, tag: string, a: seq<Word>, b: seq<Word>)
    ensures Extend(Extend(m, tag, a), tag, b) == Extend(m, tag, a + b)
  {
    assert m.positions + a + b == m.positions + (a + b);
    assert m.uvs + a + b == m.uvs + (a + b);
    assert m.normals + a + b == m.normals + (a + b);
  }

  lemma {:induction false} FaceStage(f: FloatText, lines: seq<string>, m: Mesh, cs: seq<Corner>, k: nat)
    requires 3 * k <= |cs| && ParseLines(f, lines) == Some(m)
    ensures ParseLines(f, lines + FaceLines(cs, k)) == Some(m.(corners := m.corners + cs[..3 * k]))
    decreases k
  {
    hide ParseLines, ParseLine, FaceLine;
    if k == 0 {
      assert lines + [] == lines;
      assert m.corners + cs[..0] == m.corners;
    } else {
      var before := FaceLines(cs, k - 1);
      var t := 3 * (k - 1);
      var line := FaceLine(cs[t], cs[t + 1], cs[t + 2]);
      FaceStage(f, lines, m, cs, k - 1);
      ParseLinesSnoc(f, lines + before, line);
      assert lines + FaceLines(cs, k) == lines + before + [line];
      ParseFaceLine(f, m.(corners := m.corners + cs[..t]), cs[t], cs[t + 1], cs[t + 2]);
      assert cs[..t] + [cs[t], cs[t + 1], cs[t + 2]] == cs[..3 * k];
      assert m.corners + cs[..t] + [cs[t], cs[t + 1], cs[t + 2]] == m.corners + cs[..3 * k];
    }
  }

  lemma ParseComment(f: FloatText, m: Mesh, line: string)
    requires line != [] && line[0] == '#'
    ensures ParseLine(f, m, line) == Some(m)
  {
    assert !Space('#');
  }

  lemma HeaderStage(f: FloatText)
    ensures ParseLines(f, [FIRST_COMMENT, SECOND_COMMENT]) == Some(EMPTY)
  {
    assert FIRST_COMMENT[0] == '#' && SECOND_COMMENT[0] == '#';
    hide ParseLine, FIRST_COMMENT, SECOND_COMMENT;
    assert [FIRST_COMMENT, SECOND_COMMENT] == [] + [FIRST_COMMENT] + [SECOND_COMMENT];
    ParseLinesSnoc(f, [], FIRST_COMMENT);
    ParseLinesSnoc(f, [] + [FIRST_COMMENT], SECOND_COMMENT);
    ParseComment(f, EMPTY, FIRST_COMMENT);
    ParseComment(f, EMPTY, SECOND_COMMENT);
  }

  // Reading the printed lines gives the mesh without its incomplete last groups.
  lemma ParseObjLines(f: FloatText, m: Mesh)
    requires MeshPrintable(f, WholeGroups(m))
    ensures ParseLines(f, ObjLines(f, m)) == Some(WholeGroups(m))
  {
    hide ParseLines, FloatLines, FaceLines, FIRST_COMMENT, SECOND_COMMENT;
    HeaderStage(f);
    var w := WholeGroups(m);
    var p, u, n, t := |m.positions| / 3, |m.uvs| / 2, |m.normals| / 3, |m.corners| / 3;
    var l0 := [FIRST_COMMENT, SECOND_COMMENT];
    var l1 := FloatLines(f, "v", m.positions, 3, p);
    var l2 := FloatLines(f, "vt", m.uvs, 2, u);
    var l3 := FloatLines(f, "vn", m.normals, 3, n);
    FloatLinesPrefix(f, "v", m.positions, w.positions, 3, p);
    FloatLinesPrefix(f, "vt", m.uvs, w.uvs, 2, u);
    FloatLinesPrefix(f, "vn", m.normals, w.normals, 3, n);
    FloatStage(f, l0, EMPTY, "v", w.positions, 3, p);
    assert Extend(EMPTY, "v", w.positions[..3 * p]) == Mesh(w.positions, [], [], []);
    FloatStage(f, l0 + l1, Mesh(w.positions, [], [], []), "vt", w.uvs, 2, u);
    assert Extend(Mesh(w.positions, [], [], []), "vt", w.uvs[..2 * u]) == Mesh(w.positions, w.uvs, [], []);
    FloatStage(f, l0 + l1 + l2, Mesh(w.positions, w.uvs, [], []), "vn", w.normals, 3, n);
    assert Extend(Mesh(w.positions, w.uvs, [], []), "vn", w.normals[..3 * n])
        == Mesh(w.positions, w.uvs, w.normals, []);
    FaceStage(f, l0 + l1 + l2 + l3, Mesh(w.positions, w.uvs, w.normals, []), m.corners, t);
    assert [] + m.corners[..3 * t] == w.corners;
  }

  lemma {:induction false} FloatLinesPrefix(f: FloatText, tag: string, ws: seq<Word>, short: seq<Word>, size: nat,
                                            k: nat)
    requires size * k <= |short| && short <= ws
    ensures FloatLines(f, tag, ws, size, k) == FloatLines(f, tag, short, size, k)
    decreases k
  {
    if k != 0 {
      assert size * (k - 1) == size * k - size;
      FloatLinesPrefix(f, tag, ws, short, size, k - 1);
      assert ws[size * (k - 1)..size * k] == short[size * (k - 1)..size * k];
    }
  }

  // Text

  lemma JoinOneLine(words: seq<string>)
    requires forall i :: 0 <= i < |words| ==> Token(words[i])
    ensures OneLine(JoinWords(words))
  {
    if |words| > 1 {
      JoinOneLine(words[1..]);
    }
  }

  predicate AllOneLine(lines: seq<string>) { forall i :: 0 <= i < |lines| ==> OneLine(lines[i]) }

  lemma {:induction false} FloatLinesOneLine(f: FloatText, tag: string, ws: seq<Word>, size: nat, k: nat)
    requires FloatTag(tag, size) && size * k <= |ws| && AllPrintable(f, ws[..size * k])
    ensures AllOneLine(FloatLines(f, tag, ws, size, k))
    decreases k
  {
    hide OneLine, JoinWords, AllPrintable, PrintWords;
    if k != 0 {
      var i, j := size * (k - 1), size * k;
      assert j == i + size;
      PrintableSlice(f, ws[..j], 0, i);
      assert ws[..j][0..i] == ws[..i];
      FloatLinesOneLine(f, tag, ws, size, k - 1);
      PrintableSlice(f, ws[..j], i, j);
      assert ws[..j][i..j] == ws[i..j];
      ParsePrintWords(f, ws[i..j]);
      JoinOneLine([tag] + PrintWords(f, ws[i..j]));
    }
  }

  lemma FaceLineOneLine(a: Corner, b: Corner, c: Corner)
    ensures OneLine(FaceLine(a, b, c))
  {
    assert Token("f");
    hide Token, OneLine, JoinWords, PrintVertex;
    PrintVertexToken(a);
    PrintVertexToken(b);
    PrintVertexToken(c);
    JoinOneLine(["f", PrintVertex(a), PrintVertex(b), PrintVertex(c)]);
  }

  lemma {:induction false} FaceLinesOneLine(cs: seq<Corner>, k: nat)
    requires 3 * k <= |cs|
    ensures AllOneLine(FaceLines(cs, k))
    decreases k
  {
    hide OneLine, FaceLine;
    if k != 0 {
      var t := 3 * (k - 1);
      FaceLinesOneLine(cs, k - 1);
      FaceLineOneLine(cs[t], cs[t + 1], cs[t + 2]);
    }
  }

  lemma {:induction false} TextOneLine(pieces: seq<string>)
    requires AllOneLine(pieces)
    ensures OneLine("#" + Text(pieces))
    decreases |pieces|
  {
    if pieces == [] {
      assert "#" + Text(pieces) == "#";
    } else {
      var n := |pieces| - 1;
      TextOneLine(pieces[..n]);
      assert OneLine(pieces[n]);
      assert "#" + Text(pieces) == "#" + Text(pieces[..n]) + pieces[n];
    }
  }

  lemma FirstWordOneLine(i: nat)
    requires i < |FIRST_WORDS|
    ensures OneLine(FIRST_WORDS[i])
  {
    match i {
      case 0 => assert OneLine(FIRST_WORDS[0]);
      case 1 => assert OneLine(FIRST_WORDS[1]);
      case 2 => assert OneLine(FIRST_WORDS[2]);
      case 3 => assert OneLine(FIRST_WORDS[3]);
      case 4 => assert OneLine(FIRST_WORDS[4]);
      case 5 => assert OneLine(FIRST_WORDS[5]);
      case _ =>
    }
  }

  lemma FirstWordsOneLine()
    ensures AllOneLine(FIRST_WORDS)
  {
    hide OneLine, FIRST_WORDS;
    forall i | 0 <= i < |FIRST_WORDS| ensures OneLine(FIRST_WORDS[i]) {
      FirstWordOneLine(i);
    }
  }

  lemma SecondWordOneLine(i: nat)
    requires i < |SECOND_WORDS|
    ensures OneLine(SECOND_WORDS[i])
  {
    match i {
      case 0 => assert OneLine(SECOND_WORDS[0]);
      case 1 => assert OneLine(SECOND_WORDS[1]);
      case 2 => assert OneLine(SECOND_WORDS[2]);
      case 3 => assert OneLine(SECOND_WORDS[3]);
      case 4 => assert OneLine(SECOND_WORDS[4]);
      case _ =>
    }
  }

  lemma SecondWordsOneLine()
    ensures AllOneLine(SECOND_WORDS)
  {
    hide OneLine, SECOND_WORDS;
    forall i | 0 <= i < |SECOND_WORDS| ensures OneLine(SECOND_WORDS[i]) {
      SecondWordOneLine(i);
    }
  }

  lemma FirstCommentOneLine()
    ensures OneLine(FIRST_COMMENT)
  {
    hide Text, OneLine, FIRST_WORDS;
    FirstWordsOneLine();
    TextOneLine(FIRST_WORDS);
  }

  lemma SecondCommentOneLine()
    ensures OneLine(SECOND_COMMENT)
  {
    hide Text, OneLine, SECOND_WORDS;
    SecondWordsOneLine();
    TextOneLine(SECOND_WORDS);
  }

  lemma ObjLinesOneLine(f: FloatText, m: Mesh)
    requires MeshPrintable(f, WholeGroups(m))
    ensures AllOneLine(ObjLines(f, m))
  {
    FirstCommentOneLine();
    SecondCommentOneLine();
    hide OneLine, FloatLines, FaceLines, FIRST_COMMENT, SECOND_COMMENT;
    FloatLinesOneLine(f, "v", m.positions, 3, |m.positions| / 3);
    FloatLinesOneLine(f, "vt", m.uvs, 2, |m.uvs| / 2);
    FloatLinesOneLine(f, "vn", m.normals, 3, |m.normals| / 3);
    FaceLinesOneLine(m.corners, |m.corners| / 3);
  }

  function PrintObj(f: FloatText, m: Mesh): string { JoinLines(ObjLines(f, m)) }

  function ParseObj(f: FloatText, text: string): Option<Mesh> { ParseLines(f, Lines(text)) }

  lemma ParsePrintObj(f: FloatText, m: Mesh)
    requires MeshPrintable(f, WholeGroups(m))
    ensures ParseObj(f, PrintObj(f, m)) == Some(WholeGroups(m))
  {
    hide ObjLines, ParseLines, Lines, OneLine;
    ObjLinesOneLine(f, m);
    LinesJoin(ObjLines(f, m));
    ParseObjLines(f, m);
  }

  // The two programs

  function BinToObj(f: FloatText, b: seq<byte>): Result<string> {
    match Decode(b)
    case Err(e) => Err(e)
    case Ok(m) => Ok(PrintObj(f, m))
  }

  function ObjToBin(f: FloatText, text: string): Result<seq<byte>> {
    match ParseObj(f, text)
    case None => Err(StructError)
    case Some(m) => Encode(m)
  }

  // For every accepted .binobj file with printable floats: decoding to text and baking the text back
  // succeeds, and gives the identical bytes exactly when xyz triples, uv pairs and triangles are whole.
  lemma ByteIdentical(f: FloatText, b: seq<byte>)
    requires Decode(b).Ok? && MeshPrintable(f, WholeGroups(Decode(b).value))
    ensures ObjToBin(f, BinToObj(f, b).value).Ok?
    ensures var m := Decode(b).value;
      ObjToBin(f, BinToObj(f, b).value) == Ok(b)
      <==> |m.positions| % 3 == 0 && |m.uvs| % 2 == 0 && |m.normals| % 3 == 0 && |m.corners| % 3 == 0
  {
    hide Decode, Encode, PrintObj, ParseObj;
    var m := Decode(b).value;
    var w := WholeGroups(m);
    ParsePrintObj(f, m);
    EncodeDecode(b);
    EncodeFits(m);
    EncodeFits(w);
    DecodeEncode(w);
    if w != m {
      assert |w.positions| != |m.positions| || |w.uvs| != |m.uvs|
        || |w.normals| != |m.normals| || |w.corners| != |m.corners|;
    }
  }

  lemma EncodeFits(m: Mesh)
    ensures Encode(m).Ok? <==> Fits(m)
  {
  }

  // Any text that bakes to printable floats: the baked file decodes and bakes back to itself.
  lemma BakedIsStable(f: FloatText, text: string)
    requires ObjToBin(f, text).Ok? && MeshPrintable(f, ParseObj(f, text).value)
    ensures var b := ObjToBin(f, text).value;
      Decode(b) == Ok(ParseObj(f, text).value) && ObjToBin(f, BinToObj(f, b).value) == Ok(b)
  {
    hide Decode, Encode, PrintObj, ParseLines, Lines;
    var m := ParseObj(f, text).value;
    EncodeFits(m);
    DecodeEncode(m);
    ParsedIsWhole(f, Lines(text));
    assert WholeGroups(m) == m;
    ByteIdentical(f, Encode(m).value);
  }

  lemma {:induction false} ParsedIsWhole(f: FloatText, lines: seq<string>)
    requires ParseLines(f, lines).Some?
    ensures var m := ParseLines(f, lines).value;
      |m.positions| % 3 == 0 && |m.uvs| % 2 == 0 && |m.normals| % 3 == 0 && |m.corners| % 3 == 0
    decreases |lines|
  {
    hide Words, ParseFace, Fan;
    if lines != [] {
      var n := |lines| - 1;
      ParsedIsWhole(f, lines[..n]);
      LineKeepsGroups(f, ParseLines(f, lines[..n]).value, Words(lines[n]));
    }
  }

  lemma ParseFloatsCount(f: FloatText, words: seq<string>)
    requires ParseFloats(f, words).Some?
    ensures |ParseFloats(f, words).value| == |words|
  {
  }

  lemma LineKeepsGroups(f: FloatText, m: Mesh, parts: seq<string>)
    requires forall i :: 0 <= i < |parts| ==> parts[i] != []
    requires |m.positions| % 3 == 0 && |m.uvs| % 2 == 0 && |m.normals| % 3 == 0 && |m.corners| % 3 == 0
    requires ParseParts(f, m, parts).Some?
    ensures var m' := ParseParts(f, m, parts).value;
      |m'.positions| % 3 == 0 && |m'.uvs| % 2 == 0 && |m'.normals| % 3 == 0 && |m'.corners| % 3 == 0
  {
    hide ParseFloats, ParseFace, Fan;
    if |parts| >= 3 && ParseFloats(f, parts[1..3]).Some? {
      ParseFloatsCount(f, parts[1..3]);
    }
    if |parts| >= 4 && ParseFloats(f, parts[1..4]).Some? {
      ParseFloatsCount(f, parts[1..4]);
    }
    if |parts| >= 1 && ParseFace(parts[1..]).Some? {
      var face := ParseFace(parts[1..]).value;
      FanTriangles(face, |face|);
    }
  }
}
