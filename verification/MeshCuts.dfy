/** Files of the wrong length: which error the decoder reports. */
module MeshCuts {
  import opened MeshBinary

  lemma IntOfCut(b: seq<byte>, k: nat, at: nat)
    requires at + 4 <= k <= |b|
    ensures ReadWord(b[..k], at) == ReadWord(b, at) && ReadInt(b[..k], at) == ReadInt(b, at)
  {
  }

  lemma {:induction false} WordsOfCut(b: seq<byte>, k: nat, at: nat, n: nat)
    requires at + 4 * n <= k <= |b|
    ensures ReadWords(b[..k], at, n) == ReadWords(b, at, n)
    decreases n
  {
    if n > 0 {
      WordsOfCut(b, k, at, n - 1);
      IntOfCut(b, k, at + 4 * (n - 1));
      hide ReadWord;
    }
  }

  lemma SectionOfCut(b: seq<byte>, k: nat, at: nat)
    requires ReadSection(b, at).Ok? && at <= k <= |b|
    ensures ReadSection(b[..k], at) == if ReadSection(b, at).value.1 <= k then ReadSection(b, at) else Err(StructError)
  {
    hide ReadWords, ReadInt;
    if at + 4 <= k {
      IntOfCut(b, k, at);
      var n := ReadInt(b, at);
      if at + 4 + 4 * n <= k {
        WordsOfCut(b, k, at + 4, n);
      }
    }
  }

  lemma CornersOfCut(b: seq<byte>, k: nat, at: nat)
    requires ReadCornerSection(b, at).Ok? && at <= k < |b|
    ensures ReadCornerSection(b[..k], at) == Err(StructError)
  {
    hide ReadCorners, ReadInt;
    if at + 4 <= k {
      IntOfCut(b, k, at);
    }
  }

  // A file that is cut off anywhere is a struct error.
  lemma CutFile(m: Mesh, k: nat)
    requires Fits(m) && k < |Encode(m).value|
    ensures Decode(Encode(m).value[..k]) == Err(StructError)
  {
    var b := Encode(m).value;
    DecodeEncode(m);
    hide Fits, Encode, ReadSection, ReadCornerSection;
    DecodedCut(b, k);
  }

  lemma DecodedCut(b: seq<byte>, k: nat)
    requires Decode(b).Ok? && k < |b|
    ensures Decode(b[..k]) == Err(StructError)
  {
    var at1 := ReadSection(b, 0).value.1;
    var at2 := ReadSection(b, at1).value.1;
    var at3 := ReadSection(b, at2).value.1;
    hide ReadSection, ReadCornerSection;
    SectionOfCut(b, k, 0);
    if at1 <= k {
      SectionOfCut(b, k, at1);
      if at2 <= k {
        SectionOfCut(b, k, at2);
        if at3 <= k {
          CornersOfCut(b, k, at3);
        }
      }
    }
  }

  lemma MoreCorners(b: seq<byte>, at: nat, more: seq<byte>)
    requires ReadCornerSection(b, at).Ok? && more != []
    ensures ReadCornerSection(b + more, at) == Err(TrailingBytes)
  {
    hide ReadCorners, ReadInt;
    IntOfCut(b + more, |b|, at);
    assert (b + more)[..|b|] == b;
  }

  lemma SectionOfMore(b: seq<byte>, at: nat, more: seq<byte>)
    requires ReadSection(b, at).Ok?
    ensures ReadSection(b + more, at) == ReadSection(b, at)
  {
    hide ReadWords, ReadInt;
    assert (b + more)[..|b|] == b;
    IntOfCut(b + more, |b|, at);
    WordsOfCut(b + more, |b|, at + 4, ReadInt(b, at));
  }

  // One with bytes left over has trailing bytes.
  lemma LongFile(m: Mesh, more: seq<byte>)
    requires Fits(m) && more != []
    ensures Decode(Encode(m).value + more) == Err(TrailingBytes)
  {
    var b := Encode(m).value;
    DecodeEncode(m);
    var at1 := ReadSection(b, 0).value.1;
    var at2 := ReadSection(b, at1).value.1;
    var at3 := ReadSection(b, at2).value.1;
    hide Fits, Encode, ReadSection, ReadCornerSection;
    SectionOfMore(b, 0, more);
    SectionOfMore(b, at1, more);
    SectionOfMore(b, at2, more);
    MoreCorners(b, at3, more);
  }
}
