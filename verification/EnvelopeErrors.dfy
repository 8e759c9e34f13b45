/** Packages that are cut off or too long: which error the client's parser reports. */
module EnvelopeErrors {
  import opened Envelope

  // A header that ends early is refused at the first field that is not there in whole.
  function FirstMissing(k: nat): Error {
    if k < 4 then BadMagic
    else if k < 4 + 4 then BadFormat
    else if k < 8 + 1 then BadChannel
    else if k < 9 + 1 then BadOs
    else if k < 10 + 1 then BadArch
    else if k < 11 + 8 then BadVersion
    else BadTimestamp
  }

  lemma NumberOfCut(b: Bytes, k: nat, at: nat)
    requires at + 4 <= k <= |b|
    ensures ReadU32(b[..k], at) == ReadU32(b, at)
  {
  }

  lemma HeaderOfCut(b: Bytes, k: nat)
    requires ParseHeader(b).Ok? && k < 27
    ensures ParseHeader(b[..k]) == Err(FirstMissing(k))
  {
    var cut := b[..k];
    if k >= 4 {
      assert cut[..4] == b[..4];
    }
    if k >= 8 {
      NumberOfCut(b, k, 4);
    }
    hide ReadU32, ReadU64;
  }

  lemma SizedOfCut(b: Bytes, k: nat, at: nat, limit: nat, section: Section)
    requires at <= k <= |b| && ParseSized(b, at, limit, section).Ok?
    ensures var next := ParseSized(b, at, limit, section).value.1;
      ParseSized(b[..k], at, limit, section)
      == if next <= k then ParseSized(b, at, limit, section)
         else Err(if k < at + 4 then BadSize(section) else BadBytes(section))
  {
    if at + 4 <= k {
      NumberOfCut(b, k, at);
      var n := ReadU32(b, at);
      if at + 4 + n <= k {
        assert b[..k][at + 4..at + 4 + n] == b[at + 4..at + 4 + n];
      }
    }
    hide ReadU32;
  }

  // A size of zero or above the limit is refused as such, also when the bytes are missing.
  lemma SizeRefused(pre: Bytes, n: U32, post: Bytes, limit: nat, section: Section)
    requires n == 0 || n > limit
    ensures ParseSized(pre + LeU32(n) + post, |pre|, limit, section) == Err(BadSize(section))
  {
    ReadLe(pre, n, post);
    hide ReadU32;
  }

  // A package that ends in its header or in its manifest.
  lemma CutPackage(e: Fields, k: nat)
    requires Acceptable(e) && k < 27 + 4 + |e.manifest|
    ensures k < |Build(e)|
    ensures Parse(Build(e)[..k])
      == Err(if k < 27 then FirstMissing(k) else if k < 31 then BadSize(Manifest) else BadBytes(Manifest))
  {
    ParseBuilt(e);
    var b := Build(e);
    hide Build, ParseHeader, ParseSized, ParseSignatureSection, FirstMissing, Acceptable;
    DecodedCut(b, e, k);
  }

  lemma DecodedCut(b: Bytes, e: Fields, k: nat)
    requires Parse(b).Ok? && Parse(b).value.fields == e && k < 27 + 4 + |e.manifest|
    ensures k < |b|
    ensures Parse(b[..k])
      == Err(if k < 27 then FirstMissing(k) else if k < 31 then BadSize(Manifest) else BadBytes(Manifest))
  {
    hide ParseSignatureSection, FirstMissing;
    assert ParseSized(b, 27, MAX_MANIFEST_SIZE, Manifest).value.0 == e.manifest;
    assert ParseSized(b, 27, MAX_MANIFEST_SIZE, Manifest).value.1 == 31 + |e.manifest|;
    if k < 27 {
      HeaderOfCut(b, k);
    } else {
      HeaderOfPrefix(b, k);
      SizedOfCut(b, k, 27, MAX_MANIFEST_SIZE, Manifest);
    }
    hide ParseHeader, ParseSized;
  }

  lemma HeaderOfPrefix(b: Bytes, k: nat)
    requires ParseHeader(b).Ok? && 27 <= k <= |b|
    ensures ParseHeader(b[..k]) == ParseHeader(b)
  {
    assert b[..k][..4] == b[..4];
    NumberOfCut(b, k, 4);
    hide ReadU32;
    assert ReadU64(b[..k], 11) == ReadU64(b, 11) && ReadU64(b[..k], 19) == ReadU64(b, 19);
  }

  // A package with bytes left over.
  lemma LongPackage(e: Fields, more: Bytes)
    requires Acceptable(e) && more != []
    ensures Parse(Build(e) + more) == Err(BadBytes(Payload))
  {
    hide HeaderBytes, Sized, SignatureSection, ParseHeader, ParseSized, ParseSignatureSection, SignaturesFit;
    var h, m, ms := HeaderBytes(e.header), Sized(e.manifest), Sized(e.manifestSignature);
    var ss, p := SignatureSection(e.signatures), Sized(e.payload);
    var b := Build(e) + more;
    ParseHeaderBytes(e.header, m + ms + ss + p + more);
    assert b == h + (m + ms + ss + p + more);
    ParseSizedBytes(h, e.manifest, ms + ss + p + more, MAX_MANIFEST_SIZE, Manifest);
    assert b == h + m + (ms + ss + p + more);
    ParseSizedBytes(h + m, e.manifestSignature, ss + p + more, MAX_MANIFEST_SIGNATURE_SIZE, ManifestSignature);
    assert b == h + m + ms + (ss + p + more);
    ParseSignatureSectionBytes(h + m + ms, e.signatures, p + more);
    assert b == h + m + ms + ss + (p + more);
    ParseSizedBytes(h + m + ms + ss, e.payload, more, MAX_PAYLOAD_SIZE, Payload);
    assert b == h + m + ms + ss + p + more;
  }
}
