/** The packer's envelope code as it runs, and the rebuild with new signatures. */
module EnvelopePacker {
  import opened Envelope
  import opened Wrappers

  // What a rebuild with other signatures keeps and changes

  function Prefix(e: Fields): Bytes { SignedRegion(e) + Sized(e.manifestSignature) }

  function WithSignatures(e: Fields, list: seq<Signature>): Fields { e.(signatures := list) }

  lemma RebuildChangesOneSection(b: Bytes, list: seq<Signature>)
    requires Parse(b).Ok?
    ensures var e := Parse(b).value.fields;
      && b == Prefix(e) + SignatureSection(e.signatures) + Sized(e.payload)
      && Build(WithSignatures(e, list)) == Prefix(e) + SignatureSection(list) + Sized(e.payload)
  {
    BuildParsed(b);
  }

  // The rebuilt envelope is accepted exactly when the new signatures are, and then nothing else differs:
  // same header, manifest and payload, and the same signed bytes.
  lemma RebuildParses(b: Bytes, list: seq<Signature>)
    requires Parse(b).Ok?
    ensures var p := Parse(b).value;
      var r := Parse(Build(WithSignatures(p.fields, list)));
      r == Ok(Parsed(WithSignatures(p.fields, list), p.signedRegion)) <==> SignaturesFit(list)
  {
    hide Parse, Build, SignaturesFit, SignedRegion;
    var e := Parse(b).value.fields;
    BuildParsed(b);
    assert SignedRegion(WithSignatures(e, list)) == SignedRegion(e) by { SameRegion(e, list); }
    if SignaturesFit(list) {
      ParseBuilt(WithSignatures(e, list));
    } else {
      RoundTripExact(WithSignatures(e, list));
    }
  }

  lemma SameRegion(e: Fields, list: seq<Signature>)
    ensures SignedRegion(WithSignatures(e, list)) == SignedRegion(e)
  {
  }

  // signedRegion || SHA256(payload); an empty hash stands for a failed one.
  function SigningInput(p: Parsed, sha256: Bytes -> Bytes): Bytes {
    var hash := sha256(p.fields.payload);
    if hash == [] || p.signedRegion == [] then [] else p.signedRegion + hash
  }

  // What is signed in an accepted package: its bytes from the magic through the manifest, then the payload's hash.
  lemma InputOfPackage(b: Bytes, sha256: Bytes -> Bytes)
    requires Parse(b).Ok?
    ensures var p := Parse(b).value;
      SigningInput(p, sha256)
      == if sha256(p.fields.payload) == [] then []
         else b[..27 + 4 + |p.fields.manifest|] + sha256(p.fields.payload)
  {
    hide Parse, Build, SignedRegion;
    BuildParsed(b);
    var e := Parse(b).value.fields;
    RegionIsPrefix(e);
    RegionNotEmpty(e);
  }

  lemma RegionIsPrefix(e: Fields)
    ensures |Build(e)| >= 27 + 4 + |e.manifest| && Build(e)[..27 + 4 + |e.manifest|] == SignedRegion(e)
  {
    var region := SignedRegion(e);
    var rest := Sized(e.manifestSignature) + SignatureSection(e.signatures) + Sized(e.payload);
    assert |region| == 27 + 4 + |e.manifest|;
    hide SignedRegion, Sized, SignatureSection;
    assert Build(e) == region + rest;
    assert (region + rest)[..|region|] == region;
  }

  // With hashes of one length, two packages ask for the same signature exactly when their headers, their manifests
  // and the hashes of their payloads are the same.
  lemma SameInputExactly(b: Bytes, c: Bytes, sha256: Bytes -> Bytes)
    requires Parse(b).Ok? && Parse(c).Ok?
    requires var x, y := sha256(Parse(b).value.fields.payload), sha256(Parse(c).value.fields.payload);
      |x| == |y| > 0
    ensures var p, q := Parse(b).value, Parse(c).value;
      SigningInput(p, sha256) == SigningInput(q, sha256)
      <==> p.fields.header == q.fields.header && p.fields.manifest == q.fields.manifest
           && sha256(p.fields.payload) == sha256(q.fields.payload)
  {
    BuildParsed(b);
    BuildParsed(c);
    var p, q := Parse(b).value, Parse(c).value;
    var x, y := sha256(p.fields.payload), sha256(q.fields.payload);
    RegionNotEmpty(p.fields);
    RegionNotEmpty(q.fields);
    hide Parse, Build, SignedRegion;
    if p.signedRegion + x == q.signedRegion + y {
      SplitBehind(p.signedRegion, x, q.signedRegion, y);
      RegionInjective(p.fields, q.fields);
    }
    RegionOf(p.fields, q.fields);
  }

  lemma RegionNotEmpty(e: Fields)
    ensures SignedRegion(e) != []
  {
    assert SignedRegion(e) == HeaderBytes(e.header) + Sized(e.manifest);
    hide HeaderBytes, Sized;
  }

  lemma RegionOf(d: Fields, e: Fields)
    ensures d.header == e.header && d.manifest == e.manifest ==> SignedRegion(d) == SignedRegion(e)
  {
  }

  lemma SplitBehind(a: Bytes, x: Bytes, b: Bytes, y: Bytes)
    requires a + x == b + y && |x| == |y|
    ensures a == b && x == y
  {
    assert |a| == |b|;
    assert a == (a + x)[..|a|] && b == (b + y)[..|b|];
    assert x == (a + x)[|a|..] && y == (b + y)[|b|..];
  }

  lemma RegionInjective(d: Fields, e: Fields)
    requires SignedRegion(d) == SignedRegion(e)
    ensures d.header == e.header && d.manifest == e.manifest
  {
    hide HeaderBytes, ParseHeader, LeU32;
    ParseHeaderBytes(d.header, Sized(d.manifest));
    ParseHeaderBytes(e.header, Sized(e.manifest));
    SplitBefore(HeaderBytes(d.header), Sized(d.manifest), HeaderBytes(e.header), Sized(e.manifest));
    assert d.manifest == Sized(d.manifest)[4..] && e.manifest == Sized(e.manifest)[4..];
  }

  lemma SplitBefore(a: Bytes, x: Bytes, b: Bytes, y: Bytes)
    requires a + x == b + y && |a| == |b|
    ensures a == b && x == y
  {
    assert a == (a + x)[..|a|] && b == (b + y)[..|b|];
    assert x == (a + x)[|a|..] && y == (b + y)[|b|..];
  }

  // Reading and writing

  lemma ShiftsAreDigits(value: U32)
    ensures value / 0x1_0000 == value / 0x100 / 0x100
    ensures value / 0x100_0000 == value / 0x1_0000 / 0x100 < 0x100
  {
  }

  lemma FourDigits(n: nat)
    ensures Digits(n, 4) == [n % 0x100, n / 0x100 % 0x100, n / 0x100 / 0x100 % 0x100, n / 0x100 / 0x100 / 0x100 % 0x100]
  {
    var q1 := n / 0x100;
    var q2 := q1 / 0x100;
    assert Digits(q2, 2) == [q2 % 0x100] + Digits(q2 / 0x100, 1);
    assert Digits(q1, 3) == [q1 % 0x100] + Digits(q2, 2);
  }

  method AppendLeU32(to: Bytes, value: U32) returns (r: Bytes)
    ensures r == to + LeU32(value)
  {
    ShiftsAreDigits(value);
    FourDigits(value);
    r := to + [value % 0x100, value / 0x100 % 0x100, value / 0x1_0000 % 0x100, value / 0x100_0000 % 0x100];
  }

  method AppendLeU64(to: Bytes, value: U64) returns (r: Bytes)
    ensures r == to + LeU64(value)
  {
    hide LeU32;
    r := AppendLeU32(to, value % 0x1_0000_0000);
    r := AppendLeU32(r, value / 0x1_0000_0000);
    assert r == to + LeU64(value);
  }

  method AppendSized(to: Bytes, b: Bytes) returns (r: Bytes)
    ensures r == to + Sized(b)
  {
    hide LeU32;
    r := AppendLeU32(to, |b| % 0x1_0000_0000);
    r := r + b;
    assert r == to + Sized(b);
  }

  method BuildV2Envelope(header: Header, manifest: Bytes, manifestSignature: Bytes,
                         signatures: seq<Signature>, payload: Bytes) returns (result: Bytes)
    ensures result == Build(Fields(header, manifest, manifestSignature, signatures, payload))
  {
    hide LeU32, LeU64, Sized;
    result := MAGIC;
    result := AppendLeU32(result, FORMAT);
    result := result + [header.channel];
    result := result + [header.os];
    result := result + [header.arch];
    result := AppendLeU64(result, header.version);
    result := AppendLeU64(result, ToU64(header.created));
    assert result == HeaderBytes(header);
    result := AppendSized(result, manifest);
    result := AppendSized(result, manifestSignature);
    ghost var before := result;
    result := AppendLeU32(result, |signatures| % 0x1_0000_0000);
    ghost var start := result;
    for i := 0 to |signatures|
      invariant result == start + SignaturesBytes(signatures[..i])
    {
      result := AppendSized(result, signatures[i].keyId);
      result := AppendSized(result, signatures[i].bytes);
      assert signatures[..i + 1][..i] == signatures[..i];
      assert result == start + (SignaturesBytes(signatures[..i]) + SignatureBytes(signatures[i]));
    }
    assert signatures[..|signatures|] == signatures;
    assert result == before + SignatureSection(signatures);
    result := AppendSized(result, payload);
  }

  class Reader {
    const data: Bytes
    var offset: nat

    constructor (data: Bytes)
      ensures this.data == data && offset == 0
    {
      this.data, offset := data, 0;
    }

    ghost predicate Valid() reads this { offset <= |data| }

    method ReadU8() returns (r: Option<byte>)
      requires Valid()
      modifies this
      ensures Valid()
      ensures if old(offset) < |data| then r == Some(data[old(offset)]) && offset == old(offset) + 1
              else r == None && offset == old(offset)
    {
      if 1 > |data| - offset {
        return None;
      }
      r, offset := Some(data[offset]), offset + 1;
    }

    method ReadU32() returns (r: Option<U32>)
      requires Valid()
      modifies this
      ensures Valid()
      ensures if old(offset) + 4 <= |data|
              then r == Some(Envelope.ReadU32(data, old(offset))) && offset == old(offset) + 4
              else r == None && offset == old(offset)
    {
      if 4 > |data| - offset {
        return None;
      }
      r, offset := Some(Envelope.ReadU32(data, offset)), offset + 4;
    }

    // Both halves are read before either is checked.
    method ReadU64() returns (r: Option<U64>)
      requires Valid()
      modifies this
      ensures Valid()
      ensures if old(offset) + 8 <= |data|
              then r == Some(Envelope.ReadU64(data, old(offset))) && offset == old(offset) + 8
              else r == None
    {
      var low := ReadU32();
      var high := ReadU32();
      if low.None? || high.None? {
        return None;
      }
      r := Some(Join(low.value, high.value));
    }

    method ReadBytes(count: nat) returns (r: Option<Bytes>)
      requires Valid()
      modifies this
      ensures Valid()
      ensures if old(offset) + count <= |data|
              then r == Some(data[old(offset)..old(offset) + count]) && offset == old(offset) + count
              else r == None && offset == old(offset)
    {
      if count > |data| - offset {
        return None;
      }
      r, offset := Some(data[offset..offset + count]), offset + count;
    }

    method ReadSized(limit: nat, section: Section) returns (r: Result<Bytes>)
      requires Valid()
      modifies this
      ensures Valid()
      ensures match ParseSized(data, old(offset), limit, section)
        case Err(e) => r == Err(e)
        case Ok((x, next)) => r == Ok(x) && offset == next
    {
      var length := ReadU32();
      if length.None? || length.value == 0 || length.value > limit {
        return Err(BadSize(section));
      }
      var bytes := ReadBytes(length.value);
      if bytes.None? {
        return Err(BadBytes(section));
      }
      r := Ok(bytes.value);
    }

    method ReadHeader() returns (r: Result<Header>)
      requires offset == 0
      modifies this
      ensures Valid() && r == ParseHeader(data) && (r.Ok? ==> offset == 27)
    {
      hide Envelope.ReadU32, Envelope.ReadU64;
      if |data| < 4 || data[..4] != MAGIC {
        return Err(BadMagic);
      }
      offset := 4;
      var format := ReadU32();
      if format.None? || format.value != FORMAT {
        return Err(BadFormat);
      }
      var channel := ReadU8();
      if channel.None? || channel.value > 3 {
        return Err(BadChannel);
      }
      var os := ReadU8();
      if os.None? || os.value > 2 {
        return Err(BadOs);
      }
      var arch := ReadU8();
      if arch.None? || arch.value > 2 {
        return Err(BadArch);
      }
      var version := ReadU64();
      if version.None? {
        return Err(BadVersion);
      }
      var created := ReadU64();
      if created.None? {
        return Err(BadTimestamp);
      }
      r := Ok(Header(channel.value, os.value, arch.value, version.value, ToI64(created.value)));
    }

    method ReadSignatures() returns (r: Result<seq<Signature>>)
      requires Valid()
      modifies this
      ensures Valid()
      ensures match ParseSignatureSection(data, old(offset))
        case Err(e) => r == Err(e)
        case Ok((list, next)) => r == Ok(list) && offset == next
    {
      hide Envelope.ReadU32, ParseSized;
      var count := ReadU32();
      if count.None? || count.value > MAX_SIGNATURES {
        return Err(BadSignatureCount);
      }
      var list, start := [], offset;
      for i := 0 to count.value
        invariant Valid() && ParseSignatures(data, start, i) == Ok((list, offset))
      {
        var keyId := ReadSized(MAX_KEY_ID_SIZE, KeyId);
        if keyId.Err? {
          SignaturesFail(data, start, i + 1, count.value);
          return Err(keyId.error);
        }
        var bytes := ReadSized(MAX_SIGNATURE_SIZE, KeySignature);
        if bytes.Err? {
          SignaturesFail(data, start, i + 1, count.value);
          return Err(bytes.error);
        }
        list := list + [Signature(keyId.value, bytes.value)];
      }
      r := Ok(list);
    }
  }

  lemma {:induction false} SignaturesFail(b: Bytes, at: nat, i: nat, n: nat)
    requires at <= |b| && i <= n && ParseSignatures(b, at, i).Err?
    ensures ParseSignatures(b, at, n) == Err(ParseSignatures(b, at, i).error)
    decreases n
  {
    hide ParseSignature;
    if i < n {
      SignaturesFail(b, at, i, n - 1);
    }
  }

  method ParseEnvelope(data: Bytes) returns (r: Result<Parsed>)
    ensures r == Parse(data)
  {
    hide ParseHeader, ParseSized, ParseSignatureSection;
    var reader := new Reader(data);
    var header :- reader.ReadHeader();
    var manifest :- reader.ReadSized(MAX_MANIFEST_SIZE, Manifest);
    var signedRegion := data[..reader.offset];
    var manifestSignature :- reader.ReadSized(MAX_MANIFEST_SIGNATURE_SIZE, ManifestSignature);
    var signatures :- reader.ReadSignatures();
    var payload :- reader.ReadSized(MAX_PAYLOAD_SIZE, Payload);
    if reader.offset != |data| {
      return Err(BadBytes(Payload));
    }
    r := Ok(Parsed(Fields(header, manifest, manifestSignature, signatures, payload), signedRegion));
  }

  // The local key: its id, the key file's bytes, and the signing library.
  datatype LocalKey = LocalKey(id: Bytes, pem: Bytes, sign: Bytes -> Bytes)

  // What may come out of signing: empty means failure.
  function LocalSignature(key: LocalKey, p: Parsed, sha256: Bytes -> Bytes): Option<Signature> {
    var input := SigningInput(p, sha256);
    if key.id == [] || key.pem == [] || input == [] || key.sign(input) == [] then None
    else Some(Signature(key.id, key.sign(input)))
  }

  // The embedding step up to the final verification of the result.
  function Embedded(bytes: Bytes, channel: Option<Channel>, embed: seq<Signature>, local: Option<LocalKey>,
                    sha256: Bytes -> Bytes): Option<Bytes> {
    match Parse(bytes)
    case Err(_) => None
    case Ok(p) =>
      if p.fields.signatures != [] then None
      else if channel.Some? && channel.value != p.fields.header.channel then None
      else if exists i :: 0 <= i < |embed| && embed[i].bytes == [] then None
      else
        match local
        case None => if embed == [] then None else Some(Build(WithSignatures(p.fields, embed)))
        case Some(key) =>
          match LocalSignature(key, p, sha256)
          case None => None
          case Some(s) => Some(Build(WithSignatures(p.fields, embed + [s])))
  }

  method EmbedV2Signatures(bytes: Bytes, channel: Option<Channel>, embed: seq<Signature>, local: Option<LocalKey>,
                           sha256: Bytes -> Bytes) returns (r: Option<Bytes>)
    ensures r == Embedded(bytes, channel, embed, local, sha256)
  {
    hide Parse, Build, SigningInput;
    var envelope := ParseEnvelope(bytes);
    if envelope.Err? {
      return None;
    }
    var p := envelope.value;
    if p.fields.signatures != [] || (channel.Some? && channel.value != p.fields.header.channel) {
      return None;
    }
    var signatures := [];
    for i := 0 to |embed|
      invariant signatures == embed[..i]
      invariant forall j :: 0 <= j < i ==> embed[j].bytes != []
    {
      if embed[i].bytes == [] {
        return None;
      }
      signatures := signatures + [embed[i]];
    }
    assert embed[..|embed|] == embed;
    if local.Some? {
      var key := local.value;
      if key.id == [] || key.pem == [] {
        return None;
      }
      var input := SigningInput(p, sha256);
      if input == [] {
        return None;
      }
      var signature := key.sign(input);
      if signature == [] {
        return None;
      }
      signatures := signatures + [Signature(key.id, signature)];
    }
    if signatures == [] {
      return None;
    }
    var f := p.fields;
    var result := BuildV2Envelope(f.header, f.manifest, f.manifestSignature, signatures, f.payload);
    r := Some(result);
  }

  // What embedding refuses, and what it signs: the bytes of the unsigned package from the magic through the manifest,
  // and the hash of its payload.
  lemma EmbeddedExactly(bytes: Bytes, channel: Option<Channel>, embed: seq<Signature>, local: Option<LocalKey>,
                        sha256: Bytes -> Bytes)
    requires Parse(bytes).Ok?
    ensures var p := Parse(bytes).value;
      var r := Embedded(bytes, channel, embed, local, sha256);
      var hash := sha256(p.fields.payload);
      var input := bytes[..27 + 4 + |p.fields.manifest|] + hash;
      var unsigned := p.fields.signatures == [] && (channel == None || channel == Some(p.fields.header.channel));
      var complete := forall s :: s in embed ==> s.bytes != [];
      match local
      case None =>
        r == if unsigned && complete && embed != [] then Some(Build(WithSignatures(p.fields, embed))) else None
      case Some(key) =>
        r == if unsigned && complete && key.id != [] && key.pem != [] && hash != [] && key.sign(input) != []
             then Some(Build(WithSignatures(p.fields, embed + [Signature(key.id, key.sign(input))]))) else None
  {
    InputOfPackage(bytes, sha256);
    assert (exists i :: 0 <= i < |embed| && embed[i].bytes == []) <==> exists s :: s in embed && s.bytes == [];
    hide Parse, Build, SigningInput;
  }

  lemma EmbeddedNeedsPackage(bytes: Bytes, channel: Option<Channel>, embed: seq<Signature>, local: Option<LocalKey>,
                             sha256: Bytes -> Bytes)
    requires Parse(bytes).Err?
    ensures Embedded(bytes, channel, embed, local, sha256) == None
  {
  }

  // The signatures that end up in the package.
  function EmbeddedList(p: Parsed, embed: seq<Signature>, local: Option<LocalKey>,
                        sha256: Bytes -> Bytes): seq<Signature>
  {
    if local.None? then embed
    else match LocalSignature(local.value, p, sha256) case None => embed case Some(s) => embed + [s]
  }

  // The embedded package parses exactly when its signatures are within the limits; then whoever signed the
  // signing input of the unsigned package signed that of the embedded one, and all else is as it was.
  lemma EmbeddedKeepsSigningInput(bytes: Bytes, channel: Option<Channel>, embed: seq<Signature>,
                                  local: Option<LocalKey>, sha256: Bytes -> Bytes)
    requires Embedded(bytes, channel, embed, local, sha256).Some?
    requires SizesFit(WithSignatures(Parse(bytes).value.fields, EmbeddedList(Parse(bytes).value, embed, local, sha256)))
    ensures var p := Parse(bytes).value;
      var list := EmbeddedList(p, embed, local, sha256);
      var r := Parse(Embedded(bytes, channel, embed, local, sha256).value);
      && (r.Ok? <==> SignaturesFit(list))
      && (r.Ok? ==> r.value.fields == WithSignatures(p.fields, list)
                    && SigningInput(r.value, sha256) == SigningInput(p, sha256))
  {
    hide Parse, Build, SignaturesFit, SigningInput, SizesFit, LocalSignature;
    var p := Parse(bytes).value;
    var list := EmbeddedList(p, embed, local, sha256);
    var e := WithSignatures(p.fields, list);
    RebuildParses(bytes, list);
    SameInput(p, list, sha256);
    if Parse(Build(e)).Ok? {
      ParseOfBuild(e);
    }
  }

  lemma SameInput(p: Parsed, list: seq<Signature>, sha256: Bytes -> Bytes)
    ensures SigningInput(Parsed(WithSignatures(p.fields, list), p.signedRegion), sha256) == SigningInput(p, sha256)
  {
  }

  lemma ParseOfBuild(e: Fields)
    requires Parse(Build(e)).Ok? && SizesFit(e)
    ensures SignaturesFit(e.signatures)
  {
    hide Parse, Build;
    var f := Parse(Build(e)).value.fields;
    BuildParsed(Build(e));
    BuildInjective(f, e);
  }

  // Unsigned: the package and its signing input are left for external signatures.
  datatype Written = Refused | Unsigned(update: Bytes, input: Bytes) | Signed(update: Bytes)

  // WriteV2Update up to the final verification: the package is built unsigned and parsed back; then it is written
  // with its signing input, or it is signed, and built again at the parsed time.
  method WriteV2Update(header: Header, manifest: Bytes, manifestSignature: Bytes, payload: Bytes,
                       signingInputFile: bool, key: LocalKey, sha256: Bytes -> Bytes) returns (r: Written)
    ensures var e := Fields(header, manifest, manifestSignature, [], payload);
      match Parse(Build(e))
      case Err(_) => r == Refused
      case Ok(p) =>
        var hash := sha256(p.fields.payload);
        var input := Build(e)[..27 + 4 + |p.fields.manifest|] + hash;
        r == if hash == [] then Refused
             else if signingInputFile then Unsigned(Build(e), input)
             else if key.pem == [] || key.sign(input) == [] then Refused
             else Signed(Build(WithSignatures(e, [Signature(key.id, key.sign(input))])))
  {
    hide Parse, Build, SigningInput;
    var update := BuildV2Envelope(header, manifest, manifestSignature, [], payload);
    var envelope := ParseEnvelope(update);
    if envelope.Err? {
      return Refused;
    }
    InputOfPackage(update, sha256);
    var input := SigningInput(envelope.value, sha256);
    if input == [] {
      return Refused;
    }
    if signingInputFile {
      return Unsigned(update, input);
    }
    if key.pem == [] {
      return Refused;
    }
    var signature := key.sign(input);
    if signature == [] {
      return Refused;
    }
    HeaderStays(Fields(header, manifest, manifestSignature, [], payload));
    var created := envelope.value.fields.header.created;
    update := BuildV2Envelope(header.(created := created), manifest, manifestSignature,
                              [Signature(key.id, signature)], payload);
    r := Signed(update);
  }

  lemma HeaderStays(e: Fields)
    requires Parse(Build(e)).Ok?
    ensures Parse(Build(e)).value.fields.header == e.header
  {
    hide HeaderBytes, ParseHeader, ParseSized, ParseSignatureSection, Sized, SignatureSection;
    var rest := Sized(e.manifest) + Sized(e.manifestSignature) + SignatureSection(e.signatures) + Sized(e.payload);
    assert Build(e) == HeaderBytes(e.header) + rest;
    ParseHeaderBytes(e.header, rest);
  }

  // The written package parses back with one signature, made over the very input the client checks.
  lemma WrittenIsSignedOver(e: Fields, key: LocalKey, sha256: Bytes -> Bytes)
    requires Acceptable(e) && e.signatures == []
    requires SignatureFits(Signature(key.id, key.sign(SignedRegion(e) + sha256(e.payload))))
    ensures var s := Signature(key.id, key.sign(SignedRegion(e) + sha256(e.payload)));
      var w := Build(WithSignatures(e, [s]));
      Parse(w).Ok?
      && var f := Parse(w).value.fields;
      f == WithSignatures(e, [s]) && s.bytes == key.sign(w[..27 + 4 + |f.manifest|] + sha256(f.payload))
  {
    hide Parse, Build, SignedRegion, Acceptable, SignatureFits;
    var s := Signature(key.id, key.sign(SignedRegion(e) + sha256(e.payload)));
    OneFits(e, s);
    ParseBuilt(WithSignatures(e, [s]));
    RegionIsPrefix(WithSignatures(e, [s]));
    SameRegion(e, [s]);
  }

  lemma OneFits(e: Fields, s: Signature)
    requires Acceptable(e) && SignatureFits(s)
    ensures Acceptable(WithSignatures(e, [s]))
  {
  }
}
