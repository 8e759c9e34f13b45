/** The V2 update envelope: what the packer builds and what the client parses. */
module Envelope {
  type byte = x: int | 0 <= x < 0x100
  type Bytes = seq<byte>
  type U32 = x: int | 0 <= x < 0x1_0000_0000
  type U64 = x: int | 0 <= x < 0x1_0000_0000_0000_0000
  type I64 = x: int | -0x8000_0000_0000_0000 <= x < 0x8000_0000_0000_0000

  type Channel = x: int | 0 <= x <= 3  // Stable, Beta, CanaryPublic, CanaryPrivate
  type Os = x: int | 0 <= x <= 2       // Windows, Mac, Linux
  type Arch = x: int | 0 <= x <= 2     // X86, X64, Arm

  datatype Signature = Signature(keyId: Bytes, bytes: Bytes)

  datatype Header = Header(channel: Channel, os: Os, arch: Arch, version: U64, created: I64)

  datatype Fields = Fields(
    header: Header, manifest: Bytes, manifestSignature: Bytes, signatures: seq<Signature>, payload: Bytes)

  // signedRegion: all bytes from the magic through the end of the manifest.
  datatype Parsed = Parsed(fields: Fields, signedRegion: Bytes)

  // The parts that are stored with their length.
  datatype Section = Manifest | ManifestSignature | KeyId | KeySignature | Payload

  datatype Error =
    | BadMagic | BadFormat | BadChannel | BadOs | BadArch | BadVersion | BadTimestamp | BadSignatureCount
    | BadSize(section: Section) | BadBytes(section: Section)

  datatype Result<+T> = Ok(value: T) | Err(error: Error) {
    predicate IsFailure() { Err? }
    function PropagateFailure<U>(): Result<U> requires Err? { Err(error) }
    function Extract(): T requires Ok? { value }
  }

  const MAGIC: Bytes := [0x54, 0x44, 0x55, 0x50]  // "TDUP"
  const FORMAT: U32 := 2
  const MAX_MANIFEST_SIZE := 256 * 1024
  const MAX_MANIFEST_SIGNATURE_SIZE := 256
  const MAX_SIGNATURES := 16
  const MAX_KEY_ID_SIZE := 64
  const MAX_SIGNATURE_SIZE := 512
  const MAX_PAYLOAD_SIZE := 256 * 1024 * 1024

  // Numbers

  // k little-endian base 256 digits of n, and back.
  function Digits(n: nat, k: nat): (b: Bytes)
    ensures |b| == k
  {
    if k == 0 then [] else [n % 0x100] + Digits(n / 0x100, k - 1)
  }

  function Power(k: nat): nat { if k == 0 then 1 else 0x100 * Power(k - 1) }

  function Value(b: Bytes): (n: nat)
    ensures n < Power(|b|)
  {
    if b == [] then 0 else b[0] + 0x100 * Value(b[1..])
  }

  lemma {:induction false} DigitsOfValue(b: Bytes)
    ensures Digits(Value(b), |b|) == b
  {
    if b == [] {
    } else {
      DigitsOfValue(b[1..]);
      FirstDigit(b[0], Value(b[1..]));
      assert b == [b[0]] + b[1..];
    }
  }

  lemma FirstDigit(d: byte, n: nat)
    ensures (d + 0x100 * n) % 0x100 == d && (d + 0x100 * n) / 0x100 == n
  {
  }

  lemma {:induction false} ValueOfDigits(n: nat, k: nat)
    requires n < Power(k)
    ensures Value(Digits(n, k)) == n
  {
    if k == 0 {
    } else {
      ValueOfDigits(n / 0x100, k - 1);
      assert Digits(n, k)[1..] == Digits(n / 0x100, k - 1);
    }
  }

  lemma Power4()
    ensures Power(4) == 0x1_0000_0000
  {
    assert Power(1) == 0x100 && Power(2) == 0x1_0000 && Power(3) == 0x100_0000;
  }

  function LeU32(n: U32): (b: Bytes)
    ensures |b| == 4
  {
    Digits(n, 4)
  }

  function LeU64(n: U64): (b: Bytes)
    ensures |b| == 8
  {
    LeU32(n % 0x1_0000_0000) + LeU32(n / 0x1_0000_0000)
  }

  function Number(b0: byte, b1: byte, b2: byte, b3: byte): U32 {
    Power4();
    Value([b0, b1, b2, b3])
  }

  function ReadU32(b: Bytes, at: nat): U32
    requires at + 4 <= |b|
  {
    Number(b[at], b[at + 1], b[at + 2], b[at + 3])
  }

  function ReadU64(b: Bytes, at: nat): U64
    requires at + 8 <= |b|
  {
    Join(ReadU32(b, at), ReadU32(b, at + 4))
  }

  function Join(low: U32, high: U32): U64 { low + 0x1_0000_0000 * high }

  // quint64(qint64) and back.
  function ToU64(n: I64): U64 { if n < 0 then n + 0x1_0000_0000_0000_0000 else n }

  function ToI64(n: U64): I64 { if n < 0x8000_0000_0000_0000 then n else n - 0x1_0000_0000_0000_0000 }

  lemma LeNumber(b0: byte, b1: byte, b2: byte, b3: byte)
    ensures LeU32(Number(b0, b1, b2, b3)) == [b0, b1, b2, b3]
  {
    hide Digits, Value;
    DigitsOfValue([b0, b1, b2, b3]);
  }

  lemma LeRead(b: Bytes, at: nat)
    requires at + 4 <= |b|
    ensures LeU32(ReadU32(b, at)) == b[at..at + 4]
  {
    hide Number, LeU32;
    LeNumber(b[at], b[at + 1], b[at + 2], b[at + 3]);
  }

  lemma LeRead64(b: Bytes, at: nat)
    requires at + 8 <= |b|
    ensures LeU64(ReadU64(b, at)) == b[at..at + 8]
  {
    hide ReadU32, LeU32;
    LeRead(b, at);
    LeRead(b, at + 4);
    assert b[at..at + 8] == b[at..at + 4] + b[at + 4..at + 8];
  }

  lemma ReadLe(pre: Bytes, n: U32, post: Bytes)
    ensures ReadU32(pre + LeU32(n) + post, |pre|) == n
  {
    hide Digits, Value, Power;
    var b := LeU32(n);
    var s := pre + b + post;
    assert b == [s[|pre|], s[|pre| + 1], s[|pre| + 2], s[|pre| + 3]];
    Power4();
    ValueOfDigits(n, 4);
  }

  lemma ReadLe64(pre: Bytes, n: U64, post: Bytes)
    ensures ReadU64(pre + LeU64(n) + post, |pre|) == n
  {
    hide ReadU32, LeU32;
    var low, high := LeU32(n % 0x1_0000_0000), LeU32(n / 0x1_0000_0000);
    ReadLe(pre, n % 0x1_0000_0000, high + post);
    ReadLe(pre + low, n / 0x1_0000_0000, post);
    assert pre + LeU64(n) + post == pre + low + (high + post);
    assert pre + LeU64(n) + post == pre + low + high + post;
  }

  // Building. A length field is the size cast to 32 bits.

  function Sized(b: Bytes): Bytes { LeU32(|b| % 0x1_0000_0000) + b }

  function HeaderBytes(h: Header): (b: Bytes)
    ensures |b| == 27
  {
    MAGIC + LeU32(FORMAT) + [h.channel, h.os, h.arch] + LeU64(h.version) + LeU64(ToU64(h.created))
  }

  function SignatureBytes(s: Signature): Bytes { Sized(s.keyId) + Sized(s.bytes) }

  function SignaturesBytes(list: seq<Signature>): Bytes {
    if list == [] then [] else SignaturesBytes(list[..|list| - 1]) + SignatureBytes(list[|list| - 1])
  }

  function SignedRegion(e: Fields): Bytes { HeaderBytes(e.header) + Sized(e.manifest) }

  function SignatureSection(list: seq<Signature>): Bytes { LeU32(|list| % 0x1_0000_0000) + SignaturesBytes(list) }

  function Build(e: Fields): Bytes {
    SignedRegion(e) + Sized(e.manifestSignature) + SignatureSection(e.signatures) + Sized(e.payload)
  }

  // Parsing

  function ParseHeader(b: Bytes): (r: Result<Header>)
    ensures r.Ok? ==> 27 <= |b|
  {
    if |b| < 4 || b[..4] != MAGIC then Err(BadMagic)
    else if |b| < 8 || ReadU32(b, 4) != FORMAT then Err(BadFormat)
    else if |b| < 9 || b[8] > 3 then Err(BadChannel)
    else if |b| < 10 || b[9] > 2 then Err(BadOs)
    else if |b| < 11 || b[10] > 2 then Err(BadArch)
    else if |b| < 19 then Err(BadVersion)
    else if |b| < 27 then Err(BadTimestamp)
    else Ok(Header(b[8], b[9], b[10], ReadU64(b, 11), ToI64(ReadU64(b, 19))))
  }

  // A length from 1 to limit and that many bytes.
  function ParseSized(b: Bytes, at: nat, limit: nat, section: Section): (r: Result<(Bytes, nat)>)
    requires at <= |b|
    ensures r.Ok? ==> at + 4 + |r.value.0| == r.value.1 <= |b|
  {
    if at + 4 > |b| then Err(BadSize(section))
    else
      var n := ReadU32(b, at);
      if n == 0 || n > limit then Err(BadSize(section))
      else if at + 4 + n > |b| then Err(BadBytes(section))
      else Ok((b[at + 4..at + 4 + n], at + 4 + n))
  }

  function ParseSignature(b: Bytes, at: nat): (r: Result<(Signature, nat)>)
    requires at <= |b|
    ensures r.Ok? ==> r.value.1 <= |b|
  {
    var (id, at1) :- ParseSized(b, at, MAX_KEY_ID_SIZE, KeyId);
    var (bytes, at2) :- ParseSized(b, at1, MAX_SIGNATURE_SIZE, KeySignature);
    Ok((Signature(id, bytes), at2))
  }

  function ParseSignatures(b: Bytes, at: nat, n: nat): (r: Result<(seq<Signature>, nat)>)
    requires at <= |b|
    ensures r.Ok? ==> r.value.1 <= |b| && |r.value.0| == n
  {
    if n == 0 then Ok(([], at))
    else
      var (list, at1) :- ParseSignatures(b, at, n - 1);
      var (s, at2) :- ParseSignature(b, at1);
      Ok((list + [s], at2))
  }

  function ParseSignatureSection(b: Bytes, at: nat): (r: Result<(seq<Signature>, nat)>)
    requires at <= |b|
    ensures r.Ok? ==> r.value.1 <= |b|
  {
    if at + 4 > |b| || ReadU32(b, at) > MAX_SIGNATURES then Err(BadSignatureCount)
    else ParseSignatures(b, at + 4, ReadU32(b, at))
  }

  function Parse(b: Bytes): (r: Result<Parsed>)
    ensures r.Ok? ==> 27 + 4 + |r.value.fields.manifest| <= |b|
  {
    var header :- ParseHeader(b);
    var (manifest, at1) :- ParseSized(b, 27, MAX_MANIFEST_SIZE, Manifest);
    var (manifestSignature, at2) :- ParseSized(b, at1, MAX_MANIFEST_SIGNATURE_SIZE, ManifestSignature);
    var (signatures, at3) :- ParseSignatureSection(b, at2);
    var (payload, at4) :- ParseSized(b, at3, MAX_PAYLOAD_SIZE, Payload);
    if at4 != |b| then Err(BadBytes(Payload))
    else Ok(Parsed(Fields(header, manifest, manifestSignature, signatures, payload), b[..at1]))
  }

  // What the client accepts

  predicate Between(b: Bytes, limit: nat) { 1 <= |b| <= limit }

  predicate SignatureFits(s: Signature) { Between(s.keyId, MAX_KEY_ID_SIZE) && Between(s.bytes, MAX_SIGNATURE_SIZE) }

  predicate SignaturesFit(list: seq<Signature>) {
    |list| <= MAX_SIGNATURES && forall i :: 0 <= i < |list| ==> SignatureFits(list[i])
  }

  predicate Acceptable(e: Fields) {
    Between(e.manifest, MAX_MANIFEST_SIZE) && Between(e.manifestSignature, MAX_MANIFEST_SIGNATURE_SIZE)
    && SignaturesFit(e.signatures) && Between(e.payload, MAX_PAYLOAD_SIZE)
  }

  // Parsing reads back what was built

  lemma ParseHeaderBytes(h: Header, post: Bytes)
    ensures ParseHeader(HeaderBytes(h) + post) == Ok(h)
  {
    hide ReadU32, ReadU64, LeU32, LeU64;
    var v, c := LeU64(h.version), LeU64(ToU64(h.created));
    var b := HeaderBytes(h) + post;
    var tags: Bytes := [h.channel, h.os, h.arch];
    ReadLe(MAGIC, FORMAT, tags + v + c + post);
    assert b == MAGIC + LeU32(FORMAT) + (tags + v + c + post);
    ReadLe64(MAGIC + LeU32(FORMAT) + tags, h.version, c + post);
    assert b == MAGIC + LeU32(FORMAT) + tags + v + (c + post);
    ReadLe64(MAGIC + LeU32(FORMAT) + tags + v, ToU64(h.created), post);
    assert b == MAGIC + LeU32(FORMAT) + tags + v + c + post;
  }

  lemma ParseSizedBytes(pre: Bytes, x: Bytes, post: Bytes, limit: nat, section: Section)
    requires Between(x, limit) && limit < 0x1_0000_0000
    ensures ParseSized(pre + Sized(x) + post, |pre|, limit, section) == Ok((x, |pre + Sized(x)|))
  {
    hide ReadU32, LeU32;
    ReadLe(pre, |x|, x + post);
    assert pre + Sized(x) + post == pre + LeU32(|x|) + (x + post);
    assert pre + Sized(x) + post == pre + LeU32(|x|) + x + post;
  }

  lemma ParseSignatureBytes(pre: Bytes, s: Signature, post: Bytes)
    requires SignatureFits(s)
    ensures ParseSignature(pre + SignatureBytes(s) + post, |pre|) == Ok((s, |pre + SignatureBytes(s)|))
  {
    hide Sized, ParseSized;
    var x, y := Sized(s.keyId), Sized(s.bytes);
    ParseSizedBytes(pre, s.keyId, y + post, MAX_KEY_ID_SIZE, KeyId);
    ParseSizedBytes(pre + x, s.bytes, post, MAX_SIGNATURE_SIZE, KeySignature);
    assert pre + SignatureBytes(s) + post == pre + x + (y + post);
    assert pre + SignatureBytes(s) + post == pre + x + y + post;
  }

  lemma {:induction false} ParseSignaturesBytes(pre: Bytes, list: seq<Signature>, post: Bytes)
    requires forall i :: 0 <= i < |list| ==> SignatureFits(list[i])
    ensures ParseSignatures(pre + SignaturesBytes(list) + post, |pre|, |list|)
      == Ok((list, |pre + SignaturesBytes(list)|))
    decreases |list|
  {
    hide SignatureBytes, ParseSignature, SignatureFits;
    if list == [] {
    } else {
      var n := |list| - 1;
      var before, last := SignaturesBytes(list[..n]), SignatureBytes(list[n]);
      ParseSignaturesBytes(pre, list[..n], last + post);
      ParseSignatureBytes(pre + before, list[n], post);
      assert pre + SignaturesBytes(list) + post == pre + before + (last + post);
      assert pre + SignaturesBytes(list) + post == pre + before + last + post;
      assert list[..n] + [list[n]] == list;
    }
  }

  lemma ParseSignatureSectionBytes(pre: Bytes, list: seq<Signature>, post: Bytes)
    requires SignaturesFit(list)
    ensures ParseSignatureSection(pre + SignatureSection(list) + post, |pre|)
      == Ok((list, |pre + SignatureSection(list)|))
  {
    hide ReadU32, LeU32, SignaturesBytes, ParseSignatures;
    var head, body := LeU32(|list|), SignaturesBytes(list);
    ReadLe(pre, |list|, body + post);
    ParseSignaturesBytes(pre + head, list, post);
    assert pre + SignatureSection(list) + post == pre + head + (body + post);
    assert pre + SignatureSection(list) + post == pre + head + body + post;
  }

  lemma ParseBuilt(e: Fields)
    requires Acceptable(e)
    ensures Parse(Build(e)) == Ok(Parsed(e, SignedRegion(e)))
  {
    hide HeaderBytes, Sized, SignatureSection, ParseHeader, ParseSized, ParseSignatureSection, SignaturesFit;
    var h, m, ms := HeaderBytes(e.header), Sized(e.manifest), Sized(e.manifestSignature);
    var ss, p := SignatureSection(e.signatures), Sized(e.payload);
    var b := Build(e);
    ParseHeaderBytes(e.header, m + ms + ss + p);
    assert b == h + (m + ms + ss + p);
    ParseSizedBytes(h, e.manifest, ms + ss + p, MAX_MANIFEST_SIZE, Manifest);
    assert b == h + m + (ms + ss + p);
    ParseSizedBytes(h + m, e.manifestSignature, ss + p, MAX_MANIFEST_SIGNATURE_SIZE, ManifestSignature);
    assert b == h + m + ms + (ss + p);
    ParseSignatureSectionBytes(h + m + ms, e.signatures, p);
    assert b == h + m + ms + ss + p;
    ParseSizedBytes(h + m + ms + ss, e.payload, [], MAX_PAYLOAD_SIZE, Payload);
    assert b == h + m + ms + ss + p + [];
  }

  // Building writes again what was parsed

  lemma HeaderOfParsed(b: Bytes)
    requires ParseHeader(b).Ok?
    ensures HeaderBytes(ParseHeader(b).value) == b[..27]
  {
    hide ReadU32, ReadU64, LeU32, LeU64;
    LeRead(b, 4);
    LeRead64(b, 11);
    LeRead64(b, 19);
    assert b[..27] == b[..4] + b[4..8] + [b[8], b[9], b[10]] + b[11..19] + b[19..27];
  }

  lemma SizedOfParsed(b: Bytes, at: nat, limit: nat, section: Section)
    requires at <= |b| && limit < 0x1_0000_0000 && ParseSized(b, at, limit, section).Ok?
    ensures var (x, next) := ParseSized(b, at, limit, section).value;
      at <= next && Between(x, limit) && Sized(x) == b[at..next]
  {
    hide ReadU32, LeU32;
    LeRead(b, at);
    var n := ReadU32(b, at);
    assert b[at..at + 4 + n] == b[at..at + 4] + b[at + 4..at + 4 + n];
  }

  lemma SignatureOfParsed(b: Bytes, at: nat)
    requires at <= |b| && ParseSignature(b, at).Ok?
    ensures var (s, next) := ParseSignature(b, at).value;
      at <= next && SignatureFits(s) && SignatureBytes(s) == b[at..next]
  {
    hide Sized, ParseSized;
    var at1 := ParseSized(b, at, MAX_KEY_ID_SIZE, KeyId).value.1;
    SizedOfParsed(b, at, MAX_KEY_ID_SIZE, KeyId);
    SizedOfParsed(b, at1, MAX_SIGNATURE_SIZE, KeySignature);
    var next := ParseSignature(b, at).value.1;
    assert b[at..next] == b[at..at1] + b[at1..next];
  }

  lemma {:induction false} SignaturesOfParsed(b: Bytes, at: nat, n: nat)
    requires at <= |b| && ParseSignatures(b, at, n).Ok?
    ensures var (list, next) := ParseSignatures(b, at, n).value;
      && at <= next && SignaturesBytes(list) == b[at..next]
      && forall i :: 0 <= i < |list| ==> SignatureFits(list[i])
  {
    hide SignatureBytes, ParseSignature, SignatureFits;
    if n != 0 {
      SignaturesOfParsed(b, at, n - 1);
      var (list, at1) := ParseSignatures(b, at, n - 1).value;
      SignatureOfParsed(b, at1);
      var (s, next) := ParseSignature(b, at1).value;
      assert (list + [s])[..n - 1] == list;
      assert b[at..next] == b[at..at1] + b[at1..next];
    }
  }

  lemma SignatureSectionOfParsed(b: Bytes, at: nat)
    requires at <= |b| && ParseSignatureSection(b, at).Ok?
    ensures var (list, next) := ParseSignatureSection(b, at).value;
      at <= next && SignaturesFit(list) && SignatureSection(list) == b[at..next]
  {
    hide ReadU32, LeU32, SignaturesBytes, ParseSignatures;
    LeRead(b, at);
    SignaturesOfParsed(b, at + 4, ReadU32(b, at));
    var next := ParseSignatureSection(b, at).value.1;
    assert b[at..next] == b[at..at + 4] + b[at + 4..next];
  }

  lemma BuildParsed(b: Bytes)
    requires Parse(b).Ok?
    ensures var p := Parse(b).value;
      Acceptable(p.fields) && Build(p.fields) == b && SignedRegion(p.fields) == p.signedRegion
  {
    hide HeaderBytes, Sized, SignatureSection, ParseHeader, ParseSized, ParseSignatureSection, SignaturesFit;
    HeaderOfParsed(b);
    var at1 := ParseSized(b, 27, MAX_MANIFEST_SIZE, Manifest).value.1;
    var at2 := ParseSized(b, at1, MAX_MANIFEST_SIGNATURE_SIZE, ManifestSignature).value.1;
    var at3 := ParseSignatureSection(b, at2).value.1;
    SizedOfParsed(b, 27, MAX_MANIFEST_SIZE, Manifest);
    SizedOfParsed(b, at1, MAX_MANIFEST_SIGNATURE_SIZE, ManifestSignature);
    SignatureSectionOfParsed(b, at2);
    SizedOfParsed(b, at3, MAX_PAYLOAD_SIZE, Payload);
    assert b[..at1] == b[..27] + b[27..at1];
    assert b == b[..at1] + b[at1..at2] + b[at2..at3] + b[at3..|b|];
  }

  // The client reads back an envelope exactly when every size is within the client's limits.
  lemma RoundTripExact(e: Fields)
    ensures (exists p :: Parse(Build(e)) == Ok(p) && p.fields == e) <==> Acceptable(e)
  {
    hide Parse, Build, SignaturesFit;
    if Acceptable(e) {
      ParseBuilt(e);
    } else if exists p :: Parse(Build(e)) == Ok(p) && p.fields == e {
      BuildParsed(Build(e));
      assert false;
    }
  }

  // Without the client's limits: the bytes determine all fields as long as sizes fit their length fields.

  predicate Fits32(b: Bytes) { |b| < 0x1_0000_0000 }

  predicate SizesFit(e: Fields) {
    Fits32(e.manifest) && Fits32(e.manifestSignature) && Fits32(e.payload) && |e.signatures| < 0x1_0000_0000
    && forall i :: 0 <= i < |e.signatures| ==> Fits32(e.signatures[i].keyId) && Fits32(e.signatures[i].bytes)
  }

  lemma SameLength(m: U32, x: Bytes, n: U32, y: Bytes)
    requires LeU32(m) + x == LeU32(n) + y
    ensures m == n && x == y
  {
    hide LeU32, ReadU32;
    ReadLe([], m, x);
    ReadLe([], n, y);
    assert [] + LeU32(m) + x == LeU32(m) + x && [] + LeU32(n) + y == LeU32(n) + y;
    assert x == (LeU32(m) + x)[4..] && y == (LeU32(n) + y)[4..];
  }

  lemma SizedPrefix(a: Bytes, x: Bytes, b: Bytes, y: Bytes)
    requires Fits32(a) && Fits32(b) && Sized(a) + x == Sized(b) + y
    ensures a == b && x == y
  {
    hide LeU32;
    assert Sized(a) + x == LeU32(|a|) + (a + x) && Sized(b) + y == LeU32(|b|) + (b + y);
    SameLength(|a|, a + x, |b|, b + y);
    assert a == (a + x)[..|a|] && x == (a + x)[|a|..];
    assert b == (b + y)[..|b|] && y == (b + y)[|b|..];
  }

  lemma {:induction false} SignaturesPrefix(a: seq<Signature>, x: Bytes, b: seq<Signature>, y: Bytes)
    requires |a| == |b| && SignaturesBytes(a) + x == SignaturesBytes(b) + y
    requires forall i :: 0 <= i < |a| ==> Fits32(a[i].keyId) && Fits32(a[i].bytes)
    requires forall i :: 0 <= i < |b| ==> Fits32(b[i].keyId) && Fits32(b[i].bytes)
    ensures a == b && x == y
    decreases |a|
  {
    hide Sized;
    if a != [] {
      var n := |a| - 1;
      var s, t := a[n], b[n];
      var s1, s2, t1, t2 := Sized(s.keyId), Sized(s.bytes), Sized(t.keyId), Sized(t.bytes);
      assert SignaturesBytes(a) + x == SignaturesBytes(a[..n]) + (s1 + (s2 + x));
      assert SignaturesBytes(b) + y == SignaturesBytes(b[..n]) + (t1 + (t2 + y));
      SignaturesPrefix(a[..n], s1 + (s2 + x), b[..n], t1 + (t2 + y));
      SizedPrefix(s.keyId, s2 + x, t.keyId, t2 + y);
      SizedPrefix(s.bytes, x, t.bytes, y);
      assert a == a[..n] + [s] && b == b[..n] + [t];
    } else {
      assert [] + x == x && [] + y == y;
    }
  }

  lemma BuildInjective(d: Fields, e: Fields)
    requires SizesFit(d) && SizesFit(e) && Build(d) == Build(e)
    ensures d == e
  {
    hide HeaderBytes, Sized, SignaturesBytes, ParseHeader, LeU32;
    var x := Sized(d.manifest) + (Sized(d.manifestSignature) + (SignatureSection(d.signatures) + Sized(d.payload)));
    var y := Sized(e.manifest) + (Sized(e.manifestSignature) + (SignatureSection(e.signatures) + Sized(e.payload)));
    assert Build(d) == HeaderBytes(d.header) + x && Build(e) == HeaderBytes(e.header) + y;
    ParseHeaderBytes(d.header, x);
    ParseHeaderBytes(e.header, y);
    assert x == Build(d)[27..] && y == Build(e)[27..];
    BuildTailInjective(d, e);
  }

  lemma BuildTailInjective(d: Fields, e: Fields)
    requires SizesFit(d) && SizesFit(e)
    requires Sized(d.manifest) + (Sized(d.manifestSignature) + (SignatureSection(d.signatures) + Sized(d.payload)))
          == Sized(e.manifest) + (Sized(e.manifestSignature) + (SignatureSection(e.signatures) + Sized(e.payload)))
    ensures d.(header := e.header) == e
  {
    hide Sized, SignaturesBytes, LeU32;
    var p, q := Sized(d.payload), Sized(e.payload);
    var u, v := SignatureSection(d.signatures) + p, SignatureSection(e.signatures) + q;
    SizedPrefix(d.manifest, Sized(d.manifestSignature) + u, e.manifest, Sized(e.manifestSignature) + v);
    SizedPrefix(d.manifestSignature, u, e.manifestSignature, v);
    var x, y := SignaturesBytes(d.signatures) + p, SignaturesBytes(e.signatures) + q;
    assert u == LeU32(|d.signatures|) + x && v == LeU32(|e.signatures|) + y;
    SameLength(|d.signatures|, x, |e.signatures|, y);
    SignaturesPrefix(d.signatures, p, e.signatures, q);
    assert p + [] == p && q + [] == q;
    SizedPrefix(d.payload, [], e.payload, []);
  }
}
