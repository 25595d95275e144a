/**
 The request fingerprint's preimage (`request_fingerprint` and `write_part` in
 crates/voicetext-gateway/src/identity.rs). The hashes are parameters; what is proved is that
 nothing about a request is lost before it is hashed.
 */
module Fingerprint {
  import opened Base
  import opened ByteOrder
  import opened Keyterms
  import opened BatchDomain

  const MAX_IDENTITY_BYTES: nat := 256
  const MAX_AUDIO_BYTES: nat := 64 * 1024 * 1024

  datatype Request = Request(profile: Profile, keyterms: seq<string>, audio: Bytes)

  datatype Refusal =
    | UnsupportedContractVersion
    | IdentityTooLong
    | BadKeyterms(error: Keyterms.Error)
    | EmptyAudio
    | AudioTooLarge

  datatype Outcome = Fingerprinted(digest: Bytes) | NotFingerprinted(refusal: Refusal)

  // ---- UTF-8 -----------------------------------------------------------------------------------

  function Utf8Char(c: char): (r: Bytes)
    ensures |r| == Utf8Width(c)
  {
    var n := c as int;
    if n < 0x80 then [n]
    else if n < 0x800 then [0xC0 + n / 64, 0x80 + n % 64]
    else if n < 0x10000 then [0xE0 + n / 4096, 0x80 + n / 64 % 64, 0x80 + n % 64]
    else [0xF0 + n / 262144, 0x80 + n / 4096 % 64, 0x80 + n / 64 % 64, 0x80 + n % 64]
  }

  function Utf8(text: string): (r: Bytes)
    ensures |r| == Utf8Length(text)
  {
    if text == "" then [] else Utf8Char(text[0]) + Utf8(text[1..])
  }

  lemma {:induction false} Sixties(m: nat, n: nat)
    requires m / 64 == n / 64 && m % 64 == n % 64
    ensures m == n
  {
  }

  lemma {:induction false} Hundreds(n: nat)
    ensures n / 64 / 64 == n / 4096 && n / 64 / 64 / 64 == n / 262144
  {
  }

  lemma {:induction false} FirstByte(c: char)
    ensures Utf8Width(c) == if Utf8Char(c)[0] < 0x80 then 1 else if Utf8Char(c)[0] < 0xE0 then 2 else if Utf8Char(c)[0] < 0xF0 then 3 else 4
  {
  }

  /** The first byte tells the width, and the bytes tell the character. */
  lemma {:induction false} Utf8CharInjective(c: char, d: char)
    requires Utf8Char(c) == Utf8Char(d)
    ensures c == d
  {
    var m, n, a, b := c as int, d as int, Utf8Char(c), Utf8Char(d);
    FirstByte(c);
    FirstByte(d);
    Hundreds(m);
    Hundreds(n);
    if |a| == 2 {
      assert a[0] == b[0] && a[1] == b[1];
      Sixties(m, n);
    } else if |a| == 3 {
      assert a[0] == b[0] && a[1] == b[1] && a[2] == b[2];
      Sixties(m / 64, n / 64);
      Sixties(m, n);
    } else if |a| == 4 {
      assert a[0] == b[0] && a[1] == b[1] && a[2] == b[2] && a[3] == b[3];
      Sixties(m / 64 / 64, n / 64 / 64);
      Sixties(m / 64, n / 64);
      Sixties(m, n);
    }
  }

  lemma {:induction false} Utf8PrefixFree(c: char, d: char, x: Bytes, y: Bytes)
    requires Utf8Char(c) + x == Utf8Char(d) + y
    ensures c == d && x == y
  {
    hide Utf8Char;
    var all := Utf8Char(c) + x;
    assert all[0] == Utf8Char(c)[0] && all[0] == Utf8Char(d)[0];
    FirstByte(c);
    FirstByte(d);
    assert all[..|Utf8Char(c)|] == Utf8Char(c) && all[..|Utf8Char(d)|] == Utf8Char(d);
    Utf8CharInjective(c, d);
    assert all[|Utf8Char(c)|..] == x && all[|Utf8Char(d)|..] == y;
  }

  lemma {:induction false} Utf8Injective(left: string, right: string)
    requires Utf8(left) == Utf8(right)
    ensures left == right
  {
    if left != "" && right != "" {
      Utf8PrefixFree(left[0], right[0], Utf8(left[1..]), Utf8(right[1..]));
      Utf8Injective(left[1..], right[1..]);
    }
  }

  // ---- parts -----------------------------------------------------------------------------------

  /** `write_part`: the length in eight bytes, then the bytes. */
  function Part(bytes: Bytes): (r: Bytes)
    ensures |r| == 8 + |bytes|
  {
    ToBigEndian(|bytes|, 8) + bytes
  }

  function Parts(texts: seq<string>): Bytes {
    if texts == [] then [] else Part(Utf8(texts[0])) + Parts(texts[1..])
  }

  predicate Fits(bytes: Bytes) {
    |bytes| < Pow256(8)
  }

  /** A length-prefixed part ends where it says, so what follows it is determined too. */
  lemma {:induction false} PartPrefixFree(a: Bytes, b: Bytes, x: Bytes, y: Bytes)
    requires Fits(a) && Fits(b) && Part(a) + x == Part(b) + y
    ensures a == b && x == y
  {
    hide ToBigEndian, Pow256;
    var all := Part(a) + x;
    assert all[..8] == ToBigEndian(|a|, 8) && all[..8] == ToBigEndian(|b|, 8);
    BigEndianInjective(|a|, |b|, 8);
    assert all[8..8 + |a|] == a && all[8..8 + |b|] == b;
    assert all[8 + |a|..] == x && all[8 + |b|..] == y;
  }

  lemma {:induction false} PartsPrefixFree(a: seq<string>, b: seq<string>, x: Bytes, y: Bytes)
    requires |a| == |b| && Parts(a) + x == Parts(b) + y
    requires forall i :: 0 <= i < |a| ==> Fits(Utf8(a[i])) && Fits(Utf8(b[i]))
    ensures a == b && x == y
  {
    hide Part, Fits;
    if a == [] {
      assert Parts(a) + x == x && Parts(b) + y == y;
    } else {
      var restA, restB := Parts(a[1..]) + x, Parts(b[1..]) + y;
      assert Part(Utf8(a[0])) + restA == Parts(a) + x;
      assert Part(Utf8(b[0])) + restB == Parts(b) + y;
      PartPrefixFree(Utf8(a[0]), Utf8(b[0]), restA, restB);
      Utf8Injective(a[0], b[0]);
      PartsPrefixFree(a[1..], b[1..], x, y);
      assert a == [a[0]] + a[1..] && b == [b[0]] + b[1..];
    }
  }

  // ---- the preimage ----------------------------------------------------------------------------

  function VersionText(version: nat): string {
    if version == 2 then "2" else "3"
  }

  function Identities(profile: Profile): seq<string> {
    [VersionText(profile.contractVersion), profile.provider, profile.model, profile.language]
  }

  /** Version 2 hashes the audio itself, version 3 its digest. */
  function Payload(request: Request, digest: Bytes -> Bytes): Bytes {
    if request.profile.contractVersion == 2 then request.audio else digest(request.audio)
  }

  function Preimage(request: Request, digest: Bytes -> Bytes): Bytes {
    Parts(Identities(request.profile)) + ToBigEndian(|request.keyterms|, 8) + Parts(request.keyterms)
    + Part(Payload(request, digest))
  }

  predicate IdentitiesFit(profile: Profile) {
    && Utf8Length(profile.provider) <= MAX_IDENTITY_BYTES && Utf8Length(profile.model) <= MAX_IDENTITY_BYTES
    && Utf8Length(profile.language) <= MAX_IDENTITY_BYTES
  }

  /** What the fingerprint demands of a request. */
  predicate Admissible(t: Tables, request: Request) {
    && request.profile.contractVersion in {2, 3}
    && IdentitiesFit(request.profile)
    && Canonical(t, request.keyterms)
    && 0 < |request.audio| <= MAX_AUDIO_BYTES
  }

  /** The hasher is fed part by part; what it has been fed is the preimage. */
  method RequestFingerprint(t: Tables, request: Request, digest: Bytes -> Bytes) returns (r: Outcome)
    ensures r.Fingerprinted? <==> Admissible(t, request)
    ensures r.Fingerprinted? ==> r.digest == digest(Preimage(request, digest))
  {
    hide Canonical, Part, Parts, Payload, ToBigEndian, Identities;
    if request.profile.contractVersion !in {2, 3} {
      return NotFingerprinted(UnsupportedContractVersion);
    }
    if !IdentitiesFit(request.profile) {
      return NotFingerprinted(IdentityTooLong);
    }
    var error := ValidateKeyterms(t, request.keyterms);
    if error.Some? {
      return NotFingerprinted(BadKeyterms(error.value));
    }
    if request.audio == [] {
      return NotFingerprinted(EmptyAudio);
    }
    if |request.audio| > MAX_AUDIO_BYTES {
      return NotFingerprinted(AudioTooLarge);
    }
    var fed: Bytes, identities := [], Identities(request.profile);
    fed := Feed(fed, identities);
    fed := fed + ToBigEndian(|request.keyterms|, 8);
    fed := Feed(fed, request.keyterms);
    fed := fed + Part(Payload(request, digest));
    assert fed == Preimage(request, digest);
    r := Fingerprinted(digest(fed));
  }

  method Feed(before: Bytes, texts: seq<string>) returns (fed: Bytes)
    ensures fed == before + Parts(texts)
  {
    hide Part;
    fed := before;
    for i := 0 to |texts|
      invariant fed + Parts(texts[i..]) == before + Parts(texts)
    {
      assert texts[i..][0] == texts[i] && texts[i..][1..] == texts[i + 1..];
      assert fed + (Part(Utf8(texts[i])) + Parts(texts[i + 1..])) == fed + Part(Utf8(texts[i])) + Parts(texts[i + 1..]);
      fed := fed + Part(Utf8(texts[i]));
    }
    assert texts[|texts|..] == [] && fed + [] == fed;
  }

  lemma {:induction false} EightBytes()
    ensures Pow256(8) == U64_MAX + 1
  {
  }

  lemma {:induction false} AdmissibleFits(t: Tables, request: Request)
    requires Admissible(t, request)
    ensures forall i :: 0 <= i < 4 ==> Fits(Utf8(Identities(request.profile)[i]))
    ensures forall i :: 0 <= i < |request.keyterms| ==> Fits(Utf8(request.keyterms[i]))
    ensures |request.keyterms| < Pow256(8) && Fits(request.audio)
  {
    hide Pow256;
    EightBytes();
    assert Utf8Length(VersionText(request.profile.contractVersion)) == 1;
    forall i | 0 <= i < |request.keyterms| ensures Fits(Utf8(request.keyterms[i])) {
      assert ValidKeyterm(t, request.keyterms[i]);
    }
  }

  /**
   Two admissible requests with one preimage are one request: the same profile, hence never one of
   each version, the same keyterms, and the same audio, or for version 3 the same audio digest.
   */
  lemma {:induction false} PreimageInjective(t: Tables, left: Request, right: Request, digest: Bytes -> Bytes)
    requires Admissible(t, left) && Admissible(t, right)
    requires Fits(digest(left.audio)) && Fits(digest(right.audio))
    requires Preimage(left, digest) == Preimage(right, digest)
    ensures left.profile == right.profile && left.keyterms == right.keyterms
    ensures if left.profile.contractVersion == 2 then left.audio == right.audio else digest(left.audio) == digest(right.audio)
  {
    hide Part, Parts, ToBigEndian, Canonical, Utf8, Pow256, Fits;
    AdmissibleFits(t, left);
    AdmissibleFits(t, right);
    var countL, countR := ToBigEndian(|left.keyterms|, 8), ToBigEndian(|right.keyterms|, 8);
    var termsL := Parts(left.keyterms) + Part(Payload(left, digest));
    var termsR := Parts(right.keyterms) + Part(Payload(right, digest));
    assert Preimage(left, digest) == Parts(Identities(left.profile)) + (countL + termsL);
    assert Preimage(right, digest) == Parts(Identities(right.profile)) + (countR + termsR);
    PartsPrefixFree(Identities(left.profile), Identities(right.profile), countL + termsL, countR + termsR);
    SameProfile(left.profile, right.profile);
    assert (countL + termsL)[..8] == countL && (countR + termsR)[..8] == countR;
    assert (countL + termsL)[8..] == termsL && (countR + termsR)[8..] == termsR;
    BigEndianInjective(|left.keyterms|, |right.keyterms|, 8);
    PartsPrefixFree(left.keyterms, right.keyterms, Part(Payload(left, digest)), Part(Payload(right, digest)));
    assert Part(Payload(left, digest)) + [] == Part(Payload(right, digest)) + [];
    PartPrefixFree(Payload(left, digest), Payload(right, digest), [], []);
  }

  lemma {:induction false} SameProfile(left: Profile, right: Profile)
    requires left.contractVersion in {2, 3} && right.contractVersion in {2, 3}
    requires Identities(left) == Identities(right)
    ensures left == right
  {
  }
}
