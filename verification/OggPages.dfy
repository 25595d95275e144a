/**
 Ogg pages and their byte encoding (section 6 of RFC 3533), as `scan_container` in
 crates/voicetext-audio/src/ogg_opus.rs reads them. The page checksum is carried, not verified:
 the packet reader that runs after the scan verifies it.
 */
module OggPages {
  import opened Base
  import opened ByteOrder

  const MAGIC: Bytes := [0x4F, 0x67, 0x67, 0x53]
  const HEADER_BYTES: nat := 27

  // ---- pages -----------------------------------------------------------------------------------

  datatype Page = Page(
    continued: bool,
    first: bool,
    last: bool,
    granule: nat,
    serial: nat,
    sequence: nat,
    checksum: Bytes,
    segments: Bytes,
    body: Bytes)

  function BodyLength(segments: Bytes): nat {
    if segments == [] then 0 else segments[0] + BodyLength(segments[1..])
  }

  predicate Encodable(p: Page) {
    && p.granule < Pow256(8) && p.serial < Pow256(4) && p.sequence < Pow256(4)
    && |p.checksum| == 4 && |p.segments| < 256 && |p.body| == BodyLength(p.segments)
  }

  function Flags(p: Page): Byte {
    (if p.continued then 1 else 0) + (if p.first then 2 else 0) + (if p.last then 4 else 0)
  }

  function Header(p: Page): (r: Bytes)
    requires Encodable(p)
    ensures |r| == HEADER_BYTES
  {
    MAGIC + [0] + [Flags(p)] + ToLittleEndian(p.granule, 8) + ToLittleEndian(p.serial, 4)
    + ToLittleEndian(p.sequence, 4) + p.checksum + [|p.segments|]
  }

  function Encode(p: Page): (r: Bytes)
    requires Encodable(p)
    ensures |r| == HEADER_BYTES + |p.segments| + |p.body|
  {
    Header(p) + p.segments + p.body
  }

  /** The length of the page at the front, if a whole one is there. */
  function PageLength(input: Bytes): (r: Option<nat>)
    ensures r.Some? ==> HEADER_BYTES <= r.value <= |input|
  {
    if |input| < HEADER_BYTES || input[..4] != MAGIC || input[4] != 0 || input[5] >= 8 then None
    else
      var table := HEADER_BYTES + input[26];
      if table > |input| then None
      else
        var end := table + BodyLength(input[HEADER_BYTES..table]);
        if end > |input| then None else Some(end)
  }

  /** The page at the front. */
  function Decode(input: Bytes): (p: Page)
    requires PageLength(input).Some?
  {
    var flags, table := input[5], HEADER_BYTES + input[26];
    Page(flags % 2 == 1, flags / 2 % 2 == 1, flags / 4 % 2 == 1,
         FromLittleEndian(input[6..14]), FromLittleEndian(input[14..18]), FromLittleEndian(input[18..22]),
         input[22..26], input[HEADER_BYTES..table], input[table..PageLength(input).value])
  }

  lemma {:induction false} HeaderFields(p: Page, rest: Bytes)
    requires Encodable(p)
    ensures var b := Header(p) + rest;
            && b[..4] == MAGIC && b[4] == 0 && b[5] == Flags(p) && b[26] == |p.segments|
            && b[6..14] == ToLittleEndian(p.granule, 8) && b[14..18] == ToLittleEndian(p.serial, 4)
            && b[18..22] == ToLittleEndian(p.sequence, 4) && b[22..26] == p.checksum
            && b[HEADER_BYTES..] == rest
  {
    hide ToLittleEndian, Pow256, BodyLength, Flags;
  }

  /** Decoding undoes encoding, whatever follows. */
  lemma {:induction false} DecodeEncoded(p: Page, rest: Bytes)
    requires Encodable(p)
    ensures PageLength(Encode(p) + rest) == Some(|Encode(p)|)
    ensures Decode(Encode(p) + rest) == p
  {
    hide Header, ToLittleEndian, FromLittleEndian, Pow256;
    var b, tail := Encode(p) + rest, p.segments + p.body + rest;
    assert b == Header(p) + tail;
    HeaderFields(p, tail);
    assert b[HEADER_BYTES..HEADER_BYTES + |p.segments|] == tail[..|p.segments|] == p.segments;
    assert b[HEADER_BYTES + |p.segments|..|Encode(p)|] == tail[|p.segments|..|p.segments| + |p.body|] == p.body;
    ReadWritten(p.granule, 8);
    ReadWritten(p.serial, 4);
    ReadWritten(p.sequence, 4);
  }

  /** Encoding undoes decoding: no byte of an accepted page is ignored. */
  lemma {:induction false} EncodeDecoded(input: Bytes)
    requires PageLength(input).Some?
    ensures Encodable(Decode(input))
    ensures Encode(Decode(input)) == input[..PageLength(input).value]
  {
    hide PageLength, BodyLength;
    DecodedIsEncodable(input);
    var p, end := Decode(input), PageLength(input).value;
    LengthParts(input);
    var table := HEADER_BYTES + input[26];
    WrittenRead(input[6..14]);
    WrittenRead(input[14..18]);
    WrittenRead(input[18..22]);
    HeaderDecoded(input);
    assert input[..end] == input[..HEADER_BYTES] + input[HEADER_BYTES..table] + input[table..end];
  }

  lemma {:induction false} LengthParts(input: Bytes)
    requires PageLength(input).Some?
    ensures |input| >= HEADER_BYTES && input[..4] == MAGIC && input[4] == 0 && input[5] < 8
    ensures HEADER_BYTES + input[26] <= PageLength(input).value <= |input|
    ensures PageLength(input).value == HEADER_BYTES + input[26] + BodyLength(input[HEADER_BYTES..HEADER_BYTES + input[26]])
  {
  }

  lemma {:induction false} DecodedIsEncodable(input: Bytes)
    requires PageLength(input).Some?
    ensures Encodable(Decode(input))
  {
    WrittenRead(input[6..14]);
    WrittenRead(input[14..18]);
    WrittenRead(input[18..22]);
  }

  lemma {:induction false} HeaderDecoded(input: Bytes)
    requires PageLength(input).Some? && Encodable(Decode(input))
    requires ToLittleEndian(Decode(input).granule, 8) == input[6..14]
    requires ToLittleEndian(Decode(input).serial, 4) == input[14..18]
    requires ToLittleEndian(Decode(input).sequence, 4) == input[18..22]
    ensures Header(Decode(input)) == input[..HEADER_BYTES]
  {
    hide PageLength, ToLittleEndian, FromLittleEndian;
    LengthParts(input);
    assert Flags(Decode(input)) == input[5];
    assert input[..HEADER_BYTES] == input[..4] + [input[4]] + [input[5]] + input[6..14] + input[14..18]
                                    + input[18..22] + input[22..26] + [input[26]];
  }

  // ---- whole inputs ----------------------------------------------------------------------------

  function EncodeAll(pages: seq<Page>): Bytes
    requires forall i :: 0 <= i < |pages| ==> Encodable(pages[i])
  {
    if pages == [] then [] else Encode(pages[0]) + EncodeAll(pages[1..])
  }

  function DecodeAll(input: Bytes): (r: Option<seq<Page>>)
    decreases |input|
  {
    if input == [] then Some([])
    else if PageLength(input).None? then None
    else
      var rest := DecodeAll(input[PageLength(input).value..]);
      if rest.None? then None else Some([Decode(input)] + rest.value)
  }

  lemma {:induction false} DecodeAllEncoded(pages: seq<Page>)
    requires forall i :: 0 <= i < |pages| ==> Encodable(pages[i])
    ensures DecodeAll(EncodeAll(pages)) == Some(pages)
  {
    hide Encodable, Encode, Decode, PageLength;
    if pages != [] {
      var rest := EncodeAll(pages[1..]);
      DecodeEncoded(pages[0], rest);
      assert EncodeAll(pages)[|Encode(pages[0])|..] == rest;
      DecodeAllEncoded(pages[1..]);
      assert [pages[0]] + pages[1..] == pages;
    }
  }

  lemma {:induction false} EncodeAllDecoded(input: Bytes)
    requires DecodeAll(input).Some?
    ensures var pages := DecodeAll(input).value;
            && (forall i :: 0 <= i < |pages| ==> Encodable(pages[i]))
            && EncodeAll(pages) == input
    decreases |input|
  {
    hide Encodable, Encode, Decode, PageLength;
    if input != [] {
      var end := PageLength(input).value;
      EncodeDecoded(input);
      EncodeAllDecoded(input[end..]);
      var pages := DecodeAll(input).value;
      assert pages[1..] == DecodeAll(input[end..]).value;
      assert input == input[..end] + input[end..];
    }
  }
}
