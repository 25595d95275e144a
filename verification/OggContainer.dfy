/**
 `scan_container` in crates/voicetext-audio/src/ogg_opus.rs: which byte strings are one complete
 logical Ogg stream.
 */
module OggContainer {
  import opened Base
  import opened OggPages

  const MAX_OGG_OPUS_BYTES: nat := 64 * 1024 * 1024
  const NO_GRANULE_POSITION: nat := U64_MAX

  datatype Error =
    | InvalidSize
    | InvalidContainer
    | InvalidLogicalStream
    | InvalidGranulePosition
    | MissingEndOfStream
    | SequenceOverflow

  datatype Scan = Container(serial: nat, finalGranule: nat) | Refused(error: Error)

  // ---- the declarative side --------------------------------------------------------------------

  predicate CompletesPacket(p: Page) {
    exists i :: 0 <= i < |p.segments| && p.segments[i] < 255
  }

  predicate Positioned(p: Page) {
    p.granule != NO_GRANULE_POSITION
  }

  /**
   One logical stream, possibly cut off at a page boundary: one serial, sequence numbers from zero,
   only the first page opens the stream and it continues nothing, a position exactly where a packet
   completes, positions never decrease, and only the final page can end the stream.
   */
  predicate Stream(pages: seq<Page>) {
    && (forall i :: 0 <= i < |pages| ==>
          && pages[i].sequence == i
          && pages[i].serial == pages[0].serial
          && (pages[i].first <==> i == 0)
          && (i == 0 ==> !pages[i].continued)
          && (CompletesPacket(pages[i]) <==> Positioned(pages[i]))
          && (pages[i].last ==> i == |pages| - 1 && Positioned(pages[i])))
    && (forall i, j :: 0 <= i < j < |pages| && Positioned(pages[i]) && Positioned(pages[j]) ==>
          pages[i].granule <= pages[j].granule)
  }

  predicate Complete(pages: seq<Page>) {
    pages != [] && Stream(pages) && pages[|pages| - 1].last
  }

  // ---- the running side ------------------------------------------------------------------------

  function LastPosition(pages: seq<Page>): Option<nat> {
    if pages == [] then None
    else
      var last := pages[|pages| - 1];
      if Positioned(last) then Some(last.granule) else LastPosition(pages[..|pages| - 1])
  }

  /** What the scan checks of the next page, knowing only counters of the pages before it. */
  predicate Admits(pages: seq<Page>, p: Page) {
    && (CompletesPacket(p) <==> Positioned(p))
    && p.sequence == |pages|
    && (if pages == [] then p.first && !p.continued else p.serial == pages[0].serial && !p.first)
    && (Positioned(p) && LastPosition(pages).Some? ==> LastPosition(pages).value <= p.granule)
    && (p.last ==> Positioned(p))
  }

  lemma {:induction false} LastPositionBounds(pages: seq<Page>, k: nat)
    requires k < |pages| && Positioned(pages[k])
    requires forall i, j :: 0 <= i < j < |pages| && Positioned(pages[i]) && Positioned(pages[j]) ==> pages[i].granule <= pages[j].granule
    ensures LastPosition(pages).Some? && pages[k].granule <= LastPosition(pages).value
    decreases |pages|
  {
    if !Positioned(pages[|pages| - 1]) {
      LastPositionBounds(pages[..|pages| - 1], k);
    }
  }

  lemma {:induction false} LastPositionIsSome(pages: seq<Page>)
    requires LastPosition(pages).Some?
    ensures exists k :: 0 <= k < |pages| && Positioned(pages[k]) && pages[k].granule == LastPosition(pages).value
    decreases |pages|
  {
    var last := |pages| - 1;
    if Positioned(pages[last]) {
      assert pages[last].granule == LastPosition(pages).value;
    } else {
      LastPositionIsSome(pages[..last]);
      var k :| 0 <= k < last && Positioned(pages[..last][k]) && pages[..last][k].granule == LastPosition(pages).value;
      assert pages[k].granule == LastPosition(pages).value;
    }
  }

  /** Checking against the counters is checking against every earlier page. */
  lemma {:induction false} AdmittedStream(pages: seq<Page>, p: Page)
    requires Stream(pages) && (pages != [] ==> !pages[|pages| - 1].last)
    ensures Stream(pages + [p]) <==> Admits(pages, p)
  {
    hide CompletesPacket;
    if Stream(pages + [p]) {
      StreamAdmits(pages, p);
    }
    var all := pages + [p];
    if Admits(pages, p) {
      forall i, j | 0 <= i < j < |all| && Positioned(all[i]) && Positioned(all[j])
        ensures all[i].granule <= all[j].granule
      {
        if j == |pages| {
          LastPositionBounds(pages, i);
        }
      }
    }
  }

  lemma {:induction false} StreamAdmits(pages: seq<Page>, p: Page)
    requires Stream(pages + [p])
    ensures Admits(pages, p)
  {
    hide CompletesPacket;
    var all := pages + [p];
    assert all[|pages|] == p;
    if LastPosition(pages).Some? {
      LastPositionIsSome(pages);
      var k :| 0 <= k < |pages| && Positioned(pages[k]) && pages[k].granule == LastPosition(pages).value;
      assert all[k] == pages[k];
    }
    if pages != [] {
      assert all[0] == pages[0];
    }
  }

  lemma {:induction false} StreamPrefix(pages: seq<Page>, n: nat)
    requires Stream(pages) && n <= |pages|
    ensures Stream(pages[..n])
    ensures 0 < n < |pages| ==> !pages[n - 1].last
  {
  }

  // ---- the scan --------------------------------------------------------------------------------

  /** What the rest decodes to goes after what has been decoded. */
  ghost predicate Prefixed(input: Bytes, offset: nat, done: seq<Page>)
    requires offset <= |input|
  {
    var rest := DecodeAll(input[offset..]);
    DecodeAll(input) == if rest.None? then None else Some(done + rest.value)
  }

  lemma {:induction false} DecodeNext(input: Bytes, offset: nat, done: seq<Page>)
    requires offset < |input| && Prefixed(input, offset, done)
    ensures var length := PageLength(input[offset..]);
            if length.None? then DecodeAll(input).None?
            else
              var p := Decode(input[offset..]);
              && Prefixed(input, offset + length.value, done + [p])
              && (DecodeAll(input).Some? ==> done + [p] <= DecodeAll(input).value)
  {
    hide PageLength, Decode;
    var length := PageLength(input[offset..]);
    if length.Some? {
      assert input[offset..][length.value..] == input[offset + length.value..];
      var rest := DecodeAll(input[offset + length.value..]);
      if rest.Some? {
        assert done + ([Decode(input[offset..])] + rest.value) == done + [Decode(input[offset..])] + rest.value;
      }
    }
  }

  /** A page the scan refuses is in no stream. */
  lemma {:induction false} InStreamAdmitted(input: Bytes, done: seq<Page>, p: Page)
    requires DecodeAll(input).Some? && done + [p] <= DecodeAll(input).value && Stream(DecodeAll(input).value)
    ensures Admits(done, p)
  {
    hide Stream, Admits, DecodeAll;
    var pages := DecodeAll(input).value;
    StreamPrefix(pages, |done| + 1);
    assert pages[..|done| + 1] == done + [p];
    StreamAdmits(done, p);
  }

  /** Nothing can follow the end of the stream. */
  lemma {:induction false} EndsTooEarly(input: Bytes, offset: nat, done: seq<Page>)
    requires offset < |input| && Prefixed(input, offset, done) && done != [] && done[|done| - 1].last
    ensures DecodeAll(input).Some? ==> !Stream(DecodeAll(input).value)
  {
    hide CompletesPacket, PageLength, Decode;
    if DecodeAll(input).Some? {
      var rest, pages := DecodeAll(input[offset..]).value, DecodeAll(input).value;
      assert rest != [];
      assert pages[|done| - 1] == done[|done| - 1];
    }
  }

  predicate RightSize(input: Bytes) {
    0 < |input| <= MAX_OGG_OPUS_BYTES
  }

  /** The input is the pages of one logical stream, one after the other. */
  predicate HoldsStream(input: Bytes) {
    RightSize(input) && DecodeAll(input).Some? && Stream(DecodeAll(input).value)
  }

  /**
   The scan accepts exactly the complete streams, reports a missing end exactly for streams without
   one, and never runs out of sequence numbers.
   */
  method ScanContainer(input: Bytes) returns (r: Scan)
    ensures r.Container? <==> HoldsStream(input) && Complete(DecodeAll(input).value)
    ensures r.Container? ==>
              var pages := DecodeAll(input).value;
              r.serial == pages[0].serial && r.finalGranule == pages[|pages| - 1].granule
    ensures r == Refused(InvalidSize) <==> !RightSize(input)
    ensures r == Refused(MissingEndOfStream) <==> HoldsStream(input) && !Complete(DecodeAll(input).value)
    ensures r != Refused(SequenceOverflow)
  {
    hide Stream, Admits, DecodeAll, PageLength, Decode, CompletesPacket, LastPosition, Prefixed;
    if input == [] || |input| > MAX_OGG_OPUS_BYTES {
      return Refused(InvalidSize);
    }
    var offset: nat, expectedSequence := 0, 0;
    var serial: Option<nat>, position: Option<nat>, finalGranule: Option<nat> := None, None, None;
    ghost var done: seq<Page> := [];
    NothingScanned(input);
    while offset < |input|
      invariant offset <= |input| && Prefixed(input, offset, done)
      invariant done == [] ==> offset == 0
      invariant Stream(done) && expectedSequence == |done| && HEADER_BYTES * |done| <= offset
      invariant serial == if done == [] then None else Some(done[0].serial)
      invariant position == LastPosition(done)
      invariant finalGranule == if done != [] && done[|done| - 1].last then Some(done[|done| - 1].granule) else None
      invariant finalGranule.Some? ==> offset == |input|
      decreases |input| - offset
    {
      var page := input[offset..];
      var length := PageLength(page);
      DecodeNext(input, offset, done);
      if length.None? {
        return Refused(InvalidContainer);
      }
      var p := Decode(page);
      offset := offset + length.value;
      Checks(done, p);
      if HoldsStream(input) {
        InStreamAdmitted(input, done, p);
      }
      if CompletesPacket(p) == (p.granule == NO_GRANULE_POSITION) {
        return Refused(InvalidGranulePosition);
      }
      if serial.None? && p.first && !p.continued {
        serial := Some(p.serial);
      } else if !(serial.Some? && serial.value == p.serial && !p.first) {
        return Refused(InvalidLogicalStream);
      }
      if p.sequence != expectedSequence {
        return Refused(InvalidContainer);
      }
      if expectedSequence + 1 > U32_MAX {
        return Refused(SequenceOverflow);
      }
      expectedSequence := expectedSequence + 1;
      if p.granule != NO_GRANULE_POSITION {
        if position.Some? && p.granule < position.value {
          return Refused(InvalidGranulePosition);
        }
        position := Some(p.granule);
      }
      if p.last {
        if offset != |input| {
          EndsTooEarly(input, offset, done + [p]);
          return Refused(InvalidLogicalStream);
        }
        if p.granule == NO_GRANULE_POSITION {
          return Refused(InvalidLogicalStream);
        }
        finalGranule := Some(p.granule);
      }
      AdmittedStream(done, p);
      Advanced(done, p);
      done := done + [p];
    }
    AllScanned(input, done);
    if serial.None? {
      return Refused(InvalidContainer);
    }
    r := if finalGranule.Some? then Container(serial.value, finalGranule.value) else Refused(MissingEndOfStream);
  }

  lemma {:induction false} NothingScanned(input: Bytes)
    ensures Prefixed(input, 0, []) && Stream([]) && LastPosition([]) == None
  {
    assert input[0..] == input;
    if DecodeAll(input).Some? {
      assert [] + DecodeAll(input).value == DecodeAll(input).value;
    }
  }

  lemma {:induction false} AllScanned(input: Bytes, done: seq<Page>)
    requires Prefixed(input, |input|, done)
    ensures DecodeAll(input) == Some(done)
  {
    assert input[|input|..] == [];
    assert done + [] == done;
  }

  lemma {:induction false} Checks(done: seq<Page>, p: Page)
    ensures Admits(done, p) <==>
              && (CompletesPacket(p) <==> p.granule != NO_GRANULE_POSITION)
              && p.sequence == |done|
              && (if done == [] then p.first && !p.continued else p.serial == done[0].serial && !p.first)
              && (p.granule != NO_GRANULE_POSITION && LastPosition(done).Some? ==> LastPosition(done).value <= p.granule)
              && (p.last ==> p.granule != NO_GRANULE_POSITION)
  {
  }

  lemma {:induction false} Advanced(done: seq<Page>, p: Page)
    ensures LastPosition(done + [p]) == if Positioned(p) then Some(p.granule) else LastPosition(done)
  {
  }

  /**
   Accepted inputs and complete page lists of the right encoded size correspond one to one: an input
   is accepted exactly when it is the encoding of such a list, and then of only one.
   */
  lemma {:induction false} AcceptedExactlyEncodings(input: Bytes, pages: seq<Page>)
    requires RightSize(input)
    ensures (HoldsStream(input) && Complete(DecodeAll(input).value) && DecodeAll(input).value == pages)
       <==> ((forall i :: 0 <= i < |pages| ==> Encodable(pages[i])) && Complete(pages) && EncodeAll(pages) == input)
  {
    hide Stream, Encodable;
    if DecodeAll(input).Some? && DecodeAll(input).value == pages {
      EncodeAllDecoded(input);
    }
    if (forall i :: 0 <= i < |pages| ==> Encodable(pages[i])) && EncodeAll(pages) == input {
      DecodeAllEncoded(pages);
    }
  }
}
