/**
 Granule and duration arithmetic of an Ogg Opus upload (`AudioTiming` in
 crates/voicetext-audio/src/ogg_opus.rs; sections 4 and 5 of RFC 7845).

 The packet reader is a parameter: it delivers the packets that complete on each page, marks the
 first and the last of them, and gives the page's granule position. The sample count of a packet is
 what libopus answers for it.
 */
module OpusTiming {
  import opened Base

  const MAX_PACKET_BYTES: nat := 1275
  const MAX_SAMPLES_PER_PACKET: nat := 5760
  const SAMPLE_RATE_HZ: nat := 48_000
  const MAX_PRE_SKIP_SAMPLES: nat := 48_000
  const NO_GRANULE_POSITION: nat := U64_MAX

  datatype Packet = Packet(byteLength: nat, samples: Option<nat>)

  /** The packets that complete on one page. */
  datatype AudioPage = AudioPage(packets: seq<Packet>, granule: nat, last: bool)

  datatype Error = InvalidAudioPacket | InvalidGranulePosition | MissingEndOfStream | Overflow

  datatype Timing =
    | Validated(preSkip: nat, durationSamples: nat, durationMillis: nat, packetCount: nat)
    | Refused(error: Error)

  predicate PacketOk(p: Packet) {
    0 < p.byteLength <= MAX_PACKET_BYTES && p.samples.Some? && 0 < p.samples.value <= MAX_SAMPLES_PER_PACKET
  }

  // ---- the declarative side --------------------------------------------------------------------

  function SamplesOf(p: Packet): nat {
    if p.samples.Some? then p.samples.value else 0
  }

  function PageSamples(packets: seq<Packet>): nat {
    if packets == [] then 0 else PageSamples(packets[..|packets| - 1]) + SamplesOf(packets[|packets| - 1])
  }

  function Total(pages: seq<AudioPage>): nat {
    if pages == [] then 0 else Total(pages[..|pages| - 1]) + PageSamples(pages[|pages| - 1].packets)
  }

  function Count(pages: seq<AudioPage>): nat {
    if pages == [] then 0 else Count(pages[..|pages| - 1]) + |pages[|pages| - 1].packets|
  }

  predicate PacketsOk(packets: seq<Packet>) {
    forall i :: 0 <= i < |packets| ==> PacketOk(packets[i])
  }

  /**
   A page that is not the last ends exactly at the samples so far. The last may be trimmed: back to
   the end of the page before it, exclusively, or to the pre-skip if there is none.
   */
  predicate GranuleOk(page: AudioPage, preSkip: nat, before: nat) {
    var after := before + PageSamples(page.packets);
    if !page.last then page.granule == after
    else page.granule <= after && (if before == 0 then preSkip <= page.granule else before < page.granule)
  }

  predicate PageOk(pages: seq<AudioPage>, i: nat, preSkip: nat)
    requires i < |pages|
  {
    PacketsOk(pages[i].packets) && GranuleOk(pages[i], preSkip, Total(pages[..i]))
  }

  /** Every page is in order and only the final one can be marked last. */
  predicate PagesOk(pages: seq<AudioPage>, preSkip: nat) {
    && (forall i :: 0 <= i < |pages| ==> PageOk(pages, i, preSkip))
    && (forall i :: 0 <= i < |pages| - 1 ==> !pages[i].last)
    && Count(pages) <= U32_MAX
  }

  predicate AudioOk(pages: seq<AudioPage>, preSkip: nat, finalGranule: nat) {
    && pages != [] && PagesOk(pages, preSkip)
    && pages[|pages| - 1].last && pages[|pages| - 1].granule == finalGranule
    && preSkip < finalGranule
  }

  // ---- the running side ------------------------------------------------------------------------

  class AudioTiming {
    const preSkip: nat
    var packetCount: nat
    var pageSamples: nat
    var previousPageGranule: Option<nat>
    var sawEos: bool

    /** Samples of the pages that are over, and whether a page is under way. */
    ghost var completed: nat
    ghost var open: bool

    ghost function Samples(): nat
      reads this
    {
      completed + if open then pageSamples else 0
    }

    ghost predicate Valid()
      reads this
    {
      && preSkip <= MAX_PRE_SKIP_SAMPLES
      && packetCount <= U32_MAX
      && Samples() <= packetCount * MAX_SAMPLES_PER_PACKET
      && (previousPageGranule.Some? ==> completed > 0 && previousPageGranule.value <= completed)
      && (previousPageGranule.None? ==> completed == 0)
      && (!sawEos && previousPageGranule.Some? ==> previousPageGranule.value == completed)
      && (sawEos ==> previousPageGranule.Some? && !open)
    }

    constructor (preSkip: nat)
      requires preSkip <= MAX_PRE_SKIP_SAMPLES
      ensures Valid() && this.preSkip == preSkip
      ensures packetCount == 0 && completed == 0 && !open && !sawEos
    {
      this.preSkip := preSkip;
      packetCount, pageSamples, previousPageGranule, sawEos := 0, 0, None, false;
      completed, open := 0, false;
    }

    /** The page's granule position, checked once its last packet is in. */
    method ValidatePageGranule(granule: nat, lastInStream: bool) returns (error: Option<Error>)
      requires Valid() && open && !sawEos && pageSamples > 0 && granule <= U64_MAX
      modifies this`previousPageGranule
      ensures error != Some(Overflow)
      ensures error.None? <==>
                if !lastInStream then granule == completed + pageSamples
                else granule <= completed + pageSamples
                     && (if completed == 0 then preSkip <= granule else completed < granule)
      ensures error.None? ==> previousPageGranule == Some(granule)
    {
      if granule == NO_GRANULE_POSITION {
        return Some(InvalidGranulePosition);
      }
      match previousPageGranule {
      case None =>
        if lastInStream {
          if granule < preSkip || granule > pageSamples {
            return Some(InvalidGranulePosition);
          }
        } else if granule != pageSamples {
          return Some(InvalidGranulePosition);
        }
      case Some(previous) =>
        var maximum := previous + pageSamples;
        if maximum > U64_MAX {
          return Some(Overflow);
        }
        if lastInStream && (granule <= previous || granule > maximum) {
          return Some(InvalidGranulePosition);
        }
        if !lastInStream && granule != maximum {
          return Some(InvalidGranulePosition);
        }
      }
      previousPageGranule := Some(granule);
      error := None;
    }

    method Accept(p: Packet, firstInPage: bool, lastInPage: bool, granule: nat, lastInStream: bool) returns (error: Option<Error>)
      requires Valid() && (firstInPage <==> !open) && (lastInStream ==> lastInPage) && granule <= U64_MAX
      modifies this
      ensures error != Some(Overflow)
      ensures error.None? <==>
                && !old(sawEos) && PacketOk(p) && old(packetCount) < U32_MAX
                && (lastInPage ==>
                      var after := old(Samples()) + SamplesOf(p);
                      if !lastInStream then granule == after
                      else granule <= after && (if old(completed) == 0 then preSkip <= granule else old(completed) < granule))
      ensures error.None? ==>
                && Valid() && packetCount == old(packetCount) + 1
                && open == !lastInPage && sawEos == lastInStream
                && Samples() == old(Samples()) + SamplesOf(p)
                && completed == (if lastInPage then Samples() else old(completed))
                && (lastInPage ==> previousPageGranule == Some(granule))
                && (!lastInPage ==> previousPageGranule == old(previousPageGranule))
    {
      if sawEos || p.byteLength == 0 || p.byteLength > MAX_PACKET_BYTES {
        return Some(InvalidAudioPacket);
      }
      if p.samples.None? || p.samples.value == 0 || p.samples.value > MAX_SAMPLES_PER_PACKET {
        return Some(InvalidAudioPacket);
      }
      if firstInPage {
        pageSamples := 0;
      }
      open := true;
      pageSamples := pageSamples + p.samples.value;
      if pageSamples > U64_MAX {
        return Some(Overflow);
      }
      packetCount := packetCount + 1;
      if packetCount > U32_MAX {
        return Some(InvalidAudioPacket);
      }
      if lastInPage {
        error := ValidatePageGranule(granule, lastInStream);
        if error.Some? {
          return;
        }
        completed, open := completed + pageSamples, false;
      }
      sawEos := lastInStream;
      error := None;
    }

    /** The duration is exact, and its milliseconds are the exact ceiling. */
    method Finish(finalGranule: nat) returns (r: Timing)
      requires Valid() && finalGranule <= U64_MAX
      ensures r != Refused(Overflow)
      ensures r.Validated? <==>
                packetCount > 0 && sawEos && previousPageGranule == Some(finalGranule) && preSkip < finalGranule
      ensures r.Validated? ==>
                && r.preSkip == preSkip && r.packetCount == packetCount
                && 0 < r.durationSamples && r.durationSamples + preSkip == finalGranule
                && CeilingMillis(r.durationSamples, r.durationMillis)
      ensures r == Refused(MissingEndOfStream) <==> packetCount > 0 && !sawEos
    {
      if packetCount == 0 {
        return Refused(InvalidAudioPacket);
      }
      if !sawEos {
        return Refused(MissingEndOfStream);
      }
      if previousPageGranule != Some(finalGranule) || finalGranule <= preSkip {
        return Refused(InvalidGranulePosition);
      }
      var durationSamples := finalGranule - preSkip;
      var scaled := durationSamples * 1000 + SAMPLE_RATE_HZ - 1;
      if scaled > U64_MAX {
        return Refused(Overflow);
      }
      r := Validated(preSkip, durationSamples, scaled / SAMPLE_RATE_HZ, packetCount);
    }
  }

  /** The least number of milliseconds that lasts as long as the samples. */
  predicate CeilingMillis(samples: nat, millis: nat) {
    millis * SAMPLE_RATE_HZ >= samples * 1000 && (millis > 0 ==> (millis - 1) * SAMPLE_RATE_HZ < samples * 1000)
  }

  lemma {:induction false} PacketStep(packets: seq<Packet>, k: nat)
    requires k < |packets|
    ensures PageSamples(packets[..k + 1]) == PageSamples(packets[..k]) + SamplesOf(packets[k])
  {
    assert packets[..k + 1][..k] == packets[..k];
  }

  lemma {:induction false} PageStep(pages: seq<AudioPage>, k: nat)
    requires k < |pages|
    ensures Total(pages[..k + 1]) == Total(pages[..k]) + PageSamples(pages[k].packets)
    ensures Count(pages[..k + 1]) == Count(pages[..k]) + |pages[k].packets|
  {
    assert pages[..k + 1][..k] == pages[..k];
  }

  lemma {:induction false} CountMonotone(pages: seq<AudioPage>, k: nat)
    requires k <= |pages|
    ensures Count(pages[..k]) <= Count(pages)
    decreases |pages| - k
  {
    if k < |pages| {
      PageStep(pages, k);
      CountMonotone(pages, k + 1);
    } else {
      assert pages[..k] == pages;
    }
  }

  /** The packets of one page, fed one by one: accepted exactly when the page as a whole is in order. */
  method AcceptPage(timing: AudioTiming, page: AudioPage) returns (error: Option<Error>)
    requires timing.Valid() && !timing.open && page.packets != [] && page.granule <= U64_MAX
    modifies timing
    ensures error != Some(Overflow)
    ensures error.None? <==>
              && !old(timing.sawEos) && PacketsOk(page.packets) && old(timing.packetCount) + |page.packets| <= U32_MAX
              && GranuleOk(page, timing.preSkip, old(timing.completed))
    ensures error.None? ==>
              && timing.Valid() && !timing.open && timing.sawEos == page.last
              && timing.packetCount == old(timing.packetCount) + |page.packets|
              && timing.completed == old(timing.completed) + PageSamples(page.packets)
              && timing.previousPageGranule == Some(page.granule)
  {
    for k := 0 to |page.packets|
      invariant timing.Valid() && timing.completed == old(timing.completed) + (if k == |page.packets| then PageSamples(page.packets) else 0)
      invariant timing.open == (0 < k < |page.packets|)
      invariant timing.Samples() == old(timing.completed) + PageSamples(page.packets[..k])
      invariant timing.packetCount == old(timing.packetCount) + k
      invariant timing.sawEos == (if k == 0 then old(timing.sawEos) else page.last && k == |page.packets|)
      invariant k > 0 ==> !old(timing.sawEos)
      invariant PacketsOk(page.packets[..k])
      invariant k == |page.packets| ==> timing.previousPageGranule == Some(page.granule) && GranuleOk(page, timing.preSkip, old(timing.completed))
    {
      PacketStep(page.packets, k);
      var last := k == |page.packets| - 1;
      if last {
        assert page.packets[..k + 1] == page.packets;
      }
      error := timing.Accept(page.packets[k], k == 0, last, page.granule, last && page.last);
      if error.Some? {
        return;
      }
    }
    assert page.packets[..|page.packets|] == page.packets;
    error := None;
  }

  /** The whole audio part: accepted exactly when every page is in order and the last one ends it. */
  method ValidateAudio(pages: seq<AudioPage>, preSkip: nat, finalGranule: nat) returns (r: Timing)
    requires preSkip <= MAX_PRE_SKIP_SAMPLES && finalGranule <= U64_MAX
    requires forall i :: 0 <= i < |pages| ==> pages[i].packets != [] && pages[i].granule <= U64_MAX
    ensures r != Refused(Overflow)
    ensures r.Validated? <==> AudioOk(pages, preSkip, finalGranule)
    ensures r.Validated? ==>
              && r.preSkip == preSkip && r.packetCount == Count(pages)
              && 0 < r.durationSamples && r.durationSamples + preSkip == finalGranule <= Total(pages)
              && CeilingMillis(r.durationSamples, r.durationMillis)
  {
    hide GranuleOk, PacketsOk;
    var timing := new AudioTiming(preSkip);
    for k := 0 to |pages|
      invariant timing.Valid() && !timing.open && timing.preSkip == preSkip && fresh(timing)
      invariant timing.completed == Total(pages[..k]) && timing.packetCount == Count(pages[..k])
      invariant k == 0 ==> timing.packetCount == 0 && !timing.sawEos
      invariant k > 0 ==> timing.packetCount > 0 && timing.sawEos == pages[k - 1].last && timing.previousPageGranule == Some(pages[k - 1].granule)
      invariant forall i :: 0 <= i < k ==> PageOk(pages, i, preSkip)
      invariant forall i :: 0 <= i < k - 1 ==> !pages[i].last
    {
      PageStep(pages, k);
      CountMonotone(pages, k + 1);
      var error := AcceptPage(timing, pages[k]);
      if error.Some? {
        assert !PageOk(pages, k, preSkip) || (k > 0 && pages[k - 1].last) || Count(pages[..k + 1]) > U32_MAX;
        return Refused(error.value);
      }
    }
    assert pages[..|pages|] == pages;
    r := timing.Finish(finalGranule);
  }
}
