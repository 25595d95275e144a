/**
 Validation of live timing against the audio that was actually written
 (crates/voicetext-speech/src/application/live_timeline.rs).
 */
module LiveTimeline {
  import opened Base

  const PROVIDER_LEAD_TOLERANCE_MILLIS: nat := 250
  const PCM_S16LE_BYTES_PER_SAMPLE: nat := 2

  datatype Stability = Partial | SegmentFinal | UtteranceFinal

  datatype Transcript = Transcript(
    text: string,
    startMillis: nat,
    durationMillis: nat,
    confidence: Option<real>,
    stability: Stability)

  datatype AudioError = EmptyFrame | MisalignedFrame | ArithmeticOverflow

  datatype TimelineError = TimingOverflow | BeyondAcceptedAudio | FinalRegressionOrOverlap

  datatype Acceptance = Acceptance(totalFrames: nat, horizonMillis: nat)

  datatype Prepared = Prepared(acceptance: Acceptance) | Refused(error: AudioError)

  datatype Check = Accepted | Rejected(error: TimelineError)

  function EndOf(t: Transcript): nat {
    t.startMillis + t.durationMillis
  }

  class Timeline {
    const sampleRateHz: nat
    const bytesPerFrame: nat
    var acceptedFrames: nat
    var horizonMillis: nat
    var lastFinalEnd: Option<nat>

    predicate Valid()
      reads this
    {
      && sampleRateHz > 0 && bytesPerFrame > 0
      && acceptedFrames * 1000 <= U64_MAX
      && horizonMillis == acceptedFrames * 1000 / sampleRateHz
    }

    constructor (sampleRateHz: nat, channels: nat)
      requires 0 < sampleRateHz <= U32_MAX && 0 < channels < 256
      ensures Valid() && acceptedFrames == 0 && lastFinalEnd == None
      ensures this.sampleRateHz == sampleRateHz && bytesPerFrame == channels * PCM_S16LE_BYTES_PER_SAMPLE
    {
      this.sampleRateHz := sampleRateHz;
      bytesPerFrame := channels * PCM_S16LE_BYTES_PER_SAMPLE;
      acceptedFrames, horizonMillis, lastFinalEnd := 0, 0, None;
    }

    /** Computes the prospective horizon without accepting it. */
    method PrepareAudioWrite(byteLength: nat) returns (r: Prepared)
      requires Valid()
      ensures r.Prepared? ==>
                && 0 < byteLength && byteLength % bytesPerFrame == 0
                && r.acceptance.totalFrames == acceptedFrames + byteLength / bytesPerFrame
                && r.acceptance.totalFrames * 1000 <= U64_MAX
                && r.acceptance.horizonMillis == r.acceptance.totalFrames * 1000 / sampleRateHz
      ensures r.Refused? ==>
                || byteLength == 0 || byteLength % bytesPerFrame != 0
                || (acceptedFrames + byteLength / bytesPerFrame) * 1000 > U64_MAX
    {
      if byteLength == 0 {
        return Refused(EmptyFrame);
      }
      if byteLength % bytesPerFrame != 0 {
        return Refused(MisalignedFrame);
      }
      var total := acceptedFrames + byteLength / bytesPerFrame;
      if total > U64_MAX || total * 1000 > U64_MAX {
        return Refused(ArithmeticOverflow);
      }
      r := Prepared(Acceptance(total, total * 1000 / sampleRateHz));
    }

    method CommitAudioWrite(acceptance: Acceptance)
      requires Valid()
      requires acceptance.totalFrames * 1000 <= U64_MAX
      requires acceptance.horizonMillis == acceptance.totalFrames * 1000 / sampleRateHz
      modifies this`acceptedFrames, this`horizonMillis
      ensures Valid() && acceptedFrames == acceptance.totalFrames
    {
      acceptedFrames := acceptance.totalFrames;
      horizonMillis := acceptance.horizonMillis;
    }

    predicate WithinHorizon(endMillis: nat)
      reads this
    {
      endMillis <= horizonMillis + PROVIDER_LEAD_TOLERANCE_MILLIS
    }

    /** Accepts exactly what ends within the tolerated horizon and, if final, starts after the last final. */
    method ValidateTranscript(t: Transcript) returns (r: Check)
      requires Valid()
      modifies this`lastFinalEnd
      ensures Valid()
      ensures r.Accepted? <==>
                && EndOf(t) <= U64_MAX && WithinHorizon(EndOf(t))
                && (!t.stability.Partial? && old(lastFinalEnd).Some? ==> old(lastFinalEnd).value <= t.startMillis)
      ensures lastFinalEnd == if r.Accepted? && !t.stability.Partial? then Some(EndOf(t)) else old(lastFinalEnd)
    {
      if EndOf(t) > U64_MAX {
        return Rejected(TimingOverflow);
      }
      if EndOf(t) > horizonMillis && EndOf(t) - horizonMillis > PROVIDER_LEAD_TOLERANCE_MILLIS {
        return Rejected(BeyondAcceptedAudio);
      }
      if !t.stability.Partial? {
        if lastFinalEnd.Some? && t.startMillis < lastFinalEnd.value {
          return Rejected(FinalRegressionOrOverlap);
        }
        lastFinalEnd := Some(EndOf(t));
      }
      r := Accepted;
    }

    method ValidateUtteranceEnd(lastWordEndMillis: nat) returns (ok: bool)
      requires Valid()
      ensures ok <==> WithinHorizon(lastWordEndMillis)
    {
      ok := lastWordEndMillis <= horizonMillis || lastWordEndMillis - horizonMillis <= PROVIDER_LEAD_TOLERANCE_MILLIS;
    }
  }

  /** A stream without a rate or without channels has no timeline. */
  method OpenTimeline(sampleRateHz: nat, channels: nat) returns (timeline: Option<Timeline>)
    requires sampleRateHz <= U32_MAX && channels < 256
    ensures timeline.Some? <==> sampleRateHz > 0 && channels > 0
    ensures timeline.Some? ==>
              && fresh(timeline.value) && timeline.value.Valid() && timeline.value.acceptedFrames == 0
              && timeline.value.sampleRateHz == sampleRateHz && timeline.value.bytesPerFrame == channels * PCM_S16LE_BYTES_PER_SAMPLE
  {
    if sampleRateHz == 0 || channels == 0 {
      return None;
    }
    var created := new Timeline(sampleRateHz, channels);
    timeline := Some(created);
  }
}
