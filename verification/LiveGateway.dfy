/**
 The live coordinator over an ElevenLabs session, and the server loop that drives it
 (crates/voicetext-speech/src/application/live.rs, crates/voicetext-gateway/src/server/live.rs and
 crates/voicetext-providers/src/elevenlabs/live.rs).

 Sockets are a script: what the client and the provider do next, whether a write or a send
 succeeds, and when a deadline passes.
 */
module LiveGateway {
  import opened Base
  import opened LiveText
  import opened LiveSession
  import T = LiveTimeline
  import opened E = ElevenLabsLive
  import opened LiveLog
  import K = Keyterms

  const MAX_PCM_FRAME_BYTES: nat := 64 * 1024
  const MAX_TRANSCRIPT_CHARS: nat := 65_536
  const MAX_SAFE_INTEGER: nat := 9_007_199_254_740_991
  const MAX_PROVIDER_TRANSCRIPT_BYTES: nat := 64 * 1024

  datatype Failure =
    | InvalidAudioFrame
    | DomainRejected
    | InvalidProviderEvent
    | PendingAcknowledgements
    | Unserializable
    | RecognitionFailed
    | TransportClosed
    | ProviderClosed
    | InvalidCommand
    | TimedOut

  datatype Written = Sequence(sequence: nat) | NotWritten(failure: Failure)

  datatype Applied = Visible(event: LiveEvent) | Consumed | NotApplied(failure: Failure)

  /** What the adapter's message parser lets through (elevenlabs/live_dto.rs). */
  predicate Parsed(message: Message) {
    message.TranscriptMessage? ==>
      && Utf8Length(message.text) <= MAX_PROVIDER_TRANSCRIPT_BYTES
      && (message.confidence.Some? ==> 0.0 <= message.confidence.value <= 1.0)
  }

  lemma {:induction false} CharsWithinBytes(text: string)
    ensures |text| <= Utf8Length(text)
  {
    if text != "" {
      CharsWithinBytes(text[1..]);
    }
  }

  /** Bounds the coordinator puts on a transcript. */
  predicate WithinBounds(t: T.Transcript) {
    && |t.text| <= MAX_TRANSCRIPT_CHARS
    && T.EndOf(t) <= U64_MAX
    && (t.confidence.Some? ==> 0.0 <= t.confidence.value <= 1.0)
  }

  /** Bounds the wire contract puts on a transcript (contracts/live_outbound.rs). */
  predicate WireBounds(t: T.Transcript) {
    && |K.Utf16(t.text)| <= MAX_TRANSCRIPT_CHARS
    && t.startMillis <= MAX_SAFE_INTEGER && t.durationMillis <= MAX_SAFE_INTEGER
    && (t.confidence.Some? ==> 0.0 <= t.confidence.value <= 1.0)
  }

  /** At the rates the adapter takes, the clock stays within the integers the wire can carry. */
  predicate SupportedRate(sampleRateHz: nat) {
    sampleRateHz == 16_000 || sampleRateHz == 48_000
  }

  lemma {:induction false} ClockFitsWire(bytes: nat, rate: nat)
    requires SupportedRate(rate)
    ensures UserAudioMillis(bytes, rate) <= MAX_SAFE_INTEGER
  {
  }

  predicate WellFormedFrame(byteLength: nat) {
    0 < byteLength <= MAX_PCM_FRAME_BYTES && byteLength % 2 == 0
  }

  class Coordinator {
    const session: Session
    const timeline: T.Timeline
    const provider: LiveState

    /** The transcripts accepted for the client so far. */
    ghost var accepted: seq<T.Transcript>

    /**
     The three independently written parts agree: both audio counters count the same bytes, the
     validator's last final is not after the adapter's floor, and finalize evidence is only in the
     making while the session is finalizing.
     */
    ghost predicate Agree()
      reads session, timeline, provider
    {
      && session.Valid() && timeline.Valid() && provider.Valid()
      && timeline.sampleRateHz == provider.sampleRateHz && SupportedRate(timeline.sampleRateHz)
      && timeline.bytesPerFrame == 2
      && provider.userAudioBytes == timeline.acceptedFrames * 2
      && (timeline.lastFinalEnd.Some? ==> timeline.lastFinalEnd.value <= provider.Floor())
      && session.lastSequence <= timeline.acceptedFrames
      && ((provider.finalizing || provider.pending != []) ==> session.phase.Finalizing?)
    }

    /** The parts agree, and the books are right: no evidence too many, every transcript in the log accepted. */
    ghost predicate Valid()
      reads this, session, timeline, provider
    {
      && Agree()
      && (session.phase.Streaming? ==> Owed() == 0) && (session.phase.Finalizing? ==> Owed() <= 1)
      && (session.phase.Streaming? || session.phase.Finalizing? ==> session.resultObserved == Observed(provider.log))
      && accepted == TranscriptsOf(provider.log) && TurnsOk(provider.log)
    }

    /** Finalize evidence handed out, queued, or still to come: at most one in a session. */
    ghost function Owed(): nat
      reads provider
    {
      EvidenceCount(provider.log) + |provider.pending| + if provider.finalizing then 1 else 0
    }

    /** Also after a failure: the log is sound and the transcripts accepted are the ones in it. */
    ghost predicate Logged()
      reads this, provider
    {
      && LogOk(provider.alphabet, provider.sampleRateHz, provider.log) && TurnsOk(provider.log)
      && accepted == TranscriptsOf(provider.log) && EvidenceCount(provider.log) <= 1
    }

    constructor (alphabet: Alphabet, sampleRateHz: nat)
      requires alphabet.Lawful() && SupportedRate(sampleRateHz)
      ensures Valid() && fresh(session) && fresh(timeline) && fresh(provider)
      ensures session.phase == Streaming && session.pending == {} && session.written == {} && session.lastSequence == 0
      ensures accepted == [] && provider.userAudioBytes == 0 && provider.log == []
    {
      var s := new Session();
      var ready := s.MarkReady();
      session := s;
      timeline := new T.Timeline(sampleRateHz, 1);
      provider := new LiveState(alphabet, sampleRateHz, None);
      accepted := [];
    }

    lemma {:induction false} Keeps()
      requires Valid() && (session.phase.Streaming? || session.phase.Finalizing?)
      ensures Logged() && PendingIn(provider.log) == |provider.pending| && BytesOf(provider.log) == provider.userAudioBytes
    {
      hide Recorded, LogOk, TurnsOk, PendingIn, EvidenceCount, TranscriptsOf;
      provider.Reads();
    }

    /** The sequence is returned only after the provider write succeeded. */
    method ProviderWrite(byteLength: nat, writeSucceeds: bool) returns (r: Written)
      requires Valid() && session.phase.Streaming? && session.pending == {} && session.written == {}
      modifies session, timeline, provider
      ensures r.Sequence? ==>
                && Valid() && session.phase.Streaming?
                && r.sequence == session.lastSequence == old(session.lastSequence) + 1
                && session.pending == {r.sequence} && session.written == {r.sequence}
                && provider.userAudioBytes == old(provider.userAudioBytes) + byteLength
                && provider.log == old(provider.log) + [AudioWritten(byteLength)] && WellFormedFrame(byteLength)
      ensures r.NotWritten? ==> Logged() && provider.log == old(provider.log)
      ensures r.NotWritten? ==>
                || (r.failure.RecognitionFailed? && !writeSucceeds)
                || (r.failure.InvalidAudioFrame? &&
                      (!WellFormedFrame(byteLength) || (old(provider.userAudioBytes) + byteLength) * 500 > U64_MAX))
      ensures !writeSucceeds ==> r.NotWritten?
    {
      hide Recorded, EvidenceCount, TranscriptsOf, UserAudioMillis, LogOk, TurnsOk, Observed, LiveState.Sane;
      Keeps();
      TallyStep(provider.log, AudioWritten(byteLength));
      TurnStep(provider.log, AudioWritten(byteLength));
      if byteLength > MAX_PCM_FRAME_BYTES {
        return NotWritten(InvalidAudioFrame);
      }
      var prepared := timeline.PrepareAudioWrite(byteLength);
      if prepared.Refused? {
        return NotWritten(InvalidAudioFrame);
      }
      var accepted := session.AcceptAudio();
      if accepted.Err? {
        return NotWritten(DomainRejected);
      }
      if !writeSucceeds {
        var failed := session.Fail();
        return NotWritten(RecognitionFailed);
      }
      provider.RecordAudio(byteLength);
      timeline.CommitAudioWrite(prepared.acceptance);
      var confirmed := session.MarkProviderWriteSucceeded(accepted.value);
      if confirmed.Err? {
        return NotWritten(DomainRejected);
      }
      r := Sequence(accepted.value);
    }

    /** Reads one event from the adapter: queued evidence first, then the next provider message. */
    method ReceiveProviderEvent(message: Message) returns (event: Option<LiveEvent>)
      requires Valid() && Parsed(message) && (session.phase.Streaming? || session.phase.Finalizing?)
      modifies provider
      ensures Agree() && provider.userAudioBytes == old(provider.userAudioBytes)
      ensures Owed() <= old(Owed()) && TurnsOk(provider.log)
      ensures Observed(provider.log) <==> old(Observed(provider.log)) || event == Some(FinalizeResultObserved)
      ensures provider.log == old(provider.log) + [if old(provider.pending) == [] then Heard(message, event) else Evidence]
      ensures old(provider.pending) != [] ==> event == Some(FinalizeResultObserved)
      ensures event == Some(FinalizeResultObserved) ==> session.phase.Finalizing?
      ensures event.Some? ==> !event.value.UtteranceEnd?
      ensures event.Some? && event.value.TranscriptEvent? ==>
                var t := event.value.transcript;
                && T.EndOf(t) == provider.Clock() && Utf8Length(t.text) <= MAX_PROVIDER_TRANSCRIPT_BYTES
                && (t.confidence.Some? ==> 0.0 <= t.confidence.value <= 1.0)
                && (!t.stability.Partial? ==>
                      && T.EndOf(t) == provider.Floor()
                      && (timeline.lastFinalEnd.Some? ==> timeline.lastFinalEnd.value <= t.startMillis))
    {
      hide Recorded, EvidenceCount, TranscriptsOf, UserAudioMillis, Utf8Length, LogOk, TurnsOk, Observed, Reacts, Takes, PendingIn;
      hide LiveState.Sane, LiveState.Clock, T.Timeline.Valid, Session.Valid;
      Keeps();
      TallyStep(provider.log, Evidence);
      TurnStep(provider.log, Evidence);
      event := provider.PopPending();
      if event.None? {
        event := provider.Apply(message);
        TallyStep(old(provider.log), Heard(message, event));
        TurnStep(old(provider.log), Heard(message, event));
      }
    }

    /** Validates and records an event; the timeline and the session each keep the right to refuse. */
    method ApplyProviderEvent(event: LiveEvent) returns (r: Applied)
      requires session.Valid() && timeline.Valid()
      modifies session, timeline
      ensures session.Valid() && timeline.Valid()
      ensures timeline.acceptedFrames == old(timeline.acceptedFrames)
      ensures session.lastSequence == old(session.lastSequence) && session.pending == old(session.pending)
      ensures session.written == old(session.written)
      ensures event.TranscriptEvent? ==>
                var t := event.transcript;
                (r == Visible(event) <==>
                   && WithinBounds(t) && old(timeline.WithinHorizon(T.EndOf(t)))
                   && (!t.stability.Partial? && old(timeline.lastFinalEnd).Some? ==> old(timeline.lastFinalEnd).value <= t.startMillis))
      ensures r == Visible(event) ==>
                && session.phase == old(session.phase) && session.resultObserved == old(session.resultObserved)
                && timeline.lastFinalEnd ==
                   if event.TranscriptEvent? && !event.transcript.stability.Partial? then Some(T.EndOf(event.transcript))
                   else old(timeline.lastFinalEnd)
      ensures event.FinalizeResultObserved? ==> (r == Consumed <==> old(session.phase).Finalizing?)
      ensures r == Consumed ==>
                && session.phase == old(session.phase) && session.resultObserved
                && timeline.lastFinalEnd == old(timeline.lastFinalEnd)
      ensures r.Visible? ==> r.event == event
      ensures event.TranscriptEvent? ==> !r.Consumed?
    {
      match event
      case TranscriptEvent(t) =>
        if !WithinBounds(t) {
          var failed := session.Fail();
          return NotApplied(InvalidProviderEvent);
        }
        var check := timeline.ValidateTranscript(t);
        if check.Rejected? {
          var failed := session.Fail();
          return NotApplied(InvalidProviderEvent);
        }
        r := Visible(event);
      case UtteranceEnd(lastWordEnd) =>
        var ok := timeline.ValidateUtteranceEnd(lastWordEnd);
        if !ok {
          var failed := session.Fail();
          return NotApplied(InvalidProviderEvent);
        }
        r := Visible(event);
      case FinalizeResultObserved =>
        var observed := session.MarkFinalizeResultObserved();
        if observed.Err? {
          var failed := session.Fail();
          return NotApplied(DomainRejected);
        }
        r := Consumed;
    }

    /** Neither the timeline nor the session refuses an event that ends at the adapter's clock. */
    method AcceptEvent(event: LiveEvent) returns (r: Applied)
      requires Agree() && !event.UtteranceEnd? && (event.FinalizeResultObserved? ==> session.phase.Finalizing?)
      requires event.TranscriptEvent? ==>
                 var t := event.transcript;
                 && T.EndOf(t) == provider.Clock() && Utf8Length(t.text) <= MAX_PROVIDER_TRANSCRIPT_BYTES
                 && (t.confidence.Some? ==> 0.0 <= t.confidence.value <= 1.0)
                 && (!t.stability.Partial? ==>
                       && T.EndOf(t) == provider.Floor()
                       && (timeline.lastFinalEnd.Some? ==> timeline.lastFinalEnd.value <= t.startMillis))
      modifies session, timeline
      ensures Agree() && session.phase == old(session.phase)
      ensures session.lastSequence == old(session.lastSequence) && session.pending == old(session.pending)
      ensures session.written == old(session.written)
      ensures r == if event.TranscriptEvent? then Visible(event) else Consumed
      ensures event.TranscriptEvent? ==> WireBounds(event.transcript)
      ensures session.resultObserved == (old(session.resultObserved) || event.FinalizeResultObserved?)
    {
      hide Recorded, UserAudioMillis, LiveState.Sane, WithinBounds, WireBounds;
      if event.TranscriptEvent? {
        TranscriptFits(event.transcript, timeline.acceptedFrames, timeline.sampleRateHz);
      }
      r := ApplyProviderEvent(event);
    }

    /**
     Every event the adapter synthesizes is accepted, whatever the interleaving of audio and
     messages that led here, also once the audio clock saturates.
     */
    method NextEvent(message: Message) returns (event: Option<LiveEvent>, r: Applied)
      requires Valid() && Parsed(message) && (session.phase.Streaming? || session.phase.Finalizing?)
      modifies this`accepted, session, timeline, provider
      ensures Valid() && session.phase == old(session.phase) && provider.userAudioBytes == old(provider.userAudioBytes)
      ensures accepted == old(accepted) +
                if event.Some? && event.value.TranscriptEvent? then [event.value.transcript] else []
      ensures session.lastSequence == old(session.lastSequence) && session.pending == old(session.pending)
      ensures session.written == old(session.written)
      ensures !r.NotApplied?
      ensures event.Some? && event.value.TranscriptEvent? ==> r == Visible(event.value) && WireBounds(event.value.transcript)
      ensures session.resultObserved == (old(session.resultObserved) || event == Some(FinalizeResultObserved))
      ensures provider.log == old(provider.log) + [if old(provider.pending) == [] then Heard(message, event) else Evidence]
    {
      hide Recorded, EvidenceCount, TranscriptsOf, UserAudioMillis, LiveState.Sane, WireBounds, Parsed, LogOk, TurnsOk, Observed, Coordinator.Agree;
      event := ReceiveProviderEvent(message);
      TallyStep(old(provider.log), Heard(message, event));
      TallyStep(old(provider.log), Evidence);
      if event.None? {
        return event, Consumed;
      }
      r := AcceptEvent(event.value);
      if event.value.TranscriptEvent? {
        accepted := accepted + [event.value.transcript];
      }
    }

    method BeginFinalize(sendSucceeds: bool) returns (failure: Option<Failure>)
      requires Valid() && session.phase.Streaming? && session.pending == {}
      modifies session, provider
      ensures failure.None? ==>
                && Valid() && session.phase == Finalizing && !session.resultObserved
                && session.lastSequence == old(session.lastSequence) && session.pending == {}
                && session.acceptedAudio == old(session.acceptedAudio) && session.written == old(session.written)
      ensures provider.log == old(provider.log) + AskingLeaves(old(provider.userAudioBytes), sendSucceeds)
      ensures failure.Some? <==> !sendSucceeds && old(provider.userAudioBytes) != 0
      ensures failure.Some? ==> failure == Some(RecognitionFailed) && Logged()
    {
      hide Recorded, EvidenceCount, TranscriptsOf, UserAudioMillis, LogOk, TurnsOk, Observed, LiveState.Sane;
      Keeps();
      ObservedCounts(provider.log);
      TallyStep(provider.log, FinalizeAsked);
      TurnStep(provider.log, FinalizeAsked);
      var begun := session.BeginFinalize();
      if begun.Err? {
        return Some(DomainRejected);
      }
      if provider.userAudioBytes != 0 {
        provider.BeginFinalize();
        if !sendSucceeds {
          TallyStep(provider.log, FinalizeDropped);
          TurnStep(provider.log, FinalizeDropped);
          provider.CancelFinalize();
          provider.Reads();
          var failed := session.Fail();
          return Some(RecognitionFailed);
        }
      }
      failure := None;
    }
  }

  /** A transcript that ends at the adapter's clock is within every bound put on it. */
  lemma {:induction false} TranscriptFits(t: T.Transcript, frames: nat, rate: nat)
    requires SupportedRate(rate) && frames * 1000 <= U64_MAX && T.EndOf(t) == UserAudioMillis(frames * 2, rate)
    requires Utf8Length(t.text) <= MAX_PROVIDER_TRANSCRIPT_BYTES && (t.confidence.Some? ==> 0.0 <= t.confidence.value <= 1.0)
    ensures WithinBounds(t) && WireBounds(t) && T.EndOf(t) <= frames * 1000 / rate
  {
    ClockWithinHorizon(frames, rate);
    ClockFitsWire(frames * 2, rate);
    CharsWithinBytes(t.text);
    K.UnitsWithinBytes(t.text);
  }

  /** What a finalize request leaves in the log: nothing without audio to flush. */
  function AskingLeaves(bytes: nat, sendSucceeds: bool): seq<Entry> {
    if bytes == 0 then [] else if sendSucceeds then [FinalizeAsked] else [FinalizeAsked, FinalizeDropped]
  }

  // ---- the server loop ---------------------------------------------------------------------------

  /** One thing the loop is woken by; the flags tell how the sends and writes that follow fare. */
  datatype Input =
    | ClientAudio(byteLength: nat, writeSucceeds: bool, ackDelivered: bool)
    | ClientFinalize(sendSucceeds: bool)
    | ClientClose
    | ClientPing(ponged: bool)
    | ClientGarbage
    | ClientGone
    | ProviderMessage(message: Message, delivered: bool)
    | ProviderFailure
    | ProviderEnded(delivered: bool)
    | Deadline(delivered: bool)

  /** What the outside world sees, in order. */
  datatype Observable =
    | Wrote(sequence: nat)
    | Acked(sequence: nat)
    | Sent(transcript: T.Transcript)
    | FinalizeComplete(outcome: FinalizeOutcome)

  datatype Ending = ClosedByClient | Finished(outcome: FinalizeOutcome) | Broken(failure: Failure)

  /** ACKs are 1, 2, 3, ... and each directly follows the provider write of the same frame. */
  ghost predicate Disciplined(trace: seq<Observable>) {
    forall i :: 0 <= i < |trace| && trace[i].Acked? ==>
      && i > 0 && trace[i - 1] == Wrote(trace[i].sequence)
      && trace[i].sequence == AckCount(trace[..i]) + 1
  }

  function AckCount(trace: seq<Observable>): nat {
    if trace == [] then 0
    else AckCount(trace[..|trace| - 1]) + (if trace[|trace| - 1].Acked? then 1 else 0)
  }

  /** Everything sent to the client satisfies the wire contract. */
  predicate Serializable(trace: seq<Observable>) {
    forall i :: 0 <= i < |trace| ==>
      && (trace[i].Acked? ==> 1 <= trace[i].sequence <= MAX_SAFE_INTEGER)
      && (trace[i].Sent? ==> WireBounds(trace[i].transcript))
      && (trace[i].FinalizeComplete? ==> WireConsistent(trace[i].outcome))
  }

  /** The transcripts sent to the client, in order. */
  function SentOf(trace: seq<Observable>): seq<T.Transcript> {
    if trace == [] then []
    else SentOf(trace[..|trace| - 1]) + (if trace[|trace| - 1].Sent? then [trace[|trace| - 1].transcript] else [])
  }

  function AudioCount(script: seq<Input>): nat {
    if script == [] then 0
    else AudioCount(script[..|script| - 1]) + (if script[|script| - 1].ClientAudio? then 1 else 0)
  }

  function AudioBytes(script: seq<Input>): nat {
    if script == [] then 0
    else AudioBytes(script[..|script| - 1]) + (if script[|script| - 1].ClientAudio? then script[|script| - 1].byteLength else 0)
  }

  /** The entry is what a frame or a provider turn leaves in the session's log. */
  predicate Leaves(input: Input, entry: Entry) {
    || (input.ClientAudio? && entry == AudioWritten(input.byteLength))
    || (input.ProviderMessage? && (entry.Evidence? || (entry.Heard? && entry.message == input.message)))
  }

  /** The log holds what every frame, provider turn and finalize request of the script leaves, in order, and nothing else. */
  predicate Records(script: seq<Input>, log: seq<Entry>) {
    if script == [] then log == []
    else
      var before, last := script[..|script| - 1], script[|script| - 1];
      if last.ClientAudio? || last.ProviderMessage?
      then log != [] && Leaves(last, log[|log| - 1]) && Records(before, log[..|log| - 1])
      else if last.ClientFinalize? then
        exists n: nat :: n <= |log| && Records(before, log[..n]) && log[n..] == AskingLeaves(BytesOf(log[..n]), last.sendSucceeds)
      else Records(before, log)
  }

  lemma {:induction false} ScriptStep(script: seq<Input>, i: nat, log: seq<Entry>, entry: Entry)
    requires i < |script|
    ensures AudioCount(script[..i + 1]) == AudioCount(script[..i]) + (if script[i].ClientAudio? then 1 else 0)
    ensures AudioBytes(script[..i + 1]) == AudioBytes(script[..i]) + (if script[i].ClientAudio? then script[i].byteLength else 0)
    ensures Records(script[..i], log) && Leaves(script[i], entry) ==> Records(script[..i + 1], log + [entry])
    ensures Records(script[..i], log) && !script[i].ClientAudio? && !script[i].ProviderMessage? && !script[i].ClientFinalize? ==>
              Records(script[..i + 1], log)
  {
    assert script[..i + 1][..i] == script[..i];
    assert (log + [entry])[..|log|] == log;
  }

  lemma {:induction false} AskingStep(script: seq<Input>, i: nat, log: seq<Entry>, more: seq<Entry>)
    requires i < |script| && script[i].ClientFinalize? && Records(script[..i], log)
    requires more == log + AskingLeaves(BytesOf(log), script[i].sendSucceeds)
    ensures Records(script[..i + 1], more)
  {
    assert script[..i + 1][..i] == script[..i];
    assert more[..|log|] == log && more[|log|..] == AskingLeaves(BytesOf(log), script[i].sendSucceeds);
  }

  /** How one input breaks a streaming session. */
  predicate BreaksStream(input: Input, failure: Failure, bytesBefore: nat) {
    match input
    case ClientAudio(byteLength, writeSucceeds, ackDelivered) =>
      || (failure.InvalidAudioFrame? && (!WellFormedFrame(byteLength) || (bytesBefore + byteLength) * 500 > U64_MAX))
      || (failure.RecognitionFailed? && !writeSucceeds)
      || (failure.Unserializable? && bytesBefore + byteLength > 2 * MAX_SAFE_INTEGER)
      || (failure.TransportClosed? && !ackDelivered)
    case ClientFinalize(sendSucceeds) => failure.RecognitionFailed? && !sendSucceeds
    case ClientClose => false
    case ClientPing(ponged) => failure.TransportClosed? && !ponged
    case ClientGarbage => failure.InvalidCommand?
    case ClientGone => failure.TransportClosed?
    case ProviderMessage(_, delivered) => failure.TransportClosed? && !delivered
    case ProviderFailure => failure.RecognitionFailed?
    case ProviderEnded(_) => failure.ProviderClosed?
    case Deadline(_) => failure.TimedOut?
  }

  /** How one input breaks the finalize drain, in which the client has nothing left to say. */
  predicate BreaksDrain(input: Input, failure: Failure) {
    match input
    case ProviderMessage(_, delivered) => failure.TransportClosed? && !delivered
    case ProviderFailure => failure.RecognitionFailed?
    case ProviderEnded(delivered) => failure.TransportClosed? && !delivered
    case Deadline(delivered) => failure.TransportClosed? && !delivered
    case ClientGone => failure.TransportClosed?
    case ClientClose => failure.TransportClosed?
    case _ => failure.InvalidCommand?
  }

  /** Flushed if the finalize result was seen; if not, whether there was anything to flush. */
  predicate StatusTells(outcome: FinalizeOutcome, observed: bool, audio: bool) {
    && outcome.sawResult == observed
    && (outcome.status.Flushed? <==> observed)
    && (outcome.status.Timeout? <==> !observed && audio)
    && (outcome.status.NoProvider? <==> !observed && !audio)
  }

  predicate EndsDrain(input: Input) {
    input.ProviderEnded? || input.Deadline?
  }

  ghost predicate Sound(trace: seq<Observable>) {
    Disciplined(trace) && Serializable(trace)
  }

  lemma {:induction false} Append(trace: seq<Observable>, last: Observable)
    requires Sound(trace)
    requires last.Acked? ==> trace != [] && trace[|trace| - 1] == Wrote(last.sequence) && last.sequence == AckCount(trace) + 1
    requires last.Acked? ==> last.sequence <= MAX_SAFE_INTEGER
    requires last.Sent? ==> WireBounds(last.transcript)
    requires last.FinalizeComplete? ==> WireConsistent(last.outcome)
    ensures Sound(trace + [last])
    ensures AckCount(trace + [last]) == AckCount(trace) + (if last.Acked? then 1 else 0)
    ensures SentOf(trace + [last]) == SentOf(trace) + (if last.Sent? then [last.transcript] else [])
  {
    hide WireBounds, WireConsistent;
    var all := trace + [last];
    assert all[..|trace|] == trace;
    forall i | 0 <= i < |all| && all[i].Acked?
      ensures i > 0 && all[i - 1] == Wrote(all[i].sequence) && all[i].sequence == AckCount(all[..i]) + 1
    {
      AppendAt(trace, last, i);
    }
  }

  lemma {:induction false} AppendAt(trace: seq<Observable>, last: Observable, i: nat)
    requires Disciplined(trace) && i <= |trace| && (trace + [last])[i].Acked?
    requires last.Acked? ==> trace != [] && trace[|trace| - 1] == Wrote(last.sequence) && last.sequence == AckCount(trace) + 1
    ensures var all := trace + [last];
            i > 0 && all[i - 1] == Wrote(all[i].sequence) && all[i].sequence == AckCount(all[..i]) + 1
  {
    assert (trace + [last])[..i] == trace[..i];
    if i == |trace| {
      assert trace[..i] == trace;
    }
  }

  /** Between two client frames every accepted frame has been acknowledged. */
  ghost predicate Quiet(coordinator: Coordinator, trace: seq<Observable>, acceptedAudio: bool)
    reads coordinator, coordinator.session, coordinator.timeline, coordinator.provider
  {
    && coordinator.Valid()
    && coordinator.session.pending == {} && coordinator.session.written == {}
    && acceptedAudio == coordinator.session.acceptedAudio
    && Sound(trace) && AckCount(trace) == coordinator.session.lastSequence
    && SentOf(trace) == coordinator.accepted
  }

  /** What the client has: every accepted transcript, or all but the one that could not be delivered. */
  ghost predicate Delivered(coordinator: Coordinator, trace: seq<Observable>, undelivered: bool)
    reads coordinator
  {
    if undelivered then SentOf(trace) < coordinator.accepted && |coordinator.accepted| == |SentOf(trace)| + 1
    else SentOf(trace) == coordinator.accepted
  }

  lemma {:induction false} QuietFacts(coordinator: Coordinator, trace: seq<Observable>, acceptedAudio: bool)
    requires Quiet(coordinator, trace, acceptedAudio)
    requires coordinator.session.phase.Streaming? || coordinator.session.phase.Finalizing?
    ensures Sound(trace) && SentOf(trace) == coordinator.accepted && coordinator.Logged()
    ensures BytesOf(coordinator.provider.log) == coordinator.provider.userAudioBytes
    ensures coordinator.session.resultObserved == Observed(coordinator.provider.log)
    ensures AckCount([]) == 0 && AudioCount([]) == 0 && AudioBytes([]) == 0
  {
    hide Sound, Recorded, LogOk, TurnsOk, Observed, TranscriptsOf;
    coordinator.Keeps();
  }

  /** One binary client frame: provider write, then the ACK, then its confirmation. */
  method ServeAudio(coordinator: Coordinator, input: Input, before: seq<Observable>, ghost acceptedAudio: bool)
    returns (trace: seq<Observable>, failure: Option<Failure>)
    requires input.ClientAudio? && Quiet(coordinator, before, acceptedAudio) && coordinator.session.phase.Streaming?
    modifies coordinator.session, coordinator.timeline, coordinator.provider
    ensures Sound(trace) && coordinator.Logged() && Delivered(coordinator, trace, false)
    ensures failure.None? ==>
              && Quiet(coordinator, trace, true) && coordinator.session.phase.Streaming?
              && AckCount(trace) == AckCount(before) + 1
              && coordinator.provider.userAudioBytes == old(coordinator.provider.userAudioBytes) + input.byteLength
              && coordinator.provider.log == old(coordinator.provider.log) + [AudioWritten(input.byteLength)]
              && Harmless(input)
    ensures failure.Some? ==>
              && BreaksStream(input, failure.value, old(coordinator.provider.userAudioBytes))
              && (|| (coordinator.provider.log == old(coordinator.provider.log) && trace == before)
                  || (coordinator.provider.log == old(coordinator.provider.log) + [AudioWritten(input.byteLength)]
                      && trace == before + [Wrote(old(coordinator.session.lastSequence) + 1)]))
  {
    hide Sound, Recorded, EvidenceCount, TranscriptsOf, UserAudioMillis, LogOk, TurnsOk, Observed;
    trace := before;
    var written := coordinator.ProviderWrite(input.byteLength, input.writeSucceeds);
    if written.NotWritten? {
      return trace, Some(written.failure);
    }
    coordinator.Keeps();
    Append(trace, Wrote(written.sequence));
    trace := trace + [Wrote(written.sequence)];
    if written.sequence > MAX_SAFE_INTEGER {
      return trace, Some(Unserializable);
    }
    if !input.ackDelivered {
      return trace, Some(TransportClosed);
    }
    Append(trace, Acked(written.sequence));
    trace := trace + [Acked(written.sequence)];
    var acked := coordinator.session.MarkAckSent(written.sequence);
    if acked.Err? {
      return trace, Some(DomainRejected);
    }
    failure := None;
  }

  /** One provider event, in the stream or in the finalize drain. */
  method ServeProvider(coordinator: Coordinator, input: Input, before: seq<Observable>, ghost acceptedAudio: bool)
    returns (trace: seq<Observable>, observed: bool, failure: Option<Failure>)
    requires input.ProviderMessage? && Parsed(input.message) && Quiet(coordinator, before, acceptedAudio)
    requires coordinator.session.phase.Streaming? || coordinator.session.phase.Finalizing?
    modifies coordinator`accepted, coordinator.session, coordinator.timeline, coordinator.provider
    ensures Sound(trace) && AckCount(trace) == AckCount(before) && coordinator.Logged()
    ensures coordinator.provider.userAudioBytes == old(coordinator.provider.userAudioBytes)
    ensures |coordinator.provider.log| == |old(coordinator.provider.log)| + 1
            && old(coordinator.provider.log) <= coordinator.provider.log
            && Leaves(input, coordinator.provider.log[|old(coordinator.provider.log)|])
    ensures failure.None? ==>
              && Quiet(coordinator, trace, acceptedAudio)
              && coordinator.session.phase == old(coordinator.session.phase)
              && coordinator.session.resultObserved == (old(coordinator.session.resultObserved) || observed)
    ensures failure.Some? ==> failure.value.TransportClosed? && !input.delivered
    ensures failure.None? ==> input.delivered || coordinator.accepted == old(coordinator.accepted)
    ensures Delivered(coordinator, trace, failure.Some?)
  {
    hide Sound, WithinBounds, WireBounds, Parsed, Recorded, EvidenceCount, TranscriptsOf, UserAudioMillis, LogOk, TurnsOk, Observed;
    trace := before;
    var event, applied := coordinator.NextEvent(input.message);
    coordinator.Keeps();
    observed := event == Some(FinalizeResultObserved);
    if applied.NotApplied? {
      return trace, observed, Some(InvalidProviderEvent);
    }
    if event.Some? && event.value.TranscriptEvent? {
      if !input.delivered {
        return trace, observed, Some(TransportClosed);
      }
      Append(trace, Sent(event.value.transcript));
      trace := trace + [Sent(event.value.transcript)];
    }
    failure := None;
  }

  /** One turn of the loop that is neither a finalize nor a close. */
  method Serve(coordinator: Coordinator, script: seq<Input>, i: nat, before: seq<Observable>, acceptedAudio: bool)
    returns (trace: seq<Observable>, audio: bool, failure: Option<Failure>)
    requires Quiet(coordinator, before, acceptedAudio) && coordinator.session.phase.Streaming?
    requires i < |script| && !script[i].ClientFinalize? && !script[i].ClientClose?
    requires script[i].ProviderMessage? ==> Parsed(script[i].message)
    requires Records(script[..i], coordinator.provider.log) && Unasked(coordinator.provider.log)
    modifies coordinator`accepted, coordinator.session, coordinator.timeline, coordinator.provider
    ensures Sound(trace) && coordinator.Logged()
    ensures failure.None? ==> Unasked(coordinator.provider.log)
    ensures failure.None? ==>
              && Quiet(coordinator, trace, audio) && coordinator.session.phase.Streaming?
              && AckCount(trace) == AckCount(before) + (if script[i].ClientAudio? then 1 else 0)
              && coordinator.provider.userAudioBytes
                 == old(coordinator.provider.userAudioBytes) + (if script[i].ClientAudio? then script[i].byteLength else 0)
              && Records(script[..i + 1], coordinator.provider.log)
              && Harmless(script[i])
    ensures failure.Some? ==> BreaksStream(script[i], failure.value, old(coordinator.provider.userAudioBytes))
    ensures RecordedUpTo(script, i, coordinator.provider.log)
    ensures Delivered(coordinator, trace, failure == Some(TransportClosed) && script[i].ProviderMessage?)
  {
    hide Parsed, Sound, WellFormedFrame, Records, Quiet, LogOk, EvidenceCount, TranscriptsOf, SentOf, AckCount, TurnsOk, Observed;
    trace, audio, failure := before, acceptedAudio, None;
    QuietFacts(coordinator, before, acceptedAudio);
    ghost var log := coordinator.provider.log;
    ScriptStep(script, i, log, AudioWritten(if script[i].ClientAudio? then script[i].byteLength else 0));
    match script[i]
    case ClientAudio(_, _, _) =>
      trace, failure := ServeAudio(coordinator, script[i], trace, acceptedAudio);
      audio := true;
    case ProviderMessage(_, _) =>
      var observed;
      trace, observed, failure := ServeProvider(coordinator, script[i], trace, acceptedAudio);
      ghost var entry := coordinator.provider.log[|log|];
      assert coordinator.provider.log == log + [entry];
      ScriptStep(script, i, log, entry);
    case ClientPing(ponged) => failure := if ponged then None else Some(TransportClosed);
    case ClientGarbage => failure := Some(InvalidCommand);
    case ClientGone => failure := Some(TransportClosed);
    case ProviderFailure => failure := Some(RecognitionFailed);
    case ProviderEnded(_) => failure := Some(ProviderClosed);
    case Deadline(_) => failure := Some(TimedOut);
  }

  /** Nothing about the input breaks a streaming session; an undelivered turn with nothing to show does not either. */
  predicate Harmless(input: Input) {
    || (input.ClientAudio? && WellFormedFrame(input.byteLength) && input.writeSucceeds && input.ackDelivered)
    || (input.ClientPing? && input.ponged)
    || input.ProviderMessage?
  }

  /** The log is that of the inputs before this one, with or without it. */
  predicate RecordedUpTo(script: seq<Input>, i: nat, log: seq<Entry>) {
    i <= |script| && (Records(script[..i], log) || (i < |script| && Records(script[..i + 1], log)))
  }

  /**
   The session loop. In every run ACKs are exact and everything sent is serializable, every
   accepted transcript reaches the client in order, no provider event and no finalize request is
   ever refused by the domain, and only the input at which it ended can have broken the session.
   The transcripts are those of a log of everything the session wrote and heard, in which the finals of
   every utterance add up (`UtteranceSettled`).
   */
  method Stream(coordinator: Coordinator, script: seq<Input>)
    returns (trace: seq<Observable>, ending: Ending, stopped: nat, ended: nat)
    requires Quiet(coordinator, [], false) && coordinator.session.phase.Streaming?
    requires coordinator.provider.userAudioBytes == 0 && coordinator.provider.log == []
    requires forall i :: 0 <= i < |script| && script[i].ProviderMessage? ==> Parsed(script[i].message)
    modifies coordinator`accepted, coordinator.session, coordinator.timeline, coordinator.provider
    ensures Sound(trace)
    ensures coordinator.Logged() && RecordedUpTo(script, ended, coordinator.provider.log)
    ensures Delivered(coordinator, trace, ending == Broken(TransportClosed) && ended < |script| && script[ended].ProviderMessage?)
    ensures stopped <= ended <= |script|
    ensures forall i :: 0 <= i < stopped ==> Harmless(script[i])
    ensures stopped < ended ==> script[stopped].ClientFinalize? && forall i :: stopped < i < ended ==> script[i].ProviderMessage?
    ensures ending.ClosedByClient? ==>
              stopped == ended < |script| && script[ended].ClientClose? && AckCount(trace) == AudioCount(script[..stopped])
    ensures ending.Finished? ==>
              && stopped < ended && (ended == |script| || EndsDrain(script[ended]))
              && AckCount(trace) == AudioCount(script[..stopped])
              && trace != [] && trace[|trace| - 1] == FinalizeComplete(ending.outcome)
              && StatusTells(ending.outcome, Observed(coordinator.provider.log), AckCount(trace) > 0)
              && (AckCount(trace) > 0 ==> exists f: nat :: AsksOnce(coordinator.provider.log, f))
    ensures ending.Broken? ==>
              if ended == |script| then stopped == ended && ending.failure.TimedOut?
              else if stopped == ended then BreaksStream(script[ended], ending.failure, AudioBytes(script[..stopped]))
              else BreaksDrain(script[ended], ending.failure)
  {
    hide Parsed, Sound, Quiet, WireConsistent, AckCount, SentOf, Records, LogOk, EvidenceCount, TranscriptsOf, Recorded, TurnsOk, Observed;
    QuietFacts(coordinator, [], false);
    NothingRecorded(script);
    trace := [];
    var acceptedAudio := false;
    var failure: Option<Failure>;
    for i := 0 to |script|
      invariant Quiet(coordinator, trace, acceptedAudio) && coordinator.session.phase.Streaming?
      invariant AckCount(trace) == AudioCount(script[..i])
      invariant coordinator.provider.userAudioBytes == AudioBytes(script[..i])
      invariant Records(script[..i], coordinator.provider.log) && Unasked(coordinator.provider.log)
      invariant forall k :: 0 <= k < i ==> Harmless(script[k])
    {
      stopped, ended := i, i;
      ScriptStep(script, i, coordinator.provider.log, Evidence);
      QuietFacts(coordinator, trace, acceptedAudio);
      match script[i]
      case ClientFinalize(_) =>
        trace, ending, ended := Finalize(coordinator, acceptedAudio, script, i, trace);
        return;
      case ClientClose =>
        return trace, ClosedByClient, stopped, ended;
      case _ =>
        trace, acceptedAudio, failure := Serve(coordinator, script, i, trace, acceptedAudio);
        if failure.Some? {
          return trace, Broken(failure.value), stopped, ended;
        }
    }
    QuietFacts(coordinator, trace, acceptedAudio);
    stopped, ended := |script|, |script|;
    ending := Broken(TimedOut);
  }

  lemma {:induction false} NothingRecorded(script: seq<Input>)
    ensures script[..0] == [] && Records([], [])
  {
  }

  /** The bounded drain: the status it asks for is always one the session grants and the wire carries. */
  method Finalize(coordinator: Coordinator, acceptedAudio: bool, script: seq<Input>, at: nat, before: seq<Observable>)
    returns (trace: seq<Observable>, ending: Ending, ended: nat)
    requires Quiet(coordinator, before, acceptedAudio) && coordinator.session.phase.Streaming?
    requires at < |script| && script[at].ClientFinalize? && Records(script[..at], coordinator.provider.log)
    requires Unasked(coordinator.provider.log)
    requires forall i :: 0 <= i < |script| && script[i].ProviderMessage? ==> Parsed(script[i].message)
    modifies coordinator`accepted, coordinator.session, coordinator.timeline, coordinator.provider
    ensures Sound(trace) && AckCount(trace) == AckCount(before)
    ensures coordinator.Logged() && RecordedUpTo(script, ended, coordinator.provider.log)
    ensures Delivered(coordinator, trace, ending == Broken(TransportClosed) && ended < |script| && script[ended].ProviderMessage?)
    ensures at <= ended <= |script|
    ensures forall i :: at < i < ended ==> script[i].ProviderMessage?
    ensures ending.Finished? || ending.Broken?
    ensures ending.Broken? ==>
              if ended == at then ending.failure.RecognitionFailed? && !script[at].sendSucceeds
              else ended < |script| && BreaksDrain(script[ended], ending.failure)
    ensures ending.Finished? ==>
              && at < ended && (ended == |script| || EndsDrain(script[ended]))
              && trace != [] && trace[|trace| - 1] == FinalizeComplete(ending.outcome)
              && StatusTells(ending.outcome, Observed(coordinator.provider.log), AckCount(trace) > 0)
              && (AckCount(trace) > 0 ==> exists f: nat :: AsksOnce(coordinator.provider.log, f))
    ensures ending != Broken(Unserializable)
  {
    hide Sound, Parsed, Records, AsksOnce, Unasked, LogOk, EvidenceCount, TranscriptsOf, Recorded, UserAudioMillis, LiveState.Sane, AckCount, SentOf, TurnsOk, Observed;
    trace := before;
    QuietFacts(coordinator, before, acceptedAudio);
    ghost var log, bytes := coordinator.provider.log, coordinator.provider.userAudioBytes;
    if |coordinator.session.pending| != 0 {
      return trace, Broken(PendingAcknowledgements), at;
    }
    var failure := coordinator.BeginFinalize(script[at].sendSucceeds);
    AskingStep(script, at, log, coordinator.provider.log);
    if bytes != 0 {
      AskingOnce(log);
    }
    if failure.Some? {
      return trace, Broken(failure.value), at;
    }
    var sawResult;
    trace, sawResult, failure, ended := Drain(coordinator, acceptedAudio, script, at, before,
                                                 if bytes != 0 then Some(|log|) else None);
    if failure.Some? {
      return trace, Broken(failure.value), ended;
    }
    QuietFacts(coordinator, trace, acceptedAudio);
    var requested := if sawResult then Flushed else if acceptedAudio then FinalizeStatus.Timeout else NoProvider;
    var completed := coordinator.session.CompleteFinalize(requested);
    if completed.Err? {
      return trace, Broken(DomainRejected), ended;
    }
    if !WireConsistent(completed.value) {
      return trace, Broken(Unserializable), ended;
    }
    if ended < |script| && !script[ended].delivered {
      return trace, Broken(TransportClosed), ended;
    }
    Append(trace, FinalizeComplete(completed.value));
    trace := trace + [FinalizeComplete(completed.value)];
    ending := Finished(completed.value);
  }

  /** Relays provider events until the provider or the deadline ends the wait. */
  method Drain(coordinator: Coordinator, acceptedAudio: bool, script: seq<Input>, at: nat, before: seq<Observable>, ghost asked: Option<nat>)
    returns (trace: seq<Observable>, sawResult: bool, failure: Option<Failure>, ended: nat)
    requires Quiet(coordinator, before, acceptedAudio) && coordinator.session.phase == Finalizing && !coordinator.session.resultObserved
    requires at < |script| && Records(script[..at + 1], coordinator.provider.log)
    requires asked.Some? ==> AsksOnce(coordinator.provider.log, asked.value)
    requires forall i :: 0 <= i < |script| && script[i].ProviderMessage? ==> Parsed(script[i].message)
    modifies coordinator`accepted, coordinator.session, coordinator.timeline, coordinator.provider
    ensures Sound(trace) && AckCount(trace) == AckCount(before)
    ensures coordinator.Logged() && RecordedUpTo(script, ended, coordinator.provider.log)
    ensures Delivered(coordinator, trace, failure == Some(TransportClosed) && ended < |script| && script[ended].ProviderMessage?)
    ensures at < ended <= |script|
    ensures forall i :: at < i < ended ==> script[i].ProviderMessage?
    ensures asked.Some? ==> AsksOnce(coordinator.provider.log, asked.value)
    ensures failure.Some? ==> ended < |script| && BreaksDrain(script[ended], failure.value)
    ensures failure.None? ==>
              && Quiet(coordinator, trace, acceptedAudio) && coordinator.session.phase == Finalizing
              && sawResult == coordinator.session.resultObserved
              && (ended == |script| || EndsDrain(script[ended]))
  {
    hide Sound, Parsed, Quiet, Records, AsksOnce, LogOk, EvidenceCount, TranscriptsOf, Recorded, AckCount, SentOf, TurnsOk, Observed;
    trace, sawResult, failure := before, false, None;
    for i := at + 1 to |script|
      invariant Quiet(coordinator, trace, acceptedAudio) && coordinator.session.phase == Finalizing
      invariant sawResult == coordinator.session.resultObserved
      invariant AckCount(trace) == AckCount(before)
      invariant Records(script[..i], coordinator.provider.log)
      invariant forall k :: at < k < i ==> script[k].ProviderMessage?
      invariant failure.None?
      invariant asked.Some? ==> AsksOnce(coordinator.provider.log, asked.value)
    {
      ended := i;
      QuietFacts(coordinator, trace, acceptedAudio);
      ghost var log := coordinator.provider.log;
      match script[i]
      case ProviderMessage(_, _) =>
        var observed;
        trace, observed, failure := ServeProvider(coordinator, script[i], trace, acceptedAudio);
        assert coordinator.provider.log == log + [coordinator.provider.log[|log|]];
        ScriptStep(script, i, log, coordinator.provider.log[|log|]);
        if asked.Some? {
          StillAsksOnce(log, asked.value, coordinator.provider.log[|log|]);
        }
        if failure.Some? {
          return;
        }
        sawResult := sawResult || observed;
      case ProviderFailure =>
        failure := Some(RecognitionFailed);
        return;
      case ProviderEnded(_) =>
        return;
      case Deadline(_) =>
        return;
      case ClientGone =>
        failure := Some(TransportClosed);
        return;
      case ClientClose =>
        failure := Some(TransportClosed);
        return;
      case _ =>
        failure := Some(InvalidCommand);
        return;
    }
    QuietFacts(coordinator, trace, acceptedAudio);
    ended := |script|;
  }
}
