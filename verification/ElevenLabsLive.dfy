/**
 The ElevenLabs live adapter's state: it ignores provider timing and synthesizes a timeline from
 the audio that was written (crates/voicetext-providers/src/elevenlabs/live_state.rs).
 */
module ElevenLabsLive {
  import opened Base
  import opened Arithmetic
  import opened LiveText
  import opened LiveTimeline
  import opened LiveLog

  /** The audio clock never runs backwards. */
  lemma {:induction false} ClockMonotone(bytes: nat, more: nat, rate: nat)
    requires bytes <= more
    ensures UserAudioMillis(bytes, rate) <= UserAudioMillis(more, rate)
  {
    if rate > 0 {
      DivMonotone(Min(bytes * 1000, U64_MAX), Min(more * 1000, U64_MAX), rate * BYTES_PER_SAMPLE);
    }
  }

  /** The adapter's clock is the validator's horizon until it saturates, and never passes it. */
  lemma {:induction false} ClockWithinHorizon(frames: nat, rate: nat)
    requires rate > 0
    ensures UserAudioMillis(frames * 2, rate) <= frames * 1000 / rate
    ensures frames * 2000 <= U64_MAX ==> UserAudioMillis(frames * 2, rate) == frames * 1000 / rate
  {
    var millis := frames * 1000;
    DivMonotone(Min(millis * 2, U64_MAX), millis * 2, rate * 2);
    HalvedQuotient(millis, rate);
  }

  function Queued(pending: seq<LiveEvent>): seq<LiveEvent> {
    (if |pending| == MAX_PENDING_EVENTS then pending[1..] else pending) + [FinalizeResultObserved]
  }

  /** A text with words does not trim to nothing. */
  lemma {:induction false} BlankTrims(a: Alphabet, text: string)
    requires a.Lawful()
    ensures Words(a, text) != [] ==> Trim(a, text) != ""
    ensures text == "" ==> Trim(a, text) == ""
  {
    WordsTrim(a, text);
    NoWords(a);
  }

  lemma {:induction false} NoWords(a: Alphabet)
    ensures Words(a, "") == []
  {
  }

  class LiveState {
    const alphabet: Alphabet
    const sampleRateHz: nat
    var userAudioBytes: nat
    var boundary: nat
    var segmentEnd: nat
    var committedEnd: nat
    var finalizing: bool
    var stableText: string
    var recentStable: Recent
    var recentCommitted: Recent
    var pending: seq<LiveEvent>
    var providerReference: Option<string>

    /** The words of all finals emitted since the last commit. */
    ghost var emitted: seq<string>

    /** Everything written, heard and handed out so far. */
    ghost var log: seq<Entry>

    function Clock(): nat
      reads this
    {
      UserAudioMillis(userAudioBytes, sampleRateHz)
    }

    /** No final emitted so far ends after this point. */
    function Floor(): nat
      reads this
    {
      if stableText == "" then committedEnd else segmentEnd
    }

    ghost function Remembering(): Memory
      reads this
    {
      Memory(emitted, boundary, recentStable, recentCommitted, userAudioBytes, segmentEnd, finalizing, |pending|)
    }

    ghost predicate Valid()
      reads this
    {
      Sane() && Recorded(alphabet, sampleRateHz, log, Remembering())
    }

    lemma {:induction false} Reads()
      requires Valid()
      ensures LogOk(alphabet, sampleRateHz, log) && PendingIn(log) == |pending| && BytesOf(log) == userAudioBytes
    {
    }

    ghost predicate Sane()
      reads this
    {
      && alphabet.Lawful()
      && userAudioBytes <= U64_MAX && boundary <= U64_MAX
      && committedEnd <= segmentEnd <= Clock()
      && (stableText == "" ==> segmentEnd == committedEnd)
      && (stableText != "" ==> Words(alphabet, stableText) != [])
      && emitted == Words(alphabet, stableText)
      && |pending| <= MAX_PENDING_EVENTS
      && (forall i :: 0 <= i < |pending| ==> pending[i] == FinalizeResultObserved)
    }

    constructor (alphabet: Alphabet, sampleRateHz: nat, reference: Option<string>)
      requires alphabet.Lawful()
      ensures Valid() && this.alphabet == alphabet && this.sampleRateHz == sampleRateHz
      ensures userAudioBytes == 0 && pending == [] && !finalizing && Floor() == 0 && log == []
    {
      this.alphabet := alphabet;
      this.sampleRateHz := sampleRateHz;
      userAudioBytes, boundary, segmentEnd, committedEnd := 0, 0, 0, 0;
      finalizing := false;
      stableText := "";
      recentStable, recentCommitted, pending := [], [], [];
      providerReference := reference;
      emitted, log := [], [];
    }

    method RecordAudio(bytes: nat)
      requires Valid()
      modifies this`userAudioBytes, this`boundary, this`log
      ensures Valid() && Floor() == old(Floor()) && log == old(log) + [AudioWritten(bytes)]
      ensures userAudioBytes == Min(old(userAudioBytes) + bytes, U64_MAX)
      ensures boundary == Min(old(boundary) + 1, U64_MAX)
    {
      hide Recorded, UserAudioMillis;
      ClockMonotone(userAudioBytes, Min(userAudioBytes + bytes, U64_MAX), sampleRateHz);
      userAudioBytes := Min(userAudioBytes + bytes, U64_MAX);
      boundary := Min(boundary + 1, U64_MAX);
      AudioRecorded(alphabet, sampleRateHz, log, old(Remembering()), bytes);
      log := log + [AudioWritten(bytes)];
    }

    method BeginFinalize()
      requires Valid()
      modifies this`finalizing, this`log
      ensures Valid() && finalizing == (userAudioBytes != 0) && log == old(log) + [FinalizeAsked]
    {
      hide Recorded;
      finalizing := userAudioBytes != 0;
      FinalizeRecorded(alphabet, sampleRateHz, log, old(Remembering()));
      log := log + [FinalizeAsked];
    }

    method CancelFinalize()
      requires Valid()
      modifies this`finalizing, this`log
      ensures Valid() && !finalizing && log == old(log) + [FinalizeDropped]
    {
      hide Recorded;
      finalizing := false;
      FinalizeRecorded(alphabet, sampleRateHz, log, old(Remembering()));
      log := log + [FinalizeDropped];
    }

    method PopPending() returns (event: Option<LiveEvent>)
      requires Valid()
      modifies this`pending, this`log
      ensures Valid()
      ensures if old(pending) == [] then event == None && pending == [] && log == old(log)
              else event == Some(FinalizeResultObserved) && pending == old(pending)[1..] && log == old(log) + [Evidence]
    {
      hide Recorded, Words, UserAudioMillis;
      if pending == [] {
        return None;
      }
      event := Some(pending[0]);
      pending := pending[1..];
      EvidenceRecorded(alphabet, sampleRateHz, log, old(Remembering()));
      log := log + [Evidence];
    }

    /** One provider message: the event is the one the history calls for, and both go into the log. */
    method Apply(message: Message) returns (event: Option<LiveEvent>)
      requires Valid()
      modifies this
      ensures Valid() && log == old(log) + [Heard(message, event)]
      ensures userAudioBytes == old(userAudioBytes) && boundary == old(boundary)
      ensures Timed(old(Floor()), message, event)
      ensures FinalizeEvidence(message, old(finalizing), old(pending), event)
      ensures Reacts(alphabet, sampleRateHz, old(Remembering()), message, event)
      ensures Takes(alphabet, sampleRateHz, old(Remembering()), message, event, Remembering())
      ensures !message.TranscriptMessage? ==> emitted == old(emitted) && stableText == old(stableText)
    {
      hide Recorded, Reacts, Takes;
      event := React(message);
      MessageRecorded(alphabet, sampleRateHz, log, old(Remembering()), message, event, Remembering());
      log := log + [Heard(message, event)];
    }

    method React(message: Message) returns (event: Option<LiveEvent>)
      requires Sane()
      modifies this
      ensures Sane() && log == old(log)
      ensures userAudioBytes == old(userAudioBytes) && boundary == old(boundary)
      ensures Timed(old(Floor()), message, event)
      ensures FinalizeEvidence(message, old(finalizing), old(pending), event)
      ensures Reacts(alphabet, sampleRateHz, old(Remembering()), message, event)
      ensures Takes(alphabet, sampleRateHz, old(Remembering()), message, event, Remembering())
      ensures !message.TranscriptMessage? ==> emitted == old(emitted) && stableText == old(stableText)
    {
      hide Words, Normalize, UserAudioMillis, Contains, Remember;
      match message
      case SessionStarted(reference) =>
        if reference.Some? {
          providerReference := reference;
        }
        event := None;
      case TranscriptMessage(kind, text, confidence) =>
        match kind {
          case Partial => event := ApplyPartial(text, confidence);
          case SegmentFinal => event := ApplySegmentFinal(text, confidence);
          case UtteranceFinal => event := ApplyUtteranceFinal(text, confidence);
        }
      case _ =>
        event := None;
    }

    /** Every emitted transcript ends at the audio clock, and finals never start before the last final's end. */
    predicate Timed(floor: nat, message: Message, event: Option<LiveEvent>)
      reads this
    {
      && floor <= Floor() <= Clock()
      && (event.Some? ==> !event.value.UtteranceEnd?)
      && (event.Some? && event.value.TranscriptEvent? ==>
            var t := event.value.transcript;
            && message.TranscriptMessage? && t.stability == message.kind && t.confidence == message.confidence
            && Utf8Length(t.text) <= Utf8Length(message.text)
            && EndOf(t) == Clock()
            && (!t.stability.Partial? ==> floor <= t.startMillis && Floor() == Clock()))
    }

    /**
     The first commit after a finalize request, and nothing else, yields finalize evidence: at once if
     the commit has nothing to say, queued behind its transcript otherwise.
     */
    predicate FinalizeEvidence(message: Message, wasFinalizing: bool, wasPending: seq<LiveEvent>, event: Option<LiveEvent>)
      reads this
    {
      var commit := message.TranscriptMessage? && message.kind.UtteranceFinal?;
      && finalizing == (wasFinalizing && !commit)
      && (event == Some(FinalizeResultObserved) ==> wasFinalizing && commit)
      && (wasFinalizing && commit ==> event.Some?)
      && pending == (if wasFinalizing && commit && event != Some(FinalizeResultObserved) then Queued(wasPending) else wasPending)
    }

    method ApplyPartial(text: string, confidence: Option<real>) returns (event: Option<LiveEvent>)
      requires Sane()
      ensures Timed(Floor(), TranscriptMessage(Partial, text, confidence), event)
      ensures Reacts(alphabet, sampleRateHz, Remembering(), TranscriptMessage(Partial, text, confidence), event)
      ensures event != Some(FinalizeResultObserved)
    {
      hide Words, Normalize, UserAudioMillis;
      NormalizeIsJoinedWords(alphabet, text);
      if Normalize(alphabet, text) == "" {
        return None;
      }
      var start := Max(segmentEnd, committedEnd);
      event := Some(TranscriptEvent(Transcript(text, start, Clock() - start, confidence, Partial)));
    }

    method ApplySegmentFinal(text: string, confidence: Option<real>) returns (event: Option<LiveEvent>)
      requires Sane()
      modifies this`segmentEnd, this`recentStable, this`stableText, this`emitted
      ensures Sane()
      ensures Timed(old(Floor()), TranscriptMessage(SegmentFinal, text, confidence), event)
      ensures Reacts(alphabet, sampleRateHz, old(Remembering()), TranscriptMessage(SegmentFinal, text, confidence), event)
      ensures Takes(alphabet, sampleRateHz, old(Remembering()), TranscriptMessage(SegmentFinal, text, confidence), event, Remembering())
      ensures event != Some(FinalizeResultObserved)
    {
      hide Words, Normalize, UserAudioMillis, Remember, Contains, AppendStable;
      var key := Normalize(alphabet, text);
      NormalizeIsJoinedWords(alphabet, text);
      if key == "" || Contains(recentStable, boundary, key) {
        return None;
      }
      var start := Max(segmentEnd, committedEnd);
      segmentEnd := Max(Clock(), start);
      recentStable := Remember(recentStable, boundary, key);
      WordsAppendStable(alphabet, stableText, text);
      NoWords(alphabet);
      stableText := AppendStable(alphabet, stableText, text);
      emitted := emitted + Words(alphabet, text);
      event := Some(TranscriptEvent(Transcript(text, start, segmentEnd - start, confidence, SegmentFinal)));
    }

    /** What a commit still has to say: what follows the emitted words, if it is new and they are a proper prefix. */
    method ReconcileCommit(text: string, end: nat) returns (result: Option<string>, start: nat)
      requires Sane() && committedEnd <= end && segmentEnd <= end
      ensures var words := Words(alphabet, text);
              && (result.Some? <==> !Contains(recentCommitted, boundary, Normalize(alphabet, text)) && emitted < words)
              && (result.Some? ==>
                    && Words(alphabet, result.value) == words[|emitted|..] && (emitted == [] ==> result.value == text)
                    && Utf8Length(result.value) <= Utf8Length(text) && start == segmentEnd)
      ensures start <= end
    {
      hide Words, Normalize, Trim, Utf8Length;
      var key := Normalize(alphabet, text);
      NormalizeIsJoinedWords(alphabet, text);
      NoWords(alphabet);
      var stableBoundary := Max(committedEnd, Min(segmentEnd, end));
      var reconciliation := CommittedSuffix(alphabet, text, stableText);
      var hadStable := Trim(alphabet, stableText) != "";
      WordsTrim(alphabet, stableText);
      BlankTrims(alphabet, stableText);
      var duplicate :=
        || key == ""
        || Contains(recentCommitted, boundary, key)
        || reconciliation == Some("")
        || (hadStable && reconciliation.None?);
      var resultText;
      resultText, start := text, committedEnd;
      if reconciliation.Some? && reconciliation.value != "" {
        resultText, start := reconciliation.value, stableBoundary;
        assert (emitted + Words(alphabet, resultText))[|emitted|..] == Words(alphabet, resultText);
      } else if emitted == [] {
        assert Words(alphabet, text)[0..] == Words(alphabet, text);
      }
      result := if duplicate then None else Some(resultText);
    }

    method ApplyUtteranceFinal(text: string, confidence: Option<real>) returns (event: Option<LiveEvent>)
      requires Sane()
      modifies this`segmentEnd, this`committedEnd, this`recentCommitted, this`stableText, this`finalizing, this`pending, this`emitted
      ensures Sane()
      ensures Timed(old(Floor()), TranscriptMessage(UtteranceFinal, text, confidence), event)
      ensures FinalizeEvidence(TranscriptMessage(UtteranceFinal, text, confidence), old(finalizing), old(pending), event)
      ensures Reacts(alphabet, sampleRateHz, old(Remembering()), TranscriptMessage(UtteranceFinal, text, confidence), event)
      ensures Takes(alphabet, sampleRateHz, old(Remembering()), TranscriptMessage(UtteranceFinal, text, confidence), event, Remembering())
    {
      hide Words, Normalize, UserAudioMillis, Contains, Remember, Utf8Length, Reacts, Takes;
      var result, start := Settle(text);
      event := None;
      if result.Some? {
        event := Some(TranscriptEvent(Transcript(result.value, start, segmentEnd - start, confidence, UtteranceFinal)));
      }
      event := AnswerFinalize(event);
      CommitReacts(alphabet, sampleRateHz, old(Remembering()), TranscriptMessage(UtteranceFinal, text, confidence), result, segmentEnd,
                   event, Remembering());
    }

    /** A commit closes the utterance: both cursors move to the clock and nothing is stable any more. */
    method Settle(text: string) returns (result: Option<string>, start: nat)
      requires Sane()
      modifies this`segmentEnd, this`committedEnd, this`recentCommitted, this`stableText, this`emitted
      ensures Sane() && segmentEnd == committedEnd == Clock() && stableText == "" && emitted == []
      ensures var key := Normalize(alphabet, text);
              recentCommitted == if key != "" then Remember(old(recentCommitted), boundary, key) else old(recentCommitted)
      ensures start <= Clock()
      ensures var words, before := Words(alphabet, text), old(emitted);
              && (result.Some? <==> !Contains(old(recentCommitted), boundary, Normalize(alphabet, text)) && before < words)
              && (result.Some? ==>
                    && Words(alphabet, result.value) == words[|before|..] && (before == [] ==> result.value == text)
                    && Utf8Length(result.value) <= Utf8Length(text) && start == old(segmentEnd))
    {
      hide Words, Normalize, UserAudioMillis, Contains, Remember, Utf8Length;
      NoWords(alphabet);
      var key := Normalize(alphabet, text);
      var end := Max(Clock(), committedEnd);
      result, start := ReconcileCommit(text, end);
      committedEnd := end;
      segmentEnd := end;
      if key != "" {
        recentCommitted := Remember(recentCommitted, boundary, key);
      }
      stableText := "";
      emitted := [];
    }

    /** A commit answers a finalize that is under way, after its own transcript if it has one. */
    method AnswerFinalize(transcript: Option<LiveEvent>) returns (event: Option<LiveEvent>)
      requires |pending| <= MAX_PENDING_EVENTS
      modifies this`finalizing, this`pending
      ensures !finalizing && |pending| <= MAX_PENDING_EVENTS
      ensures event == if old(finalizing) && transcript.None? then Some(FinalizeResultObserved) else transcript
      ensures pending == if old(finalizing) && transcript.Some? then Queued(old(pending)) else old(pending)
    {
      event := transcript;
      if finalizing {
        if event.Some? {
          pending := Queued(pending);
        } else {
          event := Some(FinalizeResultObserved);
        }
      }
      finalizing := false;
    }
  }
}
