/**
 Deterministic state of one live session (crates/voicetext-speech/src/domain/live.rs).
 */
module LiveSession {
  import opened Base

  const MAX_PENDING_AUDIO_SEQUENCES: nat := 256

  datatype Phase = AwaitingReady | Streaming | Finalizing | Finalized | Closed | Failed

  datatype FinalizeStatus = Flushed | NoProvider | Timeout

  datatype SessionError =
    | InvalidTransition
    | PendingAudioLimitReached
    | AudioSequenceExhausted
    | UnknownAudioSequence
    | ProviderWriteAlreadyConfirmed
    | ProviderWriteNotConfirmed
    | FinalizeHasPendingAudio
    | FlushedWithoutResult
    | NoProviderAfterAudio
    | NoProviderAfterResult

  datatype Reply<+T> = Ok(value: T) | Err(error: SessionError)

  datatype FinalizeOutcome = FinalizeOutcome(status: FinalizeStatus, sawResult: bool)

  /** What the wire contract accepts as finalize evidence (contracts/live_outbound.rs). */
  predicate WireConsistent(outcome: FinalizeOutcome) {
    (outcome.status.Flushed? ==> outcome.sawResult) && (outcome.status.NoProvider? ==> !outcome.sawResult)
  }

  class Session {
    var phase: Phase
    var pending: set<nat>
    var written: set<nat>
    var lastSequence: nat
    var acceptedAudio: bool
    var resultObserved: bool

    /** Only frames that await their ACK can be provider-written, and nothing awaits one while finalizing. */
    predicate Valid()
      reads this
    {
      && written <= pending
      && |pending| <= MAX_PENDING_AUDIO_SEQUENCES
      && (forall s :: s in pending ==> 1 <= s <= lastSequence)
      && lastSequence <= U64_MAX
      && (acceptedAudio <==> lastSequence > 0)
      && (phase.Finalizing? || phase.Finalized? ==> pending == {})
    }

    constructor ()
      ensures Valid() && phase == AwaitingReady && pending == {} && written == {} && lastSequence == 0
      ensures !acceptedAudio && !resultObserved
    {
      phase := AwaitingReady;
      pending, written, lastSequence := {}, {}, 0;
      acceptedAudio, resultObserved := false, false;
    }

    method MarkReady() returns (r: Reply<()>)
      requires Valid()
      modifies this`phase
      ensures Valid()
      ensures if old(phase).AwaitingReady? then r == Ok(()) && phase == Streaming
              else r == Err(InvalidTransition) && phase == old(phase)
    {
      if !phase.AwaitingReady? {
        return Err(InvalidTransition);
      }
      phase := Streaming;
      r := Ok(());
    }

    /** Assigns the next positive sequence number; a rejected call changes nothing. */
    method AcceptAudio() returns (r: Reply<nat>)
      requires Valid()
      modifies this`pending, this`lastSequence, this`acceptedAudio
      ensures Valid()
      ensures r.Ok? <==> phase.Streaming? && |old(pending)| < MAX_PENDING_AUDIO_SEQUENCES && old(lastSequence) < U64_MAX
      ensures r.Ok? ==>
                && r.value == lastSequence == old(lastSequence) + 1
                && r.value !in old(pending) && pending == old(pending) + {r.value} && acceptedAudio
      ensures r.Err? ==> pending == old(pending) && lastSequence == old(lastSequence) && acceptedAudio == old(acceptedAudio)
    {
      if !phase.Streaming? {
        return Err(InvalidTransition);
      }
      if |pending| == MAX_PENDING_AUDIO_SEQUENCES {
        return Err(PendingAudioLimitReached);
      }
      if lastSequence == U64_MAX {
        return Err(AudioSequenceExhausted);
      }
      lastSequence := lastSequence + 1;
      pending := pending + {lastSequence};
      acceptedAudio := true;
      r := Ok(lastSequence);
    }

    method MarkProviderWriteSucceeded(sequence: nat) returns (r: Reply<()>)
      requires Valid()
      modifies this`written
      ensures Valid()
      ensures r.Ok? <==> phase.Streaming? && sequence in pending && sequence !in old(written)
      ensures written == if r.Ok? then old(written) + {sequence} else old(written)
    {
      if !phase.Streaming? {
        return Err(InvalidTransition);
      }
      if sequence !in pending {
        return Err(UnknownAudioSequence);
      }
      if sequence in written {
        return Err(ProviderWriteAlreadyConfirmed);
      }
      written := written + {sequence};
      r := Ok(());
    }

    /** An ACK is possible exactly for a pending frame whose provider write succeeded. */
    method MarkAckSent(sequence: nat) returns (r: Reply<()>)
      requires Valid()
      modifies this`pending, this`written
      ensures Valid()
      ensures r.Ok? <==> phase.Streaming? && sequence in old(written)
      ensures pending == if r.Ok? then old(pending) - {sequence} else old(pending)
      ensures written == if r.Ok? then old(written) - {sequence} else old(written)
    {
      if !phase.Streaming? {
        return Err(InvalidTransition);
      }
      if sequence !in pending {
        return Err(UnknownAudioSequence);
      }
      if sequence !in written {
        return Err(ProviderWriteNotConfirmed);
      }
      written := written - {sequence};
      pending := pending - {sequence};
      r := Ok(());
    }

    method BeginFinalize() returns (r: Reply<()>)
      requires Valid()
      modifies this`phase, this`resultObserved
      ensures Valid()
      ensures r.Ok? <==> old(phase).Streaming? && pending == {}
      ensures r.Ok? ==> phase == Finalizing && !resultObserved
      ensures r.Err? ==> phase == old(phase) && resultObserved == old(resultObserved)
    {
      if !phase.Streaming? {
        return Err(InvalidTransition);
      }
      if pending != {} {
        return Err(FinalizeHasPendingAudio);
      }
      resultObserved := false;
      phase := Finalizing;
      r := Ok(());
    }

    method MarkFinalizeResultObserved() returns (r: Reply<()>)
      requires Valid()
      modifies this`resultObserved
      ensures Valid()
      ensures r.Ok? <==> phase.Finalizing?
      ensures resultObserved == (r.Ok? || old(resultObserved))
    {
      if !phase.Finalizing? {
        return Err(InvalidTransition);
      }
      resultObserved := true;
      r := Ok(());
    }

    /** A completed finalize is always one the wire contract can carry. */
    method CompleteFinalize(status: FinalizeStatus) returns (r: Reply<FinalizeOutcome>)
      requires Valid()
      modifies this`phase
      ensures Valid()
      ensures r.Ok? <==>
                && old(phase).Finalizing?
                && (status.Flushed? ==> resultObserved)
                && (status.NoProvider? ==> !acceptedAudio && !resultObserved)
      ensures r.Ok? ==> phase == Finalized && r.value == FinalizeOutcome(status, resultObserved) && WireConsistent(r.value)
      ensures r.Err? ==> phase == old(phase)
    {
      if !phase.Finalizing? {
        return Err(InvalidTransition);
      }
      if status.Flushed? && !resultObserved {
        return Err(FlushedWithoutResult);
      }
      if status.NoProvider? && acceptedAudio {
        return Err(NoProviderAfterAudio);
      }
      if status.NoProvider? && resultObserved {
        return Err(NoProviderAfterResult);
      }
      phase := Finalized;
      r := Ok(FinalizeOutcome(status, resultObserved));
    }

    method Close() returns (r: Reply<()>)
      requires Valid()
      modifies this`phase
      ensures Valid()
      ensures r.Ok? <==> !old(phase).Closed? && !old(phase).Failed?
      ensures phase == if r.Ok? then Closed else old(phase)
    {
      if phase.Closed? || phase.Failed? {
        return Err(InvalidTransition);
      }
      phase := Closed;
      r := Ok(());
    }

    method Fail() returns (r: Reply<()>)
      requires Valid()
      modifies this`phase
      ensures Valid()
      ensures r.Ok? <==> !old(phase).Closed? && !old(phase).Failed?
      ensures phase == if r.Ok? then Failed else old(phase)
    {
      if phase.Closed? || phase.Failed? {
        return Err(InvalidTransition);
      }
      phase := Failed;
      r := Ok(());
    }
  }
}
