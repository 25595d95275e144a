/**
 The lifecycle of one provider-bound batch job
 (crates/voicetext-speech/src/domain/batch.rs).

 `JobState` and the functions on it say what each transition does; the class `BatchJob` is the
 object whose methods assign the state in place.
 */
module BatchDomain {
  import opened Base

  /** Canonical job UUIDs, in the order in which the ledger sorts them. */
  type JobId = nat

  /** A numbered provider submission: a non-zero 32-bit counter. */
  type Attempt = n: nat | 1 <= n <= U32_MAX witness 1

  datatype Profile = Profile(contractVersion: nat, provider: string, model: string, language: string)

  type Fingerprint = Bytes

  datatype UnknownOutcome = Submission(code: string) | InterruptedSubmission

  datatype JobState =
    | Accepted
    | Submitting(attempt: Attempt)
    | Retryable(attempt: Attempt, code: string)
    | Completed(attempt: Attempt)
    | Failed(attempt: Attempt, code: string)
    | OutcomeUnknown(attempt: Attempt, reason: UnknownOutcome)
  {
    predicate IsTerminal() {
      Completed? || Failed? || OutcomeUnknown?
    }

    predicate IsActionable() {
      Accepted? || Retryable?
    }

    /** Submissions begun so far. */
    function Attempts(): nat {
      if Accepted? then 0 else attempt
    }
  }

  datatype Transition = Moved(state: JobState) | InvalidTransition | AttemptOverflow

  function AfterBeginSubmission(state: JobState): Transition {
    match state
    case Accepted => Moved(Submitting(1))
    case Retryable(attempt, _) =>
      if attempt == U32_MAX then AttemptOverflow else Moved(Submitting(attempt + 1))
    case _ => InvalidTransition
  }

  function AfterRecordRetryable(state: JobState, code: string): Transition {
    if state.Submitting? then Moved(Retryable(state.attempt, code)) else InvalidTransition
  }

  function AfterComplete(state: JobState): Transition {
    if state.Submitting? then Moved(Completed(state.attempt)) else InvalidTransition
  }

  function AfterFail(state: JobState, code: string): Transition {
    if state.Submitting? then Moved(Failed(state.attempt, code)) else InvalidTransition
  }

  function AfterRecordUnknown(state: JobState, code: string): Transition {
    if state.Submitting? then Moved(OutcomeUnknown(state.attempt, Submission(code))) else InvalidTransition
  }

  function AfterRecoverInterrupted(state: JobState): JobState {
    if state.Submitting? then OutcomeUnknown(state.attempt, InterruptedSubmission) else state
  }

  /** The edges of the lifecycle, independent of the operation that takes them. */
  predicate Edge(before: JobState, after: JobState) {
    || (before.IsActionable() && after.Submitting? && after.attempt == before.Attempts() + 1)
    || (before.Submitting? && !after.Submitting? && !after.Accepted? && after.attempt == before.attempt)
  }

  /** Every operation takes an edge of the lifecycle, and none leaves a terminal state. */
  lemma {:induction false} OperationsFollowEdges(state: JobState, code: string, next: JobState)
    requires
      || AfterBeginSubmission(state) == Moved(next)
      || AfterRecordRetryable(state, code) == Moved(next)
      || AfterComplete(state) == Moved(next)
      || AfterFail(state, code) == Moved(next)
      || AfterRecordUnknown(state, code) == Moved(next)
      || (AfterRecoverInterrupted(state) == next && next != state)
    ensures Edge(state, next) && !state.IsTerminal()
  {
  }

  class BatchJob {
    const profile: Profile
    const fingerprint: Fingerprint
    var state: JobState

    constructor Accept(profile: Profile, fingerprint: Fingerprint)
      ensures this.profile == profile && this.fingerprint == fingerprint && state == Accepted
    {
      this.profile := profile;
      this.fingerprint := fingerprint;
      state := Accepted;
    }

    constructor Restore(profile: Profile, fingerprint: Fingerprint, state: JobState)
      ensures this.profile == profile && this.fingerprint == fingerprint && this.state == state
    {
      this.profile := profile;
      this.fingerprint := fingerprint;
      this.state := state;
    }

    method BeginSubmission() returns (t: Transition)
      modifies this`state
      ensures t == AfterBeginSubmission(old(state))
      ensures state == if t.Moved? then t.state else old(state)
      ensures t.Moved? <==> old(state).IsActionable() && old(state).Attempts() < U32_MAX
      ensures t.Moved? ==> state.Submitting? && state.attempt == old(state).Attempts() + 1
      ensures t.AttemptOverflow? <==> old(state).Retryable? && old(state).attempt == U32_MAX
    {
      match state
      case Accepted =>
        state := Submitting(1);
        return Moved(state);
      case Retryable(attempt, _) =>
        if attempt == U32_MAX {
          return AttemptOverflow;
        }
        state := Submitting(attempt + 1);
        return Moved(state);
      case _ =>
        return InvalidTransition;
    }

    method RecordRetryable(code: string) returns (t: Transition)
      modifies this`state
      ensures t == AfterRecordRetryable(old(state), code)
      ensures t.Moved? <==> old(state).Submitting?
      ensures state == if t.Moved? then Retryable(old(state).attempt, code) else old(state)
    {
      if !state.Submitting? {
        return InvalidTransition;
      }
      state := Retryable(state.attempt, code);
      t := Moved(state);
    }

    method Complete() returns (t: Transition)
      modifies this`state
      ensures t == AfterComplete(old(state))
      ensures t.Moved? <==> old(state).Submitting?
      ensures state == if t.Moved? then Completed(old(state).attempt) else old(state)
    {
      if !state.Submitting? {
        return InvalidTransition;
      }
      state := Completed(state.attempt);
      t := Moved(state);
    }

    method Fail(code: string) returns (t: Transition)
      modifies this`state
      ensures t == AfterFail(old(state), code)
      ensures t.Moved? <==> old(state).Submitting?
      ensures state == if t.Moved? then Failed(old(state).attempt, code) else old(state)
    {
      if !state.Submitting? {
        return InvalidTransition;
      }
      state := Failed(state.attempt, code);
      t := Moved(state);
    }

    method RecordUnknown(code: string) returns (t: Transition)
      modifies this`state
      ensures t == AfterRecordUnknown(old(state), code)
      ensures t.Moved? <==> old(state).Submitting?
      ensures state == if t.Moved? then OutcomeUnknown(old(state).attempt, Submission(code)) else old(state)
    {
      if !state.Submitting? {
        return InvalidTransition;
      }
      state := OutcomeUnknown(state.attempt, Submission(code));
      t := Moved(state);
    }

    /** Repeated recovery is idempotent: only the first call on a submission moves. */
    method RecoverInterruptedSubmission() returns (moved: bool)
      modifies this`state
      ensures state == AfterRecoverInterrupted(old(state))
      ensures moved <==> old(state).Submitting?
      ensures state == if moved then OutcomeUnknown(old(state).attempt, InterruptedSubmission) else old(state)
      ensures !state.Submitting? && AfterRecoverInterrupted(state) == state
    {
      if !state.Submitting? {
        return false;
      }
      state := OutcomeUnknown(state.attempt, InterruptedSubmission);
      moved := true;
    }
  }
}
