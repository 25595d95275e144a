/**
 The state columns of a ledger row (`flatten_state` and `restore_state` in
 crates/voicetext-gateway/src/storage/records.rs). Which failure codes are well-formed is a
 parameter.
 */
module RecordState {
  import opened Base
  import opened BatchDomain

  datatype Columns = Columns(state: string, attempt: Option<int>, failureCode: Option<string>, unknownReason: Option<string>)

  function FlattenState(state: JobState): Columns {
    match state
    case Accepted => Columns("accepted", None, None, None)
    case Submitting(attempt) => Columns("submitting", Some(attempt), None, None)
    case Retryable(attempt, code) => Columns("retryable", Some(attempt), Some(code), None)
    case Completed(attempt) => Columns("completed", Some(attempt), None, None)
    case Failed(attempt, code) => Columns("failed", Some(attempt), Some(code), None)
    case OutcomeUnknown(attempt, Submission(code)) => Columns("outcome_unknown", Some(attempt), Some(code), Some("submission"))
    case OutcomeUnknown(attempt, InterruptedSubmission) =>
      Columns("outcome_unknown", Some(attempt), None, Some("interrupted_submission"))
  }

  /** Any combination that no state has is refused. */
  function RestoreState(validCode: string -> bool, c: Columns): Option<JobState> {
    if c.attempt.Some? && !(1 <= c.attempt.value <= U32_MAX) then None
    else if c.failureCode.Some? && !validCode(c.failureCode.value) then None
    else if c.attempt.None? then
      if c.state == "accepted" && c.failureCode.None? && c.unknownReason.None? then Some(Accepted) else None
    else
      var attempt: Attempt := c.attempt.value;
      if c.state == "submitting" && c.failureCode.None? && c.unknownReason.None? then Some(Submitting(attempt))
      else if c.state == "retryable" && c.failureCode.Some? && c.unknownReason.None? then Some(Retryable(attempt, c.failureCode.value))
      else if c.state == "completed" && c.failureCode.None? && c.unknownReason.None? then Some(Completed(attempt))
      else if c.state == "failed" && c.failureCode.Some? && c.unknownReason.None? then Some(Failed(attempt, c.failureCode.value))
      else if c.state == "outcome_unknown" && c.failureCode.Some? && c.unknownReason == Some("submission") then
        Some(OutcomeUnknown(attempt, Submission(c.failureCode.value)))
      else if c.state == "outcome_unknown" && c.failureCode.None? && c.unknownReason == Some("interrupted_submission") then
        Some(OutcomeUnknown(attempt, InterruptedSubmission))
      else None
  }

  predicate CodesValid(validCode: string -> bool, state: JobState) {
    match state
    case Retryable(_, code) => validCode(code)
    case Failed(_, code) => validCode(code)
    case OutcomeUnknown(_, Submission(code)) => validCode(code)
    case _ => true
  }

  /** Reading back what was written gives the same state, and only what was written can be read. */
  lemma {:induction false} StateRoundTrip(validCode: string -> bool, state: JobState, c: Columns)
    requires CodesValid(validCode, state)
    ensures RestoreState(validCode, c) == Some(state) <==> c == FlattenState(state)
  {
  }

  /** The words by which the recovery queries select rows name exactly the open states. */
  lemma {:induction false} OpenStatesByName(state: JobState)
    ensures FlattenState(state).state in ["accepted", "retryable", "submitting"] <==> !state.IsTerminal()
    ensures FlattenState(state).state == "submitting" <==> state.Submitting?
    ensures FlattenState(state).state == "accepted" <==> state.Accepted?
    ensures FlattenState(state).state == "completed" <==> state.Completed?
    ensures FlattenState(state).state == "failed" <==> state.Failed?
    ensures FlattenState(state).attempt == if state.Attempts() == 0 then None else Some(state.Attempts())
  {
  }
}
