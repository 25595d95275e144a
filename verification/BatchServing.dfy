/**
 Every row a run can produce can be served (`response_for_snapshot` and `safe_failure_code` in
 crates/voicetext-gateway/src/server/batch.rs, `GatewayBatchResultProjection` in
 crates/voicetext-gateway/src/contracts/batch_projection.rs).
 */
module BatchServing {
  import opened Base
  import opened BatchDomain
  import opened BatchResults
  import opened BatchLedger
  import opened BatchProtocol
  import opened BatchInvariant
  import opened BatchTheorems
  import opened BatchContract
  import opened Keyterms
  import opened Seconds

  const DEFAULT_POLL_MILLIS: nat := 1_000
  const DEFAULT_RETRY_MILLIS: nat := 1_000

  // ---- only projectable results are stored ---------------------------------------------------------

  ghost predicate Projected(env: Env, ledger: Ledger) {
    forall id :: id in ledger && ledger[id].result.Some? ==> env.projects(id, ledger[id].result.value)
  }

  /** A swap whose new row has no result, or a projectable one. */
  lemma {:induction false} SwapProjected(env: Env, ledger: Ledger, id: JobId, expected: nat, replacement: Row)
    requires Projected(env, ledger)
    requires replacement.result.Some? ==> env.projects(id, replacement.result.value)
    ensures Projected(env, CompareAndSwap(ledger, id, expected, replacement).0)
  {
  }

  /** Only the outcome of a recognition brings a result, and it was projected first. */
  lemma {:induction false} OutcomeProjected(env: Env, w: World, p: nat)
    requires WorkerAt(w, p).Answered? && WorkerAt(w, p).row.state.Submitting? && WorkerAt(w, p).row.result.None?
    ensures var worker := WorkerAt(w, p);
            var row := OutcomeOf(worker.row, worker.answer, Projects(env, w, p));
            row.result.Some? ==> env.projects(worker.id, row.result.value)
  {
  }

  lemma {:induction false} StepProjected(env: Env, w: World, a: Action)
    requires Inv(env, w) && Projected(env, w.ledger)
    ensures Projected(env, Apply(env, w, a).ledger)
  {
    hide HistoryOk, VerdictsOk, HeldOnce, ValidResult, LedgerOk, OutcomeOf, CompareAndSwap, WorkersOk, Projects;
    match a
    case Record(p, fault) =>
      var worker := WorkerAt(w, p);
      if worker.Answered? && worker.row.state.Submitting? {
        Knows(env, w, p);
        OutcomeProjected(env, w, p);
        SwapProjected(env, w.ledger, worker.id, worker.row.revision, OutcomeOf(worker.row, worker.answer, Projects(env, w, p)));
      }
    case Claim(p, fault) =>
      var worker := WorkerAt(w, p);
      if worker.Primed? && AfterBeginSubmission(worker.row.state).Moved? {
        SwapProjected(env, w.ledger, worker.id, worker.row.revision, ClaimOf(worker.row, AfterBeginSubmission(worker.row.state).state));
      }
    case Reconcile(p, fault) =>
      var worker := WorkerAt(w, p);
      if worker.Recovering? && worker.queue != [] && worker.queue[0].row.state.Submitting? {
        Knows(env, w, p);
        var Candidate(id, row) := worker.queue[0];
        assert SnapshotOf(w.ledger, worker.queue[0].id, worker.queue[0].row);
        SwapProjected(env, w.ledger, id, row.revision, row.(state := AfterRecoverInterrupted(row.state)));
      }
    case _ =>
  }

  lemma {:induction false} RunProjected(env: Env, actions: seq<Action>)
    ensures Projected(env, Run(env, Start, actions).ledger)
    decreases |actions|
  {
    hide Inv, Apply;
    if actions != [] {
      var before := actions[..|actions| - 1];
      Reachable(env, before);
      RunProjected(env, before);
      StepProjected(env, Run(env, Start, before), actions[|actions| - 1]);
    }
  }

  // ---- serving ---------------------------------------------------------------------------------------

  function SafeFailureCode(code: string): string {
    if code != "" && Utf8Length(code) <= MAX_ERROR_CODE_CHARS && forall i :: 0 <= i < |code| ==> CodeCharacter(code[i])
    then code else "TRANSCRIPTION_FAILED"
  }

  /** The message for a row; a completed row without a result has none. */
  function MessageFor(c: Contract, id: JobId, row: Row): Option<Outbound> {
    match row.state
    case Accepted => Some(Pending(id, Poll, DEFAULT_POLL_MILLIS))
    case Submitting(_) => Some(Pending(id, Poll, DEFAULT_POLL_MILLIS))
    case Retryable(_, _) =>
      Some(Pending(id, Retry, if row.retryAfterMillis.Some? then row.retryAfterMillis.value else DEFAULT_RETRY_MILLIS))
    case Failed(_, code) => Some(Failure(id, SafeFailureCode(code)))
    case OutcomeUnknown(_, reason) =>
      Some(Failure(id, if reason.InterruptedSubmission? then "SUBMISSION_INTERRUPTED" else "PROVIDER_OUTCOME_UNKNOWN"))
    case Completed(_) => if row.result.None? then None else Some(CompletedResponse(c, id, row.result.value))
  }

  function ResponseForSnapshot(wire: Wire, c: Contract, id: JobId, row: Row): Option<Served> {
    var message := MessageFor(c, id, row);
    if message.None? then None else Serialize(wire, c, message.value)
  }

  /** `GatewayBatchResultProjection`: the verdict the coordinator asks for before it stores a result. */
  predicate ProjectionAccepts(wire: Wire, id: JobId, result: RecognitionResult) {
    var c := ContractOf(result.profile);
    c.Some? && Serialize(wire, c.value, CompletedResponse(c.value, id, result)).Some?
  }

  lemma {:induction false} AsciiCode(code: string)
    requires code != "" && |code| <= MAX_ERROR_CODE_CHARS && forall i :: 0 <= i < |code| ==> CodeCharacter(code[i])
    ensures ErrorCodeOk(code)
  {
    UnitsWithinBytes(code);
    Utf8Ascii(code);
  }

  lemma {:induction false} KeptCode(code: string)
    requires code != "" && Utf8Length(code) <= MAX_ERROR_CODE_CHARS && forall i :: 0 <= i < |code| ==> CodeCharacter(code[i])
    ensures ErrorCodeOk(code)
  {
    UnitsWithinBytes(code);
  }

  /** Whatever code a failure carries, the public one is well-formed. */
  lemma {:induction false} SafeCodeIsOk(code: string)
    ensures ErrorCodeOk(SafeFailureCode(code))
  {
    hide Utf16, Utf8Length, ErrorCodeOk;
    AsciiCode("TRANSCRIPTION_FAILED");
    if SafeFailureCode(code) == code && code != "TRANSCRIPTION_FAILED" {
      KeptCode(code);
    }
  }

  lemma {:induction false} FixedCodesAreOk()
    ensures ErrorCodeOk("SUBMISSION_INTERRUPTED") && ErrorCodeOk("PROVIDER_OUTCOME_UNKNOWN")
  {
    hide Utf16, Utf8Length, ErrorCodeOk;
    AsciiCode("SUBMISSION_INTERRUPTED");
    AsciiCode("PROVIDER_OUTCOME_UNKNOWN");
  }

  lemma {:induction false} Utf8Ascii(text: string)
    requires forall i :: 0 <= i < |text| ==> CodeCharacter(text[i])
    ensures Utf8Length(text) == |text|
  {
    if text != "" {
      Utf8Ascii(text[1..]);
    }
  }

  /** A row in order whose result was projected has a message, and the message is emitted. */
  lemma {:induction false} RowIsServed(wire: Wire, c: Contract, id: JobId, row: Row)
    requires wire.Lawful() && RowOk(id, row) && ContractOf(row.identity.profile) == Some(c)
    requires row.result.Some? ==> ProjectionAccepts(wire, id, row.result.value)
    ensures MessageFor(c, id, row).Some? && ResponseForSnapshot(wire, c, id, row).Some?
  {
    hide TranscriptionOk, ErrorCodeOk, SafeFailureCode, CompletedResponse;
    FixedCodesAreOk();
    if row.state.Failed? {
      SafeCodeIsOk(row.state.code);
    }
    if !row.state.Completed? {
      var message := MessageFor(c, id, row).value;
      assert ResponseOk(wire, c, message);
    }
  }

  /** The transcript a client gets is the stored one: every segment and sentence, and the provider's id in version 3. */
  predicate TranscriptTells(c: Contract, result: RecognitionResult, t: ClientTranscription) {
    && t.durationSeconds == result.durationMillis as real / 1000.0
    && |t.utterances| == |result.segments|
    && (forall i :: 0 <= i < |t.utterances| ==>
          && t.utterances[i].start == result.segments[i].span.start as real / 1000.0
          && t.utterances[i].end == result.segments[i].span.end as real / 1000.0
          && t.utterances[i].transcript == result.segments[i].text && t.utterances[i].confidence == result.segments[i].confidence)
    && |t.readable| == (if result.readable.Some? then |result.readable.value| else 0)
    && (forall i :: 0 <= i < |t.readable| ==>
          && t.readable[i].start == result.readable.value[i].span.start as real / 1000.0
          && t.readable[i].end == result.readable.value[i].span.end as real / 1000.0
          && t.readable[i].transcript == result.readable.value[i].text && t.readable[i].sources == result.readable.value[i].sources)
    && t.providerRequestId == (if c.ElevenLabsV3? then result.providerReference else None)
  }

  /** What a client is told about a row, state by state. */
  predicate ClientSees(c: Contract, id: JobId, row: Row, task: TaskResult) {
    task.id == id &&
    match row.state
    case Accepted => task == TaskPending(id, Poll, 1_000)
    case Submitting(_) => task == TaskPending(id, Poll, 1_000)
    case Retryable(_, _) =>
      && task.TaskPending? && task.nextAction == Retry
      && task.retryAfterMillis == (if row.retryAfterMillis.Some? then row.retryAfterMillis.value else 1_000)
    case Failed(_, code) =>
      && task.TaskFailed?
      && task.errorCode == (if ErrorCodeOk(code) then code else "TRANSCRIPTION_FAILED")
    case OutcomeUnknown(_, reason) =>
      task == TaskFailed(id, if reason.InterruptedSubmission? then "SUBMISSION_INTERRUPTED" else "PROVIDER_OUTCOME_UNKNOWN")
    case Completed(_) => task.TaskCompleted? && row.result.Some? && TranscriptTells(c, row.result.value, task.transcription)
  }

  /** For codes of public characters the bytes and the UTF-16 units are the characters. */
  lemma {:induction false} SafeIsKeptIfOk(code: string)
    ensures SafeFailureCode(code) == if ErrorCodeOk(code) then code else "TRANSCRIPTION_FAILED"
  {
    hide Utf16, Utf8Length;
    if forall i :: 0 <= i < |code| ==> CodeCharacter(code[i]) {
      Utf8Ascii(code);
      Utf16Ascii(code);
    }
  }

  lemma {:induction false} Utf16Ascii(text: string)
    requires forall i :: 0 <= i < |text| ==> CodeCharacter(text[i])
    ensures |Utf16(text)| == |text|
  {
    if text != "" {
      Utf16Ascii(text[1..]);
    }
  }

  lemma {:induction false} MessageTells(c: Contract, id: JobId, row: Row)
    requires RowOk(id, row)
    ensures MessageFor(c, id, row).Some? && ClientSees(c, id, row, Meaning(MessageFor(c, id, row).value))
  {
    hide ValidResult, ErrorCodeOk, SafeFailureCode;
    if row.state.Failed? {
      SafeIsKeptIfOk(row.state.code);
    }
  }

  /**
   In every run, whatever state a row of a frozen profile is in, it can be served; the client accepts
   the message and learns exactly what the row says.
   */
  lemma {:induction false} EveryRowIsServed(env: Env, wire: Wire, actions: seq<Action>, id: JobId)
    requires wire.Lawful()
    requires forall job, result :: env.projects(job, result) == ProjectionAccepts(wire, job, result)
    requires id in Run(env, Start, actions).ledger
    requires ContractOf(Run(env, Start, actions).ledger[id].identity.profile).Some?
    ensures var row := Run(env, Start, actions).ledger[id];
            var c := ContractOf(row.identity.profile).value;
            var served := ResponseForSnapshot(wire, c, id, row);
            && served.Some? && Parse(wire, c, served.value).Some?
            && ClientSees(c, id, row, Parse(wire, c, served.value).value)
  {
    hide Run, RowOk, ProjectionAccepts, MessageFor, Serialize, Parse, ClientSees, Meaning;
    var w := Run(env, Start, actions);
    var row := w.ledger[id];
    var c := ContractOf(row.identity.profile).value;
    Reachable(env, actions);
    RunProjected(env, actions);
    assert RowOk(id, row);
    RowIsServed(wire, c, id, row);
    MessageTells(c, id, row);
    EmittedIsUnderstood(wire, c, MessageFor(c, id, row).value);
  }

  /** A completed row's transcript reaches the client unchanged: the seconds round back to the stored milliseconds. */
  lemma {:induction false} TranscriptArrives(c: Contract, id: JobId, row: Row, i: nat)
    requires RowOk(id, row) && row.state.Completed? && i < |row.result.value.segments|
    ensures var t := Meaning(MessageFor(c, id, row).value).transcription;
            var segment := row.result.value.segments[i];
            && |t.utterances| == |row.result.value.segments|
            && t.utterances[i].start >= 0.0 && t.utterances[i].end >= 0.0
            && Rounded(t.utterances[i].start) == segment.span.start && Rounded(t.utterances[i].end) == segment.span.end
            && t.utterances[i].transcript == segment.text && t.utterances[i].confidence == segment.confidence
            && t.durationSeconds >= 0.0 && Rounded(t.durationSeconds) == row.identity.durationMillis
  {
  }
}
