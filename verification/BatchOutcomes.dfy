/**
 What each step of the batch protocol achieves, said without the functions that compute it: the row
 an answer leaves behind, the row an admission creates, and the whole way from a request to an outcome.
 */
module BatchOutcomes {
  import opened Base
  import opened BatchDomain
  import opened BatchResults
  import opened BatchLedger
  import opened BatchProtocol
  import opened BatchInvariant
  import opened BatchTheorems
  import Spool = BatchSpool

  // ---- what a row tells about the answer -------------------------------------------------------------

  function ReferenceIn(answer: Answer): Option<string> {
    match answer
    case Recognized(result) => result.providerReference
    case KnownNotAccepted(_, _, reference, _) => reference
    case KnownAcceptedTerminal(_, reference) => reference
    case UnknownAfterSend(_, reference) => reference
  }

  /** The row is the outcome that the answer calls for, with the answer's own evidence. */
  ghost predicate Tells(env: Env, id: JobId, row: Row, answer: Answer) {
    && row.providerReference == ReferenceIn(answer)
    && match answer
       case Recognized(result) =>
         var valid := ValidResult(row.identity.profile, row.identity.durationMillis, result);
         if valid && env.projects(id, result) then row.state.Completed? && row.result == Some(result)
         else
           && row.state.Failed?
           && row.state.code == (if valid then "PROVIDER_RESULT_PROJECTION_FAILED" else "INVALID_RECOGNITION_RESULT")
       case KnownNotAccepted(retryable, code, _, delay) =>
         if retryable then row.state.Retryable? && row.state.code == code && row.retryAfterMillis == delay
         else row.state.Failed? && row.state.code == code
       case KnownAcceptedTerminal(code, _) => row.state.Failed? && row.state.code == code
       case UnknownAfterSend(code, _) => row.state.OutcomeUnknown? && row.state.reason == Submission(code)
  }

  /** Before an answer there is no evidence in the row; after it the row tells the answer to its attempt. */
  ghost predicate RowTold(env: Env, answers: map<Ticket, Answer>, id: JobId, row: Row) {
    if row.state.Accepted? || row.state.Submitting? || (row.state.OutcomeUnknown? && row.state.reason.InterruptedSubmission?)
    then row.providerReference.None? && row.retryAfterMillis.None? && row.result.None?
    else
      var ticket := Ticket(id, row.state.attempt);
      ticket in answers && Tells(env, id, row, answers[ticket])
  }

  ghost predicate Told(env: Env, ledger: Ledger, answers: map<Ticket, Answer>) {
    forall id :: id in ledger ==> RowTold(env, answers, id, ledger[id])
  }

  /** A delay the ledger does not take makes the write of a retryable outcome fail. */
  predicate Storing(answer: Answer) {
    answer.PermitsRetry() && answer.retryAfterMillis.Some? ==> answer.retryAfterMillis.value <= MAX_RETRY_AFTER_MILLIS
  }

  lemma {:induction false} OutcomeTells(env: Env, id: JobId, row: Row, answer: Answer, projectable: bool)
    requires RowOk(id, row) && row.state.Submitting?
    requires answer.Recognized? ==> projectable == env.projects(id, answer.result)
    ensures Tells(env, id, OutcomeOf(row, answer, projectable), answer)
    ensures Storable(id, OutcomeOf(row, answer, projectable)) <==> Storing(answer)
    ensures OutcomeOf(row, answer, projectable).state.Attempts() == row.state.attempt
    ensures !OutcomeOf(row, answer, projectable).state.Submitting? && !OutcomeOf(row, answer, projectable).state.Accepted?
    ensures OutcomeOf(row, answer, projectable).state.OutcomeUnknown? ==> OutcomeOf(row, answer, projectable).state.reason.Submission?
  {
    AttemptsFromRevision(row, id);
  }

  /**
   Recording an answer from a claim that is still the ledger's row stores exactly the outcome the
   answer calls for, one revision later, also if the response is lost.
   */
  lemma {:induction false} RecordTells(env: Env, w: World, p: nat, fault: Fault)
    requires Inv(env, w) && WorkerAt(w, p).Answered? && !fault.BeforeCommit?
    ensures var Answered(id, row, answer) := WorkerAt(w, p);
            var next := Apply(env, w, Record(p, fault));
            if id in w.ledger && w.ledger[id].revision == row.revision && Storing(answer) then
              && id in next.ledger && next.ledger == w.ledger[id := next.ledger[id]]
              && Tells(env, id, next.ledger[id], answer)
              && next.ledger[id].identity == row.identity && next.ledger[id].revision == row.revision + 1
              && next.ledger[id].state.Attempts() == row.state.Attempts()
              && WorkerAt(next, p) == (if fault.NoFault? && next.ledger[id].state.IsTerminal()
                                       then CleaningUp(row.identity.audio) else Idle)
            else next.ledger == w.ledger && WorkerAt(next, p) == Idle
  {
    hide HistoryOk, VerdictsOk, HeldOnce, WorkersOk, Spool.Sound, LedgerOk, OutcomeOf, Tells, RowOk, ValidResult;
    var Answered(id, row, answer) := WorkerAt(w, p);
    Knows(env, w, p);
    OutcomeTells(env, id, row, answer, Projects(env, w, p));
    OutcomeFollowsEdge(row, id, answer, Projects(env, w, p));
    TellsLater(env, id, OutcomeOf(row, answer, Projects(env, w, p)), answer, row.revision + 1);
  }

  lemma {:induction false} TellsLater(env: Env, id: JobId, row: Row, answer: Answer, revision: nat)
    requires Tells(env, id, row, answer)
    ensures Tells(env, id, row.(revision := revision), answer)
  {
  }

  // ---- every run --------------------------------------------------------------------------------------

  lemma {:induction false} SwapTold(env: Env, w: World, id: JobId, expected: nat, replacement: Row)
    requires Told(env, w.ledger, w.answers)
    requires CompareAndSwap(w.ledger, id, expected, replacement).1.Stored? ==>
               RowTold(env, w.answers, id, replacement.(revision := expected + 1))
    ensures Told(env, CompareAndSwap(w.ledger, id, expected, replacement).0, w.answers)
  {
    hide RowTold;
  }

  lemma {:induction false} RecordTold(env: Env, w: World, p: nat, fault: Fault)
    requires Inv(env, w) && Told(env, w.ledger, w.answers)
    ensures Told(env, Apply(env, w, Record(p, fault)).ledger, w.answers)
  {
    hide HistoryOk, VerdictsOk, HeldOnce, WorkersOk, Spool.Sound, LedgerOk, OutcomeOf, Tells, RowOk, ValidResult, CompareAndSwap;
    var worker := WorkerAt(w, p);
    if worker.Answered? && !fault.BeforeCommit? {
      Knows(env, w, p);
      var outcome := OutcomeOf(worker.row, worker.answer, Projects(env, w, p));
      OutcomeTells(env, worker.id, worker.row, worker.answer, Projects(env, w, p));
      TellsLater(env, worker.id, outcome, worker.answer, worker.row.revision + 1);
      SwapTold(env, w, worker.id, worker.row.revision, outcome);
    }
  }

  lemma {:induction false} ClaimTold(env: Env, w: World, p: nat, fault: Fault)
    requires Inv(env, w) && Told(env, w.ledger, w.answers)
    ensures Told(env, Apply(env, w, Claim(p, fault)).ledger, w.answers)
  {
    hide Inv, Tells, Told, CompareAndSwap;
    var worker := WorkerAt(w, p);
    if worker.Primed? && AfterBeginSubmission(worker.row.state).Moved? {
      SwapTold(env, w, worker.id, worker.row.revision, ClaimOf(worker.row, AfterBeginSubmission(worker.row.state).state));
    }
  }

  lemma {:induction false} ReconcileTold(env: Env, w: World, p: nat, fault: Fault)
    requires Inv(env, w) && Told(env, w.ledger, w.answers)
    ensures Told(env, Apply(env, w, Reconcile(p, fault)).ledger, w.answers)
  {
    hide HistoryOk, VerdictsOk, HeldOnce, WorkersOk, Spool.Sound, LedgerOk, Tells, ValidResult;
    var worker := WorkerAt(w, p);
    if worker.Recovering? && worker.queue != [] && worker.queue[0].row.state.Submitting? {
      Knows(env, w, p);
      var Candidate(id, row) := worker.queue[0];
      assert SnapshotOf(w.ledger, worker.queue[0].id, worker.queue[0].row);
      assert RowTold(env, w.answers, id, w.ledger[id]);
      SwapTold(env, w, id, row.revision, row.(state := AfterRecoverInterrupted(row.state)));
    }
  }

  lemma {:induction false} OthersKeepRows(env: Env, w: World, a: Action)
    requires !a.Record? && !a.Claim? && !a.Reconcile?
    ensures var next := Apply(env, w, a).ledger;
            || next == w.ledger
            || exists id: JobId, identity :: id !in w.ledger && next == w.ledger[id := NewRow(identity)]
  {
    hide IsPage, Spool.Store, Spool.Remove;
  }

  lemma {:induction false} AnswersGrow(env: Env, ledger: Ledger, answers: map<Ticket, Answer>, more: map<Ticket, Answer>)
    requires Told(env, ledger, answers) && forall t :: t in answers ==> t in more && more[t] == answers[t]
    ensures Told(env, ledger, more)
  {
    hide Tells;
    forall id | id in ledger ensures RowTold(env, more, id, ledger[id]) {
      assert RowTold(env, answers, id, ledger[id]);
    }
  }

  lemma {:induction false} NewRowTold(env: Env, ledger: Ledger, answers: map<Ticket, Answer>, id: JobId, identity: Identity)
    requires Told(env, ledger, answers)
    ensures Told(env, ledger[id := NewRow(identity)], answers)
  {
    hide Tells;
  }

  lemma {:induction false} StepTold(env: Env, w: World, a: Action)
    requires Inv(env, w) && Told(env, w.ledger, w.answers)
    ensures Told(env, Apply(env, w, a).ledger, Apply(env, w, a).answers)
  {
    hide Apply, Inv, Told, Advances;
    var next := Apply(env, w, a);
    StepKeeps(env, w, a);
    if a.Record? {
      RecordTold(env, w, a.p, a.fault);
    } else if a.Claim? {
      ClaimTold(env, w, a.p, a.fault);
    } else if a.Reconcile? {
      ReconcileTold(env, w, a.p, a.fault);
    } else {
      OthersKeepRows(env, w, a);
      if next.ledger != w.ledger {
        var id: JobId, identity :| id !in w.ledger && next.ledger == w.ledger[id := NewRow(identity)];
        NewRowTold(env, w.ledger, w.answers, id, identity);
      }
    }
    AnswersGrow(env, next.ledger, w.answers, next.answers);
  }

  /**
   In every run every row says exactly what the provider answered to its last attempt: a completed row
   holds the recognized result, and a valid, projectable recognition is never stored as anything else.
   */
  lemma {:induction false} RowsTellAnswers(env: Env, actions: seq<Action>)
    ensures var w := Run(env, Start, actions); Told(env, w.ledger, w.answers)
    decreases |actions|
  {
    hide Inv, Apply, RowTold;
    if actions != [] {
      var before := actions[..|actions| - 1];
      Reachable(env, before);
      RowsTellAnswers(env, before);
      StepTold(env, Run(env, Start, before), actions[|actions| - 1]);
    }
  }

  // ---- the whole way ------------------------------------------------------------------------------------

  /** The row a won claim leaves: the next attempt, no evidence, one revision later. */
  function ClaimedRow(row: Row): (r: Row)
    requires row.state.IsActionable() && row.state.Attempts() < U32_MAX
  {
    Row(row.identity, Submitting(row.state.Attempts() + 1), None, None, None, row.revision + 1)
  }

  lemma {:induction false} ReadStep(env: Env, w: World, p: nat, id: JobId, row: Row)
    requires Spool.Sound(env.hash, env.limits, w.directory)
    requires WorkerAt(w, p) == Loaded(id, row) && row.identity.audio in w.directory.artifacts
    ensures Apply(env, w, ReadAudio(p)) == Become(w, p, Primed(id, row, w.directory.artifacts[row.identity.audio]))
  {
  }

  lemma {:induction false} ClaimStep(env: Env, w: World, p: nat, id: JobId, row: Row, audio: Bytes)
    requires WorkerAt(w, p) == Primed(id, row, audio) && id in w.ledger && w.ledger[id] == row && RowOk(id, row)
    requires row.state.IsActionable() && row.state.Attempts() < U32_MAX
    ensures var claimed := ClaimedRow(row);
            Apply(env, w, Claim(p, NoFault)) == Become(w.(ledger := w.ledger[id := claimed]), p, Claimed(id, claimed, audio))
  {
  }

  lemma {:induction false} LoadStep(env: Env, w: World, p: nat, id: JobId)
    requires WorkerAt(w, p).Idle? && id in w.ledger && w.ledger[id].state.IsActionable()
    ensures Apply(env, w, LoadForExecution(p, id)) == Become(w, p, Loaded(id, w.ledger[id]))
  {
  }

  lemma {:induction false} SendStep(env: Env, w: World, p: nat, id: JobId, row: Row, audio: Bytes)
    requires WorkerAt(w, p) == Claimed(id, row, audio) && row.state.Submitting?
    ensures Apply(env, w, Send(p))
         == Become(w.(egress := w.egress + [ProviderCall(Ticket(id, row.state.attempt), row.identity, audio)]), p, InFlight(id, row))
  {
  }

  lemma {:induction false} ReplyStep(env: Env, w: World, p: nat, id: JobId, row: Row, answer: Answer)
    requires WorkerAt(w, p) == InFlight(id, row) && row.state.Submitting?
    ensures Apply(env, w, Reply(p, answer))
         == Become(w.(answers := w.answers[Ticket(id, row.state.attempt) := answer]), p, Answered(id, row, answer))
  {
  }

  /** An idle worker loads the job, reads its audio, claims it and calls the provider. */
  ghost function AfterSending(env: Env, w: World, p: nat, id: JobId): World {
    Apply(env, Apply(env, Apply(env, Apply(env, w, LoadForExecution(p, id)), ReadAudio(p)), Claim(p, NoFault)), Send(p))
  }

  /** An open job that an idle worker can take: its audio is there and attempts are left. */
  ghost predicate Executable(env: Env, w: World, p: nat, id: JobId) {
    && Inv(env, w) && WorkerAt(w, p).Idle? && id in w.ledger && w.ledger[id].state.IsActionable()
    && w.ledger[id].state.Attempts() < U32_MAX && w.ledger[id].identity.audio in w.directory.artifacts
  }

  /** It is sent exactly once, with the admitted identity and audio, as the next attempt. */
  lemma {:induction false} ExecutionSends(env: Env, w: World, p: nat, id: JobId)
    requires Executable(env, w, p, id)
    ensures var row, sent := w.ledger[id], AfterSending(env, w, p, id);
            var ticket := Ticket(id, row.state.Attempts() + 1);
            && Inv(env, sent) && WorkerAt(sent, p) == InFlight(id, ClaimedRow(row))
            && sent.egress == w.egress + [ProviderCall(ticket, row.identity, w.directory.artifacts[row.identity.audio])]
            && sent.ledger == w.ledger[id := ClaimedRow(row)] && sent.answers == w.answers
  {
    hide Inv, Apply, RowOk, Spool.Sound;
    var row := w.ledger[id];
    var audio := w.directory.artifacts[row.identity.audio];
    Rows(env, w, id);
    LoadStep(env, w, p, id);
    var loaded := Apply(env, w, LoadForExecution(p, id));
    ReadStep(env, loaded, p, id, row);
    var primed := Apply(env, loaded, ReadAudio(p));
    ClaimStep(env, primed, p, id, row, audio);
    var claimed := Apply(env, primed, Claim(p, NoFault));
    SendStep(env, claimed, p, id, ClaimedRow(row), audio);
    StepKeeps(env, w, LoadForExecution(p, id));
    StepKeeps(env, loaded, ReadAudio(p));
    StepKeeps(env, primed, Claim(p, NoFault));
    StepKeeps(env, claimed, Send(p));
  }

  /** And whatever the provider answers, the row then tells it, at that attempt. */
  lemma {:induction false} ExecutionReachesOutcome(env: Env, w: World, p: nat, id: JobId, answer: Answer)
    requires Executable(env, w, p, id) && Storing(answer)
    ensures var row, sent := w.ledger[id], AfterSending(env, w, p, id);
            var done := Apply(env, Apply(env, sent, Reply(p, answer)), Record(p, NoFault));
            && id in done.ledger && Tells(env, id, done.ledger[id], answer)
            && done.ledger[id].identity == row.identity && done.ledger[id].state.Attempts() == row.state.Attempts() + 1
            && done.ledger[id].revision == row.revision + 2
  {
    hide Inv, Apply, Tells, AfterSending, RowOk;
    var row, sent := w.ledger[id], AfterSending(env, w, p, id);
    ExecutionSends(env, w, p, id);
    ReplyStep(env, sent, p, id, ClaimedRow(row), answer);
    var answered := Apply(env, sent, Reply(p, answer));
    StepKeeps(env, sent, Reply(p, answer));
    RecordTells(env, answered, p, NoFault);
  }

  lemma {:induction false} Rows(env: Env, w: World, id: JobId)
    requires Inv(env, w) && id in w.ledger
    ensures RowOk(id, w.ledger[id]) && Spool.Sound(env.hash, env.limits, w.directory)
  {
  }

  /** A request that fits the spool and is new to the ledger is admitted, and its audio is there. */
  lemma {:induction false} AdmissionReachesRow(env: Env, w: World, p: nat, request: Request)
    requires Inv(env, w) && WorkerAt(w, p).Idle? && request.id !in w.ledger
    requires 0 < |request.audio| <= env.limits.upload
    requires Spool.TotalBytes(w.directory.artifacts) + |request.audio| <= env.limits.total
    requires request.id in w.directory.claims ==> w.directory.claims[request.id] == env.hash(request.audio)
    ensures var spooled := Apply(env, Apply(env, w, LoadForAdmission(p, request)), StoreAudio(p, Spool.Whole));
            var done := Apply(env, spooled, InsertRow(p, NoFault));
            && request.id in done.ledger && done.ledger == w.ledger[request.id := done.ledger[request.id]]
            && AdmittedFor(env, request, done.ledger[request.id])
            && done.ledger[request.id].identity.audio in done.directory.artifacts
            && env.hash(done.directory.artifacts[done.ledger[request.id].identity.audio]) == env.hash(request.audio)
            && done.verdicts == w.verdicts + [Admitted(request.id)] && WorkerAt(done, p).Idle?
  {
    hide HistoryOk, VerdictsOk, HeldOnce, WorkersOk, LedgerOk, IsPage, Spool.TotalBytes;
    var handle := Handle(request.id, env.hash(request.audio));
    var missed := Apply(env, w, LoadForAdmission(p, request));
    assert missed == Become(w, p, Missed(request));
    StoreStep(env, missed, p, request);
  }

  lemma {:induction false} StoreStep(env: Env, w: World, p: nat, request: Request)
    requires Spool.Sound(env.hash, env.limits, w.directory) && WorkerAt(w, p) == Missed(request)
    requires 0 < |request.audio| <= env.limits.upload
    requires Spool.TotalBytes(w.directory.artifacts) + |request.audio| <= env.limits.total
    requires request.id in w.directory.claims ==> w.directory.claims[request.id] == env.hash(request.audio)
    ensures var handle := Handle(request.id, env.hash(request.audio));
            var next := Apply(env, w, StoreAudio(p, Spool.Whole));
            && next == Become(w.(directory := next.directory), p, Spooled(request, handle, handle !in w.directory.artifacts))
            && handle in next.directory.artifacts && env.hash(next.directory.artifacts[handle]) == handle.digest
  {
    hide Spool.TotalBytes;
    var handle := Handle(request.id, env.hash(request.audio));
    if handle in w.directory.artifacts {
      assert Spool.Readable(env.hash, env.limits, w.directory.artifacts, handle);
    }
  }

  /** A terminal outcome's audio goes, and only it. */
  lemma {:induction false} CleanupRemoves(env: Env, w: World, p: nat, handle: Handle)
    requires WorkerAt(w, p) == CleaningUp(handle)
    ensures var next := Apply(env, w, RemoveAudio(p, Spool.Whole));
            && next.directory.artifacts == w.directory.artifacts - {handle}
            && next.ledger == w.ledger && WorkerAt(next, p).Idle?
            && (handle.job in next.directory.claims ==> next.directory.claims[handle.job] != handle.digest)
  {
  }

  /** Recovery turns a submission it still finds in the ledger into a terminally unknown one, and lets its audio go. */
  lemma {:induction false} ReconcileInterrupts(env: Env, w: World, p: nat, queue: seq<Candidate>, fault: Fault)
    requires Inv(env, w) && WorkerAt(w, p) == Recovering(queue, None) && queue != [] && !fault.BeforeCommit?
    requires queue[0].row.state.Submitting?
    ensures var Candidate(id, row) := queue[0];
            var next := Apply(env, w, Reconcile(p, fault));
            if id in w.ledger && w.ledger[id].revision == row.revision then
              && id in next.ledger && next.ledger == w.ledger[id := next.ledger[id]]
              && next.ledger[id].state == OutcomeUnknown(row.state.attempt, InterruptedSubmission)
              && next.ledger[id].identity == row.identity
              && (fault.NoFault? ==> WorkerAt(next, p) == Recovering(queue[1..], Some(row.identity.audio)))
            else next.ledger == w.ledger && (fault.NoFault? ==> WorkerAt(next, p) == Recovering(queue[1..], None))
  {
    hide HistoryOk, VerdictsOk, HeldOnce, WorkersOk, Spool.Sound, LedgerOk, ValidResult;
    Knows(env, w, p);
    assert SnapshotOf(w.ledger, queue[0].id, queue[0].row);
    AttemptsFromRevision(queue[0].row, queue[0].id);
  }

  /** An admission that lost the race to a row with other audio takes its own artifact back and says what it found. */
  lemma {:induction false} LoserCleansUp(env: Env, w: World, p: nat, request: Request, handle: Handle)
    requires WorkerAt(w, p) == Spooled(request, handle, true) && request.id in w.ledger
    requires w.ledger[request.id].identity.audio != handle
    ensures var row := w.ledger[request.id];
            var next := Apply(env, Apply(env, w, InsertRow(p, NoFault)), RemoveAudio(p, Spool.Whole));
            && next.ledger == w.ledger && handle !in next.directory.artifacts && WorkerAt(next, p).Idle?
            && |next.verdicts| == |w.verdicts| + 1 && w.verdicts < next.verdicts
            && (next.verdicts[|w.verdicts|] == Replayed(request.id)
                <==> row.identity.profile == request.profile && row.identity.fingerprint == request.fingerprint)
            && !next.verdicts[|w.verdicts|].Admitted?
  {
  }

  /** An id that is in the ledger is answered at once, and nothing else happens. */
  lemma {:induction false} KnownIdIsAnswered(env: Env, w: World, p: nat, request: Request)
    requires WorkerAt(w, p).Idle? && request.id in w.ledger
    ensures var row := w.ledger[request.id];
            var same := row.identity.profile == request.profile && row.identity.fingerprint == request.fingerprint;
            Apply(env, w, LoadForAdmission(p, request))
            == w.(verdicts := w.verdicts + [if same then Replayed(request.id) else Conflicted(request.id)])
  {
  }

  /**
   A failed insert is looked up again: if the row is there after all the caller is answered by it, if not
   the caller takes back the artifact it owns.
   */
  lemma {:induction false} FailedInsertResolves(env: Env, w: World, p: nat, request: Request, handle: Handle, owns: bool)
    requires WorkerAt(w, p) == Unverified(request, handle, owns)
    ensures var next := Apply(env, w, VerifyInsert(p, true));
            && next.ledger == w.ledger && next.directory == w.directory
            && (request.id !in w.ledger ==> next.verdicts == w.verdicts)
            && (request.id !in w.ledger && !owns ==> WorkerAt(next, p).Idle?)
            && (request.id !in w.ledger && owns ==>
                  && WorkerAt(next, p) == RollingBack(handle)
                  && Apply(env, next, RemoveAudio(p, Spool.Whole)).directory.artifacts == w.directory.artifacts - {handle})
            && (request.id in w.ledger && (!owns || handle == w.ledger[request.id].identity.audio) ==>
                  WorkerAt(next, p).Idle? && |next.verdicts| == |w.verdicts| + 1 && !next.verdicts[|w.verdicts|].Admitted?)
            && (request.id in w.ledger && owns && handle != w.ledger[request.id].identity.audio ==>
                  WorkerAt(next, p) == LostRace(request, w.ledger[request.id], handle))
  {
  }

  /** Recovery takes up every candidate of its page, in order, and removes the audio of each it interrupted. */
  lemma {:induction false} RecoveryTakesPage(env: Env, w: World, p: nat, after: Option<JobId>, through: JobId, ids: seq<JobId>)
    requires WorkerAt(w, p).Idle? && IsPage(w.ledger, after, through, RECOVERY_BATCH_LIMIT, ids)
    ensures var next := Apply(env, w, ListCandidates(p, after, through, ids));
            && next == Become(w, p, WorkerAt(next, p)) && WorkerAt(next, p).Recovering? && WorkerAt(next, p).cleanup.None?
            && |WorkerAt(next, p).queue| == |ids|
            && forall i :: 0 <= i < |ids| ==>
                 ids[i] in w.ledger && WorkerAt(next, p).queue[i] == Candidate(ids[i], w.ledger[ids[i]])
  {
    forall i | 0 <= i < |ids| ensures ids[i] in w.ledger {
      assert Listed(w.ledger, after, through, ids[i]);
    }
  }

  lemma {:induction false} RecoveryRemoves(env: Env, w: World, p: nat, queue: seq<Candidate>, handle: Handle)
    requires WorkerAt(w, p) == Recovering(queue, Some(handle))
    ensures var next := Apply(env, w, RemoveAudio(p, Spool.Whole));
            && next.directory.artifacts == w.directory.artifacts - {handle} && next.ledger == w.ledger
            && WorkerAt(next, p) == Recovering(queue, None)
  {
  }
}
