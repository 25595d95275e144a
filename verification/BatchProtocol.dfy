/**
 The fenced batch protocol as a step system
 (crates/voicetext-speech/src/application/batch.rs, batch_recovery.rs and batch_models.rs).

 Any number of workers share the ledger, the spool and a paid provider. One process owns the spool,
 whose lock makes each of its operations a step. Every suspension point of `admit`,
 `execute_with_cleanup_report` and `reconcile_candidates` is a step boundary, so steps of different
 workers interleave freely. A ledger write can fail before it commits, or commit and lose its
 response; a worker can stop anywhere. `egress` records every call of the provider and `answers` what
 came back.
 */
module BatchProtocol {
  import opened Base
  import opened BatchDomain
  import opened BatchResults
  import opened BatchLedger
  import Spool = BatchSpool

  const RECOVERY_BATCH_LIMIT: nat := 100

  /** The audio digest, the spool's limits, and which results the public response can carry. */
  datatype Env = Env(hash: Bytes -> Digest, limits: Spool.Limits, projects: (JobId, RecognitionResult) -> bool)

  datatype Request = Request(
    id: JobId,
    profile: Profile,
    fingerprint: Fingerprint,
    audio: Bytes,
    durationMillis: nat,
    keyterms: seq<string>)

  /** What the provider port reports about one submission. */
  datatype Answer =
    | Recognized(result: RecognitionResult)
    | KnownNotAccepted(retryable: bool, code: string, reference: Option<string>, retryAfterMillis: Option<nat>)
    | KnownAcceptedTerminal(code: string, reference: Option<string>)
    | UnknownAfterSend(code: string, reference: Option<string>)
  {
    /** The only evidence after which another submission of the job is safe. */
    predicate PermitsRetry() {
      KnownNotAccepted? && retryable
    }
  }

  datatype Ticket = Ticket(job: JobId, attempt: Attempt)

  datatype ProviderCall = ProviderCall(ticket: Ticket, identity: Identity, audio: Bytes)

  datatype Verdict = Admitted(id: JobId) | Replayed(id: JobId) | Conflicted(id: JobId)

  datatype Candidate = Candidate(id: JobId, row: Row)

  datatype Worker =
    | Idle
      // admission
    | Missed(request: Request)
    | Spooled(request: Request, handle: Handle, owns: bool)
    | Unverified(request: Request, handle: Handle, owns: bool)
    | LostRace(request: Request, row: Row, handle: Handle)
    | RollingBack(handle: Handle)
      // execution
    | Loaded(id: JobId, row: Row)
    | Primed(id: JobId, row: Row, audio: Bytes)
    | Claimed(id: JobId, row: Row, audio: Bytes)
    | InFlight(id: JobId, row: Row)
    | Answered(id: JobId, row: Row, answer: Answer)
    | CleaningUp(handle: Handle)
      // startup recovery
    | Recovering(queue: seq<Candidate>, cleanup: Option<Handle>)

  datatype World = World(
    ledger: Ledger,
    directory: Spool.Directory,
    workers: map<nat, Worker>,
    egress: seq<ProviderCall>,
    answers: map<Ticket, Answer>,
    verdicts: seq<Verdict>)

  datatype Fault = NoFault | BeforeCommit | AfterCommit

  datatype Action =
    | LoadForAdmission(p: nat, request: Request)
    | StoreAudio(p: nat, cut: Spool.Cut)
    | InsertRow(p: nat, fault: Fault)
    | VerifyInsert(p: nat, reachable: bool)
    | RemoveAudio(p: nat, cut: Spool.Cut)
    | LoadForExecution(p: nat, id: JobId)
    | ReadAudio(p: nat)
    | Claim(p: nat, fault: Fault)
    | Send(p: nat)
    | Reply(p: nat, answer: Answer)
    | Record(p: nat, fault: Fault)
    | ListCandidates(p: nat, after: Option<JobId>, through: JobId, ids: seq<JobId>)
    | Reconcile(p: nat, fault: Fault)
    | Stop(p: nat)

  const Start: World := World(map[], Spool.Directory(map[], map[]), map[], [], map[], [])

  function WorkerAt(w: World, p: nat): Worker {
    if p in w.workers then w.workers[p] else Idle
  }

  function Become(w: World, p: nat, worker: Worker): World {
    w.(workers := w.workers[p := worker])
  }

  // ---- admission ---------------------------------------------------------------------------

  function IdentityOf(request: Request, handle: Handle): Identity {
    Identity(request.profile, request.fingerprint, handle, request.durationMillis, request.keyterms)
  }

  function Classify(row: Row, request: Request): Verdict {
    if row.identity.profile == request.profile && row.identity.fingerprint == request.fingerprint
    then Replayed(request.id) else Conflicted(request.id)
  }

  function DoLoadForAdmission(w: World, p: nat, request: Request): World {
    if !WorkerAt(w, p).Idle? then w
    else if request.id in w.ledger then w.(verdicts := w.verdicts + [Classify(w.ledger[request.id], request)])
    else Become(w, p, Missed(request))
  }

  ghost function DoStoreAudio(env: Env, w: World, p: nat, cut: Spool.Cut): World {
    match WorkerAt(w, p)
    case Missed(request) =>
      var (directory, outcome) :=
        Spool.Store(env.hash, env.limits, w.directory, request.id, request.audio, cut);
      Become(w.(directory := directory), p,
             match outcome
             case Stored(handle) => Spooled(request, handle, true)
             case Existing(handle) => Spooled(request, handle, false)
             case _ => Idle)
    case _ => w
  }

  /** A caller that lost the race removes only an artifact it owns and the winner does not use. */
  function Resolve(w: World, p: nat, request: Request, row: Row, handle: Handle, owns: bool): World {
    if owns && handle != row.identity.audio then Become(w, p, LostRace(request, row, handle))
    else Become(w.(verdicts := w.verdicts + [Classify(row, request)]), p, Idle)
  }

  function DoInsertRow(w: World, p: nat, fault: Fault): World {
    match WorkerAt(w, p)
    case Spooled(request, handle, owns) =>
      var (ledger, outcome) := Insert(w.ledger, request.id, IdentityOf(request, handle));
      (match fault
       case BeforeCommit => Become(w, p, Unverified(request, handle, owns))
       case AfterCommit => Become(w.(ledger := ledger), p, Unverified(request, handle, owns))
       case NoFault =>
         if outcome.Inserted?
         then Become(w.(ledger := ledger, verdicts := w.verdicts + [Admitted(request.id)]), p, Idle)
         else Resolve(w, p, request, outcome.row, handle, owns))
    case _ => w
  }

  function DoVerifyInsert(w: World, p: nat, reachable: bool): World {
    match WorkerAt(w, p)
    case Unverified(request, handle, owns) =>
      if !reachable then Become(w, p, Idle)
      else if request.id in w.ledger then Resolve(w, p, request, w.ledger[request.id], handle, owns)
      else Become(w, p, if owns then RollingBack(handle) else Idle)
    case _ => w
  }

  function DoRemoveAudio(w: World, p: nat, cut: Spool.Cut): World {
    match WorkerAt(w, p)
    case LostRace(request, row, handle) =>
      Become(w.(directory := Spool.Remove(w.directory, handle, cut),
                verdicts := if cut.Whole? then w.verdicts + [Classify(row, request)] else w.verdicts), p, Idle)
    case RollingBack(handle) => Become(w.(directory := Spool.Remove(w.directory, handle, cut)), p, Idle)
    case CleaningUp(handle) => Become(w.(directory := Spool.Remove(w.directory, handle, cut)), p, Idle)
    case Recovering(queue, Some(handle)) =>
      Become(w.(directory := Spool.Remove(w.directory, handle, cut)), p,
             if cut.Whole? then Recovering(queue, None) else Idle)
    case _ => w
  }

  // ---- execution ---------------------------------------------------------------------------

  function DoLoadForExecution(w: World, p: nat, id: JobId): World {
    if WorkerAt(w, p).Idle? && id in w.ledger && w.ledger[id].state.IsActionable()
    then Become(w, p, Loaded(id, w.ledger[id])) else w
  }

  function DoReadAudio(env: Env, w: World, p: nat): World {
    match WorkerAt(w, p)
    case Loaded(id, row) =>
      if Spool.Readable(env.hash, env.limits, w.directory.artifacts, row.identity.audio)
      then Become(w, p, Primed(id, row, w.directory.artifacts[row.identity.audio]))
      else Become(w, p, Idle)
    case _ => w
  }

  function ClaimOf(row: Row, state: JobState): Row {
    row.(state := state, providerReference := None, retryAfterMillis := None, result := None)
  }

  function DoClaim(w: World, p: nat, fault: Fault): World {
    match WorkerAt(w, p)
    case Primed(id, row, audio) =>
      var begun := AfterBeginSubmission(row.state);
      if !begun.Moved? || fault.BeforeCommit? then Become(w, p, Idle)
      else
        var (ledger, outcome) := CompareAndSwap(w.ledger, id, row.revision, ClaimOf(row, begun.state));
        Become(w.(ledger := ledger), p,
               if outcome.Stored? && fault.NoFault? then Claimed(id, outcome.row, audio) else Idle)
    case _ => w
  }

  function TicketOf(id: JobId, row: Row): Ticket
    requires row.state.Submitting?
  {
    Ticket(id, row.state.attempt)
  }

  /** The call of the paid provider. */
  function DoSend(w: World, p: nat): World {
    match WorkerAt(w, p)
    case Claimed(id, row, audio) =>
      if !row.state.Submitting? then w
      else Become(w.(egress := w.egress + [ProviderCall(TicketOf(id, row), row.identity, audio)]), p, InFlight(id, row))
    case _ => w
  }

  function DoReply(w: World, p: nat, answer: Answer): World {
    match WorkerAt(w, p)
    case InFlight(id, row) =>
      if !row.state.Submitting? then w
      else Become(w.(answers := w.answers[TicketOf(id, row) := answer]), p, Answered(id, row, answer))
    case _ => w
  }

  /** The row to store for an answer; `projectable` is the verdict of the wire projection. */
  ghost function OutcomeOf(row: Row, answer: Answer, projectable: bool): Row
    requires row.state.Submitting?
  {
    var attempt := row.state.attempt;
    var cleared := row.(retryAfterMillis := None);
    match answer
    case Recognized(result) =>
      var valid := ValidResult(row.identity.profile, row.identity.durationMillis, result);
      if valid && projectable then
        cleared.(providerReference := result.providerReference, result := Some(result), state := Completed(attempt))
      else
        cleared.(providerReference := result.providerReference, result := None,
                 state := Failed(attempt, if valid then "PROVIDER_RESULT_PROJECTION_FAILED" else "INVALID_RECOGNITION_RESULT"))
    case KnownNotAccepted(retryable, code, reference, retryAfterMillis) =>
      if retryable then
        cleared.(providerReference := reference, retryAfterMillis := retryAfterMillis, state := Retryable(attempt, code))
      else
        cleared.(providerReference := reference, state := Failed(attempt, code))
    case KnownAcceptedTerminal(code, reference) =>
      cleared.(providerReference := reference, state := Failed(attempt, code))
    case UnknownAfterSend(code, reference) =>
      cleared.(providerReference := reference, state := OutcomeUnknown(attempt, Submission(code)))
  }

  /** The projection's verdict on the result a worker holds. */
  predicate Projects(env: Env, w: World, p: nat) {
    var worker := WorkerAt(w, p);
    worker.Answered? && worker.answer.Recognized? && env.projects(worker.id, worker.answer.result)
  }

  ghost function DoRecord(w: World, p: nat, projectable: bool, fault: Fault): World {
    match WorkerAt(w, p)
    case Answered(id, row, answer) =>
      if !row.state.Submitting? || fault.BeforeCommit? then Become(w, p, Idle)
      else
        var (ledger, outcome) := CompareAndSwap(w.ledger, id, row.revision, OutcomeOf(row, answer, projectable));
        Become(w.(ledger := ledger), p,
               if outcome.Stored? && fault.NoFault? && outcome.row.state.IsTerminal()
               then CleaningUp(outcome.row.identity.audio) else Idle)
    case _ => w
  }

  // ---- startup recovery ----------------------------------------------------------------------

  function CandidatesOf(ledger: Ledger, ids: seq<JobId>): seq<Candidate>
    requires forall i :: 0 <= i < |ids| ==> ids[i] in ledger
  {
    seq(|ids|, i requires 0 <= i < |ids| => Candidate(ids[i], ledger[ids[i]]))
  }

  ghost function DoListCandidates(w: World, p: nat, after: Option<JobId>, through: JobId, ids: seq<JobId>): World {
    if WorkerAt(w, p).Idle? && IsPage(w.ledger, after, through, RECOVERY_BATCH_LIMIT, ids)
    then Become(w, p, Recovering(CandidatesOf(w.ledger, ids), None)) else w
  }

  function DoReconcile(w: World, p: nat, fault: Fault): World {
    match WorkerAt(w, p)
    case Recovering(queue, None) =>
      if queue == [] then Become(w, p, Idle)
      else
        var Candidate(id, row) := queue[0];
        if !row.state.Submitting? then Become(w, p, Recovering(queue[1..], None))
        else if fault.BeforeCommit? then Become(w, p, Idle)
        else
          var (ledger, outcome) :=
            CompareAndSwap(w.ledger, id, row.revision, row.(state := AfterRecoverInterrupted(row.state)));
          Become(w.(ledger := ledger), p,
                 if fault.AfterCommit? || outcome.Rejected? then Idle
                 else if outcome.Stored? then Recovering(queue[1..], Some(outcome.row.identity.audio))
                 else Recovering(queue[1..], None))
    case _ => w
  }

  // ---- runs ----------------------------------------------------------------------------------

  /** Total: a step that its worker is not ready for changes nothing. */
  ghost function Apply(env: Env, w: World, a: Action): World {
    match a
    case LoadForAdmission(p, request) => DoLoadForAdmission(w, p, request)
    case StoreAudio(p, cut) => DoStoreAudio(env, w, p, cut)
    case InsertRow(p, fault) => DoInsertRow(w, p, fault)
    case VerifyInsert(p, reachable) => DoVerifyInsert(w, p, reachable)
    case RemoveAudio(p, cut) => DoRemoveAudio(w, p, cut)
    case LoadForExecution(p, id) => DoLoadForExecution(w, p, id)
    case ReadAudio(p) => DoReadAudio(env, w, p)
    case Claim(p, fault) => DoClaim(w, p, fault)
    case Send(p) => DoSend(w, p)
    case Reply(p, answer) => DoReply(w, p, answer)
    case Record(p, fault) => DoRecord(w, p, Projects(env, w, p), fault)
    case ListCandidates(p, after, through, ids) => DoListCandidates(w, p, after, through, ids)
    case Reconcile(p, fault) => DoReconcile(w, p, fault)
    case Stop(p) => Become(w, p, Idle)
  }

  ghost function Run(env: Env, w: World, actions: seq<Action>): World {
    if actions == [] then w
    else Apply(env, Run(env, w, actions[..|actions| - 1]), actions[|actions| - 1])
  }

  lemma {:induction false} RunConcat(env: Env, w: World, first: seq<Action>, second: seq<Action>)
    ensures Run(env, w, first + second) == Run(env, Run(env, w, first), second)
    decreases |second|
  {
    if second == [] {
      assert first + second == first;
    } else {
      RunConcat(env, w, first, second[..|second| - 1]);
      assert (first + second)[..|first + second| - 1] == first + second[..|second| - 1];
    }
  }
}
