/**
 The invariant of the batch protocol, and that every step of every worker keeps it.
 */
module BatchInvariant {
  import opened Base
  import opened BatchDomain
  import opened BatchResults
  import opened BatchLedger
  import opened BatchProtocol
  import Spool = BatchSpool

  ghost predicate Sent(egress: seq<ProviderCall>, ticket: Ticket) {
    exists i :: 0 <= i < |egress| && egress[i].ticket == ticket
  }

  /** A terminal row whose audio is no longer needed. */
  ghost predicate Disposable(ledger: Ledger, handle: Handle) {
    handle.job in ledger && ledger[handle.job].identity.audio == handle && ledger[handle.job].state.IsTerminal()
  }

  /** The right to make one provider call, from the stored claim until the worker lets go of it. */
  function Held(worker: Worker): Option<Ticket> {
    match worker
    case Claimed(id, row, _) => if row.state.Submitting? then Some(TicketOf(id, row)) else None
    case InFlight(id, row) => if row.state.Submitting? then Some(TicketOf(id, row)) else None
    case Answered(id, row, _) => if row.state.Submitting? then Some(TicketOf(id, row)) else None
    case _ => None
  }

  /** What a worker knows about the shared state, stable under everything the others do. */
  ghost predicate WorkerOk(env: Env, ledger: Ledger, egress: seq<ProviderCall>, answers: map<Ticket, Answer>, worker: Worker) {
    match worker
    case Idle => true
    case Missed(_) => true
    case Spooled(request, handle, _) => handle == Handle(request.id, env.hash(request.audio))
    case Unverified(request, handle, _) => handle == Handle(request.id, env.hash(request.audio))
    case LostRace(request, row, handle) =>
      SnapshotOf(ledger, request.id, row) && handle.job == request.id && handle != row.identity.audio
    case RollingBack(_) => true
    case Loaded(id, row) => SnapshotOf(ledger, id, row) && row.state.IsActionable()
    case Primed(id, row, audio) =>
      SnapshotOf(ledger, id, row) && row.state.IsActionable() && env.hash(audio) == row.identity.audio.digest
    case Claimed(id, row, audio) =>
      && SnapshotOf(ledger, id, row) && row.state.Submitting?
      && env.hash(audio) == row.identity.audio.digest
      && !Sent(egress, TicketOf(id, row))
    case InFlight(id, row) =>
      && SnapshotOf(ledger, id, row) && row.state.Submitting?
      && Sent(egress, TicketOf(id, row)) && TicketOf(id, row) !in answers
    case Answered(id, row, answer) =>
      && SnapshotOf(ledger, id, row) && row.state.Submitting?
      && Sent(egress, TicketOf(id, row))
      && TicketOf(id, row) in answers && answers[TicketOf(id, row)] == answer
    case CleaningUp(handle) => Disposable(ledger, handle)
    case Recovering(queue, cleanup) =>
      && (forall i :: 0 <= i < |queue| ==> SnapshotOf(ledger, queue[i].id, queue[i].row))
      && (cleanup.Some? ==> Disposable(ledger, cleanup.value))
  }

  ghost predicate HeldOnce(workers: map<nat, Worker>) {
    forall p, q :: p in workers && q in workers && p != q && Held(workers[p]).Some? ==>
      Held(workers[p]) != Held(workers[q])
  }

  /** The attempt is over and the provider is known not to have accepted it. */
  ghost predicate SafelyOver(egress: seq<ProviderCall>, answers: map<Ticket, Answer>, ticket: Ticket) {
    Sent(egress, ticket) && ticket in answers && answers[ticket].PermitsRetry()
  }

  /** Attempts before the current one, and the current one once it may be retried, are safely over. */
  ghost predicate Superseded(row: Row, attempt: nat) {
    attempt < row.state.Attempts() || (attempt == row.state.Attempts() && row.state.Retryable?)
  }

  ghost predicate CallOk(env: Env, ledger: Ledger, call: ProviderCall) {
    && call.ticket.job in ledger
    && call.identity == ledger[call.ticket.job].identity
    && call.ticket.attempt <= ledger[call.ticket.job].state.Attempts()
    && env.hash(call.audio) == call.identity.audio.digest
  }

  ghost predicate HistoryOk(env: Env, ledger: Ledger, egress: seq<ProviderCall>, answers: map<Ticket, Answer>) {
    && (forall i :: 0 <= i < |egress| ==> CallOk(env, ledger, egress[i]))
    && (forall i, j :: 0 <= i < j < |egress| && egress[i].ticket.job == egress[j].ticket.job ==>
          egress[i].ticket.attempt < egress[j].ticket.attempt)
    && (forall ticket: Ticket :: ticket.job in ledger && Superseded(ledger[ticket.job], ticket.attempt) ==>
          SafelyOver(egress, answers, ticket))
    && (forall ticket :: ticket in answers ==> Sent(egress, ticket))
  }

  ghost predicate VerdictsOk(ledger: Ledger, verdicts: seq<Verdict>) {
    && (forall i :: 0 <= i < |verdicts| ==> verdicts[i].id in ledger)
    && (forall i, j :: 0 <= i < j < |verdicts| && verdicts[i].Admitted? && verdicts[j].Admitted? ==>
          verdicts[i].id != verdicts[j].id)
  }

  ghost predicate WorkersOk(env: Env, w: World) {
    forall p :: p in w.workers ==> WorkerOk(env, w.ledger, w.egress, w.answers, w.workers[p])
  }

  ghost predicate Inv(env: Env, w: World) {
    && LedgerOk(w.ledger)
    && Spool.Sound(env.hash, env.limits, w.directory)
    && WorkersOk(env, w)
    && HeldOnce(w.workers)
    && HistoryOk(env, w.ledger, w.egress, w.answers)
    && VerdictsOk(w.ledger, w.verdicts)
  }

  lemma {:induction false} Knows(env: Env, w: World, p: nat)
    requires WorkersOk(env, w) && p in w.workers
    ensures WorkerOk(env, w.ledger, w.egress, w.answers, w.workers[p])
  {
  }

  /** The shared records only grow, and rows only move forward. */
  ghost predicate Grows(w: World, next: World) {
    && Advances(w.ledger, next.ledger)
    && w.egress <= next.egress
    && (forall t :: t in w.answers ==> t in next.answers && next.answers[t] == w.answers[t])
  }

  lemma {:induction false} Still(w: World)
    ensures Grows(w, w)
  {
  }

  // ---- framing -------------------------------------------------------------------------------

  /** Nothing another worker does can invalidate what a worker knows, except using its ticket. */
  lemma {:induction false} WorkerKept(env: Env, w: World, next: World, worker: Worker)
    requires WorkerOk(env, w.ledger, w.egress, w.answers, worker)
    requires Grows(w, next)
    requires forall i :: |w.egress| <= i < |next.egress| ==> Held(worker) != Some(next.egress[i].ticket)
    requires forall t :: t in next.answers && t !in w.answers ==> Held(worker) != Some(t)
    ensures WorkerOk(env, next.ledger, next.egress, next.answers, worker)
  {
    match worker
    case LostRace(request, row, _) => SnapshotKept(w.ledger, next.ledger, request.id, row);
    case Loaded(id, row) => SnapshotKept(w.ledger, next.ledger, id, row);
    case Primed(id, row, _) => SnapshotKept(w.ledger, next.ledger, id, row);
    case Claimed(id, row, _) =>
      SnapshotKept(w.ledger, next.ledger, id, row);
      SentFrame(w.egress, next.egress, TicketOf(id, row));
    case InFlight(id, row) =>
      SnapshotKept(w.ledger, next.ledger, id, row);
      SentFrame(w.egress, next.egress, TicketOf(id, row));
    case Answered(id, row, _) =>
      SnapshotKept(w.ledger, next.ledger, id, row);
      SentFrame(w.egress, next.egress, TicketOf(id, row));
    case Recovering(queue, _) =>
      forall i | 0 <= i < |queue| ensures SnapshotOf(next.ledger, queue[i].id, queue[i].row) {
        SnapshotKept(w.ledger, next.ledger, queue[i].id, queue[i].row);
      }
    case _ =>
  }

  lemma {:induction false} SentFrame(egress: seq<ProviderCall>, next: seq<ProviderCall>, ticket: Ticket)
    requires egress <= next
    ensures Sent(egress, ticket) ==> Sent(next, ticket)
    ensures (forall i :: |egress| <= i < |next| ==> next[i].ticket != ticket) && Sent(next, ticket) ==> Sent(egress, ticket)
  {
  }

  /**
   A step of worker `p` that advances the ledger and lengthens the records keeps the invariant as
   soon as `p` itself, the history and the verdicts are in order.
   */
  lemma {:induction false} Reassemble(env: Env, w: World, next: World, p: nat, worker: Worker)
    requires Inv(env, w)
    requires next.workers == w.workers[p := worker]
    requires Grows(w, next) && LedgerOk(next.ledger)
    requires Spool.Sound(env.hash, env.limits, next.directory)
    requires WorkerOk(env, next.ledger, next.egress, next.answers, worker)
    requires Held(worker).Some? ==>
               forall q :: q in w.workers && q != p ==> Held(w.workers[q]) != Held(worker)
    requires forall i :: |w.egress| <= i < |next.egress| ==> Held(worker) == Some(next.egress[i].ticket)
    requires forall t :: t in next.answers && t !in w.answers ==> Held(worker) == Some(t)
    requires HistoryOk(env, next.ledger, next.egress, next.answers)
    requires VerdictsOk(next.ledger, next.verdicts)
    ensures Inv(env, next) && Grows(w, next)
  {
    forall q | q in next.workers
      ensures WorkerOk(env, next.ledger, next.egress, next.answers, next.workers[q])
    {
      if q != p {
        WorkerKept(env, w, next, w.workers[q]);
      }
    }
  }

  /** The common case: only the worker, the directory or the verdicts change. */
  lemma {:induction false} ReassembleQuiet(env: Env, w: World, next: World, p: nat, worker: Worker)
    requires Inv(env, w)
    requires next == w.(workers := w.workers[p := worker], directory := next.directory, verdicts := next.verdicts)
    requires Spool.Sound(env.hash, env.limits, next.directory)
    requires WorkerOk(env, w.ledger, w.egress, w.answers, worker) && Held(worker).None?
    requires VerdictsOk(w.ledger, next.verdicts)
    ensures Inv(env, next) && Grows(w, next)
  {
    Reassemble(env, w, next, p, worker);
  }

  /** The common case of a ledger write: rows move, nothing is sent and nothing is answered. */
  lemma {:induction false} ReassembleWrite(env: Env, w: World, next: World, p: nat, worker: Worker)
    requires Inv(env, w)
    requires next == w.(workers := w.workers[p := worker], ledger := next.ledger, verdicts := next.verdicts)
    requires Advances(w.ledger, next.ledger) && LedgerOk(next.ledger)
    requires WorkerOk(env, next.ledger, w.egress, w.answers, worker)
    requires Held(worker).Some? ==>
               forall q :: q in w.workers && q != p ==> Held(w.workers[q]) != Held(worker)
    requires HistoryOk(env, next.ledger, w.egress, w.answers)
    requires VerdictsOk(next.ledger, next.verdicts)
    ensures Inv(env, next) && Grows(w, next)
  {
    Reassemble(env, w, next, p, worker);
  }

  lemma {:induction false} VerdictAppended(ledger: Ledger, verdicts: seq<Verdict>, verdict: Verdict)
    requires VerdictsOk(ledger, verdicts) && verdict.id in ledger && !verdict.Admitted?
    ensures VerdictsOk(ledger, verdicts + [verdict])
  {
  }

  // ---- admission -----------------------------------------------------------------------------

  lemma {:induction false} LoadForAdmissionKeeps(env: Env, w: World, p: nat, request: Request)
    requires Inv(env, w)
    ensures Inv(env, DoLoadForAdmission(w, p, request)) && Grows(w, DoLoadForAdmission(w, p, request))
  {
    var next := DoLoadForAdmission(w, p, request);
    if WorkerAt(w, p).Idle? {
      if request.id in w.ledger {
        VerdictAppended(w.ledger, w.verdicts, Classify(w.ledger[request.id], request));
      } else {
        ReassembleQuiet(env, w, next, p, Missed(request));
      }
    }
  }

  lemma {:induction false} StoreAudioKeeps(env: Env, w: World, p: nat, cut: Spool.Cut)
    requires Inv(env, w)
    ensures Inv(env, DoStoreAudio(env, w, p, cut)) && Grows(w, DoStoreAudio(env, w, p, cut))
  {
    var next := DoStoreAudio(env, w, p, cut);
    if WorkerAt(w, p).Missed? {
      var request := w.workers[p].request;
      Spool.StoreKeepsSound(env.hash, env.limits, w.directory, request.id, request.audio, cut);
      ReassembleQuiet(env, w, next, p, next.workers[p]);
    }
  }

  lemma {:induction false} ResolveKeeps(env: Env, w: World, p: nat, request: Request, row: Row, handle: Handle, owns: bool)
    requires Inv(env, w)
    requires request.id in w.ledger && row == w.ledger[request.id] && handle.job == request.id
    ensures Inv(env, Resolve(w, p, request, row, handle, owns)) && Grows(w, Resolve(w, p, request, row, handle, owns))
  {
    var next := Resolve(w, p, request, row, handle, owns);
    VerdictAppended(w.ledger, w.verdicts, Classify(row, request));
    ReassembleQuiet(env, w, next, p, next.workers[p]);
  }

  lemma {:induction false} InsertAdvances(env: Env, w: World, id: JobId, identity: Identity)
    requires Inv(env, w) && identity.audio.job == id
    ensures var ledger := Insert(w.ledger, id, identity).0;
            && LedgerOk(ledger) && Advances(w.ledger, ledger)
            && HistoryOk(env, ledger, w.egress, w.answers)
            && VerdictsOk(ledger, w.verdicts)
            && (id !in w.ledger ==> VerdictsOk(ledger, w.verdicts + [Admitted(id)]))
  {
    var ledger := Insert(w.ledger, id, identity).0;
    forall ticket: Ticket | ticket.job in ledger && Superseded(ledger[ticket.job], ticket.attempt)
      ensures SafelyOver(w.egress, w.answers, ticket)
    {
      assert ticket.job in w.ledger && ledger[ticket.job] == w.ledger[ticket.job];
    }
    forall i | 0 <= i < |w.egress| ensures CallOk(env, ledger, w.egress[i]) {
      assert CallOk(env, w.ledger, w.egress[i]);
    }
  }

  lemma {:induction false} InsertRowKeeps(env: Env, w: World, p: nat, fault: Fault)
    requires Inv(env, w)
    ensures Inv(env, DoInsertRow(w, p, fault)) && Grows(w, DoInsertRow(w, p, fault))
  {
    hide VerdictsOk, HistoryOk, Spool.Sound, ValidResult, Grows, HeldOnce;
    Still(w);
    var next := DoInsertRow(w, p, fault);
    match WorkerAt(w, p)
    case Spooled(request, handle, owns) =>
      assert WorkerOk(env, w.ledger, w.egress, w.answers, w.workers[p]);
      InsertAdvances(env, w, request.id, IdentityOf(request, handle));
      if fault.BeforeCommit? {
        ReassembleQuiet(env, w, next, p, next.workers[p]);
      } else if fault.NoFault? && request.id in w.ledger {
        ResolveKeeps(env, w, p, request, w.ledger[request.id], handle, owns);
      } else {
        ReassembleWrite(env, w, next, p, next.workers[p]);
      }
    case _ =>
  }

  lemma {:induction false} VerifyInsertKeeps(env: Env, w: World, p: nat, reachable: bool)
    requires Inv(env, w)
    ensures Inv(env, DoVerifyInsert(w, p, reachable)) && Grows(w, DoVerifyInsert(w, p, reachable))
  {
    var next := DoVerifyInsert(w, p, reachable);
    match WorkerAt(w, p)
    case Unverified(request, handle, owns) =>
      assert WorkerOk(env, w.ledger, w.egress, w.answers, w.workers[p]);
      if reachable && request.id in w.ledger {
        ResolveKeeps(env, w, p, request, w.ledger[request.id], handle, owns);
      } else {
        ReassembleQuiet(env, w, next, p, next.workers[p]);
      }
    case _ =>
  }

  lemma {:induction false} InLedger(ledger: Ledger, id: JobId, row: Row)
    requires SnapshotOf(ledger, id, row)
    ensures id in ledger
  {
  }

  lemma {:induction false} RemoveAudioKeeps(env: Env, w: World, p: nat, cut: Spool.Cut)
    requires Inv(env, w)
    ensures Inv(env, DoRemoveAudio(w, p, cut)) && Grows(w, DoRemoveAudio(w, p, cut))
  {
    hide HistoryOk, VerdictsOk, Spool.Sound, Spool.Remove, LedgerOk, HeldOnce, Grows, WorkersOk, SnapshotOf, Disposable;
    Still(w);
    var next := DoRemoveAudio(w, p, cut);
    match WorkerAt(w, p)
    case LostRace(request, row, handle) =>
      Knows(env, w, p);
      Spool.RemoveKeepsSound(env.hash, env.limits, w.directory, handle, cut);
      InLedger(w.ledger, request.id, row);
      VerdictAppended(w.ledger, w.verdicts, Classify(row, request));
      ReassembleQuiet(env, w, next, p, Idle);
    case RollingBack(handle) =>
      Spool.RemoveKeepsSound(env.hash, env.limits, w.directory, handle, cut);
      ReassembleQuiet(env, w, next, p, Idle);
    case CleaningUp(handle) =>
      Spool.RemoveKeepsSound(env.hash, env.limits, w.directory, handle, cut);
      ReassembleQuiet(env, w, next, p, Idle);
    case Recovering(queue, Some(handle)) =>
      Knows(env, w, p);
      Spool.RemoveKeepsSound(env.hash, env.limits, w.directory, handle, cut);
      ReassembleQuiet(env, w, next, p, next.workers[p]);
    case _ =>
  }

  // ---- execution -----------------------------------------------------------------------------

  lemma {:induction false} ReadsKeep(env: Env, w: World, p: nat, id: JobId)
    requires Inv(env, w)
    ensures Inv(env, DoLoadForExecution(w, p, id)) && Grows(w, DoLoadForExecution(w, p, id))
    ensures Inv(env, DoReadAudio(env, w, p)) && Grows(w, DoReadAudio(env, w, p))
    ensures Inv(env, Become(w, p, Idle)) && Grows(w, Become(w, p, Idle))
  {
    var loaded := DoLoadForExecution(w, p, id);
    if loaded != w {
      ReassembleQuiet(env, w, loaded, p, loaded.workers[p]);
    }
    var read := DoReadAudio(env, w, p);
    if WorkerAt(w, p).Loaded? {
      assert WorkerOk(env, w.ledger, w.egress, w.answers, w.workers[p]);
      ReassembleQuiet(env, w, read, p, read.workers[p]);
    }
    ReassembleQuiet(env, w, Become(w, p, Idle), p, Idle);
  }

  /** Moving one row along an edge keeps the history, if leaving a retryable attempt is justified. */
  lemma {:induction false} HistoryKept(env: Env, w: World, id: JobId, row: Row)
    requires Inv(env, w) && id in w.ledger && RowOk(id, row) && row.identity == w.ledger[id].identity
    requires Edge(w.ledger[id].state, row.state)
    requires row.state.Retryable? ==> SafelyOver(w.egress, w.answers, Ticket(id, row.state.attempt))
    ensures HistoryOk(env, w.ledger[id := row], w.egress, w.answers)
    ensures VerdictsOk(w.ledger[id := row], w.verdicts)
  {
    var ledger := w.ledger[id := row];
    forall i | 0 <= i < |w.egress| ensures CallOk(env, ledger, w.egress[i]) {
      assert CallOk(env, w.ledger, w.egress[i]);
    }
    forall ticket: Ticket | ticket.job in ledger && Superseded(ledger[ticket.job], ticket.attempt)
      ensures SafelyOver(w.egress, w.answers, ticket)
    {
      if ticket.job != id || Superseded(w.ledger[id], ticket.attempt) {
        assert ticket.job in w.ledger && Superseded(w.ledger[ticket.job], ticket.attempt);
      }
    }
  }

  /** A compare-and-swap made from a worker's snapshot along an edge of the lifecycle. */
  lemma {:induction false} SwapKeeps(env: Env, w: World, id: JobId, snapshot: Row, replacement: Row)
    requires Inv(env, w) && SnapshotOf(w.ledger, id, snapshot)
    requires replacement.identity == snapshot.identity && replacement.revision == snapshot.revision
    requires Edge(snapshot.state, replacement.state)
    requires Storable(id, replacement) && replacement.result.Some? ==>
               ValidResult(replacement.identity.profile, replacement.identity.durationMillis, replacement.result.value)
    requires replacement.state.Retryable? ==> SafelyOver(w.egress, w.answers, Ticket(id, replacement.state.attempt))
    ensures var (ledger, outcome) := CompareAndSwap(w.ledger, id, snapshot.revision, replacement);
            && LedgerOk(ledger) && Advances(w.ledger, ledger)
            && HistoryOk(env, ledger, w.egress, w.answers)
            && VerdictsOk(ledger, w.verdicts)
            && (outcome.Stored? ==>
                  && outcome.row == replacement.(revision := snapshot.revision + 1)
                  && SnapshotOf(ledger, id, outcome.row) && ledger[id] == outcome.row
                  && w.ledger[id] == snapshot)
  {
    SwapAdvances(w.ledger, id, snapshot, replacement);
    var (ledger, outcome) := CompareAndSwap(w.ledger, id, snapshot.revision, replacement);
    if outcome.Stored? {
      assert RowOk(id, ledger[id]);
      HistoryKept(env, w, id, outcome.row);
    }
  }

  /** Winning the claim yields a ticket that nobody holds and nobody has used. */
  lemma {:induction false} FreshTicket(env: Env, w: World, id: JobId, attempt: Attempt)
    requires Inv(env, w) && id in w.ledger && attempt > w.ledger[id].state.Attempts()
    ensures !Sent(w.egress, Ticket(id, attempt))
    ensures forall q :: q in w.workers ==> Held(w.workers[q]) != Some(Ticket(id, attempt))
  {
    assert forall i :: 0 <= i < |w.egress| ==> CallOk(env, w.ledger, w.egress[i]);
    forall q | q in w.workers ensures Held(w.workers[q]) != Some(Ticket(id, attempt)) {
      if Held(w.workers[q]) == Some(Ticket(id, attempt)) {
        assert WorkerOk(env, w.ledger, w.egress, w.answers, w.workers[q]);
        AttemptsFromRevision(w.workers[q].row, id);
        AttemptsFromRevision(w.ledger[id], id);
        assert false;
      }
    }
  }

  lemma {:induction false} ClaimKeeps(env: Env, w: World, p: nat, fault: Fault)
    requires Inv(env, w)
    ensures Inv(env, DoClaim(w, p, fault)) && Grows(w, DoClaim(w, p, fault))
  {
    hide HistoryOk, VerdictsOk, Spool.Sound, ValidResult, HeldOnce, WorkersOk;
    var next := DoClaim(w, p, fault);
    match WorkerAt(w, p)
    case Primed(id, row, audio) =>
      Knows(env, w, p);
      var begun := AfterBeginSubmission(row.state);
      if !begun.Moved? || fault.BeforeCommit? {
        ReassembleQuiet(env, w, next, p, Idle);
      } else {
        var claim := ClaimOf(row, begun.state);
        SwapKeeps(env, w, id, row, claim);
        if CompareAndSwap(w.ledger, id, row.revision, claim).1.Stored? {
          FreshTicket(env, w, id, begun.state.attempt);
        }
        ReassembleWrite(env, w, next, p, next.workers[p]);
      }
    case _ =>
  }

  /** A held, unused ticket is for the current attempt, so the new call is the latest one. */
  lemma {:induction false} SendKeeps(env: Env, w: World, p: nat)
    requires Inv(env, w)
    ensures Inv(env, DoSend(w, p)) && Grows(w, DoSend(w, p))
  {
    hide VerdictsOk, Spool.Sound, ValidResult;
    var next := DoSend(w, p);
    match WorkerAt(w, p)
    case Claimed(id, row, audio) =>
      assert WorkerOk(env, w.ledger, w.egress, w.answers, w.workers[p]);
      var ticket := TicketOf(id, row);
      AttemptsFromRevision(row, id);
      AttemptsFromRevision(w.ledger[id], id);
      assert Superseded(w.ledger[ticket.job], ticket.attempt) ==> Sent(w.egress, ticket);
      SendHistory(env, w, ProviderCall(ticket, row.identity, audio));
      assert next.egress[|w.egress|].ticket == ticket;
      Reassemble(env, w, next, p, InFlight(id, row));
    case _ =>
  }

  lemma {:induction false} SendHistory(env: Env, w: World, call: ProviderCall)
    requires Inv(env, w) && CallOk(env, w.ledger, call) && !Sent(w.egress, call.ticket)
    requires call.ticket.attempt == w.ledger[call.ticket.job].state.Attempts()
    ensures HistoryOk(env, w.ledger, w.egress + [call], w.answers)
    ensures Sent(w.egress + [call], call.ticket) && call.ticket !in w.answers
  {
    var egress := w.egress + [call];
    assert egress[|w.egress|] == call;
    assert egress[..|w.egress|] == w.egress;
    forall i | 0 <= i < |w.egress| && w.egress[i].ticket.job == call.ticket.job
      ensures w.egress[i].ticket.attempt < call.ticket.attempt
    {
      assert CallOk(env, w.ledger, w.egress[i]);
      assert w.egress[i].ticket != call.ticket;
    }
    forall ticket: Ticket ensures Sent(w.egress, ticket) ==> Sent(egress, ticket) {
      SentFrame(w.egress, egress, ticket);
    }
  }

  lemma {:induction false} AnswerHistory(env: Env, ledger: Ledger, egress: seq<ProviderCall>, answers: map<Ticket, Answer>, ticket: Ticket, answer: Answer)
    requires HistoryOk(env, ledger, egress, answers) && ticket !in answers && Sent(egress, ticket)
    ensures HistoryOk(env, ledger, egress, answers[ticket := answer])
  {
  }

  lemma {:induction false} ReplyKeeps(env: Env, w: World, p: nat, answer: Answer)
    requires Inv(env, w)
    ensures Inv(env, DoReply(w, p, answer)) && Grows(w, DoReply(w, p, answer))
  {
    hide VerdictsOk, HistoryOk, Spool.Sound, LedgerOk, ValidResult, WorkersOk, SnapshotOf;
    var next := DoReply(w, p, answer);
    match WorkerAt(w, p)
    case InFlight(id, row) =>
      Knows(env, w, p);
      AnswerHistory(env, w.ledger, w.egress, w.answers, TicketOf(id, row), answer);
      Reassemble(env, w, next, p, Answered(id, row, answer));
    case _ =>
  }

  lemma {:induction false} OutcomeFollowsEdge(row: Row, id: JobId, answer: Answer, projectable: bool)
    requires RowOk(id, row) && row.state.Submitting?
    ensures var next := OutcomeOf(row, answer, projectable);
            && Edge(row.state, next.state)
            && next.identity == row.identity && next.revision == row.revision
            && (next.state.Retryable? ==> answer.PermitsRetry())
            && (next.result.Some? ==>
                  ValidResult(next.identity.profile, next.identity.durationMillis, next.result.value))
  {
  }

  lemma {:induction false} RecordKeeps(env: Env, w: World, p: nat, projectable: bool, fault: Fault)
    requires Inv(env, w)
    ensures Inv(env, DoRecord(w, p, projectable, fault)) && Grows(w, DoRecord(w, p, projectable, fault))
  {
    hide HistoryOk, VerdictsOk, Spool.Sound, ValidResult, HeldOnce, WorkersOk, LedgerOk, OutcomeOf;
    var next := DoRecord(w, p, projectable, fault);
    match WorkerAt(w, p)
    case Answered(id, row, answer) =>
      Knows(env, w, p);
      if fault.BeforeCommit? {
        ReassembleQuiet(env, w, next, p, Idle);
      } else {
        OutcomeSwapKeeps(env, w, id, row, answer, projectable);
        ReassembleWrite(env, w, next, p, next.workers[p]);
      }
    case _ =>
  }

  lemma {:induction false} OutcomeSwapKeeps(env: Env, w: World, id: JobId, row: Row, answer: Answer, projectable: bool)
    requires Inv(env, w) && SnapshotOf(w.ledger, id, row) && row.state.Submitting?
    requires Sent(w.egress, TicketOf(id, row)) && TicketOf(id, row) in w.answers && w.answers[TicketOf(id, row)] == answer
    ensures var (ledger, outcome) := CompareAndSwap(w.ledger, id, row.revision, OutcomeOf(row, answer, projectable));
            && LedgerOk(ledger) && Advances(w.ledger, ledger)
            && HistoryOk(env, ledger, w.egress, w.answers) && VerdictsOk(ledger, w.verdicts)
            && (outcome.Stored? ==>
                  && SnapshotOf(ledger, id, outcome.row) && ledger[id] == outcome.row
                  && (outcome.row.state.IsTerminal() ==> Disposable(ledger, outcome.row.identity.audio)))
  {
    hide HistoryOk, VerdictsOk, Spool.Sound, ValidResult, HeldOnce, WorkersOk, LedgerOk, Inv, OutcomeOf;
    OutcomeFollowsEdge(row, id, answer, projectable);
    SwapKeeps(env, w, id, row, OutcomeOf(row, answer, projectable));
  }

  // ---- startup recovery ------------------------------------------------------------------------

  lemma {:induction false} ListCandidatesKeeps(env: Env, w: World, p: nat, after: Option<JobId>, through: JobId, ids: seq<JobId>)
    requires Inv(env, w)
    ensures Inv(env, DoListCandidates(w, p, after, through, ids)) && Grows(w, DoListCandidates(w, p, after, through, ids))
  {
    var next := DoListCandidates(w, p, after, through, ids);
    if next != w {
      forall i | 0 <= i < |ids| ensures SnapshotOf(w.ledger, ids[i], w.ledger[ids[i]]) {
        assert Listed(w.ledger, after, through, ids[i]);
      }
      ReassembleQuiet(env, w, next, p, next.workers[p]);
    }
  }

  lemma {:induction false} ReconcileSubmission(env: Env, w: World, p: nat, queue: seq<Candidate>, fault: Fault)
    requires Inv(env, w) && WorkerAt(w, p) == Recovering(queue, None)
    requires queue != [] && queue[0].row.state.Submitting? && !fault.BeforeCommit?
    ensures Inv(env, DoReconcile(w, p, fault)) && Grows(w, DoReconcile(w, p, fault))
  {
    hide VerdictsOk, HistoryOk, Spool.Sound, ValidResult;
    var next := DoReconcile(w, p, fault);
    var Candidate(id, row) := queue[0];
    assert WorkerOk(env, w.ledger, w.egress, w.answers, w.workers[p]);
    assert SnapshotOf(w.ledger, queue[0].id, queue[0].row);
    SwapKeeps(env, w, id, row, row.(state := AfterRecoverInterrupted(row.state)));
    RestKept(w.ledger, next.ledger, queue);
    ReassembleWrite(env, w, next, p, next.workers[p]);
  }

  lemma {:induction false} RestKept(before: Ledger, after: Ledger, queue: seq<Candidate>)
    requires queue != [] && Advances(before, after)
    requires forall i :: 0 <= i < |queue| ==> SnapshotOf(before, queue[i].id, queue[i].row)
    ensures forall i :: 0 <= i < |queue[1..]| ==> SnapshotOf(after, queue[1..][i].id, queue[1..][i].row)
  {
  }

  lemma {:induction false} ReconcileKeeps(env: Env, w: World, p: nat, fault: Fault)
    requires Inv(env, w)
    ensures Inv(env, DoReconcile(w, p, fault)) && Grows(w, DoReconcile(w, p, fault))
  {
    hide VerdictsOk, HistoryOk, Spool.Sound, LedgerOk, ValidResult, HeldOnce;
    var next := DoReconcile(w, p, fault);
    match WorkerAt(w, p)
    case Recovering(queue, None) =>
      if queue != [] && queue[0].row.state.Submitting? && !fault.BeforeCommit? {
        ReconcileSubmission(env, w, p, queue, fault);
      } else {
        assert WorkerOk(env, w.ledger, w.egress, w.answers, w.workers[p]);
        if queue != [] {
          RestKept(w.ledger, w.ledger, queue);
        }
        ReassembleQuiet(env, w, next, p, next.workers[p]);
      }
    case _ =>
  }
}
