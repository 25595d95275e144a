/**
 What the batch protocol guarantees in every run: for any number of workers, any interleaving of
 their steps, any ledger or spool fault and any stop.
 */
module BatchTheorems {
  import opened Base
  import opened BatchDomain
  import opened BatchResults
  import opened BatchLedger
  import opened BatchProtocol
  import opened BatchInvariant
  import Spool = BatchSpool

  lemma {:induction false} GrowsTransitively(a: World, b: World, c: World)
    requires Grows(a, b) && Grows(b, c)
    ensures Grows(a, c)
  {
  }

  lemma {:induction false} StepKeeps(env: Env, w: World, a: Action)
    requires Inv(env, w)
    ensures Inv(env, Apply(env, w, a)) && Grows(w, Apply(env, w, a))
  {
    hide Inv, Grows;
    match a
    case LoadForAdmission(p, request) => LoadForAdmissionKeeps(env, w, p, request);
    case StoreAudio(p, cut) => StoreAudioKeeps(env, w, p, cut);
    case InsertRow(p, fault) => InsertRowKeeps(env, w, p, fault);
    case VerifyInsert(p, reachable) => VerifyInsertKeeps(env, w, p, reachable);
    case RemoveAudio(p, cut) => RemoveAudioKeeps(env, w, p, cut);
    case LoadForExecution(p, id) => ReadsKeep(env, w, p, id);
    case ReadAudio(p) => ReadsKeep(env, w, p, 0);
    case Claim(p, fault) => ClaimKeeps(env, w, p, fault);
    case Send(p) => SendKeeps(env, w, p);
    case Reply(p, answer) => ReplyKeeps(env, w, p, answer);
    case Record(p, fault) => RecordKeeps(env, w, p, Projects(env, w, p), fault);
    case ListCandidates(p, after, through, ids) => ListCandidatesKeeps(env, w, p, after, through, ids);
    case Reconcile(p, fault) => ReconcileKeeps(env, w, p, fault);
    case Stop(p) => ReadsKeep(env, w, p, 0);
  }

  lemma {:induction false} RunKeeps(env: Env, w: World, actions: seq<Action>)
    requires Inv(env, w)
    ensures Inv(env, Run(env, w, actions)) && Grows(w, Run(env, w, actions))
    decreases |actions|
  {
    hide Inv, Grows, Apply;
    if actions == [] {
      Still(w);
    } else {
      var before := Run(env, w, actions[..|actions| - 1]);
      RunKeeps(env, w, actions[..|actions| - 1]);
      StepKeeps(env, before, actions[|actions| - 1]);
      GrowsTransitively(w, before, Apply(env, before, actions[|actions| - 1]));
    }
  }

  lemma {:induction false} StartKeeps(env: Env)
    ensures Inv(env, Start)
  {
  }

  /** Every reachable world satisfies the invariant. */
  lemma {:induction false} Reachable(env: Env, actions: seq<Action>)
    ensures Inv(env, Run(env, Start, actions))
  {
    StartKeeps(env);
    RunKeeps(env, Start, actions);
  }

  /** A later world of the same run grows out of an earlier one, and both satisfy the invariant. */
  lemma {:induction false} LaterInRun(env: Env, earlier: seq<Action>, later: seq<Action>)
    ensures Inv(env, Run(env, Start, earlier)) && Inv(env, Run(env, Start, earlier + later))
    ensures Grows(Run(env, Start, earlier), Run(env, Start, earlier + later))
  {
    hide Inv, Grows, Apply;
    Reachable(env, earlier);
    RunKeeps(env, Run(env, Start, earlier), later);
    RunConcat(env, Start, earlier, later);
  }

  // ---- the submission fence -------------------------------------------------------------------

  /**
   In every run no (job, attempt) reaches the provider twice, and every call of a job that is
   followed by another one was answered as known not accepted and retryable.
   */
  lemma {:induction false} FencedSubmission(env: Env, actions: seq<Action>, i: nat, j: nat)
    requires i < j < |Run(env, Start, actions).egress|
    requires Run(env, Start, actions).egress[i].ticket.job == Run(env, Start, actions).egress[j].ticket.job
    ensures var w := Run(env, Start, actions);
            && w.egress[i].ticket.attempt < w.egress[j].ticket.attempt
            && w.egress[i].ticket in w.answers
            && w.answers[w.egress[i].ticket].PermitsRetry()
  {
    hide Run, Apply, WorkersOk, Spool.Sound, ValidResult;
    Reachable(env, actions);
    var w := Run(env, Start, actions);
    assert CallOk(env, w.ledger, w.egress[j]);
    assert Superseded(w.ledger[w.egress[i].ticket.job], w.egress[i].ticket.attempt);
  }

  /** The provider may have accepted the submission: it was sent and never known to be refused. */
  ghost predicate MayBeAccepted(w: World, ticket: Ticket) {
    Sent(w.egress, ticket) && !(ticket in w.answers && w.answers[ticket].KnownNotAccepted?)
  }

  /** At most one submission of a job can ever have been accepted by the paid provider. */
  lemma {:induction false} AtMostOneAccepted(env: Env, actions: seq<Action>, first: Ticket, second: Ticket)
    requires first.job == second.job
    requires MayBeAccepted(Run(env, Start, actions), first) && MayBeAccepted(Run(env, Start, actions), second)
    ensures first == second
  {
    hide Run, Apply, WorkersOk, Spool.Sound, ValidResult;
    var w := Run(env, Start, actions);
    var i :| 0 <= i < |w.egress| && w.egress[i].ticket == first;
    var j :| 0 <= j < |w.egress| && w.egress[j].ticket == second;
    if i < j {
      FencedSubmission(env, actions, i, j);
    } else if j < i {
      FencedSubmission(env, actions, j, i);
    }
  }

  /**
   Once a submission has been answered in any way that does not prove it safe to repeat, no later
   step of any worker submits that job again.
   */
  lemma {:induction false} UncertainNeverRetried(env: Env, earlier: seq<Action>, later: seq<Action>, ticket: Ticket, i: nat)
    requires ticket in Run(env, Start, earlier).answers
    requires !Run(env, Start, earlier).answers[ticket].PermitsRetry()
    requires |Run(env, Start, earlier).egress| <= i < |Run(env, Start, earlier + later).egress|
    ensures Run(env, Start, earlier + later).egress[i].ticket.job != ticket.job
  {
    hide Run, Apply, WorkersOk, Spool.Sound, ValidResult;
    LaterInRun(env, earlier, later);
    var w, next := Run(env, Start, earlier), Run(env, Start, earlier + later);
    assert Sent(w.egress, ticket);
    var k :| 0 <= k < |w.egress| && w.egress[k].ticket == ticket;
    assert next.egress[k] == next.egress[..|w.egress|][k];
    if next.egress[i].ticket.job == ticket.job {
      FencedSubmission(env, earlier + later, k, i);
    }
  }

  /** Sent, never answered, and no worker left that could still learn the answer. */
  ghost predicate Abandoned(w: World, ticket: Ticket) {
    && Sent(w.egress, ticket) && ticket !in w.answers
    && forall q :: q in w.workers ==> Held(w.workers[q]) != Some(ticket)
  }

  /** Only a reply answers, and it answers the ticket its worker holds. */
  lemma {:induction false} OnlyRepliesAnswer(env: Env, w: World, a: Action, ticket: Ticket)
    requires ticket !in w.answers && ticket in Apply(env, w, a).answers
    ensures a.p in w.workers && Held(w.workers[a.p]) == Some(ticket)
  {
    hide IsPage, Spool.Store, Spool.Remove, OutcomeOf, CompareAndSwap, Insert;
  }

  predicate Submits(a: Action) {
    a.Send? || a.Reply? || a.Record? || a.ReadAudio? || a.LoadForExecution?
  }

  predicate Admits(a: Action) {
    a.LoadForAdmission? || a.StoreAudio? || a.InsertRow? || a.VerifyInsert?
  }

  lemma {:induction false} SubmitterTakesNothing(env: Env, w: World, a: Action, q: nat, ticket: Ticket)
    requires Submits(a) && q in Apply(env, w, a).workers && Held(Apply(env, w, a).workers[q]) == Some(ticket)
    ensures q in w.workers && Held(w.workers[q]) == Some(ticket)
  {
    hide OutcomeOf, CompareAndSwap;
  }

  lemma {:induction false} AdmitterTakesNothing(env: Env, w: World, a: Action, q: nat, ticket: Ticket)
    requires Admits(a) && q in Apply(env, w, a).workers && Held(Apply(env, w, a).workers[q]) == Some(ticket)
    ensures q in w.workers && Held(w.workers[q]) == Some(ticket)
  {
    hide Spool.Store, Insert;
  }

  lemma {:induction false} OthersTakeNothing(env: Env, w: World, a: Action, q: nat, ticket: Ticket)
    requires !a.Claim? && !Submits(a) && !Admits(a) && q in Apply(env, w, a).workers && Held(Apply(env, w, a).workers[q]) == Some(ticket)
    ensures q in w.workers && Held(w.workers[q]) == Some(ticket)
  {
    hide IsPage, Spool.Remove, CompareAndSwap;
  }

  lemma {:induction false} ClaimTakesNext(env: Env, w: World, p: nat, fault: Fault, q: nat, ticket: Ticket)
    requires Inv(env, w) && q in DoClaim(w, p, fault).workers && Held(DoClaim(w, p, fault).workers[q]) == Some(ticket)
    ensures || (q in w.workers && Held(w.workers[q]) == Some(ticket))
            || (ticket.job in w.ledger && ticket.attempt > w.ledger[ticket.job].state.Attempts())
  {
    hide Spool.Sound, HistoryOk, VerdictsOk, HeldOnce, ValidResult, WorkersOk, LedgerOk;
    if WorkerAt(w, q).Primed? {
      Knows(env, w, q);
    }
  }

  /** A worker comes to hold a ticket only by winning a claim of the next attempt. */
  lemma {:induction false} OnlyClaimsTake(env: Env, w: World, a: Action, q: nat, ticket: Ticket)
    requires Inv(env, w) && q in Apply(env, w, a).workers && Held(Apply(env, w, a).workers[q]) == Some(ticket)
    ensures || (q in w.workers && Held(w.workers[q]) == Some(ticket))
            || (ticket.job in w.ledger && ticket.attempt > w.ledger[ticket.job].state.Attempts())
  {
    hide Inv, Held, Submits, Admits, DoClaim, DoRecord, DoReconcile, DoListCandidates, DoInsertRow, DoStoreAudio;
    if a.Claim? {
      ClaimTakesNext(env, w, a.p, a.fault, q, ticket);
    } else if Submits(a) {
      SubmitterTakesNothing(env, w, a, q, ticket);
    } else if Admits(a) {
      AdmitterTakesNothing(env, w, a, q, ticket);
    } else {
      OthersTakeNothing(env, w, a, q, ticket);
    }
  }

  lemma {:induction false} AbandonedStays(env: Env, w: World, a: Action, ticket: Ticket)
    requires Inv(env, w) && Abandoned(w, ticket)
    ensures Abandoned(Apply(env, w, a), ticket)
  {
    hide Apply, WorkersOk, Spool.Sound, ValidResult;
    var next := Apply(env, w, a);
    StepKeeps(env, w, a);
    SentFrame(w.egress, next.egress, ticket);
    if ticket in next.answers {
      OnlyRepliesAnswer(env, w, a, ticket);
    }
    var k :| 0 <= k < |w.egress| && w.egress[k].ticket == ticket;
    assert CallOk(env, w.ledger, w.egress[k]);
    forall q | q in next.workers ensures Held(next.workers[q]) != Some(ticket) {
      if Held(next.workers[q]) == Some(ticket) {
        OnlyClaimsTake(env, w, a, q, ticket);
      }
    }
  }

  /**
   Once the worker that sent a submission is gone without an answer, no later step of any worker,
   recovery included, submits that job again or learns what became of it.
   */
  lemma {:induction false} AbandonedNeverRetried(env: Env, earlier: seq<Action>, later: seq<Action>, ticket: Ticket)
    requires Abandoned(Run(env, Start, earlier), ticket)
    ensures var w, next := Run(env, Start, earlier), Run(env, Start, earlier + later);
            && ticket !in next.answers
            && forall i :: |w.egress| <= i < |next.egress| ==> next.egress[i].ticket.job != ticket.job
  {
    hide Run, Apply, WorkersOk, Spool.Sound, ValidResult;
    LaterInRun(env, earlier, later);
    AbandonedForever(env, earlier, later, ticket);
    var w, next := Run(env, Start, earlier), Run(env, Start, earlier + later);
    var k :| 0 <= k < |w.egress| && w.egress[k].ticket == ticket;
    assert next.egress[k] == next.egress[..|w.egress|][k];
    forall i | |w.egress| <= i < |next.egress| ensures next.egress[i].ticket.job != ticket.job {
      if next.egress[i].ticket.job == ticket.job {
        FencedSubmission(env, earlier + later, k, i);
      }
    }
  }

  lemma {:induction false} AbandonedForever(env: Env, earlier: seq<Action>, later: seq<Action>, ticket: Ticket)
    requires Abandoned(Run(env, Start, earlier), ticket)
    ensures Abandoned(Run(env, Start, earlier + later), ticket)
    decreases |later|
  {
    hide Apply, Abandoned, Inv;
    if later == [] {
      assert earlier + later == earlier;
    } else {
      var init := later[..|later| - 1];
      AbandonedForever(env, earlier, init, ticket);
      assert (earlier + later)[..|earlier + later| - 1] == earlier + init;
      Reachable(env, earlier + init);
      AbandonedStays(env, Run(env, Start, earlier + init), later[|later| - 1], ticket);
    }
  }

  /**
   A terminal row never changes again. The only call that can still follow it is the one whose
   claim was already held when recovery declared that same attempt unknown.
   */
  lemma {:induction false} TerminalForever(env: Env, earlier: seq<Action>, later: seq<Action>, id: JobId)
    requires id in Run(env, Start, earlier).ledger && Run(env, Start, earlier).ledger[id].state.IsTerminal()
    ensures var w := Run(env, Start, earlier);
            var next := Run(env, Start, earlier + later);
            && id in next.ledger && next.ledger[id] == w.ledger[id]
            && forall i :: |w.egress| <= i < |next.egress| && next.egress[i].ticket.job == id ==>
                 next.egress[i].ticket.attempt == w.ledger[id].state.attempt
  {
    hide Run, Apply, WorkersOk, Spool.Sound, ValidResult;
    LaterInRun(env, earlier, later);
    var w, next := Run(env, Start, earlier), Run(env, Start, earlier + later);
    forall i | |w.egress| <= i < |next.egress| && next.egress[i].ticket.job == id
      ensures next.egress[i].ticket.attempt == w.ledger[id].state.attempt
    {
      var ticket := next.egress[i].ticket;
      assert CallOk(env, next.ledger, next.egress[i]);
      assert Superseded(w.ledger[ticket.job], ticket.attempt) ==> Sent(w.egress, ticket);
    }
  }

  /** Every provider call carries the admitted identity, and audio with the admitted digest. */
  lemma {:induction false} CallsCarryAdmission(env: Env, earlier: seq<Action>, later: seq<Action>, i: nat)
    requires i < |Run(env, Start, earlier).egress|
    ensures var call := Run(env, Start, earlier).egress[i];
            var next := Run(env, Start, earlier + later);
            && call.ticket.job in next.ledger
            && next.ledger[call.ticket.job].identity == call.identity
            && env.hash(call.audio) == call.identity.audio.digest
            && call.identity.audio.job == call.ticket.job
  {
    hide Run, Apply, WorkersOk, Spool.Sound, ValidResult;
    LaterInRun(env, earlier, later);
    var w := Run(env, Start, earlier);
    assert CallOk(env, w.ledger, w.egress[i]);
    assert RowOk(w.egress[i].ticket.job, w.ledger[w.egress[i].ticket.job]);
  }

  // ---- rows and admissions ---------------------------------------------------------------------

  /**
   Every reachable row: Accepted at revision 0, Submitting attempt n at 2n - 1, anything else of
   attempt n at 2n; a valid result exactly when Completed; a bounded delay only when Retryable.
   The revision therefore always fits the ledger's 64-bit column.
   */
  lemma {:induction false} ReachableRows(env: Env, actions: seq<Action>, id: JobId)
    requires id in Run(env, Start, actions).ledger
    ensures RowOk(id, Run(env, Start, actions).ledger[id])
    ensures Run(env, Start, actions).ledger[id].revision < I64_MAX
  {
    hide Run, Apply, WorkersOk, Spool.Sound, ValidResult;
    Reachable(env, actions);
  }

  /** The identity chosen at admission is the identity in every later world. */
  lemma {:induction false} IdentityForever(env: Env, earlier: seq<Action>, later: seq<Action>, id: JobId)
    requires id in Run(env, Start, earlier).ledger
    ensures id in Run(env, Start, earlier + later).ledger
    ensures Run(env, Start, earlier + later).ledger[id].identity == Run(env, Start, earlier).ledger[id].identity
    ensures Run(env, Start, earlier + later).ledger[id].revision >= Run(env, Start, earlier).ledger[id].revision
  {
    hide Run, Apply, WorkersOk, Spool.Sound, ValidResult;
    LaterInRun(env, earlier, later);
  }

  /** Each id is durably accepted for at most one caller, and every verdict is about an existing row. */
  lemma {:induction false} AdmittedOnce(env: Env, actions: seq<Action>)
    ensures var w := Run(env, Start, actions);
            && (forall i :: 0 <= i < |w.verdicts| ==> w.verdicts[i].id in w.ledger)
            && (forall i, j :: 0 <= i < j < |w.verdicts| && w.verdicts[i].Admitted? && w.verdicts[j].Admitted? ==>
                  w.verdicts[i].id != w.verdicts[j].id)
  {
    hide Run, Apply, WorkersOk, Spool.Sound, ValidResult;
    Reachable(env, actions);
  }

  /** The request an admission step is about. */
  function RequestOf(w: World, a: Action): Option<Request> {
    if a.LoadForAdmission? then Some(a.request)
    else
      match WorkerAt(w, a.p)
      case Spooled(request, _, _) => Some(request)
      case Unverified(request, _, _) => Some(request)
      case LostRace(request, _, _) => Some(request)
      case _ => None
  }

  /**
   Every verdict a step gives is true: a caller is told Admitted only for the step that creates the
   row, with the request's own identity and audio, and otherwise the ledger is left alone and the caller is told Replayed exactly when the
   stored profile and fingerprint are the ones requested.
   */
  lemma {:induction false} VerdictsAreTruthful(env: Env, actions: seq<Action>, a: Action)
    ensures var w := Run(env, Start, actions);
            var next := Apply(env, w, a);
            next.verdicts != w.verdicts ==>
              && |next.verdicts| == |w.verdicts| + 1 && w.verdicts < next.verdicts
              && RequestOf(w, a).Some?
              && Truthful(env, w.ledger, next.ledger, RequestOf(w, a).value, next.verdicts[|w.verdicts|])
  {
    hide Run, ValidResult, Spool.Sound, HistoryOk, HeldOnce, VerdictsOk, LedgerOk, CompareAndSwap;
    Reachable(env, actions);
    var w := Run(env, Start, actions);
    if (a.RemoveAudio? && WorkerAt(w, a.p).LostRace?) || (a.InsertRow? && WorkerAt(w, a.p).Spooled?) {
      Knows(env, w, a.p);
    }
  }

  /** The row is a fresh one for exactly this request. */
  ghost predicate AdmittedFor(env: Env, request: Request, row: Row) {
    && row.state.Accepted? && row.revision == 0
    && row.identity.profile == request.profile && row.identity.fingerprint == request.fingerprint
    && row.identity.durationMillis == request.durationMillis && row.identity.keyterms == request.keyterms
    && row.identity.audio.job == request.id && row.identity.audio.digest == env.hash(request.audio)
  }

  ghost predicate Truthful(env: Env, before: Ledger, after: Ledger, request: Request, verdict: Verdict) {
    && verdict.id == request.id
    && if verdict.Admitted? then request.id !in before && request.id in after && AdmittedFor(env, request, after[request.id])
       else
         && after == before && request.id in before
         && (verdict.Replayed? <==>
               before[request.id].identity.profile == request.profile && before[request.id].identity.fingerprint == request.fingerprint)
  }

  /**
   From its admission on, whoever asks for the same id is answered by the request that was admitted:
   replayed exactly if profile and fingerprint agree with it, and never admitted again.
   */
  lemma {:induction false} AdmissionDecides(env: Env, earlier: seq<Action>, admitting: Action, later: seq<Action>, asking: Action)
    requires var w := Run(env, Start, earlier);
             var next := Apply(env, w, admitting);
             |next.verdicts| > |w.verdicts| && next.verdicts[|w.verdicts|].Admitted?
    requires var w := Run(env, Start, earlier + [admitting] + later);
             && |Apply(env, w, asking).verdicts| > |w.verdicts|
             && RequestOf(w, asking).Some? && RequestOf(Run(env, Start, earlier), admitting).Some?
             && RequestOf(w, asking).value.id == RequestOf(Run(env, Start, earlier), admitting).value.id
    ensures var first := RequestOf(Run(env, Start, earlier), admitting).value;
            var w := Run(env, Start, earlier + [admitting] + later);
            var second, verdict := RequestOf(w, asking).value, Apply(env, w, asking).verdicts[|w.verdicts|];
            && !verdict.Admitted?
            && (verdict.Replayed? <==> second.profile == first.profile && second.fingerprint == first.fingerprint)
  {
    hide Apply, RequestOf, Inv;
    var first := RequestOf(Run(env, Start, earlier), admitting).value;
    VerdictsAreTruthful(env, earlier, admitting);
    AfterOne(env, earlier, admitting);
    IdentityForever(env, earlier + [admitting], later, first.id);
    VerdictsAreTruthful(env, earlier + [admitting] + later, asking);
  }

  lemma {:induction false} AfterOne(env: Env, earlier: seq<Action>, a: Action)
    ensures Run(env, Start, earlier + [a]) == Apply(env, Run(env, Start, earlier), a)
  {
    assert (earlier + [a])[..|earlier|] == earlier;
  }
}
