/**
 Exact-head startup reconciliation (`reconcile_startup` in
 crates/voicetext-gateway/src/server/recovery.rs, over `recover_startup_through` and
 `reconcile_candidates` in crates/voicetext-speech/src/application/batch_recovery.rs).

 The reconciliation shares the ledger with other workers. Before every ledger operation the
 environment may have replaced the ledger by any later version of it, which is all that steps of
 the batch protocol can do to it, and the operation itself may fail.
 */
module StartupRecovery {
  import opened Base
  import opened BatchDomain
  import opened BatchResults
  import opened BatchLedger
  import opened BatchProtocol
  import opened BatchInvariant
  import opened BatchTheorems

  /** One suspension point: what the others left behind, and how the next operation fares. */
  datatype Event = Event(others: Ledger, fault: Fault)

  predicate Healthy(events: seq<Event>) {
    forall i :: 0 <= i < |events| ==> events[i].fault.NoFault?
  }

  datatype Outcome = Reconciled(summary: Summary) | LedgerUnavailable | SpoolUnavailable | NoProfile | CursorStuck

  datatype Summary = Summary(pages: nat, recoveredUnknown: nat, conflicts: nat, missing: nat)

  datatype PageOutcome =
    | Page(actionable: nat, recovered: nat, conflicts: nat, missing: nat, nextCursor: Option<JobId>)
    | PageFailed(spool: bool)

  /** What became of one candidate. */
  datatype Turn = Actionable | Recovered | Contended | TurnFailed(spool: bool)

  /** The row has moved on from the version that was frozen. */
  predicate MovedOn(frozen: Ledger, ledger: Ledger, id: JobId)
    requires id in frozen && id in ledger
  {
    ledger[id].revision > frozen[id].revision
  }

  /** A submission that was in flight when the head was frozen is over; nothing is asked of other rows. */
  predicate Done(frozen: Ledger, ledger: Ledger, id: JobId) {
    id in frozen && frozen[id].state.Submitting? ==> id in ledger && MovedOn(frozen, ledger, id)
  }

  /** A candidate was listed after the head was frozen. */
  predicate NoOlder(frozen: Ledger, candidate: Candidate) {
    candidate.id in frozen && frozen[candidate.id].state.Submitting? ==>
      && candidate.row.revision >= frozen[candidate.id].revision
      && (!candidate.row.state.Submitting? ==> candidate.row.revision > frozen[candidate.id].revision)
  }

  lemma {:induction false} DoneKept(frozen: Ledger, ledger: Ledger, later: Ledger, candidates: seq<Candidate>)
    requires Advances(ledger, later)
    requires forall i :: 0 <= i < |candidates| ==> Done(frozen, ledger, candidates[i].id)
    ensures forall i :: 0 <= i < |candidates| ==> Done(frozen, later, candidates[i].id)
  {
  }

  ghost predicate SettledUpTo(frozen: Ledger, ledger: Ledger, bound: JobId)
    requires Advances(frozen, ledger)
  {
    forall id :: id in frozen && frozen[id].state.Submitting? && id <= bound ==> MovedOn(frozen, ledger, id)
  }

  lemma {:induction false} SettledKept(frozen: Ledger, ledger: Ledger, later: Ledger, bound: JobId)
    requires Advances(frozen, ledger) && Advances(ledger, later) && Advances(frozen, later)
    requires SettledUpTo(frozen, ledger, bound)
    ensures SettledUpTo(frozen, later, bound)
  {
  }

  /** Rows that are terminally unknown because their submission was interrupted. */
  ghost predicate AllInterrupted(ledger: Ledger, ids: set<JobId>) {
    forall id :: id in ids ==>
      id in ledger && ledger[id].state.OutcomeUnknown? && ledger[id].state.reason.InterruptedSubmission?
  }

  lemma {:induction false} InterruptedKept(before: Ledger, after: Ledger, ids: set<JobId>)
    requires AllInterrupted(before, ids) && Advances(before, after)
    ensures AllInterrupted(after, ids)
  {
  }

  function Submissions(candidates: seq<Candidate>): nat {
    if candidates == [] then 0
    else Submissions(candidates[..|candidates| - 1]) + if candidates[|candidates| - 1].row.state.Submitting? then 1 else 0
  }

  class Reconciliation {
    var ledger: Ledger
    var events: seq<Event>

    /** The jobs this reconciliation made terminally unknown. */
    ghost var swapped: set<JobId>

    constructor (ledger: Ledger, events: seq<Event>)
      ensures this.ledger == ledger && this.events == events && swapped == {}
    {
      this.ledger := ledger;
      this.events := events;
      swapped := {};
    }

    /** Other workers run; any later version of the ledger is possible. */
    method Suspend() returns (fault: Fault)
      requires LedgerOk(ledger)
      modifies this`ledger, this`events
      ensures LedgerOk(ledger) && Advances(old(ledger), ledger)
      ensures Healthy(old(events)) ==> fault.NoFault? && Healthy(events)
    {
      if events == [] {
        return NoFault;
      }
      var event := events[0];
      events := events[1..];
      if LedgerOk(event.others) && Advances(ledger, event.others) {
        ledger := event.others;
      }
      fault := event.fault;
    }

    /** One candidate of a page: an interrupted submission becomes terminally unknown. */
    method RecoverOne(id: JobId, row: Row, ghost frozen: Ledger) returns (update: UpdateOutcome, failed: bool)
      requires LedgerOk(ledger) && SnapshotOf(ledger, id, row) && row.state.Submitting?
      requires LedgerOk(frozen) && Advances(frozen, ledger)
      requires id in frozen && frozen[id].state.Submitting? ==> row.revision >= frozen[id].revision
      requires AllInterrupted(ledger, swapped)
      modifies this
      ensures AllInterrupted(ledger, swapped)
      ensures !failed ==> (update.Stored? <==> swapped != old(swapped))
      ensures !failed && update.Stored? ==> id !in old(swapped) && swapped == old(swapped) + {id}
      ensures LedgerOk(ledger) && Advances(old(ledger), ledger)
      ensures Healthy(old(events)) ==> !failed && Healthy(events)
      ensures !failed ==> !update.Missing? && !update.Rejected?
      ensures !failed && update.Stored? ==>
                && id in ledger && ledger[id] == update.row
                && update.row.state == OutcomeUnknown(row.state.attempt, InterruptedSubmission)
      ensures !failed && id in frozen && frozen[id].state.Submitting? ==> id in ledger && MovedOn(frozen, ledger, id)
    {
      var fault := Suspend();
      SnapshotKept(old(ledger), ledger, id, row);
      AdvancesTransitively(frozen, old(ledger), ledger);
      InterruptedKept(old(ledger), ledger, swapped);
      label suspended:
      if fault.BeforeCommit? {
        return Missing, true;
      }
      var recovered := row.(state := AfterRecoverInterrupted(row.state));
      SwapAdvances(ledger, id, row, recovered);
      var (after, outcome) := CompareAndSwap(ledger, id, row.revision, recovered);
      ledger := after;
      InterruptedKept(old@suspended(ledger), ledger, swapped);
      AdvancesTransitively(old(ledger), old@suspended(ledger), ledger);
      if outcome.Stored? {
        swapped := swapped + {id};
      }
      update := outcome;
      failed := fault.AfterCommit? || outcome.Rejected?;
    }

    /** One turn of `reconcile_candidates`; afterwards the candidate is no longer in the frozen submission. */
    method ReconcileOne(candidate: Candidate, ghost frozen: Ledger) returns (turn: Turn)
      requires LedgerOk(ledger) && LedgerOk(frozen) && Advances(frozen, ledger)
      requires SnapshotOf(ledger, candidate.id, candidate.row) && NoOlder(frozen, candidate)
      requires AllInterrupted(ledger, swapped)
      modifies this
      ensures AllInterrupted(ledger, swapped)
      ensures turn.Recovered? ==> candidate.id !in old(swapped) && swapped == old(swapped) + {candidate.id}
      ensures turn.Actionable? || turn.Contended? ==> swapped == old(swapped)
      ensures LedgerOk(ledger) && Advances(old(ledger), ledger)
      ensures Healthy(old(events)) ==> !turn.TurnFailed? && Healthy(events)
      ensures !turn.TurnFailed? ==> Done(frozen, ledger, candidate.id)
      ensures turn.Actionable? ==> !candidate.row.state.Submitting?
      ensures turn.Recovered? || turn.Contended? ==> candidate.row.state.Submitting?
    {
      hide RowOk, ValidResult;
      var Candidate(id, row) := candidate;
      if !row.state.Submitting? {
        return Actionable;
      }
      var update, failed := RecoverOne(id, row, frozen);
      if failed {
        return TurnFailed(false);
      }
      if !update.Stored? {
        return Contended;
      }
      ghost var recovered := ledger;
      var removal := Suspend();
      AdvancesTransitively(old(ledger), recovered, ledger);
      InterruptedKept(recovered, ledger, swapped);
      DoneKept(frozen, recovered, ledger, [candidate]);
      assert [candidate][0] == candidate;
      turn := if removal.NoFault? then Recovered else TurnFailed(true);
    }

    /** `reconcile_candidates`: each candidate is a snapshot from the same listing. */
    method ReconcileCandidates(candidates: seq<Candidate>, ghost frozen: Ledger) returns (page: PageOutcome)
      requires LedgerOk(ledger) && LedgerOk(frozen) && Advances(frozen, ledger)
      requires forall i :: 0 <= i < |candidates| ==>
                 SnapshotOf(ledger, candidates[i].id, candidates[i].row) && NoOlder(frozen, candidates[i])
      requires AllInterrupted(ledger, swapped)
      modifies this
      ensures AllInterrupted(ledger, swapped)
      ensures page.Page? ==>
                && |swapped| == |old(swapped)| + page.recovered
                && page.recovered + page.conflicts == Submissions(candidates)
      ensures LedgerOk(ledger) && Advances(old(ledger), ledger) && Advances(frozen, ledger)
      ensures Healthy(old(events)) ==> page.Page? && Healthy(events)
      ensures page.Page? ==>
                && page.missing == 0
                && page.actionable + page.recovered + page.conflicts == |candidates|
                && (forall i :: 0 <= i < |candidates| ==> Done(frozen, ledger, candidates[i].id))
    {
      hide LedgerOk, Advances, SnapshotOf, NoOlder, Done, AllInterrupted;
      var actionable: nat, recovered: nat, conflicts: nat := 0, 0, 0;
      AdvancesItself(ledger);
      for k := 0 to |candidates|
        invariant LedgerOk(ledger) && Advances(old(ledger), ledger) && Advances(frozen, ledger)
        invariant forall i :: 0 <= i < k ==> Done(frozen, ledger, candidates[i].id)
        invariant Healthy(old(events)) ==> Healthy(events)
        invariant actionable + recovered + conflicts == k
        invariant AllInterrupted(ledger, swapped) && |swapped| == |old(swapped)| + recovered
        invariant recovered + conflicts == Submissions(candidates[..k])
      {
        assert candidates[..k + 1][..k] == candidates[..k];
        ghost var before := ledger;
        SnapshotKept(old(ledger), ledger, candidates[k].id, candidates[k].row);
        var turn := ReconcileOne(candidates[k], frozen);
        AdvancesTransitively(frozen, before, ledger);
        AdvancesTransitively(old(ledger), before, ledger);
        DoneKept(frozen, before, ledger, candidates[..k]);
        match turn
        case TurnFailed(spool) => return PageFailed(spool);
        case Actionable => actionable := actionable + 1;
        case Recovered => recovered := recovered + 1;
        case Contended => conflicts := conflicts + 1;
      }
      assert candidates[..|candidates|] == candidates;
      page := Page(actionable, recovered, conflicts, 0, None);
    }

    /** `recover_startup_through`: the page that starts after the cursor. */
    method RecoverPage(cursor: Option<JobId>, through: JobId, ghost frozen: Ledger) returns (page: PageOutcome)
      requires LedgerOk(ledger) && LedgerOk(frozen) && Advances(frozen, ledger)
      requires cursor.Some? ==> SettledUpTo(frozen, ledger, cursor.value)
      requires AllInterrupted(ledger, swapped)
      modifies this
      ensures AllInterrupted(ledger, swapped)
      ensures page.Page? ==> |swapped| == |old(swapped)| + page.recovered
      ensures LedgerOk(ledger) && Advances(old(ledger), ledger) && Advances(frozen, ledger)
      ensures Healthy(old(events)) ==> page.Page? && Healthy(events)
      ensures page.Page? ==> page.missing == 0
      ensures page.Page? && page.nextCursor.Some? ==>
                && (cursor.Some? ==> cursor.value < page.nextCursor.value)
                && page.nextCursor.value <= through
                && SettledUpTo(frozen, ledger, page.nextCursor.value)
      ensures page.Page? && page.nextCursor.None? ==> SettledUpTo(frozen, ledger, through)
    {
      hide RowOk, ValidResult, AllInterrupted;
      var fault := Suspend();
      AdvancesTransitively(frozen, old(ledger), ledger);
      InterruptedKept(old(ledger), ledger, swapped);
      if !fault.NoFault? {
        return PageFailed(false);
      }
      if cursor.Some? {
        SettledKept(frozen, old(ledger), ledger, cursor.value);
      }
      ghost var listed := ledger;
      var ids := RecoveryPage(ledger, cursor, through, RECOVERY_BATCH_LIMIT);
      var candidates := CandidatesOf(ledger, ids);
      CandidatesFresh(frozen, ledger, cursor, through, ids);
      page := ReconcileCandidates(candidates, frozen);
      AdvancesTransitively(old(ledger), listed, ledger);
      if page.Page? {
        var nextCursor := if |ids| >= RECOVERY_BATCH_LIMIT then Some(ids[|ids| - 1]) else None;
        PageCovers(frozen, listed, cursor, through, ids);
        assert forall i :: 0 <= i < |ids| ==> ids[i] == candidates[i].id;
        PageSettles(frozen, listed, ledger, ids, if nextCursor.Some? then nextCursor.value else through);
        page := page.(nextCursor := nextCursor);
      }
    }

    /**
     No provider call happens here. Without a configured batch profile an open job stops the start. On success no submission that was in flight when the head was
     frozen is still in flight, whatever the other workers did meanwhile.
     */
    method ReconcileStartup(configured: bool) returns (outcome: Outcome, ghost frozen: Ledger)
      requires LedgerOk(ledger) && swapped == {}
      modifies this
      ensures LedgerOk(ledger) && Advances(old(ledger), frozen) && Advances(frozen, ledger)
      ensures AllInterrupted(ledger, swapped)
      ensures outcome.Reconciled? ==> outcome.summary.recoveredUnknown == |swapped|
      ensures Healthy(old(events)) ==>
                (outcome.NoProfile? <==> !configured && exists id :: id in frozen && IsOpen(frozen[id]))
      ensures Healthy(old(events)) && !outcome.NoProfile? ==> outcome.Reconciled?
      ensures outcome.NoProfile? ==> ledger == frozen
      ensures !outcome.CursorStuck?
      ensures outcome.Reconciled? ==> outcome.summary.missing == 0
      ensures outcome.Reconciled? ==>
                forall id :: id in frozen && frozen[id].state.Submitting? ==>
                  ledger[id].state != frozen[id].state
    {
      hide RowOk, ValidResult;
      var fault := Suspend();
      frozen := ledger;
      if !fault.NoFault? {
        return LedgerUnavailable, frozen;
      }
      var head := RecoveryHead(ledger);
      if head.None? {
        return Reconciled(Summary(0, 0, 0, 0)), frozen;
      }
      if !configured {
        return NoProfile, frozen;
      }
      var through := head.value;
      var pages: nat, recovered: nat, conflicts: nat := 0, 0, 0;
      var cursor: Option<JobId> := None;
      while true
        invariant LedgerOk(ledger) && LedgerOk(frozen) && Advances(frozen, ledger)
        invariant Advances(old(ledger), frozen) && IsHead(frozen, Some(through))
        invariant Healthy(old(events)) ==> Healthy(events)
        invariant cursor.Some? ==> cursor.value <= through && SettledUpTo(frozen, ledger, cursor.value)
        invariant AllInterrupted(ledger, swapped) && recovered == |swapped|
        decreases if cursor.Some? then through - cursor.value else through + 1
      {
        var page := RecoverPage(cursor, through, frozen);
        if page.PageFailed? {
          return if page.spool then SpoolUnavailable else LedgerUnavailable, frozen;
        }
        pages := pages + 1;
        recovered := recovered + page.recovered;
        conflicts := conflicts + page.conflicts;
        if page.nextCursor.None? {
          SettledMeansOver(frozen, ledger, through);
          return Reconciled(Summary(pages, recovered, conflicts, page.missing)), frozen;
        }
        if cursor == page.nextCursor {
          return CursorStuck, frozen;
        }
        cursor := page.nextCursor;
      }
    }
  }

  lemma {:induction false} CandidatesFresh(frozen: Ledger, ledger: Ledger, cursor: Option<JobId>, through: JobId, ids: seq<JobId>)
    requires LedgerOk(ledger) && Advances(frozen, ledger)
    requires IsPage(ledger, cursor, through, RECOVERY_BATCH_LIMIT, ids)
    ensures forall i :: 0 <= i < |ids| ==>
              SnapshotOf(ledger, ids[i], ledger[ids[i]]) && NoOlder(frozen, Candidate(ids[i], ledger[ids[i]]))
  {
  }

  /** What a page leaves out of the window it covers has already moved on. */
  lemma {:induction false} PageCovers(frozen: Ledger, ledger: Ledger, cursor: Option<JobId>, through: JobId, ids: seq<JobId>)
    requires Advances(frozen, ledger) && IsPage(ledger, cursor, through, RECOVERY_BATCH_LIMIT, ids)
    requires cursor.Some? ==> SettledUpTo(frozen, ledger, cursor.value)
    ensures var bound := if |ids| >= RECOVERY_BATCH_LIMIT then ids[|ids| - 1] else through;
            forall id :: id in frozen && id <= bound && id !in ids ==> Done(frozen, ledger, id)
  {
  }

  lemma {:induction false} PageSettles(frozen: Ledger, listed: Ledger, ledger: Ledger, ids: seq<JobId>, bound: JobId)
    requires Advances(frozen, listed) && Advances(listed, ledger) && Advances(frozen, ledger)
    requires forall id :: id in frozen && id <= bound && id !in ids ==> Done(frozen, listed, id)
    requires forall i :: 0 <= i < |ids| ==> Done(frozen, ledger, ids[i])
    ensures SettledUpTo(frozen, ledger, bound)
  {
  }

  /** A higher revision is another attempt, or another state of the same one. */
  lemma {:induction false} SettledMeansOver(frozen: Ledger, ledger: Ledger, through: JobId)
    requires LedgerOk(frozen) && LedgerOk(ledger) && Advances(frozen, ledger)
    requires IsHead(frozen, Some(through)) && SettledUpTo(frozen, ledger, through)
    ensures forall id :: id in frozen && frozen[id].state.Submitting? ==> ledger[id].state != frozen[id].state
  {
  }

  /** What the environment is assumed above to keep, the other workers do keep. */
  lemma {:induction false} WorkersOnlyAdvance(env: Env, earlier: seq<Action>, later: seq<Action>)
    ensures LedgerOk(Run(env, Start, earlier).ledger)
    ensures LedgerOk(Run(env, Start, earlier + later).ledger)
    ensures Advances(Run(env, Start, earlier).ledger, Run(env, Start, earlier + later).ledger)
  {
    hide Run;
    LaterInRun(env, earlier, later);
  }
}
