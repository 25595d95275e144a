/**
 Whether the audio of every job that can still be executed is in the spool.

 It is, in every run in which no ledger insert fails before it commits. The rollback of a failed
 insert is the exception: the artifact it removes can meanwhile have become another caller's, and
 the guard that decides it is stated here exactly.
 */
module BatchAudio {
  import opened Base
  import opened BatchDomain
  import opened BatchLedger
  import opened BatchProtocol
  import opened BatchInvariant
  import opened BatchTheorems
  import Spool = BatchSpool

  /** The handle names audio that a worker may still have to read. */
  ghost predicate Live(ledger: Ledger, handle: Handle) {
    handle.job in ledger && ledger[handle.job].identity.audio == handle && !ledger[handle.job].state.IsTerminal()
  }

  ghost predicate AudioPresent(w: World) {
    forall handle :: Live(w.ledger, handle) ==> handle in w.directory.artifacts
  }

  /** A rollback removes an artifact that a live row names by now. */
  ghost predicate RollbackStrands(w: World, a: Action) {
    && a.RemoveAudio? && !a.cut.BeforeArtifact? && WorkerAt(w, a.p).RollingBack?
    && Live(w.ledger, WorkerAt(w, a.p).handle)
  }

  /** An insert creates a row whose artifact a rollback has already removed. */
  ghost predicate InsertStrands(w: World, a: Action) {
    && a.InsertRow? && !a.fault.BeforeCommit? && WorkerAt(w, a.p).Spooled?
    && WorkerAt(w, a.p).request.id !in w.ledger
    && WorkerAt(w, a.p).handle !in w.directory.artifacts
  }

  ghost predicate Strands(w: World, a: Action) {
    RollbackStrands(w, a) || InsertStrands(w, a)
  }

  /** No handle becomes live without an insert of its job. */
  lemma {:induction false} LiveBefore(env: Env, w: World, next: World, handle: Handle)
    requires Grows(w, next) && Live(next.ledger, handle) && handle.job in w.ledger
    ensures Live(w.ledger, handle)
  {
  }

  lemma {:induction false} OnlyInsertsAddRows(env: Env, w: World, a: Action)
    requires !a.InsertRow?
    ensures Apply(env, w, a).ledger.Keys == w.ledger.Keys
  {
    hide IsPage, Spool.Store;
  }

  lemma {:induction false} OnlySpoolStepsTouchArtifacts(env: Env, w: World, a: Action)
    requires !a.StoreAudio? && !a.RemoveAudio?
    ensures Apply(env, w, a).directory == w.directory
  {
    hide IsPage;
  }

  lemma {:induction false} StoresAddArtifacts(env: Env, w: World, p: nat, cut: Spool.Cut, handle: Handle)
    requires handle in w.directory.artifacts
    ensures handle in DoStoreAudio(env, w, p, cut).directory.artifacts
  {
  }

  /** Which artifact a removal step takes away, and why it is not a live one. */
  lemma {:induction false} RemovalsSpareLiveAudio(env: Env, w: World, p: nat, cut: Spool.Cut, handle: Handle)
    requires Inv(env, w) && handle in w.directory.artifacts && Live(w.ledger, handle)
    ensures handle in DoRemoveAudio(w, p, cut).directory.artifacts
       <==> !(!cut.BeforeArtifact? && WorkerAt(w, p).RollingBack? && WorkerAt(w, p).handle == handle)
  {
    hide HistoryOk, VerdictsOk, Spool.Sound, LedgerOk, HeldOnce;
    if p in w.workers {
      assert WorkerOk(env, w.ledger, w.egress, w.answers, w.workers[p]);
    }
  }

  /** A step loses audio exactly when it is one of the two stranding steps. */
  lemma {:induction false} StepLosesAudioIff(env: Env, w: World, a: Action)
    requires Inv(env, w) && AudioPresent(w)
    ensures AudioPresent(Apply(env, w, a)) <==> !Strands(w, a)
  {
    hide Inv, Grows, Apply, Live;
    var next := Apply(env, w, a);
    StepKeeps(env, w, a);
    if a.InsertRow? {
      InsertLosesAudioIff(env, w, a.p, a.fault);
    } else {
      OnlyInsertsAddRows(env, w, a);
      forall handle | Live(next.ledger, handle) && (a.RemoveAudio? ==> !RollbackStrands(w, a))
        ensures handle in next.directory.artifacts
      {
        KeptUnlessRemoved(env, w, a, handle);
      }
      if RollbackStrands(w, a) {
        RollbackLoses(env, w, a.p, a.cut);
      }
    }
  }

  lemma {:induction false} KeptUnlessRemoved(env: Env, w: World, a: Action, handle: Handle)
    requires Inv(env, w) && AudioPresent(w) && !a.InsertRow? && !RollbackStrands(w, a)
    requires Live(Apply(env, w, a).ledger, handle)
    ensures handle in Apply(env, w, a).directory.artifacts
  {
    hide Inv, Grows, DoStoreAudio, DoRemoveAudio;
    StepKeeps(env, w, a);
    OnlyInsertsAddRows(env, w, a);
    assert handle.job in Apply(env, w, a).ledger.Keys;
    LiveBefore(env, w, Apply(env, w, a), handle);
    match a
    case StoreAudio(p, cut) => StoresAddArtifacts(env, w, p, cut, handle);
    case RemoveAudio(p, cut) => RemovalsSpareLiveAudio(env, w, p, cut, handle);
    case _ => OnlySpoolStepsTouchArtifacts(env, w, a);
  }

  lemma {:induction false} RollbackLoses(env: Env, w: World, p: nat, cut: Spool.Cut)
    requires RollbackStrands(w, RemoveAudio(p, cut))
    ensures !AudioPresent(Apply(env, w, RemoveAudio(p, cut)))
  {
    assert Live(DoRemoveAudio(w, p, cut).ledger, WorkerAt(w, p).handle);
  }

  lemma {:induction false} InsertLosesAudioIff(env: Env, w: World, p: nat, fault: Fault)
    requires Inv(env, w) && AudioPresent(w)
    ensures AudioPresent(Apply(env, w, InsertRow(p, fault))) <==> !InsertStrands(w, InsertRow(p, fault))
  {
    hide HistoryOk, VerdictsOk, Spool.Sound, LedgerOk, HeldOnce, SnapshotOf;
    var next := DoInsertRow(w, p, fault);
    if WorkerAt(w, p).Spooled? && !fault.BeforeCommit? && WorkerAt(w, p).request.id !in w.ledger {
      var handle := w.workers[p].handle;
      assert WorkerOk(env, w.ledger, w.egress, w.answers, w.workers[p]);
      assert Live(next.ledger, handle);
      assert forall other :: Live(next.ledger, other) && other != handle ==> Live(w.ledger, other);
    } else {
      assert next.ledger == w.ledger;
    }
  }

  // ---- runs ------------------------------------------------------------------------------------

  /** Audio is present at every moment of the run. */
  ghost predicate AlwaysPresent(env: Env, actions: seq<Action>) {
    forall n :: 0 <= n <= |actions| ==> AudioPresent(Run(env, Start, actions[..n]))
  }

  ghost predicate NeverStrands(env: Env, actions: seq<Action>) {
    forall n :: 0 <= n < |actions| ==> !Strands(Run(env, Start, actions[..n]), actions[n])
  }

  lemma {:induction false} RunPrefix(env: Env, actions: seq<Action>, n: nat)
    requires n < |actions|
    ensures Run(env, Start, actions[..n + 1]) == Apply(env, Run(env, Start, actions[..n]), actions[n])
  {
    hide Apply;
    assert actions[..n + 1][..n] == actions[..n];
  }

  /** A run keeps the audio of every live job, from beginning to end, exactly when no step strands one. */
  lemma {:induction false} AlwaysPresentIff(env: Env, actions: seq<Action>)
    ensures AlwaysPresent(env, actions) <==> NeverStrands(env, actions)
  {
    hide Run, Apply, Inv, Strands, AudioPresent;
    forall n | 0 <= n < |actions| && AudioPresent(Run(env, Start, actions[..n]))
      ensures AudioPresent(Run(env, Start, actions[..n + 1])) <==> !Strands(Run(env, Start, actions[..n]), actions[n])
    {
      RunPrefix(env, actions, n);
      Reachable(env, actions[..n]);
      StepLosesAudioIff(env, Run(env, Start, actions[..n]), actions[n]);
    }
    EmptyPresent(env);
    if NeverStrands(env, actions) {
      for n := 0 to |actions|
        invariant forall k :: 0 <= k <= n ==> AudioPresent(Run(env, Start, actions[..k]))
      {
        assert !Strands(Run(env, Start, actions[..n]), actions[n]);
      }
    }
    if AlwaysPresent(env, actions) {
      forall n | 0 <= n < |actions| ensures !Strands(Run(env, Start, actions[..n]), actions[n]) {
        assert AudioPresent(Run(env, Start, actions[..n + 1]));
      }
    }
  }

  lemma {:induction false} EmptyPresent(env: Env)
    ensures AudioPresent(Run(env, Start, []))
  {
  }

  // ---- a condition on the run alone --------------------------------------------------------------

  predicate InsertsCommit(actions: seq<Action>) {
    forall n :: 0 <= n < |actions| && actions[n].InsertRow? ==> !actions[n].fault.BeforeCommit?
  }

  /** Without failed inserts nobody rolls back, and a spooled artifact waits for its row. */
  ghost predicate Calm(w: World) {
    forall p :: p in w.workers ==> CalmWorker(w, w.workers[p])
  }

  ghost predicate CalmWorker(w: World, worker: Worker) {
    && !worker.RollingBack?
    && (worker.Unverified? ==> worker.request.id in w.ledger)
    && (worker.Spooled? ==> worker.handle in w.directory.artifacts || worker.request.id in w.ledger)
  }

  lemma {:induction false} CalmKept(env: Env, w: World, a: Action)
    requires Inv(env, w) && Calm(w) && (a.InsertRow? ==> !a.fault.BeforeCommit?)
    ensures Calm(Apply(env, w, a))
  {
    hide Inv, Grows;
    var next := Apply(env, w, a);
    StepKeeps(env, w, a);
    forall p | p in next.workers ensures CalmWorker(next, next.workers[p]) {
      if p == a.p {
        CalmActor(env, w, a);
      } else {
        CalmBystander(env, w, a, p);
      }
    }
  }

  predicate AdmissionStep(a: Action) {
    a.LoadForAdmission? || a.StoreAudio? || a.InsertRow? || a.VerifyInsert? || a.RemoveAudio?
  }

  lemma {:induction false} OnlyActorMoves(env: Env, w: World, a: Action, p: nat)
    requires p in Apply(env, w, a).workers && p != a.p
    ensures p in w.workers && Apply(env, w, a).workers[p] == w.workers[p]
  {
    hide Apply;
    if AdmissionStep(a) {
      OnlyAdmitterMoves(env, w, a, p);
    } else {
      OnlyExecutorMoves(env, w, a, p);
    }
  }

  lemma {:induction false} OnlyAdmitterMoves(env: Env, w: World, a: Action, p: nat)
    requires AdmissionStep(a) && p in Apply(env, w, a).workers && p != a.p
    ensures p in w.workers && Apply(env, w, a).workers[p] == w.workers[p]
  {
    hide Spool.Store, Spool.Remove, Insert, Classify;
  }

  lemma {:induction false} OnlyExecutorMoves(env: Env, w: World, a: Action, p: nat)
    requires !AdmissionStep(a) && p in Apply(env, w, a).workers && p != a.p
    ensures p in w.workers && Apply(env, w, a).workers[p] == w.workers[p]
  {
    hide IsPage, Spool.Readable, CompareAndSwap, OutcomeOf, AfterBeginSubmission;
  }

  /** A spooled artifact is only removed once its job has a row. */
  lemma {:induction false} CalmBystander(env: Env, w: World, a: Action, p: nat)
    requires Inv(env, w) && Calm(w) && p in Apply(env, w, a).workers && p != a.p
    ensures CalmWorker(Apply(env, w, a), Apply(env, w, a).workers[p])
  {
    hide Inv, Grows, Apply;
    var next := Apply(env, w, a);
    OnlyActorMoves(env, w, a, p);
    var worker := w.workers[p];
    assert CalmWorker(w, worker);
    StepKeeps(env, w, a);
    RowsStay(w, next);
    if worker.Spooled? && worker.request.id !in next.ledger {
      SpooledJob(env, w, p);
      ArtifactOfRowlessJobStays(env, w, a, worker.handle);
    }
  }

  lemma {:induction false} RowsStay(w: World, next: World)
    requires Grows(w, next)
    ensures forall id :: id in w.ledger ==> id in next.ledger
  {
  }

  lemma {:induction false} SpooledJob(env: Env, w: World, p: nat)
    requires Inv(env, w) && p in w.workers && w.workers[p].Spooled?
    ensures w.workers[p].handle.job == w.workers[p].request.id
  {
  }

  lemma {:induction false} ArtifactOfRowlessJobStays(env: Env, w: World, a: Action, handle: Handle)
    requires Inv(env, w) && Calm(w) && handle in w.directory.artifacts && handle.job !in w.ledger
    ensures handle in Apply(env, w, a).directory.artifacts
  {
    hide Inv, DoStoreAudio, DoRemoveAudio;
    match a
    case StoreAudio(p, cut) => StoresAddArtifacts(env, w, p, cut, handle);
    case RemoveAudio(p, cut) => RemovalsSpareRowlessJobs(env, w, p, cut, handle);
    case _ => OnlySpoolStepsTouchArtifacts(env, w, a);
  }

  lemma {:induction false} RemovalsSpareRowlessJobs(env: Env, w: World, p: nat, cut: Spool.Cut, handle: Handle)
    requires Inv(env, w) && Calm(w) && handle in w.directory.artifacts && handle.job !in w.ledger
    ensures handle in DoRemoveAudio(w, p, cut).directory.artifacts
  {
    hide HistoryOk, VerdictsOk, Spool.Sound, LedgerOk, HeldOnce;
    if p in w.workers {
      assert WorkerOk(env, w.ledger, w.egress, w.answers, w.workers[p]);
      assert CalmWorker(w, w.workers[p]);
    }
  }

  lemma {:induction false} CalmActor(env: Env, w: World, a: Action)
    requires Calm(w) && (a.InsertRow? ==> !a.fault.BeforeCommit?) && a.p in Apply(env, w, a).workers
    ensures CalmWorker(Apply(env, w, a), Apply(env, w, a).workers[a.p])
  {
    hide Apply;
    if AdmissionStep(a) {
      CalmAdmitter(env, w, a);
    } else {
      CalmExecutor(env, w, a);
    }
  }

  lemma {:induction false} CalmAdmitter(env: Env, w: World, a: Action)
    requires Calm(w) && (a.InsertRow? ==> !a.fault.BeforeCommit?) && a.p in Apply(env, w, a).workers
    requires AdmissionStep(a)
    ensures CalmWorker(Apply(env, w, a), Apply(env, w, a).workers[a.p])
  {
    hide Spool.Remove, Classify;
    if a.p in w.workers {
      assert CalmWorker(w, w.workers[a.p]);
    }
  }

  lemma {:induction false} CalmExecutor(env: Env, w: World, a: Action)
    requires Calm(w) && a.p in Apply(env, w, a).workers && !AdmissionStep(a)
    ensures CalmWorker(Apply(env, w, a), Apply(env, w, a).workers[a.p])
  {
    hide IsPage, Spool.Readable, OutcomeOf, AfterBeginSubmission;
    if a.p in w.workers {
      assert CalmWorker(w, w.workers[a.p]);
    }
  }

  lemma {:induction false} CalmRun(env: Env, actions: seq<Action>)
    requires InsertsCommit(actions)
    ensures Calm(Run(env, Start, actions))
  {
    hide Apply, Inv, Calm;
    if actions == [] {
      CalmStart();
    } else {
      CalmRun(env, actions[..|actions| - 1]);
      Reachable(env, actions[..|actions| - 1]);
      CalmKept(env, Run(env, Start, actions[..|actions| - 1]), actions[|actions| - 1]);
    }
  }

  lemma {:induction false} CalmStart()
    ensures Calm(Start)
  {
  }

  /** In every run whose ledger inserts do not fail, every live job's audio is in the spool throughout. */
  lemma {:induction false} AudioNeverLost(env: Env, actions: seq<Action>)
    requires InsertsCommit(actions)
    ensures AlwaysPresent(env, actions)
  {
    hide Run, Apply;
    AlwaysPresentIff(env, actions);
    forall n | 0 <= n < |actions| ensures !Strands(Run(env, Start, actions[..n]), actions[n]) {
      var w := Run(env, Start, actions[..n]);
      CalmRun(env, actions[..n]);
      if actions[n].p in w.workers {
        assert CalmWorker(w, w.workers[actions[n].p]);
      }
    }
  }

  /**
   The assumption is needed: two callers admit the same request, the first one's insert fails, and
   its rollback runs after the second one's row is in the ledger.
   */
  function StrandingRun(request: Request): seq<Action> {
    [LoadForAdmission(0, request), LoadForAdmission(1, request), StoreAudio(0, Spool.Whole),
     InsertRow(0, BeforeCommit), VerifyInsert(0, true), StoreAudio(1, Spool.Whole),
     InsertRow(1, NoFault), RemoveAudio(0, Spool.Whole)]
  }

  lemma {:induction false} RollbackCanStrand(env: Env, request: Request)
    requires 0 < |request.audio| <= env.limits.upload && |request.audio| <= env.limits.total
    ensures !AudioPresent(Run(env, Start, StrandingRun(request)))
  {
    hide Apply, AudioPresent;
    var s := StrandingRun(request);
    assert Run(env, Start, s[..0]) == Start;
    for n := 0 to 8
      invariant Run(env, Start, s[..n]) == StrandingWorld(env, request, n)
    {
      RunPrefix(env, s, n);
      StrandingStep(env, request, n);
    }
    assert s[..8] == s;
    Stranded(env, request);
  }

  /** The worlds the stranding run goes through. */
  function StrandingWorld(env: Env, request: Request, n: nat): World {
    var handle := Handle(request.id, env.hash(request.audio));
    var stored := Spool.Directory(map[handle := request.audio], map[request.id := handle.digest]);
    if n == 0 then Start
    else if n == 1 then Start.(workers := map[0 := Missed(request)])
    else if n == 2 then Start.(workers := map[0 := Missed(request), 1 := Missed(request)])
    else
      var first :=
        if n == 3 then Spooled(request, handle, true)
        else if n == 4 then Unverified(request, handle, true)
        else if n <= 7 then RollingBack(handle)
        else Idle;
      var second := if n <= 5 then Missed(request) else if n == 6 then Spooled(request, handle, false) else Idle;
      World(if n <= 6 then map[] else map[request.id := NewRow(IdentityOf(request, handle))],
            if n <= 7 then stored else Spool.Directory(map[], map[]),
            map[0 := first, 1 := second], [], map[], if n <= 6 then [] else [Admitted(request.id)])
  }

  lemma {:induction false} StrandingStep(env: Env, request: Request, n: nat)
    requires 0 < |request.audio| <= env.limits.upload && |request.audio| <= env.limits.total && n < 8
    ensures Apply(env, StrandingWorld(env, request, n), StrandingRun(request)[n]) == StrandingWorld(env, request, n + 1)
  {
    hide IsPage, CompareAndSwap, OutcomeOf, Spool.Store;
    if n == 2 || n == 5 {
      StrandingStore(env, request, n);
    }
  }

  lemma {:induction false} StrandingStore(env: Env, request: Request, n: nat)
    requires 0 < |request.audio| <= env.limits.upload && |request.audio| <= env.limits.total && (n == 2 || n == 5)
    ensures Apply(env, StrandingWorld(env, request, n), StrandingRun(request)[n]) == StrandingWorld(env, request, n + 1)
  {
    hide IsPage, CompareAndSwap, OutcomeOf, Insert;
    assert Spool.TotalBytes(map[]) == 0;
  }

  lemma {:induction false} Stranded(env: Env, request: Request)
    ensures !AudioPresent(StrandingWorld(env, request, 8))
  {
    assert Live(StrandingWorld(env, request, 8).ledger, Handle(request.id, env.hash(request.audio)));
  }
}
