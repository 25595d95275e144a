/**
 Registering background batch tasks while shutdown drains them (`spawn_batch_task`,
 `shutdown_batch_tasks` and `drain_tasks_until` in crates/voicetext-gateway/src/server/state.rs).

 Every access to the flag and to the task vector is a step, the vector is only touched under its
 lock, and tasks finish at any time. Waiting for the slots before the flag is closed, and the
 deadline, are steps that may happen at any time.
 */
module BatchShutdown {
  import opened Base

  type Task = nat

  datatype Spawner =
    | Outside
    | Holding
    | Permitted
    | Refused
    | Registered

  datatype Phase =
    | Serving
    | Closed
    | Draining(tasks: seq<Task>)
    | Joining(tasks: seq<Task>)
    | Returned

  datatype State = State(
    registrationClosed: bool,
    lock: Option<nat>,
    tracked: seq<Task>,
    spawners: map<nat, Spawner>,
    phase: Phase,
    spawned: set<Task>,
    finished: set<Task>)

  datatype Action =
    | Enter(p: nat)
    | CheckFlag(p: nat)
    | Register(p: nat, task: Task)
    | Finish(task: Task)
    | CloseRegistration
    | TakeTasks
    | AwaitFirst
    | Expire
    | JoinFirst
    | Return

  const Start: State := State(false, None, [], map[], Serving, {}, {})

  function SpawnerAt(s: State, p: nat): Spawner {
    if p in s.spawners then s.spawners[p] else Outside
  }

  function Unfinished(tasks: seq<Task>, finished: set<Task>): (r: seq<Task>)
    ensures forall t :: t in r <==> t in tasks && t !in finished
  {
    if tasks == [] then []
    else (if tasks[0] in finished then [] else [tasks[0]]) + Unfinished(tasks[1..], finished)
  }

  /** `swap_remove(0)`: the last element takes the place of the first. */
  function SwapRemoveFirst(tasks: seq<Task>): (r: seq<Task>)
    requires tasks != []
    ensures forall t :: t in tasks ==> t == tasks[0] || t in r
    ensures forall t :: t in r ==> t in tasks
  {
    if |tasks| == 1 then [] else [tasks[|tasks| - 1]] + tasks[1..|tasks| - 1]
  }

  function Release(s: State, p: nat, spawner: Spawner): State {
    s.(lock := None, spawners := s.spawners[p := spawner])
  }

  function Apply(s: State, a: Action): State {
    match a
    case Enter(p) =>
      if s.lock.None? && SpawnerAt(s, p) in {Outside, Refused, Registered}
      then s.(lock := Some(p), spawners := s.spawners[p := Holding]) else s
    case CheckFlag(p) =>
      if !SpawnerAt(s, p).Holding? then s
      else if s.registrationClosed then Release(s, p, Refused)
      else s.(spawners := s.spawners[p := Permitted])
    case Register(p, task) =>
      if SpawnerAt(s, p).Permitted? && task !in s.spawned
      then Release(s.(tracked := Unfinished(s.tracked, s.finished) + [task], spawned := s.spawned + {task}), p, Registered) else s
    case Finish(task) => if task in s.spawned then s.(finished := s.finished + {task}) else s
    case CloseRegistration => if s.phase.Serving? then s.(registrationClosed := true, phase := Closed) else s
    case TakeTasks => if s.phase.Closed? && s.lock.None? then s.(tracked := [], phase := Draining(s.tracked)) else s
    case AwaitFirst =>
      if s.phase.Draining? && s.phase.tasks != [] && s.phase.tasks[0] in s.finished
      then s.(phase := Draining(SwapRemoveFirst(s.phase.tasks))) else s
    case Expire => if s.phase.Draining? then s.(phase := Joining(Unfinished(s.phase.tasks, s.finished))) else s
    case JoinFirst =>
      if s.phase.Joining? && s.phase.tasks != [] && s.phase.tasks[0] in s.finished
      then s.(phase := Joining(s.phase.tasks[1..])) else s
    case Return => if s.phase.Joining? && s.phase.tasks == [] then s.(phase := Returned) else s
  }

  function Run(s: State, actions: seq<Action>): State {
    if actions == [] then s else Apply(Run(s, actions[..|actions| - 1]), actions[|actions| - 1])
  }

  /** The tasks shutdown has taken and not yet let go of. */
  function Taken(phase: Phase): seq<Task> {
    match phase
    case Draining(tasks) => tasks
    case Joining(tasks) => tasks
    case _ => []
  }

  /** No task is lost: it has finished, or a vector holds it. */
  ghost predicate Accounted(s: State) {
    forall task :: task in s.spawned ==> task in s.finished || task in s.tracked || task in Taken(s.phase)
  }

  /** Exactly the spawner between acquiring and releasing holds the lock. */
  ghost predicate Locked(s: State) {
    forall p: nat :: SpawnerAt(s, p) in {Holding, Permitted} <==> s.lock == Some(p)
  }

  ghost predicate Inv(s: State) {
    && Accounted(s) && Locked(s)
    && (s.registrationClosed <==> !s.phase.Serving?)
    && (s.phase in {Serving, Closed} || (s.tracked == [] && forall p: nat :: !SpawnerAt(s, p).Permitted?))
  }

  lemma {:induction false} AccountedKept(s: State, a: Action)
    requires Inv(s)
    ensures Accounted(Apply(s, a))
  {
  }

  lemma {:induction false} LockedKept(s: State, a: Action)
    requires Locked(s)
    ensures Locked(Apply(s, a))
  {
  }

  lemma {:induction false} StepKeeps(s: State, a: Action)
    requires Inv(s)
    ensures Inv(Apply(s, a))
  {
    AccountedKept(s, a);
    LockedKept(s, a);
    hide Accounted;
  }

  lemma {:induction false} Reachable(actions: seq<Action>)
    ensures Inv(Run(Start, actions))
    decreases |actions|
  {
    if actions != [] {
      Reachable(actions[..|actions| - 1]);
      StepKeeps(Run(Start, actions[..|actions| - 1]), actions[|actions| - 1]);
    }
  }

  /** While registration is open a spawn that gets the lock succeeds, and its task is tracked. */
  lemma {:induction false} SpawnSucceeds(s: State, p: nat, task: Task)
    requires Inv(s) && !s.registrationClosed && s.lock.None? && task !in s.spawned
    ensures var next := Apply(Apply(Apply(s, Enter(p)), CheckFlag(p)), Register(p, task));
            && SpawnerAt(next, p).Registered? && next.lock.None? && next.spawned == s.spawned + {task}
            && task in next.tracked && (forall t :: t in s.tracked && t !in s.finished ==> t in next.tracked)
  {
    assert SpawnerAt(s, p) in {Holding, Permitted} <==> s.lock == Some(p);
  }

  /** The vector shutdown takes is the tracked one, and once its tasks have finished shutdown can return. */
  lemma {:induction false} DrainCanEnd(s: State)
    requires s.phase.Closed? && s.lock.None?
    ensures Apply(s, TakeTasks).phase == Draining(s.tracked)
    ensures (forall t :: t in s.tracked ==> t in s.finished) ==>
              Apply(Apply(Apply(s, TakeTasks), Expire), Return).phase.Returned?
  {
    if forall t :: t in s.tracked ==> t in s.finished {
      NoneLeft(s.tracked, s.finished);
    }
  }

  lemma {:induction false} NoneLeft(tasks: seq<Task>, finished: set<Task>)
    requires forall t :: t in tasks ==> t in finished
    ensures Unfinished(tasks, finished) == []
  {
    if tasks != [] {
      assert tasks[0] in tasks;
      NoneLeft(tasks[1..], finished);
    }
  }

  /** Once shutdown has the vector, nothing is registered any more and every spawn is refused. */
  lemma {:induction false} NothingNew(s: State, a: Action)
    requires Inv(s) && s.phase !in {Serving, Closed}
    ensures Apply(s, a).spawned == s.spawned && Apply(s, a).tracked == []
    ensures Apply(s, a).phase !in {Serving, Closed}
    ensures forall p: nat :: a == CheckFlag(p) && SpawnerAt(s, p).Holding? ==> SpawnerAt(Apply(s, a), p).Refused?
    ensures s.phase.Returned? ==> Apply(s, a).phase.Returned?
  {
  }

  /**
   In every interleaving, when shutdown returns every task ever registered has finished, and from
   then on none is added.
   */
  lemma {:induction false} ShutdownIsComplete(before: seq<Action>, after: seq<Action>)
    requires Run(Start, before).phase.Returned?
    ensures var end, later := Run(Start, before), Run(Run(Start, before), after);
            && (forall task :: task in end.spawned ==> task in end.finished)
            && later.spawned == end.spawned && end.finished <= later.finished && later.phase.Returned?
            && Inv(later)
    decreases |after|
  {
    Reachable(before);
    if after != [] {
      var init := after[..|after| - 1];
      ShutdownIsComplete(before, init);
      NothingNew(Run(Run(Start, before), init), after[|after| - 1]);
      StepKeeps(Run(Run(Start, before), init), after[|after| - 1]);
    }
  }
}
