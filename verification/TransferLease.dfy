/** Any number of transfer workers over one table: when a lease protects a task, and when it does not
    (server/src/transfer/worker.rs, lines 80 to 156; server/src/transfer/queue.rs). */
module TransferLease {
  import opened Prelude
  import opened TransferQueue

  /** What a worker remembers between its claim and its final mark. */
  datatype Attempt = Attempt(task: int, startedAt: int)

  datatype World = World(
    tasks: Tasks,
    objects: Objects,
    attempts: map<int, Attempt>,
    now: int)

  datatype Config = Config(staleTimeout: int, maxAttempts: int) {
    ghost predicate Valid() {
      staleTimeout > 0 && maxAttempts > 0
    }
  }

  datatype Action =
    | Tick(to: int)
    | EnqueueTask(id: int)
    | ExpireTasks(cutoff: int)
    | ClaimTask(worker: int, name: string, id: int, cutoff: int)
    | PersistTask(worker: int, objectId: int, extension: string)
    | FailTask(worker: int, error: string)
    | Abandon(worker: int)
    | AdminTransition(id: int, transition: Transition)

  /** When an action can happen. A cutoff was computed at the head of the worker loop, so it lies at
      least the stale timeout before the moment of the statement that uses it. */
  ghost predicate Enabled(w: World, a: Action, c: Config) {
    match a
    case Tick(to) => to >= w.now
    case EnqueueTask(id) => id !in w.tasks
    case ExpireTasks(cutoff) => cutoff <= w.now - c.staleTimeout
    case ClaimTask(worker, name, id, cutoff) =>
      worker !in w.attempts && cutoff <= w.now - c.staleTimeout && id in Candidates(w.tasks, cutoff, c.maxAttempts)
    case PersistTask(worker, objectId, extension) =>
      worker in w.attempts && !ObjectConflicts(w.objects, objectId, ObjectKey(w.attempts[worker].task, extension))
    case FailTask(worker, error) => worker in w.attempts
    case Abandon(worker) => worker in w.attempts
    case AdminTransition(id, transition) => id in w.tasks && Allowed(transition, w.tasks[id].status)
  }

  /** `Abandon` is a crash, or a final mark that failed: the worker forgets the task, the row stays. */
  ghost function Step(w: World, a: Action, c: Config): World
    requires Enabled(w, a, c)
  {
    match a
    case Tick(to) => w.(now := to)
    case EnqueueTask(id) => w.(tasks := w.tasks[id := NewTask(w.now)])
    case ExpireTasks(cutoff) => w.(tasks := ExpireStale(w.tasks, cutoff, c.maxAttempts, w.now))
    case ClaimTask(worker, name, id, cutoff) =>
      w.(tasks := w.tasks[id := ClaimRow(w.tasks[id], name, w.now)],
         attempts := w.attempts[worker := Attempt(id, w.now)])
    case PersistTask(worker, objectId, extension) =>
      w.(tasks := MarkCompleted(w.tasks, w.attempts[worker].task, objectId, w.now),
         objects := w.objects[objectId := ObjectKey(w.attempts[worker].task, extension)],
         attempts := w.attempts - {worker})
    case FailTask(worker, error) =>
      w.(tasks := MarkFailed(w.tasks, w.attempts[worker].task, error, c.maxAttempts, w.now),
         attempts := w.attempts - {worker})
    case Abandon(worker) => w.(attempts := w.attempts - {worker})
    case AdminTransition(id, transition) =>
      w.(tasks := w.tasks[id := TransitionRow(transition, w.tasks[id], w.now)])
  }

  const EMPTY: World := World(map[], map[], map[], 0)

  /** The timing hypothesis: no attempt is still open when its lease could be taken over. */
  ghost predicate Timely(w: World, c: Config) {
    forall k :: k in w.attempts ==> w.now < w.attempts[k].startedAt + c.staleTimeout
  }

  /** A run: the actions happen one after the other, each enabled; `worlds[i]` is the state before
      `actions[i]`. */
  ghost predicate IsRun(worlds: seq<World>, actions: seq<Action>, c: Config) {
    && |worlds| == |actions| + 1
    && worlds[0] == EMPTY
    && forall i :: 0 <= i < |actions| ==>
         Enabled(worlds[i], actions[i], c) && worlds[i + 1] == Step(worlds[i], actions[i], c)
  }

  /** The hypotheses of the lease theorem: every attempt, its final mark included, ends within the
      stale timeout, and no admin releases a task that is being processed. */
  ghost predicate WithinLease(worlds: seq<World>, actions: seq<Action>, c: Config) {
    && (forall i :: 0 <= i < |worlds| ==> Timely(worlds[i], c))
    && (forall i :: 0 <= i < |actions| ==> !(actions[i].AdminTransition? && actions[i].transition == Release))
  }

  // ---------- the lease invariant ----------

  ghost predicate Holds(w: World, worker: int) {
    worker in w.attempts ==>
      var a := w.attempts[worker];
      && a.task in w.tasks
      && w.tasks[a.task].status == Processing
      && w.tasks[a.task].claimedAt == Some(a.startedAt)
  }

  ghost predicate Exclusive(w: World) {
    forall j, k :: j in w.attempts && k in w.attempts && w.attempts[j].task == w.attempts[k].task ==> j == k
  }

  /** Each object belongs to the completed task that names it, and completed tasks name an object. */
  ghost predicate Owned(w: World) {
    && (forall t :: t in w.tasks && w.tasks[t].status == Completed ==>
          w.tasks[t].storageObject.Some? && w.tasks[t].storageObject.value in w.objects)
    && (forall t :: t in w.tasks && w.tasks[t].status != Completed ==> w.tasks[t].storageObject.None?)
    && (forall t, u ::
          t in w.tasks && u in w.tasks && w.tasks[t].storageObject.Some?
          && w.tasks[t].storageObject == w.tasks[u].storageObject
          ==> t == u)
    && (forall o :: o in w.objects ==> exists t :: t in w.tasks && w.tasks[t].storageObject == Some(o))
  }

  ghost predicate LeaseInv(w: World) {
    && (forall t :: t in w.tasks && w.tasks[t].status == Processing ==> w.tasks[t].claimedAt.Some?)
    && (forall k :: Holds(w, k))
    && Exclusive(w)
    && Owned(w)
  }

  /** A completed row is never touched. */
  ghost predicate CompletedKept(w: World, w': World) {
    forall t :: t in w.tasks && w.tasks[t].status == Completed ==> t in w'.tasks && w'.tasks[t] == w.tasks[t]
  }

  ghost predicate Harmless(a: Action) {
    !(a.AdminTransition? && a.transition == Release)
  }

  lemma {:induction false} OwnedAfter(w: World, id: int, row: TaskRow, objects: Objects)
    requires Owned(w) && id in w.tasks && w.tasks[id].status != Completed
    requires row.status != Completed ==> row.storageObject.None? && objects == w.objects
    requires row.status == Completed ==>
               row.storageObject.Some? && row.storageObject.value !in w.objects
               && objects.Keys == w.objects.Keys + {row.storageObject.value}
    ensures Owned(w.(tasks := w.tasks[id := row], objects := objects))
  {
    var w' := w.(tasks := w.tasks[id := row], objects := objects);
    forall o | o in objects
      ensures exists t :: t in w'.tasks && w'.tasks[t].storageObject == Some(o)
    {
      if o in w.objects {
        var t :| t in w.tasks && w.tasks[t].storageObject == Some(o);
        assert t in w'.tasks && w'.tasks[t].storageObject == Some(o);
      } else {
        assert w'.tasks[id].storageObject == Some(o);
      }
    }
  }

  /** One action of a run within the lease keeps the invariant and every completed row. */
  lemma {:induction false} StepKeepsLease(w: World, a: Action, c: Config)
    requires c.Valid() && LeaseInv(w) && Timely(w, c) && Enabled(w, a, c) && Harmless(a)
    ensures LeaseInv(Step(w, a, c)) && CompletedKept(w, Step(w, a, c))
  {
    var w' := Step(w, a, c);
    match a {
      case Tick(to) =>
        forall k ensures Holds(w', k) { assert Holds(w, k); }
      case EnqueueTask(id) => EnqueueKeepsLease(w, id, c);
      case ExpireTasks(cutoff) => ExpireKeepsLease(w, cutoff, c);
      case ClaimTask(worker, name, id, cutoff) => ClaimKeepsLease(w, worker, name, id, cutoff, c);
      case PersistTask(worker, objectId, extension) => PersistKeepsLease(w, worker, objectId, extension, c);
      case FailTask(worker, error) => FailKeepsLease(w, worker, error, c);
      case Abandon(worker) =>
        forall k ensures Holds(w', k) { assert Holds(w, k); }
      case AdminTransition(id, transition) => AdminKeepsLease(w, id, transition, c);
    }
  }

  lemma {:induction false} EnqueueKeepsLease(w: World, id: int, c: Config)
    requires LeaseInv(w) && Enabled(w, EnqueueTask(id), c)
    ensures LeaseInv(Step(w, EnqueueTask(id), c)) && CompletedKept(w, Step(w, EnqueueTask(id), c))
  {
    var w' := Step(w, EnqueueTask(id), c);
    forall k
      ensures Holds(w', k)
    {
      assert Holds(w, k);
    }
    forall o | o in w'.objects
      ensures exists t :: t in w'.tasks && w'.tasks[t].storageObject == Some(o)
    {
      var t :| t in w.tasks && w.tasks[t].storageObject == Some(o);
      assert t in w'.tasks;
    }
  }

  /** A stale row is held by nobody: the attempt that claimed it is over. */
  lemma {:induction false} StaleIsFree(w: World, t: int, cutoff: int, c: Config)
    requires LeaseInv(w) && Timely(w, c) && cutoff <= w.now - c.staleTimeout
    requires t in w.tasks && (Stale(w.tasks[t], cutoff) || w.tasks[t].status != Processing)
    ensures forall k :: k in w.attempts ==> w.attempts[k].task != t
  {
    forall k | k in w.attempts
      ensures w.attempts[k].task != t
    {
      assert Holds(w, k);
    }
  }

  lemma {:induction false} ExpireKeepsLease(w: World, cutoff: int, c: Config)
    requires LeaseInv(w) && Timely(w, c) && Enabled(w, ExpireTasks(cutoff), c)
    ensures LeaseInv(Step(w, ExpireTasks(cutoff), c)) && CompletedKept(w, Step(w, ExpireTasks(cutoff), c))
  {
    var w' := Step(w, ExpireTasks(cutoff), c);
    forall k
      ensures Holds(w', k)
    {
      assert Holds(w, k);
      if k in w.attempts && Expires(w.tasks[w.attempts[k].task], cutoff, c.maxAttempts) {
        StaleIsFree(w, w.attempts[k].task, cutoff, c);
      }
    }
    forall o | o in w'.objects
      ensures exists t :: t in w'.tasks && w'.tasks[t].storageObject == Some(o)
    {
      var t :| t in w.tasks && w.tasks[t].storageObject == Some(o);
      assert w'.tasks[t].storageObject == Some(o);
    }
  }

  lemma {:induction false} ClaimKeepsLease(w: World, worker: int, name: string, id: int, cutoff: int, c: Config)
    requires LeaseInv(w) && Timely(w, c) && Enabled(w, ClaimTask(worker, name, id, cutoff), c)
    ensures var a := ClaimTask(worker, name, id, cutoff);
            LeaseInv(Step(w, a, c)) && CompletedKept(w, Step(w, a, c))
  {
    var w' := Step(w, ClaimTask(worker, name, id, cutoff), c);
    StaleIsFree(w, id, cutoff, c);
    forall k
      ensures Holds(w', k)
    {
      assert Holds(w, k);
    }
    OwnedAfter(w, id, w'.tasks[id], w.objects);
  }

  lemma {:induction false} PersistKeepsLease(w: World, worker: int, objectId: int, extension: string, c: Config)
    requires LeaseInv(w) && Enabled(w, PersistTask(worker, objectId, extension), c)
    ensures var a := PersistTask(worker, objectId, extension);
            LeaseInv(Step(w, a, c)) && CompletedKept(w, Step(w, a, c))
  {
    var w' := Step(w, PersistTask(worker, objectId, extension), c);
    var id := w.attempts[worker].task;
    assert Holds(w, worker);
    forall k
      ensures Holds(w', k)
    {
      assert Holds(w, k);
    }
    OwnedAfter(w, id, w'.tasks[id], w'.objects);
  }

  lemma {:induction false} FailKeepsLease(w: World, worker: int, error: string, c: Config)
    requires LeaseInv(w) && Enabled(w, FailTask(worker, error), c)
    ensures var a := FailTask(worker, error);
            LeaseInv(Step(w, a, c)) && CompletedKept(w, Step(w, a, c))
  {
    var w' := Step(w, FailTask(worker, error), c);
    var id := w.attempts[worker].task;
    assert Holds(w, worker);
    forall k
      ensures Holds(w', k)
    {
      assert Holds(w, k);
    }
    OwnedAfter(w, id, w'.tasks[id], w.objects);
  }

  lemma {:induction false} AdminKeepsLease(w: World, id: int, transition: Transition, c: Config)
    requires LeaseInv(w) && Enabled(w, AdminTransition(id, transition), c) && transition != Release
    ensures var a := AdminTransition(id, transition);
            LeaseInv(Step(w, a, c)) && CompletedKept(w, Step(w, a, c))
  {
    var w' := Step(w, AdminTransition(id, transition), c);
    forall k
      ensures Holds(w', k)
    {
      assert Holds(w, k);
    }
    OwnedAfter(w, id, w'.tasks[id], w.objects);
  }

  lemma {:induction false} RunKeepsLease(worlds: seq<World>, actions: seq<Action>, c: Config, i: nat)
    requires c.Valid() && IsRun(worlds, actions, c) && WithinLease(worlds, actions, c) && i < |worlds|
    ensures LeaseInv(worlds[i])
  {
    if i > 0 {
      RunKeepsLease(worlds, actions, c, i - 1);
      assert Harmless(actions[i - 1]);
      StepKeepsLease(worlds[i - 1], actions[i - 1], c);
    } else {
      forall k ensures Holds(EMPTY, k) {}
    }
  }

  lemma {:induction false} KeptThrough(worlds: seq<World>, i: nat, j: nat)
    requires i <= j < |worlds|
    requires forall k :: i <= k < j ==> CompletedKept(worlds[k], worlds[k + 1])
    ensures CompletedKept(worlds[i], worlds[j])
    decreases j
  {
    if i < j {
      KeptThrough(worlds, i, j - 1);
      assert CompletedKept(worlds[j - 1], worlds[j]);
    }
  }

  lemma {:induction false} RunKeepsCompleted(worlds: seq<World>, actions: seq<Action>, c: Config, i: nat, j: nat,
                                             t: int)
    requires c.Valid() && IsRun(worlds, actions, c) && WithinLease(worlds, actions, c) && i <= j < |worlds|
    requires t in worlds[i].tasks && worlds[i].tasks[t].status == Completed
    ensures t in worlds[j].tasks && worlds[j].tasks[t] == worlds[i].tasks[t]
  {
    forall k | i <= k < j
      ensures CompletedKept(worlds[k], worlds[k + 1])
    {
      RunKeepsLease(worlds, actions, c, k);
      assert Harmless(actions[k]);
      StepKeepsLease(worlds[k], actions[k], c);
    }
    KeptThrough(worlds, i, j);
  }

  /** Within the lease, over every run and for any number of workers: a task is held by at most one
      worker, a completed task stays exactly as it is, and no two objects are ever stored for one
      task: a completed task names the only one, any other task has none. */
  lemma {:induction false} LeaseSafety(worlds: seq<World>, actions: seq<Action>, c: Config, i: nat, j: nat)
    requires c.Valid() && IsRun(worlds, actions, c) && WithinLease(worlds, actions, c)
    requires i <= j < |worlds|
    ensures Exclusive(worlds[j]) && Owned(worlds[j])
    ensures CompletedKept(worlds[i], worlds[j])
  {
    RunKeepsLease(worlds, actions, c, j);
    forall t | t in worlds[i].tasks && worlds[i].tasks[t].status == Completed
      ensures t in worlds[j].tasks && worlds[j].tasks[t] == worlds[i].tasks[t]
    {
      RunKeepsCompleted(worlds, actions, c, i, j, t);
    }
  }

  // ---------- without the lease ----------

  /** Every object a task names is stored. */
  ghost predicate ObjectsNamed(w: World) {
    forall t :: t in w.tasks && w.tasks[t].storageObject.Some? ==> w.tasks[t].storageObject.value in w.objects
  }

  /** The action is a final mark, of either kind, of a worker whose task is completed already. */
  ghost predicate MarksCompleted(w: World, a: Action) {
    && (a.PersistTask? || a.FailTask?) && a.worker in w.attempts
    && w.attempts[a.worker].task in w.tasks && w.tasks[w.attempts[a.worker].task].status == Completed
  }

  lemma {:induction false} StepKeepsObjects(w: World, a: Action, c: Config)
    requires ObjectsNamed(w) && Enabled(w, a, c)
    ensures ObjectsNamed(Step(w, a, c))
    ensures forall o :: o in w.objects ==> o in Step(w, a, c).objects && Step(w, a, c).objects[o] == w.objects[o]
  {
  }

  /** Any action at any moment: it leaves all completed tasks as they are if and only if it is no final mark
      of a worker whose task is completed already. */
  lemma {:induction false} CompletedKeptIff(w: World, a: Action, c: Config)
    requires ObjectsNamed(w) && Enabled(w, a, c)
    ensures CompletedKept(w, Step(w, a, c)) <==> !MarksCompleted(w, a)
  {
    var w' := Step(w, a, c);
    if MarksCompleted(w, a) {
      var t := w.attempts[a.worker].task;
      if a.PersistTask? {
        assert w'.tasks[t].storageObject == Some(a.objectId) != w.tasks[t].storageObject;
      } else {
        assert w'.tasks[t].status != Completed;
      }
    }
  }

  lemma {:induction false} RunKeepsObjects(worlds: seq<World>, actions: seq<Action>, c: Config, i: nat, j: nat)
    requires IsRun(worlds, actions, c) && i <= j < |worlds|
    ensures ObjectsNamed(worlds[j])
    ensures forall o :: o in worlds[i].objects ==>
              o in worlds[j].objects && worlds[j].objects[o] == worlds[i].objects[o]
    decreases j
  {
    if j > 0 {
      RunKeepsObjects(worlds, actions, c, if i < j then i else j - 1, j - 1);
      StepKeepsObjects(worlds[j - 1], actions[j - 1], c);
    }
  }

  /** Any run of any number of workers, with no hypothesis on time or on admins: completed tasks stay as
      they are throughout if and only if no final mark ever meets a completed task. */
  lemma {:induction false} RunKeepsCompletedIff(worlds: seq<World>, actions: seq<Action>, c: Config)
    requires IsRun(worlds, actions, c)
    ensures (forall i, j :: 0 <= i <= j < |worlds| ==> CompletedKept(worlds[i], worlds[j]))
            <==> (forall i :: 0 <= i < |actions| ==> !MarksCompleted(worlds[i], actions[i]))
  {
    forall i | 0 <= i < |actions|
      ensures CompletedKept(worlds[i], worlds[i + 1]) <==> !MarksCompleted(worlds[i], actions[i])
    {
      RunKeepsObjects(worlds, actions, c, i, i);
      CompletedKeptIff(worlds[i], actions[i], c);
    }
    if forall i :: 0 <= i < |actions| ==> !MarksCompleted(worlds[i], actions[i]) {
      forall i, j | 0 <= i <= j < |worlds|
        ensures CompletedKept(worlds[i], worlds[j])
      {
        KeptThrough(worlds, i, j);
      }
    } else {
      var i :| 0 <= i < |actions| && MarksCompleted(worlds[i], actions[i]);
      var j := i + 1;
      assert !CompletedKept(worlds[i], worlds[j]);
    }
  }

  /** Whoever works on task `t` holds it, and nobody else works on it. */
  ghost predicate HeldRightly(w: World, t: int) {
    && (t in w.tasks && w.tasks[t].status == Processing ==> w.tasks[t].claimedAt.Some?)
    && (forall k :: k in w.attempts && w.attempts[k].task == t ==> Holds(w, k))
    && (forall j, k :: j in w.attempts && k in w.attempts && w.attempts[j].task == t == w.attempts[k].task ==> j == k)
  }

  /** An attempt at task `t` has outlived the stale timeout. */
  ghost predicate Outlived(w: World, t: int, c: Config) {
    exists k :: k in w.attempts && w.attempts[k].task == t && w.now >= w.attempts[k].startedAt + c.staleTimeout
  }

  ghost predicate Releases(a: Action, t: int) {
    a.AdminTransition? && a.id == t && a.transition == Release
  }

  lemma {:induction false} StepKeepsHeld(w: World, a: Action, c: Config, t: int)
    requires c.Valid() && HeldRightly(w, t) && Enabled(w, a, c) && !Outlived(w, t, c) && !Releases(a, t)
    ensures HeldRightly(Step(w, a, c), t)
  {
    var w' := Step(w, a, c);
    forall k | k in w.attempts && w.attempts[k].task == t
      ensures Holds(w, k) && w.now < w.attempts[k].startedAt + c.staleTimeout
    {
    }
    forall k | k in w'.attempts && w'.attempts[k].task == t
      ensures Holds(w', k)
    {
      assert k in w.attempts && w.attempts[k].task == t ==> Holds(w, k);
    }
  }

  lemma {:induction false} RunKeepsHeld(worlds: seq<World>, actions: seq<Action>, c: Config, i: nat, t: int)
    requires c.Valid() && IsRun(worlds, actions, c) && i < |worlds|
    requires forall j :: 0 <= j < i ==> !Outlived(worlds[j], t, c) && !Releases(actions[j], t)
    ensures HeldRightly(worlds[i], t)
  {
    if i > 0 {
      RunKeepsHeld(worlds, actions, c, i - 1, t);
      StepKeepsHeld(worlds[i - 1], actions[i - 1], c, t);
    }
  }

  /** A final mark can only meet a completed task when an attempt at that very task outlived the stale
      timeout before, or an admin released it. */
  lemma {:induction false} MarkNeedsOutlivedAttempt(worlds: seq<World>, actions: seq<Action>, c: Config, i: nat)
    requires c.Valid() && IsRun(worlds, actions, c) && i < |actions| && MarksCompleted(worlds[i], actions[i])
    ensures var t := worlds[i].attempts[actions[i].worker].task;
            exists j :: 0 <= j < i && (Outlived(worlds[j], t, c) || Releases(actions[j], t))
  {
    var t := worlds[i].attempts[actions[i].worker].task;
    if forall j :: 0 <= j < i ==> !Outlived(worlds[j], t, c) && !Releases(actions[j], t) {
      RunKeepsHeld(worlds, actions, c, i, t);
      assert Holds(worlds[i], actions[i].worker);
    }
  }

  /** Once an object has been stored for a task under a key, no attempt at that task can store another one
      under the same key, at any later moment of any run. */
  lemma {:induction false} OneObjectPerKey(worlds: seq<World>, actions: seq<Action>, c: Config, i: nat, j: nat,
                                           o: int, worker: int, objectId: int)
    requires IsRun(worlds, actions, c) && i <= j < |worlds| && o in worlds[i].objects
    requires worker in worlds[j].attempts && worlds[j].attempts[worker].task == worlds[i].objects[o].task
    ensures !Enabled(worlds[j], PersistTask(worker, objectId, worlds[i].objects[o].extension), c)
  {
    RunKeepsObjects(worlds, actions, c, i, j);
    assert worlds[j].objects[o] in worlds[j].objects.Values;
  }

  /** So a slow worker that succeeds undoes the success of the one that overtook it: its object conflicts,
      it marks the completed task failed, and with the same extension no later attempt can ever complete
      that task again. */
  lemma {:induction false} SlowSuccessReopens(worlds: seq<World>, actions: seq<Action>, c: Config, i: nat,
                                              worker: int, o: int, error: string)
    requires IsRun(worlds, actions, c) && i < |worlds| && worker in worlds[i].attempts
    requires var t := worlds[i].attempts[worker].task;
             && t in worlds[i].tasks && worlds[i].tasks[t].status == Completed
             && o in worlds[i].objects && worlds[i].objects[o].task == t
    ensures forall objectId :: !Enabled(worlds[i], PersistTask(worker, objectId, worlds[i].objects[o].extension), c)
    ensures var t := worlds[i].attempts[worker].task;
            var w' := Step(worlds[i], FailTask(worker, error), c);
            t in w'.tasks && w'.tasks[t].status != Completed
    ensures forall j: nat, later: int, objectId: int ::
              i <= j < |worlds| && later in worlds[j].attempts
              && worlds[j].attempts[later].task == worlds[i].attempts[worker].task
              ==> !Enabled(worlds[j], PersistTask(later, objectId, worlds[i].objects[o].extension), c)
  {
    forall j: nat, later: int, objectId: int
      | i <= j < |worlds| && later in worlds[j].attempts
        && worlds[j].attempts[later].task == worlds[i].attempts[worker].task
      ensures !Enabled(worlds[j], PersistTask(later, objectId, worlds[i].objects[o].extension), c)
    {
      OneObjectPerKey(worlds, actions, c, i, j, o, later, objectId);
    }
  }

  /** Two workers, a stale timeout of 10 and three attempts: the first worker is slow and the second takes
      the task over and completes it. Then the first one ends, one way or the other. */
  ghost const TAKEOVER: seq<Action> := [EnqueueTask(7), ClaimTask(1, "a", 7, -10), Tick(10), ClaimTask(2, "b", 7, 0)]

  ghost function SlowActions(last: Action): seq<Action> {
    TAKEOVER + [PersistTask(2, 100, "webp"), last]
  }

  /** The takeover: worker "b" holds the task that worker "a" still works on. */
  lemma {:induction false} TakenOver() returns (worlds: seq<World>)
    ensures |worlds| == 5 && worlds[0] == EMPTY
    ensures forall i :: 0 <= i < 4 ==>
              Enabled(worlds[i], TAKEOVER[i], Config(10, 3))
              && worlds[i + 1] == Step(worlds[i], TAKEOVER[i], Config(10, 3))
    ensures worlds[4].attempts == map[1 := Attempt(7, 0), 2 := Attempt(7, 10)]
    ensures 7 in worlds[4].tasks && worlds[4].tasks[7].status == Processing && worlds[4].tasks[7].attemptCount == 2
    ensures worlds[4].objects == map[]
  {
    var c := Config(10, 3);
    var w1 := Step(EMPTY, TAKEOVER[0], c);
    assert w1.tasks[7] == NewTask(0);
    var w2 := Step(w1, TAKEOVER[1], c);
    assert w2.tasks[7].status == Processing && w2.tasks[7].claimedAt == Some(0) && w2.tasks[7].attemptCount == 1;
    var w3 := Step(w2, TAKEOVER[2], c);
    var w4 := Step(w3, TAKEOVER[3], c);
    worlds := [EMPTY, w1, w2, w3, w4];
  }

  /** Both kinds of late mark happen, with no admin involved: a failure mark reopens the completed task, and
      a completion under another extension gives it a second object. */
  lemma {:induction false} CompletedIsUndoneOutsideTheLease(last: Action)
    requires last == FailTask(1, "late") || last == PersistTask(1, 101, "jpg")
    ensures exists worlds: seq<World> ::
              && IsRun(worlds, SlowActions(last), Config(10, 3))
              && MarksCompleted(worlds[5], last) && !CompletedKept(worlds[5], worlds[6])
              && (last.FailTask? ==> 7 in worlds[6].tasks && worlds[6].tasks[7].status == Pending)
              && (last.PersistTask? ==>
                    worlds[6].objects == map[100 := ObjectKey(7, "webp"), 101 := ObjectKey(7, "jpg")])
  {
    var c, actions := Config(10, 3), SlowActions(last);
    var start := TakenOver();
    var w5 := Step(start[4], actions[4], c);
    assert w5.tasks[7].status == Completed && w5.tasks[7].storageObject == Some(100);
    var w6 := Step(w5, last, c);
    var worlds := start + [w5, w6];
    forall i | 0 <= i < |actions|
      ensures Enabled(worlds[i], actions[i], c) && worlds[i + 1] == Step(worlds[i], actions[i], c)
    {
      if i < 4 {
        assert actions[i] == TAKEOVER[i] && worlds[i] == start[i] && worlds[i + 1] == start[i + 1];
      }
    }
    assert IsRun(worlds, actions, c);
    assert ObjectsNamed(w5) by {
      RunKeepsObjects(worlds, actions, c, 5, 5);
    }
    CompletedKeptIff(w5, last, c);
  }
}
