/** The table of media transfer tasks. Every SQL statement is one atomic step over the rows
    (server/src/transfer/queue.rs; server/src/internal_api/v2/transfer.rs, lines 169 to 295). */
module TransferQueue {
  import opened Prelude
  import opened ClaimOrder

  datatype Status = Pending | Processing | Completed | Failed | Canceled

  datatype TaskRow = TaskRow(
    status: Status,
    attemptCount: int,
    lastError: Option<string>,
    claimedBy: Option<string>,
    claimedAt: Option<int>,
    completedAt: Option<int>,
    storageObject: Option<int>,
    createdAt: int)

  type Tasks = map<int, TaskRow>

  /** Under which key a task stores its object. Prefix and medium are fixed by the configuration and the
      task; the extension follows from the content type the origin announces
      (server/src/storage.rs, lines 101 to 150). */
  datatype ObjectKey = ObjectKey(task: int, extension: string)

  /** Stored objects by id; the table also keeps object keys unique. */
  type Objects = map<int, ObjectKey>

  // ---------- the statements, as functions of the rows ----------

  function NewTask(now: int): TaskRow {
    TaskRow(Pending, 0, None, None, None, None, None, now)
  }

  predicate Stale(row: TaskRow, cutoff: int) {
    row.status == Processing && (row.claimedAt.None? || row.claimedAt.value <= cutoff)
  }

  predicate Claimable(row: TaskRow, cutoff: int, maxAttempts: int) {
    row.status == Pending || (Stale(row, cutoff) && row.attemptCount < maxAttempts)
  }

  predicate Expires(row: TaskRow, cutoff: int, maxAttempts: int) {
    Stale(row, cutoff) && row.attemptCount >= maxAttempts
  }

  function ClaimRow(row: TaskRow, worker: string, now: int): TaskRow {
    row.(status := Processing, attemptCount := row.attemptCount + 1,
         claimedBy := Some(worker), claimedAt := Some(now))
  }

  function CompleteRow(row: TaskRow, objectId: int, now: int): TaskRow {
    row.(status := Completed, storageObject := Some(objectId), lastError := None,
         claimedBy := None, claimedAt := None, completedAt := Some(now))
  }

  function FailRow(row: TaskRow, error: string, maxAttempts: int, now: int): TaskRow {
    row.(status := if row.attemptCount >= maxAttempts then Failed else Pending,
         lastError := Some(error), claimedBy := None, claimedAt := None,
         completedAt := if row.attemptCount >= maxAttempts then Some(now) else None)
  }

  function ExpireRow(row: TaskRow, now: int): TaskRow {
    row.(status := Failed,
         lastError := if row.lastError.None? then Some("attempt_timeout") else row.lastError,
         claimedBy := None, claimedAt := None, completedAt := Some(now))
  }

  datatype Transition = Retry | Cancel | Release

  predicate Allowed(transition: Transition, status: Status) {
    match transition
    case Retry => status == Failed || status == Canceled
    case Cancel => status == Pending
    case Release => status == Processing
  }

  function TransitionRow(transition: Transition, row: TaskRow, now: int): TaskRow {
    match transition
    case Retry => row.(status := Pending, lastError := None, claimedBy := None, claimedAt := None, completedAt := None)
    case Cancel => row.(status := Canceled, lastError := Some("canceled_by_admin"),
                        claimedBy := None, claimedAt := None, completedAt := Some(now))
    case Release => row.(status := Pending, lastError := Some("released_by_admin"),
                         claimedBy := None, claimedAt := None, completedAt := None)
  }

  function ExpireStale(tasks: Tasks, cutoff: int, maxAttempts: int, now: int): Tasks {
    map t | t in tasks :: if Expires(tasks[t], cutoff, maxAttempts) then ExpireRow(tasks[t], now) else tasks[t]
  }

  function Candidates(tasks: Tasks, cutoff: int, maxAttempts: int): set<int> {
    set t | t in tasks && Claimable(tasks[t], cutoff, maxAttempts)
  }

  function ClaimKey(tasks: Tasks, t: int): SortKey {
    if t in tasks then SortKey(if tasks[t].status == Pending then 0 else 1, tasks[t].createdAt, t)
    else SortKey(0, 0, t)
  }

  /** The failure mark tests nothing but the id. */
  function MarkFailed(tasks: Tasks, id: int, error: string, maxAttempts: int, now: int): Tasks {
    if id in tasks then tasks[id := FailRow(tasks[id], error, maxAttempts, now)] else tasks
  }

  /** The insert of the object can break a uniqueness constraint; then nothing is written. */
  predicate ObjectConflicts(objects: Objects, objectId: int, key: ObjectKey) {
    objectId in objects || key in objects.Values
  }

  /** The completion mark tests nothing but the id either. */
  function MarkCompleted(tasks: Tasks, id: int, objectId: int, now: int): Tasks {
    if id in tasks then tasks[id := CompleteRow(tasks[id], objectId, now)] else tasks
  }

  /** The tasks somebody is said to work on. */
  function Running(tasks: Tasks): set<int> {
    set t | t in tasks && tasks[t].status == Processing
  }

  /** What expires was running and is not any more. */
  lemma {:induction false} ExpiredStop(tasks: Tasks, expired: set<int>, cutoff: int, maxAttempts: int, now: int)
    requires expired == set t | t in tasks && Expires(tasks[t], cutoff, maxAttempts)
    ensures var after := ExpireStale(tasks, cutoff, maxAttempts, now);
            Running(after) <= Running(tasks) && |Running(tasks)| == |Running(after)| + |expired|
  {
    var after := ExpireStale(tasks, cutoff, maxAttempts, now);
    assert forall t :: t in expired ==> after[t].status == Failed;
    assert Running(tasks) == Running(after) + expired && Running(after) * expired == {};
  }

  // ---------- which row a claim takes ----------

  /** Nobody has locked the row, and it is pending, or stale with attempts left. */
  ghost predicate IsFree(tasks: Tasks, t: int, cutoff: int, maxAttempts: int, locked: set<int>) {
    && t in tasks && t !in locked
    && (tasks[t].status == Pending
        || (tasks[t].status == Processing && tasks[t].attemptCount < maxAttempts
            && (tasks[t].claimedAt.None? || tasks[t].claimedAt.value <= cutoff)))
  }

  /** A pending row goes before any other, then an older one before a newer one, then by id. */
  ghost predicate GoesBefore(tasks: Tasks, t: int, u: int)
    requires t in tasks && u in tasks
  {
    if (tasks[t].status == Pending) != (tasks[u].status == Pending) then tasks[t].status == Pending
    else if tasks[t].createdAt != tasks[u].createdAt then tasks[t].createdAt < tasks[u].createdAt
    else t < u
  }

  lemma {:induction false} FreeAreCandidates(tasks: Tasks, cutoff: int, maxAttempts: int, locked: set<int>)
    ensures forall t :: t in Candidates(tasks, cutoff, maxAttempts) - locked
                        <==> IsFree(tasks, t, cutoff, maxAttempts, locked)
  {
  }

  lemma {:induction false} KeysGoBefore(tasks: Tasks, t: int, u: int)
    requires t in tasks && u in tasks && t != u
    ensures GoesBefore(tasks, t, u) <==> !Before(ClaimKey(tasks, u), ClaimKey(tasks, t))
  {
  }

  /** The first candidate by its key goes before all others. */
  lemma {:induction false} FirstGoesBefore(tasks: Tasks, cutoff: int, maxAttempts: int, locked: set<int>, t: int)
    requires t in Candidates(tasks, cutoff, maxAttempts) - locked
    requires forall u :: u in Candidates(tasks, cutoff, maxAttempts) - locked ==>
               !Before(ClaimKey(tasks, u), ClaimKey(tasks, t))
    ensures IsFree(tasks, t, cutoff, maxAttempts, locked)
    ensures forall u :: IsFree(tasks, u, cutoff, maxAttempts, locked) && u != t ==> GoesBefore(tasks, t, u)
  {
    FreeAreCandidates(tasks, cutoff, maxAttempts, locked);
    forall u | IsFree(tasks, u, cutoff, maxAttempts, locked) && u != t
      ensures GoesBefore(tasks, t, u)
    {
      KeysGoBefore(tasks, t, u);
    }
  }

  // ---------- the table ----------

  class TransferTable {
    var tasks: Tasks
    var objects: Objects

    constructor ()
      ensures tasks == map[] && objects == map[]
    {
      tasks, objects := map[], map[];
    }

    method EnqueueTask(id: int, now: int) returns (enqueued: bool)
      modifies `tasks
      ensures enqueued <==> id !in old(tasks)
      ensures enqueued ==> tasks == old(tasks)[id := TaskRow(Pending, 0, None, None, None, None, None, now)]
      ensures tasks == if enqueued then old(tasks)[id := NewTask(now)] else old(tasks)
    {
      enqueued := id !in tasks;
      if enqueued {
        tasks := tasks[id := NewTask(now)];
      }
    }

    /** Afterwards no stale task is stuck: each one that is left can be claimed again. What is not running
        any more has been counted, and nothing but a running task is touched. */
    method ExpireStaleTasks(cutoff: int, maxAttempts: int, now: int) returns (count: nat)
      modifies `tasks
      ensures tasks == ExpireStale(old(tasks), cutoff, maxAttempts, now)
      ensures tasks.Keys == old(tasks).Keys
      ensures forall t :: t in tasks ==>
                var row := old(tasks)[t];
                tasks[t] == if row.status == Processing && (row.claimedAt.None? || row.claimedAt.value <= cutoff)
                               && row.attemptCount >= maxAttempts
                            then row.(status := Failed, claimedBy := None, claimedAt := None, completedAt := Some(now),
                                      lastError := if row.lastError.Some? then row.lastError
                                                   else Some("attempt_timeout"))
                            else row
      ensures forall t :: t in tasks && Stale(tasks[t], cutoff) ==> Claimable(tasks[t], cutoff, maxAttempts)
      ensures Running(tasks) <= Running(old(tasks)) && |Running(old(tasks))| == |Running(tasks)| + count
      ensures forall t :: t in old(tasks) && t !in Running(old(tasks)) ==> t in tasks && tasks[t] == old(tasks)[t]
    {
      var expired := set t | t in tasks && Expires(tasks[t], cutoff, maxAttempts);
      count := |expired|;
      ExpiredStop(tasks, expired, cutoff, maxAttempts, now);
      tasks := ExpireStale(tasks, cutoff, maxAttempts, now);
    }

    /** Claims the first unlocked candidate: pending before stale, then oldest, then smallest id. */
    method ClaimNextTask(cutoff: int, maxAttempts: int, worker: string, now: int, locked: set<int>)
      returns (r: Option<int>)
      modifies `tasks
      ensures var free := Candidates(old(tasks), cutoff, maxAttempts) - locked;
              && (r.None? <==> free == {})
              && (r.Some? ==> TakesFirst({r.value}, free, t => ClaimKey(old(tasks), t)))
      ensures r.None? ==> tasks == old(tasks) && forall t :: !IsFree(tasks, t, cutoff, maxAttempts, locked)
      ensures r.Some? ==>
                && IsFree(old(tasks), r.value, cutoff, maxAttempts, locked)
                && (forall u :: IsFree(old(tasks), u, cutoff, maxAttempts, locked) && u != r.value ==>
                      GoesBefore(old(tasks), r.value, u))
                && var row := old(tasks)[r.value];
                   tasks == old(tasks)[r.value := row.(status := Processing, attemptCount := row.attemptCount + 1,
                                                       claimedBy := Some(worker), claimedAt := Some(now))]
      ensures r.Some? ==> r.value in old(tasks)
                          && tasks == old(tasks)[r.value := ClaimRow(old(tasks)[r.value], worker, now)]
    {
      var free := Candidates(tasks, cutoff, maxAttempts) - locked;
      if free == {} {
        FreeAreCandidates(tasks, cutoff, maxAttempts, locked);
        return None;
      }
      var before := tasks;
      var t := First(free, u => ClaimKey(before, u));
      FirstGoesBefore(before, cutoff, maxAttempts, locked, t);
      tasks := tasks[t := ClaimRow(tasks[t], worker, now)];
      return Some(t);
    }

    /** One transaction: the object row and the completed task, or neither. */
    method PersistCompletedTask(id: int, objectId: int, extension: string, now: int) returns (ok: bool)
      modifies this
      ensures ok <==> !ObjectConflicts(old(objects), objectId, ObjectKey(id, extension))
      ensures objects == if ok then old(objects)[objectId := ObjectKey(id, extension)] else old(objects)
      ensures tasks == if ok then MarkCompleted(old(tasks), id, objectId, now) else old(tasks)
      ensures ok <==> objectId !in old(objects) && ObjectKey(id, extension) !in old(objects).Values
      ensures ok && id in old(tasks) ==>
                tasks == old(tasks)[id := old(tasks)[id].(status := Completed, storageObject := Some(objectId),
                                                          lastError := None, claimedBy := None, claimedAt := None,
                                                          completedAt := Some(now))]
    {
      var key := ObjectKey(id, extension);
      if ObjectConflicts(objects, objectId, key) {
        return false;
      }
      objects := objects[objectId := key];
      if id in tasks {
        tasks := tasks[id := CompleteRow(tasks[id], objectId, now)];
      }
      return true;
    }

    /** Whatever the task was, it is not running afterwards, and it can be claimed again, at once, exactly if
        it has attempts left. */
    method MarkTaskFailed(id: int, error: string, maxAttempts: int, now: int)
      modifies `tasks
      ensures tasks == MarkFailed(old(tasks), id, error, maxAttempts, now)
      ensures id in old(tasks) ==>
                var row := old(tasks)[id];
                var left := row.attemptCount < maxAttempts;
                tasks == old(tasks)[id := row.(status := if left then Pending else Failed, lastError := Some(error),
                                               claimedBy := None, claimedAt := None,
                                               completedAt := if left then None else Some(now))]
      ensures Running(tasks) == Running(old(tasks)) - {id}
      ensures forall cutoff :: id in Candidates(tasks, cutoff, maxAttempts)
                               <==> id in old(tasks) && old(tasks)[id].attemptCount < maxAttempts
      ensures forall t :: t in old(tasks) && t != id ==> t in tasks && tasks[t] == old(tasks)[t]
    {
      if id in tasks {
        tasks := tasks[id := FailRow(tasks[id], error, maxAttempts, now)];
      }
    }

    /** Admin retry, cancel and release: locked read, guard, update. A transition that was made cannot be
        made again at once; a retried or released task can be claimed at once, a canceled one not at all,
        whatever the cutoff and the bound on attempts. */
    method TransitionLockedTask(id: int, transition: Transition, now: int) returns (ok: bool)
      modifies `tasks
      ensures id in tasks && ok ==> !Allowed(transition, tasks[id].status)
      ensures ok ==> id in tasks && id !in Running(tasks)
      ensures ok ==> forall cutoff, maxAttempts ::
                id in Candidates(tasks, cutoff, maxAttempts) <==> transition != Cancel
      ensures forall t :: t in old(tasks) && t != id ==> t in tasks && tasks[t] == old(tasks)[t]
      ensures ok <==> id in old(tasks) && Allowed(transition, old(tasks)[id].status)
      ensures ok <==> && id in old(tasks)
                      && var status := old(tasks)[id].status;
                         if transition == Retry then status in {Failed, Canceled}
                         else if transition == Cancel then status == Pending else status == Processing
      ensures ok ==>
                var row := old(tasks)[id].(claimedBy := None, claimedAt := None);
                tasks[id] == if transition == Retry then row.(status := Pending, lastError := None, completedAt := None)
                             else if transition == Cancel
                             then row.(status := Canceled, lastError := Some("canceled_by_admin"),
                                       completedAt := Some(now))
                             else row.(status := Pending, lastError := Some("released_by_admin"), completedAt := None)
      ensures tasks == if ok then old(tasks)[id := TransitionRow(transition, old(tasks)[id], now)] else old(tasks)
    {
      if id !in tasks {
        return false;
      }
      if !Allowed(transition, tasks[id].status) {
        return false;
      }
      tasks := tasks[id := TransitionRow(transition, tasks[id], now)];
      return true;
    }
  }

  // ---------- what every run keeps ----------

  datatype Op =
    | Insert(id: int)
    | Claim(id: int, worker: string, cutoff: int)
    | Complete(id: int, objectId: int, extension: string)
    | Fail(id: int, error: string)
    | Expire(cutoff: int)
    | Admin(id: int, transition: Transition)

  /** `resets` counts, for each task, the admin retries and releases that took effect. */
  datatype State = State(tasks: Tasks, objects: Objects, resets: map<int, nat>)

  function Resets(s: State, id: int): nat {
    if id in s.resets then s.resets[id] else 0
  }

  /** One statement. A claim that names a row that is no candidate, like a guarded transition that
      is not allowed and an object that conflicts, changes nothing. */
  function Apply(s: State, op: Op, maxAttempts: int, now: int): State {
    match op
    case Insert(id) =>
      if id in s.tasks then s else s.(tasks := s.tasks[id := NewTask(now)])
    case Claim(id, worker, cutoff) =>
      if id in Candidates(s.tasks, cutoff, maxAttempts)
      then s.(tasks := s.tasks[id := ClaimRow(s.tasks[id], worker, now)]) else s
    case Complete(id, objectId, extension) =>
      if ObjectConflicts(s.objects, objectId, ObjectKey(id, extension)) then s
      else s.(tasks := MarkCompleted(s.tasks, id, objectId, now),
              objects := s.objects[objectId := ObjectKey(id, extension)])
    case Fail(id, error) =>
      s.(tasks := MarkFailed(s.tasks, id, error, maxAttempts, now))
    case Expire(cutoff) =>
      s.(tasks := ExpireStale(s.tasks, cutoff, maxAttempts, now))
    case Admin(id, transition) =>
      if id in s.tasks && Allowed(transition, s.tasks[id].status)
      then s.(tasks := s.tasks[id := TransitionRow(transition, s.tasks[id], now)],
              resets := if transition == Cancel then s.resets else s.resets[id := Resets(s, id) + 1])
      else s
  }

  ghost predicate RowOk(row: TaskRow, budget: int) {
    && (row.status == Processing <==> row.claimedBy.Some?)
    && (row.status == Processing <==> row.claimedAt.Some?)
    && (row.status in {Completed, Failed, Canceled} <==> row.completedAt.Some?)
    && (row.status == Completed ==> row.storageObject.Some?)
    && 0 <= row.attemptCount <= budget
    && (row.status == Pending ==> row.attemptCount < budget)
  }

  ghost predicate RowsOk(s: State, maxAttempts: int) {
    forall t :: t in s.tasks ==> RowOk(s.tasks[t], maxAttempts + Resets(s, t))
  }

  /** Distinct objects have distinct keys. */
  ghost predicate KeysUnique(objects: Objects) {
    forall a, b :: a in objects && b in objects && objects[a] == objects[b] ==> a == b
  }

  lemma {:induction false} ApplyKeepsRow(s: State, op: Op, maxAttempts: int, now: int, t: int)
    requires maxAttempts > 0 && t in Apply(s, op, maxAttempts, now).tasks
    requires t in s.tasks ==> RowOk(s.tasks[t], maxAttempts + Resets(s, t))
    ensures var s' := Apply(s, op, maxAttempts, now);
            RowOk(s'.tasks[t], maxAttempts + Resets(s', t))
  {
  }

  lemma {:induction false} ApplyKeepsRows(s: State, op: Op, maxAttempts: int, now: int)
    requires maxAttempts > 0 && RowsOk(s, maxAttempts)
    ensures RowsOk(Apply(s, op, maxAttempts, now), maxAttempts)
  {
    var s' := Apply(s, op, maxAttempts, now);
    forall t | t in s'.tasks
      ensures RowOk(s'.tasks[t], maxAttempts + Resets(s', t))
    {
      ApplyKeepsRow(s, op, maxAttempts, now, t);
    }
  }

  function Run(s: State, ops: seq<(Op, int)>, maxAttempts: int): State
    decreases |ops|
  {
    if ops == [] then s else Run(Apply(s, ops[0].0, maxAttempts, ops[0].1), ops[1..], maxAttempts)
  }

  /** Over every run that mixes inserts, claims, unfenced marks, expiry and admin transitions, at any
      times: claim fields are set exactly while processing, `completed_at` exactly in the final
      statuses, a completed task names its object, and no task is attempted more often than
      `maxAttempts` plus the number of its retries and releases. */
  lemma {:induction false} EveryRunKeepsRows(s: State, ops: seq<(Op, int)>, maxAttempts: int)
    requires maxAttempts > 0 && RowsOk(s, maxAttempts) && KeysUnique(s.objects)
    ensures RowsOk(Run(s, ops, maxAttempts), maxAttempts) && KeysUnique(Run(s, ops, maxAttempts).objects)
    decreases |ops|
  {
    if ops != [] {
      ApplyKeepsRows(s, ops[0].0, maxAttempts, ops[0].1);
      var s' := Apply(s, ops[0].0, maxAttempts, ops[0].1);
      EveryRunKeepsRows(s', ops[1..], maxAttempts);
    }
  }

  lemma {:induction false} EmptyTableIsOk(maxAttempts: int, ops: seq<(Op, int)>)
    requires maxAttempts > 0
    ensures RowsOk(Run(State(map[], map[], map[]), ops, maxAttempts), maxAttempts)
  {
    EveryRunKeepsRows(State(map[], map[], map[]), ops, maxAttempts);
  }

  lemma {:induction false} RunAppend(s: State, a: seq<(Op, int)>, b: seq<(Op, int)>, maxAttempts: int)
    ensures Run(s, a + b, maxAttempts) == Run(Run(s, a, maxAttempts), b, maxAttempts)
    decreases |a|
  {
    if a == [] {
      assert a + b == b;
    } else {
      assert (a + b)[1..] == a[1..] + b;
      RunAppend(Apply(s, a[0].0, maxAttempts, a[0].1), a[1..], b, maxAttempts);
    }
  }

  /** One more attempt, and it fails. */
  lemma {:induction false} RunAttempt(s: State, id: int, maxAttempts: int)
    requires id in s.tasks && s.tasks[id].status == Pending
    ensures var s' := Run(s, [(Claim(id, "w", 0), 0), (Fail(id, "e"), 0)], maxAttempts);
            && id in s'.tasks && s'.resets == s.resets
            && s'.tasks[id].attemptCount == s.tasks[id].attemptCount + 1
            && s'.tasks[id].status == if s'.tasks[id].attemptCount >= maxAttempts then Failed else Pending
  {
    var s1 := Apply(s, Claim(id, "w", 0), maxAttempts, 0);
    var s2 := Apply(s1, Fail(id, "e"), maxAttempts, 0);
    assert s1.tasks[id].attemptCount == s.tasks[id].attemptCount + 1;
    assert Run(s2, [], maxAttempts) == s2;
    assert [(Claim(id, "w", 0), 0), (Fail(id, "e"), 0)][1..] == [(Fail(id, "e"), 0)];
    assert Run(s1, [(Fail(id, "e"), 0)], maxAttempts) == s2;
  }

  /** A run after which a task has failed `n` times, none of them after an admin action. */
  lemma {:induction false} RunAttempts(id: int, maxAttempts: int, n: nat) returns (ops: seq<(Op, int)>)
    requires n <= maxAttempts && maxAttempts > 0
    ensures var s := Run(State(map[], map[], map[]), ops, maxAttempts);
            && id in s.tasks && s.resets == map[] && s.tasks[id].attemptCount == n
            && s.tasks[id].status == if n >= maxAttempts then Failed else Pending
  {
    var start := State(map[], map[], map[]);
    if n == 0 {
      ops := [(Insert(id), 0)];
      assert Run(Apply(start, Insert(id), maxAttempts, 0), [], maxAttempts).tasks == map[id := NewTask(0)];
    } else {
      var before := RunAttempts(id, maxAttempts, n - 1);
      ops := before + [(Claim(id, "w", 0), 0), (Fail(id, "e"), 0)];
      RunAppend(start, before, [(Claim(id, "w", 0), 0), (Fail(id, "e"), 0)], maxAttempts);
      RunAttempt(Run(start, before, maxAttempts), id, maxAttempts);
    }
  }

  /** The bound on attempts is attained for every maximum and every number of resets: a retry does not set
      the count back. */
  lemma {:induction false} AttemptBoundIsReached(id: int, maxAttempts: int, resets: nat) returns (ops: seq<(Op, int)>)
    requires maxAttempts > 0
    ensures var s := Run(State(map[], map[], map[]), ops, maxAttempts);
            && id in s.tasks && Resets(s, id) == resets
            && s.tasks[id].attemptCount == maxAttempts + resets && s.tasks[id].status == Failed
  {
    var start := State(map[], map[], map[]);
    if resets == 0 {
      ops := RunAttempts(id, maxAttempts, maxAttempts);
    } else {
      var before := AttemptBoundIsReached(id, maxAttempts, resets - 1);
      var s := Run(start, before, maxAttempts);
      var retried := Apply(s, Admin(id, Retry), maxAttempts, 0);
      assert Run(retried, [], maxAttempts) == retried;
      assert Run(s, [(Admin(id, Retry), 0)], maxAttempts) == retried;
      RunAppend(start, before, [(Admin(id, Retry), 0)], maxAttempts);
      RunAttempt(retried, id, maxAttempts);
      ops := before + [(Admin(id, Retry), 0)] + [(Claim(id, "w", 0), 0), (Fail(id, "e"), 0)];
      RunAppend(start, before + [(Admin(id, Retry), 0)], [(Claim(id, "w", 0), 0), (Fail(id, "e"), 0)], maxAttempts);
    }
  }
}
