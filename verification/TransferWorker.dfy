/** The transfer worker as a program over the table, with everybody else at work between any two of its
    statements (server/src/transfer/worker.rs, lines 80 to 156). Each statement is recorded, so that the
    program is seen to be a run of the transition system `TransferLease`. */
module TransferWorker {
  import opened Prelude
  import opened TransferQueue
  import opened TransferLease

  lemma {:induction false} RunSnoc(worlds: seq<World>, actions: seq<Action>, c: Config, a: Action, w: World)
    requires IsRun(worlds, actions, c) && Enabled(worlds[|actions|], a, c) && w == Step(worlds[|actions|], a, c)
    ensures IsRun(worlds + [w], actions + [a], c)
  {
  }

  /** An object that has been uploaded. */
  datatype Uploaded = Uploaded(objectId: int, extension: string)

  /** What a worker meets in one round: whether each of its statements reaches the database, which rows
      somebody else has locked, and what the transfer yields, if it succeeds. */
  datatype Weather = Weather(
    expires: bool, claims: bool, persists: bool, marks: bool,
    locked: set<int>, upload: Option<Uploaded>, error: string)

  /** The action is one that only worker `k` itself takes. */
  predicate ActsAs(a: Action, k: int) {
    match a
    case ClaimTask(worker, _, _, _) => worker == k
    case PersistTask(worker, _, _) => worker == k
    case FailTask(worker, _) => worker == k
    case Abandon(worker) => worker == k
    case _ => false
  }

  /** The actions go on from `before`, and none of the new ones is worker `k`'s. */
  ghost predicate OnlyOthers(before: seq<Action>, actions: seq<Action>, k: int) {
    before <= actions && forall i :: |before| <= i < |actions| ==> !ActsAs(actions[i], k)
  }

  lemma {:induction false} OthersThroughout(a: seq<Action>, b: seq<Action>, d: seq<Action>, k: int)
    requires OnlyOthers(a, b, k) && OnlyOthers(b, d, k)
    ensures OnlyOthers(a, d, k)
  {
  }

  ghost predicate ObjectsKept(before: Objects, objects: Objects) {
    forall o :: o in before ==> o in objects && objects[o] == before[o]
  }

  /** How one round went: it began, its claim was due and it ended after so many actions; `claimed` is the
      task it claimed, `done` whether it completed that task. */
  datatype Played = Played(began: nat, due: nat, end: nat, claimed: Option<int>, done: bool)

  /** What became of the claim of a round that was due in world `v` after the actions `before` and ended in
      world `w`, by what the worker met: nothing is claimed if the statement does not reach the database, and
      otherwise only if nothing is free; a claimed task ends completed by this upload, marked failed, or,
      without the database, as it was. */
  ghost predicate Outcome(v: World, before: seq<Action>, w: World, actions: seq<Action>, c: Config, me: int,
                          name: string, staleCutoff: int, weather: Weather, claimed: Option<int>, done: bool) {
    && before <= actions
    && (!weather.claims ==> claimed.None?)
    && (claimed.None? ==> !done && actions == before)
    && (claimed.None? && weather.claims ==> Candidates(v.tasks, staleCutoff, c.maxAttempts) <= weather.locked)
    && (claimed.Some? ==>
          && claimed.value in Candidates(v.tasks, staleCutoff, c.maxAttempts) - weather.locked
          && |actions| > |before| + 1 && actions[|before|] == ClaimTask(me, name, claimed.value, staleCutoff)
          && OnlyOthers(actions[..|before| + 1], actions[..|actions| - 1], me))
    && (done ==>
          && weather.upload.Some? && weather.persists && claimed.Some?
          && actions[|actions| - 1] == PersistTask(me, weather.upload.value.objectId, weather.upload.value.extension)
          && claimed.value in w.tasks && w.tasks[claimed.value].status == Completed
          && w.tasks[claimed.value].storageObject == Some(weather.upload.value.objectId))
    && (claimed.Some? && !done ==>
          && actions[|actions| - 1] == (if weather.marks then FailTask(me, weather.error) else Abandon(me))
          && (weather.marks ==> claimed.value !in Running(w.tasks))
          && (weather.upload.Some? && weather.persists ==>
                || weather.upload.value.objectId in w.objects
                || ObjectKey(claimed.value, weather.upload.value.extension) in w.objects.Values))
  }

  /** A round of the run: expiry, if it reaches the database, then the claim, at the cutoff of its beginning. */
  ghost predicate RoundAt(worlds: seq<World>, actions: seq<Action>, c: Config, me: int, name: string,
                          weather: Weather, p: Played) {
    && |worlds| == |actions| + 1 && p.began <= p.due <= p.end <= |actions|
    && OnlyOthers(actions[..p.began], actions[..p.due], me)
    && var staleCutoff := worlds[p.began].now - c.staleTimeout;
       && (weather.expires ==> ExpireTasks(staleCutoff) in actions[p.began..p.due])
       && Outcome(worlds[p.due], actions[..p.due], worlds[p.end], actions[..p.end], c, me, name, staleCutoff,
                  weather, p.claimed, p.done)
  }

  /** A run that goes on from another one goes through the same worlds. */
  lemma {:induction false} RunsAgree(v: seq<World>, a: seq<Action>, w: seq<World>, b: seq<Action>, c: Config, i: nat)
    requires IsRun(v, a, c) && IsRun(w, b, c) && a <= b && i <= |a|
    ensures v[i] == w[i]
  {
    if i > 0 {
      RunsAgree(v, a, w, b, c, i - 1);
      assert a[i - 1] == b[i - 1];
    }
  }

  lemma {:induction false} RoundStays(v: seq<World>, a: seq<Action>, w: seq<World>, b: seq<Action>, c: Config,
                                      me: int, name: string, weather: Weather, p: Played)
    requires IsRun(v, a, c) && IsRun(w, b, c) && a <= b && RoundAt(v, a, c, me, name, weather, p)
    ensures RoundAt(w, b, c, me, name, weather, p)
  {
    RunsAgree(v, a, w, b, c, p.began);
    RunsAgree(v, a, w, b, c, p.due);
    RunsAgree(v, a, w, b, c, p.end);
    assert a[..p.began] == b[..p.began] && a[..p.due] == b[..p.due] && a[..p.end] == b[..p.end];
    assert a[p.began..p.due] == b[p.began..p.due];
  }

  /** The rounds follow one another, the first one after `start` actions, and each went by its weather. */
  ghost predicate RoundsAt(worlds: seq<World>, actions: seq<Action>, c: Config, me: int, name: string,
                           rounds: seq<Weather>, played: seq<Played>, start: nat) {
    && |played| <= |rounds|
    && (forall i :: 0 <= i < |played| ==> RoundAt(worlds, actions, c, me, name, rounds[i], played[i]))
    && (played != [] ==> played[0].began == start)
    && (forall i, j :: 0 <= i < j < |played| && j == i + 1 ==> played[i].end == played[j].began)
  }

  lemma {:induction false} RoundsStay(v: seq<World>, a: seq<Action>, w: seq<World>, b: seq<Action>, c: Config,
                                      me: int, name: string, rounds: seq<Weather>, played: seq<Played>, start: nat)
    requires IsRun(v, a, c) && IsRun(w, b, c) && a <= b && RoundsAt(v, a, c, me, name, rounds, played, start)
    ensures RoundsAt(w, b, c, me, name, rounds, played, start)
  {
    forall i | 0 <= i < |played|
      ensures RoundAt(w, b, c, me, name, rounds[i], played[i])
    {
      RoundStays(v, a, w, b, c, me, name, rounds[i], played[i]);
    }
  }

  lemma {:induction false} RoundsSnoc(w: seq<World>, b: seq<Action>, c: Config, me: int, name: string,
                                      rounds: seq<Weather>, played: seq<Played>, start: nat, p: Played)
    requires RoundsAt(w, b, c, me, name, rounds, played, start) && |played| < |rounds|
    requires RoundAt(w, b, c, me, name, rounds[|played|], p)
    requires p.began == if played == [] then start else played[|played| - 1].end
    ensures RoundsAt(w, b, c, me, name, rounds, played + [p], start)
  {
  }

  /** Whoever works on a task works on one that is in the table. */
  lemma {:induction false} TasksAreKnown(worlds: seq<World>, actions: seq<Action>, c: Config, i: nat, k: int)
    requires IsRun(worlds, actions, c) && i < |worlds| && k in worlds[i].attempts
    ensures worlds[i].attempts[k].task in worlds[i].tasks
  {
    if i > 0 {
      assert worlds[i] == Step(worlds[i - 1], actions[i - 1], c);
      if k in worlds[i - 1].attempts {
        TasksAreKnown(worlds, actions, c, i - 1, k);
      }
    }
  }

  class TransferSystem {
    const c: Config
    const table: TransferTable
    var now: int
    var attempts: map<int, Attempt>
    ghost var worlds: seq<World>
    ghost var actions: seq<Action>

    ghost function View(): World
      reads this, table
    {
      World(table.tasks, table.objects, attempts, now)
    }

    /** What has happened so far is a run of the transition system that leads to the current state. */
    ghost predicate Valid()
      reads this, table
    {
      c.Valid() && IsRun(worlds, actions, c) && worlds[|actions|] == View()
    }

    constructor (c: Config)
      requires c.Valid()
      ensures Valid() && this.c == c && fresh(table) && attempts == map[] && actions == []
    {
      this.c := c;
      table := new TransferTable();
      now, attempts := 0, map[];
      worlds, actions := [EMPTY], [];
    }

    /** Notes the statement that has led to the current state. */
    ghost method Record(a: Action)
      requires c.Valid() && IsRun(worlds, actions, c)
      requires Enabled(worlds[|actions|], a, c) && View() == Step(worlds[|actions|], a, c)
      modifies this`worlds, this`actions
      ensures Valid() && actions == old(actions) + [a] && worlds == old(worlds) + [View()]
    {
      RunSnoc(worlds, actions, c, a, View());
      worlds, actions := worlds + [View()], actions + [a];
    }

    method ExpireAt(cutoff: int)
      requires Valid() && cutoff <= now - c.staleTimeout
      modifies this`worlds, this`actions, table
      ensures Valid() && actions == old(actions) + [ExpireTasks(cutoff)]
      ensures table.objects == old(table.objects)
    {
      var _ := table.ExpireStaleTasks(cutoff, c.maxAttempts, now);
      Record(ExpireTasks(cutoff));
    }

    /** Claims a task for a worker and remembers it. It comes back without one only if every task that could
        be claimed is locked. */
    method ClaimFor(worker: int, name: string, cutoff: int, locked: set<int>) returns (r: Option<int>)
      requires Valid() && worker !in attempts && cutoff <= now - c.staleTimeout
      modifies this`attempts, this`worlds, this`actions, table
      ensures Valid() && table.objects == old(table.objects)
      ensures attempts == if r.Some? then old(attempts)[worker := Attempt(r.value, now)] else old(attempts)
      ensures actions == old(actions) + if r.Some? then [ClaimTask(worker, name, r.value, cutoff)] else []
      ensures r.None? ==> table.tasks == old(table.tasks)
                          && Candidates(table.tasks, cutoff, c.maxAttempts) <= locked
      ensures r.Some? ==> r.value in Candidates(old(table.tasks), cutoff, c.maxAttempts) - locked
    {
      ghost var free := Candidates(table.tasks, cutoff, c.maxAttempts) - locked;
      r := table.ClaimNextTask(cutoff, c.maxAttempts, name, now, locked);
      if r.None? {
        forall t | t in Candidates(table.tasks, cutoff, c.maxAttempts)
          ensures t in locked
        {
          assert t !in free;
        }
      } else {
        attempts := attempts[worker := Attempt(r.value, now)];
        Record(ClaimTask(worker, name, r.value, cutoff));
      }
    }

    /** The completing transaction; when the object conflicts it changes nothing. */
    method PersistFor(worker: int, upload: Uploaded) returns (ok: bool)
      requires Valid() && worker in attempts
      modifies this`attempts, this`worlds, this`actions, table
      ensures Valid() && ObjectsKept(old(table.objects), table.objects)
      ensures attempts == if ok then old(attempts) - {worker} else old(attempts)
      ensures actions == old(actions) + if ok then [PersistTask(worker, upload.objectId, upload.extension)] else []
      ensures var task := old(attempts)[worker].task;
              && (ok ==>
                    && task in table.tasks && table.tasks[task].status == Completed
                    && table.tasks[task].storageObject == Some(upload.objectId)
                    && upload.objectId in table.objects
                    && table.objects[upload.objectId] == ObjectKey(task, upload.extension))
              && (!ok ==>
                    && table.tasks == old(table.tasks) && table.objects == old(table.objects)
                    && (upload.objectId in table.objects || ObjectKey(task, upload.extension) in table.objects.Values))
    {
      TasksAreKnown(worlds, actions, c, |actions|, worker);
      ok := table.PersistCompletedTask(attempts[worker].task, upload.objectId, upload.extension, now);
      if ok {
        attempts := attempts - {worker};
        Record(PersistTask(worker, upload.objectId, upload.extension));
      }
    }

    method FailFor(worker: int, error: string)
      requires Valid() && worker in attempts
      modifies this`attempts, this`worlds, this`actions, table
      ensures Valid() && table.objects == old(table.objects)
      ensures attempts == old(attempts) - {worker} && actions == old(actions) + [FailTask(worker, error)]
      ensures old(attempts)[worker].task !in Running(table.tasks)
    {
      table.MarkTaskFailed(attempts[worker].task, error, c.maxAttempts, now);
      attempts := attempts - {worker};
      Record(FailTask(worker, error));
    }

    /** One step of anybody but worker `me`: time passes, a task is queued, another worker does something,
        an admin intervenes; or nothing happens. */
    method OtherStep(me: int)
      requires Valid()
      modifies this, table
      ensures Valid() && OnlyOthers(old(actions), actions, me) && now >= old(now)
      ensures ObjectsKept(old(table.objects), table.objects)
      ensures me in attempts <==> me in old(attempts)
      ensures me in attempts ==> attempts[me] == old(attempts)[me]
    {
      var a: Action := *;
      match a {
        case Tick(to) =>
          if to >= now {
            now := to;
            Record(a);
          }
        case EnqueueTask(id) =>
          var enqueued := table.EnqueueTask(id, now);
          if enqueued {
            Record(a);
          }
        case ExpireTasks(cutoff) =>
          if cutoff <= now - c.staleTimeout {
            ExpireAt(cutoff);
          }
        case ClaimTask(worker, name, _, cutoff) =>
          if worker != me && worker !in attempts && cutoff <= now - c.staleTimeout {
            var locked: set<int> := *;
            var _ := ClaimFor(worker, name, cutoff, locked);
          }
        case PersistTask(worker, objectId, extension) =>
          if worker != me && worker in attempts {
            var _ := PersistFor(worker, Uploaded(objectId, extension));
          }
        case FailTask(worker, error) =>
          if worker != me && worker in attempts {
            FailFor(worker, error);
          }
        case Abandon(worker) =>
          if worker != me && worker in attempts {
            attempts := attempts - {worker};
            Record(a);
          }
        case AdminTransition(id, transition) =>
          var ok := table.TransitionLockedTask(id, transition, now);
          if ok {
            Record(a);
          }
      }
    }

    /** Any number of such steps. */
    method Others(me: int)
      requires Valid()
      modifies this, table
      ensures Valid() && OnlyOthers(old(actions), actions, me) && now >= old(now)
      ensures ObjectsKept(old(table.objects), table.objects)
      ensures me in attempts <==> me in old(attempts)
      ensures me in attempts ==> attempts[me] == old(attempts)[me]
    {
      var n: int := *;
      for i := 0 to if n < 0 then 0 else n
        invariant Valid() && OnlyOthers(old(actions), actions, me) && now >= old(now)
        invariant ObjectsKept(old(table.objects), table.objects)
        invariant me in attempts <==> me in old(attempts)
        invariant me in attempts ==> attempts[me] == old(attempts)[me]
      {
        OtherStep(me);
      }
    }

    /** Transfers the claimed task and completes it. A transfer that fails completes nothing. One that
        succeeds and reaches the database completes the task with that object, unless another object has
        taken its id or its key; then, too, nothing of it is written. */
    method ProcessTask(me: int, upload: Option<Uploaded>, persists: bool) returns (ok: bool)
      requires Valid() && me in attempts
      modifies this, table
      ensures Valid() && old(actions) <= actions && now >= old(now)
      ensures ok <==> me !in attempts
      ensures !ok ==> attempts[me] == old(attempts)[me] && OnlyOthers(old(actions), actions, me)
      ensures upload.None? || !persists ==> !ok
      ensures ok ==>
                var task := old(attempts)[me].task;
                && |actions| > |old(actions)| && OnlyOthers(old(actions), actions[..|actions| - 1], me)
                && actions[|actions| - 1] == PersistTask(me, upload.value.objectId, upload.value.extension)
                && task in table.tasks && table.tasks[task].status == Completed
                && table.tasks[task].storageObject == Some(upload.value.objectId)
                && upload.value.objectId in table.objects
                && table.objects[upload.value.objectId] == ObjectKey(task, upload.value.extension)
      ensures upload.Some? && persists && !ok ==>
                || upload.value.objectId in table.objects
                || ObjectKey(old(attempts)[me].task, upload.value.extension) in table.objects.Values
    {
      Others(me);
      if upload.None? || !persists {
        return false;
      }
      ok := PersistFor(me, upload.value);
      if ok {
        assert actions[..|actions| - 1] + [actions[|actions| - 1]] == actions;
      }
    }

    /** The end of an attempt without success: the failure mark, or nothing if the database is out of reach. */
    method EndFailed(me: int, error: string, marks: bool)
      requires Valid() && me in attempts
      modifies this, table
      ensures Valid() && me !in attempts && ObjectsKept(old(table.objects), table.objects)
      ensures |actions| > |old(actions)| && OnlyOthers(old(actions), actions[..|actions| - 1], me)
      ensures actions[|actions| - 1] == if marks then FailTask(me, error) else Abandon(me)
      ensures marks ==> old(attempts)[me].task !in Running(table.tasks)
    {
      Others(me);
      if marks {
        FailFor(me, error);
      } else {
        attempts := attempts - {me};
        Record(Abandon(me));
      }
    }

    /** Claims a task and works on it to the end. */
    method ClaimAndProcess(me: int, name: string, staleCutoff: int, weather: Weather)
      returns (claimed: Option<int>, done: bool)
      requires Valid() && me !in attempts && staleCutoff <= now - c.staleTimeout
      modifies this, table
      ensures Valid() && me !in attempts
      ensures Outcome(old(View()), old(actions), View(), actions, c, me, name, staleCutoff, weather, claimed, done)
    {
      claimed, done := None, false;
      if weather.claims {
        claimed := ClaimFor(me, name, staleCutoff, weather.locked);
        if claimed.Some? {
          ghost var started := actions;
          done := WorkOn(me, weather);
          assert started == actions[..|started|];
        }
      }
    }

    /** Works on the task in hand to the end. */
    method WorkOn(me: int, weather: Weather) returns (done: bool)
      requires Valid() && me in attempts
      modifies this, table
      ensures Valid() && me !in attempts && old(actions) <= actions && |actions| > |old(actions)|
      ensures OnlyOthers(old(actions), actions[..|actions| - 1], me)
      ensures done ==>
                var task := old(attempts)[me].task;
                && weather.upload.Some? && weather.persists
                && actions[|actions| - 1]
                   == PersistTask(me, weather.upload.value.objectId, weather.upload.value.extension)
                && task in table.tasks && table.tasks[task].status == Completed
                && table.tasks[task].storageObject == Some(weather.upload.value.objectId)
      ensures !done ==>
                var task := old(attempts)[me].task;
                && actions[|actions| - 1] == (if weather.marks then FailTask(me, weather.error) else Abandon(me))
                && (weather.marks ==> task !in Running(table.tasks))
                && (weather.upload.Some? && weather.persists ==>
                      || weather.upload.value.objectId in table.objects
                      || ObjectKey(task, weather.upload.value.extension) in table.objects.Values)
    {
      ghost var started := actions;
      done := ProcessTask(me, weather.upload, weather.persists);
      if !done {
        ghost var before, worked := table.objects, actions;
        EndFailed(me, weather.error, weather.marks);
        assert forall o :: o in before ==> o in table.objects && before[o] in table.objects.Values;
        OthersThroughout(started, worked, actions[..|actions| - 1], me);
      }
    }

    /** The first half of a round, with the others before and after: the cutoff, and the expiry. */
    method BeginRound(me: int, expires: bool) returns (staleCutoff: int)
      requires Valid() && me !in attempts
      modifies this, table
      ensures Valid() && OnlyOthers(old(actions), actions, me) && me !in attempts
      ensures staleCutoff == old(now) - c.staleTimeout <= now - c.staleTimeout
      ensures expires ==> ExpireTasks(staleCutoff) in actions[|old(actions)|..]
    {
      staleCutoff := now - c.staleTimeout;
      Others(me);
      if expires {
        ExpireAt(staleCutoff);
      }
      ghost var n := |actions|;
      Others(me);
      assert expires ==> actions[|old(actions)|..][n - 1 - |old(actions)|] == ExpireTasks(staleCutoff);
    }

    /** One round of the worker loop: expire, claim, process, and mark a failure. */
    method Round(me: int, name: string, weather: Weather) returns (ghost played: Played)
      requires Valid() && me !in attempts
      modifies this, table
      ensures Valid() && old(actions) <= actions && me !in attempts
      ensures RoundAt(worlds, actions, c, me, name, weather, played)
      ensures played.began == |old(actions)| && played.end == |actions|
    {
      ghost var worldsBefore, actionsBefore := worlds, actions;
      var staleCutoff := BeginRound(me, weather.expires);
      ghost var worldsDue, actionsDue := worlds, actions;
      var claimed, done := ClaimAndProcess(me, name, staleCutoff, weather);
      played := Played(|actionsBefore|, |actionsDue|, |actions|, claimed, done);
      RunsAgree(worldsBefore, actionsBefore, worlds, actions, c, |actionsBefore|);
      RunsAgree(worldsDue, actionsDue, worlds, actions, c, |actionsDue|);
      assert actions[..|actions|] == actions && actions[..|actionsDue|] == actionsDue;
      assert actions[..|actionsBefore|] == actionsBefore;
      assert actions[|actionsBefore|..|actionsDue|] == actionsDue[|actionsBefore|..];
    }

    /** Round after round. */
    method PlayRounds(me: int, name: string, rounds: seq<Weather>) returns (ghost played: seq<Played>)
      requires Valid() && me !in attempts
      modifies this, table
      ensures Valid() && old(actions) <= actions && me !in attempts
      ensures |played| == |rounds| && RoundsAt(worlds, actions, c, me, name, rounds, played, |old(actions)|)
    {
      ghost var start := |actions|;
      played := [];
      for round := 0 to |rounds|
        invariant Valid() && old(actions) <= actions && me !in attempts
        invariant |played| == round && RoundsAt(worlds, actions, c, me, name, rounds, played, start)
        invariant |actions| == if played == [] then start else played[|played| - 1].end
      {
        ghost var v, a := worlds, actions;
        ghost var p := Round(me, name, rounds[round]);
        RoundsStay(v, a, worlds, actions, c, me, name, rounds, played, start);
        RoundsSnoc(worlds, actions, c, me, name, rounds, played, start, p);
        played := played + [p];
      }
    }

    /** The worker loop, for as many rounds as the process lives. Whatever the others do in between, and
        whichever statement cannot reach the database: the rounds follow one another, all that happens is a
        run of the transition system, and each leaves the worker with no task in hand. So within the lease
        nobody ever shares a task and no completed task ever changes. */
    method RunWorkerLoop(me: int, name: string, rounds: seq<Weather>) returns (ghost played: seq<Played>)
      requires Valid() && me !in attempts
      modifies this, table
      ensures Valid() && old(actions) <= actions && me !in attempts
      ensures |played| == |rounds| && RoundsAt(worlds, actions, c, me, name, rounds, played, |old(actions)|)
      ensures WithinLease(worlds, actions, c) ==> Exclusive(View()) && Owned(View())
      ensures WithinLease(worlds, actions, c) ==> forall i :: 0 <= i < |worlds| ==> CompletedKept(worlds[i], View())
    {
      played := PlayRounds(me, name, rounds);
      if WithinLease(worlds, actions, c) {
        LeaseSafety(worlds, actions, c, |actions|, |actions|);
        forall i | 0 <= i < |worlds|
          ensures CompletedKept(worlds[i], View())
        {
          LeaseSafety(worlds, actions, c, i, |actions|);
        }
      }
    }
  }
}
