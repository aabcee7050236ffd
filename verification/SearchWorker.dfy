/** The search worker as a program over the queue and the two indexes, with everybody else at work between
    any two of its steps (server/src/search/worker.rs, lines 53 to 212). Each step is recorded, so that the
    program is seen to be a run of the transition system `SearchFreshness`. */
module SearchWorker {
  import opened Prelude
  import opened SearchQueue
  import opened SearchIndex
  import opened SearchFreshness

  lemma {:induction false} RunSnoc(worlds: seq<World>, actions: seq<(Action, int)>, start: World, maxAttempts: int,
                                   a: Action, now: int, w: World)
    requires IsRun(worlds, actions, start, maxAttempts) && Enabled(worlds[|actions|], a, maxAttempts)
    requires w == Step(worlds[|actions|], a, maxAttempts, now)
    ensures IsRun(worlds + [w], actions + [(a, now)], start, maxAttempts)
  {
    var more, steps, n := worlds + [w], actions + [(a, now)], |actions|;
    forall i | 0 <= i < |steps|
      ensures Enabled(more[i], steps[i].0, maxAttempts)
      ensures more[i + 1] == Step(more[i], steps[i].0, maxAttempts, steps[i].1)
    {
      if i < n {
        assert more[i] == worlds[i] && more[i + 1] == worlds[i + 1] && steps[i] == actions[i];
      } else {
        assert more[i] == worlds[n] && more[i + 1] == w && steps[i] == (a, now);
      }
    }
  }

  lemma {:induction false} GroupSnoc(claims: seq<Claim>, from: seq<Claim>, c: Claim, mode: Mode)
    ensures Group(claims, from + [c], mode)
            == Group(claims, from, mode) + if InGroup(c, claims, mode) then [c.target.id] else []
  {
    if from == [] {
      assert from + [c] == [c] && [c][1..] == [];
    } else {
      assert (from + [c])[0] == from[0] && (from + [c])[1..] == from[1..] + [c];
      GroupSnoc(claims, from[1..], c, mode);
      var first := if InGroup(from[0], claims, mode) then [from[0].target.id] else [];
      var last := if InGroup(c, claims, mode) then [c.target.id] else [];
      assert first + (Group(claims, from[1..], mode) + last) == first + Group(claims, from[1..], mode) + last;
    }
  }

  lemma {:induction false} SingleGroup(claims: seq<Claim>, i: nat, k: nat)
    requires Distinct(claims) && i < |claims| && k <= |claims|
    ensures Group(claims, claims[k..], Single(i)) == if k <= i then [claims[i].target.id] else []
    decreases |claims| - k
  {
    if k < |claims| {
      assert claims[k..][1..] == claims[k + 1..];
      SingleGroup(claims, i, k + 1);
    }
  }

  lemma {:induction false} SingleIsAlone(claims: seq<Claim>, i: nat)
    requires Distinct(claims) && i < |claims|
    ensures Group(claims, claims, Single(i)) == [claims[i].target.id] && claims[i] in ToMark(claims, Single(i))
  {
    SingleGroup(claims, i, 0);
    assert claims[0..] == claims;
  }

  lemma {:induction false} WriteIsStep(w: World, claims: seq<Claim>, mode: Mode, records: map<int, Record>,
                                       result: WriteResult, maxAttempts: int, now: int)
    requires w.phases == map[0 := Writing(claims, mode, records)]
    ensures Enabled(w, Write(0, result), maxAttempts)
    ensures var kind := GroupKind(claims, mode);
            var index := AfterWrite(IndexOf(w, kind), Group(claims, claims, mode), records, result);
            var next := if result == Written then AfterIndexing(claims, mode) else AfterFailure(claims, mode);
            Step(w, Write(0, result), maxAttempts, now) == WithIndex(w, kind, index).(phases := map[0 := next])
  {
  }

  /** The chosen targets in some order. */
  method ListTargets(chosen: set<Target>) returns (list: seq<Target>)
    ensures TargetSet(list) == chosen && |list| == |chosen|
    ensures forall i, j :: 0 <= i < j < |list| ==> list[i] != list[j]
  {
    var rest := chosen;
    list := [];
    while |rest| > 0
      invariant TargetSet(list) + rest == chosen && TargetSet(list) !! rest && |list| + |rest| == |chosen|
      invariant forall i, j :: 0 <= i < j < |list| ==> list[i] != list[j]
      decreases |rest|
    {
      var t :| t in rest;
      assert t !in TargetSet(list);
      assert TargetSet(list + [t]) == TargetSet(list) + {t};
      list, rest := list + [t], rest - {t};
    }
  }

  /** The ids of the claimed users and of the claimed tweets, in the order of the claims. */
  method SplitByKind(claims: seq<Claim>) returns (userIds: seq<int>, tweetIds: seq<int>)
    ensures userIds == Group(claims, claims, BatchUsers) && tweetIds == Group(claims, claims, BatchTweets)
  {
    userIds, tweetIds := [], [];
    for i := 0 to |claims|
      invariant userIds == Group(claims, claims[..i], BatchUsers)
      invariant tweetIds == Group(claims, claims[..i], BatchTweets)
    {
      assert claims[..i + 1] == claims[..i] + [claims[i]];
      GroupSnoc(claims, claims[..i], claims[i], BatchUsers);
      GroupSnoc(claims, claims[..i], claims[i], BatchTweets);
      match claims[i].target.kind {
        case User => userIds := userIds + [claims[i].target.id];
        case Tweet => tweetIds := tweetIds + [claims[i].target.id];
      }
    }
    assert claims[..|claims|] == claims;
  }

  /** What the worker meets in one round: whether each of its statements reaches the database, whether the
      write of a group is sure to succeed, which rows somebody else has locked, and whether anybody else
      changes records or queues targets during the round. */
  datatype Weather = Weather(
    expires: bool, claims: bool, fetches: Mode -> bool, writes: Mode -> bool, marks: Mode -> bool,
    errors: Mode -> string, locked: set<Target>, alone: bool)

  /** All goes well with the group. */
  ghost predicate GoesWell(weather: Weather, mode: Mode) {
    weather.fetches(mode) && weather.writes(mode)
  }

  /** The whole batch goes well. */
  ghost predicate BatchGoesWell(weather: Weather) {
    GoesWell(weather, BatchUsers) && GoesWell(weather, BatchTweets)
  }

  /** Every mark of the round reaches the database. */
  ghost predicate AllMarks(weather: Weather) {
    forall mode :: weather.marks(mode)
  }

  ghost predicate AllHeld(rows: Rows, claims: seq<Claim>) {
    forall c :: c in claims ==> Fenced(rows, c)
  }

  ghost predicate AllFree(claims: seq<Claim>, free: set<Target>) {
    forall c :: c in claims ==> c.target in free
  }

  /** None of the claims holds its row. */
  ghost predicate AllLost(rows: Rows, claims: seq<Claim>) {
    forall c :: c in claims ==> !Fenced(rows, c)
  }

  /** The last step for a claim on its own: it is completed if its group went well, marked failed if its
      records could not be read, and either if the write was not sure; and left if the mark is lost. */
  ghost predicate SingleEnd(a: Action, i: nat, weather: Weather) {
    var mode := Single(i);
    if !weather.marks(mode) then a == MarkLost(0)
    else
      && (a == Mark(0) || a == MarkFailure(0, weather.errors(mode)))
      && (GoesWell(weather, mode) ==> a == Mark(0))
      && (!weather.fetches(mode) ==> a == MarkFailure(0, weather.errors(mode)))
  }

  /** Where each claim came to its own end, after the first `first` actions. */
  ghost predicate EndsAt(ends: seq<nat>, first: nat, actions: seq<(Action, int)>, weather: Weather) {
    forall i :: 0 <= i < |ends| ==> first <= ends[i] < |actions| && SingleEnd(actions[ends[i]].0, i, weather)
  }

  lemma {:induction false} EndsSnoc(ends: seq<nat>, first: nat, before: seq<(Action, int)>,
                                    actions: seq<(Action, int)>, weather: Weather)
    requires EndsAt(ends, first, before, weather) && before <= actions && first <= |before| < |actions|
    requires SingleEnd(actions[|actions| - 1].0, |ends|, weather)
    ensures EndsAt(ends + [|actions| - 1], first, actions, weather)
  {
  }

  /** The actions go on from `before`, and the new ones change records or queue targets. */
  ghost predicate OnlyOthers(before: seq<(Action, int)>, actions: seq<(Action, int)>) {
    && before <= actions
    && forall i :: |before| <= i < |actions| ==> actions[i].0.Change? || actions[i].0.Requeue?
  }

  /** No claim matches that did not match before. */
  ghost predicate OnlyLoses(before: Rows, rows: Rows) {
    forall c: Claim :: Fenced(rows, c) ==> Fenced(before, c)
  }

  ghost predicate AllCompleted(rows: Rows, claims: seq<Claim>) {
    forall c :: c in claims ==> c.target in rows && rows[c.target].status == Completed
  }

  /** How one round went: it began, its claim was due and it ended after so many actions, `expired` is the
      place of its expiry, `claims` what it claimed at that cutoff. */
  datatype Played = Played(began: nat, expired: nat, due: nat, end: nat, cutoff: int, claims: seq<Claim>)

  /** What a round did, by what it met. It expires and claims whenever that reaches the database, and claims
      as much as is free and fits into the batch. If every mark reaches the database, none of its claims is
      left holding a row. If all goes well one mark completes the batch, and alone it completes all of it. */
  ghost predicate RoundAt(worlds: seq<World>, actions: seq<(Action, int)>, maxAttempts: int, name: string,
                          batchSize: nat, weather: Weather, p: Played) {
    && |worlds| == |actions| + 1 && p.began <= p.due <= p.end <= |actions|
    && (forall i :: p.began <= i < p.due ==>
          actions[i].0.Change? || actions[i].0.Requeue? || (weather.expires && i == p.expired))
    && (weather.expires ==> p.began <= p.expired < p.due && actions[p.expired].0 == ExpireTasks(p.cutoff))
    && BatchAt(worlds[p.due].rows, actions[p.due..p.end], worlds[p.end].rows, maxAttempts, name, batchSize, weather,
               p.cutoff, p.claims)
  }

  ghost predicate BatchAt(before: Rows, actions: seq<(Action, int)>, rows: Rows, maxAttempts: int, name: string,
                          batchSize: nat, weather: Weather, cutoff: int, claims: seq<Claim>) {
    var free := Candidates(before, cutoff, maxAttempts) - weather.locked;
    && |claims| == (if weather.claims then Min(batchSize, |free|) else 0)
    && AllFree(claims, free)
    && Distinct(claims)
    && (claims == [] ==> actions == [])
    && (claims != [] ==>
          && |actions| > 1 && actions[0].0 == StartBatch(0, Targets(claims), name, cutoff)
          && (AllMarks(weather) ==> AllLost(rows, claims))
          && (BatchGoesWell(weather) ==>
                && actions[|actions| - 1].0 == (if weather.marks(BatchTweets) then Mark(0) else MarkLost(0))
                && (weather.marks(BatchTweets) && weather.alone ==> AllCompleted(rows, claims))))
  }

  lemma {:induction false} RunsAgree(v: seq<World>, a: seq<(Action, int)>, w: seq<World>, b: seq<(Action, int)>,
                                     start: World, maxAttempts: int, i: nat)
    requires IsRun(v, a, start, maxAttempts) && IsRun(w, b, start, maxAttempts) && a <= b && i <= |a|
    ensures v[i] == w[i]
  {
    if i > 0 {
      RunsAgree(v, a, w, b, start, maxAttempts, i - 1);
      assert a[i - 1] == b[i - 1];
    }
  }

  lemma {:induction false} RoundStays(v: seq<World>, a: seq<(Action, int)>, w: seq<World>, b: seq<(Action, int)>,
                                      start: World, maxAttempts: int, name: string, batchSize: nat, weather: Weather,
                                      p: Played)
    requires IsRun(v, a, start, maxAttempts) && IsRun(w, b, start, maxAttempts) && a <= b
    requires RoundAt(v, a, maxAttempts, name, batchSize, weather, p)
    ensures RoundAt(w, b, maxAttempts, name, batchSize, weather, p)
  {
    RunsAgree(v, a, w, b, start, maxAttempts, p.due);
    RunsAgree(v, a, w, b, start, maxAttempts, p.end);
    assert a[p.due..p.end] == b[p.due..p.end];
  }

  /** The rounds follow one another, the first one after `first` actions, and each went by its weather. */
  ghost predicate RoundsAt(worlds: seq<World>, actions: seq<(Action, int)>, maxAttempts: int, name: string,
                           batchSize: nat, rounds: seq<Weather>, played: seq<Played>, first: nat) {
    && |played| <= |rounds|
    && (forall i :: 0 <= i < |played| ==>
          RoundAt(worlds, actions, maxAttempts, name, batchSize, rounds[i], played[i]))
    && (played != [] ==> played[0].began == first)
    && (forall i, j :: 0 <= i < j < |played| && j == i + 1 ==> played[i].end == played[j].began)
  }

  lemma {:induction false} RoundsStay(v: seq<World>, a: seq<(Action, int)>, w: seq<World>, b: seq<(Action, int)>,
                                      start: World, maxAttempts: int, name: string, batchSize: nat,
                                      rounds: seq<Weather>, played: seq<Played>, first: nat)
    requires IsRun(v, a, start, maxAttempts) && IsRun(w, b, start, maxAttempts) && a <= b
    requires RoundsAt(v, a, maxAttempts, name, batchSize, rounds, played, first)
    ensures RoundsAt(w, b, maxAttempts, name, batchSize, rounds, played, first)
  {
    forall i | 0 <= i < |played|
      ensures RoundAt(w, b, maxAttempts, name, batchSize, rounds[i], played[i])
    {
      RoundStays(v, a, w, b, start, maxAttempts, name, batchSize, rounds[i], played[i]);
    }
  }

  lemma {:induction false} RoundsSnoc(w: seq<World>, b: seq<(Action, int)>, maxAttempts: int, name: string,
                                      batchSize: nat, rounds: seq<Weather>, played: seq<Played>, first: nat, p: Played)
    requires RoundsAt(w, b, maxAttempts, name, batchSize, rounds, played, first) && |played| < |rounds|
    requires RoundAt(w, b, maxAttempts, name, batchSize, rounds[|played|], p)
    requires p.began == if played == [] then first else played[|played| - 1].end
    ensures RoundsAt(w, b, maxAttempts, name, batchSize, rounds, played + [p], first)
  {
    var more, n := played + [p], |played|;
    assert more[n] == p && forall i :: 0 <= i < n ==> more[i] == played[i];
    forall i | 0 <= i < |more|
      ensures RoundAt(w, b, maxAttempts, name, batchSize, rounds[i], more[i])
    {
      assert i == n || RoundAt(w, b, maxAttempts, name, batchSize, rounds[i], played[i]);
    }
  }

  lemma {:induction false} AllEndsLost(rows: Rows, claims: seq<Claim>, weather: Weather)
    requires AllMarks(weather)
    requires forall i :: 0 <= i < |claims| && weather.marks(Single(i)) ==> !Fenced(rows, claims[i])
    ensures AllLost(rows, claims)
  {
    forall i | 0 <= i < |claims|
      ensures !Fenced(rows, claims[i])
    {
      assert weather.marks(Single(i));
    }
  }

  lemma {:induction false} ClaimedAreHeld(rows: Rows, list: seq<Target>, name: string, now: int, free: set<Target>)
    requires TargetSet(list) <= free && free <= rows.Keys
    requires forall i, j :: 0 <= i < j < |list| ==> list[i] != list[j]
    ensures Distinct(ClaimSeq(list, name, now)) && Targets(ClaimSeq(list, name, now)) == list
    ensures AllFree(ClaimSeq(list, name, now), free)
    ensures AllHeld(ClaimRows(rows, TargetSet(list), name, now), ClaimSeq(list, name, now))
  {
    forall c | c in ClaimSeq(list, name, now)
      ensures c.target in TargetSet(list)
    {
    }
  }

  /** A batch that was claimed, worked on, and has ended. */
  lemma {:induction false} BatchEnds(before: Rows, actions: seq<(Action, int)>, rows: Rows, maxAttempts: int,
                                     name: string, batchSize: nat, weather: Weather, cutoff: int, claims: seq<Claim>,
                                     first: nat)
    requires weather.claims && Distinct(claims) && claims != [] && first + 1 < |actions|
    requires |claims| == Min(batchSize, |Candidates(before, cutoff, maxAttempts) - weather.locked|)
    requires AllFree(claims, Candidates(before, cutoff, maxAttempts) - weather.locked)
    requires actions[first].0 == StartBatch(0, Targets(claims), name, cutoff)
    requires BatchGoesWell(weather) ==>
               actions[|actions| - 1].0 == if weather.marks(BatchTweets) then Mark(0) else MarkLost(0)
    requires AllMarks(weather) ==> AllLost(rows, claims)
    requires BatchGoesWell(weather) && weather.marks(BatchTweets) && weather.alone ==> AllCompleted(rows, claims)
    ensures BatchAt(before, actions[first..], rows, maxAttempts, name, batchSize, weather, cutoff, claims)
  {
  }

  lemma {:induction false} NoBatch(before: Rows, actions: seq<(Action, int)>, rows: Rows, maxAttempts: int,
                                   name: string, batchSize: nat, weather: Weather, cutoff: int, first: nat)
    requires first == |actions|
    requires weather.claims ==> Min(batchSize, |Candidates(before, cutoff, maxAttempts) - weather.locked|) == 0
    ensures BatchAt(before, actions[first..], rows, maxAttempts, name, batchSize, weather, cutoff, [])
  {
  }

  function Targets(claims: seq<Claim>): seq<Target> {
    seq(|claims|, i requires 0 <= i < |claims| => claims[i].target)
  }

  class SearchSystem {
    const queue: IndexQueue
    const users: IndexWriter
    const tweets: IndexWriter
    const maxAttempts: int
    const staleTimeout: int
    var db: map<Target, Record>
    var now: int
    ghost var phase: Phase
    ghost var worlds: seq<World>
    ghost var actions: seq<(Action, int)>

    ghost function View(): World
      reads this, queue, users, tweets
    {
      World(queue.rows, db, users.View(), tweets.View(), map[0 := phase])
    }

    /** What has happened so far is a run of the transition system that leads to the current state. */
    ghost predicate Valid()
      reads this, queue, users, tweets
    {
      users != tweets && IsRun(worlds, actions, StartWith(1), maxAttempts) && worlds[|actions|] == View()
    }

    constructor (maxAttempts: int, staleTimeout: int)
      ensures Valid() && phase == Idle && actions == []
      ensures this.maxAttempts == maxAttempts && this.staleTimeout == staleTimeout
      ensures fresh(queue) && fresh(users) && fresh(tweets)
    {
      this.maxAttempts, this.staleTimeout := maxAttempts, staleTimeout;
      queue := new IndexQueue();
      users := new IndexWriter();
      tweets := new IndexWriter();
      db, now, phase := map[], 0, Idle;
      worlds, actions := [StartWith(1)], [];
      new;
      assert StartWith(1).phases == map[0 := Idle];
    }

    /** Notes the step that has led to the current state, with the worker now in phase `next`. */
    ghost method Note(a: Action, next: Phase)
      requires users != tweets && IsRun(worlds, actions, StartWith(1), maxAttempts)
      requires Enabled(worlds[|actions|], a, maxAttempts)
      requires View().(phases := map[0 := next]) == Step(worlds[|actions|], a, maxAttempts, now)
      modifies this`phase, this`worlds, this`actions
      ensures Valid() && actions == old(actions) + [(a, now)] && phase == next
    {
      phase := next;
      RunSnoc(worlds, actions, StartWith(1), maxAttempts, a, now, View());
      worlds, actions := worlds + [View()], actions + [(a, now)];
    }

    /** One step of anybody else: records change, targets are queued, or time passes. */
    method OtherStep()
      requires Valid()
      modifies this`db, this`now, this`phase, this`worlds, this`actions, queue
      ensures Valid() && OnlyOthers(old(actions), actions) && phase == old(phase) && now >= old(now)
      ensures OnlyLoses(old(queue.rows), queue.rows)
    {
      var later: int := *;
      if later >= now {
        now := later;
      }
      var a: Action := *;
      match a {
        case Change(updates, newId) =>
          db := db + updates;
          var _ := queue.EnqueueTargets(updates.Keys, now, newId);
          Note(a, phase);
        case Requeue(targets, newId) =>
          var _ := queue.EnqueueTargets(targets, now, newId);
          Note(a, phase);
        case _ =>
      }
    }

    /** Any number of such steps, none if the worker is alone. */
    method Others(alone: bool)
      requires Valid()
      modifies this`db, this`now, this`phase, this`worlds, this`actions, queue
      ensures Valid() && OnlyOthers(old(actions), actions) && phase == old(phase) && now >= old(now)
      ensures OnlyLoses(old(queue.rows), queue.rows)
      ensures alone ==> actions == old(actions) && queue.rows == old(queue.rows)
    {
      var n: int := *;
      for i := 0 to if n < 0 || alone then 0 else n
        invariant Valid() && OnlyOthers(old(actions), actions) && phase == old(phase) && now >= old(now)
        invariant OnlyLoses(old(queue.rows), queue.rows)
        invariant alone ==> actions == old(actions) && queue.rows == old(queue.rows)
      {
        OtherStep();
      }
    }

    /** Indexes one group: reads its records, then replaces its documents under the writer lock. It does so
        whenever all goes well, and never without having read the records. */
    method IndexIds(claims: seq<Claim>, mode: Mode, ids: seq<int>, weather: Weather) returns (ok: bool)
      requires Valid() && phase == Fetching(claims, mode) && ids == Group(claims, claims, mode)
      modifies this, queue, users, tweets
      ensures Valid() && old(actions) <= actions
      ensures phase == if ok then AfterIndexing(claims, mode) else AfterFailure(claims, mode)
      ensures ids == [] || GoesWell(weather, mode) ==> ok
      ensures ids != [] && !weather.fetches(mode) ==> !ok
      ensures OnlyLoses(old(queue.rows), queue.rows)
      ensures weather.alone ==> queue.rows == old(queue.rows)
    {
      if ids == [] {
        Note(SkipEmptyGroup(0), AfterIndexing(claims, mode));
        return true;
      }
      Others(weather.alone);
      var records := FetchGroup(claims, mode, ids, weather.fetches(mode));
      if records.None? {
        return false;
      }
      Others(weather.alone);
      ok := WriteGroup(claims, mode, ids, records.value, weather.writes(mode));
    }

    /** Reads the records of the group; without the database the group has failed. */
    method FetchGroup(claims: seq<Claim>, mode: Mode, ids: seq<int>, reachable: bool)
      returns (records: Option<map<int, Record>>)
      requires Valid() && phase == Fetching(claims, mode) && ids == Group(claims, claims, mode) && ids != []
      modifies this`phase, this`worlds, this`actions
      ensures Valid() && old(actions) <= actions
      ensures records.Some? <==> reachable
      ensures phase == if records.Some? then Writing(claims, mode, records.value) else AfterFailure(claims, mode)
    {
      if reachable {
        records := Some(Select(db, GroupKind(claims, mode), ids));
        Note(Fetch(0), Writing(claims, mode, records.value));
      } else {
        records := None;
        Note(FetchFails(0), AfterFailure(claims, mode));
      }
    }

    method WriteGroup(claims: seq<Claim>, mode: Mode, ids: seq<int>, records: map<int, Record>, reliable: bool)
      returns (ok: bool)
      requires Valid() && phase == Writing(claims, mode, records) && ids == Group(claims, claims, mode) && ids != []
      modifies this`phase, this`worlds, this`actions, users, tweets
      ensures Valid() && old(actions) <= actions
      ensures phase == if ok then AfterIndexing(claims, mode) else AfterFailure(claims, mode)
      ensures reliable ==> ok
    {
      ghost var before := View();
      ghost var result;
      ok, result := WriteDocuments(GroupKind(claims, mode), ids, records, reliable);
      WriteIsStep(before, claims, mode, records, result, maxAttempts, now);
      Note(Write(0, result), if ok then AfterIndexing(claims, mode) else AfterFailure(claims, mode));
    }

    method WriteDocuments(kind: Kind, ids: seq<int>, records: map<int, Record>, reliable: bool)
      returns (ok: bool, ghost result: WriteResult)
      requires users != tweets && ids != []
      modifies users, tweets
      ensures ok <==> result == Written
      ensures reliable ==> ok
      ensures View() == WithIndex(old(View()), kind, AfterWrite(IndexOf(old(View()), kind), ids, records, result))
    {
      if kind == User {
        ok, result := users.IndexGroup(ids, records, reliable);
      } else {
        ok, result := tweets.IndexGroup(ids, records, reliable);
      }
    }

    /** Indexes the users of the batch, then its tweets. */
    method IndexTasks(claims: seq<Claim>, weather: Weather) returns (ok: bool)
      requires Valid() && phase == Fetching(claims, BatchUsers)
      modifies this, queue, users, tweets
      ensures Valid() && old(actions) <= actions
      ensures ok ==> phase == Marking(claims, BatchTweets)
      ensures !ok ==> phase == AfterFailure(claims, BatchUsers)
      ensures BatchGoesWell(weather) ==> ok
      ensures Group(claims, claims, BatchUsers) != [] && !weather.fetches(BatchUsers) ==> !ok
      ensures Group(claims, claims, BatchTweets) != [] && !weather.fetches(BatchTweets) ==> !ok
      ensures OnlyLoses(old(queue.rows), queue.rows)
      ensures weather.alone ==> queue.rows == old(queue.rows)
    {
      var userIds, tweetIds := SplitByKind(claims);
      ok := IndexIds(claims, BatchUsers, userIds, weather);
      if ok {
        ok := IndexIds(claims, BatchTweets, tweetIds, weather);
      }
    }

    /** Completes what was indexed: afterwards none of these claims matches, and a target whose claim still
        matched is completed. When the database is out of reach the rows stay in processing. */
    method MarkDone(claims: seq<Claim>, mode: Mode, weather: Weather)
      requires Valid() && phase == Marking(claims, mode)
      modifies this, queue
      ensures Valid() && |actions| > |old(actions)| && old(actions) <= actions
      ensures phase == AfterMarking(claims, mode)
      ensures actions[|actions| - 1].0 == if weather.marks(mode) then Mark(0) else MarkLost(0)
      ensures OnlyLoses(old(queue.rows), queue.rows)
      ensures weather.marks(mode) ==> forall c :: c in ToMark(claims, mode) ==> !Fenced(queue.rows, c)
      ensures weather.marks(mode) && weather.alone ==>
                forall c :: c in ToMark(claims, mode) && Fenced(old(queue.rows), c) ==>
                  c.target in queue.rows && queue.rows[c.target].status == Completed
    {
      Others(weather.alone);
      if weather.marks(mode) {
        MarkRows(ToMark(claims, mode));
        Note(Mark(0), AfterMarking(claims, mode));
      } else {
        Note(MarkLost(0), AfterMarking(claims, mode));
      }
    }

    method MarkRows(claims: set<Claim>)
      modifies queue
      ensures queue.rows == MarkCompleted(old(queue.rows), claims, now)
      ensures OnlyLoses(old(queue.rows), queue.rows)
      ensures forall c :: c in claims ==> !Fenced(queue.rows, c)
      ensures forall c :: c in claims && Fenced(old(queue.rows), c) ==>
                c.target in queue.rows && queue.rows[c.target].status == Completed
    {
      ghost var before := queue.rows;
      var _ := queue.MarkTasksCompleted(claims, now);
      forall c | c in claims && Fenced(before, c)
        ensures c.target in Matched(before, claims)
      {
      }
    }

    method FailRow(c: Claim, error: string)
      modifies queue
      ensures queue.rows == MarkFailed(old(queue.rows), c, error, maxAttempts, now)
      ensures OnlyLoses(old(queue.rows), queue.rows) && !Fenced(queue.rows, c)
    {
      var _ := queue.MarkTaskFailed(c, error, maxAttempts, now);
    }

    /** Marks one claim failed: afterwards it does not match. */
    method MarkOneFailed(claims: seq<Claim>, i: nat, weather: Weather)
      requires Valid() && phase == Failing(claims, i) && i < |claims|
      modifies this, queue
      ensures Valid() && |actions| > |old(actions)| && old(actions) <= actions
      ensures phase == NextSingle(claims, i)
      ensures actions[|actions| - 1].0
              == if weather.marks(Single(i)) then MarkFailure(0, weather.errors(Single(i))) else MarkLost(0)
      ensures OnlyLoses(old(queue.rows), queue.rows)
      ensures weather.marks(Single(i)) ==> !Fenced(queue.rows, claims[i])
    {
      Others(weather.alone);
      if weather.marks(Single(i)) {
        var error := weather.errors(Single(i));
        FailRow(claims[i], error);
        Note(MarkFailure(0, error), NextSingle(claims, i));
      } else {
        Note(MarkLost(0), NextSingle(claims, i));
      }
    }

    method ProcessSingleTask(claims: seq<Claim>, i: nat, weather: Weather)
      requires Valid() && i < |claims| && Distinct(claims) && phase == Fetching(claims, Single(i))
      modifies this, queue, users, tweets
      ensures Valid() && |actions| > |old(actions)| && old(actions) <= actions
      ensures phase == NextSingle(claims, i)
      ensures SingleEnd(actions[|actions| - 1].0, i, weather)
      ensures OnlyLoses(old(queue.rows), queue.rows)
      ensures weather.marks(Single(i)) ==> !Fenced(queue.rows, claims[i])
    {
      SingleIsAlone(claims, i);
      var ok := IndexIds(claims, Single(i), [claims[i].target.id], weather);
      if ok {
        MarkDone(claims, Single(i), weather);
      } else {
        MarkOneFailed(claims, i, weather);
      }
    }

    /** One claim after the other, each to its own end, however the others ended: `ends` says where. */
    method ProcessTasksIndividually(claims: seq<Claim>, weather: Weather) returns (ghost ends: seq<nat>)
      requires Valid() && claims != [] && Distinct(claims) && phase == Fetching(claims, Single(0))
      modifies this, queue, users, tweets
      ensures Valid() && old(actions) <= actions && phase == Idle
      ensures |ends| == |claims| && EndsAt(ends, |old(actions)|, actions, weather)
      ensures OnlyLoses(old(queue.rows), queue.rows)
      ensures forall i :: 0 <= i < |claims| && weather.marks(Single(i)) ==> !Fenced(queue.rows, claims[i])
    {
      ends := [];
      for i := 0 to |claims|
        invariant Valid() && old(actions) <= actions
        invariant phase == if i < |claims| then Fetching(claims, Single(i)) else Idle
        invariant |ends| == i && EndsAt(ends, |old(actions)|, actions, weather)
        invariant OnlyLoses(old(queue.rows), queue.rows)
        invariant forall j :: 0 <= j < i && weather.marks(Single(j)) ==> !Fenced(queue.rows, claims[j])
      {
        ghost var before := actions;
        ProcessSingleTask(claims, i, weather);
        EndsSnoc(ends, |old(actions)|, before, actions, weather);
        ends := ends + [|actions| - 1];
      }
    }

    /** Indexes and completes the claimed batch; one claim at a time if the batch fails. If every mark reaches
        the database, none of the claims is left holding its row. If all goes well the batch is completed
        with one mark, and if nobody else changes anything, all of its targets are. */
    method ProcessTaskBatch(claims: seq<Claim>, weather: Weather)
      requires Valid() && claims != [] && Distinct(claims) && phase == Fetching(claims, BatchUsers)
      modifies this, queue, users, tweets
      ensures Valid() && |actions| > |old(actions)| && old(actions) <= actions && phase == Idle
      ensures BatchGoesWell(weather) ==>
                actions[|actions| - 1].0 == if weather.marks(BatchTweets) then Mark(0) else MarkLost(0)
      ensures AllMarks(weather) ==> AllLost(queue.rows, claims)
      ensures BatchGoesWell(weather) && weather.marks(BatchTweets) && weather.alone
              && AllHeld(old(queue.rows), claims) ==>
                AllCompleted(queue.rows, claims)
    {
      var ok := IndexTasks(claims, weather);
      if ok {
        MarkDone(claims, BatchTweets, weather);
        assert forall c :: c in claims ==> c in ToMark(claims, BatchTweets);
      } else {
        ghost var ends := ProcessTasksIndividually(claims, weather);
        assert ends[0] < |actions|;
        if AllMarks(weather) {
          AllEndsLost(queue.rows, claims, weather);
        }
      }
    }

    method ExpireAt(cutoff: int)
      requires Valid()
      modifies this`phase, this`worlds, this`actions, queue
      ensures Valid() && phase == old(phase) && actions == old(actions) + [(ExpireTasks(cutoff), now)]
    {
      var _ := queue.ExpireStaleTasks(cutoff, maxAttempts, now);
      Note(ExpireTasks(cutoff), phase);
    }

    /** The claiming statement, leaving out the rows somebody else has locked: as many of the others as the
        batch takes, if there are so many. */
    method TakeBatch(name: string, cutoff: int, batchSize: nat, locked: set<Target>) returns (list: seq<Target>)
      modifies queue
      ensures TargetSet(list) <= Candidates(old(queue.rows), cutoff, maxAttempts) - locked
      ensures |list| == Min(batchSize, |Candidates(old(queue.rows), cutoff, maxAttempts) - locked|)
      ensures forall i, j :: 0 <= i < j < |list| ==> list[i] != list[j]
      ensures queue.rows == ClaimRows(old(queue.rows), TargetSet(list), name, now)
      ensures list == [] ==> queue.rows == old(queue.rows)
    {
      ghost var free := Candidates(queue.rows, cutoff, maxAttempts) - locked;
      var chosen := queue.ClaimNextTasks(cutoff, maxAttempts, name, now, batchSize, locked);
      list := ListTargets(chosen);
      assert TargetSet(list) <= free;
    }

    /** Claims the next batch, if there is one. */
    method ClaimBatch(name: string, cutoff: int, batchSize: nat, locked: set<Target>) returns (claims: seq<Claim>)
      requires Valid() && phase == Idle
      modifies this`phase, this`worlds, this`actions, queue
      ensures Valid() && Distinct(claims)
      ensures if claims == [] then phase == Idle && queue.rows == old(queue.rows)
              else phase == Fetching(claims, BatchUsers)
      ensures |claims| == Min(batchSize, |Candidates(old(queue.rows), cutoff, maxAttempts) - locked|)
      ensures AllFree(claims, Candidates(old(queue.rows), cutoff, maxAttempts) - locked)
      ensures AllHeld(queue.rows, claims) && forall c :: c in claims ==> c.worker == name && c.at == now
      ensures actions
              == old(actions) + if claims == [] then [] else [(StartBatch(0, Targets(claims), name, cutoff), now)]
    {
      ghost var before := queue.rows;
      var list := TakeBatch(name, cutoff, batchSize, locked);
      claims := ClaimSeq(list, name, now);
      ClaimedAreHeld(before, list, name, now, Candidates(before, cutoff, maxAttempts) - locked);
      if list != [] {
        Note(StartBatch(0, list, name, cutoff), Fetching(claims, BatchUsers));
      }
    }

    /** Claims a batch and processes it. */
    method ClaimAndProcess(name: string, cutoff: int, batchSize: nat, weather: Weather) returns (claims: seq<Claim>)
      requires Valid() && phase == Idle
      modifies this, queue, users, tweets
      ensures Valid() && old(actions) <= actions && phase == Idle
      ensures BatchAt(old(queue.rows), actions[|old(actions)|..], queue.rows, maxAttempts, name, batchSize, weather,
                      cutoff, claims)
    {
      ghost var rows, first := queue.rows, |actions|;
      claims := [];
      if weather.claims {
        claims := ClaimBatch(name, cutoff, batchSize, weather.locked);
        if claims != [] {
          ghost var started := actions;
          ProcessTaskBatch(claims, weather);
          assert actions[first] == started[first];
          BatchEnds(rows, actions, queue.rows, maxAttempts, name, batchSize, weather, cutoff, claims, first);
        }
      }
      if claims == [] {
        NoBatch(rows, actions, queue.rows, maxAttempts, name, batchSize, weather, cutoff, first);
      }
    }

    /** The first half of a round: the cutoff, and the expiry. */
    method BeginRound(weather: Weather) returns (cutoff: int, ghost expired: nat)
      requires Valid() && phase == Idle
      modifies this, queue
      ensures Valid() && old(actions) <= actions && phase == Idle && now >= old(now)
      ensures cutoff == old(now) - staleTimeout
      ensures forall i :: |old(actions)| <= i < |actions| ==>
                actions[i].0.Change? || actions[i].0.Requeue? || (weather.expires && i == expired)
      ensures weather.expires ==>
                |old(actions)| <= expired < |actions| && actions[expired].0 == ExpireTasks(cutoff)
    {
      cutoff := now - staleTimeout;
      Others(weather.alone);
      expired := |actions|;
      if weather.expires {
        ExpireAt(cutoff);
      }
      Others(weather.alone);
    }

    /** One round of the worker loop: expire, claim a batch, process it. */
    method Round(name: string, batchSize: nat, weather: Weather) returns (ghost played: Played)
      requires Valid() && phase == Idle
      modifies this, queue, users, tweets
      ensures Valid() && old(actions) <= actions && phase == Idle
      ensures RoundAt(worlds, actions, maxAttempts, name, batchSize, weather, played)
      ensures played.began == |old(actions)| && played.end == |actions| && played.cutoff == old(now) - staleTimeout
    {
      ghost var began := |actions|;
      var cutoff, expired := BeginRound(weather);
      ghost var worldsDue, actionsDue := worlds, actions;
      var claims := ClaimAndProcess(name, cutoff, batchSize, weather);
      played := Played(began, expired, |actionsDue|, |actions|, cutoff, claims);
      RunsAgree(worldsDue, actionsDue, worlds, actions, StartWith(1), maxAttempts, |actionsDue|);
      assert actions[|actionsDue|..|actions|] == actions[|actionsDue|..];
    }

    /** Round after round. */
    method PlayRounds(name: string, batchSize: nat, rounds: seq<Weather>) returns (ghost played: seq<Played>)
      requires Valid() && phase == Idle
      modifies this, queue, users, tweets
      ensures Valid() && old(actions) <= actions && phase == Idle
      ensures |played| == |rounds|
      ensures RoundsAt(worlds, actions, maxAttempts, name, batchSize, rounds, played, |old(actions)|)
    {
      ghost var first := |actions|;
      played := [];
      for round := 0 to |rounds|
        invariant Valid() && old(actions) <= actions && phase == Idle
        invariant |played| == round
        invariant RoundsAt(worlds, actions, maxAttempts, name, batchSize, rounds, played, first)
        invariant |actions| == if played == [] then first else played[|played| - 1].end
      {
        ghost var v, a := worlds, actions;
        ghost var p := Round(name, batchSize, rounds[round]);
        RoundsStay(v, a, worlds, actions, StartWith(1), maxAttempts, name, batchSize, rounds, played, first);
        RoundsSnoc(worlds, actions, maxAttempts, name, batchSize, rounds, played, first, p);
        played := played + [p];
      }
    }

    /** The worker loop, for as many rounds as the process lives. Whatever changes in between, whichever
        statement cannot reach the database and whichever write fails: the rounds follow one another, and all
        that happens is a run of the transition system. So at no moment is a completed target anything but
        fresh. */
    method RunWorkerLoop(name: string, batchSize: nat, rounds: seq<Weather>) returns (ghost played: seq<Played>)
      requires Valid() && phase == Idle
      modifies this, queue, users, tweets
      ensures Valid() && old(actions) <= actions && phase == Idle
      ensures |played| == |rounds|
      ensures RoundsAt(worlds, actions, maxAttempts, name, batchSize, rounds, played, |old(actions)|)
      ensures forall i, t :: 0 <= i < |worlds| ==> PromiseAt(worlds[i], t)
      ensures forall t :: PromiseAt(View(), t)
    {
      played := PlayRounds(name, batchSize, rounds);
      forall i, t | 0 <= i < |worlds|
        ensures PromiseAt(worlds[i], t)
      {
        CompletedMeansFresh(worlds, actions, maxAttempts, i, t);
      }
      forall t
        ensures PromiseAt(View(), t)
      {
        assert PromiseAt(worlds[|actions|], t);
      }
    }
  }
}
