/** The search worker against a changing database: what a completed queue row promises about the
    index (server/src/search/worker.rs, lines 53 to 212; server/src/search/mod.rs, lines 237 to 322). */
module SearchFreshness {
  import opened Prelude
  import opened SearchQueue
  import opened SearchIndex

  /** Which claims of a batch are indexed together: first the users, then the tweets of the whole batch;
      after a failure one claim at a time. */
  datatype Mode = BatchUsers | BatchTweets | Single(i: nat)

  /** Where a worker is. `Fetching` is about to read the database for the group of `mode`, `Writing`
      holds what it read, `Marking` is about to mark, `Failing` is about to mark claim `i` as failed. */
  datatype Phase =
    | Idle
    | Fetching(claims: seq<Claim>, mode: Mode)
    | Writing(claims: seq<Claim>, mode: Mode, records: map<int, Record>)
    | Marking(claims: seq<Claim>, mode: Mode)
    | Failing(claims: seq<Claim>, i: nat)

  datatype World = World(
    rows: Rows,
    db: map<Target, Record>,
    users: Index,
    tweets: Index,
    phases: map<int, Phase>)

  datatype Action =
    | Change(updates: map<Target, Record>, newId: Target -> int)
    | Requeue(targets: set<Target>, newId: Target -> int)
    | ExpireTasks(cutoff: int)
    | StartBatch(k: int, chosen: seq<Target>, worker: string, cutoff: int)
    | Fetch(k: int)
    | FetchFails(k: int)
    | Write(k: int, result: WriteResult)
    | SkipEmptyGroup(k: int)
    | Mark(k: int)
    | MarkLost(k: int)
    | MarkFailure(k: int, error: string)
    | Restart

  // ---------- the worker's control flow ----------

  function InGroup(c: Claim, claims: seq<Claim>, mode: Mode): bool {
    match mode
    case BatchUsers => c.target.kind == User
    case BatchTweets => c.target.kind == Tweet
    case Single(i) => i < |claims| && c == claims[i]
  }

  function Group(claims: seq<Claim>, from: seq<Claim>, mode: Mode): seq<int> {
    if from == [] then []
    else (if InGroup(from[0], claims, mode) then [from[0].target.id] else []) + Group(claims, from[1..], mode)
  }

  function GroupKind(claims: seq<Claim>, mode: Mode): Kind {
    match mode
    case BatchUsers => User
    case BatchTweets => Tweet
    case Single(i) => if i < |claims| then claims[i].target.kind else User
  }

  /** The group was indexed: a batch goes on to the tweets and then marks everything. */
  function AfterIndexing(claims: seq<Claim>, mode: Mode): Phase {
    match mode
    case BatchUsers => Fetching(claims, BatchTweets)
    case BatchTweets => Marking(claims, BatchTweets)
    case Single(i) => Marking(claims, mode)
  }

  /** Indexing the group failed: a batch falls back to single claims, a single claim is marked failed. */
  function AfterFailure(claims: seq<Claim>, mode: Mode): Phase {
    match mode
    case Single(i) => Failing(claims, i)
    case _ => if claims == [] then Idle else Fetching(claims, Single(0))
  }

  function NextSingle(claims: seq<Claim>, i: nat): Phase {
    if i + 1 < |claims| then Fetching(claims, Single(i + 1)) else Idle
  }

  function AfterMarking(claims: seq<Claim>, mode: Mode): Phase {
    match mode
    case Single(i) => NextSingle(claims, i)
    case _ => Idle
  }

  function IndexOf(w: World, kind: Kind): Index {
    if kind == User then w.users else w.tweets
  }

  function WithIndex(w: World, kind: Kind, index: Index): World {
    if kind == User then w.(users := index) else w.(tweets := index)
  }

  function Lookup(db: map<Target, Record>, t: Target): Option<Record> {
    if t in db then Some(db[t]) else None
  }

  function LookupId(records: map<int, Record>, id: int): Option<Record> {
    if id in records then Some(records[id]) else None
  }

  /** What one `SELECT ... WHERE id = ANY(ids)` returns. */
  function Select(db: map<Target, Record>, kind: Kind, ids: seq<int>): map<int, Record> {
    map id | id in ids && Target(kind, id) in db :: db[Target(kind, id)]
  }

  function ClaimSeq(chosen: seq<Target>, worker: string, now: int): (r: seq<Claim>)
    ensures |r| == |chosen|
    ensures forall i :: 0 <= i < |r| ==> r[i] == Claim(chosen[i], worker, now)
  {
    seq(|chosen|, i requires 0 <= i < |chosen| => Claim(chosen[i], worker, now))
  }

  function TargetSet(chosen: seq<Target>): set<Target> {
    set t | t in chosen
  }

  function ToMark(claims: seq<Claim>, mode: Mode): set<Claim> {
    set c | c in claims && (mode.Single? ==> InGroup(c, claims, mode))
  }

  ghost predicate Distinct(claims: seq<Claim>) {
    forall i, j :: 0 <= i < j < |claims| ==> claims[i].target != claims[j].target
  }

  // ---------- steps ----------

  ghost predicate Enabled(w: World, a: Action, maxAttempts: int) {
    match a
    case Change(_, _) => true
    case Requeue(_, _) => true
    case ExpireTasks(_) => true
    case StartBatch(k, chosen, worker, cutoff) =>
      && k in w.phases && w.phases[k].Idle? && chosen != []
      && (forall t :: t in chosen ==> t in Candidates(w.rows, cutoff, maxAttempts))
      && (forall i, j :: 0 <= i < j < |chosen| ==> chosen[i] != chosen[j])
    case Fetch(k) =>
      && k in w.phases && w.phases[k].Fetching?
      && Group(w.phases[k].claims, w.phases[k].claims, w.phases[k].mode) != []
    case FetchFails(k) =>
      && k in w.phases && w.phases[k].Fetching?
      && Group(w.phases[k].claims, w.phases[k].claims, w.phases[k].mode) != []
    case Write(k, _) => k in w.phases && w.phases[k].Writing?
    case SkipEmptyGroup(k) =>
      && k in w.phases && w.phases[k].Fetching?
      && Group(w.phases[k].claims, w.phases[k].claims, w.phases[k].mode) == []
    case Mark(k) => k in w.phases && w.phases[k].Marking?
    case MarkLost(k) => k in w.phases && (w.phases[k].Marking? || w.phases[k].Failing?)
    case MarkFailure(k, _) => k in w.phases && w.phases[k].Failing? && w.phases[k].i < |w.phases[k].claims|
    case Restart => true
  }

  /** A change of records refreshes their queue rows in the same transaction. A restart loses what was
      not committed and what the workers knew. A lost mark changes nothing. */
  ghost function Step(w: World, a: Action, maxAttempts: int, now: int): World
    requires Enabled(w, a, maxAttempts)
  {
    match a
    case Change(updates, newId) =>
      w.(db := w.db + updates, rows := Enqueue(w.rows, updates.Keys, now, newId))
    case Requeue(targets, newId) => w.(rows := Enqueue(w.rows, targets, now, newId))
    case ExpireTasks(cutoff) => w.(rows := ExpireStale(w.rows, cutoff, maxAttempts, now))
    case StartBatch(k, chosen, worker, cutoff) =>
      w.(rows := ClaimRows(w.rows, TargetSet(chosen), worker, now),
         phases := w.phases[k := Fetching(ClaimSeq(chosen, worker, now), BatchUsers)])
    case Fetch(k) =>
      var p := w.phases[k];
      var records := Select(w.db, GroupKind(p.claims, p.mode), Group(p.claims, p.claims, p.mode));
      w.(phases := w.phases[k := Writing(p.claims, p.mode, records)])
    case FetchFails(k) =>
      w.(phases := w.phases[k := AfterFailure(w.phases[k].claims, w.phases[k].mode)])
    case Write(k, result) =>
      var p := w.phases[k];
      var kind := GroupKind(p.claims, p.mode);
      var index := AfterWrite(IndexOf(w, kind), Group(p.claims, p.claims, p.mode), p.records, result);
      var next := if result == Written then AfterIndexing(p.claims, p.mode) else AfterFailure(p.claims, p.mode);
      WithIndex(w, kind, index).(phases := w.phases[k := next])
    case SkipEmptyGroup(k) =>
      w.(phases := w.phases[k := AfterIndexing(w.phases[k].claims, w.phases[k].mode)])
    case Mark(k) =>
      var p := w.phases[k];
      w.(rows := MarkCompleted(w.rows, ToMark(p.claims, p.mode), now),
         phases := w.phases[k := AfterMarking(p.claims, p.mode)])
    case MarkLost(k) =>
      var p := w.phases[k];
      w.(phases := w.phases[k := if p.Failing? then NextSingle(p.claims, p.i) else AfterMarking(p.claims, p.mode)])
    case MarkFailure(k, error) =>
      var p := w.phases[k];
      w.(rows := MarkFailed(w.rows, p.claims[p.i], error, maxAttempts, now),
         phases := w.phases[k := NextSingle(p.claims, p.i)])
    case Restart =>
      w.(users := w.users.(buffer := []), tweets := w.tweets.(buffer := []),
         phases := map k | k in w.phases :: Idle)
  }

  // ---------- the invariant ----------

  ghost function Expected(w: World, t: Target): seq<Doc> {
    if t in w.db then [Doc(t.id, w.db[t])] else []
  }

  /** The committed index shows the current record of `t`, and nothing buffered will change that. */
  ghost predicate Settled(w: World, t: Target) {
    var index := IndexOf(w, t.kind);
    DocsOf(index.committed, t.id) == Expected(w, t) && !Touches(index.buffer, t.id)
  }

  /** The promise of a completed row. */
  ghost predicate RowOk(w: World, t: Target) {
    t in w.rows && w.rows[t].status == Completed ==> Settled(w, t)
  }

  ghost function Claims(p: Phase): seq<Claim> {
    if p.Idle? then [] else p.claims
  }

  /** Claim number j still waits for its mark. */
  ghost predicate Unmarked(p: Phase, j: nat) {
    match p
    case Idle => false
    case Failing(_, i) => j >= i
    case _ => p.mode.Single? ==> j >= p.mode.i
  }

  /** The group of claim number j was written to the index and is about to be marked. */
  ghost predicate Indexed(p: Phase, c: Claim) {
    match p
    case Fetching(_, mode) => mode == BatchTweets && c.target.kind == User
    case Writing(_, mode, _) => mode == BatchTweets && c.target.kind == User
    case Marking(claims, mode) => mode.Single? ==> InGroup(c, claims, mode)
    case _ => false
  }

  /** A claim that still has its row is as fresh as the worker's progress says: what was fetched is what
      the database holds now, what was indexed is settled. */
  ghost predicate ClaimOk(w: World, p: Phase, j: nat) {
    j < |Claims(p)| ==>
      var c := Claims(p)[j];
      && c.target in w.rows
      && (Unmarked(p, j) ==> w.rows[c.target].status != Completed)
      && (Indexed(p, c) && Fenced(w.rows, c) ==> Settled(w, c.target))
      && (p.Writing? && InGroup(c, p.claims, p.mode) && Fenced(w.rows, c) ==>
            LookupId(p.records, c.target.id) == Lookup(w.db, c.target))
  }

  ghost predicate PhaseOk(w: World, p: Phase) {
    && Distinct(Claims(p))
    && (forall j: nat :: ClaimOk(w, p, j))
    && (p.Failing? ==> p.i < |p.claims|)
    && (!p.Idle? && !p.Failing? && p.mode.Single? ==> p.mode.i < |p.claims|)
    && (p.Marking? ==> p.mode != BatchUsers)
  }

  ghost predicate IndexesOk(w: World) {
    && Unique(w.users.committed) && Paired(w.users.buffer)
    && Unique(w.tweets.committed) && Paired(w.tweets.buffer)
  }

  /** One worker, number 0. */
  ghost predicate Inv(w: World) {
    && w.phases.Keys == {0}
    && (forall t :: RowOk(w, t))
    && PhaseOk(w, w.phases[0])
    && IndexesOk(w)
  }

  lemma {:induction false} GroupHas(claims: seq<Claim>, from: seq<Claim>, mode: Mode, j: int)
    requires 0 <= j < |from| && InGroup(from[j], claims, mode)
    ensures from[j].target.id in Group(claims, from, mode)
  {
    if j > 0 {
      GroupHas(claims, from[1..], mode, j - 1);
    }
  }

  lemma {:induction false} GroupOnly(claims: seq<Claim>, from: seq<Claim>, mode: Mode, id: int) returns (j: int)
    requires id in Group(claims, from, mode)
    ensures 0 <= j < |from| && InGroup(from[j], claims, mode) && from[j].target.id == id
  {
    if InGroup(from[0], claims, mode) && from[0].target.id == id {
      j := 0;
    } else {
      j := GroupOnly(claims, from[1..], mode, id);
      j := j + 1;
    }
  }

  // ---------- one action keeps the invariant ----------

  /** Whatever only takes rows out of processing, and reopens every row whose record changed. */
  ghost predicate OnlyReopens(w: World, w': World) {
    && w'.users == w.users && w'.tweets == w.tweets && w'.phases == w.phases
    && (forall t :: t in w.rows ==> t in w'.rows)
    && (forall t :: t in w'.rows ==>
          || (w'.rows[t].status != Completed && w'.rows[t].status != Processing)
          || (t in w.rows && w'.rows[t] == w.rows[t] && Lookup(w'.db, t) == Lookup(w.db, t)))
  }

  lemma {:induction false} ReopeningKeepsInv(w: World, w': World)
    requires Inv(w) && OnlyReopens(w, w')
    ensures Inv(w')
  {
    var p := w.phases[0];
    forall t
      ensures RowOk(w', t)
    {
      assert RowOk(w, t);
    }
    forall j: nat
      ensures ClaimOk(w', p, j)
    {
      assert ClaimOk(w, p, j);
    }
  }

  lemma {:induction false} StartKeepsInv(w: World, chosen: seq<Target>, worker: string, cutoff: int,
                                         maxAttempts: int, now: int)
    requires Inv(w) && Enabled(w, StartBatch(0, chosen, worker, cutoff), maxAttempts)
    ensures Inv(Step(w, StartBatch(0, chosen, worker, cutoff), maxAttempts, now))
  {
    var w' := Step(w, StartBatch(0, chosen, worker, cutoff), maxAttempts, now);
    var p := w'.phases[0];
    forall t
      ensures RowOk(w', t)
    {
      assert RowOk(w, t);
    }
    forall j: nat
      ensures ClaimOk(w', p, j)
    {
      if j < |chosen| {
        assert chosen[j] in chosen;
      }
    }
  }

  lemma {:induction false} PhaseStep(w: World, p': Phase)
    requires Inv(w) && (Claims(p') == Claims(w.phases[0]) || p' == Idle) && !p'.Writing?
    requires forall j: nat :: Unmarked(p', j) && j < |Claims(p')| ==> Unmarked(w.phases[0], j)
    requires forall c :: c in Claims(p') && Indexed(p', c) ==> Indexed(w.phases[0], c)
    requires p'.Failing? ==> p'.i < |p'.claims|
    requires !p'.Idle? && !p'.Failing? && p'.mode.Single? ==> p'.mode.i < |p'.claims|
    requires p'.Marking? ==> p'.mode != BatchUsers
    ensures Inv(w.(phases := w.phases[0 := p']))
  {
    var w' := w.(phases := w.phases[0 := p']);
    forall t
      ensures RowOk(w', t)
    {
      assert RowOk(w, t);
    }
    forall j: nat
      ensures ClaimOk(w', p', j)
    {
      assert ClaimOk(w, w.phases[0], j);
    }
  }

  lemma {:induction false} FetchKeepsInv(w: World, maxAttempts: int, now: int)
    requires Inv(w) && Enabled(w, Fetch(0), maxAttempts)
    ensures Inv(Step(w, Fetch(0), maxAttempts, now))
  {
    var p := w.phases[0];
    var w' := Step(w, Fetch(0), maxAttempts, now);
    var p' := w'.phases[0];
    forall t
      ensures RowOk(w', t)
    {
      assert RowOk(w, t);
    }
    forall j: nat
      ensures ClaimOk(w', p', j)
    {
      assert ClaimOk(w, p, j);
      if j < |p.claims| && InGroup(p.claims[j], p.claims, p.mode) {
        GroupHas(p.claims, p.claims, p.mode, j);
      }
    }
  }

  /** Writing a group leaves every target outside the group as settled as it was. */
  lemma {:induction false} OthersStaySettled(w: World, kind: Kind, ids: seq<int>, records: map<int, Record>,
                                             result: WriteResult, t: Target)
    requires Settled(w, t) && !(t.kind == kind && t.id in ids)
    ensures Settled(WithIndex(w, kind, AfterWrite(IndexOf(w, kind), ids, records, result)), t)
  {
    if t.kind == kind {
      var index := IndexOf(w, kind);
      var ops := OpsForAll(ids, records);
      forall i | 0 <= i < |ops|
        ensures OpId(ops[i]) != t.id
      {
        OpsTouchOnly(ids, records, i);
      }
      var all := index.buffer + ops;
      assert !Touches(all, t.id);
      UntouchedStays(index.committed, all, t.id);
      assert !Touches([], t.id);
    }
  }

  /** Writing a group settles its targets whose fetched record is the current one. */
  lemma {:induction false} GroupSettles(w: World, kind: Kind, ids: seq<int>, records: map<int, Record>, t: Target)
    requires t.kind == kind && t.id in ids && LookupId(records, t.id) == Lookup(w.db, t)
    ensures Settled(WithIndex(w, kind, AfterWrite(IndexOf(w, kind), ids, records, Written)), t)
  {
    var index := IndexOf(w, kind);
    GroupIsWritten(index.committed, index.buffer, ids, records, t.id);
    assert !Touches([], t.id);
  }

  lemma {:induction false} WriteKeepsIndexes(index: Index, ids: seq<int>, records: map<int, Record>,
                                             result: WriteResult)
    requires Unique(index.committed) && Paired(index.buffer)
    ensures Unique(AfterWrite(index, ids, records, result).committed)
    ensures Paired(AfterWrite(index, ids, records, result).buffer)
  {
    OpsForAllPaired(ids, records);
    PairedAppend(index.buffer, OpsForAll(ids, records));
    PairedKeepsUnique(index.committed, index.buffer + OpsForAll(ids, records));
  }

  lemma {:induction false} GroupUnmarked(w: World, p: Phase, kind: Kind, id: int)
    requires p.Writing? && PhaseOk(w, p)
    requires id in Group(p.claims, p.claims, p.mode) && kind == GroupKind(p.claims, p.mode)
    ensures Target(kind, id) in w.rows && w.rows[Target(kind, id)].status != Completed
  {
    var j := GroupOnly(p.claims, p.claims, p.mode, id);
    if p.mode.Single? {
      assert ClaimOk(w, p, p.mode.i);
    } else {
      assert ClaimOk(w, p, j);
    }
  }

  lemma {:induction false} WriteKeepsRows(w: World, result: WriteResult, maxAttempts: int, now: int)
    requires Inv(w) && Enabled(w, Write(0, result), maxAttempts)
    ensures forall t :: RowOk(Step(w, Write(0, result), maxAttempts, now), t)
  {
    var p := w.phases[0];
    var w' := Step(w, Write(0, result), maxAttempts, now);
    var kind, ids := GroupKind(p.claims, p.mode), Group(p.claims, p.claims, p.mode);
    forall t
      ensures RowOk(w', t)
    {
      assert RowOk(w, t);
      if t in w.rows && w.rows[t].status == Completed {
        if t.kind == kind && t.id in ids {
          GroupUnmarked(w, p, kind, t.id);
        }
        OthersStaySettled(w, kind, ids, p.records, result, t);
      }
    }
  }

  /** What is indexed after a group was written: that group, and what was indexed before it. */
  lemma {:induction false} WriteKeepsClaim(w: World, result: WriteResult, maxAttempts: int, now: int, j: nat)
    requires Inv(w) && Enabled(w, Write(0, result), maxAttempts)
    ensures var w' := Step(w, Write(0, result), maxAttempts, now);
            ClaimOk(w', w'.phases[0], j)
  {
    var p := w.phases[0];
    var w' := Step(w, Write(0, result), maxAttempts, now);
    var p' := w'.phases[0];
    var kind, ids := GroupKind(p.claims, p.mode), Group(p.claims, p.claims, p.mode);
    assert ClaimOk(w, p, j);
    if j < |Claims(p')| && Indexed(p', p.claims[j]) && Fenced(w.rows, p.claims[j]) {
      var c := p.claims[j];
      if InGroup(c, p.claims, p.mode) {
        GroupHas(p.claims, p.claims, p.mode, j);
        GroupSettles(w, kind, ids, p.records, c.target);
      } else {
        OthersStaySettled(w, kind, ids, p.records, result, c.target);
      }
    }
  }

  lemma {:induction false} WriteKeepsInv(w: World, result: WriteResult, maxAttempts: int, now: int)
    requires Inv(w) && Enabled(w, Write(0, result), maxAttempts)
    ensures Inv(Step(w, Write(0, result), maxAttempts, now))
  {
    var p := w.phases[0];
    var w' := Step(w, Write(0, result), maxAttempts, now);
    var kind, ids := GroupKind(p.claims, p.mode), Group(p.claims, p.claims, p.mode);
    WriteKeepsRows(w, result, maxAttempts, now);
    WriteKeepsIndexes(IndexOf(w, kind), ids, p.records, result);
    forall j: nat
      ensures ClaimOk(w', w'.phases[0], j)
    {
      WriteKeepsClaim(w, result, maxAttempts, now, j);
    }
    NonEmptyBatch(w, p);
  }

  lemma {:induction false} NonEmptyBatch(w: World, p: Phase)
    requires PhaseOk(w, p)
    ensures p.Writing? || p.Fetching? ==>
              AfterFailure(p.claims, p.mode).Idle? || PhaseShape(AfterFailure(p.claims, p.mode))
  {
  }

  ghost predicate PhaseShape(p: Phase) {
    && (p.Failing? ==> p.i < |p.claims|)
    && (!p.Idle? && !p.Failing? && p.mode.Single? ==> p.mode.i < |p.claims|)
    && (p.Marking? ==> p.mode != BatchUsers)
  }

  lemma {:induction false} MarkKeepsInv(w: World, maxAttempts: int, now: int)
    requires Inv(w) && Enabled(w, Mark(0), maxAttempts)
    ensures Inv(Step(w, Mark(0), maxAttempts, now))
  {
    var p := w.phases[0];
    var w' := Step(w, Mark(0), maxAttempts, now);
    var p' := w'.phases[0];
    forall t
      ensures RowOk(w', t)
    {
      assert RowOk(w, t);
      if t in Matched(w.rows, ToMark(p.claims, p.mode)) {
        var c :| c in ToMark(p.claims, p.mode) && Fenced(w.rows, c) && c.target == t;
        var j :| 0 <= j < |p.claims| && p.claims[j] == c;
        assert ClaimOk(w, p, j);
      }
    }
    forall j: nat
      ensures ClaimOk(w', p', j)
    {
      assert ClaimOk(w, p, j);
    }
  }

  lemma {:induction false} MarkFailureKeepsInv(w: World, error: string, maxAttempts: int, now: int)
    requires Inv(w) && Enabled(w, MarkFailure(0, error), maxAttempts)
    ensures Inv(Step(w, MarkFailure(0, error), maxAttempts, now))
  {
    var p := w.phases[0];
    var w1 := w.(rows := MarkFailed(w.rows, p.claims[p.i], error, maxAttempts, now));
    ReopeningKeepsInv(w, w1);
    PhaseStep(w1, NextSingle(p.claims, p.i));
  }

  lemma {:induction false} RestartKeepsInv(w: World, maxAttempts: int, now: int)
    requires Inv(w)
    ensures Inv(Step(w, Restart, maxAttempts, now))
  {
    var w' := Step(w, Restart, maxAttempts, now);
    assert w'.phases.Keys == {0};
    forall t
      ensures RowOk(w', t)
    {
      assert RowOk(w, t);
      assert !Touches([], t.id);
    }
    forall j: nat
      ensures ClaimOk(w', w'.phases[0], j)
    {
    }
  }

  lemma {:induction false} StepKeepsInv(w: World, a: Action, maxAttempts: int, now: int)
    requires Inv(w) && Enabled(w, a, maxAttempts)
    ensures Inv(Step(w, a, maxAttempts, now))
  {
    match a {
      case Change(_, _) => ReopeningKeepsInv(w, Step(w, a, maxAttempts, now));
      case Requeue(_, _) => ReopeningKeepsInv(w, Step(w, a, maxAttempts, now));
      case ExpireTasks(_) => ReopeningKeepsInv(w, Step(w, a, maxAttempts, now));
      case StartBatch(k, chosen, worker, cutoff) => StartKeepsInv(w, chosen, worker, cutoff, maxAttempts, now);
      case Fetch(k) => FetchKeepsInv(w, maxAttempts, now);
      case FetchFails(k) => PhaseStep(w, AfterFailure(w.phases[0].claims, w.phases[0].mode));
      case Write(k, result) => WriteKeepsInv(w, result, maxAttempts, now);
      case SkipEmptyGroup(k) => SkipKeepsInv(w, maxAttempts, now);
      case Mark(k) => MarkKeepsInv(w, maxAttempts, now);
      case MarkLost(k) => MarkLostKeepsInv(w, maxAttempts, now);
      case MarkFailure(k, error) => MarkFailureKeepsInv(w, error, maxAttempts, now);
      case Restart => RestartKeepsInv(w, maxAttempts, now);
    }
  }

  lemma {:induction false} SkipKeepsInv(w: World, maxAttempts: int, now: int)
    requires Inv(w) && Enabled(w, SkipEmptyGroup(0), maxAttempts)
    ensures Inv(Step(w, SkipEmptyGroup(0), maxAttempts, now))
  {
    var p := w.phases[0];
    forall c | c in p.claims
      ensures !InGroup(c, p.claims, p.mode)
    {
      var j :| 0 <= j < |p.claims| && p.claims[j] == c;
      if InGroup(c, p.claims, p.mode) {
        GroupHas(p.claims, p.claims, p.mode, j);
      }
    }
    PhaseStep(w, AfterIndexing(p.claims, p.mode));
  }

  lemma {:induction false} MarkLostKeepsInv(w: World, maxAttempts: int, now: int)
    requires Inv(w) && Enabled(w, MarkLost(0), maxAttempts)
    ensures Inv(Step(w, MarkLost(0), maxAttempts, now))
  {
    var p := w.phases[0];
    PhaseStep(w, if p.Failing? then NextSingle(p.claims, p.i) else AfterMarking(p.claims, p.mode));
  }

  // ---------- all runs ----------

  const NEW_INDEX: Index := Index([], [])

  function WorkerIds(n: nat): (r: set<int>)
    ensures forall k :: k in r <==> 0 <= k < n
  {
    if n == 0 then {} else WorkerIds(n - 1) + {n - 1}
  }

  /** Nothing stored, nothing queued, `n` idle workers. */
  function StartWith(n: nat): World {
    World(map[], map[], NEW_INDEX, NEW_INDEX, map k | k in WorkerIds(n) :: Idle)
  }

  ghost predicate IsRun(worlds: seq<World>, actions: seq<(Action, int)>, start: World, maxAttempts: int) {
    && |worlds| == |actions| + 1
    && worlds[0] == start
    && forall i :: 0 <= i < |actions| ==>
         && Enabled(worlds[i], actions[i].0, maxAttempts)
         && worlds[i + 1] == Step(worlds[i], actions[i].0, maxAttempts, actions[i].1)
  }

  lemma {:induction false} RunKeepsInv(worlds: seq<World>, actions: seq<(Action, int)>, maxAttempts: int, i: nat)
    requires IsRun(worlds, actions, StartWith(1), maxAttempts) && i < |worlds|
    ensures Inv(worlds[i])
  {
    if i > 0 {
      RunKeepsInv(worlds, actions, maxAttempts, i - 1);
      StepKeepsInv(worlds[i - 1], actions[i - 1].0, maxAttempts, actions[i - 1].1);
    } else {
      assert StartWith(1).phases.Keys == {0};
      forall t ensures RowOk(StartWith(1), t) {}
      forall j: nat ensures ClaimOk(StartWith(1), Idle, j) {}
      forall id: int ensures |DocsOf([], id)| <= 1 {}
    }
  }

  /** With one worker, in every reachable state: a completed row means that the committed index shows
      exactly the current record of its target, or nothing if there is none, and that no buffered
      operation is about to change it; and no id ever has two documents. */
  lemma {:induction false} CompletedMeansFresh(worlds: seq<World>, actions: seq<(Action, int)>, maxAttempts: int,
                                               i: nat, t: Target)
    requires IsRun(worlds, actions, StartWith(1), maxAttempts) && i < |worlds|
    ensures t in worlds[i].rows && worlds[i].rows[t].status == Completed ==>
              && DocsOf(IndexOf(worlds[i], t.kind).committed, t.id) == Expected(worlds[i], t)
              && !Touches(IndexOf(worlds[i], t.kind).buffer, t.id)
    ensures |DocsOf(IndexOf(worlds[i], t.kind).committed, t.id)| <= 1
  {
    RunKeepsInv(worlds, actions, maxAttempts, i);
    assert RowOk(worlds[i], t);
  }

  // ---------- why one worker ----------

  const LATE: Target := Target(Tweet, 1)

  function LateClaim(worker: string, at: int): seq<Claim> {
    [Claim(LATE, worker, at)]
  }

  /** The record changes, then worker `k` claims its row and fetches it. */
  ghost function ClaimScript(k: int, worker: string, record: Record, now: int): seq<(Action, int)> {
    [(Change(map[LATE := record], (t: Target) => 1), now), (StartBatch(k, [LATE], worker, -9), now),
     (SkipEmptyGroup(k), now), (Fetch(k), now)]
  }

  ghost const WRITE_SCRIPT: seq<(Action, int)> := [(Write(1, Written), 3), (Mark(1), 3), (Write(0, Written), 4)]

  /** Worker 0 fetches version 10, the record changes to 20, worker 1 indexes 20 and completes the row,
      then worker 0, whose fetch came before the writer lock, writes 10. */
  ghost const INVERSION: seq<(Action, int)> := ClaimScript(0, "a", 10, 1) + ClaimScript(1, "b", 20, 2) + WRITE_SCRIPT

  lemma {:induction false} GroupsOfLate(worker: string, at: int)
    ensures Group(LateClaim(worker, at), LateClaim(worker, at), BatchUsers) == []
    ensures Group(LateClaim(worker, at), LateClaim(worker, at), BatchTweets) == [1]
  {
  }

  lemma {:induction false} WriteLate(index: Index, record: Record)
    requires index.buffer == [] && (index.committed == [] || (|index.committed| == 1 && index.committed[0].id == 1))
    ensures AfterWrite(index, [1], map[1 := record], Written) == Index([Doc(1, record)], [])
  {
    var ids, records := [1], map[1 := record];
    assert ids[..0] == [];
    var ops := OpsForAll(ids, records);
    assert ops == [DeleteTerm(1), AddDocument(Doc(1, record))];
    assert ops[..1] == [DeleteTerm(1)] && ops[..1][..0] == [];
    assert ApplyAll(index.committed, ops[..1][..0]) == index.committed;
    assert Without(index.committed, 1) == [] by {
      if index.committed != [] {
        assert index.committed[1..] == [];
      }
    }
    assert ApplyAll(index.committed, ops[..1]) == [];
    assert index.buffer + ops == ops;
  }

  lemma {:induction false} JoinRuns(xs: seq<World>, a: seq<(Action, int)>, ys: seq<World>, b: seq<(Action, int)>,
                                    start: World, maxAttempts: int)
    requires IsRun(xs, a, start, maxAttempts) && IsRun(ys, b, xs[|a|], maxAttempts)
    ensures IsRun(xs + ys[1..], a + b, start, maxAttempts)
  {
    var zs, c := xs + ys[1..], a + b;
    forall i | 0 <= i < |c|
      ensures Enabled(zs[i], c[i].0, maxAttempts) && zs[i + 1] == Step(zs[i], c[i].0, maxAttempts, c[i].1)
    {
      if i < |a| {
        assert zs[i] == xs[i] && zs[i + 1] == xs[i + 1] && c[i] == a[i];
      } else {
        var j := i - |a|;
        assert zs[i] == ys[j] && zs[i + 1] == ys[j + 1] && c[i] == b[j];
      }
    }
  }

  /** Worker `k` claims the pending row. */
  lemma {:induction false} ClaimLate(w: World, k: int, worker: string, now: int, maxAttempts: int) returns (w1: World)
    requires k in w.phases && w.phases[k] == Idle && LATE in w.rows && w.rows[LATE].status == Pending
    ensures Enabled(w, StartBatch(k, [LATE], worker, -9), maxAttempts)
    ensures w1 == Step(w, StartBatch(k, [LATE], worker, -9), maxAttempts, now)
    ensures w1 == w.(rows := w1.rows, phases := w.phases[k := Fetching(LateClaim(worker, now), BatchUsers)])
    ensures w1.rows.Keys == w.rows.Keys && Fenced(w1.rows, Claim(LATE, worker, now))
  {
    w1 := Step(w, StartBatch(k, [LATE], worker, -9), maxAttempts, now);
    assert ClaimSeq([LATE], worker, now) == LateClaim(worker, now);
    assert LATE in TargetSet([LATE]);
  }

  /** Worker `k` has no user to index. */
  lemma {:induction false} SkipUsers(w1: World, k: int, worker: string, now: int, maxAttempts: int)
    requires k in w1.phases && w1.phases[k] == Fetching(LateClaim(worker, now), BatchUsers)
    ensures Enabled(w1, SkipEmptyGroup(k), maxAttempts)
    ensures Step(w1, SkipEmptyGroup(k), maxAttempts, now)
            == w1.(phases := w1.phases[k := Fetching(LateClaim(worker, now), BatchTweets)])
  {
    GroupsOfLate(worker, now);
  }

  /** Worker `k` fetches the record. */
  lemma {:induction false} FetchLate(w2: World, k: int, worker: string, now: int, record: Record, maxAttempts: int)
    requires k in w2.phases && w2.phases[k] == Fetching(LateClaim(worker, now), BatchTweets)
    requires w2.db == map[LATE := record]
    ensures Enabled(w2, Fetch(k), maxAttempts)
    ensures Step(w2, Fetch(k), maxAttempts, now)
            == w2.(phases := w2.phases[k := Writing(LateClaim(worker, now), BatchTweets, map[1 := record])])
  {
    GroupsOfLate(worker, now);
    assert Select(w2.db, Tweet, [1]) == map[1 := record];
  }

  /** The record changes; its row becomes pending. */
  lemma {:induction false} ChangeLate(w0: World, record: Record, now: int, maxAttempts: int) returns (w1: World)
    requires w0.db.Keys <= {LATE}
    ensures Enabled(w0, Change(map[LATE := record], (t: Target) => 1), maxAttempts)
    ensures w1 == Step(w0, Change(map[LATE := record], (t: Target) => 1), maxAttempts, now)
    ensures w1 == w0.(rows := w1.rows, db := map[LATE := record])
    ensures LATE in w1.rows && w1.rows[LATE].status == Pending
  {
    w1 := Step(w0, Change(map[LATE := record], (t: Target) => 1), maxAttempts, now);
    assert w1.db == map[LATE := record];
  }

  lemma {:induction false} ChangeClaimFetch(w0: World, k: int, worker: string, record: Record, now: int,
                                            maxAttempts: int)
    returns (ws: seq<World>)
    requires k in w0.phases && w0.phases[k] == Idle && w0.db.Keys <= {LATE}
    ensures IsRun(ws, ClaimScript(k, worker, record, now), w0, maxAttempts)
    ensures ws[4] == w0.(rows := ws[4].rows, db := map[LATE := record],
                         phases := w0.phases[k := Writing(LateClaim(worker, now), BatchTweets, map[1 := record])])
    ensures Fenced(ws[4].rows, Claim(LATE, worker, now))
  {
    var w1 := ChangeLate(w0, record, now, maxAttempts);
    var w2 := ClaimLate(w1, k, worker, now, maxAttempts);
    SkipUsers(w2, k, worker, now, maxAttempts);
    var w3 := Step(w2, SkipEmptyGroup(k), maxAttempts, now);
    FetchLate(w3, k, worker, now, record, maxAttempts);
    var w4 := Step(w3, Fetch(k), maxAttempts, now);
    ws := [w0, w1, w2, w3, w4];
  }

  /** Worker `k` writes what it has fetched. */
  lemma {:induction false} WriteLateStep(w: World, k: int, worker: string, at: int, record: Record, now: int,
                                         maxAttempts: int)
    requires k in w.phases && w.phases[k] == Writing(LateClaim(worker, at), BatchTweets, map[1 := record])
    requires w.tweets.buffer == []
    requires w.tweets.committed == [] || (|w.tweets.committed| == 1 && w.tweets.committed[0].id == 1)
    ensures Enabled(w, Write(k, Written), maxAttempts)
    ensures Step(w, Write(k, Written), maxAttempts, now)
            == w.(tweets := Index([Doc(1, record)], []),
                  phases := w.phases[k := Marking(LateClaim(worker, at), BatchTweets)])
  {
    GroupsOfLate(worker, at);
    WriteLate(w.tweets, record);
  }

  /** Worker `k` completes the row. */
  lemma {:induction false} MarkLate(w: World, k: int, worker: string, at: int, now: int, maxAttempts: int)
    requires k in w.phases && w.phases[k] == Marking(LateClaim(worker, at), BatchTweets)
    requires Fenced(w.rows, Claim(LATE, worker, at))
    ensures Enabled(w, Mark(k), maxAttempts)
    ensures var w' := Step(w, Mark(k), maxAttempts, now);
            && w' == w.(rows := w'.rows, phases := w.phases[k := Idle])
            && LATE in w'.rows && w'.rows[LATE].status == Completed
  {
    assert Claim(LATE, worker, at) in ToMark(LateClaim(worker, at), BatchTweets);
    assert LATE in Matched(w.rows, ToMark(LateClaim(worker, at), BatchTweets));
  }

  /** Worker 1 writes and completes, then worker 0 writes what it fetched earlier. */
  lemma {:induction false} WriteMarkWrite(w8: World, maxAttempts: int) returns (ws: seq<World>)
    requires 0 in w8.phases && w8.phases[0] == Writing(LateClaim("a", 1), BatchTweets, map[1 := 10])
    requires 1 in w8.phases && w8.phases[1] == Writing(LateClaim("b", 2), BatchTweets, map[1 := 20])
    requires Fenced(w8.rows, Claim(LATE, "b", 2)) && w8.tweets == NEW_INDEX
    ensures IsRun(ws, WRITE_SCRIPT, w8, maxAttempts)
    ensures LATE in ws[3].rows && ws[3].rows[LATE].status == Completed
    ensures ws[3].db == w8.db && ws[3].tweets.committed == [Doc(1, 10)]
  {
    WriteLateStep(w8, 1, "b", 2, 20, 3, maxAttempts);
    var w9 := Step(w8, Write(1, Written), maxAttempts, 3);
    MarkLate(w9, 1, "b", 2, 3, maxAttempts);
    var w10 := Step(w9, Mark(1), maxAttempts, 3);
    WriteLateStep(w10, 0, "a", 1, 10, 4, maxAttempts);
    var w11 := Step(w10, Write(0, Written), maxAttempts, 4);
    ws := [w8, w9, w10, w11];
  }

  /** With several workers the promise fails: a completed row whose document is an older version. */
  lemma {:induction false} SeveralWorkersInvertWrites(n: nat, maxAttempts: int)
    requires n >= 2
    ensures exists worlds: seq<World> ::
              && IsRun(worlds, INVERSION, StartWith(n), maxAttempts)
              && LATE in worlds[11].rows && worlds[11].rows[LATE].status == Completed
              && worlds[11].db == map[LATE := 20]
              && worlds[11].tweets.committed == [Doc(1, 10)]
  {
    var start := StartWith(n);
    var xs := ChangeClaimFetch(start, 0, "a", 10, 1, maxAttempts);
    var ys := ChangeClaimFetch(xs[4], 1, "b", 20, 2, maxAttempts);
    var zs := WriteMarkWrite(ys[4], maxAttempts);
    JoinRuns(xs, ClaimScript(0, "a", 10, 1), ys, ClaimScript(1, "b", 20, 2), start, maxAttempts);
    var ws := xs + ys[1..];
    assert ws[8] == ys[4];
    JoinRuns(ws, ClaimScript(0, "a", 10, 1) + ClaimScript(1, "b", 20, 2), zs, WRITE_SCRIPT, start, maxAttempts);
    assert (ws + zs[1..])[11] == zs[3];
  }

  /** In every run of `n` workers, completed rows are fresh. */
  ghost predicate AlwaysFresh(n: nat, maxAttempts: int) {
    forall worlds: seq<World>, actions: seq<(Action, int)>, i: nat, t: Target ::
      IsRun(worlds, actions, StartWith(n), maxAttempts) && i < |worlds| ==> PromiseAt(worlds[i], t)
  }

  ghost predicate PromiseAt(w: World, t: Target) {
    t in w.rows && w.rows[t].status == Completed ==> DocsOf(IndexOf(w, t.kind).committed, t.id) == Expected(w, t)
  }

  /** The promise holds exactly for one worker, the default of the configuration. */
  lemma {:induction false} FreshIffOneWorker(n: nat, maxAttempts: int)
    requires n >= 1
    ensures AlwaysFresh(n, maxAttempts) <==> n == 1
  {
    if n == 1 {
      forall worlds: seq<World>, actions: seq<(Action, int)>, i: nat, t: Target
        | IsRun(worlds, actions, StartWith(n), maxAttempts) && i < |worlds|
        ensures PromiseAt(worlds[i], t)
      {
        CompletedMeansFresh(worlds, actions, maxAttempts, i, t);
      }
    } else {
      SeveralWorkersInvertWrites(n, maxAttempts);
      var worlds: seq<World> :|
        && IsRun(worlds, INVERSION, StartWith(n), maxAttempts)
        && LATE in worlds[11].rows && worlds[11].rows[LATE].status == Completed
        && worlds[11].db == map[LATE := 20]
        && worlds[11].tweets.committed == [Doc(1, 10)];
      assert DocsOf([Doc(1, 10)], 1)[0] == Doc(1, 10);
      assert !PromiseAt(worlds[11], LATE);
    }
  }
}
