/** The search index queue: one row per target, claims fenced by worker name and claim time
    (server/src/search/queue.rs; server/migrations/20260426000090_search_outbox.sql, lines 6 to 73). */
module SearchQueue {
  import opened Prelude
  import opened ClaimOrder

  datatype Kind = User | Tweet

  datatype Target = Target(kind: Kind, id: int)

  datatype Status = Pending | Processing | Completed | Failed

  datatype IndexRow = IndexRow(
    status: Status,
    attemptCount: int,
    lastError: Option<string>,
    claimedBy: Option<string>,
    claimedAt: Option<int>,
    completedAt: Option<int>,
    createdAt: int,
    rowId: int)

  /** The target is unique in the table, so rows are found by target. */
  type Rows = map<Target, IndexRow>

  /** A claimed task as the worker remembers it. */
  datatype Claim = Claim(target: Target, worker: string, at: int)

  // ---------- the statements, as functions of the rows ----------

  function FreshRow(now: int, rowId: int): IndexRow {
    IndexRow(Pending, 0, None, None, None, None, now, rowId)
  }

  /** A forced refresh: pending again, no attempts, no claim. */
  function RefreshRow(row: IndexRow): IndexRow {
    row.(status := Pending, attemptCount := 0, lastError := None,
         claimedBy := None, claimedAt := None, completedAt := None)
  }

  function Enqueue(rows: Rows, targets: set<Target>, now: int, newId: Target -> int): Rows {
    map t | t in rows.Keys + targets ::
      if t !in targets then rows[t]
      else if t in rows then RefreshRow(rows[t]) else FreshRow(now, newId(t))
  }

  predicate Stale(row: IndexRow, cutoff: int) {
    row.status == Processing && (row.claimedAt.None? || row.claimedAt.value <= cutoff)
  }

  predicate Claimable(row: IndexRow, cutoff: int, maxAttempts: int) {
    row.status == Pending || (Stale(row, cutoff) && row.attemptCount < maxAttempts)
  }

  function Candidates(rows: Rows, cutoff: int, maxAttempts: int): set<Target> {
    set t | t in rows && Claimable(rows[t], cutoff, maxAttempts)
  }

  function ClaimKey(rows: Rows, t: Target): SortKey {
    if t in rows then SortKey(if rows[t].status == Pending then 0 else 1, rows[t].createdAt, rows[t].rowId)
    else SortKey(0, 0, 0)
  }

  function ClaimRow(row: IndexRow, worker: string, now: int): IndexRow {
    row.(status := Processing, attemptCount := row.attemptCount + 1, claimedBy := Some(worker), claimedAt := Some(now))
  }

  function ClaimRows(rows: Rows, chosen: set<Target>, worker: string, now: int): Rows {
    map t | t in rows :: if t in chosen then ClaimRow(rows[t], worker, now) else rows[t]
  }

  /** The row is still the one the claim was made on. */
  predicate Fenced(rows: Rows, c: Claim) {
    && c.target in rows
    && rows[c.target].status == Processing
    && rows[c.target].claimedBy == Some(c.worker)
    && rows[c.target].claimedAt == Some(c.at)
  }

  function CompleteRow(row: IndexRow, now: int): IndexRow {
    row.(status := Completed, lastError := None, claimedBy := None, claimedAt := None, completedAt := Some(now))
  }

  function Matched(rows: Rows, claims: set<Claim>): set<Target> {
    set c | c in claims && Fenced(rows, c) :: c.target
  }

  function MarkCompleted(rows: Rows, claims: set<Claim>, now: int): Rows {
    map t | t in rows :: if t in Matched(rows, claims) then CompleteRow(rows[t], now) else rows[t]
  }

  function FailRow(row: IndexRow, error: string, maxAttempts: int, now: int): IndexRow {
    row.(status := if row.attemptCount >= maxAttempts then Failed else Pending,
         lastError := Some(error), claimedBy := None, claimedAt := None,
         completedAt := if row.attemptCount >= maxAttempts then Some(now) else None)
  }

  function MarkFailed(rows: Rows, c: Claim, error: string, maxAttempts: int, now: int): Rows {
    if Fenced(rows, c) then rows[c.target := FailRow(rows[c.target], error, maxAttempts, now)] else rows
  }

  predicate Expires(row: IndexRow, cutoff: int, maxAttempts: int) {
    Stale(row, cutoff) && row.attemptCount >= maxAttempts
  }

  function ExpireRow(row: IndexRow, now: int): IndexRow {
    row.(status := Failed,
         lastError := if row.lastError.None? then Some("attempt_timeout") else row.lastError,
         claimedBy := None, claimedAt := None, completedAt := Some(now))
  }

  function ExpireStale(rows: Rows, cutoff: int, maxAttempts: int, now: int): Rows {
    map t | t in rows :: if Expires(rows[t], cutoff, maxAttempts) then ExpireRow(rows[t], now) else rows[t]
  }

  /** The targets somebody is said to work on. */
  function Running(rows: Rows): set<Target> {
    set t | t in rows && rows[t].status == Processing
  }

  /** What a mark completes was running, is not any more, and matches no claim. */
  lemma {:induction false} MarkedStop(rows: Rows, claims: set<Claim>, now: int)
    ensures var after, matched := MarkCompleted(rows, claims, now), Matched(rows, claims);
            && Running(after) == Running(rows) - matched
            && |Running(rows)| == |Running(after)| + |matched|
            && Matched(after, claims) == {}
            && (forall c :: c in claims ==> !Fenced(after, c))
  {
    var after, matched := MarkCompleted(rows, claims, now), Matched(rows, claims);
    assert Running(rows) == Running(after) + matched && Running(after) * matched == {};
    forall c | c in claims
      ensures !Fenced(after, c)
    {
    }
  }

  /** What expires was running and is not any more. */
  lemma {:induction false} ExpiredStop(rows: Rows, expired: set<Target>, cutoff: int, maxAttempts: int, now: int)
    requires expired == set t | t in rows && Expires(rows[t], cutoff, maxAttempts)
    ensures var after := ExpireStale(rows, cutoff, maxAttempts, now);
            Running(after) <= Running(rows) && |Running(rows)| == |Running(after)| + |expired|
  {
    var after := ExpireStale(rows, cutoff, maxAttempts, now);
    assert forall t :: t in expired ==> after[t].status == Failed;
    assert Running(rows) == Running(after) + expired && Running(after) * expired == {};
  }

  // ---------- which rows a claim takes ----------

  /** Nobody has locked the row, and it is pending, or stale with attempts left. */
  ghost predicate IsFree(rows: Rows, t: Target, cutoff: int, maxAttempts: int, locked: set<Target>) {
    && t in rows && t !in locked
    && (rows[t].status == Pending
        || (rows[t].status == Processing && rows[t].attemptCount < maxAttempts
            && (rows[t].claimedAt.None? || rows[t].claimedAt.value <= cutoff)))
  }

  /** A pending row goes before any other, then an older one before a newer one, then by id; row ids do not
      repeat in the table, but that is not needed here. */
  ghost predicate GoesBefore(a: IndexRow, b: IndexRow) {
    if (a.status == Pending) != (b.status == Pending) then a.status == Pending
    else if a.createdAt != b.createdAt then a.createdAt < b.createdAt
    else a.rowId <= b.rowId
  }

  lemma {:induction false} FreeAreCandidates(rows: Rows, cutoff: int, maxAttempts: int, locked: set<Target>)
    ensures forall t :: t in Candidates(rows, cutoff, maxAttempts) - locked
                        <==> IsFree(rows, t, cutoff, maxAttempts, locked)
  {
  }

  lemma {:induction false} KeysGoBefore(rows: Rows, t: Target, u: Target)
    requires t in rows && u in rows
    ensures GoesBefore(rows[t], rows[u]) <==> !Before(ClaimKey(rows, u), ClaimKey(rows, t))
  {
  }

  /** The first candidates by their keys go before all others, and are all of them if they are few. */
  lemma {:induction false} ChosenGoBefore(rows: Rows, chosen: set<Target>, free: set<Target>, cutoff: int,
                                          maxAttempts: int, locked: set<Target>)
    requires free == Candidates(rows, cutoff, maxAttempts) - locked
    requires TakesFirst(chosen, free, t => ClaimKey(rows, t))
    ensures forall t :: t in chosen ==> IsFree(rows, t, cutoff, maxAttempts, locked)
    ensures forall t, u :: t in chosen && u !in chosen && IsFree(rows, u, cutoff, maxAttempts, locked) ==>
              GoesBefore(rows[t], rows[u])
    ensures |chosen| == |free| ==> forall t :: IsFree(rows, t, cutoff, maxAttempts, locked) ==> t in chosen
  {
    FreeAreCandidates(rows, cutoff, maxAttempts, locked);
    forall t, u | t in chosen && u !in chosen && IsFree(rows, u, cutoff, maxAttempts, locked)
      ensures GoesBefore(rows[t], rows[u])
    {
      KeysGoBefore(rows, t, u);
    }
    AllChosen(chosen, free);
  }

  lemma {:induction false} AllChosen(chosen: set<Target>, free: set<Target>)
    requires chosen <= free
    ensures |chosen| == |free| ==> chosen == free
  {
    if chosen != free {
      assert free == chosen + (free - chosen) && |free - chosen| > 0;
    }
  }

  // ---------- the table ----------

  class IndexQueue {
    var rows: Rows

    constructor ()
      ensures rows == map[]
    {
      rows := map[];
    }

    /** Afterwards every target can be claimed at once, whatever its attempts were, and no claim that was
        made on it before matches any more; other targets are left alone. */
    method EnqueueTargets(targets: set<Target>, now: int, newId: Target -> int) returns (enqueued: set<Target>)
      modifies this
      ensures forall cutoff, maxAttempts :: targets <= Candidates(rows, cutoff, maxAttempts)
      ensures forall c: Claim :: c.target in targets ==> !Fenced(rows, c)
      ensures forall t :: t in old(rows) && t !in targets ==> t in rows && rows[t] == old(rows)[t]
      ensures rows == Enqueue(old(rows), targets, now, newId)
      ensures enqueued == targets - old(rows).Keys
      ensures rows.Keys == old(rows).Keys + targets
      ensures forall t :: t in targets ==>
                rows[t] == if t in old(rows)
                           then IndexRow(Pending, 0, None, None, None, None, old(rows)[t].createdAt, old(rows)[t].rowId)
                           else IndexRow(Pending, 0, None, None, None, None, now, newId(t))
    {
      enqueued := targets - rows.Keys;
      rows := Enqueue(rows, targets, now, newId);
    }

    /** Claims up to `limit` unlocked candidates in claim order, all with the same name and time. */
    method ClaimNextTasks(cutoff: int, maxAttempts: int, worker: string, now: int, limit: nat, locked: set<Target>)
      returns (chosen: set<Target>)
      modifies this
      ensures var free := Candidates(old(rows), cutoff, maxAttempts) - locked;
              && TakesFirst(chosen, free, t => ClaimKey(old(rows), t))
              && |chosen| == if |free| < limit then |free| else limit
      ensures rows == ClaimRows(old(rows), chosen, worker, now)
      ensures forall t :: t in chosen ==> Fenced(rows, Claim(t, worker, now))
      ensures forall t :: t in chosen ==>
                && IsFree(old(rows), t, cutoff, maxAttempts, locked)
                && var row := old(rows)[t];
                   rows[t] == row.(status := Processing, attemptCount := row.attemptCount + 1,
                                   claimedBy := Some(worker), claimedAt := Some(now))
      ensures forall t, u :: t in chosen && u !in chosen && IsFree(old(rows), u, cutoff, maxAttempts, locked) ==>
                GoesBefore(old(rows)[t], old(rows)[u])
      ensures |chosen| < limit ==> forall t :: IsFree(old(rows), t, cutoff, maxAttempts, locked) ==> t in chosen
      ensures forall t :: t in old(rows) && t !in chosen ==> t in rows && rows[t] == old(rows)[t]
    {
      var before := rows;
      chosen := TakeFirst(Candidates(rows, cutoff, maxAttempts) - locked, t => ClaimKey(before, t), limit);
      ChosenGoBefore(rows, chosen, Candidates(rows, cutoff, maxAttempts) - locked, cutoff, maxAttempts, locked);
      rows := ClaimRows(rows, chosen, worker, now);
    }

    /** Exactly the targets whose claim still matched are completed, and as many stop running; none of the
        claims matches afterwards, so marking them again completes nothing. */
    method MarkTasksCompleted(claims: set<Claim>, now: int) returns (updated: nat)
      modifies this
      ensures rows == MarkCompleted(old(rows), claims, now)
      ensures updated == |Matched(old(rows), claims)|
      ensures Running(rows) == Running(old(rows)) - Matched(old(rows), claims)
      ensures |Running(old(rows))| == |Running(rows)| + updated
      ensures Matched(rows, claims) == {} && forall c :: c in claims ==> !Fenced(rows, c)
      ensures forall c :: c in claims && Fenced(old(rows), c) ==>
                && c.target in rows
                && rows[c.target] == old(rows)[c.target].(status := Completed, lastError := None, claimedBy := None,
                                                          claimedAt := None, completedAt := Some(now))
      ensures forall t :: t in old(rows) && t !in Matched(old(rows), claims) ==> t in rows && rows[t] == old(rows)[t]
    {
      updated := |Matched(rows, claims)|;
      MarkedStop(rows, claims, now);
      rows := MarkCompleted(rows, claims, now);
    }

    /** The target stops running exactly if the claim still matched; then it can be claimed again, at once,
        exactly if it has attempts left. Otherwise nothing changes at all. */
    method MarkTaskFailed(c: Claim, error: string, maxAttempts: int, now: int) returns (updated: bool)
      modifies this
      ensures Running(rows) == if updated then Running(old(rows)) - {c.target} else Running(old(rows))
      ensures !updated ==> rows == old(rows)
      ensures updated ==> c.target in old(rows) && forall cutoff ::
                c.target in Candidates(rows, cutoff, maxAttempts) <==> old(rows)[c.target].attemptCount < maxAttempts
      ensures forall t :: t in old(rows) && t != c.target ==> t in rows && rows[t] == old(rows)[t]
      ensures !Fenced(rows, c)
      ensures updated <==> Fenced(old(rows), c)
      ensures updated <==>
                && c.target in old(rows) && old(rows)[c.target].status == Processing
                && old(rows)[c.target].claimedBy == Some(c.worker) && old(rows)[c.target].claimedAt == Some(c.at)
      ensures updated ==>
                var row := old(rows)[c.target];
                var left := row.attemptCount < maxAttempts;
                && c.target in rows
                && rows[c.target] == row.(status := if left then Pending else Failed, lastError := Some(error),
                                          claimedBy := None, claimedAt := None,
                                          completedAt := if left then None else Some(now))
      ensures rows == MarkFailed(old(rows), c, error, maxAttempts, now)
    {
      updated := Fenced(rows, c);
      if updated {
        rows := rows[c.target := FailRow(rows[c.target], error, maxAttempts, now)];
      }
    }

    /** Afterwards no stale target is stuck: each one that is left can be claimed again. What is not running
        any more has been counted, and nothing but a running target is touched. */
    method ExpireStaleTasks(cutoff: int, maxAttempts: int, now: int) returns (count: nat)
      modifies this
      ensures rows == ExpireStale(old(rows), cutoff, maxAttempts, now)
      ensures rows.Keys == old(rows).Keys
      ensures forall t :: t in rows ==>
                var row := old(rows)[t];
                rows[t] == if row.status == Processing && (row.claimedAt.None? || row.claimedAt.value <= cutoff)
                              && row.attemptCount >= maxAttempts
                           then row.(status := Failed, claimedBy := None, claimedAt := None, completedAt := Some(now),
                                     lastError := if row.lastError.Some? then row.lastError
                                                  else Some("attempt_timeout"))
                           else row
      ensures forall t :: t in rows && Stale(rows[t], cutoff) ==> Claimable(rows[t], cutoff, maxAttempts)
      ensures Running(rows) <= Running(old(rows)) && |Running(old(rows))| == |Running(rows)| + count
      ensures forall t :: t in old(rows) && t !in Running(old(rows)) ==> t in rows && rows[t] == old(rows)[t]
    {
      var expired := set t | t in rows && Expires(rows[t], cutoff, maxAttempts);
      count := |expired|;
      ExpiredStop(rows, expired, cutoff, maxAttempts, now);
      rows := ExpireStale(rows, cutoff, maxAttempts, now);
    }
  }
}
