/** Keyset pagination of a listing, and the startup backfill that walks a table the same way
    (server/src/internal_api/v2/tweets.rs, lines 186 to 245; common.rs, lines 340 to 364;
    server/src/search/mod.rs, lines 402 to 439). */
module Keyset {
  import opened Prelude

  /** The rows a listing selects at some moment: the value of the sort column by id. A row whose sort
      column is updated moves; one that is deleted, or whose filter columns change, leaves the table. */
  type Table = map<int, int>

  /** What a listing sorts by: the sort column, then the id, which is unique. */
  datatype Key = Key(sortAt: int, id: int)

  function Keys(table: Table): set<Key> {
    set id | id in table :: Key(table[id], id)
  }

  datatype Direction = Ascending | Descending

  predicate Less(a: Key, b: Key) {
    a.sortAt < b.sortAt || (a.sortAt == b.sortAt && a.id < b.id)
  }

  /** `a` is listed before `b`. */
  predicate Precedes(a: Key, b: Key, dir: Direction) {
    if dir == Ascending then Less(a, b) else Less(b, a)
  }

  ghost predicate Listed(rows: seq<Key>, dir: Direction) {
    forall i, j :: 0 <= i < j < |rows| ==> Precedes(rows[i], rows[j], dir)
  }

  predicate IsFirst(k: Key, table: set<Key>, dir: Direction) {
    k in table && forall x :: x in table && x != k ==> Precedes(k, x, dir)
  }

  lemma {:induction false} FirstExists(table: set<Key>, dir: Direction) returns (k: Key)
    requires |table| > 0
    ensures IsFirst(k, table, dir)
    decreases |table|
  {
    var x :| x in table;
    var rest := table - {x};
    if |rest| == 0 {
      assert table == {x} + rest;
      k := x;
    } else {
      k := FirstExists(rest, dir);
      if Precedes(x, k, dir) {
        k := x;
      }
    }
  }

  /** `ORDER BY ... LIMIT n` on the rows of `table`. */
  function Select(table: set<Key>, n: nat, dir: Direction): (r: seq<Key>)
    decreases n
  {
    if n == 0 || |table| == 0 then []
    else
      var k := First(table, dir);
      [k] + Select(table - {k}, n - 1, dir)
  }

  function First(table: set<Key>, dir: Direction): (k: Key)
    requires |table| > 0
    ensures IsFirst(k, table, dir)
  {
    assert exists x :: IsFirst(x, table, dir) by {
      var x := FirstExists(table, dir);
    }
    var k :| IsFirst(k, table, dir);
    k
  }

  /** A selection is in listing order, takes rows of the table only, takes as many as it may, and
      leaves out only rows that come later than all it took. */
  lemma {:induction false} SelectFacts(table: set<Key>, n: nat, dir: Direction)
    ensures var s := Select(table, n, dir);
            && |s| == Min(n, |table|)
            && Listed(s, dir)
            && (forall k :: k in s ==> k in table)
            && (forall k, i :: k in table && k !in s && 0 <= i < |s| ==> Precedes(s[i], k, dir))
            && (|table| <= n ==> forall k :: k in table ==> k in s)
    decreases n
  {
    if n > 0 && |table| > 0 {
      var k := First(table, dir);
      SelectFacts(table - {k}, n - 1, dir);
      var rest := Select(table - {k}, n - 1, dir);
      var s := Select(table, n, dir);
      assert s == [k] + rest;
      forall i, j | 0 <= i < j < |s|
        ensures Precedes(s[i], s[j], dir)
      {
        assert s[j] in rest;
      }
      assert forall x :: x in s <==> x == k || x in rest;
    }
  }

  // ---------- one page ----------

  const DEFAULT_LIMIT: int := 50
  const MAX_LIMIT: int := 100

  function ResolveLimit(value: Option<nat>): (limit: nat)
    ensures value.None? ==> limit == 50
    ensures value.Some? && 1 <= value.value <= 100 ==> limit == value.value
    ensures value == Some(0) ==> limit == 1
    ensures value.Some? && value.value > 100 ==> limit == 100
  {
    var n := if value.Some? then value.value else DEFAULT_LIMIT;
    if n < 1 then 1 else Min(n, MAX_LIMIT)
  }

  /** Keeps at most `limit` of the fetched rows; the cursor of the last one is returned exactly when
      there were more. */
  method PaginateRows(fetched: seq<Key>, limit: nat) returns (data: seq<Key>, next: Option<Key>)
    ensures data == fetched[..Min(|fetched|, limit)]
    ensures next == if |fetched| > limit && limit > 0 then Some(fetched[limit - 1]) else None
  {
    var rows := fetched;
    var hasMore := |rows| > limit;
    if hasMore {
      rows := rows[..limit];
    }
    data := [];
    var lastCursor: Option<Key> := None;
    for i := 0 to |rows|
      invariant data == rows[..i]
      invariant lastCursor == if i == 0 then None else Some(rows[i - 1])
    {
      data := data + [rows[i]];
      lastCursor := Some(rows[i]);
    }
    next := if hasMore then lastCursor else None;
  }

  /** The rows after a cursor. */
  function After(table: set<Key>, cursor: Option<Key>, dir: Direction): set<Key> {
    set k | k in table && (cursor.Some? ==> Precedes(cursor.value, k, dir))
  }

  /** What one request returns: the page and the key of the next cursor. */
  ghost function Page(table: Table, cursor: Option<Key>, limit: nat): (r: (seq<Key>, Option<Key>))
    requires limit > 0
  {
    var rest := After(Keys(table), cursor, Descending);
    var s := Select(rest, limit + 1, Descending);
    if |s| > limit then (s[..limit], Some(s[limit - 1])) else (s, None)
  }

  /** A page lists rows of the table after the cursor, in order; it leaves out only rows that come after
      the cursor it returns, and nothing if it returns none. */
  lemma {:induction false} PageFacts(table: Table, cursor: Option<Key>, limit: nat)
    requires limit > 0
    ensures var (data, next) := Page(table, cursor, limit);
            var rest := After(Keys(table), cursor, Descending);
            && Listed(data, Descending)
            && (forall k :: k in data ==> k in rest)
            && (next.Some? ==> data != [] && next.value == data[|data| - 1])
            && (forall k :: k in rest && k !in data ==> next.Some? && Precedes(next.value, k, Descending))
            && (next.Some? <==> |rest| > limit)
  {
    var rest := After(Keys(table), cursor, Descending);
    var s := Select(rest, limit + 1, Descending);
    SelectFacts(rest, limit + 1, Descending);
    if |s| > limit {
      forall k | k in rest && k !in s[..limit]
        ensures Precedes(s[limit - 1], k, Descending)
      {
        if k in s {
          assert k == s[limit];
        }
      }
    }
  }

  /** The order of a listing: the greater value of the sort column first, and of equal ones the greater id. */
  ghost predicate Newer(a: Key, b: Key) {
    a.sortAt > b.sortAt || (a.sortAt == b.sortAt && a.id > b.id)
  }

  /** Up to `limit` rows of the table that come after the cursor, in the order of the listing. What is left
      out comes after the cursor that is returned; one is returned exactly if something is left out, and it
      is that of the last row of the page. */
  ghost predicate IsPage(table: Table, cursor: Option<Key>, limit: nat, data: seq<Key>, next: Option<Key>) {
    && |data| <= limit
    && (forall i, j :: 0 <= i < j < |data| ==> Newer(data[i], data[j]))
    && (forall k :: k in data ==> k.id in table && k.sortAt == table[k.id] && IsAfter(k, cursor))
    && (forall id :: id in table && IsAfter(Key(table[id], id), cursor) && Key(table[id], id) !in data ==>
          next.Some? && Newer(next.value, Key(table[id], id)))
    && (next.Some? ==>
          && |data| == limit && limit > 0 && next.value == data[limit - 1]
          && exists id :: id in table && Newer(next.value, Key(table[id], id)))
  }

  ghost predicate IsAfter(k: Key, cursor: Option<Key>) {
    cursor.Some? ==> Newer(cursor.value, k)
  }

  lemma {:induction false} ListedIsNewer(data: seq<Key>)
    requires Listed(data, Descending)
    ensures forall i, j :: 0 <= i < j < |data| ==> Newer(data[i], data[j])
  {
    forall i, j | 0 <= i < j < |data|
      ensures Newer(data[i], data[j])
    {
      assert Precedes(data[i], data[j], Descending);
    }
  }

  lemma {:induction false} OneIsLeftOut(table: Table, cursor: Option<Key>, limit: nat) returns (id: int)
    requires limit > 0 && Page(table, cursor, limit).1.Some?
    ensures |Page(table, cursor, limit).0| == limit
    ensures id in table && Newer(Page(table, cursor, limit).1.value, Key(table[id], id))
  {
    var rest := After(Keys(table), cursor, Descending);
    var s := Select(rest, limit + 1, Descending);
    SelectFacts(rest, limit + 1, Descending);
    assert s[limit] in rest && Precedes(s[limit - 1], s[limit], Descending);
    id := s[limit].id;
  }

  lemma {:induction false} InRest(table: Table, cursor: Option<Key>, k: Key)
    ensures k in After(Keys(table), cursor, Descending)
            <==> k.id in table && k.sortAt == table[k.id] && IsAfter(k, cursor)
  {
    if k.id in table && k.sortAt == table[k.id] {
      assert k == Key(table[k.id], k.id);
    }
  }

  lemma {:induction false} PageIsPage(table: Table, cursor: Option<Key>, limit: nat)
    requires limit > 0
    ensures var (data, next) := Page(table, cursor, limit);
            IsPage(table, cursor, limit, data, next)
  {
    var (data, next) := Page(table, cursor, limit);
    PageFacts(table, cursor, limit);
    ListedIsNewer(data);
    if next.Some? {
      var id := OneIsLeftOut(table, cursor, limit);
    } else {
      SelectFacts(After(Keys(table), cursor, Descending), limit + 1, Descending);
    }
    forall k | k in data
      ensures k.id in table && k.sortAt == table[k.id] && IsAfter(k, cursor)
    {
      InRest(table, cursor, k);
    }
    forall id | id in table && IsAfter(Key(table[id], id), cursor) && Key(table[id], id) !in data
      ensures next.Some? && Newer(next.value, Key(table[id], id))
    {
      InRest(table, cursor, Key(table[id], id));
    }
  }

  // ---------- the request ----------

  datatype Sort = PublishedAt | CreatedAt | UpdatedAt

  /** What a listing is asked for, normalised. */
  datatype Spec = Spec(q: Option<string>, authorId: Option<int>, relation: string, sort: Sort)

  /** `publishedAt` is what older cursors carry instead of `sortAt`. */
  datatype Cursor = Cursor(version: int, spec: Spec, sortAt: Option<int>, publishedAt: Option<int>, id: int)

  datatype ListError = UnsupportedVersion | QueryMismatch | FilterMismatch | SortMismatch | InvalidCursor

  const CURSOR_VERSION: int := 1

  function SortTime(c: Cursor): Option<int> {
    if c.sortAt.Some? then c.sortAt else c.publishedAt
  }

  /** The cursor belongs to this listing and says where it stopped. */
  ghost predicate Accepted(c: Cursor, spec: Spec) {
    c.version == CURSOR_VERSION && c.spec == spec && SortTime(c).Some?
  }

  /** The error names the first thing that is wrong with the cursor. */
  ghost predicate Explains(e: ListError, c: Cursor, spec: Spec) {
    match e
    case UnsupportedVersion => c.version != CURSOR_VERSION
    case QueryMismatch => c.version == CURSOR_VERSION && c.spec.q != spec.q
    case FilterMismatch =>
      && c.version == CURSOR_VERSION && c.spec != spec
      && c.spec.q == spec.q && (c.spec.authorId, c.spec.relation) != (spec.authorId, spec.relation)
    case SortMismatch => c.version == CURSOR_VERSION && c.spec != spec && c.spec.(sort := spec.sort) == spec
    case InvalidCursor => c.version == CURSOR_VERSION && c.spec == spec && SortTime(c).None?
  }

  ghost function KeyOf(c: Option<Cursor>): Option<Key> {
    if c.Some? && SortTime(c.value).Some? then Some(Key(SortTime(c.value).value, c.value.id)) else None
  }

  /** The query for one row more than the limit, and the page made of what it returns. */
  method FetchPage(table: Table, after: Option<Key>, limit: nat) returns (data: seq<Key>, last: Option<Key>)
    requires limit > 0
    ensures (data, last) == Page(table, after, limit) && IsPage(table, after, limit, data, last)
  {
    var rest := After(Keys(table), after, Descending);
    var fetched := Select(rest, limit + 1, Descending);
    SelectFacts(rest, limit + 1, Descending);
    assert fetched[..|fetched|] == fetched;
    data, last := PaginateRows(fetched, limit);
    PageIsPage(table, after, limit);
  }

  /** One request. It is refused exactly when it comes with a cursor that is not of this listing; otherwise
      it yields the page after the cursor, and the cursor it returns is accepted when the same listing is
      asked for again, and continues right after the page. */
  method ListTweets(table: Table, spec: Spec, cursor: Option<Cursor>, requested: Option<nat>)
    returns (r: Result<(seq<Key>, Option<Cursor>), ListError>)
    ensures r.Ok? <==> cursor.None? || Accepted(cursor.value, spec)
    ensures r.Ok? <==> && (cursor.Some? ==> cursor.value.version == 1 && cursor.value.spec == spec)
                       && (cursor.Some? ==> cursor.value.sortAt.Some? || cursor.value.publishedAt.Some?)
    ensures r.Err? ==> Explains(r.error, cursor.value, spec)
    ensures r.Ok? ==>
              && (r.value.0, KeyOf(r.value.1)) == Page(table, KeyOf(cursor), ResolveLimit(requested))
              && (r.value.1.Some? ==> Accepted(r.value.1.value, spec))
    ensures r.Ok? ==>
              var after := if cursor.None? then None
                           else if cursor.value.sortAt.Some? then Some(Key(cursor.value.sortAt.value, cursor.value.id))
                           else Some(Key(cursor.value.publishedAt.value, cursor.value.id));
              exists last: Option<Key> ::
                && IsPage(table, after, ResolveLimit(requested), r.value.0, last)
                && r.value.1 == if last.None? then None
                                else Some(Cursor(1, spec, Some(last.value.sortAt), None, last.value.id))
  {
    var after: Option<Key> := None;
    if cursor.Some? {
      var c := cursor.value;
      if c.version != CURSOR_VERSION {
        return Err(UnsupportedVersion);
      }
      if c.spec.q != spec.q {
        return Err(QueryMismatch);
      }
      if c.spec.authorId != spec.authorId || c.spec.relation != spec.relation {
        return Err(FilterMismatch);
      }
      if c.spec.sort != spec.sort {
        return Err(SortMismatch);
      }
      var sortTime := SortTime(c);
      if sortTime.None? {
        return Err(InvalidCursor);
      }
      after := Some(Key(sortTime.value, c.id));
    }
    var data, last := FetchPage(table, after, ResolveLimit(requested));
    var next := if last.Some? then Some(Cursor(CURSOR_VERSION, spec, Some(last.value.sortAt), None, last.value.id))
                else None;
    return Ok((data, next));
  }

  // ---------- following cursors ----------

  /** What a request meets: the table at its time, and its limit. */
  datatype Request = Request(table: Table, limit: nat)

  ghost predicate Limited(requests: seq<Request>) {
    forall i :: 0 <= i < |requests| ==> requests[i].limit > 0
  }

  /** What a client gets that follows the cursors, beginning with request number `k`. */
  ghost function Walk(requests: seq<Request>, k: nat, cursor: Option<Key>): seq<Key>
    requires Limited(requests)
    decreases |requests| - k
  {
    if k >= |requests| then []
    else
      var page := Page(requests[k].table, cursor, requests[k].limit);
      page.0 + if page.1.Some? then Walk(requests, k + 1, page.1) else []
  }

  /** The walk comes to a null cursor. */
  ghost predicate Ended(requests: seq<Request>, k: nat, cursor: Option<Key>)
    requires Limited(requests)
    decreases |requests| - k
  {
    k < |requests| &&
    var next := Page(requests[k].table, cursor, requests[k].limit).1;
    next.Some? ==> Ended(requests, k + 1, next)
  }

  lemma {:induction false} ListedJoin(a: seq<Key>, b: seq<Key>, dir: Direction)
    requires Listed(a, dir) && Listed(b, dir)
    requires a != [] && forall k :: k in b ==> Precedes(a[|a| - 1], k, dir)
    ensures Listed(a + b, dir)
  {
    forall i, j | 0 <= i < j < |a + b|
      ensures Precedes((a + b)[i], (a + b)[j], dir)
    {
      if i < |a| <= j {
        assert (a + b)[j] in b;
      }
    }
  }

  /** However the table changes between pages and whatever the limits: the keys come in strictly descending
      order, all after the cursor. */
  lemma {:induction false} WalkDescends(requests: seq<Request>, k: nat, cursor: Option<Key>)
    requires Limited(requests)
    ensures Listed(Walk(requests, k, cursor), Descending)
    ensures var all := Walk(requests, k, cursor);
            forall i, j :: 0 <= i < j < |all| ==> Newer(all[i], all[j])
    ensures forall x :: x in Walk(requests, k, cursor) ==> cursor.Some? ==> Precedes(cursor.value, x, Descending)
    decreases |requests| - k
  {
    if k < |requests| {
      var (data, next) := Page(requests[k].table, cursor, requests[k].limit);
      PageFacts(requests[k].table, cursor, requests[k].limit);
      if next.Some? {
        var rest := Walk(requests, k + 1, next);
        WalkDescends(requests, k + 1, next);
        ListedJoin(data, rest, Descending);
        forall x | x in rest && cursor.Some?
          ensures Precedes(cursor.value, x, Descending)
        {
          assert next.value in data;
        }
      } else {
        assert Walk(requests, k, cursor) == data;
      }
    }
    ListedIsNewer(Walk(requests, k, cursor));
  }

  // ---------- how often a row is returned ----------

  /** How often the row `id` is in a list. */
  ghost function Times(list: seq<Key>, id: int): nat {
    if list == [] then 0
    else (if list[0].id == id then 1 else 0) + Times(list[1..], id)
  }

  lemma {:induction false} TimesAppend(a: seq<Key>, b: seq<Key>, id: int)
    ensures Times(a + b, id) == Times(a, id) + Times(b, id)
  {
    if a == [] {
      assert a + b == b;
    } else {
      assert (a + b)[0] == a[0] && (a + b)[1..] == a[1..] + b;
      TimesAppend(a[1..], b, id);
    }
  }

  lemma {:induction false} TimesZero(list: seq<Key>, id: int)
    requires forall x :: x in list ==> x.id != id
    ensures Times(list, id) == 0
  {
    if list != [] {
      assert list[0] in list;
      TimesZero(list[1..], id);
    }
  }

  /** In a list of rows of one table, each comes at most once. */
  lemma {:induction false} TimesListed(list: seq<Key>, table: Table, id: int)
    requires Listed(list, Descending) && forall x :: x in list ==> x in Keys(table)
    ensures Times(list, id) == if id in table && Key(table[id], id) in list then 1 else 0
  {
    if list != [] {
      var rest := list[1..];
      assert list[0] in list;
      forall x | x in rest
        ensures x in Keys(table) && x != list[0]
      {
        var i :| 0 <= i < |rest| && rest[i] == x;
        assert Precedes(list[0], list[i + 1], Descending);
      }
      TimesListed(rest, table, id);
      assert list == [list[0]] + rest;
    }
  }

  /** The row `id` is in the table and still to come after the cursor. */
  ghost predicate ToCome(table: Table, cursor: Option<Key>, id: int) {
    id in table && (cursor.Some? ==> Precedes(cursor.value, Key(table[id], id), Descending))
  }

  ghost function Count(b: bool): nat {
    if b then 1 else 0
  }

  /** How often the row leaves what is still to come between two pages of the walk: it is deleted, or moves
      above the cursor. */
  ghost function Leaves(requests: seq<Request>, k: nat, cursor: Option<Key>, id: int): nat
    requires Limited(requests)
    decreases |requests| - k
  {
    if k + 1 >= |requests| then 0
    else
      var next := Page(requests[k].table, cursor, requests[k].limit).1;
      if next.None? then 0
      else
        Count(ToCome(requests[k].table, next, id) && !ToCome(requests[k + 1].table, next, id))
        + Leaves(requests, k + 1, next, id)
  }

  /** How often it joins what is still to come: it is inserted, or moves below the cursor. */
  ghost function Joins(requests: seq<Request>, k: nat, cursor: Option<Key>, id: int): nat
    requires Limited(requests)
    decreases |requests| - k
  {
    if k + 1 >= |requests| then 0
    else
      var next := Page(requests[k].table, cursor, requests[k].limit).1;
      if next.None? then 0
      else
        Count(!ToCome(requests[k].table, next, id) && ToCome(requests[k + 1].table, next, id))
        + Joins(requests, k + 1, next, id)
  }

  /** A page returns the row exactly if it was to come before and is not to come any more. */
  lemma {:induction false} PageReturns(table: Table, cursor: Option<Key>, limit: nat, id: int)
    requires limit > 0
    ensures var (data, next) := Page(table, cursor, limit);
            && Times(data, id) == Count(ToCome(table, cursor, id)) - Count(next.Some? && ToCome(table, next, id))
  {
    var (data, next) := Page(table, cursor, limit);
    PageFacts(table, cursor, limit);
    TimesListed(data, table, id);
    if id in table {
      var x := Key(table[id], id);
      assert x in Keys(table);
      assert ToCome(table, cursor, id) <==> x in After(Keys(table), cursor, Descending);
      if x in data && next.Some? {
        var i :| 0 <= i < |data| && data[i] == x;
        if i < |data| - 1 {
          assert Precedes(data[i], data[|data| - 1], Descending);
        }
      } else if next.Some? && ToCome(table, next, id) && cursor.Some? {
        assert next.value in data;
      }
    }
  }

  /** The account of a walk over tables that change as they like: a row is returned once if it was to come
      at the start, once more for every time it joins what is to come, and once less for every time it
      leaves. */
  lemma {:induction false} WalkAccount(requests: seq<Request>, k: nat, cursor: Option<Key>, id: int)
    requires Limited(requests) && Ended(requests, k, cursor)
    ensures Times(Walk(requests, k, cursor), id) + Leaves(requests, k, cursor, id)
            == Count(ToCome(requests[k].table, cursor, id)) + Joins(requests, k, cursor, id)
    decreases |requests| - k
  {
    var r := requests[k];
    var (data, next) := Page(r.table, cursor, r.limit);
    PageReturns(r.table, cursor, r.limit, id);
    if next.Some? {
      WalkAccount(requests, k + 1, next, id);
      TimesAppend(data, Walk(requests, k + 1, next), id);
    } else {
      assert Walk(requests, k, cursor) == data;
    }
  }

  /** A row that is there at the start is returned exactly once if and only if it leaves what is still to
      come as often as it joins it. */
  lemma {:induction false} ReturnedOnceIff(requests: seq<Request>, id: int)
    requires Limited(requests) && Ended(requests, 0, None) && id in requests[0].table
    ensures Times(Walk(requests, 0, None), id) == 1 <==> Leaves(requests, 0, None, id) == Joins(requests, 0, None, id)
  {
    WalkAccount(requests, 0, None, id);
  }

  /** The row is there from request `k` on and its sort column never falls: a publication or creation time,
      which stays, or the time of the last update. */
  ghost predicate NeverFalls(requests: seq<Request>, k: nat, id: int) {
    forall i, j :: k <= i <= j < |requests| ==>
      id in requests[i].table && id in requests[j].table && requests[i].table[id] <= requests[j].table[id]
  }

  lemma {:induction false} NeverJoins(requests: seq<Request>, k: nat, cursor: Option<Key>, id: int)
    requires Limited(requests) && NeverFalls(requests, k, id)
    ensures Joins(requests, k, cursor, id) == 0
    decreases |requests| - k
  {
    if k + 1 < |requests| {
      var next := Page(requests[k].table, cursor, requests[k].limit).1;
      if next.Some? {
        assert requests[k].table[id] <= requests[k + 1].table[id];
        NeverJoins(requests, k + 1, next, id);
      }
    }
  }

  lemma {:induction false} NeverLeaves(requests: seq<Request>, k: nat, cursor: Option<Key>, id: int, sortAt: int)
    requires Limited(requests)
    requires forall i :: k <= i < |requests| ==> id in requests[i].table && requests[i].table[id] == sortAt
    ensures Leaves(requests, k, cursor, id) == 0
    decreases |requests| - k
  {
    if k + 1 < |requests| {
      var next := Page(requests[k].table, cursor, requests[k].limit).1;
      if next.Some? {
        NeverLeaves(requests, k + 1, next, id, sortAt);
      }
    }
  }

  /** A row that is there throughout and never falls is returned exactly once, unless it moved above the
      cursor before its turn: then, and only then, it is not returned at all. */
  lemma {:induction false} RisingRow(requests: seq<Request>, id: int)
    requires Limited(requests) && Ended(requests, 0, None) && NeverFalls(requests, 0, id)
    ensures Times(Walk(requests, 0, None), id) + Leaves(requests, 0, None, id) == 1
  {
    assert id in requests[0].table;
    WalkAccount(requests, 0, None, id);
    NeverJoins(requests, 0, None, id);
  }

  /** A row that is there throughout with the same value in its sort column is returned exactly once,
      whatever happens to the others. */
  lemma {:induction false} UnchangedRow(requests: seq<Request>, id: int, sortAt: int)
    requires Limited(requests) && Ended(requests, 0, None)
    requires forall i :: 0 <= i < |requests| ==> id in requests[i].table && requests[i].table[id] == sortAt
    ensures Times(Walk(requests, 0, None), id) == 1
  {
    RisingRow(requests, id);
    NeverLeaves(requests, 0, None, id, sortAt);
  }

  /** Where a returned key comes from. */
  lemma {:induction false} ReturnedFrom(requests: seq<Request>, k: nat, cursor: Option<Key>, x: Key) returns (j: nat)
    requires Limited(requests) && x in Walk(requests, k, cursor)
    ensures k <= j < |requests| && x in Keys(requests[j].table)
    decreases |requests| - k
  {
    var (data, next) := Page(requests[k].table, cursor, requests[k].limit);
    PageFacts(requests[k].table, cursor, requests[k].limit);
    if x in data {
      j := k;
    } else {
      assert Walk(requests, k, cursor) == data + if next.Some? then Walk(requests, k + 1, next) else [];
      j := ReturnedFrom(requests, k + 1, next, x);
    }
  }

  /** No row is returned twice whose sort column never falls, even if it comes and goes. */
  lemma {:induction false} NoRowTwice(requests: seq<Request>, k: nat, cursor: Option<Key>, id: int)
    requires Limited(requests)
    requires forall i, j :: k <= i <= j < |requests| && id in requests[i].table && id in requests[j].table ==>
               requests[i].table[id] <= requests[j].table[id]
    ensures Times(Walk(requests, k, cursor), id) <= 1
    decreases |requests| - k
  {
    if k < |requests| {
      var table := requests[k].table;
      var (data, next) := Page(table, cursor, requests[k].limit);
      PageFacts(table, cursor, requests[k].limit);
      TimesListed(data, table, id);
      if next.Some? {
        var rest := Walk(requests, k + 1, next);
        TimesAppend(data, rest, id);
        NoRowTwice(requests, k + 1, next, id);
        if Times(data, id) == 1 {
          NotAgain(requests, k, cursor, id);
        }
      } else {
        assert Walk(requests, k, cursor) == data;
      }
    }
  }

  lemma {:induction false} NotAgain(requests: seq<Request>, k: nat, cursor: Option<Key>, id: int)
    requires Limited(requests) && k < |requests|
    requires forall i, j :: k <= i <= j < |requests| && id in requests[i].table && id in requests[j].table ==>
               requests[i].table[id] <= requests[j].table[id]
    requires var (data, next) := Page(requests[k].table, cursor, requests[k].limit);
             next.Some? && id in requests[k].table && Key(requests[k].table[id], id) in data
    ensures var next := Page(requests[k].table, cursor, requests[k].limit).1;
            Times(Walk(requests, k + 1, next), id) == 0
  {
    var table := requests[k].table;
    var (data, next) := Page(table, cursor, requests[k].limit);
    PageFacts(table, cursor, requests[k].limit);
    var rest := Walk(requests, k + 1, next);
    WalkDescends(requests, k + 1, next);
    var i :| 0 <= i < |data| && data[i] == Key(table[id], id);
    assert i < |data| - 1 ==> Precedes(data[i], data[|data| - 1], Descending);
    forall x | x in rest
      ensures x.id != id
    {
      var j := ReturnedFrom(requests, k + 1, next, x);
      assert Precedes(Key(table[id], id), x, Descending);
    }
    TimesZero(rest, id);
  }

  lemma {:induction false} TwoKeys(a: int, b: int, u: int, v: int)
    requires a != b
    ensures Keys(map[a := u, b := v]) == {Key(u, a), Key(v, b)}
  {
    var t := map[a := u, b := v];
    assert t[a] == u && t[b] == v;
    assert a in t && b in t && Key(t[a], a) in Keys(t) && Key(t[b], b) in Keys(t);
  }

  /** A row whose sort column changes can be missed although it is there throughout: updated between two
      pages, it moves from below the cursor to above it. */
  lemma {:induction false} MovedRowIsMissed(a: int, b: int, low: int, middle: int, high: int)
    requires a != b && low < middle < high
    ensures var requests := [Request(map[a := middle, b := low], 1), Request(map[a := middle, b := high], 1)];
            && NeverFalls(requests, 0, b) && Ended(requests, 0, None)
            && Walk(requests, 0, None) == [Key(middle, a)]
  {
    var t0, t1 := map[a := middle, b := low], map[a := middle, b := high];
    var requests := [Request(t0, 1), Request(t1, 1)];
    var x, y := Key(middle, a), Key(low, b);
    TwoKeys(a, b, middle, low);
    TwoKeys(a, b, middle, high);
    var rest := After(Keys(t0), None, Descending);
    assert rest == {x, y};
    SelectFacts(rest, 2, Descending);
    var s := Select(rest, 2, Descending);
    assert x in s && y in s;
    assert Precedes(s[0], s[1], Descending);
    assert s == [x, y];
    assert Page(t0, None, 1) == ([x], Some(x));
    var after := After(Keys(t1), Some(x), Descending);
    assert after == {};
    assert Page(t1, Some(x), 1) == ([], None);
    assert Walk(requests, 1, Some(x)) == [];
  }

  // ---------- a table that stays as it is ----------

  lemma {:induction false} SubsetShrinks(small: set<Key>, big: set<Key>, k: Key)
    requires small <= big && k in big && k !in small
    ensures |small| < |big|
  {
    assert small <= big - {k};
    Subset(small, big - {k});
  }

  lemma {:induction false} Subset(small: set<Key>, big: set<Key>)
    requires small <= big
    ensures |small| <= |big|
    decreases |small|
  {
    if |small| > 0 {
      var k :| k in small;
      Subset(small - {k}, big - {k});
    } else {
    }
  }

  ghost predicate Stays(requests: seq<Request>, table: Table) {
    Limited(requests) && forall i :: 0 <= i < |requests| ==> requests[i].table == table
  }

  /** On a table that does not change, the walk ends with a null cursor after at most one page per row
      (and one page for an empty listing). */
  lemma {:induction false} FixedTableEnds(table: Table, requests: seq<Request>, k: nat, cursor: Option<Key>)
    requires Stays(requests, table) && k < |requests|
    requires |requests| - k > |After(Keys(table), cursor, Descending)|
    ensures Ended(requests, k, cursor)
    decreases |requests| - k
  {
    var (data, next) := Page(table, cursor, requests[k].limit);
    PageFacts(table, cursor, requests[k].limit);
    if next.Some? {
      assert next.value in data;
      SubsetShrinks(After(Keys(table), next, Descending), After(Keys(table), cursor, Descending), next.value);
      FixedTableEnds(table, requests, k + 1, next);
    }
  }

  /** On a fixed table, whatever the limits, the walk from the start ends and returns every row exactly
      once, in descending order, and nothing else. */
  lemma {:induction false} FixedTableListsAll(table: Table, requests: seq<Request>)
    requires Stays(requests, table) && |requests| > |Keys(table)|
    ensures Ended(requests, 0, None)
    ensures var all := Walk(requests, 0, None);
            && Listed(all, Descending)
            && (forall x :: x in all ==> x in Keys(table))
            && (forall id :: id in table ==> Times(all, id) == 1)
  {
    assert After(Keys(table), None, Descending) == Keys(table);
    FixedTableEnds(table, requests, 0, None);
    WalkDescends(requests, 0, None);
    forall x | x in Walk(requests, 0, None)
      ensures x in Keys(table)
    {
      var _ := ReturnedFrom(requests, 0, None, x);
    }
    forall id | id in table
      ensures Times(Walk(requests, 0, None), id) == 1
    {
      UnchangedRow(requests, id, table[id]);
    }
  }

  // ---------- the startup backfill ----------

  function Ids(ids: set<int>): (keys: set<Key>)
    ensures forall id :: Key(0, id) in keys <==> id in ids
  {
    set id | id in ids :: Key(0, id)
  }

  ghost predicate ExistsOnce(tables: seq<set<int>>, x: Key) {
    exists i :: 0 <= i < |tables| && x in Ids(tables[i])
  }

  ghost predicate ExistsThroughout(tables: seq<set<int>>, id: int) {
    forall i :: 0 <= i < |tables| ==> id in tables[i]
  }

  /** The id is in `done`, or still to come after it. */
  ghost predicate Covered(done: seq<Key>, lastId: Option<Key>, id: int) {
    Key(0, id) in done || (lastId.Some? ==> Precedes(lastId.value, Key(0, id), Ascending))
  }

  lemma {:induction false} BatchCovers(table: set<int>, done: seq<Key>, lastId: Option<Key>, n: nat, id: int)
    requires n > 0 && id in table && Covered(done, lastId, id)
    ensures var ids := Select(After(Ids(table), lastId, Ascending), n, Ascending);
            if ids == [] then Key(0, id) in done else Covered(done + ids, Some(ids[|ids| - 1]), id)
  {
    var rest := After(Ids(table), lastId, Ascending);
    var ids := Select(rest, n, Ascending);
    SelectFacts(rest, n, Ascending);
    if Key(0, id) !in done {
      assert Key(0, id) in rest;
      if Key(0, id) in ids {
        assert Key(0, id) in done + ids;
      }
    }
  }

  lemma {:induction false} IdsAscend(enqueued: seq<Key>, tables: seq<set<int>>)
    requires Listed(enqueued, Ascending) && forall x :: x in enqueued ==> ExistsOnce(tables, x)
    ensures forall i, j :: 0 <= i < j < |enqueued| ==> enqueued[i].id < enqueued[j].id
  {
    forall i, j | 0 <= i < j < |enqueued|
      ensures enqueued[i].id < enqueued[j].id
    {
      assert Precedes(enqueued[i], enqueued[j], Ascending);
      assert ExistsOnce(tables, enqueued[i]) && ExistsOnce(tables, enqueued[j]);
    }
  }

  /** Walks all existing ids in batches and enqueues each; ends when a batch comes back empty. The table
      may change between batches: `tables[i]` holds the ids that exist when batch number `i` is read, the
      last one those from then on. The ids come out in ascending order, so each at most once; nothing is
      enqueued that never existed, and everything that exists throughout is. */
  method EnqueueExistingTargets(tables: seq<set<int>>, batchSize: nat) returns (enqueued: seq<Key>, queued: nat)
    requires batchSize > 0 && tables != []
    ensures Listed(enqueued, Ascending) && queued == |enqueued|
    ensures forall i, j :: 0 <= i < j < |enqueued| ==> enqueued[i].id < enqueued[j].id
    ensures forall x :: x in enqueued ==> ExistsOnce(tables, x)
    ensures forall id :: ExistsThroughout(tables, id) ==> Key(0, id) in enqueued
  {
    enqueued, queued := [], 0;
    var lastId: Option<Key> := None;
    var i := 0;
    while true
      invariant 0 <= i < |tables| && Listed(enqueued, Ascending) && queued == |enqueued|
      invariant lastId == if enqueued == [] then None else Some(enqueued[|enqueued| - 1])
      invariant forall x :: x in enqueued ==> ExistsOnce(tables, x)
      invariant forall id :: ExistsThroughout(tables, id) ==> Covered(enqueued, lastId, id)
      decreases |tables| - i, |After(Ids(tables[i]), lastId, Ascending)|
    {
      var rest := After(Ids(tables[i]), lastId, Ascending);
      var ids := Select(rest, batchSize, Ascending);
      SelectFacts(rest, batchSize, Ascending);
      forall id | ExistsThroughout(tables, id)
        ensures if ids == [] then Key(0, id) in enqueued else Covered(enqueued + ids, Some(ids[|ids| - 1]), id)
      {
        BatchCovers(tables[i], enqueued, lastId, batchSize, id);
      }
      if ids == [] {
        IdsAscend(enqueued, tables);
        break;
      }
      ghost var before := enqueued;
      enqueued := enqueued + ids;
      queued := queued + |ids|;
      lastId := Some(ids[|ids| - 1]);
      if before != [] {
        ListedJoin(before, ids, Ascending);
      }
      assert ids[|ids| - 1] in ids;
      if i + 1 < |tables| {
        i := i + 1;
      } else {
        SubsetShrinks(After(Ids(tables[i]), lastId, Ascending), rest, ids[|ids| - 1]);
      }
    }
  }
}
