/** The dictionary cache as its callers see it, with other callers at work on the table and on the shared
    cache between any two accesses (server/src/string_dict.rs, lines 77 to 245). */
module StringDictCache {
  import opened Prelude
  import opened QueryText
  import opened StringDict

  datatype DbError = ConnectionLost | NoIdLeft

  // ---------- trimming twice ----------

  function BTrimStart(s: Text): Text {
    if s != [] && s[0] == ' ' then BTrimStart(s[1..]) else s
  }

  function BTrimEnd(s: Text): Text {
    if s != [] && s[|s| - 1] == ' ' then BTrimEnd(s[..|s| - 1]) else s
  }

  /** `btrim`: takes off spaces only. */
  function BTrim(s: Text): Text {
    BTrimEnd(BTrimStart(s))
  }

  /** What the statement makes of an entry. */
  function Trimmed(e: Entry): Entry {
    e.(value := BTrim(e.value))
  }

  lemma {:induction false} TrimEndEdges(s: Text, ch: Chars)
    ensures var t := ch.TrimEnd(s);
            t != [] ==> |t| <= |s| && t[0] == s[0] && !ch.whitespace(t[|t| - 1])
    decreases |s|
  {
    if s != [] && ch.whitespace(s[|s| - 1]) {
      TrimEndEdges(s[..|s| - 1], ch);
    }
  }

  lemma {:induction false} TrimStartEdge(s: Text, ch: Chars)
    ensures ch.TrimStart(s) != [] ==> !ch.whitespace(ch.TrimStart(s)[0])
    decreases |s|
  {
    if s != [] && ch.whitespace(s[0]) {
      TrimStartEdge(s[1..], ch);
    }
  }

  /** What the program has trimmed is not changed by the statement, and is not dropped by it. */
  lemma {:induction false} TrimmedStaysTrimmed(value: Text, ch: Chars)
    requires ch.Valid() && ch.Trim(value) != []
    ensures BTrim(ch.Trim(value)) == ch.Trim(value)
  {
    TrimStartEdge(value, ch);
    TrimEndEdges(ch.TrimStart(value), ch);
  }

  // ---------- the table ----------

  /** What the statement looks up for the entries: trimmed, and without blank ones. */
  ghost function AskedFor(entries: seq<Entry>): set<Entry> {
    if entries == [] then {}
    else
      var e := Trimmed(entries[|entries| - 1]);
      var rest := AskedFor(entries[..|entries| - 1]);
      if e.value != [] then rest + {e} else rest
  }

  lemma {:induction false} AskedForSnoc(entries: seq<Entry>, i: nat)
    requires i < |entries|
    ensures var e := Trimmed(entries[i]);
            AskedFor(entries[..i + 1]) == if e.value != [] then AskedFor(entries[..i]) + {e} else AskedFor(entries[..i])
  {
    assert entries[..i + 1][..i] == entries[..i];
  }

  lemma {:induction false} AskedForGrows(entries: seq<Entry>, i: nat)
    requires i <= |entries|
    ensures AskedFor(entries[..i]) <= AskedFor(entries)
    decreases |entries| - i
  {
    if i < |entries| {
      AskedForSnoc(entries, i);
      AskedForGrows(entries, i + 1);
    } else {
      assert entries[..i] == entries;
    }
  }

  lemma {:induction false} AskedForIs(entries: seq<Entry>, k: Entry)
    ensures k in AskedFor(entries) <==> k.value != [] && exists e :: e in entries && Trimmed(e) == k
  {
    if entries != [] {
      var n := |entries| - 1;
      AskedForIs(entries[..n], k);
      assert entries == entries[..n] + [entries[n]];
    }
  }

  /** The rows the statement has to add. */
  ghost function NewRows(entries: seq<Entry>, table: Table): set<Entry> {
    AskedFor(entries) - table.Keys
  }

  lemma {:induction false} Smaller<T>(a: set<T>, b: set<T>)
    requires a <= b
    ensures |a| <= |b|
  {
    assert b == a + (b - a);
  }

  /** The ids do not reach for the new rows. */
  ghost predicate OutOfIds(nextId: int, rows: set<Entry>) {
    nextId + |rows| > 0x8000
  }

  /** The table `tweet.string_dict` with its identity column. */
  class Database {
    var table: Table
    var nextId: int

    ghost predicate Valid()
      reads this
    {
      && Injective(table) && nextId <= 0x8000
      && forall e :: e in table ==> table[e] < nextId
    }

    constructor ()
      ensures Valid() && table == map[] && nextId == 1
    {
      table, nextId := map[], 1;
    }

    /** `SELECT tweet.dict_id(semantic, value)`: the id of the row, which is inserted if it is missing. */
    method DictId(e: Entry, lost: bool) returns (r: Result<int, DbError>)
      requires Valid()
      modifies this
      ensures Valid()
      ensures r.Ok? ==> e in table && table[e] == r.value && table == old(table)[e := r.value]
      ensures r.Ok? ==> Within(old(table), table) && !lost
      ensures r.Err? ==> unchanged(this)
      ensures r.Err? ==> if lost then r.error == ConnectionLost else r.error == NoIdLeft && OutOfIds(nextId, {e})
    {
      if lost {
        return Err(ConnectionLost);
      }
      if e in table {
        return Ok(table[e]);
      }
      if nextId > I16_MAX {
        return Err(NoIdLeft);
      }
      table := table[e := nextId];
      nextId := nextId + 1;
      return Ok(table[e]);
    }

    /** The statement behind `ensure_many`: the ids of all entries that are not blank, or none and an
        unchanged table. */
    method DictIds(entries: seq<Entry>, lost: bool) returns (r: Result<Table, DbError>)
      requires Valid()
      modifies this
      ensures Valid()
      ensures r.Ok? ==> Within(old(table), table) && Within(r.value, table)
      ensures r.Ok? ==> !lost && forall k :: k in r.value <==> k in AskedFor(entries)
      ensures r.Ok? ==> forall k :: k in table <==> k in old(table) || k in AskedFor(entries)
      ensures r.Err? ==> unchanged(this)
      ensures r.Err? ==> if lost then r.error == ConnectionLost
                         else r.error == NoIdLeft && OutOfIds(nextId, NewRows(entries, table))
    {
      if lost {
        return Err(ConnectionLost);
      }
      var done, _ := AssignIds(entries, table, nextId);
      if done.None? {
        return Err(NoIdLeft);
      }
      table, nextId := done.value.rows, done.value.nextId;
      return Ok(done.value.found);
    }
  }

  datatype Assigned = Assigned(rows: Table, nextId: int, found: Table)

  /** The table has grown by the rows `added` for what is asked, and all of that has been found. */
  ghost predicate AssignedTo(a: Assigned, before: Table, asked: set<Entry>, added: set<Entry>) {
    && Injective(a.rows) && (forall e :: e in a.rows ==> a.rows[e] < a.nextId)
    && a.nextId <= 0x8000 && (forall e :: e in added ==> e in asked && e !in before)
    && Within(before, a.rows) && (forall e :: e in a.rows <==> e in before || e in asked)
    && Within(a.found, a.rows) && (forall e :: e in a.found <==> e in asked)
  }

  lemma {:induction false} AssignedKnown(a: Assigned, before: Table, asked: set<Entry>, added: set<Entry>,
                                         e: Entry)
    requires AssignedTo(a, before, asked, added) && e in a.rows
    ensures AssignedTo(a.(found := a.found[e := a.rows[e]]), before, asked + {e}, added)
  {
  }

  lemma {:induction false} AssignedNew(a: Assigned, before: Table, asked: set<Entry>, added: set<Entry>,
                                       e: Entry)
    requires AssignedTo(a, before, asked, added) && a.nextId < 0x8000 && e !in a.rows
    ensures AssignedTo(Assigned(a.rows[e := a.nextId], a.nextId + 1, a.found[e := a.nextId]), before, asked + {e},
                       added + {e})
  {
    NewIdIsNew(a, e);
  }

  lemma {:induction false} OneLarger(added: set<Entry>, e: Entry)
    requires e !in added
    ensures |added + {e}| == |added| + 1
  {
  }

  lemma {:induction false} NewIdIsNew(a: Assigned, e: Entry)
    requires Injective(a.rows) && (forall x :: x in a.rows ==> a.rows[x] < a.nextId) && e !in a.rows
    ensures Injective(a.rows[e := a.nextId])
  {
  }

  /** The rows of the table with new ones for the entries that have none, in order, as long as there are ids. */
  method AssignIds(entries: seq<Entry>, before: Table, nextId: int)
    returns (r: Option<Assigned>, ghost added: set<Entry>)
    requires Injective(before) && (forall e :: e in before ==> before[e] < nextId) && nextId <= 0x8000
    ensures r.None? ==> OutOfIds(nextId, NewRows(entries, before))
    ensures r.Some? ==> AssignedTo(r.value, before, AskedFor(entries), added)
  {
    var rows, id, found := before, nextId, map[];
    added := {};
    for i := 0 to |entries|
      invariant AssignedTo(Assigned(rows, id, found), before, AskedFor(entries[..i]), added)
      invariant id == nextId + |added|
    {
      ghost var a, asked := Assigned(rows, id, found), AskedFor(entries[..i]);
      AskedForSnoc(entries, i);
      var e := Trimmed(entries[i]);
      assert AskedFor(entries[..i + 1]) == if e.value != [] then asked + {e} else asked;
      if e.value != [] {
        if e !in rows {
          if id > I16_MAX {
            NoneLeft(entries, i, before, added);
            return None, added;
          }
          AssignedNew(a, before, asked, added, e);
          OneLarger(added, e);
          added := added + {e};
          rows := rows[e := id];
          id := id + 1;
        } else {
          AssignedKnown(a, before, asked, added, e);
        }
        found := found[e := rows[e]];
      }
    }
    assert entries[..|entries|] == entries;
    return Some(Assigned(rows, id, found)), added;
  }

  lemma {:induction false} NoneLeft(entries: seq<Entry>, i: nat, before: Table, added: set<Entry>)
    requires i < |entries|
    requires forall e :: e in added ==> e in AskedFor(entries[..i]) && e !in before
    requires var e := Trimmed(entries[i]);
             e.value != [] && e !in before && e !in added
    ensures |added| < |NewRows(entries, before)|
  {
    AskedForSnoc(entries, i);
    AskedForGrows(entries, i + 1);
    Smaller(added + {Trimmed(entries[i])}, NewRows(entries, before));
  }

  /** The statement takes the entry as it is. */
  predicate Normal(e: Entry) {
    Trimmed(e) == e && e.value != []
  }

  /** Both directions of the rows of the table, read one after the other. */
  method TwoWays(rows: Table) returns (byKey: Table, byId: map<int, Entry>)
    requires Injective(rows)
    ensures byKey == rows && Inverse(byKey, byId)
  {
    byKey, byId := map[], map[];
    var rest := rows.Keys;
    while |rest| > 0
      invariant rest <= rows.Keys && Within(byKey, rows) && Inverse(byKey, byId)
      invariant byKey.Keys == rows.Keys - rest
      decreases |rest|
    {
      var e :| e in rest;
      InsertKeepsInverse(rows, byKey, byId, e);
      byKey, byId := byKey[e := rows[e]], byId[rows[e] := e];
      rest := rest - {e};
    }
  }

  class StringDictCache {
    const ch: Chars
    var byKey: Table
    var byId: map<int, Entry>

    /** The cache holds rows of the table only, and its two directions agree. */
    ghost predicate Agrees(db: Database)
      reads this, db
    {
      Within(byKey, db.table) && Inverse(byKey, byId)
    }

    constructor (ch: Chars)
      ensures this.ch == ch && byKey == map[] && byId == map[]
      ensures forall db: Database :: Agrees(db)
    {
      this.ch := ch;
      byKey, byId := map[], map[];
    }

    /** What a value is looked up as: trimmed, and not at all when nothing is left. */
    function NormalizeValue(value: Text): Option<Text> {
      var trimmed := ch.Trim(value);
      if trimmed == [] then None else Some(trimmed)
    }

    /** What an entry is looked up as. */
    function Key(e: Entry): Option<Entry> {
      var value := NormalizeValue(e.value);
      if value.None? then None else Some(Entry(e.semantic, value.value))
    }

    /** One of the entries is looked up as `k`. */
    ghost predicate Wanted(entries: seq<Entry>, k: Entry) {
      exists e :: e in entries && Key(e) == Some(k)
    }

    /** What is looked up for the entries and is not in the table yet. */
    ghost function NewKeys(entries: seq<Entry>, table: Table): set<Entry> {
      set e | e in entries && Key(e).Some? && Key(e).value !in table :: Key(e).value
    }

    lemma {:induction false} NewOfMissing(entries: seq<Entry>, missing: seq<Entry>, table: Table)
      requires forall k :: k in missing ==> Normal(k) && Wanted(entries, k)
      ensures |NewRows(missing, table)| <= |NewKeys(entries, table)|
    {
      forall k | k in NewRows(missing, table)
        ensures k in NewKeys(entries, table)
      {
        AskedForIs(missing, k);
        var m :| m in missing && Trimmed(m) == k;
        assert m == k;
        var e :| e in entries && Key(e) == Some(k);
      }
      Smaller(NewRows(missing, table), NewKeys(entries, table));
    }

    lemma {:induction false} WantedSnoc(entries: seq<Entry>, e: Entry)
      ensures forall k :: Wanted(entries + [e], k) <==> Wanted(entries, k) || Key(e) == Some(k)
    {
    }

    method InsertCached(db: Database, id: int, e: Entry)
      requires db.Valid() && Agrees(db) && e in db.table && db.table[e] == id
      modifies this
      ensures Agrees(db)
      ensures byKey == old(byKey)[e := id] && byId == old(byId)[id := e]
      ensures Within(old(byKey), byKey)
    {
      InsertKeepsInverse(db.table, byKey, byId, e);
      byKey, byId := byKey[e := id], byId[id := e];
    }

    /** Any number of steps of anybody else: rows are added, and rows are cached. Nothing if the cache and
        the table are not `shared`. */
    method Others(db: Database, shared: bool)
      requires db.Valid() && Agrees(db)
      modifies this, db
      ensures db.Valid() && Agrees(db)
      ensures Within(old(db.table), db.table) && Within(old(byKey), byKey)
      ensures !shared ==> unchanged(this) && unchanged(db)
    {
      var n: int := *;
      for i := 0 to if n < 0 || !shared then 0 else n
        invariant db.Valid() && Agrees(db)
        invariant Within(old(db.table), db.table) && Within(old(byKey), byKey)
        invariant !shared ==> unchanged(this) && unchanged(db)
      {
        var e: Entry, lost, cached: bool := *, *, *;
        var id := db.DictId(e, lost);
        if id.Ok? && cached {
          InsertCached(db, id.value, e);
        }
      }
    }

    /** Replaces the cache by the rows of the table as they were when it was read, the two directions
        inverse to each other. */
    method Refresh(db: Database, lost: bool, shared: bool) returns (r: Result<(), DbError>)
      requires db.Valid() && Agrees(db)
      modifies this, db
      ensures db.Valid() && Agrees(db) && Within(old(db.table), db.table)
      ensures r.Ok? ==> byKey == old(db.table)
      ensures !shared ==> unchanged(db)
      ensures r.Err? ==> unchanged(this) && unchanged(db)
      ensures if lost then r == Err(ConnectionLost) else r.Ok?
    {
      if lost {
        return Err(ConnectionLost);
      }
      var rows := db.table;
      Others(db, shared);
      var nextKeys, nextIds := TwoWays(rows);
      byKey, byId := nextKeys, nextIds;
      return Ok(());
    }

    /** A blank value has no id and costs nothing; a cached one costs nothing; any other one costs one
        statement and is cached afterwards. `sent` counts the statements of this call. */
    method EnsureId(db: Database, semantic: Semantic, value: Option<Text>, lost: bool, shared: bool)
      returns (r: Result<Option<int>, DbError>, ghost sent: nat)
      requires db.Valid() && Agrees(db)
      modifies this, db
      ensures db.Valid() && Agrees(db) && Within(old(db.table), db.table) && Within(old(byKey), byKey)
      ensures var key := if value.None? then None else Key(Entry(semantic, value.value));
              && (key.None? ==> r == Ok(None) && sent == 0 && unchanged(this) && unchanged(db))
              && (key.Some? && key.value in old(byKey) ==>
                    r == Ok(Some(db.table[key.value])) && sent == 0 && unchanged(this) && unchanged(db))
              && (key.Some? && key.value !in old(byKey) ==>
                    && sent == 1
                    && (r.Ok? ==> key.value in byKey && r.value == Some(db.table[key.value]))
                    && (r.Ok? && !shared ==>
                          && byKey == old(byKey)[key.value := db.table[key.value]]
                          && db.table == old(db.table)[key.value := db.table[key.value]])
                    && (r.Err? && !shared ==> unchanged(this) && db.table == old(db.table))
                    && (r.Ok? ==> !lost)
                    && (r.Err? ==> if lost then r.error == ConnectionLost
                                   else r.error == NoIdLeft && OutOfIds(db.nextId, {key.value})))
    {
      sent := 0;
      if value.None? {
        return Ok(None), 0;
      }
      var normal := NormalizeValue(value.value);
      if normal.None? {
        return Ok(None), 0;
      }
      var key := Entry(semantic, normal.value);
      if key in byKey {
        return Ok(Some(byKey[key])), 0;
      }
      Others(db, shared);
      var id := db.DictId(key, lost);
      if id.Err? {
        return Err(id.error), 1;
      }
      Others(db, shared);
      InsertCached(db, id.value, key);
      return Ok(Some(id.value)), 1;
    }

    /** Whatever has to be looked up is cached afterwards, at the cost of at most one statement, and none if
        it all was already. Without other callers nothing else is cached, and a failure changes neither the
        cache nor the table. */
    method EnsureMany(db: Database, entries: seq<Entry>, lost: bool, shared: bool)
      returns (r: Result<(), DbError>, ghost sent: nat)
      requires ch.Valid() && db.Valid() && Agrees(db)
      modifies this, db
      ensures db.Valid() && Agrees(db) && Within(old(db.table), db.table) && Within(old(byKey), byKey)
      ensures r.Ok? ==> forall k :: Wanted(entries, k) ==> k in byKey
      ensures sent <= 1 && ((forall k :: Wanted(entries, k) ==> k in old(byKey)) ==> r.Ok? && sent == 0)
      ensures !shared && r.Ok? ==> forall k :: k in byKey <==> k in old(byKey) || Wanted(entries, k)
      ensures !shared && r.Err? ==> unchanged(this) && db.table == old(db.table)
      ensures r.Ok? && lost ==> sent == 0
      ensures r.Err? ==> if lost then r.error == ConnectionLost
                         else r.error == NoIdLeft && OutOfIds(db.nextId, NewKeys(entries, db.table))
    {
      var missing := Missing(db, entries, shared);
      if missing == [] {
        return Ok(()), 0;
      }
      assert missing[0] in missing;
      r := EnsureKeys(db, missing, lost, shared);
      sent := 1;
      NewOfMissing(entries, missing, db.table);
    }

    /** Looks up keys with one statement and caches them. */
    method EnsureKeys(db: Database, keys: seq<Entry>, lost: bool, shared: bool) returns (r: Result<(), DbError>)
      requires db.Valid() && Agrees(db)
      requires forall k :: k in keys ==> Normal(k)
      modifies this, db
      ensures db.Valid() && Agrees(db) && Within(old(db.table), db.table) && Within(old(byKey), byKey)
      ensures r.Ok? ==> forall k :: k in keys ==> k in byKey
      ensures !shared && r.Ok? ==> forall k :: k in byKey <==> k in old(byKey) || k in keys
      ensures r.Err? ==> unchanged(this) && unchanged(db)
      ensures r.Ok? ==> !lost
      ensures r.Err? ==> if lost then r.error == ConnectionLost
                         else r.error == NoIdLeft && OutOfIds(db.nextId, NewRows(keys, db.table))
    {
      forall k
        ensures k in AskedFor(keys) <==> k in keys
      {
        AskedForIs(keys, k);
      }
      var rows := db.DictIds(keys, lost);
      if rows.Err? {
        return Err(rows.error);
      }
      Others(db, shared);
      CacheRows(db, rows.value, shared);
      return Ok(());
    }

    /** The keys that were not cached when they were looked at, each once. All others are cached. */
    method Missing(db: Database, entries: seq<Entry>, shared: bool) returns (missing: seq<Entry>)
      requires ch.Valid() && db.Valid() && Agrees(db)
      modifies this, db
      ensures db.Valid() && Agrees(db) && Within(old(db.table), db.table) && Within(old(byKey), byKey)
      ensures forall i, j :: 0 <= i < j < |missing| ==> missing[i] != missing[j]
      ensures forall k :: k in missing ==> Normal(k) && Wanted(entries, k) && k !in old(byKey)
      ensures forall k :: Wanted(entries, k) && k !in missing ==> k in byKey
      ensures !shared ==> unchanged(this) && unchanged(db)
    {
      missing := [];
      var seen: set<Entry> := {};
      for i := 0 to |entries|
        invariant db.Valid() && Agrees(db) && Within(old(db.table), db.table) && Within(old(byKey), byKey)
        invariant !shared ==> unchanged(this) && unchanged(db)
        invariant forall k :: k in seen <==> Wanted(entries[..i], k)
        invariant forall k :: k in missing ==> k in seen && Normal(k) && k !in old(byKey)
        invariant forall k :: k in seen && k !in missing ==> k in byKey
        invariant forall a, b :: 0 <= a < b < |missing| ==> missing[a] != missing[b]
      {
        var e := entries[i];
        assert entries[..i + 1] == entries[..i] + [e];
        WantedSnoc(entries[..i], e);
        var key := Key(e);
        if key.Some? && key.value !in seen {
          seen := seen + {key.value};
          TrimmedStaysTrimmed(e.value, ch);
          if key.value !in byKey {
            missing := missing + [key.value];
          }
          Others(db, shared);
        }
      }
      assert entries[..|entries|] == entries;
    }

    method CacheRow(db: Database, id: int, e: Entry, shared: bool)
      requires db.Valid() && Agrees(db) && e in db.table && db.table[e] == id
      modifies this, db
      ensures db.Valid() && Agrees(db) && Within(old(db.table), db.table)
      ensures Within(old(byKey), byKey) && e in byKey
      ensures !shared ==> forall k :: k in byKey <==> k in old(byKey) || k == e
    {
      InsertCached(db, id, e);
      Others(db, shared);
    }

    /** Caches the rows of an answer, which come in any order. */
    method CacheRows(db: Database, rows: Table, shared: bool)
      requires db.Valid() && Agrees(db) && Within(rows, db.table)
      modifies this, db
      ensures db.Valid() && Agrees(db) && Within(old(db.table), db.table) && Within(old(byKey), byKey)
      ensures forall k :: k in rows ==> k in byKey
      ensures !shared ==> forall k :: k in byKey <==> k in old(byKey) || k in rows
    {
      var rest := rows.Keys;
      while |rest| > 0
        invariant db.Valid() && Agrees(db) && Within(rows, db.table) && rest <= rows.Keys
        invariant Within(old(db.table), db.table) && Within(old(byKey), byKey)
        invariant forall k :: k in rows && k !in rest ==> k in byKey
        invariant !shared ==> forall k :: k in byKey ==> k in old(byKey) || k in rows
        decreases |rest|
      {
        var k :| k in rest;
        CacheRow(db, rows[k], k, shared);
        rest := rest - {k};
      }
    }
  }

  /** The cache as the program starts with it: every row that was there when it was loaded. */
  method Load(db: Database, ch: Chars, lost: bool, shared: bool) returns (r: Result<StringDictCache, DbError>)
    requires db.Valid()
    modifies db
    ensures db.Valid() && Within(old(db.table), db.table)
    ensures r.Ok? ==> fresh(r.value) && r.value.ch == ch && r.value.Agrees(db) && r.value.byKey == old(db.table)
    ensures r.Err? ==> unchanged(db)
    ensures if lost then r == Err(ConnectionLost) else r.Ok?
  {
    var cache := new StringDictCache(ch);
    var done := cache.Refresh(db, lost, shared);
    if done.Err? {
      return Err(done.error);
    }
    return Ok(cache);
  }
}
