/** The string dictionary: an append-only table of short strings and a two-way cache of it
    (server/src/string_dict.rs; server/migrations/20260408000030_tweet.sql, lines 176 to 220). */
module StringDict {
  import opened QueryText

  datatype Semantic =
    | TextStyleName | UserVerificationType | UserProfessionalType | UserDisclosureRelation | UserParodyLabel
    | UserAvatarShape | CountryName | CountryCode | LanguageCode | MediaAvailabilityStatus | MediaSensitivityCode
    | MediaTagKind | MediaResizeMode | VideoContentType | PlaceKind | ReplyPolicyCode | ActionCode | Source

  datatype Entry = Entry(semantic: Semantic, value: Text)

  type Table = map<Entry, int>

  const I16_MAX: int := 0x7FFF

  /** No id stands for two entries. */
  ghost predicate Injective(table: Table) {
    forall a, b :: a in table && b in table && table[a] == table[b] ==> a == b
  }

  /** Everything in `part` is in the table, under the same id. */
  ghost predicate Within(part: Table, table: Table) {
    forall e :: e in part ==> e in table && table[e] == part[e]
  }

  /** The two directions of a cache say the same. */
  ghost predicate Inverse(byKey: Table, byId: map<int, Entry>) {
    && (forall e :: e in byKey ==> byKey[e] in byId && byId[byKey[e]] == e)
    && (forall id :: id in byId ==> byId[id] in byKey && byKey[byId[id]] == id)
  }

  /** Adding a row of the table to both directions keeps them inverse to each other. */
  lemma {:induction false} InsertKeepsInverse(table: Table, byKey: Table, byId: map<int, Entry>, e: Entry)
    requires Injective(table) && Within(byKey, table) && Inverse(byKey, byId)
    requires e in table
    ensures Within(byKey[e := table[e]], table)
    ensures Inverse(byKey[e := table[e]], byId[table[e] := e])
  {
  }

  // ---------- any number of callers, any interleaving ----------

  /** The table, the shared cache, the snapshots that running refreshes have read, and the ids that running
      lookups have fetched but not yet cached. */
  datatype World = World(
    table: Table, byKey: Table, byId: map<int, Entry>, snapshots: map<int, Table>, fetched: map<int, Entry>)

  datatype Action =
    | AddRow(e: Entry, id: int)
    | ReadSnapshot(refresh: int)
    | InstallSnapshot(refresh: int)
    | Fetch(lookup: int, e: Entry)
    | CacheFetched(lookup: int)

  ghost predicate Enabled(w: World, a: Action) {
    match a
    case AddRow(e, id) => e !in w.table && id !in w.table.Values
    case ReadSnapshot(_) => true
    case InstallSnapshot(refresh) => refresh in w.snapshots
    case Fetch(_, e) => e in w.table
    case CacheFetched(lookup) => lookup in w.fetched && w.fetched[lookup] in w.table
  }

  /** The second direction of a table of rows. */
  ghost function Reverse(part: Table): map<int, Entry> {
    map id | id in part.Values :: Owner(part, id)
  }

  ghost function Owner(part: Table, id: int): (e: Entry)
    requires id in part.Values
    ensures e in part && part[e] == id
  {
    var e :| e in part && part[e] == id;
    e
  }

  ghost function Step(w: World, a: Action): World
    requires Enabled(w, a)
  {
    match a
    case AddRow(e, id) => w.(table := w.table[e := id])
    case ReadSnapshot(refresh) => w.(snapshots := w.snapshots[refresh := w.table])
    case InstallSnapshot(refresh) =>
      w.(byKey := w.snapshots[refresh], byId := Reverse(w.snapshots[refresh]))
    case Fetch(lookup, e) => w.(fetched := w.fetched[lookup := e])
    case CacheFetched(lookup) =>
      var e := w.fetched[lookup];
      w.(byKey := w.byKey[e := w.table[e]], byId := w.byId[w.table[e] := e])
  }

  ghost predicate Consistent(w: World) {
    && Injective(w.table)
    && Within(w.byKey, w.table)
    && Inverse(w.byKey, w.byId)
    && (forall r :: r in w.snapshots ==> Within(w.snapshots[r], w.table))
    && (forall l :: l in w.fetched ==> w.fetched[l] in w.table)
  }

  lemma {:induction false} ReverseIsInverse(part: Table, table: Table)
    requires Injective(table) && Within(part, table)
    ensures Inverse(part, Reverse(part))
  {
  }

  lemma {:induction false} StepKeepsConsistent(w: World, a: Action)
    requires Consistent(w) && Enabled(w, a)
    ensures Consistent(Step(w, a))
  {
    match a
    case AddRow(e, id) =>
      var table := w.table[e := id];
      forall x, y | x in table && y in table && table[x] == table[y]
        ensures x == y
      {
        assert x in w.table ==> w.table[x] in w.table.Values;
        assert y in w.table ==> w.table[y] in w.table.Values;
      }
    case InstallSnapshot(refresh) =>
      ReverseIsInverse(w.snapshots[refresh], w.table);
    case CacheFetched(lookup) =>
      InsertKeepsInverse(w.table, w.byKey, w.byId, w.fetched[lookup]);
    case ReadSnapshot(_) =>
    case Fetch(_, _) =>
  }

  ghost predicate IsRun(w: World, run: seq<Action>)
    decreases |run|
  {
    run == [] || (Enabled(w, run[0]) && IsRun(Step(w, run[0]), run[1..]))
  }

  ghost function After(w: World, run: seq<Action>): World
    requires IsRun(w, run)
    decreases |run|
  {
    if run == [] then w else After(Step(w, run[0]), run[1..])
  }

  /** Over any interleaving of refreshes, lookups and rows added by anyone: the two directions of the cache
      stay inverse to each other, and everything cached is a row of the table. */
  lemma {:induction false} RunKeepsConsistent(w: World, run: seq<Action>)
    requires Consistent(w) && IsRun(w, run)
    ensures Consistent(After(w, run))
    ensures Within(w.table, After(w, run).table)
    decreases |run|
  {
    if run != [] {
      StepKeepsConsistent(w, run[0]);
      RunKeepsConsistent(Step(w, run[0]), run[1..]);
    }
  }

  /** What is cached stays cached, under the same id, through any interleaving in which no refresh ends.
      The program refreshes only while it loads the cache, before anybody shares it. */
  lemma {:induction false} CachedStaysCached(w: World, run: seq<Action>)
    requires Consistent(w) && IsRun(w, run)
    requires forall i :: 0 <= i < |run| ==> !run[i].InstallSnapshot?
    ensures Within(w.byKey, After(w, run).byKey)
    decreases |run|
  {
    if run != [] {
      StepKeepsConsistent(w, run[0]);
      assert !run[0].InstallSnapshot?;
      forall i | 0 <= i < |run[1..]|
        ensures !run[1..][i].InstallSnapshot?
      {
        assert run[1..][i] == run[i + 1];
      }
      CachedStaysCached(Step(w, run[0]), run[1..]);
    }
  }
}
