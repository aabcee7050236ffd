/** How the reports of a batch add up: what each write adds to them, and what all of them have added in the
    end (server/src/tweet_submit/execute/mod.rs, lines 88 to 133). */
module SubmitTally {
  import opened Prelude
  import opened SubmitResult
  import opened SubmitPrepare
  import opened SubmitExecute
  import opened SubmitWrites

  /** Which operation an object, given by its index, is due under each name, once all the writes are done. */
  type Due = (nat, OperationName) -> Option<Operation>

  /** The report of an object once the writes under the names `done` are: that of before, with the operation
      that is due under each of these names. */
  ghost predicate TallyAt(before: ObjectResult, after: ObjectResult, i: nat, due: Due, done: set<OperationName>) {
    && after == before.(operations := after.operations)
    && (forall m: OperationName :: after.Said(m) == before.Said(m) + if m in done then Optional(due(i, m)) else [])
    && ((forall m: OperationName :: m in done ==> due(i, m).None?) ==> after == before)
  }

  ghost predicate Tally(before: seq<ObjectResult>, after: seq<ObjectResult>, due: Due, done: set<OperationName>) {
    |after| == |before| && forall i: nat :: i < |before| ==> TallyAt(before[i], after[i], i, due, done)
  }

  /** A write under new names adds to the tally what is due under them. */
  lemma {:induction false} TallyStep(before: seq<ObjectResult>, between: seq<ObjectResult>, after: seq<ObjectResult>,
                                     due: Due, done: set<OperationName>, names: set<OperationName>)
    requires Tally(before, between, due, done) && Tally(between, after, due, names) && names !! done
    ensures Tally(before, after, due, done + names)
  {
    forall i: nat | i < |before|
      ensures TallyAt(before[i], after[i], i, due, done + names)
    {
      assert TallyAt(before[i], between[i], i, due, done) && TallyAt(between[i], after[i], i, due, names);
      assert forall m :: m in done || m in names ==> m in done + names;
    }
  }

  /** Only what is due under the names that are done matters. */
  lemma {:induction false} TallyAgrees(before: seq<ObjectResult>, after: seq<ObjectResult>, due: Due, other: Due,
                                       done: set<OperationName>)
    requires Tally(before, after, due, done)
    requires forall i: nat, m: OperationName :: i < |before| && m in done ==> due(i, m) == other(i, m)
    ensures Tally(before, after, other, done)
  {
    forall i: nat | i < |before|
      ensures TallyAt(before[i], after[i], i, other, done)
    {
      assert TallyAt(before[i], after[i], i, due, done);
    }
  }

  lemma {:induction false} AddTallies(before: ObjectResult, op: Option<Operation>, i: nat, due: Due,
                                      name: OperationName)
    requires due(i, name) == op && (op.Some? ==> op.value.name == name)
    ensures TallyAt(before, AddOp(before, op), i, due, {name})
  {
    if op.Some? {
      forall m: OperationName
        ensures AddOp(before, op).Said(m) == before.Said(m) + if m in {name} then Optional(due(i, m)) else []
      {
        SaidAdd(before, op.value, m);
      }
    }
  }

  // ---------- the lists ----------

  lemma {:induction false} PickOwnsIndices<T>(at: nat -> Option<T>, n: nat)
    ensures OwnIndices(Pick(at, n), n)
  {
    PickFacts(at, n);
  }

  /** The object at an index has an item in the list exactly if it contributes. */
  lemma {:induction false} PickAtIndex<T>(at: nat -> Option<T>, n: nat, i: nat) returns (m: int)
    requires i < n
    ensures at(i).Some? ==> 0 <= m < |Pick(at, n)| && Pick(at, n)[m] == Indexed(i, at(i).value)
    ensures at(i).None? ==> forall j :: 0 <= j < |Pick(at, n)| ==> Pick(at, n)[j].index != i
  {
    PickFacts(at, n);
    var p := Pick(at, n);
    m := 0;
    if at(i).Some? {
      m :| 0 <= m < |p| && p[m] == Indexed(i, at(i).value);
    }
  }

  /** What an object is told of the item it contributes, if any. */
  function OfItem<T>(item: Option<T>, key: T -> RowKey, op: RowKey -> Operation): Option<Operation> {
    if item.Some? then Some(op(key(item.value))) else None
  }

  /** A write that reports to every item of a list. */
  lemma {:induction false} ReportedTally<T>(before: seq<ObjectResult>, after: seq<ObjectResult>, at: nat -> Option<T>,
                                            key: T -> RowKey, op: RowKey -> Operation, due: Due, name: OperationName)
    requires OwnIndices(Pick(at, |before|), |before|)
    requires AllReported(before, after, Pick(at, |before|), key, op)
    requires forall k :: op(k).name == name
    requires forall i: nat :: i < |before| ==> due(i, name) == OfItem(at(i), key, op)
    ensures Tally(before, after, due, {name})
  {
    forall i: nat | i < |before|
      ensures TallyAt(before[i], after[i], i, due, {name})
    {
      var m := PickAtIndex(at, |before|, i);
      assert after[i] == AddOp(before[i], OfItem(at(i), key, op));
      AddTallies(before[i], OfItem(at(i), key, op), i, due, name);
    }
  }

  const RELATION_NAMES: set<OperationName> := {TweetMediaRef, TweetMentionRef, TweetHashtagRef, TweetSymbolRef}

  lemma {:induction false} SaidFour(r: ObjectResult, answer: RelationStatuses, k: RowKey, m: OperationName)
    ensures AddRelations(r, answer, k).Said(m)
            == r.Said(m) + if m in RELATION_NAMES then [RelationOp(m, answer, k)] else []
  {
    var r1 := r.Add(RelationOp(TweetMediaRef, answer, k));
    var r2 := r1.Add(RelationOp(TweetMentionRef, answer, k));
    var r3 := r2.Add(RelationOp(TweetHashtagRef, answer, k));
    SaidAdd(r, RelationOp(TweetMediaRef, answer, k), m);
    SaidAdd(r1, RelationOp(TweetMentionRef, answer, k), m);
    SaidAdd(r2, RelationOp(TweetHashtagRef, answer, k), m);
    SaidAdd(r3, RelationOp(TweetSymbolRef, answer, k), m);
  }

  lemma {:induction false} RelationsTallyAt(r: ObjectResult, answer: RelationStatuses, k: RowKey, i: nat, due: Due)
    requires forall m :: m in RELATION_NAMES ==> due(i, m) == Some(RelationOp(m, answer, k))
    ensures TallyAt(r, AddRelations(r, answer, k), i, due, RELATION_NAMES)
  {
    forall m: OperationName
      ensures AddRelations(r, answer, k).Said(m)
              == r.Said(m) + if m in RELATION_NAMES then Optional(due(i, m)) else []
    {
      SaidFour(r, answer, k, m);
    }
    assert TweetMediaRef in RELATION_NAMES;
  }

  /** The replacement of relations, under four names at once. */
  lemma {:induction false} RelationsTally(before: seq<ObjectResult>, after: seq<ObjectResult>,
                                          at: nat -> Option<Record>, answer: RelationStatuses, due: Due)
    requires OwnIndices(Pick(at, |before|), |before|)
    requires RelationsTo(before, after, Pick(at, |before|), |Pick(at, |before|)|, answer)
    requires forall i: nat, m: OperationName :: i < |before| && m in RELATION_NAMES ==>
               due(i, m) == if at(i).Some? then Some(RelationOp(m, answer, RecordKey(at(i).value))) else None
    ensures Tally(before, after, due, RELATION_NAMES)
  {
    forall i: nat | i < |before|
      ensures TallyAt(before[i], after[i], i, due, RELATION_NAMES)
    {
      var m := PickAtIndex(at, |before|, i);
      if at(i).Some? {
        RelationsTallyAt(before[i], answer, RecordKey(at(i).value), i, due);
      }
    }
  }

  /** The queueing of transfers, which tells only some of the items. */
  lemma {:induction false} AddedTally(before: seq<ObjectResult>, after: seq<ObjectResult>, at: nat -> Option<Record>,
                                      op: Indexed<Record> -> Option<Operation>, due: Due, name: OperationName)
    requires OwnIndices(Pick(at, |before|), |before|)
    requires AddedTo(before, after, Pick(at, |before|), |Pick(at, |before|)|, op)
    requires forall item :: op(item).Some? ==> op(item).value.name == name
    requires forall i: nat :: i < |before| ==>
               due(i, name) == if at(i).Some? then op(Indexed(i, at(i).value)) else None
    ensures Tally(before, after, due, {name})
  {
    forall i: nat | i < |before|
      ensures TallyAt(before[i], after[i], i, due, {name})
    {
      var m := PickAtIndex(at, |before|, i);
      assert after[i] == AddOp(before[i], due(i, name));
      AddTallies(before[i], due(i, name), i, due, name);
    }
  }
}
