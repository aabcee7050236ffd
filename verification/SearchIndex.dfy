/** A Tantivy index with its buffered writer, and the indexing of a group of targets
    (server/src/search/mod.rs, lines 258 to 322). */
module SearchIndex {
  import opened Prelude

  /** The content of a document is a function of the database record it was made from. */
  type Record = int

  datatype Doc = Doc(id: int, record: Record)

  datatype WriterOp = DeleteTerm(id: int) | AddDocument(doc: Doc)

  /** `buffer` holds the operations since the last commit; a search sees `committed` only. */
  datatype Index = Index(committed: seq<Doc>, buffer: seq<WriterOp>)

  function Without(docs: seq<Doc>, id: int): seq<Doc> {
    if docs == [] then []
    else if docs[0].id == id then Without(docs[1..], id)
    else [docs[0]] + Without(docs[1..], id)
  }

  function ApplyOp(docs: seq<Doc>, op: WriterOp): seq<Doc> {
    match op
    case DeleteTerm(id) => Without(docs, id)
    case AddDocument(doc) => docs + [doc]
  }

  /** A delete affects the documents added before it, in the order the operations were given. */
  function ApplyAll(docs: seq<Doc>, ops: seq<WriterOp>): seq<Doc>
    decreases |ops|
  {
    if ops == [] then docs else ApplyOp(ApplyAll(docs, ops[..|ops| - 1]), ops[|ops| - 1])
  }

  function Committed(index: Index): Index {
    Index(ApplyAll(index.committed, index.buffer), [])
  }

  /** The operations that reindex one target: delete it, and add it back if the database has it. */
  function OpsFor(id: int, records: map<int, Record>): seq<WriterOp> {
    [DeleteTerm(id)] + if id in records then [AddDocument(Doc(id, records[id]))] else []
  }

  function OpsForAll(ids: seq<int>, records: map<int, Record>): seq<WriterOp>
    decreases |ids|
  {
    if ids == [] then [] else OpsForAll(ids[..|ids| - 1], records) + OpsFor(ids[|ids| - 1], records)
  }

  /** How writing a group can end. A failed document or a failed commit leaves operations buffered; a
      failed reload after the commit reports an error although everything is committed. */
  datatype WriteResult = Written | FailedBuffered(count: nat) | FailedAfterCommit

  function AfterWrite(index: Index, ids: seq<int>, records: map<int, Record>, result: WriteResult): Index {
    var ops := OpsForAll(ids, records);
    match result
    case Written => Committed(Index(index.committed, index.buffer + ops))
    case FailedAfterCommit => Committed(Index(index.committed, index.buffer + ops))
    case FailedBuffered(count) => Index(index.committed, index.buffer + ops[..Min(count, |ops|)])
  }

  class IndexWriter {
    var committed: seq<Doc>
    var buffer: seq<WriterOp>

    constructor ()
      ensures View() == Index([], [])
    {
      committed, buffer := [], [];
    }

    function View(): Index
      reads this
    {
      Index(committed, buffer)
    }

    method DeleteTermById(id: int)
      modifies `buffer
      ensures buffer == old(buffer) + [DeleteTerm(id)]
    {
      buffer := buffer + [DeleteTerm(id)];
    }

    method AddDoc(doc: Doc, fails: bool) returns (ok: bool)
      modifies `buffer
      ensures ok == !fails
      ensures buffer == if ok then old(buffer) + [AddDocument(doc)] else old(buffer)
    {
      if fails {
        return false;
      }
      buffer := buffer + [AddDocument(doc)];
      return true;
    }

    method Commit(fails: bool) returns (ok: bool)
      modifies this
      ensures ok == !fails
      ensures View() == if ok then Committed(old(View())) else old(View())
    {
      if fails {
        return false;
      }
      committed, buffer := ApplyAll(committed, buffer), [];
      return true;
    }

    /** Reindexes `ids` from the fetched `records`. Any add, the commit or the reload may fail; `left`
        says how the index was left. */
    method IndexGroup(ids: seq<int>, records: map<int, Record>, reliable: bool)
      returns (ok: bool, ghost left: WriteResult)
      requires ids != []
      modifies this
      ensures ok <==> left == Written
      ensures View() == AfterWrite(old(View()), ids, records, left)
      ensures reliable ==> ok
    {
      ghost var all := OpsForAll(ids, records);
      for i := 0 to |ids|
        invariant committed == old(committed) && buffer == old(buffer) + OpsForAll(ids[..i], records)
      {
        OpsPrefix(ids, i, records);
        assert ids[..i + 1][..i] == ids[..i];
        DeleteTermById(ids[i]);
        if ids[i] in records {
          var fails: bool := *;
          var added := AddDoc(Doc(ids[i], records[ids[i]]), fails && !reliable);
          if !added {
            ghost var done := OpsForAll(ids[..i], records) + [DeleteTerm(ids[i])];
            assert done <= all;
            assert buffer == old(buffer) + done == old(buffer) + all[..|done|];
            return false, FailedBuffered(|done|);
          }
        }
        assert OpsForAll(ids[..i + 1], records) == OpsForAll(ids[..i], records) + OpsFor(ids[i], records);
      }
      assert ids[..|ids|] == ids && all[..|all|] == all;
      var commitFails, reloadFails: bool := *, *;
      var committed_ := Commit(commitFails && !reliable);
      if !committed_ {
        return false, FailedBuffered(|all|);
      }
      if reloadFails && !reliable {
        return false, FailedAfterCommit;
      }
      return true, Written;
    }
  }

  lemma {:induction false} OpsPrefix(ids: seq<int>, i: nat, records: map<int, Record>)
    requires i < |ids|
    ensures OpsForAll(ids[..i], records) + OpsFor(ids[i], records) <= OpsForAll(ids, records)
  {
    var n := |ids| - 1;
    if i < n {
      OpsPrefix(ids[..n], i, records);
      assert ids[..n][..i] == ids[..i] && ids[..n][i] == ids[i];
    }
  }

  // ---------- what the index holds for one id ----------

  /** The documents with the given id. */
  function DocsOf(docs: seq<Doc>, id: int): seq<Doc> {
    if docs == [] then []
    else (if docs[0].id == id then [docs[0]] else []) + DocsOf(docs[1..], id)
  }

  function OpId(op: WriterOp): int {
    match op
    case DeleteTerm(id) => id
    case AddDocument(doc) => doc.id
  }

  ghost predicate Touches(ops: seq<WriterOp>, id: int) {
    exists i :: 0 <= i < |ops| && OpId(ops[i]) == id
  }

  lemma {:induction false} DocsOfWithout(docs: seq<Doc>, j: int, id: int)
    ensures DocsOf(Without(docs, j), id) == if id == j then [] else DocsOf(docs, id)
  {
    if docs != [] {
      DocsOfWithout(docs[1..], j, id);
      if docs[0].id != j {
        assert ([docs[0]] + Without(docs[1..], j))[1..] == Without(docs[1..], j);
      }
    }
  }

  lemma {:induction false} DocsOfSnoc(docs: seq<Doc>, d: Doc, id: int)
    ensures DocsOf(docs + [d], id) == DocsOf(docs, id) + if d.id == id then [d] else []
  {
    if docs != [] {
      assert (docs + [d])[1..] == docs[1..] + [d];
      DocsOfSnoc(docs[1..], d, id);
    }
  }

  /** What one operation does to the documents of one id. */
  lemma {:induction false} DocsOfOp(docs: seq<Doc>, op: WriterOp, id: int)
    ensures DocsOf(ApplyOp(docs, op), id)
            == if OpId(op) != id then DocsOf(docs, id)
               else if op.DeleteTerm? then [] else DocsOf(docs, id) + [op.doc]
  {
    match op {
      case DeleteTerm(j) => DocsOfWithout(docs, j, id);
      case AddDocument(d) => DocsOfSnoc(docs, d, id);
    }
  }

  lemma {:induction false} UntouchedStays(docs: seq<Doc>, ops: seq<WriterOp>, id: int)
    requires !Touches(ops, id)
    ensures DocsOf(ApplyAll(docs, ops), id) == DocsOf(docs, id)
    decreases |ops|
  {
    if ops != [] {
      var n := |ops| - 1;
      assert OpId(ops[n]) != id;
      assert !Touches(ops[..n], id) by {
        forall i | 0 <= i < n
          ensures OpId(ops[..n][i]) != id
        {
          assert OpId(ops[i]) != id;
        }
      }
      UntouchedStays(docs, ops[..n], id);
      DocsOfOp(ApplyAll(docs, ops[..n]), ops[n], id);
    }
  }

  lemma {:induction false} ApplySnoc(docs: seq<Doc>, ops: seq<WriterOp>, op: WriterOp)
    ensures ApplyAll(docs, ops + [op]) == ApplyOp(ApplyAll(docs, ops), op)
  {
  }

  lemma {:induction false} ApplyOpsFor(docs: seq<Doc>, before: seq<WriterOp>, j: int, records: map<int, Record>,
                                       id: int)
    ensures DocsOf(ApplyAll(docs, before + OpsFor(j, records)), id)
            == if j != id then DocsOf(ApplyAll(docs, before), id)
               else if id in records then [Doc(id, records[id])] else []
  {
    var deleted := before + [DeleteTerm(j)];
    ApplySnoc(docs, before, DeleteTerm(j));
    DocsOfOp(ApplyAll(docs, before), DeleteTerm(j), id);
    if j in records {
      assert before + OpsFor(j, records) == deleted + [AddDocument(Doc(j, records[j]))];
      ApplySnoc(docs, deleted, AddDocument(Doc(j, records[j])));
      DocsOfOp(ApplyAll(docs, deleted), AddDocument(Doc(j, records[j])), id);
    } else {
      assert before + OpsFor(j, records) == deleted;
    }
  }

  /** After a group is written on top of anything that was still buffered, the index holds for each of
      its ids exactly the fetched record, or nothing if there was none. */
  lemma {:induction false} GroupIsWritten(docs: seq<Doc>, before: seq<WriterOp>, ids: seq<int>, records: map<int,
                                          Record>, id: int)
    requires id in ids
    ensures DocsOf(ApplyAll(docs, before + OpsForAll(ids, records)), id)
            == if id in records then [Doc(id, records[id])] else []
    decreases |ids|
  {
    var n := |ids| - 1;
    var init := before + OpsForAll(ids[..n], records);
    assert OpsForAll(ids, records) == OpsForAll(ids[..n], records) + OpsFor(ids[n], records);
    assert before + OpsForAll(ids, records) == init + OpsFor(ids[n], records);
    ApplyOpsFor(docs, init, ids[n], records, id);
    if ids[n] != id {
      assert ids == ids[..n] + [ids[n]];
      GroupIsWritten(docs, before, ids[..n], records, id);
    }
  }

  lemma {:induction false} OpsTouchOnly(ids: seq<int>, records: map<int, Record>, i: int)
    requires 0 <= i < |OpsForAll(ids, records)|
    ensures OpId(OpsForAll(ids, records)[i]) in ids
    decreases |ids|
  {
    var n := |ids| - 1;
    if i < |OpsForAll(ids[..n], records)| {
      OpsTouchOnly(ids[..n], records, i);
    }
  }

  // ---------- never two documents for one id ----------

  ghost predicate Unique(docs: seq<Doc>) {
    forall id :: |DocsOf(docs, id)| <= 1
  }

  /** Every add comes right after the delete of the same id. */
  ghost predicate Paired(ops: seq<WriterOp>) {
    forall i :: 0 <= i < |ops| && ops[i].AddDocument? ==> i > 0 && ops[i - 1] == DeleteTerm(ops[i].doc.id)
  }

  lemma {:induction false} PairedKeepsUnique(docs: seq<Doc>, ops: seq<WriterOp>)
    requires Unique(docs) && Paired(ops)
    ensures Unique(ApplyAll(docs, ops))
    decreases |ops|
  {
    if ops != [] {
      var n := |ops| - 1;
      var init := ApplyAll(docs, ops[..n]);
      PairedKeepsUnique(docs, ops[..n]);
      forall id
        ensures |DocsOf(ApplyAll(docs, ops), id)| <= 1
      {
        assert |DocsOf(init, id)| <= 1;
        DocsOfOp(init, ops[n], id);
        if ops[n].AddDocument? && ops[n].doc.id == id {
          assert ops[..n][..n - 1] == ops[..n - 1];
          DocsOfOp(ApplyAll(docs, ops[..n - 1]), ops[n - 1], id);
        }
      }
    }
  }

  lemma {:induction false} OpsForAllPaired(ids: seq<int>, records: map<int, Record>)
    ensures Paired(OpsForAll(ids, records))
    decreases |ids|
  {
    if ids != [] {
      OpsForAllPaired(ids[..|ids| - 1], records);
    }
  }

  lemma {:induction false} PairedAppend(a: seq<WriterOp>, b: seq<WriterOp>)
    requires Paired(a) && Paired(b)
    ensures Paired(a + b)
  {
  }
}
