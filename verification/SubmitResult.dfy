/** What is reported for one submitted object, and the totals of a response
    (server/src/tweet_submit/result.rs). */
module SubmitResult {
  import opened Prelude

  datatype OperationStatus = Accepted | Skipped | Failed

  datatype ObjectStatus = Accepted | Skipped | Partial | Failed

  datatype OperationName =
    | Input
    | TwitterUserWrite | UserSnapshotWrite | UserStatsWrite
    | MediaWrite | MediaResourceWrite | MediaTransferEnqueue
    | TweetAuthorWrite | TweetPlaceWrite | TweetWrite | TweetEditWrite | TweetPolicyWrite | TweetCommunityNoteWrite
    | TweetStatsWrite | TweetMediaRef | TweetMentionRef | TweetHashtagRef | TweetSymbolRef
    | DictPreload

  datatype Operation = Operation(name: OperationName, status: OperationStatus, reason: string)

  /** The record of one object while its batch is being worked on. */
  datatype ObjectResult = ObjectResult(id: string, operations: seq<Operation>, fatalError: Option<string>) {
    function Add(op: Operation): ObjectResult {
      this.(operations := operations + [op])
    }

    predicate Has(status: OperationStatus) {
      exists i :: 0 <= i < |operations| && operations[i].status == status
    }

    function Finish(): ObjectStatus {
      if Has(OperationStatus.Failed) && (Has(OperationStatus.Accepted) || Has(OperationStatus.Skipped)) then Partial
      else if Has(OperationStatus.Failed) || fatalError.Some? then ObjectStatus.Failed
      else if Has(OperationStatus.Accepted) then ObjectStatus.Accepted
      else ObjectStatus.Skipped
    }

    /** What the report says under one name, in order. */
    function Said(name: OperationName): seq<Operation> {
      Named(operations, name)
    }
  }

  function Named(operations: seq<Operation>, name: OperationName): seq<Operation> {
    if operations == [] then []
    else
      var n := |operations| - 1;
      Named(operations[..n], name) + if operations[n].name == name then [operations[n]] else []
  }

  /** What a report says that it did not say before. */
  ghost function News(before: ObjectResult, after: ObjectResult): seq<Operation> {
    if |before.operations| <= |after.operations| then after.operations[|before.operations|..] else []
  }

  function NewResult(id: string): ObjectResult {
    ObjectResult(id, [], None)
  }

  lemma {:induction false} SaidAdd(r: ObjectResult, op: Operation, name: OperationName)
    ensures r.Add(op).Said(name) == r.Said(name) + if op.name == name then [op] else []
  {
  }

  lemma {:induction false} NamedIsListed(operations: seq<Operation>, name: OperationName, op: Operation)
    ensures op in Named(operations, name) <==> op in operations && op.name == name
  {
    if operations != [] {
      var n := |operations| - 1;
      NamedIsListed(operations[..n], name, op);
      assert operations == operations[..n] + [operations[n]];
    }
  }

  // ---------- how an object ends ----------

  /** Some operation of the report, under whatever name, has this status. */
  ghost predicate SaysStatus(r: ObjectResult, status: OperationStatus) {
    exists name, op :: op in r.Said(name) && op.status == status
  }

  /** An object without a fatal error and without a failure ends as accepted if anything was accepted, as
      skipped otherwise. With a failure it ends as partial if anything else was said, and as failed if not. */
  ghost predicate EndsByWhatIsSaid(r: ObjectResult) {
    && (r.Finish() == ObjectStatus.Accepted
        <==> r.fatalError.None? && SaysStatus(r, OperationStatus.Accepted) && !SaysStatus(r, OperationStatus.Failed))
    && (r.Finish() == ObjectStatus.Skipped
        <==> r.fatalError.None? && !SaysStatus(r, OperationStatus.Accepted) && !SaysStatus(r, OperationStatus.Failed))
    && (r.Finish() == Partial
        <==> SaysStatus(r, OperationStatus.Failed)
             && (SaysStatus(r, OperationStatus.Accepted) || SaysStatus(r, OperationStatus.Skipped)))
  }

  lemma {:induction false} SaysWhatItHas(r: ObjectResult, status: OperationStatus)
    ensures SaysStatus(r, status) <==> r.Has(status)
  {
    if r.Has(status) {
      var i :| 0 <= i < |r.operations| && r.operations[i].status == status;
      NamedIsListed(r.operations, r.operations[i].name, r.operations[i]);
      assert r.operations[i] in r.Said(r.operations[i].name);
    }
    if SaysStatus(r, status) {
      var name, op :| op in r.Said(name) && op.status == status;
      NamedIsListed(r.operations, name, op);
    }
  }

  lemma {:induction false} FinishMeans(r: ObjectResult)
    ensures EndsByWhatIsSaid(r)
  {
    SaysWhatItHas(r, OperationStatus.Accepted);
    SaysWhatItHas(r, OperationStatus.Skipped);
    SaysWhatItHas(r, OperationStatus.Failed);
  }

  /** An object whose operations are all accepted, and that has some, ends as accepted. */
  lemma {:induction false} AllAcceptedEndsAccepted(r: ObjectResult, name: OperationName)
    requires r.fatalError.None? && r.Said(name) != []
    requires forall m, op :: op in r.Said(m) ==> op.status == OperationStatus.Accepted
    ensures r.Finish() == ObjectStatus.Accepted
  {
    var op := r.Said(name)[0];
    assert op in r.Said(name) && op.status == OperationStatus.Accepted;
    assert SaysStatus(r, OperationStatus.Accepted);
    FinishMeans(r);
  }

  // ---------- totals ----------

  function CountStatus(results: seq<ObjectResult>, status: ObjectStatus): nat {
    if results == [] then 0
    else
      var n := |results| - 1;
      CountStatus(results[..n], status) + if results[n].Finish() == status then 1 else 0
  }

  datatype Summary = Summary(total: nat, accepted: nat, skipped: nat, partial: nat, failed: nat)

  /** Each total counts the objects that ended that way, and the four kinds make up the whole. */
  method SummarizeResults(users: seq<ObjectResult>, tweets: seq<ObjectResult>, media: seq<ObjectResult>)
    returns (s: Summary)
    ensures s.total == |users| + |tweets| + |media| == s.accepted + s.skipped + s.partial + s.failed
    ensures var all := users + tweets + media;
            && s.accepted == CountStatus(all, ObjectStatus.Accepted)
            && s.skipped == CountStatus(all, ObjectStatus.Skipped)
            && s.partial == CountStatus(all, Partial)
            && s.failed == CountStatus(all, ObjectStatus.Failed)
  {
    s := Summary(0, 0, 0, 0, 0);
    var all := users + tweets + media;
    for i := 0 to |all|
      invariant s.total == i == s.accepted + s.skipped + s.partial + s.failed
      invariant s.accepted == CountStatus(all[..i], ObjectStatus.Accepted)
      invariant s.skipped == CountStatus(all[..i], ObjectStatus.Skipped)
      invariant s.partial == CountStatus(all[..i], Partial)
      invariant s.failed == CountStatus(all[..i], ObjectStatus.Failed)
    {
      assert all[..i + 1][..i] == all[..i];
      s := s.(total := s.total + 1);
      match all[i].Finish() {
        case Accepted => s := s.(accepted := s.accepted + 1);
        case Skipped => s := s.(skipped := s.skipped + 1);
        case Partial => s := s.(partial := s.partial + 1);
        case Failed => s := s.(failed := s.failed + 1);
      }
    }
    assert all[..|all|] == all;
  }
}
