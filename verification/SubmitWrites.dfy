/** The other writes of a prepared batch, which report to every object on their list by its own record, and
    the queueing of media transfers (server/src/tweet_submit/execute/users.rs, lines 86 to 156;
    execute/tweets.rs, lines 47 to 199; execute/media.rs, lines 3 to 154; execute/relations.rs). */
module SubmitWrites {
  import opened Prelude
  import opened SubmitResult
  import opened SubmitPrepare
  import opened SubmitExecute

  datatype ConditionalWrite =
    | Inserted | SkippedDuplicate | SkippedUnchanged | SkippedInterval | SkippedMissingParent

  datatype RelationSync =
    | Replaced | ReplacedFiltered | RelationUnchanged | RelationUnchangedFiltered | MissingTweet

  datatype RelationSyncs = RelationSyncs(media: RelationSync, mention: RelationSync, hashtag: RelationSync,
                                         symbol: RelationSync)

  datatype EnqueueStatus = Enqueued | AlreadyQueued | MissingSourceRecord

  /** What the statements answer: a status for some of the rows, or a failure. */
  type Statuses = Result<map<RowKey, ConditionalWrite>, string>
  type RelationStatuses = Result<map<RowKey, RelationSyncs>, string>
  type EnqueueStatuses = Result<map<RowKey, EnqueueStatus>, string>

  function RecordKey(record: Record): RowKey {
    RecordRow(record)
  }

  function Values(items: seq<Indexed<Record>>): seq<Record> {
    seq(|items|, i requires 0 <= i < |items| => items[i].value)
  }

  // ---------- what each write reports ----------

  function Accepts(name: OperationName, reason: string): Operation {
    Operation(name, OperationStatus.Accepted, reason)
  }

  function Skips(name: OperationName, reason: string): Operation {
    Operation(name, OperationStatus.Skipped, reason)
  }

  function Fails(name: OperationName, reason: string): Operation {
    Operation(name, OperationStatus.Failed, reason)
  }

  function ConditionalOp(name: OperationName, write: ConditionalWrite): (op: Operation)
    ensures op.name == name
  {
    match write
    case Inserted => Accepts(name, "inserted")
    case SkippedDuplicate => Skips(name, "duplicate_timestamp")
    case SkippedUnchanged => Skips(name, "unchanged")
    case SkippedInterval => Skips(name, "stats_interval_not_reached")
    case SkippedMissingParent => Skips(name, "missing_parent")
  }

  function StatusOp(name: OperationName, answer: Statuses): RowKey -> Operation {
    (k: RowKey) =>
      if answer.Err? then Fails(name, answer.error)
      else if k in answer.value then ConditionalOp(name, answer.value[k])
      else Fails(name, "missing batch write status")
  }

  function ChangedOp(name: OperationName, answer: Outcome): RowKey -> Operation {
    (k: RowKey) =>
      if answer.Err? then Fails(name, answer.error)
      else if k in answer.value then Accepts(name, "inserted_or_filled")
      else Skips(name, "unchanged_or_existing")
  }

  function SyncOp(name: OperationName, sync: RelationSync): (op: Operation)
    ensures op.name == name
  {
    match sync
    case Replaced => Accepts(name, "replaced")
    case ReplacedFiltered => Accepts(name, "replaced_with_missing_media_skipped")
    case RelationUnchanged => Skips(name, "unchanged")
    case RelationUnchangedFiltered => Skips(name, "unchanged_with_missing_media_skipped")
    case MissingTweet => Skips(name, "missing_tweet")
  }

  // ---------- what is said of a row, by the answer of its statement ----------

  /** The status a statement gives for the row with key `k`, or why there is none. */
  ghost function Lookup<V>(answer: Result<map<RowKey, V>, string>, k: RowKey, missing: string): Result<V, string> {
    if answer.Err? then Err(answer.error) else if k in answer.value then Ok(answer.value[k]) else Err(missing)
  }

  /** A conditional write: accepted exactly if the row was inserted, failed exactly if the statement has failed
      or has no status for the row, and skipped otherwise. */
  ghost predicate WriteSaid(op: Operation, name: OperationName, status: Result<ConditionalWrite, string>) {
    && op.name == name
    && (op.status == OperationStatus.Accepted <==> status == Ok(Inserted))
    && (op.status == OperationStatus.Failed <==> status.Err?)
    && op.reason == if status.Err? then status.error else WriteReason(status.value)
  }

  ghost predicate WriteTold(said: seq<Operation>, name: OperationName, answer: Statuses, k: RowKey) {
    |said| == 1 && WriteSaid(said[0], name, Lookup(answer, k, "missing batch write status"))
  }

  ghost function WriteReason(write: ConditionalWrite): string {
    match write
    case Inserted => "inserted"
    case SkippedDuplicate => "duplicate_timestamp"
    case SkippedUnchanged => "unchanged"
    case SkippedInterval => "stats_interval_not_reached"
    case SkippedMissingParent => "missing_parent"
  }

  /** One relation of a tweet: accepted exactly if it was replaced, with or without some media left out, and
      failed exactly if there is no status for the tweet. */
  ghost predicate SyncSaid(op: Operation, name: OperationName, status: Result<RelationSync, string>) {
    && op.name == name
    && (op.status == OperationStatus.Accepted <==> status == Ok(Replaced) || status == Ok(ReplacedFiltered))
    && (op.status == OperationStatus.Failed <==> status.Err?)
    && op.reason == if status.Err? then status.error else SyncReason(status.value)
  }

  ghost function SyncReason(sync: RelationSync): string {
    match sync
    case Replaced => "replaced"
    case ReplacedFiltered => "replaced_with_missing_media_skipped"
    case RelationUnchanged => "unchanged"
    case RelationUnchangedFiltered => "unchanged_with_missing_media_skipped"
    case MissingTweet => "missing_tweet"
  }

  /** The status of one of the relations. */
  ghost function SyncOf(name: OperationName, answer: RelationStatuses, k: RowKey): Result<RelationSync, string> {
    match Lookup(answer, k, "missing relation sync status")
    case Err(error) => Err(error)
    case Ok(syncs) =>
      match name
      case TweetMediaRef => Ok(syncs.media)
      case TweetMentionRef => Ok(syncs.mention)
      case TweetHashtagRef => Ok(syncs.hashtag)
      case TweetSymbolRef => Ok(syncs.symbol)
      case _ => Err("")
  }

  /** The transfer of a resource with key `k`. A resource that was neither written nor there unchanged is told
      nothing. The others: accepted exactly if the queue has taken it; failed exactly if transfers are on and
      the media object is missing, or was asked for and the queue has failed, has no status for it or does
      not know its record; and skipped otherwise. */
  ghost predicate TransferTold(said: seq<Operation>, payload: Option<Record>, resource: Record, answer: Statuses,
                               queue: Queue, queued: EnqueueStatuses) {
    var written := Lookup(answer, RecordRow(resource), "");
    if written != Ok(Inserted) && written != Ok(SkippedUnchanged) then said == []
    else
      var asked := queue.active && payload.Some? && queue.hasSource(payload.value, resource);
      var status := Lookup(queued, RecordRow(resource), "missing_enqueue_status");
      && |said| == 1 && said[0].name == MediaTransferEnqueue
      && (said[0].status == OperationStatus.Accepted <==> asked && status == Ok(Enqueued))
      && (said[0].status == OperationStatus.Failed
          <==> (queue.active && payload.None?) || (asked && (status.Err? || status == Ok(MissingSourceRecord))))
      && said[0].reason
         == if !queue.active then "transfer_disabled"
            else if payload.None? then "missing_media_payload"
            else if !asked then "source_unavailable"
            else if status.Err? then status.error
            else if status.value == Enqueued then "enqueued"
            else if status.value == AlreadyQueued then "already_enqueued"
            else "missing_source_record"
  }

  lemma {:induction false} StatusIsTold(name: OperationName, answer: Statuses, k: RowKey)
    ensures WriteTold([StatusOp(name, answer)(k)], name, answer, k)
  {
    ConditionalIsSaid(name, answer, k);
  }

  lemma {:induction false} ConditionalIsSaid(name: OperationName, answer: Statuses, k: RowKey)
    ensures WriteSaid(StatusOp(name, answer)(k), name, Lookup(answer, k, "missing batch write status"))
  {
    if answer.Ok? && k in answer.value {
      ConditionalMeans(name, answer.value[k]);
      assert Lookup(answer, k, "missing batch write status") == Ok(answer.value[k]);
    }
  }

  lemma {:induction false} ConditionalMeans(name: OperationName, write: ConditionalWrite)
    ensures WriteSaid(ConditionalOp(name, write), name, Ok(write))
  {
    match write
    case Inserted =>
    case SkippedDuplicate =>
    case SkippedUnchanged =>
    case SkippedInterval =>
    case SkippedMissingParent =>
  }

  lemma {:induction false} ChangeIsTold(name: OperationName, answer: Outcome, k: RowKey)
    ensures ChangedTold([ChangedOp(name, answer)(k)], name, answer, k, "inserted_or_filled", "unchanged_or_existing")
  {
  }

  // ---------- one operation for every item of a list ----------

  /** The first `n` items have got one operation each, everything else is as before. */
  ghost predicate ReportedTo(before: seq<ObjectResult>, after: seq<ObjectResult>, items: seq<Indexed<Record>>, n: nat,
                             op: RowKey -> Operation)
    requires OwnIndices(items, |before|) && n <= |items|
  {
    && |after| == |before|
    && (forall m :: 0 <= m < n ==>
          after[items[m].index] == before[items[m].index].Add(op(RecordKey(items[m].value))))
    && (forall k :: 0 <= k < |before| && (forall m :: 0 <= m < n ==> items[m].index != k) ==> after[k] == before[k])
  }

  lemma {:induction false} ReportNext(before: seq<ObjectResult>, after: seq<ObjectResult>,
                                      items: seq<Indexed<Record>>, n: nat, op: RowKey -> Operation)
    requires OwnIndices(items, |before|) && n < |items| && ReportedTo(before, after, items, n, op)
    ensures var i := items[n].index;
            ReportedTo(before, after[i := after[i].Add(op(RecordKey(items[n].value)))], items, n + 1, op)
  {
    var i := items[n].index;
    assert after[i] == before[i];
    var next := after[i := after[i].Add(op(RecordKey(items[n].value)))];
    forall k | 0 <= k < |before| && (forall m :: 0 <= m < n + 1 ==> items[m].index != k)
      ensures next[k] == before[k]
    {
      assert items[n].index != k;
      assert forall m :: 0 <= m < n ==> items[m].index != k;
    }
  }

  /** Every item is told of its own row. */
  ghost predicate AllWritesTold(before: seq<ObjectResult>, after: seq<ObjectResult>, items: seq<Indexed<Record>>,
                                name: OperationName, answer: Statuses)
    requires OwnIndices(items, |before|) && |after| == |before|
  {
    forall m :: 0 <= m < |items| ==>
      WriteTold(News(before[items[m].index], after[items[m].index]), name, answer, RecordRow(items[m].value))
  }

  lemma {:induction false} StatusesAreTold(before: seq<ObjectResult>, after: seq<ObjectResult>,
                                           items: seq<Indexed<Record>>, name: OperationName, answer: Statuses)
    requires OwnIndices(items, |before|)
    requires AllReported(before, after, items, RecordKey, StatusOp(name, answer))
    ensures AllWritesTold(before, after, items, name, answer)
  {
    forall m | 0 <= m < |items|
      ensures WriteTold(News(before[items[m].index], after[items[m].index]), name, answer, RecordRow(items[m].value))
    {
      var k := RecordRow(items[m].value);
      assert News(before[items[m].index], after[items[m].index]) == [StatusOp(name, answer)(k)];
      StatusIsTold(name, answer, k);
    }
  }

  /** Writes rows whose statement answers with a status for each: every object on the list is told its own. */
  method WriteWithStatuses(name: OperationName, items: seq<Indexed<Record>>, before: seq<ObjectResult>,
                           send: seq<Record> -> Statuses) returns (results: seq<ObjectResult>, answer: Statuses)
    requires OwnIndices(items, |before|)
    ensures answer == if items == [] then Ok(map[]) else send(Values(items))
    ensures AllReported(before, results, items, RecordKey, StatusOp(name, send(Values(items))))
    ensures AllWritesTold(before, results, items, name, send(Values(items)))
  {
    results := before;
    if items == [] {
      return before, Ok(map[]);
    }
    answer := send(Values(items));
    for i := 0 to |items|
      invariant ReportedTo(before, results, items, i, StatusOp(name, answer))
    {
      var k, op := RecordKey(items[i].value), Fails(name, "");
      match answer {
        case Ok(statuses) =>
          op := if k in statuses then ConditionalOp(name, statuses[k]) else Fails(name, "missing batch write status");
        case Err(error) =>
          op := Fails(name, error);
      }
      ReportNext(before, results, items, i, StatusOp(name, answer));
      results := results[items[i].index := results[items[i].index].Add(op)];
    }
    StatusesAreTold(before, results, items, name, answer);
  }

  /** Writes rows whose statement answers with those it has changed. */
  method WriteChanged(name: OperationName, items: seq<Indexed<Record>>, before: seq<ObjectResult>,
                      send: seq<Record> -> Outcome) returns (results: seq<ObjectResult>)
    requires OwnIndices(items, |before|)
    ensures AllReported(before, results, items, RecordKey, ChangedOp(name, send(Values(items))))
    ensures AllChangedTold(before, results, items, RecordKey, name, send(Values(items)), "inserted_or_filled",
                           "unchanged_or_existing")
  {
    results := before;
    if items == [] {
      return before;
    }
    var answer := send(Values(items));
    for i := 0 to |items|
      invariant ReportedTo(before, results, items, i, ChangedOp(name, answer))
    {
      var k, op := RecordKey(items[i].value), Fails(name, "");
      match answer {
        case Ok(changed) =>
          op := if k in changed then Accepts(name, "inserted_or_filled") else Skips(name, "unchanged_or_existing");
        case Err(error) =>
          op := Fails(name, error);
      }
      ReportNext(before, results, items, i, ChangedOp(name, answer));
      results := results[items[i].index := results[items[i].index].Add(op)];
    }
    forall k
      ensures ChangedTold([ChangedOp(name, answer)(k)], name, answer, k, "inserted_or_filled", "unchanged_or_existing")
    {
      ChangeIsTold(name, answer, k);
    }
    ReportedIsTold(before, results, items, RecordKey, ChangedOp(name, answer), name, answer, "inserted_or_filled",
                   "unchanged_or_existing");
  }

  // ---------- relations ----------

  /** The operations on one relation of a tweet, by the answer of the statement. */
  function RelationOp(name: OperationName, answer: RelationStatuses, k: RowKey): (op: Operation)
    ensures op.name == name
  {
    if answer.Err? then Fails(name, answer.error)
    else if k !in answer.value then Fails(name, "missing relation sync status")
    else
      var s := answer.value[k];
      SyncOp(name, if name == TweetMediaRef then s.media else if name == TweetMentionRef then s.mention
                   else if name == TweetHashtagRef then s.hashtag else s.symbol)
  }

  function AddRelations(r: ObjectResult, answer: RelationStatuses, k: RowKey): ObjectResult {
    r.Add(RelationOp(TweetMediaRef, answer, k)).Add(RelationOp(TweetMentionRef, answer, k))
     .Add(RelationOp(TweetHashtagRef, answer, k)).Add(RelationOp(TweetSymbolRef, answer, k))
  }

  /** The four operations, in this order. */
  ghost predicate RelationsTold(said: seq<Operation>, answer: RelationStatuses, k: RowKey) {
    && |said| == 4
    && SyncSaid(said[0], TweetMediaRef, SyncOf(TweetMediaRef, answer, k))
    && SyncSaid(said[1], TweetMentionRef, SyncOf(TweetMentionRef, answer, k))
    && SyncSaid(said[2], TweetHashtagRef, SyncOf(TweetHashtagRef, answer, k))
    && SyncSaid(said[3], TweetSymbolRef, SyncOf(TweetSymbolRef, answer, k))
  }

  ghost predicate AllRelationsTold(before: seq<ObjectResult>, after: seq<ObjectResult>, items: seq<Indexed<Record>>,
                                   answer: RelationStatuses)
    requires OwnIndices(items, |before|) && |after| == |before|
  {
    forall m :: 0 <= m < |items| ==>
      RelationsTold(News(before[items[m].index], after[items[m].index]), answer, RecordRow(items[m].value))
  }

  lemma {:induction false} SyncIsSaid(name: OperationName, answer: RelationStatuses, k: RowKey)
    requires name in {TweetMediaRef, TweetMentionRef, TweetHashtagRef, TweetSymbolRef}
    ensures SyncSaid(RelationOp(name, answer, k), name, SyncOf(name, answer, k))
  {
  }

  ghost function RelationOps(answer: RelationStatuses, k: RowKey): seq<Operation> {
    [RelationOp(TweetMediaRef, answer, k), RelationOp(TweetMentionRef, answer, k),
     RelationOp(TweetHashtagRef, answer, k), RelationOp(TweetSymbolRef, answer, k)]
  }

  lemma {:induction false} RelationIsTold(r: ObjectResult, answer: RelationStatuses, k: RowKey)
    ensures News(r, AddRelations(r, answer, k)) == RelationOps(answer, k)
    ensures RelationsTold(RelationOps(answer, k), answer, k)
  {
    SyncIsSaid(TweetMediaRef, answer, k);
    SyncIsSaid(TweetMentionRef, answer, k);
    SyncIsSaid(TweetHashtagRef, answer, k);
    SyncIsSaid(TweetSymbolRef, answer, k);
  }

  lemma {:induction false} RelationsAreTold(before: seq<ObjectResult>, after: seq<ObjectResult>,
                                            items: seq<Indexed<Record>>, answer: RelationStatuses)
    requires OwnIndices(items, |before|) && RelationsTo(before, after, items, |items|, answer)
    ensures AllRelationsTold(before, after, items, answer)
  {
    forall m | 0 <= m < |items|
      ensures RelationsTold(News(before[items[m].index], after[items[m].index]), answer, RecordRow(items[m].value))
    {
      RelationIsTold(before[items[m].index], answer, RecordRow(items[m].value));
    }
  }

  /** The first `n` items have got the four operations, everything else is as before. */
  ghost predicate RelationsTo(before: seq<ObjectResult>, after: seq<ObjectResult>, items: seq<Indexed<Record>>,
                              n: nat, answer: RelationStatuses)
    requires OwnIndices(items, |before|) && n <= |items|
  {
    && |after| == |before|
    && (forall m :: 0 <= m < n ==>
          after[items[m].index] == AddRelations(before[items[m].index], answer, RecordKey(items[m].value)))
    && (forall k :: 0 <= k < |before| && (forall m :: 0 <= m < n ==> items[m].index != k) ==> after[k] == before[k])
  }

  lemma {:induction false} RelationsNext(before: seq<ObjectResult>, after: seq<ObjectResult>,
                                         items: seq<Indexed<Record>>, n: nat, answer: RelationStatuses)
    requires OwnIndices(items, |before|) && n < |items| && RelationsTo(before, after, items, n, answer)
    ensures var i := items[n].index;
            RelationsTo(before, after[i := AddRelations(after[i], answer, RecordKey(items[n].value))], items, n + 1,
                        answer)
  {
    var i := items[n].index;
    assert after[i] == before[i];
    var next := after[i := AddRelations(after[i], answer, RecordKey(items[n].value))];
    forall k | 0 <= k < |before| && (forall m :: 0 <= m < n + 1 ==> items[m].index != k)
      ensures next[k] == before[k]
    {
      assert items[n].index != k;
      assert forall m :: 0 <= m < n ==> items[m].index != k;
    }
  }

  /** Replaces the relations of the listed tweets: each is told of its media, mentions, hashtags and symbols. */
  method ReplaceRelations(items: seq<Indexed<Record>>, before: seq<ObjectResult>,
                          sync: seq<Record> -> RelationStatuses)
    returns (results: seq<ObjectResult>)
    requires OwnIndices(items, |before|)
    ensures RelationsTo(before, results, items, |items|, sync(Values(items)))
    ensures AllRelationsTold(before, results, items, sync(Values(items)))
  {
    results := before;
    if items == [] {
      return before;
    }
    var answer := sync(Values(items));
    for i := 0 to |items|
      invariant RelationsTo(before, results, items, i, answer)
    {
      var k := RecordKey(items[i].value);
      RelationsNext(before, results, items, i, answer);
      results := results[items[i].index := AddRelations(results[items[i].index], answer, k)];
    }
    RelationsAreTold(before, results, items, answer);
  }

  // ---------- transfers ----------

  /** Whether transfers are on, whether a media object has a source for a resource, and the queue. */
  datatype Queue = Queue(active: bool, hasSource: (Record, Record) -> bool, enqueue: seq<Record> -> EnqueueStatuses)

  /** A resource that was written, or was there unchanged, is queued for transfer. */
  predicate ShouldEnqueue(answer: Statuses, record: Record) {
    && answer.Ok? && RecordKey(record) in answer.value
    && (answer.value[RecordKey(record)] == Inserted || answer.value[RecordKey(record)] == SkippedUnchanged)
  }

  /** What is told to a resource before the queue is asked, if anything. */
  function EarlyOp(payload: Option<Record>, resource: Record, queue: Queue): Option<Operation> {
    if !queue.active then Some(Skips(MediaTransferEnqueue, "transfer_disabled"))
    else if payload.None? then Some(Fails(MediaTransferEnqueue, "missing_media_payload"))
    else if !queue.hasSource(payload.value, resource) then Some(Skips(MediaTransferEnqueue, "source_unavailable"))
    else None
  }

  function EnqueueOp(answer: EnqueueStatuses, k: RowKey): Operation {
    if answer.Err? then Fails(MediaTransferEnqueue, answer.error)
    else if k !in answer.value then Fails(MediaTransferEnqueue, "missing_enqueue_status")
    else
      match answer.value[k]
      case Enqueued => Accepts(MediaTransferEnqueue, "enqueued")
      case AlreadyQueued => Skips(MediaTransferEnqueue, "already_enqueued")
      case MissingSourceRecord => Fails(MediaTransferEnqueue, "missing_source_record")
  }

  /** What a resource is told of its transfer, if anything. */
  function TransferOp(payload: Option<Record>, resource: Record, answer: Statuses, queue: Queue,
                      queued: EnqueueStatuses): Option<Operation> {
    if !ShouldEnqueue(answer, resource) then None
    else if EarlyOp(payload, resource, queue).Some? then EarlyOp(payload, resource, queue)
    else Some(EnqueueOp(queued, RecordKey(resource)))
  }

  function Optional(op: Option<Operation>): seq<Operation> {
    if op.Some? then [op.value] else []
  }

  lemma {:induction false} TransferIsTold(payload: Option<Record>, resource: Record, answer: Statuses, queue: Queue,
                                          queued: EnqueueStatuses)
    ensures TransferTold(Optional(TransferOp(payload, resource, answer, queue, queued)), payload, resource, answer,
                         queue, queued)
  {
  }

  /** The media object a resource was submitted with. */
  function PayloadAt(media: map<nat, Record>, i: nat): Option<Record> {
    if i in media then Some(media[i]) else None
  }

  /** The media objects by the index they were submitted at. */
  ghost predicate ByIndex(media: map<nat, Record>, items: seq<Indexed<Record>>) {
    && (forall m :: 0 <= m < |items| ==> items[m].index in media && media[items[m].index] == items[m].value)
    && (forall i :: i in media ==> exists m :: 0 <= m < |items| && items[m].index == i)
  }

  /** What is added to the reports of the first `n` items; everything else is as before. */
  ghost predicate AddedTo(before: seq<ObjectResult>, after: seq<ObjectResult>, items: seq<Indexed<Record>>, n: nat,
                          op: Indexed<Record> -> Option<Operation>)
    requires OwnIndices(items, |before|) && n <= |items|
  {
    && |after| == |before|
    && (forall m :: 0 <= m < n ==> after[items[m].index] == AddOp(before[items[m].index], op(items[m])))
    && (forall k :: 0 <= k < |before| && (forall m :: 0 <= m < n ==> items[m].index != k) ==> after[k] == before[k])
  }

  function AddOp(r: ObjectResult, op: Option<Operation>): ObjectResult {
    if op.Some? then r.Add(op.value) else r
  }

  lemma {:induction false} AddNext(before: seq<ObjectResult>, after: seq<ObjectResult>, items: seq<Indexed<Record>>,
                                   n: nat, op: Indexed<Record> -> Option<Operation>)
    requires OwnIndices(items, |before|) && n < |items| && AddedTo(before, after, items, n, op)
    ensures var i := items[n].index;
            AddedTo(before, after[i := AddOp(after[i], op(items[n]))], items, n + 1, op)
  {
    var i := items[n].index;
    assert after[i] == before[i];
    var next := after[i := AddOp(after[i], op(items[n]))];
    forall k | 0 <= k < |before| && (forall m :: 0 <= m < n + 1 ==> items[m].index != k)
      ensures next[k] == before[k]
    {
      assert items[n].index != k;
      assert forall m :: 0 <= m < n ==> items[m].index != k;
    }
  }

  /** The resources for which the queue is asked: those that were written or were there unchanged, while
      transfers are on, and whose media object was converted and has a source for them. */
  ghost predicate IsAsked(item: Indexed<Record>, answer: Statuses, media: map<nat, Record>, queue: Queue) {
    && answer.Ok? && RecordRow(item.value) in answer.value
    && (answer.value[RecordRow(item.value)] == Inserted || answer.value[RecordRow(item.value)] == SkippedUnchanged)
    && queue.active && item.index in media && queue.hasSource(media[item.index], item.value)
  }

  /** The tasks among the first `n` resources, in order. */
  ghost function TasksOf(items: seq<Indexed<Record>>, n: nat, answer: Statuses, media: map<nat, Record>, queue: Queue):
      seq<Indexed<Record>>
    requires n <= |items|
  {
    if n == 0 then []
    else
      TasksOf(items, n - 1, answer, media, queue)
      + if IsAsked(items[n - 1], answer, media, queue) then [items[n - 1]] else []
  }

  /** The tasks are the first `n` resources for which the queue is asked, none twice. */
  ghost predicate TasksAre(tasks: seq<Indexed<Record>>, items: seq<Indexed<Record>>, n: nat, answer: Statuses,
                           media: map<nat, Record>, queue: Queue)
    requires n <= |items|
  {
    && (forall t :: t in tasks <==> t in items[..n] && IsAsked(t, answer, media, queue))
    && (forall i, j :: 0 <= i < j < |tasks| ==> tasks[i] != tasks[j])
  }

  lemma {:induction false} TasksNext(tasks: seq<Indexed<Record>>, items: seq<Indexed<Record>>, n: nat,
                                     answer: Statuses, media: map<nat, Record>, queue: Queue, bound: nat)
    requires OwnIndices(items, bound) && n < |items| && TasksAre(tasks, items, n, answer, media, queue)
    ensures TasksAre(if IsAsked(items[n], answer, media, queue) then tasks + [items[n]] else tasks, items, n + 1,
                     answer, media, queue)
  {
    assert items[..n + 1] == items[..n] + [items[n]];
    assert forall m :: 0 <= m < n ==> items[m].index != items[n].index;
  }

  lemma {:induction false} TasksOfAre(items: seq<Indexed<Record>>, n: nat, answer: Statuses, media: map<nat, Record>,
                                      queue: Queue, bound: nat)
    requires OwnIndices(items, bound) && n <= |items|
    ensures TasksAre(TasksOf(items, n, answer, media, queue), items, n, answer, media, queue)
  {
    if n > 0 {
      TasksOfAre(items, n - 1, answer, media, queue, bound);
      TasksNext(TasksOf(items, n - 1, answer, media, queue), items, n - 1, answer, media, queue, bound);
      assert TasksOf(items, n - 1, answer, media, queue) + [] == TasksOf(items, n - 1, answer, media, queue);
    }
  }

  lemma {:induction false} TasksOwnIndices(tasks: seq<Indexed<Record>>, items: seq<Indexed<Record>>,
                                           answer: Statuses, media: map<nat, Record>, queue: Queue, bound: nat)
    requires OwnIndices(items, bound) && TasksAre(tasks, items, |items|, answer, media, queue)
    ensures OwnIndices(tasks, bound)
  {
    forall i | 0 <= i < |tasks|
      ensures tasks[i] in items && tasks[i].index < bound
    {
      assert tasks[i] in tasks;
    }
  }

  /** What the resources are told before the queue is asked. */
  function EarlyOps(answer: Statuses, media: map<nat, Record>, queue: Queue): Indexed<Record> -> Option<Operation> {
    (item: Indexed<Record>) =>
      if ShouldEnqueue(answer, item.value) then EarlyOp(PayloadAt(media, item.index), item.value, queue) else None
  }

  /** Sorts the resources to be queued into those that are told why they are not, and the tasks. */
  method CollectTasks(items: seq<Indexed<Record>>, before: seq<ObjectResult>, answer: Statuses,
                      media: map<nat, Record>, queue: Queue)
    returns (results: seq<ObjectResult>, tasks: seq<Indexed<Record>>)
    requires OwnIndices(items, |before|)
    ensures AddedTo(before, results, items, |items|, EarlyOps(answer, media, queue))
    ensures tasks == TasksOf(items, |items|, answer, media, queue)
  {
    results, tasks := before, [];
    for i := 0 to |items|
      invariant AddedTo(before, results, items, i, EarlyOps(answer, media, queue))
      invariant tasks == TasksOf(items, i, answer, media, queue)
    {
      var item := items[i];
      AddNext(before, results, items, i, EarlyOps(answer, media, queue));
      if ShouldEnqueue(answer, item.value) {
        var early := EarlyOp(PayloadAt(media, item.index), item.value, queue);
        if early.Some? {
          results := results[item.index := results[item.index].Add(early.value)];
        } else {
          tasks := tasks + [item];
        }
      }
    }
  }

  function EnqueueOps(queued: EnqueueStatuses): RowKey -> Operation {
    (k: RowKey) => EnqueueOp(queued, k)
  }

  /** Tells the tasks what the queue has answered. */
  method RecordEnqueued(tasks: seq<Indexed<Record>>, before: seq<ObjectResult>, queued: EnqueueStatuses)
    returns (results: seq<ObjectResult>)
    requires OwnIndices(tasks, |before|)
    ensures ReportedTo(before, results, tasks, |tasks|, EnqueueOps(queued))
  {
    results := before;
    for i := 0 to |tasks|
      invariant ReportedTo(before, results, tasks, i, EnqueueOps(queued))
    {
      var k := RecordKey(tasks[i].value);
      ReportNext(before, results, tasks, i, EnqueueOps(queued));
      results := results[tasks[i].index := results[tasks[i].index].Add(EnqueueOp(queued, k))];
    }
  }

  /** What the resources are told in the end. */
  function TransferOps(answer: Statuses, media: map<nat, Record>, queue: Queue, queued: EnqueueStatuses):
      Indexed<Record> -> Option<Operation> {
    (item: Indexed<Record>) => TransferOp(PayloadAt(media, item.index), item.value, answer, queue, queued)
  }

  /** An early answer or that of the queue, never both. */
  lemma {:induction false} AddedAfterQueue(before: seq<ObjectResult>, between: seq<ObjectResult>,
                                           after: seq<ObjectResult>, items: seq<Indexed<Record>>,
                                           tasks: seq<Indexed<Record>>, answer: Statuses, media: map<nat, Record>,
                                           queue: Queue, queued: EnqueueStatuses)
    requires OwnIndices(items, |before|) && OwnIndices(tasks, |before|)
    requires TasksAre(tasks, items, |items|, answer, media, queue)
    requires AddedTo(before, between, items, |items|, EarlyOps(answer, media, queue))
    requires ReportedTo(between, after, tasks, |tasks|, EnqueueOps(queued))
    ensures AddedTo(before, after, items, |items|, TransferOps(answer, media, queue, queued))
  {
    forall m | 0 <= m < |items|
      ensures after[items[m].index]
              == AddOp(before[items[m].index], TransferOps(answer, media, queue, queued)(items[m]))
    {
      if IsAsked(items[m], answer, media, queue) {
        assert items[m] in items[..|items|];
        var t :| 0 <= t < |tasks| && tasks[t] == items[m];
      } else {
        NotATask(items, tasks, answer, media, queue, m, |before|);
      }
    }
    forall k | 0 <= k < |before| && forall m :: 0 <= m < |items| ==> items[m].index != k
      ensures after[k] == before[k]
    {
      forall t | 0 <= t < |tasks|
        ensures tasks[t].index != k
      {
        assert tasks[t] in tasks && tasks[t] in items;
      }
    }
  }

  lemma {:induction false} NotATask(items: seq<Indexed<Record>>, tasks: seq<Indexed<Record>>, answer: Statuses,
                                    media: map<nat, Record>, queue: Queue, m: nat, bound: nat)
    requires OwnIndices(items, bound) && TasksAre(tasks, items, |items|, answer, media, queue)
    requires m < |items| && !IsAsked(items[m], answer, media, queue)
    ensures forall t :: 0 <= t < |tasks| ==> tasks[t].index != items[m].index
  {
    forall t | 0 <= t < |tasks|
      ensures tasks[t].index != items[m].index
    {
      assert tasks[t] in tasks && tasks[t] in items;
    }
  }

  /** The first `n` media objects by their index. */
  function MediaOf(items: seq<Indexed<Record>>, n: nat): map<nat, Record>
    requires n <= |items|
  {
    if n == 0 then map[] else MediaOf(items, n - 1)[items[n - 1].index := items[n - 1].value]
  }

  method IndexMedia(items: seq<Indexed<Record>>, ghost bound: nat) returns (media: map<nat, Record>)
    requires OwnIndices(items, bound)
    ensures media == MediaOf(items, |items|) && ByIndex(media, items)
  {
    media := map[];
    for i := 0 to |items|
      invariant media == MediaOf(items, i)
      invariant forall m :: 0 <= m < i ==> items[m].index in media && media[items[m].index] == items[m].value
      invariant forall k :: k in media ==> exists m :: 0 <= m < i && items[m].index == k
    {
      media := media[items[i].index := items[i].value];
    }
  }

  /** Every resource is told of its own transfer. */
  ghost predicate AllTransfersTold(before: seq<ObjectResult>, after: seq<ObjectResult>, items: seq<Indexed<Record>>,
                                   answer: Statuses, media: map<nat, Record>, queue: Queue, queued: EnqueueStatuses)
    requires OwnIndices(items, |before|) && |after| == |before|
  {
    forall m :: 0 <= m < |items| ==>
      TransferTold(News(before[items[m].index], after[items[m].index]), PayloadAt(media, items[m].index),
                   items[m].value, answer, queue, queued)
  }

  lemma {:induction false} TransfersAreTold(before: seq<ObjectResult>, after: seq<ObjectResult>,
                                            items: seq<Indexed<Record>>, answer: Statuses, media: map<nat, Record>,
                                            queue: Queue, queued: EnqueueStatuses)
    requires OwnIndices(items, |before|)
    requires AddedTo(before, after, items, |items|, TransferOps(answer, media, queue, queued))
    ensures AllTransfersTold(before, after, items, answer, media, queue, queued)
  {
    forall m | 0 <= m < |items|
      ensures TransferTold(News(before[items[m].index], after[items[m].index]), PayloadAt(media, items[m].index),
                           items[m].value, answer, queue, queued)
    {
      var payload := PayloadAt(media, items[m].index);
      assert News(before[items[m].index], after[items[m].index])
          == Optional(TransferOp(payload, items[m].value, answer, queue, queued));
      TransferIsTold(payload, items[m].value, answer, queue, queued);
    }
  }

  /** Queues the transfers of the written resources. Each of these is told once what became of it, whether
      it was sent to the queue or not; all others are told nothing. */
  method EnqueueTransfers(mediaItems: seq<Indexed<Record>>, items: seq<Indexed<Record>>, before: seq<ObjectResult>,
                          answer: Statuses, queue: Queue) returns (results: seq<ObjectResult>)
    requires OwnIndices(items, |before|) && OwnIndices(mediaItems, |before|)
    ensures var media := MediaOf(mediaItems, |mediaItems|);
            var tasks := TasksOf(items, |items|, answer, media, queue);
            && ByIndex(media, mediaItems) && TasksAre(tasks, items, |items|, answer, media, queue)
            && AddedTo(before, results, items, |items|,
                       TransferOps(answer, media, queue, queue.enqueue(Values(tasks))))
            && AllTransfersTold(before, results, items, answer, media, queue, queue.enqueue(Values(tasks)))
  {
    var media := IndexMedia(mediaItems, |before|);
    var between, tasks := CollectTasks(items, before, answer, media, queue);
    results := between;
    TasksOfAre(items, |items|, answer, media, queue, |before|);
    TasksOwnIndices(tasks, items, answer, media, queue, |before|);
    if tasks != [] {
      results := RecordEnqueued(tasks, between, queue.enqueue(Values(tasks)));
    }
    AddedAfterQueue(before, between, results, items, tasks, answer, media, queue, queue.enqueue(Values(tasks)));
    TransfersAreTold(before, results, items, answer, media, queue, queue.enqueue(Values(tasks)));
  }
}
