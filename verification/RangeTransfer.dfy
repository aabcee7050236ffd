/** The parallel upload: ranges are downloaded and uploaded concurrently and finish in any order
    (server/src/transfer/upload.rs, lines 311 to 427). */
module RangeTransfer {
  import opened Prelude
  import opened RangeSpecs
  import opened PartLedger
  import opened RangeEngine
  import opened ByteReader

  /** A stored object: the parts as the storage concatenates them, the recorded length, and the bytes
      the recorded SHA-256 was computed over. */
  datatype StoredObject = StoredObject(multipart: bool, parts: seq<Bytes>, contentLength: int, hashed: Bytes)

  /** The length and the hash that are recorded are those of the stored bytes. */
  ghost predicate Consistent(stored: StoredObject) {
    stored.hashed == Flatten(stored.parts) && stored.contentLength == |Flatten(stored.parts)|
  }

  /** `spec -> response`: what the origin server answers to each range request. */
  type Origin = RangeSpec -> RangeResponse

  ghost predicate AllDelivered(specs: seq<RangeSpec>, origin: Origin) {
    forall i :: 0 <= i < |specs| ==> Serves(origin(specs[i]), specs[i])
  }

  /** What a part will contain if its download succeeds; a part whose download fails has no use for
      the placeholder of the same length. */
  ghost function Payload(spec: RangeSpec, origin: Origin): (r: Bytes)
    ensures |r| == Max0(spec.Len())
  {
    var d := Delivered(origin(spec), spec);
    if d.Ok? then d.value else seq(Max0(spec.Len()), _ => 0)
  }

  ghost function Payloads(specs: seq<RangeSpec>, origin: Origin): (r: seq<Bytes>)
    ensures |r| == |specs|
    ensures forall i :: 0 <= i < |specs| ==> r[i] == Payload(specs[i], origin)
  {
    seq(|specs|, i requires 0 <= i < |specs| => Payload(specs[i], origin))
  }

  ghost function MakePlan(first: Bytes, specs: seq<RangeSpec>, origin: Origin): Plan {
    Plan(specs, [first] + Payloads(specs, origin))
  }

  lemma {:induction false} PayloadsLength(cursor: nat, end: nat, chunk: nat, part: int, origin: Origin)
    requires chunk > 0
    ensures |Flatten(Payloads(SpecsFrom(cursor, end, chunk, part), origin))| == Max0(end - cursor)
    decreases end - cursor
  {
    var specs := SpecsFrom(cursor, end, chunk, part);
    if cursor < end {
      var next := Min(cursor + chunk, end);
      var rest := SpecsFrom(next, end, chunk, part + 1);
      PayloadsLength(next, end, chunk, part + 1, origin);
      assert Payloads(specs, origin)[1..] == Payloads(rest, origin);
    }
  }

  lemma {:induction false} FlattenPrefix(parts: seq<Bytes>, k: nat)
    requires k <= |parts|
    ensures |Flatten(parts[..k])| <= |Flatten(parts)|
  {
    assert parts == parts[..k] + parts[k..];
    FlattenAppend(parts[..k], parts[k..]);
  }

  /** The plan made from the ranges is well numbered, and its parts have the expected total length. */
  lemma {:induction false} PlanFacts(first: Bytes, contentLength: nat, chunk: nat, origin: Origin)
    requires chunk > 0
    ensures var specs := SpecsFrom(|first|, contentLength, chunk, 2);
            && MakePlan(first, specs, origin).Valid()
            && |Flatten(MakePlan(first, specs, origin).served)| == Max0(contentLength - |first|) + |first|
  {
    var specs := SpecsFrom(|first|, contentLength, chunk, 2);
    SpecsTile(|first|, contentLength, chunk, 2);
    PayloadsLength(|first|, contentLength, chunk, 2, origin);
    var served := MakePlan(first, specs, origin).served;
    assert served[0] == first && served[1..] == Payloads(specs, origin);
  }

  /** The ledger never counts more bytes than the whole plan holds. */
  lemma {:induction false} LengthBound(e: Engine, plan: Plan, lim: Limits)
    requires Inv(e, plan, lim)
    ensures e.ledger.contentLength <= |Flatten(plan.served)|
  {
    FlattenPrefix(plan.served, e.ledger.nextHashPart - 1);
  }

  ghost predicate OverPartLimit(first: nat, contentLength: nat, chunk: nat)
    requires chunk > 0
  {
    first < contentLength && 1 + CeilDiv(contentLength - first, chunk) > MAX_PARTS
  }

  /** The ranges that left the download set were delivered in full. */
  ghost predicate DeliveredSoFar(e: Engine, specs: seq<RangeSpec>, origin: Origin) {
    forall i :: 0 <= i < |specs| - |e.pending| && i + 2 !in e.downloads ==>
      Delivered(origin(specs[i]), specs[i]).Ok?
  }

  /** Whether this request fails or runs into the deadline: anything can happen unless `reliable`. */
  method Interrupted(reliable: bool) returns (fault: bool)
    ensures reliable ==> !fault
  {
    fault := *;
    fault := fault && !reliable;
  }

  method CompleteMultipartWithHash(parts: seq<UploadedPart>, contentLength: u64, hashed: Bytes, reliable: bool)
    returns (r: Result<StoredObject, TransferError>)
    ensures r.Ok? ==> contentLength <= I64_MAX
                      && r.value == StoredObject(true, Stored(SortByPartNumber(parts)), contentLength, hashed)
    ensures r.Err? && r.error != NetworkFailure ==> r.error == ObjectTooLong && contentLength > I64_MAX
    ensures reliable ==> (r.Ok? <==> contentLength <= I64_MAX)
  {
    if contentLength > I64_MAX {
      return Err(ObjectTooLong);
    }
    var fault := Interrupted(reliable);
    if fault {
      return Err(NetworkFailure);
    }
    return Ok(StoredObject(true, Stored(SortByPartNumber(parts)), contentLength, hashed));
  }

  /** The state of the event loop; `View` is the value the transition system speaks about. */
  class TransferLoop {
    var pending: seq<RangeSpec>
    var downloads: map<int, RangeSpec>
    var uploads: map<int, Bytes>
    var completed: seq<UploadedPart>
    const table: PartTable

    ghost function View(): Engine
      reads this, table
    {
      Engine(pending, downloads, uploads, table.View(), completed)
    }

    constructor (specs: seq<RangeSpec>)
      ensures View() == Engine(specs, map[], map[], Ledger(map[], [], 0, 1), [])
      ensures fresh(table)
    {
      pending, downloads, uploads, completed := specs, map[], map[], [];
      table := new PartTable();
    }

    /** Queues the upload of a part and hashes whatever became ready. */
    method QueueUpload(p: int, bytes: Bytes) returns (r: Result<(), TransferError>)
      modifies this, table
      ensures r.Ok? <==> AddPart(old(View()).ledger, p, bytes).contentLength <= U64_MAX
      ensures r.Ok? ==>
                View() == old(View()).(uploads := old(uploads)[p := bytes],
                                       ledger := AddPart(old(View()).ledger, p, bytes))
      ensures r.Err? ==> r.error == LengthOverflow
    {
      table.InsertPendingHash(p, bytes);
      uploads := uploads[p := bytes];
      r := table.HashReadyRangeParts();
    }

    /** Starts downloads in the order of the queue for as long as there is a range and both limits have
        room, and no further. */
    method RefillDownloads(lim: Limits)
      modifies this
      ensures View() == Refill(old(View()), lim)
      ensures |pending| <= |old(pending)| && pending == old(pending)[|old(pending)| - |pending|..]
      ensures forall i :: 0 <= i < |old(pending)| - |pending| ==> old(pending)[i].partNumber in downloads
      ensures old(|downloads|) <= lim.downloadParallelism ==> |downloads| <= lim.downloadParallelism
      ensures old(|downloads| + |table.states|) <= lim.maxInFlightParts ==>
                |downloads| + |table.states| <= lim.maxInFlightParts
      ensures pending == [] || |downloads| >= lim.downloadParallelism
              || |downloads| + |table.states| >= lim.maxInFlightParts
    {
      while |downloads| < lim.downloadParallelism
            && |downloads| + |table.states| < lim.maxInFlightParts
            && pending != []
        invariant Refill(View(), lim) == Refill(old(View()), lim)
        invariant table.View() == old(table.View())
        decreases |pending|
      {
        ghost var before := View();
        downloads := downloads[pending[0].partNumber := pending[0]];
        pending := pending[1..];
        assert View() == Issue(before);
      }
      RefillMeans(old(View()), lim);
    }

    method OnDownloaded(p: int, bytes: Bytes) returns (r: Result<(), TransferError>)
      modifies this, table
      ensures r.Ok? <==> Downloaded(old(View()), p, bytes).ledger.contentLength <= U64_MAX
      ensures r.Ok? ==> View() == Downloaded(old(View()), p, bytes)
      ensures r.Err? ==> r.error == LengthOverflow
    {
      downloads := downloads - {p};
      r := QueueUpload(p, bytes);
    }

    method OnUploaded(p: int)
      requires p in uploads
      modifies this, table
      ensures View() == Uploaded(old(View()), p)
    {
      var uploaded := UploadedPart(p, uploads[p]);
      uploads := uploads - {p};
      table.MarkRangePartUploaded(p);
      completed := completed + [uploaded];
    }

    method IsDrained() returns (b: bool)
      ensures b <==> Finished(View())
    {
      b := pending == [] && |downloads| == 0 && |uploads| == 0 && |table.states| == 0;
    }
  }

  method SomeKeyOf<V>(m: map<int, V>) returns (p: int)
    requires m != map[]
    ensures p in m
  {
    ghost var _ := SomeKey(m);
    p :| p in m;
  }

  /** Everything the loop relies on between two events. */
  ghost predicate LoopOk(e: Engine, plan: Plan, lim: Limits, origin: Origin) {
    && Inv(e, plan, lim)
    && DeliveredSoFar(e, plan.specs, origin)
    && |Flatten(plan.served)| <= U64_MAX
    && (forall i :: 0 <= i < |plan.specs| ==> plan.specs[i].Len() >= 1)
    && (forall i :: 0 <= i < |plan.specs| ==> plan.served[i + 1] == Payload(plan.specs[i], origin))
  }

  lemma {:induction false} RefillOk(e: Engine, plan: Plan, lim: Limits, origin: Origin)
    requires LoopOk(e, plan, lim, origin)
    ensures LoopOk(Refill(e, lim), plan, lim, origin) && Remaining(Refill(e, lim)) == Remaining(e)
    decreases |e.pending|
  {
    if CanIssue(e, lim) {
      IssueInv(e, plan, lim);
      RefillOk(Issue(e), plan, lim, origin);
    }
  }

  lemma {:induction false} DownloadSpec(e: Engine, p: int, plan: Plan, lim: Limits)
    requires Inv(e, plan, lim) && p in e.downloads
    ensures 2 <= p < |plan.specs| + 2 && e.downloads[p] == plan.specs[p - 2]
  {
    assert PartOk(e, plan, p);
  }

  lemma {:induction false} DownloadDelivered(e: Engine, p: int, bytes: Bytes, specs: seq<RangeSpec>, origin: Origin)
    requires DeliveredSoFar(e, specs, origin)
    requires 2 <= p < |specs| + 2 && Delivered(origin(specs[p - 2]), specs[p - 2]).Ok?
    ensures DeliveredSoFar(Downloaded(e, p, bytes), specs, origin)
  {
  }

  lemma {:induction false} DownloadOk(e: Engine, p: int, plan: Plan, lim: Limits, origin: Origin, bytes: Bytes)
    requires LoopOk(e, plan, lim, origin) && p in e.downloads
    requires 2 <= p < |plan.specs| + 2
    requires Delivered(origin(plan.specs[p - 2]), plan.specs[p - 2]) == Ok(bytes)
    ensures LoopOk(Downloaded(e, p, bytes), plan, lim, origin)
    ensures Downloaded(e, p, bytes).ledger.contentLength <= U64_MAX
    ensures Remaining(Downloaded(e, p, bytes)) == Remaining(e) - 1
  {
    var i := p - 2;
    assert plan.served[i + 1] == Payload(plan.specs[i], origin) == bytes;
    DownloadedInv(e, p, plan, lim);
    DownloadDelivered(e, p, bytes, plan.specs, origin);
    LengthBound(Downloaded(e, p, bytes), plan, lim);
  }

  lemma {:induction false} UploadOk(e: Engine, p: int, plan: Plan, lim: Limits, origin: Origin)
    requires LoopOk(e, plan, lim, origin) && p in e.uploads
    ensures LoopOk(Uploaded(e, p), plan, lim, origin)
    ensures Remaining(Uploaded(e, p)) == Remaining(e) - 1
  {
    UploadedInv(e, p, plan, lim);
  }

  lemma {:induction false} StartOk(first: Bytes, contentLength: u64, chunk: nat, lim: Limits, origin: Origin)
    requires chunk > 0 && lim.Valid() && |first| <= U64_MAX
    ensures var specs := SpecsFrom(|first|, contentLength, chunk, 2);
            var plan := MakePlan(first, specs, origin);
            && LoopOk(Start(specs, first), plan, lim, origin)
            && Start(specs, first).ledger.contentLength <= U64_MAX
            && Remaining(Start(specs, first)) == 2 * |specs| + 1
  {
    var specs := SpecsFrom(|first|, contentLength, chunk, 2);
    var plan := MakePlan(first, specs, origin);
    PlanFacts(first, contentLength, chunk, origin);
    SpecsTile(|first|, contentLength, chunk, 2);
    StartInv(plan, lim);
    StartRemaining(plan);
    LengthBound(Start(specs, first), plan, lim);
  }

  /** Runs the event loop until everything is drained. In which order requests finish is arbitrary, and
      unless `reliable`, any of them may fail or time out. The loop handles 2k + 1 completions. */
  method RunLoop(loop_: TransferLoop, lim: Limits, origin: Origin, reliable: bool, ghost plan: Plan)
    returns (r: Result<(), TransferError>)
    requires lim.Valid() && LoopOk(loop_.View(), plan, lim, origin)
    modifies loop_, loop_.table
    ensures r.Err? ==> r.error == NetworkFailure
    ensures r.Ok? ==> LoopOk(loop_.View(), plan, lim, origin) && Finished(loop_.View())
    ensures reliable && AllDelivered(plan.specs, origin) ==> r.Ok?
  {
    ghost var total := Remaining(loop_.View());
    ghost var events := 0;
    while true
      invariant LoopOk(loop_.View(), plan, lim, origin)
      invariant events + Remaining(loop_.View()) == total
      decreases Remaining(loop_.View())
    {
      RefillOk(loop_.View(), plan, lim, origin);
      loop_.RefillDownloads(lim);
      NeverStuck(loop_.View(), plan, lim);
      var drained := loop_.IsDrained();
      if drained {
        break;
      }
      events := events + 1;
      var downloadFirst: bool := *;
      var fault := Interrupted(reliable);
      if loop_.downloads != map[] && (loop_.uploads == map[] || downloadFirst) {
        var p := SomeKeyOf(loop_.downloads);
        DownloadSpec(loop_.View(), p, plan, lim);
        var downloaded := DownloadRangePart(origin(loop_.downloads[p]), loop_.downloads[p]);
        if downloaded.Err? || fault {
          return Err(NetworkFailure);
        }
        DownloadOk(loop_.View(), p, plan, lim, origin, downloaded.value);
        var queued := loop_.OnDownloaded(p, downloaded.value);
        assert queued.Ok?;
      } else {
        var p := SomeKeyOf(loop_.uploads);
        if fault {
          return Err(NetworkFailure);
        }
        UploadOk(loop_.View(), p, plan, lim, origin);
        loop_.OnUploaded(p);
      }
    }
    assert events == total;
    return Ok(());
  }

  lemma {:induction false} DrainedLoop(e: Engine, first: Bytes, contentLength: u64, chunk: nat, lim: Limits,
                                       origin: Origin)
    requires chunk > 0
    requires var specs := SpecsFrom(|first|, contentLength, chunk, 2);
             LoopOk(e, MakePlan(first, specs, origin), lim, origin) && Finished(e)
    ensures var specs := SpecsFrom(|first|, contentLength, chunk, 2);
            && AllDelivered(specs, origin)
            && Stored(SortByPartNumber(e.completed)) == [first] + Payloads(specs, origin)
            && e.ledger.hashed == Flatten([first] + Payloads(specs, origin))
            && e.ledger.contentLength == |e.ledger.hashed| == Max0(contentLength - |first|) + |first|
  {
    var plan := MakePlan(first, SpecsFrom(|first|, contentLength, chunk, 2), origin);
    PlanFacts(first, contentLength, chunk, origin);
    FinishedState(e, plan, lim);
  }

  /** The whole parallel upload. The object is all parts in order with the length and hash of exactly
      those bytes; the final length comparison can only fire when the first buffer was already longer
      than the announced length. */
  method UploadMultipartRangeInner(first: Bytes, contentLength: u64, chunk: u64, lim: Limits, origin: Origin,
                                   reliable: bool)
    returns (r: Result<StoredObject, TransferError>)
    requires chunk > 0 && lim.Valid() && |first| <= U64_MAX
    ensures r.Ok? ==>
              var specs := SpecsFrom(|first|, contentLength, chunk, 2);
              && AllDelivered(specs, origin)
              && r.value.multipart && r.value.parts == [first] + Payloads(specs, origin)
              && Consistent(r.value) && r.value.contentLength == contentLength
    ensures r == Err(PartLimit) <==> OverPartLimit(|first|, contentLength, chunk)
    ensures r == Err(LengthMismatch) ==> |first| > contentLength
    ensures r != Err(LengthOverflow)
    ensures r == Err(ObjectTooLong) ==> contentLength > I64_MAX
    ensures reliable && AllDelivered(SpecsFrom(|first|, contentLength, chunk, 2), origin) ==>
              (r.Ok? <==> !OverPartLimit(|first|, contentLength, chunk) && |first| <= contentLength <= I64_MAX)
  {
    var built := BuildRangeSpecs(|first|, contentLength, chunk);
    if built.Err? {
      return Err(PartLimit);
    }
    ghost var specs := built.value;
    ghost var plan := MakePlan(first, specs, origin);
    StartOk(first, contentLength, chunk, lim, origin);
    var loop_ := new TransferLoop(built.value);
    var queued := loop_.QueueUpload(1, first);
    assert queued.Ok? && loop_.View() == Start(specs, first);
    var ran := RunLoop(loop_, lim, origin, reliable, plan);
    if ran.Err? {
      return Err(NetworkFailure);
    }
    DrainedLoop(loop_.View(), first, contentLength, chunk, lim, origin);
    if loop_.table.contentLength != contentLength {
      return Err(LengthMismatch);
    }
    r := CompleteMultipartWithHash(loop_.completed, loop_.table.contentLength, loop_.table.hashed, reliable);
  }
}
