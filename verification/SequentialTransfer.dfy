/** The sequential upload: one reader, parts uploaded concurrently as they are read
    (server/src/transfer/upload.rs, lines 153 to 278). */
module SequentialTransfer {
  import opened Prelude
  import opened RangeSpecs
  import opened RangeEngine
  import opened ByteReader
  import opened RangeTransfer

  /** Part `p` of `parts` is either uploading or completed; no other part is anywhere. */
  ghost predicate PartPlaced(uploads: map<int, Bytes>, completed: seq<UploadedPart>, parts: seq<Bytes>, p: int) {
    && (1 <= p <= |parts| <==> p in uploads || p in PartSet(completed))
    && (p in uploads ==> p !in PartSet(completed) && (1 <= p <= |parts| ==> uploads[p] == parts[p - 1]))
  }

  ghost predicate Placed(uploads: map<int, Bytes>, completed: seq<UploadedPart>, parts: seq<Bytes>) {
    && (forall p :: PartPlaced(uploads, completed, parts, p))
    && DistinctParts(completed)
    && (forall i :: 0 <= i < |completed| ==> HoldsContent(completed[i], parts))
  }

  lemma {:induction false} PlaceNext(uploads: map<int, Bytes>, completed: seq<UploadedPart>, parts: seq<Bytes>,
                                     buffer: Bytes)
    requires Placed(uploads, completed, parts)
    ensures Placed(uploads[|parts| + 1 := buffer], completed, parts + [buffer])
  {
    var uploads', parts' := uploads[|parts| + 1 := buffer], parts + [buffer];
    forall p
      ensures PartPlaced(uploads', completed, parts', p)
    {
      assert PartPlaced(uploads, completed, parts, p);
    }
  }

  lemma {:induction false} PlaceCompleted(uploads: map<int, Bytes>, completed: seq<UploadedPart>,
                                          parts: seq<Bytes>, q: int)
    requires Placed(uploads, completed, parts) && q in uploads
    ensures Placed(uploads - {q}, completed + [UploadedPart(q, uploads[q])], parts)
  {
    var u := UploadedPart(q, uploads[q]);
    assert PartPlaced(uploads, completed, parts, q);
    PartSetSnoc(completed, u);
    var uploads', completed' := uploads - {q}, completed + [u];
    forall p
      ensures PartPlaced(uploads', completed', parts, p)
    {
      assert PartPlaced(uploads, completed, parts, p);
    }
    forall i | 0 <= i < |completed|
      ensures completed[i].partNumber != q
    {
      PartSetMeans(completed, i);
    }
  }

  lemma {:induction false} PlacedAll(completed: seq<UploadedPart>, parts: seq<Bytes>)
    requires Placed(map[], completed, parts)
    ensures Stored(SortByPartNumber(completed)) == parts
  {
    forall p | 1 <= p <= |parts|
      ensures p in PartSet(completed)
    {
      assert PartPlaced(map[], completed, parts, p);
    }
    SortedIsNumbered(completed, parts);
  }

  /** The mutable variables of the sequential loop. `Parts` is what was enqueued so far. */
  class SequentialUpload {
    var uploads: map<int, Bytes>
    var completed: seq<UploadedPart>
    var hashed: Bytes
    var contentLength: u64
    var nextPartNumber: int
    ghost var Parts: seq<Bytes>

    ghost predicate Valid()
      reads this
    {
      && Placed(uploads, completed, Parts)
      && nextPartNumber == |Parts| + 1
      && |Parts| <= MAX_PARTS
      && hashed == Flatten(Parts)
      && contentLength == |hashed|
    }

    constructor ()
      ensures Valid() && Parts == []
    {
      uploads, completed, hashed, contentLength, nextPartNumber := map[], [], [], 0, 1;
      Parts := [];
    }

    /** Numbers, hashes and starts uploading the next part, or reports why it cannot. */
    method EnqueueSequentialPart(buffer: Bytes) returns (r: Result<(), TransferError>)
      requires Valid()
      modifies this
      ensures r.Ok? <==> |old(Parts)| < MAX_PARTS && |Flatten(old(Parts) + [buffer])| <= U64_MAX
      ensures r.Ok? ==> Valid() && Parts == old(Parts) + [buffer] && |uploads| == |old(uploads)| + 1
      ensures r.Err? ==> r.error == if |old(Parts)| < MAX_PARTS then LengthOverflow else PartLimit
    {
      FlattenSnoc(Parts, buffer);
      if EnsureValidPartNumber(nextPartNumber).Err? {
        return Err(PartLimit);
      }
      hashed := hashed + buffer;
      var total := AddContentLength(contentLength, |buffer|);
      if total.Err? {
        return Err(LengthOverflow);
      }
      contentLength := total.value;
      assert PartPlaced(uploads, completed, Parts, nextPartNumber);
      PlaceNext(uploads, completed, Parts, buffer);
      GrowMap(uploads, nextPartNumber, buffer);
      uploads := uploads[nextPartNumber := buffer];
      nextPartNumber := nextPartNumber + 1;
      Parts := Parts + [buffer];
      return Ok(());
    }

    /** Awaits one upload, any of those in flight. */
    method AwaitUpload(reliable: bool) returns (r: Result<(), TransferError>)
      requires Valid() && uploads != map[]
      modifies this
      ensures r.Ok? ==> Valid() && Parts == old(Parts) && |uploads| == |old(uploads)| - 1
      ensures r.Err? ==> r.error == NetworkFailure && !reliable
    {
      var q := SomeKeyOf(uploads);
      var fault := Interrupted(reliable);
      if fault {
        return Err(NetworkFailure);
      }
      PlaceCompleted(uploads, completed, Parts, q);
      ShrinkMap(uploads, q);
      completed := completed + [UploadedPart(q, uploads[q])];
      uploads := uploads - {q};
      return Ok(());
    }

    /** Waits until fewer than `limit` uploads are in flight. */
    method WaitForCapacity(limit: nat, reliable: bool) returns (r: Result<(), TransferError>)
      requires Valid() && limit > 0
      modifies this
      ensures r.Ok? ==> Valid() && Parts == old(Parts) && |uploads| < limit
      ensures r.Err? ==> r.error == NetworkFailure && !reliable
    {
      while |uploads| >= limit
        invariant Valid() && Parts == old(Parts)
        decreases |uploads|
      {
        var one := AwaitUpload(reliable);
        if one.Err? {
          return Err(NetworkFailure);
        }
      }
      return Ok(());
    }

    /** Enqueues `buffer` once there is room for it. */
    method EnqueueWithCapacity(buffer: Bytes, limit: nat, reliable: bool) returns (r: Result<(), TransferError>)
      requires Valid() && limit > 0
      modifies this
      ensures r.Ok? ==> Valid() && Parts == old(Parts) + [buffer] && |uploads| <= limit
      ensures r == Err(PartLimit) ==> |old(Parts)| == MAX_PARTS
      ensures r == Err(LengthOverflow) ==> |Flatten(old(Parts) + [buffer])| > U64_MAX
      ensures r.Err? ==> r.error == PartLimit || r.error == LengthOverflow || (r.error == NetworkFailure && !reliable)
    {
      var waited := WaitForCapacity(limit, reliable);
      if waited.Err? {
        return Err(NetworkFailure);
      }
      r := EnqueueSequentialPart(buffer);
    }
  }

  lemma {:induction false} SplitNext(rest: Bytes, intact: bool, chunk: nat)
    requires chunk > 0
    requires NextBuffer(rest, intact, chunk).Ok?
    ensures NextBuffer(rest, intact, chunk).value.None? ==> Split(rest, chunk) == []
    ensures NextBuffer(rest, intact, chunk).value.Some? ==>
              var b := NextBuffer(rest, intact, chunk).value.value;
              && 0 < |b| <= |rest| && rest[..|b|] == b
              && Split(rest, chunk) == [b] + Split(rest[|b|..], chunk)
  {
    if |rest| == chunk {
      assert rest[..chunk] == rest && rest[chunk..] == [];
    } else if 0 < |rest| < chunk {
      assert rest[|rest|..] == [];
    }
  }

  /** Enqueues every buffer of `buffers` in order. */
  method EnqueueAll(up: SequentialUpload, buffers: seq<Bytes>, limit: nat, reliable: bool)
    returns (r: Result<(), TransferError>)
    requires up.Valid() && limit > 0
    modifies up
    ensures r.Ok? ==> up.Valid() && up.Parts == old(up.Parts) + buffers
    ensures r.Err? ==> EnqueueError(r.error, old(up.Parts) + buffers, reliable)
  {
    for i := 0 to |buffers|
      invariant up.Valid() && up.Parts == old(up.Parts) + buffers[..i]
    {
      r := up.EnqueueWithCapacity(buffers[i], limit, reliable);
      assert buffers[..i + 1] == buffers[..i] + [buffers[i]];
      if r.Err? {
        ghost var all := old(up.Parts) + buffers;
        assert old(up.Parts) + buffers[..i] + [buffers[i]] == all[..|old(up.Parts)| + i + 1];
        FlattenPrefix(all, |old(up.Parts)| + i + 1);
        return;
      }
    }
    return Ok(());
  }

  /** Why a sequence of parts can be refused. */
  ghost predicate EnqueueError(error: TransferError, all: seq<Bytes>, reliable: bool) {
    || (error == PartLimit && |all| > MAX_PARTS)
    || (error == LengthOverflow && |Flatten(all)| > U64_MAX)
    || (error == NetworkFailure && !reliable)
  }

  /** The next buffer belongs to all the parts there are to be, so what refuses it refuses them. */
  lemma {:induction false} RestSplits(before: seq<Bytes>, buffer: Bytes, rest: seq<Bytes>, all: seq<Bytes>)
    requires before + ([buffer] + rest) == all
    ensures before + [buffer] + rest == all && |all| > |before|
    ensures |Flatten(before + [buffer])| <= |Flatten(all)|
  {
    assert before + [buffer] + rest == before + ([buffer] + rest);
    assert before + [buffer] == all[..|before| + 1];
    FlattenPrefix(all, |before| + 1);
  }

  /** Reads the rest of the body buffer by buffer and enqueues each as a part. */
  method EnqueueRest(up: SequentialUpload, reader: ResponseByteReader, chunk: nat, limit: nat, reliable: bool)
    returns (r: Result<(), TransferError>)
    requires up.Valid() && reader.Valid() && chunk > 0 && limit > 0
    modifies up, reader
    ensures r.Ok? ==> up.Valid() && up.Parts == old(up.Parts) + Split(old(reader.Rest()), chunk)
    ensures r.Ok? ==> Intact(old(reader.response))
    ensures r.Err? ==> EnqueueError(r.error, old(up.Parts) + Split(old(reader.Rest()), chunk),
                                    reliable && Intact(old(reader.response)))
  {
    ghost var all := old(up.Parts) + Split(old(reader.Rest()), chunk);
    ghost var intact := Intact(reader.response);
    while true
      invariant up.Valid() && reader.Valid() && Intact(reader.response) == intact
      invariant up.Parts + Split(reader.Rest(), chunk) == all
      decreases |reader.Rest()|
    {
      ghost var rest, before := reader.Rest(), up.Parts;
      var next := reader.ReadNextBuffer(chunk);
      if next.Err? {
        return Err(NetworkFailure);
      }
      SplitNext(rest, intact, chunk);
      if next.value.None? {
        break;
      }
      assert reader.Rest() == rest[|next.value.value|..];
      RestSplits(before, next.value.value, Split(reader.Rest(), chunk), all);
      r := up.EnqueueWithCapacity(next.value.value, limit, reliable);
      if r.Err? {
        return;
      }
    }
    return Ok(());
  }

  method AwaitAll(up: SequentialUpload, reliable: bool) returns (r: Result<(), TransferError>)
    requires up.Valid()
    modifies up
    ensures r.Ok? ==> up.Valid() && up.Parts == old(up.Parts) && up.uploads == map[]
    ensures r.Err? ==> r.error == NetworkFailure && !reliable
  {
    while up.uploads != map[]
      invariant up.Valid() && up.Parts == old(up.Parts)
      decreases |up.uploads|
    {
      r := up.AwaitUpload(reliable);
      if r.Err? {
        return;
      }
    }
    return Ok(());
  }

  /** The whole sequential upload: the object is the preloaded buffers and the rest of the body cut
      into parts, with the length and hash of exactly those bytes. */
  method UploadMultipartSequentialInner(first: Bytes, preloaded: seq<Bytes>, reader: ResponseByteReader,
                                        chunk: nat, limit: nat, reliable: bool)
    returns (r: Result<StoredObject, TransferError>)
    requires reader.Valid() && chunk > 0 && limit > 0
    modifies reader
    ensures var all := [first] + preloaded + Split(old(reader.Rest()), chunk);
            var intact := Intact(old(reader.response));
            && (r.Ok? ==> intact && r.value.multipart && r.value.parts == all && Consistent(r.value))
            && (r == Err(PartLimit) ==> |all| > MAX_PARTS)
            && (r.Err? ==> r.error != LengthMismatch)
            && (reliable && intact ==> (r.Ok? <==> |all| <= MAX_PARTS && |Flatten(all)| <= I64_MAX))
  {
    ghost var all := [first] + preloaded + Split(reader.Rest(), chunk);
    var up := new SequentialUpload();
    var started := EnqueueAll(up, [first] + preloaded, limit, reliable);
    if started.Err? {
      assert [] + ([first] + preloaded) == all[..1 + |preloaded|];
      FlattenPrefix(all, 1 + |preloaded|);
      assert EnqueueError(started.error, all, reliable);
      return started.PropagateError();
    }
    assert up.Parts + Split(reader.Rest(), chunk) == all;
    var rest := EnqueueRest(up, reader, chunk, limit, reliable);
    if rest.Err? {
      return rest.PropagateError();
    }
    var awaited := AwaitAll(up, reliable);
    if awaited.Err? {
      return awaited.PropagateError();
    }
    PlacedAll(up.completed, all);
    r := CompleteMultipartWithHash(up.completed, up.contentLength, up.hashed, reliable);
  }
}
