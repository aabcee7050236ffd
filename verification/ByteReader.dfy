/** Re-chunking a network body, and downloading one byte range (server/src/transfer/download.rs). */
module ByteReader {
  import opened Prelude
  import opened RangeSpecs

  /** One result of polling the response body: some bytes (possibly none), or a failed or timed-out
      read. The end of the sequence is the end of the body. */
  datatype Frame = Data(bytes: Bytes) | Broken

  ghost predicate Intact(frames: seq<Frame>) {
    frames == [] || (frames[0].Data? && Intact(frames[1..]))
  }

  /** The bytes that can be read before the body ends or breaks. */
  ghost function Readable(frames: seq<Frame>): Bytes {
    if frames == [] || frames[0].Broken? then [] else frames[0].bytes + Readable(frames[1..])
  }

  /** What the next buffer of up to `chunk` bytes has to be. */
  ghost function NextBuffer(rest: Bytes, intact: bool, chunk: nat): Result<Option<Bytes>, TransferError> {
    if |rest| >= chunk then Ok(Some(rest[..chunk]))
    else if !intact then Err(NetworkFailure)
    else if rest == [] then Ok(None)
    else Ok(Some(rest))
  }

  lemma {:induction false} SplitHeld(held: Bytes, from: nat, to: nat, rest: Bytes)
    requires from <= to <= |held|
    ensures held[from..] + rest == held[from..to] + (held[to..] + rest)
  {
  }

  lemma {:induction false} NextBufferFull(buffer: Bytes, rest: Bytes, intact: bool)
    ensures NextBuffer(buffer + rest, intact, |buffer|) == Ok(Some(buffer))
  {
  }

  lemma {:induction false} NextBufferShort(buffer: Bytes, intact: bool, chunk: nat)
    requires |buffer| < chunk
    ensures NextBuffer(buffer, intact, chunk)
            == if !intact then Err(NetworkFailure) else Ok(if buffer == [] then None else Some(buffer))
  {
  }

  class ResponseByteReader {
    var response: seq<Frame>
    var pending: Option<Bytes>
    var pendingOffset: nat

    ghost predicate Valid()
      reads this
    {
      pending.Some? ==> pendingOffset <= |pending.value|
    }

    /** The bytes the reader can still hand out. */
    ghost function Rest(): Bytes
      requires Valid()
      reads this
    {
      (if pending.Some? then pending.value[pendingOffset..] else []) + Readable(response)
    }

    constructor (response: seq<Frame>)
      ensures Valid() && Rest() == Readable(response) && this.response == response
    {
      this.response := response;
      pending, pendingOffset := None, 0;
    }

    /** Hands out the next bytes, at most `maxLen`; no byte is lost, repeated or reordered. */
    method ReadSome(maxLen: nat) returns (r: Result<Option<Bytes>, TransferError>)
      requires Valid()
      modifies this
      ensures Valid() && (Intact(response) <==> Intact(old(response)))
      ensures r.Ok? && r.value.Some? ==>
                && old(Rest()) == r.value.value + Rest()
                && |r.value.value| <= maxLen
                && (maxLen > 0 ==> r.value.value != [])
      ensures r.Ok? && r.value.None? ==> old(Rest()) == [] == Rest() && Intact(response)
      ensures r.Err? ==> old(Rest()) == [] && !Intact(old(response)) && r.error == NetworkFailure
    {
      while true
        invariant Valid() && Rest() == old(Rest())
        invariant Intact(response) <==> Intact(old(response))
        decreases |response|
      {
        if pending.Some? {
          if pendingOffset < |pending.value| {
            var end := Min(pendingOffset + maxLen, |pending.value|);
            var bytes := pending.value[pendingOffset..end];
            SplitHeld(pending.value, pendingOffset, end, Readable(response));
            pendingOffset := end;
            if pendingOffset == |pending.value| {
              pending, pendingOffset := None, 0;
            }
            return Ok(Some(bytes));
          }
          pending, pendingOffset := None, 0;
        }
        if response == [] {
          return Ok(None);
        }
        var next := response[0];
        if next.Broken? {
          return Err(NetworkFailure);
        }
        response := response[1..];
        if next.bytes != [] {
          pending, pendingOffset := Some(next.bytes), 0;
        }
      }
    }

    /** Fills a buffer of `chunkSize` bytes; it is shorter only at the end of the body. */
    method ReadNextBuffer(chunkSize: nat) returns (r: Result<Option<Bytes>, TransferError>)
      requires Valid() && chunkSize > 0
      modifies this
      ensures Valid() && (Intact(response) <==> Intact(old(response)))
      ensures r == NextBuffer(old(Rest()), Intact(old(response)), chunkSize)
      ensures r.Ok? ==> old(Rest()) == (if r.value.Some? then r.value.value else []) + Rest()
    {
      var buffer: Bytes := [];
      while |buffer| < chunkSize
        invariant Valid() && (Intact(response) <==> Intact(old(response)))
        invariant buffer + Rest() == old(Rest()) && |buffer| <= chunkSize
        decreases chunkSize - |buffer|
      {
        var some := ReadSome(chunkSize - |buffer|);
        if some.Err? || some.value.None? {
          assert old(Rest()) == buffer + [] == buffer;
          NextBufferShort(buffer, Intact(old(response)), chunkSize);
        }
        if some.Err? {
          return Err(NetworkFailure);
        }
        if some.value.None? {
          break;
        }
        assert buffer + (some.value.value + Rest()) == (buffer + some.value.value) + Rest();
        buffer := buffer + some.value.value;
      }
      if |buffer| == chunkSize {
        NextBufferFull(buffer, Rest(), Intact(response));
      }
      if buffer == [] {
        return Ok(None);
      } else {
        return Ok(Some(buffer));
      }
    }
  }

  datatype RangeResponse = RangeResponse(status: int, contentLength: Option<nat>, frames: seq<Frame>)

  const PARTIAL_CONTENT: int := 206

  /** A partial response that does not announce another length and holds at least the requested bytes. */
  ghost predicate Serves(response: RangeResponse, spec: RangeSpec) {
    && response.status == 206
    && (response.contentLength.Some? ==> response.contentLength.value == spec.Len())
    && |Readable(response.frames)| >= spec.Len()
  }

  /** What a range response is worth: exactly the requested number of bytes, or an error. */
  ghost function Delivered(response: RangeResponse, spec: RangeSpec): (r: Result<Bytes, TransferError>)
    ensures r.Ok? ==> |r.value| == Max0(spec.Len())
    ensures r.Ok? <==> Serves(response, spec)
  {
    if response.status != PARTIAL_CONTENT then Err(NetworkFailure)
    else if response.contentLength.Some? && response.contentLength.value != spec.Len() then Err(NetworkFailure)
    else if |Readable(response.frames)| < spec.Len() then Err(NetworkFailure)
    else Ok(Readable(response.frames)[..Max0(spec.Len())])
  }

  function Max0(n: int): nat {
    if n < 0 then 0 else n
  }

  /** Downloads one range. It succeeds exactly for a partial response, status 206, that announces no other
      length than the requested one and does not end early, and yields the first bytes of its body. */
  method DownloadRangePart(response: RangeResponse, spec: RangeSpec) returns (r: Result<Bytes, TransferError>)
    requires spec.Len() >= 1
    ensures r.Ok? <==>
              && response.status == 206
              && (response.contentLength.None? || response.contentLength.value == spec.Len())
              && |Readable(response.frames)| >= spec.Len()
    ensures r.Ok? ==> r.value == Readable(response.frames)[..spec.Len()]
    ensures r.Err? ==> r.error == NetworkFailure
    ensures r == Delivered(response, spec)
  {
    if response.status != PARTIAL_CONTENT {
      return Err(NetworkFailure);
    }
    if response.contentLength.Some? && response.contentLength.value != spec.Len() {
      return Err(NetworkFailure);
    }
    var expectedLen := spec.Len();
    var reader := new ResponseByteReader(response.frames);
    var buffer: Bytes := [];
    while |buffer| < expectedLen
      invariant reader.Valid() && fresh(reader)
      invariant buffer + reader.Rest() == Readable(response.frames) && |buffer| <= expectedLen
      decreases expectedLen - |buffer|
    {
      var some := reader.ReadSome(expectedLen - |buffer|);
      if some.Err? || some.value.None? {
        return Err(NetworkFailure);
      }
      buffer := buffer + some.value.value;
    }
    return Ok(buffer);
  }
}
