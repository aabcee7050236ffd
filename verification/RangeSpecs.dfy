/** Cutting a known content length into numbered byte ranges (server/src/transfer/range.rs, common.rs). */
module RangeSpecs {
  import opened Prelude

  datatype TransferError =
    | NetworkFailure
    | PartLimit
    | LengthOverflow
    | LengthMismatch
    | ObjectTooLong

  /** The largest part number an S3 multipart upload accepts. */
  const MAX_PARTS: int := 10_000

  datatype RangeSpec = RangeSpec(partNumber: int, start: int, endInclusive: int) {
    function Len(): int {
      endInclusive - start + 1
    }

    /** `next` starts where this range ends. */
    predicate Meets(next: RangeSpec) {
      endInclusive + 1 == next.start
    }
  }

  function EnsureValidPartNumber(partNumber: int): Result<(), TransferError> {
    if 1 <= partNumber <= MAX_PARTS then Ok(()) else Err(PartLimit)
  }

  function AddContentLength(total: u64, len: nat): Result<u64, TransferError> {
    if total + len <= U64_MAX then Ok(total + len) else Err(LengthOverflow)
  }

  /** The ranges that tile `[cursor, end)` in steps of `chunk`, numbered from `part`. */
  function SpecsFrom(cursor: nat, end: nat, chunk: nat, part: int): seq<RangeSpec>
    requires chunk > 0
    decreases end - cursor
  {
    if cursor >= end then []
    else
      var next := Min(cursor + chunk, end);
      [RangeSpec(part, cursor, next - 1)] + SpecsFrom(next, end, chunk, part + 1)
  }

  lemma {:induction false} SpecsCount(cursor: nat, end: nat, chunk: nat, part: int)
    requires chunk > 0
    ensures |SpecsFrom(cursor, end, chunk, part)| == if cursor < end then CeilDiv(end - cursor, chunk) else 0
    decreases end - cursor
  {
    if cursor < end {
      SpecsCount(Min(cursor + chunk, end), end, chunk, part + 1);
    }
  }

  /** A non-empty range with that number, within the bounds and no longer than a chunk. */
  ghost predicate IsPiece(spec: RangeSpec, number: int, start: int, end: int, chunk: nat) {
    spec.partNumber == number && start <= spec.start <= spec.endInclusive < end && spec.Len() <= chunk
  }

  /** The ranges are consecutive, non-empty, consecutively numbered, of `chunk` bytes except
      possibly the last, and there are exactly as many as the length needs. */
  lemma {:induction false} SpecsTile(cursor: nat, end: nat, chunk: nat, part: int)
    requires chunk > 0
    ensures var specs := SpecsFrom(cursor, end, chunk, part);
            && |specs| == (if cursor < end then CeilDiv(end - cursor, chunk) else 0)
            && (forall i :: 0 <= i < |specs| ==> IsPiece(specs[i], part + i, cursor, end, chunk))
            && (forall i :: 0 <= i < |specs| - 1 ==> specs[i].Len() == chunk && specs[i].Meets(specs[i + 1]))
            && (specs != [] ==> specs[0].start == cursor && specs[|specs| - 1].endInclusive == end - 1)
    decreases end - cursor
  {
    SpecsCount(cursor, end, chunk, part);
    if cursor < end {
      var next := Min(cursor + chunk, end);
      SpecsTile(next, end, chunk, part + 1);
      var rest := SpecsFrom(next, end, chunk, part + 1);
      var specs := SpecsFrom(cursor, end, chunk, part);
      forall i | 0 <= i < |specs|
        ensures IsPiece(specs[i], part + i, cursor, end, chunk)
      {
        assert i > 0 ==> specs[i] == rest[i - 1] && IsPiece(rest[i - 1], part + i, next, end, chunk);
      }
      forall i | 0 <= i < |specs| - 1
        ensures specs[i].Len() == chunk && specs[i].Meets(specs[i + 1])
      {
        if i > 0 {
          var j := i - 1;
          assert specs[i] == rest[j] && specs[i + 1] == rest[j + 1];
        }
      }
    }
  }

  /** Range number i selects the same bytes as piece number i of the body cut sequentially. */
  lemma {:induction false} SpecsSelectSplit(body: Bytes, cursor: nat, chunk: nat, part: int)
    requires chunk > 0
    requires cursor <= |body|
    ensures |SpecsFrom(cursor, |body|, chunk, part)| == |Split(body[cursor..], chunk)|
    ensures forall i :: 0 <= i < |SpecsFrom(cursor, |body|, chunk, part)| ==>
              var spec := SpecsFrom(cursor, |body|, chunk, part)[i];
              && 0 <= spec.start <= spec.endInclusive < |body|
              && body[spec.start..spec.endInclusive + 1] == Split(body[cursor..], chunk)[i]
    decreases |body| - cursor
  {
    if cursor < |body| {
      var next := Min(cursor + chunk, |body|);
      var rest := SpecsFrom(next, |body|, chunk, part + 1);
      SpecsSelectSplit(body, next, chunk, part + 1);
      var tail := body[cursor..];
      if |tail| > chunk {
        assert tail[chunk..] == body[next..];
        assert tail[..chunk] == body[cursor..next];
      } else {
        assert tail == body[cursor..next];
        assert body[next..] == [];
      }
      forall i | 0 <= i < |SpecsFrom(cursor, |body|, chunk, part)|
        ensures var spec := SpecsFrom(cursor, |body|, chunk, part)[i];
                && 0 <= spec.start <= spec.endInclusive < |body|
                && body[spec.start..spec.endInclusive + 1] == Split(body[cursor..], chunk)[i]
      {
        if i > 0 {
          assert SpecsFrom(cursor, |body|, chunk, part)[i] == rest[i - 1];
        }
      }
    }
  }

  /** Builds the ranges after the first buffer. It succeeds exactly when the first buffer and the
      ranges together stay within the part limit, for every 64-bit start and length. */
  method BuildRangeSpecs(startOffset: u64, contentLength: u64, chunkSize: u64)
    returns (r: Result<seq<RangeSpec>, TransferError>)
    requires chunkSize > 0
    ensures r.Ok? <==> startOffset >= contentLength
                       || 1 + CeilDiv(contentLength - startOffset, chunkSize) <= MAX_PARTS
    ensures r.Ok? ==> r.value == SpecsFrom(startOffset, contentLength, chunkSize, 2)
    ensures r.Err? ==> r.error == PartLimit
  {
    var specs: seq<RangeSpec> := [];
    var cursor: u64 := startOffset;
    var partNumber := 2;
    ghost var all := SpecsFrom(startOffset, contentLength, chunkSize, 2);
    SpecsCount(startOffset, contentLength, chunkSize, 2);
    while cursor < contentLength
      invariant specs + SpecsFrom(cursor, contentLength, chunkSize, partNumber) == all
      invariant partNumber == 2 + |specs| <= MAX_PARTS + 1
      decreases contentLength - cursor
    {
      ghost var left := SpecsFrom(cursor, contentLength, chunkSize, partNumber);
      if EnsureValidPartNumber(partNumber).Err? {
        assert |all| == |specs| + |left| && |left| > 0;
        return Err(PartLimit);
      }
      var saturated: u64 := Min(cursor + chunkSize, U64_MAX);
      var nextCursor: u64 := Min(saturated, contentLength);
      var spec := RangeSpec(partNumber, cursor, nextCursor - 1);
      assert left == [spec] + SpecsFrom(nextCursor, contentLength, chunkSize, partNumber + 1);
      specs := specs + [spec];
      cursor := nextCursor;
      partNumber := partNumber + 1;
    }
    assert specs == all;
    return Ok(specs);
  }
}
