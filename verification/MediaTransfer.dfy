/** Which upload a body gets, and why every one of them stores the whole body
    (server/src/transfer/upload.rs, lines 36 to 123; common.rs). */
module MediaTransfer {
  import opened Prelude
  import opened RangeSpecs
  import opened RangeEngine
  import opened ByteReader
  import opened RangeTransfer
  import opened SequentialTransfer

  const MIB: int := 1024 * 1024

  datatype TransferSection = TransferSection(
    enabled: bool, chunkSizeMb: u64, downloadParallelism: u64, uploadParallelism: u64, maxInFlightParts: u64,
    attemptTimeoutSeconds: u64)

  /** The part of configuration validation that concerns transfers (config/mod.rs, lines 130 to 153). */
  ghost predicate Validated(section: TransferSection) {
    section.enabled ==>
      && section.chunkSizeMb >= 5
      && section.downloadParallelism > 0 && section.uploadParallelism > 0 && section.maxInFlightParts > 0
  }

  /** A request that is still running at `deadline` fails. */
  datatype TransferOptions = TransferOptions(
    chunkSizeBytes: u64, limits: Limits, uploadParallelism: nat, deadline: Option<nat>)

  datatype ConfigError = ChunkSizeTooLarge | TimeoutTooLarge

  /** The options of an attempt that starts `now`, on a clock that ends at `latest`, both in seconds. They
      exist unless the chunk size leaves the machine width or the deadline the clock; without a timeout
      there is no deadline. A validated, enabled configuration keeps parts at the 5 MiB that S3 demands of
      all but the last. */
  function FromSection(section: TransferSection, now: nat, latest: nat): (r: Result<TransferOptions, ConfigError>)
    ensures r == Err(ChunkSizeTooLarge) <==> section.chunkSizeMb * 0x10_0000 > 0xFFFF_FFFF_FFFF_FFFF
    ensures r == Err(TimeoutTooLarge) <==>
              && section.chunkSizeMb * 0x10_0000 <= 0xFFFF_FFFF_FFFF_FFFF
              && section.attemptTimeoutSeconds != 0 && now + section.attemptTimeoutSeconds > latest
    ensures r.Ok? ==> r.value.limits.Valid()
    ensures r.Ok? ==> (r.value.deadline.None? <==> section.attemptTimeoutSeconds == 0)
    ensures r.Ok? && r.value.deadline.Some? ==>
              now < r.value.deadline.value == now + section.attemptTimeoutSeconds <= latest
    ensures r.Ok? ==> r.value.chunkSizeBytes == section.chunkSizeMb * 0x10_0000
    ensures r.Ok? ==>
              && r.value.limits.downloadParallelism == Max(section.downloadParallelism, 1)
              && r.value.limits.maxInFlightParts == Max(section.maxInFlightParts, 1)
              && r.value.uploadParallelism == Max(section.uploadParallelism, 1)
    ensures r.Ok? && section.enabled && Validated(section) ==>
              && r.value.chunkSizeBytes >= 5 * 0x10_0000
              && r.value.limits == Limits(section.downloadParallelism, section.maxInFlightParts)
  {
    if section.chunkSizeMb * MIB > U64_MAX then Err(ChunkSizeTooLarge)
    else
      var timeout := section.attemptTimeoutSeconds;
      if timeout != 0 && now + timeout > latest then Err(TimeoutTooLarge)
      else Ok(TransferOptions(section.chunkSizeMb * MIB,
                              Limits(AtLeastOne(section.downloadParallelism), AtLeastOne(section.maxInFlightParts)),
                              AtLeastOne(section.uploadParallelism),
                              if timeout == 0 then None else Some(now + timeout)))
  }

  ghost function Max(m: nat, n: nat): nat {
    if m < n then n else m
  }

  function AtLeastOne(n: nat): nat {
    if n == 0 then 1 else n
  }

  datatype InitialDownload = InitialDownload(frames: seq<Frame>, contentLength: Option<u64>, supportsRanges: bool)

  /** A partial response with at least the bytes of the range begins with them. */
  ghost predicate PartialContent(response: RangeResponse, range: Bytes) {
    response.status == 206 && |Readable(response.frames)| >= |range| ==> range <= Readable(response.frames)
  }

  /** A well-behaved origin for `body`: a full response delivers `body` from its start and all of it
      unless it breaks, an announced length is the length of `body` (section 8.6 of RFC 9110), and a
      partial response carries the requested bytes (sections 14.1.2 and 15.3.7 of RFC 9110). */
  ghost predicate Faithful(body: Bytes, initial: InitialDownload, origin: Origin) {
    && Readable(initial.frames) <= body
    && (Intact(initial.frames) ==> Readable(initial.frames) == body)
    && (initial.contentLength.Some? ==> initial.contentLength.value == |body|)
    && forall spec: RangeSpec :: 0 <= spec.start <= spec.endInclusive < |body| ==>
         PartialContent(origin(spec), body[spec.start..spec.endInclusive + 1])
  }

  /** The object a body is stored as: one piece if it fits in one chunk, else the parts of a
      sequential cut. */
  ghost function StoredAs(body: Bytes, chunk: nat): (r: StoredObject)
    requires chunk > 0
  {
    if |body| <= chunk then StoredObject(false, [body], |body|, body)
    else StoredObject(true, Split(body, chunk), |body|, body)
  }

  /** That object is the whole body; several parts exist only when at least two are needed, and then
      all but the last have exactly the chunk size and none is empty. */
  lemma {:induction false} StoredAsIsWhole(body: Bytes, chunk: nat)
    requires chunk > 0
    ensures var o := StoredAs(body, chunk);
            && Flatten(o.parts) == body && Consistent(o)
            && (o.multipart ==>
                  && |o.parts| >= 2
                  && (forall i :: 0 <= i < |o.parts| ==> 0 < |o.parts[i]| <= chunk)
                  && (forall i :: 0 <= i < |o.parts| - 1 ==> |o.parts[i]| == chunk))
  {
    if |body| <= chunk {
      assert Flatten([body]) == body + Flatten([]);
    } else {
      SplitFacts(body, chunk);
      assert |body[chunk..]| > 0;
      assert Split(body[chunk..], chunk) != [];
    }
  }

  /** The part limit refuses a body on this condition, whichever way it is uploaded. */
  ghost predicate TooManyParts(body: Bytes, chunk: nat)
    requires chunk > 0
  {
    |Split(body, chunk)| > MAX_PARTS
  }

  lemma {:induction false} SplitFirst(body: Bytes, chunk: nat)
    requires 0 < chunk < |body|
    ensures [body[..chunk]] + Split(body[chunk..], chunk) == Split(body, chunk)
    ensures OverPartLimit(chunk, |body|, chunk) <==> TooManyParts(body, chunk)
  {
    SplitFacts(body[chunk..], chunk);
  }

  /** The parallel path makes the same parts as the sequential one, and fails on the part limit for
      exactly the same bodies. */
  lemma {:induction false} ParallelMakesSequentialParts(body: Bytes, chunk: nat, initial: InitialDownload,
                                                        origin: Origin)
    requires 0 < chunk < |body|
    requires Faithful(body, initial, origin)
    ensures var specs := SpecsFrom(chunk, |body|, chunk, 2);
            AllDelivered(specs, origin) ==> [body[..chunk]] + Payloads(specs, origin) == Split(body, chunk)
    ensures OverPartLimit(chunk, |body|, chunk) <==> TooManyParts(body, chunk)
  {
    var specs := SpecsFrom(chunk, |body|, chunk, 2);
    SplitFirst(body, chunk);
    SpecsSelectSplit(body, chunk, chunk, 2);
    if AllDelivered(specs, origin) {
      var payloads, pieces := Payloads(specs, origin), Split(body[chunk..], chunk);
      forall i | 0 <= i < |specs|
        ensures payloads[i] == pieces[i]
      {
        assert Serves(origin(specs[i]), specs[i]);
        assert PartialContent(origin(specs[i]), pieces[i]);
      }
      assert payloads == pieces;
    }
  }

  method PutSingleObject(body: Bytes, reliable: bool) returns (r: Result<StoredObject, TransferError>)
    ensures r.Ok? ==> |body| <= I64_MAX && r.value == StoredObject(false, [body], |body|, body)
    ensures r == Err(ObjectTooLong) ==> |body| > I64_MAX
    ensures r.Err? ==> r.error == ObjectTooLong || r.error == NetworkFailure
    ensures reliable ==> (r.Ok? <==> |body| <= I64_MAX)
  {
    if |body| > I64_MAX {
      return Err(ObjectTooLong);
    }
    var fault := Interrupted(reliable);
    if fault {
      return Err(NetworkFailure);
    }
    return Ok(StoredObject(false, [body], |body|, body));
  }

  /** What a transfer of `body` may return. Whatever is stored has the recorded length and hash; from a
      well-behaved origin it is exactly the body, whichever path was taken. When no request fails, a body
      is refused only for its number of parts or its length. Ranges are asked for only if the origin
      announces them and the length, several downloads are allowed and there is more than one chunk: then,
      and only then, the answers to ranges matter, and the rest of the first response does not. */
  ghost predicate Outcome(r: Result<StoredObject, TransferError>, body: Bytes, initial: InitialDownload,
                          origin: Origin, chunk: nat, limits: Limits, reliable: bool)
    requires chunk > 0
  {
    && (r.Ok? ==> Consistent(r.value))
    && (Faithful(body, initial, origin) ==>
          && (r.Ok? ==> r.value == StoredAs(body, chunk))
          && r != Err(LengthMismatch)
          && (r == Err(PartLimit) ==> TooManyParts(body, chunk))
          && (if initial.supportsRanges && initial.contentLength.Some? && limits.downloadParallelism > 1
                 && |body| > chunk
              then
                && (r.Ok? ==> AllDelivered(SpecsFrom(chunk, |body|, chunk, 2), origin))
                && (reliable && |Readable(initial.frames)| >= chunk
                    && AllDelivered(SpecsFrom(chunk, |body|, chunk, 2), origin) ==>
                      (r.Ok? <==> !TooManyParts(body, chunk) && |body| <= I64_MAX))
              else reliable && Intact(initial.frames) ==>
                (r.Ok? <==> !TooManyParts(body, chunk) && |body| <= I64_MAX)))
  }

  lemma {:induction false} SmallBodyHasFewParts(body: Bytes, chunk: nat)
    requires |body| <= chunk && chunk > 0
    ensures !TooManyParts(body, chunk)
  {
  }

  /** A buffer that is stored on its own; from a well-behaved origin it must be the whole body. */
  method StoreWhole(buffer: Bytes, reliable: bool, initial: InitialDownload, origin: Origin, chunk: nat,
                    ghost limits: Limits, ghost body: Bytes)
    returns (r: Result<StoredObject, TransferError>)
    requires chunk > 0 && |buffer| <= chunk
    requires Faithful(body, initial, origin) ==> buffer == body
    ensures Outcome(r, body, initial, origin, chunk, limits, reliable)
  {
    assert Flatten([buffer]) == buffer + Flatten([]);
    SmallBodyHasFewParts(buffer, chunk);
    r := PutSingleObject(buffer, reliable);
  }

  /** A full first buffer, followed by at least one more byte: parallel upload. */
  method StoreByRanges(first: Bytes, initial: InitialDownload, origin: Origin, options: TransferOptions, reliable: bool,
                       ghost body: Bytes)
    returns (r: Result<StoredObject, TransferError>)
    requires options.limits.Valid() && |first| == options.chunkSizeBytes > 0
    requires initial.supportsRanges && options.limits.downloadParallelism > 1
    requires initial.contentLength.Some? && initial.contentLength.value > |first|
    requires Faithful(body, initial, origin) ==> first <= body
    ensures Outcome(r, body, initial, origin, options.chunkSizeBytes, options.limits, reliable)
  {
    if Faithful(body, initial, origin) {
      assert first == body[..|first|];
      ParallelMakesSequentialParts(body, |first|, initial, origin);
      StoredAsIsWhole(body, |first|);
    }
    r := UploadMultipartRangeInner(first, initial.contentLength.value, options.chunkSizeBytes, options.limits, origin,
                                   reliable);
  }

  /** A full first buffer, followed by `preloaded` and what the reader still holds: sequential upload. */
  method StoreSequentially(first: Bytes, preloaded: seq<Bytes>, reader: ResponseByteReader, initial: InitialDownload,
                           origin: Origin, options: TransferOptions, reliable: bool, ghost body: Bytes)
    returns (r: Result<StoredObject, TransferError>)
    requires options.limits.Valid() && |first| == options.chunkSizeBytes > 0
    requires !initial.supportsRanges || options.limits.downloadParallelism <= 1 || initial.contentLength.None?
    requires reader.Valid() && Intact(reader.response) == Intact(initial.frames)
    requires Faithful(body, initial, origin) ==> |body| > |first| && first <= body
    requires Faithful(body, initial, origin) && Intact(initial.frames) ==>
               preloaded + Split(reader.Rest(), |first|) == Split(body[|first|..], |first|)
    requires Faithful(body, initial, origin) ==>
               |preloaded + Split(reader.Rest(), |first|)| <= |Split(body[|first|..], |first|)|
    modifies reader
    ensures Outcome(r, body, initial, origin, options.chunkSizeBytes, options.limits, reliable)
  {
    ghost var rest := preloaded + Split(reader.Rest(), |first|);
    assert [first] + preloaded + Split(reader.Rest(), |first|) == [first] + rest;
    if Faithful(body, initial, origin) {
      assert first == body[..|first|];
      SplitFirst(body, |first|);
      StoredAsIsWhole(body, |first|);
    }
    r := UploadMultipartSequentialInner(first, preloaded, reader, options.chunkSizeBytes,
                                        options.limits.maxInFlightParts, reliable);
  }

  lemma {:induction false} SplitOfPrefix(shorter: Bytes, longer: Bytes, chunk: nat)
    requires chunk > 0 && shorter <= longer
    ensures |Split(shorter, chunk)| <= |Split(longer, chunk)|
  {
    if |shorter| > chunk {
      assert shorter[chunk..] <= longer[chunk..];
      SplitOfPrefix(shorter[chunk..], longer[chunk..], chunk);
    }
  }

  /** A full first buffer and no announced length: a second buffer tells whether there is more. */
  method StoreUnknownLength(first: Bytes, reader: ResponseByteReader, initial: InitialDownload, origin: Origin,
                            options: TransferOptions, reliable: bool, ghost body: Bytes)
    returns (r: Result<StoredObject, TransferError>)
    requires options.limits.Valid() && |first| == options.chunkSizeBytes > 0
    requires initial.contentLength.None?
    requires reader.Valid() && Intact(reader.response) == Intact(initial.frames)
    requires Readable(initial.frames) == first + reader.Rest()
    requires Faithful(body, initial, origin) ==> reader.Rest() <= body[|first|..]
    modifies reader
    ensures Outcome(r, body, initial, origin, options.chunkSizeBytes, options.limits, reliable)
  {
    var chunk := options.chunkSizeBytes;
    ghost var rest := reader.Rest();
    var second := reader.ReadNextBuffer(chunk);
    if second.Err? {
      return Err(NetworkFailure);
    }
    SplitNext(rest, Intact(initial.frames), chunk);
    if second.value.None? {
      r := StoreWhole(first, reliable, initial, origin, chunk, options.limits, body);
      return;
    }
    assert rest[|second.value.value|..] == reader.Rest();
    if Faithful(body, initial, origin) {
      SplitOfPrefix(rest, body[chunk..], chunk);
    }
    r := StoreSequentially(first, [second.value.value], reader, initial, origin, options, reliable, body);
  }

  /** Transfers one source to storage. */
  method TransferSourceToStorage(initial: InitialDownload, origin: Origin, options: TransferOptions, reliable: bool,
                                 ghost body: Bytes)
    returns (r: Result<StoredObject, TransferError>)
    requires options.chunkSizeBytes > 0 && options.limits.Valid()
    ensures Outcome(r, body, initial, origin, options.chunkSizeBytes, options.limits, reliable)
  {
    var chunk := options.chunkSizeBytes;
    var reader := new ResponseByteReader(initial.frames);
    var filled := reader.ReadNextBuffer(chunk);
    if filled.Err? {
      return Err(NetworkFailure);
    }
    if filled.value.None? {
      r := StoreWhole([], reliable, initial, origin, chunk, options.limits, body);
      return;
    }
    var first := filled.value.value;
    if (initial.contentLength.Some? && initial.contentLength.value <= |first|) || |first| < chunk {
      r := StoreWhole(first, reliable, initial, origin, chunk, options.limits, body);
      return;
    }
    assert Readable(initial.frames) == first + reader.Rest();
    if initial.supportsRanges && options.limits.downloadParallelism > 1 && initial.contentLength.Some? {
      r := StoreByRanges(first, initial, origin, options, reliable, body);
      return;
    }
    if Faithful(body, initial, origin) {
      assert reader.Rest() == Readable(initial.frames)[chunk..] <= body[chunk..];
      SplitOfPrefix(reader.Rest(), body[chunk..], chunk);
    }
    if initial.contentLength.Some? {
      r := StoreSequentially(first, [], reader, initial, origin, options, reliable, body);
      return;
    }
    r := StoreUnknownLength(first, reader, initial, origin, options, reliable, body);
  }
}
