/** Shared vocabulary: optional values, results, machine-integer bounds and bodies cut into parts. */
module Prelude {

  datatype Option<+T> = None | Some(value: T)

  datatype Result<+T, +E> = Ok(value: T) | Err(error: E) {
    function PropagateError<U>(): Result<U, E>
      requires Err?
    {
      Err(error)
    }
  }

  type byte = b: int | 0 <= b < 256

  type Bytes = seq<byte>

  const U64_MAX: int := 0xFFFF_FFFF_FFFF_FFFF
  const I64_MAX: int := 0x7FFF_FFFF_FFFF_FFFF

  type u64 = n: int | 0 <= n <= U64_MAX

  function Min(a: int, b: int): int {
    if a < b then a else b
  }

  lemma {:induction false} NoKey<V>(m: map<int, V>)
    requires forall k :: k !in m
    ensures m == map[]
  {
    forall k
      ensures k !in m
    {
    }
    assert m == map[];
  }

  /** A key of a non-empty map. */
  lemma {:induction false} SomeKey<V>(m: map<int, V>) returns (p: int)
    requires m != map[]
    ensures p in m
  {
    if forall k :: k !in m {
      NoKey(m);
    }
    p :| p in m;
  }

  /** The bytes of `parts`, one part after the other. */
  function Flatten(parts: seq<Bytes>): Bytes {
    if parts == [] then [] else parts[0] + Flatten(parts[1..])
  }

  lemma {:induction false} FlattenAppend(xs: seq<Bytes>, ys: seq<Bytes>)
    ensures Flatten(xs + ys) == Flatten(xs) + Flatten(ys)
  {
    if xs == [] {
      assert xs + ys == ys;
    } else {
      assert (xs + ys)[1..] == xs[1..] + ys;
      FlattenAppend(xs[1..], ys);
    }
  }

  /** Appending one part appends its bytes. */
  lemma {:induction false} FlattenSnoc(xs: seq<Bytes>, y: Bytes)
    ensures Flatten(xs + [y]) == Flatten(xs) + y
  {
    FlattenAppend(xs, [y]);
    assert Flatten([y]) == y + Flatten([]);
  }

  /** `body` cut into pieces of `chunk` bytes; only the last piece may be shorter. */
  function Split(body: Bytes, chunk: nat): seq<Bytes>
    requires chunk > 0
  {
    if body == [] then []
    else if |body| <= chunk then [body]
    else [body[..chunk]] + Split(body[chunk..], chunk)
  }

  /** The smallest number of `chunk`-sized pieces that hold `n` units. */
  function CeilDiv(n: nat, chunk: nat): (r: nat)
    requires chunk > 0
    ensures (r - 1) * chunk < n <= r * chunk || n == r == 0
  {
    if n == 0 then 0 else if n <= chunk then 1 else 1 + CeilDiv(n - chunk, chunk)
  }

  /** Cutting loses nothing, makes no empty piece, and only the last piece may be short. */
  lemma {:induction false} SplitFacts(body: Bytes, chunk: nat)
    requires chunk > 0
    ensures Flatten(Split(body, chunk)) == body
    ensures |Split(body, chunk)| == CeilDiv(|body|, chunk)
    ensures forall i :: 0 <= i < |Split(body, chunk)| ==> 0 < |Split(body, chunk)[i]| <= chunk
    ensures forall i :: 0 <= i < |Split(body, chunk)| - 1 ==> |Split(body, chunk)[i]| == chunk
  {
    SplitJoins(body, chunk);
    SplitSizes(body, chunk);
  }

  lemma {:induction false} SplitJoins(body: Bytes, chunk: nat)
    requires chunk > 0
    ensures Flatten(Split(body, chunk)) == body
  {
    if |body| > chunk {
      SplitJoins(body[chunk..], chunk);
      assert body == body[..chunk] + body[chunk..];
      assert Split(body, chunk)[1..] == Split(body[chunk..], chunk);
    } else if body != [] {
      assert Flatten([body]) == body + Flatten([]);
    }
  }

  lemma {:induction false} SplitSizes(body: Bytes, chunk: nat)
    requires chunk > 0
    ensures |Split(body, chunk)| == CeilDiv(|body|, chunk)
    ensures forall i :: 0 <= i < |Split(body, chunk)| ==> 0 < |Split(body, chunk)[i]| <= chunk
    ensures forall i :: 0 <= i < |Split(body, chunk)| - 1 ==> |Split(body, chunk)[i]| == chunk
  {
    if |body| > chunk {
      var rest := Split(body[chunk..], chunk);
      SplitSizes(body[chunk..], chunk);
      assert Split(body, chunk) == [body[..chunk]] + rest;
    }
  }
}
