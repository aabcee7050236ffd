/** The offset cursor of tweet search (server/src/internal_api/v2/tweets.rs, lines 478 to 562 and
    592 to 646; server/src/search/mod.rs, lines 856 to 912). */
module OffsetPaging {
  import opened Prelude

  type TweetId = int

  /** The query text, the filters and the sort of a search; only whether two agree matters here. */
  type Search = int

  datatype Cursor = Cursor(search: Search, offset: u64)

  datatype QueryError = CursorMismatch

  /** `LIMIT` and `OFFSET` on the ranked hits of the index. */
  function TopDocs(hits: seq<TweetId>, limit: nat, offset: nat): seq<TweetId> {
    var from := Min(offset, |hits|);
    hits[from..Min(from + limit, |hits|)]
  }

  /** Asking for one hit more than the limit tells whether there is a next page. */
  lemma {:induction false} OneMore(hits: seq<TweetId>, limit: nat, offset: nat)
    ensures var more := TopDocs(hits, limit + 1, offset);
            && (|more| > limit <==> |hits| > offset + limit)
            && (if |more| > limit then more[..limit] else more) == TopDocs(hits, limit, offset)
  {
    var from := Min(offset, |hits|);
    var more := TopDocs(hits, limit + 1, offset);
    if |more| > limit {
      assert more[..limit] == hits[from..from + limit];
    }
  }

  /** The hits from rank `from` to before rank `end` whose tweet is in the database, in rank order. */
  function Existing(hits: seq<TweetId>, known: set<TweetId>, from: nat, end: nat): seq<TweetId>
    requires from <= end <= |hits|
    decreases end
  {
    if from == end then []
    else Existing(hits, known, from, end - 1) + if hits[end - 1] in known then [hits[end - 1]] else []
  }

  lemma {:induction false} ExistingAppend(hits: seq<TweetId>, known: set<TweetId>, from: nat, middle: nat, end: nat)
    requires from <= middle <= end <= |hits|
    ensures Existing(hits, known, from, end) == Existing(hits, known, from, middle) + Existing(hits, known, middle, end)
    decreases end
  {
    if middle < end {
      ExistingAppend(hits, known, from, middle, end - 1);
    }
  }

  lemma {:induction false} ExistingSlice(hits: seq<TweetId>, known: set<TweetId>, from: nat, end: nat, n: nat)
    requires from <= end <= |hits| && n <= end - from
    ensures Existing(hits[from..end], known, 0, n) == Existing(hits, known, from, from + n)
    decreases n
  {
    if n > 0 {
      ExistingSlice(hits, known, from, end, n - 1);
    }
  }

  /** `data` is what is in the database of the hits from rank `from` to before rank `end`: `ranks` says where
      each of them ranks. */
  ghost predicate RanksOf(ranks: seq<nat>, hits: seq<TweetId>, known: set<TweetId>, from: nat, end: nat,
                          data: seq<TweetId>) {
    && |ranks| == |data|
    && (forall i, j :: 0 <= i < j < |ranks| ==> ranks[i] < ranks[j])
    && (forall i :: 0 <= i < |ranks| ==>
          from <= ranks[i] < end && ranks[i] < |hits| && data[i] == hits[ranks[i]] && data[i] in known)
    && (forall rank {:trigger rank in ranks} ::
          from <= rank < end && rank < |hits| && hits[rank] in known ==> rank in ranks)
  }

  /** Exactly the hits between these ranks that are in the database, in the order of their ranks. */
  ghost predicate ListsKnown(hits: seq<TweetId>, known: set<TweetId>, from: nat, end: nat, data: seq<TweetId>) {
    exists ranks :: RanksOf(ranks, hits, known, from, end, data)
  }

  lemma {:induction false} ExistingRanks(hits: seq<TweetId>, known: set<TweetId>, from: nat, end: nat)
    returns (ranks: seq<nat>)
    requires from <= end <= |hits|
    ensures RanksOf(ranks, hits, known, from, end, Existing(hits, known, from, end))
    decreases end
  {
    ranks := [];
    if from < end {
      ranks := ExistingRanks(hits, known, from, end - 1);
      if hits[end - 1] in known {
        RanksSnoc(ranks, hits, known, from, end, Existing(hits, known, from, end - 1));
        ranks := ranks + [end - 1];
      } else {
        RanksStay(ranks, hits, known, from, end, Existing(hits, known, from, end - 1));
        assert Existing(hits, known, from, end) == Existing(hits, known, from, end - 1);
      }
    }
  }

  lemma {:induction false} RanksStay(ranks: seq<nat>, hits: seq<TweetId>, known: set<TweetId>, from: nat, end: nat,
                                     data: seq<TweetId>)
    requires from < end <= |hits| && hits[end - 1] !in known && RanksOf(ranks, hits, known, from, end - 1, data)
    ensures RanksOf(ranks, hits, known, from, end, data)
  {
  }

  lemma {:induction false} RanksSnoc(ranks: seq<nat>, hits: seq<TweetId>, known: set<TweetId>, from: nat, end: nat,
                                     data: seq<TweetId>)
    requires from < end <= |hits| && hits[end - 1] in known && RanksOf(ranks, hits, known, from, end - 1, data)
    ensures RanksOf(ranks + [end - 1], hits, known, from, end, data + [hits[end - 1]])
  {
    forall rank | from <= rank < end && hits[rank] in known
      ensures rank in ranks + [end - 1]
    {
      assert rank < end - 1 ==> rank in ranks;
    }
  }

  /** The page at an offset holds the hits of its ranks that are in the database. */
  lemma {:induction false} PageListsKnown(hits: seq<TweetId>, known: set<TweetId>, limit: nat, offset: nat)
    ensures ListsKnown(hits, known, offset, offset + limit, Page(hits, known, limit, offset).0)
  {
    var ranks := ExistingRanks(hits, known, Min(offset, |hits|), Min(offset + limit, |hits|));
    assert RanksOf(ranks, hits, known, offset, offset + limit, Page(hits, known, limit, offset).0);
  }

  /** The page at an offset, and the next offset if there are more hits. */
  function Page(hits: seq<TweetId>, known: set<TweetId>, limit: nat, offset: nat): (seq<TweetId>, Option<nat>) {
    (Existing(hits, known, Min(offset, |hits|), Min(offset + limit, |hits|)),
     if |hits| > offset + limit then Some(offset + limit) else None)
  }

  /** One request: refused exactly when the cursor belongs to another search. One more hit than the limit
      is fetched to see whether there is a next page; the next offset never overflows. */
  method ExecuteTweetQuery(hits: seq<TweetId>, known: set<TweetId>, search: Search, limit: nat, cursor: Option<Cursor>)
    returns (r: Result<(seq<TweetId>, Option<Cursor>), QueryError>)
    requires |hits| <= U64_MAX && 1 <= limit <= 100
    ensures r.Err? <==> cursor.Some? && cursor.value.search != search
    ensures r.Ok? ==>
              var (data, next) := Page(hits, known, limit, if cursor.Some? then cursor.value.offset else 0);
              && r.value.0 == data
              && (r.value.1.Some? <==> next.Some?)
              && (next.Some? ==> r.value.1.value == Cursor(search, next.value))
    ensures r.Ok? ==>
              var offset: nat := if cursor.Some? then cursor.value.offset else 0;
              && ListsKnown(hits, known, offset, offset + limit, r.value.0)
              && r.value.1 == if |hits| > offset + limit then Some(Cursor(search, offset + limit)) else None
  {
    PageListsKnown(hits, known, limit, if cursor.Some? then cursor.value.offset else 0);
    if cursor.Some? && cursor.value.search != search {
      return Err(CursorMismatch);
    }
    var offset: u64 := if cursor.Some? then cursor.value.offset else 0;
    var found := TopDocs(hits, limit + 1, offset);
    OneMore(hits, limit, offset);
    var hasMore := |found| > limit;
    if hasMore {
      found := found[..limit];
    }
    var nextOffset: u64 := Min(offset + limit, U64_MAX);
    ExistingSlice(hits, known, Min(offset, |hits|), Min(offset + limit, |hits|), |found|);
    return Ok((Existing(found, known, 0, |found|), if hasMore then Some(Cursor(search, nextOffset)) else None));
  }

  // ---------- following the offsets ----------

  /** What a request meets: the ranked hits and the tweets of the database at its time, and its limit. */
  datatype Request = Request(hits: seq<TweetId>, known: set<TweetId>, limit: nat)

  ghost function PageOf(r: Request, offset: nat): (seq<TweetId>, Option<nat>) {
    Page(r.hits, r.known, r.limit, offset)
  }

  /** The request returns a cursor, to the offset `offset + r.limit`. */
  ghost predicate GoesOn(r: Request, offset: nat) {
    PageOf(r, offset).1.Some?
  }

  /** What a client gets that follows the cursors from `offset` on, beginning with request number `k`. */
  ghost function Walk(requests: seq<Request>, k: nat, offset: nat): seq<TweetId>
    decreases |requests| - k
  {
    if k >= |requests| then []
    else
      var r := requests[k];
      PageOf(r, offset).0 + if GoesOn(r, offset) then Walk(requests, k + 1, offset + r.limit) else []
  }

  /** The number of the request that returns no cursor; that of the last one if all return one. */
  ghost function LastPage(requests: seq<Request>, k: nat, offset: nat): (n: nat)
    requires k < |requests|
    ensures k <= n < |requests|
    decreases |requests| - k
  {
    if GoesOn(requests[k], offset) && k + 1 < |requests| then LastPage(requests, k + 1, offset + requests[k].limit)
    else k
  }

  /** The walk comes to a null cursor. */
  ghost predicate Ended(requests: seq<Request>, k: nat, offset: nat)
    decreases |requests| - k
  {
    k < |requests| &&
    (GoesOn(requests[k], offset) ==> Ended(requests, k + 1, offset + requests[k].limit))
  }

  /** In other words: exactly the hits that are in the database, in rank order. */
  lemma {:induction false} WalkListsKnown(hits: seq<TweetId>, known: set<TweetId>, requests: seq<Request>)
    requires forall i :: 0 <= i < |requests| ==>
               requests[i].hits == hits && requests[i].known == known && requests[i].limit >= 1
    requires |requests| > |hits|
    ensures ListsKnown(hits, known, 0, |hits|, Walk(requests, 0, 0))
  {
    WalkListsAll(hits, known, requests, 0, 0);
    var ranks := ExistingRanks(hits, known, 0, |hits|);
  }

  /** On results that do not change, following the cursors with any limits returns every hit that is still
      in the database exactly where it ranks, none twice and none left out. */
  lemma {:induction false} WalkListsAll(hits: seq<TweetId>, known: set<TweetId>, requests: seq<Request>, k: nat,
                                        offset: nat)
    requires forall i :: 0 <= i < |requests| ==>
               requests[i].hits == hits && requests[i].known == known && requests[i].limit >= 1
    requires offset <= |hits| && k <= |requests| && |requests| - k > |hits| - offset
    ensures Walk(requests, k, offset) == Existing(hits, known, offset, |hits|)
    decreases |requests| - k
  {
    var end := offset + requests[k].limit;
    if |hits| > end {
      WalkListsAll(hits, known, requests, k + 1, end);
      ExistingAppend(hits, known, offset, end, |hits|);
    }
  }

  // ---------- results that change between the pages ----------

  type Bag = multiset<TweetId>

  /** The existing ones among the first `offset` hits, as request `r` meets them. */
  ghost function Ahead(r: Request, offset: nat): Bag {
    multiset(Existing(r.hits, r.known, 0, Min(offset, |r.hits|)))
  }

  /** Everything a request could return. */
  ghost function Whole(r: Request): Bag {
    multiset(Existing(r.hits, r.known, 0, |r.hits|))
  }

  /** For every offset the walk crosses, how often the hit was ahead of it when the page before was
      answered, added up. */
  ghost function AheadBefore(requests: seq<Request>, k: nat, offset: nat, id: TweetId): nat
    decreases |requests| - k
  {
    if k + 1 >= |requests| || !GoesOn(requests[k], offset) then 0
    else
      var end := offset + requests[k].limit;
      Ahead(requests[k], end)[id] + AheadBefore(requests, k + 1, end, id)
  }

  /** The same when the page after is answered. */
  ghost function AheadAfter(requests: seq<Request>, k: nat, offset: nat, id: TweetId): nat
    decreases |requests| - k
  {
    if k + 1 >= |requests| || !GoesOn(requests[k], offset) then 0
    else
      var end := offset + requests[k].limit;
      Ahead(requests[k + 1], end)[id] + AheadAfter(requests, k + 1, end, id)
  }

  lemma {:induction false} PageMovesAhead(r: Request, offset: nat, id: TweetId)
    ensures Ahead(r, offset)[id] + multiset(PageOf(r, offset).0)[id] == Ahead(r, offset + r.limit)[id]
    ensures !GoesOn(r, offset) ==> Ahead(r, offset + r.limit) == Whole(r)
  {
    ExistingAppend(r.hits, r.known, 0, Min(offset, |r.hits|), Min(offset + r.limit, |r.hits|));
  }

  /** The account of a walk over results that change as they like: a hit is returned as often as it is in
      the last results, once more for every offset it has fallen behind between two pages, and once less for
      every one it has risen ahead of. */
  lemma {:induction false} WalkAccount(requests: seq<Request>, k: nat, offset: nat, id: TweetId)
    requires Ended(requests, k, offset)
    ensures multiset(Walk(requests, k, offset))[id] + Ahead(requests[k], offset)[id]
            + AheadAfter(requests, k, offset, id)
            == Whole(requests[LastPage(requests, k, offset)])[id] + AheadBefore(requests, k, offset, id)
    decreases |requests| - k
  {
    var r, end := requests[k], offset + requests[k].limit;
    PageMovesAhead(r, offset, id);
    if GoesOn(r, offset) {
      WalkAccount(requests, k + 1, end, id);
      assert multiset(Walk(requests, k, offset))[id]
          == multiset(PageOf(r, offset).0)[id] + multiset(Walk(requests, k + 1, end))[id];
    }
  }

  lemma {:induction false} StartAccount(requests: seq<Request>, id: TweetId)
    requires Ended(requests, 0, 0)
    ensures multiset(Walk(requests, 0, 0))[id] + AheadAfter(requests, 0, 0, id)
            == Whole(requests[LastPage(requests, 0, 0)])[id] + AheadBefore(requests, 0, 0, id)
  {
    assert Ahead(requests[0], 0) == multiset{};
    WalkAccount(requests, 0, 0, id);
  }

  ghost function BeforeOf(requests: seq<Request>): TweetId -> nat {
    id => AheadBefore(requests, 0, 0, id)
  }

  ghost function AfterOf(requests: seq<Request>): TweetId -> nat {
    id => AheadAfter(requests, 0, 0, id)
  }

  /** Each hit falls behind as many of the offsets of a walk from the start as it rises ahead of. */
  ghost predicate Balanced(requests: seq<Request>) {
    forall id :: BeforeOf(requests)(id) == AfterOf(requests)(id)
  }

  /** A walk from the start returns every hit of the last results exactly once if and only if each hit falls
      behind as many of the offsets, between two pages, as it rises ahead of. */
  lemma {:induction false} OffsetsKeepIff(requests: seq<Request>)
    requires Ended(requests, 0, 0)
    ensures multiset(Walk(requests, 0, 0)) == Whole(requests[LastPage(requests, 0, 0)]) <==> Balanced(requests)
  {
    var all, whole := multiset(Walk(requests, 0, 0)), Whole(requests[LastPage(requests, 0, 0)]);
    var before, after := BeforeOf(requests), AfterOf(requests);
    forall id
      ensures all[id] + after(id) == whole[id] + before(id)
    {
      StartAccount(requests, id);
    }
    Balance(all, after, whole, before);
  }

  lemma {:induction false} Balance(all: Bag, after: TweetId -> nat, whole: Bag, before: TweetId -> nat)
    requires forall id :: all[id] + after(id) == whole[id] + before(id)
    ensures all == whole <==> forall id :: before(id) == after(id)
  {
    if all == whole {
      forall id
        ensures before(id) == after(id)
      {
        assert all[id] + after(id) == whole[id] + before(id);
      }
    } else if forall id :: before(id) == after(id) {
      forall id
        ensures all[id] == whole[id]
      {
        assert all[id] + after(id) == whole[id] + before(id);
      }
    }
  }

  // ---------- results that change once ----------

  /** Up to request `m` the results are those of `before`, from there on those of `now`. */
  ghost predicate ChangesOnce(requests: seq<Request>, m: nat, before: Request, now: Request) {
    forall i :: 0 <= i < |requests| ==>
      var r := if i < m then before else now;
      requests[i].hits == r.hits && requests[i].known == r.known
  }

  /** The offset of request `n` in a walk that is at `offset` with request `k`. */
  ghost function OffsetAt(requests: seq<Request>, k: nat, offset: nat, n: nat): nat
    requires k <= n <= |requests|
    decreases n - k
  {
    if k == n then offset else OffsetAt(requests, k + 1, offset + requests[k].limit, n)
  }

  /** After the change both sides meet the same results. */
  lemma {:induction false} AfterTheChange(requests: seq<Request>, k: nat, offset: nat, m: nat, before: Request,
                                          now: Request, id: TweetId)
    requires ChangesOnce(requests, m, before, now) && m <= k < |requests|
    ensures AheadBefore(requests, k, offset, id) == AheadAfter(requests, k, offset, id)
    decreases |requests| - k
  {
    if k + 1 < |requests| && GoesOn(requests[k], offset) {
      var end := offset + requests[k].limit;
      AfterTheChange(requests, k + 1, end, m, before, now, id);
      SameAhead(requests[k], requests[k + 1], end);
    }
  }

  lemma {:induction false} UntilTheChange(requests: seq<Request>, k: nat, offset: nat, m: nat, before: Request,
                                          now: Request, id: TweetId)
    requires ChangesOnce(requests, m, before, now) && k < m < |requests| && LastPage(requests, k, offset) >= m
    ensures AheadBefore(requests, k, offset, id) + Ahead(now, OffsetAt(requests, k, offset, m))[id]
            == AheadAfter(requests, k, offset, id) + Ahead(before, OffsetAt(requests, k, offset, m))[id]
    decreases m - k
  {
    var end := offset + requests[k].limit;
    AheadUnfolds(requests, k, offset, id);
    SameAhead(requests[k], before, end);
    assert OffsetAt(requests, k, offset, m) == OffsetAt(requests, k + 1, end, m);
    if k + 1 < m {
      SameAhead(requests[k + 1], before, end);
      UntilTheChange(requests, k + 1, end, m, before, now, id);
    } else {
      AtTheChange(requests, k, end, before, now, id);
    }
  }

  lemma {:induction false} AtTheChange(requests: seq<Request>, k: nat, end: nat, before: Request, now: Request,
                                       id: TweetId)
    requires ChangesOnce(requests, k + 1, before, now) && k + 1 < |requests|
    ensures OffsetAt(requests, k + 1, end, k + 1) == end
    ensures Ahead(requests[k + 1], end) == Ahead(now, end)
    ensures AheadBefore(requests, k + 1, end, id) == AheadAfter(requests, k + 1, end, id)
  {
    AfterTheChange(requests, k + 1, end, k + 1, before, now, id);
    SameAhead(requests[k + 1], now, end);
  }

  lemma {:induction false} SameAhead(r: Request, s: Request, offset: nat)
    requires r.hits == s.hits && r.known == s.known
    ensures Ahead(r, offset) == Ahead(s, offset)
  {
  }

  lemma {:induction false} AheadUnfolds(requests: seq<Request>, k: nat, offset: nat, id: TweetId)
    requires k + 1 < |requests| && LastPage(requests, k, offset) > k
    ensures var end := offset + requests[k].limit;
            && LastPage(requests, k, offset) == LastPage(requests, k + 1, end)
            && AheadBefore(requests, k, offset, id)
               == Ahead(requests[k], end)[id] + AheadBefore(requests, k + 1, end, id)
            && AheadAfter(requests, k, offset, id)
               == Ahead(requests[k + 1], end)[id] + AheadAfter(requests, k + 1, end, id)
  {
  }

  /** The results change once, when the client is at offset `s`. Every hit of the new results is returned
      as often as it is in them, once more if it was among the first `s` and is not any more, and once less
      if it is among the first `s` and was not. So all come exactly once if and only if the first `s` hits
      are the same ones, in whatever order. */
  lemma {:induction false} OneChangeIff(requests: seq<Request>, m: nat, before: Request, now: Request)
    requires ChangesOnce(requests, m, before, now) && 0 < m < |requests|
    requires Ended(requests, 0, 0) && LastPage(requests, 0, 0) >= m
    ensures var s, all := OffsetAt(requests, 0, 0, m), multiset(Walk(requests, 0, 0));
            && (forall id :: all[id] + Ahead(now, s)[id] == Whole(now)[id] + Ahead(before, s)[id])
            && (all == Whole(now) <==> Ahead(before, s) == Ahead(now, s))
  {
    var s, all := OffsetAt(requests, 0, 0, m), multiset(Walk(requests, 0, 0));
    var x, y, whole := Ahead(before, s), Ahead(now, s), Whole(now);
    forall id
      ensures all[id] + y[id] == whole[id] + x[id]
    {
      StartAccount(requests, id);
      UntilTheChange(requests, 0, 0, m, before, now, id);
    }
    Balance(all, id => y[id], whole, id => x[id]);
  }

  /** Instances of both: a new first hit pushes an earlier one onto the next page again, and a hit that
      disappears pulls a later one off it. */
  lemma {:induction false} OffsetsDrift(a: TweetId, b: TweetId, c: TweetId)
    requires a != b && b != c && a != c
    ensures var known := {a, b, c};
            && Page([a, b], known, 1, 0) == ([a], Some(1))
            && Page([c, a, b], known, 1, 1).0 == [a]
            && Page([b], known, 1, 1).0 == []
  {
    var known := {a, b, c};
    assert Existing([a, b], known, 0, 1) == [a];
    assert Existing([c, a, b], known, 1, 2) == [a];
  }
}
