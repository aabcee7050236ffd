/** Which candidate rows a claim takes: `ORDER BY rank, created_at, id ... LIMIT n`, after skipping
    locked rows (server/src/transfer/queue.rs and server/src/search/queue.rs). */
module ClaimOrder {

  datatype SortKey = SortKey(rank: int, createdAt: int, id: int)

  predicate Before(a: SortKey, b: SortKey) {
    || a.rank < b.rank
    || (a.rank == b.rank && a.createdAt < b.createdAt)
    || (a.rank == b.rank && a.createdAt == b.createdAt && a.id < b.id)
  }

  /** No candidate left behind comes before a chosen one. */
  ghost predicate TakesFirst<K(!new)>(chosen: set<K>, candidates: set<K>, key: K -> SortKey) {
    && chosen <= candidates
    && forall c, u :: c in chosen && u in candidates && u !in chosen ==> !Before(key(u), key(c))
  }

  method First<K(!new)>(candidates: set<K>, key: K -> SortKey) returns (best: K)
    requires |candidates| > 0
    ensures best in candidates
    ensures forall u :: u in candidates ==> !Before(key(u), key(best))
  {
    assert candidates != {};
    NonEmpty(candidates);
    best :| best in candidates;
    var left := candidates - {best};
    while left != {}
      invariant best in candidates && left <= candidates
      invariant forall u :: u in candidates && u !in left ==> !Before(key(u), key(best))
      decreases left
    {
      NonEmpty(left);
      var u :| u in left;
      if Before(key(u), key(best)) {
        best := u;
      }
      left := left - {u};
    }
  }

  lemma {:induction false} NonEmpty<K>(s: set<K>)
    requires s != {}
    ensures exists x :: x in s
  {
  }

  /** The first `limit` candidates in claim order, or all of them if there are fewer. */
  method TakeFirst<K(!new)>(candidates: set<K>, key: K -> SortKey, limit: nat) returns (chosen: set<K>)
    ensures TakesFirst(chosen, candidates, key)
    ensures |chosen| == if |candidates| < limit then |candidates| else limit
  {
    chosen := {};
    var left := candidates;
    while |chosen| < limit && |left| > 0
      invariant chosen !! left && chosen + left == candidates
      invariant |chosen| + |left| == |candidates| && |chosen| <= limit
      invariant TakesFirst(chosen, candidates, key)
      decreases left
    {
      var next := First(left, key);
      chosen := chosen + {next};
      left := left - {next};
    }
  }
}
