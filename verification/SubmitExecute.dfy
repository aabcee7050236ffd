/** Writing the users and places of a prepared batch: rows that name the same key are merged into one
    write, and its outcome is reported to every object it came from
    (server/src/tweet_submit/execute/users.rs, lines 3 to 84; execute/tweets.rs, lines 3 to 45). */
module SubmitExecute {
  import opened Prelude
  import opened SubmitResult
  import opened SubmitPrepare

  /** What a batch statement answers: the keys of the rows it changed, or its failure. */
  type Outcome = Result<set<RowKey>, string>

  datatype RowKey = UserRow(user: int) | PlaceRow(place: string) | RecordRow(record: Record)

  function UserKey(user: TwitterUser): RowKey {
    UserRow(user.id)
  }

  function PlaceKey(place: TweetPlace): RowKey {
    PlaceRow(place.id)
  }

  // ---------- grouping by key ----------

  /** The indices of the first `n` items that have key `k`, in order. */
  function IndicesOf<T>(items: seq<Indexed<T>>, key: T -> RowKey, k: RowKey, n: nat): seq<nat>
    requires n <= |items|
  {
    if n == 0 then []
    else IndicesOf(items, key, k, n - 1) + if key(items[n - 1].value) == k then [items[n - 1].index] else []
  }

  /** Every item names an object of its own. */
  ghost predicate OwnIndices<T>(items: seq<Indexed<T>>, bound: nat) {
    && (forall m :: 0 <= m < |items| ==> items[m].index < bound)
    && (forall j, m :: 0 <= j < m < |items| ==> items[j].index != items[m].index)
  }

  lemma {:induction false} IndicesFacts<T>(items: seq<Indexed<T>>, key: T -> RowKey, k: RowKey, n: nat, bound: nat)
    requires n <= |items| && OwnIndices(items, bound)
    ensures var s := IndicesOf(items, key, k, n);
            && (forall i :: 0 <= i < |s| ==> s[i] < bound)
            && (forall i, j :: 0 <= i < j < |s| ==> s[i] != s[j])
            && (forall m :: 0 <= m < n ==> (items[m].index in s <==> key(items[m].value) == k))
            && (forall x :: x in s ==> exists m :: 0 <= m < n && items[m].index == x)
  {
    if n > 0 {
      IndicesFacts(items, key, k, n - 1, bound);
      var s, x := IndicesOf(items, key, k, n - 1), items[n - 1].index;
      assert x !in s;
      assert forall y :: y in IndicesOf(items, key, k, n) <==> y in s || (y == x && key(items[n - 1].value) == k);
    }
  }

  // ---------- reporting ----------

  /** The listed results have one more operation, all others are the same. */
  ghost predicate Adds(before: seq<ObjectResult>, after: seq<ObjectResult>, indices: seq<nat>, op: Operation) {
    && |after| == |before|
    && forall k :: 0 <= k < |before| ==> after[k] == if k in indices then before[k].Add(op) else before[k]
  }

  /** Adds an operation to each listed result. */
  method RecordAll(results: seq<ObjectResult>, indices: seq<nat>, op: Operation) returns (r: seq<ObjectResult>)
    requires forall i :: 0 <= i < |indices| ==> indices[i] < |results|
    requires forall i, j :: 0 <= i < j < |indices| ==> indices[i] != indices[j]
    ensures Adds(results, r, indices, op)
  {
    r := results;
    for i := 0 to |indices|
      invariant Adds(results, r, indices[..i], op)
    {
      r := r[indices[i] := r[indices[i]].Add(op)];
      assert indices[..i + 1] == indices[..i] + [indices[i]];
    }
    assert indices[..|indices|] == indices;
  }

  /** The keys in `done` have been reported: each of their items has got one operation, all other results
      are as before. */
  ghost predicate Reported<T>(before: seq<ObjectResult>, after: seq<ObjectResult>, items: seq<Indexed<T>>,
                                 key: T -> RowKey, done: seq<RowKey>, op: RowKey -> Operation)
    requires OwnIndices(items, |before|)
  {
    && |after| == |before|
    && (forall m :: 0 <= m < |items| ==> ItemReported(before, after, items[m], key, done, op))
    && (forall k :: 0 <= k < |before| && (forall m :: 0 <= m < |items| ==> items[m].index != k) ==>
          after[k] == before[k])
  }

  ghost predicate ItemReported<T>(before: seq<ObjectResult>, after: seq<ObjectResult>, item: Indexed<T>,
                                     key: T -> RowKey, done: seq<RowKey>, op: RowKey -> Operation)
    requires item.index < |before| == |after|
  {
    after[item.index] == if key(item.value) in done then before[item.index].Add(op(key(item.value)))
      else before[item.index]
  }

  /** Reporting to one more key. */
  lemma {:induction false} ReportKey<T>(before: seq<ObjectResult>, after: seq<ObjectResult>, next: seq<ObjectResult>,
                        items: seq<Indexed<T>>, key: T -> RowKey, done: seq<RowKey>, k: RowKey, op: RowKey -> Operation)
    requires OwnIndices(items, |before|) && Reported(before, after, items, key, done, op) && k !in done
    requires Adds(after, next, IndicesOf(items, key, k, |items|), op(k))
    ensures Reported(before, next, items, key, done + [k], op)
  {
    IndicesFacts(items, key, k, |items|, |before|);
    forall m | 0 <= m < |items|
      ensures ItemReported(before, next, items[m], key, done + [k], op)
    {
      ReportItem(before, after, next, items, key, done, k, op, m);
    }
  }

  lemma {:induction false} ReportItem<T>(before: seq<ObjectResult>, after: seq<ObjectResult>, next: seq<ObjectResult>,
                         items: seq<Indexed<T>>, key: T -> RowKey, done: seq<RowKey>, k: RowKey,
                         op: RowKey -> Operation, m: nat)
    requires OwnIndices(items, |before|) && Reported(before, after, items, key, done, op) && k !in done
    requires Adds(after, next, IndicesOf(items, key, k, |items|), op(k)) && m < |items|
    ensures ItemReported(before, next, items[m], key, done + [k], op)
  {
    IndicesFacts(items, key, k, |items|, |before|);
    assert ItemReported(before, after, items[m], key, done, op);
  }

  /** The keys of a hash map, in whatever order it yields them. */
  method AnyOrder<K(==), V>(m: map<K, V>) returns (order: seq<K>)
    ensures forall k :: k in order <==> k in m
    ensures forall i, j :: 0 <= i < j < |order| ==> order[i] != order[j]
  {
    order := [];
    var rest := m.Keys;
    while |rest| > 0
      invariant forall k :: k in m <==> k in order || k in rest
      invariant forall k :: k in order ==> k !in rest
      invariant forall i, j :: 0 <= i < j < |order| ==> order[i] != order[j]
      decreases |rest|
    {
      var k :| k in rest;
      order := order + [k];
      rest := rest - {k};
    }
  }

  // ---------- users and tweet authors ----------

  datatype CombinedUserWrite = CombinedUserWrite(value: TwitterUser, userIndices: seq<nat>, tweetIndices: seq<nat>)

  /** The first known registration date of a user among the first `n` items. */
  function Registered(items: seq<Indexed<TwitterUser>>, id: int, n: nat): Option<int>
    requires n <= |items|
  {
    if n == 0 then None
    else if Registered(items, id, n - 1).Some? then Registered(items, id, n - 1)
    else if items[n - 1].value.id == id then items[n - 1].value.registeredAt
    else None
  }

  /** The first item of the first `n` that has key `k`. */
  function FirstOf<T>(items: seq<Indexed<T>>, key: T -> RowKey, k: RowKey, n: nat): (r: Option<T>)
    requires n <= |items|
    ensures r.Some? <==> exists m :: 0 <= m < n && key(items[m].value) == k
  {
    if n == 0 then None
    else if FirstOf(items, key, k, n - 1).Some? then FirstOf(items, key, k, n - 1)
    else if key(items[n - 1].value) == k then Some(items[n - 1].value)
    else None
  }

  /** The row written for one id: the date comes from the submitted user, if there is one. */
  function MergedUser(users: seq<Indexed<TwitterUser>>, i: nat, authors: seq<Indexed<TwitterUser>>, j: nat, id: int):
      TwitterUser
    requires i <= |users| && j <= |authors|
  {
    var author := FirstOf(authors, UserKey, UserRow(id), j);
    TwitterUser(id, if FirstOf(users, UserKey, UserRow(id), i).Some? then Registered(users, id, i)
                    else if author.Some? then author.value.registeredAt else None)
  }

  function Group(users: seq<Indexed<TwitterUser>>, i: nat, authors: seq<Indexed<TwitterUser>>, j: nat, id: int):
      CombinedUserWrite
    requires i <= |users| && j <= |authors|
  {
    CombinedUserWrite(MergedUser(users, i, authors, j, id),
                      IndicesOf(users, UserKey, UserRow(id), i), IndicesOf(authors, UserKey, UserRow(id), j))
  }

  lemma {:induction false} Absent<T>(items: seq<Indexed<T>>, key: T -> RowKey, k: RowKey, n: nat)
    requires n <= |items| && FirstOf(items, key, k, n).None?
    ensures IndicesOf(items, key, k, n) == []
  {
    if n > 0 {
      Absent(items, key, k, n - 1);
    }
  }

  lemma {:induction false} NotRegistered(items: seq<Indexed<TwitterUser>>, id: int, n: nat)
    requires n <= |items| && FirstOf(items, UserKey, UserRow(id), n).None?
    ensures Registered(items, id, n).None?
  {
    if n > 0 {
      NotRegistered(items, id, n - 1);
    }
  }

  /** The group of one id once `i` users and `j` authors have been put in. */
  ghost predicate GroupOk(combined: map<RowKey, CombinedUserWrite>, users: seq<Indexed<TwitterUser>>, i: nat,
                          authors: seq<Indexed<TwitterUser>>, j: nat, id: int)
    requires i <= |users| && j <= |authors|
  {
    && (UserRow(id) in combined
        <==> FirstOf(users, UserKey, UserRow(id), i).Some? || FirstOf(authors, UserKey, UserRow(id), j).Some?)
    && (UserRow(id) in combined ==> combined[UserRow(id)] == Group(users, i, authors, j, id))
  }

  method CombineUsers(users: seq<Indexed<TwitterUser>>, authors: seq<Indexed<TwitterUser>>)
    returns (combined: map<RowKey, CombinedUserWrite>)
    ensures forall id :: GroupOk(combined, users, |users|, authors, |authors|, id)
    ensures forall k :: k in combined ==> k.UserRow?
  {
    combined := map[];
    for i := 0 to |users|
      invariant forall id :: GroupOk(combined, users, i, authors, 0, id)
      invariant forall k :: k in combined ==> k.UserRow?
    {
      var item := users[i];
      ghost var before := combined;
      assert GroupOk(before, users, i, authors, 0, item.value.id);
      var n := i + 1;
      if UserRow(item.value.id) in combined {
        var entry := combined[UserRow(item.value.id)];
        if entry.value.registeredAt.None? && item.value.registeredAt.Some? {
          entry := entry.(value := entry.value.(registeredAt := item.value.registeredAt));
        }
        combined := combined[UserRow(item.value.id) := entry.(userIndices := entry.userIndices + [item.index])];
      } else {
        Absent(users, UserKey, UserRow(item.value.id), i);
        NotRegistered(users, item.value.id, i);
        combined := combined[UserRow(item.value.id) := CombinedUserWrite(item.value, [item.index], [])];
      }
      forall id
        ensures GroupOk(combined, users, n, authors, 0, id)
      {
        assert GroupOk(before, users, i, authors, 0, id);
      }
    }
    for j := 0 to |authors|
      invariant forall id :: GroupOk(combined, users, |users|, authors, j, id)
      invariant forall k :: k in combined ==> k.UserRow?
    {
      var item := authors[j];
      ghost var before := combined;
      assert GroupOk(before, users, |users|, authors, j, item.value.id);
      var n := j + 1;
      if UserRow(item.value.id) in combined {
        var entry := combined[UserRow(item.value.id)];
        combined := combined[UserRow(item.value.id) := entry.(tweetIndices := entry.tweetIndices + [item.index])];
      } else {
        Absent(users, UserKey, UserRow(item.value.id), |users|);
        Absent(authors, UserKey, UserRow(item.value.id), j);
        combined := combined[UserRow(item.value.id) := CombinedUserWrite(item.value, [], [item.index])];
      }
      forall id
        ensures GroupOk(combined, users, |users|, authors, n, id)
      {
        assert GroupOk(before, users, |users|, authors, j, id);
      }
    }
  }

  /** The rows of the statement: one for every id that occurs, none twice. The date is the first known one of
      the submitted users with that id, and the one of the first such author if no user has it. */
  ghost predicate Sent(sent: seq<TwitterUser>, users: seq<Indexed<TwitterUser>>, authors: seq<Indexed<TwitterUser>>) {
    && (forall i, j :: 0 <= i < j < |sent| ==> sent[i].id != sent[j].id)
    && (forall i :: 0 <= i < |sent| ==>
          if Occurs(users, sent[i].id) then FirstDate(users, sent[i]) else FirstVersion(authors, UserKey, sent[i]))
    && (forall id :: HasRow(sent, id) <==> Occurs(users, id) || Occurs(authors, id))
  }

  /** The date of the first item of this id that has one; none if none has. */
  ghost predicate FirstDate(items: seq<Indexed<TwitterUser>>, user: TwitterUser) {
    if user.registeredAt.None? then
      forall m :: 0 <= m < |items| && items[m].value.id == user.id ==> items[m].value.registeredAt.None?
    else
      exists m :: 0 <= m < |items| && items[m].value == user && forall j :: 0 <= j < m ==>
        items[j].value.id != user.id || items[j].value.registeredAt.None?
  }

  /** The first item with this key is this one. */
  ghost predicate FirstVersion<T>(items: seq<Indexed<T>>, key: T -> RowKey, value: T) {
    exists m :: 0 <= m < |items| && items[m].value == value && forall j :: 0 <= j < m ==>
      key(items[j].value) != key(value)
  }

  lemma {:induction false} FirstOfIsFirst<T>(items: seq<Indexed<T>>, key: T -> RowKey, k: RowKey, n: nat)
    returns (m: nat)
    requires n <= |items| && FirstOf(items, key, k, n).Some?
    ensures m < n && items[m].value == FirstOf(items, key, k, n).value && key(items[m].value) == k
    ensures forall j :: 0 <= j < m ==> key(items[j].value) != k
  {
    if FirstOf(items, key, k, n - 1).Some? {
      m := FirstOfIsFirst(items, key, k, n - 1);
    } else {
      m := n - 1;
    }
  }

  lemma {:induction false} RegisteredIsFirst(items: seq<Indexed<TwitterUser>>, id: int, n: nat) returns (m: int)
    requires n <= |items|
    ensures var date := Registered(items, id, n);
            if date.None?
            then forall j :: 0 <= j < n && items[j].value.id == id ==> items[j].value.registeredAt.None?
            else
              && 0 <= m < n && items[m].value == TwitterUser(id, date)
              && forall j :: 0 <= j < m ==> items[j].value.id != id || items[j].value.registeredAt.None?
  {
    m := 0;
    if n > 0 {
      m := RegisteredIsFirst(items, id, n - 1);
      if Registered(items, id, n - 1).None? {
        m := n - 1;
      }
    }
  }

  /** The row of a group is that of the first version. */
  lemma {:induction false} MergedIsFirst(users: seq<Indexed<TwitterUser>>, authors: seq<Indexed<TwitterUser>>, id: int)
    requires Occurs(users, id) || Occurs(authors, id)
    ensures var row := MergedUser(users, |users|, authors, |authors|, id);
            if Occurs(users, id) then FirstDate(users, row) else FirstVersion(authors, UserKey, row)
  {
    if Occurs(users, id) {
      var m :| 0 <= m < |users| && users[m].value.id == id;
      assert UserKey(users[m].value) == UserRow(id);
      var first := RegisteredIsFirst(users, id, |users|);
    } else {
      var m :| 0 <= m < |authors| && authors[m].value.id == id;
      assert UserKey(authors[m].value) == UserRow(id);
      assert FirstOf(users, UserKey, UserRow(id), |users|).None?;
      var first := FirstOfIsFirst(authors, UserKey, UserRow(id), |authors|);
    }
  }

  ghost predicate HasRow(sent: seq<TwitterUser>, id: int) {
    exists i :: 0 <= i < |sent| && sent[i].id == id
  }

  ghost predicate Occurs(items: seq<Indexed<TwitterUser>>, id: int) {
    exists m :: 0 <= m < |items| && items[m].value.id == id
  }

  function UserOp(outcome: Outcome): RowKey -> Operation {
    (k: RowKey) =>
      if outcome.Err? then Operation(TwitterUserWrite, OperationStatus.Failed, outcome.error)
      else if k in outcome.value then Operation(TwitterUserWrite, OperationStatus.Accepted, "inserted_or_filled")
      else Operation(TwitterUserWrite, OperationStatus.Skipped, "unchanged_or_existing")
  }

  function AuthorOp(outcome: Outcome): RowKey -> Operation {
    (k: RowKey) =>
      if outcome.Err? then Operation(TweetAuthorWrite, OperationStatus.Failed, outcome.error)
      else if k in outcome.value then Operation(TweetAuthorWrite, OperationStatus.Accepted, "inserted_minimal")
      else Operation(TweetAuthorWrite, OperationStatus.Skipped, "existing")
  }

  /** What a statement that answers with the rows it has changed comes to for the row with key `k`: accepted
      if it was changed, skipped if not, failed if the statement has failed. */
  ghost predicate ChangedTold(said: seq<Operation>, name: OperationName, answer: Outcome, k: RowKey, written: string,
                              kept: string) {
    && |said| == 1 && said[0].name == name
    && (said[0].status == OperationStatus.Accepted <==> answer.Ok? && k in answer.value)
    && (said[0].status == OperationStatus.Failed <==> answer.Err?)
    && said[0].reason == if answer.Err? then answer.error else if k in answer.value then written else kept
  }

  /** Every item is told so of its own row. */
  ghost predicate AllChangedTold<T>(before: seq<ObjectResult>, after: seq<ObjectResult>, items: seq<Indexed<T>>,
                                    key: T -> RowKey, name: OperationName, answer: Outcome, written: string,
                                    kept: string)
    requires OwnIndices(items, |before|) && |after| == |before|
  {
    forall m :: 0 <= m < |items| ==>
      ChangedTold(News(before[items[m].index], after[items[m].index]), name, answer, key(items[m].value), written, kept)
  }

  lemma {:induction false} ReportedIsTold<T>(before: seq<ObjectResult>, after: seq<ObjectResult>,
                                             items: seq<Indexed<T>>, key: T -> RowKey, op: RowKey -> Operation,
                                             name: OperationName, answer: Outcome, written: string, kept: string)
    requires OwnIndices(items, |before|) && AllReported(before, after, items, key, op)
    requires forall k :: ChangedTold([op(k)], name, answer, k, written, kept)
    ensures AllChangedTold(before, after, items, key, name, answer, written, kept)
  {
    forall m | 0 <= m < |items|
      ensures News(before[items[m].index], after[items[m].index]) == [op(key(items[m].value))]
    {
    }
  }

  /** Every item has got one operation, all other results are as before. */
  ghost predicate AllReported<T>(before: seq<ObjectResult>, after: seq<ObjectResult>, items: seq<Indexed<T>>,
                                 key: T -> RowKey, op: RowKey -> Operation)
    requires OwnIndices(items, |before|)
  {
    && |after| == |before|
    && (forall m :: 0 <= m < |items| ==>
          after[items[m].index] == before[items[m].index].Add(op(key(items[m].value))))
    && (forall k :: 0 <= k < |before| && (forall m :: 0 <= m < |items| ==> items[m].index != k) ==>
          after[k] == before[k])
  }

  lemma {:induction false} ReportedAll<T>(before: seq<ObjectResult>, after: seq<ObjectResult>, items: seq<Indexed<T>>,
                       key: T -> RowKey, done: seq<RowKey>, op: RowKey -> Operation)
    requires OwnIndices(items, |before|) && Reported(before, after, items, key, done, op)
    requires forall m :: 0 <= m < |items| ==> key(items[m].value) in done
    ensures AllReported(before, after, items, key, op)
  {
  }

  /** Reports the outcome of one row to all objects it came from. */
  method ReportUser(prepared: PreparedSubmitBatch, item: CombinedUserWrite, outcome: Outcome)
    requires forall i :: 0 <= i < |item.userIndices| ==> item.userIndices[i] < |prepared.userResults|
    requires forall i, j :: 0 <= i < j < |item.userIndices| ==> item.userIndices[i] != item.userIndices[j]
    requires forall i :: 0 <= i < |item.tweetIndices| ==> item.tweetIndices[i] < |prepared.tweetResults|
    requires forall i, j :: 0 <= i < j < |item.tweetIndices| ==> item.tweetIndices[i] != item.tweetIndices[j]
    modifies prepared`userResults, prepared`tweetResults
    ensures Adds(old(prepared.userResults), prepared.userResults, item.userIndices,
                 UserOp(outcome)(UserRow(item.value.id)))
    ensures Adds(old(prepared.tweetResults), prepared.tweetResults, item.tweetIndices,
                 AuthorOp(outcome)(UserRow(item.value.id)))
  {
    var userOp, authorOp;
    match outcome {
      case Ok(changed) =>
        if UserRow(item.value.id) in changed {
          userOp := Operation(TwitterUserWrite, OperationStatus.Accepted, "inserted_or_filled");
          authorOp := Operation(TweetAuthorWrite, OperationStatus.Accepted, "inserted_minimal");
        } else {
          userOp := Operation(TwitterUserWrite, OperationStatus.Skipped, "unchanged_or_existing");
          authorOp := Operation(TweetAuthorWrite, OperationStatus.Skipped, "existing");
        }
      case Err(error) =>
        userOp := Operation(TwitterUserWrite, OperationStatus.Failed, error);
        authorOp := Operation(TweetAuthorWrite, OperationStatus.Failed, error);
    }
    prepared.userResults := RecordAll(prepared.userResults, item.userIndices, userOp);
    prepared.tweetResults := RecordAll(prepared.tweetResults, item.tweetIndices, authorOp);
  }

  /** Reports the outcome of the row with key `k` after those in `done`. */
  method ReportRow(prepared: PreparedSubmitBatch, item: CombinedUserWrite, outcome: Outcome, k: RowKey,
                   ghost users: seq<ObjectResult>, ghost tweets: seq<ObjectResult>, ghost done: seq<RowKey>)
    requires OwnIndices(prepared.users, |users|) && OwnIndices(prepared.tweetAuthors, |tweets|)
    requires k == UserRow(item.value.id) && k !in done
    requires item.userIndices == IndicesOf(prepared.users, UserKey, k, |prepared.users|)
    requires item.tweetIndices == IndicesOf(prepared.tweetAuthors, UserKey, k, |prepared.tweetAuthors|)
    requires Reported(users, prepared.userResults, prepared.users, UserKey, done, UserOp(outcome))
    requires Reported(tweets, prepared.tweetResults, prepared.tweetAuthors, UserKey, done, AuthorOp(outcome))
    modifies prepared`userResults, prepared`tweetResults
    ensures Reported(users, prepared.userResults, prepared.users, UserKey, done + [k], UserOp(outcome))
    ensures Reported(tweets, prepared.tweetResults, prepared.tweetAuthors, UserKey, done + [k], AuthorOp(outcome))
  {
    ghost var users', tweets' := prepared.userResults, prepared.tweetResults;
    IndicesFacts(prepared.users, UserKey, k, |prepared.users|, |users|);
    IndicesFacts(prepared.tweetAuthors, UserKey, k, |prepared.tweetAuthors|, |tweets|);
    ReportUser(prepared, item, outcome);
    ReportKey(users, users', prepared.userResults, prepared.users, UserKey, done, k, UserOp(outcome));
    ReportKey(tweets, tweets', prepared.tweetResults, prepared.tweetAuthors, UserKey, done, k, AuthorOp(outcome));
  }

  /** The group of key `k` is the one of that key. */
  ghost predicate EntryFor(combined: map<RowKey, CombinedUserWrite>, users: seq<Indexed<TwitterUser>>,
                           authors: seq<Indexed<TwitterUser>>, k: RowKey) {
    && k in combined && k == UserRow(combined[k].value.id)
    && combined[k].userIndices == IndicesOf(users, UserKey, k, |users|)
    && combined[k].tweetIndices == IndicesOf(authors, UserKey, k, |authors|)
  }

  lemma {:induction false} ReportedNone<T>(before: seq<ObjectResult>, items: seq<Indexed<T>>, key: T -> RowKey,
                                           op: RowKey -> Operation)
    requires OwnIndices(items, |before|)
    ensures Reported(before, before, items, key, [], op)
  {
  }

  /** Reports to the objects of every row, in the order the hash map yielded them. */
  method ReportUsers(prepared: PreparedSubmitBatch, combined: map<RowKey, CombinedUserWrite>, order: seq<RowKey>,
                     outcome: Outcome)
    requires OwnIndices(prepared.users, |prepared.userResults|)
    requires OwnIndices(prepared.tweetAuthors, |prepared.tweetResults|)
    requires forall t :: 0 <= t < |order| ==> EntryFor(combined, prepared.users, prepared.tweetAuthors, order[t])
    requires forall i, j :: 0 <= i < j < |order| ==> order[i] != order[j]
    modifies prepared`userResults, prepared`tweetResults
    ensures Reported(old(prepared.userResults), prepared.userResults, prepared.users, UserKey, order, UserOp(outcome))
    ensures Reported(old(prepared.tweetResults), prepared.tweetResults, prepared.tweetAuthors, UserKey, order,
                     AuthorOp(outcome))
  {
    ghost var users, tweets := prepared.userResults, prepared.tweetResults;
    ReportedNone(users, prepared.users, UserKey, UserOp(outcome));
    ReportedNone(tweets, prepared.tweetAuthors, UserKey, AuthorOp(outcome));
    for t := 0 to |order|
      invariant Reported(users, prepared.userResults, prepared.users, UserKey, order[..t], UserOp(outcome))
      invariant Reported(tweets, prepared.tweetResults, prepared.tweetAuthors, UserKey, order[..t], AuthorOp(outcome))
    {
      assert EntryFor(combined, prepared.users, prepared.tweetAuthors, order[t]);
      ReportRow(prepared, combined[order[t]], outcome, order[t], users, tweets, order[..t]);
      assert order[..t + 1] == order[..t] + [order[t]];
    }
    assert order[..|order|] == order;
  }

  function RowsOf(combined: map<RowKey, CombinedUserWrite>, order: seq<RowKey>): seq<TwitterUser>
    requires forall k :: k in order ==> k in combined
  {
    seq(|order|, i requires 0 <= i < |order| => combined[order[i]].value)
  }

  /** Every item is in some group. */
  lemma {:induction false} AllKeys(users: seq<Indexed<TwitterUser>>, authors: seq<Indexed<TwitterUser>>,
                combined: map<RowKey, CombinedUserWrite>)
    requires forall id :: GroupOk(combined, users, |users|, authors, |authors|, id)
    ensures forall m :: 0 <= m < |users| ==> UserKey(users[m].value) in combined
    ensures forall m :: 0 <= m < |authors| ==> UserKey(authors[m].value) in combined
  {
    forall m | 0 <= m < |users|
      ensures UserKey(users[m].value) in combined
    {
      assert GroupOk(combined, users, |users|, authors, |authors|, users[m].value.id);
    }
    forall m | 0 <= m < |authors|
      ensures UserKey(authors[m].value) in combined
    {
      assert GroupOk(combined, users, |users|, authors, |authors|, authors[m].value.id);
    }
  }

  lemma {:induction false} SentRows(users: seq<Indexed<TwitterUser>>, authors: seq<Indexed<TwitterUser>>,
                 combined: map<RowKey, CombinedUserWrite>, order: seq<RowKey>, sent: seq<TwitterUser>)
    requires forall id :: GroupOk(combined, users, |users|, authors, |authors|, id)
    requires forall k :: k in combined ==> k.UserRow?
    requires forall k :: k in order <==> k in combined
    requires forall i, j :: 0 <= i < j < |order| ==> order[i] != order[j]
    requires sent == RowsOf(combined, order)
    ensures Sent(sent, users, authors)
  {
    forall i | 0 <= i < |sent|
      ensures sent[i] == MergedUser(users, |users|, authors, |authors|, sent[i].id) && order[i] == UserRow(sent[i].id)
    {
      assert order[i] in order;
      assert GroupOk(combined, users, |users|, authors, |authors|, order[i].user);
    }
    forall id
      ensures HasRow(sent, id) <==> Occurs(users, id) || Occurs(authors, id)
    {
      RowOccurs(users, authors, combined, order, sent, id);
    }
    forall i | 0 <= i < |sent|
      ensures if Occurs(users, sent[i].id) then FirstDate(users, sent[i]) else FirstVersion(authors, UserKey, sent[i])
    {
      assert HasRow(sent, sent[i].id);
      MergedIsFirst(users, authors, sent[i].id);
    }
  }

  lemma {:induction false} RowOccurs(users: seq<Indexed<TwitterUser>>, authors: seq<Indexed<TwitterUser>>,
                  combined: map<RowKey, CombinedUserWrite>, order: seq<RowKey>, sent: seq<TwitterUser>, id: int)
    requires GroupOk(combined, users, |users|, authors, |authors|, id)
    requires forall k :: k in order <==> k in combined
    requires |sent| == |order| && forall i :: 0 <= i < |sent| ==> order[i] == UserRow(sent[i].id)
    ensures HasRow(sent, id) <==> Occurs(users, id) || Occurs(authors, id)
  {
  }

  /** Writes the submitted users and the authors of tweets in one statement. Whatever order the hash map
      has, each user and each tweet that names an author gets exactly one operation, which says what became
      of the row of its id; nothing else in the reports changes. */
  method WriteCombinedUserBatch(prepared: PreparedSubmitBatch, insert: seq<TwitterUser> -> Outcome)
    returns (ghost sent: seq<TwitterUser>)
    requires OwnIndices(prepared.users, |prepared.userResults|)
    requires OwnIndices(prepared.tweetAuthors, |prepared.tweetResults|)
    modifies prepared`userResults, prepared`tweetResults
    ensures Sent(sent, prepared.users, prepared.tweetAuthors)
    ensures AllReported(old(prepared.userResults), prepared.userResults, prepared.users, UserKey, UserOp(insert(sent)))
    ensures AllReported(old(prepared.tweetResults), prepared.tweetResults, prepared.tweetAuthors, UserKey,
                        AuthorOp(insert(sent)))
    ensures AllChangedTold(old(prepared.userResults), prepared.userResults, prepared.users, UserKey, TwitterUserWrite,
                           insert(sent), "inserted_or_filled", "unchanged_or_existing")
    ensures AllChangedTold(old(prepared.tweetResults), prepared.tweetResults, prepared.tweetAuthors, UserKey,
                           TweetAuthorWrite, insert(sent), "inserted_minimal", "existing")
  {
    ghost var users, tweets := prepared.userResults, prepared.tweetResults;
    sent := WriteUserRows(prepared, insert);
    UsersTold(users, prepared.userResults, prepared.users, insert(sent));
    AuthorsTold(tweets, prepared.tweetResults, prepared.tweetAuthors, insert(sent));
  }

  lemma {:induction false} UsersTold(before: seq<ObjectResult>, after: seq<ObjectResult>,
                                     items: seq<Indexed<TwitterUser>>, answer: Outcome)
    requires OwnIndices(items, |before|) && AllReported(before, after, items, UserKey, UserOp(answer))
    ensures AllChangedTold(before, after, items, UserKey, TwitterUserWrite, answer, "inserted_or_filled",
                           "unchanged_or_existing")
  {
    ReportedIsTold(before, after, items, UserKey, UserOp(answer), TwitterUserWrite, answer, "inserted_or_filled",
                   "unchanged_or_existing");
  }

  lemma {:induction false} AuthorsTold(before: seq<ObjectResult>, after: seq<ObjectResult>,
                                       items: seq<Indexed<TwitterUser>>, answer: Outcome)
    requires OwnIndices(items, |before|) && AllReported(before, after, items, UserKey, AuthorOp(answer))
    ensures AllChangedTold(before, after, items, UserKey, TweetAuthorWrite, answer, "inserted_minimal", "existing")
  {
    ReportedIsTold(before, after, items, UserKey, AuthorOp(answer), TweetAuthorWrite, answer, "inserted_minimal",
                   "existing");
  }

  method WriteUserRows(prepared: PreparedSubmitBatch, insert: seq<TwitterUser> -> Outcome)
    returns (ghost sent: seq<TwitterUser>)
    requires OwnIndices(prepared.users, |prepared.userResults|)
    requires OwnIndices(prepared.tweetAuthors, |prepared.tweetResults|)
    modifies prepared`userResults, prepared`tweetResults
    ensures Sent(sent, prepared.users, prepared.tweetAuthors)
    ensures AllReported(old(prepared.userResults), prepared.userResults, prepared.users, UserKey, UserOp(insert(sent)))
    ensures AllReported(old(prepared.tweetResults), prepared.tweetResults, prepared.tweetAuthors, UserKey,
                        AuthorOp(insert(sent)))
  {
    sent := [];
    if prepared.users == [] && prepared.tweetAuthors == [] {
      return;
    }
    var combined := CombineUsers(prepared.users, prepared.tweetAuthors);
    var order := AnyOrder(combined);
    var values: seq<TwitterUser> := RowsOf(combined, order);
    SentRows(prepared.users, prepared.tweetAuthors, combined, order, values);
    sent := values;
    var outcome := insert(values);
    forall t | 0 <= t < |order|
      ensures EntryFor(combined, prepared.users, prepared.tweetAuthors, order[t])
    {
      assert order[t] in order;
      assert GroupOk(combined, prepared.users, |prepared.users|, prepared.tweetAuthors, |prepared.tweetAuthors|,
                     order[t].user);
    }
    ReportUsers(prepared, combined, order, outcome);
    AllKeys(prepared.users, prepared.tweetAuthors, combined);
    ReportedAll(old(prepared.userResults), prepared.userResults, prepared.users, UserKey, order, UserOp(outcome));
    ReportedAll(old(prepared.tweetResults), prepared.tweetResults, prepared.tweetAuthors, UserKey, order,
                AuthorOp(outcome));
  }

  // ---------- places ----------

  datatype PlaceGroup = PlaceGroup(value: TweetPlace, indices: seq<nat>)

  /** The group of one place once `n` items have been put in. */
  ghost predicate PlaceOk(deduped: map<RowKey, PlaceGroup>, items: seq<Indexed<TweetPlace>>, n: nat, k: RowKey)
    requires n <= |items|
  {
    var first := FirstOf(items, PlaceKey, k, n);
    && (k in deduped <==> first.Some?)
    && (first.Some? ==> deduped[k] == PlaceGroup(first.value, IndicesOf(items, PlaceKey, k, n)))
  }

  method DedupePlaces(items: seq<Indexed<TweetPlace>>) returns (deduped: map<RowKey, PlaceGroup>)
    ensures forall k :: PlaceOk(deduped, items, |items|, k)
  {
    deduped := map[];
    for i := 0 to |items|
      invariant forall k :: PlaceOk(deduped, items, i, k)
    {
      var item := items[i];
      var key := PlaceRow(item.value.id);
      ghost var before := deduped;
      assert PlaceOk(before, items, i, key);
      if key in deduped {
        deduped := deduped[key := deduped[key].(indices := deduped[key].indices + [item.index])];
      } else {
        Absent(items, PlaceKey, key, i);
        deduped := deduped[key := PlaceGroup(item.value, [item.index])];
      }
      var n := i + 1;
      forall k
        ensures PlaceOk(deduped, items, n, k)
      {
        assert PlaceOk(before, items, i, k);
      }
    }
  }

  /** The rows of the statement: the first submitted version of every place, none twice. */
  ghost predicate SentPlaces(sent: seq<TweetPlace>, items: seq<Indexed<TweetPlace>>) {
    && (forall i, j :: 0 <= i < j < |sent| ==> sent[i].id != sent[j].id)
    && (forall i :: 0 <= i < |sent| ==> FirstVersion(items, PlaceKey, sent[i]))
    && (forall m :: 0 <= m < |items| ==> HasPlace(sent, items[m].value.id))
  }

  ghost predicate HasPlace(sent: seq<TweetPlace>, id: string) {
    exists i :: 0 <= i < |sent| && sent[i].id == id
  }

  function PlaceOp(outcome: Outcome): RowKey -> Operation {
    (k: RowKey) =>
      if outcome.Err? then Operation(TweetPlaceWrite, OperationStatus.Failed, outcome.error)
      else if k in outcome.value then Operation(TweetPlaceWrite, OperationStatus.Accepted, "inserted_or_filled")
      else Operation(TweetPlaceWrite, OperationStatus.Skipped, "unchanged_or_existing")
  }

  /** Reports the outcome of the row with key `k` after those in `done`. */
  method ReportPlace(prepared: PreparedSubmitBatch, k: RowKey, group: PlaceGroup, outcome: Outcome,
                     ghost before: seq<ObjectResult>, ghost done: seq<RowKey>)
    requires OwnIndices(prepared.tweetPlaces, |before|) && k !in done
    requires group.indices == IndicesOf(prepared.tweetPlaces, PlaceKey, k, |prepared.tweetPlaces|)
    requires Reported(before, prepared.tweetResults, prepared.tweetPlaces, PlaceKey, done, PlaceOp(outcome))
    modifies prepared`tweetResults
    ensures Reported(before, prepared.tweetResults, prepared.tweetPlaces, PlaceKey, done + [k], PlaceOp(outcome))
  {
    ghost var results := prepared.tweetResults;
    IndicesFacts(prepared.tweetPlaces, PlaceKey, k, |prepared.tweetPlaces|, |before|);
    var op;
    match outcome {
      case Ok(changed) =>
        if k in changed {
          op := Operation(TweetPlaceWrite, OperationStatus.Accepted, "inserted_or_filled");
        } else {
          op := Operation(TweetPlaceWrite, OperationStatus.Skipped, "unchanged_or_existing");
        }
      case Err(error) =>
        op := Operation(TweetPlaceWrite, OperationStatus.Failed, error);
    }
    prepared.tweetResults := RecordAll(prepared.tweetResults, group.indices, op);
    ReportKey(before, results, prepared.tweetResults, prepared.tweetPlaces, PlaceKey, done, k, PlaceOp(outcome));
  }

  function PlaceRowsOf(deduped: map<RowKey, PlaceGroup>, order: seq<RowKey>): seq<TweetPlace>
    requires forall k :: k in order ==> k in deduped
  {
    seq(|order|, i requires 0 <= i < |order| => deduped[order[i]].value)
  }

  lemma {:induction false} PlaceRows(items: seq<Indexed<TweetPlace>>, deduped: map<RowKey, PlaceGroup>,
                                     order: seq<RowKey>)
    requires forall k :: PlaceOk(deduped, items, |items|, k)
    requires forall k :: k in order <==> k in deduped
    requires forall i, j :: 0 <= i < j < |order| ==> order[i] != order[j]
    ensures SentPlaces(PlaceRowsOf(deduped, order), items)
  {
    var sent := PlaceRowsOf(deduped, order);
    forall i | 0 <= i < |sent|
      ensures order[i] == PlaceRow(sent[i].id)
      ensures FirstVersion(items, PlaceKey, sent[i])
    {
      assert order[i] in order && PlaceOk(deduped, items, |items|, order[i]);
      var first := FirstOfIsFirst(items, PlaceKey, order[i], |items|);
    }
    forall i, j | 0 <= i < j < |sent|
      ensures sent[i].id != sent[j].id
    {
      assert order[i] != order[j];
    }
    forall m | 0 <= m < |items|
      ensures HasPlace(sent, items[m].value.id)
    {
      var k := PlaceKey(items[m].value);
      assert PlaceOk(deduped, items, |items|, k);
      assert k in order;
      var i :| 0 <= i < |order| && order[i] == k;
      assert sent[i].id == items[m].value.id;
    }
  }

  /** The group of key `k` is the one of that key. */
  ghost predicate PlaceFor(deduped: map<RowKey, PlaceGroup>, items: seq<Indexed<TweetPlace>>, k: RowKey) {
    k in deduped && deduped[k].indices == IndicesOf(items, PlaceKey, k, |items|)
  }

  /** Reports to the tweets of every place, in the order the hash map yielded them. */
  method ReportPlaces(prepared: PreparedSubmitBatch, deduped: map<RowKey, PlaceGroup>, order: seq<RowKey>,
                      outcome: Outcome)
    requires OwnIndices(prepared.tweetPlaces, |prepared.tweetResults|)
    requires forall t :: 0 <= t < |order| ==> PlaceFor(deduped, prepared.tweetPlaces, order[t])
    requires forall i, j :: 0 <= i < j < |order| ==> order[i] != order[j]
    modifies prepared`tweetResults
    ensures Reported(old(prepared.tweetResults), prepared.tweetResults, prepared.tweetPlaces, PlaceKey, order,
                     PlaceOp(outcome))
  {
    ghost var before := prepared.tweetResults;
    ReportedNone(before, prepared.tweetPlaces, PlaceKey, PlaceOp(outcome));
    for t := 0 to |order|
      invariant Reported(before, prepared.tweetResults, prepared.tweetPlaces, PlaceKey, order[..t], PlaceOp(outcome))
    {
      assert PlaceFor(deduped, prepared.tweetPlaces, order[t]);
      ReportPlace(prepared, order[t], deduped[order[t]], outcome, before, order[..t]);
      assert order[..t + 1] == order[..t] + [order[t]];
    }
    assert order[..|order|] == order;
  }

  /** Writes every place once, and reports to each tweet that names one what became of it. */
  method WriteTweetPlacesBatch(prepared: PreparedSubmitBatch, upsert: seq<TweetPlace> -> Outcome)
    returns (ghost sent: seq<TweetPlace>)
    requires OwnIndices(prepared.tweetPlaces, |prepared.tweetResults|)
    modifies prepared`tweetResults
    ensures SentPlaces(sent, prepared.tweetPlaces)
    ensures AllReported(old(prepared.tweetResults), prepared.tweetResults, prepared.tweetPlaces, PlaceKey,
                        PlaceOp(upsert(sent)))
    ensures AllChangedTold(old(prepared.tweetResults), prepared.tweetResults, prepared.tweetPlaces, PlaceKey,
                           TweetPlaceWrite, upsert(sent), "inserted_or_filled", "unchanged_or_existing")
  {
    ghost var before := prepared.tweetResults;
    sent := WritePlaceRows(prepared, upsert);
    PlacesTold(before, prepared.tweetResults, prepared.tweetPlaces, upsert(sent));
  }

  lemma {:induction false} PlacesTold(before: seq<ObjectResult>, after: seq<ObjectResult>,
                                      items: seq<Indexed<TweetPlace>>, answer: Outcome)
    requires OwnIndices(items, |before|) && AllReported(before, after, items, PlaceKey, PlaceOp(answer))
    ensures AllChangedTold(before, after, items, PlaceKey, TweetPlaceWrite, answer, "inserted_or_filled",
                           "unchanged_or_existing")
  {
    ReportedIsTold(before, after, items, PlaceKey, PlaceOp(answer), TweetPlaceWrite, answer, "inserted_or_filled",
                   "unchanged_or_existing");
  }

  method WritePlaceRows(prepared: PreparedSubmitBatch, upsert: seq<TweetPlace> -> Outcome)
    returns (ghost sent: seq<TweetPlace>)
    requires OwnIndices(prepared.tweetPlaces, |prepared.tweetResults|)
    modifies prepared`tweetResults
    ensures SentPlaces(sent, prepared.tweetPlaces)
    ensures AllReported(old(prepared.tweetResults), prepared.tweetResults, prepared.tweetPlaces, PlaceKey,
                        PlaceOp(upsert(sent)))
  {
    var items := prepared.tweetPlaces;
    sent := [];
    if items == [] {
      return;
    }
    var deduped := DedupePlaces(items);
    var order := AnyOrder(deduped);
    PlaceRows(items, deduped, order);
    var values := PlaceRowsOf(deduped, order);
    sent := values;
    var outcome := upsert(values);
    forall t | 0 <= t < |order|
      ensures PlaceFor(deduped, items, order[t])
    {
      assert order[t] in order && PlaceOk(deduped, items, |items|, order[t]);
    }
    ghost var before := prepared.tweetResults;
    ReportPlaces(prepared, deduped, order, outcome);
    forall m | 0 <= m < |items|
      ensures PlaceKey(items[m].value) in order
    {
      assert PlaceOk(deduped, items, |items|, PlaceKey(items[m].value));
    }
    ReportedAll(before, prepared.tweetResults, items, PlaceKey, order, PlaceOp(outcome));
  }
}
