/** A batch from submission to its reports: preparation, the preload of the string dictionary, and all the
    writes (server/src/tweet_submit/prepare.rs, lines 105 to 319; execute/mod.rs, lines 11 to 133). */
module SubmitBatch {
  import opened Prelude
  import opened SubmitResult
  import opened SubmitPrepare
  import opened SubmitExecute
  import opened SubmitWrites
  import opened SubmitTally
  import opened SubmitAnswers

  /** How the store and the queue answer; anything is possible. */
  datatype Store = Store(
    preload: Result<(), string>,
    insertUsers: seq<TwitterUser> -> Outcome,
    upsertPlaces: seq<TweetPlace> -> Outcome,
    statuses: (OperationName, seq<Record>) -> Statuses,
    changed: (OperationName, seq<Record>) -> Outcome,
    relations: seq<Record> -> RelationStatuses,
    queue: Queue) {

    function Send(name: OperationName): seq<Record> -> Statuses {
      (rows: seq<Record>) => statuses(name, rows)
    }

    function SendChanged(name: OperationName): seq<Record> -> Outcome {
      (rows: seq<Record>) => changed(name, rows)
    }

    /** What the statement of this name answers when it is sent what the objects contribute. */
    ghost function Answer(name: OperationName, at: nat -> Option<Record>, n: nat): Statuses {
      statuses(name, Values(Pick(at, n)))
    }

    ghost function AnswerChanged(name: OperationName, at: nat -> Option<Record>, n: nat): Outcome {
      changed(name, Values(Pick(at, n)))
    }
  }

  ghost function UserAnswersOf(store: Store, users: seq<UserInput>, rows: seq<TwitterUser>): UserAnswers {
    UserAnswers(store.insertUsers(rows), store.Answer(UserSnapshotWrite, SnapshotAt(users), |users|),
                store.Answer(UserStatsWrite, UserStatsAt(users), |users|))
  }

  ghost function MediaAnswersOf(store: Store, media: seq<MediaInput>, tasks: seq<Indexed<Record>>): MediaAnswers {
    MediaAnswers(store.AnswerChanged(MediaWrite, MediaAt(media), |media|),
                 store.Answer(MediaResourceWrite, MediaResourceAt(media), |media|), store.queue,
                 store.queue.enqueue(Values(tasks)))
  }

  ghost function TweetAnswersOf(store: Store, tweets: seq<TweetInput>, rows: seq<TwitterUser>,
                                places: seq<TweetPlace>): TweetAnswers {
    var n := |tweets|;
    TweetAnswers(store.insertUsers(rows), store.upsertPlaces(places),
                 store.AnswerChanged(TweetWrite, PartAt(tweets, TheTweet), n),
                 store.Answer(TweetEditWrite, PartAt(tweets, TheEdit), n),
                 store.Answer(TweetPolicyWrite, PartAt(tweets, ThePolicy), n),
                 store.Answer(TweetCommunityNoteWrite, PartAt(tweets, TheCommunityNote), n),
                 store.Answer(TweetStatsWrite, PartAt(tweets, TheStats), n),
                 store.relations(Values(Pick(PartAt(tweets, TheRelations), n))))
  }

  /** The queue is asked for the resources that were written or were there unchanged, while transfers are on,
      and whose media object was converted and has a source for them; for none twice. */
  ghost predicate SentTasks(tasks: seq<Indexed<Record>>, media: seq<MediaInput>, a: MediaAnswers) {
    && (forall t :: t in tasks <==> IsSentTask(t, media, a))
    && (forall i, j :: 0 <= i < j < |tasks| ==> tasks[i] != tasks[j])
  }

  ghost predicate IsSentTask(t: Indexed<Record>, media: seq<MediaInput>, a: MediaAnswers) {
    && t.index < |media| && MediaResourceAt(media)(t.index) == Some(t.value)
    && a.resources.Ok? && RecordRow(t.value) in a.resources.value
    && (a.resources.value[RecordRow(t.value)] == Inserted || a.resources.value[RecordRow(t.value)] == SkippedUnchanged)
    && a.queue.active && MediaAt(media)(t.index).Some?
    && a.queue.hasSource(MediaAt(media)(t.index).value, t.value)
  }

  // ---------- the writes ----------

  /** Writes one of the lists and adds what is due under its name. */
  method WriteStatusList(name: OperationName, items: seq<Indexed<Record>>, before: seq<ObjectResult>, store: Store,
                         ghost due: Due, ghost at: nat -> Option<Record>)
    returns (results: seq<ObjectResult>, answer: Statuses)
    requires items == Pick(at, |before|)
    requires forall i: nat :: i < |before| ==>
               due(i, name) == OfItem(at(i), RecordKey, StatusOp(name, store.Answer(name, at, |before|)))
    ensures Tally(before, results, due, {name})
    ensures answer == if items == [] then Ok(map[]) else store.Answer(name, at, |before|)
  {
    PickOwnsIndices(at, |before|);
    results, answer := WriteWithStatuses(name, items, before, store.Send(name));
    ReportedTally(before, results, at, RecordKey, StatusOp(name, store.Answer(name, at, |before|)), due, name);
  }

  method WriteChangedList(name: OperationName, items: seq<Indexed<Record>>, before: seq<ObjectResult>, store: Store,
                          ghost due: Due, ghost at: nat -> Option<Record>)
    returns (results: seq<ObjectResult>)
    requires items == Pick(at, |before|)
    requires forall i: nat :: i < |before| ==>
               due(i, name) == OfItem(at(i), RecordKey, ChangedOp(name, store.AnswerChanged(name, at, |before|)))
    ensures Tally(before, results, due, {name})
  {
    PickOwnsIndices(at, |before|);
    results := WriteChanged(name, items, before, store.SendChanged(name));
    ReportedTally(before, results, at, RecordKey, ChangedOp(name, store.AnswerChanged(name, at, |before|)), due, name);
  }

  ghost predicate UsersListed(p: PreparedSubmitBatch, inputs: seq<UserInput>)
    reads p`userResults, p`users, p`userSnapshots, p`userStats
  {
    && |p.userResults| == |inputs|
    && p.users == Pick(UserAt(inputs), |inputs|)
    && p.userSnapshots == Pick(SnapshotAt(inputs), |inputs|)
    && p.userStats == Pick(UserStatsAt(inputs), |inputs|)
  }

  ghost predicate AuthorsListed(p: PreparedSubmitBatch, inputs: seq<TweetInput>)
    reads p`tweetResults, p`tweetAuthors
  {
    |p.tweetResults| == |inputs| && p.tweetAuthors == Pick(AuthorAt(inputs), |inputs|)
  }

  ghost predicate MediaListed(p: PreparedSubmitBatch, inputs: seq<MediaInput>)
    reads p`mediaResults, p`media, p`mediaResources
  {
    && |p.mediaResults| == |inputs|
    && p.media == Pick(MediaAt(inputs), |inputs|)
    && p.mediaResources == Pick(MediaResourceAt(inputs), |inputs|)
  }

  /** The users and the authors of tweets, in one statement. */
  method WriteUsersAndAuthors(prepared: PreparedSubmitBatch, ghost users: seq<UserInput>, ghost tweets: seq<TweetInput>,
                              store: Store) returns (ghost sent: seq<TwitterUser>)
    requires UsersListed(prepared, users) && AuthorsListed(prepared, tweets)
    modifies prepared`userResults, prepared`tweetResults
    ensures UsersListed(prepared, users) && |prepared.tweetResults| == |tweets|
    ensures Sent(sent, Pick(UserAt(users), |users|), Pick(AuthorAt(tweets), |tweets|))
    ensures forall a: UserAnswers :: a.rows == store.insertUsers(sent) ==>
              Tally(old(prepared.userResults), prepared.userResults, UserDue(users, a), {TwitterUserWrite})
    ensures forall a: TweetAnswers :: a.authors == store.insertUsers(sent) ==>
              Tally(old(prepared.tweetResults), prepared.tweetResults, TweetDue(tweets, a), {TweetAuthorWrite})
  {
    ghost var userResults, tweetResults := prepared.userResults, prepared.tweetResults;
    PickOwnsIndices(UserAt(users), |users|);
    PickOwnsIndices(AuthorAt(tweets), |tweets|);
    sent := WriteCombinedUserBatch(prepared, store.insertUsers);
    forall a: UserAnswers | a.rows == store.insertUsers(sent)
      ensures Tally(userResults, prepared.userResults, UserDue(users, a), {TwitterUserWrite})
    {
      UsersTally(userResults, prepared.userResults, users, a);
    }
    forall a: TweetAnswers | a.authors == store.insertUsers(sent)
      ensures Tally(tweetResults, prepared.tweetResults, TweetDue(tweets, a), {TweetAuthorWrite})
    {
      AuthorsTally(tweetResults, prepared.tweetResults, tweets, a);
    }
  }

  lemma {:induction false} UsersTally(before: seq<ObjectResult>, after: seq<ObjectResult>, users: seq<UserInput>,
                                      a: UserAnswers)
    requires |before| == |users| && OwnIndices(Pick(UserAt(users), |users|), |users|)
    requires AllReported(before, after, Pick(UserAt(users), |users|), UserKey, UserOp(a.rows))
    ensures Tally(before, after, UserDue(users, a), {TwitterUserWrite})
  {
    ReportedTally(before, after, UserAt(users), UserKey, UserOp(a.rows), UserDue(users, a), TwitterUserWrite);
  }

  lemma {:induction false} AuthorsTally(before: seq<ObjectResult>, after: seq<ObjectResult>, tweets: seq<TweetInput>,
                                        a: TweetAnswers)
    requires |before| == |tweets| && OwnIndices(Pick(AuthorAt(tweets), |tweets|), |tweets|)
    requires AllReported(before, after, Pick(AuthorAt(tweets), |tweets|), UserKey, AuthorOp(a.authors))
    ensures Tally(before, after, TweetDue(tweets, a), {TweetAuthorWrite})
  {
    ReportedTally(before, after, AuthorAt(tweets), UserKey, AuthorOp(a.authors), TweetDue(tweets, a), TweetAuthorWrite);
  }

  /** What is known of a user. */
  method WriteUserParts(prepared: PreparedSubmitBatch, ghost users: seq<UserInput>, store: Store,
                        ghost rows: seq<TwitterUser>)
    requires UsersListed(prepared, users)
    modifies prepared`userResults
    ensures Tally(old(prepared.userResults), prepared.userResults, UserDue(users, UserAnswersOf(store, users, rows)),
                  {UserSnapshotWrite} + {UserStatsWrite})
  {
    ghost var due, before := UserDue(users, UserAnswersOf(store, users, rows)), prepared.userResults;
    var between, results, answer;
    between, answer := WriteStatusList(UserSnapshotWrite, prepared.userSnapshots, prepared.userResults, store, due,
                                       SnapshotAt(users));
    results, answer := WriteStatusList(UserStatsWrite, prepared.userStats, between, store, due, UserStatsAt(users));
    prepared.userResults := results;
    TallyStep(before, between, results, due, {UserSnapshotWrite}, {UserStatsWrite});
  }

  /** Media and their resources. */
  method WriteMediaRows(prepared: PreparedSubmitBatch, ghost media: seq<MediaInput>, store: Store)
    returns (results: seq<ObjectResult>, answer: Statuses)
    requires MediaListed(prepared, media)
    ensures |results| == |media|
    ensures answer == if Pick(MediaResourceAt(media), |media|) == [] then Ok(map[])
                      else store.Answer(MediaResourceWrite, MediaResourceAt(media), |media|)
    ensures forall tasks :: Tally(prepared.mediaResults, results, MediaDue(media, MediaAnswersOf(store, media, tasks)),
                                  {MediaWrite} + {MediaResourceWrite})
  {
    ghost var due := MediaDue(media, MediaAnswersOf(store, media, []));
    var between := WriteChangedList(MediaWrite, prepared.media, prepared.mediaResults, store, due, MediaAt(media));
    results, answer := WriteStatusList(MediaResourceWrite, prepared.mediaResources, between, store, due,
                                       MediaResourceAt(media));
    MediaRowsTally(prepared.mediaResults, between, results, media, store);
  }

  /** These writes do not depend on what the queue will be asked for. */
  lemma {:induction false} MediaRowsTally(before: seq<ObjectResult>, between: seq<ObjectResult>,
                                          after: seq<ObjectResult>, media: seq<MediaInput>, store: Store)
    requires var due := MediaDue(media, MediaAnswersOf(store, media, []));
             Tally(before, between, due, {MediaWrite}) && Tally(between, after, due, {MediaResourceWrite})
    ensures forall tasks :: Tally(before, after, MediaDue(media, MediaAnswersOf(store, media, tasks)),
                                  {MediaWrite} + {MediaResourceWrite})
  {
    var due := MediaDue(media, MediaAnswersOf(store, media, []));
    forall tasks
      ensures Tally(before, after, MediaDue(media, MediaAnswersOf(store, media, tasks)),
                    {MediaWrite} + {MediaResourceWrite})
    {
      var other := MediaDue(media, MediaAnswersOf(store, media, tasks));
      TallyAgrees(before, between, due, other, {MediaWrite});
      TallyAgrees(between, after, due, other, {MediaResourceWrite});
      TallyStep(before, between, after, other, {MediaWrite}, {MediaResourceWrite});
    }
  }

  lemma {:induction false} PayloadsAre(media: seq<MediaInput>, payloads: map<nat, Record>, i: nat)
    requires ByIndex(payloads, Pick(MediaAt(media), |media|)) && i < |media|
    ensures PayloadAt(payloads, i) == MediaAt(media)(i)
  {
    var m := PickAtIndex(MediaAt(media), |media|, i);
  }

  /** What the queue is asked for. */
  lemma {:induction false} TasksAreSent(media: seq<MediaInput>, payloads: map<nat, Record>,
                                        tasks: seq<Indexed<Record>>, answer: Statuses, a: MediaAnswers)
    requires ByIndex(payloads, Pick(MediaAt(media), |media|))
    requires var items := Pick(MediaResourceAt(media), |media|);
             && TasksAre(tasks, items, |items|, answer, payloads, a.queue)
             && answer == if items == [] then Ok(map[]) else a.resources
    ensures SentTasks(tasks, media, a)
  {
    var items := Pick(MediaResourceAt(media), |media|);
    assert items[..|items|] == items;
    PickFacts(MediaResourceAt(media), |media|);
    forall t: Indexed<Record>
      ensures t in tasks <==> IsSentTask(t, media, a)
    {
      if t.index < |media| {
        PayloadsAre(media, payloads, t.index);
        var m := PickAtIndex(MediaResourceAt(media), |media|, t.index);
      }
    }
  }

  lemma {:induction false} TransferIsDue(media: seq<MediaInput>, payloads: map<nat, Record>, answer: Statuses,
                                         a: MediaAnswers, i: nat)
    requires i < |media| && ByIndex(payloads, Pick(MediaAt(media), |media|))
    requires answer == if Pick(MediaResourceAt(media), |media|) == [] then Ok(map[]) else a.resources
    ensures var resource := MediaResourceAt(media)(i);
            MediaDueAt(media, a, i, MediaTransferEnqueue)
            == if resource.Some?
               then TransferOps(answer, payloads, a.queue, a.queued)(Indexed(i, resource.value)) else None
  {
    PayloadsAre(media, payloads, i);
    var m := PickAtIndex(MediaResourceAt(media), |media|, i);
  }

  lemma {:induction false} TransferOpsNamed(answer: Statuses, payloads: map<nat, Record>, a: MediaAnswers)
    ensures var op := TransferOps(answer, payloads, a.queue, a.queued);
            forall item :: op(item).Some? ==> op(item).value.name == MediaTransferEnqueue
  {
  }

  lemma {:induction false} TransfersTally(before: seq<ObjectResult>, after: seq<ObjectResult>, media: seq<MediaInput>,
                                          payloads: map<nat, Record>, answer: Statuses, a: MediaAnswers)
    requires |before| == |media| && ByIndex(payloads, Pick(MediaAt(media), |media|))
    requires var items := Pick(MediaResourceAt(media), |media|);
             && OwnIndices(items, |before|)
             && AddedTo(before, after, items, |items|, TransferOps(answer, payloads, a.queue, a.queued))
             && answer == if items == [] then Ok(map[]) else a.resources
    ensures Tally(before, after, MediaDue(media, a), {MediaTransferEnqueue})
  {
    var at := MediaResourceAt(media);
    forall i: nat | i < |before|
      ensures MediaDueAt(media, a, i, MediaTransferEnqueue)
              == if at(i).Some? then TransferOps(answer, payloads, a.queue, a.queued)(Indexed(i, at(i).value)) else None
    {
      TransferIsDue(media, payloads, answer, a, i);
    }
    TransferOpsNamed(answer, payloads, a);
    AddedTally(before, after, at, TransferOps(answer, payloads, a.queue, a.queued), MediaDue(media, a),
               MediaTransferEnqueue);
  }

  /** Media, their resources, and the transfers of the resources. */
  method WriteMedia(prepared: PreparedSubmitBatch, ghost media: seq<MediaInput>, store: Store)
    returns (ghost tasks: seq<Indexed<Record>>)
    requires MediaListed(prepared, media)
    modifies prepared`mediaResults
    ensures SentTasks(tasks, media, MediaAnswersOf(store, media, tasks))
    ensures Tally(old(prepared.mediaResults), prepared.mediaResults,
                  MediaDue(media, MediaAnswersOf(store, media, tasks)), MEDIA_NAMES)
  {
    ghost var before := prepared.mediaResults;
    var between, answer := WriteMediaRows(prepared, media, store);
    PickOwnsIndices(MediaResourceAt(media), |media|);
    PickOwnsIndices(MediaAt(media), |media|);
    prepared.mediaResults := EnqueueTransfers(prepared.media, prepared.mediaResources, between, answer, store.queue);
    ghost var payloads := MediaOf(prepared.media, |prepared.media|);
    tasks := TasksOf(prepared.mediaResources, |prepared.mediaResources|, answer, payloads, store.queue);
    ghost var a := MediaAnswersOf(store, media, tasks);
    TasksAreSent(media, payloads, tasks, answer, a);
    TransfersLast(before, between, prepared.mediaResults, media, payloads, answer, a);
  }

  lemma {:induction false} TransfersLast(before: seq<ObjectResult>, between: seq<ObjectResult>,
                                         after: seq<ObjectResult>, media: seq<MediaInput>,
                                         payloads: map<nat, Record>, answer: Statuses, a: MediaAnswers)
    requires |between| == |media| && ByIndex(payloads, Pick(MediaAt(media), |media|))
    requires Tally(before, between, MediaDue(media, a), {MediaWrite} + {MediaResourceWrite})
    requires var items := Pick(MediaResourceAt(media), |media|);
             && OwnIndices(items, |between|)
             && AddedTo(between, after, items, |items|, TransferOps(answer, payloads, a.queue, a.queued))
             && answer == if items == [] then Ok(map[]) else a.resources
    ensures Tally(before, after, MediaDue(media, a), MEDIA_NAMES)
  {
    TransfersTally(between, after, media, payloads, answer, a);
    TallyStep(before, between, after, MediaDue(media, a), {MediaWrite} + {MediaResourceWrite}, {MediaTransferEnqueue});
    assert {MediaWrite} + {MediaResourceWrite} + {MediaTransferEnqueue} == MEDIA_NAMES;
  }

  /** Places, each once however many tweets name it. */
  method WritePlaces(prepared: PreparedSubmitBatch, ghost tweets: seq<TweetInput>, store: Store)
    returns (ghost sent: seq<TweetPlace>)
    requires prepared.tweetPlaces == Pick(PlaceAt(tweets), |tweets|) && |prepared.tweetResults| == |tweets|
    modifies prepared`tweetResults
    ensures SentPlaces(sent, Pick(PlaceAt(tweets), |tweets|))
    ensures forall a: TweetAnswers :: a.places == store.upsertPlaces(sent) ==>
              Tally(old(prepared.tweetResults), prepared.tweetResults, TweetDue(tweets, a), {TweetPlaceWrite})
  {
    ghost var before := prepared.tweetResults;
    PickOwnsIndices(PlaceAt(tweets), |tweets|);
    sent := WriteTweetPlacesBatch(prepared, store.upsertPlaces);
    forall a: TweetAnswers | a.places == store.upsertPlaces(sent)
      ensures Tally(before, prepared.tweetResults, TweetDue(tweets, a), {TweetPlaceWrite})
    {
      PlacesTally(before, prepared.tweetResults, tweets, a);
    }
  }

  lemma {:induction false} PlacesTally(before: seq<ObjectResult>, after: seq<ObjectResult>, tweets: seq<TweetInput>,
                                       a: TweetAnswers)
    requires |before| == |tweets| && OwnIndices(Pick(PlaceAt(tweets), |tweets|), |tweets|)
    requires AllReported(before, after, Pick(PlaceAt(tweets), |tweets|), PlaceKey, PlaceOp(a.places))
    ensures Tally(before, after, TweetDue(tweets, a), {TweetPlaceWrite})
  {
    ReportedTally(before, after, PlaceAt(tweets), PlaceKey, PlaceOp(a.places), TweetDue(tweets, a), TweetPlaceWrite);
  }

  ghost const TWEETS_AND_EDITS: set<OperationName> := {TweetWrite} + {TweetEditWrite}
  ghost const NOTES_AND_STATS: set<OperationName> := {TweetCommunityNoteWrite} + {TweetStatsWrite}

  /** Tweets, their edits and their policies. */
  method WriteTweets(prepared: PreparedSubmitBatch, ghost tweets: seq<TweetInput>, store: Store, ghost due: Due)
    requires TweetsListed(prepared, tweets) && |prepared.tweetResults| == |tweets|
    requires TweetsDue(tweets, store, due)
    modifies prepared`tweetResults
    ensures Tally(old(prepared.tweetResults), prepared.tweetResults, due, TWEETS_AND_EDITS + {TweetPolicyWrite})
  {
    ghost var before := prepared.tweetResults;
    var tweetsDone, editsDone, results, answer;
    tweetsDone := WriteChangedList(TweetWrite, prepared.tweets, prepared.tweetResults, store, due,
                                   PartAt(tweets, TheTweet));
    editsDone, answer := WriteStatusList(TweetEditWrite, prepared.tweetEdits, tweetsDone, store, due,
                                         PartAt(tweets, TheEdit));
    results, answer := WriteStatusList(TweetPolicyWrite, prepared.tweetPolicies, editsDone, store, due,
                                       PartAt(tweets, ThePolicy));
    prepared.tweetResults := results;
    TallyStep(before, tweetsDone, editsDone, due, {TweetWrite}, {TweetEditWrite});
    TallyStep(before, editsDone, results, due, TWEETS_AND_EDITS, {TweetPolicyWrite});
  }

  /** Community notes and statistics. */
  method WriteTweetParts(prepared: PreparedSubmitBatch, ghost tweets: seq<TweetInput>, store: Store, ghost due: Due)
    requires TweetsListed(prepared, tweets) && |prepared.tweetResults| == |tweets|
    requires TweetsDue(tweets, store, due)
    modifies prepared`tweetResults
    ensures Tally(old(prepared.tweetResults), prepared.tweetResults, due, NOTES_AND_STATS)
  {
    ghost var before := prepared.tweetResults;
    var notesDone, results, answer;
    notesDone, answer := WriteStatusList(TweetCommunityNoteWrite, prepared.tweetCommunityNotes, prepared.tweetResults,
                                         store, due, PartAt(tweets, TheCommunityNote));
    results, answer := WriteStatusList(TweetStatsWrite, prepared.tweetStats, notesDone, store, due,
                                       PartAt(tweets, TheStats));
    prepared.tweetResults := results;
    TallyStep(before, notesDone, results, due, {TweetCommunityNoteWrite}, {TweetStatsWrite});
  }

  method WriteRelations(prepared: PreparedSubmitBatch, ghost tweets: seq<TweetInput>, store: Store, ghost due: Due)
    requires TweetsListed(prepared, tweets) && |prepared.tweetResults| == |tweets|
    requires TweetsDue(tweets, store, due)
    modifies prepared`tweetResults
    ensures Tally(old(prepared.tweetResults), prepared.tweetResults, due, RELATION_NAMES)
  {
    ghost var at, before := PartAt(tweets, TheRelations), prepared.tweetResults;
    PickOwnsIndices(at, |tweets|);
    prepared.tweetResults := ReplaceRelations(prepared.tweetRelations, prepared.tweetResults, store.relations);
    RelationsTally(before, prepared.tweetResults, at, store.relations(Values(Pick(at, |tweets|))), due);
  }

  /** What is due to the tweets under the names of their parts. */
  ghost predicate TweetsDue(tweets: seq<TweetInput>, store: Store, due: Due) {
    var n := |tweets|;
    && ChangesDue(TweetWrite, PartAt(tweets, TheTweet), n, store, due)
    && StatusesDue(TweetEditWrite, PartAt(tweets, TheEdit), n, store, due)
    && StatusesDue(TweetPolicyWrite, PartAt(tweets, ThePolicy), n, store, due)
    && StatusesDue(TweetCommunityNoteWrite, PartAt(tweets, TheCommunityNote), n, store, due)
    && StatusesDue(TweetStatsWrite, PartAt(tweets, TheStats), n, store, due)
    && RelationsDue(PartAt(tweets, TheRelations), n, store, due)
  }

  ghost predicate RelationsDue(at: nat -> Option<Record>, n: nat, store: Store, due: Due) {
    forall i: nat, m: OperationName :: i < n && m in RELATION_NAMES ==>
      due(i, m) == RelationDue(at(i), m, store.relations(Values(Pick(at, n))))
  }

  ghost predicate StatusesDue(name: OperationName, at: nat -> Option<Record>, n: nat, store: Store, due: Due) {
    forall i: nat :: i < n ==> due(i, name) == OfItem(at(i), RecordKey, StatusOp(name, store.Answer(name, at, n)))
  }

  ghost predicate ChangesDue(name: OperationName, at: nat -> Option<Record>, n: nat, store: Store, due: Due) {
    forall i: nat :: i < n ==>
      due(i, name) == OfItem(at(i), RecordKey, ChangedOp(name, store.AnswerChanged(name, at, n)))
  }

  lemma {:induction false} PartsAreDue(tweets: seq<TweetInput>, store: Store, rows: seq<TwitterUser>,
                                       places: seq<TweetPlace>)
    ensures TweetsDue(tweets, store, TweetDue(tweets, TweetAnswersOf(store, tweets, rows, places)))
  {
    EditsAndPoliciesDue(tweets, store, rows, places);
    NotesAndStatsDue(tweets, store, rows, places);
    ItselfAndRelationsDue(tweets, store, rows, places);
  }

  lemma {:induction false} EditsAndPoliciesDue(tweets: seq<TweetInput>, store: Store, rows: seq<TwitterUser>,
                                               places: seq<TweetPlace>)
    ensures var due, n := TweetDue(tweets, TweetAnswersOf(store, tweets, rows, places)), |tweets|;
            && StatusesDue(TweetEditWrite, PartAt(tweets, TheEdit), n, store, due)
            && StatusesDue(TweetPolicyWrite, PartAt(tweets, ThePolicy), n, store, due)
  {
  }

  lemma {:induction false} NotesAndStatsDue(tweets: seq<TweetInput>, store: Store, rows: seq<TwitterUser>,
                                            places: seq<TweetPlace>)
    ensures var due, n := TweetDue(tweets, TweetAnswersOf(store, tweets, rows, places)), |tweets|;
            && StatusesDue(TweetCommunityNoteWrite, PartAt(tweets, TheCommunityNote), n, store, due)
            && StatusesDue(TweetStatsWrite, PartAt(tweets, TheStats), n, store, due)
  {
  }

  lemma {:induction false} ItselfAndRelationsDue(tweets: seq<TweetInput>, store: Store, rows: seq<TwitterUser>,
                                                 places: seq<TweetPlace>)
    ensures var due, n := TweetDue(tweets, TweetAnswersOf(store, tweets, rows, places)), |tweets|;
            && ChangesDue(TweetWrite, PartAt(tweets, TheTweet), n, store, due)
            && RelationsDue(PartAt(tweets, TheRelations), n, store, due)
  {
    var a := TweetAnswersOf(store, tweets, rows, places);
    forall i: nat, m: OperationName | m in RELATION_NAMES
      ensures TweetDueAt(tweets, a, i, m) == RelationDue(PartAt(tweets, TheRelations)(i), m, a.relations)
    {
      RelationIsDue(tweets, a, i, m);
    }
  }

  lemma {:induction false} RelationIsDue(tweets: seq<TweetInput>, a: TweetAnswers, i: nat, m: OperationName)
    requires m in RELATION_NAMES
    ensures TweetDueAt(tweets, a, i, m) == RelationDue(PartAt(tweets, TheRelations)(i), m, a.relations)
  {
  }

  ghost predicate TweetsListed(p: PreparedSubmitBatch, inputs: seq<TweetInput>)
    reads p`tweetPlaces, p`tweets, p`tweetEdits, p`tweetPolicies, p`tweetCommunityNotes, p`tweetStats, p`tweetRelations
  {
    && p.tweetPlaces == Pick(PlaceAt(inputs), |inputs|)
    && p.tweets == Pick(PartAt(inputs, TheTweet), |inputs|)
    && p.tweetEdits == Pick(PartAt(inputs, TheEdit), |inputs|)
    && p.tweetPolicies == Pick(PartAt(inputs, ThePolicy), |inputs|)
    && p.tweetCommunityNotes == Pick(PartAt(inputs, TheCommunityNote), |inputs|)
    && p.tweetStats == Pick(PartAt(inputs, TheStats), |inputs|)
    && p.tweetRelations == Pick(PartAt(inputs, TheRelations), |inputs|)
  }

  ghost const PART_NAMES: set<OperationName> :=
    TWEETS_AND_EDITS + {TweetPolicyWrite} + NOTES_AND_STATS + RELATION_NAMES

  /** The tweets and their parts. */
  method WriteTweetsAndParts(prepared: PreparedSubmitBatch, ghost tweets: seq<TweetInput>, store: Store,
                             ghost due: Due)
    requires TweetsListed(prepared, tweets) && |prepared.tweetResults| == |tweets|
    requires TweetsDue(tweets, store, due)
    modifies prepared`tweetResults
    ensures Tally(old(prepared.tweetResults), prepared.tweetResults, due, PART_NAMES)
  {
    ghost var before := prepared.tweetResults;
    WriteTweets(prepared, tweets, store, due);
    ghost var tweetsDone := prepared.tweetResults;
    WriteTweetParts(prepared, tweets, store, due);
    ghost var partsDone := prepared.tweetResults;
    WriteRelations(prepared, tweets, store, due);
    PartsTally(before, tweetsDone, partsDone, prepared.tweetResults, due);
  }

  lemma {:induction false} PartNamesDiffer()
    ensures TWEETS_AND_EDITS + {TweetPolicyWrite} !! NOTES_AND_STATS
    ensures TWEETS_AND_EDITS + {TweetPolicyWrite} + NOTES_AND_STATS !! RELATION_NAMES
    ensures {TweetPlaceWrite} !! PART_NAMES
    ensures {TweetAuthorWrite} !! ({TweetPlaceWrite} + PART_NAMES)
    ensures {TweetAuthorWrite} + ({TweetPlaceWrite} + PART_NAMES) == TWEET_NAMES
  {
  }

  lemma {:induction false} PartsTally(before: seq<ObjectResult>, tweetsDone: seq<ObjectResult>,
                                      partsDone: seq<ObjectResult>, after: seq<ObjectResult>, due: Due)
    requires Tally(before, tweetsDone, due, TWEETS_AND_EDITS + {TweetPolicyWrite})
    requires Tally(tweetsDone, partsDone, due, NOTES_AND_STATS) && Tally(partsDone, after, due, RELATION_NAMES)
    ensures Tally(before, after, due, PART_NAMES)
  {
    PartNamesDiffer();
    TallyStep(before, tweetsDone, partsDone, due, TWEETS_AND_EDITS + {TweetPolicyWrite}, NOTES_AND_STATS);
    TallyStep(before, partsDone, after, due, TWEETS_AND_EDITS + {TweetPolicyWrite} + NOTES_AND_STATS, RELATION_NAMES);
  }

  /** All the writes for tweets but that of their authors. */
  method WriteAllTweets(prepared: PreparedSubmitBatch, ghost tweets: seq<TweetInput>, store: Store,
                        ghost rows: seq<TwitterUser>) returns (ghost places: seq<TweetPlace>)
    requires TweetsListed(prepared, tweets) && |prepared.tweetResults| == |tweets|
    modifies prepared`tweetResults
    ensures SentPlaces(places, Pick(PlaceAt(tweets), |tweets|))
    ensures Tally(old(prepared.tweetResults), prepared.tweetResults,
                  TweetDue(tweets, TweetAnswersOf(store, tweets, rows, places)), {TweetPlaceWrite} + PART_NAMES)
  {
    ghost var before := prepared.tweetResults;
    places := WritePlaces(prepared, tweets, store);
    ghost var between, due := prepared.tweetResults, TweetDue(tweets, TweetAnswersOf(store, tweets, rows, places));
    PartsAreDue(tweets, store, rows, places);
    WriteTweetsAndParts(prepared, tweets, store, due);
    PartNamesDiffer();
    TallyStep(before, between, prepared.tweetResults, due, {TweetPlaceWrite}, PART_NAMES);
  }

  /** The users, the authors of tweets and what is known of the users. */
  method WriteAllUsers(prepared: PreparedSubmitBatch, ghost users: seq<UserInput>, ghost tweets: seq<TweetInput>,
                       store: Store) returns (ghost rows: seq<TwitterUser>)
    requires UsersListed(prepared, users) && AuthorsListed(prepared, tweets)
    modifies prepared`userResults, prepared`tweetResults
    ensures |prepared.tweetResults| == |tweets|
    ensures Sent(rows, Pick(UserAt(users), |users|), Pick(AuthorAt(tweets), |tweets|))
    ensures Tally(old(prepared.userResults), prepared.userResults, UserDue(users, UserAnswersOf(store, users, rows)),
                  USER_NAMES)
    ensures forall a: TweetAnswers :: a.authors == store.insertUsers(rows) ==>
              Tally(old(prepared.tweetResults), prepared.tweetResults, TweetDue(tweets, a), {TweetAuthorWrite})
  {
    ghost var before := prepared.userResults;
    rows := WriteUsersAndAuthors(prepared, users, tweets, store);
    ghost var between, a := prepared.userResults, UserAnswersOf(store, users, rows);
    assert Tally(before, between, UserDue(users, a), {TwitterUserWrite});
    WriteUserParts(prepared, users, store, rows);
    TallyStep(before, between, prepared.userResults, UserDue(users, a), {TwitterUserWrite},
              {UserSnapshotWrite} + {UserStatsWrite});
    assert {TwitterUserWrite} + ({UserSnapshotWrite} + {UserStatsWrite}) == USER_NAMES;
  }

  method WriteMediaAndTweets(prepared: PreparedSubmitBatch, ghost tweets: seq<TweetInput>,
                             ghost media: seq<MediaInput>, store: Store, ghost rows: seq<TwitterUser>)
    returns (ghost tasks: seq<Indexed<Record>>, ghost places: seq<TweetPlace>)
    requires MediaListed(prepared, media) && TweetsListed(prepared, tweets) && |prepared.tweetResults| == |tweets|
    modifies prepared`tweetResults, prepared`mediaResults
    ensures SentTasks(tasks, media, MediaAnswersOf(store, media, tasks))
    ensures SentPlaces(places, Pick(PlaceAt(tweets), |tweets|))
    ensures Tally(old(prepared.mediaResults), prepared.mediaResults,
                  MediaDue(media, MediaAnswersOf(store, media, tasks)), MEDIA_NAMES)
    ensures Tally(old(prepared.tweetResults), prepared.tweetResults,
                  TweetDue(tweets, TweetAnswersOf(store, tweets, rows, places)), {TweetPlaceWrite} + PART_NAMES)
  {
    tasks := WriteMedia(prepared, media, store);
    places := WriteAllTweets(prepared, tweets, store, rows);
  }

  /** The rows of the statements that take several lists together, or part of one. */
  datatype SentRows = SentRows(users: seq<TwitterUser>, places: seq<TweetPlace>, tasks: seq<Indexed<Record>>)

  /** One row for every user and author, one for every place, and the tasks for the queue. */
  ghost predicate AllSent(sent: SentRows, users: seq<UserInput>, tweets: seq<TweetInput>, media: seq<MediaInput>,
                          store: Store) {
    && Sent(sent.users, Pick(UserAt(users), |users|), Pick(AuthorAt(tweets), |tweets|))
    && SentPlaces(sent.places, Pick(PlaceAt(tweets), |tweets|))
    && SentTasks(sent.tasks, media, MediaAnswersOf(store, media, sent.tasks))
  }

  /** The authors first, then the rest of the tweets. */
  lemma {:induction false} AuthorsFirst(before: seq<ObjectResult>, between: seq<ObjectResult>,
                                        after: seq<ObjectResult>, tweets: seq<TweetInput>, a: TweetAnswers)
    requires forall other: TweetAnswers :: other.authors == a.authors ==>
               Tally(before, between, TweetDue(tweets, other), {TweetAuthorWrite})
    requires Tally(between, after, TweetDue(tweets, a), {TweetPlaceWrite} + PART_NAMES)
    ensures Tally(before, after, TweetDue(tweets, a), TWEET_NAMES)
  {
    PartNamesDiffer();
    TallyStep(before, between, after, TweetDue(tweets, a), {TweetAuthorWrite}, {TweetPlaceWrite} + PART_NAMES);
  }

  /** All the writes, in the order of the program. */
  method WriteAll(prepared: PreparedSubmitBatch, ghost users: seq<UserInput>, ghost tweets: seq<TweetInput>,
                  ghost media: seq<MediaInput>, store: Store) returns (ghost sent: SentRows)
    requires UsersListed(prepared, users) && AuthorsListed(prepared, tweets) && TweetsListed(prepared, tweets)
    requires MediaListed(prepared, media)
    modifies prepared`userResults, prepared`tweetResults, prepared`mediaResults
    ensures AllSent(sent, users, tweets, media, store)
    ensures Tally(old(prepared.userResults), prepared.userResults,
                  UserDue(users, UserAnswersOf(store, users, sent.users)), USER_NAMES)
    ensures Tally(old(prepared.tweetResults), prepared.tweetResults,
                  TweetDue(tweets, TweetAnswersOf(store, tweets, sent.users, sent.places)), TWEET_NAMES)
    ensures Tally(old(prepared.mediaResults), prepared.mediaResults,
                  MediaDue(media, MediaAnswersOf(store, media, sent.tasks)), MEDIA_NAMES)
  {
    ghost var before := prepared.tweetResults;
    ghost var rows := WriteAllUsers(prepared, users, tweets, store);
    ghost var between := prepared.tweetResults;
    ghost var tasks, places := WriteMediaAndTweets(prepared, tweets, media, store, rows);
    sent := SentRows(rows, places, tasks);
    AuthorsFirst(before, between, prepared.tweetResults, tweets, TweetAnswersOf(store, tweets, rows, places));
  }

  // ---------- when the strings cannot be preloaded ----------

  function IndexSet<T>(items: seq<Indexed<T>>): set<nat> {
    set m | 0 <= m < |items| :: items[m].index
  }

  lemma {:induction false} InIndexSet<T>(at: nat -> Option<T>, n: nat, i: nat)
    requires i < n
    ensures i in IndexSet(Pick(at, n)) <==> at(i).Some?
  {
    var m := PickAtIndex(at, n, i);
    if at(i).Some? {
      assert Pick(at, n)[m].index == i;
    }
  }

  /** The objects at these indices have failed once, all others are as before. */
  ghost predicate FailedAt(before: seq<ObjectResult>, after: seq<ObjectResult>, indices: set<nat>, error: string) {
    && |after| == |before|
    && forall i :: 0 <= i < |before| ==>
         after[i] == if i in indices then before[i].Add(Fails(DictPreload, error)) else before[i]
  }

  /** Reports the failure to each index of a hash set, in whatever order it yields them. */
  method FailAll(before: seq<ObjectResult>, indices: set<nat>, error: string) returns (results: seq<ObjectResult>)
    requires forall i :: i in indices ==> i < |before|
    ensures FailedAt(before, results, indices, error)
  {
    var order := AnyOrder<nat, nat>(map i | i in indices :: i);
    forall i | 0 <= i < |order|
      ensures order[i] < |before|
    {
      assert order[i] in order;
    }
    results := RecordAll(before, order, Fails(DictPreload, error));
  }

  lemma {:induction false} IndicesBelow<T>(at: nat -> Option<T>, n: nat)
    ensures forall i :: i in IndexSet(Pick(at, n)) ==> i < n
  {
    PickFacts(at, n);
  }

  /** A user contributes if any of its lists has an entry of it. */
  method FailUsers(prepared: PreparedSubmitBatch, ghost users: seq<UserInput>, error: string)
    requires UsersPrepared(prepared, users)
    modifies prepared`userResults
    ensures UsersNotStarted(prepared.userResults, users, error)
  {
    var indices := IndexSet(prepared.users) + IndexSet(prepared.userSnapshots) + IndexSet(prepared.userStats);
    ghost var n, before := |users|, prepared.userResults;
    IndicesBelow(UserAt(users), n);
    IndicesBelow(SnapshotAt(users), n);
    IndicesBelow(UserStatsAt(users), n);
    prepared.userResults := FailAll(prepared.userResults, indices, error);
    forall i: nat | i < n
      ensures UserNotStarted(prepared.userResults[i], users, i, error)
    {
      InIndexSet(UserAt(users), n, i);
      InIndexSet(SnapshotAt(users), n, i);
      InIndexSet(UserStatsAt(users), n, i);
      assert i in indices <==> Unshadowed(UserIds(users), i);
      assert before[i] == UserResultAt(users)(i);
      if Unshadowed(UserIds(users), i) {
        UserFails(users, i, error);
      }
    }
  }

  method FailMedia(prepared: PreparedSubmitBatch, ghost media: seq<MediaInput>, error: string)
    requires MediaPrepared(prepared, media)
    modifies prepared`mediaResults
    ensures MediaNotStarted(prepared.mediaResults, media, error)
  {
    var indices := IndexSet(prepared.media) + IndexSet(prepared.mediaResources);
    ghost var n, before := |media|, prepared.mediaResults;
    IndicesBelow(MediaAt(media), n);
    IndicesBelow(MediaResourceAt(media), n);
    prepared.mediaResults := FailAll(prepared.mediaResults, indices, error);
    forall i: nat | i < n
      ensures MediumNotStarted(prepared.mediaResults[i], media, i, error)
    {
      InIndexSet(MediaAt(media), n, i);
      InIndexSet(MediaResourceAt(media), n, i);
      assert before[i] == MediaResultAt(media)(i);
      if Unshadowed(MediaIds(media), i) {
        MediumFails(media, i, error);
      }
    }
  }

  /** The tweets that any of the lists has an entry of. */
  ghost function ContributingTweets(tweets: seq<TweetInput>): set<nat> {
    var n := |tweets|;
    IndexSet(Pick(AuthorAt(tweets), n)) + IndexSet(Pick(PlaceAt(tweets), n))
    + IndexSet(Pick(PartAt(tweets, TheTweet), n)) + IndexSet(Pick(PartAt(tweets, TheEdit), n))
    + IndexSet(Pick(PartAt(tweets, ThePolicy), n)) + IndexSet(Pick(PartAt(tweets, TheCommunityNote), n))
    + IndexSet(Pick(PartAt(tweets, TheStats), n)) + IndexSet(Pick(PartAt(tweets, TheRelations), n))
  }

  lemma {:induction false} Contributes(tweets: seq<TweetInput>, i: nat)
    requires i < |tweets|
    ensures i in ContributingTweets(tweets) <==> TweetTakesPart(tweets, i)
  {
    var n := |tweets|;
    InIndexSet(AuthorAt(tweets), n, i);
    InIndexSet(PlaceAt(tweets), n, i);
    forall part: TweetPart
      ensures i in IndexSet(Pick(PartAt(tweets, part), n)) ==> TweetTakesPart(tweets, i)
    {
      InIndexSet(PartAt(tweets, part), n, i);
      if PartAt(tweets, part)(i).Some? {
        PartTakesPart(tweets, part, i);
      }
    }
  }

  lemma {:induction false} PartTakesPart(tweets: seq<TweetInput>, part: TweetPart, i: nat)
    requires PartAt(tweets, part)(i).Some?
    ensures TweetTakesPart(tweets, i)
  {
    assert ConvertedAt(tweets)(i).Some?;
  }

  lemma {:induction false} ContributingBelow(tweets: seq<TweetInput>)
    ensures forall i :: i in ContributingTweets(tweets) ==> i < |tweets|
  {
    IndicesBelow(AuthorAt(tweets), |tweets|);
    IndicesBelow(PlaceAt(tweets), |tweets|);
    forall part: TweetPart
      ensures forall i :: i in IndexSet(Pick(PartAt(tweets, part), |tweets|)) ==> i < |tweets|
    {
      IndicesBelow(PartAt(tweets, part), |tweets|);
    }
  }

  lemma {:induction false} TweetsFail(before: seq<ObjectResult>, after: seq<ObjectResult>, tweets: seq<TweetInput>,
                                      error: string)
    requires before == Reports(TweetResultAt(tweets), |tweets|)
    requires FailedAt(before, after, ContributingTweets(tweets), error)
    ensures TweetsNotStarted(after, tweets, error)
  {
    forall i: nat | i < |tweets|
      ensures TweetNotStarted(after[i], tweets, i, error)
    {
      Contributes(tweets, i);
      assert before[i] == TweetResultAt(tweets)(i);
      if TweetTakesPart(tweets, i) {
        TweetFails(tweets, i, error);
      }
    }
  }

  method FailTweets(prepared: PreparedSubmitBatch, ghost tweets: seq<TweetInput>, error: string)
    requires TweetsPrepared(prepared, tweets)
    modifies prepared`tweetResults
    ensures TweetsNotStarted(prepared.tweetResults, tweets, error)
  {
    var indices := IndexSet(prepared.tweetAuthors) + IndexSet(prepared.tweetPlaces)
      + IndexSet(prepared.tweets) + IndexSet(prepared.tweetEdits)
      + IndexSet(prepared.tweetPolicies) + IndexSet(prepared.tweetCommunityNotes)
      + IndexSet(prepared.tweetStats) + IndexSet(prepared.tweetRelations);
    assert indices == ContributingTweets(tweets);
    ghost var before := prepared.tweetResults;
    ContributingBelow(tweets);
    prepared.tweetResults := FailAll(prepared.tweetResults, indices, error);
    TweetsFail(before, prepared.tweetResults, tweets, error);
  }

  method ReportPreloadFailure(prepared: PreparedSubmitBatch, ghost users: seq<UserInput>,
                              ghost tweets: seq<TweetInput>, ghost media: seq<MediaInput>, error: string)
    requires UsersPrepared(prepared, users) && TweetsPrepared(prepared, tweets) && MediaPrepared(prepared, media)
    modifies prepared`userResults, prepared`tweetResults, prepared`mediaResults
    ensures UsersNotStarted(prepared.userResults, users, error)
    ensures TweetsNotStarted(prepared.tweetResults, tweets, error)
    ensures MediaNotStarted(prepared.mediaResults, media, error)
  {
    FailUsers(prepared, users, error);
    FailTweetsAndMedia(prepared, tweets, media, error);
  }

  method FailTweetsAndMedia(prepared: PreparedSubmitBatch, ghost tweets: seq<TweetInput>, ghost media: seq<MediaInput>,
                            error: string)
    requires TweetsPrepared(prepared, tweets) && MediaPrepared(prepared, media)
    modifies prepared`tweetResults, prepared`mediaResults
    ensures TweetsNotStarted(prepared.tweetResults, tweets, error)
    ensures MediaNotStarted(prepared.mediaResults, media, error)
  {
    FailTweets(prepared, tweets, error);
    FailMedia(prepared, media, error);
  }

  // ---------- the whole batch ----------

  lemma {:induction false} AllUsersAnswered(results: seq<ObjectResult>, users: seq<UserInput>, a: UserAnswers)
    requires Tally(Reports(UserResultAt(users), |users|), results, UserDue(users, a), USER_NAMES)
    ensures UsersAnswered(results, users, a)
  {
    forall i | 0 <= i < |users|
      ensures UserAnswered(results[i], users, i, a)
    {
      UserIsAnswered(users, i, results[i], a);
    }
  }

  lemma {:induction false} AllTweetsAnswered(results: seq<ObjectResult>, tweets: seq<TweetInput>, a: TweetAnswers)
    requires Tally(Reports(TweetResultAt(tweets), |tweets|), results, TweetDue(tweets, a), TWEET_NAMES)
    ensures TweetsAnswered(results, tweets, a)
  {
    forall i | 0 <= i < |tweets|
      ensures TweetAnswered(results[i], tweets, i, a)
    {
      TweetIsAnswered(tweets, i, results[i], a);
    }
  }

  lemma {:induction false} AllMediaAnswered(results: seq<ObjectResult>, media: seq<MediaInput>, a: MediaAnswers)
    requires Tally(Reports(MediaResultAt(media), |media|), results, MediaDue(media, a), MEDIA_NAMES)
    ensures MediaAnswered(results, media, a)
  {
    forall i | 0 <= i < |media|
      ensures MediumAnswered(results[i], media, i, a)
    {
      MediumIsAnswered(media, i, results[i], a);
    }
  }

  /** All the writes of a batch as it was prepared. */
  method WritePrepared(prepared: PreparedSubmitBatch, ghost users: seq<UserInput>, ghost tweets: seq<TweetInput>,
                       ghost media: seq<MediaInput>, store: Store) returns (ghost sent: SentRows)
    requires Prepared(prepared, users, tweets, media)
    modifies prepared`userResults, prepared`tweetResults, prepared`mediaResults
    ensures AllSent(sent, users, tweets, media, store)
    ensures UsersAnswered(prepared.userResults, users, UserAnswersOf(store, users, sent.users))
    ensures TweetsAnswered(prepared.tweetResults, tweets, TweetAnswersOf(store, tweets, sent.users, sent.places))
    ensures MediaAnswered(prepared.mediaResults, media, MediaAnswersOf(store, media, sent.tasks))
  {
    sent := WriteAll(prepared, users, tweets, media, store);
    AllUsersAnswered(prepared.userResults, users, UserAnswersOf(store, users, sent.users));
    AllTweetsAnswered(prepared.tweetResults, tweets, TweetAnswersOf(store, tweets, sent.users, sent.places));
    AllMediaAnswered(prepared.mediaResults, media, MediaAnswersOf(store, media, sent.tasks));
  }

  /** Preloads the strings and writes everything, or reports why not. */
  method ExecutePreparedSubmit(prepared: PreparedSubmitBatch, ghost users: seq<UserInput>,
                               ghost tweets: seq<TweetInput>, ghost media: seq<MediaInput>, store: Store)
    returns (ghost sent: SentRows)
    requires Prepared(prepared, users, tweets, media)
    modifies prepared`userResults, prepared`tweetResults, prepared`mediaResults
    ensures store.preload.Ok? ==>
              && AllSent(sent, users, tweets, media, store)
              && UsersAnswered(prepared.userResults, users, UserAnswersOf(store, users, sent.users))
              && TweetsAnswered(prepared.tweetResults, tweets,
                                TweetAnswersOf(store, tweets, sent.users, sent.places))
              && MediaAnswered(prepared.mediaResults, media, MediaAnswersOf(store, media, sent.tasks))
    ensures store.preload.Err? ==>
              && UsersNotStarted(prepared.userResults, users, store.preload.error)
              && TweetsNotStarted(prepared.tweetResults, tweets, store.preload.error)
              && MediaNotStarted(prepared.mediaResults, media, store.preload.error)
  {
    match store.preload {
      case Err(error) =>
        ReportPreloadFailure(prepared, users, tweets, media, error);
        sent := SentRows([], [], []);
      case Ok(_) =>
        sent := WritePrepared(prepared, users, tweets, media, store);
    }
  }

  /** Whatever the statements answer and whatever order the hash maps have: there is one report per submitted
      object, in input order. If the strings could be preloaded, every object that counts is told exactly once
      of each thing that was submitted with it, as its statement has answered, and ends by what it was told. If
      not, every object that has anything to write is told so once, is told of no write, and has failed. A
      refused object is told only why. */
  method Submit(users: seq<UserInput>, tweets: seq<TweetInput>, media: seq<MediaInput>, store: Store)
    returns (prepared: PreparedSubmitBatch, ghost sent: SentRows)
    ensures fresh(prepared)
    ensures store.preload.Ok? ==>
              && AllSent(sent, users, tweets, media, store)
              && UsersAnswered(prepared.userResults, users, UserAnswersOf(store, users, sent.users))
              && TweetsAnswered(prepared.tweetResults, tweets,
                                TweetAnswersOf(store, tweets, sent.users, sent.places))
              && MediaAnswered(prepared.mediaResults, media, MediaAnswersOf(store, media, sent.tasks))
    ensures store.preload.Err? ==>
              && UsersNotStarted(prepared.userResults, users, store.preload.error)
              && TweetsNotStarted(prepared.tweetResults, tweets, store.preload.error)
              && MediaNotStarted(prepared.mediaResults, media, store.preload.error)
  {
    prepared := PrepareSubmitBatch(users, tweets, media);
    sent := ExecutePreparedSubmit(prepared, users, tweets, media, store);
  }
}
