/** What the objects of a batch are told in the end, by what was submitted and what the statements have
    answered: the operations of a batch that is written, and the failure of one whose strings cannot be
    preloaded (server/src/tweet_submit/execute/mod.rs, lines 52 to 133). */
module SubmitAnswers {
  import opened Prelude
  import opened SubmitResult
  import opened SubmitPrepare
  import opened SubmitExecute
  import opened SubmitWrites
  import opened SubmitTally

  // ---------- what the statements have answered ----------

  datatype UserAnswers = UserAnswers(rows: Outcome, snapshots: Statuses, stats: Statuses)

  datatype MediaAnswers = MediaAnswers(media: Outcome, resources: Statuses, queue: Queue, queued: EnqueueStatuses)

  datatype TweetAnswers = TweetAnswers(
    authors: Outcome, places: Outcome, tweets: Outcome, edits: Statuses, policies: Statuses, communityNotes: Statuses,
    stats: Statuses, relations: RelationStatuses)

  // ---------- what is due to each kind of object ----------

  function UserDue(inputs: seq<UserInput>, a: UserAnswers): Due {
    (i: nat, m: OperationName) => UserDueAt(inputs, a, i, m)
  }

  function UserDueAt(inputs: seq<UserInput>, a: UserAnswers, i: nat, m: OperationName): Option<Operation> {
    match m
    case TwitterUserWrite => OfItem(UserAt(inputs)(i), UserKey, UserOp(a.rows))
    case UserSnapshotWrite => OfItem(SnapshotAt(inputs)(i), RecordKey, StatusOp(m, a.snapshots))
    case UserStatsWrite => OfItem(UserStatsAt(inputs)(i), RecordKey, StatusOp(m, a.stats))
    case _ => None
  }

  function MediaDue(inputs: seq<MediaInput>, a: MediaAnswers): Due {
    (i: nat, m: OperationName) => MediaDueAt(inputs, a, i, m)
  }

  function MediaDueAt(inputs: seq<MediaInput>, a: MediaAnswers, i: nat, m: OperationName): Option<Operation> {
    match m
    case MediaWrite => OfItem(MediaAt(inputs)(i), RecordKey, ChangedOp(m, a.media))
    case MediaResourceWrite => OfItem(MediaResourceAt(inputs)(i), RecordKey, StatusOp(m, a.resources))
    case MediaTransferEnqueue =>
      if MediaResourceAt(inputs)(i).None? then None
      else TransferOp(MediaAt(inputs)(i), MediaResourceAt(inputs)(i).value, a.resources, a.queue, a.queued)
    case _ => None
  }

  function TweetDue(inputs: seq<TweetInput>, a: TweetAnswers): Due {
    (i: nat, m: OperationName) => TweetDueAt(inputs, a, i, m)
  }

  function TweetDueAt(inputs: seq<TweetInput>, a: TweetAnswers, i: nat, m: OperationName): Option<Operation> {
    match m
    case TweetAuthorWrite => OfItem(AuthorAt(inputs)(i), UserKey, AuthorOp(a.authors))
    case TweetPlaceWrite => OfItem(PlaceAt(inputs)(i), PlaceKey, PlaceOp(a.places))
    case TweetWrite => OfItem(PartAt(inputs, TheTweet)(i), RecordKey, ChangedOp(m, a.tweets))
    case TweetEditWrite => OfItem(PartAt(inputs, TheEdit)(i), RecordKey, StatusOp(m, a.edits))
    case TweetPolicyWrite => OfItem(PartAt(inputs, ThePolicy)(i), RecordKey, StatusOp(m, a.policies))
    case TweetCommunityNoteWrite =>
      OfItem(PartAt(inputs, TheCommunityNote)(i), RecordKey, StatusOp(m, a.communityNotes))
    case TweetStatsWrite => OfItem(PartAt(inputs, TheStats)(i), RecordKey, StatusOp(m, a.stats))
    case _ => if m in RELATION_NAMES then RelationDue(PartAt(inputs, TheRelations)(i), m, a.relations) else None
  }

  function RelationDue(relations: Option<Record>, m: OperationName, answer: RelationStatuses): Option<Operation> {
    if relations.Some? then Some(RelationOp(m, answer, RecordKey(relations.value))) else None
  }

  const USER_NAMES: set<OperationName> := {TwitterUserWrite, UserSnapshotWrite, UserStatsWrite}
  const MEDIA_NAMES: set<OperationName> := {MediaWrite, MediaResourceWrite, MediaTransferEnqueue}
  const TWEET_NAMES: set<OperationName> :=
    {TweetAuthorWrite, TweetPlaceWrite, TweetWrite, TweetEditWrite, TweetPolicyWrite, TweetCommunityNoteWrite,
     TweetStatsWrite, TweetMediaRef, TweetMentionRef, TweetHashtagRef, TweetSymbolRef}

  // ---------- the failures of conversions ----------

  lemma {:induction false} NamedAppend(a: seq<Operation>, b: seq<Operation>, name: OperationName)
    ensures Named(a + b, name) == Named(a, name) + Named(b, name)
    decreases |b|
  {
    if b == [] {
      assert a + b == a;
    } else {
      assert (a + b)[..|a + b| - 1] == a + b[..|b| - 1];
      NamedAppend(a, b[..|b| - 1], name);
    }
  }

  lemma {:induction false} NamedFailure<S>(n: OperationName, c: Option<Conversion<S>>, name: OperationName)
    ensures Named(Failure(n, c), name) == if n == name then Failure(n, c) else []
  {
  }

  lemma {:induction false} NamedFailures<S, T>(n1: OperationName, c1: Option<Conversion<S>>, n2: OperationName,
                                               c2: Option<Conversion<T>>, name: OperationName)
    requires n1 != n2
    ensures Named(Failure(n1, c1) + Failure(n2, c2), name)
            == if name == n1 then Failure(n1, c1) else if name == n2 then Failure(n2, c2) else []
  {
    NamedAppend(Failure(n1, c1), Failure(n2, c2), name);
    NamedFailure(n1, c1, name);
    NamedFailure(n2, c2, name);
  }

  // ---------- what every object is told ----------

  /** What is said of one part of an object: nothing if it was not submitted, the failure of its conversion,
      or what the statement answers. */
  ghost predicate PartTold(said: seq<Operation>, name: OperationName, part: Option<Conversion<Record>>,
                           answer: Statuses) {
    match part
    case None => said == []
    case Some(Err(error)) => said == [Operation(name, OperationStatus.Failed, error)]
    case Some(Ok(record)) => WriteTold(said, name, answer, RecordRow(record))
  }

  lemma {:induction false} PartIsTold(name: OperationName, part: Option<Conversion<Record>>, answer: Statuses)
    ensures PartTold(Failure(name, part) + Optional(OfItem(Success(part), RecordKey, StatusOp(name, answer))), name,
                     part, answer)
  {
    if part.Some? && part.value.Ok? {
      var k := RecordRow(part.value.value);
      StatusIsTold(name, answer, k);
      assert Failure(name, part) + [StatusOp(name, answer)(k)] == [StatusOp(name, answer)(k)];
    }
  }

  /** The same for a part whose statement answers with what it has changed. */
  ghost predicate ChangedPartTold(said: seq<Operation>, name: OperationName, part: Conversion<Record>,
                                  answer: Outcome) {
    match part
    case Err(error) => said == [Operation(name, OperationStatus.Failed, error)]
    case Ok(record) =>
      ChangedTold(said, name, answer, RecordRow(record), "inserted_or_filled", "unchanged_or_existing")
  }

  lemma {:induction false} ChangedPartIsTold(name: OperationName, part: Conversion<Record>, answer: Outcome)
    ensures ChangedPartTold(Failure(name, Some(part))
                            + Optional(OfItem(Success(Some(part)), RecordKey, ChangedOp(name, answer))), name, part,
                            answer)
  {
    if part.Ok? {
      var k := RecordRow(part.value);
      ChangeIsTold(name, answer, k);
      assert Failure(name, Some(part)) + [ChangedOp(name, answer)(k)] == [ChangedOp(name, answer)(k)];
    }
  }

  // ---------- users ----------

  ghost predicate UsersAnswered(results: seq<ObjectResult>, inputs: seq<UserInput>, a: UserAnswers) {
    |results| == |inputs| && forall i :: 0 <= i < |inputs| ==> UserAnswered(results[i], inputs, i, a)
  }

  ghost predicate UserAnswered(r: ObjectResult, inputs: seq<UserInput>, i: nat, a: UserAnswers)
    requires i < |inputs|
  {
    && (if Unshadowed(UserIds(inputs), i)
        then r.id == inputs[i].id && r.fatalError.None? && UserTold(r, inputs[i], a)
        else r == Refused(UserIds(inputs), i))
    && EndsByWhatIsSaid(r)
  }

  /** A user that counts is told once of itself, and once of its profile and of its statistics, if it has
      them; and of nothing else. */
  ghost predicate UserTold(r: ObjectResult, input: UserInput, a: UserAnswers) {
    && ParseI64(input.id).Some?
    && ChangedTold(r.Said(TwitterUserWrite), TwitterUserWrite, a.rows, UserRow(ParseI64(input.id).value),
                   "inserted_or_filled", "unchanged_or_existing")
    && PartTold(r.Said(UserSnapshotWrite), UserSnapshotWrite, input.profile, a.snapshots)
    && PartTold(r.Said(UserStatsWrite), UserStatsWrite, input.stats, a.stats)
    && forall m :: m !in USER_NAMES ==> r.Said(m) == []
  }

  lemma {:induction false} UserSaid(inputs: seq<UserInput>, i: nat, r: ObjectResult, a: UserAnswers, m: OperationName)
    requires i < |inputs| && Unshadowed(UserIds(inputs), i)
    requires TallyAt(UserResultAt(inputs)(i), r, i, UserDue(inputs, a), USER_NAMES)
    ensures r.Said(m)
            == (if m == UserSnapshotWrite then Failure(m, inputs[i].profile)
                else if m == UserStatsWrite then Failure(m, inputs[i].stats) else [])
               + if m in USER_NAMES then Optional(UserDueAt(inputs, a, i, m)) else []
  {
    NamedFailures(UserSnapshotWrite, inputs[i].profile, UserStatsWrite, inputs[i].stats, m);
  }

  lemma {:induction false} UserDues(inputs: seq<UserInput>, i: nat, a: UserAnswers)
    requires i < |inputs|
    ensures Unshadowed(UserIds(inputs), i) ==>
              && UserDueAt(inputs, a, i, TwitterUserWrite)
                 == Some(UserOp(a.rows)(UserRow(ParseI64(inputs[i].id).value)))
              && UserDueAt(inputs, a, i, UserSnapshotWrite)
                 == OfItem(Success(inputs[i].profile), RecordKey, StatusOp(UserSnapshotWrite, a.snapshots))
              && UserDueAt(inputs, a, i, UserStatsWrite)
                 == OfItem(Success(inputs[i].stats), RecordKey, StatusOp(UserStatsWrite, a.stats))
    ensures !Unshadowed(UserIds(inputs), i) ==> forall m :: UserDueAt(inputs, a, i, m).None?
  {
  }

  lemma {:induction false} UserIsTold(inputs: seq<UserInput>, i: nat, r: ObjectResult, a: UserAnswers)
    requires i < |inputs| && Unshadowed(UserIds(inputs), i)
    requires TallyAt(UserResultAt(inputs)(i), r, i, UserDue(inputs, a), USER_NAMES)
    ensures UserTold(r, inputs[i], a)
  {
    forall m: OperationName | m !in USER_NAMES
      ensures r.Said(m) == []
    {
      UserSaid(inputs, i, r, a, m);
    }
    UserItselfTold(inputs, i, r, a);
    UserPartsTold(inputs, i, r, a);
  }

  lemma {:induction false} UserItselfTold(inputs: seq<UserInput>, i: nat, r: ObjectResult, a: UserAnswers)
    requires i < |inputs| && Unshadowed(UserIds(inputs), i)
    requires TallyAt(UserResultAt(inputs)(i), r, i, UserDue(inputs, a), USER_NAMES)
    ensures ParseI64(inputs[i].id).Some?
    ensures ChangedTold(r.Said(TwitterUserWrite), TwitterUserWrite, a.rows, UserRow(ParseI64(inputs[i].id).value),
                        "inserted_or_filled", "unchanged_or_existing")
  {
    UserDues(inputs, i, a);
    UserSaid(inputs, i, r, a, TwitterUserWrite);
    assert r.Said(TwitterUserWrite) == [UserOp(a.rows)(UserRow(ParseI64(inputs[i].id).value))];
  }

  lemma {:induction false} UserPartsTold(inputs: seq<UserInput>, i: nat, r: ObjectResult, a: UserAnswers)
    requires i < |inputs| && Unshadowed(UserIds(inputs), i)
    requires TallyAt(UserResultAt(inputs)(i), r, i, UserDue(inputs, a), USER_NAMES)
    ensures PartTold(r.Said(UserSnapshotWrite), UserSnapshotWrite, inputs[i].profile, a.snapshots)
    ensures PartTold(r.Said(UserStatsWrite), UserStatsWrite, inputs[i].stats, a.stats)
  {
    UserDues(inputs, i, a);
    UserSaid(inputs, i, r, a, UserSnapshotWrite);
    UserSaid(inputs, i, r, a, UserStatsWrite);
    PartIsTold(UserSnapshotWrite, inputs[i].profile, a.snapshots);
    PartIsTold(UserStatsWrite, inputs[i].stats, a.stats);
  }

  lemma {:induction false} UserIsAnswered(inputs: seq<UserInput>, i: nat, r: ObjectResult, a: UserAnswers)
    requires i < |inputs| && TallyAt(UserResultAt(inputs)(i), r, i, UserDue(inputs, a), USER_NAMES)
    ensures UserAnswered(r, inputs, i, a)
  {
    FinishMeans(r);
    if Unshadowed(UserIds(inputs), i) {
      UserIsTold(inputs, i, r, a);
    } else {
      UserDues(inputs, i, a);
    }
  }

  // ---------- media ----------

  ghost predicate MediaAnswered(results: seq<ObjectResult>, inputs: seq<MediaInput>, a: MediaAnswers) {
    |results| == |inputs| && forall i :: 0 <= i < |inputs| ==> MediumAnswered(results[i], inputs, i, a)
  }

  ghost predicate MediumAnswered(r: ObjectResult, inputs: seq<MediaInput>, i: nat, a: MediaAnswers)
    requires i < |inputs|
  {
    && (if Unshadowed(MediaIds(inputs), i)
        then r.id == inputs[i].id && r.fatalError.None? && MediumTold(r, inputs[i], a)
        else r == Refused(MediaIds(inputs), i))
    && EndsByWhatIsSaid(r)
  }

  /** A media object that counts is told once of itself, once of its resource if it has one, and of the transfer
      of a resource that was converted. */
  ghost predicate MediumTold(r: ObjectResult, input: MediaInput, a: MediaAnswers) {
    && ChangedPartTold(r.Said(MediaWrite), MediaWrite, input.media, a.media)
    && PartTold(r.Said(MediaResourceWrite), MediaResourceWrite, input.resource, a.resources)
    && (if input.resource.Some? && input.resource.value.Ok?
        then TransferTold(r.Said(MediaTransferEnqueue), if input.media.Ok? then Some(input.media.value) else None,
                          input.resource.value.value, a.resources, a.queue, a.queued)
        else r.Said(MediaTransferEnqueue) == [])
    && forall m :: m !in MEDIA_NAMES ==> r.Said(m) == []
  }

  lemma {:induction false} MediumSaid(inputs: seq<MediaInput>, i: nat, r: ObjectResult, a: MediaAnswers,
                                      m: OperationName)
    requires i < |inputs| && Unshadowed(MediaIds(inputs), i)
    requires TallyAt(MediaResultAt(inputs)(i), r, i, MediaDue(inputs, a), MEDIA_NAMES)
    ensures r.Said(m)
            == (if m == MediaWrite then Failure(m, Some(inputs[i].media))
                else if m == MediaResourceWrite then Failure(m, inputs[i].resource) else [])
               + if m in MEDIA_NAMES then Optional(MediaDueAt(inputs, a, i, m)) else []
  {
    NamedFailures(MediaWrite, Some(inputs[i].media), MediaResourceWrite, inputs[i].resource, m);
  }

  lemma {:induction false} MediumDues(inputs: seq<MediaInput>, i: nat, a: MediaAnswers)
    requires i < |inputs|
    ensures Unshadowed(MediaIds(inputs), i) ==>
              var resource := Success(inputs[i].resource);
              && MediaDueAt(inputs, a, i, MediaWrite)
                 == OfItem(Success(Some(inputs[i].media)), RecordKey, ChangedOp(MediaWrite, a.media))
              && MediaDueAt(inputs, a, i, MediaResourceWrite)
                 == OfItem(resource, RecordKey, StatusOp(MediaResourceWrite, a.resources))
              && MediaDueAt(inputs, a, i, MediaTransferEnqueue)
                 == if resource.None? then None
                    else TransferOp(Success(Some(inputs[i].media)), resource.value, a.resources, a.queue, a.queued)
    ensures !Unshadowed(MediaIds(inputs), i) ==> forall m :: MediaDueAt(inputs, a, i, m).None?
  {
  }

  lemma {:induction false} MediumIsTold(inputs: seq<MediaInput>, i: nat, r: ObjectResult, a: MediaAnswers)
    requires i < |inputs| && Unshadowed(MediaIds(inputs), i)
    requires TallyAt(MediaResultAt(inputs)(i), r, i, MediaDue(inputs, a), MEDIA_NAMES)
    ensures MediumTold(r, inputs[i], a)
  {
    var input := inputs[i];
    forall m: OperationName | m !in MEDIA_NAMES
      ensures r.Said(m) == []
    {
      MediumSaid(inputs, i, r, a, m);
    }
    MediumDues(inputs, i, a);
    MediumSaid(inputs, i, r, a, MediaWrite);
    MediumSaid(inputs, i, r, a, MediaResourceWrite);
    ChangedPartIsTold(MediaWrite, input.media, a.media);
    PartIsTold(MediaResourceWrite, input.resource, a.resources);
    TransferOfMedium(inputs, i, r, a);
  }

  lemma {:induction false} TransferOfMedium(inputs: seq<MediaInput>, i: nat, r: ObjectResult, a: MediaAnswers)
    requires i < |inputs| && Unshadowed(MediaIds(inputs), i)
    requires TallyAt(MediaResultAt(inputs)(i), r, i, MediaDue(inputs, a), MEDIA_NAMES)
    ensures var input := inputs[i];
            if input.resource.Some? && input.resource.value.Ok?
            then TransferTold(r.Said(MediaTransferEnqueue), if input.media.Ok? then Some(input.media.value) else None,
                              input.resource.value.value, a.resources, a.queue, a.queued)
            else r.Said(MediaTransferEnqueue) == []
  {
    var resource, payload := Success(inputs[i].resource), Success(Some(inputs[i].media));
    MediumDues(inputs, i, a);
    MediumSaid(inputs, i, r, a, MediaTransferEnqueue);
    assert r.Said(MediaTransferEnqueue) == Optional(MediaDueAt(inputs, a, i, MediaTransferEnqueue));
    if resource.Some? {
      TransferIsTold(payload, resource.value, a.resources, a.queue, a.queued);
    }
  }

  lemma {:induction false} MediumIsAnswered(inputs: seq<MediaInput>, i: nat, r: ObjectResult, a: MediaAnswers)
    requires i < |inputs| && TallyAt(MediaResultAt(inputs)(i), r, i, MediaDue(inputs, a), MEDIA_NAMES)
    ensures MediumAnswered(r, inputs, i, a)
  {
    FinishMeans(r);
    if Unshadowed(MediaIds(inputs), i) {
      MediumIsTold(inputs, i, r, a);
    } else {
      MediumDues(inputs, i, a);
    }
  }

  // ---------- tweets ----------

  ghost predicate TweetsAnswered(results: seq<ObjectResult>, inputs: seq<TweetInput>, a: TweetAnswers) {
    |results| == |inputs| && forall i :: 0 <= i < |inputs| ==> TweetAnswered(results[i], inputs, i, a)
  }

  ghost predicate TweetAnswered(r: ObjectResult, inputs: seq<TweetInput>, i: nat, a: TweetAnswers)
    requires i < |inputs|
  {
    && (if TweetTakesPart(inputs, i)
        then r.id == inputs[i].id && r.fatalError.None? && TweetTold(r, inputs[i], a)
        else if Unshadowed(TweetIds(inputs), i)
        then r == ObjectResult(inputs[i].id, [], Some("must be a signed 64-bit integer"))
        else r == Refused(TweetIds(inputs), i))
    && EndsByWhatIsSaid(r)
  }

  /** A tweet that takes part is told once of its author; of its place, if it names one; of itself; and, once it
      is converted, of each of its parts and of its four relations. */
  ghost predicate TweetTold(r: ObjectResult, input: TweetInput, a: TweetAnswers) {
    && ParseI64(input.authorId).Some?
    && ChangedTold(r.Said(TweetAuthorWrite), TweetAuthorWrite, a.authors, UserRow(ParseI64(input.authorId).value),
                   "inserted_minimal", "existing")
    && PlaceTold(r.Said(TweetPlaceWrite), input.place, a.places)
    && (match input.Converted()
        case Err(error) => NotConvertedTold(r, error)
        case Ok(c) => ConvertedTold(r, c, a))
    && forall m :: m !in TWEET_NAMES ==> r.Said(m) == []
  }

  ghost predicate PlaceTold(said: seq<Operation>, place: Option<Conversion<Option<TweetPlace>>>, answer: Outcome) {
    match place
    case None => said == []
    case Some(Err(error)) => said == [Operation(TweetPlaceWrite, OperationStatus.Failed, error)]
    case Some(Ok(None)) => said == []
    case Some(Ok(Some(p))) =>
      ChangedTold(said, TweetPlaceWrite, answer, PlaceRow(p.id), "inserted_or_filled", "unchanged_or_existing")
  }

  /** The failure, and nothing of what depends on the conversion. */
  ghost predicate NotConvertedTold(r: ObjectResult, error: string) {
    && r.Said(TweetWrite) == [Operation(TweetWrite, OperationStatus.Failed, error)]
    && r.Said(TweetEditWrite) == r.Said(TweetPolicyWrite) == r.Said(TweetCommunityNoteWrite) == []
    && r.Said(TweetStatsWrite) == r.Said(TweetMediaRef) == r.Said(TweetMentionRef) == []
    && r.Said(TweetHashtagRef) == r.Said(TweetSymbolRef) == []
  }

  ghost predicate ConvertedTold(r: ObjectResult, c: ConvertedTweet, a: TweetAnswers) {
    var relations := RecordRow(c.relations);
    && ChangedTold(r.Said(TweetWrite), TweetWrite, a.tweets, RecordRow(c.tweet), "inserted_or_filled",
                   "unchanged_or_existing")
    && OwnPartTold(r.Said(TweetEditWrite), TweetEditWrite, c.edit, a.edits)
    && OwnPartTold(r.Said(TweetPolicyWrite), TweetPolicyWrite, c.policy, a.policies)
    && OwnPartTold(r.Said(TweetCommunityNoteWrite), TweetCommunityNoteWrite, c.communityNote, a.communityNotes)
    && OwnPartTold(r.Said(TweetStatsWrite), TweetStatsWrite, c.stats, a.stats)
    && RelationTold(r.Said(TweetMediaRef), TweetMediaRef, a.relations, relations)
    && RelationTold(r.Said(TweetMentionRef), TweetMentionRef, a.relations, relations)
    && RelationTold(r.Said(TweetHashtagRef), TweetHashtagRef, a.relations, relations)
    && RelationTold(r.Said(TweetSymbolRef), TweetSymbolRef, a.relations, relations)
  }

  ghost predicate OwnPartTold(said: seq<Operation>, name: OperationName, part: Option<Record>, answer: Statuses) {
    if part.None? then said == [] else WriteTold(said, name, answer, RecordRow(part.value))
  }

  ghost predicate RelationTold(said: seq<Operation>, name: OperationName, answer: RelationStatuses, k: RowKey) {
    |said| == 1 && SyncSaid(said[0], name, SyncOf(name, answer, k))
  }

  /** What a tweet that takes part is told under each name. */
  function TweetSays(input: TweetInput, a: TweetAnswers, m: OperationName): seq<Operation> {
    var c := input.Converted();
    match m
    case TweetAuthorWrite =>
      if ParseI64(input.authorId).None? then []
      else [AuthorOp(a.authors)(UserRow(ParseI64(input.authorId).value))]
    case TweetPlaceWrite =>
      var place := Success(input.place);
      Failure(m, input.place)
      + Optional(OfItem(if place.Some? then place.value else None, PlaceKey, PlaceOp(a.places)))
    case TweetWrite =>
      if c.Err? then Failure(m, Some(c)) else [ChangedOp(m, a.tweets)(RecordRow(c.value.tweet))]
    case TweetEditWrite => PartSays(m, if c.Ok? then c.value.edit else None, a.edits)
    case TweetPolicyWrite => PartSays(m, if c.Ok? then c.value.policy else None, a.policies)
    case TweetCommunityNoteWrite => PartSays(m, if c.Ok? then c.value.communityNote else None, a.communityNotes)
    case TweetStatsWrite => PartSays(m, if c.Ok? then c.value.stats else None, a.stats)
    case _ =>
      if IsRelation(m) && c.Ok? then [RelationOp(m, a.relations, RecordRow(c.value.relations))] else []
  }

  function PartSays(m: OperationName, part: Option<Record>, answer: Statuses): seq<Operation> {
    Optional(OfItem(part, RecordKey, StatusOp(m, answer)))
  }

  predicate IsRelation(m: OperationName) {
    m == TweetMediaRef || m == TweetMentionRef || m == TweetHashtagRef || m == TweetSymbolRef
  }

  /** What is prepared and what is due make up what is said. */
  lemma {:induction false} PreparedAndDue(inputs: seq<TweetInput>, i: nat, a: TweetAnswers, m: OperationName)
    requires i < |inputs| && TweetTakesPart(inputs, i)
    ensures TweetSays(inputs[i], a, m)
            == TweetResultAt(inputs)(i).Said(m) + if m in TWEET_NAMES then Optional(TweetDueAt(inputs, a, i, m)) else []
  {
    var input := inputs[i];
    NamedFailures(TweetPlaceWrite, input.place, TweetWrite, Some(input.Converted()), m);
    var prepared := if m == TweetPlaceWrite then Failure(m, input.place)
                    else if m == TweetWrite then Failure(m, Some(input.Converted())) else [];
    assert TweetResultAt(inputs)(i).Said(m) == prepared;
    DueOrNot(inputs, i, a, m);
  }

  lemma {:induction false} DueOrNot(inputs: seq<TweetInput>, i: nat, a: TweetAnswers, m: OperationName)
    requires i < |inputs| && TweetTakesPart(inputs, i)
    ensures var prepared := if m == TweetPlaceWrite then Failure(m, inputs[i].place)
                            else if m == TweetWrite then Failure(m, Some(inputs[i].Converted())) else [];
            TweetSays(inputs[i], a, m)
            == prepared + if m in TWEET_NAMES then Optional(TweetDueAt(inputs, a, i, m)) else []
  {
    if m == TweetPlaceWrite {
      var place := Success(inputs[i].place);
      assert PlaceAt(inputs)(i) == if place.Some? then place.value else None;
    } else if m == TweetWrite {
      TweetIsDue(inputs, i, a);
    } else {
      RestIsDue(inputs, i, a, m);
    }
  }

  lemma {:induction false} TweetIsDue(inputs: seq<TweetInput>, i: nat, a: TweetAnswers)
    requires i < |inputs| && TweetTakesPart(inputs, i)
    ensures TweetSays(inputs[i], a, TweetWrite)
            == Failure(TweetWrite, Some(inputs[i].Converted())) + Optional(TweetDueAt(inputs, a, i, TweetWrite))
  {
    PartIs(inputs, i, TheTweet);
  }

  lemma {:induction false} RestIsDue(inputs: seq<TweetInput>, i: nat, a: TweetAnswers, m: OperationName)
    requires i < |inputs| && TweetTakesPart(inputs, i) && m != TweetPlaceWrite && m != TweetWrite
    ensures TweetSays(inputs[i], a, m) == if m in TWEET_NAMES then Optional(TweetDueAt(inputs, a, i, m)) else []
  {
    match m {
      case TweetEditWrite => PartIsDue(inputs, i, a, TheEdit, m);
      case TweetPolicyWrite => PartIsDue(inputs, i, a, ThePolicy, m);
      case TweetCommunityNoteWrite => PartIsDue(inputs, i, a, TheCommunityNote, m);
      case TweetStatsWrite => PartIsDue(inputs, i, a, TheStats, m);
      case _ =>
        if IsRelation(m) {
          RelationSaid(inputs, i, a, m);
        }
    }
  }

  lemma {:induction false} RelationSaid(inputs: seq<TweetInput>, i: nat, a: TweetAnswers, m: OperationName)
    requires i < |inputs| && TweetTakesPart(inputs, i) && IsRelation(m)
    ensures TweetSays(inputs[i], a, m) == Optional(TweetDueAt(inputs, a, i, m))
  {
    PartIs(inputs, i, TheRelations);
    assert m in RELATION_NAMES;
  }

  lemma {:induction false} PartIsDue(inputs: seq<TweetInput>, i: nat, a: TweetAnswers, part: TweetPart,
                                     m: OperationName)
    requires i < |inputs| && TweetTakesPart(inputs, i)
    requires (part == TheEdit && m == TweetEditWrite) || (part == ThePolicy && m == TweetPolicyWrite)
             || (part == TheCommunityNote && m == TweetCommunityNoteWrite) || (part == TheStats && m == TweetStatsWrite)
    ensures TweetSays(inputs[i], a, m) == Optional(TweetDueAt(inputs, a, i, m))
  {
    PartIs(inputs, i, part);
  }

  lemma {:induction false} PartIs(inputs: seq<TweetInput>, i: nat, part: TweetPart)
    requires i < |inputs| && TweetTakesPart(inputs, i)
    ensures var c := inputs[i].Converted();
            PartAt(inputs, part)(i) == if c.Ok? then part.Of(c.value) else None
  {
    assert ConvertedAt(inputs)(i) == Success(Some(inputs[i].Converted()));
  }

  lemma {:induction false} PlaceIsTold(place: Option<Conversion<Option<TweetPlace>>>, answer: Outcome)
    ensures var written := Success(place);
            PlaceTold(Failure(TweetPlaceWrite, place)
                      + Optional(OfItem(if written.Some? then written.value else None, PlaceKey, PlaceOp(answer))),
                      place, answer)
  {
    match place
    case None =>
    case Some(Err(_)) =>
    case Some(Ok(None)) =>
    case Some(Ok(Some(p))) =>
      assert Failure(TweetPlaceWrite, place) + [PlaceOp(answer)(PlaceRow(p.id))] == [PlaceOp(answer)(PlaceRow(p.id))];
  }

  lemma {:induction false} OwnPartIsTold(name: OperationName, part: Option<Record>, answer: Statuses)
    ensures OwnPartTold(PartSays(name, part, answer), name, part, answer)
  {
    if part.Some? {
      StatusIsTold(name, answer, RecordRow(part.value));
    }
  }

  lemma {:induction false} EditAndPolicyTold(r: ObjectResult, input: TweetInput, a: TweetAnswers, c: ConvertedTweet)
    requires input.Converted() == Ok(c)
    requires r.Said(TweetEditWrite) == TweetSays(input, a, TweetEditWrite)
    requires r.Said(TweetPolicyWrite) == TweetSays(input, a, TweetPolicyWrite)
    ensures OwnPartTold(r.Said(TweetEditWrite), TweetEditWrite, c.edit, a.edits)
    ensures OwnPartTold(r.Said(TweetPolicyWrite), TweetPolicyWrite, c.policy, a.policies)
  {
    OwnPartIsTold(TweetEditWrite, c.edit, a.edits);
    OwnPartIsTold(TweetPolicyWrite, c.policy, a.policies);
  }

  lemma {:induction false} NoteAndStatsTold(r: ObjectResult, input: TweetInput, a: TweetAnswers, c: ConvertedTweet)
    requires input.Converted() == Ok(c)
    requires r.Said(TweetCommunityNoteWrite) == TweetSays(input, a, TweetCommunityNoteWrite)
    requires r.Said(TweetStatsWrite) == TweetSays(input, a, TweetStatsWrite)
    ensures OwnPartTold(r.Said(TweetCommunityNoteWrite), TweetCommunityNoteWrite, c.communityNote, a.communityNotes)
    ensures OwnPartTold(r.Said(TweetStatsWrite), TweetStatsWrite, c.stats, a.stats)
  {
    OwnPartIsTold(TweetCommunityNoteWrite, c.communityNote, a.communityNotes);
    OwnPartIsTold(TweetStatsWrite, c.stats, a.stats);
  }

  lemma {:induction false} RelationsAreSaid(r: ObjectResult, input: TweetInput, a: TweetAnswers, c: ConvertedTweet)
    requires input.Converted() == Ok(c)
    requires forall m :: r.Said(m) == TweetSays(input, a, m)
    ensures forall m :: IsRelation(m) ==> RelationTold(r.Said(m), m, a.relations, RecordRow(c.relations))
  {
    forall m | IsRelation(m)
      ensures RelationTold(r.Said(m), m, a.relations, RecordRow(c.relations))
    {
      assert r.Said(m) == [RelationOp(m, a.relations, RecordRow(c.relations))];
      SyncIsSaid(m, a.relations, RecordRow(c.relations));
    }
  }

  lemma {:induction false} ConvertedIsTold(r: ObjectResult, input: TweetInput, a: TweetAnswers, c: ConvertedTweet)
    requires input.Converted() == Ok(c)
    requires forall m :: r.Said(m) == TweetSays(input, a, m)
    ensures ConvertedTold(r, c, a)
  {
    EditAndPolicyTold(r, input, a, c);
    NoteAndStatsTold(r, input, a, c);
    RelationsAreSaid(r, input, a, c);
    ChangeIsTold(TweetWrite, a.tweets, RecordRow(c.tweet));
  }

  lemma {:induction false} NotConvertedIsTold(r: ObjectResult, input: TweetInput, a: TweetAnswers)
    requires input.Converted().Err?
    requires forall m :: r.Said(m) == TweetSays(input, a, m)
    ensures NotConvertedTold(r, input.Converted().error)
  {
  }

  lemma {:induction false} AuthorAndPlaceTold(r: ObjectResult, input: TweetInput, a: TweetAnswers)
    requires ParseI64(input.authorId).Some?
    requires r.Said(TweetAuthorWrite) == TweetSays(input, a, TweetAuthorWrite)
    requires r.Said(TweetPlaceWrite) == TweetSays(input, a, TweetPlaceWrite)
    ensures ChangedTold(r.Said(TweetAuthorWrite), TweetAuthorWrite, a.authors, UserRow(ParseI64(input.authorId).value),
                        "inserted_minimal", "existing")
    ensures PlaceTold(r.Said(TweetPlaceWrite), input.place, a.places)
  {
    PlaceIsTold(input.place, a.places);
  }

  lemma {:induction false} NothingElseSaid(input: TweetInput, a: TweetAnswers)
    ensures forall m :: m !in TWEET_NAMES ==> TweetSays(input, a, m) == []
  {
  }

  lemma {:induction false} TweetIsTold(r: ObjectResult, input: TweetInput, a: TweetAnswers)
    requires ParseI64(input.authorId).Some?
    requires forall m :: r.Said(m) == TweetSays(input, a, m)
    ensures TweetTold(r, input, a)
  {
    AuthorAndPlaceTold(r, input, a);
    match input.Converted() {
      case Err(_) => NotConvertedIsTold(r, input, a);
      case Ok(c) => ConvertedIsTold(r, input, a, c);
    }
    NothingElseSaid(input, a);
  }

  lemma {:induction false} TweetIsAnswered(inputs: seq<TweetInput>, i: nat, r: ObjectResult, a: TweetAnswers)
    requires i < |inputs| && TallyAt(TweetResultAt(inputs)(i), r, i, TweetDue(inputs, a), TWEET_NAMES)
    ensures TweetAnswered(r, inputs, i, a)
  {
    FinishMeans(r);
    if TweetTakesPart(inputs, i) {
      forall m: OperationName
        ensures r.Said(m) == TweetSays(inputs[i], a, m)
      {
        PreparedAndDue(inputs, i, a, m);
      }
      TweetIsTold(r, inputs[i], a);
    } else {
      NothingDue(inputs, i, a);
    }
  }

  lemma {:induction false} NothingDue(inputs: seq<TweetInput>, i: nat, a: TweetAnswers)
    requires !TweetTakesPart(inputs, i)
    ensures forall m: OperationName :: TweetDueAt(inputs, a, i, m).None?
  {
    assert ConvertedAt(inputs)(i).None? && AuthorAt(inputs)(i).None? && PlaceAt(inputs)(i).None?;
    forall part: TweetPart
      ensures PartAt(inputs, part)(i).None?
    {
    }
  }

  /** An object with a bad id ends as failed, a shadowed one as skipped. */
  lemma {:induction false} RefusedFinishes(ids: seq<string>, i: nat)
    requires i < |ids|
    ensures Refused(ids, i).Finish() == if ParseI64(ids[i]).None? then ObjectStatus.Failed else ObjectStatus.Skipped
  {
  }

  // ---------- a batch that was not written ----------

  /** The report holds one failed preload and no write, and the object has failed. */
  ghost predicate NotWritten(r: ObjectResult, name: OperationName, error: string) {
    && (exists op :: r.Said(DictPreload) == [op] && op.status == OperationStatus.Failed && op.reason == error)
    && r.Said(name) == [] && r.Finish() == ObjectStatus.Failed
  }

  ghost predicate UsersNotStarted(results: seq<ObjectResult>, inputs: seq<UserInput>, error: string) {
    |results| == |inputs| && forall i :: 0 <= i < |inputs| ==> UserNotStarted(results[i], inputs, i, error)
  }

  ghost predicate UserNotStarted(r: ObjectResult, inputs: seq<UserInput>, i: nat, error: string)
    requires i < |inputs|
  {
    if Unshadowed(UserIds(inputs), i)
    then r == UserResultAt(inputs)(i).Add(Fails(DictPreload, error)) && NotWritten(r, TwitterUserWrite, error)
    else r == Refused(UserIds(inputs), i)
  }

  ghost predicate MediaNotStarted(results: seq<ObjectResult>, inputs: seq<MediaInput>, error: string) {
    |results| == |inputs| && forall i :: 0 <= i < |inputs| ==> MediumNotStarted(results[i], inputs, i, error)
  }

  ghost predicate MediumNotStarted(r: ObjectResult, inputs: seq<MediaInput>, i: nat, error: string)
    requires i < |inputs|
  {
    if MediaAt(inputs)(i).Some? || MediaResourceAt(inputs)(i).Some?
    then r == MediaResultAt(inputs)(i).Add(Fails(DictPreload, error)) && NotWritten(r, MediaTransferEnqueue, error)
    else r == MediaResultAt(inputs)(i)
  }

  ghost predicate TweetsNotStarted(results: seq<ObjectResult>, inputs: seq<TweetInput>, error: string) {
    |results| == |inputs| && forall i :: 0 <= i < |inputs| ==> TweetNotStarted(results[i], inputs, i, error)
  }

  ghost predicate TweetNotStarted(r: ObjectResult, inputs: seq<TweetInput>, i: nat, error: string)
    requires i < |inputs|
  {
    if TweetTakesPart(inputs, i)
    then r == TweetResultAt(inputs)(i).Add(Fails(DictPreload, error)) && NotWritten(r, TweetAuthorWrite, error)
    else r == TweetResultAt(inputs)(i)
  }

  /** A report that holds nothing but failures, and one more. */
  lemma {:induction false} OnlyFailures<S, T>(id: string, n1: OperationName, c1: Option<Conversion<S>>,
                                              n2: OperationName, c2: Option<Conversion<T>>, name: OperationName,
                                              error: string)
    requires n1 != n2 && n1 != DictPreload && n2 != DictPreload && name != DictPreload && name != n1 && name != n2
    ensures NotWritten(ObjectResult(id, Failure(n1, c1) + Failure(n2, c2), None).Add(Fails(DictPreload, error)), name,
                       error)
  {
    var r := ObjectResult(id, Failure(n1, c1) + Failure(n2, c2), None);
    assert forall i :: 0 <= i < |r.operations| ==> r.operations[i].status == OperationStatus.Failed;
    OnlyFailuresSaid(id, n1, c1, n2, c2, DictPreload, error);
    OnlyFailuresSaid(id, n1, c1, n2, c2, name, error);
    HasFailed(r, Fails(DictPreload, error));
  }

  lemma {:induction false} OnlyFailuresSaid<S, T>(id: string, n1: OperationName, c1: Option<Conversion<S>>,
                                                  n2: OperationName, c2: Option<Conversion<T>>, name: OperationName,
                                                  error: string)
    requires n1 != n2 && name != n1 && name != n2
    ensures var r := ObjectResult(id, Failure(n1, c1) + Failure(n2, c2), None);
            r.Add(Fails(DictPreload, error)).Said(name)
            == if name == DictPreload then [Fails(DictPreload, error)] else []
  {
    var r := ObjectResult(id, Failure(n1, c1) + Failure(n2, c2), None);
    NamedFailures(n1, c1, n2, c2, name);
    SaidAdd(r, Fails(DictPreload, error), name);
  }

  lemma {:induction false} HasFailed(r: ObjectResult, op: Operation)
    requires op.status == OperationStatus.Failed
    requires forall i :: 0 <= i < |r.operations| ==> r.operations[i].status == OperationStatus.Failed
    ensures r.Add(op).Finish() == ObjectStatus.Failed
  {
    assert r.Add(op).operations[|r.operations|] == op;
  }

  lemma {:induction false} UserFails(inputs: seq<UserInput>, i: nat, error: string)
    requires i < |inputs| && Unshadowed(UserIds(inputs), i)
    ensures NotWritten(UserResultAt(inputs)(i).Add(Fails(DictPreload, error)), TwitterUserWrite, error)
  {
    OnlyFailures(inputs[i].id, UserSnapshotWrite, inputs[i].profile, UserStatsWrite, inputs[i].stats,
                 TwitterUserWrite, error);
  }

  lemma {:induction false} MediumFails(inputs: seq<MediaInput>, i: nat, error: string)
    requires i < |inputs| && Unshadowed(MediaIds(inputs), i)
    ensures NotWritten(MediaResultAt(inputs)(i).Add(Fails(DictPreload, error)), MediaTransferEnqueue, error)
  {
    OnlyFailures(inputs[i].id, MediaWrite, Some(inputs[i].media), MediaResourceWrite, inputs[i].resource,
                 MediaTransferEnqueue, error);
  }

  lemma {:induction false} TweetFails(inputs: seq<TweetInput>, i: nat, error: string)
    requires i < |inputs| && TweetTakesPart(inputs, i)
    ensures NotWritten(TweetResultAt(inputs)(i).Add(Fails(DictPreload, error)), TweetAuthorWrite, error)
  {
    OnlyFailures(inputs[i].id, TweetPlaceWrite, inputs[i].place, TweetWrite, Some(inputs[i].Converted()),
                 TweetAuthorWrite, error);
  }
}
