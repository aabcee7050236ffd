/** Turning a submitted batch into the rows to write, with one report per submitted object
    (server/src/tweet_submit/batch.rs, validate.rs, and prepare.rs, lines 73 to 319). */
module SubmitPrepare {
  import opened Prelude
  import opened SubmitResult

  // ---------- identifiers ----------

  predicate Digit(c: char) {
    '0' <= c <= '9'
  }

  function DigitValue(c: char): nat
    requires Digit(c)
  {
    c as int - '0' as int
  }

  predicate AllDigits(s: string) {
    forall i :: 0 <= i < |s| ==> Digit(s[i])
  }

  function DigitsValue(s: string): nat
    requires AllDigits(s)
  {
    if s == [] then 0
    else
      var n := |s| - 1;
      10 * DigitsValue(s[..n]) + DigitValue(s[n])
  }

  /** A signed 64-bit integer in decimal: an optional sign and at least one digit, within range. */
  function ParseI64(s: string): Option<int> {
    var signed := s != [] && (s[0] == '-' || s[0] == '+');
    var digits := if signed then s[1..] else s;
    if digits == [] || !AllDigits(digits) then None
    else
      var magnitude: int := DigitsValue(digits);
      var n := if signed && s[0] == '-' then -magnitude else magnitude;
      if -I64_MAX - 1 <= n <= I64_MAX then Some(n) else None
  }

  /** The digits of a number, without leading zeros. */
  function Decimal(n: nat): string {
    if n < 10 then [DigitChar(n)] else Decimal(n / 10) + [DigitChar(n % 10)]
  }

  function DigitChar(n: nat): char
    requires n < 10
  {
    '0' + n as char
  }

  lemma {:induction false} DecimalDigits(n: nat)
    ensures Decimal(n) != [] && AllDigits(Decimal(n))
    ensures DigitsValue(Decimal(n)) == n
  {
    if n >= 10 {
      DecimalDigits(n / 10);
      assert Decimal(n)[..|Decimal(n)| - 1] == Decimal(n / 10);
    }
  }

  /** A number is read back from its digits exactly if it fits into 64 bits. */
  lemma {:induction false} ParsesDecimal(n: nat)
    ensures ParseI64(Decimal(n)) == if n <= 0x7fff_ffff_ffff_ffff then Some(n) else None
  {
    DecimalDigits(n);
    assert Digit(Decimal(n)[0]);
  }

  /** And so it is with a sign. */
  lemma {:induction false} ParsesSigned(n: nat, sign: char)
    requires sign == '+' || sign == '-'
    ensures var limit := if sign == '-' then 0x8000_0000_0000_0000 else 0x7fff_ffff_ffff_ffff;
            ParseI64([sign] + Decimal(n)) == if n <= limit then Some((if sign == '-' then -1 else 1) * n) else None
  {
    DecimalDigits(n);
    assert ([sign] + Decimal(n))[1..] == Decimal(n);
  }

  /** Nothing else is read: there must be a digit, and nothing but digits after the sign. */
  lemma {:induction false} ParsesOnlyDigits(s: string)
    requires ParseI64(s).Some?
    ensures -0x8000_0000_0000_0000 <= ParseI64(s).value <= 0x7fff_ffff_ffff_ffff
    ensures s != [] && '0' <= s[|s| - 1] <= '9'
    ensures forall i :: 0 < i < |s| ==> '0' <= s[i] <= '9'
    ensures s[0] == '+' || s[0] == '-' || '0' <= s[0] <= '9'
  {
    var signed := s != [] && (s[0] == '-' || s[0] == '+');
    var digits := if signed then s[1..] else s;
    forall i | 0 < i < |s| || (i == 0 && !signed)
      ensures 0 <= i < |s| && Digit(s[i])
    {
      var j := if signed then i - 1 else i;
      assert AllDigits(digits) && s[i] == digits[j];
    }
  }

  /** The object at `i` has a valid id that no later object has. */
  predicate Unshadowed(ids: seq<string>, i: nat) {
    && i < |ids| && ParseI64(ids[i]).Some?
    && forall j :: i < j < |ids| ==> ParseI64(ids[j]) != ParseI64(ids[i])
  }

  /** `last` maps every id that occurs to the index of its last occurrence. */
  ghost predicate IsLast(last: map<int, nat>, ids: seq<string>) {
    && (forall i :: 0 <= i < |ids| && ParseI64(ids[i]).Some? ==> ParseI64(ids[i]).value in last)
    && (forall id :: id in last ==> Unshadowed(ids, last[id]) && ParseI64(ids[last[id]]) == Some(id))
  }

  method CollectLastValidI64Indices(ids: seq<string>) returns (last: map<int, nat>)
    ensures IsLast(last, ids)
  {
    last := map[];
    for i := 0 to |ids|
      invariant forall j :: 0 <= j < i && ParseI64(ids[j]).Some? ==> ParseI64(ids[j]).value in last
      invariant forall id :: id in last ==>
                  && last[id] < i && ParseI64(ids[last[id]]) == Some(id)
                  && forall j :: last[id] < j < i ==> ParseI64(ids[j]) != Some(id)
    {
      var parsed := ParseI64(ids[i]);
      if parsed.Some? {
        last := last[parsed.value := i];
      }
    }
  }

  /** The code's test for being shadowed is the test for a later object with the same id. */
  lemma {:induction false} LastIsUnshadowed(ids: seq<string>, last: map<int, nat>, i: nat)
    requires i < |ids| && ParseI64(ids[i]).Some? && IsLast(last, ids)
    ensures last[ParseI64(ids[i]).value] == i <==> Unshadowed(ids, i)
  {
  }

  // ---------- what is submitted and what is prepared ----------

  /** A converted record; only which one it is matters here. */
  type Record = int

  /** What the conversion of a part of an object yields. */
  type Conversion<+T> = Result<T, string>

  datatype TwitterUser = TwitterUser(id: int, registeredAt: Option<int>)

  datatype TweetPlace = TweetPlace(id: string, details: Record)

  datatype ConvertedTweet = ConvertedTweet(
    tweet: Record, edit: Option<Record>, policy: Option<Record>,
    communityNote: Option<Record>, stats: Option<Record>, relations: Record)

  datatype UserInput = UserInput(
    id: string, registeredAt: Option<int>,
    profile: Option<Conversion<Record>>, stats: Option<Conversion<Record>>)

  datatype MediaInput = MediaInput(id: string, media: Conversion<Record>, resource: Option<Conversion<Record>>)

  /** The conversion of a tweet is given the id of its place, if that could be converted. */
  datatype TweetInput = TweetInput(
    id: string, authorId: string,
    place: Option<Conversion<Option<TweetPlace>>>, convert: Option<string> -> Conversion<ConvertedTweet>) {
    function PlaceId(): Option<string> {
      if place.Some? && place.value.Ok? && place.value.value.Some? then Some(place.value.value.value.id) else None
    }

    function Converted(): Conversion<ConvertedTweet> {
      convert(PlaceId())
    }
  }

  datatype Indexed<+T> = Indexed(index: nat, value: T)

  class PreparedSubmitBatch {
    var userResults: seq<ObjectResult>
    var tweetResults: seq<ObjectResult>
    var mediaResults: seq<ObjectResult>
    var users: seq<Indexed<TwitterUser>>
    var tweetAuthors: seq<Indexed<TwitterUser>>
    var userSnapshots: seq<Indexed<Record>>
    var userStats: seq<Indexed<Record>>
    var media: seq<Indexed<Record>>
    var mediaResources: seq<Indexed<Record>>
    var tweetPlaces: seq<Indexed<TweetPlace>>
    var tweets: seq<Indexed<Record>>
    var tweetEdits: seq<Indexed<Record>>
    var tweetPolicies: seq<Indexed<Record>>
    var tweetCommunityNotes: seq<Indexed<Record>>
    var tweetStats: seq<Indexed<Record>>
    var tweetRelations: seq<Indexed<Record>>

    constructor ()
      ensures userResults == [] && tweetResults == [] && mediaResults == []
      ensures users == [] && tweetAuthors == [] && userSnapshots == [] && userStats == []
      ensures media == [] && mediaResources == [] && tweetPlaces == [] && tweets == [] && tweetEdits == []
      ensures tweetPolicies == [] && tweetCommunityNotes == [] && tweetStats == [] && tweetRelations == []
    {
      userResults, tweetResults, mediaResults := [], [], [];
      users, tweetAuthors, userSnapshots, userStats := [], [], [], [];
      media, mediaResources, tweetPlaces, tweets, tweetEdits := [], [], [], [], [];
      tweetPolicies, tweetCommunityNotes, tweetStats, tweetRelations := [], [], [], [];
    }
  }

  // ---------- the specification: what each object contributes ----------

  /** What the objects contribute to one of the prepared lists: `at(i)`, for each index i that
      contributes, in input order. */
  function Pick<T>(at: nat -> Option<T>, n: nat): seq<Indexed<T>> {
    if n == 0 then [] else Pick(at, n - 1) + PickAt(at, n - 1)
  }

  function PickAt<T>(at: nat -> Option<T>, i: nat): seq<Indexed<T>> {
    if at(i).Some? then [Indexed(i, at(i).value)] else []
  }

  lemma {:induction false} PickHas<T>(at: nat -> Option<T>, n: nat, i: nat)
    requires i < n && at(i).Some?
    ensures Indexed(i, at(i).value) in Pick(at, n)
  {
    if i < n - 1 {
      PickHas(at, n - 1, i);
    }
  }

  lemma {:induction false} PickEntry<T>(at: nat -> Option<T>, n: nat, k: nat)
    requires k < |Pick(at, n)|
    ensures var e := Pick(at, n)[k];
            e.index < n && at(e.index) == Some(e.value)
  {
    if k < |Pick(at, n - 1)| {
      PickEntry(at, n - 1, k);
    }
  }

  lemma {:induction false} PickOrder<T>(at: nat -> Option<T>, n: nat, j: nat, k: nat)
    requires j < k < |Pick(at, n)|
    ensures Pick(at, n)[j].index < Pick(at, n)[k].index
  {
    if k < |Pick(at, n - 1)| {
      PickOrder(at, n - 1, j, k);
    } else {
      PickEntry(at, n - 1, j);
    }
  }

  /** A prepared list names each contributing index once, in ascending order, and no other. */
  lemma {:induction false} PickFacts<T>(at: nat -> Option<T>, n: nat)
    ensures var p := Pick(at, n);
            && (forall k :: 0 <= k < |p| ==> p[k].index < n && at(p[k].index) == Some(p[k].value))
            && (forall j, k :: 0 <= j < k < |p| ==> p[j].index < p[k].index)
            && (forall i :: 0 <= i < n && at(i).Some? ==> Indexed(i, at(i).value) in p)
  {
    var p := Pick(at, n);
    forall k: nat | k < |p|
      ensures p[k].index < n && at(p[k].index) == Some(p[k].value)
    {
      PickEntry(at, n, k);
    }
    forall j: nat, k: nat | j < k < |p|
      ensures p[j].index < p[k].index
    {
      PickOrder(at, n, j, k);
    }
    forall i: nat | i < n && at(i).Some?
      ensures Indexed(i, at(i).value) in p
    {
      PickHas(at, n, i);
    }
  }

  /** One report per object, in input order. */
  function Reports(at: nat -> ObjectResult, n: nat): (r: seq<ObjectResult>)
    ensures |r| == n && forall i :: 0 <= i < n ==> r[i] == at(i)
  {
    if n == 0 then [] else Reports(at, n - 1) + [at(n - 1)]
  }

  function UserIds(inputs: seq<UserInput>): seq<string> {
    seq(|inputs|, i requires 0 <= i < |inputs| => inputs[i].id)
  }

  function MediaIds(inputs: seq<MediaInput>): seq<string> {
    seq(|inputs|, i requires 0 <= i < |inputs| => inputs[i].id)
  }

  function TweetIds(inputs: seq<TweetInput>): seq<string> {
    seq(|inputs|, i requires 0 <= i < |inputs| => inputs[i].id)
  }

  const BAD_ID: string := "must be a signed 64-bit integer"
  const SHADOWED: Operation := Operation(Input, OperationStatus.Skipped, "shadowed_by_duplicate_input")

  /** The report of an object that is not prepared: fatal for a bad id, skipped for a shadowed one. */
  function Refused(ids: seq<string>, i: nat): ObjectResult
    requires i < |ids|
  {
    if ParseI64(ids[i]).None? then ObjectResult(ids[i], [], Some("must be a signed 64-bit integer"))
    else ObjectResult(ids[i], [Operation(Input, OperationStatus.Skipped, "shadowed_by_duplicate_input")], None)
  }

  /** The failure a refused conversion leaves in the report. */
  function Failure<T>(name: OperationName, c: Option<Conversion<T>>): seq<Operation> {
    if c.Some? && c.value.Err? then [Operation(name, OperationStatus.Failed, c.value.error)] else []
  }

  function Success<T>(c: Option<Conversion<T>>): Option<T> {
    if c.Some? && c.value.Ok? then Some(c.value.value) else None
  }

  function UserAt(inputs: seq<UserInput>): nat -> Option<TwitterUser> {
    (i: nat) => if Unshadowed(UserIds(inputs), i)
      then Some(TwitterUser(ParseI64(inputs[i].id).value, inputs[i].registeredAt)) else None
  }

  function SnapshotAt(inputs: seq<UserInput>): nat -> Option<Record> {
    (i: nat) => if Unshadowed(UserIds(inputs), i) then Success(inputs[i].profile) else None
  }

  function UserStatsAt(inputs: seq<UserInput>): nat -> Option<Record> {
    (i: nat) => if Unshadowed(UserIds(inputs), i) then Success(inputs[i].stats) else None
  }

  function UserResultAt(inputs: seq<UserInput>): nat -> ObjectResult {
    (i: nat) =>
      if i >= |inputs| then NewResult("")
      else if !Unshadowed(UserIds(inputs), i) then Refused(UserIds(inputs), i)
      else ObjectResult(inputs[i].id,
                        Failure(UserSnapshotWrite, inputs[i].profile) + Failure(UserStatsWrite, inputs[i].stats), None)
  }

  /** One submitted user; `last` tells which one of several with the same id counts. */
  method PrepareUser(prepared: PreparedSubmitBatch, inputs: seq<UserInput>, last: map<int, nat>, i: nat)
    requires i < |inputs| && IsLast(last, UserIds(inputs))
    modifies prepared`userResults, prepared`users, prepared`userSnapshots, prepared`userStats
    ensures prepared.userResults == old(prepared.userResults) + [UserResultAt(inputs)(i)]
    ensures prepared.users == old(prepared.users) + PickAt(UserAt(inputs), i)
    ensures prepared.userSnapshots == old(prepared.userSnapshots) + PickAt(SnapshotAt(inputs), i)
    ensures prepared.userStats == old(prepared.userStats) + PickAt(UserStatsAt(inputs), i)
  {
    var user := inputs[i];
    var result := NewResult(user.id);
    var userId := ParseI64(user.id);
    assert UserIds(inputs)[i] == user.id;
    if userId.None? {
      prepared.userResults := prepared.userResults + [result.(fatalError := Some(BAD_ID))];
      return;
    }
    LastIsUnshadowed(UserIds(inputs), last, i);
    if last[userId.value] != i {
      assert result.Add(SHADOWED).operations == [SHADOWED];
      prepared.userResults := prepared.userResults + [result.Add(SHADOWED)];
      return;
    }
    prepared.users := prepared.users + [Indexed(i, TwitterUser(userId.value, user.registeredAt))];
    if user.profile.Some? {
      match user.profile.value {
        case Ok(snapshot) => prepared.userSnapshots := prepared.userSnapshots + [Indexed(i, snapshot)];
        case Err(error) => result := result.Add(Operation(UserSnapshotWrite, OperationStatus.Failed, error));
      }
    }
    if user.stats.Some? {
      match user.stats.value {
        case Ok(stats) => prepared.userStats := prepared.userStats + [Indexed(i, stats)];
        case Err(error) => result := result.Add(Operation(UserStatsWrite, OperationStatus.Failed, error));
      }
    }
    assert result.operations == Failure(UserSnapshotWrite, user.profile) + Failure(UserStatsWrite, user.stats);
    prepared.userResults := prepared.userResults + [result];
  }

  /** One report per object in input order; each list holds exactly what the objects contribute. */
  ghost predicate UsersPrepared(p: PreparedSubmitBatch, inputs: seq<UserInput>)
    reads p`userResults, p`users, p`userSnapshots, p`userStats
  {
    && p.userResults == Reports(UserResultAt(inputs), |inputs|)
    && p.users == Pick(UserAt(inputs), |inputs|)
    && p.userSnapshots == Pick(SnapshotAt(inputs), |inputs|)
    && p.userStats == Pick(UserStatsAt(inputs), |inputs|)
  }

  /** One report per submitted user in input order; the prepared lists hold what each contributes. */
  method PrepareUsers(prepared: PreparedSubmitBatch, inputs: seq<UserInput>)
    requires prepared.userResults == [] && prepared.users == []
    requires prepared.userSnapshots == [] && prepared.userStats == []
    modifies prepared`userResults, prepared`users, prepared`userSnapshots, prepared`userStats
    ensures UsersPrepared(prepared, inputs)
  {
    var last := CollectLastValidI64Indices(UserIds(inputs));
    for i := 0 to |inputs|
      invariant prepared.userResults == Reports(UserResultAt(inputs), i)
      invariant prepared.users == Pick(UserAt(inputs), i)
      invariant prepared.userSnapshots == Pick(SnapshotAt(inputs), i)
      invariant prepared.userStats == Pick(UserStatsAt(inputs), i)
    {
      PrepareUser(prepared, inputs, last, i);
    }
  }

  // ---------- media ----------

  function MediaAt(inputs: seq<MediaInput>): nat -> Option<Record> {
    (i: nat) => if Unshadowed(MediaIds(inputs), i) then Success(Some(inputs[i].media)) else None
  }

  function MediaResourceAt(inputs: seq<MediaInput>): nat -> Option<Record> {
    (i: nat) => if Unshadowed(MediaIds(inputs), i) then Success(inputs[i].resource) else None
  }

  function MediaResultAt(inputs: seq<MediaInput>): nat -> ObjectResult {
    (i: nat) =>
      if i >= |inputs| then NewResult("")
      else if !Unshadowed(MediaIds(inputs), i) then Refused(MediaIds(inputs), i)
      else ObjectResult(inputs[i].id,
                        Failure(MediaWrite, Some(inputs[i].media))
                        + Failure(MediaResourceWrite, inputs[i].resource), None)
  }

  /** One submitted media object. */
  method PrepareMediaObject(prepared: PreparedSubmitBatch, inputs: seq<MediaInput>, last: map<int, nat>, i: nat)
    requires i < |inputs| && IsLast(last, MediaIds(inputs))
    modifies prepared`mediaResults, prepared`media, prepared`mediaResources
    ensures prepared.mediaResults == old(prepared.mediaResults) + [MediaResultAt(inputs)(i)]
    ensures prepared.media == old(prepared.media) + PickAt(MediaAt(inputs), i)
    ensures prepared.mediaResources == old(prepared.mediaResources) + PickAt(MediaResourceAt(inputs), i)
  {
    var item := inputs[i];
    var result := NewResult(item.id);
    var mediaId := ParseI64(item.id);
    assert MediaIds(inputs)[i] == item.id;
    if mediaId.None? {
      prepared.mediaResults := prepared.mediaResults + [result.(fatalError := Some(BAD_ID))];
      return;
    }
    LastIsUnshadowed(MediaIds(inputs), last, i);
    if last[mediaId.value] != i {
      assert result.Add(SHADOWED).operations == [SHADOWED];
      prepared.mediaResults := prepared.mediaResults + [result.Add(SHADOWED)];
      return;
    }
    match item.media {
      case Ok(model) => prepared.media := prepared.media + [Indexed(i, model)];
      case Err(error) => result := result.Add(Operation(MediaWrite, OperationStatus.Failed, error));
    }
    if item.resource.Some? {
      match item.resource.value {
        case Ok(resource) => prepared.mediaResources := prepared.mediaResources + [Indexed(i, resource)];
        case Err(error) => result := result.Add(Operation(MediaResourceWrite, OperationStatus.Failed, error));
      }
    }
    assert result.operations == Failure(MediaWrite, Some(item.media)) + Failure(MediaResourceWrite, item.resource);
    prepared.mediaResults := prepared.mediaResults + [result];
  }

  ghost predicate MediaPrepared(p: PreparedSubmitBatch, inputs: seq<MediaInput>)
    reads p`mediaResults, p`media, p`mediaResources
  {
    && p.mediaResults == Reports(MediaResultAt(inputs), |inputs|)
    && p.media == Pick(MediaAt(inputs), |inputs|)
    && p.mediaResources == Pick(MediaResourceAt(inputs), |inputs|)
  }

  method PrepareMedia(prepared: PreparedSubmitBatch, inputs: seq<MediaInput>)
    requires prepared.mediaResults == [] && prepared.media == [] && prepared.mediaResources == []
    modifies prepared`mediaResults, prepared`media, prepared`mediaResources
    ensures MediaPrepared(prepared, inputs)
  {
    var last := CollectLastValidI64Indices(MediaIds(inputs));
    for i := 0 to |inputs|
      invariant prepared.mediaResults == Reports(MediaResultAt(inputs), i)
      invariant prepared.media == Pick(MediaAt(inputs), i)
      invariant prepared.mediaResources == Pick(MediaResourceAt(inputs), i)
    {
      PrepareMediaObject(prepared, inputs, last, i);
    }
  }

  // ---------- tweets ----------

  /** A tweet takes part when it is not shadowed and names an author. */
  predicate TweetTakesPart(inputs: seq<TweetInput>, i: nat) {
    Unshadowed(TweetIds(inputs), i) && ParseI64(inputs[i].authorId).Some?
  }

  function AuthorAt(inputs: seq<TweetInput>): nat -> Option<TwitterUser> {
    (i: nat) => if TweetTakesPart(inputs, i) then Some(TwitterUser(ParseI64(inputs[i].authorId).value, None)) else None
  }

  function PlaceAt(inputs: seq<TweetInput>): nat -> Option<TweetPlace> {
    (i: nat) =>
      if TweetTakesPart(inputs, i) && Success(inputs[i].place).Some? then Success(inputs[i].place).value else None
  }

  function ConvertedAt(inputs: seq<TweetInput>): nat -> Option<ConvertedTweet> {
    (i: nat) => if TweetTakesPart(inputs, i) then Success(Some(inputs[i].Converted())) else None
  }

  /** The part of a converted tweet a list takes. */
  function PartAt(inputs: seq<TweetInput>, part: TweetPart): nat -> Option<Record> {
    (i: nat) => if ConvertedAt(inputs)(i).Some? then part.Of(ConvertedAt(inputs)(i).value) else None
  }

  datatype TweetPart = TheTweet | TheEdit | ThePolicy | TheCommunityNote | TheStats | TheRelations {
    function Of(c: ConvertedTweet): Option<Record> {
      match this
      case TheTweet => Some(c.tweet)
      case TheEdit => c.edit
      case ThePolicy => c.policy
      case TheCommunityNote => c.communityNote
      case TheStats => c.stats
      case TheRelations => Some(c.relations)
    }
  }

  function TweetResultAt(inputs: seq<TweetInput>): nat -> ObjectResult {
    (i: nat) =>
      if i >= |inputs| then NewResult("")
      else if !Unshadowed(TweetIds(inputs), i) then Refused(TweetIds(inputs), i)
      else if ParseI64(inputs[i].authorId).None?
      then ObjectResult(inputs[i].id, [], Some("must be a signed 64-bit integer"))
      else ObjectResult(inputs[i].id,
                        Failure(TweetPlaceWrite, inputs[i].place)
                        + Failure(TweetWrite, Some(inputs[i].Converted())), None)
  }

  function Listed(record: Option<Record>, i: nat): seq<Indexed<Record>> {
    if record.Some? then [Indexed(i, record.value)] else []
  }

  /** The converted tweet goes to every list it has a part for. */
  method PushConverted(prepared: PreparedSubmitBatch, i: nat, c: ConvertedTweet)
    modifies prepared`tweets, prepared`tweetEdits, prepared`tweetPolicies
    modifies prepared`tweetCommunityNotes, prepared`tweetStats, prepared`tweetRelations
    ensures prepared.tweets == old(prepared.tweets) + Listed(Some(c.tweet), i)
    ensures prepared.tweetEdits == old(prepared.tweetEdits) + Listed(c.edit, i)
    ensures prepared.tweetPolicies == old(prepared.tweetPolicies) + Listed(c.policy, i)
    ensures prepared.tweetCommunityNotes == old(prepared.tweetCommunityNotes) + Listed(c.communityNote, i)
    ensures prepared.tweetStats == old(prepared.tweetStats) + Listed(c.stats, i)
    ensures prepared.tweetRelations == old(prepared.tweetRelations) + Listed(Some(c.relations), i)
  {
    prepared.tweets := prepared.tweets + [Indexed(i, c.tweet)];
    if c.edit.Some? {
      prepared.tweetEdits := prepared.tweetEdits + [Indexed(i, c.edit.value)];
    }
    if c.policy.Some? {
      prepared.tweetPolicies := prepared.tweetPolicies + [Indexed(i, c.policy.value)];
    }
    if c.communityNote.Some? {
      prepared.tweetCommunityNotes := prepared.tweetCommunityNotes + [Indexed(i, c.communityNote.value)];
    }
    if c.stats.Some? {
      prepared.tweetStats := prepared.tweetStats + [Indexed(i, c.stats.value)];
    }
    prepared.tweetRelations := prepared.tweetRelations + [Indexed(i, c.relations)];
  }

  lemma {:induction false} NoParts(inputs: seq<TweetInput>, i: nat)
    requires ConvertedAt(inputs)(i).None?
    ensures forall part: TweetPart :: PickAt(PartAt(inputs, part), i) == []
  {
  }

  lemma {:induction false} ItsParts(inputs: seq<TweetInput>, i: nat, c: ConvertedTweet)
    requires ConvertedAt(inputs)(i) == Some(c)
    ensures forall part: TweetPart :: PickAt(PartAt(inputs, part), i) == Listed(part.Of(c), i)
  {
  }

  /** The parts of a tweet that converts are listed; the failure of one that does not is reported. */
  method PrepareParts(prepared: PreparedSubmitBatch, inputs: seq<TweetInput>, i: nat, placeId: Option<string>,
                      result: ObjectResult) returns (r: ObjectResult)
    requires TweetTakesPart(inputs, i) && placeId == inputs[i].PlaceId()
    modifies prepared`tweets, prepared`tweetEdits, prepared`tweetPolicies
    modifies prepared`tweetCommunityNotes, prepared`tweetStats, prepared`tweetRelations
    ensures r == result.(operations := result.operations + Failure(TweetWrite, Some(inputs[i].Converted())))
    ensures prepared.tweets == old(prepared.tweets) + PickAt(PartAt(inputs, TheTweet), i)
    ensures prepared.tweetEdits == old(prepared.tweetEdits) + PickAt(PartAt(inputs, TheEdit), i)
    ensures prepared.tweetPolicies == old(prepared.tweetPolicies) + PickAt(PartAt(inputs, ThePolicy), i)
    ensures prepared.tweetCommunityNotes
            == old(prepared.tweetCommunityNotes) + PickAt(PartAt(inputs, TheCommunityNote), i)
    ensures prepared.tweetStats == old(prepared.tweetStats) + PickAt(PartAt(inputs, TheStats), i)
    ensures prepared.tweetRelations == old(prepared.tweetRelations) + PickAt(PartAt(inputs, TheRelations), i)
  {
    r := result;
    match inputs[i].convert(placeId) {
      case Ok(converted) =>
        PushConverted(prepared, i, converted);
        ItsParts(inputs, i, converted);
      case Err(error) =>
        r := r.Add(Operation(TweetWrite, OperationStatus.Failed, error));
        NoParts(inputs, i);
    }
  }

  /** A tweet that takes part: its author, its place and, if it converts, its parts are listed. */
  method PrepareOwnTweet(prepared: PreparedSubmitBatch, inputs: seq<TweetInput>, authorId: int, i: nat)
    requires TweetTakesPart(inputs, i) && ParseI64(inputs[i].authorId) == Some(authorId)
    modifies prepared`tweetResults, prepared`tweetAuthors, prepared`tweetPlaces
    modifies prepared`tweets, prepared`tweetEdits, prepared`tweetPolicies
    modifies prepared`tweetCommunityNotes, prepared`tweetStats, prepared`tweetRelations
    ensures prepared.tweetResults == old(prepared.tweetResults) + [TweetResultAt(inputs)(i)]
    ensures prepared.tweetAuthors == old(prepared.tweetAuthors) + PickAt(AuthorAt(inputs), i)
    ensures prepared.tweetPlaces == old(prepared.tweetPlaces) + PickAt(PlaceAt(inputs), i)
    ensures prepared.tweets == old(prepared.tweets) + PickAt(PartAt(inputs, TheTweet), i)
    ensures prepared.tweetEdits == old(prepared.tweetEdits) + PickAt(PartAt(inputs, TheEdit), i)
    ensures prepared.tweetPolicies == old(prepared.tweetPolicies) + PickAt(PartAt(inputs, ThePolicy), i)
    ensures prepared.tweetCommunityNotes
            == old(prepared.tweetCommunityNotes) + PickAt(PartAt(inputs, TheCommunityNote), i)
    ensures prepared.tweetStats == old(prepared.tweetStats) + PickAt(PartAt(inputs, TheStats), i)
    ensures prepared.tweetRelations == old(prepared.tweetRelations) + PickAt(PartAt(inputs, TheRelations), i)
  {
    var tweet := inputs[i];
    var result := NewResult(tweet.id);
    prepared.tweetAuthors := prepared.tweetAuthors + [Indexed(i, TwitterUser(authorId, None))];
    var placeId: Option<string> := None;
    if tweet.place.Some? {
      match tweet.place.value {
        case Ok(Some(place)) =>
          prepared.tweetPlaces := prepared.tweetPlaces + [Indexed(i, place)];
          placeId := Some(place.id);
        case Ok(None) =>
        case Err(error) => result := result.Add(Operation(TweetPlaceWrite, OperationStatus.Failed, error));
      }
    }
    assert result.operations == Failure(TweetPlaceWrite, tweet.place);
    result := PrepareParts(prepared, inputs, i, placeId, result);
    prepared.tweetResults := prepared.tweetResults + [result];
  }

  /** One submitted tweet. */
  method PrepareTweet(prepared: PreparedSubmitBatch, inputs: seq<TweetInput>, last: map<int, nat>, i: nat)
    requires i < |inputs| && IsLast(last, TweetIds(inputs))
    modifies prepared`tweetResults, prepared`tweetAuthors, prepared`tweetPlaces
    modifies prepared`tweets, prepared`tweetEdits, prepared`tweetPolicies
    modifies prepared`tweetCommunityNotes, prepared`tweetStats, prepared`tweetRelations
    ensures prepared.tweetResults == old(prepared.tweetResults) + [TweetResultAt(inputs)(i)]
    ensures prepared.tweetAuthors == old(prepared.tweetAuthors) + PickAt(AuthorAt(inputs), i)
    ensures prepared.tweetPlaces == old(prepared.tweetPlaces) + PickAt(PlaceAt(inputs), i)
    ensures prepared.tweets == old(prepared.tweets) + PickAt(PartAt(inputs, TheTweet), i)
    ensures prepared.tweetEdits == old(prepared.tweetEdits) + PickAt(PartAt(inputs, TheEdit), i)
    ensures prepared.tweetPolicies == old(prepared.tweetPolicies) + PickAt(PartAt(inputs, ThePolicy), i)
    ensures prepared.tweetCommunityNotes
            == old(prepared.tweetCommunityNotes) + PickAt(PartAt(inputs, TheCommunityNote), i)
    ensures prepared.tweetStats == old(prepared.tweetStats) + PickAt(PartAt(inputs, TheStats), i)
    ensures prepared.tweetRelations == old(prepared.tweetRelations) + PickAt(PartAt(inputs, TheRelations), i)
  {
    var tweet := inputs[i];
    var result := NewResult(tweet.id);
    var tweetId := ParseI64(tweet.id);
    assert TweetIds(inputs)[i] == tweet.id;
    if tweetId.None? {
      NoParts(inputs, i);
      prepared.tweetResults := prepared.tweetResults + [result.(fatalError := Some(BAD_ID))];
      return;
    }
    LastIsUnshadowed(TweetIds(inputs), last, i);
    if last[tweetId.value] != i {
      NoParts(inputs, i);
      assert result.Add(SHADOWED).operations == [SHADOWED];
      prepared.tweetResults := prepared.tweetResults + [result.Add(SHADOWED)];
      return;
    }
    var authorId := ParseI64(tweet.authorId);
    if authorId.None? {
      NoParts(inputs, i);
      prepared.tweetResults := prepared.tweetResults + [result.(fatalError := Some(BAD_ID))];
      return;
    }
    PrepareOwnTweet(prepared, inputs, authorId.value, i);
  }

  ghost predicate TweetsPrepared(p: PreparedSubmitBatch, inputs: seq<TweetInput>)
    reads p`tweetResults, p`tweetAuthors, p`tweetPlaces, p`tweets
    reads p`tweetEdits, p`tweetPolicies, p`tweetCommunityNotes, p`tweetStats
    reads p`tweetRelations
  {
    && p.tweetResults == Reports(TweetResultAt(inputs), |inputs|)
    && p.tweetAuthors == Pick(AuthorAt(inputs), |inputs|)
    && p.tweetPlaces == Pick(PlaceAt(inputs), |inputs|)
    && p.tweets == Pick(PartAt(inputs, TheTweet), |inputs|)
    && p.tweetEdits == Pick(PartAt(inputs, TheEdit), |inputs|)
    && p.tweetPolicies == Pick(PartAt(inputs, ThePolicy), |inputs|)
    && p.tweetCommunityNotes == Pick(PartAt(inputs, TheCommunityNote), |inputs|)
    && p.tweetStats == Pick(PartAt(inputs, TheStats), |inputs|)
    && p.tweetRelations == Pick(PartAt(inputs, TheRelations), |inputs|)
  }

  method PrepareTweets(prepared: PreparedSubmitBatch, inputs: seq<TweetInput>)
    requires prepared.tweetResults == [] && prepared.tweetAuthors == [] && prepared.tweetPlaces == []
    requires prepared.tweets == [] && prepared.tweetEdits == [] && prepared.tweetPolicies == []
    requires prepared.tweetCommunityNotes == [] && prepared.tweetStats == [] && prepared.tweetRelations == []
    modifies prepared`tweetResults, prepared`tweetAuthors, prepared`tweetPlaces
    modifies prepared`tweets, prepared`tweetEdits, prepared`tweetPolicies
    modifies prepared`tweetCommunityNotes, prepared`tweetStats, prepared`tweetRelations
    ensures TweetsPrepared(prepared, inputs)
  {
    var last := CollectLastValidI64Indices(TweetIds(inputs));
    for i := 0 to |inputs|
      invariant prepared.tweetResults == Reports(TweetResultAt(inputs), i)
      invariant prepared.tweetAuthors == Pick(AuthorAt(inputs), i)
      invariant prepared.tweetPlaces == Pick(PlaceAt(inputs), i)
      invariant prepared.tweets == Pick(PartAt(inputs, TheTweet), i)
      invariant prepared.tweetEdits == Pick(PartAt(inputs, TheEdit), i)
      invariant prepared.tweetPolicies == Pick(PartAt(inputs, ThePolicy), i)
      invariant prepared.tweetCommunityNotes == Pick(PartAt(inputs, TheCommunityNote), i)
      invariant prepared.tweetStats == Pick(PartAt(inputs, TheStats), i)
      invariant prepared.tweetRelations == Pick(PartAt(inputs, TheRelations), i)
    {
      PrepareTweet(prepared, inputs, last, i);
    }
  }

  /** The whole preparation: one report per object, and every prepared list exactly what its objects
      contribute. */
  method PrepareSubmitBatch(users: seq<UserInput>, tweets: seq<TweetInput>, media: seq<MediaInput>)
    returns (prepared: PreparedSubmitBatch)
    ensures fresh(prepared)
    ensures Prepared(prepared, users, tweets, media)
  {
    prepared := new PreparedSubmitBatch();
    PrepareUsers(prepared, users);
    PrepareMediaAndTweets(prepared, tweets, media);
  }

  method PrepareMediaAndTweets(prepared: PreparedSubmitBatch, tweets: seq<TweetInput>, media: seq<MediaInput>)
    requires prepared.mediaResults == [] && prepared.media == [] && prepared.mediaResources == []
    requires prepared.tweetResults == [] && prepared.tweetAuthors == [] && prepared.tweetPlaces == []
    requires prepared.tweets == [] && prepared.tweetEdits == [] && prepared.tweetPolicies == []
    requires prepared.tweetCommunityNotes == [] && prepared.tweetStats == [] && prepared.tweetRelations == []
    modifies prepared`mediaResults, prepared`media, prepared`mediaResources
    modifies prepared`tweetResults, prepared`tweetAuthors, prepared`tweetPlaces
    modifies prepared`tweets, prepared`tweetEdits, prepared`tweetPolicies
    modifies prepared`tweetCommunityNotes, prepared`tweetStats, prepared`tweetRelations
    ensures MediaPrepared(prepared, media) && TweetsPrepared(prepared, tweets)
  {
    PrepareMedia(prepared, media);
    PrepareTweets(prepared, tweets);
  }

  ghost predicate Prepared(p: PreparedSubmitBatch, users: seq<UserInput>, tweets: seq<TweetInput>,
                           media: seq<MediaInput>)
    reads p
  {
    UsersPrepared(p, users) && MediaPrepared(p, media) && TweetsPrepared(p, tweets)
  }

  // ---------- no id is prepared twice ----------

  /** Of all the objects with one id, exactly one is not shadowed. */
  lemma {:induction false} ExactlyOneIsUnshadowed(ids: seq<string>, i: nat) returns (k: nat)
    requires i < |ids| && ParseI64(ids[i]).Some?
    ensures Unshadowed(ids, k) && ParseI64(ids[k]) == ParseI64(ids[i])
    ensures forall j: nat :: Unshadowed(ids, j) && ParseI64(ids[j]) == ParseI64(ids[i]) ==> j == k
    decreases |ids| - i
  {
    if Unshadowed(ids, i) {
      k := i;
    } else {
      var j :| i < j < |ids| && ParseI64(ids[j]) == ParseI64(ids[i]);
      k := ExactlyOneIsUnshadowed(ids, j);
    }
  }

  /** A list to which only unshadowed objects contribute names each index and each id at most once. */
  lemma {:induction false} NoIdTwice<T>(at: nat -> Option<T>, ids: seq<string>)
    requires forall i :: at(i).Some? ==> Unshadowed(ids, i)
    ensures var p := Pick(at, |ids|);
            && (forall k :: 0 <= k < |p| ==> p[k].index < |ids|)
            && (forall j, k :: 0 <= j < k < |p| ==>
                  p[j].index < p[k].index && ParseI64(ids[p[j].index]) != ParseI64(ids[p[k].index]))
  {
    PickFacts(at, |ids|);
    var p := Pick(at, |ids|);
    forall j, k | 0 <= j < k < |p|
      ensures p[j].index < p[k].index < |ids| && ParseI64(ids[p[j].index]) != ParseI64(ids[p[k].index])
    {
      assert at(p[j].index) == Some(p[j].value);
      assert Unshadowed(ids, p[j].index);
    }
  }

  /** An entry of the user list carries the id of the object it came from. */
  lemma {:induction false} UserEntry(inputs: seq<UserInput>, k: nat)
    requires k < |Pick(UserAt(inputs), |inputs|)|
    ensures var e := Pick(UserAt(inputs), |inputs|)[k];
            e.index < |inputs| && ParseI64(inputs[e.index].id) == Some(e.value.id)
  {
    PickFacts(UserAt(inputs), |inputs|);
    var e := Pick(UserAt(inputs), |inputs|)[k];
    assert UserAt(inputs)(e.index) == Some(e.value);
    assert UserIds(inputs)[e.index] == inputs[e.index].id;
  }

  /** Every valid id that was submitted is in the user list. */
  lemma {:induction false} UserCovered(inputs: seq<UserInput>, i: nat) returns (k: nat)
    requires i < |inputs| && ParseI64(inputs[i].id).Some?
    ensures k < |Pick(UserAt(inputs), |inputs|)|
    ensures Some(Pick(UserAt(inputs), |inputs|)[k].value.id) == ParseI64(inputs[i].id)
  {
    var ids, p := UserIds(inputs), Pick(UserAt(inputs), |inputs|);
    PickFacts(UserAt(inputs), |inputs|);
    assert ids[i] == inputs[i].id;
    var keeper := ExactlyOneIsUnshadowed(ids, i);
    assert ids[keeper] == inputs[keeper].id;
    k :| 0 <= k < |p| && p[k] == Indexed(keeper, UserAt(inputs)(keeper).value);
  }

  /** The users to write: no id twice. */
  lemma {:induction false} NoUserTwice(inputs: seq<UserInput>, j: nat, k: nat)
    requires j < k < |Pick(UserAt(inputs), |inputs|)|
    ensures Pick(UserAt(inputs), |inputs|)[j].value.id != Pick(UserAt(inputs), |inputs|)[k].value.id
  {
    NoIdTwice(UserAt(inputs), UserIds(inputs));
    UserEntry(inputs, j);
    UserEntry(inputs, k);
    var p := Pick(UserAt(inputs), |inputs|);
    assert UserIds(inputs)[p[j].index] == inputs[p[j].index].id;
    assert UserIds(inputs)[p[k].index] == inputs[p[k].index].id;
  }
}
