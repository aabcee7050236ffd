/** Loading all dictionary strings of a batch before it is written, and the lookups the writes then make
    (server/src/tweet_store/dicts.rs; server/src/tweet_store/payloads.rs, lines 4 to 427). Of the records,
    only the fields that hold dictionary strings are modelled. */
module DictPreload {
  import opened Prelude
  import opened QueryText
  import opened StringDict
  import opened StringDictCache

  // ---------- the records ----------

  datatype TextStyleRange = TextStyleRange(styles: seq<Text>)

  datatype AnnotatedText = AnnotatedText(styles: seq<TextStyleRange>)

  datatype UserVerification = UserVerification(verifiedType: Option<Text>)

  datatype UserDisclosure = UserDisclosure(relation: Option<Text>)

  datatype UserIdentity = UserIdentity(
    verification: Option<UserVerification>, disclosure: Option<UserDisclosure>, parodyLabel: Option<Text>)

  datatype UserProfessional = UserProfessional(professionalType: Option<Text>)

  datatype UserSnapshot = UserSnapshot(
    avatarShape: Option<Text>, bio: Option<AnnotatedText>,
    identity: Option<UserIdentity>, professional: Option<UserProfessional>)

  datatype TweetPlace = TweetPlace(country: Option<Text>, countryCode: Option<Text>, kind: Option<Text>)

  datatype Tweet = Tweet(
    source: Option<Text>, legacyText: AnnotatedText, noteText: Option<AnnotatedText>, language: Option<Text>)

  datatype TweetPolicy = TweetPolicy(replyPolicy: Option<Text>, availableActions: seq<Text>)

  datatype TweetCommunityNote = TweetCommunityNote(subtitle: Option<AnnotatedText>, footer: Option<AnnotatedText>)

  datatype MediaSizeVariant = MediaSizeVariant(resizeMode: Text)

  datatype MediaSizeVariants = MediaSizeVariants(
    large: Option<MediaSizeVariant>, medium: Option<MediaSizeVariant>,
    small: Option<MediaSizeVariant>, thumb: Option<MediaSizeVariant>)

  datatype MediaTag = MediaTag(kind: Option<Text>)

  datatype Media = Media(
    sizeVariants: Option<MediaSizeVariants>, taggedUsers: seq<MediaTag>, sensitivityWarnings: seq<Text>)

  datatype VideoVariant = VideoVariant(contentType: Text)

  datatype MediaVideo = MediaVideo(variants: seq<VideoVariant>)

  datatype MediaResource = MediaResource(availability: Option<Text>, video: Option<MediaVideo>)

  // ---------- what the payload builders look up, in the order they do ----------

  /** One lookup: a value that may be missing. */
  datatype Lookup = Lookup(semantic: Semantic, value: Option<Text>)

  /** The lookups for a list of values. */
  function EnsureIds(semantic: Semantic, values: seq<Text>): seq<Lookup> {
    if values == [] then []
    else
      var n := |values| - 1;
      EnsureIds(semantic, values[..n]) + [Lookup(semantic, Some(values[n]))]
  }

  function StylePayloads(styles: seq<TextStyleRange>): seq<Lookup> {
    if styles == [] then []
    else
      var n := |styles| - 1;
      StylePayloads(styles[..n]) + EnsureIds(TextStyleName, styles[n].styles)
  }

  function OptionalTextPayload(text: Option<AnnotatedText>): seq<Lookup> {
    if text.None? then [] else StylePayloads(text.value.styles)
  }

  function IdentityPayload(identity: UserIdentity): seq<Lookup> {
    (if identity.verification.None? then []
     else [Lookup(UserVerificationType, identity.verification.value.verifiedType)])
    + (if identity.disclosure.None? then []
       else [Lookup(UserDisclosureRelation, identity.disclosure.value.relation)])
    + [Lookup(UserParodyLabel, identity.parodyLabel)]
  }

  function SnapshotPayload(s: UserSnapshot): seq<Lookup> {
    [Lookup(UserAvatarShape, s.avatarShape)] + OptionalTextPayload(s.bio)
    + (if s.identity.None? then [] else IdentityPayload(s.identity.value))
    + (if s.professional.None? then []
       else [Lookup(UserProfessionalType, s.professional.value.professionalType)])
  }

  function PlacePayload(p: TweetPlace): seq<Lookup> {
    [Lookup(CountryName, p.country), Lookup(CountryCode, p.countryCode), Lookup(PlaceKind, p.kind)]
  }

  function TweetPayload(t: Tweet): seq<Lookup> {
    [Lookup(Source, t.source)] + StylePayloads(t.legacyText.styles) + OptionalTextPayload(t.noteText)
    + [Lookup(LanguageCode, t.language)]
  }

  function PolicyPayload(p: TweetPolicy): seq<Lookup> {
    [Lookup(ReplyPolicyCode, p.replyPolicy)] + EnsureIds(ActionCode, p.availableActions)
  }

  function NotePayload(n: TweetCommunityNote): seq<Lookup> {
    OptionalTextPayload(n.subtitle) + OptionalTextPayload(n.footer)
  }

  function OptionalSizePayload(variant: Option<MediaSizeVariant>): seq<Lookup> {
    if variant.None? then [] else [Lookup(MediaResizeMode, Some(variant.value.resizeMode))]
  }

  function SizesPayload(sizes: Option<MediaSizeVariants>): seq<Lookup> {
    if sizes.None? then []
    else
      OptionalSizePayload(sizes.value.large) + OptionalSizePayload(sizes.value.medium)
      + OptionalSizePayload(sizes.value.small) + OptionalSizePayload(sizes.value.thumb)
  }

  function TagPayloads(tags: seq<MediaTag>): seq<Lookup> {
    if tags == [] then []
    else
      var n := |tags| - 1;
      TagPayloads(tags[..n]) + [Lookup(MediaTagKind, tags[n].kind)]
  }

  function MediaPayload(m: Media): seq<Lookup> {
    SizesPayload(m.sizeVariants) + TagPayloads(m.taggedUsers)
    + EnsureIds(MediaSensitivityCode, m.sensitivityWarnings)
  }

  function VideoPayloads(variants: seq<VideoVariant>): seq<Lookup> {
    if variants == [] then []
    else
      var n := |variants| - 1;
      VideoPayloads(variants[..n]) + [Lookup(VideoContentType, Some(variants[n].contentType))]
  }

  function ResourcePayload(m: MediaResource): seq<Lookup> {
    [Lookup(MediaAvailabilityStatus, m.availability)]
    + (if m.video.None? then [] else VideoPayloads(m.video.value.variants))
  }

  /** The lookups for a list of records. */
  function AllPayloads<T>(items: seq<T>, payload: T -> seq<Lookup>): seq<Lookup> {
    if items == [] then []
    else
      var n := |items| - 1;
      AllPayloads(items[..n], payload) + payload(items[n])
  }

  function SnapshotPayloads(items: seq<UserSnapshot>): seq<Lookup> {
    AllPayloads(items, SnapshotPayload)
  }

  function PlacePayloads(items: seq<TweetPlace>): seq<Lookup> {
    AllPayloads(items, PlacePayload)
  }

  function TweetPayloads(items: seq<Tweet>): seq<Lookup> {
    AllPayloads(items, TweetPayload)
  }

  function PolicyPayloads(items: seq<TweetPolicy>): seq<Lookup> {
    AllPayloads(items, PolicyPayload)
  }

  function NotePayloads(items: seq<TweetCommunityNote>): seq<Lookup> {
    AllPayloads(items, NotePayload)
  }

  function MediaPayloads(items: seq<Media>): seq<Lookup> {
    AllPayloads(items, MediaPayload)
  }

  function ResourcePayloads(items: seq<MediaResource>): seq<Lookup> {
    AllPayloads(items, ResourcePayload)
  }

  // ---------- the collectors ----------

  /** `after` is `before` with exactly the values that are looked up added. */
  ghost predicate Adds(before: seq<Entry>, after: seq<Entry>, lookups: seq<Lookup>) {
    forall e :: e in after <==> e in before || Lookup(e.semantic, Some(e.value)) in lookups
  }

  function PushOptionalEntry(entries: seq<Entry>, semantic: Semantic, value: Option<Text>): (r: seq<Entry>)
    ensures Adds(entries, r, [Lookup(semantic, value)])
  {
    if value.Some? then entries + [Entry(semantic, value.value)] else entries
  }

  method PushAll(entries: seq<Entry>, semantic: Semantic, values: seq<Text>) returns (r: seq<Entry>)
    ensures Adds(entries, r, EnsureIds(semantic, values))
  {
    r := entries;
    for i := 0 to |values|
      invariant Adds(entries, r, EnsureIds(semantic, values[..i]))
    {
      r := r + [Entry(semantic, values[i])];
      assert values[..i + 1][..i] == values[..i];
    }
    assert values[..|values|] == values;
  }

  method CollectAnnotatedTextDicts(entries: seq<Entry>, text: AnnotatedText) returns (r: seq<Entry>)
    ensures Adds(entries, r, StylePayloads(text.styles))
  {
    r := entries;
    for i := 0 to |text.styles|
      invariant Adds(entries, r, StylePayloads(text.styles[..i]))
    {
      r := PushAll(r, TextStyleName, text.styles[i].styles);
      assert text.styles[..i + 1][..i] == text.styles[..i];
    }
    assert text.styles[..|text.styles|] == text.styles;
  }

  method CollectOptionalText(entries: seq<Entry>, text: Option<AnnotatedText>) returns (r: seq<Entry>)
    ensures Adds(entries, r, OptionalTextPayload(text))
  {
    r := entries;
    if text.Some? {
      r := CollectAnnotatedTextDicts(r, text.value);
    }
  }

  method CollectIdentity(entries: seq<Entry>, identity: UserIdentity) returns (r: seq<Entry>)
    ensures Adds(entries, r, IdentityPayload(identity))
  {
    r := entries;
    if identity.verification.Some? {
      r := PushOptionalEntry(r, UserVerificationType, identity.verification.value.verifiedType);
    }
    if identity.disclosure.Some? {
      r := PushOptionalEntry(r, UserDisclosureRelation, identity.disclosure.value.relation);
    }
    r := PushOptionalEntry(r, UserParodyLabel, identity.parodyLabel);
  }

  method CollectUserSnapshotDicts(entries: seq<Entry>, snapshots: seq<UserSnapshot>) returns (r: seq<Entry>)
    ensures Adds(entries, r, SnapshotPayloads(snapshots))
  {
    r := entries;
    for i := 0 to |snapshots|
      invariant Adds(entries, r, SnapshotPayloads(snapshots[..i]))
    {
      var snapshot := snapshots[i];
      ghost var before := r;
      r := PushOptionalEntry(r, UserAvatarShape, snapshot.avatarShape);
      r := CollectOptionalText(r, snapshot.bio);
      if snapshot.identity.Some? {
        r := CollectIdentity(r, snapshot.identity.value);
      }
      if snapshot.professional.Some? {
        r := PushOptionalEntry(r, UserProfessionalType, snapshot.professional.value.professionalType);
      }
      assert Adds(before, r, SnapshotPayload(snapshot));
      assert snapshots[..i + 1][..i] == snapshots[..i];
    }
    assert snapshots[..|snapshots|] == snapshots;
  }

  method CollectTweetPlaceDicts(entries: seq<Entry>, places: seq<TweetPlace>) returns (r: seq<Entry>)
    ensures Adds(entries, r, PlacePayloads(places))
  {
    r := entries;
    for i := 0 to |places|
      invariant Adds(entries, r, PlacePayloads(places[..i]))
    {
      ghost var before := r;
      r := PushOptionalEntry(r, CountryName, places[i].country);
      r := PushOptionalEntry(r, CountryCode, places[i].countryCode);
      r := PushOptionalEntry(r, PlaceKind, places[i].kind);
      assert Adds(before, r, PlacePayload(places[i]));
      assert places[..i + 1][..i] == places[..i];
    }
    assert places[..|places|] == places;
  }

  method CollectTweetDicts(entries: seq<Entry>, tweets: seq<Tweet>) returns (r: seq<Entry>)
    ensures Adds(entries, r, TweetPayloads(tweets))
  {
    r := entries;
    for i := 0 to |tweets|
      invariant Adds(entries, r, TweetPayloads(tweets[..i]))
    {
      ghost var before := r;
      r := PushOptionalEntry(r, Source, tweets[i].source);
      r := PushOptionalEntry(r, LanguageCode, tweets[i].language);
      r := CollectAnnotatedTextDicts(r, tweets[i].legacyText);
      r := CollectOptionalText(r, tweets[i].noteText);
      assert Adds(before, r, TweetPayload(tweets[i]));
      assert tweets[..i + 1][..i] == tweets[..i];
    }
    assert tweets[..|tweets|] == tweets;
  }

  method CollectTweetPolicyDicts(entries: seq<Entry>, policies: seq<TweetPolicy>) returns (r: seq<Entry>)
    ensures Adds(entries, r, PolicyPayloads(policies))
  {
    r := entries;
    for i := 0 to |policies|
      invariant Adds(entries, r, PolicyPayloads(policies[..i]))
    {
      ghost var before := r;
      r := PushOptionalEntry(r, ReplyPolicyCode, policies[i].replyPolicy);
      r := PushAll(r, ActionCode, policies[i].availableActions);
      assert Adds(before, r, PolicyPayload(policies[i]));
      assert policies[..i + 1][..i] == policies[..i];
    }
    assert policies[..|policies|] == policies;
  }

  method CollectTweetCommunityNoteDicts(entries: seq<Entry>, notes: seq<TweetCommunityNote>) returns (r: seq<Entry>)
    ensures Adds(entries, r, NotePayloads(notes))
  {
    r := entries;
    for i := 0 to |notes|
      invariant Adds(entries, r, NotePayloads(notes[..i]))
    {
      ghost var before := r;
      r := CollectOptionalText(r, notes[i].subtitle);
      r := CollectOptionalText(r, notes[i].footer);
      assert Adds(before, r, NotePayload(notes[i]));
      assert notes[..i + 1][..i] == notes[..i];
    }
    assert notes[..|notes|] == notes;
  }

  method CollectOptionalMediaSizeVariantDicts(entries: seq<Entry>, variant: Option<MediaSizeVariant>)
    returns (r: seq<Entry>)
    ensures Adds(entries, r, OptionalSizePayload(variant))
  {
    r := entries;
    if variant.Some? {
      r := r + [Entry(MediaResizeMode, variant.value.resizeMode)];
    }
  }

  method CollectSizes(entries: seq<Entry>, sizes: Option<MediaSizeVariants>) returns (r: seq<Entry>)
    ensures Adds(entries, r, SizesPayload(sizes))
  {
    r := entries;
    if sizes.Some? {
      r := CollectOptionalMediaSizeVariantDicts(r, sizes.value.large);
      r := CollectOptionalMediaSizeVariantDicts(r, sizes.value.medium);
      r := CollectOptionalMediaSizeVariantDicts(r, sizes.value.small);
      r := CollectOptionalMediaSizeVariantDicts(r, sizes.value.thumb);
    }
  }

  method CollectTags(entries: seq<Entry>, tags: seq<MediaTag>) returns (r: seq<Entry>)
    ensures Adds(entries, r, TagPayloads(tags))
  {
    r := entries;
    for i := 0 to |tags|
      invariant Adds(entries, r, TagPayloads(tags[..i]))
    {
      r := PushOptionalEntry(r, MediaTagKind, tags[i].kind);
      assert tags[..i + 1][..i] == tags[..i];
    }
    assert tags[..|tags|] == tags;
  }

  method CollectMediaDicts(entries: seq<Entry>, media: seq<Media>) returns (r: seq<Entry>)
    ensures Adds(entries, r, MediaPayloads(media))
  {
    r := entries;
    for i := 0 to |media|
      invariant Adds(entries, r, MediaPayloads(media[..i]))
    {
      ghost var before := r;
      r := CollectSizes(r, media[i].sizeVariants);
      r := CollectTags(r, media[i].taggedUsers);
      r := PushAll(r, MediaSensitivityCode, media[i].sensitivityWarnings);
      assert Adds(before, r, MediaPayload(media[i]));
      assert media[..i + 1][..i] == media[..i];
    }
    assert media[..|media|] == media;
  }

  method CollectMediaVideoDicts(entries: seq<Entry>, video: MediaVideo) returns (r: seq<Entry>)
    ensures Adds(entries, r, VideoPayloads(video.variants))
  {
    r := entries;
    for i := 0 to |video.variants|
      invariant Adds(entries, r, VideoPayloads(video.variants[..i]))
    {
      r := r + [Entry(VideoContentType, video.variants[i].contentType)];
      assert video.variants[..i + 1][..i] == video.variants[..i];
    }
    assert video.variants[..|video.variants|] == video.variants;
  }

  method CollectMediaResourceDicts(entries: seq<Entry>, resources: seq<MediaResource>) returns (r: seq<Entry>)
    ensures Adds(entries, r, ResourcePayloads(resources))
  {
    r := entries;
    for i := 0 to |resources|
      invariant Adds(entries, r, ResourcePayloads(resources[..i]))
    {
      ghost var before := r;
      r := PushOptionalEntry(r, MediaAvailabilityStatus, resources[i].availability);
      if resources[i].video.Some? {
        r := CollectMediaVideoDicts(r, resources[i].video.value);
      }
      assert Adds(before, r, ResourcePayload(resources[i]));
      assert resources[..i + 1][..i] == resources[..i];
    }
    assert resources[..|resources|] == resources;
  }

  // ---------- the preload and the lookups after it ----------

  datatype Batch = Batch(
    snapshots: seq<UserSnapshot>, places: seq<TweetPlace>, tweets: seq<Tweet>, policies: seq<TweetPolicy>,
    notes: seq<TweetCommunityNote>, media: seq<Media>, resources: seq<MediaResource>)

  /** Everything the payload builders look up for a batch. */
  function BatchLookups(b: Batch): seq<Lookup> {
    SnapshotPayloads(b.snapshots) + PlacePayloads(b.places) + TweetPayloads(b.tweets) + PolicyPayloads(b.policies)
    + NotePayloads(b.notes) + MediaPayloads(b.media) + ResourcePayloads(b.resources)
  }

  // ---------- which strings a batch holds, by their meaning ----------

  ghost predicate TextHolds(text: AnnotatedText, v: Text) {
    exists style :: style in text.styles && v in style.styles
  }

  ghost predicate OptionalTextHolds(text: Option<AnnotatedText>, v: Text) {
    text.Some? && TextHolds(text.value, v)
  }

  ghost predicate SnapshotHolds(s: UserSnapshot, semantic: Semantic, v: Text) {
    match semantic
    case UserAvatarShape => s.avatarShape == Some(v)
    case TextStyleName => OptionalTextHolds(s.bio, v)
    case UserProfessionalType => s.professional.Some? && s.professional.value.professionalType == Some(v)
    case _ => s.identity.Some? && IdentityHolds(s.identity.value, semantic, v)
  }

  ghost predicate IdentityHolds(identity: UserIdentity, semantic: Semantic, v: Text) {
    match semantic
    case UserVerificationType =>
      identity.verification.Some? && identity.verification.value.verifiedType == Some(v)
    case UserDisclosureRelation => identity.disclosure.Some? && identity.disclosure.value.relation == Some(v)
    case UserParodyLabel => identity.parodyLabel == Some(v)
    case _ => false
  }

  ghost predicate PlaceHolds(p: TweetPlace, semantic: Semantic, v: Text) {
    match semantic
    case CountryName => p.country == Some(v)
    case CountryCode => p.countryCode == Some(v)
    case PlaceKind => p.kind == Some(v)
    case _ => false
  }

  ghost predicate TweetHolds(t: Tweet, semantic: Semantic, v: Text) {
    match semantic
    case Source => t.source == Some(v)
    case LanguageCode => t.language == Some(v)
    case TextStyleName => TextHolds(t.legacyText, v) || OptionalTextHolds(t.noteText, v)
    case _ => false
  }

  ghost predicate PolicyHolds(p: TweetPolicy, semantic: Semantic, v: Text) {
    match semantic
    case ReplyPolicyCode => p.replyPolicy == Some(v)
    case ActionCode => v in p.availableActions
    case _ => false
  }

  ghost predicate NoteHolds(n: TweetCommunityNote, semantic: Semantic, v: Text) {
    semantic == TextStyleName && (OptionalTextHolds(n.subtitle, v) || OptionalTextHolds(n.footer, v))
  }

  ghost predicate SizeHolds(variant: Option<MediaSizeVariant>, v: Text) {
    variant.Some? && variant.value.resizeMode == v
  }

  ghost predicate MediaHolds(m: Media, semantic: Semantic, v: Text) {
    match semantic
    case MediaResizeMode =>
      m.sizeVariants.Some?
      && (SizeHolds(m.sizeVariants.value.large, v) || SizeHolds(m.sizeVariants.value.medium, v)
          || SizeHolds(m.sizeVariants.value.small, v) || SizeHolds(m.sizeVariants.value.thumb, v))
    case MediaTagKind => exists tag :: tag in m.taggedUsers && tag.kind == Some(v)
    case MediaSensitivityCode => v in m.sensitivityWarnings
    case _ => false
  }

  ghost predicate ResourceHolds(m: MediaResource, semantic: Semantic, v: Text) {
    match semantic
    case MediaAvailabilityStatus => m.availability == Some(v)
    case VideoContentType => m.video.Some? && exists w :: w in m.video.value.variants && w.contentType == v
    case _ => false
  }

  /** Some record of the batch has this string in a field of this meaning. */
  ghost predicate BatchHolds(b: Batch, semantic: Semantic, v: Text) {
    || (exists x :: x in b.snapshots && SnapshotHolds(x, semantic, v))
    || (exists x :: x in b.places && PlaceHolds(x, semantic, v))
    || (exists x :: x in b.tweets && TweetHolds(x, semantic, v))
    || (exists x :: x in b.policies && PolicyHolds(x, semantic, v))
    || (exists x :: x in b.notes && NoteHolds(x, semantic, v))
    || (exists x :: x in b.media && MediaHolds(x, semantic, v))
    || (exists x :: x in b.resources && ResourceHolds(x, semantic, v))
  }

  lemma {:induction false} EnsureIdsHas(values: seq<Text>, meant: Semantic, semantic: Semantic, v: Text)
    ensures Lookup(semantic, Some(v)) in EnsureIds(meant, values) <==> semantic == meant && v in values
  {
    if values != [] {
      var n := |values| - 1;
      EnsureIdsHas(values[..n], meant, semantic, v);
      assert values == values[..n] + [values[n]];
    }
  }

  lemma {:induction false} StylesHave(styles: seq<TextStyleRange>, semantic: Semantic, v: Text)
    ensures Lookup(semantic, Some(v)) in StylePayloads(styles)
            <==> semantic == TextStyleName && exists style :: style in styles && v in style.styles
  {
    if styles != [] {
      var n := |styles| - 1;
      StylesHave(styles[..n], semantic, v);
      EnsureIdsHas(styles[n].styles, TextStyleName, semantic, v);
      assert styles == styles[..n] + [styles[n]];
    }
  }

  lemma {:induction false} TextHas(text: Option<AnnotatedText>, semantic: Semantic, v: Text)
    ensures Lookup(semantic, Some(v)) in OptionalTextPayload(text)
            <==> semantic == TextStyleName && OptionalTextHolds(text, v)
  {
    if text.Some? {
      StylesHave(text.value.styles, semantic, v);
    }
  }

  lemma {:induction false} TagsHave(tags: seq<MediaTag>, semantic: Semantic, v: Text)
    ensures Lookup(semantic, Some(v)) in TagPayloads(tags)
            <==> semantic == MediaTagKind && exists tag :: tag in tags && tag.kind == Some(v)
  {
    if tags != [] {
      var n := |tags| - 1;
      TagsHave(tags[..n], semantic, v);
      assert tags == tags[..n] + [tags[n]];
    }
  }

  lemma {:induction false} VideosHave(variants: seq<VideoVariant>, semantic: Semantic, v: Text)
    ensures Lookup(semantic, Some(v)) in VideoPayloads(variants)
            <==> semantic == VideoContentType && exists w :: w in variants && w.contentType == v
  {
    if variants != [] {
      var n := |variants| - 1;
      VideosHave(variants[..n], semantic, v);
      assert variants == variants[..n] + [variants[n]];
    }
  }

  lemma {:induction false} AllHave<T>(items: seq<T>, payload: T -> seq<Lookup>, l: Lookup)
    ensures l in AllPayloads(items, payload) <==> exists x :: x in items && l in payload(x)
  {
    if items != [] {
      var n := |items| - 1;
      AllHave(items[..n], payload, l);
      assert items == items[..n] + [items[n]];
    }
  }

  lemma {:induction false} IdentityHas(identity: UserIdentity, semantic: Semantic, v: Text)
    ensures Lookup(semantic, Some(v)) in IdentityPayload(identity) <==> IdentityHolds(identity, semantic, v)
  {
  }

  lemma {:induction false} SnapshotHas(x: UserSnapshot, semantic: Semantic, v: Text)
    ensures Lookup(semantic, Some(v)) in SnapshotPayload(x) <==> SnapshotHolds(x, semantic, v)
  {
    var l := Lookup(semantic, Some(v));
    var shape := [Lookup(UserAvatarShape, x.avatarShape)];
    var identity := if x.identity.None? then [] else IdentityPayload(x.identity.value);
    var professional := if x.professional.None? then []
      else [Lookup(UserProfessionalType, x.professional.value.professionalType)];
    TextHas(x.bio, semantic, v);
    if x.identity.Some? {
      IdentityHas(x.identity.value, semantic, v);
    }
    assert SnapshotPayload(x) == shape + OptionalTextPayload(x.bio) + identity + professional;
    assert l in SnapshotPayload(x) <==>
        l in shape || l in OptionalTextPayload(x.bio) || l in identity || l in professional;
  }

  lemma {:induction false} SnapshotsHave(items: seq<UserSnapshot>, semantic: Semantic, v: Text)
    ensures Lookup(semantic, Some(v)) in SnapshotPayloads(items)
            <==> exists x :: x in items && SnapshotHolds(x, semantic, v)
  {
    AllHave(items, SnapshotPayload, Lookup(semantic, Some(v)));
    forall x | x in items
      ensures Lookup(semantic, Some(v)) in SnapshotPayload(x) <==> SnapshotHolds(x, semantic, v)
    {
      SnapshotHas(x, semantic, v);
    }
  }

  lemma {:induction false} PlaceHas(x: TweetPlace, semantic: Semantic, v: Text)
    ensures Lookup(semantic, Some(v)) in PlacePayload(x) <==> PlaceHolds(x, semantic, v)
  {
  }

  lemma {:induction false} PlacesHave(items: seq<TweetPlace>, semantic: Semantic, v: Text)
    ensures Lookup(semantic, Some(v)) in PlacePayloads(items)
            <==> exists x :: x in items && PlaceHolds(x, semantic, v)
  {
    AllHave(items, PlacePayload, Lookup(semantic, Some(v)));
    forall x | x in items
      ensures Lookup(semantic, Some(v)) in PlacePayload(x) <==> PlaceHolds(x, semantic, v)
    {
      PlaceHas(x, semantic, v);
    }
  }

  lemma {:induction false} TweetHas(x: Tweet, semantic: Semantic, v: Text)
    ensures Lookup(semantic, Some(v)) in TweetPayload(x) <==> TweetHolds(x, semantic, v)
  {
    StylesHave(x.legacyText.styles, semantic, v);
    TextHas(x.noteText, semantic, v);
  }

  lemma {:induction false} TweetsHave(items: seq<Tweet>, semantic: Semantic, v: Text)
    ensures Lookup(semantic, Some(v)) in TweetPayloads(items)
            <==> exists x :: x in items && TweetHolds(x, semantic, v)
  {
    AllHave(items, TweetPayload, Lookup(semantic, Some(v)));
    forall x | x in items
      ensures Lookup(semantic, Some(v)) in TweetPayload(x) <==> TweetHolds(x, semantic, v)
    {
      TweetHas(x, semantic, v);
    }
  }

  lemma {:induction false} PolicyHas(x: TweetPolicy, semantic: Semantic, v: Text)
    ensures Lookup(semantic, Some(v)) in PolicyPayload(x) <==> PolicyHolds(x, semantic, v)
  {
    EnsureIdsHas(x.availableActions, ActionCode, semantic, v);
  }

  lemma {:induction false} PoliciesHave(items: seq<TweetPolicy>, semantic: Semantic, v: Text)
    ensures Lookup(semantic, Some(v)) in PolicyPayloads(items)
            <==> exists x :: x in items && PolicyHolds(x, semantic, v)
  {
    AllHave(items, PolicyPayload, Lookup(semantic, Some(v)));
    forall x | x in items
      ensures Lookup(semantic, Some(v)) in PolicyPayload(x) <==> PolicyHolds(x, semantic, v)
    {
      PolicyHas(x, semantic, v);
    }
  }

  lemma {:induction false} NoteHas(x: TweetCommunityNote, semantic: Semantic, v: Text)
    ensures Lookup(semantic, Some(v)) in NotePayload(x) <==> NoteHolds(x, semantic, v)
  {
    TextHas(x.subtitle, semantic, v);
    TextHas(x.footer, semantic, v);
  }

  lemma {:induction false} NotesHave(items: seq<TweetCommunityNote>, semantic: Semantic, v: Text)
    ensures Lookup(semantic, Some(v)) in NotePayloads(items)
            <==> exists x :: x in items && NoteHolds(x, semantic, v)
  {
    AllHave(items, NotePayload, Lookup(semantic, Some(v)));
    forall x | x in items
      ensures Lookup(semantic, Some(v)) in NotePayload(x) <==> NoteHolds(x, semantic, v)
    {
      NoteHas(x, semantic, v);
    }
  }

  lemma {:induction false} SizesHave(sizes: Option<MediaSizeVariants>, semantic: Semantic, v: Text)
    ensures Lookup(semantic, Some(v)) in SizesPayload(sizes)
            <==> semantic == MediaResizeMode && sizes.Some?
                 && (SizeHolds(sizes.value.large, v) || SizeHolds(sizes.value.medium, v)
                     || SizeHolds(sizes.value.small, v) || SizeHolds(sizes.value.thumb, v))
  {
  }

  lemma {:induction false} MediaHas(x: Media, semantic: Semantic, v: Text)
    ensures Lookup(semantic, Some(v)) in MediaPayload(x) <==> MediaHolds(x, semantic, v)
  {
    SizesHave(x.sizeVariants, semantic, v);
    TagsHave(x.taggedUsers, semantic, v);
    EnsureIdsHas(x.sensitivityWarnings, MediaSensitivityCode, semantic, v);
    assert MediaPayload(x) == SizesPayload(x.sizeVariants) + TagPayloads(x.taggedUsers)
                              + EnsureIds(MediaSensitivityCode, x.sensitivityWarnings);
  }

  lemma {:induction false} AllMediaHave(items: seq<Media>, semantic: Semantic, v: Text)
    ensures Lookup(semantic, Some(v)) in MediaPayloads(items)
            <==> exists x :: x in items && MediaHolds(x, semantic, v)
  {
    AllHave(items, MediaPayload, Lookup(semantic, Some(v)));
    forall x | x in items
      ensures Lookup(semantic, Some(v)) in MediaPayload(x) <==> MediaHolds(x, semantic, v)
    {
      MediaHas(x, semantic, v);
    }
  }

  lemma {:induction false} ResourceHas(x: MediaResource, semantic: Semantic, v: Text)
    ensures Lookup(semantic, Some(v)) in ResourcePayload(x) <==> ResourceHolds(x, semantic, v)
  {
    if x.video.Some? {
      VideosHave(x.video.value.variants, semantic, v);
    }
  }

  lemma {:induction false} ResourcesHave(items: seq<MediaResource>, semantic: Semantic, v: Text)
    ensures Lookup(semantic, Some(v)) in ResourcePayloads(items)
            <==> exists x :: x in items && ResourceHolds(x, semantic, v)
  {
    AllHave(items, ResourcePayload, Lookup(semantic, Some(v)));
    forall x | x in items
      ensures Lookup(semantic, Some(v)) in ResourcePayload(x) <==> ResourceHolds(x, semantic, v)
    {
      ResourceHas(x, semantic, v);
    }
  }

  /** What is looked up for a batch is what its records hold, under the right meaning. */
  lemma {:induction false} LookupsAreHeld(b: Batch, semantic: Semantic, v: Text)
    ensures Lookup(semantic, Some(v)) in BatchLookups(b) <==> BatchHolds(b, semantic, v)
  {
    SnapshotsHave(b.snapshots, semantic, v);
    PlacesHave(b.places, semantic, v);
    TweetsHave(b.tweets, semantic, v);
    PoliciesHave(b.policies, semantic, v);
    NotesHave(b.notes, semantic, v);
    AllMediaHave(b.media, semantic, v);
    ResourcesHave(b.resources, semantic, v);
  }

  /** The strings of the whole batch, and no other. */
  method CollectAll(b: Batch) returns (entries: seq<Entry>)
    ensures Adds([], entries, BatchLookups(b))
    ensures forall e :: e in entries <==> BatchHolds(b, e.semantic, e.value)
  {
    entries := CollectRecords(b);
    forall e: Entry
      ensures e in entries <==> BatchHolds(b, e.semantic, e.value)
    {
      LookupsAreHeld(b, e.semantic, e.value);
    }
  }

  method CollectRecords(b: Batch) returns (entries: seq<Entry>)
    ensures Adds([], entries, BatchLookups(b))
  {
    entries := [];
    entries := CollectUserSnapshotDicts(entries, b.snapshots);
    entries := CollectTweetPlaceDicts(entries, b.places);
    entries := CollectTweetDicts(entries, b.tweets);
    entries := CollectTweetPolicyDicts(entries, b.policies);
    entries := CollectTweetCommunityNoteDicts(entries, b.notes);
    entries := CollectMediaDicts(entries, b.media);
    entries := CollectMediaResourceDicts(entries, b.resources);
  }

  /** A lookup needs no statement: its value is missing, blank or cached. */
  ghost predicate Hit(cache: StringDictCache, l: Lookup)
    reads cache
  {
    l.value.Some? ==>
      var key := cache.Key(Entry(l.semantic, l.value.value));
      key.Some? ==> key.value in cache.byKey
  }

  /** Some lookup of the batch asks for `k`. */
  ghost predicate LookedUp(cache: StringDictCache, b: Batch, k: Entry) {
    exists l :: l in BatchLookups(b) && l.value.Some? && cache.Key(Entry(l.semantic, l.value.value)) == Some(k)
  }

  /** What is looked up for the batch and is not in the table yet. */
  ghost function NewStrings(cache: StringDictCache, b: Batch, table: Table): set<Entry>
    reads cache
  {
    set l | l in BatchLookups(b) && l.value.Some? && cache.Key(Entry(l.semantic, l.value.value)).Some?
            && cache.Key(Entry(l.semantic, l.value.value)).value !in table
      :: cache.Key(Entry(l.semantic, l.value.value)).value
  }

  lemma {:induction false} NewOfBatch(cache: StringDictCache, b: Batch, entries: seq<Entry>, table: Table)
    requires Adds([], entries, BatchLookups(b))
    ensures cache.NewKeys(entries, table) == NewStrings(cache, b, table)
  {
    forall k | k in cache.NewKeys(entries, table)
      ensures k in NewStrings(cache, b, table)
    {
      var e :| e in entries && cache.Key(e) == Some(k);
      assert Lookup(e.semantic, Some(e.value)) in BatchLookups(b);
    }
    forall k | k in NewStrings(cache, b, table)
      ensures k in cache.NewKeys(entries, table)
    {
      var l :| l in BatchLookups(b) && l.value.Some? && cache.Key(Entry(l.semantic, l.value.value)) == Some(k);
      assert Entry(l.semantic, l.value.value) in entries;
    }
  }

  /** The preload sends at most one statement; when it succeeds, every lookup of the batch is a hit, whatever
      other callers do meanwhile. Without others only strings of the batch are cached, and a failure changes
      nothing. */
  method PreloadSubmitBatchDicts(cache: StringDictCache, db: Database, b: Batch, lost: bool, shared: bool)
    returns (r: Result<(), DbError>, ghost sent: nat)
    requires cache.ch.Valid() && db.Valid() && cache.Agrees(db)
    modifies cache, db
    ensures db.Valid() && cache.Agrees(db) && sent <= 1
    ensures Within(old(db.table), db.table) && Within(old(cache.byKey), cache.byKey)
    ensures r.Ok? ==> forall l :: l in BatchLookups(b) ==> Hit(cache, l)
    ensures !shared && r.Ok? ==> forall k :: k in cache.byKey && k !in old(cache.byKey) ==> LookedUp(cache, b, k)
    ensures !shared && r.Err? ==> unchanged(cache) && db.table == old(db.table)
    ensures r.Ok? && lost ==> sent == 0
    ensures r.Err? ==> if lost then r.error == ConnectionLost
                       else r.error == NoIdLeft && OutOfIds(db.nextId, NewStrings(cache, b, db.table))
  {
    var entries := CollectAll(b);
    r, sent := cache.EnsureMany(db, entries, lost, shared);
    NewOfBatch(cache, b, entries, db.table);
    if r.Ok? {
      forall l | l in BatchLookups(b)
        ensures Hit(cache, l)
      {
        if l.value.Some? {
          var e := Entry(l.semantic, l.value.value);
          assert e in entries;
          assert cache.Key(e).Some? ==> cache.Wanted(entries, cache.Key(e).value);
        }
      }
      forall k | cache.Wanted(entries, k)
        ensures LookedUp(cache, b, k)
      {
        var e :| e in entries && cache.Key(e) == Some(k);
        assert Lookup(e.semantic, Some(e.value)) in BatchLookups(b);
      }
    }
  }

  /** What a lookup answers: the id the table has for the trimmed value, none for a blank one. */
  ghost function Answer(cache: StringDictCache, db: Database, l: Lookup): Option<int>
    reads cache, db
    requires cache.Agrees(db) && Hit(cache, l)
  {
    var key := if l.value.None? then None else cache.Key(Entry(l.semantic, l.value.value));
    if key.None? then None else Some(db.table[key.value])
  }

  ghost predicate AllHit(cache: StringDictCache, lookups: seq<Lookup>)
    reads cache
  {
    forall i :: 0 <= i < |lookups| ==> Hit(cache, lookups[i])
  }

  /** The first lookups have the answers of the cache. */
  ghost predicate Answered(cache: StringDictCache, db: Database, lookups: seq<Lookup>, ids: seq<Option<int>>)
    reads cache, db
    requires cache.Agrees(db) && AllHit(cache, lookups)
  {
    |ids| <= |lookups| && forall i :: 0 <= i < |ids| ==> ids[i] == Answer(cache, db, lookups[i])
  }

  /** What was a hit stays one, with the same answer, while anybody else adds and caches rows. */
  method OthersKeepHits(cache: StringDictCache, db: Database, lookups: seq<Lookup>, ghost ids: seq<Option<int>>,
                        shared: bool)
    requires db.Valid() && cache.Agrees(db) && AllHit(cache, lookups) && Answered(cache, db, lookups, ids)
    modifies cache, db
    ensures db.Valid() && cache.Agrees(db) && AllHit(cache, lookups) && Answered(cache, db, lookups, ids)
    ensures !shared ==> unchanged(cache) && unchanged(db)
  {
    cache.Others(db, shared);
    forall i | 0 <= i < |lookups|
      ensures Hit(cache, lookups[i])
    {
      assert old(Hit(cache, lookups[i]));
    }
  }

  /** One more lookup, with other callers before it. */
  method NextId(cache: StringDictCache, db: Database, lookups: seq<Lookup>, ids: seq<Option<int>>, lost: bool,
                shared: bool) returns (r: seq<Option<int>>, ghost sent: nat)
    requires db.Valid() && cache.Agrees(db) && AllHit(cache, lookups)
    requires |ids| < |lookups| && Answered(cache, db, lookups, ids)
    modifies cache, db
    ensures db.Valid() && cache.Agrees(db) && AllHit(cache, lookups)
    ensures |r| == |ids| + 1 && Answered(cache, db, lookups, r) && sent == 0
    ensures !shared ==> unchanged(cache) && unchanged(db)
  {
    OthersKeepHits(cache, db, lookups, ids, shared);
    var l := lookups[|ids|];
    assert Hit(cache, l);
    var id;
    id, sent := cache.EnsureId(db, l.semantic, l.value, lost, shared);
    assert id.value == Answer(cache, db, l);
    r := ids + [id.value];
  }

  /** Building payloads from hits, with other callers before every lookup: no statement is sent and nothing
      can fail, even with the connection lost; the ids are those of the table. */
  method BuildPayloads(cache: StringDictCache, db: Database, lookups: seq<Lookup>, lost: bool, shared: bool)
    returns (ids: seq<Option<int>>, ghost sent: nat)
    requires db.Valid() && cache.Agrees(db) && AllHit(cache, lookups)
    modifies cache, db
    ensures db.Valid() && cache.Agrees(db) && AllHit(cache, lookups)
    ensures |ids| == |lookups| && Answered(cache, db, lookups, ids)
    ensures sent == 0
    ensures !shared ==> unchanged(cache) && unchanged(db)
  {
    ids, sent := [], 0;
    for i := 0 to |lookups|
      invariant db.Valid() && cache.Agrees(db) && AllHit(cache, lookups)
      invariant |ids| == i && Answered(cache, db, lookups, ids) && sent == 0
      invariant !shared ==> unchanged(cache) && unchanged(db)
    {
      ghost var own;
      ids, own := NextId(cache, db, lookups, ids, lost, shared);
      sent := sent + own;
    }
  }

  /** The whole of a batch: one statement at most, however many strings its payloads hold and whatever other
      callers do in between. */
  method PreloadAndBuild(cache: StringDictCache, db: Database, b: Batch, lost: bool, lostLater: bool, shared: bool)
    returns (r: Result<seq<Option<int>>, DbError>, ghost sent: nat)
    requires cache.ch.Valid() && db.Valid() && cache.Agrees(db)
    modifies cache, db
    ensures db.Valid() && cache.Agrees(db) && sent <= 1
    ensures r.Ok? ==>
              && AllHit(cache, BatchLookups(b))
              && |r.value| == |BatchLookups(b)| && Answered(cache, db, BatchLookups(b), r.value)
    ensures r.Ok? && lost ==> sent == 0
    ensures r.Err? ==> if lost then r.error == ConnectionLost
                       else r.error == NoIdLeft && OutOfIds(db.nextId, NewStrings(cache, b, db.table))
  {
    var loaded;
    loaded, sent := PreloadSubmitBatchDicts(cache, db, b, lost, shared);
    if loaded.Err? {
      return Err(loaded.error), sent;
    }
    forall i | 0 <= i < |BatchLookups(b)|
      ensures Hit(cache, BatchLookups(b)[i])
    {
      assert BatchLookups(b)[i] in BatchLookups(b);
    }
    var ids, later := BuildPayloads(cache, db, BatchLookups(b), lostLater, shared);
    return Ok(ids), sent + later;
  }
}
