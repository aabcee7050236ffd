/** The event loop of a range transfer as a transition system over values: refill, a download
    finishes, an upload finishes (server/src/transfer/upload.rs, lines 322 to 405). */
module RangeEngine {
  import opened Prelude
  import opened RangeSpecs
  import opened PartLedger

  /** `stored` is the content the storage holds for the part; the ETag it returned stands for it. */
  datatype UploadedPart = UploadedPart(partNumber: int, stored: Bytes)

  datatype Limits = Limits(downloadParallelism: nat, maxInFlightParts: nat) {
    predicate Valid() {
      downloadParallelism >= 1 && maxInFlightParts >= 1
    }
  }

  datatype Engine = Engine(
    pending: seq<RangeSpec>,
    downloads: map<int, RangeSpec>,
    uploads: map<int, Bytes>,
    ledger: Ledger,
    completed: seq<UploadedPart>)

  datatype Event = DownloadDone(part: int) | UploadDone(part: int)

  // ---------- steps ----------

  ghost function AddPart(l: Ledger, p: int, bytes: Bytes): Ledger {
    HashReady(l.(states := l.states[p := ActivePartState(Some(bytes), false)]))
  }

  ghost function Start(specs: seq<RangeSpec>, first: Bytes): Engine {
    Engine(specs, map[], map[1 := first], AddPart(Ledger(map[], [], 0, 1), 1, first), [])
  }

  ghost predicate CanIssue(e: Engine, lim: Limits) {
    && |e.downloads| < lim.downloadParallelism
    && |e.downloads| + |e.ledger.states| < lim.maxInFlightParts
    && e.pending != []
  }

  ghost function Issue(e: Engine): Engine
    requires e.pending != []
  {
    e.(pending := e.pending[1..], downloads := e.downloads[e.pending[0].partNumber := e.pending[0]])
  }

  /** Afterwards nothing is left to issue, or one of the two limits is reached. */
  ghost function Refill(e: Engine, lim: Limits): (r: Engine)
    ensures !CanIssue(r, lim)
    ensures || r.pending == []
            || |r.downloads| >= lim.downloadParallelism
            || |r.downloads| + |r.ledger.states| >= lim.maxInFlightParts
    decreases |e.pending|
  {
    if CanIssue(e, lim) then Refill(Issue(e), lim) else e
  }

  ghost function Downloaded(e: Engine, p: int, bytes: Bytes): Engine {
    e.(downloads := e.downloads - {p},
       uploads := e.uploads[p := bytes],
       ledger := AddPart(e.ledger, p, bytes))
  }

  ghost function Uploaded(e: Engine, p: int): Engine
    requires p in e.uploads
  {
    e.(uploads := e.uploads - {p},
       ledger := MarkUploaded(e.ledger, p),
       completed := e.completed + [UploadedPart(p, e.uploads[p])])
  }

  ghost predicate Finished(e: Engine) {
    e.pending == [] && |e.downloads| == 0 && |e.uploads| == 0 && |e.ledger.states| == 0
  }

  // ---------- the invariant ----------

  /** Everything fixed before the loop starts: the ranges, and what each part will contain. */
  datatype Plan = Plan(specs: seq<RangeSpec>, served: seq<Bytes>) {
    ghost predicate Valid() {
      && |served| == |specs| + 1
      && forall i :: 0 <= i < |specs| ==> specs[i].partNumber == i + 2
    }
  }

  /** Parts 1 to `Started` are the first buffer and the ranges handed to a download so far. */
  ghost function Started(e: Engine, plan: Plan): int {
    1 + |plan.specs| - |e.pending|
  }

  ghost function PartSet(parts: seq<UploadedPart>): set<int> {
    if parts == [] then {} else PartSet(parts[..|parts| - 1]) + {parts[|parts| - 1].partNumber}
  }

  ghost predicate DistinctParts(parts: seq<UploadedPart>) {
    forall i, j :: 0 <= i < j < |parts| ==> parts[i].partNumber != parts[j].partNumber
  }

  ghost predicate HoldsContent(u: UploadedPart, served: seq<Bytes>) {
    1 <= u.partNumber <= |served| && u.stored == served[u.partNumber - 1]
  }

  /** Where part `p` is. A started part is in exactly one of: downloading, uploading, completed. It is
      in the ledger until it is both hashed and uploaded; it holds its bytes exactly while it waits
      for its turn to be hashed. */
  ghost predicate PartOk(e: Engine, plan: Plan, p: int)
    requires plan.Valid()
  {
    var l := e.ledger;
    var started := 1 <= p <= Started(e, plan) <= |plan.served|;
    var completed := p in PartSet(e.completed);
    && (p in e.downloads || p in e.uploads || p in l.states || completed ==> started)
    && (p in e.downloads ==>
          && 2 <= p && e.downloads[p] == plan.specs[p - 2]
          && l.nextHashPart <= p && p !in l.states && p !in e.uploads && !completed)
    && (p in l.states ==>
          && (l.states[p].bytes.None? <==> p < l.nextHashPart)
          && (l.states[p].bytes.Some? ==> l.states[p].bytes.value == plan.served[p - 1])
          && (l.states[p].bytes.None? ==> !l.states[p].uploadDone))
    && (p in e.uploads <==> p in l.states && !l.states[p].uploadDone)
    && (p in e.uploads ==> e.uploads[p] == plan.served[p - 1] && !completed)
    && (started ==> p in e.downloads || p in e.uploads || completed)
    && (started && l.nextHashPart <= p ==> p in e.downloads || p in l.states)
  }

  ghost predicate PartsOk(e: Engine, plan: Plan)
    requires plan.Valid()
  {
    forall p :: PartOk(e, plan, p)
  }

  ghost predicate QueueOk(e: Engine, plan: Plan) {
    |e.pending| <= |plan.specs| && e.pending == plan.specs[|plan.specs| - |e.pending|..]
  }

  ghost predicate HashOk(e: Engine, plan: Plan)
    requires plan.Valid()
  {
    && 1 <= e.ledger.nextHashPart <= Started(e, plan) + 1 <= |plan.served| + 1
    && e.ledger.hashed == Flatten(plan.served[..e.ledger.nextHashPart - 1])
    && e.ledger.contentLength == |e.ledger.hashed|
  }

  ghost predicate CompletedOk(e: Engine, plan: Plan) {
    && DistinctParts(e.completed)
    && forall i :: 0 <= i < |e.completed| ==> HoldsContent(e.completed[i], plan.served)
  }

  /** No more downloads at once, and no more parts in memory, than configured. */
  ghost predicate WithinLimits(e: Engine, lim: Limits) {
    && |e.downloads| <= lim.downloadParallelism
    && |e.downloads| + |e.ledger.states| <= lim.maxInFlightParts
  }

  ghost predicate Core(e: Engine, plan: Plan, lim: Limits) {
    && plan.Valid()
    && QueueOk(e, plan) && PartsOk(e, plan) && HashOk(e, plan) && CompletedOk(e, plan)
    && WithinLimits(e, lim)
  }

  /** The loop-head invariant: `Core`, and every part that can be hashed has been. */
  ghost predicate Inv(e: Engine, plan: Plan, lim: Limits) {
    Core(e, plan, lim) && e.ledger.nextHashPart !in e.ledger.states
  }

  lemma {:induction false} PartSetMeans(parts: seq<UploadedPart>, i: int)
    requires 0 <= i < |parts|
    ensures parts[i].partNumber in PartSet(parts)
  {
    if i < |parts| - 1 {
      PartSetMeans(parts[..|parts| - 1], i);
    }
  }

  lemma {:induction false} IndexOfPart(parts: seq<UploadedPart>, p: int) returns (k: int)
    requires p in PartSet(parts)
    ensures 0 <= k < |parts| && parts[k].partNumber == p
  {
    k := |parts| - 1;
    if parts[k].partNumber != p {
      k := IndexOfPart(parts[..k], p);
    }
  }

  lemma {:induction false} PartSetSnoc(parts: seq<UploadedPart>, u: UploadedPart)
    ensures PartSet(parts + [u]) == PartSet(parts) + {u.partNumber}
  {
  }

  lemma {:induction false} HashOneParts(e: Engine, plan: Plan)
    requires plan.Valid() && PartsOk(e, plan) && CanHash(e.ledger)
    ensures PartsOk(e.(ledger := HashOne(e.ledger)), plan)
  {
    var e' := e.(ledger := HashOne(e.ledger));
    assert PartOk(e, plan, e.ledger.nextHashPart);
    forall p
      ensures PartOk(e', plan, p)
    {
      assert PartOk(e, plan, p);
    }
  }

  lemma {:induction false} HashOneKeepsCore(e: Engine, plan: Plan, lim: Limits)
    requires Core(e, plan, lim) && CanHash(e.ledger)
    ensures Core(e.(ledger := HashOne(e.ledger)), plan, lim)
  {
    var p := e.ledger.nextHashPart;
    HashOneParts(e, plan);
    HashOneHash(e, plan);
    HashOneShrinks(e.ledger);
  }

  lemma {:induction false} HashOneHash(e: Engine, plan: Plan)
    requires plan.Valid() && HashOk(e, plan) && CanHash(e.ledger) && PartsOk(e, plan)
    ensures HashOk(e.(ledger := HashOne(e.ledger)), plan)
  {
    var p := e.ledger.nextHashPart;
    assert PartOk(e, plan, p);
    assert plan.served[..p] == plan.served[..p - 1] + [plan.served[p - 1]];
    FlattenSnoc(plan.served[..p - 1], plan.served[p - 1]);
  }

  lemma {:induction false} HashOneShrinks(l: Ledger)
    requires CanHash(l)
    ensures |HashOne(l).states| <= |l.states|
  {
  }

  lemma {:induction false} HashReadyKeepsCore(e: Engine, plan: Plan, lim: Limits)
    requires Core(e, plan, lim)
    ensures Inv(e.(ledger := HashReady(e.ledger)), plan, lim)
    decreases ReadyParts(e.ledger.states)
  {
    if CanHash(e.ledger) {
      HashOneKeepsCore(e, plan, lim);
      HashReadyKeepsCore(e.(ledger := HashOne(e.ledger)), plan, lim);
    } else {
      assert PartOk(e, plan, e.ledger.nextHashPart);
    }
  }

  lemma {:induction false} StartInv(plan: Plan, lim: Limits)
    requires plan.Valid() && lim.Valid()
    ensures Inv(Start(plan.specs, plan.served[0]), plan, lim)
  {
    var first := plan.served[0];
    var l := Ledger(map[1 := ActivePartState(Some(first), false)], [], 0, 1);
    var e := Engine(plan.specs, map[], map[1 := first], l, []);
    assert Ledger(map[], [], 0, 1).states[1 := ActivePartState(Some(first), false)] == l.states;
    assert plan.served[..0] == [];
    forall p
      ensures PartOk(e, plan, p)
    {
    }
    assert |l.states| == 1;
    HashReadyKeepsCore(e, plan, lim);
  }

  lemma {:induction false} GrowMap<V>(m: map<int, V>, p: int, v: V)
    requires p !in m
    ensures |m[p := v]| == |m| + 1
  {
  }

  lemma {:induction false} ShrinkMap<V>(m: map<int, V>, p: int)
    requires p in m
    ensures |m - {p}| == |m| - 1
  {
  }

  /** A range handed to a download is new: its part is nowhere yet. */
  lemma {:induction false} IssueInv(e: Engine, plan: Plan, lim: Limits)
    requires Inv(e, plan, lim) && CanIssue(e, lim)
    ensures e.pending[0].partNumber !in e.downloads
    ensures Inv(Issue(e), plan, lim)
    ensures Remaining(Issue(e)) == Remaining(e)
  {
    var e' := Issue(e);
    var q := e.pending[0].partNumber;
    assert e.pending[0] == plan.specs[|plan.specs| - |e.pending|];
    assert q == Started(e', plan);
    assert PartOk(e, plan, q);
    GrowMap(e.downloads, q, e.pending[0]);
    forall p
      ensures PartOk(e', plan, p)
    {
      assert PartOk(e, plan, p);
    }
  }

  /** What a refill does: it takes ranges off the front of the queue and into the downloads, and crosses
      neither limit that was not crossed before. */
  lemma {:induction false} RefillMeans(e: Engine, lim: Limits)
    ensures var r := Refill(e, lim);
            && |r.pending| <= |e.pending| && r.pending == e.pending[|e.pending| - |r.pending|..]
            && (forall i :: 0 <= i < |e.pending| - |r.pending| ==> e.pending[i].partNumber in r.downloads)
            && (forall p :: p in e.downloads ==> p in r.downloads)
            && (|e.downloads| <= lim.downloadParallelism ==> |r.downloads| <= lim.downloadParallelism)
            && (|e.downloads| + |e.ledger.states| <= lim.maxInFlightParts ==>
                  |r.downloads| + |r.ledger.states| <= lim.maxInFlightParts)
            && r == e.(pending := r.pending, downloads := r.downloads)
    decreases |e.pending|
  {
    if CanIssue(e, lim) {
      var next := Issue(e);
      RefillMeans(next, lim);
      assert |next.downloads| <= |e.downloads| + 1;
      forall i | 0 <= i < |e.pending| - |Refill(e, lim).pending|
        ensures e.pending[i].partNumber in Refill(e, lim).downloads
      {
        assert i > 0 ==> e.pending[i] == next.pending[i - 1];
      }
    }
  }

  lemma {:induction false} RefillInv(e: Engine, plan: Plan, lim: Limits)
    requires Inv(e, plan, lim)
    ensures Inv(Refill(e, lim), plan, lim)
    ensures Remaining(Refill(e, lim)) == Remaining(e)
    decreases |e.pending|
  {
    if CanIssue(e, lim) {
      IssueInv(e, plan, lim);
      RefillInv(Issue(e), plan, lim);
    }
  }

  /** The state once the download of `q` has ended and before anything is hashed. */
  ghost function Received(e: Engine, q: int, bytes: Bytes): Engine {
    e.(downloads := e.downloads - {q}, uploads := e.uploads[q := bytes],
       ledger := e.ledger.(states := e.ledger.states[q := ActivePartState(Some(bytes), false)]))
  }

  lemma {:induction false} ReceivedParts(e: Engine, q: int, plan: Plan)
    requires plan.Valid() && PartsOk(e, plan) && q in e.downloads && 2 <= q <= |plan.served|
    ensures PartsOk(Received(e, q, plan.served[q - 1]), plan)
  {
    var e' := Received(e, q, plan.served[q - 1]);
    assert PartOk(e, plan, q);
    forall p
      ensures PartOk(e', plan, p)
    {
      assert PartOk(e, plan, p);
    }
  }

  /** A download that ends moves its part from the downloads to the ledger: the memory bound stays. */
  lemma {:induction false} ReceivedRest(e: Engine, q: int, bytes: Bytes, lim: Limits)
    requires WithinLimits(e, lim) && q in e.downloads && q !in e.uploads && q !in e.ledger.states
    ensures WithinLimits(Received(e, q, bytes), lim)
    ensures Remaining(Received(e, q, bytes)) == Remaining(e) - 1
  {
  }

  lemma {:induction false} ReceivedFrame(e: Engine, q: int, bytes: Bytes, plan: Plan)
    requires plan.Valid() && QueueOk(e, plan) && HashOk(e, plan) && CompletedOk(e, plan)
    ensures var e' := Received(e, q, bytes);
            QueueOk(e', plan) && HashOk(e', plan) && CompletedOk(e', plan)
  {
    var e' := Received(e, q, bytes);
    assert e'.pending == e.pending && e'.completed == e.completed;
  }

  lemma {:induction false} WhereDownloaded(e: Engine, q: int, plan: Plan)
    requires plan.Valid() && PartsOk(e, plan) && q in e.downloads
    ensures 2 <= q <= |plan.served| && q !in e.uploads && q !in e.ledger.states
  {
    assert PartOk(e, plan, q);
  }

  lemma {:induction false} ReceivedCore(e: Engine, q: int, plan: Plan, lim: Limits)
    requires Inv(e, plan, lim) && q in e.downloads
    ensures 2 <= q <= |plan.served|
    ensures var e' := Received(e, q, plan.served[q - 1]);
            Core(e', plan, lim) && Remaining(e') == Remaining(e) - 1
  {
    WhereDownloaded(e, q, plan);
    ReceivedFrame(e, q, plan.served[q - 1], plan);
    ReceivedParts(e, q, plan);
    ReceivedRest(e, q, plan.served[q - 1], lim);
  }

  lemma {:induction false} DownloadedInv(e: Engine, q: int, plan: Plan, lim: Limits)
    requires Inv(e, plan, lim) && q in e.downloads
    ensures 2 <= q <= |plan.served|
    ensures Inv(Downloaded(e, q, plan.served[q - 1]), plan, lim)
    ensures Remaining(Downloaded(e, q, plan.served[q - 1])) == Remaining(e) - 1
  {
    ReceivedCore(e, q, plan, lim);
    var e' := Received(e, q, plan.served[q - 1]);
    assert Downloaded(e, q, plan.served[q - 1]) == e'.(ledger := HashReady(e'.ledger));
    HashReadyKeepsCore(e', plan, lim);
  }

  /** Recording an upload keeps the completed parts distinct. */
  lemma {:induction false} CompletedSnoc(e: Engine, q: int, plan: Plan)
    requires CompletedOk(e, plan) && q in e.uploads && q !in PartSet(e.completed)
    requires HoldsContent(UploadedPart(q, e.uploads[q]), plan.served)
    ensures CompletedOk(Uploaded(e, q), plan)
  {
    forall i | 0 <= i < |e.completed|
      ensures e.completed[i].partNumber != q
    {
      PartSetMeans(e.completed, i);
    }
  }

  lemma {:induction false} UploadedParts(e: Engine, q: int, plan: Plan)
    requires plan.Valid() && PartsOk(e, plan) && q in e.uploads
    ensures PartsOk(Uploaded(e, q), plan)
  {
    var e' := Uploaded(e, q);
    PartSetSnoc(e.completed, UploadedPart(q, e.uploads[q]));
    forall p
      ensures PartOk(e', plan, p)
    {
      assert PartOk(e, plan, p);
    }
  }

  /** An upload that ends changes nothing about the queue and the hash, and takes no more memory. */
  lemma {:induction false} UploadedRest(e: Engine, q: int, plan: Plan, lim: Limits)
    requires plan.Valid() && QueueOk(e, plan) && HashOk(e, plan) && WithinLimits(e, lim)
    requires q in e.uploads && e.ledger.nextHashPart !in e.ledger.states
    ensures QueueOk(Uploaded(e, q), plan) && HashOk(Uploaded(e, q), plan) && WithinLimits(Uploaded(e, q), lim)
    ensures Uploaded(e, q).ledger.nextHashPart !in Uploaded(e, q).ledger.states
    ensures Remaining(Uploaded(e, q)) == Remaining(e) - 1
  {
  }

  lemma {:induction false} UploadedContent(e: Engine, q: int, plan: Plan)
    requires plan.Valid() && PartOk(e, plan, q) && CompletedOk(e, plan) && q in e.uploads
    ensures CompletedOk(Uploaded(e, q), plan)
  {
    CompletedSnoc(e, q, plan);
  }

  lemma {:induction false} UploadedInv(e: Engine, q: int, plan: Plan, lim: Limits)
    requires Inv(e, plan, lim) && q in e.uploads
    ensures Inv(Uploaded(e, q), plan, lim)
    ensures Remaining(Uploaded(e, q)) == Remaining(e) - 1
  {
    assert PartOk(e, plan, q);
    UploadedContent(e, q, plan);
    UploadedParts(e, q, plan);
    UploadedRest(e, q, plan, lim);
  }

  // ---------- progress ----------

  /** The number of completion events still to come. */
  ghost function Remaining(e: Engine): nat {
    2 * |e.pending| + 2 * |e.downloads| + |e.uploads|
  }

  /** After a refill either everything is drained or some future is in flight: the `select!` always
      has an enabled branch, and no part is stranded. */
  lemma {:induction false} NeverStuck(e: Engine, plan: Plan, lim: Limits)
    requires lim.Valid() && Inv(e, plan, lim) && !CanIssue(e, lim)
    ensures Finished(e) <==> e.downloads == map[] && e.uploads == map[]
    ensures Finished(e) <==> Remaining(e) == 0
  {
    if e.downloads == map[] && e.uploads == map[] {
      assert PartOk(e, plan, e.ledger.nextHashPart);
      forall p
        ensures p !in e.ledger.states
      {
        assert PartOk(e, plan, p);
      }
      assert e.ledger.states == map[];
    }
  }

  // ---------- all runs ----------

  ghost predicate Enabled(e: Engine, ev: Event) {
    match ev
    case DownloadDone(p) => p in e.downloads
    case UploadDone(p) => p in e.uploads
  }

  ghost function Apply(e: Engine, ev: Event, plan: Plan): Engine
    requires Enabled(e, ev)
    requires ev.DownloadDone? ==> 1 <= ev.part <= |plan.served|
  {
    match ev
    case DownloadDone(p) => Downloaded(e, p, plan.served[p - 1])
    case UploadDone(p) => Uploaded(e, p)
  }

  /** `events` is a possible order of completions, with a refill before each. */
  ghost predicate IsRun(e: Engine, events: seq<Event>, plan: Plan, lim: Limits)
    decreases |events|
  {
    events != [] ==>
      var r := Refill(e, lim);
      && Enabled(r, events[0])
      && (events[0].DownloadDone? ==> 1 <= events[0].part <= |plan.served|)
      && IsRun(Apply(r, events[0], plan), events[1..], plan, lim)
  }

  /** The engine at the loop head after `events`, refilled. */
  ghost function After(e: Engine, events: seq<Event>, plan: Plan, lim: Limits): Engine
    requires IsRun(e, events, plan, lim)
    decreases |events|
  {
    var r := Refill(e, lim);
    if events == [] then r else After(Apply(r, events[0], plan), events[1..], plan, lim)
  }

  lemma {:induction false} StepInv(e: Engine, ev: Event, plan: Plan, lim: Limits)
    requires Inv(e, plan, lim) && Enabled(e, ev)
    requires ev.DownloadDone? ==> 1 <= ev.part <= |plan.served|
    ensures Inv(Apply(e, ev, plan), plan, lim)
    ensures Remaining(Apply(e, ev, plan)) == Remaining(e) - 1
  {
    var e' := Apply(e, ev, plan);
    match ev {
      case DownloadDone(p) =>
        DownloadedInv(e, p, plan, lim);
        assert e' == Downloaded(e, p, plan.served[p - 1]);
      case UploadDone(p) =>
        UploadedInv(e, p, plan, lim);
        assert e' == Uploaded(e, p);
    }
  }

  lemma {:induction false} RunKeepsInv(e: Engine, events: seq<Event>, plan: Plan, lim: Limits)
    requires lim.Valid() && Inv(e, plan, lim) && IsRun(e, events, plan, lim)
    ensures Inv(After(e, events, plan, lim), plan, lim) && !CanIssue(After(e, events, plan, lim), lim)
    ensures var r := After(e, events, plan, lim);
            || r.pending == []
            || |r.downloads| >= lim.downloadParallelism
            || |r.downloads| + |r.ledger.states| >= lim.maxInFlightParts
    ensures Remaining(After(e, events, plan, lim)) + |events| == Remaining(e)
    decreases |events|
  {
    RefillInv(e, plan, lim);
    if events != [] {
      var r := Refill(e, lim);
      StepInv(r, events[0], plan, lim);
      RunKeepsInv(Apply(r, events[0], plan), events[1..], plan, lim);
    }
  }

  /** At a refilled loop head: not finished means some completion can come next, finished means the
      object is whole. */
  lemma {:induction false} LoopHead(e: Engine, plan: Plan, lim: Limits)
    requires lim.Valid() && Inv(e, plan, lim) && !CanIssue(e, lim)
    ensures Finished(e) <==> Remaining(e) == 0
    ensures !Finished(e) ==> exists ev :: Enabled(e, ev)
    ensures Finished(e) ==> FinishedHolds(e, plan)
  {
    NeverStuck(e, plan, lim);
    if e.downloads != map[] {
      var p := SomeKey(e.downloads);
      assert Enabled(e, DownloadDone(p));
    } else if e.uploads != map[] {
      var p := SomeKey(e.uploads);
      assert Enabled(e, UploadDone(p));
    } else {
      FinishedState(e, plan, lim);
    }
  }

  /** Whatever the order of completions: the ledger invariant holds at every loop head, neither limit is
      ever exceeded and one of them is reached unless every range has been issued, a run that is not
      finished can always go on, and it finishes after exactly 2k + 1 events for k ranges. */
  lemma {:induction false} EveryRunIsSafeAndEnds(plan: Plan, lim: Limits, events: seq<Event>)
    requires plan.Valid() && lim.Valid()
    requires IsRun(Start(plan.specs, plan.served[0]), events, plan, lim)
    ensures var e := After(Start(plan.specs, plan.served[0]), events, plan, lim);
            && Inv(e, plan, lim)
            && |e.downloads| <= lim.downloadParallelism
            && |e.downloads| + |e.ledger.states| <= lim.maxInFlightParts
            && (e.pending == [] || |e.downloads| == lim.downloadParallelism
                || |e.downloads| + |e.ledger.states| == lim.maxInFlightParts)
            && |events| <= 2 * |plan.specs| + 1
            && (Finished(e) <==> |events| == 2 * |plan.specs| + 1)
            && (!Finished(e) ==> exists ev :: Enabled(e, ev))
            && (Finished(e) ==> FinishedHolds(e, plan))
  {
    var e0 := Start(plan.specs, plan.served[0]);
    StartInv(plan, lim);
    StartRemaining(plan);
    RunKeepsInv(e0, events, plan, lim);
    LoopHead(After(e0, events, plan, lim), plan, lim);
  }

  lemma {:induction false} StartRemaining(plan: Plan)
    requires plan.Valid()
    ensures Remaining(Start(plan.specs, plan.served[0])) == 2 * |plan.specs| + 1
  {
  }

  // ---------- what is assembled ----------

  ghost predicate Ascending(parts: seq<UploadedPart>) {
    forall i, j :: 0 <= i < j < |parts| ==> parts[i].partNumber < parts[j].partNumber
  }

  function InsertPart(u: UploadedPart, parts: seq<UploadedPart>): seq<UploadedPart> {
    if parts == [] then [u]
    else if u.partNumber <= parts[0].partNumber then [u] + parts
    else [parts[0]] + InsertPart(u, parts[1..])
  }

  /** The stable sort that puts uploaded parts in part order before completion (storage.rs). */
  function SortByPartNumber(parts: seq<UploadedPart>): seq<UploadedPart> {
    if parts == [] then [] else InsertPart(parts[0], SortByPartNumber(parts[1..]))
  }

  lemma {:induction false} InsertPartSorts(u: UploadedPart, parts: seq<UploadedPart>)
    requires Ascending(parts)
    requires forall v :: v in parts ==> v.partNumber != u.partNumber
    ensures Ascending(InsertPart(u, parts))
    ensures forall v :: v in InsertPart(u, parts) <==> v == u || v in parts
  {
    if parts != [] && u.partNumber > parts[0].partNumber {
      assert forall v :: v in parts <==> v == parts[0] || v in parts[1..];
      InsertPartSorts(u, parts[1..]);
      var rest := InsertPart(u, parts[1..]);
      forall k | 0 <= k < |rest|
        ensures parts[0].partNumber < rest[k].partNumber
      {
        assert rest[k] in rest;
        assert forall v :: v in parts[1..] ==> parts[0].partNumber < v.partNumber;
      }
    }
  }

  /** On distinct parts the sort yields the same parts in strictly ascending order. */
  lemma {:induction false} SortSorts(parts: seq<UploadedPart>)
    requires DistinctParts(parts)
    ensures Ascending(SortByPartNumber(parts))
    ensures forall v :: v in SortByPartNumber(parts) <==> v in parts
  {
    if parts != [] {
      assert forall v :: v in parts <==> v == parts[0] || v in parts[1..];
      SortSorts(parts[1..]);
      InsertPartSorts(parts[0], SortByPartNumber(parts[1..]));
    }
  }

  /** The storage concatenates the parts in part order. */
  function Stored(parts: seq<UploadedPart>): (r: seq<Bytes>)
    ensures |r| == |parts|
    ensures forall i :: 0 <= i < |parts| ==> r[i] == parts[i].stored
  {
    seq(|parts|, i requires 0 <= i < |parts| => parts[i].stored)
  }

  /** A strictly ascending sequence that takes every value of 1..n and no other is 1, 2, ..., n. */
  lemma {:induction false} NumberedFrom(s: seq<UploadedPart>, n: nat, i: nat)
    requires Ascending(s)
    requires forall k :: 0 <= k < |s| ==> 1 <= s[k].partNumber <= n
    requires forall p :: 1 <= p <= n ==> p in PartSet(s)
    requires i <= |s| && i <= n
    requires forall k :: 0 <= k < i ==> s[k].partNumber == k + 1
    ensures |s| == n
    ensures forall k :: 0 <= k < |s| ==> s[k].partNumber == k + 1
    decreases n - i
  {
    if i < |s| {
      assert 1 <= s[i].partNumber <= n;
      assert i > 0 ==> s[i - 1].partNumber < s[i].partNumber;
      var k := IndexOfPart(s, i + 1);
      assert i <= k;
      NumberedFrom(s, n, i + 1);
    } else if i < n {
      var _ := IndexOfPart(s, i + 1);
    }
  }

  lemma {:induction false} SamePartSet(xs: seq<UploadedPart>, ys: seq<UploadedPart>, p: int)
    requires forall v :: v in xs ==> v in ys
    requires p in PartSet(xs)
    ensures p in PartSet(ys)
  {
    var k := IndexOfPart(xs, p);
    assert xs[k] in xs;
    var j :| 0 <= j < |ys| && ys[j] == xs[k];
    PartSetMeans(ys, j);
  }

  /** Parts numbered exactly 1 to n, in any order, sort to 1, 2, ..., n with their own contents. */
  lemma {:induction false} SortedIsNumbered(parts: seq<UploadedPart>, served: seq<Bytes>)
    requires DistinctParts(parts)
    requires forall p :: 1 <= p <= |served| ==> p in PartSet(parts)
    requires forall i :: 0 <= i < |parts| ==> HoldsContent(parts[i], served)
    ensures var s := SortByPartNumber(parts);
            && |s| == |served|
            && (forall i :: 0 <= i < |s| ==> s[i].partNumber == i + 1)
            && Stored(s) == served
  {
    var s := SortByPartNumber(parts);
    SortSorts(parts);
    forall p | 1 <= p <= |served|
      ensures p in PartSet(s)
    {
      SamePartSet(parts, s, p);
    }
    forall k | 0 <= k < |s|
      ensures HoldsContent(s[k], served)
    {
      assert s[k] in s;
    }
    NumberedFrom(s, |served|, 0);
  }

  /** A finished transfer: parts 1..n in order, their contents, and the length and hash input of
      exactly those contents. */
  ghost predicate FinishedHolds(e: Engine, plan: Plan) {
    var s := SortByPartNumber(e.completed);
    && |s| == |plan.served|
    && (forall i :: 0 <= i < |s| ==> s[i].partNumber == i + 1)
    && Stored(s) == plan.served
    && e.ledger.hashed == Flatten(plan.served)
    && e.ledger.contentLength == |Flatten(plan.served)|
  }

  /** When everything is drained, every part has been hashed and every part has been completed. */
  lemma {:induction false} DrainedParts(e: Engine, plan: Plan)
    requires plan.Valid() && PartsOk(e, plan) && HashOk(e, plan) && e.pending == []
    requires e.downloads == map[] && e.uploads == map[] && e.ledger.states == map[]
    ensures e.ledger.nextHashPart == |plan.served| + 1
    ensures forall p :: 1 <= p <= |plan.served| ==> p in PartSet(e.completed)
  {
    assert PartOk(e, plan, e.ledger.nextHashPart);
    forall p | 1 <= p <= |plan.served|
      ensures p in PartSet(e.completed)
    {
      assert PartOk(e, plan, p);
    }
  }

  lemma {:induction false} FinishedState(e: Engine, plan: Plan, lim: Limits)
    requires Inv(e, plan, lim) && Finished(e)
    ensures FinishedHolds(e, plan)
  {
    assert e.downloads == map[] && e.uploads == map[] && e.ledger.states == map[];
    DrainedParts(e, plan);
    assert plan.served[..|plan.served|] == plan.served;
    SortedIsNumbered(e.completed, plan.served);
  }
}
