/** Fencing of the search queue, for any number of workers (server/src/search/queue.rs, lines 134 to
    302; server/src/config/mod.rs, lines 199 to 203). */
module SearchFencing {
  import opened ClaimOrder
  import opened SearchQueue

  /** `issued` holds every claim ever returned to a worker, `effective` the claims whose mark changed
      a row, in order. */
  datatype State = State(rows: Rows, now: int, issued: set<Claim>, effective: seq<Claim>)

  datatype Config = Config(staleTimeout: int, maxAttempts: int)

  datatype Action =
    | Refresh(targets: set<Target>, newId: Target -> int)
    | ClaimBatch(chosen: set<Target>, worker: string, cutoff: int)
    | Complete(claims: set<Claim>)
    | Fail(claim: Claim, error: string)
    | Expire(cutoff: int)

  /** Each action happens at a time `at`. Times never go back. A worker only marks claims it was given,
      claims only candidates, and its cutoff lies the stale timeout in the past. Two claims of one row
      are never made at the same instant: for a stale row this follows from the cutoff, for a row
      that went back to pending it is an assumption about the clock. */
  ghost predicate Enabled(s: State, a: Action, at: int, c: Config) {
    && at >= s.now
    && match a
       case Refresh(_, _) => true
       case ClaimBatch(chosen, worker, cutoff) =>
         && cutoff <= at - c.staleTimeout
         && chosen <= Candidates(s.rows, cutoff, c.maxAttempts)
         && forall t, k :: t in chosen && s.rows[t].status == Pending && k in s.issued && k.target == t ==> k.at < at
       case Complete(claims) => claims <= s.issued
       case Fail(claim, _) => claim in s.issued
       case Expire(cutoff) => cutoff <= at - c.staleTimeout
  }

  ghost function ClaimsOf(chosen: set<Target>, worker: string, at: int): set<Claim> {
    set t | t in chosen :: Claim(t, worker, at)
  }

  ghost function Step(s: State, a: Action, at: int, c: Config): State {
    match a
    case Refresh(targets, newId) => s.(rows := Enqueue(s.rows, targets, at, newId), now := at)
    case ClaimBatch(chosen, worker, cutoff) =>
      s.(rows := ClaimRows(s.rows, chosen, worker, at), now := at, issued := s.issued + ClaimsOf(chosen, worker, at))
    case Complete(claims) =>
      s.(rows := MarkCompleted(s.rows, claims, at), now := at,
         effective := s.effective + Sequence(set k | k in claims && Fenced(s.rows, k)))
    case Fail(claim, error) =>
      s.(rows := MarkFailed(s.rows, claim, error, c.maxAttempts, at), now := at,
         effective := if Fenced(s.rows, claim) then s.effective + [claim] else s.effective)
    case Expire(cutoff) => s.(rows := ExpireStale(s.rows, cutoff, c.maxAttempts, at), now := at)
  }

  /** The elements of a set in some order. */
  ghost function Sequence(claims: set<Claim>): seq<Claim>
    decreases claims
  {
    if claims == {} then []
    else
      NonEmpty(claims);
      var k :| k in claims;
      [k] + Sequence(claims - {k})
  }

  ghost predicate NoRepeat(s: seq<Claim>) {
    forall i, j :: 0 <= i < j < |s| ==> s[i] != s[j]
  }

  lemma {:induction false} SequenceFacts(claims: set<Claim>)
    ensures NoRepeat(Sequence(claims))
    ensures forall k :: k in Sequence(claims) <==> k in claims
    decreases claims
  {
    if claims != {} {
      var k := Sequence(claims)[0];
      SequenceFacts(claims - {k});
    }
  }

  /** A processing row carries an issued claim, the latest one issued for it. */
  ghost predicate RowClaimOk(s: State, t: Target) {
    t in s.rows && s.rows[t].status == Processing ==>
      && s.rows[t].claimedBy.Some? && s.rows[t].claimedAt.Some?
      && Claim(t, s.rows[t].claimedBy.value, s.rows[t].claimedAt.value) in s.issued
      && forall k :: k in s.issued && k.target == t ==> k.at <= s.rows[t].claimedAt.value
  }

  /** A claim that was used up no longer matches its row, and is used up once. */
  ghost predicate EffectiveOk(s: State) {
    && (forall i :: 0 <= i < |s.effective| ==> s.effective[i] in s.issued && !Fenced(s.rows, s.effective[i]))
    && NoRepeat(s.effective)
  }

  ghost predicate Inv(s: State) {
    && (forall t :: RowClaimOk(s, t))
    && (forall k :: k in s.issued ==> k.at <= s.now)
    && EffectiveOk(s)
  }

  /** A new claim of a row is later than every claim issued for that row before: for a stale row the
      positive stale timeout alone forces it. */
  lemma {:induction false} NewClaimIsLater(s: State, chosen: set<Target>, worker: string, cutoff: int, at: int,
                                           c: Config, k: Claim)
    requires c.staleTimeout > 0 && Inv(s) && Enabled(s, ClaimBatch(chosen, worker, cutoff), at, c)
    requires k in s.issued && k.target in chosen
    ensures k.at < at
  {
    var t := k.target;
    assert RowClaimOk(s, t);
    assert t in Candidates(s.rows, cutoff, c.maxAttempts);
  }

  /** Once a claim has lost its row it never gets it back, whatever happens next. */
  lemma {:induction false} FenceNeverReturns(s: State, a: Action, at: int, c: Config, k: Claim)
    requires c.staleTimeout > 0 && Inv(s) && Enabled(s, a, at, c)
    requires k in s.issued && !Fenced(s.rows, k)
    ensures !Fenced(Step(s, a, at, c).rows, k)
  {
    if a.ClaimBatch? && k.target in a.chosen {
      NewClaimIsLater(s, a.chosen, a.worker, a.cutoff, at, c, k);
    }
  }

  lemma {:induction false} StepKeepsRowClaims(s: State, a: Action, at: int, c: Config)
    requires c.staleTimeout > 0 && Inv(s) && Enabled(s, a, at, c)
    ensures forall t :: RowClaimOk(Step(s, a, at, c), t)
  {
    var s' := Step(s, a, at, c);
    forall t
      ensures RowClaimOk(s', t)
    {
      assert RowClaimOk(s, t);
      if a.ClaimBatch? && t in a.chosen {
        assert Claim(t, a.worker, at) in ClaimsOf(a.chosen, a.worker, at);
      }
    }
  }

  /** The claims whose mark takes effect in this action. */
  ghost function Marked(s: State, a: Action): seq<Claim> {
    match a
    case Complete(claims) => Sequence(set k | k in claims && Fenced(s.rows, k))
    case Fail(claim, _) => if Fenced(s.rows, claim) then [claim] else []
    case _ => []
  }

  lemma {:induction false} MarkedFacts(s: State, a: Action, at: int, c: Config)
    requires Enabled(s, a, at, c)
    ensures Step(s, a, at, c).effective == s.effective + Marked(s, a)
    ensures NoRepeat(Marked(s, a))
    ensures forall k :: k in Marked(s, a) ==>
              k in s.issued && Fenced(s.rows, k) && !Fenced(Step(s, a, at, c).rows, k)
  {
    if a.Complete? {
      SequenceFacts(set k | k in a.claims && Fenced(s.rows, k));
    }
  }

  lemma {:induction false} StepKeepsEffective(s: State, a: Action, at: int, c: Config)
    requires c.staleTimeout > 0 && Inv(s) && Enabled(s, a, at, c)
    ensures EffectiveOk(Step(s, a, at, c))
  {
    var s' := Step(s, a, at, c);
    MarkedFacts(s, a, at, c);
    var n := |s.effective|;
    forall i | 0 <= i < |s'.effective|
      ensures s'.effective[i] in s'.issued && !Fenced(s'.rows, s'.effective[i])
    {
      if i < n {
        FenceNeverReturns(s, a, at, c, s.effective[i]);
      } else {
        assert s'.effective[i] in Marked(s, a);
      }
    }
    forall i, j | 0 <= i < j < |s'.effective|
      ensures s'.effective[i] != s'.effective[j]
    {
      if i < n <= j {
        assert !Fenced(s.rows, s.effective[i]);
        assert s'.effective[j] in Marked(s, a);
      }
    }
  }

  lemma {:induction false} StepKeepsInv(s: State, a: Action, at: int, c: Config)
    requires c.staleTimeout > 0 && Inv(s) && Enabled(s, a, at, c)
    ensures Inv(Step(s, a, at, c))
  {
    StepKeepsRowClaims(s, a, at, c);
    StepKeepsEffective(s, a, at, c);
  }

  // ---------- all runs ----------

  ghost const EMPTY: State := State(map[], 0, {}, [])

  ghost predicate IsRun(states: seq<State>, actions: seq<(Action, int)>, c: Config) {
    && |states| == |actions| + 1
    && states[0] == EMPTY
    && forall i :: 0 <= i < |actions| ==>
         && Enabled(states[i], actions[i].0, actions[i].1, c)
         && states[i + 1] == Step(states[i], actions[i].0, actions[i].1, c)
  }

  lemma {:induction false} RunKeepsInv(states: seq<State>, actions: seq<(Action, int)>, c: Config, i: nat)
    requires c.staleTimeout > 0 && IsRun(states, actions, c) && i < |states|
    ensures Inv(states[i])
  {
    if i > 0 {
      RunKeepsInv(states, actions, c, i - 1);
      StepKeepsInv(states[i - 1], actions[i - 1].0, actions[i - 1].1, c);
    }
  }

  lemma {:induction false} LostStaysLost(states: seq<State>, actions: seq<(Action, int)>, c: Config, i: nat,
                                         j: nat, k: Claim)
    requires c.staleTimeout > 0 && IsRun(states, actions, c) && i <= j < |states|
    requires k in states[i].issued && !Fenced(states[i].rows, k)
    ensures k in states[j].issued && !Fenced(states[j].rows, k)
  {
    if i < j {
      LostStaysLost(states, actions, c, i, j - 1, k);
      RunKeepsInv(states, actions, c, j - 1);
      FenceNeverReturns(states[j - 1], actions[j - 1].0, actions[j - 1].1, c, k);
    }
  }

  /** Over every run and for any number of workers: from the moment a claim lost its row, its completion
      and failure marks change nothing at all. */
  lemma {:induction false} LateMarkChangesNothing(states: seq<State>, actions: seq<(Action, int)>, c: Config,
                                                  i: nat, j: nat, k: Claim,
                               error: string, at: int)
    requires c.staleTimeout > 0 && IsRun(states, actions, c) && i <= j < |states|
    requires k in states[i].issued && !Fenced(states[i].rows, k)
    ensures MarkCompleted(states[j].rows, {k}, at) == states[j].rows
    ensures MarkFailed(states[j].rows, k, error, c.maxAttempts, at) == states[j].rows
  {
    LostStaysLost(states, actions, c, i, j, k);
  }

  /** A claim loses its row when the row is refreshed, claimed again, or settled by any mark. */
  lemma {:induction false} SupersededClaimsAreLost(s: State, a: Action, at: int, c: Config, k: Claim)
    requires c.staleTimeout > 0 && Inv(s) && Enabled(s, a, at, c) && k in s.issued
    ensures a.Refresh? && k.target in a.targets ==> !Fenced(Step(s, a, at, c).rows, k)
    ensures a.ClaimBatch? && k.target in a.chosen ==> !Fenced(Step(s, a, at, c).rows, k)
    ensures forall m :: m in Marked(s, a) && m.target == k.target ==> !Fenced(Step(s, a, at, c).rows, k)
  {
    if a.ClaimBatch? && k.target in a.chosen {
      NewClaimIsLater(s, a.chosen, a.worker, a.cutoff, at, c, k);
    }
    MarkedFacts(s, a, at, c);
    forall m | m in Marked(s, a) && m.target == k.target
      ensures !Fenced(Step(s, a, at, c).rows, k)
    {
      assert Fenced(s.rows, m);
    }
  }

  /** Each claim takes effect in at most one mark over a whole run. */
  lemma {:induction false} EachClaimCountsOnce(states: seq<State>, actions: seq<(Action, int)>, c: Config, i: nat)
    requires c.staleTimeout > 0 && IsRun(states, actions, c) && i < |states|
    ensures NoRepeat(states[i].effective)
  {
    RunKeepsInv(states, actions, c, i);
  }
}
