/** The parts of a range transfer that are held in memory, and the hasher that takes them strictly
    in part order (server/src/transfer/range.rs). */
module PartLedger {
  import opened Prelude
  import opened RangeSpecs

  datatype ActivePartState = ActivePartState(bytes: Option<Bytes>, uploadDone: bool)

  /** `hashed` is everything the SHA-256 hasher was given; the digest itself is a function of it. */
  datatype Ledger = Ledger(
    states: map<int, ActivePartState>,
    hashed: Bytes,
    contentLength: int,
    nextHashPart: int)

  function ReadyParts(states: map<int, ActivePartState>): set<int> {
    set p | p in states && states[p].bytes.Some?
  }

  ghost predicate CanHash(l: Ledger) {
    l.nextHashPart in l.states && l.states[l.nextHashPart].bytes.Some?
  }

  /** Hands the next part to the hasher; the part leaves the ledger if its upload is done. */
  ghost function HashOne(l: Ledger): (r: Ledger)
    requires CanHash(l)
    ensures ReadyParts(r.states) < ReadyParts(l.states)
  {
    var p := l.nextHashPart;
    var state := l.states[p];
    var states := if state.uploadDone then l.states - {p} else l.states[p := state.(bytes := None)];
    assert ReadyParts(states) == ReadyParts(l.states) - {p};
    Ledger(states, l.hashed + state.bytes.value, l.contentLength + |state.bytes.value|, p + 1)
  }

  /** Hashes parts in order for as long as the next one is in memory. */
  ghost function HashReady(l: Ledger): (r: Ledger)
    ensures r.contentLength >= l.contentLength
    ensures !CanHash(r)
    decreases ReadyParts(l.states)
  {
    if CanHash(l) then HashReady(HashOne(l)) else l
  }

  /** Records a finished upload; the part leaves the ledger if it was hashed already. */
  ghost function MarkUploaded(l: Ledger, p: int): Ledger {
    if p !in l.states then l
    else if l.states[p].bytes.None? then l.(states := l.states - {p})
    else l.(states := l.states[p := l.states[p].(uploadDone := true)])
  }

  class PartTable {
    var states: map<int, ActivePartState>
    var hashed: Bytes
    var contentLength: u64
    var nextHashPart: int

    ghost function View(): Ledger
      reads this
    {
      Ledger(states, hashed, contentLength, nextHashPart)
    }

    constructor ()
      ensures View() == Ledger(map[], [], 0, 1)
    {
      states, hashed, contentLength, nextHashPart := map[], [], 0, 1;
    }

    method InsertPendingHash(p: int, bytes: Bytes)
      modifies this
      ensures View() == old(View()).(states := old(states)[p := ActivePartState(Some(bytes), false)])
    {
      states := states[p := ActivePartState(Some(bytes), false)];
    }

    /** Fails exactly when the hashed length would leave 64 bits. */
    method HashReadyRangeParts() returns (r: Result<(), TransferError>)
      modifies this
      ensures r.Ok? <==> HashReady(old(View())).contentLength <= U64_MAX
      ensures r.Ok? ==> View() == HashReady(old(View()))
      ensures r.Err? ==> r.error == LengthOverflow
    {
      while true
        invariant HashReady(View()) == HashReady(old(View()))
        decreases ReadyParts(states)
      {
        var partNumber := nextHashPart;
        if partNumber !in states || states[partNumber].bytes.None? {
          break;
        }
        ghost var before := View();
        var state := states[partNumber];
        var bytes := state.bytes.value;
        states := states[partNumber := state.(bytes := None)];
        hashed := hashed + bytes;
        var total := AddContentLength(contentLength, |bytes|);
        if total.Err? {
          return Err(LengthOverflow);
        }
        contentLength := total.value;
        nextHashPart := nextHashPart + 1;
        if state.uploadDone {
          states := states - {partNumber};
        }
        assert states == HashOne(before).states;
      }
      return Ok(());
    }

    method MarkRangePartUploaded(partNumber: int)
      modifies this
      ensures View() == MarkUploaded(old(View()), partNumber)
    {
      var removeState := false;
      if partNumber in states {
        states := states[partNumber := states[partNumber].(uploadDone := true)];
        removeState := states[partNumber].bytes.None?;
      }
      if removeState {
        states := states - {partNumber};
      }
      assert states == MarkUploaded(old(View()), partNumber).states;
    }
  }
}
