/**
 The list of pending conditional strategies in the browser's local storage
 (`storePendingConditionalStrategy`, client/src/lib/trade-submit.ts:724-756).
 */
module ConditionalStrategies {
  import opened Common
  import opened MarginNotes

  /** Stop loss and take profit of an order. */
  datatype Strategy = Strategy(stopLoss: Option<int>, takeProfit: Option<int>)

  datatype StoredStrategy = StoredStrategy(intent: Hex, strategy: Strategy)

  /** The stored text: none, a list, or something that does not parse to a list. */
  datatype StoredText = Nothing | List(strategies: seq<StoredStrategy>) | Garbled

  /** Whether one more strategy can be appended; an order without one writes nothing. */
  predicate Storable(strategy: Option<Strategy>, readable: bool, room: nat) {
    strategy.None? || (readable && room > 0)
  }

  class StrategyStore {
    var text: StoredText
    // How many more strategies `setItem` takes before the quota of the storage is reached.
    var room: nat

    constructor (text: StoredText, room: nat)
      ensures this.text == text && this.room == room
    {
      this.text, this.room := text, room;
    }

    predicate Readable()
      reads this
    {
      !text.Garbled?
    }

    function Strategies(): seq<StoredStrategy>
      reads this
    {
      if text.List? then text.strategies else []
    }

    /** Appends the strategy of an accepted intent, or throws and leaves the list as it was. */
    method Append(intent: Hex, strategy: Option<Strategy>) returns (ok: bool)
      modifies this
      ensures ok <==> Storable(strategy, old(Readable()), old(room))
      ensures Readable() == old(Readable())
      ensures ok && strategy.Some? ==>
        Strategies() == old(Strategies()) + [StoredStrategy(intent, strategy.value)] && room == old(room) - 1
      ensures !ok || strategy.None? ==> text == old(text) && room == old(room)
    {
      if strategy.None? { return true; }
      if text.Garbled? || room == 0 { return false; }
      text := List(Strategies() + [StoredStrategy(intent, strategy.value)]);
      room := room - 1;
      return true;
    }
  }

  // ----- Where a submission stops -----

  /** What the proof service and the server answer to one fragment. */
  datatype Answer =
    | Refused(prepared: bool, stale: bool) // before or after the pending change note was saved
    | Taken

  /** The fragment that stopped a submission, and whether its source is locked. */
  datatype Stop = Stop(index: nat, locked: bool, stale: bool)

  /** The first fragment from k on that is refused, or whose strategy cannot be stored after its source was locked. */
  function FirstStop(answers: seq<Answer>, strategy: Option<Strategy>, readable: bool, room: nat, k: nat): (stop: Option<Stop>)
    requires k <= |answers|
    ensures stop.Some? ==> k <= stop.value.index < |answers|
    decreases |answers| - k
  {
    if k == |answers| then None
    else match answers[k]
      case Refused(prepared, stale) => Some(Stop(k, false, stale))
      case Taken =>
        if !Storable(strategy, readable, room) then Some(Stop(k, true, false))
        else FirstStop(answers, strategy, readable, if strategy.Some? then room - 1 else room, k + 1)
  }

  predicate StopsLocked(answers: seq<Answer>, strategy: Option<Strategy>, readable: bool, room: nat, k: nat)
    requires k <= |answers|
  {
    var stop := FirstStop(answers, strategy, readable, room, k);
    stop.Some? && stop.value.locked
  }

  /** Whether every fragment of an order finds its strategy storable. */
  predicate AllStorable(count: nat, strategy: Option<Strategy>, readable: bool, room: nat) {
    strategy.None? || count == 0 || (readable && room >= count)
  }

  lemma {:induction false} NeverLocked(answers: seq<Answer>, strategy: Option<Strategy>, readable: bool, room: nat, k: nat)
    requires k <= |answers| && AllStorable(|answers| - k, strategy, readable, room)
    ensures !StopsLocked(answers, strategy, readable, room, k)
    decreases |answers| - k
  {
    if k < |answers| && answers[k].Taken? {
      NeverLocked(answers, strategy, readable, if strategy.Some? then room - 1 else room, k + 1);
    }
  }

  lemma {:induction false} TakenLocks(answers: seq<Answer>, strategy: Option<Strategy>, readable: bool, room: nat, k: nat)
    requires k <= |answers| && forall i | k <= i < |answers| :: answers[i].Taken?
    requires !AllStorable(|answers| - k, strategy, readable, room)
    ensures StopsLocked(answers, strategy, readable, room, k)
    decreases |answers| - k
  {
    if Storable(strategy, readable, room) {
      TakenLocks(answers, strategy, readable, room - 1, k + 1);
    }
  }

  /**
   No answers can stop an order after the lock of a source exactly if it has no strategy,
   or the list is readable and takes one strategy for every fragment.
   */
  lemma NeverLockedExactly(count: nat, strategy: Option<Strategy>, readable: bool, room: nat)
    ensures (forall answers: seq<Answer> | |answers| == count :: !StopsLocked(answers, strategy, readable, room, 0))
       <==> AllStorable(count, strategy, readable, room)
  {
    if AllStorable(count, strategy, readable, room) {
      forall answers: seq<Answer> | |answers| == count ensures !StopsLocked(answers, strategy, readable, room, 0) {
        NeverLocked(answers, strategy, readable, room, 0);
      }
    } else {
      var answers := seq(count, i => Taken);
      TakenLocks(answers, strategy, readable, room, 0);
    }
  }
}
