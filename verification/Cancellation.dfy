/**
  `multicast_cancellation`: a group of child signals behind a shared vector that is made
  when the first child joins.
 */
module Cancellation {
  import opened Sequences
  import opened Registry

  datatype CancellationType = Terminal | Partial | Total

  /** The shared vector of a group. Its history is that of its children. */
  class SignalList {
    var items: seq<Signal>
    ghost var history: seq<Change<Signal>>

    ghost predicate Valid()
      reads this
    {
      Lifetimes(history) && items == Registered(history)
    }

    constructor ()
      ensures Valid() && items == [] && history == []
    {
      items, history := [], [];
    }
  }

  class MulticastCancellation {
    var signals: SignalList?

    ghost predicate Valid()
      reads this, signals
    {
      signals != null ==> signals.Valid()
    }

    constructor ()
      ensures Valid() && signals == null
    {
      signals := null;
    }

    /** get(): makes the vector on first use. */
    method Get() returns (list: SignalList)
      requires Valid()
      modifies this
      ensures Valid() && signals == list
      ensures if old(signals) == null then fresh(list) && list.history == [] else list == old(signals)
    {
      if signals == null {
        signals := new SignalList();
      }
      list := signals;
    }

    /** emit(type): nobody if no child ever joined, else every registered child once. */
    method Emit(t: CancellationType)
      requires Valid()
      modifies if signals == null then {} else set sig | sig in signals.items
      ensures Valid() && signals == old(signals)
      ensures signals != null ==> forall sig | sig in signals.items :: sig.received == old(sig.received) + [t]
      ensures signals != null ==> signals.items == Survivors(Built(signals.history), signals.history)
    {
      if signals == null {
        return;
      }
      RegistryIsTheLiving(signals.history);
      EmitAll(signals, t);
    }

    /** emit(executor, type): captures the vector there is now, to be run later. */
    method Request(t: CancellationType) returns (request: EmitSignal)
      requires Valid()
      ensures fresh(request) && request.signals == signals && request.t == t
    {
      request := new EmitSignal(t, signals);
    }
  }

  /** The function object that an executor-aware emit hands to the executor. */
  class EmitSignal {
    const t: CancellationType
    const signals: SignalList?

    constructor (t: CancellationType, signals: SignalList?)
      ensures this.t == t && this.signals == signals
    {
      this.t, this.signals := t, signals;
    }

    /** Reaches, once each, the children registered when it runs, if the group had a vector
        when it was requested, and nobody otherwise. */
    method Run()
      requires signals != null ==> signals.Valid()
      modifies if signals == null then {} else set sig | sig in signals.items
      ensures signals != null ==> forall sig | sig in signals.items :: sig.received == old(sig.received) + [t]
      ensures signals != null ==> signals.items == Survivors(Built(signals.history), signals.history)
    {
      if signals == null {
        return;
      }
      RegistryIsTheLiving(signals.history);
      EmitAll(signals, t);
    }
  }

  /** A child signal; `received` is what its slot has been told. */
  class Signal {
    const signals: SignalList
    var received: seq<CancellationType>

    constructor (multicast: MulticastCancellation)
      requires multicast.Valid()
      modifies multicast, if multicast.signals == null then {} else {multicast.signals}
      ensures multicast.Valid() && multicast.signals == signals && received == []
      ensures signals.history ==
        (if old(multicast.signals) == null then [] else old(multicast.signals.history)) + [Construct(this)]
    {
      var list := multicast.Get();
      signals := list;
      received := [];
      new;
      ghost var h := list.history;
      if this in Built(h) {
        BuiltByChange(h, this);
        assert false;
      }
      list.items := list.items + [this];
      list.history := list.history + [Construct(this)];
      assert list.history[..|h|] == h;
    }

    method Emit(t: CancellationType)
      modifies this
      ensures received == old(received) + [t]
    {
      received := received + [t];
    }

    /** The destructor: every entry equal to this one is erased. */
    method Destruct()
      requires signals.Valid() && this in signals.items
      modifies signals
      ensures signals.Valid() && this !in signals.items
      ensures forall c | c in old(signals.items) && c != this :: c in signals.items
      ensures signals.history == old(signals.history) + [Destroy(this)]
    {
      var kept: seq<Signal> := [];
      for k := 0 to |signals.items|
        invariant kept + Erase(signals.items[k..], this) == Erase(signals.items, this)
      {
        assert signals.items[k..][0] == signals.items[k] && signals.items[k..][1..] == signals.items[k + 1..];
        if signals.items[k] != this {
          kept := kept + [signals.items[k]];
        }
      }
      DestroyedLast(signals.history, this);
      signals.items := kept;
      signals.history := signals.history + [Destroy(this)];
    }
  }

  /** The loop of both emits. */
  method EmitAll(list: SignalList, t: CancellationType)
    requires list.Valid() && Distinct(list.items)
    modifies set sig | sig in list.items
    ensures forall sig | sig in list.items :: sig.received == old(sig.received) + [t]
  {
    for k := 0 to |list.items|
      invariant list.Valid() && list.items == old(list.items)
      invariant forall i :: 0 <= i < k ==> list.items[i].received == old(list.items[i].received) + [t]
      invariant forall i :: k <= i < |list.items| ==> list.items[i].received == old(list.items[i].received)
    {
      list.items[k].Emit(t);
    }
  }
}
