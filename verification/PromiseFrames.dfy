/**
  `promise_frame` as the object it is: fields reassigned by awaits, hops, cancellation
  requests and final suspension, and a pointer to another frame's executor.
 */
module PromiseFrames {
  import opened Options
  import opened Executors
  import opened Coroutines
  import opened Outcomes

  /** The executor of the first frame that has one. */
  ghost function Nearest(frames: seq<PromiseFrame>): Option<Executor>
    reads frames
  {
    if frames == [] then None
    else if frames[0].executor.Some? then frames[0].executor
    else Nearest(frames[1..])
  }

  /** An object that coroutines may be members of, with its strong reference count. */
  class Owner {
    var strong: nat

    constructor ()
      ensures strong == 1
    {
      strong := 1;
    }

    /** weak_ptr::lock. */
    method Lock() returns (locked: bool)
      modifies this
      ensures locked <==> old(strong) > 0
      ensures strong == if locked then old(strong) + 1 else 0
    {
      locked := strong > 0;
      if locked {
        strong := strong + 1;
      }
    }

    method Release()
      requires strong > 0
      modifies this
      ensures strong == old(strong) - 1
    {
      strong := strong - 1;
    }
  }

  class PromiseFrame {
    const id: nat
    const coroutine: Coroutine          // the coroutine this frame belongs to
    const result: Outcome<int>
    const caller: UniqueHandle
    var sharedThis: Owner?              // a strong reference
    var executor: Option<Executor>
    var inner: Option<Executor>
    var callerExecutor: PromiseFrame    // whose `executor` the pointer caller_executor refers to
    var slot: Slot
    var state: Slot
    ghost var ancestors: seq<PromiseFrame>  // who awaits this frame, nearest first

    ghost predicate Valid()
      reads this, ancestors
    {
      && this !in ancestors
      && (callerExecutor == this ==> Nearest(ancestors).None?)
      && (callerExecutor != this ==>
            callerExecutor in ancestors && callerExecutor.executor.Some?
            && callerExecutor.executor == Nearest(ancestors))
      && (inner.Some? ==> executor.Some?)
    }

    constructor (id: nat, coroutine: Coroutine)
      ensures Valid() && ancestors == [] && executor.None? && callerExecutor == this
      ensures slot == Unconnected && state == Unconnected && sharedThis == null
      ensures this.id == id && this.coroutine == coroutine
      ensures fresh(caller) && caller.handle == null
      ensures fresh(result) && result.Valid() && result.Held() == Unset && result.Built() == 0
      ensures fresh(result.value) && fresh(result.exception)
    {
      this.id, this.coroutine := id, coroutine;
      result := new Outcome<int>();
      caller := new UniqueHandle(null);
      executor, inner, callerExecutor := None, None, this;
      slot, state, ancestors, sharedThis := Unconnected, Unconnected, [], null;
    }

    /** get_executor() follows one pointer, and finds the nearest executor up the chain. */
    function GetExecutor(): (e: Option<Executor>)
      reads this, callerExecutor, ancestors
      requires Valid()
      ensures e == Nearest([this] + ancestors)
    {
      assert ([this] + ancestors)[1..] == ancestors;
      Effective(executor, callerExecutor.executor)
    }

    function GetCancellationSlot(): Slot
      reads this
    {
      EffectiveSlot(slot, state)
    }

    method SetExecutor(e: Executor, typed: bool)
      requires Valid()
      modifies this`executor, this`inner
      ensures Valid()
      ensures executor == Some(e) && inner == if typed && e.Strand? then Some(e.inner) else None
      ensures GetExecutor() == Some(e)
    {
      if typed && e.Strand? {
        inner := Some(e.inner);
      } else {
        inner := None;
      }
      executor := Some(e);
    }

    /** The co_await-able requests of the frame's cancellation slot and state. */
    method Request(r: SlotRequest)
      requires Valid()
      modifies this`slot, this`state
      ensures Valid() && GetExecutor() == old(GetExecutor())
      ensures match r
              case Install(s) => slot == s && GetCancellationSlot() == s
              case Reset =>
                && slot == old(slot)
                && GetCancellationSlot() == (if slot == Unconnected then Unconnected else OfState(id, slot))
              case ResetWith(s) =>
                && slot == s
                && GetCancellationSlot() == (if s == Unconnected then Unconnected else OfState(id, s))
    {
      match r {
        case Install(s) =>
          slot := s;
          state := Unconnected;
        case Reset =>
          state := StateSlot(id, slot);
        case ResetWith(s) =>
          slot := s;
          state := StateSlot(id, slot);
      }
    }

    /** coro_awaitable::await_suspend on the callee's frame. The callee, which has not run
        yet, owns its suspended caller and inherits its executor and its slot. */
    method AwaitedBy(awaiting: PromiseFrame)
      requires Valid() && ancestors == [] && executor.None? && callerExecutor == this
      requires awaiting.Valid() && awaiting != this && this !in awaiting.ancestors
      requires caller.handle == null && awaiting.coroutine.Alive()
      modifies this, caller
      ensures Valid() && ancestors == [awaiting] + awaiting.ancestors
      ensures caller.Valid() && caller.handle == awaiting.coroutine
      ensures GetExecutor() == old(awaiting.GetExecutor())
      ensures slot == old(awaiting.GetCancellationSlot())
      ensures executor == old(executor) && state == old(state)
    {
      ghost var up := [awaiting] + awaiting.ancestors;
      caller.Reset(awaiting.coroutine);
      if awaiting.executor.Some? {
        callerExecutor := awaiting;
      } else if awaiting.callerExecutor.executor.Some? {
        callerExecutor := awaiting.callerExecutor;
      }
      slot := awaiting.GetCancellationSlot();
      ancestors := up;
    }

    /** final_awaitable::await_suspend: the caller is no longer owned by this frame, and is
        resumed the way that the nearest executor up the chain asks for. */
    method FinalSuspend() returns (route: Route, h: Coroutine?)
      requires Valid() && caller.Valid() && caller.handle != null
      modifies caller
      ensures caller.handle == null && h == old(caller.handle)
      ensures route == HandBack(executor, inner, Nearest(ancestors))
    {
      h := caller.Release();
      if callerExecutor != this && executor.Some? {
        if inner.None? {
          route := ByDispatch(callerExecutor.executor.value);
        } else {
          route := ByDefer(callerExecutor.executor.value);
        }
      } else if inner.Some? {
        route := ByDefer(inner.value);
      } else {
        route := Transfer;
      }
    }

    /** The frame's destructor, when its coroutine is destroyed: a caller that is still owned
        is destroyed in turn, a released one is not, and nothing of the result is left. */
    method Destruct()
      requires coroutine.Alive() && result.Valid() && caller.Valid() && caller.handle != coroutine
      modifies coroutine, result, result.value, result.exception, caller, caller.handle
      ensures coroutine.fate == Gone && caller.handle == null
      ensures old(caller.handle) != null ==> old(caller.handle).fate == Gone
      ensures result.Torn() == result.Built() == old(result.Built())
    {
      result.Destroy();
      caller.Destruct();
      coroutine.Destroy();
    }

    /** init_await::awaitable::await_resume on the finished root: its result, which is set, is
        moved to the completion handler, whatever the handler's storage held, and the root
        goes. */
    method Deliver(junk: What) returns (delivered: Outcome<int>)
      requires coroutine.Alive() && result.Valid() && result.what != What.Nothing
      requires caller.Valid() && caller.handle != coroutine
      modifies coroutine, result, result.value, result.exception, caller, caller.handle
      ensures fresh(delivered) && delivered.Valid() && delivered.Held() == old(result.Held())
      ensures coroutine.fate == Gone && caller.handle == null
      ensures old(caller.handle) != null ==> old(caller.handle).fate == Gone
      ensures result.Torn() == result.Built() == old(result.Built())
    {
      delivered := new Outcome<int>.Move(result, junk);
      Destruct();
    }

    /** coro_awaitable::await_resume on a finished callee: its result is taken, and the
        callee goes with every member its result ever had. Final suspension has released the
        caller, so that the callee's destructor finds none to destroy. */
    method AwaitResume() returns (r: Fetched<int>)
      requires coroutine.Alive() && result.Valid() && (result.Held().Ok? || result.Held().Threw?)
      requires caller.Valid() && caller.handle != coroutine
      modifies coroutine, result, result.value, result.exception, caller, caller.handle
      ensures coroutine.fate == Gone && caller.handle == null
      ensures old(caller.handle) != null ==> old(caller.handle).fate == Gone
      ensures result.Torn() == result.Built() == old(result.Built())
      ensures r == if old(result.Held()).Ok? then Returned(old(result.Held()).v) else Thrown(old(result.Held()).x)
    {
      r := result.Get();
      Destruct();
    }
  }
}
