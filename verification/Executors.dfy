/**
  Executors as the coroutine frame sees them, and the frame's cancellation slots.
 */
module Executors {
  import opened Options

  /** An execution context, or a strand that serialises handlers over another executor. */
  datatype Executor = Context(id: nat) | Strand(id: nat, inner: Executor)

  /** A handler that an executor runs from its queue is inside the executor and, for a
      strand, inside what the strand runs on. */
  function Around(e: Executor): (s: set<Executor>)
    ensures e in s
  {
    match e
    case Context(_) => {e}
    case Strand(_, inner) => {e} + Around(inner)
  }

  /** promise_frame::set_executor. `typed` says that the static type still has
      get_inner_executor: a strand wrapped in any_io_executor has lost it. */
  function InnerOf(e: Executor, typed: bool): Option<Executor> {
    if typed && e.Strand? then Some(e.inner) else None
  }

  /** promise_frame::get_executor: the frame's own executor, else what caller_executor points at. */
  function Effective(own: Option<Executor>, pointee: Option<Executor>): Option<Executor> {
    if own.Some? then own else pointee
  }

  /** How final_awaitable hands control back to the caller. */
  datatype Route =
    | Transfer                 // return the caller's handle: same stack
    | ByDispatch(to: Executor) // dispatch with the handshake
    | ByDefer(to: Executor)    // always queued
    | NullExecutor             // dispatch or defer to an empty any_io_executor

  /** The branches of final_awaitable::await_suspend. */
  function FinalRoute(own: Option<Executor>, inner: Option<Executor>,
                      selfPointer: bool, pointee: Option<Executor>): Route
  {
    if !selfPointer && own.Some? then
      if pointee.None? then NullExecutor
      else if inner.None? then ByDispatch(pointee.value)
      else ByDefer(pointee.value)
    else if inner.Some? then ByDefer(inner.value)
    else Transfer
  }

  /** What the branches amount to, when `nearest` is the nearest executor up the chain: a
      coroutine that was given an executor goes back to its caller's through a queue if it
      may have to leave a strand, and by dispatch if not. */
  function HandBack(own: Option<Executor>, inner: Option<Executor>, nearest: Option<Executor>): Route {
    match nearest
    case Some(e) => if own.None? then Transfer else if inner.Some? then ByDefer(e) else ByDispatch(e)
    case None => if inner.Some? then ByDefer(inner.value) else Transfer
  }

  /** A cancellation slot: not connected, a signal's slot, or the slot of the internal
      signal that a frame's cancellation state puts behind a parent slot. */
  datatype Slot = Unconnected | OfSignal(id: nat) | OfState(frame: nat, parent: Slot)

  /** cancellation_state{slot}.slot(): connected exactly when the parent is. */
  function StateSlot(frame: nat, parent: Slot): Slot {
    if parent == Unconnected then Unconnected else OfState(frame, parent)
  }

  /** The co_await-able requests that touch a frame's slot or cancellation state. */
  datatype SlotRequest = Install(slot: Slot) | Reset | ResetWith(slot: Slot)

  /** promise_frame::get_cancellation_slot. */
  function EffectiveSlot(slot: Slot, state: Slot): Slot {
    if state != Unconnected then state else slot
  }
}
