/**
  The suspend/complete handshake, step by step, for any number of coroutines, suspensions
  and owners at once.

  Every suspension is run by two sides that may be on different threads: the awaiter
  (`await_suspend`) and the completion handler. One event is one exchange of the atomic
  cell, one access to a field of the awaitable or of the frame, one resume or one destroy;
  events of all sides of all suspensions interleave freely. An access to an awaitable whose
  coroutine has already been resumed or destroyed is a fault, because the awaitable lives
  in the coroutine frame and may be gone; so are a second resume or destroy, a second
  result and releasing a strong reference that is not held.
 */
module Handshake {
  import opened Options
  import opened Rendezvous

  type FrameId = nat
  type OwnerId = nat
  type OpId = nat

  datatype Status = Running | Suspended(op: OpId) | Gone

  /** A coroutine frame: where it stands, and its strong reference to its owner. */
  datatype FrameState = FrameState(status: Status, shared: Option<OwnerId>)

  /** Where await_suspend is. */
  datatype Awaiter =
    | Initiating    // running the initiating function
    | Catching      // the initiating function threw: store the exception
    | Saving        // saved_shared_this = move(frame_.shared_this)
    | Arriving      // state_.exchange(awaiting)
    | PuttingBack   // frame_.shared_this = move(saved_shared_this)
    | Resuming      // return h
    | Destroying    // h.destroy()
    | Leaving       // ~saved_shared_this
    | Returned

  /** Where the completion handler is. */
  datatype Handler =
    | Pending           // held by the asynchronous operation
    | Storing(v: int)   // context_.set_value
    | Completing        // state_.exchange(completed)
    | Locking           // frame().shared_this = weak_this.lock()
    | HandlerResuming   // h.resume()
    | HandlerDestroying // h.destroy()
    | Dropping          // destructor: state_.exchange(destroyed)
    | Finished

  datatype Result = Value(v: int) | Failure

  datatype Deed = AwaiterResumed | AwaiterDestroyed | HandlerResumed | HandlerDestroyed

  /** One suspension. `juggles` tells the awaitables of operations and timers, which store
      a result and hand the owner over, from the plain hops, which do neither. */
  datatype Op = Op(
    frame: FrameId, juggles: bool,
    owner: Option<OwnerId>,   // the frame's owner when it suspended: weak_this_, restore_shared_this_
    cell: Cell, awaiter: Awaiter, handler: Handler,
    saved: Option<OwnerId>,   // the awaiter's local saved_shared_this
    result: Option<Result>,
    deeds: seq<Deed>,         // what was done to the coroutine, in order
    dropped: bool)            // history: the handler was destroyed without running

  datatype State = State(
    frames: map<FrameId, FrameState>,
    ops: map<OpId, Op>,
    strong: map<OwnerId, nat>,    // reference counts; an owner whose count is 0 is dead
    external: map<OwnerId, nat>,  // strong references held outside the coroutines
    fault: bool)

  datatype Event =
    // the environment
    | NewOwner(o: OwnerId)
    | Share(o: OwnerId)
    | Unshare(o: OwnerId)
    | Spawn(f: FrameId, owner: Option<OwnerId>)  // promise_frame(this_, ...)
    | Suspend(i: OpId, f: FrameId, juggles: bool)
    | Finish(f: FrameId)
    | Initiated(i: OpId)
    | Throws(i: OpId)
    | Invoke(i: OpId, v: int)
    | Drop(i: OpId)
    // the next step of either side
    | AwaiterStep(i: OpId)
    | HandlerStep(i: OpId)

  const INITIAL := State(map[], map[], map[], map[], false)

  predicate Enabled(s: State, e: Event) {
    && !s.fault
    && match e
       case NewOwner(o) => o !in s.strong
       case Share(o) => o in s.external && o in s.strong && s.strong[o] > 0 // also from inside a coroutine
       case Unshare(o) => o in s.external && s.external[o] > 0
       case Spawn(f, o) => f !in s.frames && (o.Some? ==> o.value in s.strong && s.strong[o.value] > 0)
       case Suspend(i, f, _) => i !in s.ops && f in s.frames && s.frames[f].status == Running
       case Finish(f) => f in s.frames && s.frames[f].status == Running
       case Initiated(i) => i in s.ops && s.ops[i].awaiter == Initiating
       case Throws(i) => i in s.ops && s.ops[i].awaiter == Initiating && s.ops[i].juggles
       case Invoke(i, _) => i in s.ops && s.ops[i].handler == Pending
       case Drop(i) => i in s.ops && s.ops[i].handler == Pending
       case AwaiterStep(i) => i in s.ops && s.ops[i].awaiter !in {Initiating, Returned}
       case HandlerStep(i) => i in s.ops && s.ops[i].handler !in {Pending, Finished}
  }

  /** An initiating function that throws has destroyed its copy of the handler, unused. */
  predicate Polite(s: State, e: Event) {
    e.Throws? && e.i in s.ops ==> s.ops[e.i].handler == Finished && s.ops[e.i].cell == Destroyed
  }

  // ----- what a suspension becomes by its own events -----

  /** A step of await_suspend; `shared` is the frame's reference. */
  function NextByAwaiter(op: Op, shared: Option<OwnerId>): Op {
    match op.awaiter
    case Catching => op.(result := Some(Failure), awaiter := Resuming)
    case Saving => op.(saved := shared, awaiter := Arriving)
    case Arriving => op.(cell := Awaiting, awaiter :=
      match OnAwaiting(op.cell)
      case MayResume => if op.juggles then PuttingBack else Resuming
      case MustDestroy => Destroying
      case Nothing => if op.juggles then Leaving else Returned)
    case PuttingBack => op.(saved := None, awaiter := Resuming)
    case Resuming => op.(awaiter := Returned, deeds := op.deeds + [AwaiterResumed])
    case Destroying =>
      op.(awaiter := if op.juggles then Leaving else Returned, deeds := op.deeds + [AwaiterDestroyed])
    case Leaving => op.(saved := None, awaiter := Returned)
    case _ => op
  }

  /** A step of the handler; `alive` says whether weak_this_ can still be locked. */
  function NextByHandler(op: Op, alive: bool): Op {
    match op.handler
    case Storing(v) => op.(result := Some(Value(v)), handler := Completing)
    case Completing => op.(cell := Completed, handler :=
      if OnCompleted(op.cell) != MayResume then Finished
      else if op.juggles && op.owner.Some? then Locking
      else HandlerResuming)
    case Locking => op.(handler := if alive then HandlerResuming else HandlerDestroying)
    case HandlerResuming => op.(handler := Finished, deeds := op.deeds + [HandlerResumed])
    case HandlerDestroying => op.(handler := Finished, deeds := op.deeds + [HandlerDestroyed])
    case Dropping =>
      op.(cell := Destroyed, handler := if OnDropped(op.cell) == MustDestroy then HandlerDestroying else Finished)
    case _ => op
  }

  function NextOp(op: Op, e: Event, shared: Option<OwnerId>, alive: bool): Op {
    match e
    case Initiated(_) => op.(awaiter := if op.juggles then Saving else Arriving)
    case Throws(_) => op.(awaiter := Catching)
    case Invoke(_, v) => op.(handler := if op.juggles then Storing(v) else Completing)
    case Drop(_) => op.(handler := Dropping, dropped := true)
    case AwaiterStep(_) => NextByAwaiter(op, shared)
    case HandlerStep(_) => NextByHandler(op, alive)
    case _ => op
  }

  // ----- accesses -----

  /** The awaitable of i, and the frame it lives in, are still there. */
  predicate Present(s: State, i: OpId) {
    i in s.ops && s.ops[i].frame in s.frames && s.frames[s.ops[i].frame].status == Suspended(i)
  }

  predicate Alive(s: State, o: Option<OwnerId>) {
    o.Some? && o.value in s.strong && s.strong[o.value] > 0
  }

  function Shared(s: State, f: FrameId): Option<OwnerId> {
    if f in s.frames then s.frames[f].shared else None
  }

  function Fail(s: State): State { s.(fault := true) }

  function SetFrame(s: State, f: FrameId, fr: FrameState): State { s.(frames := s.frames[f := fr]) }

  /** Dropping a strong reference; the last one kills the owner. */
  function Release(s: State, o: Option<OwnerId>): State {
    if o.None? then s
    else if !Alive(s, o) then Fail(s)
    else s.(strong := s.strong[o.value := s.strong[o.value] - 1])
  }

  function Acquire(s: State, o: OwnerId): State
    requires o in s.strong
  {
    s.(strong := s.strong[o := s.strong[o] + 1])
  }

  /** frame.shared_this = x, where x already holds its reference. */
  function AssignShared(s: State, f: FrameId, x: Option<OwnerId>): State
    requires f in s.frames
  {
    SetFrame(Release(s, s.frames[f].shared), f, s.frames[f].(shared := x))
  }

  /** Destroying a coroutine drops the reference in its frame. */
  function Tear(s: State, f: FrameId): State
    requires f in s.frames
  {
    SetFrame(Release(s, s.frames[f].shared), f, FrameState(Gone, None))
  }

  // ----- steps -----

  /** The next step of await_suspend. All but the last one access the awaitable or its frame. */
  function AwaiterNext(s: State, i: OpId): State
    requires i in s.ops
  {
    var op, f := s.ops[i], s.ops[i].frame;
    var s1 := s.(ops := s.ops[i := NextByAwaiter(op, Shared(s, f))]);
    if op.awaiter == Leaving then Release(s1, op.saved)
    else if !Present(s, i) then Fail(s)
    else match op.awaiter
      case Catching => if op.result.Some? then Fail(s) else s1
      case Saving => SetFrame(s1, f, s.frames[f].(shared := None))
      case PuttingBack => AssignShared(s1, f, op.saved)
      case Resuming =>
        // the coroutine goes on and reads the result
        if op.juggles && op.result.None? then Fail(s) else SetFrame(s1, f, s.frames[f].(status := Running))
      case Destroying => Tear(s1, f)
      case _ => s1
  }

  /** The next step of the completion handler. */
  function HandlerNext(s: State, i: OpId): State
    requires i in s.ops
  {
    var op, f := s.ops[i], s.ops[i].frame;
    var s1 := s.(ops := s.ops[i := NextByHandler(op, Alive(s, op.owner))]);
    if !Present(s, i) then Fail(s)
    else match op.handler
      case Storing(_) => if op.result.Some? then Fail(s) else s1
      case Locking =>
        if Alive(s, op.owner) then AssignShared(Acquire(s1, op.owner.value), f, op.owner)
        else AssignShared(s1, f, None)
      case HandlerResuming =>
        if op.juggles && op.result.None? then Fail(s) else SetFrame(s1, f, s.frames[f].(status := Running))
      case HandlerDestroying => Tear(s1, f)
      case _ => s1
  }

  function Step(s: State, e: Event): State
    requires Enabled(s, e)
  {
    match e
    case NewOwner(o) => s.(strong := s.strong[o := 1], external := s.external[o := 1])
    case Share(o) =>
      if o !in s.strong then Fail(s)
      else Acquire(s.(external := s.external[o := s.external[o] + 1]), o)
    case Unshare(o) => Release(s.(external := s.external[o := s.external[o] - 1]), Some(o))
    case Spawn(f, o) =>
      SetFrame(if o.Some? then Acquire(s, o.value) else s, f, FrameState(Running, o))
    case Suspend(i, f, juggles) =>
      var op := Op(f, juggles, s.frames[f].shared, Initializing, Initiating, Pending, None, None, [], false);
      SetFrame(s.(ops := s.ops[i := op]), f, s.frames[f].(status := Suspended(i)))
    case Finish(f) => Tear(s, f)
    case AwaiterStep(i) => AwaiterNext(s, i)
    case HandlerStep(i) => HandlerNext(s, i)
    case _ => s.(ops := s.ops[e.i := NextOp(s.ops[e.i], e, None, true)])
  }

  // ----- runs -----


  predicate LegalPolite(s: State, es: seq<Event>)
    decreases |es|
  {
    |es| > 0 ==> Enabled(s, es[0]) && Polite(s, es[0]) && LegalPolite(Step(s, es[0]), es[1..])
  }

  function Reached(s: State, es: seq<Event>): State
    requires LegalPolite(s, es)
    decreases |es|
  {
    if |es| == 0 then s else Reached(Step(s, es[0]), es[1..])
  }
}
