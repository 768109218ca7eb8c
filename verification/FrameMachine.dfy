/**
  One task of the coroutine runtime: a heap of promise frames linked leaf to caller by
  owning handles, the trampoline of `init_await` at the root, and whatever is about to
  move the task next (a running body, a handshake in progress, a queued handler).

  Threads, executors and other tasks are the environment: they choose which event happens
  when, on which stack a handler runs, whether an operation completes before or after its
  awaiter has finished suspending, and whether a handler is run or dropped. Every access
  to a frame that is not in the heap, every second assignment of an outcome and every
  read of an unset one is a fault, as it is in the C++ program.
 */
module FrameMachine {
  import opened Options
  import opened Executors
  import opened Programs
  import opened Rendezvous

  /** Names of frames in allocation order; names are never reused. */
  type Id = nat
  const TRAMPOLINE: Id := 0
  const ROOT: Id := 1

  /** The slot that a frame was last asked to use, and whether with a state behind it. */
  datatype Past = Past(installed: Option<Slot>, armed: bool)

  datatype Frame =
    | Trampoline(callee: Id)      // init_await's detached frame and its raw callee_ handle
    | Frame(
        code: Code, store: Store, kont: Kont, // where the body is
        wait: Option<string>,                 // local that receives the awaited value
        op: Option<Outcome>,                  // result_ of the pending deferred_awaitable
        awaits: Option<Id>,                   // raw callee_ of the pending coro_awaitable
        result: Option<Outcome>,              // promise_frame_base::result
        caller: Option<Id>,                   // owning
        executor: Option<Executor>,
        inner: Option<Executor>,
        source: Id,                           // caller_executor points at this frame's executor
        slot: Slot, state: Slot,
        past: Past)                           // history; no step reads it

  datatype Activity =
    | Unstarted                                          // the deferred operation owns ROOT
    | Executing(f: Id, inside: set<Executor>)            // f's body runs on this stack
    | Meeting(waiter: Id, resumes: Id,                   // whose awaitable holds the cell; whom it resumes
              brings: Option<Outcome>,                   // what an asynchronous operation will yield
              target: Option<Executor>,                  // the handler's associated executor
              cell: Cell, home: set<Executor>)           // the initiator's stack
    | Queued(resumes: Id, on: Executor)                  // a plain dispatch_handler<> in a queue
    | Over

  datatype State = State(
    h: map<Id, Frame>, act: Activity, next: Id,
    delivered: Option<Outcome>,   // what the trampoline passed to the completion handler
    freed: seq<Id>,               // frames destroyed so far, in order
    leaky: bool,                  // a handler of a final hop was dropped
    fault: bool)

  datatype Event =
    | Start(inside: set<Executor>)
    | DropUnstarted
    | Act
    | ActImmediately                       // the awaited operation settles without suspending
    | InitiatorArrives                     // resume_awaiting
    | HandlerRuns(inside: set<Executor>)   // resume_completed
    | HandlerOrphaned                      // as HandlerRuns, but the owner is gone
    | HandlerDropped                       // ~completion_handler, ~dispatch_handler
    | QueueRuns(inside: set<Executor>)
    | QueueDropped

  // ----- frames -----

  function Fresh(self: Id, code: Code, store: Store): Frame {
    Frame(code, store, Stop, None, None, None, None, None, None, None, self,
          Unconnected, Unconnected, Past(None, false))
  }

  function Init(code: Code, store: Store): State {
    State(map[ROOT := Fresh(ROOT, code, store)], Unstarted, ROOT + 1, None, [], false, false)
  }

  predicate InHeap(h: map<Id, Frame>, f: Id) {
    f in h && h[f].Frame?
  }

  /** Whether f and the frame whose executor its caller_executor points at are there. */
  predicate Readable(h: map<Id, Frame>, f: Id) {
    InHeap(h, f) && InHeap(h, h[f].source)
  }

  function GetExecutor(h: map<Id, Frame>, f: Id): Option<Executor>
    requires Readable(h, f)
  {
    Effective(h[f].executor, h[h[f].source].executor)
  }

  /** The frame whose `executor` field get_executor() returns a reference to. */
  function Referent(h: map<Id, Frame>, f: Id): Id
    requires InHeap(h, f)
  {
    if h[f].executor.Some? then f else h[f].source
  }

  function Settle(fr: Frame, o: Outcome): Frame
    requires fr.Frame?
  {
    var fr' := if o.Val? && fr.wait.Some? then fr.(store := fr.store[fr.wait.value := o.v])
               else if o.Exc? then fr.(code := Throw(_ => o.x))
               else fr;
    fr'.(wait := None, op := None, awaits := None)
  }

  function SetExecutor(fr: Frame, e: Executor, typed: bool): Frame
    requires fr.Frame?
  {
    fr.(executor := Some(e), inner := InnerOf(e, typed))
  }

  function Request(f: Id, fr: Frame, r: SlotRequest): Frame
    requires fr.Frame?
  {
    match r
    case Install(s) => fr.(slot := s, state := Unconnected, past := fr.past.(installed := Some(s), armed := false))
    case Reset => fr.(state := StateSlot(f, fr.slot), past := fr.past.(armed := true))
    case ResetWith(s) => fr.(slot := s, state := StateSlot(f, s), past := fr.past.(installed := Some(s), armed := true))
  }

  // ----- the effect of each kind of step -----

  function Fail(s: State): State { s.(fault := true) }

  /** coroutine_handle::destroy: the frame's own `caller` handle destroys the caller in turn. */
  function DestroyChain(s: State, f: Id): State
    decreases s.h.Keys
  {
    if f !in s.h then Fail(s)
    else
      var s' := s.(h := s.h - {f}, freed := s.freed + [f]);
      if s.h[f].Frame? && s.h[f].caller.Some? then DestroyChain(s', s.h[f].caller.value) else s'
  }

  /** Drops a pending handler that owns f: the task ends here. */
  function DropOwner(s: State, f: Id): State {
    DestroyChain(s, f).(act := Over)
  }

  /** await_resume of a nested co_await: take the callee's result and destroy the callee. */
  function Collect(s: State, g: Id): (State, Option<Outcome>) {
    if !InHeap(s.h, g) || s.h[g].result.None? then (Fail(s), None)
    else (DestroyChain(s, g), s.h[g].result)
  }

  /** coroutine_handle::resume on the given stack. */
  function ResumeOn(s: State, f: Id, inside: set<Executor>): State {
    if f !in s.h then Fail(s)
    else match s.h[f]
      case Trampoline(g) =>
        var (s', o) := Collect(s, g);
        if o.None? then s' else DestroyChain(s'.(delivered := o, act := Over), f)
      case Frame(_, _, _, wait, op, awaits, _, _, _, _, _, _, _, _) =>
        if awaits.Some? then
          var (s', o) := Collect(s, awaits.value);
          if o.None? || !InHeap(s'.h, f) then Fail(s')
          else s'.(h := s'.h[f := Settle(s'.h[f], o.value)], act := Executing(f, inside))
        else if wait.Some? then
          if op.None? then Fail(s)
          else s.(h := s.h[f := Settle(s.h[f], op.value)], act := Executing(f, inside))
        else s.(act := Executing(f, inside))
  }

  /** return_value / unhandled_exception, then final_awaitable::await_suspend. */
  function Finish(s: State, f: Id, o: Outcome, inside: set<Executor>): State
    requires InHeap(s.h, f)
  {
    var fr := s.h[f];
    if fr.result.Some? || fr.caller.None? || !Readable(s.h, f) then Fail(s)
    else
      var c := fr.caller.value;
      var s' := s.(h := s.h[f := fr.(result := Some(o), caller := None)]);
      match FinalRoute(fr.executor, fr.inner, fr.source == f, s.h[fr.source].executor)
      case Transfer => ResumeOn(s', c, inside)
      case ByDispatch(e) => s'.(act := Meeting(f, c, None, Some(e), Initializing, inside))
      case ByDefer(e) => s'.(act := Queued(c, e))
      case NullExecutor => Fail(s')
  }

  /** `co_await callee(args)`: allocate the callee, wire it to the caller, run it. */
  function StartChild(s: State, f: Id, callee: Code, args: Store, inside: set<Executor>): State
    requires InHeap(s.h, f)
  {
    if !Readable(s.h, f) then Fail(s)
    else
      var g := s.next;
      var source := if GetExecutor(s.h, f).Some? then Referent(s.h, f) else g;
      var child := Fresh(g, callee, args).(
        caller := Some(f), source := source,
        slot := EffectiveSlot(s.h[f].slot, s.h[f].state));
      s.(h := s.h[f := s.h[f].(awaits := Some(g))][g := child],
         next := g + 1, act := Executing(g, inside))
  }

  /** One step of the body of f. */
  function Advance(s: State, f: Id, inside: set<Executor>): State
    requires InHeap(s.h, f)
  {
    var fr := s.h[f];
    match fr.code
    case Assign(x, e, next) => Put(s, f, fr.(code := next, store := fr.store[x := e(fr.store)]))
    case If(cond, thn, els, next) =>
      Put(s, f, fr.(code := if cond(fr.store) then thn else els, kont := After(next, fr.kont)))
    case Try(body, x, handler, next) =>
      Put(s, f, fr.(code := body, kont := Catch(x, handler, next, fr.kont)))
    case Done => (
      match fr.kont
      case Stop => Finish(s, f, Val(0), inside)
      case After(next, rest) => Put(s, f, fr.(code := next, kont := rest))
      case Catch(_, _, next, rest) => Put(s, f, fr.(code := next, kont := rest))
    )
    case CoReturn(e) => (
      match fr.kont
      case Stop => Finish(s, f, Val(e(fr.store)), inside)
      case After(_, rest) => Put(s, f, fr.(kont := rest))
      case Catch(_, _, _, rest) => Put(s, f, fr.(kont := rest))
    )
    case Throw(e) => (
      match fr.kont
      case Stop => Finish(s, f, Exc(e(fr.store)), inside)
      case After(_, rest) => Put(s, f, fr.(kont := rest))
      case Catch(x, handler, next, rest) =>
        Put(s, f, fr.(code := handler, store := fr.store[x := e(fr.store)], kont := After(next, rest)))
    )
    case Await(x, args, callee, next) =>
      StartChild(Put(s, f, fr.(code := next, wait := Some(x))), f, callee, args(fr.store), inside)
    case Operation(x, _, result, next) =>
      if !Readable(s.h, f) then Fail(s)
      else Put(s, f, fr.(code := next, wait := Some(x)))
           .(act := Meeting(f, f, Some(result(fr.store)), GetExecutor(s.h, f), Initializing, inside))
    case Hop(kind, to, typed, next) =>
      var s' := Put(s, f, SetExecutor(fr.(code := next), to, typed));
      if kind.Dispatch? then s'.(act := Meeting(f, f, None, Some(to), Initializing, inside))
      else s'.(act := Queued(f, to))
    case Cancel(request, next) => Put(s, f, Request(f, fr.(code := next), request))
  }

  function Put(s: State, f: Id, fr: Frame): State {
    s.(h := s.h[f := fr])
  }

  /** The initiation throws what the operation would have failed with, or the timer has
      already expired: the body goes on without a handshake. */
  function AdvanceImmediately(s: State, f: Id): State
    requires InHeap(s.h, f) && s.h[f].code.Operation?
  {
    var fr := s.h[f];
    Put(s, f, Settle(fr.(code := fr.code.next, wait := Some(fr.code.x)), fr.code.result(fr.store)))
  }

  // ----- events -----

  predicate Enabled(s: State, e: Event) {
    && !s.fault
    && match e
       case Start(_) => s.act.Unstarted?
       case DropUnstarted => s.act.Unstarted?
       case Act => s.act.Executing?
       case ActImmediately =>
         && s.act.Executing? && InHeap(s.h, s.act.f)
         && var fr := s.h[s.act.f];
            fr.code.Operation? && fr.code.timer == fr.code.result(fr.store).Val?
       case InitiatorArrives => s.act.Meeting? && s.act.cell != Awaiting
       // an executor runs a handler inside itself
       case HandlerRuns(inside) =>
         && HandlerPending(s)
         && (s.act.target.Some? ==> Around(s.act.target.value) <= inside)
       case HandlerOrphaned => HandlerPending(s) && s.act.cell == Awaiting && s.act.brings.Some?
       case HandlerDropped => HandlerPending(s)
       case QueueRuns(inside) => s.act.Queued? && Around(s.act.on) <= inside
       case QueueDropped => s.act.Queued?
  }

  predicate HandlerPending(s: State) {
    s.act.Meeting? && (s.act.cell == Initializing || s.act.cell == Awaiting)
  }

  /** A final hop resumes a caller whose callee is already done. */
  predicate FinalHop(s: State) {
    (s.act.Meeting? && s.act.waiter != s.act.resumes)
    || (s.act.Queued? && s.act.resumes in s.h
        && (s.h[s.act.resumes].Frame? ==> s.h[s.act.resumes].awaits.Some?))
  }

  /** The handler's side of the cell; the result of an operation is stored first. */
  function HandlerStores(s: State): State
    requires s.act.Meeting?
  {
    var w := s.act.waiter;
    if !InHeap(s.h, w) || (s.act.brings.Some? && s.h[w].op.Some?) then Fail(s)
    else if s.act.brings.Some? then Put(s, w, s.h[w].(op := s.act.brings))
    else s
  }

  function Step(s: State, e: Event): State
    requires Enabled(s, e)
  {
    match e
    case Start(inside) =>
      if !InHeap(s.h, ROOT) then Fail(s)
      else s.(h := s.h[ROOT := s.h[ROOT].(caller := Some(TRAMPOLINE))][TRAMPOLINE := Trampoline(ROOT)],
              act := Executing(ROOT, inside))
    case DropUnstarted => DropOwner(s, ROOT)
    case Act =>
      if !InHeap(s.h, s.act.f) then Fail(s) else Advance(s, s.act.f, s.act.inside)
    case ActImmediately => AdvanceImmediately(s, s.act.f)
    case InitiatorArrives =>
      if !InHeap(s.h, s.act.waiter) then Fail(s)
      else (
        match OnAwaiting(s.act.cell)
        case MayResume => ResumeOn(s, s.act.resumes, s.act.home)
        case MustDestroy => DropOwner(s, s.act.resumes).(leaky := s.leaky || FinalHop(s))
        case Nothing => s.(act := s.act.(cell := Awaiting))
      )
    case HandlerRuns(inside) =>
      var s' := HandlerStores(s).(act := s.act.(cell := Completed));
      if !s'.fault && OnCompleted(s.act.cell) == MayResume then ResumeOn(s', s.act.resumes, inside) else s'
    case HandlerOrphaned =>
      var s' := HandlerStores(s).(act := s.act.(cell := Completed));
      if s'.fault then s' else DropOwner(s', s.act.resumes)
    case HandlerDropped =>
      if !InHeap(s.h, s.act.waiter) then Fail(s)
      else if OnDropped(s.act.cell) == MustDestroy then
        DropOwner(s, s.act.resumes).(leaky := s.leaky || FinalHop(s))
      else s.(act := s.act.(cell := Destroyed))
    case QueueRuns(inside) => ResumeOn(s, s.act.resumes, inside)
    case QueueDropped => DropOwner(s, s.act.resumes).(leaky := s.leaky || FinalHop(s))
  }

  /** Some handler of this task is destroyed without running, or its owner is gone. */
  predicate Drops(e: Event) {
    e.DropUnstarted? || e.HandlerOrphaned? || e.HandlerDropped? || e.QueueDropped?
  }

  // ----- runs -----

  predicate Legal(s: State, es: seq<Event>)
    decreases |es|
  {
    |es| > 0 ==> Enabled(s, es[0]) && Legal(Step(s, es[0]), es[1..])
  }

  function Reached(s: State, es: seq<Event>): State
    requires Legal(s, es)
    decreases |es|
  {
    if |es| == 0 then s else Reached(Step(s, es[0]), es[1..])
  }
}
