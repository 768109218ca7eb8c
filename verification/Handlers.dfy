/**
  The two sides of a suspension as objects: the awaitable in the coroutine's frame, and the
  handler that an executor or an asynchronous operation holds.
 */
module Handlers {
  import opened Options
  import opened Coroutines
  import opened Rendezvous
  import opened Outcomes
  import opened PromiseFrames

  /** What has become of the handler when the awaiter reaches its exchange, on whatever
      thread it happened. */
  datatype Meanwhile<+A> = StillPending | HasRun(args: A) | HasBeenDropped

  class CompletionHandler {
    const awaitable: DeferredAwaitable
    const handle: UniqueHandle
    const weak: Owner?
    const restore: bool

    constructor (awaitable: DeferredAwaitable, h: Coroutine, shared: Owner?)
      requires h.Alive()
      ensures this.awaitable == awaitable && weak == shared && (restore <==> weak != null)
      ensures fresh(handle) && handle.handle == h && handle.Valid()
    {
      this.awaitable := awaitable;
      handle := new UniqueHandle(h);
      weak, restore := shared, shared != null;
    }

    ghost predicate Holds()
      reads this, handle, awaitable, awaitable.frame, awaitable.frame.coroutine
    {
      && handle.handle == awaitable.frame.coroutine && handle.Valid()
      && (restore <==> weak != null)
    }

    /** operator(): the result is stored, and the coroutine goes on if its awaiter has
        suspended and its owner, if it had one, still lives. */
    method Invoke(args: Arguments<int>)
      requires Holds() && awaitable.Unsettled()
      requires awaitable.context.state == Awaiting ==> awaitable.frame.sharedThis == null
      modifies handle, awaitable.context, awaitable.frame.coroutine, awaitable.frame`sharedThis
      modifies awaitable.result, awaitable.result.value, awaitable.result.exception
      modifies if weak == null then {} else {weak}
      ensures handle.handle == null && awaitable.context.state == Completed
      ensures awaitable.result.Valid() && awaitable.result.Held() == Settled(args)
      ensures var f := awaitable.frame;
        if OnCompleted(old(awaitable.context.state)) != MayResume then
          f.coroutine.Alive() && f.sharedThis == old(f.sharedThis)
          && (weak != null ==> weak.strong == old(weak.strong))
        else if weak == null then
          f.coroutine.fate == Running && f.sharedThis == null
        else if old(weak.strong) == 0 then
          f.coroutine.fate == Gone && weak.strong == 0
        else
          f.coroutine.fate == Running && f.sharedThis == weak && weak.strong == old(weak.strong) + 1
    {
      awaitable.SetValue(args);
      var h := handle.Release();
      var resumable := awaitable.context.ResumeCompleted();
      if !resumable {
        return;
      }
      if restore {
        var locked := weak.Lock();
        awaitable.frame.sharedThis := if locked then weak else null;
        if !locked {
          h.Destroy();
          return;
        }
      }
      h.Resume();
    }

    /** The destructor. */
    method Destruct()
      requires handle.handle != null ==> Holds()
      modifies handle, awaitable.context, awaitable.frame.coroutine
      ensures handle.handle == null
      ensures var f := awaitable.frame;
        if old(handle.handle) == null then
          awaitable.context.state == old(awaitable.context.state) && f.coroutine.fate == old(f.coroutine.fate)
        else
          awaitable.context.state == Destroyed
          && f.coroutine.fate == if OnDropped(old(awaitable.context.state)) == MustDestroy then Gone else Suspended
    {
      if handle.handle != null {
        var h := handle.Release();
        awaitable.context.Destroy(h);
      }
    }
  }

  /** deferred_awaitable. A timer's awaitable has the same await_suspend, without the catch. */
  class DeferredAwaitable {
    const frame: PromiseFrame
    const context: ResumeContext
    const result: Outcome<int>

    constructor (frame: PromiseFrame)
      ensures this.frame == frame && fresh(context) && fresh(result) && context.state == Initializing
      ensures fresh(result.value) && fresh(result.exception) && result.Valid() && result.Held() == Unset
    {
      this.frame := frame;
      context := new ResumeContext();
      result := new Outcome<int>();
    }

    ghost predicate Unsettled()
      reads this, result, result.value, result.exception
    {
      result.Valid() && result.what == What.Nothing
    }

    method SetValue(args: Arguments<int>)
      requires Unsettled()
      modifies result, result.value, result.exception
      ensures result.Valid() && result.Held() == Settled(args)
      ensures match args
              case Results(v) => result.Held() == Ok(v)
              case WithCode(c, v) => result.Held() == if c == 0 then Ok(v) else Threw(c)
              case WithPointer(p, v) => result.Held() == if p == 0 then Ok(v) else Threw(p)
    {
      match args {
        case Results(v) => result.SetValue(v);
        case WithCode(c, v) =>
          if c != 0 { result.SetException(c); } else { result.SetValue(v); }
        case WithPointer(p, v) =>
          if p != 0 { result.SetException(p); } else { result.SetValue(v); }
      }
    }

    /** await_suspend: `next` is the coroutine that this thread continues with, if any.
        Unless it continues at once, the suspended frame holds no strong reference. */
    method AwaitSuspend(meanwhile: Meanwhile<Arguments<int>>) returns (next: Coroutine?, handler: CompletionHandler)
      requires frame.coroutine.Alive() && context.state == Initializing && Unsettled()
      requires frame.sharedThis != null ==> frame.sharedThis.strong > 0
      modifies context, frame.coroutine, frame`sharedThis, result, result.value, result.exception
      modifies if frame.sharedThis == null then {} else {frame.sharedThis}
      ensures fresh(handler) && fresh(handler.handle) && handler.awaitable == this
      ensures handler.weak == old(frame.sharedThis) && context.state == Awaiting
      ensures match meanwhile
              case StillPending => next == null && handler.Holds() && Unsettled()
              case HasRun(args) =>
                && next == frame.coroutine && next.Alive() && handler.handle.handle == null
                && result.Valid() && result.Held() == Settled(args)
              case HasBeenDropped => next == null && frame.coroutine.fate == Gone && handler.handle.handle == null
      ensures frame.sharedThis == if next == null then null else old(frame.sharedThis)
      ensures var o := old(frame.sharedThis);
        o != null ==>
          o.strong == if next == null then old(frame.sharedThis.strong) - 1 else old(frame.sharedThis.strong)
    {
      handler := new CompletionHandler(this, frame.coroutine, frame.sharedThis);
      match meanwhile {
        case StillPending =>
        case HasRun(args) => handler.Invoke(args);
        case HasBeenDropped => handler.Destruct();
      }
      var saved := frame.sharedThis;
      frame.sharedThis := null;
      var resumable := context.ResumeAwaiting(frame.coroutine);
      if resumable {
        frame.sharedThis := saved;
        return frame.coroutine, handler;
      }
      if saved != null {
        saved.Release();
      }
      next := null;
    }

    /** await_suspend when the initiating function throws, its handler destroyed unused. */
    method AwaitSuspendThrowing(x: int) returns (next: Coroutine)
      requires frame.coroutine.Alive() && context.state == Initializing && Unsettled()
      modifies context, frame.coroutine, result, result.exception
      ensures next == frame.coroutine && next.Alive() && context.state == Destroyed
      ensures result.Valid() && result.Held() == Threw(x)
    {
      var handler := new CompletionHandler(this, frame.coroutine, frame.sharedThis);
      handler.Destruct();
      result.SetException(x);
      return frame.coroutine;
    }

    /** await_resume. */
    method AwaitResume() returns (r: Fetched<int>)
      requires result.Valid() && (result.Held().Ok? || result.Held().Threw?)
      modifies result.value
      ensures r == if old(result.Held()).Ok? then Returned(old(result.Held()).v) else Thrown(old(result.Held()).x)
      ensures result.Valid() && result.what == old(result.what)
    {
      r := result.Get();
    }
  }

  /** `co_await` of an operation whose handler runs before its awaiter has suspended: the
      coroutine goes on at once with what the arguments say, a code or pointer of 0 being
      success, and holds its owner as before. */
  method AwaitEarly(a: DeferredAwaitable, args: Arguments<int>) returns (r: Fetched<int>)
    requires a.frame.coroutine.Alive() && a.context.state == Initializing && a.Unsettled()
    requires a.frame.sharedThis != null ==> a.frame.sharedThis.strong > 0
    modifies a.context, a.frame.coroutine, a.frame`sharedThis, a.result, a.result.value, a.result.exception
    modifies if a.frame.sharedThis == null then {} else {a.frame.sharedThis}
    ensures match args
            case Results(v) => r == Returned(v)
            case WithCode(c, v) => if c == 0 then r == Returned(v) else r == Thrown(c)
            case WithPointer(p, v) => if p == 0 then r == Returned(v) else r == Thrown(p)
    ensures a.frame.coroutine.Alive() && a.frame.sharedThis == old(a.frame.sharedThis)
    ensures a.frame.sharedThis != null ==> a.frame.sharedThis.strong == old(a.frame.sharedThis.strong)
  {
    var next, handler := a.AwaitSuspend(HasRun(args));
    r := a.AwaitResume();
  }

  /** The same when the handler runs later: the same outcome, unless the coroutine's was the
      last reference to its owner; then it is destroyed and nothing is awaited any more. */
  method AwaitLate(a: DeferredAwaitable, args: Arguments<int>) returns (r: Option<Fetched<int>>)
    requires a.frame.coroutine.Alive() && a.context.state == Initializing && a.Unsettled()
    requires a.frame.sharedThis != null ==> a.frame.sharedThis.strong > 0
    modifies a.context, a.frame.coroutine, a.frame`sharedThis, a.result, a.result.value, a.result.exception
    modifies if a.frame.sharedThis == null then {} else {a.frame.sharedThis}
    ensures r.Some? <==> old(a.frame.sharedThis) == null || old(a.frame.sharedThis.strong) > 1
    ensures r.Some? ==>
      match args
      case Results(v) => r.value == Returned(v)
      case WithCode(c, v) => if c == 0 then r.value == Returned(v) else r.value == Thrown(c)
      case WithPointer(p, v) => if p == 0 then r.value == Returned(v) else r.value == Thrown(p)
    ensures a.frame.coroutine.fate == if r.Some? then Running else Gone
    ensures r.Some? ==> a.frame.sharedThis == old(a.frame.sharedThis)
    ensures r.Some? && a.frame.sharedThis != null ==> a.frame.sharedThis.strong == old(a.frame.sharedThis.strong)
  {
    var next, handler := a.AwaitSuspend(StillPending);
    handler.Invoke(args);
    r := None;
    if a.frame.coroutine.fate == Running {
      var fetched := a.AwaitResume();
      r := Some(fetched);
    }
  }

  /** dispatch_handler<Awaitable>: the handler of a hop that may be run inline. */
  class DispatchHandler {
    const context: ResumeContext
    const handle: UniqueHandle

    constructor (context: ResumeContext, h: Coroutine)
      requires h.Alive()
      ensures this.context == context && fresh(handle) && handle.handle == h && handle.Valid()
    {
      this.context := context;
      handle := new UniqueHandle(h);
    }

    method Invoke()
      requires handle.handle != null && handle.Valid()
      modifies handle, context, handle.handle
      ensures handle.handle == null && context.state == Completed
      ensures old(handle.handle).fate == if OnCompleted(old(context.state)) == MayResume then Running else Suspended
    {
      var h := handle.Release();
      var resumable := context.ResumeCompleted();
      if resumable {
        h.Resume();
      }
    }

    /** The destructor. */
    method Destruct()
      requires handle.Valid()
      modifies handle, context, handle.handle
      ensures handle.handle == null
      ensures if old(handle.handle) == null then context.state == old(context.state)
              else
                context.state == Destroyed
                && old(handle.handle).fate == if OnDropped(old(context.state)) == MustDestroy then Gone else Suspended
    {
      if handle.handle != null {
        var h := handle.Release();
        context.Destroy(h);
      }
    }
  }

  /** dispatch_awaitable, and final_awaitable on its dispatching branch: h is the coroutine
      itself in the first case and its caller in the second. */
  class DispatchAwaitable {
    const context: ResumeContext

    constructor ()
      ensures fresh(context) && context.state == Initializing
    {
      context := new ResumeContext();
    }

    method AwaitSuspend(h: Coroutine, meanwhile: Meanwhile<()>) returns (next: Coroutine?, handler: DispatchHandler)
      requires h.Alive() && context.state == Initializing
      modifies context, h
      ensures fresh(handler) && fresh(handler.handle) && handler.context == context && context.state == Awaiting
      ensures match meanwhile
              case StillPending => next == null && h.Alive() && handler.handle.handle == h
              case HasRun(_) => next == h && h.Alive() && handler.handle.handle == null
              case HasBeenDropped => next == null && h.fate == Gone && handler.handle.handle == null
    {
      handler := new DispatchHandler(context, h);
      match meanwhile {
        case StillPending =>
        case HasRun(_) => handler.Invoke();
        case HasBeenDropped => handler.Destruct();
      }
      var resumable := context.ResumeAwaiting(h);
      next := if resumable then h else null;
    }
  }

  /** dispatch_handler<void>: the queued handler of post, of defer and of a final hop that
      leaves a strand. Run, it resumes; destroyed, it destroys. */
  class PlainHandler {
    const handle: UniqueHandle

    constructor (h: Coroutine)
      requires h.Alive()
      ensures fresh(handle) && handle.handle == h && handle.Valid()
    {
      handle := new UniqueHandle(h);
    }

    method Invoke()
      requires handle.handle != null && handle.Valid()
      modifies handle, handle.handle
      ensures handle.handle == null && old(handle.handle).fate == Running
    {
      handle.Resume();
    }

    method Destruct()
      requires handle.Valid()
      modifies handle, handle.handle
      ensures handle.handle == null
      ensures old(handle.handle) != null ==> old(handle.handle).fate == Gone
    {
      handle.Destruct();
    }
  }
}
