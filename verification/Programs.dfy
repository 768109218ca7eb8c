/**
  Coroutine bodies and what plain recursive evaluation makes of them.

  A body is a finite piece of code over a store of locals. Expressions are arbitrary
  functions of the store, so a body may branch, compute and build the arguments of the
  coroutines it awaits in any way; what is first-order is only the control flow:
  co_return, throw, try/catch, co_await of another coroutine, of an asynchronous
  operation, of an executor hop and of a cancellation request.
 */
module Programs {
  import opened Executors

  type Store = map<string, int>
  type Expr = Store -> int

  /** What a coroutine hands to whoever awaits it. */
  datatype Outcome = Val(v: int) | Exc(x: int)

  datatype HopKind = Dispatch | Post | Defer

  datatype Code =
    | Done
    | CoReturn(e: Expr)
    | Throw(e: Expr)
    | Assign(x: string, e: Expr, next: Code)
    | If(cond: Store -> bool, thn: Code, els: Code, next: Code)
    | Try(body: Code, x: string, handler: Code, next: Code)
    | Await(x: string, args: Store -> Store, callee: Code, next: Code)
    | Operation(x: string, timer: bool, result: Store -> Outcome, next: Code)
    | Hop(kind: HopKind, to: Executor, typed: bool, next: Code)
    | Cancel(request: SlotRequest, next: Code)

  /** How a piece of code ends: off its end, by co_return, or by an exception. */
  datatype Completion = Fall(store: Store) | Ret(v: int) | Thr(x: int, store: Store)

  /** Plain recursive evaluation: every co_await is an ordinary call. */
  function Eval(code: Code, store: Store): Completion
    decreases code
  {
    match code
    case Done => Fall(store)
    case CoReturn(e) => Ret(e(store))
    case Throw(e) => Thr(e(store), store)
    case Assign(x, e, next) => Eval(next, store[x := e(store)])
    case If(cond, thn, els, next) =>
      var c := if cond(store) then Eval(thn, store) else Eval(els, store);
      if c.Fall? then Eval(next, c.store) else c
    case Try(body, x, handler, next) =>
      var b := Eval(body, store);
      var c := if b.Thr? then Eval(handler, b.store[x := b.x]) else b;
      if c.Fall? then Eval(next, c.store) else c
    case Await(x, args, callee, next) =>
      var o := ToOutcome(Eval(callee, args(store)));
      if o.Val? then Eval(next, store[x := o.v]) else Thr(o.x, store)
    case Operation(x, _, result, next) =>
      var o := result(store);
      if o.Val? then Eval(next, store[x := o.v]) else Thr(o.x, store)
    case Hop(_, _, _, next) => Eval(next, store)
    case Cancel(_, next) => Eval(next, store)
  }

  /** Falling off the end is `return_void`; the unit value is 0. */
  function ToOutcome(c: Completion): Outcome {
    match c
    case Fall(_) => Val(0)
    case Ret(v) => Val(v)
    case Thr(x, _) => Exc(x)
  }

  /** The value or exception that calling the body as a plain function gives. */
  function Run(code: Code, store: Store): Outcome {
    ToOutcome(Eval(code, store))
  }

  /** What a running coroutine still has to do inside its own body: the enclosing blocks. */
  datatype Kont =
    | Stop
    | After(next: Code, rest: Kont)
    | Catch(x: string, handler: Code, next: Code, rest: Kont)

  /** The outcome of a body whose innermost block ended with c inside the blocks k. */
  function Unwound(c: Completion, k: Kont): Outcome
    decreases k
  {
    match k
    case Stop => ToOutcome(c)
    case After(next, rest) =>
      Unwound(if c.Fall? then Eval(next, c.store) else c, rest)
    case Catch(x, handler, next, rest) =>
      var d := if c.Thr? then Eval(handler, c.store[x := c.x]) else c;
      Unwound(if d.Fall? then Eval(next, d.store) else d, rest)
  }

  // A body has no loops, so its text bounds the number of steps it can take.
  function Size(code: Code): (n: nat)
    ensures n >= 1
  {
    match code
    case Done => 1
    case CoReturn(_) => 1
    case Throw(_) => 1
    case Assign(_, _, next) => 2 + Size(next)
    case If(_, thn, els, next) => 2 + Size(thn) + Size(els) + Size(next)
    case Try(body, _, handler, next) => 4 + Size(body) + Size(handler) + Size(next)
    case Await(_, _, callee, next) => 10 + Size(callee) + Size(next)
    case Operation(_, _, _, next) => 5 + Size(next)
    case Hop(_, _, _, next) => 5 + Size(next)
    case Cancel(_, next) => 2 + Size(next)
  }

  function KontSize(k: Kont): nat {
    match k
    case Stop => 0
    case After(next, rest) => 1 + Size(next) + KontSize(rest)
    case Catch(_, handler, next, rest) => 2 + Size(handler) + Size(next) + KontSize(rest)
  }
}
