/**
  Where a coroutine runs: executor affinity, what hops and operations do to it, and the
  exact condition for it.
 */
module FrameAffinity {
  import opened Options
  import opened Executors
  import opened Programs
  import opened Rendezvous
  import opened FrameMachine
  import opened FrameInvariant
  import opened FramePreservation
  import opened FrameMeaning

  /** asio::dispatch as coro::dispatch describes it: the handler of a hop runs before its
      initiator has finished suspending only if the initiator is inside the target. */
  predicate Disciplined(s: State, e: Event) {
    e.HandlerRuns? && s.act.Meeting? && s.act.cell == Initializing
      && s.act.brings.None? && s.act.target.Some?
    ==> s.act.target.value in s.act.home
  }

  predicate DisciplinedRun(s: State, es: seq<Event>)
    requires Legal(s, es)
    decreases |es|
  {
    |es| > 0 ==> Disciplined(s, es[0]) && DisciplinedRun(Step(s, es[0]), es[1..])
  }

  /** A frame with an executor, its own or inherited, runs inside it. */
  predicate InsideOwn(h: Heap, f: Id, inside: set<Executor>) {
    ExecLookup(h, f).Some? ==> ExecLookup(h, f).value in inside
  }

  ghost predicate Affine(s: State) {
    match s.act
    case Executing(f, inside) => InsideOwn(s.h, f, inside)
    case Meeting(w, r, brings, target, cell, home) =>
      if brings.Some? then InsideOwn(s.h, w, home)
      else cell == Completed && target.Some? ==> target.value in home
    case _ => true
  }

  /** Resuming r on a stack inside its executor, whatever r is waiting for. */
  lemma ResumeAffine(s: State, inside: set<Executor>, goal: Outcome)
    requires Inv(s, goal) && (s.act.Meeting? || s.act.Queued?)
    requires s.act.Meeting? && s.act.brings.Some? ==> s.act.cell == Completed
    requires s.h[s.act.resumes].Frame? ==> InsideOwn(s.h, s.act.resumes, inside)
    ensures Affine(ResumeOn(s, s.act.resumes, inside))
  {
    var r := s.act.resumes;
    if s.act.Meeting? && s.act.waiter == r {
      if s.act.brings.Some? {
        SameExecutor(s.h, r, Settle(s.h[r], s.act.brings.value));
      }
    } else if s.act.Meeting? || Callee(s.h[r]).Some? {
      ReturnAffine(s, r, if s.act.Meeting? then s.act.waiter else Callee(s.h[r]).value, inside, goal);
    }
  }

  lemma SameExecutor(h: Heap, f: Id, fr: Frame)
    requires HasCaller(h, f) && fr.Frame? && fr.caller == h[f].caller && fr.executor == h[f].executor
    ensures ExecLookup(h[f := fr], f) == ExecLookup(h, f)
  {
    Untouched(h, h[f := fr], h[f].caller.value);
  }

  lemma ReturnAffine(s: State, c: Id, w: Id, inside: set<Executor>, goal: Outcome)
    requires Finishing(s.h, c, w, goal)
    requires s.h[c].Frame? ==> InsideOwn(s.h, c, inside)
    ensures Affine(ResumeOn(s, c, inside))
  {
    ResumeCallerIs(s, c, w, inside, goal);
    if s.h[c].Frame? {
      var fr := Settle(s.h[c], s.h[w].result.value);
      SameExecutor(s.h, c, fr);
      Untouched(s.h[c := fr], AfterReturn(s, c, w, inside).h, c);
    }
  }

  /** Final suspension leaves the caller where it belongs: inline only on a stack inside
      the caller's executor, if it has one, and else by way of that executor. */
  lemma FinishAffine(s: State, f: Id, o: Outcome, inside: set<Executor>, goal: Outcome)
    requires Open(s) && s.act.Executing? && Whole(s.h, f) && Idle(s.h[f])
    requires Through(s.h, s.h[f].caller.value, o) == goal
    requires InsideOwn(s.h, f, inside)
    ensures Affine(Finish(s, f, o, inside))
    ensures var c := s.h[f].caller.value;
      var up := ExecLookup(s.h, c);
      match Finish(s, f, o, inside).act
      case Executing(g, stack) => g == c && stack == inside && (up.Some? ==> up.value in inside)
      case Meeting(w, r, _, target, _, _) => w == f && r == c && up.Some? && target == up
      case Queued(r, on) => r == c && Some(on) == if up.Some? then up else s.h[f].inner
      case Over => c == TRAMPOLINE
      case Unstarted => false
  {
    var fr := s.h[f];
    var c := fr.caller.value;
    var s' := s.(h := s.h[f := fr.(result := Some(o), caller := None)]);
    FinishIs(s, f, o, inside);
    ReleaseCallerHolds(s, f, o, goal);
    if fr.inner.None? && (fr.executor.None? || ExecLookup(s.h, c).None?) {
      ReturnAffine(s', c, f, inside, goal);
      ResumeCallerIs(s', c, f, inside, goal);
    }
  }

  lemma AwaitAffine(s: State, f: Id, inside: set<Executor>)
    requires Whole(s.h, f) && s.h[f].code.Await? && s.next > f && InsideOwn(s.h, f, inside)
    ensures Affine(Advance(s, f, inside))
  {
    PointerIsLookup(s.h, f);
    AwaitIs(s, f, inside);
    ChildExecutor(s, f, inside);
  }

  lemma AdvanceAffine(s: State, f: Id, inside: set<Executor>, goal: Outcome)
    requires Inv(s, goal) && s.act == Executing(f, inside) && InsideOwn(s.h, f, inside)
    ensures Affine(Advance(s, f, inside))
  {
    var fr := s.h[f];
    if fr.kont.Stop? && (fr.code.Done? || fr.code.CoReturn? || fr.code.Throw?) {
      LeaveLastHolds(s, f, inside, goal);
      FinishAffine(s, f, Rest(fr), inside, goal);
    } else if fr.code.Await? {
      AwaitAffine(s, f, inside);
    } else if fr.code.Operation? {
      PointerIsLookup(s.h, f);
      SameExecutor(s.h, f, fr.(code := fr.code.next, wait := Some(fr.code.x)));
    } else if !fr.code.Hop? {
      StayAffine(s, f, inside);
    }
  }

  lemma StayAffine(s: State, f: Id, inside: set<Executor>)
    requires HasCaller(s.h, f) && s.act == Executing(f, inside) && InsideOwn(s.h, f, inside)
    requires var fr := s.h[f]; !fr.code.Await? && !fr.code.Operation? && !fr.code.Hop?
    requires s.h[f].kont.Stop? ==> !(s.h[f].code.Done? || s.h[f].code.CoReturn? || s.h[f].code.Throw?)
    ensures Affine(Advance(s, f, inside))
  {
    SameExecutor(s.h, f, Advance(s, f, inside).h[f]);
  }

  lemma HandlerAffine(s: State, inside: set<Executor>, goal: Outcome)
    requires Inv(s, goal) && Affine(s) && Enabled(s, HandlerRuns(inside)) && Disciplined(s, HandlerRuns(inside))
    ensures Affine(Step(s, HandlerRuns(inside)))
  {
    HandlerIs(s, inside, goal);
    var s' := AfterExchange(s);
    if s.act.brings.Some? {
      SameExecutor(s.h, s.act.waiter, s'.h[s.act.waiter]);
    }
    if s.act.cell == Awaiting {
      ResumeAffine(s', inside, goal);
    }
  }

  lemma StepAffine(s: State, e: Event, goal: Outcome)
    requires Inv(s, goal) && Affine(s) && Enabled(s, e) && Disciplined(s, e)
    ensures Affine(Step(s, e))
  {
    match e
    case Start(_) =>
      var h := Step(s, e).h;
      assert ExecLookup(h, TRAMPOLINE).None?;
    case Act => AdvanceAffine(s, s.act.f, s.act.inside, goal);
    case ActImmediately => SameExecutor(s.h, s.act.f, Step(s, e).h[s.act.f]);
    case InitiatorArrives =>
      if s.act.cell == Completed {
        ResumeAffine(s, s.act.home, goal);
      }
    case HandlerRuns(inside) => HandlerAffine(s, inside, goal);
    case QueueRuns(inside) => ResumeAffine(s, inside, goal);
    case _ =>
  }

  lemma {:induction false} RunAffine(s: State, es: seq<Event>, goal: Outcome)
    requires Inv(s, goal) && Affine(s) && Legal(s, es) && DisciplinedRun(s, es)
    ensures Affine(Reached(s, es))
    decreases |es|
  {
    if |es| > 0 {
      StepHolds(s, es[0], goal);
      StepAffine(s, es[0], goal);
      RunAffine(Step(s, es[0]), es[1..], goal);
    }
  }

  /** A running body is inside the executor that get_executor() gives it. */
  predicate InPlace(s: State) {
    s.act.Executing? ==>
      && Readable(s.h, s.act.f)
      && var e := GetExecutor(s.h, s.act.f);
         e.Some? ==> e.value in s.act.inside
  }

  lemma AffineInPlace(s: State, goal: Outcome)
    requires Inv(s, goal) && Affine(s)
    ensures InPlace(s)
  {
    if s.act.Executing? {
      PointerIsLookup(s.h, s.act.f);
    }
  }

  /** Executor affinity: in every state that a disciplined run reaches, a running frame
      whose get_executor() is not empty runs inside it. Operations and timers may complete
      at any time and on any stack inside the associated executor. */
  lemma ExecutorAffinity(code: Code, store: Store, es: seq<Event>)
    requires Legal(Init(code, store), es) && DisciplinedRun(Init(code, store), es)
    ensures InPlace(Reached(Init(code, store), es))
  {
    var s0, goal := Init(code, store), Run(code, store);
    InitHolds(code, store);
    RunHolds(s0, es, goal);
    RunAffine(s0, es, goal);
    AffineInPlace(Reached(s0, es), goal);
  }

  // ----- what a hop does -----

  /** The stack on which an event takes a waiting coroutine on; `home` is its initiator's. */
  function StackOf(e: Event, home: set<Executor>): set<Executor> {
    match e
    case HandlerRuns(inside) => inside
    case QueueRuns(inside) => inside
    case _ => home
  }

  /** f, on the stack `from`, waits for a hop to its own executor; fr is its frame as it was
      left. */
  ghost predicate Hopping(s: State, f: Id, fr: Frame, from: set<Executor>) {
    && f in s.h && s.h[f] == fr && Idle(fr) && fr.executor.Some?
    && match s.act
       case Meeting(w, r, brings, target, cell, home) =>
         && w == r == f && brings.None? && target == fr.executor && home == from
         && (cell == Completed ==> fr.executor.value in home)
       case Queued(r, on) => r == f && on == fr.executor.value
       case _ => false
  }

  ghost predicate Landed(s: State, f: Id, fr: Frame, stack: set<Executor>) {
    && f in s.h && s.h[f] == fr && Idle(fr) && fr.executor.Some?
    && s.act == Executing(f, stack) && fr.executor.value in stack
  }

  /** No body takes a step. */
  predicate NoBody(es: seq<Event>) {
    forall e :: e in es ==> !e.Act? && !e.ActImmediately?
  }

  predicate Lost(s: State) {
    s.act.Over? && s.delivered.None?
  }

  /** Once a body is about to run or the task is over, nothing else can happen. */
  lemma NothingElse(s: State, es: seq<Event>)
    requires (s.act.Executing? || s.act.Over?) && Legal(s, es) && NoBody(es)
    ensures es == [] && Reached(s, es) == s
  {
  }

  lemma HopStep(s: State, e: Event, f: Id, fr: Frame, from: set<Executor>, goal: Outcome)
    requires Inv(s, goal) && Enabled(s, e) && Disciplined(s, e) && Hopping(s, f, fr, from)
    ensures var s' := Step(s, e);
      Hopping(s', f, fr, from) || Landed(s', f, fr, StackOf(e, from)) || Lost(s')
  {
    if Drops(e) {
      DropEventDoomed(s, e, goal);
    }
    if e.InitiatorArrives? && s.act.cell == Destroyed {
      DeliveredStays(s, f);
    }
  }

  /** The frame after a hop, in the terms of the hop alone. */
  ghost predicate Rebound(fr: Frame, fr': Frame)
    requires fr.Frame? && fr.code.Hop?
  {
    && fr'.Frame? && fr'.code == fr.code.next && fr'.store == fr.store && fr'.kont == fr.kont
    && fr'.executor == Some(fr.code.to)
    && fr'.inner == (if fr.code.typed && fr.code.to.Strand? then Some(fr.code.to.inner) else None)
  }

  lemma HopBegins(s: State, goal: Outcome)
    requires Inv(s, goal) && s.act.Executing? && s.h[s.act.f].Frame? && s.h[s.act.f].code.Hop?
    ensures var f, s1 := s.act.f, Step(s, Act);
      && f in s1.h && Rebound(s.h[f], s1.h[f])
      && Hopping(s1, f, s1.h[f], s.act.inside)
      && (if s.h[f].code.kind.Dispatch? then s1.act.Meeting? && s1.act.cell == Initializing
          else s1.act == Queued(f, s.h[f].code.to))
  {
  }

  lemma {:induction false} HopRun(s: State, es: seq<Event>, f: Id, fr: Frame, from: set<Executor>, goal: Outcome)
    requires Inv(s, goal) && Hopping(s, f, fr, from) && Legal(s, es) && DisciplinedRun(s, es) && NoBody(es)
    ensures var s' := Reached(s, es);
      Hopping(s', f, fr, from) || Lost(s') || (|es| > 0 && Landed(s', f, fr, StackOf(es[|es| - 1], from)))
    decreases |es|
  {
    if |es| > 0 {
      var s1 := Step(s, es[0]);
      HopStep(s, es[0], f, fr, from, goal);
      StepHolds(s, es[0], goal);
      if Hopping(s1, f, fr, from) {
        HopRun(s1, es[1..], f, fr, from, goal);
      } else {
        NothingElse(s1, es[1..]);
      }
    }
  }

  /** `co_await dispatch(to)`, `post(to)` and `defer(to)`, made by a body on whatever stack
      with a dispatch that behaves as described: whatever happens until a body runs again, it
      is this one, at the statement after the hop with its locals as they were, with `to` as
      its executor and inside it, on the stack of the handler or, if the initiator took it
      on, of the initiator; or something was dropped and the task is over. */
  lemma HopLands(s: State, es: seq<Event>, goal: Outcome)
    requires Inv(s, goal) && s.act.Executing? && s.h[s.act.f].Frame? && s.h[s.act.f].code.Hop?
    requires Legal(s, [Act] + es) && DisciplinedRun(s, [Act] + es) && NoBody(es)
    ensures var f, fr, s' := s.act.f, s.h[s.act.f], Reached(s, [Act] + es);
      && (s'.act.Executing? ==>
            && s'.act.f == f && Readable(s'.h, f) && Rebound(fr, s'.h[f])
            && GetExecutor(s'.h, f) == Some(fr.code.to) && fr.code.to in s'.act.inside
            && |es| > 0 && s'.act.inside == StackOf(es[|es| - 1], s.act.inside))
      && (s'.act.Over? ==> s'.delivered.None?)
  {
    var run := [Act] + es;
    assert run[0] == Act && run[1..] == es;
    var f, s1 := s.act.f, Step(s, Act);
    HopBegins(s, goal);
    StepHolds(s, Act, goal);
    HopRun(s1, es, f, s1.h[f], s.act.inside, goal);
    RunHolds(s1, es, goal);
    if Reached(s1, es).act.Executing? {
      PointerIsLookup(Reached(s1, es).h, f);
    }
  }

  /** `co_await post(to)` and `defer(to)` need no assumption on dispatch: the body is in the
      queue of `to`, and nothing can happen but that the handler in the queue takes it on, on
      its own stack inside `to`, or is dropped. */
  lemma QueuedHopLands(s: State, es: seq<Event>, goal: Outcome)
    requires Inv(s, goal) && s.act.Executing? && s.h[s.act.f].Frame?
    requires s.h[s.act.f].code.Hop? && !s.h[s.act.f].code.kind.Dispatch?
    requires Legal(s, [Act] + es) && NoBody(es)
    ensures var f, fr, s' := s.act.f, s.h[s.act.f], Reached(s, [Act] + es);
      && |es| <= 1
      && (|es| == 0 ==> s'.act == Queued(f, fr.code.to))
      && (|es| == 1 ==>
            || (es[0].QueueDropped? && Lost(s'))
            || (es[0].QueueRuns? && Around(fr.code.to) <= es[0].inside && s'.act == Executing(f, es[0].inside)
                  && f in s'.h && Rebound(fr, s'.h[f])))
  {
    var run := [Act] + es;
    assert run[0] == Act && run[1..] == es;
    var f, s1 := s.act.f, Step(s, Act);
    HopBegins(s, goal);
    StepHolds(s, Act, goal);
    if |es| > 0 {
      QueuedStep(s1, es[0], f, s1.h[f], s.act.inside, goal);
      NothingElse(Step(s1, es[0]), es[1..]);
    }
  }

  lemma QueuedStep(s: State, e: Event, f: Id, fr: Frame, from: set<Executor>, goal: Outcome)
    requires Inv(s, goal) && Enabled(s, e) && Hopping(s, f, fr, from) && s.act.Queued?
    ensures var s' := Step(s, e);
      || (e.QueueDropped? && Lost(s'))
      || (e.QueueRuns? && Around(s.act.on) <= e.inside && s'.act == Executing(f, e.inside)
            && f in s'.h && s'.h[f] == fr)
  {
    HopStep(s, e, f, fr, from, goal);
  }

  // ----- what an operation does -----

  /** f, on the stack `from` and with executor e, awaits an operation that will yield o; fr
      is its frame as it was left. */
  ghost predicate Operating(s: State, f: Id, fr: Frame, o: Outcome, e: Option<Executor>, from: set<Executor>) {
    match s.act
    case Meeting(w, r, brings, target, cell, home) =>
      && w == r == f && brings == Some(o) && target == e && home == from
      && f in s.h && fr.Frame? && s.h[f] == fr.(op := if cell == Completed then Some(o) else None)
      && ExecLookup(s.h, f) == e && (e.Some? ==> e.value in home)
    case _ => false
  }

  ghost predicate Continued(s: State, f: Id, fr: Frame, o: Outcome, e: Option<Executor>, stack: set<Executor>) {
    && s.act == Executing(f, stack)
    && f in s.h && fr.Frame? && s.h[f] == Settle(fr, o)
    && ExecLookup(s.h, f) == e && (e.Some? ==> e.value in stack)
  }

  lemma OperationStep(s: State, ev: Event, f: Id, fr: Frame, o: Outcome, e: Option<Executor>,
                      from: set<Executor>, goal: Outcome)
    requires Inv(s, goal) && Enabled(s, ev) && Operating(s, f, fr, o, e, from)
    ensures var s' := Step(s, ev);
      Operating(s', f, fr, o, e, from) || Continued(s', f, fr, o, e, StackOf(ev, from)) || Lost(s')
  {
    if Drops(ev) {
      DropEventDoomed(s, ev, goal);
    } else if ev.HandlerRuns? {
      SameExecutor(s.h, f, fr.(op := Some(o)));
      OperationResumes(s.h[f := fr.(op := Some(o))], s, f, fr, o);
    } else if s.act.cell == Completed {
      OperationResumes(s.h, s, f, fr, o);
    } else if s.act.cell == Destroyed {
      DeliveredStays(s, f);
    }
  }

  lemma OperationResumes(h: Heap, s: State, f: Id, fr: Frame, o: Outcome)
    requires fr.Frame? && HasCaller(s.h, f) && s.h[f].executor == fr.executor && s.h[f].caller == fr.caller
    requires h == s.h[f := fr.(op := Some(o))]
    ensures h[f := Settle(h[f], o)] == s.h[f := Settle(fr, o)]
    ensures ExecLookup(h[f := Settle(h[f], o)], f) == ExecLookup(s.h, f)
  {
    assert Settle(fr.(op := Some(o)), o) == Settle(fr, o);
    SameExecutor(s.h, f, Settle(fr, o));
  }

  lemma {:induction false} OperationRun(s: State, es: seq<Event>, f: Id, fr: Frame, o: Outcome,
                                        e: Option<Executor>, from: set<Executor>, goal: Outcome)
    requires Inv(s, goal) && Operating(s, f, fr, o, e, from) && Legal(s, es) && NoBody(es)
    ensures var s' := Reached(s, es);
      || Operating(s', f, fr, o, e, from) || Lost(s')
      || (|es| > 0 && Continued(s', f, fr, o, e, StackOf(es[|es| - 1], from)))
    decreases |es|
  {
    if |es| > 0 {
      var s1 := Step(s, es[0]);
      OperationStep(s, es[0], f, fr, o, e, from, goal);
      StepHolds(s, es[0], goal);
      if Operating(s1, f, fr, o, e, from) {
        OperationRun(s1, es[1..], f, fr, o, e, from, goal);
      } else {
        NothingElse(s1, es[1..]);
      }
    }
  }

  lemma OperationBegins(s: State, goal: Outcome)
    requires Inv(s, goal) && s.act.Executing? && InsideOwn(s.h, s.act.f, s.act.inside)
    requires s.h[s.act.f].Frame? && s.h[s.act.f].code.Operation?
    ensures var f, fr := s.act.f, s.h[s.act.f];
      Operating(Step(s, Act), f, fr.(code := fr.code.next, wait := Some(fr.code.x)),
                fr.code.result(fr.store), ExecLookup(s.h, f), s.act.inside)
  {
    var f, fr := s.act.f, s.h[s.act.f];
    PointerIsLookup(s.h, f);
    SameExecutor(s.h, f, fr.(code := fr.code.next, wait := Some(fr.code.x)));
  }

  /** `co_await` of an operation or a timer, with no assumption on when or on which thread
      its handler runs but that it runs inside its associated executor: whatever happens
      until a body runs again, it is this one, with the operation's outcome, its executor as
      it was and inside it, on the stack of the handler or, if the initiator took it on, of
      the initiator; or something was dropped and the task is over. */
  lemma OperationLands(s: State, es: seq<Event>, goal: Outcome)
    requires Inv(s, goal) && s.act.Executing? && InsideOwn(s.h, s.act.f, s.act.inside)
    requires s.h[s.act.f].Frame? && s.h[s.act.f].code.Operation?
    requires Legal(s, [Act] + es) && NoBody(es)
    ensures var f, fr, s' := s.act.f, s.h[s.act.f], Reached(s, [Act] + es);
      && Readable(s.h, f)
      && (s'.act.Executing? ==>
            && s'.act.f == f && Readable(s'.h, f)
            && s'.h[f] == Settle(fr.(code := fr.code.next, wait := Some(fr.code.x)), fr.code.result(fr.store))
            && GetExecutor(s'.h, f) == GetExecutor(s.h, f) && InPlace(s')
            && |es| > 0 && s'.act.inside == StackOf(es[|es| - 1], s.act.inside))
      && (s'.act.Over? ==> s'.delivered.None?)
  {
    var run := [Act] + es;
    assert run[0] == Act && run[1..] == es;
    var f, fr, s1 := s.act.f, s.h[s.act.f], Step(s, Act);
    OperationBegins(s, goal);
    StepHolds(s, Act, goal);
    OperationRun(s1, es, f, fr.(code := fr.code.next, wait := Some(fr.code.x)), fr.code.result(fr.store),
                 ExecLookup(s.h, f), s.act.inside, goal);
    RunHolds(s1, es, goal);
    PointerIsLookup(s.h, f);
    if Reached(s1, es).act.Executing? {
      PointerIsLookup(Reached(s1, es).h, f);
    }
  }

  /** An operation that settles without suspending leaves its body running where it was. */
  lemma ImmediateGoesOn(s: State, goal: Outcome)
    requires Inv(s, goal) && Enabled(s, ActImmediately)
    ensures var f, fr, s' := s.act.f, s.h[s.act.f], Step(s, ActImmediately);
      && s'.act == s.act && Readable(s.h, f) && Readable(s'.h, f)
      && s'.h[f] == Settle(fr.(code := fr.code.next, wait := Some(fr.code.x)), fr.code.result(fr.store))
      && GetExecutor(s'.h, f) == GetExecutor(s.h, f)
  {
    PointerIsLookup(s.h, s.act.f);
    SameExecutor(s.h, s.act.f, Step(s, ActImmediately).h[s.act.f]);
    StepHolds(s, ActImmediately, goal);
    PointerIsLookup(Step(s, ActImmediately).h, s.act.f);
  }

  /** An awaited coroutine runs at once, on the stack of the one that awaits it, from its
      beginning with its arguments, and with that one's executor. */
  lemma CalleeRunsInline(s: State, goal: Outcome)
    requires Inv(s, goal) && s.act.Executing? && s.h[s.act.f].Frame? && s.h[s.act.f].code.Await?
    ensures var f, fr, g, s' := s.act.f, s.h[s.act.f], s.next, Step(s, Act);
      && s'.act == Executing(g, s.act.inside) && g !in s.h
      && Readable(s.h, f) && Readable(s'.h, g) && GetExecutor(s'.h, g) == GetExecutor(s.h, f)
      && s'.h[g].code == fr.code.callee && s'.h[g].store == fr.code.args(fr.store) && s'.h[g].kont.Stop?
      && s'.h[g].caller == Some(f)
  {
    var f, s' := s.act.f, Step(s, Act);
    PointerIsLookup(s.h, f);
    AwaitIs(s, f, s.act.inside);
    StepHolds(s, Act, goal);
    PointerIsLookup(s'.h, s.next);
    ChildExecutor(s, f, s.act.inside);
  }

  lemma ChildExecutor(s: State, f: Id, inside: set<Executor>)
    requires Whole(s.h, f) && s.h[f].code.Await? && s.next > f
    ensures ExecLookup(Advance(s, f, inside).h, s.next) == ExecLookup(s.h, f)
  {
    var fr, s' := s.h[f], Advance(s, f, inside);
    var fr' := fr.(code := fr.code.next, wait := Some(fr.code.x), awaits := Some(s.next));
    PointerIsLookup(s.h, f);
    AwaitIs(s, f, inside);
    SameExecutor(s.h, f, fr');
    Untouched(s.h[f := fr'], s'.h, f);
  }

  /** A started task runs its root at once, on the stack that starts it. */
  lemma RootRunsInline(s: State, stack: set<Executor>, goal: Outcome)
    requires Inv(s, goal) && s.act.Unstarted?
    ensures var s' := Step(s, Start(stack));
      && s'.act == Executing(ROOT, stack)
      && InHeap(s.h, ROOT) && InHeap(s'.h, ROOT)
      && s'.h[ROOT].code == s.h[ROOT].code && s'.h[ROOT].store == s.h[ROOT].store
  {
  }

  // ----- the discipline is exactly what affinity needs -----

  lemma ReturnExecutor(s: State, c: Id, w: Id, inside: set<Executor>, goal: Outcome)
    requires Finishing(s.h, c, w, goal) && InHeap(s.h, c)
    ensures ExecLookup(ResumeOn(s, c, inside).h, c) == ExecLookup(s.h, c)
    ensures ResumeOn(s, c, inside).act == Executing(c, inside)
  {
    var fr := Settle(s.h[c], s.h[w].result.value);
    ResumeCallerIs(s, c, w, inside, goal);
    SameExecutor(s.h, c, fr);
    Untouched(s.h[c := fr], AfterReturn(s, c, w, inside).h, c);
  }

  /** When the handler of a hop runs before its initiator has finished suspending, the
      coroutine goes on where the initiator was: inside its executor if and only if the
      step was disciplined. */
  lemma EarlyHopExact(s: State, inside: set<Executor>, goal: Outcome)
    requires Inv(s, goal) && Enabled(s, HandlerRuns(inside))
    requires s.act.brings.None? && s.act.cell == Initializing
    ensures var r := s.act.resumes;
      var s1 := Step(s, HandlerRuns(inside));
      && Enabled(s1, InitiatorArrives)
      && var s2 := Step(s1, InitiatorArrives);
      && s2.act == Executing(r, s.act.home)
      && Readable(s2.h, r) && GetExecutor(s2.h, r) == s.act.target && s.act.target.Some?
      && (s.act.target.value in s2.act.inside <==> Disciplined(s, HandlerRuns(inside)))
  {
    var r := s.act.resumes;
    var s1 := s.(act := s.act.(cell := Completed));
    assert Step(s, HandlerRuns(inside)) == s1;
    var s2 := Step(s1, InitiatorArrives);
    if s.act.waiter != r {
      ReturnExecutor(s1, r, s.act.waiter, s.act.home, goal);
    }
    assert s2.act == Executing(r, s.act.home) && ExecLookup(s2.h, r) == s.act.target;
    InitiatorHolds(s1, goal);
    PointerIsLookup(s2.h, r);
  }

  predicate InPlaceRun(s: State, es: seq<Event>)
    requires Legal(s, es)
    decreases |es|
  {
    InPlace(s) && (|es| > 0 ==> InPlaceRun(Step(s, es[0]), es[1..]))
  }

  /** If the handler of a hop has run and its initiator is about to go on with the coroutine,
      the initiator is inside the coroutine's executor. */
  predicate Placed(s: State) {
    s.act.Meeting? && s.act.cell == Completed && s.act.brings.None? && s.act.target.Some?
    ==> s.act.target.value in s.act.home
  }

  /** The exact condition for affinity, for every run: all bodies run inside their own
      executors, and the one that an initiator may be about to go on with will, if and only
      if dispatch ran every early handler for an initiator that was inside the target. */
  lemma AffinityExact(code: Code, store: Store, es: seq<Event>)
    requires Legal(Init(code, store), es)
    ensures InPlaceRun(Init(code, store), es) && Placed(Reached(Init(code, store), es))
      <==> DisciplinedRun(Init(code, store), es)
  {
    InitHolds(code, store);
    RunInPlaceExact(Init(code, store), es, Run(code, store));
  }

  lemma {:induction false} RunInPlaceExact(s: State, es: seq<Event>, goal: Outcome)
    requires Inv(s, goal) && Affine(s) && Legal(s, es)
    ensures InPlaceRun(s, es) && Placed(Reached(s, es)) <==> DisciplinedRun(s, es)
    decreases |es|
  {
    AffineInPlace(s, goal);
    if |es| > 0 {
      if Disciplined(s, es[0]) {
        StepHolds(s, es[0], goal);
        StepAffine(s, es[0], goal);
        RunInPlaceExact(Step(s, es[0]), es[1..], goal);
      } else {
        UndisciplinedOutOfPlace(s, es, goal);
      }
    }
  }

  lemma UndisciplinedOutOfPlace(s: State, es: seq<Event>, goal: Outcome)
    requires Inv(s, goal) && Legal(s, es)
    requires |es| > 0 && !Disciplined(s, es[0])
    ensures !InPlaceRun(s, es) || !Placed(Reached(s, es))
  {
    EarlyHopExact(s, es[0].inside, goal);
    var s1, es1 := Step(s, es[0]), es[1..];
    assert !Placed(s1);
    if |es1| > 0 {
      assert es1[0] == InitiatorArrives;
      assert !InPlace(Step(s1, es1[0]));
      assert !InPlaceRun(s1, es1);
    }
  }

  /** A run in which dispatch enters an idle strand while its initiator is only inside the
      strand's inner executor: the coroutine goes on outside the strand it has just
      installed. */
  lemma DispatchIntoIdleStrand() returns (es: seq<Event>)
    ensures var pool := Context(1);
      var strand := Strand(2, pool);
      var s := Init(Hop(Dispatch, strand, true, Done), map[]);
      && Legal(s, es)
      && var s' := Reached(s, es);
         s'.act == Executing(ROOT, {pool}) && Readable(s'.h, ROOT) && GetExecutor(s'.h, ROOT) == Some(strand)
  {
    var pool := Context(1);
    var strand := Strand(2, pool);
    var s := Init(Hop(Dispatch, strand, true, Done), map[]);
    es := [];
    Extend(s, es, Start({pool}));
    es := es + [Start({pool})];
    Extend(s, es, Act);
    es := es + [Act];
    assert Around(strand) == {strand, pool};
    Extend(s, es, HandlerRuns({strand, pool}));
    es := es + [HandlerRuns({strand, pool})];
    Extend(s, es, InitiatorArrives);
    es := es + [InitiatorArrives];
  }
}
