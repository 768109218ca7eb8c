/**
  Where a coroutine's caller goes on after its final suspension: the exact condition for
  going on inline, on the callee's own stack, and leaving the callee's strand.
 */
module FrameStrands {
  import opened Options
  import opened Executors
  import opened Programs
  import opened Rendezvous
  import opened FrameMachine
  import opened FrameInvariant
  import opened FramePreservation
  import opened FrameMeaning
  import opened FrameAffinity
  import opened FrameHistory

  /** c runs on the given stack; the trampoline has delivered the outcome at once. */
  predicate GoesOn(s: State, c: Id, inside: set<Executor>) {
    if c == TRAMPOLINE then s.act.Over? && s.delivered.Some? else s.act == Executing(c, inside)
  }

  /** By its own steps alone, final suspension and the exchange that may follow it, the
      thread of the running body takes the caller c on, whatever handlers do meanwhile. */
  ghost predicate ExitsInline(s: State, es: seq<Event>, c: Id)
    requires s.act.Executing?
  {
    && Legal(s, es) && DisciplinedRun(s, es)
    && |es| > 0 && es[0] == Act && NoBody(es[1..])
    && (|es| == 1 || es[|es| - 1].InitiatorArrives?)
    && GoesOn(Reached(s, es), c, s.act.inside)
  }

  /** The machine's test: can the caller, whose executor is up, be resumed on the callee's
      stack? */
  predicate StaysInline(fr: Frame, up: Option<Executor>, inside: set<Executor>)
    requires fr.Frame?
  {
    fr.inner.None? && (fr.executor.None? || up.None? || up.value in inside)
  }

  /** Where the caller restarts if it is not resumed on the callee's stack. */
  function RestartsOn(fr: Frame, up: Option<Executor>): Option<Executor>
    requires fr.Frame?
  {
    if up.Some? then up else fr.inner
  }

  // ----- a caller that is on its way to another stack -----

  /** c waits for a handler on the executor `on`, and no early one can be disciplined. */
  predicate Away(s: State, c: Id, on: Executor) {
    match s.act
    case Meeting(_, r, brings, target, cell, home) =>
      r == c && brings.None? && target == Some(on) && cell != Completed && on !in home
    case Queued(r, q) => r == c && q == on
    case _ => false
  }

  /** A handler inside `on` has just taken c on. */
  predicate TakenOn(s: State, last: Event, c: Id, on: Executor) {
    (last.HandlerRuns? || last.QueueRuns?) && Around(on) <= last.inside && GoesOn(s, c, last.inside)
  }

  lemma ResumeGoesOn(s: State, inside: set<Executor>, goal: Outcome)
    requires Inv(s, goal) && (s.act.Meeting? || s.act.Queued?)
    requires s.act.Meeting? ==> s.act.brings.None?
    ensures GoesOn(ResumeOn(s, s.act.resumes, inside), s.act.resumes, inside)
  {
    var r := s.act.resumes;
    if s.act.Meeting? && s.act.waiter != r {
      ResumeCallerIs(s, r, s.act.waiter, inside, goal);
    } else if s.act.Queued? && Callee(s.h[r]).Some? {
      ResumeCallerIs(s, r, Callee(s.h[r]).value, inside, goal);
    }
  }

  lemma AwayStep(s: State, e: Event, c: Id, on: Executor, goal: Outcome)
    requires Inv(s, goal) && Enabled(s, e) && Disciplined(s, e) && Away(s, c, on)
    ensures var s' := Step(s, e); Away(s', c, on) || Lost(s') || TakenOn(s', e, c, on)
  {
    if Drops(e) {
      DropEventDoomed(s, e, goal);
    } else if e.InitiatorArrives? && s.act.cell == Destroyed {
      DeliveredStays(s, c);
    } else if e.HandlerRuns? {
      ResumeGoesOn(s.(act := s.act.(cell := Completed)), e.inside, goal);
    } else if e.QueueRuns? {
      ResumeGoesOn(s, e.inside, goal);
    }
  }

  lemma {:induction false} AwayRun(s: State, es: seq<Event>, c: Id, on: Executor, goal: Outcome)
    requires Inv(s, goal) && Away(s, c, on) && Legal(s, es) && DisciplinedRun(s, es) && NoBody(es)
    ensures var s' := Reached(s, es);
      Away(s', c, on) || Lost(s') || (|es| > 0 && TakenOn(s', es[|es| - 1], c, on))
    decreases |es|
  {
    if |es| > 0 {
      var s1 := Step(s, es[0]);
      AwayStep(s, es[0], c, on, goal);
      StepHolds(s, es[0], goal);
      if Away(s1, c, on) {
        AwayRun(s1, es[1..], c, on, goal);
      } else {
        NothingElse(s1, es[1..]);
      }
    }
  }

  // ----- final suspension -----

  /** The three ways on, told apart by the test. */
  lemma EndStep(s: State, goal: Outcome)
    requires Inv(s, goal) && s.act.Executing? && AtEnd(s.h[s.act.f])
    ensures var f, fr, inside, s1 := s.act.f, s.h[s.act.f], s.act.inside, Step(s, Act);
      var c := fr.caller.value;
      var up := ExecLookup(s.h, c);
      && fr.caller.Some? && c < f
      && (!StaysInline(fr, up, inside) ==>
            RestartsOn(fr, up).Some? && Away(s1, c, RestartsOn(fr, up).value))
      && (StaysInline(fr, up, inside) ==>
            || GoesOn(s1, c, inside)
            || (up.Some? && InHeap(s.h, c) && s1.act == Meeting(f, c, None, up, Initializing, inside)))
  {
    var f, inside := s.act.f, s.act.inside;
    var o := Rest(s.h[f]);
    var c := s.h[f].caller.value;
    LeaveLastHolds(s, f, inside, goal);
    FinishIs(s, f, o, inside);
    ReleaseCallerHolds(s, f, o, goal);
    ResumeCallerIs(s.(h := s.h[f := s.h[f].(result := Some(o), caller := None)]), c, f, inside, goal);
  }

  lemma InlineExitHere(s: State, goal: Outcome)
    requires Inv(s, goal) && s.act.Executing? && AtEnd(s.h[s.act.f])
    ensures s.h[s.act.f].caller.Some?
    ensures var fr, c := s.h[s.act.f], s.h[s.act.f].caller.value;
      (exists es :: ExitsInline(s, es, c)) <==> StaysInline(fr, ExecLookup(s.h, c), s.act.inside)
  {
    EndStep(s, goal);
    var fr, c := s.h[s.act.f], s.h[s.act.f].caller.value;
    if StaysInline(fr, ExecLookup(s.h, c), s.act.inside) {
      var es := InlineRun(s, goal);
    } else {
      forall es ensures !ExitsInline(s, es, c) {
        if ExitsInline(s, es, c) {
          StepHolds(s, Act, goal);
          AwayRun(Step(s, Act), es[1..], c, RestartsOn(fr, ExecLookup(s.h, c)).value, goal);
          assert false;
        }
      }
    }
  }

  lemma InlineRun(s: State, goal: Outcome) returns (es: seq<Event>)
    requires Inv(s, goal) && s.act.Executing? && AtEnd(s.h[s.act.f]) && s.h[s.act.f].caller.Some?
    requires StaysInline(s.h[s.act.f], ExecLookup(s.h, s.h[s.act.f].caller.value), s.act.inside)
    ensures ExitsInline(s, es, s.h[s.act.f].caller.value)
  {
    EndStep(s, goal);
    StepHolds(s, Act, goal);
    var s1, c := Step(s, Act), s.h[s.act.f].caller.value;
    if GoesOn(s1, c, s.act.inside) {
      es := [Act];
      ActAlone(s, c);
    } else {
      var early := EarlyRun(s1, goal);
      es := [Act] + early;
      ActThen(s, early, c);
    }
  }

  lemma ActAlone(s: State, c: Id)
    requires Enabled(s, Act) && GoesOn(Step(s, Act), c, s.act.inside)
    ensures ExitsInline(s, [Act], c)
  {
    assert [Act][1..] == [];
  }

  lemma ActThen(s: State, early: seq<Event>, c: Id)
    requires Enabled(s, Act) && |early| > 0 && NoBody(early) && early[|early| - 1].InitiatorArrives?
    requires Legal(Step(s, Act), early) && DisciplinedRun(Step(s, Act), early)
    requires GoesOn(Reached(Step(s, Act), early), c, s.act.inside)
    ensures ExitsInline(s, [Act] + early, c)
  {
    var es := [Act] + early;
    assert es[0] == Act && es[1..] == early && es[|es| - 1] == early[|early| - 1];
  }

  /** An early handler on a stack of its own, and the initiator takes the coroutine on. */
  lemma EarlyRun(s: State, goal: Outcome) returns (es: seq<Event>)
    requires Inv(s, goal) && s.act.Meeting? && s.act.cell == Initializing
    requires s.act.brings.None? && s.act.target.Some? && s.act.target.value in s.act.home
    ensures |es| == 2 && NoBody(es) && es[1].InitiatorArrives?
    ensures Legal(s, es) && DisciplinedRun(s, es)
    ensures Reached(s, es).act == Executing(s.act.resumes, s.act.home)
  {
    var e := HandlerRuns(Around(s.act.target.value));
    EarlyHopExact(s, e.inside, goal);
    es := [e, InitiatorArrives];
    assert es[1..] == [InitiatorArrives] && es[1..][1..] == [];
    assert DisciplinedRun(Step(s, e), [InitiatorArrives]);
  }

  lemma ExitElsewhereHere(s: State, es: seq<Event>, goal: Outcome)
    requires Inv(s, goal) && s.act.Executing? && AtEnd(s.h[s.act.f]) && s.h[s.act.f].caller.Some?
    requires !StaysInline(s.h[s.act.f], ExecLookup(s.h, s.h[s.act.f].caller.value), s.act.inside)
    requires Legal(s, [Act] + es) && DisciplinedRun(s, [Act] + es) && NoBody(es)
    ensures var fr, c, s' := s.h[s.act.f], s.h[s.act.f].caller.value, Reached(s, [Act] + es);
      var on := RestartsOn(fr, ExecLookup(s.h, c));
      && on.Some?
      && (Away(s', c, on.value) || Lost(s') || (|es| > 0 && TakenOn(s', es[|es| - 1], c, on.value)))
  {
    var run := [Act] + es;
    assert run[0] == Act && run[1..] == es;
    EndStep(s, goal);
    StepHolds(s, Act, goal);
    var fr, c := s.h[s.act.f], s.h[s.act.f].caller.value;
    AwayRun(Step(s, Act), es, c, RestartsOn(fr, ExecLookup(s.h, c)).value, goal);
  }

  // ----- leaving the callee's strand -----

  /** No executor is inside itself. */
  function Depth(e: Executor): nat {
    match e
    case Context(_) => 0
    case Strand(_, inner) => 1 + Depth(inner)
  }

  lemma {:induction false} AroundIsShallower(e: Executor)
    ensures forall x :: x in Around(e) ==> Depth(x) <= Depth(e)
    decreases e
  {
    if e.Strand? {
      AroundIsShallower(e.inner);
    }
  }

  lemma StrandExitHere(s: State, goal: Outcome)
    requires Inv(s, goal) && s.act.Executing? && AtEnd(s.h[s.act.f])
    ensures var fr := s.h[s.act.f];
      var c := fr.caller.value;
      var up := ExecLookup(s.h, c);
      var s' := Step(s, Act);
      && fr.caller.Some?
      && FinalRoute(fr.executor, fr.inner, fr.source == s.act.f, s.h[fr.source].executor)
         == HandBack(fr.executor, fr.inner, up)
      && (s'.act.Queued? <==> fr.inner.Some?)
      && (fr.inner.Some? ==>
            && fr.executor.Some? && fr.executor.value.Strand?
            && s'.act == Queued(c, if up.Some? then up.value else fr.executor.value.inner)
            && Enabled(s', QueueRuns(Around(s'.act.on)))
            && (forall t :: Enabled(s', QueueRuns(t)) ==> GoesOn(Step(s', QueueRuns(t)), c, t))
            && (fr.executor.value in Around(s'.act.on) <==> up.Some? && fr.executor.value in Around(up.value)))
  {
    LeaveLastHolds(s, s.act.f, s.act.inside, goal);
    FinishQueues(s, s.act.f, Rest(s.h[s.act.f]), s.act.inside, goal);
    RouteIsHandBack(s.h, s.act.f);
    if s.h[s.act.f].inner.Some? {
      AroundIsShallower(s.h[s.act.f].inner.value);
      QueueTakesOn(Step(s, Act), goal);
    }
  }

  lemma QueueTakesOn(s: State, goal: Outcome)
    requires Inv(s, goal) && s.act.Queued?
    ensures forall t :: Enabled(s, QueueRuns(t)) ==> GoesOn(Step(s, QueueRuns(t)), s.act.resumes, t)
  {
    forall t | Enabled(s, QueueRuns(t)) ensures GoesOn(Step(s, QueueRuns(t)), s.act.resumes, t) {
      ResumeGoesOn(s, t, goal);
    }
  }

  lemma FinishQueues(s: State, f: Id, o: Outcome, inside: set<Executor>, goal: Outcome)
    requires Open(s) && Whole(s.h, f) && Idle(s.h[f])
    requires Through(s.h, s.h[f].caller.value, o) == goal
    ensures var fr := s.h[f];
      var up := ExecLookup(s.h, fr.caller.value);
      var act := Finish(s, f, o, inside).act;
      && (act.Queued? <==> fr.inner.Some?)
      && (fr.inner.Some? ==> act == Queued(fr.caller.value, if up.Some? then up.value else fr.inner.value))
  {
    FinishIs(s, f, o, inside);
    ReleaseCallerHolds(s, f, o, goal);
    var s1 := s.(h := s.h[f := s.h[f].(result := Some(o), caller := None)]);
    ResumeCallerIs(s1, s.h[f].caller.value, f, inside, goal);
  }

  // ----- over runs, with hops read off the events -----

  /** The caller of f, and its executor by the last hops of the frames. */
  function CallerOf(s: State): Id
    requires s.act.Executing? && InHeap(s.h, s.act.f) && s.h[s.act.f].caller.Some?
  {
    s.h[s.act.f].caller.value
  }

  lemma EndOfRun(code: Code, store: Store, es: seq<Event>)
    requires Legal(Init(code, store), es)
    requires var s := Reached(Init(code, store), es); s.act.Executing? && s.act.f in s.h && AtEnd(s.h[s.act.f])
    ensures var s0, s := Init(code, store), Reached(Init(code, store), es);
      var fr, last := s.h[s.act.f], LastHopOf(History(s0, es, s.act.f));
      && Inv(s, Run(code, store)) && fr.caller.Some?
      && fr.executor == (if last.To? then Some(last.e) else None)
      && fr.inner == (if WasToStrand(last) then Some(last.e.inner) else None)
      && ExecSearch(s0, es, s.h, CallerOf(s)) == ExecLookup(s.h, CallerOf(s))
  {
    var s0, s := Init(code, store), Reached(Init(code, store), es);
    InitHolds(code, store);
    RunHolds(s0, es, Run(code, store));
    ExecutorIsLastHop(code, store, es, s.act.f);
    SearchesAre(code, store, es, CallerOf(s));
  }

  /** Exactly when the caller can be resumed on the callee's stack, and so inside everything
      that the callee was inside, at the end of every callee in every run: its last hop, if
      it made one, was not to a strand whose type says so; and it made none, the caller and
      its ancestors made none, or the stack is inside the target of the caller's last hop. */
  lemma InlineExitExact(code: Code, store: Store, es: seq<Event>)
    requires Legal(Init(code, store), es)
    requires var s := Reached(Init(code, store), es); s.act.Executing? && s.act.f in s.h && AtEnd(s.h[s.act.f])
    ensures var s0, s := Init(code, store), Reached(Init(code, store), es);
      && s.h[s.act.f].caller.Some?
      && var last, up := LastHopOf(History(s0, es, s.act.f)), ExecSearch(s0, es, s.h, CallerOf(s));
         (exists more :: ExitsInline(s, more, CallerOf(s)))
         <==> !WasToStrand(last) && (last.Never? || up.None? || up.value in s.act.inside)
  {
    EndOfRun(code, store, es);
    InlineExitHere(Reached(Init(code, store), es), Run(code, store));
  }

  /** And when it cannot: whatever happens until a body runs again, the caller restarts from
      a handler on its own executor, or on the inner executor of the callee's strand if it
      has none, and nowhere else; or something was dropped and the task is over. */
  lemma ExitElsewhere(code: Code, store: Store, es: seq<Event>, more: seq<Event>)
    requires Legal(Init(code, store), es)
    requires var s := Reached(Init(code, store), es);
      && s.act.Executing? && s.act.f in s.h && AtEnd(s.h[s.act.f]) && s.h[s.act.f].caller.Some?
      && Legal(s, [Act] + more) && DisciplinedRun(s, [Act] + more) && NoBody(more)
    ensures var s0, s := Init(code, store), Reached(Init(code, store), es);
      var last, up := LastHopOf(History(s0, es, s.act.f)), ExecSearch(s0, es, s.h, CallerOf(s));
      var c, s' := CallerOf(s), Reached(s, [Act] + more);
      WasToStrand(last) || (last.To? && up.Some? && up.value !in s.act.inside) ==>
        var on := if up.Some? then up.value else last.e.inner;
        Away(s', c, on) || Lost(s') || (|more| > 0 && TakenOn(s', more[|more| - 1], c, on))
  {
    EndOfRun(code, store, es);
    var s := Reached(Init(code, store), es);
    if !StaysInline(s.h[s.act.f], ExecLookup(s.h, CallerOf(s)), s.act.inside) {
      ExitElsewhereHere(s, more, Run(code, store));
    }
  }

  /** Strand exit, over every run: a callee whose last hop was to a strand whose type says so,
      and no other, leaves by a queue without a handshake: its caller's executor's if the
      caller has one, else the strand's inner executor's. The caller goes on on the stack of
      the handler that runs from it, whatever that is; the queue's executor itself has the
      strand around it only if the caller's own executor is the strand or runs over it. */
  lemma StrandExit(code: Code, store: Store, es: seq<Event>)
    requires Legal(Init(code, store), es)
    requires var s := Reached(Init(code, store), es); s.act.Executing? && s.act.f in s.h && AtEnd(s.h[s.act.f])
    ensures var s0, s := Init(code, store), Reached(Init(code, store), es);
      && s.h[s.act.f].caller.Some?
      && var last, up := LastHopOf(History(s0, es, s.act.f)), ExecSearch(s0, es, s.h, CallerOf(s));
      && Enabled(s, Act)
      && var c, s' := CallerOf(s), Step(s, Act);
      && (s'.act.Queued? <==> WasToStrand(last))
      && (WasToStrand(last) ==>
            && s'.act == Queued(c, if up.Some? then up.value else last.e.inner)
            && Enabled(s', QueueRuns(Around(s'.act.on)))
            && (forall t :: Enabled(s', QueueRuns(t)) ==> GoesOn(Step(s', QueueRuns(t)), c, t))
            && (last.e in Around(s'.act.on) <==> up.Some? && last.e in Around(up.value)))
  {
    EndOfRun(code, store, es);
    StrandExitHere(Reached(Init(code, store), es), Run(code, store));
  }

  /** A callee hops to a type-erased strand over its caller's executor and comes to its end. */
  lemma UntypedStrandReached() returns (es: seq<Event>)
    ensures var pool := Context(1);
      var s := Init(Hop(Post, pool, true, Await("x", st => st, Hop(Post, Strand(2, pool), false, Done), Done)), map[]);
      && Legal(s, es)
      && var s' := Reached(s, es);
         && s'.act == Executing(2, {Strand(2, pool), pool}) && InHeap(s'.h, 2) && AtEnd(s'.h[2])
         && s'.h[2].executor == Some(Strand(2, pool)) && s'.h[2].inner.None?
         && s'.h[2].caller == Some(ROOT) && ExecLookup(s'.h, ROOT) == Some(pool)
  {
    var pool := Context(1);
    var strand := Strand(2, pool);
    var s := Init(Hop(Post, pool, true, Await("x", st => st, Hop(Post, strand, false, Done), Done)), map[]);
    assert Around(strand) == {strand, pool} && Around(pool) == {pool};
    es := [];
    Extend(s, es, Start({pool}));
    es := es + [Start({pool})];
    Extend(s, es, Act);
    es := es + [Act];
    Extend(s, es, QueueRuns({pool}));
    es := es + [QueueRuns({pool})];
    Extend(s, es, Act);
    es := es + [Act];
    assert Reached(s, es).act == Executing(2, {pool});
    Extend(s, es, Act);
    es := es + [Act];
    Extend(s, es, QueueRuns({strand, pool}));
    es := es + [QueueRuns({strand, pool})];
  }

  /** A strand that was installed through any_io_executor is not recognised as one. From the
      state above, by the exact condition, the caller can go on inside the strand. */
  lemma UntypedStrandKept() returns (es: seq<Event>, more: seq<Event>)
    ensures var pool := Context(1);
      var s := Init(Hop(Post, pool, true, Await("x", st => st, Hop(Post, Strand(2, pool), false, Done), Done)), map[]);
      && Legal(s, es)
      && var s' := Reached(s, es);
         s'.act == Executing(2, {Strand(2, pool), pool}) && ExitsInline(s', more, ROOT)
  {
    es := UntypedStrandReached();
    var pool := Context(1);
    var code := Hop(Post, pool, true, Await("x", st => st, Hop(Post, Strand(2, pool), false, Done), Done));
    InitHolds(code, map[]);
    RunHolds(Init(code, map[]), es, Run(code, map[]));
    more := InlineRun(Reached(Init(code, map[]), es), Run(code, map[]));
  }

  /** The other way to stay inside it: a caller without an executor is resumed on the
      callee's stack by the final suspension itself. */
  lemma UntypedStrandWithoutCallerExecutor() returns (es: seq<Event>)
    ensures var pool := Context(1);
      var s := Init(Await("x", st => st, Hop(Post, Strand(2, pool), false, Done), Done), map[]);
      && Legal(s, es)
      && var s' := Reached(s, es);
         && s'.act == Executing(ROOT, {Strand(2, pool), pool})
         && Readable(s'.h, ROOT) && GetExecutor(s'.h, ROOT).None?
  {
    var pool := Context(1);
    var strand := Strand(2, pool);
    var s := Init(Await("x", st => st, Hop(Post, strand, false, Done), Done), map[]);
    assert Around(strand) == {strand, pool};
    es := [];
    Extend(s, es, Start({}));
    es := es + [Start({})];
    Extend(s, es, Act);
    es := es + [Act];
    Extend(s, es, Act);
    es := es + [Act];
    Extend(s, es, QueueRuns({strand, pool}));
    es := es + [QueueRuns({strand, pool})];
    Extend(s, es, Act);
    es := es + [Act];
  }
}
