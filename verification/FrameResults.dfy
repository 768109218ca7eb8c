/**
  The results that coroutines leave in their frames, over whole runs: stored once, kept as
  long as the frame lives, destroyed with it.
 */
module FrameResults {
  import opened Sequences
  import opened Options
  import opened Executors
  import opened Programs
  import opened Rendezvous
  import opened FrameMachine
  import opened FrameInvariant
  import opened FramePreservation
  import opened FrameMeaning
  import opened FrameSteps

  /** The step is f's return_value, return_void or unhandled_exception. */
  predicate Stores(s: State, e: Event, f: Id) {
    e.Act? && s.act.Executing? && s.act.f == f && f in s.h && AtEnd(s.h[f])
  }

  function TimesStored(s: State, es: seq<Event>, f: Id): nat
    requires Legal(s, es)
    decreases |es|
  {
    if |es| == 0 then 0
    else (if Stores(s, es[0], f) then 1 else 0) + TimesStored(Step(s, es[0]), es[1..], f)
  }

  /** What one step does to the result of one frame. */
  ghost predicate StoreRule(s: State, e: Event, s': State, f: Id) {
    && s.next <= s'.next
    && (Stores(s, e, f) ==> InHeap(s.h, f) && !HasResult(s.h, f))
    && (f in s'.h && f < s.next ==> f in s.h && (HasResult(s'.h, f) <==> HasResult(s.h, f) || Stores(s, e, f)))
    && (f in s'.h && f >= s.next ==> !HasResult(s'.h, f))
  }

  lemma AdvanceStores(s: State, goal: Outcome, f: Id)
    requires Inv(s, goal) && s.act.Executing?
    ensures StoreRule(s, Act, Step(s, Act), f)
  {
    var g := s.act.f;
    if AtEnd(s.h[g]) {
      LeaveLastHolds(s, g, s.act.inside, goal);
      FinishKeeps(s, g, Rest(s.h[g]), s.act.inside, goal, f);
    } else if s.h[g].code.Await? {
      PointerIsLookup(s.h, g);
      AwaitIs(s, g, s.act.inside);
    } else {
      BodyStepKeeps(s, goal, f);
    }
  }

  lemma StoreStep(s: State, e: Event, goal: Outcome, f: Id)
    requires Inv(s, goal) && Enabled(s, e) && f >= ROOT
    ensures StoreRule(s, e, Step(s, e), f)
  {
    LedgerBound(s, f);
    if e.Act? {
      AdvanceStores(s, goal, f);
    } else {
      OtherStepKeeps(s, e, goal, f);
    }
  }

  lemma {:induction false} RunStores(s: State, es: seq<Event>, goal: Outcome, f: Id)
    requires Inv(s, goal) && Legal(s, es) && f >= ROOT
    ensures var n, s' := TimesStored(s, es, f), Reached(s, es);
      && n <= (if HasResult(s.h, f) || f in s.freed then 0 else 1)
      && (f in s.freed ==> f !in s'.h)
      && (f in s'.h ==> (HasResult(s'.h, f) <==> HasResult(s.h, f) || n == 1))
      && (n == 1 ==> f < s'.next) && s.next <= s'.next
    decreases |es|
  {
    if |es| > 0 {
      StoreStep(s, es[0], goal, f);
      StepHolds(s, es[0], goal);
      RunStores(Step(s, es[0]), es[1..], goal, f);
    }
  }

  /** Results are set once and destroyed once, over every run: a frame stores its outcome at
      most once; it holds one exactly from then on, for as long as it is in the heap; and a
      frame that stored one is in the heap or was destroyed, once and not both. */
  lemma ResultsOnce(code: Code, store: Store, es: seq<Event>, f: Id)
    requires Legal(Init(code, store), es) && f >= ROOT
    ensures var n, s := TimesStored(Init(code, store), es, f), Reached(Init(code, store), es);
      && n <= 1
      && (InHeap(s.h, f) ==> (s.h[f].result.Some? <==> n == 1))
      && (n == 1 ==> (f in s.h <==> f !in s.freed))
      && Distinct(s.freed)
  {
    var s0, goal := Init(code, store), Run(code, store);
    InitHolds(code, store);
    RunHolds(s0, es, goal);
    RunStores(s0, es, goal, f);
  }

  // ----- what the trampoline moves to the completion handler -----

  lemma ResumeDelivers(s: State, inside: set<Executor>, goal: Outcome)
    requires Inv(s, goal) && (s.act.Meeting? || s.act.Queued?) && s.delivered.None?
    requires s.act.Meeting? && s.act.brings.Some? ==> s.act.cell == Completed
    ensures ResumeOn(s, s.act.resumes, inside).delivered.Some? ==> HasResult(s.h, ROOT)
  {
    var r := s.act.resumes;
    if s.act.Meeting? && s.act.waiter != r {
      ResumeCallerIs(s, r, s.act.waiter, inside, goal);
    } else if s.act.Queued? && Callee(s.h[r]).Some? {
      ResumeCallerIs(s, r, Callee(s.h[r]).value, inside, goal);
    }
  }

  lemma AdvanceDelivers(s: State, goal: Outcome)
    requires Inv(s, goal) && s.act.Executing? && s.delivered.None?
    ensures Step(s, Act).delivered.Some? ==> Stores(s, Act, ROOT)
  {
    var f, inside := s.act.f, s.act.inside;
    if AtEnd(s.h[f]) {
      var o, c := Rest(s.h[f]), s.h[f].caller.value;
      LeaveLastHolds(s, f, inside, goal);
      FinishIs(s, f, o, inside);
      ReleaseCallerHolds(s, f, o, goal);
      ResumeCallerIs(s.(h := s.h[f := s.h[f].(result := Some(o), caller := None)]), c, f, inside, goal);
    } else {
      PointerIsLookup(s.h, f);
    }
  }

  lemma DeliverStep(s: State, e: Event, goal: Outcome)
    requires Inv(s, goal) && Enabled(s, e) && s.delivered.None?
    ensures Step(s, e).delivered.Some? ==> HasResult(s.h, ROOT) || Stores(s, e, ROOT)
  {
    if Drops(e) {
      DropEventDoomed(s, e, goal);
      StepHolds(s, e, goal);
    } else {
      match e
      case Act => AdvanceDelivers(s, goal);
      case HandlerRuns(inside) =>
        HandlerIs(s, inside, goal);
        if s.act.cell == Awaiting { ResumeDelivers(AfterExchange(s), inside, goal); }
        HandlerKeeps(s, inside, goal, ROOT);
      case InitiatorArrives =>
        if s.act.cell == Completed {
          ResumeDelivers(s, s.act.home, goal);
        } else if s.act.cell == Destroyed {
          DeliveredStays(s, s.act.resumes);
        }
      case QueueRuns(inside) => ResumeDelivers(s, inside, goal);
      case _ =>
    }
  }

  lemma {:induction false} RunDelivers(s: State, es: seq<Event>, goal: Outcome)
    requires Inv(s, goal) && Legal(s, es) && s.delivered.None?
    ensures Reached(s, es).delivered.Some? ==> HasResult(s.h, ROOT) || TimesStored(s, es, ROOT) >= 1
    decreases |es|
  {
    if |es| > 0 {
      var s1 := Step(s, es[0]);
      DeliverStep(s, es[0], goal);
      StepHolds(s, es[0], goal);
      if s1.delivered.None? {
        RunDelivers(s1, es[1..], goal);
        StoreStep(s, es[0], goal, ROOT);
      }
    }
  }

  /** The outcome that the trampoline moves to the completion handler has been set: over
      every run, what is delivered was stored by the root, once. */
  lemma DeliveredWasStored(code: Code, store: Store, es: seq<Event>)
    requires Legal(Init(code, store), es)
    ensures Reached(Init(code, store), es).delivered.Some? ==> TimesStored(Init(code, store), es, ROOT) == 1
  {
    InitHolds(code, store);
    RunDelivers(Init(code, store), es, Run(code, store));
    ResultsOnce(code, store, es, ROOT);
  }
}
