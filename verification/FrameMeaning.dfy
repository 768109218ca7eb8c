/**
  Meaning preservation: a coroutine program run by the frame machine, under any
  interleaving, delivers what plain recursive evaluation of it gives, and runs cannot get
  stuck or go on forever.
 */
module FrameMeaning {
  import opened Options
  import opened Executors
  import opened Programs
  import opened Rendezvous
  import opened FrameMachine
  import opened FrameInvariant
  import opened FramePreservation

  /** No run faults: no frame is used after it is destroyed or destroyed twice, no outcome
      is set twice or read before it is set, and no final suspension lacks a caller. */
  lemma NoRunFaults(code: Code, store: Store, es: seq<Event>)
    requires Legal(Init(code, store), es)
    ensures !Reached(Init(code, store), es).fault
  {
    InitHolds(code, store);
    RunHolds(Init(code, store), es, Run(code, store));
  }

  /** Whatever reaches the completion handler is the outcome of plain evaluation. */
  lemma MeaningPreserved(code: Code, store: Store, es: seq<Event>)
    requires Legal(Init(code, store), es)
    ensures var d := Reached(Init(code, store), es).delivered;
      d.Some? ==> d.value == Run(code, store)
  {
    InitHolds(code, store);
    RunHolds(Init(code, store), es, Run(code, store));
  }

  // ----- every run ends -----

  function CellWeight(c: Cell): nat {
    if c == Initializing then 3 else 1
  }

  /** Bound on the events still to come. */
  function Measure(s: State): nat {
    match s.act
    case Unstarted => 2 + Weight(s.h, ROOT)
    case Executing(f, _) => Weight(s.h, f)
    case Meeting(w, r, _, _, cell, _) => CellWeight(cell) + Weight(s.h, r)
    case Queued(r, _) => 1 + Weight(s.h, r)
    case Over => 0
  }

  /** Rewriting the leaf changes the bound by what it changes in the leaf. */
  lemma LeafWeight(h: Heap, f: Id, fr: Frame)
    requires HasCaller(h, f) && fr.Frame? && fr.caller == h[f].caller
    ensures Weight(h[f := fr], f) + Size(h[f].code) + KontSize(h[f].kont)
            == Weight(h, f) + Size(fr.code) + KontSize(fr.kont)
  {
    Untouched(h, h[f := fr], h[f].caller.value);
  }

  lemma ReturnWeight(s: State, c: Id, w: Id, inside: set<Executor>)
    requires c in s.h && c < w && InHeap(s.h, w) && s.h[w].result.Some?
    requires s.h[c].Frame? ==> HasCaller(s.h, c)
    ensures Measure(AfterReturn(s, c, w, inside)) <= Weight(s.h, c)
  {
    if s.h[c].Frame? {
      LeafWeight(s.h, c, Settle(s.h[c], s.h[w].result.value));
      Untouched(s.h[c := Settle(s.h[c], s.h[w].result.value)], AfterReturn(s, c, w, inside).h, c);
    }
  }

  lemma ResumeWeight(s: State, inside: set<Executor>, goal: Outcome)
    requires Shape(s, goal) && (s.act.Meeting? || s.act.Queued?)
    requires s.act.Meeting? && s.act.brings.Some? ==> s.act.cell == Completed
    ensures Measure(ResumeOn(s, s.act.resumes, inside)) <= Weight(s.h, s.act.resumes)
  {
    var r := s.act.resumes;
    if s.act.Meeting? && s.act.waiter == r {
      if s.act.brings.Some? {
        LeafWeight(s.h, r, Settle(s.h[r], s.act.brings.value));
      }
    } else if s.act.Meeting? || Callee(s.h[r]).Some? {
      var w := if s.act.Meeting? then s.act.waiter else Callee(s.h[r]).value;
      ResumeCallerIs(s, r, w, inside, goal);
      ReturnWeight(s, r, w, inside);
    }
  }

  lemma FinishWeight(s: State, f: Id, o: Outcome, inside: set<Executor>, goal: Outcome)
    requires Open(s) && Whole(s.h, f) && Idle(s.h[f])
    requires Through(s.h, s.h[f].caller.value, o) == goal
    ensures Measure(Finish(s, f, o, inside)) < Weight(s.h, f)
  {
    var c := s.h[f].caller.value;
    var s' := s.(h := s.h[f := s.h[f].(result := Some(o), caller := None)]);
    ReleaseCallerHolds(s, f, o, goal);
    ReleasedWeight(s, s', f, c, o, inside, goal);
  }

  lemma CallerWeight(h: Heap, h': Heap, f: Id)
    requires HasCaller(h, f) && Agree(h, h', f)
    ensures Weight(h, f) >= 7 + Weight(h', h[f].caller.value)
  {
    Untouched(h, h', h[f].caller.value);
  }

  lemma ReleasedWeight(s: State, s': State, f: Id, c: Id, o: Outcome, inside: set<Executor>, goal: Outcome)
    requires Whole(s.h, f) && Idle(s.h[f]) && s.h[f].caller == Some(c)
    requires s' == s.(h := s.h[f := s.h[f].(result := Some(o), caller := None)])
    requires Finishing(s'.h, c, f, goal)
    ensures Measure(Finish(s, f, o, inside)) < Weight(s.h, f)
  {
    CallerWeight(s.h, s'.h, f);
    FinishIs(s, f, o, inside);
    if s.h[f].inner.Some? || (s.h[f].executor.Some? && ExecLookup(s.h, c).Some?) {
      HandedOverWeight(s', Finish(s, f, o, inside), c);
    } else {
      TransferWeight(s', f, c, inside, goal);
    }
  }

  lemma HandedOverWeight(s': State, s'': State, c: Id)
    requires s''.h == s'.h
    requires match s''.act
             case Meeting(_, r, _, _, _, _) => r == c
             case Queued(r, _) => r == c
             case _ => false
    ensures Measure(s'') <= 3 + Weight(s'.h, c)
  {
  }

  lemma TransferWeight(s': State, f: Id, c: Id, inside: set<Executor>, goal: Outcome)
    requires Finishing(s'.h, c, f, goal)
    ensures Measure(ResumeOn(s', c, inside)) <= Weight(s'.h, c)
  {
    ResumeCallerIs(s', c, f, inside, goal);
    ReturnWeight(s', c, f, inside);
  }

  lemma AwaitWeight(s: State, f: Id, inside: set<Executor>)
    requires HasCaller(s.h, f) && Readable(s.h, f) && s.h[f].code.Await? && s.next > f
    ensures Measure(Advance(s, f, inside)) < Weight(s.h, f)
  {
    var fr := s.h[f];
    var g := s.next;
    var fr' := fr.(code := fr.code.next, wait := Some(fr.code.x), awaits := Some(g));
    var h1 := s.h[f := fr'];
    var s' := Advance(s, f, inside);
    AwaitIs(s, f, inside);
    LeafWeight(s.h, f, fr');
    Untouched(h1, s'.h, f);
    var child := s'.h[g];
    assert Weight(s'.h, g) == 6 + Size(child.code) + Weight(s'.h, f);
  }

  /** Entering and leaving blocks uses up text. */
  lemma BlockWeight(s: State, f: Id, inside: set<Executor>)
    requires HasCaller(s.h, f) && s.act == Executing(f, inside)
    requires var c := s.h[f].code; c.Assign? || c.If? || c.Try?
    ensures Measure(Advance(s, f, inside)) < Weight(s.h, f)
  {
    LeafWeight(s.h, f, Advance(s, f, inside).h[f]);
  }

  lemma LeaveWeight(s: State, f: Id, inside: set<Executor>)
    requires HasCaller(s.h, f) && s.act == Executing(f, inside) && !s.h[f].kont.Stop?
    requires var c := s.h[f].code; c.Done? || c.CoReturn? || c.Throw?
    ensures Measure(Advance(s, f, inside)) < Weight(s.h, f)
  {
    LeafWeight(s.h, f, Advance(s, f, inside).h[f]);
  }

  lemma OperationWeight(s: State, f: Id, inside: set<Executor>)
    requires HasCaller(s.h, f) && Readable(s.h, f) && s.h[f].code.Operation?
    ensures Measure(Advance(s, f, inside)) < Weight(s.h, f)
    ensures s.act.Executing? && s.act.f == f ==> Measure(AdvanceImmediately(s, f)) < Weight(s.h, f)
  {
    var fr := s.h[f];
    var fr' := fr.(code := fr.code.next, wait := Some(fr.code.x));
    LeafWeight(s.h, f, fr');
    LeafWeight(s.h, f, Settle(fr', fr.code.result(fr.store)));
    assert Advance(s, f, inside).h == s.h[f := fr'];
  }

  lemma HopWeight(s: State, f: Id, inside: set<Executor>)
    requires HasCaller(s.h, f) && (s.h[f].code.Hop? || s.h[f].code.Cancel?)
    requires s.act == Executing(f, inside)
    ensures Measure(Advance(s, f, inside)) < Weight(s.h, f)
  {
    var fr := s.h[f];
    if fr.code.Hop? {
      var fr' := SetExecutor(fr.(code := fr.code.next), fr.code.to, fr.code.typed);
      LeafWeight(s.h, f, fr');
      assert Advance(s, f, inside).h == s.h[f := fr'];
    } else {
      LeafWeight(s.h, f, Request(f, fr.(code := fr.code.next), fr.code.request));
    }
  }

  lemma AdvanceWeight(s: State, f: Id, inside: set<Executor>, goal: Outcome)
    requires Inv(s, goal) && s.act == Executing(f, inside)
    ensures Measure(Advance(s, f, inside)) < Measure(s)
  {
    var fr := s.h[f];
    PointerIsLookup(s.h, f);
    if fr.kont.Stop? && (fr.code.Done? || fr.code.CoReturn? || fr.code.Throw?) {
      LeaveLastHolds(s, f, inside, goal);
      FinishWeight(s, f, Rest(fr), inside, goal);
    } else if fr.code.Await? {
      AwaitWeight(s, f, inside);
    } else {
      if fr.code.Operation? {
        OperationWeight(s, f, inside);
      } else if fr.code.Hop? || fr.code.Cancel? {
        HopWeight(s, f, inside);
      } else if fr.code.Assign? || fr.code.If? || fr.code.Try? {
        BlockWeight(s, f, inside);
      } else {
        LeaveWeight(s, f, inside);
      }
    }
  }

  lemma MeasureDrops(s: State, e: Event, goal: Outcome)
    requires Inv(s, goal) && Enabled(s, e)
    ensures Measure(Step(s, e)) < Measure(s)
  {
    match e
    case Start(_) => StartWeight(s, e, goal);
    case DropUnstarted =>
    case Act => AdvanceWeight(s, s.act.f, s.act.inside, goal);
    case ActImmediately => OperationWeight(s, s.act.f, s.act.inside);
    case InitiatorArrives => InitiatorWeight(s, goal);
    case HandlerRuns(inside) => HandlerWeight(s, inside, goal);
    case HandlerOrphaned => StoreHolds(s, goal);
    case HandlerDropped => DroppedWeight(s);
    case QueueRuns(inside) => ResumeWeight(s, inside, goal);
    case QueueDropped =>
  }

  lemma InitiatorWeight(s: State, goal: Outcome)
    requires Inv(s, goal) && Enabled(s, InitiatorArrives)
    ensures Measure(Step(s, InitiatorArrives)) < Measure(s)
  {
    if s.act.cell == Completed {
      ResumeWeight(s, s.act.home, goal);
    }
  }

  lemma DroppedWeight(s: State)
    requires Enabled(s, HandlerDropped) && InHeap(s.h, s.act.waiter)
    ensures Measure(Step(s, HandlerDropped)) < Measure(s)
  {
  }

  lemma StartWeight(s: State, e: Event, goal: Outcome)
    requires Inv(s, goal) && s.act.Unstarted? && e.Start?
    ensures Measure(Step(s, e)) < Measure(s)
  {
    assert !HasCaller(s.h, ROOT);
    assert Weight(Step(s, e).h, TRAMPOLINE) == 0;
  }

  lemma HandlerWeight(s: State, inside: set<Executor>, goal: Outcome)
    requires Inv(s, goal) && Enabled(s, HandlerRuns(inside))
    ensures Measure(Step(s, HandlerRuns(inside))) < Measure(s)
  {
    var w := s.act.waiter;
    HandlerIs(s, inside, goal);
    var s' := AfterExchange(s);
    if s.act.brings.Some? {
      LeafWeight(s.h, w, s'.h[w]);
    }
    if s.act.cell == Awaiting {
      ResumeWeight(s', inside, goal);
    }
  }

  /** No run is longer than the text of the program allows. */
  lemma {:induction false} RunsAreBounded(s: State, es: seq<Event>, goal: Outcome)
    requires Inv(s, goal) && Legal(s, es)
    ensures |es| <= Measure(s)
    decreases |es|
  {
    if |es| > 0 {
      MeasureDrops(s, es[0], goal);
      StepHolds(s, es[0], goal);
      RunsAreBounded(Step(s, es[0]), es[1..], goal);
    }
  }

  // ----- no run gets stuck; only drops lose an outcome -----

  /** In particular, from the start: at most eight events more than the program has text. */
  lemma RunLength(code: Code, store: Store, es: seq<Event>)
    requires Legal(Init(code, store), es)
    ensures |es| <= 8 + Size(code)
  {
    InitHolds(code, store);
    RunsAreBounded(Init(code, store), es, Run(code, store));
  }

  /** A task that is not over can always go on without anything being dropped. */
  lemma NeverStuck(s: State, goal: Outcome) returns (e: Event)
    requires Inv(s, goal) && !s.act.Over?
    ensures Enabled(s, e) && !Drops(e)
  {
    match s.act
    case Unstarted => e := Start({});
    case Executing(_, _) => e := Act;
    case Meeting(_, _, _, target, cell, _) =>
      e := if cell != Awaiting then InitiatorArrives
           else HandlerRuns(if target.Some? then Around(target.value) else {});
    case Queued(_, on) => e := QueueRuns(Around(on));
  }

  ghost predicate Complete(s: State) {
    forall e :: !Enabled(s, e)
  }

  /** The outcome of this task will never be, or was not, delivered. */
  predicate Doomed(s: State) {
    (s.act.Meeting? && s.act.cell == Destroyed) || (s.act.Over? && s.delivered.None?)
  }

  lemma ResumeNotDoomed(s: State, inside: set<Executor>, goal: Outcome)
    requires Inv(s, goal) && (s.act.Meeting? || s.act.Queued?)
    requires s.act.Meeting? && s.act.brings.Some? ==> s.act.cell == Completed
    ensures !Doomed(ResumeOn(s, s.act.resumes, inside))
  {
    ResumeHolds(s, inside, goal);
    var r := s.act.resumes;
    if s.h[r].Trampoline? {
      DeliveredStays(Collect(s, s.h[r].callee).0.(delivered := Collect(s, s.h[r].callee).1, act := Over), r);
    }
  }

  lemma {:induction false} DeliveredStays(s: State, f: Id)
    ensures DestroyChain(s, f).delivered == s.delivered
    decreases s.h.Keys
  {
    if f in s.h && s.h[f].Frame? && s.h[f].caller.Some? {
      DeliveredStays(s.(h := s.h - {f}, freed := s.freed + [f]), s.h[f].caller.value);
    }
  }

  lemma FinishNotDoomed(s: State, f: Id, o: Outcome, inside: set<Executor>, goal: Outcome)
    requires Open(s) && s.act.Executing? && Whole(s.h, f) && Idle(s.h[f])
    requires Through(s.h, s.h[f].caller.value, o) == goal
    ensures !Doomed(Finish(s, f, o, inside))
  {
    var c := s.h[f].caller.value;
    var s' := s.(h := s.h[f := s.h[f].(result := Some(o), caller := None)]);
    FinishIs(s, f, o, inside);
    ReleaseCallerHolds(s, f, o, goal);
    var q := s'.(act := Meeting(f, c, None, Some(Context(0)), Completed, inside));
    ResumeCallerHolds(s', c, f, inside, goal);
    if s'.h[c].Trampoline? {
      DeliveredStays(Collect(s', f).0.(delivered := Collect(s', f).1, act := Over), c);
    }
  }

  /** Dropping the owner of a task that has delivered nothing dooms it. */
  lemma DropDooms(s: State, f: Id)
    requires s.delivered.None?
    ensures Doomed(DropOwner(s, f)) && forall b :: Doomed(DropOwner(s, f).(leaky := b))
  {
    DeliveredStays(s, f);
  }

  lemma InitiatorDoomed(s: State, goal: Outcome)
    requires Inv(s, goal) && Enabled(s, InitiatorArrives)
    ensures Doomed(Step(s, InitiatorArrives)) <==> Doomed(s)
  {
    if s.act.cell == Completed {
      ResumeNotDoomed(s, s.act.home, goal);
    } else {
      DropDooms(s, s.act.resumes);
    }
  }

  lemma HandlerDoomed(s: State, inside: set<Executor>, goal: Outcome)
    requires Inv(s, goal) && Enabled(s, HandlerRuns(inside))
    ensures !Doomed(Step(s, HandlerRuns(inside)))
  {
    HandlerIs(s, inside, goal);
    if s.act.cell == Awaiting {
      ResumeNotDoomed(AfterExchange(s), inside, goal);
    }
  }

  lemma DropEventDoomed(s: State, e: Event, goal: Outcome)
    requires Inv(s, goal) && Enabled(s, e) && Drops(e)
    ensures Doomed(Step(s, e))
  {
    match e
    case DropUnstarted => DropDooms(s, ROOT);
    case HandlerOrphaned =>
      StoreHolds(s, goal);
      DropDooms(AfterExchange(s), s.act.resumes);
    case HandlerDropped => DropDooms(s, s.act.resumes);
    case QueueDropped => DropDooms(s, s.act.resumes);
  }

  /** A step dooms a task exactly when it drops a handler. */
  lemma DoomedByDrops(s: State, e: Event, goal: Outcome)
    requires Inv(s, goal) && Enabled(s, e)
    ensures Doomed(Step(s, e)) <==> Doomed(s) || Drops(e)
  {
    if Drops(e) {
      DropEventDoomed(s, e, goal);
    } else {
      match e
      case Start(_) =>
      case Act => AdvanceNotDoomed(s, s.act.f, s.act.inside, goal);
      case ActImmediately =>
      case InitiatorArrives => InitiatorDoomed(s, goal);
      case HandlerRuns(inside) => HandlerDoomed(s, inside, goal);
      case QueueRuns(inside) => ResumeNotDoomed(s, inside, goal);
    }
  }

  lemma AdvanceNotDoomed(s: State, f: Id, inside: set<Executor>, goal: Outcome)
    requires Inv(s, goal) && s.act == Executing(f, inside)
    ensures !Doomed(Advance(s, f, inside))
  {
    var fr := s.h[f];
    if fr.kont.Stop? && (fr.code.Done? || fr.code.CoReturn? || fr.code.Throw?) {
      LeaveLastHolds(s, f, inside, goal);
      FinishNotDoomed(s, f, Rest(fr), inside, goal);
    }
  }

  ghost predicate SomethingDropped(es: seq<Event>) {
    exists i :: 0 <= i < |es| && Drops(es[i])
  }

  lemma DroppedFirstOrLater(es: seq<Event>)
    requires |es| > 0
    ensures SomethingDropped(es) <==> Drops(es[0]) || SomethingDropped(es[1..])
  {
    if i :| 0 < i < |es| && Drops(es[i]) {
      assert es[1..][i - 1] == es[i];
    }
    if i :| 0 <= i < |es[1..]| && Drops(es[1..][i]) {
      assert es[i + 1] == es[1..][i];
    }
  }

  lemma {:induction false} RunDoomed(s: State, es: seq<Event>, goal: Outcome)
    requires Inv(s, goal) && Legal(s, es)
    ensures Doomed(Reached(s, es)) <==> Doomed(s) || SomethingDropped(es)
    decreases |es|
  {
    if |es| > 0 {
      StepHolds(s, es[0], goal);
      DoomedByDrops(s, es[0], goal);
      RunDoomed(Step(s, es[0]), es[1..], goal);
      DroppedFirstOrLater(es);
    }
  }

  /** The main theorem: a run that can go no further has delivered the outcome of plain
      evaluation if nothing was dropped along the way, and nothing otherwise. */
  lemma CompleteRunsDeliver(code: Code, store: Store, es: seq<Event>)
    requires Legal(Init(code, store), es) && Complete(Reached(Init(code, store), es))
    ensures Reached(Init(code, store), es).delivered ==
      if SomethingDropped(es) then None else Some(Run(code, store))
  {
    var s, goal := Init(code, store), Run(code, store);
    InitHolds(code, store);
    RunHolds(s, es, goal);
    RunDoomed(s, es, goal);
    if !Reached(s, es).act.Over? {
      var e := NeverStuck(Reached(s, es), goal);
    }
  }
}
