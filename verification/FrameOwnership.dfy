/**
  Who owns a frame, when frames are destroyed, and what the copied pointers are worth, in
  every reachable state of the frame machine.
 */
module FrameOwnership {
  import opened Options
  import opened Executors
  import opened Programs
  import opened Rendezvous
  import opened FrameMachine
  import opened FrameInvariant
  import opened FramePreservation

  // ----- one owner each -----

  /** The places that can hold an owning handle. */
  datatype Owner = Promise | Handler | CallerOf(g: Id)

  predicate Owns(s: State, o: Owner, x: Id) {
    match o
    case Promise => s.act.Unstarted? && x == ROOT
    case Handler => (HandlerPending(s) || s.act.Queued?) && s.act.resumes == x
    case CallerOf(g) => InHeap(s.h, g) && s.h[g].caller == Some(x)
  }

  /** The frames that nothing owns: the running one, the one that an initiator is about to
      resume or destroy because the handler already gave it up, the finished callee that is
      only kept until its caller has taken the result, and, when the task is over, what a
      dropped final hop left behind. */
  predicate Unowned(s: State, x: Id) {
    match s.act
    case Executing(f, _) => x == f
    case Meeting(w, r, _, _, cell, _) => (x == r && !HandlerPending(s)) || (x == w && w != r)
    case Queued(r, _) => r in s.h && Callee(s.h[r]) == Some(x)
    case Over => true
    case Unstarted => false
  }

  /** The leaf of the chain that is still linked by `caller` handles. */
  function Leaf(s: State): Id
    requires s.act.Executing? || s.act.Meeting? || s.act.Queued?
  {
    if s.act.Executing? then s.act.f else s.act.resumes
  }

  lemma LeafChain(s: State, goal: Outcome)
    requires Inv(s, goal) && (s.act.Executing? || s.act.Meeting? || s.act.Queued?)
    ensures Chain(s.h, Leaf(s))
    ensures forall x :: x in s.h ==> x in Path(s.h, Leaf(s)) || (Unowned(s, x) && InHeap(s.h, x) && s.h[x].caller.None?)
    ensures forall x :: x in Path(s.h, Leaf(s)) ==> x in s.h
  {
    PathInHeap(s.h, Leaf(s));
  }

  /** A frame's caller is the frame that waits for it. */
  lemma CallerWaits(h: Heap, f: Id, g: Id)
    requires Chain(h, f) && g in Path(h, f) && InHeap(h, g) && h[g].caller.Some?
    ensures h[g].caller.value in h && WaitsFor(h[h[g].caller.value], g)
    ensures h[g].caller.value in Path(h, f) && h[g].caller.value < g
  {
    ChainOfAncestor(h, f, g);
    PathOfAncestor(h, f, g);
  }

  lemma {:induction false} PathOfAncestor(h: Heap, f: Id, g: Id)
    requires Chain(h, f) && g in Path(h, f)
    ensures forall x :: x in Path(h, g) ==> x in Path(h, f)
    decreases f
  {
    if g != f {
      PathOfAncestor(h, h[f].caller.value, g);
    } else if HasCaller(h, f) {
      assert h[f].caller.value in Path(h, h[f].caller.value);
    }
  }

  /** No frame waits for the leaf, and no two frames wait for the same one. */
  lemma UniqueCaller(s: State, goal: Outcome, g: Id, g': Id, x: Id)
    requires Inv(s, goal) && Owns(s, CallerOf(g), x) && Owns(s, CallerOf(g'), x)
    ensures g == g' && x < g && x in s.h
    ensures s.act.Executing? || s.act.Meeting? || s.act.Queued?
    ensures WaitsFor(s.h[x], g) && g in Path(s.h, Leaf(s))
  {
    LeafChain(s, goal);
    CallerWaits(s.h, Leaf(s), g);
    CallerWaits(s.h, Leaf(s), g');
  }

  lemma LeafWaitsForNone(s: State, goal: Outcome, g: Id)
    requires Inv(s, goal) && (s.act.Executing? || s.act.Meeting? || s.act.Queued?)
    requires g in Path(s.h, Leaf(s))
    ensures !WaitsFor(s.h[Leaf(s)], g)
  {
    LeafChain(s, goal);
    PathBelow(s.h, Leaf(s));
  }

  /** Single ownership: in every reachable state no frame has two owners, every owning
      handle refers to a frame that is there, caller handles point at earlier frames, and
      the frames without an owner are exactly those listed above. */
  lemma OneOwner(code: Code, store: Store, es: seq<Event>)
    requires Legal(Init(code, store), es)
    ensures var s := Reached(Init(code, store), es);
      && (forall x: Id, o, o' :: Owns(s, o, x) && Owns(s, o', x) ==> o == o')
      && (forall x: Id, o :: Owns(s, o, x) ==> x in s.h)
      && (forall x: Id, g: Id :: Owns(s, CallerOf(g), x) ==> x < g)
      && (forall x: Id :: x in s.h ==> ((exists o :: Owns(s, o, x)) <==> !Unowned(s, x)))
  {
    var s, goal := Reached(Init(code, store), es), Run(code, store);
    InitHolds(code, store);
    RunHolds(Init(code, store), es, goal);
    forall x: Id, o, o' | Owns(s, o, x) && Owns(s, o', x) ensures o == o' && x in s.h && (o.CallerOf? ==> x < o.g) {
      OwnersAgree(s, goal, o, o', x);
    }
    forall x: Id | x in s.h ensures (exists o :: Owns(s, o, x)) <==> !Unowned(s, x) {
      OwnedUnlessUnowned(s, goal, x);
    }
  }

  lemma OwnersAgree(s: State, goal: Outcome, o: Owner, o': Owner, x: Id)
    requires Inv(s, goal) && Owns(s, o, x) && Owns(s, o', x)
    ensures o == o' && x in s.h && (o.CallerOf? ==> x < o.g)
  {
    if o.CallerOf? && o'.CallerOf? {
      UniqueCaller(s, goal, o.g, o'.g, x);
    } else if o.CallerOf? || o'.CallerOf? {
      var g := if o.CallerOf? then o.g else o'.g;
      UniqueCaller(s, goal, g, g, x);
      LeafWaitsForNone(s, goal, g);
    }
  }

  lemma OwnedUnlessUnowned(s: State, goal: Outcome, x: Id)
    requires Inv(s, goal) && x in s.h
    ensures (exists o :: Owns(s, o, x)) <==> !Unowned(s, x)
  {
    if s.act.Unstarted? {
      assert Owns(s, Promise, x);
    } else if s.act.Over? {
      OverOwnsNothing(s, goal, x);
    } else {
      LeafChain(s, goal);
      var f := Leaf(s);
      if x in Path(s.h, f) {
        if x == f {
          LeafOwner(s, goal);
        } else {
          AncestorOwner(s, goal, x);
        }
      } else {
        FinishedUnowned(s, goal, x);
      }
    }
  }

  lemma OverOwnsNothing(s: State, goal: Outcome, x: Id)
    requires Inv(s, goal) && s.act.Over?
    ensures !exists o :: Owns(s, o, x)
  {
    forall o ensures !Owns(s, o, x) {
      if Owns(s, o, x) { UniqueCaller(s, goal, o.g, o.g, x); }
    }
  }

  lemma LeafOwner(s: State, goal: Outcome)
    requires Inv(s, goal) && (s.act.Executing? || s.act.Meeting? || s.act.Queued?)
    ensures (exists o :: Owns(s, o, Leaf(s))) <==> !Unowned(s, Leaf(s))
  {
    var f := Leaf(s);
    LeafChain(s, goal);
    if HandlerPending(s) || s.act.Queued? {
      assert Owns(s, Handler, f);
    } else {
      forall o ensures !Owns(s, o, f) {
        if Owns(s, o, f) {
          UniqueCaller(s, goal, o.g, o.g, f);
          LeafWaitsForNone(s, goal, o.g);
        }
      }
    }
  }

  lemma AncestorOwner(s: State, goal: Outcome, x: Id)
    requires Inv(s, goal) && (s.act.Executing? || s.act.Meeting? || s.act.Queued?)
    requires x in Path(s.h, Leaf(s)) && x != Leaf(s)
    ensures (exists o :: Owns(s, o, x)) && !Unowned(s, x)
  {
    LeafChain(s, goal);
    PathBelow(s.h, Leaf(s));
    var g := ChildOf(s.h, Leaf(s), x);
    assert Owns(s, CallerOf(g), x);
  }

  lemma {:induction false} ChildOf(h: Heap, f: Id, x: Id) returns (g: Id)
    requires Chain(h, f) && x in Path(h, f) && x != f
    ensures g in Path(h, f) && InHeap(h, g) && h[g].caller == Some(x)
    decreases f
  {
    var c := h[f].caller.value;
    if x == c {
      g := f;
    } else {
      g := ChildOf(h, c, x);
    }
  }

  lemma FinishedUnowned(s: State, goal: Outcome, x: Id)
    requires Inv(s, goal) && (s.act.Executing? || s.act.Meeting? || s.act.Queued?)
    requires x in s.h && x !in Path(s.h, Leaf(s))
    ensures !(exists o :: Owns(s, o, x)) && Unowned(s, x)
  {
    LeafChain(s, goal);
    PathBelow(s.h, Leaf(s));
    forall o ensures !Owns(s, o, x) {
      if Owns(s, o, x) && o.CallerOf? {
        CallerWaits(s.h, Leaf(s), o.g);
      }
    }
  }

  // ----- teardown -----

  /** The handler of a final hop is destroyed without having run. */
  predicate LosesFinalHop(s: State, e: Event) {
    (e.HandlerDropped? || e.QueueDropped?) && FinalHop(s)
  }

  ghost predicate LosesFinalHopIn(s: State, es: seq<Event>)
    requires Legal(s, es)
    decreases |es|
  {
    |es| > 0 && (LosesFinalHop(s, es[0]) || LosesFinalHopIn(Step(s, es[0]), es[1..]))
  }

  /** A finished callee was left behind, or will be as soon as its caller is destroyed. */
  predicate Leaks(s: State) {
    s.leaky || (s.act.Meeting? && s.act.cell == Destroyed && FinalHop(s))
  }

  lemma StepLeaks(s: State, e: Event, goal: Outcome)
    requires Inv(s, goal) && Enabled(s, e)
    ensures Leaks(Step(s, e)) <==> Leaks(s) || LosesFinalHop(s, e)
  {
    match e
    case DropUnstarted => DropKeepsLabels(s, ROOT);
    case Act => AdvanceLeaks(s, goal);
    case HandlerRuns(inside) => HandlerLeaks(s, inside, goal);
    case HandlerOrphaned => OrphanLeaks(s, goal);
    case InitiatorArrives => InitiatorLeaks(s, goal);
    case QueueRuns(inside) => ResumeLeaks(s, inside, goal);
    case _ =>
  }

  lemma OrphanLeaks(s: State, goal: Outcome)
    requires Inv(s, goal) && Enabled(s, HandlerOrphaned)
    ensures !Leaks(Step(s, HandlerOrphaned)) && !Leaks(s)
  {
    StoreHolds(s, goal);
    DropKeepsLabels(AfterExchange(s), s.act.resumes);
  }

  lemma InitiatorLeaks(s: State, goal: Outcome)
    requires Inv(s, goal) && Enabled(s, InitiatorArrives)
    ensures Leaks(Step(s, InitiatorArrives)) <==> Leaks(s)
  {
    if s.act.cell == Completed {
      ResumeLeaks(s, s.act.home, goal);
    }
  }

  lemma ReturnLeaks(s: State, c: Id, w: Id, inside: set<Executor>, goal: Outcome)
    requires Finishing(s.h, c, w, goal)
    ensures Leaks(ResumeOn(s, c, inside)) <==> s.leaky
  {
    ResumeCallerIs(s, c, w, inside, goal);
  }

  lemma ResumeLeaks(s: State, inside: set<Executor>, goal: Outcome)
    requires Inv(s, goal) && (s.act.Meeting? || s.act.Queued?)
    requires s.act.Meeting? && s.act.brings.Some? ==> s.act.cell == Completed
    ensures !Leaks(ResumeOn(s, s.act.resumes, inside))
  {
    var r := s.act.resumes;
    if s.act.Meeting? && s.act.waiter != r {
      ReturnLeaks(s, r, s.act.waiter, inside, goal);
    } else if s.act.Queued? && Callee(s.h[r]).Some? {
      ReturnLeaks(s, r, Callee(s.h[r]).value, inside, goal);
    }
  }

  lemma HandlerLeaks(s: State, inside: set<Executor>, goal: Outcome)
    requires Inv(s, goal) && Enabled(s, HandlerRuns(inside))
    ensures !Leaks(Step(s, HandlerRuns(inside)))
  {
    HandlerIs(s, inside, goal);
    if s.act.cell == Awaiting {
      ResumeLeaks(AfterExchange(s), inside, goal);
    }
  }

  lemma AdvanceLeaks(s: State, goal: Outcome)
    requires Inv(s, goal) && s.act.Executing?
    ensures !Leaks(Step(s, Act))
  {
    var f := s.act.f;
    var fr := s.h[f];
    if fr.kont.Stop? && (fr.code.Done? || fr.code.CoReturn? || fr.code.Throw?) {
      var o := Rest(fr);
      LeaveLastHolds(s, f, s.act.inside, goal);
      FinishIs(s, f, o, s.act.inside);
      ReleaseCallerHolds(s, f, o, goal);
      ReturnLeaks(s.(h := s.h[f := fr.(result := Some(o), caller := None)]), fr.caller.value, f, s.act.inside, goal);
    }
  }

  lemma {:induction false} RunLeaks(s: State, es: seq<Event>, goal: Outcome)
    requires Inv(s, goal) && Legal(s, es)
    ensures Leaks(Reached(s, es)) <==> Leaks(s) || LosesFinalHopIn(s, es)
    decreases |es|
  {
    if |es| > 0 {
      StepHolds(s, es[0], goal);
      StepLeaks(s, es[0], goal);
      RunLeaks(Step(s, es[0]), es[1..], goal);
    }
  }

  /** Teardown: at every moment each frame that was allocated is in the heap or was
      destroyed exactly once; and when a task is over nothing is left in the heap exactly
      when no handler of a final hop was dropped. If one was, one finished callee is left. */
  lemma DestroyedExactlyOnce(code: Code, store: Store, es: seq<Event>)
    requires Legal(Init(code, store), es)
    ensures var s := Reached(Init(code, store), es);
      && (forall i, j :: 0 <= i < j < |s.freed| ==> s.freed[i] != s.freed[j])
      && (forall x :: ROOT <= x < s.next ==> (x in s.h <==> x !in s.freed))
      && (s.act.Over? ==>
            && (s.h == map[] <==> !LosesFinalHopIn(Init(code, store), es))
            && |s.h.Keys| <= 1
            && forall x :: x in s.h ==> s.h[x].Frame? && s.h[x].result.Some?)
  {
    var s0, goal := Init(code, store), Run(code, store);
    InitHolds(code, store);
    RunHolds(s0, es, goal);
    RunLeaks(s0, es, goal);
    var s := Reached(s0, es);
    if s.act.Over? && !s.leaky {
      assert s.h == map[];
    }
  }

  // ----- the pointers and copies made at await time -----

  /** A run that leaves a frame behind: the callee leaves its strand by a queue, and the
      handler in the queue is dropped. */
  lemma FinishedCalleeLeftBehind() returns (es: seq<Event>)
    ensures var s := Init(Await("x", st => st, Hop(Post, Strand(2, Context(1)), true, Done), Done), map[]);
      && Legal(s, es) && LosesFinalHopIn(s, es)
      && var s' := Reached(s, es);
         s'.act.Over? && s'.h.Keys == {2} && s'.h[2].Frame? && s'.h[2].result.Some?
  {
    es := LeavingAStrandByQueue();
    var code := Await("x", st => st, Hop(Post, Strand(2, Context(1)), true, Done), Done);
    ChainOfTwo(Reached(Init(code, map[]), es));
    Extend(Init(code, map[]), es, QueueDropped);
    es := es + [QueueDropped];
    var s' := Reached(Init(code, map[]), es);
    DestroyedExactlyOnce(code, map[], es);
    OneKey(s'.h.Keys, 2);
  }

  lemma ChainOfTwo(s: State)
    requires InHeap(s.h, ROOT) && s.h[ROOT].caller == Some(TRAMPOLINE)
    requires TRAMPOLINE in s.h && s.h[TRAMPOLINE].Trampoline?
    ensures forall x :: x in DropOwner(s, ROOT).h <==> x in s.h && x != ROOT && x != TRAMPOLINE
  {
    var s1 := s.(h := s.h - {ROOT}, freed := s.freed + [ROOT]);
    assert DestroyChain(s, ROOT) == DestroyChain(s1, TRAMPOLINE);
  }

  lemma OneKey(keys: set<Id>, x: Id)
    requires x in keys && |keys| <= 1
    ensures keys == {x}
  {
    assert |keys - {x}| == 0;
  }

  lemma LeavingAStrandByQueue() returns (es: seq<Event>)
    ensures var s := Init(Await("x", st => st, Hop(Post, Strand(2, Context(1)), true, Done), Done), map[]);
      && Legal(s, es)
      && var s' := Reached(s, es);
         && !s'.fault && s'.act == Queued(ROOT, Context(1))
         && InHeap(s'.h, ROOT) && s'.h[ROOT].caller == Some(TRAMPOLINE)
         && TRAMPOLINE in s'.h && s'.h[TRAMPOLINE].Trampoline? && 2 in s'.h
  {
    var pool := Context(1);
    var strand := Strand(2, pool);
    var code := Await("x", st => st, Hop(Post, strand, true, Done), Done);
    var s := Init(code, map[]);
    assert Around(strand) == {strand, pool};
    es := [];
    Extend(s, es, Start({}));
    es := es + [Start({})];
    Extend(s, es, Act);
    es := es + [Act];
    Extend(s, es, Act);
    es := es + [Act];
    Extend(s, es, QueueRuns({strand, pool}));
    es := es + [QueueRuns({strand, pool})];
    Extend(s, es, Act);
    es := es + [Act];
  }

  /** The chain of frames of the task that are not yet done. */
  ghost predicate OnChain(s: State, f: Id) {
    (s.act.Executing? || s.act.Meeting? || s.act.Queued?) && f in Path(s.h, Leaf(s)) && InHeap(s.h, f)
  }

  /** For every frame of the chain in every reachable state the pointer and the slot that it
      copied from its caller find what a search along the chain finds. */
  lemma CopiesFollowChain(code: Code, store: Store, es: seq<Event>, f: Id)
    requires Legal(Init(code, store), es) && OnChain(Reached(Init(code, store), es), f)
    ensures var h := Reached(Init(code, store), es).h;
      && Chain(h, f) && Readable(h, f)
      && GetExecutor(h, f) == ExecLookup(h, f)
      && (h[f].source == f || (h[f].source < f && h[f].source in Path(h, f) && h[h[f].source].executor.Some?))
      && EffectiveSlot(h[f].slot, h[f].state) == SlotLookup(h, f)
  {
    var s0, goal := Init(code, store), Run(code, store);
    InitHolds(code, store);
    RunHolds(s0, es, goal);
    var s := Reached(s0, es);
    LeafChain(s, goal);
    ChainOfAncestor(s.h, Leaf(s), f);
    PointerIsLookup(s.h, f);
    PathBelow(s.h, s.h[f].caller.value);
    assert Path(s.h, f) == [f] + Path(s.h, s.h[f].caller.value);
  }
}
