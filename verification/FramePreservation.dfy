/**
  Every event keeps the invariant of the frame machine.
 */
module FramePreservation {
  import opened Options
  import opened Executors
  import opened Programs
  import opened Rendezvous
  import opened FrameMachine
  import opened FrameInvariant

  ghost predicate Open(s: State) {
    !s.fault && Ledger(s) && !s.act.Over? && s.delivered.None? && !s.leaky
  }

  lemma InitHolds(code: Code, store: Store)
    ensures Inv(Init(code, store), Run(code, store))
  {
    var s := Init(code, store);
    assert s.h[ROOT] == Fresh(ROOT, code, store);
  }

  lemma StartHolds(s: State, inside: set<Executor>, goal: Outcome)
    requires Inv(s, goal) && s.act.Unstarted?
    ensures Inv(Step(s, Start(inside)), goal)
  {
    var s' := Step(s, Start(inside));
    assert Path(s'.h, TRAMPOLINE) == [TRAMPOLINE];
    assert Path(s'.h, ROOT) == [ROOT] + Path(s'.h, TRAMPOLINE);
    assert Chain(s'.h, TRAMPOLINE);
    assert Whole(s'.h, ROOT);
  }

  /** The leaf rewrites its own fields and what its body yields stays the same. */
  lemma PutHolds(s: State, f: Id, fr: Frame, goal: Outcome)
    requires Open(s) && Whole(s.h, f)
    requires fr.Frame? && fr.caller == s.h[f].caller && Linked(s.h, f, fr)
    ensures Open(Put(s, f, fr)) && Whole(Put(s, f, fr).h, f)
    ensures forall o :: Through(Put(s, f, fr).h, fr.caller.value, o) == Through(s.h, fr.caller.value, o)
    ensures ExecLookup(Put(s, f, fr).h, fr.caller.value) == ExecLookup(s.h, fr.caller.value)
  {
    LeafUpdate(s.h, f, fr);
  }

  lemma FreeOneHolds(s: State, w: Id)
    requires Open(s) && w in s.h && w != TRAMPOLINE
    ensures Open(s.(h := s.h - {w}, freed := s.freed + [w]))
  {
    AppendDistinct(s.freed, [w]);
  }

  /** Collecting the outcome of the finished callee w leaves exactly c's chain. */
  lemma CollectHolds(s: State, c: Id, w: Id, goal: Outcome)
    requires Open(s) && Finishing(s.h, c, w, goal)
    ensures var s' := s.(h := s.h - {w}, freed := s.freed + [w]);
      && Collect(s, w) == (s', s.h[w].result)
      && Open(s')
      && Chain(s'.h, c) && (forall x :: x in s'.h <==> x in Path(s'.h, c))
      && s'.h[c] == s.h[c]
      && Through(s'.h, c, s.h[w].result.value) == goal
  {
    var s' := s.(h := s.h - {w}, freed := s.freed + [w]);
    FreeOneHolds(s, w);
    PathBelow(s.h, c);
    Untouched(s.h, s'.h, c);
  }

  lemma DeliverHolds(s: State, w: Id, inside: set<Executor>, goal: Outcome)
    requires Open(s) && Finishing(s.h, TRAMPOLINE, w, goal)
    ensures Inv(ResumeOn(s, TRAMPOLINE, inside), goal)
  {
    CollectHolds(s, TRAMPOLINE, w, goal);
    var s1 := Collect(s, w).0;
    assert Path(s1.h, TRAMPOLINE) == [TRAMPOLINE];
    AppendDistinct(s1.freed, [TRAMPOLINE]);
    assert (s1.h - {TRAMPOLINE}).Keys == {};
  }

  /** A suspended frame takes what it was waiting for and goes on. */
  lemma SettleHolds(s: State, f: Id, o: Outcome, inside: set<Executor>, goal: Outcome)
    requires Open(s) && Whole(s.h, f) && s.h[f].result.None?
    requires Through(s.h, s.h[f].caller.value, Rest(Settle(s.h[f], o))) == goal
    ensures Inv(Put(s, f, Settle(s.h[f], o)).(act := Executing(f, inside)), goal)
  {
    PutHolds(s, f, Settle(s.h[f], o), goal);
  }

  /** Resuming the caller collects the callee's outcome and destroys the callee. */
  lemma ResumeCallerHolds(s: State, c: Id, w: Id, inside: set<Executor>, goal: Outcome)
    requires Open(s) && Finishing(s.h, c, w, goal)
    ensures Inv(ResumeOn(s, c, inside), goal)
    ensures s.h[c].Frame? ==> ResumeOn(s, c, inside).act == Executing(c, inside)
  {
    if s.h[c].Trampoline? {
      DeliverHolds(s, w, inside, goal);
    } else {
      CollectHolds(s, c, w, goal);
      SettleHolds(Collect(s, w).0, c, s.h[w].result.value, inside, goal);
    }
  }

  /** The state after the caller c of the finished callee w has been resumed. */
  function AfterReturn(s: State, c: Id, w: Id, inside: set<Executor>): State
    requires c in s.h && InHeap(s.h, w) && s.h[w].result.Some?
  {
    var o := s.h[w].result.value;
    if s.h[c].Trampoline? then
      s.(h := s.h - {w, c}, freed := s.freed + [w, c], delivered := Some(o), act := Over)
    else
      s.(h := (s.h - {w})[c := Settle(s.h[c], o)], freed := s.freed + [w], act := Executing(c, inside))
  }

  lemma ResumeCallerIs(s: State, c: Id, w: Id, inside: set<Executor>, goal: Outcome)
    requires Finishing(s.h, c, w, goal)
    ensures ResumeOn(s, c, inside) == AfterReturn(s, c, w, inside)
  {
    var s1 := s.(h := s.h - {w}, freed := s.freed + [w]);
    assert DestroyChain(s, w) == s1;
    assert s.h - {w} - {c} == s.h - {w, c};
    assert s.freed + [w] + [c] == s.freed + [w, c];
  }

  /** At final suspension f keeps only its result; its caller's chain is what is left to run. */
  lemma ReleaseCallerHolds(s: State, f: Id, o: Outcome, goal: Outcome)
    requires Open(s) && Whole(s.h, f) && Idle(s.h[f])
    requires Through(s.h, s.h[f].caller.value, o) == goal
    ensures var c := s.h[f].caller.value;
            var h' := s.h[f := s.h[f].(result := Some(o), caller := None)];
      && Finishing(h', c, f, goal) && Ledger(s.(h := h'))
      && ExecLookup(h', c) == ExecLookup(s.h, c)
  {
    var c := s.h[f].caller.value;
    var h' := s.h[f := s.h[f].(result := Some(o), caller := None)];
    Untouched(s.h, h', c);
    PathBelow(s.h, c);
    assert Path(s.h, f) == [f] + Path(s.h, c);
  }

  /** Final suspension decides by the nearest executor up the chain. */
  lemma RouteIsHandBack(h: Heap, f: Id)
    requires Whole(h, f)
    ensures Readable(h, f)
    ensures var fr := h[f];
      FinalRoute(fr.executor, fr.inner, fr.source == f, h[fr.source].executor)
      == HandBack(fr.executor, fr.inner, ExecLookup(h, fr.caller.value))
  {
    PointerIsLookup(h, f);
    PathBelow(h, h[f].caller.value);
  }

  /** The four ways out of final suspension, with the caller's own lookup in place of the pointer. */
  lemma FinishIs(s: State, f: Id, o: Outcome, inside: set<Executor>)
    requires Whole(s.h, f) && Idle(s.h[f])
    ensures
      var fr := s.h[f];
      var c := fr.caller.value;
      var up := ExecLookup(s.h, c);
      var s' := s.(h := s.h[f := fr.(result := Some(o), caller := None)]);
      Finish(s, f, o, inside) ==
        if fr.executor.Some? && up.Some? then
          if fr.inner.Some? then s'.(act := Queued(c, up.value))
          else s'.(act := Meeting(f, c, None, up, Initializing, inside))
        else if fr.inner.Some? then s'.(act := Queued(c, fr.inner.value))
        else ResumeOn(s', c, inside)
  {
    RouteIsHandBack(s.h, f);
  }

  lemma FinishHolds(s: State, f: Id, o: Outcome, inside: set<Executor>, goal: Outcome)
    requires Open(s) && s.act.Executing? && Whole(s.h, f) && Idle(s.h[f])
    requires Through(s.h, s.h[f].caller.value, o) == goal
    ensures Inv(Finish(s, f, o, inside), goal)
  {
    var fr := s.h[f];
    var c := fr.caller.value;
    var up := ExecLookup(s.h, c);
    var s' := s.(h := s.h[f := fr.(result := Some(o), caller := None)]);
    FinishIs(s, f, o, inside);
    ReleaseCallerHolds(s, f, o, goal);
    if fr.executor.Some? && up.Some? {
      if fr.inner.Some? {
        DeferredHolds(s', c, f, up.value, goal);
      } else {
        MeetingHolds(s', c, f, up.value, inside, goal);
      }
    } else if fr.inner.Some? {
      DeferredHolds(s', c, f, fr.inner.value, goal);
    } else {
      ResumeCallerHolds(s', c, f, inside, goal);
    }
  }

  lemma MeetingHolds(s: State, c: Id, w: Id, e: Executor, home: set<Executor>, goal: Outcome)
    requires Open(s) && Finishing(s.h, c, w, goal) && ExecLookup(s.h, c) == Some(e)
    ensures Inv(s.(act := Meeting(w, c, None, Some(e), Initializing, home)), goal)
  {
  }

  lemma DeferredHolds(s: State, c: Id, w: Id, e: Executor, goal: Outcome)
    requires Open(s) && Finishing(s.h, c, w, goal)
    requires ExecLookup(s.h, c).Some? ==> ExecLookup(s.h, c) == Some(e)
    ensures Inv(s.(act := Queued(c, e)), goal)
  {
  }

  /** A newly allocated frame g becomes the leaf above f. */
  lemma NewLeaf(h: Heap, f: Id, g: Id, child: Frame)
    requires Chain(h, f) && f < g && g !in h
    requires WaitsFor(h[f], g) && Linked(h, g, child) && child.caller == Some(f)
    ensures Chain(h[g := child], g) && Path(h[g := child], g) == [g] + Path(h, f)
    ensures forall o :: Through(h[g := child], f, o) == Through(h, f, o)
  {
    var h' := h[g := child];
    Untouched(h, h', f);
    PathBelow(h, f);
  }

  /** The callee's copies of its caller's executor pointer and slot are right when made. */
  lemma ChildLinked(h: Heap, f: Id, g: Id, child: Frame)
    requires Chain(h, f) && InHeap(h, f) && f < g && child.Frame?
    requires child.inner.None? && child.past == Past(None, false) && child.state == Unconnected
    requires child.caller == Some(f)
    requires Readable(h, f) ==>
      child.source == if GetExecutor(h, f).Some? then Referent(h, f) else g
    requires child.slot == EffectiveSlot(h[f].slot, h[f].state)
    ensures Linked(h, g, child)
  {
    PointerIsLookup(h, f);
    assert BaseSlot(h, g, child) == SlotLookup(h, f);
  }

  /** f remembers the callee it awaits; what it yields for a given outcome is unchanged. */
  lemma ParkHolds(s: State, f: Id, g: Id, o: Outcome, goal: Outcome)
    requires Open(s) && Whole(s.h, f)
    requires var fr := s.h[f]; fr.wait.Some? && fr.op.None? && fr.awaits.None? && fr.result.None?
    requires Through(s.h, s.h[f].caller.value, Rest(Settle(s.h[f], o))) == goal
    ensures var s1 := Put(s, f, s.h[f].(awaits := Some(g)));
      && Open(s1) && Whole(s1.h, f) && WaitsFor(s1.h[f], g)
      && Through(s1.h, f, o) == goal
      && Readable(s.h, f) && Readable(s1.h, f)
      && GetExecutor(s1.h, f) == GetExecutor(s.h, f)
  {
    var fr := s.h[f].(awaits := Some(g));
    PutHolds(s, f, fr, goal);
    PointerIsLookup(s.h, f);
    PointerIsLookup(Put(s, f, fr).h, f);
    assert Settle(fr, o) == Settle(s.h[f], o);
  }

  lemma StartChildHolds(s: State, f: Id, callee: Code, args: Store, inside: set<Executor>, goal: Outcome)
    requires Open(s) && s.act.Executing? && Whole(s.h, f)
    requires var fr := s.h[f]; fr.wait.Some? && fr.op.None? && fr.awaits.None? && fr.result.None?
    requires Through(s.h, s.h[f].caller.value, Rest(Settle(s.h[f], Run(callee, args)))) == goal
    ensures Inv(StartChild(s, f, callee, args, inside), goal)
  {
    var g := s.next;
    ParkHolds(s, f, g, Run(callee, args), goal);
    var s1 := Put(s, f, s.h[f].(awaits := Some(g)));
    var s' := StartChild(s, f, callee, args, inside);
    var child := s'.h[g];
    ChildLinked(s1.h, f, g, child);
    NewLeaf(s1.h, f, g, child);
    NewLeafHolds(s1, s', f, g, inside, goal);
  }

  lemma NewLeafHolds(s1: State, s': State, f: Id, g: Id, inside: set<Executor>, goal: Outcome)
    requires Open(s1) && Whole(s1.h, f) && g == s1.next
    requires InHeap(s'.h, g) && s' == s1.(h := s1.h[g := s'.h[g]], next := g + 1, act := Executing(g, inside))
    requires Idle(s'.h[g]) && s'.h[g].caller == Some(f)
    requires Chain(s'.h, g) && Path(s'.h, g) == [g] + Path(s1.h, f)
    requires Through(s'.h, f, Rest(s'.h[g])) == goal
    ensures Inv(s', goal)
  {
    NewLedger(s1, s', g);
    assert forall x :: x in s'.h <==> x in Path(s'.h, g);
    assert Going(s'.h, g, goal);
  }

  lemma NewLedger(s: State, s': State, g: Id)
    requires Ledger(s) && g == s.next && g in s'.h && s'.h == s.h[g := s'.h[g]]
    requires s'.next == g + 1 && s'.freed == s.freed && (s'.act.Over? || !s.act.Over?)
    ensures Ledger(s')
  {
  }

  // ----- one step of a body -----

  /** f moves on inside its own body, or its executor or slots change. */
  lemma GoHolds(s: State, f: Id, fr: Frame, goal: Outcome)
    requires Inv(s, goal) && s.act.Executing? && s.act.f == f
    requires Idle(fr) && fr.caller == s.h[f].caller && Linked(s.h, f, fr)
    requires Rest(fr) == Rest(s.h[f])
    ensures Inv(Put(s, f, fr), goal) && Going(Put(s, f, fr).h, f, goal)
  {
    PutHolds(s, f, fr, goal);
  }

  /** Blocks are entered and left as plain evaluation enters and leaves them. */
  lemma ControlHolds(s: State, f: Id, inside: set<Executor>, goal: Outcome)
    requires Inv(s, goal) && s.act == Executing(f, inside)
    requires var c := s.h[f].code; c.Assign? || c.If? || c.Try?
    ensures Inv(Advance(s, f, inside), goal)
  {
    GoHolds(s, f, Advance(s, f, inside).h[f], goal);
  }

  /** Falling off a block, co_return and throw unwind the blocks around them. */
  lemma LeaveHolds(s: State, f: Id, inside: set<Executor>, goal: Outcome)
    requires Inv(s, goal) && s.act == Executing(f, inside) && !s.h[f].kont.Stop?
    requires var c := s.h[f].code; c.Done? || c.CoReturn? || c.Throw?
    ensures Inv(Advance(s, f, inside), goal)
  {
    GoHolds(s, f, Advance(s, f, inside).h[f], goal);
  }

  /** Leaving the outermost block is final suspension with the outcome of the body. */
  lemma LeaveLastHolds(s: State, f: Id, inside: set<Executor>, goal: Outcome)
    requires Inv(s, goal) && s.act == Executing(f, inside) && s.h[f].kont.Stop?
    requires var c := s.h[f].code; c.Done? || c.CoReturn? || c.Throw?
    ensures Inv(Advance(s, f, inside), goal)
    ensures Advance(s, f, inside) == Finish(s, f, Rest(s.h[f]), inside)
  {
    FinishHolds(s, f, Rest(s.h[f]), inside, goal);
  }

  lemma AwaitHolds(s: State, f: Id, inside: set<Executor>, goal: Outcome)
    requires Inv(s, goal) && s.act == Executing(f, inside) && s.h[f].code.Await?
    ensures Inv(Advance(s, f, inside), goal)
  {
    var fr := s.h[f];
    var fr' := fr.(code := fr.code.next, wait := Some(fr.code.x));
    var o := Run(fr.code.callee, fr.code.args(fr.store));
    assert Rest(Settle(fr', o)) == Rest(fr);
    PutHolds(s, f, fr', goal);
    StartChildHolds(Put(s, f, fr'), f, fr.code.callee, fr.code.args(fr.store), inside, goal);
  }

  /** The state after f has called its next co_await'ed coroutine. */
  lemma AwaitIs(s: State, f: Id, inside: set<Executor>)
    requires Readable(s.h, f) && s.h[f].code.Await? && s.next > f
    ensures
      var fr := s.h[f];
      var g := s.next;
      var s' := Advance(s, f, inside);
      && g in s'.h
      && var child := s'.h[g];
      && s'.h == s.h[f := fr.(code := fr.code.next, wait := Some(fr.code.x), awaits := Some(g))][g := child]
      && s'.act == Executing(g, inside)
      && child.Frame? && child.code == fr.code.callee && child.kont.Stop?
      && child.caller == Some(f) && child.executor.None? && child.inner.None?
      && child.past == Past(None, false) && child.result.None? && s'.next == g + 1
  {
  }

  lemma OperationHolds(s: State, f: Id, inside: set<Executor>, goal: Outcome)
    requires Inv(s, goal) && s.act == Executing(f, inside) && s.h[f].code.Operation?
    ensures Inv(Advance(s, f, inside), goal)
  {
    var fr := s.h[f];
    var fr' := fr.(code := fr.code.next, wait := Some(fr.code.x));
    PointerIsLookup(s.h, f);
    assert Rest(Settle(fr', fr.code.result(fr.store))) == Rest(fr);
    PutHolds(s, f, fr', goal);
  }

  lemma ImmediateHolds(s: State, f: Id, goal: Outcome)
    requires Inv(s, goal) && s.act.Executing? && s.act.f == f && s.h[f].code.Operation?
    ensures Inv(AdvanceImmediately(s, f), goal)
  {
    GoHolds(s, f, AdvanceImmediately(s, f).h[f], goal);
  }

  lemma HopHolds(s: State, f: Id, inside: set<Executor>, goal: Outcome)
    requires Inv(s, goal) && s.act == Executing(f, inside) && s.h[f].code.Hop?
    ensures Inv(Advance(s, f, inside), goal)
  {
    var fr := s.h[f];
    GoHolds(s, f, SetExecutor(fr.(code := fr.code.next), fr.code.to, fr.code.typed), goal);
  }

  /** A request leaves the slots of a frame as the search through the requests finds them. */
  lemma RequestLinked(h: Heap, f: Id, fr: Frame, next: Code, r: SlotRequest)
    requires Linked(h, f, fr)
    ensures Linked(h, f, Request(f, fr.(code := next), r))
  {
  }

  lemma CancelHolds(s: State, f: Id, inside: set<Executor>, goal: Outcome)
    requires Inv(s, goal) && s.act == Executing(f, inside) && s.h[f].code.Cancel?
    ensures Inv(Advance(s, f, inside), goal)
  {
    var fr := s.h[f];
    var fr' := Request(f, fr.(code := fr.code.next), fr.code.request);
    assert Rest(fr') == Rest(fr);
    RequestLinked(s.h, f, fr, fr.code.next, fr.code.request);
    GoHolds(s, f, fr', goal);
  }

  lemma AdvanceHolds(s: State, f: Id, inside: set<Executor>, goal: Outcome)
    requires Inv(s, goal) && s.act == Executing(f, inside)
    ensures Inv(Advance(s, f, inside), goal)
  {
    if s.h[f].kont.Stop? && (s.h[f].code.Done? || s.h[f].code.CoReturn? || s.h[f].code.Throw?) {
      LeaveLastHolds(s, f, inside, goal);
      return;
    }
    match s.h[f].code
    case Assign(_, _, _) => ControlHolds(s, f, inside, goal);
    case If(_, _, _, _) => ControlHolds(s, f, inside, goal);
    case Try(_, _, _, _) => ControlHolds(s, f, inside, goal);
    case Done => LeaveHolds(s, f, inside, goal);
    case CoReturn(_) => LeaveHolds(s, f, inside, goal);
    case Throw(_) => LeaveHolds(s, f, inside, goal);
    case Await(_, _, _, _) => AwaitHolds(s, f, inside, goal);
    case Operation(_, _, _, _) => OperationHolds(s, f, inside, goal);
    case Hop(_, _, _, _) => HopHolds(s, f, inside, goal);
    case Cancel(_, _) => CancelHolds(s, f, inside, goal);
  }

  // ----- suspended tasks -----

  /** Whoever resumes a suspended task, on whatever stack, finds it as it was left. */
  lemma ResumeHolds(s: State, inside: set<Executor>, goal: Outcome)
    requires Inv(s, goal) && (s.act.Meeting? || s.act.Queued?)
    requires s.act.Meeting? && s.act.brings.Some? ==> s.act.cell == Completed
    ensures Inv(ResumeOn(s, s.act.resumes, inside), goal)
    ensures ResumeOn(s, s.act.resumes, inside).act ==
      if s.h[s.act.resumes].Trampoline? then Over else Executing(s.act.resumes, inside)
  {
    var r := s.act.resumes;
    if s.act.Meeting? && s.act.waiter == r {
      if s.act.brings.Some? {
        SettleHolds(s, r, s.act.brings.value, inside, goal);
      }
    } else if s.act.Meeting? || Callee(s.h[r]).Some? {
      ResumeCallerHolds(s, r, if s.act.Meeting? then s.act.waiter else Callee(s.h[r]).value, inside, goal);
    }
  }

  /** Whoever drops a suspended task destroys its chain. */
  lemma DropHolds(s: State, goal: Outcome)
    requires Inv(s, goal) && (s.act.Meeting? || s.act.Queued?)
    ensures Inv(DropOwner(s, s.act.resumes).(leaky := s.leaky || FinalHop(s)), goal)
  {
    var r := s.act.resumes;
    PathBelow(s.h, r);
    if s.act.Meeting? && s.act.waiter != r {
      DropPreserves(s, r, {s.act.waiter}, goal);
    } else if s.act.Queued? && Callee(s.h[r]).Some? {
      DropPreserves(s, r, {Callee(s.h[r]).value}, goal);
    } else {
      DropPreserves(s, r, {}, goal);
    }
  }

  lemma StoreHolds(s: State, goal: Outcome)
    requires Inv(s, goal) && HandlerPending(s)
    ensures var s' := HandlerStores(s);
      Inv(s'.(act := s.act.(cell := Completed)), goal)
      && !s'.fault && s' == s.(h := s'.h) && (FinalHop(s') <==> FinalHop(s))
  {
    var w := s.act.waiter;
    if s.act.brings.Some? {
      var fr := s.h[w].(op := s.act.brings);
      PutHolds(s, w, fr, goal);
      assert Settle(fr, s.act.brings.value) == Settle(s.h[w], s.act.brings.value);
    }
  }

  lemma InitiatorHolds(s: State, goal: Outcome)
    requires Inv(s, goal) && Enabled(s, InitiatorArrives)
    ensures Inv(Step(s, InitiatorArrives), goal)
  {
    match s.act.cell
    case Completed => ResumeHolds(s, s.act.home, goal);
    case Destroyed => DropHolds(s, goal);
    case Initializing =>
  }

  /** A task whose handler has stored its result and exchanged the cell. */
  function AfterExchange(s: State): State
    requires s.act.Meeting?
  {
    HandlerStores(s).(act := s.act.(cell := Completed))
  }

  lemma HandlerIs(s: State, inside: set<Executor>, goal: Outcome)
    requires Inv(s, goal) && Enabled(s, HandlerRuns(inside))
    ensures var w, s1 := s.act.waiter, AfterExchange(s);
      && Inv(s1, goal)
      && Step(s, HandlerRuns(inside)) == (if s.act.cell == Awaiting then ResumeOn(s1, s.act.resumes, inside) else s1)
      && s1 == s.(h := s1.h, act := s.act.(cell := Completed))
      && (s.act.brings.Some? ==> HasCaller(s.h, w))
      && s1.h == if s.act.brings.Some? then s.h[w := s.h[w].(op := s.act.brings)] else s.h
  {
    StoreHolds(s, goal);
  }

  lemma HandlerHolds(s: State, inside: set<Executor>, goal: Outcome)
    requires Inv(s, goal) && Enabled(s, HandlerRuns(inside))
    ensures Inv(Step(s, HandlerRuns(inside)), goal)
  {
    StoreHolds(s, goal);
    if OnCompleted(s.act.cell) == MayResume {
      ResumeHolds(HandlerStores(s).(act := s.act.(cell := Completed)), inside, goal);
    }
  }

  /** The owner is gone: the stored result is lost with the frame. */
  lemma OrphanHolds(s: State, goal: Outcome)
    requires Inv(s, goal) && Enabled(s, HandlerOrphaned)
    ensures Inv(Step(s, HandlerOrphaned), goal)
  {
    StoreHolds(s, goal);
    var s' := HandlerStores(s).(act := s.act.(cell := Completed));
    DropHolds(s', goal);
    assert !FinalHop(s') && !s'.leaky;
    var s'' := DropOwner(s', s.act.resumes);
    assert Inv(s''.(leaky := false), goal);
    DropKeepsLabels(s', s.act.resumes);
  }

  lemma {:induction false} DropKeepsLabels(s: State, f: Id)
    ensures DestroyChain(s, f).leaky == s.leaky
    decreases s.h.Keys
  {
    if f in s.h && s.h[f].Frame? && s.h[f].caller.Some? {
      DropKeepsLabels(s.(h := s.h - {f}, freed := s.freed + [f]), s.h[f].caller.value);
    }
  }

  lemma HandlerDroppedHolds(s: State, goal: Outcome)
    requires Inv(s, goal) && Enabled(s, HandlerDropped)
    ensures Inv(Step(s, HandlerDropped), goal)
  {
    if OnDropped(s.act.cell) == MustDestroy {
      DropHolds(s, goal);
    }
  }

  lemma DropUnstartedHolds(s: State, goal: Outcome)
    requires Inv(s, goal) && s.act.Unstarted?
    ensures Inv(Step(s, DropUnstarted), goal)
  {
    assert DestroyChain(s, ROOT) == s.(h := s.h - {ROOT}, freed := s.freed + [ROOT]);
    assert (s.h - {ROOT}).Keys == {};
  }

  /** No event faults, and every event keeps the invariant. */
  lemma StepHolds(s: State, e: Event, goal: Outcome)
    requires Inv(s, goal) && Enabled(s, e)
    ensures Inv(Step(s, e), goal)
  {
    match e
    case Start(inside) => StartHolds(s, inside, goal);
    case DropUnstarted => DropUnstartedHolds(s, goal);
    case Act => AdvanceHolds(s, s.act.f, s.act.inside, goal);
    case ActImmediately => ImmediateHolds(s, s.act.f, goal);
    case InitiatorArrives => InitiatorHolds(s, goal);
    case HandlerRuns(inside) => HandlerHolds(s, inside, goal);
    case HandlerOrphaned => OrphanHolds(s, goal);
    case HandlerDropped => HandlerDroppedHolds(s, goal);
    case QueueRuns(inside) => ResumeHolds(s, inside, goal);
    case QueueDropped => DropHolds(s, goal);
  }

  /** The invariant holds in every state that any sequence of events reaches. */
  lemma {:induction false} RunHolds(s: State, es: seq<Event>, goal: Outcome)
    requires Inv(s, goal) && Legal(s, es)
    ensures Inv(Reached(s, es), goal)
    decreases |es|
  {
    if |es| > 0 {
      StepHolds(s, es[0], goal);
      RunHolds(Step(s, es[0]), es[1..], goal);
    }
  }

  /** A run can be extended by any event enabled in the state it reaches. */
  lemma {:induction false} Extend(s: State, es: seq<Event>, e: Event)
    requires Legal(s, es) && Enabled(Reached(s, es), e)
    ensures Legal(s, es + [e]) && Reached(s, es + [e]) == Step(Reached(s, es), e)
    decreases |es|
  {
    if |es| > 0 {
      Extend(Step(s, es[0]), es[1..], e);
      assert (es + [e])[1..] == es[1..] + [e];
    } else {
      assert ([e])[1..] == [];
    }
  }
}
