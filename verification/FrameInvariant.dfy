/**
  What every reachable state of the frame machine looks like.

  The reference definitions (executor and slot lookup, the outcome that reaches the root)
  recurse along the owning `caller` handles; the machine never does.
 */
module FrameInvariant {
  import opened Sequences
  import opened Options
  import opened Executors
  import opened Programs
  import opened Rendezvous
  import opened FrameMachine

  type Heap = map<Id, Frame>

  // ----- reference definitions along the await chain -----

  predicate HasCaller(h: Heap, f: Id) {
    InHeap(h, f) && h[f].caller.Some? && h[f].caller.value < f
  }

  /** f and its ancestors, f first. */
  function Path(h: Heap, f: Id): seq<Id>
    decreases f
  {
    [f] + if HasCaller(h, f) then Path(h, h[f].caller.value) else []
  }

  /** The executor of the nearest frame that has one, starting at f itself. */
  function ExecLookup(h: Heap, f: Id): Option<Executor>
    decreases f
  {
    if !InHeap(h, f) then None
    else if h[f].executor.Some? then h[f].executor
    else if HasCaller(h, f) then ExecLookup(h, h[f].caller.value)
    else None
  }

  /** The slot that f last installed, else the one its caller uses. */
  function BaseSlot(h: Heap, f: Id, fr: Frame): Slot
    requires fr.Frame?
    decreases f, 0
  {
    if fr.past.installed.Some? then fr.past.installed.value
    else if fr.caller.Some? && fr.caller.value < f then SlotLookup(h, fr.caller.value)
    else Unconnected
  }

  /** The slot an operation awaited by f uses: its state's when that is connected. */
  function SlotLookup(h: Heap, f: Id): Slot
    decreases f, 1
  {
    if !InHeap(h, f) then Unconnected
    else
      var base := BaseSlot(h, f, h[f]);
      if h[f].past.armed then EffectiveSlot(base, StateSlot(f, base)) else base
  }

  /** What the rest of a body yields. */
  function Rest(fr: Frame): Outcome
    requires fr.Frame?
  {
    Unwound(Eval(fr.code, fr.store), fr.kont)
  }

  /** What reaches the root once the coroutine that c awaits has yielded o. */
  function Through(h: Heap, c: Id, o: Outcome): Outcome
    decreases c
  {
    if HasCaller(h, c) then Through(h, h[c].caller.value, Rest(Settle(h[c], o))) else o
  }

  /** Bound on the steps that f and its ancestors can still take. */
  function Weight(h: Heap, f: Id): nat
    decreases f
  {
    if !InHeap(h, f) then 0
    else 6 + Size(h[f].code) + KontSize(h[f].kont)
         + if HasCaller(h, f) then Weight(h, h[f].caller.value) else 0
  }

  // ----- well-formed chains -----

  predicate Idle(fr: Frame) {
    fr.Frame? && fr.wait.None? && fr.op.None? && fr.awaits.None? && fr.result.None?
  }

  /** The body is at its end and final suspension is next. */
  predicate AtEnd(fr: Frame) {
    fr.Frame? && fr.kont.Stop? && (fr.code.Done? || fr.code.CoReturn? || fr.code.Throw?)
  }

  predicate WaitsFor(fr: Frame, g: Id) {
    match fr
    case Trampoline(callee) => callee == g
    case Frame(_, _, _, wait, op, awaits, result, _, _, _, _, _, _, _) =>
      wait.Some? && op.None? && awaits == Some(g) && result.None?
  }

  /** The pointers and copies that a frame made of its caller's state are still right. */
  predicate Linked(h: Heap, f: Id, fr: Frame) {
    && fr.Frame? && fr.caller.Some? && fr.caller.value < f
    && var c := fr.caller.value;
       var up := ExecLookup(h, c);
       var base := BaseSlot(h, f, fr);
    && (fr.inner.Some? ==> fr.executor.Some? && fr.executor.value.Strand? && fr.executor.value.inner == fr.inner.value)
    && (if up.Some? then fr.source in Path(h, c) && InHeap(h, fr.source) && h[fr.source].executor == up
        else fr.source == f)
    && fr.slot == base
    && fr.state == (if fr.past.armed then StateSlot(f, base) else Unconnected)
  }

  ghost predicate Chain(h: Heap, f: Id)
    decreases f
  {
    && f in h
    && match h[f]
       case Trampoline(callee) => f == TRAMPOLINE && callee == ROOT
       case Frame(_, _, _, _, _, _, _, _, _, _, _, _, _, _) =>
         && Linked(h, f, h[f])
         && Chain(h, h[f].caller.value)
         && WaitsFor(h[h[f].caller.value], f)
  }

  ghost predicate Whole(h: Heap, f: Id) {
    && Chain(h, f) && InHeap(h, f)
    && forall x :: x in h <==> x in Path(h, f)
  }

  /** The callee w is done, its handle to c has been released and c is about to resume. */
  ghost predicate Finishing(h: Heap, c: Id, w: Id, goal: Outcome) {
    && c < w && Chain(h, c) && WaitsFor(h[c], w)
    && InHeap(h, w) && h[w].caller.None? && h[w].result.Some?
    && (forall x :: x in h <==> x == w || x in Path(h, c))
    && Through(h, c, h[w].result.value) == goal
  }

  /** f is suspended on a hop, or running: the rest of its body decides. */
  ghost predicate Going(h: Heap, f: Id, goal: Outcome) {
    && Whole(h, f) && Idle(h[f])
    && Through(h, h[f].caller.value, Rest(h[f])) == goal
  }

  ghost predicate AwaitingOperation(s: State, goal: Outcome)
    requires s.act.Meeting? && s.act.brings.Some?
  {
    var w := s.act.waiter;
    && Whole(s.h, w)
    && s.h[w].wait.Some? && s.h[w].awaits.None? && s.h[w].result.None?
    && s.h[w].op == (if s.act.cell == Completed then s.act.brings else None)
    && s.act.target == ExecLookup(s.h, w)
    && Through(s.h, s.h[w].caller.value, Rest(Settle(s.h[w], s.act.brings.value))) == goal
  }

  function Callee(fr: Frame): Option<Id> {
    if fr.Trampoline? then Some(fr.callee) else fr.awaits
  }

  ghost predicate Unbegun(s: State, goal: Outcome) {
    && s.h.Keys == {ROOT} && s.next == ROOT + 1 && s.freed == []
    && s.h[ROOT].Frame?
    && s.h[ROOT] == Fresh(ROOT, s.h[ROOT].code, s.h[ROOT].store)
    && goal == Run(s.h[ROOT].code, s.h[ROOT].store)
  }

  predicate Abandoned(fr: Frame) {
    fr.Frame? && fr.caller.None? && fr.result.Some?
  }

  /** Nothing is left of a task that is over, unless a final hop's handler was dropped:
      then the finished callee, held only by a raw handle, stays behind. */
  ghost predicate Ended(s: State) {
    if s.leaky then exists w :: s.h.Keys == {w} && Abandoned(s.h[w]) else s.h.Keys == {}
  }

  ghost predicate Shape(s: State, goal: Outcome) {
    match s.act
    case Unstarted => Unbegun(s, goal)
    case Executing(f, _) => Going(s.h, f, goal)
    case Meeting(w, r, brings, target, _, _) =>
      if brings.Some? then w == r && AwaitingOperation(s, goal)
      else if w == r then Going(s.h, w, goal) && target == s.h[w].executor && target.Some?
      else Finishing(s.h, r, w, goal) && target == ExecLookup(s.h, r) && target.Some?
    case Queued(r, on) =>
      && r in s.h
      && var g := Callee(s.h[r]);
         if g.Some? then
           Finishing(s.h, r, g.value, goal)
           && (ExecLookup(s.h, r).Some? ==> ExecLookup(s.h, r) == Some(on))
         else Going(s.h, r, goal) && s.h[r].executor == Some(on)
    case Over => Ended(s)
  }

  /** Every frame ever allocated is in the heap or was destroyed once, never both. */
  ghost predicate Ledger(s: State) {
    && s.next > ROOT
    && Distinct(s.freed)
    && (forall x :: x in s.h || x in s.freed ==> x < s.next)
    && (forall x :: x in s.freed ==> x !in s.h)
    && (forall x :: ROOT <= x < s.next ==> x in s.h || x in s.freed)
    && (s.act.Over? || TRAMPOLINE !in s.freed)
  }

  ghost predicate Inv(s: State, goal: Outcome) {
    && !s.fault
    && Ledger(s)
    && Shape(s, goal)
    && (s.delivered.Some? ==> s.act.Over? && s.delivered == Some(goal))
    && (s.leaky ==> s.act.Over? && s.delivered.None?)
  }

  // ----- framing: everything about f is decided by the frames at or below f -----

  ghost predicate Agree(h: Heap, h': Heap, n: Id) {
    forall i :: 0 <= i < n ==> (i in h <==> i in h') && (i in h ==> h[i] == h'[i])
  }

  lemma {:induction false} Untouched(h: Heap, h': Heap, f: Id)
    requires Agree(h, h', f + 1)
    ensures Path(h, f) == Path(h', f)
    ensures ExecLookup(h, f) == ExecLookup(h', f)
    ensures SlotLookup(h, f) == SlotLookup(h', f)
    ensures Weight(h, f) == Weight(h', f)
    ensures forall o :: Through(h, f, o) == Through(h', f, o)
    ensures Chain(h, f) ==> Chain(h', f)
    decreases f
  {
    if HasCaller(h, f) {
      var c := h[f].caller.value;
      Untouched(h, h', c);
      forall o ensures Through(h, f, o) == Through(h', f, o) {
        assert Through(h, c, Rest(Settle(h[f], o))) == Through(h', c, Rest(Settle(h[f], o)));
      }
      if Chain(h, f) {
        PathBelow(h, c);
        if ExecLookup(h, c).Some? {
          assert h[f].source in Path(h, c);
        }
      }
    }
  }

  lemma {:induction false} PathBelow(h: Heap, f: Id)
    ensures forall x :: x in Path(h, f) ==> x <= f
    ensures Distinct(Path(h, f))
    ensures f in Path(h, f)
    decreases f
  {
    assert Path(h, f)[0] == f;
    if HasCaller(h, f) {
      var c := h[f].caller.value;
      PathBelow(h, c);
      AppendDistinct([f], Path(h, c));
    }
  }

  lemma {:induction false} PathInHeap(h: Heap, f: Id)
    requires Chain(h, f)
    ensures forall x :: x in Path(h, f) ==> x in h
    ensures TRAMPOLINE in Path(h, f)
    decreases f
  {
    if HasCaller(h, f) {
      PathInHeap(h, h[f].caller.value);
      assert TRAMPOLINE in Path(h, h[f].caller.value);
    }
  }

  /** Every ancestor heads a chain of its own. */
  lemma {:induction false} ChainOfAncestor(h: Heap, f: Id, g: Id)
    requires Chain(h, f) && g in Path(h, f)
    ensures Chain(h, g)
    ensures g != f ==> exists x :: x in Path(h, f) && WaitsFor(h[g], x)
    decreases f
  {
    if g != f {
      var c := h[f].caller.value;
      ChainOfAncestor(h, c, g);
      assert Path(h, f) == [f] + Path(h, c);
      if g == c { assert WaitsFor(h[g], f) && f in Path(h, f); }
    }
  }

  /** The copied pointer finds what the search along the chain finds. */
  lemma {:induction false} PointerIsLookup(h: Heap, f: Id)
    requires Chain(h, f) && InHeap(h, f)
    ensures Readable(h, f) && GetExecutor(h, f) == ExecLookup(h, f)
    ensures GetExecutor(h, f).Some? ==>
      Referent(h, f) in Path(h, f) && InHeap(h, Referent(h, f)) && h[Referent(h, f)].executor == ExecLookup(h, f)
  {
    var c := h[f].caller.value;
    assert Path(h, f) == [f] + Path(h, c);
  }

  /** Rewriting the leaf's own fields leaves its ancestors alone. */
  lemma LeafUpdate(h: Heap, f: Id, fr: Frame)
    requires Chain(h, f) && InHeap(h, f)
    requires fr.Frame? && fr.caller == h[f].caller && Linked(h, f, fr)
    ensures Chain(h[f := fr], f)
    ensures Path(h[f := fr], f) == Path(h, f)
    ensures var c := h[f].caller.value;
      && ExecLookup(h[f := fr], c) == ExecLookup(h, c)
      && SlotLookup(h[f := fr], c) == SlotLookup(h, c)
      && Weight(h[f := fr], c) == Weight(h, c)
      && forall o :: Through(h[f := fr], c, o) == Through(h, c, o)
  {
    var c := h[f].caller.value;
    var h' := h[f := fr];
    Untouched(h, h', c);
    PathBelow(h, c);
  }

  // ----- teardown -----

  function Elements(p: seq<Id>): set<Id> {
    set x | x in p
  }

  lemma RemoveFirstThenRest(h: Heap, f: Id, q: seq<Id>)
    ensures h - {f} - Elements(q) == h - Elements([f] + q)
  {
    assert Elements([f] + q) == {f} + Elements(q);
  }

  /** Destroying f destroys f and all its ancestors, each once, and nothing else. */
  lemma {:induction false} DestroyTakesPath(s: State, f: Id)
    requires Chain(s.h, f)
    ensures DestroyChain(s, f) == s.(h := s.h - Elements(Path(s.h, f)), freed := s.freed + Path(s.h, f))
    decreases f
  {
    if HasCaller(s.h, f) {
      var c := s.h[f].caller.value;
      var s' := s.(h := s.h - {f}, freed := s.freed + [f]);
      Untouched(s.h, s'.h, c);
      DestroyTakesPath(s', c);
      RemoveFirstThenRest(s.h, f, Path(s.h, c));
      assert s.freed + [f] + Path(s.h, c) == s.freed + Path(s.h, f);
    } else {
      assert Elements(Path(s.h, f)) == {f};
    }
  }

  lemma AppendDistinct(q: seq<Id>, p: seq<Id>)
    requires Distinct(q) && Distinct(p)
    requires forall x :: x in p ==> x !in q
    ensures Distinct(q + p)
  {
    forall i, j | 0 <= i < j < |q + p| ensures (q + p)[i] != (q + p)[j] {
      if i < |q| <= j { assert p[j - |q|] in p; }
    }
  }

  /** Moving the frames of p from the heap to the log keeps the ledger. */
  lemma LedgerAfterDrop(s: State, p: seq<Id>)
    requires Ledger(s) && Distinct(p) && forall x :: x in p ==> x in s.h
    ensures Ledger(s.(h := s.h - Elements(p), freed := s.freed + p, act := Over))
  {
    AppendDistinct(s.freed, p);
  }

  /** Dropping the handler that owns f ends the task; only a finished callee can be left. */
  lemma DropPreserves(s: State, f: Id, rest: set<Id>, goal: Outcome)
    requires !s.fault && Ledger(s) && !s.act.Over? && !s.leaky && s.delivered.None?
    requires Chain(s.h, f)
    requires forall x :: x in s.h <==> x in rest || x in Path(s.h, f)
    requires forall x :: x in rest ==> x !in Path(s.h, f)
    requires rest == {} || exists w :: rest == {w} && w in s.h && Abandoned(s.h[w])
    ensures Inv(DropOwner(s, f).(leaky := rest != {}), goal)
  {
    var p := Path(s.h, f);
    DestroyTakesPath(s, f);
    PathBelow(s.h, f);
    PathInHeap(s.h, f);
    LedgerAfterDrop(s, p);
    WhatIsLeft(s.h, p, rest);
    EndedHolds(s.(h := s.h - Elements(p), freed := s.freed + p, act := Over, leaky := rest != {}), rest, goal);
  }

  lemma WhatIsLeft(h: Heap, p: seq<Id>, rest: set<Id>)
    requires forall x :: x in h <==> x in rest || x in p
    requires forall x :: x in rest ==> x !in p
    ensures (h - Elements(p)).Keys == rest
  {
  }

  lemma EndedHolds(s: State, rest: set<Id>, goal: Outcome)
    requires !s.fault && Ledger(s) && s.act.Over? && s.leaky == (rest != {}) && s.delivered.None?
    requires s.h.Keys == rest && (rest == {} || exists w :: rest == {w} && Abandoned(s.h[w]))
    ensures Inv(s, goal)
  {
  }
}
