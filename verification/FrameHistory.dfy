/**
  Executors and cancellation slots as functions of what happened: the hops and requests that
  a body has made, read off the events and the program text, and nothing that the machine
  keeps.
 */
module FrameHistory {
  import opened Options
  import opened Executors
  import opened Programs
  import opened FrameMachine
  import opened FrameInvariant
  import opened FramePreservation
  import opened FrameSteps
  import opened FrameOwnership

  /** The hops and requests of f's body in a run, oldest first. */
  function History(s: State, es: seq<Event>, f: Id): seq<Own>
    requires Legal(s, es)
    decreases |es|
  {
    if |es| == 0 then [] else OwnStep(s, es[0], f) + History(Step(s, es[0]), es[1..], f)
  }

  datatype LastHop = Never | To(e: Executor, typed: bool)

  function LastHopOf(own: seq<Own>): LastHop {
    if |own| == 0 then Never
    else if own[|own| - 1].Hopped? then To(own[|own| - 1].to, own[|own| - 1].typed)
    else LastHopOf(own[..|own| - 1])
  }

  /** The last hop was to a strand whose type says that it is one. */
  predicate WasToStrand(last: LastHop) {
    last.To? && last.typed && last.e.Strand?
  }

  function LastRequest(own: seq<Own>): Option<SlotRequest> {
    if |own| == 0 then None
    else if own[|own| - 1].Requested? then Some(own[|own| - 1].r)
    else LastRequest(own[..|own| - 1])
  }

  /** The slot of the last request that named one. */
  function LastSlot(own: seq<Own>): Option<Slot> {
    if |own| == 0 then None
    else
      var last := own[|own| - 1];
      if last.Requested? && last.r.Install? then Some(last.r.slot)
      else if last.Requested? && last.r.ResetWith? then Some(last.r.slot)
      else LastSlot(own[..|own| - 1])
  }

  // ----- searches along the chain of callers -----

  /** The target of the last hop of f, or else of the nearest ancestor that made one. */
  function ExecSearch(s: State, es: seq<Event>, h: Heap, f: Id): Option<Executor>
    requires Legal(s, es)
    decreases f
  {
    var last := LastHopOf(History(s, es, f));
    if last.To? then Some(last.e)
    else if HasCaller(h, f) then ExecSearch(s, es, h, h[f].caller.value)
    else None
  }

  /** The last slot that f asked for, or else the one that its caller uses. */
  function BaseSearch(s: State, es: seq<Event>, h: Heap, f: Id): Slot
    requires Legal(s, es)
    decreases f, 0
  {
    var asked := LastSlot(History(s, es, f));
    if asked.Some? then asked.value
    else if HasCaller(h, f) then SlotSearch(s, es, h, h[f].caller.value)
    else Unconnected
  }

  /** The slot that f uses: what it asked for or inherits; and after a reset, its own state
      behind that, if that is connected. */
  function SlotSearch(s: State, es: seq<Event>, h: Heap, f: Id): Slot
    requires Legal(s, es)
    decreases f, 1
  {
    var base := BaseSearch(s, es, h, f);
    var last := LastRequest(History(s, es, f));
    if last.None? || last.value.Install? || base == Unconnected then base else OfState(f, base)
  }

  // ----- the machine keeps what happened -----

  /** fr is what the history makes of a frame. */
  ghost predicate Agrees(fr: Frame, own: seq<Own>)
    requires fr.Frame?
  {
    var last, asked := LastHopOf(own), LastRequest(own);
    && fr.executor == (if last.To? then Some(last.e) else None)
    && fr.inner == (if WasToStrand(last) then Some(last.e.inner) else None)
    && fr.past == Past(LastSlot(own), asked.Some? && !asked.value.Install?)
  }

  lemma ChangedAgrees(fr: Frame, own: seq<Own>, step: seq<Own>, fr': Frame)
    requires fr.Frame? && fr'.Frame? && |step| <= 1 && Agrees(fr, own) && Changed(fr, step, fr')
    ensures Agrees(fr', own + step)
  {
    if step == [] {
      assert own + step == own;
    } else {
      assert (own + step)[..|own|] == own && (own + step)[|own|] == step[0];
    }
  }

  lemma {:induction false} RunAgrees(s: State, es: seq<Event>, own: seq<Own>, goal: Outcome, f: Id)
    requires Inv(s, goal) && Legal(s, es) && f >= ROOT
    requires InHeap(s.h, f) ==> Agrees(s.h[f], own)
    requires f >= s.next ==> own == []
    ensures var h := Reached(s, es).h;
      InHeap(h, f) ==> Agrees(h[f], own + History(s, es, f))
    decreases |es|
  {
    if |es| == 0 {
      assert own + [] == own;
    } else {
      StepHolds(s, es[0], goal);
      StepAgrees(s, es[0], own, goal, f);
      RunAgrees(Step(s, es[0]), es[1..], own + OwnStep(s, es[0], f), goal, f);
      HistoryContinues(s, es, own, f);
    }
  }

  lemma HistoryContinues(s: State, es: seq<Event>, own: seq<Own>, f: Id)
    requires Legal(s, es) && |es| > 0
    ensures own + OwnStep(s, es[0], f) + History(Step(s, es[0]), es[1..], f) == own + History(s, es, f)
  {
  }

  lemma StepAgrees(s: State, e: Event, own: seq<Own>, goal: Outcome, f: Id)
    requires Inv(s, goal) && Enabled(s, e) && f >= ROOT
    requires InHeap(s.h, f) ==> Agrees(s.h[f], own)
    requires f >= s.next ==> own == []
    ensures var s1, own1 := Step(s, e), own + OwnStep(s, e, f);
      && (InHeap(s1.h, f) ==> Agrees(s1.h[f], own1))
      && (f >= s1.next ==> own1 == [])
  {
    SettingsStep(s, e, goal, f);
    LedgerBound(s, f);
    var s1 := Step(s, e);
    if InHeap(s1.h, f) && f < s.next {
      ChangedAgrees(s.h[f], own, OwnStep(s, e, f), s1.h[f]);
    }
  }

  /** Over every run, whatever the body did before: a frame's executor is the target of its
      last hop, and its inner executor is the one under that target exactly when the target
      is a strand whose type says so. */
  lemma ExecutorIsLastHop(code: Code, store: Store, es: seq<Event>, f: Id)
    requires Legal(Init(code, store), es) && InHeap(Reached(Init(code, store), es).h, f) && f >= ROOT
    ensures var fr := Reached(Init(code, store), es).h[f];
      var last := LastHopOf(History(Init(code, store), es, f));
      && fr.executor == (if last.To? then Some(last.e) else None)
      && fr.inner == (if last.To? && last.typed && last.e.Strand? then Some(last.e.inner) else None)
  {
    HistoryAgrees(code, store, es, f);
  }

  lemma HistoryAgrees(code: Code, store: Store, es: seq<Event>, f: Id)
    requires Legal(Init(code, store), es) && InHeap(Reached(Init(code, store), es).h, f) && f >= ROOT
    ensures Agrees(Reached(Init(code, store), es).h[f], History(Init(code, store), es, f))
  {
    var s := Init(code, store);
    InitHolds(code, store);
    RunAgrees(s, es, [], Run(code, store), f);
    assert [] + History(s, es, f) == History(s, es, f);
  }

  lemma {:induction false} SearchesAre(code: Code, store: Store, es: seq<Event>, f: Id)
    requires Legal(Init(code, store), es) && Chain(Reached(Init(code, store), es).h, f)
    ensures var s, h := Init(code, store), Reached(Init(code, store), es).h;
      && ExecSearch(s, es, h, f) == ExecLookup(h, f)
      && SlotSearch(s, es, h, f) == SlotLookup(h, f)
      && (InHeap(h, f) ==> BaseSearch(s, es, h, f) == BaseSlot(h, f, h[f]))
    decreases f
  {
    var h := Reached(Init(code, store), es).h;
    if InHeap(h, f) {
      SearchesAre(code, store, es, h[f].caller.value);
      HistoryAgrees(code, store, es, f);
    } else {
      InitHolds(code, store);
      TrampolineHasNone(Init(code, store), es, Run(code, store));
    }
  }

  lemma {:induction false} TrampolineHasNone(s: State, es: seq<Event>, goal: Outcome)
    requires Inv(s, goal) && Legal(s, es)
    ensures History(s, es, TRAMPOLINE) == []
    decreases |es|
  {
    if |es| > 0 {
      StepHolds(s, es[0], goal);
      TrampolineHasNone(Step(s, es[0]), es[1..], goal);
    }
  }

  /** In every reachable state and for every frame of the chain: get_executor() is the target
      of the last hop of the frame or else of its nearest ancestor that made one, the pointer
      caller_executor points at the frame itself or at a strict ancestor that has an executor,
      and the cancellation slot and state are what the last requests of the frame and its
      ancestors ask for. */
  lemma CopiesAreLookups(code: Code, store: Store, es: seq<Event>, f: Id)
    requires Legal(Init(code, store), es) && OnChain(Reached(Init(code, store), es), f)
    ensures var s, h := Init(code, store), Reached(Init(code, store), es).h;
      && Readable(h, f)
      && GetExecutor(h, f) == ExecSearch(s, es, h, f)
      && (h[f].source == f || (h[f].source < f && h[f].source in Path(h, f) && h[h[f].source].executor.Some?))
      && var base, last := BaseSearch(s, es, h, f), LastRequest(History(s, es, f));
      && h[f].slot == base
      && h[f].state ==
           (if last.None? || last.value.Install? || base == Unconnected then Unconnected else OfState(f, base))
      && EffectiveSlot(h[f].slot, h[f].state) == SlotSearch(s, es, h, f)
  {
    CopiesFollowChain(code, store, es, f);
    SearchesAre(code, store, es, f);
  }
}
