/**
  What each step leaves alone: the results, executors and requests of the frames that do not
  take it.
 */
module FrameSteps {
  import opened Options
  import opened Executors
  import opened Programs
  import opened Rendezvous
  import opened FrameMachine
  import opened FrameInvariant
  import opened FramePreservation

  predicate HasResult(h: Heap, f: Id) {
    InHeap(h, f) && h[f].result.Some?
  }

  /** Of the fields that only f's own body changes, none has changed if f is still there. */
  ghost predicate SameSettings(fr: Frame, fr': Frame) {
    fr.Frame? && fr'.Frame? ==> fr'.executor == fr.executor && fr'.inner == fr.inner && fr'.past == fr.past
  }

  ghost predicate SameFrame(h: Heap, h': Heap, f: Id) {
    f in h' ==>
      && f in h && (h'[f].Frame? <==> h[f].Frame?)
      && (HasResult(h', f) <==> HasResult(h, f)) && SameSettings(h[f], h'[f])
  }

  lemma {:induction false} DestroyKeeps(s: State, f: Id, x: Id)
    ensures SameFrame(s.h, DestroyChain(s, f).h, x) && DestroyChain(s, f).next == s.next
    decreases s.h.Keys
  {
    if f in s.h && s.h[f].Frame? && s.h[f].caller.Some? {
      DestroyKeeps(s.(h := s.h - {f}, freed := s.freed + [f]), s.h[f].caller.value, x);
    }
  }

  lemma ResumeKeeps(s: State, inside: set<Executor>, goal: Outcome, x: Id)
    requires Inv(s, goal) && (s.act.Meeting? || s.act.Queued?)
    requires s.act.Meeting? && s.act.brings.Some? ==> s.act.cell == Completed
    ensures SameFrame(s.h, ResumeOn(s, s.act.resumes, inside).h, x)
    ensures ResumeOn(s, s.act.resumes, inside).next == s.next
  {
    var r := s.act.resumes;
    if s.act.Meeting? && s.act.waiter != r {
      ResumeCallerIs(s, r, s.act.waiter, inside, goal);
    } else if s.act.Queued? && Callee(s.h[r]).Some? {
      ResumeCallerIs(s, r, Callee(s.h[r]).value, inside, goal);
    }
  }

  // ----- what a body does to its own frame -----

  /** A hop or a request, as its body makes it. */
  datatype Own = Hopped(to: Executor, typed: bool) | Requested(r: SlotRequest)

  function OwnOf(code: Code): seq<Own> {
    match code
    case Hop(_, to, typed, _) => [Hopped(to, typed)]
    case Cancel(r, _) => [Requested(r)]
    case _ => []
  }

  /** What f's body does to its own settings in a step. */
  function OwnStep(s: State, e: Event, f: Id): seq<Own> {
    if e.Act? && s.act.Executing? && s.act.f == f && InHeap(s.h, f) then OwnOf(s.h[f].code) else []
  }

  /** What it must do: a hop sets the executor, and the inner one for a strand whose type says
      that it is one, whatever they were; the last slot asked for is remembered, and whether
      the last request wants a state behind it. */
  ghost predicate Changed(fr: Frame, own: seq<Own>, fr': Frame)
    requires fr.Frame? && fr'.Frame? && |own| <= 1
  {
    if own == [] then SameSettings(fr, fr')
    else match own[0]
      case Hopped(to, typed) =>
        && fr'.executor == Some(to)
        && fr'.inner == (if typed && to.Strand? then Some(to.inner) else None)
        && fr'.past == fr.past
      case Requested(r) =>
        && fr'.executor == fr.executor && fr'.inner == fr.inner
        && fr'.past == match r
                       case Install(s) => Past(Some(s), false)
                       case Reset => Past(fr.past.installed, true)
                       case ResetWith(s) => Past(Some(s), true)
  }

  lemma BodyStepKeeps(s: State, goal: Outcome, f: Id)
    requires Inv(s, goal) && s.act.Executing? && !AtEnd(s.h[s.act.f]) && !s.h[s.act.f].code.Await?
    ensures var h' := Step(s, Act).h;
      && Step(s, Act).next == s.next
      && (f != s.act.f ==> SameFrame(s.h, h', f))
      && (f == s.act.f ==> InHeap(h', f) && (HasResult(h', f) <==> HasResult(s.h, f))
                            && Changed(s.h[f], OwnOf(s.h[f].code), h'[f]))
  {
    PointerIsLookup(s.h, s.act.f);
    var code := s.h[s.act.f].code;
    if code.Done? || code.CoReturn? || code.Throw? {
      LeaveRewrites(s, s.act.f, s.act.inside);
    } else {
      BodyStepRewrites(s, s.act.f, s.act.inside);
    }
  }

  /** Leaving a block, and every other step of a body, rewrites its own frame. */
  lemma LeaveRewrites(s: State, f: Id, inside: set<Executor>)
    requires InHeap(s.h, f) && !s.h[f].kont.Stop?
    requires var code := s.h[f].code; code.Done? || code.CoReturn? || code.Throw?
    ensures var s' := Advance(s, f, inside);
      && f in s'.h && s'.h == s.h[f := s'.h[f]] && s'.next == s.next
      && s'.h[f].Frame? && s'.h[f].result == s.h[f].result && Changed(s.h[f], OwnOf(s.h[f].code), s'.h[f])
  {
  }

  lemma BodyStepRewrites(s: State, f: Id, inside: set<Executor>)
    requires Readable(s.h, f) && !s.h[f].code.Await?
    requires var code := s.h[f].code; !code.Done? && !code.CoReturn? && !code.Throw?
    ensures var s' := Advance(s, f, inside);
      && f in s'.h && s'.h == s.h[f := s'.h[f]] && s'.next == s.next
      && s'.h[f].Frame? && s'.h[f].result == s.h[f].result && Changed(s.h[f], OwnOf(s.h[f].code), s'.h[f])
  {
  }

  lemma HandlerKeeps(s: State, inside: set<Executor>, goal: Outcome, f: Id)
    requires Inv(s, goal) && Enabled(s, HandlerRuns(inside))
    ensures SameFrame(s.h, Step(s, HandlerRuns(inside)).h, f)
    ensures Step(s, HandlerRuns(inside)).next == s.next
  {
    HandlerIs(s, inside, goal);
    var s1 := AfterExchange(s);
    assert SameFrame(s.h, s1.h, f);
    if s.act.cell == Awaiting {
      ResumeKeeps(s1, inside, goal, f);
    }
  }

  lemma InitiatorKeeps(s: State, goal: Outcome, f: Id)
    requires Inv(s, goal) && Enabled(s, InitiatorArrives)
    ensures SameFrame(s.h, Step(s, InitiatorArrives).h, f) && Step(s, InitiatorArrives).next == s.next
  {
    if s.act.cell == Completed {
      ResumeKeeps(s, s.act.home, goal, f);
    } else {
      DestroyKeeps(s, s.act.resumes, f);
    }
  }

  lemma LedgerBound(s: State, f: Id)
    requires Ledger(s)
    ensures f in s.h ==> f < s.next
  {
  }

  lemma StartKeeps(s: State, e: Event, goal: Outcome, f: Id)
    requires Inv(s, goal) && Enabled(s, e) && e.Start? && f >= ROOT
    ensures SameFrame(s.h, Step(s, e).h, f) && Step(s, e).next == s.next
  {
  }

  lemma ImmediateKeeps(s: State, goal: Outcome, f: Id)
    requires Inv(s, goal) && Enabled(s, ActImmediately)
    ensures SameFrame(s.h, Step(s, ActImmediately).h, f) && Step(s, ActImmediately).next == s.next
  {
  }

  lemma DropKeeps(s: State, e: Event, goal: Outcome, f: Id)
    requires Inv(s, goal) && Enabled(s, e) && Drops(e)
    ensures SameFrame(s.h, Step(s, e).h, f) && Step(s, e).next == s.next
  {
    if e.HandlerOrphaned? {
      StoreHolds(s, goal);
      DestroyKeeps(AfterExchange(s), s.act.resumes, f);
    } else if e.DropUnstarted? {
      DestroyKeeps(s, ROOT, f);
    } else {
      DestroyKeeps(s, s.act.resumes, f);
    }
  }

  lemma FinishKeeps(s: State, f: Id, o: Outcome, inside: set<Executor>, goal: Outcome, x: Id)
    requires Open(s) && Whole(s.h, f) && Idle(s.h[f])
    requires Through(s.h, s.h[f].caller.value, o) == goal
    ensures var s' := Finish(s, f, o, inside);
      && s'.next == s.next
      && (x in s'.h ==>
            && x in s.h && (s'.h[x].Frame? <==> s.h[x].Frame?) && SameSettings(s.h[x], s'.h[x])
            && (HasResult(s'.h, x) <==> HasResult(s.h, x) || x == f))
  {
    FinishIs(s, f, o, inside);
    ReleaseCallerHolds(s, f, o, goal);
    ResumeCallerIs(s.(h := s.h[f := s.h[f].(result := Some(o), caller := None)]), s.h[f].caller.value, f, inside, goal);
  }

  /** What one step does to the settings of one frame. */
  ghost predicate SettingsRule(s: State, e: Event, s': State, f: Id) {
    && s.next <= s'.next
    && (InHeap(s'.h, f) && f < s.next ==> InHeap(s.h, f) && Changed(s.h[f], OwnStep(s, e, f), s'.h[f]))
    && (InHeap(s'.h, f) && f >= s.next ==>
          s'.h[f].executor.None? && s'.h[f].inner.None? && s'.h[f].past == Past(None, false))
  }

  lemma AdvanceSettings(s: State, goal: Outcome, f: Id)
    requires Inv(s, goal) && s.act.Executing?
    ensures SettingsRule(s, Act, Step(s, Act), f)
  {
    var g := s.act.f;
    LedgerBound(s, f);
    if AtEnd(s.h[g]) {
      LeaveLastHolds(s, g, s.act.inside, goal);
      FinishKeeps(s, g, Rest(s.h[g]), s.act.inside, goal, f);
    } else if s.h[g].code.Await? {
      PointerIsLookup(s.h, g);
      AwaitIs(s, g, s.act.inside);
    } else {
      BodyStepKeeps(s, goal, f);
    }
  }

  lemma SettingsStep(s: State, e: Event, goal: Outcome, f: Id)
    requires Inv(s, goal) && Enabled(s, e) && f >= ROOT
    ensures SettingsRule(s, e, Step(s, e), f)
  {
    if e.Act? {
      AdvanceSettings(s, goal, f);
    } else {
      OtherStepKeeps(s, e, goal, f);
      LedgerBound(s, f);
    }
  }

  /** A step that is not a body's. */
  lemma OtherStepKeeps(s: State, e: Event, goal: Outcome, f: Id)
    requires Inv(s, goal) && Enabled(s, e) && f >= ROOT && !e.Act?
    ensures SameFrame(s.h, Step(s, e).h, f) && Step(s, e).next == s.next
  {
    match e
    case HandlerRuns(inside) => HandlerKeeps(s, inside, goal, f);
    case InitiatorArrives => InitiatorKeeps(s, goal, f);
    case QueueRuns(inside) => ResumeKeeps(s, inside, goal, f);
    case Start(_) => StartKeeps(s, e, goal, f);
    case ActImmediately => ImmediateKeeps(s, goal, f);
    case _ => DropKeeps(s, e, goal, f);
  }
}
