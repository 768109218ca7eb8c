/**
  Every event of a polite environment keeps the invariant of the handshake.
 */
module HandshakePreservation {
  import opened Options
  import opened Rendezvous
  import opened Handshake
  import opened HandshakeInvariant

  // ----- the environment -----

  lemma OwnersHold(s: State, e: Event)
    requires Inv(s) && Enabled(s, e) && (e.NewOwner? || e.Share? || e.Unshare?)
    ensures Inv(Step(s, e))
  {
    var s' := Step(s, e);
    var o := e.o;
    if e.NewOwner? {
      assert FrameHolders(s.frames, o) == {} && OpHolders(s.ops, o) == {};
    }
    forall i | i in s'.ops ensures OpOk(s', i) { assert OpOk(s, i); }
    forall f | f in s'.frames ensures FrameOk(s', f) { assert FrameOk(s, f); }
  }

  /** A running frame is replaced: nothing is suspended on it. */
  lemma RunningFrameReplaced(s: State, s': State, f: FrameId)
    requires Orderly(s) && f in s'.frames && s'.ops == s.ops && s'.frames == s.frames[f := s'.frames[f]]
    requires f in s.frames ==> s.frames[f].status == Running
    requires FrameOk(s', f) && !s'.frames[f].status.Suspended?
    ensures Orderly(s')
  {
    forall i | i in s'.ops ensures OpOk(s', i) { assert OpOk(s, i); }
    forall g | g in s'.frames ensures FrameOk(s', g) {
      if g != f { assert FrameOk(s, g); }
    }
  }

  /** The same for the counts, with no suspension involved. */
  lemma CountedAfterFrame(s: State, s': State, f: FrameId)
    requires Counted(s) && f in s'.frames
    requires s'.frames == s.frames[f := s'.frames[f]] && s'.ops == s.ops
    requires s'.external == s.external && s'.strong.Keys == s.strong.Keys
    requires forall o :: o in s.strong ==>
      s'.strong[o] + (if f in s.frames then One(s.frames[f].shared, o) else 0)
      == s.strong[o] + One(s'.frames[f].shared, o)
    requires s'.frames[f].shared.Some? ==> s'.frames[f].shared.value in s.strong
    ensures Counted(s')
  {
    forall o | o in s'.strong
      ensures s'.strong[o] == s'.external[o] + |FrameHolders(s'.frames, o)| + |OpHolders(s'.ops, o)|
    {
      FrameHoldersAfter(s.frames, f, s'.frames[f], o);
    }
  }

  lemma SpawnHolds(s: State, f: FrameId, owner: Option<OwnerId>)
    requires Inv(s) && Enabled(s, Spawn(f, owner))
    ensures Inv(Step(s, Spawn(f, owner)))
  {
    var s' := Step(s, Spawn(f, owner));
    RunningFrameReplaced(s, s', f);
    CountedAfterFrame(s, s', f);
  }

  lemma FinishHolds(s: State, f: FrameId)
    requires Inv(s) && Enabled(s, Finish(f))
    ensures Inv(Step(s, Finish(f)))
  {
    var s' := Step(s, Finish(f));
    if s.frames[f].shared.Some? {
      HolderHasCount(s, s.frames[f].shared.value);
    }
    RunningFrameReplaced(s, s', f);
    CountedAfterFrame(s, s', f);
  }

  lemma SuspendHolds(s: State, i: OpId, f: FrameId, juggles: bool)
    requires Inv(s) && Enabled(s, Suspend(i, f, juggles))
    ensures Inv(Step(s, Suspend(i, f, juggles)))
  {
    var op := Op(f, juggles, s.frames[f].shared, Initializing, Initiating, Pending, None, None, [], false);
    var s' := s.(ops := s.ops[i := op], frames := s.frames[f := s.frames[f].(status := Suspended(i))]);
    assert Step(s, Suspend(i, f, juggles)) == s';
    SuspendKeepsOrder(s, s', i, f);
    SuspendKeepsCounts(s, s', i, f);
  }

  lemma SuspendKeepsOrder(s: State, s': State, i: OpId, f: FrameId)
    requires Orderly(s) && i !in s.ops && f in s.frames && s.frames[f].status == Running
    requires i in s'.ops && s'.ops == s.ops[i := s'.ops[i]]
    requires s'.frames == s.frames[f := s.frames[f].(status := Suspended(i))]
    requires s'.ops[i].frame == f && |s'.ops[i].deeds| == 0
    requires ResultOk(s'.ops[i]) && Open(s'.ops[i], s.frames[f].shared)
    ensures Orderly(s')
  {
    forall j | j in s'.ops ensures OpOk(s', j) {
      if j != i { assert OpOk(s, j); }
    }
    forall g | g in s'.frames ensures FrameOk(s', g) {
      if g != f { assert FrameOk(s, g); }
    }
  }

  lemma SuspendKeepsCounts(s: State, s': State, i: OpId, f: FrameId)
    requires Counted(s) && i !in s.ops && f in s.frames
    requires i in s'.ops && s'.ops == s.ops[i := s'.ops[i]] && s'.ops[i].saved.None?
    requires s'.ops[i].owner == s.frames[f].shared
    requires s'.frames == s.frames[f := s.frames[f].(status := Suspended(i))]
    requires s'.external == s.external && s'.strong == s.strong
    ensures Counted(s')
  {
    CountedAfter(s, s', f, i);
  }

  // ----- the two sides -----

  /** A step that changes only suspension i, not its references. */
  lemma OpStepHolds(s: State, s': State, i: OpId)
    requires Inv(s) && i in s.ops && |s.ops[i].deeds| == 0 && i in s'.ops
    requires s' == s.(ops := s.ops[i := s'.ops[i]])
    requires s'.ops[i].frame == s.ops[i].frame && s'.ops[i].owner == s.ops[i].owner
    requires s'.ops[i].saved == s.ops[i].saved && |s'.ops[i].deeds| == 0
    requires ResultOk(s'.ops[i]) && (s.ops[i].frame in s.frames ==> Open(s'.ops[i], s.frames[s.ops[i].frame].shared))
    ensures Inv(s')
  {
    var f := s.ops[i].frame;
    assert OpOk(s, i);
    assert FrameOk(s, f);
    OrderlyAfter(s, s', i);
    CountedAfter(s, s', f, i);
  }

  lemma ScheduleHolds(s: State, e: Event)
    requires Inv(s) && Enabled(s, e) && Polite(s, e)
    requires e.Initiated? || e.Throws? || e.Invoke? || e.Drop?
    ensures Inv(Step(s, e))
  {
    assert OpOk(s, e.i);
    OpStepHolds(s, Step(s, e), e.i);
  }

  /** Steps of the awaiter that store an exception or exchange the cell. */
  lemma AwaiterMoves(s: State, i: OpId)
    requires Inv(s) && Enabled(s, AwaiterStep(i)) && s.ops[i].awaiter in {Catching, Arriving}
    ensures Inv(AwaiterNext(s, i))
  {
    assert OpOk(s, i);
    OpStepHolds(s, AwaiterNext(s, i), i);
  }

  /** Steps of the awaiter that move the owner between the frame and its own stack. */
  lemma AwaiterSaves(s: State, i: OpId)
    requires Inv(s) && Enabled(s, AwaiterStep(i)) && s.ops[i].awaiter == Saving
    ensures Inv(AwaiterNext(s, i))
  {
    assert OpOk(s, i);
    assert FrameOk(s, s.ops[i].frame);
    OrderlyAfter(s, AwaiterNext(s, i), i);
    CountedAfter(s, AwaiterNext(s, i), s.ops[i].frame, i);
  }

  lemma AwaiterPutsBack(s: State, i: OpId)
    requires Inv(s) && Enabled(s, AwaiterStep(i)) && s.ops[i].awaiter == PuttingBack
    ensures Inv(AwaiterNext(s, i))
  {
    assert OpOk(s, i);
    assert FrameOk(s, s.ops[i].frame);
    OrderlyAfter(s, AwaiterNext(s, i), i);
    CountedAfter(s, AwaiterNext(s, i), s.ops[i].frame, i);
  }

  /** The state after the coroutine of i has been resumed and i has become op. */
  function AfterResume(s: State, i: OpId, op: Op): State
    requires op.frame in s.frames
  {
    s.(ops := s.ops[i := op], frames := s.frames[op.frame := s.frames[op.frame].(status := Running)])
  }

  function AfterDestroy(s: State, i: OpId, op: Op): State
    requires op.frame in s.frames
  {
    Tear(s.(ops := s.ops[i := op]), op.frame)
  }

  /** Resuming or destroying the coroutine closes the suspension. */
  lemma ResumeHolds(s: State, i: OpId, op: Op)
    requires Inv(s) && i in s.ops && |s.ops[i].deeds| == 0
    requires op.frame == s.ops[i].frame && op.owner == s.ops[i].owner && op.saved == s.ops[i].saved
    requires op.frame in s.frames && Closed(op) && ResultOk(op)
    ensures Inv(AfterResume(s, i, op))
  {
    assert OpOk(s, i);
    OrderlyAfter(s, AfterResume(s, i, op), i);
    CountedAfter(s, AfterResume(s, i, op), op.frame, i);
  }

  lemma DestroyHolds(s: State, i: OpId, op: Op)
    requires Inv(s) && i in s.ops && |s.ops[i].deeds| == 0
    requires op.frame == s.ops[i].frame && op.owner == s.ops[i].owner && op.saved == s.ops[i].saved
    requires op.frame in s.frames && Closed(op) && ResultOk(op)
    ensures Inv(AfterDestroy(s, i, op))
  {
    var shared := s.frames[op.frame].shared;
    if shared.Some? {
      HolderHasCount(s, shared.value);
    }
    var s' := AfterDestroy(s, i, op);
    DestroyIs(s, i, op);
    DestroyedOrder(s, s', i, op);
    DestroyedCounts(s, s', i, op);
  }

  lemma DestroyedCounts(s: State, s': State, i: OpId, op: Op)
    requires Counted(s) && i in s.ops && op.saved == s.ops[i].saved && op.owner == s.ops[i].owner
    requires op.frame in s.frames
    requires s'.ops == s.ops[i := op] && s'.frames == s.frames[op.frame := FrameState(Gone, None)]
    requires s'.external == s.external && s'.strong.Keys == s.strong.Keys
    requires forall o :: o in s.strong ==> s'.strong[o] + One(s.frames[op.frame].shared, o) == s.strong[o]
    ensures Counted(s')
  {
    CountedAfter(s, s', op.frame, i);
  }

  lemma DestroyIs(s: State, i: OpId, op: Op)
    requires op.frame in s.frames
    requires var shared := s.frames[op.frame].shared; shared.Some? ==> Alive(s, shared)
    ensures var s' := AfterDestroy(s, i, op);
      var shared := s.frames[op.frame].shared;
      && s' == s.(strong := s'.strong, ops := s.ops[i := op], frames := s.frames[op.frame := FrameState(Gone, None)])
      && s'.strong.Keys == s.strong.Keys
      && forall o :: o in s.strong ==> s'.strong[o] + One(shared, o) == s.strong[o]
  {
  }

  lemma DestroyedOrder(s: State, s': State, i: OpId, op: Op)
    requires Orderly(s) && i in s.ops && |s.ops[i].deeds| == 0
    requires op.frame == s.ops[i].frame && op.frame in s.frames && Closed(op) && ResultOk(op)
    requires s'.ops == s.ops[i := op] && s'.frames == s.frames[op.frame := FrameState(Gone, None)]
    ensures Orderly(s')
  {
    assert OpOk(s, i);
    OrderlyAfter(s, s', i);
  }

  /** Everything that must be true for i's coroutine to be resumed or destroyed is. */
  lemma OpenIsPresent(s: State, i: OpId)
    requires Inv(s) && i in s.ops
    requires s.ops[i].handler != Finished || s.ops[i].awaiter !in {Leaving, Returned}
    ensures |s.ops[i].deeds| == 0 && Present(s, i) && ResultOk(s.ops[i])
    ensures Open(s.ops[i], s.frames[s.ops[i].frame].shared)
  {
    assert OpOk(s, i);
  }

  lemma AwaiterEnds(s: State, i: OpId)
    requires Inv(s) && Enabled(s, AwaiterStep(i)) && s.ops[i].awaiter in {Resuming, Destroying}
    ensures Inv(AwaiterNext(s, i))
  {
    OpenIsPresent(s, i);
    var op := NextByAwaiter(s.ops[i], Shared(s, s.ops[i].frame));
    if s.ops[i].awaiter == Resuming {
      ResumeHolds(s, i, op);
    } else {
      DestroyHolds(s, i, op);
    }
  }

  lemma HandlerEnds(s: State, i: OpId)
    requires Inv(s) && Enabled(s, HandlerStep(i)) && s.ops[i].handler in {HandlerResuming, HandlerDestroying}
    ensures Inv(HandlerNext(s, i))
  {
    OpenIsPresent(s, i);
    var op := NextByHandler(s.ops[i], Alive(s, s.ops[i].owner));
    if s.ops[i].handler == HandlerResuming {
      ResumeHolds(s, i, op);
    } else {
      DestroyHolds(s, i, op);
    }
  }

  lemma HandlerMoves(s: State, i: OpId)
    requires Inv(s) && Enabled(s, HandlerStep(i))
    requires s.ops[i].handler.Storing? || s.ops[i].handler in {Completing, Dropping}
    ensures Inv(HandlerNext(s, i))
  {
    OpenIsPresent(s, i);
    OpStepHolds(s, HandlerNext(s, i), i);
  }

  /** weak_this_.lock(): the frame gets its owner back, or is doomed because the owner died. */
  lemma HandlerLocks(s: State, i: OpId)
    requires Inv(s) && Enabled(s, HandlerStep(i)) && s.ops[i].handler == Locking
    ensures Inv(HandlerNext(s, i))
  {
    OpenIsPresent(s, i);
    var o := s.ops[i].owner.value;
    assert FrameOk(s, s.ops[i].frame);
    assert o in s.strong;
    LockIs(s, i);
    var s' := HandlerNext(s, i);
    OrderlyAfter(s, s', i);
    CountedAfter(s, s', s.ops[i].frame, i);
  }

  lemma LockIs(s: State, i: OpId)
    requires Present(s, i) && s.ops[i].handler == Locking && s.ops[i].owner.Some?
    requires s.ops[i].owner.value in s.strong && s.frames[s.ops[i].frame].shared.None?
    ensures var op, f, o := s.ops[i], s.ops[i].frame, s.ops[i].owner.value;
      var alive := s.strong[o] > 0;
      HandlerNext(s, i) == s.(
        strong := if alive then s.strong[o := s.strong[o] + 1] else s.strong,
        frames := s.frames[f := s.frames[f].(shared := if alive then op.owner else None)],
        ops := s.ops[i := op.(handler := if alive then HandlerResuming else HandlerDestroying)])
  {
  }

  /** Dropping the saved reference is local to the awaiter's stack. */
  lemma AwaiterLeaves(s: State, i: OpId)
    requires Inv(s) && Enabled(s, AwaiterStep(i)) && s.ops[i].awaiter == Leaving
    ensures Inv(AwaiterNext(s, i))
  {
    var op := s.ops[i];
    assert OpOk(s, i);
    if op.saved.Some? {
      HolderHasCount(s, op.saved.value);
    }
    var s' := AwaiterNext(s, i);
    assert s'.frames == s.frames && s'.ops == s.ops[i := op.(saved := None, awaiter := Returned)];
    LeaveKeepsOrder(s, s', i);
    LeaveKeepsCounts(s, s', i);
  }

  lemma LeaveKeepsOrder(s: State, s': State, i: OpId)
    requires Orderly(s) && i in s.ops && s.ops[i].awaiter == Leaving
    requires s'.frames == s.frames && s'.ops == s.ops[i := s.ops[i].(saved := None, awaiter := Returned)]
    ensures Orderly(s')
  {
    assert OpOk(s, i);
    forall j | j in s'.ops ensures OpOk(s', j) { assert OpOk(s, j); }
    forall g | g in s'.frames ensures FrameOk(s', g) { assert FrameOk(s, g); }
  }

  lemma LeaveKeepsCounts(s: State, s': State, i: OpId)
    requires Counted(s) && i in s.ops
    requires s'.frames == s.frames && s'.ops == s.ops[i := s.ops[i].(saved := None, awaiter := Returned)]
    requires s'.external == s.external && s'.strong.Keys == s.strong.Keys
    requires forall o :: o in s.strong ==> s'.strong[o] + One(s.ops[i].saved, o) == s.strong[o]
    ensures Counted(s')
  {
    forall o | o in s'.strong
      ensures s'.strong[o] == s'.external[o] + |FrameHolders(s'.frames, o)| + |OpHolders(s'.ops, o)|
    {
      OpHoldersAfter(s.ops, i, s'.ops[i], o);
    }
  }

  lemma StepHolds(s: State, e: Event)
    requires Inv(s) && Enabled(s, e) && Polite(s, e)
    ensures Inv(Step(s, e))
  {
    match e
    case NewOwner(_) => OwnersHold(s, e);
    case Share(_) => OwnersHold(s, e);
    case Unshare(_) => OwnersHold(s, e);
    case Spawn(f, owner) => SpawnHolds(s, f, owner);
    case Suspend(i, f, juggles) => SuspendHolds(s, i, f, juggles);
    case Finish(f) => FinishHolds(s, f);
    case Initiated(_) => ScheduleHolds(s, e);
    case Throws(_) => ScheduleHolds(s, e);
    case Invoke(_, _) => ScheduleHolds(s, e);
    case Drop(_) => ScheduleHolds(s, e);
    case AwaiterStep(i) =>
      match s.ops[i].awaiter {
        case Catching => AwaiterMoves(s, i);
        case Saving => AwaiterSaves(s, i);
        case Arriving => AwaiterMoves(s, i);
        case PuttingBack => AwaiterPutsBack(s, i);
        case Resuming => AwaiterEnds(s, i);
        case Destroying => AwaiterEnds(s, i);
        case Leaving => AwaiterLeaves(s, i);
      }
    case HandlerStep(i) =>
      if s.ops[i].handler in {HandlerResuming, HandlerDestroying} {
        HandlerEnds(s, i);
      } else if s.ops[i].handler == Locking {
        HandlerLocks(s, i);
      } else {
        HandlerMoves(s, i);
      }
  }

  lemma {:induction false} RunHolds(s: State, es: seq<Event>)
    requires Inv(s) && LegalPolite(s, es)
    ensures Inv(Reached(s, es))
    decreases |es|
  {
    if |es| > 0 {
      StepHolds(s, es[0]);
      RunHolds(Step(s, es[0]), es[1..]);
    }
  }
}
