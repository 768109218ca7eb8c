/**
  What the handshake guarantees, over every interleaving of every number of suspensions.
 */
module HandshakeTheorems {
  import opened Options
  import opened Rendezvous
  import opened Handshake
  import opened HandshakeInvariant
  import opened HandshakePreservation

  lemma ReachedHolds(es: seq<Event>)
    requires LegalPolite(INITIAL, es)
    ensures Inv(Reached(INITIAL, es))
  {
    assert Inv(INITIAL);
    RunHolds(INITIAL, es);
  }

  /** No touch after hand-off: no run makes an access to an awaitable or frame that may be
      gone, resumes or destroys a coroutine twice, sets a result twice, reads one that is
      not set, or releases a reference it does not hold. */
  lemma NoRunFaults(es: seq<Event>)
    requires LegalPolite(INITIAL, es)
    ensures !Reached(INITIAL, es).fault
  {
    ReachedHolds(es);
  }

  // ----- exactly one outcome -----

  /** The events of suspension i. */
  predicate EventOf(e: Event, i: OpId) {
    (e.Initiated? || e.Throws? || e.Invoke? || e.Drop? || e.AwaiterStep? || e.HandlerStep?) && e.i == i
  }

  ghost predicate Quiet(s: State, i: OpId) {
    forall e :: EventOf(e, i) ==> !Enabled(s, e)
  }

  /** Exactly one of resume and destroy, by exactly one side, per suspension: never two, and
      one as soon as neither side has anything left to do. Both sides have always something
      left to do until then, so no wake-up is lost. */
  lemma ExactlyOneOutcome(es: seq<Event>, i: OpId)
    requires LegalPolite(INITIAL, es) && i in Reached(INITIAL, es).ops
    ensures var s := Reached(INITIAL, es);
      var op := s.ops[i];
      && |op.deeds| <= 1
      && (op.awaiter == Returned && op.handler == Finished ==> |op.deeds| == 1)
      && (Quiet(s, i) <==> op.awaiter == Returned && op.handler == Finished)
  {
    ReachedHolds(es);
    var s := Reached(INITIAL, es);
    assert OpOk(s, i);
    QuietWhenDone(s, i);
  }

  lemma QuietWhenDone(s: State, i: OpId)
    requires !s.fault && i in s.ops
    ensures Quiet(s, i) <==> s.ops[i].awaiter == Returned && s.ops[i].handler == Finished
  {
    if Quiet(s, i) {
      assert EventOf(Initiated(i), i) && EventOf(AwaiterStep(i), i);
      assert EventOf(Drop(i), i) && EventOf(HandlerStep(i), i);
    }
  }

  function AwaiterRank(a: Awaiter): nat {
    match a
    case Initiating => 6
    case Saving => 5
    case Arriving => 4
    case Catching => 4
    case PuttingBack => 3
    case Resuming => 2
    case Destroying => 2
    case Leaving => 1
    case Returned => 0
  }

  function HandlerRank(h: Handler): nat {
    match h
    case Pending => 5
    case Storing(_) => 4
    case Completing => 3
    case Dropping => 3
    case Locking => 2
    case HandlerResuming => 1
    case HandlerDestroying => 1
    case Finished => 0
  }

  lemma AwaiterOps(s: State, i: OpId)
    requires i in s.ops && !AwaiterNext(s, i).fault
    ensures AwaiterNext(s, i).ops == s.ops[i := NextByAwaiter(s.ops[i], Shared(s, s.ops[i].frame))]
  {
  }

  lemma HandlerOps(s: State, i: OpId)
    requires i in s.ops && !HandlerNext(s, i).fault
    ensures HandlerNext(s, i).ops == s.ops[i := NextByHandler(s.ops[i], Alive(s, s.ops[i].owner))]
  {
  }

  lemma EnvironmentOps(s: State, e: Event, i: OpId)
    requires Enabled(s, e) && !e.AwaiterStep? && !e.HandlerStep? && i in s.ops
    ensures i in Step(s, e).ops
    ensures Step(s, e).ops[i] ==
      if EventOf(e, i) then NextOp(s.ops[i], e, Shared(s, s.ops[i].frame), Alive(s, s.ops[i].owner))
      else s.ops[i]
  {
  }

  /** An event changes at most its own suspension, and that as NextOp says. */
  lemma OpsAfter(s: State, e: Event, i: OpId)
    requires Inv(s) && Enabled(s, e) && Polite(s, e) && i in s.ops
    ensures i in Step(s, e).ops
    ensures Step(s, e).ops[i] ==
      if EventOf(e, i) then NextOp(s.ops[i], e, Shared(s, s.ops[i].frame), Alive(s, s.ops[i].owner))
      else s.ops[i]
  {
    if e.AwaiterStep? {
      StepHolds(s, e);
      AwaiterOps(s, e.i);
    } else if e.HandlerStep? {
      StepHolds(s, e);
      HandlerOps(s, e.i);
    } else {
      EnvironmentOps(s, e, i);
    }
  }

  function Rank(op: Op): nat {
    AwaiterRank(op.awaiter) + HandlerRank(op.handler)
  }

  lemma AwaiterRankDrops(op: Op, shared: Option<OwnerId>)
    requires op.awaiter !in {Initiating, Returned}
    ensures Rank(NextByAwaiter(op, shared)) < Rank(op)
  {
  }

  lemma HandlerRankDrops(op: Op, alive: bool)
    requires op.handler !in {Pending, Finished}
    ensures Rank(NextByHandler(op, alive)) < Rank(op)
  {
  }

  /** e is one of the events of its own that the suspension can make. */
  predicate Ready(op: Op, e: Event) {
    match e
    case Initiated(_) => op.awaiter == Initiating
    case Throws(_) => op.awaiter == Initiating && op.juggles
    case Invoke(_, _) => op.handler == Pending
    case Drop(_) => op.handler == Pending
    case AwaiterStep(_) => op.awaiter !in {Initiating, Returned}
    case HandlerStep(_) => op.handler !in {Pending, Finished}
    case _ => false
  }

  lemma RankDrops(op: Op, e: Event, shared: Option<OwnerId>, alive: bool)
    requires Ready(op, e)
    ensures Rank(NextOp(op, e, shared, alive)) < Rank(op)
  {
    if e.AwaiterStep? {
      AwaiterRankDrops(op, shared);
    } else if e.HandlerStep? {
      HandlerRankDrops(op, alive);
    }
  }

  /** Every event of a suspension brings it closer to its end, and no other event touches it. */
  lemma SuspensionsEnd(s: State, e: Event, i: OpId)
    requires Inv(s) && Enabled(s, e) && Polite(s, e) && i in s.ops
    ensures i in Step(s, e).ops
    ensures if EventOf(e, i) then Rank(Step(s, e).ops[i]) < Rank(s.ops[i]) else Step(s, e).ops[i] == s.ops[i]
  {
    OpsAfter(s, e, i);
    if EventOf(e, i) {
      RankDrops(s.ops[i], e, Shared(s, s.ops[i].frame), Alive(s, s.ops[i].owner));
    }
  }

  // ----- no concurrent access -----

  datatype Field = SharedThis | ResultField

  /** The fields, other than the atomic cell, that a side's next step reads or writes. */
  function AwaiterAccesses(a: Awaiter): set<Field> {
    match a
    case Catching => {ResultField}
    case Saving => {SharedThis}
    case PuttingBack => {SharedThis}
    case Resuming => {ResultField, SharedThis}   // from here on the coroutine runs
    case Destroying => {ResultField, SharedThis} // the frame with all it holds
    case _ => {}
  }

  function HandlerAccesses(h: Handler): set<Field> {
    match h
    case Storing(_) => {ResultField}
    case Locking => {SharedThis}
    case HandlerResuming => {ResultField, SharedThis}
    case HandlerDestroying => {ResultField, SharedThis}
    case _ => {}
  }

  /** A side that is about to access a frame or its awaitable finds it suspended on its own
      suspension; so two suspensions of the same frame are never both about to, and the two
      sides of one suspension never access the same field. */
  lemma NoConcurrentAccess(es: seq<Event>, i: OpId, j: OpId)
    requires LegalPolite(INITIAL, es) && i in Reached(INITIAL, es).ops && j in Reached(INITIAL, es).ops
    ensures var s := Reached(INITIAL, es);
      var x, y := s.ops[i], s.ops[j];
      && AwaiterAccesses(x.awaiter) * HandlerAccesses(x.handler) == {}
      && (AwaiterAccesses(x.awaiter) + HandlerAccesses(x.handler) != {} ==>
            && Present(s, i)
            && (AwaiterAccesses(y.awaiter) + HandlerAccesses(y.handler) != {} && x.frame == y.frame ==> i == j))
  {
    ReachedHolds(es);
    var s := Reached(INITIAL, es);
    assert OpOk(s, i) && OpOk(s, j);
  }

  // ----- the owner -----

  /** A coroutine that had an owner when it suspended on an operation gets that owner back,
      alive and strongly held, before it is resumed by either side; and while its awaiter has
      returned and the handler has not come yet, its frame holds no reference. One that waits
      for a hop holds its owner all the while. */
  lemma OwnerKeptAlive(es: seq<Event>, i: OpId)
    requires LegalPolite(INITIAL, es) && i in Reached(INITIAL, es).ops
    ensures var s := Reached(INITIAL, es);
      var op := s.ops[i];
      && (op.awaiter == Resuming || op.handler == HandlerResuming ==>
            && op.frame in s.frames && s.frames[op.frame].shared == op.owner
            && (op.owner.Some? ==> op.owner.value in s.strong && s.strong[op.owner.value] > 0))
      && (op.juggles && op.awaiter == Returned && (Undecided(op.handler) || op.handler == Locking) ==>
            op.frame in s.frames && s.frames[op.frame].shared.None? && op.saved.None?)
      && (!op.juggles && Present(s, i) ==> s.frames[op.frame].shared == op.owner)
  {
    ReachedHolds(es);
    var s := Reached(INITIAL, es);
    var op := s.ops[i];
    assert OpOk(s, i);
    if op.owner.Some? {
      HolderHasCount(s, op.owner.value);
    }
  }

  /** Conservation of references: in every reachable state an owner's count is the number of
      references outside the coroutines, in frames and in awaiters that saved one. An
      awaiter that has returned keeps none and a frame that is gone keeps none. */
  lemma ReferencesConserved(es: seq<Event>, o: OwnerId)
    requires LegalPolite(INITIAL, es) && o in Reached(INITIAL, es).strong
    ensures var s := Reached(INITIAL, es);
      && o in s.external
      && s.strong[o] == s.external[o] + |FrameHolders(s.frames, o)| + |OpHolders(s.ops, o)|
      && (forall i :: i in OpHolders(s.ops, o) ==> s.ops[i].awaiter in {Arriving, PuttingBack, Destroying, Leaving})
      && (forall f :: f in FrameHolders(s.frames, o) ==> s.frames[f].status != Gone)
  {
    ReachedHolds(es);
    var s := Reached(INITIAL, es);
    forall i | i in OpHolders(s.ops, o)
      ensures s.ops[i].awaiter in {Arriving, PuttingBack, Destroying, Leaving}
    {
      assert OpOk(s, i);
    }
    forall f | f in FrameHolders(s.frames, o) ensures s.frames[f].status != Gone {
      assert FrameOk(s, f);
    }
  }

  predicate Dead(s: State, o: Option<OwnerId>) {
    o.Some? && o.value in s.strong && s.strong[o.value] == 0
  }

  /** What was done to the coroutine so far, if anything. */
  predicate Did(op: Op, deed: Deed) {
    |op.deeds| > 0 && op.deeds[0] == deed
  }

  /** Which side does what to the coroutine, and why; `dead` says whether the owner is. */
  predicate Caused(op: Op, dead: bool) {
    && (op.handler.Storing? || op.handler in {Pending, Completing, Locking, HandlerResuming} ==> !op.dropped)
    && (op.handler == Dropping ==> op.dropped)
    && (Early(op.awaiter) && op.handler == Finished ==> (op.dropped <==> op.cell == Destroyed))
    && (op.awaiter == Catching ==> op.dropped)
    && (op.awaiter == PuttingBack ==> !op.dropped)
    && (op.awaiter == Resuming || Did(op, AwaiterResumed) ==> !op.dropped || op.result == Some(Failure))
    && (op.awaiter == Destroying || Did(op, AwaiterDestroyed) ==> op.dropped)
    && (Did(op, HandlerResumed) ==> !op.dropped)
    && (op.handler == HandlerDestroying || Did(op, HandlerDestroyed) ==> op.dropped || dead)
  }

  predicate CauseOk(s: State, i: OpId)
    requires i in s.ops
  {
    Caused(s.ops[i], Dead(s, s.ops[i].owner))
  }

  lemma StaysDead(s: State, e: Event, o: OwnerId)
    requires Enabled(s, e) && o in s.strong && s.strong[o] == 0
    requires s.external.Keys == s.strong.Keys && s.external[o] == 0
    ensures o in Step(s, e).strong && Step(s, e).strong[o] == 0
  {
    match e
    case AwaiterStep(i) => AwaiterKeepsDead(s, i, o);
    case HandlerStep(i) => HandlerKeepsDead(s, i, o);
    case _ =>
  }

  lemma ReleaseKeepsDead(s: State, x: Option<OwnerId>, o: OwnerId)
    requires o in s.strong && s.strong[o] == 0
    ensures o in Release(s, x).strong && Release(s, x).strong[o] == 0
  {
  }

  lemma AwaiterKeepsDead(s: State, i: OpId, o: OwnerId)
    requires i in s.ops && o in s.strong && s.strong[o] == 0
    ensures o in AwaiterNext(s, i).strong && AwaiterNext(s, i).strong[o] == 0
  {
    var op := s.ops[i];
    var s1 := s.(ops := s.ops[i := NextByAwaiter(op, Shared(s, op.frame))]);
    ReleaseKeepsDead(s1, op.saved, o);
    ReleaseKeepsDead(s1, Shared(s, op.frame), o);
  }

  lemma HandlerKeepsDead(s: State, i: OpId, o: OwnerId)
    requires i in s.ops && o in s.strong && s.strong[o] == 0
    ensures o in HandlerNext(s, i).strong && HandlerNext(s, i).strong[o] == 0
  {
    var op := s.ops[i];
    var s1 := s.(ops := s.ops[i := NextByHandler(op, Alive(s, op.owner))]);
    ReleaseKeepsDead(s1, Shared(s, op.frame), o);
    if Alive(s, op.owner) {
      ReleaseKeepsDead(Acquire(s1, op.owner.value), Shared(s, op.frame), o);
    }
  }

  lemma OwnerStaysDead(s: State, e: Event, i: OpId)
    requires Inv(s) && Enabled(s, e) && i in s.ops && Dead(s, s.ops[i].owner)
    ensures Dead(Step(s, e), s.ops[i].owner)
  {
    StaysDead(s, e, s.ops[i].owner.value);
  }

  lemma CauseStep(s: State, e: Event, i: OpId)
    requires Inv(s) && Enabled(s, e) && Polite(s, e) && i in s.ops && CauseOk(s, i)
    ensures i in Step(s, e).ops && CauseOk(Step(s, e), i)
  {
    var op := s.ops[i];
    OpsAfter(s, e, i);
    if EventOf(e, i) {
      CauseOfOp(s, e, i);
    }
    if Dead(s, op.owner) {
      OwnerStaysDead(s, e, i);
    }
  }

  /** Only Suspend makes a new suspension. */
  lemma OpsKeys(s: State, e: Event)
    requires Enabled(s, e) && !Step(s, e).fault
    ensures Step(s, e).ops.Keys == s.ops.Keys + if e.Suspend? then {e.i} else {}
  {
    match e
    case AwaiterStep(i) => AwaiterOps(s, i);
    case HandlerStep(i) => HandlerOps(s, i);
    case _ =>
  }

  lemma CausedByAwaiter(op: Op, shared: Option<OwnerId>, dead: bool)
    requires Caused(op, dead) && (if |op.deeds| == 0 then Open(op, shared) else Closed(op))
    requires op.awaiter !in {Initiating, Returned}
    ensures Caused(NextByAwaiter(op, shared), dead)
  {
  }

  lemma CausedByHandler(op: Op, shared: Option<OwnerId>, alive: bool, dead: bool)
    requires Caused(op, dead) && |op.deeds| == 0 && Open(op, shared)
    requires op.handler !in {Pending, Finished} && (op.handler == Locking ==> alive || dead)
    ensures Caused(NextByHandler(op, alive), dead)
  {
  }

  /** Within one suspension: what a step leads to has the cause it should have. */
  lemma CauseOfOp(s: State, e: Event, i: OpId)
    requires Inv(s) && i in s.ops && EventOf(e, i) && Enabled(s, e) && Polite(s, e) && CauseOk(s, i)
    ensures var op := s.ops[i];
      var op' := NextOp(op, e, Shared(s, op.frame), Alive(s, op.owner));
      Caused(op', Dead(s, op.owner)) && op'.owner == op.owner
  {
    var op := s.ops[i];
    assert OpOk(s, i);
    assert op.owner.Some? ==> op.owner.value in s.strong;
    if e.AwaiterStep? {
      CausedByAwaiter(op, Shared(s, op.frame), Dead(s, op.owner));
    } else if e.HandlerStep? {
      CausedByHandler(op, Shared(s, op.frame), Alive(s, op.owner), Dead(s, op.owner));
    }
  }

  lemma {:induction false} CauseRun(s: State, es: seq<Event>)
    requires Inv(s) && LegalPolite(s, es) && forall i :: i in s.ops ==> CauseOk(s, i)
    ensures forall i :: i in Reached(s, es).ops ==> CauseOk(Reached(s, es), i)
    decreases |es|
  {
    if |es| > 0 {
      StepHolds(s, es[0]);
      forall i | i in Step(s, es[0]).ops ensures CauseOk(Step(s, es[0]), i) {
        if i in s.ops {
          CauseStep(s, es[0], i);
        } else {
          OpsKeys(s, es[0]);
        }
      }
      CauseRun(Step(s, es[0]), es[1..]);
    }
  }

  /** A coroutine is destroyed only if its handler was dropped or, by a handler that ran,
      if the owner it had when it suspended is dead; and one whose handler was dropped is
      resumed only with the exception that its initiation threw. */
  lemma DeedsHaveCauses(es: seq<Event>, i: OpId)
    requires LegalPolite(INITIAL, es) && i in Reached(INITIAL, es).ops
    ensures var s := Reached(INITIAL, es);
      var op := s.ops[i];
      && (Did(op, AwaiterDestroyed) ==> op.dropped)
      && (Did(op, HandlerDestroyed) ==> op.dropped || Dead(s, op.owner))
      && (Did(op, HandlerResumed) ==> !op.dropped)
      && (Did(op, AwaiterResumed) ==> !op.dropped || op.result == Some(Failure))
  {
    assert Inv(INITIAL);
    CauseRun(INITIAL, es);
    assert CauseOk(Reached(INITIAL, es), i);
  }

  // ----- throwing initiations -----

  /** Some further legal, polite events make the program fault. */
  ghost predicate CanFault(s: State, es: seq<Event>)
    decreases |es|
  {
    s.fault || (|es| > 0 && Enabled(s, es[0]) && Polite(s, es[0]) && CanFault(Step(s, es[0]), es[1..]))
  }

  ghost predicate Hazardous(s: State) {
    exists es :: CanFault(s, es)
  }

  lemma {:induction false} GoodStatesCannotFault(s: State, es: seq<Event>)
    requires Inv(s)
    ensures !CanFault(s, es)
    decreases |es|
  {
    if |es| > 0 && Enabled(s, es[0]) && Polite(s, es[0]) {
      StepHolds(s, es[0]);
      GoodStatesCannotFault(Step(s, es[0]), es[1..]);
    }
  }

  /** A throwing initiation is safe exactly when it has destroyed its copy of the handler,
      unused, before the exception reaches await_suspend. */
  lemma ThrowExact(s: State, i: OpId)
    requires Inv(s) && Enabled(s, Throws(i))
    ensures Polite(s, Throws(i)) <==> !Hazardous(Step(s, Throws(i)))
  {
    if Polite(s, Throws(i)) {
      StepHolds(s, Throws(i));
      GoodStatesAreSafe(Step(s, Throws(i)));
    } else {
      assert OpOk(s, i);
      var es := RudeThrowFaults(Step(s, Throws(i)), i);
    }
  }

  lemma GoodStatesAreSafe(s: State)
    requires Inv(s)
    ensures !Hazardous(s)
  {
    forall es ensures !CanFault(s, es) {
      GoodStatesCannotFault(s, es);
    }
  }

  /** After an impolite throw the stored result clashes, or the handler comes too late. */
  lemma RudeThrowFaults(s: State, i: OpId) returns (es: seq<Event>)
    requires !s.fault && Present(s, i) && s.ops[i].awaiter == Catching && s.ops[i].juggles
    requires s.ops[i].result.Some? || Undecided(s.ops[i].handler)
    ensures CanFault(s, es)
  {
    var s1 := Step(s, AwaiterStep(i));
    if s.ops[i].result.Some? {
      es := [AwaiterStep(i)];
      assert CanFault(s1, es[1..]);
    } else {
      var s2 := Step(s1, AwaiterStep(i));
      var tail := LateHandlerFaults(s2, i);
      es := [AwaiterStep(i), AwaiterStep(i)] + tail;
      assert es[1..][1..] == tail && es[1..][0] == AwaiterStep(i);
      assert CanFault(s1, es[1..]);
    }
  }

  /** A handler that comes after its coroutine was resumed touches what is gone. */
  lemma LateHandlerFaults(s: State, i: OpId) returns (es: seq<Event>)
    requires !s.fault && i in s.ops && !Present(s, i) && s.ops[i].juggles && Undecided(s.ops[i].handler)
    ensures CanFault(s, es)
  {
    if s.ops[i].handler == Pending {
      var s1 := Step(s, Invoke(i, 0));
      es := [Invoke(i, 0), HandlerStep(i)];
      assert es[1..] == [HandlerStep(i)];
      assert CanFault(Step(s1, HandlerStep(i)), es[1..][1..]);
      assert CanFault(s1, es[1..]);
    } else {
      es := [HandlerStep(i)];
      assert CanFault(Step(s, HandlerStep(i)), es[1..]);
    }
  }

  // ----- the atomic view -----

  /** The handshake as the frame machine sees it: two arrivals at the cell. */
  datatype Coarse = Waiting(cell: Cell) | IsResumed | IsDestroyed

  function CoarseArrives(c: Cell): Coarse {
    match OnAwaiting(c)
    case MayResume => IsResumed
    case MustDestroy => IsDestroyed
    case Nothing => Waiting(Awaiting)
  }

  function CoarseCompletes(c: Cell): Coarse {
    if OnCompleted(c) == MayResume then IsResumed else Waiting(Completed)
  }

  function CoarseDrops(c: Cell): Coarse {
    if OnDropped(c) == MustDestroy then IsDestroyed else Waiting(Destroyed)
  }

  function View(op: Op): Coarse {
    if Did(op, AwaiterResumed) || Did(op, HandlerResumed) then IsResumed
    else if |op.deeds| > 0 then IsDestroyed
    else if op.awaiter == PuttingBack || op.awaiter == Resuming || op.handler == HandlerResuming then IsResumed
    else if op.awaiter == Destroying || op.handler == HandlerDestroying then IsDestroyed
    else if op.handler == Locking then Waiting(Awaiting)
    else Waiting(op.cell)
  }

  /** Every step of the fine-grained handshake is invisible in the atomic view or is one of
      its moves: the awaiter's arrival, the handler's completion, its completion with a dead
      owner, its drop, or an initiation that throws. */
  lemma FineStepsRefineCoarse(s: State, e: Event, i: OpId)
    requires Inv(s) && Enabled(s, e) && Polite(s, e) && i in s.ops
    ensures i in Step(s, e).ops
    ensures CoarseMove(View(s.ops[i]), View(Step(s, e).ops[i]), s, e, i)
  {
    assert OpOk(s, i);
    assert s.ops[i].owner.Some? ==> s.ops[i].owner.value in s.strong;
    OpsAfter(s, e, i);
    if EventOf(e, i) {
      if e.AwaiterStep? {
        FineAwaiter(s, i);
      } else if e.HandlerStep? {
        FineHandler(s, i);
      } else {
        FineEnvironment(s, e, i);
      }
    }
  }

  lemma FineEnvironment(s: State, e: Event, i: OpId)
    requires i in s.ops && OpOk(s, i) && Enabled(s, e)
    requires EventOf(e, i) && !e.AwaiterStep? && !e.HandlerStep?
    ensures View(NextOp(s.ops[i], e, Shared(s, s.ops[i].frame), Alive(s, s.ops[i].owner))) == View(s.ops[i])
  {
  }

  predicate CoarseMove(v: Coarse, v': Coarse, s: State, e: Event, i: OpId)
    requires i in s.ops
  {
    || v' == v
    || (v.Waiting? && v.cell != Awaiting && e == AwaiterStep(i) && v' == CoarseArrives(v.cell))
    || (v.Waiting? && v.cell in {Initializing, Awaiting} && e == HandlerStep(i)
          && if s.ops[i].handler == Dropping then v' == CoarseDrops(v.cell)
             else
               && s.ops[i].handler in {Completing, Locking}
               && (v' == CoarseCompletes(v.cell)
                   || (v.cell == Awaiting && Dead(s, s.ops[i].owner) && v' == IsDestroyed)))
    || (v == Waiting(Destroyed) && s.ops[i].awaiter == Catching && e == AwaiterStep(i) && v' == IsResumed)
  }

  lemma FineAwaiter(s: State, i: OpId)
    requires i in s.ops && OpOk(s, i) && Enabled(s, AwaiterStep(i))
    requires s.ops[i].awaiter == Catching ==> s.ops[i].cell == Destroyed
    ensures CoarseMove(View(s.ops[i]), View(NextByAwaiter(s.ops[i], Shared(s, s.ops[i].frame))), s, AwaiterStep(i), i)
  {
  }

  lemma FineHandler(s: State, i: OpId)
    requires i in s.ops && OpOk(s, i) && Enabled(s, HandlerStep(i))
    requires s.ops[i].owner.Some? ==> s.ops[i].owner.value in s.strong
    ensures CoarseMove(View(s.ops[i]), View(NextByHandler(s.ops[i], Alive(s, s.ops[i].owner))), s, HandlerStep(i), i)
  {
  }
}
