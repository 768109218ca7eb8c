/**
  What the interleaved handshake keeps, told from the events of a run alone: which value a
  suspension ends with, which owner it gives back, and what was really done to its coroutine.
 */
module HandshakeHistory {
  import opened Options
  import opened Rendezvous
  import opened Handshake
  import opened HandshakeInvariant
  import opened HandshakePreservation
  import opened HandshakeTheorems

  /** The values that the handler of i was invoked with. */
  function InvokedWith(es: seq<Event>, i: OpId): seq<int> {
    if |es| == 0 then []
    else (if es[0].Invoke? && es[0].i == i then [es[0].v] else []) + InvokedWith(es[1..], i)
  }

  /** The owners that the coroutine f was started with. */
  function SpawnedWith(es: seq<Event>, f: FrameId): seq<Option<OwnerId>> {
    if |es| == 0 then []
    else (if es[0].Spawn? && es[0].f == f then [es[0].owner] else []) + SpawnedWith(es[1..], f)
  }

  // ----- values -----

  predicate Resumed(op: Op) {
    Did(op, AwaiterResumed) || Did(op, HandlerResumed)
  }

  predicate Failed(op: Op) {
    op.awaiter == Catching || op.result == Some(Failure)
  }

  /** vs are the values that the handler was invoked with, drop whether it was dropped. */
  predicate ValueOk(op: Op, vs: seq<int>, drop: bool) {
    && |vs| <= 1 && (vs != [] ==> !drop)
    && (op.handler == Pending <==> vs == [] && !drop)
    && (op.dropped <==> drop)
    && (op.handler.Storing? ==> op.juggles && vs == [op.handler.v] && op.result.None?)
    && (op.result.Some? && op.result.value.Value? ==> vs == [op.result.value.v])
    && (op.juggles && vs != [] && !op.handler.Storing? ==> op.result == Some(Value(vs[0])))
    && (op.juggles && Resumed(op) ==> op.result.Some?)
  }

  lemma ValueOfOp(op: Op, e: Event, shared: Option<OwnerId>, alive: bool, vs: seq<int>, drop: bool)
    requires ValueOk(op, vs, drop) && Ready(op, e) && (e.Throws? ==> op.handler == Finished && op.cell == Destroyed)
    requires ResultOk(op) && (if |op.deeds| == 0 then Open(op, shared) else Closed(op))
    ensures ValueOk(NextOp(op, e, shared, alive), if e.Invoke? then vs + [e.v] else vs, drop || e.Drop?)
  {
  }

  lemma StepValue(s: State, e: Event, i: OpId, vs: seq<int>, drop: bool)
    requires Inv(s) && Enabled(s, e) && Polite(s, e)
    requires if i in s.ops then ValueOk(s.ops[i], vs, drop) else vs == [] && !drop
    ensures var s', vs', drop' := Step(s, e), vs + InvokedWith([e], i), drop || e == Drop(i);
      if i in s'.ops then ValueOk(s'.ops[i], vs', drop') else vs' == [] && !drop'
  {
    InvokedOnce(e, i, vs);
    if i in s.ops {
      OpsAfter(s, e, i);
      if EventOf(e, i) {
        ReadyOp(s, e, i);
        ValueOfOp(s.ops[i], e, Shared(s, s.ops[i].frame), Alive(s, s.ops[i].owner), vs, drop);
      }
    } else {
      FreshValue(s, e, i);
    }
  }

  lemma InvokedOnce(e: Event, i: OpId, vs: seq<int>)
    ensures InvokedWith([e], i) == if e.Invoke? && e.i == i then [e.v] else []
    ensures vs + [] == vs
  {
    assert [e][1..] == [];
  }

  /** What is known of a suspension that is about to take an event of its own. */
  lemma ReadyOp(s: State, e: Event, i: OpId)
    requires Inv(s) && Enabled(s, e) && Polite(s, e) && i in s.ops && EventOf(e, i)
    ensures var op := s.ops[i];
      && Ready(op, e) && ResultOk(op) && (e.Throws? ==> op.handler == Finished && op.cell == Destroyed)
      && (if |op.deeds| == 0 then Present(s, i) && Open(op, Shared(s, op.frame)) else Closed(op))
  {
    assert OpOk(s, i);
  }

  lemma FreshValue(s: State, e: Event, i: OpId)
    requires Inv(s) && Enabled(s, e) && Polite(s, e) && i !in s.ops
    ensures !(e.Invoke? && e.i == i) && e != Drop(i)
    ensures i in Step(s, e).ops ==> ValueOk(Step(s, e).ops[i], [], false)
  {
    if e.Suspend? && e.i == i {
      SuspendedIs(s, e);
    } else {
      NoNewOp(s, e, i);
    }
  }

  lemma NoNewOp(s: State, e: Event, i: OpId)
    requires Inv(s) && Enabled(s, e) && Polite(s, e) && i !in s.ops && !(e.Suspend? && e.i == i)
    ensures i !in Step(s, e).ops
  {
    StepHolds(s, e);
    OpsKeys(s, e);
  }

  lemma SuspendedIs(s: State, e: Event)
    requires Enabled(s, e) && e.Suspend?
    ensures e.i in Step(s, e).ops && Step(s, e).frames == s.frames[e.f := s.frames[e.f].(status := Suspended(e.i))]
    ensures Step(s, e).ops == s.ops[e.i :=
      Op(e.f, e.juggles, s.frames[e.f].shared, Initializing, Initiating, Pending, None, None, [], false)]
  {
  }

  lemma {:induction false} RunValue(s: State, es: seq<Event>, i: OpId, vs: seq<int>, drop: bool)
    requires Inv(s) && LegalPolite(s, es)
    requires if i in s.ops then ValueOk(s.ops[i], vs, drop) else vs == [] && !drop
    ensures var s', vs', drop' := Reached(s, es), vs + InvokedWith(es, i), drop || Drop(i) in es;
      if i in s'.ops then ValueOk(s'.ops[i], vs', drop') else vs' == [] && !drop'
    decreases |es|
  {
    if |es| == 0 {
      assert vs + InvokedWith(es, i) == vs;
    } else {
      StepValue(s, es[0], i, vs, drop);
      StepHolds(s, es[0]);
      InvokedFirst(es, i, vs);
      RunValue(Step(s, es[0]), es[1..], i, vs + InvokedWith([es[0]], i), drop || es[0] == Drop(i));
    }
  }

  lemma InvokedFirst(es: seq<Event>, i: OpId, vs: seq<int>)
    requires |es| > 0
    ensures vs + InvokedWith([es[0]], i) + InvokedWith(es[1..], i) == vs + InvokedWith(es, i)
  {
    assert [es[0]][1..] == [];
  }

  /** Over every run: the handler of a suspension is invoked at most once or dropped, never
      both; the value a suspension holds is the one that its handler was invoked with; and
      one that was resumed without its initiation having thrown holds exactly that value. */
  lemma ValueArrives(es: seq<Event>, i: OpId)
    requires LegalPolite(INITIAL, es) && i in Reached(INITIAL, es).ops
    ensures var op, vs := Reached(INITIAL, es).ops[i], InvokedWith(es, i);
      && |vs| <= 1 && (vs != [] ==> Drop(i) !in es)
      && (op.handler == Pending <==> vs == [] && Drop(i) !in es)
      && (op.dropped <==> Drop(i) in es)
      && (forall v :: op.result == Some(Value(v)) ==> vs == [v])
      && (op.juggles && Resumed(op) ==> op.result.Some?)
      && (op.juggles && Resumed(op) && !Failed(op) ==> |vs| == 1 && op.result == Some(Value(vs[0])))
  {
    assert Inv(INITIAL);
    RunValue(INITIAL, es, i, [], false);
    assert [] + InvokedWith(es, i) == InvokedWith(es, i);
  }

  lemma {:induction false} InvokedIsIn(es: seq<Event>, i: OpId)
    ensures forall v :: v in InvokedWith(es, i) <==> Invoke(i, v) in es
  {
    if |es| > 0 {
      InvokedIsIn(es[1..], i);
      assert es == [es[0]] + es[1..];
    }
  }

  // ----- what was suspended -----

  lemma {:induction false} RunSuspends(s: State, es: seq<Event>, i: OpId)
    requires Inv(s) && LegalPolite(s, es)
    ensures var s' := Reached(s, es);
      i in s'.ops ==>
        if i in s.ops then s'.ops[i].frame == s.ops[i].frame && s'.ops[i].juggles == s.ops[i].juggles
        else Suspend(i, s'.ops[i].frame, s'.ops[i].juggles) in es
    decreases |es|
  {
    if |es| > 0 {
      StepSuspends(s, es[0], i);
      StepHolds(s, es[0]);
      RunSuspends(Step(s, es[0]), es[1..], i);
    }
  }

  lemma StepSuspends(s: State, e: Event, i: OpId)
    requires Inv(s) && Enabled(s, e) && Polite(s, e)
    ensures var s' := Step(s, e);
      if i in s.ops then i in s'.ops && s'.ops[i].frame == s.ops[i].frame && s'.ops[i].juggles == s.ops[i].juggles
      else i in s'.ops ==> e == Suspend(i, s'.ops[i].frame, s'.ops[i].juggles)
  {
    if i in s.ops {
      OpsAfter(s, e, i);
      KindOfOp(s.ops[i], e, Shared(s, s.ops[i].frame), Alive(s, s.ops[i].owner));
    } else if e.Suspend? && e.i == i {
      SuspendedIs(s, e);
    } else {
      NoNewOp(s, e, i);
    }
  }

  lemma KindOfOp(op: Op, e: Event, shared: Option<OwnerId>, alive: bool)
    ensures NextOp(op, e, shared, alive).frame == op.frame && NextOp(op, e, shared, alive).juggles == op.juggles
  {
  }

  /** A suspension is of the coroutine and of the kind that it was made of. */
  lemma SuspendedAs(es: seq<Event>, i: OpId)
    requires LegalPolite(INITIAL, es) && i in Reached(INITIAL, es).ops
    ensures var op := Reached(INITIAL, es).ops[i]; Suspend(i, op.frame, op.juggles) in es
  {
    assert Inv(INITIAL);
    RunSuspends(INITIAL, es, i);
  }

  // ----- owners -----

  /** `given` are the owners that f was started with. */
  ghost predicate GivenOk(s: State, f: FrameId, given: seq<Option<OwnerId>>) {
    if f in s.frames then
      && |given| == 1
      && (s.frames[f].status == Running ==> s.frames[f].shared == given[0])
      && (forall i :: i in s.ops && s.ops[i].frame == f ==> s.ops[i].owner == given[0])
    else given == [] && forall i :: i in s.ops ==> s.ops[i].frame != f
  }

  lemma StepGiven(s: State, e: Event, f: FrameId, given: seq<Option<OwnerId>>)
    requires Inv(s) && Enabled(s, e) && Polite(s, e) && GivenOk(s, f, given)
    ensures GivenOk(Step(s, e), f, given + SpawnedWith([e], f))
  {
    SpawnedOnce(e, f, given);
    match e
    case Suspend(i, _, _) => SuspendKeepsGiven(s, e, f, given);
    case Spawn(g, _) => SpawnedIs(s, e);
    case Finish(g) => FinishedIs(s, g);
    case AwaiterStep(i) => AwaiterKeepsOwners(s, i, f);
    case HandlerStep(i) => HandlerKeepsOwners(s, i, f);
    case _ => OutsideIs(s, e);
  }

  lemma SuspendKeepsGiven(s: State, e: Event, f: FrameId, given: seq<Option<OwnerId>>)
    requires Enabled(s, e) && e.Suspend? && GivenOk(s, f, given)
    ensures GivenOk(Step(s, e), f, given)
  {
    SuspendedIs(s, e);
  }

  lemma SpawnedOnce(e: Event, f: FrameId, given: seq<Option<OwnerId>>)
    ensures SpawnedWith([e], f) == if e.Spawn? && e.f == f then [e.owner] else []
    ensures given + [] == given
  {
    assert [e][1..] == [];
  }

  lemma SpawnedIs(s: State, e: Event)
    requires Enabled(s, e) && e.Spawn?
    ensures Step(s, e).frames == s.frames[e.f := FrameState(Running, e.owner)] && Step(s, e).ops == s.ops
  {
  }

  lemma FinishedIs(s: State, f: FrameId)
    requires Enabled(s, Finish(f))
    ensures Step(s, Finish(f)).ops == s.ops && Step(s, Finish(f)).frames.Keys == s.frames.Keys
    ensures forall g :: g in s.frames ==>
      Step(s, Finish(f)).frames[g] == if g == f then FrameState(Gone, None) else s.frames[g]
  {
  }

  /** Events of owners, and those that only schedule a side. */
  lemma OutsideIs(s: State, e: Event)
    requires Enabled(s, e)
    requires !e.Suspend? && !e.Spawn? && !e.Finish? && !e.AwaiterStep? && !e.HandlerStep?
    ensures Step(s, e).frames == s.frames && Step(s, e).ops.Keys == s.ops.Keys
    ensures forall i :: i in s.ops ==>
      Step(s, e).ops[i].frame == s.ops[i].frame && Step(s, e).ops[i].owner == s.ops[i].owner
  {
  }

  /** A frame keeps its owner unless it is taken on, and then it has the suspension's. */
  ghost predicate OwnersKept(s: State, s': State, i: OpId, f: FrameId)
    requires i in s.ops
  {
    && s'.ops.Keys == s.ops.Keys && s'.frames.Keys == s.frames.Keys
    && (forall j :: j in s.ops ==> s'.ops[j].frame == s.ops[j].frame && s'.ops[j].owner == s.ops[j].owner)
    && (f in s.frames && s'.frames[f].status == Running ==>
          s'.frames[f] == s.frames[f] || (s.ops[i].frame == f && s'.frames[f].shared == s.ops[i].owner))
  }

  lemma AwaiterKeepsOwners(s: State, i: OpId, f: FrameId)
    requires Inv(s) && Enabled(s, AwaiterStep(i))
    ensures OwnersKept(s, Step(s, AwaiterStep(i)), i, f)
  {
    AwaiterFrames(s, i);
    OwnerOfOp(s.ops[i], AwaiterStep(i), Shared(s, s.ops[i].frame), true);
  }

  lemma HandlerKeepsOwners(s: State, i: OpId, f: FrameId)
    requires Inv(s) && Enabled(s, HandlerStep(i))
    ensures OwnersKept(s, Step(s, HandlerStep(i)), i, f)
  {
    HandlerFrames(s, i);
    OwnerOfOp(s.ops[i], HandlerStep(i), None, Alive(s, s.ops[i].owner));
  }

  lemma OwnerOfOp(op: Op, e: Event, shared: Option<OwnerId>, alive: bool)
    ensures NextOp(op, e, shared, alive).owner == op.owner && NextOp(op, e, shared, alive).frame == op.frame
  {
  }

  /** A step of the awaiter changes at most its own frame; that one runs only after it was
      resumed, and then as it stands. */
  lemma AwaiterFrames(s: State, i: OpId)
    requires Inv(s) && Enabled(s, AwaiterStep(i))
    ensures Step(s, AwaiterStep(i)) == AwaiterNext(s, i)
    ensures var s', op := AwaiterNext(s, i), s.ops[i];
      && s'.frames.Keys == s.frames.Keys && s'.ops == s.ops[i := NextByAwaiter(op, Shared(s, op.frame))]
      && (forall g :: g in s.frames && g != op.frame ==> s'.frames[g] == s.frames[g])
      && (if Present(s, i) then
            s'.frames[op.frame].status ==
              (if op.awaiter == Resuming then Running else if op.awaiter == Destroying then Gone else Suspended(i))
            && (op.awaiter == Resuming ==> s'.frames[op.frame].shared == op.owner)
          else op.awaiter == Leaving && s'.frames == s.frames)
  {
    StepHolds(s, AwaiterStep(i));
    AwaiterOps(s, i);
    ReadyOp(s, AwaiterStep(i), i);
    AwaiterStatus(s, i);
  }

  lemma AwaiterStatus(s: State, i: OpId)
    requires i in s.ops && !AwaiterNext(s, i).fault
    ensures var s', op := AwaiterNext(s, i), s.ops[i];
      && s'.frames.Keys == s.frames.Keys
      && (forall g :: g in s.frames && g != op.frame ==> s'.frames[g] == s.frames[g])
      && (op.awaiter == Leaving ==> s'.frames == s.frames)
      && (op.awaiter != Leaving ==> Present(s, i))
      && (op.awaiter == Resuming ==> s'.frames[op.frame] == s.frames[op.frame].(status := Running))
      && (op.awaiter == Destroying ==> s'.frames[op.frame].status == Gone)
      && (op.awaiter !in {Resuming, Destroying, Leaving} ==> s'.frames[op.frame].status == s.frames[op.frame].status)
  {
    if s.ops[i].awaiter in {PuttingBack, Destroying} {
      AwaiterReleases(s, i);
    }
  }

  /** Putting the owner back and destroying the coroutine release the frame's reference. */
  lemma AwaiterReleases(s: State, i: OpId)
    requires i in s.ops && s.ops[i].awaiter in {PuttingBack, Destroying} && !AwaiterNext(s, i).fault
    ensures var s', op := AwaiterNext(s, i), s.ops[i];
      && Present(s, i)
      && s'.frames == s.frames[op.frame := if op.awaiter == Destroying then FrameState(Gone, None)
                                           else s.frames[op.frame].(shared := op.saved)]
  {
  }

  lemma HandlerFrames(s: State, i: OpId)
    requires Inv(s) && Enabled(s, HandlerStep(i))
    ensures Step(s, HandlerStep(i)) == HandlerNext(s, i)
    ensures var s', op := HandlerNext(s, i), s.ops[i];
      && s'.frames.Keys == s.frames.Keys && s'.ops == s.ops[i := NextByHandler(op, Alive(s, op.owner))]
      && (forall g :: g in s.frames && g != op.frame ==> s'.frames[g] == s.frames[g])
      && Present(s, i)
      && s'.frames[op.frame].status ==
           (if op.handler == HandlerResuming then Running
            else if op.handler == HandlerDestroying then Gone else Suspended(i))
      && (op.handler == HandlerResuming ==> s'.frames[op.frame].shared == op.owner)
  {
    StepHolds(s, HandlerStep(i));
    HandlerOps(s, i);
    ReadyOp(s, HandlerStep(i), i);
    HandlerStatus(s, i);
  }

  lemma HandlerStatus(s: State, i: OpId)
    requires i in s.ops && !HandlerNext(s, i).fault
    ensures var s', op := HandlerNext(s, i), s.ops[i];
      && s'.frames.Keys == s.frames.Keys
      && (forall g :: g in s.frames && g != op.frame ==> s'.frames[g] == s.frames[g])
      && Present(s, i)
      && (op.handler == HandlerResuming ==> s'.frames[op.frame] == s.frames[op.frame].(status := Running))
      && (op.handler == HandlerDestroying ==> s'.frames[op.frame].status == Gone)
      && (op.handler !in {HandlerResuming, HandlerDestroying} ==>
            s'.frames[op.frame].status == s.frames[op.frame].status)
  {
    if s.ops[i].handler == Locking {
      LockKeepsStatus(s, i);
    }
  }

  lemma LockKeepsStatus(s: State, i: OpId)
    requires i in s.ops && s.ops[i].handler == Locking && !HandlerNext(s, i).fault
    ensures var s', op := HandlerNext(s, i), s.ops[i];
      && Present(s, i)
      && s'.frames == s.frames[op.frame := s.frames[op.frame].(shared := s'.frames[op.frame].shared)]
  {
  }

  lemma {:induction false} RunGiven(s: State, es: seq<Event>, f: FrameId, given: seq<Option<OwnerId>>)
    requires Inv(s) && LegalPolite(s, es) && GivenOk(s, f, given)
    ensures GivenOk(Reached(s, es), f, given + SpawnedWith(es, f))
    decreases |es|
  {
    if |es| == 0 {
      assert given + SpawnedWith(es, f) == given;
    } else {
      StepGiven(s, es[0], f, given);
      StepHolds(s, es[0]);
      SpawnedFirst(es, f, given);
      RunGiven(Step(s, es[0]), es[1..], f, given + SpawnedWith([es[0]], f));
    }
  }

  lemma SpawnedFirst(es: seq<Event>, f: FrameId, given: seq<Option<OwnerId>>)
    requires |es| > 0
    ensures given + SpawnedWith([es[0]], f) + SpawnedWith(es[1..], f) == given + SpawnedWith(es, f)
  {
    assert [es[0]][1..] == [];
  }

  /** Over every run: whenever a coroutine runs, it holds the owner that it was started with,
      and every suspension of it is to give that owner back. */
  lemma OwnerIsGiven(es: seq<Event>, f: FrameId)
    requires LegalPolite(INITIAL, es) && f in Reached(INITIAL, es).frames
    ensures var s, given := Reached(INITIAL, es), SpawnedWith(es, f);
      && |given| == 1
      && (s.frames[f].status == Running ==> s.frames[f].shared == given[0])
      && (forall i :: i in s.ops && s.ops[i].frame == f ==> s.ops[i].owner == given[0])
  {
    assert Inv(INITIAL);
    RunGiven(INITIAL, es, f, []);
    assert [] + SpawnedWith(es, f) == SpawnedWith(es, f);
  }

  // ----- what is done to the coroutine -----

  /** What an event does to the coroutine that waits in suspension i: it stops waiting, and
      either runs on or is gone. */
  function Effect(s: State, e: Event, i: OpId): seq<Deed>
    requires Enabled(s, e)
  {
    var s' := Step(s, e);
    if !Present(s, i) || Present(s', i) then []
    else
      var runs := s.ops[i].frame in s'.frames && s'.frames[s.ops[i].frame].status == Running;
      [if e == AwaiterStep(i) then (if runs then AwaiterResumed else AwaiterDestroyed)
       else (if runs then HandlerResumed else HandlerDestroyed)]
  }

  function Effects(s: State, es: seq<Event>, i: OpId): seq<Deed>
    requires LegalPolite(s, es)
    decreases |es|
  {
    if |es| == 0 then [] else Effect(s, es[0], i) + Effects(Step(s, es[0]), es[1..], i)
  }

  function DeedsOf(s: State, i: OpId): seq<Deed> {
    if i in s.ops then s.ops[i].deeds else []
  }

  lemma StepEffect(s: State, e: Event, i: OpId)
    requires Inv(s) && Enabled(s, e) && Polite(s, e)
    ensures DeedsOf(Step(s, e), i) == DeedsOf(s, i) + Effect(s, e, i)
  {
    if i !in s.ops {
      FreshDeeds(s, e, i);
    } else if e == AwaiterStep(i) {
      AwaiterEffect(s, i);
    } else if e == HandlerStep(i) {
      HandlerEffect(s, i);
    } else {
      OthersKeepWaiting(s, e, i);
      OthersKeepDeeds(s, e, i);
    }
  }

  lemma AwaiterEffect(s: State, i: OpId)
    requires Inv(s) && Enabled(s, AwaiterStep(i))
    ensures DeedsOf(Step(s, AwaiterStep(i)), i) == DeedsOf(s, i) + Effect(s, AwaiterStep(i), i)
  {
    AwaiterFrames(s, i);
  }

  lemma HandlerEffect(s: State, i: OpId)
    requires Inv(s) && Enabled(s, HandlerStep(i))
    ensures DeedsOf(Step(s, HandlerStep(i)), i) == DeedsOf(s, i) + Effect(s, HandlerStep(i), i)
  {
    HandlerFrames(s, i);
  }

  lemma OthersKeepDeeds(s: State, e: Event, i: OpId)
    requires Inv(s) && Enabled(s, e) && Polite(s, e) && i in s.ops && e != AwaiterStep(i) && e != HandlerStep(i)
    ensures DeedsOf(Step(s, e), i) == DeedsOf(s, i)
  {
    OpsAfter(s, e, i);
  }

  lemma FreshDeeds(s: State, e: Event, i: OpId)
    requires Inv(s) && Enabled(s, e) && Polite(s, e) && i !in s.ops
    ensures DeedsOf(Step(s, e), i) == []
  {
    if e.Suspend? && e.i == i {
      SuspendedIs(s, e);
    } else {
      NoNewOp(s, e, i);
    }
  }

  /** Only the steps of its own two sides end a coroutine's waiting. */
  lemma OthersKeepWaiting(s: State, e: Event, i: OpId)
    requires Inv(s) && Enabled(s, e) && Polite(s, e) && i in s.ops && e != AwaiterStep(i) && e != HandlerStep(i)
    ensures i in Step(s, e).ops && Step(s, e).ops[i].frame == s.ops[i].frame
    ensures Present(s, i) ==> Present(Step(s, e), i)
  {
    match e
    case Suspend(_, _, _) => SuspendedIs(s, e);
    case Spawn(_, _) => SpawnedIs(s, e);
    case Finish(g) => FinishedIs(s, g);
    case AwaiterStep(j) => AwaiterElsewhere(s, j, i);
    case HandlerStep(j) => HandlerElsewhere(s, j, i);
    case _ => OutsideIs(s, e);
  }

  lemma AwaiterElsewhere(s: State, j: OpId, i: OpId)
    requires Inv(s) && Enabled(s, AwaiterStep(j)) && i in s.ops && i != j
    ensures var s' := Step(s, AwaiterStep(j));
      i in s'.ops && s'.ops[i].frame == s.ops[i].frame && (Present(s, i) ==> Present(s', i))
  {
    AwaiterFrames(s, j);
  }

  lemma HandlerElsewhere(s: State, j: OpId, i: OpId)
    requires Inv(s) && Enabled(s, HandlerStep(j)) && i in s.ops && i != j
    ensures var s' := Step(s, HandlerStep(j));
      i in s'.ops && s'.ops[i].frame == s.ops[i].frame && (Present(s, i) ==> Present(s', i))
  {
    HandlerFrames(s, j);
  }

  lemma {:induction false} RunEffects(s: State, es: seq<Event>, i: OpId)
    requires Inv(s) && LegalPolite(s, es)
    ensures DeedsOf(Reached(s, es), i) == DeedsOf(s, i) + Effects(s, es, i)
    decreases |es|
  {
    if |es| > 0 {
      StepEffect(s, es[0], i);
      StepHolds(s, es[0]);
      RunEffects(Step(s, es[0]), es[1..], i);
      EffectsFirst(s, es, i);
    }
  }

  lemma EffectsFirst(s: State, es: seq<Event>, i: OpId)
    requires LegalPolite(s, es) && |es| > 0
    ensures DeedsOf(s, i) + Effect(s, es[0], i) + Effects(Step(s, es[0]), es[1..], i)
      == DeedsOf(s, i) + Effects(s, es, i)
  {
  }

  /** The deeds that the theorems count are what happened: over every run they are the
      events at which the waiting coroutine stopped waiting, by the side that made the event,
      and as what it did next says. */
  lemma DeedsAreEffects(es: seq<Event>, i: OpId)
    requires LegalPolite(INITIAL, es) && i in Reached(INITIAL, es).ops
    ensures Reached(INITIAL, es).ops[i].deeds == Effects(INITIAL, es, i)
  {
    assert Inv(INITIAL);
    RunEffects(INITIAL, es, i);
  }

  /** A coroutine is destroyed only if its handler was dropped or, by a handler that ran, if
      the owner it had when it suspended is dead; and one whose handler was dropped is resumed
      only with the exception that its initiation threw. */
  lemma DestroyedForCause(es: seq<Event>, i: OpId)
    requires LegalPolite(INITIAL, es) && i in Reached(INITIAL, es).ops
    ensures var s, done := Reached(INITIAL, es), Effects(INITIAL, es, i);
      && (AwaiterDestroyed in done ==> Drop(i) in es)
      && (HandlerDestroyed in done ==> Drop(i) in es || Dead(s, s.ops[i].owner))
      && (HandlerResumed in done ==> Drop(i) !in es)
      && (AwaiterResumed in done ==> Drop(i) !in es || s.ops[i].result == Some(Failure))
  {
    DeedsAreEffects(es, i);
    ExactlyOneOutcome(es, i);
    ValueArrives(es, i);
    DeedsHaveCauses(es, i);
  }
}
