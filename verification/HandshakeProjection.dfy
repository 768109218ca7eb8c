/**
  The handshake of the interleaved model and the meetings of the frame machine are the same
  thing: what any interleaving does to one suspension, seen at its atomic cell, is a run of
  the frame machine.
 */
module HandshakeProjection {
  import opened Options
  import opened Executors
  import opened Rendezvous
  import opened Programs
  import opened FrameMachine
  import opened FrameInvariant
  import opened FramePreservation
  import opened FrameMeaning
  import opened FrameAffinity
  import H = Handshake
  import HI = HandshakeInvariant
  import HP = HandshakePreservation
  import HT = HandshakeTheorems
  import HH = HandshakeHistory

  /** What happens at the cell of a suspension. */
  datatype Move = Arrives | Runs | Orphaned | Drops

  /** The view of the cell after a move, if the move can happen. */
  function Next(v: HT.Coarse, m: Move): Option<HT.Coarse> {
    if !v.Waiting? then None
    else match m
      case Arrives => if v.cell == Awaiting then None else Some(HT.CoarseArrives(v.cell))
      case Runs => if v.cell in {Initializing, Awaiting} then Some(HT.CoarseCompletes(v.cell)) else None
      case Orphaned => if v.cell == Awaiting then Some(HT.IsDestroyed) else None
      case Drops => if v.cell in {Initializing, Awaiting} then Some(HT.CoarseDrops(v.cell)) else None
  }

  predicate Possible(v: HT.Coarse, ms: seq<Move>)
    decreases |ms|
  {
    |ms| > 0 ==> Next(v, ms[0]).Some? && Possible(Next(v, ms[0]).value, ms[1..])
  }

  function After(v: HT.Coarse, ms: seq<Move>): HT.Coarse
    requires Possible(v, ms)
    decreases |ms|
  {
    if |ms| == 0 then v else After(Next(v, ms[0]).value, ms[1..])
  }

  // ----- from interleavings to moves -----

  function ViewAt(s: H.State, i: H.OpId): HT.Coarse {
    if i in s.ops then HT.View(s.ops[i]) else HT.Waiting(Initializing)
  }

  /** What a step of the interleaved model that changes the view of i is at the cell. */
  function MoveOf(s: H.State, e: H.Event, i: H.OpId): Move
    requires H.Enabled(s, e)
  {
    if e.AwaiterStep? then Arrives
    else if i in s.ops && s.ops[i].handler == H.Dropping then Drops
    else if ViewAt(H.Step(s, e), i) == HT.IsDestroyed then Orphaned
    else Runs
  }

  /** The moves of suspension i in a run. */
  function Project(s: H.State, es: seq<H.Event>, i: H.OpId): seq<Move>
    requires H.LegalPolite(s, es)
    decreases |es|
  {
    if |es| == 0 then []
    else
      var s' := H.Step(s, es[0]);
      (if ViewAt(s', i) == ViewAt(s, i) then [] else [MoveOf(s, es[0], i)]) + Project(s', es[1..], i)
  }

  /** The initiation of i threw: there is no handshake then. */
  predicate Threw(s: H.State, i: H.OpId) {
    i in s.ops && HH.Failed(s.ops[i])
  }

  lemma ThrewStays(s: H.State, e: H.Event, i: H.OpId)
    requires HI.Inv(s) && H.Enabled(s, e) && H.Polite(s, e) && Threw(s, i)
    ensures Threw(H.Step(s, e), i)
  {
    assert HI.OpOk(s, i);
    HT.OpsAfter(s, e, i);
  }

  lemma StepProjects(s: H.State, e: H.Event, i: H.OpId)
    requires HI.Inv(s) && H.Enabled(s, e) && H.Polite(s, e) && !Threw(H.Step(s, e), i)
    ensures var v, v' := ViewAt(s, i), ViewAt(H.Step(s, e), i);
      v' != v ==>
        && Next(v, MoveOf(s, e, i)) == Some(v')
        && i in s.ops && (MoveOf(s, e, i) == Orphaned ==> s.ops[i].juggles)
  {
    if i in s.ops {
      HT.FineStepsRefineCoarse(s, e, i);
      if ViewAt(H.Step(s, e), i) != ViewAt(s, i) {
        MoveIsNext(s, e, i);
        if MoveOf(s, e, i) == Orphaned {
          OrphanJuggles(s, e, i);
        }
      }
    } else {
      FreshView(s, e, i);
    }
  }

  lemma FreshView(s: H.State, e: H.Event, i: H.OpId)
    requires HI.Inv(s) && H.Enabled(s, e) && H.Polite(s, e) && i !in s.ops
    ensures ViewAt(H.Step(s, e), i) == ViewAt(s, i)
  {
    HP.StepHolds(s, e);
    HT.OpsKeys(s, e);
  }

  lemma MoveIsNext(s: H.State, e: H.Event, i: H.OpId)
    requires H.Enabled(s, e) && i in s.ops && i in H.Step(s, e).ops && !Threw(H.Step(s, e), i)
    requires HT.CoarseMove(ViewAt(s, i), ViewAt(H.Step(s, e), i), s, e, i)
    requires ViewAt(H.Step(s, e), i) != ViewAt(s, i)
    ensures Next(ViewAt(s, i), MoveOf(s, e, i)) == Some(ViewAt(H.Step(s, e), i))
  {
    if s.ops[i].awaiter == H.Catching {
      ThrewStaysByAwaiter(s, e, i);
    }
  }

  lemma ThrewStaysByAwaiter(s: H.State, e: H.Event, i: H.OpId)
    requires H.Enabled(s, e) && i in s.ops && s.ops[i].awaiter == H.Catching
    ensures e == H.AwaiterStep(i) && i in H.Step(s, e).ops ==> Threw(H.Step(s, e), i)
  {
  }

  /** Only a suspension with an owner of its own to lock can find it dead. */
  lemma OrphanJuggles(s: H.State, e: H.Event, i: H.OpId)
    requires HI.Inv(s) && H.Enabled(s, e) && H.Polite(s, e) && i in s.ops
    requires ViewAt(H.Step(s, e), i) != ViewAt(s, i) && MoveOf(s, e, i) == Orphaned
    ensures s.ops[i].juggles
  {
    assert HI.OpOk(s, i);
    HT.OpsAfter(s, e, i);
    if e == H.HandlerStep(i) {
      OrphanJugglesOp(s.ops[i], H.Shared(s, s.ops[i].frame), H.Alive(s, s.ops[i].owner));
    } else if HT.EventOf(e, i) {
      HT.FineEnvironment(s, e, i);
    }
  }

  lemma OrphanJugglesOp(op: H.Op, shared: Option<H.OwnerId>, alive: bool)
    requires op.handler !in {H.Pending, H.Finished, H.Dropping}
    requires if |op.deeds| == 0 then HI.Open(op, shared) else HI.Closed(op)
    ensures var v' := HT.View(H.NextByHandler(op, alive));
      v' == HT.IsDestroyed && v' != HT.View(op) ==> op.juggles
  {
  }

  lemma JugglesStays(s: H.State, e: H.Event, i: H.OpId)
    requires HI.Inv(s) && H.Enabled(s, e) && H.Polite(s, e) && i in s.ops
    ensures i in H.Step(s, e).ops && H.Step(s, e).ops[i].juggles == s.ops[i].juggles
  {
    HT.OpsAfter(s, e, i);
    HH.KindOfOp(s.ops[i], e, H.Shared(s, s.ops[i].frame), H.Alive(s, s.ops[i].owner));
  }

  lemma {:induction false} RunProjects(s: H.State, es: seq<H.Event>, i: H.OpId)
    requires HI.Inv(s) && H.LegalPolite(s, es) && !Threw(H.Reached(s, es), i)
    ensures var ms, s' := Project(s, es, i), H.Reached(s, es);
      && !Threw(s, i)
      && Possible(ViewAt(s, i), ms) && After(ViewAt(s, i), ms) == ViewAt(s', i)
      && (i in s.ops ==> i in s'.ops && s'.ops[i].juggles == s.ops[i].juggles)
      && (Orphaned in ms ==> i in s'.ops && s'.ops[i].juggles)
    decreases |es|
  {
    if |es| > 0 {
      var s1 := H.Step(s, es[0]);
      HP.StepHolds(s, es[0]);
      RunProjects(s1, es[1..], i);
      if Threw(s, i) { ThrewStays(s, es[0], i); }
      if i in s.ops { JugglesStays(s, es[0], i); }
      StepProjects(s, es[0], i);
      var rest := Project(s1, es[1..], i);
      if ViewAt(s1, i) != ViewAt(s, i) {
        var m := MoveOf(s, es[0], i);
        assert ([m] + rest)[0] == m && ([m] + rest)[1..] == rest;
      } else {
        assert [] + rest == rest;
      }
    }
  }

  // ----- from moves to the frame machine -----

  /** The event of the frame machine that a move is; a handler that runs does so on the
      given stack. */
  function EventOf(m: Move, stack: set<Executor>): Event {
    match m
    case Arrives => InitiatorArrives
    case Runs => HandlerRuns(stack)
    case Orphaned => HandlerOrphaned
    case Drops => HandlerDropped
  }

  function EventsOf(ms: seq<Move>, stack: set<Executor>): (es: seq<Event>)
    ensures |es| == |ms| && forall k :: 0 <= k < |ms| ==> es[k] == EventOf(ms[k], stack)
  {
    if |ms| == 0 then [] else [EventOf(ms[0], stack)] + EventsOf(ms[1..], stack)
  }

  /** The frame machine shows what the cell says: the waiting coroutine r of a meeting still
      waits, has gone on, or is gone. */
  predicate Shows(s: State, v: HT.Coarse, r: Id) {
    match v
    case Waiting(cell) => s.act.Meeting? && s.act.cell == cell && s.act.resumes == r
    case IsResumed => if r == TRAMPOLINE then s.act.Over? && s.delivered.Some? else s.act.Executing? && s.act.f == r
    case IsDestroyed => Lost(s)
  }

  /** What the waiting coroutine of the meeting s has of the outcome that its operation
      brings: nothing yet, the stored result, or, once it goes on, the outcome itself. */
  ghost predicate Got(s: State, s': State, v: HT.Coarse)
    requires s.act.Meeting?
  {
    var r := s.act.resumes;
    s.act.brings.Some? && !v.IsDestroyed? ==>
      && InHeap(s.h, r) && r in s'.h
      && s'.h[r] ==
           if v.IsResumed? then Settle(s.h[r], s.act.brings.value)
           else s.h[r].(op := if v.cell == Completed then s.act.brings else None)
  }

  predicate StackFits(s: State, stack: set<Executor>) {
    s.act.Meeting? && s.act.target.Some? ==> Around(s.act.target.value) <= stack
  }

  lemma ResumeShows(s: State, stack: set<Executor>, goal: Outcome)
    requires Inv(s, goal) && s.act.Meeting? && (s.act.brings.Some? ==> s.act.cell == Completed)
    ensures Shows(ResumeOn(s, s.act.resumes, stack), HT.IsResumed, s.act.resumes)
    ensures Got(s, ResumeOn(s, s.act.resumes, stack), HT.IsResumed)
  {
    ResumeHolds(s, stack, goal);
    ResumeNotDoomed(s, stack, goal);
    TrampolineOnly(s, goal);
  }

  lemma TrampolineOnly(s: State, goal: Outcome)
    requires Inv(s, goal) && s.act.Meeting?
    ensures s.act.resumes in s.h && (s.h[s.act.resumes].Trampoline? <==> s.act.resumes == TRAMPOLINE)
  {
  }

  lemma ArrivalShows(s: State, goal: Outcome)
    requires Inv(s, goal) && s.act.Meeting? && s.act.cell != Awaiting
    ensures var s', v' := Step(s, InitiatorArrives), HT.CoarseArrives(s.act.cell);
      && Shows(s', v', s.act.resumes) && Got(s, s', v')
      && (v'.Waiting? ==> s' == s.(act := s.act.(cell := Awaiting)))
  {
    if s.act.cell == Completed {
      ResumeShows(s, s.act.home, goal);
    } else if s.act.cell == Destroyed {
      DeliveredStays(s, s.act.resumes);
    }
  }

  lemma RunShows(s: State, stack: set<Executor>, goal: Outcome)
    requires Inv(s, goal) && Enabled(s, HandlerRuns(stack))
    ensures var s', v' := Step(s, HandlerRuns(stack)), HT.CoarseCompletes(s.act.cell);
      && Shows(s', v', s.act.resumes) && Got(s, s', v')
      && (v'.Waiting? ==> s'.act == s.act.(cell := Completed))
  {
    HandlerIs(s, stack, goal);
    if s.act.cell == Awaiting {
      ResumeShows(AfterExchange(s), stack, goal);
      GotThrough(s, AfterExchange(s), Step(s, HandlerRuns(stack)), HT.IsResumed);
    }
  }

  /** What is got from a later state of the meeting is got from an earlier one. */
  lemma GotThrough(s: State, s1: State, s2: State, v: HT.Coarse)
    requires s.act.Meeting? && s1.act.Meeting? && s1.act.resumes == s.act.resumes && s1.act.brings == s.act.brings
    requires Got(s, s1, HT.Waiting(s1.act.cell)) && Got(s1, s2, v)
    ensures Got(s, s2, v)
  {
  }

  lemma MoveShows(s: State, m: Move, stack: set<Executor>, goal: Outcome)
    requires Inv(s, goal) && s.act.Meeting? && StackFits(s, stack)
    requires Next(HT.Waiting(s.act.cell), m).Some? && (m == Orphaned ==> s.act.brings.Some?)
    ensures Enabled(s, EventOf(m, stack))
    ensures var s', v' := Step(s, EventOf(m, stack)), Next(HT.Waiting(s.act.cell), m).value;
      && Shows(s', v', s.act.resumes) && Got(s, s', v')
      && (v'.Waiting? ==> s'.act.brings == s.act.brings && s'.act.target == s.act.target)
  {
    match m
    case Arrives => ArrivalShows(s, goal);
    case Runs => RunShows(s, stack, goal);
    case Orphaned => DropEventDoomed(s, HandlerOrphaned, goal);
    case Drops => DropEventDoomed(s, HandlerDropped, goal);
  }

  lemma NoMoreMoves(v: HT.Coarse, ms: seq<Move>)
    requires !v.Waiting? && Possible(v, ms)
    ensures ms == [] && After(v, ms) == v
  {
  }

  lemma FirstThenRest(s: State, e: Event, es: seq<Event>, rest: seq<Event>)
    requires es == [e] + rest && Enabled(s, e) && Legal(Step(s, e), rest)
    ensures Legal(s, es) && Reached(s, es) == Reached(Step(s, e), rest)
  {
    assert es[0] == e && es[1..] == rest;
  }

  lemma {:induction false} MovesShow(s: State, ms: seq<Move>, stack: set<Executor>, goal: Outcome)
    requires Inv(s, goal) && s.act.Meeting? && StackFits(s, stack)
    requires Possible(HT.Waiting(s.act.cell), ms) && (Orphaned in ms ==> s.act.brings.Some?)
    ensures Legal(s, EventsOf(ms, stack))
    ensures Shows(Reached(s, EventsOf(ms, stack)), After(HT.Waiting(s.act.cell), ms), s.act.resumes)
    ensures Got(s, Reached(s, EventsOf(ms, stack)), After(HT.Waiting(s.act.cell), ms))
    decreases |ms|
  {
    if |ms| > 0 {
      var e := EventOf(ms[0], stack);
      var v1 := Next(HT.Waiting(s.act.cell), ms[0]).value;
      MoveShows(s, ms[0], stack, goal);
      StepHolds(s, e, goal);
      if v1.Waiting? {
        MovesShow(Step(s, e), ms[1..], stack, goal);
        GotThrough(s, Step(s, e), Reached(Step(s, e), EventsOf(ms[1..], stack)), After(v1, ms[1..]));
      } else {
        NoMoreMoves(v1, ms[1..]);
      }
      FirstThenRest(s, e, EventsOf(ms, stack), EventsOf(ms[1..], stack));
    }
  }

  /** Every interleaving is a run of the frame machine. Take any run of the interleaved model
      and a suspension i in it whose initiation did not throw, and any meeting of the frame
      machine that is just beginning, of the same kind: the moves of i, as events, are a legal
      run of the machine, at whose end the waiting coroutine waits with the same cell, has
      gone on or is gone, as the interleaving says of i's. If the operation brings what the
      handler of i was invoked with, read by `decode`, then the stored result and the outcome
      that the coroutine goes on with are what the value that i ends with means. */
  lemma InterleavingsAreMeetings(es: seq<H.Event>, i: H.OpId, s: State, stack: set<Executor>,
                                 decode: int -> Outcome, goal: Outcome)
    requires H.LegalPolite(H.INITIAL, es) && i in H.Reached(H.INITIAL, es).ops
    requires !Threw(H.Reached(H.INITIAL, es), i)
    requires Inv(s, goal) && s.act.Meeting? && s.act.cell == Initializing && StackFits(s, stack)
    requires s.act.brings.Some? == H.Reached(H.INITIAL, es).ops[i].juggles
    requires s.act.brings.Some? ==> forall v :: H.Invoke(i, v) in es ==> s.act.brings == Some(decode(v))
    ensures var run, op := EventsOf(Project(H.INITIAL, es, i), stack), H.Reached(H.INITIAL, es).ops[i];
      && Legal(s, run)
      && var s', view, r := Reached(s, run), HT.View(op), s.act.resumes;
      && Shows(s', view, r)
      && (op.juggles && (view == HT.Waiting(Completed) || view == HT.IsResumed) ==>
            && op.result.Some? && op.result.value.Value? && H.Invoke(i, op.result.value.v) in es
            && InHeap(s.h, r) && r in s'.h
            && var o := decode(op.result.value.v);
               s'.h[r] == if view.IsResumed? then Settle(s.h[r], o) else s.h[r].(op := Some(o)))
  {
    assert HI.Inv(H.INITIAL);
    RunProjects(H.INITIAL, es, i);
    MovesShow(s, Project(H.INITIAL, es, i), stack, goal);
    EndsWithValue(es, i);
  }

  /** A suspension that has its result, or has gone on with it, has what it was invoked with. */
  lemma EndsWithValue(es: seq<H.Event>, i: H.OpId)
    requires H.LegalPolite(H.INITIAL, es) && i in H.Reached(H.INITIAL, es).ops
    ensures var op := H.Reached(H.INITIAL, es).ops[i];
      op.juggles && !HH.Failed(op) && (HT.View(op) == HT.Waiting(Completed) || HT.View(op) == HT.IsResumed) ==>
        op.result.Some? && op.result.value.Value? && H.Invoke(i, op.result.value.v) in es
  {
    HT.ReachedHolds(es);
    HH.ValueArrives(es, i);
    var s := H.Reached(H.INITIAL, es);
    assert HI.OpOk(s, i);
    ViewHasResult(s.ops[i], H.Shared(s, s.ops[i].frame));
    HH.InvokedIsIn(es, i);
  }

  lemma ViewHasResult(op: H.Op, shared: Option<H.OwnerId>)
    requires HI.ResultOk(op) && (if |op.deeds| == 0 then HI.Open(op, shared) else HI.Closed(op))
    requires op.juggles && HH.Resumed(op) ==> op.result.Some?
    ensures op.juggles && !HH.Failed(op) && (HT.View(op) == HT.Waiting(Completed) || HT.View(op) == HT.IsResumed) ==>
      op.result.Some? && op.result.value.Value?
  {
  }

  /** An initiation that threw leaves only one thing that can be done to its coroutine: its
      own thread goes on with it, with the exception, as ActImmediately does. */
  lemma ThrowsAreImmediate(es: seq<H.Event>, i: H.OpId)
    requires H.LegalPolite(H.INITIAL, es) && Threw(H.Reached(H.INITIAL, es), i)
    ensures var op := H.Reached(H.INITIAL, es).ops[i];
      && op.handler == H.Finished && op.juggles
      && (if op.awaiter == H.Returned then op.deeds == [H.AwaiterResumed]
          else op.awaiter in {H.Catching, H.Resuming} && op.deeds == [])
  {
    assert HI.Inv(H.INITIAL);
    RunAlone(H.INITIAL, es, i);
  }

  /** Its handler is done for, and the awaiter's thread alone is left. */
  predicate Alone(s: H.State, i: H.OpId) {
    i in s.ops ==> AloneOp(s.ops[i])
  }

  predicate AloneOp(op: H.Op) {
    HH.Failed(op) ==>
      && op.handler == H.Finished && op.juggles
      && (if op.awaiter == H.Returned then op.deeds == [H.AwaiterResumed]
          else op.awaiter in {H.Catching, H.Resuming} && op.deeds == [])
  }

  lemma StepAlone(s: H.State, e: H.Event, i: H.OpId)
    requires HI.Inv(s) && H.Enabled(s, e) && H.Polite(s, e) && Alone(s, i)
    ensures Alone(H.Step(s, e), i)
  {
    if i in s.ops {
      assert HI.OpOk(s, i);
      HT.OpsAfter(s, e, i);
      if HT.EventOf(e, i) {
        AloneOfOp(s.ops[i], e, H.Shared(s, s.ops[i].frame), H.Alive(s, s.ops[i].owner));
      }
    } else {
      FreshAlone(s, e, i);
    }
  }

  lemma FreshAlone(s: H.State, e: H.Event, i: H.OpId)
    requires HI.Inv(s) && H.Enabled(s, e) && H.Polite(s, e) && i !in s.ops
    ensures Alone(H.Step(s, e), i)
  {
    HP.StepHolds(s, e);
    HT.OpsKeys(s, e);
  }

  lemma AloneOfOp(op: H.Op, e: H.Event, shared: Option<H.OwnerId>, alive: bool)
    requires AloneOp(op) && HT.Ready(op, e) && (e.Throws? ==> op.handler == H.Finished)
    requires if |op.deeds| == 0 then HI.Open(op, shared) else HI.Closed(op)
    ensures AloneOp(H.NextOp(op, e, shared, alive))
  {
  }

  lemma {:induction false} RunAlone(s: H.State, es: seq<H.Event>, i: H.OpId)
    requires HI.Inv(s) && H.LegalPolite(s, es) && Alone(s, i)
    ensures Alone(H.Reached(s, es), i)
    decreases |es|
  {
    if |es| > 0 {
      StepAlone(s, es[0], i);
      HP.StepHolds(s, es[0]);
      RunAlone(H.Step(s, es[0]), es[1..], i);
    }
  }
}
