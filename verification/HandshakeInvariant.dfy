/**
  What every reachable state of the handshake looks like, and that every step keeps it so.
 */
module HandshakeInvariant {
  import opened Options
  import opened Rendezvous
  import opened Handshake

  // ----- one suspension -----

  predicate Early(a: Awaiter) { a == Initiating || a == Saving || a == Arriving }

  /** The handler has not exchanged the cell yet. */
  predicate Undecided(h: Handler) { h == Pending || h.Storing? || h == Completing || h == Dropping }

  /** The results that the two sides can have left behind by now. */
  predicate ResultOk(op: Op) {
    && (op.handler == Pending || op.handler.Storing? || op.handler == Dropping ==> op.result.None?)
    && (op.handler.Storing? ==> op.juggles)
    && (op.juggles && op.handler in {Completing, Locking, HandlerResuming} ==> op.result.Some?)
  }

  /** Nothing has been done to the coroutine yet. `shared` is its frame's reference. */
  predicate Open(op: Op, shared: Option<OwnerId>) {
    match op.awaiter
    case Initiating => BeforeExchange(op) && shared == op.owner && op.saved.None?
    case Saving => op.juggles && BeforeExchange(op) && shared == op.owner && op.saved.None?
    case Arriving =>
      && BeforeExchange(op)
      && (if op.juggles then shared.None? && op.saved == op.owner else shared == op.owner && op.saved.None?)
    case Catching =>
      op.juggles && op.handler == Finished && op.cell == Destroyed && op.result.None?
      && shared == op.owner && op.saved.None?
    case PuttingBack =>
      op.juggles && op.handler == Finished && op.result.Some? && shared.None? && op.saved == op.owner
    case Resuming =>
      op.handler == Finished && shared == op.owner && op.saved.None? && (op.juggles ==> op.result.Some?)
    case Destroying =>
      && op.handler == Finished
      && (if op.juggles then shared.None? && op.saved == op.owner else shared == op.owner && op.saved.None?)
    case Leaving => op.juggles && op.saved == op.owner && AfterExchange(op, shared)
    case Returned => op.saved.None? && AfterExchange(op, shared)
  }

  predicate BeforeExchange(op: Op) {
    match op.cell
    case Initializing => Undecided(op.handler)
    case Completed => op.handler == Finished && (op.juggles ==> op.result.Some?)
    case Destroyed => op.handler == Finished && op.result.None?
    case Awaiting => false
  }

  predicate AfterExchange(op: Op, shared: Option<OwnerId>) {
    match op.handler
    case Locking => op.cell == Completed && op.juggles && op.owner.Some? && shared.None?
    case HandlerResuming => op.cell == Completed && shared == op.owner
    case HandlerDestroying =>
      (op.cell == Completed || op.cell == Destroyed) && shared == (if op.juggles then None else op.owner)
    case Finished => false
    case _ => op.cell == Awaiting && shared == (if op.juggles then None else op.owner)
  }

  /** The coroutine has been resumed or destroyed; what is left to do is local. */
  predicate Closed(op: Op) {
    && |op.deeds| == 1
    && op.handler == Finished
    && (op.awaiter == Leaving || op.awaiter == Returned)
    && op.saved == (if op.awaiter == Leaving then op.owner else None)
    && (op.awaiter == Leaving ==> op.juggles)
  }

  predicate OpOk(s: State, i: OpId)
    requires i in s.ops
  {
    var op := s.ops[i];
    && ResultOk(op)
    && if |op.deeds| == 0 then Present(s, i) && Open(op, s.frames[op.frame].shared) else Closed(op)
  }

  /** A suspended frame is suspended on an open suspension of its own. */
  predicate FrameOk(s: State, f: FrameId)
    requires f in s.frames
  {
    match s.frames[f].status
    case Suspended(i) => i in s.ops && s.ops[i].frame == f && |s.ops[i].deeds| == 0
    case Running => true
    case Gone => s.frames[f].shared.None?
  }

  ghost predicate Orderly(s: State) {
    && (forall i :: i in s.ops ==> OpOk(s, i))
    && (forall f :: f in s.frames ==> FrameOk(s, f))
  }

  // ----- reference counts -----

  ghost function FrameHolders(frames: map<FrameId, FrameState>, o: OwnerId): set<FrameId> {
    set f | f in frames && frames[f].shared == Some(o)
  }

  ghost function OpHolders(ops: map<OpId, Op>, o: OwnerId): set<OpId> {
    set i | i in ops && ops[i].saved == Some(o)
  }

  /** Every count is the number of references there are. */
  ghost predicate Tallied(s: State) {
    forall o :: o in s.strong ==>
      o in s.external && s.strong[o] == s.external[o] + |FrameHolders(s.frames, o)| + |OpHolders(s.ops, o)|
  }

  /** Every owner that is referred to has a count. */
  ghost predicate Known(s: State) {
    && s.external.Keys == s.strong.Keys
    && (forall f :: f in s.frames && s.frames[f].shared.Some? ==> s.frames[f].shared.value in s.strong)
    && (forall i :: i in s.ops && s.ops[i].saved.Some? ==> s.ops[i].saved.value in s.strong)
    && (forall i :: i in s.ops && s.ops[i].owner.Some? ==> s.ops[i].owner.value in s.strong)
  }

  ghost predicate Counted(s: State) {
    Known(s) && Tallied(s)
  }

  ghost predicate Inv(s: State) {
    !s.fault && Orderly(s) && Counted(s)
  }

  function One(x: Option<OwnerId>, o: OwnerId): int {
    if x == Some(o) then 1 else 0
  }

  lemma HolderHasCount(s: State, o: OwnerId)
    requires Counted(s)
    ensures forall f :: f in s.frames && s.frames[f].shared == Some(o) ==> s.strong[o] > 0
    ensures forall i :: i in s.ops && s.ops[i].saved == Some(o) ==> s.strong[o] > 0
  {
    forall f | f in s.frames && s.frames[f].shared == Some(o) ensures s.strong[o] > 0 {
      assert f in FrameHolders(s.frames, o);
    }
    forall i | i in s.ops && s.ops[i].saved == Some(o) ensures s.strong[o] > 0 {
      assert i in OpHolders(s.ops, o);
    }
  }

  /** Rewriting one frame changes its owner's holders by that frame. */
  lemma FrameHoldersAfter(frames: map<FrameId, FrameState>, f: FrameId, fr: FrameState, o: OwnerId)
    ensures |FrameHolders(frames[f := fr], o)| + (if f in frames then One(frames[f].shared, o) else 0)
         == |FrameHolders(frames, o)| + One(fr.shared, o)
  {
    var before, after := FrameHolders(frames, o), FrameHolders(frames[f := fr], o);
    assert after - {f} == before - {f};
    CardinalityWithout(before, f);
    CardinalityWithout(after, f);
  }

  lemma OpHoldersAfter(ops: map<OpId, Op>, i: OpId, op: Op, o: OwnerId)
    ensures |OpHolders(ops[i := op], o)| + (if i in ops then One(ops[i].saved, o) else 0)
         == |OpHolders(ops, o)| + One(op.saved, o)
  {
    var before, after := OpHolders(ops, o), OpHolders(ops[i := op], o);
    assert after - {i} == before - {i};
    CardinalityWithout(before, i);
    CardinalityWithout(after, i);
  }

  lemma CardinalityWithout(xs: set<nat>, x: nat)
    ensures |xs| == |xs - {x}| + if x in xs then 1 else 0
  {
    if x in xs {
      assert xs == (xs - {x}) + {x};
    } else {
      assert xs == xs - {x};
    }
  }

  /** A step that rewrites one frame and one suspension keeps the counts if it changes each
      count by what it changes in the references. */
  lemma CountedAfter(s: State, s': State, f: FrameId, i: OpId)
    requires Counted(s) && f in s'.frames && i in s'.ops
    requires s'.frames == s.frames[f := s'.frames[f]] && s'.ops == s.ops[i := s'.ops[i]]
    requires s'.external == s.external && s'.strong.Keys == s.strong.Keys
    requires forall o :: o in s.strong ==>
      s'.strong[o] + (if f in s.frames then One(s.frames[f].shared, o) else 0)
                   + (if i in s.ops then One(s.ops[i].saved, o) else 0)
      == s.strong[o] + One(s'.frames[f].shared, o) + One(s'.ops[i].saved, o)
    requires s'.frames[f].shared.Some? ==> s'.frames[f].shared.value in s.strong
    requires s'.ops[i].saved.Some? ==> s'.ops[i].saved.value in s.strong
    requires s'.ops[i].owner.Some? ==> s'.ops[i].owner.value in s.strong
    ensures Counted(s')
  {
    KnownAfter(s, s', f, i);
    forall o | o in s'.strong
      ensures o in s'.external && s'.strong[o] == s'.external[o] + |FrameHolders(s'.frames, o)| + |OpHolders(s'.ops, o)|
    {
      CountAfter(s, s', f, i, o);
    }
  }

  lemma KnownAfter(s: State, s': State, f: FrameId, i: OpId)
    requires Known(s) && f in s'.frames && i in s'.ops
    requires s'.frames == s.frames[f := s'.frames[f]] && s'.ops == s.ops[i := s'.ops[i]]
    requires s'.external == s.external && s'.strong.Keys == s.strong.Keys
    requires s'.frames[f].shared.Some? ==> s'.frames[f].shared.value in s.strong
    requires s'.ops[i].saved.Some? ==> s'.ops[i].saved.value in s.strong
    requires s'.ops[i].owner.Some? ==> s'.ops[i].owner.value in s.strong
    ensures Known(s')
  {
  }

  lemma CountAfter(s: State, s': State, f: FrameId, i: OpId, o: OwnerId)
    requires f in s'.frames && i in s'.ops
    requires s'.frames == s.frames[f := s'.frames[f]] && s'.ops == s.ops[i := s'.ops[i]]
    ensures |FrameHolders(s'.frames, o)| + |OpHolders(s'.ops, o)|
            + (if f in s.frames then One(s.frames[f].shared, o) else 0)
            + (if i in s.ops then One(s.ops[i].saved, o) else 0)
         == |FrameHolders(s.frames, o)| + |OpHolders(s.ops, o)| + One(s'.frames[f].shared, o) + One(s'.ops[i].saved, o)
  {
    FrameHoldersAfter(s.frames, f, s'.frames[f], o);
    OpHoldersAfter(s.ops, i, s'.ops[i], o);
  }

  /** A step on suspension i and its frame keeps the others as they were. */
  lemma OrderlyAfter(s: State, s': State, i: OpId)
    requires Orderly(s) && i in s.ops && |s.ops[i].deeds| == 0
    requires i in s'.ops && s'.ops[i].frame == s.ops[i].frame && s.ops[i].frame in s'.frames
    requires s'.ops == s.ops[i := s'.ops[i]]
    requires s'.frames == s.frames[s.ops[i].frame := s'.frames[s.ops[i].frame]]
    requires OpOk(s', i) && FrameOk(s', s.ops[i].frame)
    ensures Orderly(s')
  {
    var f := s.ops[i].frame;
    forall j | j in s'.ops ensures OpOk(s', j) {
      if j != i {
        assert OpOk(s, j) && s'.ops[j] == s.ops[j];
        if |s.ops[j].deeds| == 0 { assert s.ops[j].frame != f; }
      }
    }
    forall g | g in s'.frames ensures FrameOk(s', g) {
      if g != f {
        assert FrameOk(s, g);
      }
    }
  }
}
