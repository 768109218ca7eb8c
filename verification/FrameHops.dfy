/**
  Which hops can go on without a queue.
 */
module FrameHops {
  import opened Programs
  import opened FrameMachine
  import opened FrameInvariant
  import opened FramePreservation
  import opened FrameAffinity
  import opened FrameStrands

  /** Exactly when the thread that makes a hop can go on with the body itself: the hop is a
      dispatch, and the stack is inside its target already. Post and defer never do, and a
      dispatch to anywhere else does not. */
  lemma HopInlineExact(s: State, goal: Outcome)
    requires Inv(s, goal) && s.act.Executing? && s.h[s.act.f].Frame? && s.h[s.act.f].code.Hop?
    ensures var f, hop := s.act.f, s.h[s.act.f].code;
      (exists es :: ExitsInline(s, es, f)) <==> hop.kind.Dispatch? && hop.to in s.act.inside
  {
    var f, hop := s.act.f, s.h[s.act.f].code;
    if hop.kind.Dispatch? && hop.to in s.act.inside {
      var es := HopInlineRun(s, goal);
    } else {
      forall es ensures !ExitsInline(s, es, f) {
        if ExitsInline(s, es, f) {
          NoHopInline(s, es, goal);
          assert false;
        }
      }
    }
  }

  lemma HopInlineRun(s: State, goal: Outcome) returns (es: seq<Event>)
    requires Inv(s, goal) && s.act.Executing? && s.h[s.act.f].Frame? && s.h[s.act.f].code.Hop?
    requires s.h[s.act.f].code.kind.Dispatch? && s.h[s.act.f].code.to in s.act.inside
    ensures ExitsInline(s, es, s.act.f)
  {
    HopBegins(s, goal);
    StepHolds(s, Act, goal);
    var early := EarlyRun(Step(s, Act), goal);
    es := [Act] + early;
    NotTheTrampoline(s, goal);
    ActThen(s, early, s.act.f);
  }

  lemma NotTheTrampoline(s: State, goal: Outcome)
    requires Inv(s, goal) && s.act.Executing?
    ensures s.act.f != TRAMPOLINE
  {
  }

  lemma NoHopInline(s: State, es: seq<Event>, goal: Outcome)
    requires Inv(s, goal) && s.act.Executing? && s.h[s.act.f].Frame? && s.h[s.act.f].code.Hop?
    requires !(s.h[s.act.f].code.kind.Dispatch? && s.h[s.act.f].code.to in s.act.inside)
    ensures !ExitsInline(s, es, s.act.f)
  {
    var f := s.act.f;
    HopBegins(s, goal);
    StepHolds(s, Act, goal);
    NotTheTrampoline(s, goal);
    var s1 := Step(s, Act);
    if ExitsInline(s, es, f) {
      AwayRun(s1, es[1..], f, s.h[f].code.to, goal);
      assert false;
    }
  }
}
