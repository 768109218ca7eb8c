/**
  The single atomic cell of `resume_context`: what each of its three exchanges answers,
  and the object itself.
 */
module Rendezvous {
  import opened Coroutines

  datatype Cell = Initializing | Awaiting | Completed | Destroyed

  /** What an exchange tells the side that made it to do with the coroutine. */
  datatype Verdict = Nothing | MayResume | MustDestroy

  /** resume_awaiting: the awaitable has finished initiating. */
  function OnAwaiting(was: Cell): Verdict {
    match was
    case Completed => MayResume
    case Destroyed => MustDestroy
    case _ => Nothing
  }

  /** resume_completed: the handler ran. */
  function OnCompleted(was: Cell): Verdict {
    if was == Awaiting then MayResume else Nothing
  }

  /** destroy: the handler was dropped without running. */
  function OnDropped(was: Cell): Verdict {
    if was == Awaiting then MustDestroy else Nothing
  }

  class ResumeContext {
    var state: Cell

    constructor ()
      ensures state == Initializing
    {
      state := Initializing;
    }

    method ResumeAwaiting(h: Coroutine) returns (resumable: bool)
      requires state == Destroyed ==> h.Alive()
      modifies this, h
      ensures state == Awaiting
      ensures resumable <==> OnAwaiting(old(state)) == MayResume
      ensures h.fate == if OnAwaiting(old(state)) == MustDestroy then Gone else old(h.fate)
    {
      var was := state;
      state := Awaiting;
      match was {
        case Completed => return true;
        case Destroyed => h.Destroy(); return false;
        case _ => return false;
      }
    }

    method ResumeCompleted() returns (resumable: bool)
      modifies this
      ensures state == Completed
      ensures resumable <==> OnCompleted(old(state)) == MayResume
    {
      resumable := state == Awaiting;
      state := Completed;
    }

    method Destroy(h: Coroutine)
      requires state == Awaiting ==> h.Alive()
      modifies this, h
      ensures state == Destroyed
      ensures h.fate == if OnDropped(old(state)) == MustDestroy then Gone else old(h.fate)
    {
      var was := state;
      state := Destroyed;
      if was == Awaiting {
        h.Destroy();
      }
    }
  }
}
