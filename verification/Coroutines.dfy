/**
  A coroutine as its handles see it, and the owning handle `unique_handle`.
 */
module Coroutines {

  datatype Fate = Suspended | Running | Gone

  /** What a `std::coroutine_handle<>` refers to. */
  class Coroutine {
    var fate: Fate

    constructor ()
      ensures fate == Suspended
    {
      fate := Suspended;
    }

    predicate Alive() reads this { fate == Suspended }

    method Resume()
      requires Alive()
      modifies this
      ensures fate == Running
    {
      fate := Running;
    }

    method Destroy()
      requires Alive()
      modifies this
      ensures fate == Gone
    {
      fate := Gone;
    }
  }

  /** Owns at most one suspended coroutine. */
  class UniqueHandle {
    var handle: Coroutine?

    ghost predicate Valid()
      reads this, handle
    {
      handle != null ==> handle.Alive()
    }

    constructor (h: Coroutine?)
      requires h != null ==> h.Alive()
      ensures Valid() && handle == h
    {
      handle := h;
    }

    method Release() returns (h: Coroutine?)
      requires Valid()
      modifies this
      ensures Valid() && handle == null && h == old(handle)
    {
      h := handle;
      handle := null;
    }

    /** reset(h): what was owned is destroyed first, so a handle never loses a coroutine. */
    method Reset(h: Coroutine?)
      requires Valid() && (h != null ==> h.Alive() && h != handle)
      modifies this, handle
      ensures Valid() && handle == h
      ensures old(handle) != null ==> old(handle).fate == Gone
    {
      if handle != null {
        var owned := Release();
        owned.Destroy();
      }
      handle := h;
    }

    /** resume(): ownership is given up before the coroutine runs, so the destructor that
        follows finds nothing to destroy. */
    method Resume()
      requires Valid() && handle != null
      modifies this, handle
      ensures Valid() && handle == null && old(handle).fate == Running
    {
      var h := Release();
      h.Resume();
    }

    method Destruct()
      requires Valid()
      modifies this, handle
      ensures Valid() && handle == null
      ensures old(handle) != null ==> old(handle).fate == Gone
    {
      if handle != null {
        handle.Destroy();
        handle := null;
      }
    }

    /** Move construction: one owner before, one owner after. */
    constructor Move(other: UniqueHandle)
      requires other.Valid()
      modifies other
      ensures Valid() && handle == old(other.handle) && other.Valid() && other.handle == null
    {
      handle := other.handle;
      new;
      other.handle := null;
    }
  }
}
