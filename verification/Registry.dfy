/**
  The registry of a cancellation group as a function of its history: `push_back` on
  construction of a child, `erase` of all equal entries on destruction.
 */
module Registry {
  import opened Sequences

  datatype Change<T> = Construct(child: T) | Destroy(child: T)

  /** std::erase. */
  function Erase<T(==)>(xs: seq<T>, x: T): seq<T>
  {
    if |xs| == 0 then []
    else if xs[0] == x then Erase(xs[1..], x)
    else [xs[0]] + Erase(xs[1..], x)
  }

  /** What the code makes of a history, oldest change first. */
  function Registered<T(==)>(h: seq<Change<T>>): seq<T>
  {
    if |h| == 0 then []
    else
      var before := Registered(h[..|h| - 1]);
      match h[|h| - 1]
      case Construct(c) => before + [c]
      case Destroy(c) => Erase(before, c)
  }

  // ----- the reference: who is alive, in construction order -----

  function Built<T>(h: seq<Change<T>>): seq<T>
  {
    if |h| == 0 then []
    else
      var before := Built(h[..|h| - 1]);
      if h[|h| - 1].Construct? then before + [h[|h| - 1].child] else before
  }

  lemma BuiltByChange<T>(h: seq<Change<T>>, c: T)
    requires c in Built(h)
    ensures Construct(c) in h
  {
  }

  predicate IsDestroyed<T(==)>(h: seq<Change<T>>, c: T) {
    exists i :: 0 <= i < |h| && h[i] == Destroy(c)
  }

  /** The elements of xs that the history has not destroyed, in the order of xs. */
  function Survivors<T(==)>(xs: seq<T>, h: seq<Change<T>>): seq<T>
  {
    if |xs| == 0 then []
    else (if IsDestroyed(h, xs[0]) then [] else [xs[0]]) + Survivors(xs[1..], h)
  }

  /** Children are objects: constructed once, destroyed at most once and after that. */
  predicate Lifetimes<T(==)>(h: seq<Change<T>>)
  {
    |h| > 0 ==>
      var g := h[..|h| - 1];
      && Lifetimes(g)
      && match h[|h| - 1]
         case Construct(c) => c !in Built(g) && !IsDestroyed(g, c)
         case Destroy(c) => c in Built(g) && !IsDestroyed(g, c)
  }

  lemma {:induction false} SurvivorsAppend<T>(xs: seq<T>, y: T, h: seq<Change<T>>)
    ensures Survivors(xs + [y], h) == Survivors(xs, h) + if IsDestroyed(h, y) then [] else [y]
    decreases |xs|
  {
    var zs := xs + [y];
    if |xs| == 0 {
      assert zs == [y] && zs[1..] == [];
    } else {
      SurvivorsAppend(xs[1..], y, h);
      assert zs[0] == xs[0] && zs[1..] == xs[1..] + [y];
      var first := if IsDestroyed(h, xs[0]) then [] else [xs[0]];
      assert Survivors(zs, h) == first + Survivors(zs[1..], h);
      assert Survivors(xs, h) == first + Survivors(xs[1..], h);
    }
  }

  /** A change that destroys no element of xs leaves its survivors. */
  lemma {:induction false} SurvivorsKept<T>(xs: seq<T>, h: seq<Change<T>>, e: Change<T>)
    requires e.Destroy? ==> e.child !in xs
    ensures Survivors(xs, h + [e]) == Survivors(xs, h)
  {
    if |xs| > 0 {
      SurvivorsKept(xs[1..], h, e);
      DestroyedAfter(h, e, xs[0]);
    }
  }

  lemma DestroyedAfter<T>(h: seq<Change<T>>, e: Change<T>, c: T)
    ensures IsDestroyed(h + [e], c) <==> IsDestroyed(h, c) || e == Destroy(c)
  {
    if IsDestroyed(h, c) {
      var i :| 0 <= i < |h| && h[i] == Destroy(c);
      assert (h + [e])[i] == Destroy(c);
    }
    if e == Destroy(c) {
      assert (h + [e])[|h|] == Destroy(c);
    }
  }

  lemma {:induction false} SurvivorsErase<T>(xs: seq<T>, h: seq<Change<T>>, c: T)
    ensures Survivors(xs, h + [Destroy(c)]) == Erase(Survivors(xs, h), c)
  {
    if |xs| > 0 {
      var rest := Survivors(xs[1..], h);
      SurvivorsErase(xs[1..], h, c);
      DestroyedAfter(h, Destroy(c), xs[0]);
      if IsDestroyed(h, xs[0]) {
        assert [] + rest == rest;
      } else {
        assert ([xs[0]] + rest)[0] == xs[0] && ([xs[0]] + rest)[1..] == rest;
      }
      if IsDestroyed(h + [Destroy(c)], xs[0]) {
        assert [] + Erase(rest, c) == Erase(rest, c);
      }
    }
  }

  /** Over every history of constructions and destructions the registry is the list of the
      children that are alive, each once, in the order they were constructed. */
  lemma {:induction false} RegistryIsTheLiving<T>(h: seq<Change<T>>)
    requires Lifetimes(h)
    ensures Registered(h) == Survivors(Built(h), h)
    ensures Distinct(Built(h)) && Distinct(Registered(h))
    decreases |h|
  {
    if |h| > 0 {
      var g, e := h[..|h| - 1], h[|h| - 1];
      assert h == g + [e];
      RegistryIsTheLiving(g);
      match e {
        case Construct(c) => ConstructedLast(g, c);
        case Destroy(c) =>
          SurvivorsErase(Built(g), g, c);
          EraseDistinct(Registered(g), c);
      }
    }
  }

  /** The destruction of a registered child erases it, and no other child. */
  lemma DestroyedLast<T>(h: seq<Change<T>>, c: T)
    requires Lifetimes(h) && c in Registered(h)
    ensures var h' := h + [Destroy(c)];
      && Lifetimes(h') && Registered(h') == Erase(Registered(h), c)
      && c !in Registered(h') && forall y | y in Registered(h) && y != c :: y in Registered(h')
  {
    assert (h + [Destroy(c)])[..|h|] == h;
    RegistryIsTheLiving(h);
    SurvivorsAmong(Built(h), h);
    EraseAmong(Registered(h), c);
    EraseKeeps(Registered(h), c);
  }

  lemma {:induction false} EraseKeeps<T>(xs: seq<T>, x: T)
    ensures forall y | y in xs && y != x :: y in Erase(xs, x)
  {
    if |xs| > 0 {
      EraseKeeps(xs[1..], x);
    }
  }

  lemma ConstructedLast<T>(g: seq<Change<T>>, c: T)
    requires Registered(g) == Survivors(Built(g), g) && Distinct(Built(g)) && Distinct(Registered(g))
    requires c !in Built(g) && !IsDestroyed(g, c)
    ensures Registered(g) + [c] == Survivors(Built(g) + [c], g + [Construct(c)])
    ensures Distinct(Registered(g) + [c])
  {
    var h := g + [Construct(c)];
    SurvivorsAppend(Built(g), c, h);
    SurvivorsKept(Built(g), g, Construct(c));
    DestroyedAfter(g, Construct(c), c);
    SurvivorsAmong(Built(g), g);
    forall i, j | 0 <= i < j < |Registered(g) + [c]| ensures (Registered(g) + [c])[i] != (Registered(g) + [c])[j] {
      if j == |Registered(g)| { assert Registered(g)[i] in Built(g); }
    }
  }

  lemma {:induction false} SurvivorsAmong<T>(xs: seq<T>, h: seq<Change<T>>)
    ensures forall y | y in Survivors(xs, h) :: y in xs && !IsDestroyed(h, y)
  {
    if |xs| > 0 {
      SurvivorsAmong(xs[1..], h);
    }
  }

  lemma {:induction false} EraseAmong<T>(xs: seq<T>, x: T)
    ensures forall y | y in Erase(xs, x) :: y in xs && y != x
  {
    if |xs| > 0 {
      EraseAmong(xs[1..], x);
    }
  }

  lemma {:induction false} EraseDistinct<T>(xs: seq<T>, x: T)
    requires Distinct(xs)
    ensures Distinct(Erase(xs, x))
  {
    if |xs| > 0 {
      EraseDistinct(xs[1..], x);
      EraseAmong(xs[1..], x);
      var rest := Erase(xs[1..], x);
      forall k | 0 <= k < |rest| ensures rest[k] != xs[0] {
        assert rest[k] in xs[1..];
      }
    }
  }
}
