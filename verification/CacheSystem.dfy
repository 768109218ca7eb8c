/**
  All thread-local caches of a process over one heap: blocks may be freed into another
  cache than they were allocated from, and caches come and go with their threads.
 */
module CacheSystem {
  import opened Options
  import opened SizeClasses
  import opened CacheRows

  type Thread = nat

  datatype World = World(
    live: Live,                 // what operator new gave out and operator delete has not taken back
    caches: map<Thread, Rows>,
    held: map<Ptr, Size>,       // what the program holds, and the sizes it asked for
    fault: bool)                // operator delete was given something that is not a live block

  datatype Event =
    | Enter(t: Thread)                        // a thread's cache is constructed
    | Alloc(t: Thread, size: Size, p: Ptr)    // p: what operator new would give, if it is asked
    | Free(t: Thread, p: Ptr)                 // of something held, with its own size
    | Exit(t: Thread)                         // a thread's cache is destroyed

  const INITIAL := World(map[], map[], map[], false)

  predicate Enabled(w: World, e: Event) {
    && !w.fault
    && match e
       case Enter(t) => t !in w.caches
       case Alloc(t, _, p) => t in w.caches && p != NULL && p !in w.live
       case Free(t, p) => t in w.caches && p in w.held
       case Exit(t) => t in w.caches
  }

  predicate Shaped(w: World) {
    forall t :: t in w.caches ==> WellShaped(w.caches[t])
  }

  /** The pointer that alloc returns. */
  function Given(w: World, t: Thread, size: Size, p: Ptr): Ptr
    requires t in w.caches && WellShaped(w.caches[t])
  {
    if Hit(w.caches[t], size) then Taken(w.caches[t], size) else p
  }

  function Step(w: World, e: Event): World
    requires Shaped(w) && Enabled(w, e)
  {
    match e
    case Enter(t) => w.(caches := w.caches[t := EmptyRows()])
    case Alloc(t, size, p) =>
      var w' := w.(held := w.held[Given(w, t, size, p) := size]);
      if Hit(w.caches[t], size) then w'.(caches := w.caches[t := AfterTake(w.caches[t], size)])
      else w'.(live := w.live[p := BlockSize(size)])
    case Free(t, p) =>
      var size := w.held[p];
      var w' := w.(held := w.held - {p});
      if Room(w.caches[t], size) then w'.(caches := w.caches[t := AfterKeep(w.caches[t], size, p)])
      else if p !in w.live then w'.(fault := true)
      else w'.(live := w.live - {p})
    case Exit(t) =>
      var rest := DeleteRows(w.live, w.caches[t]);
      if rest.None? then w.(fault := true)
      else w.(live := rest.value, caches := w.caches - {t})
  }

  // ----- where every block is -----

  /** A slot of some cache. */
  datatype Place = Place(t: Thread, i: nat, j: nat)

  predicate IsPlace(w: World, x: Place) {
    x.t in w.caches && x.i < |w.caches[x.t]| && x.j < |w.caches[x.t][x.i]|
  }

  function At(w: World, x: Place): Ptr
    requires IsPlace(w, x)
  {
    w.caches[x.t][x.i][x.j]
  }

  predicate Cached(w: World, p: Ptr, x: Place) {
    IsPlace(w, x) && At(w, x) == p && p != NULL
  }

  /** Cached blocks are live, of their class's capacity, and not held; held blocks are live
      and as large as alloc makes them. */
  ghost predicate Sound(w: World) {
    && (forall p, x :: Cached(w, p, x) ==> p in w.live && p !in w.held && w.live[p] == Capacity(x.i))
    && (forall p :: p in w.held ==> p in w.live && p != NULL && w.live[p] == BlockSize(w.held[p]))
  }

  /** No block is in two slots, of one cache or of two. */
  ghost predicate Unshared(w: World) {
    forall p, x, y :: Cached(w, p, x) && Cached(w, p, y) ==> x == y
  }

  /** No live block is lost. */
  ghost predicate Accounted(w: World) {
    forall p :: p in w.live ==> p in w.held || exists x :: Cached(w, p, x)
  }

  ghost predicate Inv(w: World) {
    !w.fault && Shaped(w) && Sound(w) && Unshared(w) && Accounted(w)
  }

  // ----- every event keeps them -----

  /** One slot of one cache is overwritten. */
  function WithSlot(w: World, x: Place, q: Ptr): World
    requires IsPlace(w, x)
  {
    var row: Row := w.caches[x.t][x.i][x.j := q];
    w.(caches := w.caches[x.t := w.caches[x.t][x.i := row]])
  }

  lemma SlotsAfter(w: World, x: Place, q: Ptr)
    requires Shaped(w) && IsPlace(w, x)
    ensures Shaped(WithSlot(w, x, q))
    ensures forall p, y :: Cached(WithSlot(w, x, q), p, y) <==> if y == x then p == q != NULL else Cached(w, p, y)
  {
    forall p, y ensures Cached(WithSlot(w, x, q), p, y) <==> if y == x then p == q != NULL else Cached(w, p, y) {
      assert IsPlace(WithSlot(w, x, q), y) <==> IsPlace(w, y);
    }
  }

  function TakenFrom(w: World, t: Thread, size: Size): Place
    requires t in w.caches && WellShaped(w.caches[t])
  {
    Place(t, CacheIndex(size), FirstFull(w.caches[t][if Cacheable(size) then CacheIndex(size) else 0]))
  }

  lemma AllocHolds(w: World, t: Thread, size: Size, p: Ptr)
    requires Inv(w) && Enabled(w, Alloc(t, size, p))
    ensures Inv(Step(w, Alloc(t, size, p)))
  {
    var w' := Step(w, Alloc(t, size, p));
    ClassExact(size);
    if Hit(w.caches[t], size) {
      var x := TakenFrom(w, t, size);
      var q := Taken(w.caches[t], size);
      assert Cached(w, q, x);
      SlotsAfter(w, x, NULL);
      assert w'.caches == WithSlot(w, x, NULL).caches;
      assert forall p, y :: Cached(w', p, y) <==> Cached(WithSlot(w, x, NULL), p, y);
    } else {
      assert forall p, y :: Cached(w', p, y) <==> Cached(w, p, y);
    }
  }

  lemma FreeHolds(w: World, t: Thread, p: Ptr)
    requires Inv(w) && Enabled(w, Free(t, p))
    ensures Inv(Step(w, Free(t, p)))
  {
    var w' := Step(w, Free(t, p));
    var size := w.held[p];
    ClassExact(size);
    if Room(w.caches[t], size) {
      var x := Place(t, CacheIndex(size), FirstHole(w.caches[t][CacheIndex(size)]));
      SlotsAfter(w, x, p);
      assert w'.caches == WithSlot(w, x, p).caches;
      assert forall q, y :: Cached(w', q, y) <==> Cached(WithSlot(w, x, p), q, y);
      assert Cached(w', p, x);
      forall q | q in w'.live ensures q in w'.held || exists y :: Cached(w', q, y) {
        if q != p && q !in w.held {
          var y :| Cached(w, q, y);
          assert Cached(w', q, y);
        }
      }
    } else {
      assert forall q, y :: Cached(w', q, y) <==> Cached(w, q, y);
    }
  }

  lemma EnterHolds(w: World, t: Thread)
    requires Inv(w) && Enabled(w, Enter(t))
    ensures Inv(Step(w, Enter(t)))
  {
    var w' := Step(w, Enter(t));
    assert forall p, y :: Cached(w', p, y) <==> Cached(w, p, y);
  }

  /** The blocks of t's cache, and only those, go back to the heap, each once. */
  lemma ExitDeletes(w: World, t: Thread)
    requires Inv(w) && t in w.caches
    ensures DeleteRows(w.live, w.caches[t]) == Some(w.live - AllBlocks(w.caches[t]))
    ensures forall p :: p in AllBlocks(w.caches[t]) <==> exists x: Place :: x.t == t && Cached(w, p, x)
  {
    var v := w.caches[t];
    forall p ensures p in AllBlocks(v) <==> exists x: Place :: x.t == t && Cached(w, p, x) {
      if p in AllBlocks(v) {
        var i, j :| 0 <= i < |v| && 0 <= j < |v[i]| && v[i][j] != NULL && p == v[i][j];
        assert Cached(w, p, Place(t, i, j));
      }
    }
    assert Injective(v) by {
      forall i, j, i', j' |
        0 <= i < |v| && 0 <= j < |v[i]| && 0 <= i' < |v| && 0 <= j' < |v[i']| && v[i][j] == v[i'][j'] != NULL
        ensures i == i' && j == j'
      {
        assert Cached(w, v[i][j], Place(t, i, j)) && Cached(w, v[i][j], Place(t, i', j'));
      }
    }
    EachDeletedOnce(w.live, v);
  }

  lemma ExitHolds(w: World, t: Thread)
    requires Inv(w) && Enabled(w, Exit(t))
    ensures Inv(Step(w, Exit(t)))
  {
    ExitDeletes(w, t);
    var w' := Step(w, Exit(t));
    assert forall p, y :: Cached(w', p, y) <==> Cached(w, p, y) && y.t != t;
  }

  lemma StepHolds(w: World, e: Event)
    requires Inv(w) && Enabled(w, e)
    ensures Inv(Step(w, e))
  {
    match e
    case Enter(t) => EnterHolds(w, t);
    case Alloc(t, size, p) => AllocHolds(w, t, size, p);
    case Free(t, p) => FreeHolds(w, t, p);
    case Exit(t) => ExitHolds(w, t);
  }

  // ----- histories -----

  ghost predicate Legal(w: World, es: seq<Event>)
    decreases |es|
  {
    |es| > 0 ==> Shaped(w) && Enabled(w, es[0]) && Legal(Step(w, es[0]), es[1..])
  }

  ghost function Reached(w: World, es: seq<Event>): World
    requires Legal(w, es)
    decreases |es|
  {
    if |es| == 0 then w else Reached(Step(w, es[0]), es[1..])
  }

  lemma {:induction false} HistoryHolds(w: World, es: seq<Event>)
    requires Inv(w) && Legal(w, es)
    ensures Inv(Reached(w, es))
    decreases |es|
  {
    if |es| > 0 {
      StepHolds(w, es[0]);
      HistoryHolds(Step(w, es[0]), es[1..]);
    }
  }

  /** Block conservation, over every history: the live blocks are the disjoint union of what
      the program holds and what the caches hold, no block is in two slots, and every slot
      of class i holds a block of exactly 64 * (i + 1) bytes. operator delete is never given
      anything but a live block. */
  lemma BlocksConserved(es: seq<Event>)
    requires Legal(INITIAL, es)
    ensures var w := Reached(INITIAL, es);
      && !w.fault
      && (forall p :: p in w.live <==> p in w.held || exists x :: Cached(w, p, x))
      && (forall p, x :: Cached(w, p, x) ==> p !in w.held && p in w.live && w.live[p] == ALIGNMENT * (x.i + 1))
      && (forall p, x, y :: Cached(w, p, x) && Cached(w, p, y) ==> x == y)
  {
    HistoryHolds(INITIAL, es);
  }

  /** After any history, alloc returns a block that the program does not hold, that no cache
      holds any more, and that is at least as large as asked; every other block stays where
      it was. */
  lemma AllocIsFresh(es: seq<Event>, t: Thread, size: Size, p: Ptr)
    requires Legal(INITIAL, es) && Enabled(Reached(INITIAL, es), Alloc(t, size, p))
    ensures var w := Reached(INITIAL, es);
      && Shaped(w)
      && var w' := Step(w, Alloc(t, size, p));
      && var q := Given(w, t, size, p);
      && q !in w.held && q != NULL
      && w'.held == w.held[q := size]
      && q in w'.live && w'.live[q] >= size
      && (forall x :: !Cached(w', q, x))
      && (q in w.live ==> exists x: Place :: x.t == t && Cacheable(size) && x.i == CacheIndex(size) && Cached(w, q, x))
      && (forall r, x :: r != q ==> (Cached(w', r, x) <==> Cached(w, r, x)))
  {
    HistoryHolds(INITIAL, es);
    var w := Reached(INITIAL, es);
    AllocHolds(w, t, size, p);
    ClassExact(size);
    if Hit(w.caches[t], size) {
      var x := TakenFrom(w, t, size);
      assert Cached(w, Taken(w.caches[t], size), x);
      SlotsAfter(w, x, NULL);
      var w' := Step(w, Alloc(t, size, p));
      assert w'.caches == WithSlot(w, x, NULL).caches;
      assert forall r, y :: Cached(w', r, y) <==> Cached(WithSlot(w, x, NULL), r, y);
    } else {
      var w' := Step(w, Alloc(t, size, p));
      assert forall r, y :: Cached(w', r, y) <==> Cached(w, r, y);
    }
  }

  /** After any history: alloc asks the heap exactly when the size has no class, that is
      when it is 0 or above 8192, or its class holds no block in this thread's cache. */
  lemma HeapAskedOnlyWhenEmpty(es: seq<Event>, t: Thread, size: Size, p: Ptr)
    requires Legal(INITIAL, es) && Enabled(Reached(INITIAL, es), Alloc(t, size, p))
    ensures var w := Reached(INITIAL, es);
      && Shaped(w)
      && (Cacheable(size) <==> 1 <= size <= 8192)
      && var w' := Step(w, Alloc(t, size, p));
      && (w'.live == w.live <==> Cacheable(size) && !NoBlock(w.caches[t][CacheIndex(size)]))
      && (w'.live != w.live ==> w'.live == w.live[p := if Cacheable(size) then Capacity(CacheIndex(size)) else size])
  {
    HistoryHolds(INITIAL, es);
    var w := Reached(INITIAL, es);
    ClassExact(size);
    if Cacheable(size) { HolesDoNotMatter(w.caches[t], size); }
    assert !Hit(w.caches[t], size) ==> p in Step(w, Alloc(t, size, p)).live;
  }

  /** After any history: free keeps the block exactly when the size has a class and one of
      the 16 slots of the class is empty. */
  lemma HeapRepaidOnlyWhenFull(es: seq<Event>, t: Thread, p: Ptr)
    requires Legal(INITIAL, es) && Enabled(Reached(INITIAL, es), Free(t, p))
    ensures var w := Reached(INITIAL, es);
      && Shaped(w)
      && var size := w.held[p];
      && var w' := Step(w, Free(t, p));
      && (p in w'.live <==> Cacheable(size) && !NoHole(w.caches[t][CacheIndex(size)]))
      && (p !in w'.live ==> w'.caches == w.caches && w'.live == w.live - {p})
      && (p in w'.live ==>
            && w'.live == w.live
            && exists x: Place :: x.t == t && x.i == CacheIndex(size) && Cached(w', p, x))
  {
    HistoryHolds(INITIAL, es);
    var w := Reached(INITIAL, es);
    if Cacheable(w.held[p]) { HolesDoNotMatter(w.caches[t], w.held[p]); }
    if Room(w.caches[t], w.held[p]) {
      var x := KeptIn(w, t, p);
    }
  }

  /** A block that is kept lies in the freeing thread's own cache. */
  lemma KeptIn(w: World, t: Thread, p: Ptr) returns (x: Place)
    requires Inv(w) && Enabled(w, Free(t, p)) && Room(w.caches[t], w.held[p])
    ensures x.t == t && x.i == CacheIndex(w.held[p]) && Cached(Step(w, Free(t, p)), p, x)
    ensures Step(w, Free(t, p)).live == w.live
  {
    x := Place(t, CacheIndex(w.held[p]), FirstHole(w.caches[t][CacheIndex(w.held[p])]));
  }

  /** After any history no thread's cache retains more than 8,454,144 bytes. */
  lemma RetentionBounded(es: seq<Event>, t: Thread)
    requires Legal(INITIAL, es) && t in Reached(INITIAL, es).caches
    ensures var w := Reached(INITIAL, es);
      WellShaped(w.caches[t]) && Bytes(w.live, w.caches[t], CACHE_COUNT) <= 8_454_144
  {
    HistoryHolds(INITIAL, es);
    var w := Reached(INITIAL, es);
    var v := w.caches[t];
    forall i, j | 0 <= i < |v| && 0 <= j < |v[i]| && v[i][j] != NULL
      ensures v[i][j] in w.live && w.live[v[i][j]] == Capacity(i)
    {
      assert Cached(w, v[i][j], Place(t, i, j));
    }
    RetentionBound(w.live, v);
  }

  /** Destroying a thread's cache, after any history, gives back exactly its own blocks. */
  lemma ExitReturnsBlocks(es: seq<Event>, t: Thread)
    requires Legal(INITIAL, es) && t in Reached(INITIAL, es).caches
    ensures var w := Reached(INITIAL, es);
      && Shaped(w) && Enabled(w, Exit(t))
      && !Step(w, Exit(t)).fault
      && (forall p :: p in Step(w, Exit(t)).live <==> p in w.live && !exists x: Place :: x.t == t && Cached(w, p, x))
  {
    HistoryHolds(INITIAL, es);
    ExitDeletes(Reached(INITIAL, es), t);
  }

  // ----- a plain heap, as the program sees it -----

  /** A heap without caches: what the program holds, with the sizes it asked for. */
  type Plain = map<Ptr, Size>

  /** A plain heap's own step: alloc gives some block that is not held, free takes one back. */
  predicate PlainStep(h: Plain, e: Event, given: Ptr, h': Plain) {
    match e
    case Alloc(_, size, _) => given != NULL && given !in h && h' == h[given := size]
    case Free(_, p) => p in h && h' == h - {p}
    case _ => h' == h
  }

  /** After any history, every step of the caches over their heap is, for the program, a
      step of a plain heap. */
  lemma CachesRefineHeap(es: seq<Event>, e: Event)
    requires Legal(INITIAL, es) && Enabled(Reached(INITIAL, es), e)
    ensures var w := Reached(INITIAL, es);
      && Shaped(w)
      && PlainStep(w.held, e, if e.Alloc? then Given(w, e.t, e.size, e.p) else NULL, Step(w, e).held)
  {
    HistoryHolds(INITIAL, es);
    StepRefines(Reached(INITIAL, es), e);
  }

  lemma StepRefines(w: World, e: Event)
    requires Inv(w) && Enabled(w, e)
    ensures PlainStep(w.held, e, if e.Alloc? then Given(w, e.t, e.size, e.p) else NULL, Step(w, e).held)
  {
    if e.Alloc? && Hit(w.caches[e.t], e.size) {
      assert Cached(w, Taken(w.caches[e.t], e.size), TakenFrom(w, e.t, e.size));
    } else if e.Exit? {
      ExitDeletes(w, e.t);
    }
  }
}
