/**
  The cache object: 128 rows of 16 slots, searched and filled in place, over a heap.
 */
module MemoryCache {
  import opened Options
  import opened SizeClasses
  import opened CacheRows

  /** `operator new` and `operator delete`. */
  class Heap {
    var live: Live
    var next: Ptr

    ghost predicate Valid()
      reads this
    {
      next > NULL && forall p :: p in live ==> NULL < p < next
    }

    constructor ()
      ensures Valid() && live == map[]
    {
      live, next := map[], 1;
    }

    method New(size: nat) returns (p: Ptr)
      requires Valid()
      modifies this
      ensures Valid() && p != NULL && p !in old(live) && live == old(live)[p := size]
    {
      p := next;
      live, next := live[p := size], next + 1;
    }

    /** Deleting the null pointer does nothing. */
    method Delete(p: Ptr)
      requires Valid() && (p != NULL ==> p in live)
      modifies this
      ensures Valid() && live == if p == NULL then old(live) else old(live) - {p}
    {
      if p != NULL {
        live := live - {p};
      }
    }
  }

  class Cache {
    const entries: array2<Ptr>
    ghost var rows: Rows

    ghost predicate Valid()
      reads this, entries
    {
      && entries.Length0 == CACHE_COUNT && entries.Length1 == ENTRY_COUNT
      && WellShaped(rows)
      && forall i, j :: 0 <= i < CACHE_COUNT && 0 <= j < ENTRY_COUNT ==> entries[i, j] == rows[i][j]
    }

    constructor ()
      ensures Valid() && fresh(entries) && rows == EmptyRows()
    {
      entries := new Ptr[CACHE_COUNT, ENTRY_COUNT];
      rows := EmptyRows();
      new;
      for i := 0 to CACHE_COUNT
        modifies entries
        invariant forall a, b :: 0 <= a < i && 0 <= b < ENTRY_COUNT ==> entries[a, b] == NULL
      {
        for j := 0 to ENTRY_COUNT
          invariant forall a, b :: 0 <= a < i && 0 <= b < ENTRY_COUNT ==> entries[a, b] == NULL
          invariant forall b :: 0 <= b < j ==> entries[i, b] == NULL
        {
          entries[i, j] := NULL;
        }
      }
    }

    /** A cached block of the size's class if there is one, else a new one from the heap. */
    method Alloc(heap: Heap, size: Size) returns (p: Ptr)
      requires Valid() && heap.Valid()
      modifies this`rows, entries, heap
      ensures Valid() && heap.Valid()
      ensures if Hit(old(rows), size) then
          p == Taken(old(rows), size) && rows == AfterTake(old(rows), size) && heap.live == old(heap.live)
        else
          p != NULL && p !in old(heap.live) && heap.live == old(heap.live)[p := BlockSize(size)] && rows == old(rows)
    {
      var idx := CacheIndex(size);
      if idx < CACHE_COUNT {
        for j := 0 to ENTRY_COUNT
          invariant Valid() && rows == old(rows) && heap.live == old(heap.live)
          invariant forall b :: 0 <= b < j ==> rows[idx][b] == NULL
        {
          if entries[idx, j] != NULL {
            p := entries[idx, j];
            entries[idx, j] := NULL;
            assert FirstFull(rows[idx]) == j;
            rows := AfterTake(rows, size);
            return;
          }
        }
        p := heap.New(AlignedSize(size));
        return;
      }
      p := heap.New(size);
    }

    /** Keeps the block in the first empty slot of its class, else gives it to the heap. */
    method Free(heap: Heap, p: Ptr, size: Size)
      requires Valid() && heap.Valid() && p in heap.live
      modifies this`rows, entries, heap
      ensures Valid() && heap.Valid()
      ensures if Room(old(rows), size) then
          rows == AfterKeep(old(rows), size, p) && heap.live == old(heap.live)
        else
          rows == old(rows) && heap.live == old(heap.live) - {p}
    {
      var idx := CacheIndex(size);
      if idx < CACHE_COUNT {
        for j := 0 to ENTRY_COUNT
          invariant Valid() && rows == old(rows) && heap.live == old(heap.live)
          invariant forall b :: 0 <= b < j ==> rows[idx][b] != NULL
        {
          if entries[idx, j] == NULL {
            entries[idx, j] := p;
            assert FirstHole(rows[idx]) == j;
            rows := AfterKeep(rows, size, p);
            return;
          }
        }
      }
      heap.Delete(p);
    }

    /** The destructor: every entry is deleted in turn, which is right for blocks that are
        live and in one slot each, and leaves none of them behind. */
    method Destruct(heap: Heap)
      requires Valid() && heap.Valid()
      requires Injective(rows) && AllBlocks(rows) <= heap.live.Keys
      modifies heap
      ensures heap.Valid() && heap.live == old(heap.live) - AllBlocks(rows)
    {
      EachDeletedOnce(heap.live, rows);
      for i := 0 to CACHE_COUNT
        invariant heap.Valid()
        invariant DeleteRows(heap.live, rows[i..]) == Some(old(heap.live) - AllBlocks(rows))
      {
        assert rows[i..][0] == rows[i] && rows[i..][1..] == rows[i + 1..];
        assert rows[i][0..] == rows[i];
        for j := 0 to ENTRY_COUNT
          invariant heap.Valid()
          invariant DeleteRow(heap.live, rows[i][j..]).Some?
          invariant DeleteRows(DeleteRow(heap.live, rows[i][j..]).value, rows[i + 1..])
            == Some(old(heap.live) - AllBlocks(rows))
        {
          assert rows[i][j..][0] == entries[i, j] && rows[i][j..][1..] == rows[i][j + 1..];
          heap.Delete(entries[i, j]);
        }
      }
    }
  }
}
