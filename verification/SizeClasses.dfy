/**
  The size-class arithmetic of `memory_cache` in unsigned 64-bit words.
 */
module SizeClasses {
  const WORD: nat := 0x1_0000_0000_0000_0000
  const CACHE_COUNT: nat := 128
  const ENTRY_COUNT: nat := 16
  const ALIGNMENT: nat := 64

  type Size = n: nat | n < WORD

  /** Rounds up to the alignment; the addition wraps around. */
  function AlignedSize(size: Size): Size {
    if size % ALIGNMENT == 0 then size
    else (size + (ALIGNMENT - size % ALIGNMENT)) % WORD
  }

  /** The subtraction wraps around too: there is no class for zero words. */
  function CacheIndex(size: Size): Size {
    (AlignedSize(size) / ALIGNMENT + WORD - 1) % WORD
  }

  predicate Cacheable(size: Size) {
    CacheIndex(size) < CACHE_COUNT
  }

  /** Bytes of every block in class i. */
  function Capacity(i: nat): nat {
    ALIGNMENT * (i + 1)
  }

  /** What alloc asks of the heap on a miss. */
  function BlockSize(size: Size): Size {
    if Cacheable(size) then AlignedSize(size) else size
  }

  lemma AlignedIs(size: Size)
    ensures size <= WORD - ALIGNMENT ==>
      AlignedSize(size) % ALIGNMENT == 0 && size <= AlignedSize(size) < size + ALIGNMENT
    ensures size > WORD - ALIGNMENT ==> AlignedSize(size) == 0
  {
    var r := size % ALIGNMENT;
    var q := size / ALIGNMENT;
    assert size == q * ALIGNMENT + r;
    if r != 0 {
      assert size + (ALIGNMENT - r) == (q + 1) * ALIGNMENT;
      assert WORD == 0x400_0000_0000_0000 * ALIGNMENT;
      if size > WORD - ALIGNMENT {
        assert q + 1 == 0x400_0000_0000_0000;
      } else {
        assert q + 1 < 0x400_0000_0000_0000 || size + (ALIGNMENT - r) == WORD;
      }
    }
  }

  /** For every 64-bit size: it has a class exactly when it is between 1 and 8192, and then
      the capacity of its class is the least multiple of 64 that is not below it. Size 0 and
      the sizes whose rounding wraps around have none. */
  lemma ClassExact(size: Size)
    ensures Cacheable(size) <==> 1 <= size <= 8192
    ensures Cacheable(size) ==>
      && Capacity(CacheIndex(size)) == AlignedSize(size) == BlockSize(size)
      && size <= Capacity(CacheIndex(size))
      && forall m: nat :: m % ALIGNMENT == 0 && size <= m ==> Capacity(CacheIndex(size)) <= m
    ensures size == 0 || size > WORD - ALIGNMENT ==> CacheIndex(size) == WORD - 1
    ensures size <= BlockSize(size)
    ensures !Cacheable(size) ==> BlockSize(size) == size
  {
    AlignedIs(size);
    var a := AlignedSize(size);
    var q := a / ALIGNMENT;
    if a == 0 {
      assert CacheIndex(size) == WORD - 1;
    } else {
      assert a % ALIGNMENT == 0 && a == q * ALIGNMENT && q >= 1;
      assert CacheIndex(size) == q - 1;
      forall m: nat | m % ALIGNMENT == 0 && size <= m ensures a <= m {
        assert m == (m / ALIGNMENT) * ALIGNMENT;
      }
    }
  }
}
