/**
  The slot table of one `memory_cache` as a value: which slot alloc takes and free fills,
  what destruction deletes, and how much a table can hold.
 */
module CacheRows {
  import opened Options
  import opened SizeClasses

  type Ptr = nat
  const NULL: Ptr := 0

  type Row = seq<Ptr>
  type Rows = seq<Row>
  type Live = map<Ptr, nat>  // blocks of the heap and their sizes in bytes

  predicate WellShaped(v: Rows) {
    |v| == CACHE_COUNT && forall i :: 0 <= i < CACHE_COUNT ==> |v[i]| == ENTRY_COUNT
  }

  /** The constructor's table. */
  function EmptyRows(): (v: Rows)
    ensures WellShaped(v) && forall i, j :: 0 <= i < CACHE_COUNT && 0 <= j < ENTRY_COUNT ==> v[i][j] == NULL
  {
    seq(CACHE_COUNT, i => seq(ENTRY_COUNT, j => NULL))
  }

  /** The first slot that holds a block, or the length of the row. */
  function FirstFull(row: Row): (k: nat)
    ensures k <= |row| && (k < |row| ==> row[k] != NULL)
    ensures forall j :: 0 <= j < k ==> row[j] == NULL
  {
    if |row| == 0 || row[0] != NULL then 0 else 1 + FirstFull(row[1..])
  }

  /** The first empty slot, or the length of the row. */
  function FirstHole(row: Row): (k: nat)
    ensures k <= |row| && (k < |row| ==> row[k] == NULL)
    ensures forall j :: 0 <= j < k ==> row[j] != NULL
  {
    if |row| == 0 || row[0] == NULL then 0 else 1 + FirstHole(row[1..])
  }

  /** alloc finds a block of the size's class. */
  predicate Hit(v: Rows, size: Size)
    requires WellShaped(v)
  {
    Cacheable(size) && FirstFull(v[CacheIndex(size)]) < ENTRY_COUNT
  }

  function Taken(v: Rows, size: Size): Ptr
    requires WellShaped(v) && Hit(v, size)
  {
    v[CacheIndex(size)][FirstFull(v[CacheIndex(size)])]
  }

  function AfterTake(v: Rows, size: Size): Rows
    requires WellShaped(v) && Hit(v, size)
  {
    var i := CacheIndex(size);
    var row: Row := v[i][FirstFull(v[i]) := NULL];
    v[i := row]
  }

  /** free finds an empty slot in the size's class. */
  predicate Room(v: Rows, size: Size)
    requires WellShaped(v)
  {
    Cacheable(size) && FirstHole(v[CacheIndex(size)]) < ENTRY_COUNT
  }

  function AfterKeep(v: Rows, size: Size, p: Ptr): Rows
    requires WellShaped(v) && Room(v, size)
  {
    var i := CacheIndex(size);
    var row: Row := v[i][FirstHole(v[i]) := p];
    v[i := row]
  }

  predicate NoBlock(row: Row) {
    forall j :: 0 <= j < |row| ==> row[j] == NULL
  }

  predicate NoHole(row: Row) {
    forall j :: 0 <= j < |row| ==> row[j] != NULL
  }

  /** Holes and all: alloc misses exactly when the class holds no block, and free finds no
      room exactly when all its slots are taken. */
  lemma HolesDoNotMatter(v: Rows, size: Size)
    requires WellShaped(v) && Cacheable(size)
    ensures Hit(v, size) <==> !NoBlock(v[CacheIndex(size)])
    ensures Room(v, size) <==> !NoHole(v[CacheIndex(size)])
  {
    var row := v[CacheIndex(size)];
    assert Hit(v, size) ==> row[FirstFull(row)] != NULL;
    assert Room(v, size) ==> row[FirstHole(row)] == NULL;
  }

  /** A block freed into a class that held none is the next one allocated from it, and the
      table is then as it was. */
  lemma FreeThenAlloc(v: Rows, size: Size, p: Ptr)
    requires WellShaped(v) && Cacheable(size) && !Hit(v, size) && p != NULL
    ensures Room(v, size)
    ensures WellShaped(AfterKeep(v, size, p)) && Hit(AfterKeep(v, size, p), size)
    ensures Taken(AfterKeep(v, size, p), size) == p && AfterTake(AfterKeep(v, size, p), size) == v
  {
    var i := CacheIndex(size);
    assert v[i][0] == NULL;
    var w := AfterKeep(v, size, p);
    assert w[i][0] == p;
    assert AfterTake(w, size)[i] == v[i];
  }

  // ----- destruction -----

  /** The blocks in a row or in the whole table. */
  function Blocks(row: Row): set<Ptr> {
    set j | 0 <= j < |row| && row[j] != NULL :: row[j]
  }

  function AllBlocks(v: Rows): set<Ptr> {
    set i, j | 0 <= i < |v| && 0 <= j < |v[i]| && v[i][j] != NULL :: v[i][j]
  }

  /** No block is in two slots. */
  ghost predicate Injective(v: Rows) {
    forall i, j, i', j' {:trigger v[i][j], v[i'][j']} ::
      0 <= i < |v| && 0 <= j < |v[i]| && 0 <= i' < |v| && 0 <= j' < |v[i']| && v[i][j] == v[i'][j'] != NULL
      ==> i == i' && j == j'
  }

  /** `operator delete` on every entry of a row in turn; None if one is not a live block. */
  function DeleteRow(live: Live, row: Row): Option<Live>
    decreases |row|
  {
    if |row| == 0 then Some(live)
    else if row[0] == NULL then DeleteRow(live, row[1..])
    else if row[0] !in live then None
    else DeleteRow(live - {row[0]}, row[1..])
  }

  function DeleteRows(live: Live, v: Rows): Option<Live>
    decreases |v|
  {
    if |v| == 0 then Some(live)
    else
      var rest := DeleteRow(live, v[0]);
      if rest.None? then None else DeleteRows(rest.value, v[1..])
  }

  lemma {:induction false} RowDeletedOnce(live: Live, row: Row)
    requires forall j, j' :: 0 <= j < j' < |row| && row[j] != NULL ==> row[j] != row[j']
    requires forall j :: 0 <= j < |row| && row[j] != NULL ==> row[j] in live
    ensures DeleteRow(live, row) == Some(live - Blocks(row))
  {
    if |row| == 0 {
      assert live - Blocks(row) == live;
    } else {
      var rest := row[1..];
      assert forall j :: 0 <= j < |rest| ==> rest[j] == row[j + 1];
      var live' := if row[0] == NULL then live else live - {row[0]};
      RowDeletedOnce(live', rest);
      assert Blocks(row) == Blocks(rest) + (if row[0] == NULL then {} else {row[0]}) by {
        forall p | p in Blocks(row) ensures p in Blocks(rest) || p == row[0] {
          var j :| 0 <= j < |row| && row[j] != NULL && p == row[j];
          if j > 0 { assert rest[j - 1] == p; }
        }
      }
      assert live' - Blocks(rest) == live - Blocks(row);
    }
  }

  /** Destroying a table whose blocks are live and in one slot each deletes each once. */
  lemma {:induction false} EachDeletedOnce(live: Live, v: Rows)
    requires Injective(v) && AllBlocks(v) <= live.Keys
    ensures DeleteRows(live, v) == Some(live - AllBlocks(v))
  {
    if |v| == 0 {
      assert live - AllBlocks(v) == live;
    } else {
      var rest := v[1..];
      forall j | 0 <= j < |v[0]| && v[0][j] != NULL ensures v[0][j] in live {
        assert v[0][j] in AllBlocks(v);
      }
      RowDeletedOnce(live, v[0]);
      RestOfTable(v);
      EachDeletedOnce(live - Blocks(v[0]), rest);
      assert live - Blocks(v[0]) - AllBlocks(rest) == live - AllBlocks(v);
    }
  }

  lemma RestOfTable(v: Rows)
    requires |v| > 0 && Injective(v)
    ensures Injective(v[1..]) && AllBlocks(v) == Blocks(v[0]) + AllBlocks(v[1..])
    ensures Blocks(v[0]) !! AllBlocks(v[1..])
  {
    var rest := v[1..];
    assert forall i :: 0 <= i < |rest| ==> rest[i] == v[i + 1];
    forall p | p in AllBlocks(v) ensures p in Blocks(v[0]) + AllBlocks(rest) {
      var i, j :| 0 <= i < |v| && 0 <= j < |v[i]| && v[i][j] != NULL && p == v[i][j];
      if i > 0 { assert rest[i - 1][j] == p; }
    }
  }

  // ----- how much a table can hold -----

  function RowBytes(live: Live, row: Row): nat
  {
    if |row| == 0 then 0
    else (if row[0] in live && row[0] != NULL then live[row[0]] else 0) + RowBytes(live, row[1..])
  }

  /** Bytes of the blocks in the first n classes. */
  function Bytes(live: Live, v: Rows, n: nat): nat
    requires n <= |v|
  {
    if n == 0 then 0 else Bytes(live, v, n - 1) + RowBytes(live, v[n - 1])
  }

  /** Every block in class i has the capacity of the class. */
  predicate Sized(live: Live, v: Rows) {
    forall i, j :: 0 <= i < |v| && 0 <= j < |v[i]| && v[i][j] != NULL ==>
      v[i][j] in live && live[v[i][j]] == Capacity(i)
  }

  lemma {:induction false} RowBound(live: Live, row: Row, c: nat)
    requires forall j :: 0 <= j < |row| && row[j] != NULL && row[j] in live ==> live[row[j]] <= c
    ensures RowBytes(live, row) <= |row| * c
  {
    if |row| > 0 {
      RowBound(live, row[1..], c);
      assert |row| * c == c + (|row| - 1) * c;
    }
  }

  lemma {:induction false} TableBound(live: Live, v: Rows, n: nat)
    requires WellShaped(v) && Sized(live, v) && n <= CACHE_COUNT
    ensures Bytes(live, v, n) <= ENTRY_COUNT * ALIGNMENT * (n * (n + 1) / 2)
  {
    if n > 0 {
      TableBound(live, v, n - 1);
      RowBound(live, v[n - 1], Capacity(n - 1));
      assert n * (n + 1) / 2 == (n - 1) * n / 2 + n;
    }
  }

  /** One cache never retains more than 8,454,144 bytes. */
  lemma RetentionBound(live: Live, v: Rows)
    requires WellShaped(v) && Sized(live, v)
    ensures Bytes(live, v, CACHE_COUNT) <= 8_454_144
  {
    TableBound(live, v, CACHE_COUNT);
  }
}
