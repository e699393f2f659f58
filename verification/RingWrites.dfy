/**
 The single writes by which a ring reaches the kernel's maps, which are not double-buffered, and what a packet between
 two of them picks.
 */
module RingWrites {
  import opened XdpTypes

  /** What the ring lookup reads: ch_config[0], the current table and the ring's backends. */
  datatype Maps = Maps(ringSize: nat, table: seq<int>, backends: seq<Backend>)

  datatype Ring = Ring(backends: seq<Backend>, table: seq<int>, size: nat)

  /** The packet path's lookup. */
  function Pick(maps: Maps, keyHash: nat): Option<(nat, Backend)> {
    if maps.ringSize == 0 || keyHash % maps.ringSize >= |maps.table| then None
    else
      var v := maps.table[keyHash % maps.ringSize];
      if v < 0 || v >= |maps.backends| || !maps.backends[v].active then None else Some((v, maps.backends[v]))
  }

  /** How many entries of the table are written. */
  function TableWrites(r: Ring): nat {
    if r.size < |r.table| then r.size else |r.table|
  }

  /**
   The n-th write: the size, the count (which no lookup reads), the backends in order, the current table in order,
   and then the previous table (which the lookup does not read either).
   */
  function Put(maps: Maps, r: Ring, n: nat): Maps {
    if n == 0 then maps.(ringSize := r.size)
    else if 2 <= n < 2 + |r.backends| then
      if n - 2 < |maps.backends| then maps.(backends := maps.backends[n - 2 := r.backends[n - 2]]) else maps
    else if 2 + |r.backends| <= n < 2 + |r.backends| + TableWrites(r) then
      var slot := n - 2 - |r.backends|;
      if slot < |maps.table| then maps.(table := maps.table[slot := r.table[slot]]) else maps
    else maps
  }

  function Written(maps: Maps, r: Ring, n: nat): Maps {
    if n == 0 then maps else Put(Written(maps, r, n - 1), r, n - 1)
  }

  /** The maps show the ring, whose backends are all enabled and whose table names only them. */
  ghost predicate Shows(maps: Maps, r: Ring) {
    && 0 < r.size == |r.table| <= |maps.table| && maps.ringSize == r.size && maps.table[..r.size] == r.table
    && 0 < |r.backends| <= |maps.backends| && maps.backends[..|r.backends|] == r.backends
    && Sound(r)
  }

  ghost predicate Sound(r: Ring) {
    && (forall j :: 0 <= j < |r.table| ==> 0 <= r.table[j] < |r.backends|)
    && (forall b :: b in r.backends ==> b.active)
  }

  /** The ring fits the maps. */
  ghost predicate Fits(maps: Maps, r: Ring) {
    0 < r.size == |r.table| <= |maps.table| && 0 < |r.backends| <= |maps.backends| && Sound(r)
  }

  /** How many backends, or table entries, the first n writes include. */
  function BackendsDone(r: Ring, n: nat): (k: nat)
    ensures k <= |r.backends|
  {
    if n < 2 then 0 else if n - 2 < |r.backends| then n - 2 else |r.backends|
  }

  function SlotsDone(r: Ring, n: nat): (k: nat)
    ensures k <= TableWrites(r)
  {
    if n < 2 + |r.backends| then 0
    else if n - 2 - |r.backends| < TableWrites(r) then n - 2 - |r.backends|
    else TableWrites(r)
  }

  lemma OneMoreWritten<T>(values: seq<T>, old0: seq<T>, k: nat)
    requires k < |values| && k < |old0|
    ensures (values[..k] + old0[k..])[k := values[k]] == values[..k + 1] + old0[k + 1..]
  {
  }

  lemma {:induction false} WrittenIs(maps: Maps, r: Ring, n: nat)
    requires |r.backends| <= |maps.backends| && TableWrites(r) <= |maps.table|
    ensures var t := Written(maps, r, n);
      && t.ringSize == (if n == 0 then maps.ringSize else r.size)
      && t.backends == r.backends[..BackendsDone(r, n)] + maps.backends[BackendsDone(r, n)..]
      && t.table == r.table[..SlotsDone(r, n)] + maps.table[SlotsDone(r, n)..]
  {
    if n > 0 {
      WrittenIs(maps, r, n - 1);
      var i, j := BackendsDone(r, n - 1), SlotsDone(r, n - 1);
      if 2 <= n - 1 < 2 + |r.backends| {
        OneMoreWritten(r.backends, maps.backends, i);
      } else if 2 + |r.backends| <= n - 1 < 2 + |r.backends| + TableWrites(r) {
        OneMoreWritten(r.table, maps.table, j);
      }
    }
  }

  lemma TableComesLast(maps: Maps, r: Ring)
    requires |r.backends| <= |maps.backends| && TableWrites(r) <= |maps.table|
    ensures var (mid, k) := (Written(maps, r, 2 + |r.backends|), TableWrites(r));
      && |mid.table| == |maps.table|
      && Written(maps, r, 2 + |r.backends| + k) == mid.(table := r.table[..k] + mid.table[k..])
  {
    hide Written;
    var b, k := 2 + |r.backends|, TableWrites(r);
    WrittenIs(maps, r, b);
    WrittenIs(maps, r, b + k);
    assert r.table[..0] + maps.table[0..] == maps.table;
  }

  lemma FirstTwoWrites(maps: Maps, r: Ring)
    ensures Written(maps, r, 2) == maps.(ringSize := r.size)
  {
    assert Written(maps, r, 1) == maps.(ringSize := r.size);
  }

  /** What the ring answers for a hash. */
  function Answer(r: Ring, keyHash: nat): (pick: (nat, Backend))
    requires Sound(r) && 0 < r.size == |r.table|
  {
    var b := r.table[keyHash % r.size];
    (b, r.backends[b])
  }

  /** Once everything the lookup reads is written the kernel picks as the new ring answers. */
  lemma AllWritten(maps: Maps, r: Ring, n: nat)
    requires Fits(maps, r) && n >= 2 + |r.backends| + |r.table|
    ensures Shows(Written(maps, r, n), r)
  {
    WrittenIs(maps, r, n);
    hide Written, Sound;
  }

  lemma ShownIsPicked(maps: Maps, r: Ring, keyHash: nat)
    requires Shows(maps, r)
    ensures Pick(maps, keyHash) == Some(Answer(r, keyHash))
  {
    var slot := keyHash % r.size;
    assert maps.table[slot] == maps.table[..r.size][slot];
    var b := r.table[slot];
    assert maps.backends[b] == maps.backends[..|r.backends|][b];
  }

  /**
   Between two writes of a ring over one of the same size: while the hash's table entry is not written yet, the old
   entry is an index into the backends as far as they are written; then the new ring answers.
   */
  lemma PickBetweenWrites(maps: Maps, before: Ring, r: Ring, n: nat, keyHash: nat)
    requires Shows(maps, before) && Fits(maps, r) && before.size == r.size
    ensures Pick(Written(maps, r, n), keyHash) ==
      if keyHash % r.size < SlotsDone(r, n) then Some(Answer(r, keyHash))
      else
        var b := Answer(before, keyHash).0;
        Some((b, if b < BackendsDone(r, n) then r.backends[b] else before.backends[b]))
  {
    WrittenIs(maps, r, n);
    var t, slot := Written(maps, r, n), keyHash % r.size;
    if slot < SlotsDone(r, n) {
      assert t.table[slot] == r.table[slot];
      assert BackendsDone(r, n) == |r.backends|;
      assert t.backends[r.table[slot]] == r.backends[r.table[slot]];
    } else {
      assert t.table[slot] == maps.table[slot] == maps.table[..r.size][slot] == before.table[slot];
      var b := before.table[slot];
      assert maps.backends[b] == maps.backends[..|before.backends|][b];
    }
    hide Written;
  }

  /**
   So a packet is answered by neither ring exactly while its table entry is the old one, the list has the new ring's
   backend at that entry, another one than the old, and the new table does not name that place.
   */
  lemma AnsweredByNeitherExactly(maps: Maps, before: Ring, r: Ring, n: nat, keyHash: nat)
    requires Shows(maps, before) && Fits(maps, r) && before.size == r.size
    ensures var b := Answer(before, keyHash).0;
      Pick(Written(maps, r, n), keyHash) !in {Some(Answer(before, keyHash)), Some(Answer(r, keyHash))} <==>
        && SlotsDone(r, n) <= keyHash % r.size && b < BackendsDone(r, n)
        && r.backends[b] != before.backends[b] && b != Answer(r, keyHash).0
  {
    PickBetweenWrites(maps, before, r, n, keyHash);
    hide Written, Pick;
  }
}
