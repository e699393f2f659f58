/**
 The ring manager and the one set of kernel maps its rings share, over any sequence of reloads and seconds,
 in terms of backend lists.
 */
module RingHistory {
  import opened XdpTypes
  import ChManager
  import CH = ConsistentHash

  /** The ring that the kernel's maps show: a managed one, one no longer managed, or none in full. */
  datatype Shown = Unreliable | Ring(key: ServiceKey) | Forgotten(backends: seq<Backend>)

  datatype Managed = Managed(rings: map<ServiceKey, CH.Rings>, shown: Shown)

  const NOTHING := Managed(map[], Unreliable)

  /** One ring service of a reload: its key and the backends found for its enabled reals. */
  datatype Entry = Entry(key: ServiceKey, backends: seq<Backend>)

  predicate Fits(backends: seq<Backend>) {
    |backends| <= 257
  }

  function WrittenAs(key: ServiceKey, backends: seq<Backend>): Shown {
    if Fits(backends) then Ring(key) else Unreliable
  }

  function RingBefore(m: Managed, key: ServiceKey): CH.Rings {
    if key in m.rings then m.rings[key] else CH.NO_RINGS
  }

  function Updated(r: CH.Rings, backends: seq<Backend>): CH.Rings {
    CH.Next(r, CH.Update(backends), CH.DEFAULT_MERGE_TICKS)
  }

  /** A nonempty list updates the ring and is written; an empty one only makes the manager forget the ring. */
  function Refresh(m: Managed, e: Entry): Managed {
    if e.backends != [] then
      Managed(m.rings[e.key := Updated(RingBefore(m, e.key), e.backends)],
              WrittenAs(e.key, e.backends))
    else
      Managed(m.rings - {e.key},
              if m.shown == Ring(e.key) then Forgotten(RingBefore(m, e.key).active) else m.shown)
  }

  function Reload(m: Managed, es: seq<Entry>): Managed {
    if es == [] then m else Refresh(Reload(m, es[..|es| - 1]), es[|es| - 1])
  }

  predicate Due(r: CH.Rings, timeout: nat) {
    r.age.Some? && r.age.value + 1 >= timeout
  }

  /** The last ring in visiting order whose merge completes this second. */
  function LastDue(rings: map<ServiceKey, CH.Rings>, order: seq<ServiceKey>, timeout: nat): (r: Option<ServiceKey>)
    ensures r.Some? ==> r.value in rings && Due(rings[r.value], timeout)
  {
    if order == [] then None
    else
      var last := order[|order| - 1];
      if last in rings && Due(rings[last], timeout) then Some(last) else LastDue(rings, order[..|order| - 1], timeout)
  }

  /** One second: every ring ticks, and each completed merge is written over what the maps show. */
  function Maintain(m: Managed, order: seq<ServiceKey>, timeout: nat): Managed {
    Managed(map k | k in m.rings :: CH.Next(m.rings[k], CH.Tick, timeout),
            match LastDue(m.rings, order, timeout)
            case None => m.shown
            case Some(k) => WrittenAs(k, m.rings[k].active))
  }

  datatype Move = Reconfigure(entries: seq<Entry>) | Second(order: seq<ServiceKey>)

  function Apply(m: Managed, move: Move, timeout: nat): Managed {
    match move
    case Reconfigure(entries) => Reload(m, entries)
    case Second(order) => Maintain(m, order, timeout)
  }

  function After(moves: seq<Move>, timeout: nat): Managed {
    if moves == [] then NOTHING else Apply(After(moves[..|moves| - 1], timeout), moves[|moves| - 1], timeout)
  }

  // ---- One reload ----

  /** The backends of whatever ring the maps show. */
  function ShownBackends(m: Managed): Option<seq<Backend>> {
    match m.shown
    case Unreliable => None
    case Ring(k) => Some(RingBefore(m, k).active)
    case Forgotten(backends) => Some(backends)
  }

  /** The last entry with a backend, if there is one. */
  function LastWritten(es: seq<Entry>): (r: Option<nat>)
    ensures r.None? <==> forall i :: 0 <= i < |es| ==> es[i].backends == []
    ensures r.Some? ==> r.value < |es| && es[r.value].backends != []
    ensures r.Some? ==> forall i :: r.value < i < |es| ==> es[i].backends == []
  {
    if es == [] then None
    else if es[|es| - 1].backends != [] then Some(|es| - 1)
    else LastWritten(es[..|es| - 1])
  }

  /** After a reload the maps show the last ring written, or what they showed before when nothing is enabled. */
  lemma {:induction false} ReloadShowsTheLastRing(m: Managed, es: seq<Entry>)
    ensures ShownBackends(Reload(m, es)) ==
      match LastWritten(es)
      case None => ShownBackends(m)
      case Some(i) => if Fits(es[i].backends) then Some(es[i].backends) else None
  {
    if es != [] && es[|es| - 1].backends == [] {
      ReloadShowsTheLastRing(m, es[..|es| - 1]);
    }
  }

  /** The manager keeps every ring that left the configuration; only an entry without backends removes one. */
  lemma {:induction false} ReloadKeepsDepartedRings(m: Managed, es: seq<Entry>, key: ServiceKey)
    requires forall i :: 0 <= i < |es| ==> es[i].key != key
    ensures var t := Reload(m, es);
      (key in t.rings <==> key in m.rings) && (key in m.rings ==> t.rings[key] == m.rings[key])
  {
    if es != [] {
      ReloadKeepsDepartedRings(m, es[..|es| - 1], key);
    }
  }

  // ---- One ring service ----

  /** The entries of the last reload that had any. */
  function LastList(moves: seq<Move>): Option<seq<Backend>> {
    if moves == [] then None
    else
      var move := moves[|moves| - 1];
      if move.Reconfigure? && move.entries != [] then Some(move.entries[|move.entries| - 1].backends)
      else LastList(moves[..|moves| - 1])
  }

  /** Every ring service ever configured has this key. */
  ghost predicate OnlyKey(moves: seq<Move>, key: ServiceKey) {
    forall i, j :: 0 <= i < |moves| && moves[i].Reconfigure? && 0 <= j < |moves[i].entries| ==>
      moves[i].entries[j].key == key
  }

  /** The maps show the one ring with this list, or nobody manages a ring. */
  predicate StandsWith(m: Managed, key: ServiceKey, list: seq<Backend>) {
    if list == [] then m.rings == map[]
    else m.rings.Keys == {key} && m.rings[key].active == list && m.shown == WrittenAs(key, list)
  }

  lemma {:induction false} OneRingReload(m: Managed, es: seq<Entry>, key: ServiceKey)
    requires m.rings.Keys <= {key} && es != [] && forall i :: 0 <= i < |es| ==> es[i].key == key
    ensures Reload(m, es).rings.Keys <= {key} && StandsWith(Reload(m, es), key, es[|es| - 1].backends)
  {
    if |es| > 1 {
      OneRingReload(m, es[..|es| - 1], key);
    } else {
      assert Reload(m, es[..0]) == m;
    }
    var before, e := Reload(m, es[..|es| - 1]), es[|es| - 1];
    assert before.rings.Keys <= {key};
    if e.backends == [] {
      assert before.rings - {key} == map[];
    }
  }

  lemma OneRingSecond(m: Managed, order: seq<ServiceKey>, key: ServiceKey, list: seq<Backend>, timeout: nat)
    requires StandsWith(m, key, list)
    ensures StandsWith(Maintain(m, order, timeout), key, list)
  {
    if list != [] {
      var t := Maintain(m, order, timeout);
      assert t.rings.Keys == m.rings.Keys;
    } else {
      assert Maintain(m, order, timeout).rings == map[];
    }
  }

  /**
   With one ring service, over any sequence of reloads and seconds: as soon as a reload gives it backends the
   maps show the ring of the latest list, whenever its merges complete.
   */
  lemma {:induction false} OneRingIsAlwaysShown(moves: seq<Move>, key: ServiceKey, timeout: nat)
    requires OnlyKey(moves, key)
    ensures match LastList(moves)
      case None => After(moves, timeout) == NOTHING
      case Some(list) => StandsWith(After(moves, timeout), key, list)
  {
    if moves != [] {
      var front, move := moves[..|moves| - 1], moves[|moves| - 1];
      OneRingIsAlwaysShown(front, key, timeout);
      var m := After(front, timeout);
      assert m.rings.Keys <= {key};
      match move
      case Reconfigure(entries) =>
        if entries != [] {
          OneRingReload(m, entries, key);
        }
      case Second(order) =>
        if LastList(front).Some? {
          OneRingSecond(m, order, key, LastList(front).value, timeout);
        } else {
          assert Maintain(m, order, timeout).rings == map[];
        }
    }
  }

  // ---- Several rings: which one the maps show after n seconds ----

  /** The seconds until the ring's pending merge completes. */
  function Left(r: CH.Rings, timeout: nat): (s: nat)
    requires r.age.Some?
    ensures s >= 1
  {
    if r.age.value + 1 < timeout then timeout - r.age.value else 1
  }

  predicate MergesWithin(r: CH.Rings, n: nat, timeout: nat) {
    r.age.Some? && Left(r, timeout) <= n
  }

  function Seconds(m: Managed, order: seq<ServiceKey>, n: nat, timeout: nat): Managed {
    if n == 0 then m else Maintain(Seconds(m, order, n - 1, timeout), order, timeout)
  }

  lemma {:induction false} RingAfterSeconds(m: Managed, order: seq<ServiceKey>, n: nat, timeout: nat, key: ServiceKey)
    requires key in m.rings
    ensures var (r, t) := (m.rings[key], Seconds(m, order, n, timeout));
      && key in t.rings && t.rings.Keys == m.rings.Keys && t.rings[key].active == r.active
      && (t.rings[key].age.Some? <==> r.age.Some? && !MergesWithin(r, n, timeout))
      && (t.rings[key].age.Some? ==> t.rings[key].age.value == r.age.value + n)
  {
    if n > 0 {
      RingAfterSeconds(m, order, n - 1, timeout, key);
    }
  }

  lemma DueInSecond(m: Managed, order: seq<ServiceKey>, n: nat, timeout: nat, key: ServiceKey)
    requires key in m.rings
    ensures var t := Seconds(m, order, n, timeout);
      key in t.rings && (Due(t.rings[key], timeout) <==> m.rings[key].age.Some? && Left(m.rings[key], timeout) == n + 1)
  {
    RingAfterSeconds(m, order, n, timeout, key);
  }

  /** Every managed ring is visited once a second. */
  ghost predicate Visits(order: seq<ServiceKey>, m: Managed) {
    && (forall k :: k in m.rings <==> k in order)
    && forall i, j :: 0 <= i < j < |order| ==> order[i] != order[j]
  }

  function Place(order: seq<ServiceKey>, key: ServiceKey): (p: nat)
    requires key in order
    ensures p < |order| && order[p] == key
  {
    if order[|order| - 1] == key then |order| - 1
    else
      assert key in order[..|order| - 1];
      Place(order[..|order| - 1], key)
  }

  /** Ring j's merge completes within n seconds, but the given ring's own completes after it within n as well. */
  predicate WrittenBefore(m: Managed, order: seq<ServiceKey>, j: ServiceKey, key: ServiceKey, n: nat, timeout: nat)
    requires j in m.rings && m.rings[j].age.Some? && key in m.rings && j in order && key in order
  {
    && MergesWithin(m.rings[key], n, timeout)
    && (Left(m.rings[j], timeout) < Left(m.rings[key], timeout) ||
        (Left(m.rings[j], timeout) == Left(m.rings[key], timeout) && Place(order, j) < Place(order, key)))
  }

  /** No other ring completes a pending merge within n seconds without being written over by this one's own merge. */
  ghost predicate Undisturbed(m: Managed, order: seq<ServiceKey>, key: ServiceKey, n: nat, timeout: nat)
    requires Visits(order, m) && key in m.rings
  {
    forall j :: j in m.rings && j != key && MergesWithin(m.rings[j], n, timeout) ==>
      WrittenBefore(m, order, j, key, n, timeout)
  }

  lemma {:induction false} LastDueIs(rings: map<ServiceKey, CH.Rings>, order: seq<ServiceKey>, timeout: nat, p: nat)
    requires p < |order| && order[p] in rings && Due(rings[order[p]], timeout)
    requires forall q :: p < q < |order| ==> !(order[q] in rings && Due(rings[order[q]], timeout))
    ensures LastDue(rings, order, timeout) == Some(order[p])
  {
    if p < |order| - 1 {
      LastDueIs(rings, order[..|order| - 1], timeout, p);
    }
  }

  lemma {:induction false} NothingDue(rings: map<ServiceKey, CH.Rings>, order: seq<ServiceKey>, timeout: nat)
    requires forall q :: 0 <= q < |order| ==> !(order[q] in rings && Due(rings[order[q]], timeout))
    ensures LastDue(rings, order, timeout) == None
  {
    if order != [] {
      NothingDue(rings, order[..|order| - 1], timeout);
    }
  }

  lemma {:induction false} LastDueIsLast(rings: map<ServiceKey, CH.Rings>, order: seq<ServiceKey>, timeout: nat)
    returns (p: nat)
    requires LastDue(rings, order, timeout).Some?
    ensures p < |order| && LastDue(rings, order, timeout) == Some(order[p])
    ensures forall q :: p < q < |order| ==> !(order[q] in rings && Due(rings[order[q]], timeout))
  {
    var last := order[|order| - 1];
    if last in rings && Due(rings[last], timeout) {
      p := |order| - 1;
    } else {
      p := LastDueIsLast(rings, order[..|order| - 1], timeout);
    }
  }

  lemma PlaceOf(order: seq<ServiceKey>, m: Managed, p: nat)
    requires Visits(order, m) && p < |order|
    ensures Place(order, order[p]) == p
  {
  }

  lemma QuietSecond(m: Managed, order: seq<ServiceKey>, key: ServiceKey, n: nat, timeout: nat)
    requires Visits(order, m) && key in m.rings
    requires forall j :: j in m.rings && m.rings[j].age.Some? ==> Left(m.rings[j], timeout) != n + 1
    ensures Undisturbed(m, order, key, n + 1, timeout) <==> Undisturbed(m, order, key, n, timeout)
  {
    hide Left, Place, Visits;
    forall j | j in m.rings && j != key && m.rings[j].age.Some? && MergesWithin(m.rings[j], n, timeout) &&
      j in order && key in order
      ensures WrittenBefore(m, order, j, key, n, timeout) <==> WrittenBefore(m, order, j, key, n + 1, timeout)
    {
    }
  }

  lemma OwnSecond(m: Managed, order: seq<ServiceKey>, p: nat, n: nat, timeout: nat)
    requires Visits(order, m) && p < |order| && m.rings[order[p]].age.Some? && Left(m.rings[order[p]], timeout) == n
    requires forall q :: p < q < |order| ==> !(m.rings[order[q]].age.Some? && Left(m.rings[order[q]], timeout) == n)
    ensures Undisturbed(m, order, order[p], n, timeout)
  {
    PlaceOf(order, m, p);
    hide Left;
    forall j | j in m.rings && j != order[p] && MergesWithin(m.rings[j], n, timeout)
      ensures WrittenBefore(m, order, j, order[p], n, timeout)
    {
      assert order[Place(order, j)] == j;
    }
  }

  lemma OthersSecond(m: Managed, order: seq<ServiceKey>, key: ServiceKey, p: nat, n: nat, timeout: nat)
    requires Visits(order, m) && key in m.rings && p < |order| && order[p] != key
    requires m.rings[order[p]].age.Some? && Left(m.rings[order[p]], timeout) == n
    requires forall q :: p < q < |order| ==> !(m.rings[order[q]].age.Some? && Left(m.rings[order[q]], timeout) == n)
    ensures !Undisturbed(m, order, key, n, timeout)
  {
    PlaceOf(order, m, p);
    hide Left;
    assert order[Place(order, key)] == key;
    assert MergesWithin(m.rings[order[p]], n, timeout);
    assert !WrittenBefore(m, order, order[p], key, n, timeout);
  }

  lemma DueByPlace(m: Managed, order: seq<ServiceKey>, n: nat, timeout: nat)
    requires Visits(order, m)
    ensures var t := Seconds(m, order, n, timeout);
      forall q :: 0 <= q < |order| ==>
        (order[q] in t.rings && Due(t.rings[order[q]], timeout) <==>
          m.rings[order[q]].age.Some? && Left(m.rings[order[q]], timeout) == n + 1)
  {
    forall q | 0 <= q < |order|
      ensures var t := Seconds(m, order, n, timeout);
        order[q] in t.rings && Due(t.rings[order[q]], timeout) <==>
          m.rings[order[q]].age.Some? && Left(m.rings[order[q]], timeout) == n + 1
    {
      DueInSecond(m, order, n, timeout, order[q]);
    }
  }

  lemma ShownInSecond(t: Managed, order: seq<ServiceKey>, key: ServiceKey, timeout: nat)
    requires key in t.rings && Fits(t.rings[key].active)
    ensures Maintain(t, order, timeout).shown == Ring(key) <==>
      match LastDue(t.rings, order, timeout)
      case None => t.shown == Ring(key)
      case Some(k) => k == key
  {
  }

  lemma DueDecides(m: Managed, order: seq<ServiceKey>, key: ServiceKey, n: nat, timeout: nat)
    requires Visits(order, m) && key in m.rings
    ensures var t := Seconds(m, order, n, timeout);
      Undisturbed(m, order, key, n + 1, timeout) <==>
        match LastDue(t.rings, order, timeout)
        case None => Undisturbed(m, order, key, n, timeout)
        case Some(k) => k == key
  {
    var t := Seconds(m, order, n, timeout);
    DueByPlace(m, order, n, timeout);
    hide Due, Left, Undisturbed, Place, Seconds;
    match LastDue(t.rings, order, timeout)
    case None =>
      NoneLeft(m, t, order, n, timeout);
      QuietSecond(m, order, key, n, timeout);
    case Some(k) =>
      var p := LastDueIsLast(t.rings, order, timeout);
      if k == key {
        OwnSecond(m, order, p, n + 1, timeout);
      } else {
        OthersSecond(m, order, key, p, n + 1, timeout);
      }
  }

  lemma ShownOneSecondOn(m: Managed, order: seq<ServiceKey>, key: ServiceKey, n: nat, timeout: nat)
    requires Visits(order, m) && key in m.rings && Fits(m.rings[key].active)
    requires Seconds(m, order, n, timeout).shown == Ring(key) <==> Undisturbed(m, order, key, n, timeout)
    ensures Seconds(m, order, n + 1, timeout).shown == Ring(key) <==> Undisturbed(m, order, key, n + 1, timeout)
  {
    var t := Seconds(m, order, n, timeout);
    assert Seconds(m, order, n + 1, timeout) == Maintain(t, order, timeout);
    RingAfterSeconds(m, order, n, timeout, key);
    hide Undisturbed, Maintain, LastDue, Seconds, Fits, Visits;
    DueDecides(m, order, key, n, timeout);
    ShownInSecond(t, order, key, timeout);
  }

  /**
   Exactly when the maps still show a ring n seconds on: every other pending merge that completes by then is
   followed by the ring's own merge, in a later second or later in the same one.
   */
  lemma {:induction false} ShownAfterSeconds(m: Managed, order: seq<ServiceKey>, key: ServiceKey, n: nat, timeout: nat)
    requires Visits(order, m) && key in m.rings && m.shown == Ring(key) && Fits(m.rings[key].active)
    ensures Seconds(m, order, n, timeout).shown == Ring(key) <==> Undisturbed(m, order, key, n, timeout)
  {
    if n > 0 {
      ShownAfterSeconds(m, order, key, n - 1, timeout);
      hide Undisturbed, Seconds, Visits, Fits;
      ShownOneSecondOn(m, order, key, n - 1, timeout);
    }
  }

  lemma NoneLeft(m: Managed, t: Managed, order: seq<ServiceKey>, n: nat, timeout: nat)
    requires Visits(order, m) && LastDue(t.rings, order, timeout).None?
    requires forall q :: 0 <= q < |order| ==>
      (order[q] in t.rings && Due(t.rings[order[q]], timeout) <==>
        m.rings[order[q]].age.Some? && Left(m.rings[order[q]], timeout) == n + 1)
    ensures forall j :: j in m.rings && m.rings[j].age.Some? ==> Left(m.rings[j], timeout) != n + 1
  {
    forall j | j in m.rings && m.rings[j].age.Some? ensures Left(m.rings[j], timeout) != n + 1 {
      var q :| 0 <= q < |order| && order[q] == j;
      NotDueAt(t.rings, order, timeout, q);
    }
  }

  lemma {:induction false} NotDueAt(rings: map<ServiceKey, CH.Rings>, order: seq<ServiceKey>, timeout: nat, q: nat)
    requires q < |order| && LastDue(rings, order, timeout).None?
    ensures !(order[q] in rings && Due(rings[order[q]], timeout))
  {
    if q < |order| - 1 {
      NotDueAt(rings, order[..|order| - 1], timeout, q);
    }
  }

  /** In particular after a reload whose last ring is this one: it is shown until another ring's merge completes. */
  lemma ReloadedRingIsShown(before: Managed, es: seq<Entry>, order: seq<ServiceKey>, n: nat, timeout: nat)
    requires es != [] && es[|es| - 1].backends != [] && Fits(es[|es| - 1].backends)
    requires Visits(order, Reload(before, es)) && n < timeout
    ensures var (m, key) := (Reload(before, es), es[|es| - 1].key);
      && m.shown == Ring(key) && key in m.rings && m.rings[key].active == es[|es| - 1].backends
      && (Seconds(m, order, n, timeout).shown == Ring(key) <==>
            forall j :: j in m.rings && j != key ==> !MergesWithin(m.rings[j], n, timeout))
  {
    var (m, key) := (Reload(before, es), es[|es| - 1].key);
    assert m.rings[key].age == Some(0) && !MergesWithin(m.rings[key], n, timeout);
    ShownAfterSeconds(m, order, key, n, timeout);
  }

  // ---- A ring that left the configuration takes the maps over ----

  lemma {:induction false} SecondsAdd(m: Managed, order: seq<ServiceKey>, n: nat, k: nat, timeout: nat)
    ensures Seconds(Seconds(m, order, n, timeout), order, k, timeout) == Seconds(m, order, n + k, timeout)
  {
    if k > 0 {
      SecondsAdd(m, order, n, k - 1, timeout);
      assert n + k - 1 == n + (k - 1);
    }
  }

  /** Ring a alone, then after d seconds ring b alone. */
  function HandedOver(a: Entry, b: Entry, d: nat, timeout: nat): Managed {
    Reload(Seconds(Reload(NOTHING, [a]), [a.key], d, timeout), [b])
  }

  lemma ReloadOne(m: Managed, e: Entry)
    ensures Reload(m, [e]) == Refresh(m, e)
  {
    assert [e][..0] == [];
    assert Reload(m, []) == m;
  }

  lemma HandoverState(a: Entry, b: Entry, d: nat, timeout: nat)
    requires a.key != b.key && a.backends != [] && b.backends != [] && d < timeout && Fits(b.backends)
    ensures var m := HandedOver(a, b, d, timeout);
      && m.rings.Keys == {a.key, b.key} && m.shown == Ring(b.key)
      && m.rings[a.key].active == a.backends && m.rings[a.key].age == Some(d)
      && m.rings[b.key].active == b.backends && m.rings[b.key].age == Some(0)
  {
    ReloadOne(NOTHING, a);
    var first := Reload(NOTHING, [a]);
    RingAfterSeconds(first, [a.key], d, timeout, a.key);
    ReloadOne(Seconds(first, [a.key], d, timeout), b);
  }

  /**
   The departed ring takes the maps over as soon as its merge completes, timeout - d seconds after it left the
   configuration, and keeps them until the configured ring's own merge.
   */
  lemma DepartedRingTakesOver(a: Entry, b: Entry, d: nat, n: nat, order: seq<ServiceKey>, timeout: nat)
    requires a.key != b.key && a.backends != [] && b.backends != [] && Fits(a.backends) && Fits(b.backends)
    requires 0 < d < timeout && Visits(order, HandedOver(a, b, d, timeout))
    ensures Seconds(HandedOver(a, b, d, timeout), order, n, timeout).shown ==
      if timeout - d <= n < timeout then Ring(a.key) else Ring(b.key)
  {
    HandoverState(a, b, d, timeout);
    hide HandedOver, Visits, Seconds, Fits;
    BothMerge(HandedOver(a, b, d, timeout), a.key, b.key, n, d, order, timeout);
  }

  lemma BothMerge(m: Managed, a: ServiceKey, b: ServiceKey, n: nat, d: nat, order: seq<ServiceKey>, timeout: nat)
    requires a != b && m.rings.Keys == {a, b} && Visits(order, m) && 0 < d < timeout && m.shown == Ring(b)
    requires m.rings[a].age == Some(d) && m.rings[b].age == Some(0)
    requires Fits(m.rings[a].active) && Fits(m.rings[b].active)
    ensures Seconds(m, order, n, timeout).shown == if timeout - d <= n < timeout then Ring(a) else Ring(b)
  {
    hide Visits, Left, Seconds, Fits;
    if timeout - d <= n {
      TakeoverSecond(m, a, b, d, order, timeout);
      TakeoverLasts(Seconds(m, order, timeout - d, timeout), a, b, n - (timeout - d), d, order, timeout);
      SecondsAdd(m, order, timeout - d, n - (timeout - d), timeout);
    } else {
      NotYetTakenOver(m, a, b, n, d, order, timeout);
    }
  }

  lemma NotYetTakenOver(m: Managed, a: ServiceKey, b: ServiceKey, n: nat, d: nat, order: seq<ServiceKey>, timeout: nat)
    requires m.rings.Keys == {a, b} && Visits(order, m) && n < timeout - d && m.shown == Ring(b)
    requires m.rings[a].age == Some(d) && Fits(m.rings[b].active)
    ensures Seconds(m, order, n, timeout).shown == Ring(b)
  {
    ShownAfterSeconds(m, order, b, n, timeout);
    hide Seconds;
  }

  /** The departed ring, just written and settled, is shown until the configured ring merges d seconds later. */
  lemma TakeoverLasts(taken: Managed, a: ServiceKey, b: ServiceKey, n: nat, d: nat, order: seq<ServiceKey>,
                      timeout: nat)
    requires a != b && taken.rings.Keys == {a, b} && Visits(order, taken) && 0 < d < timeout
    requires taken.shown == Ring(a) && taken.rings[a].age == None && taken.rings[b].age == Some(timeout - d)
    requires Fits(taken.rings[a].active) && Fits(taken.rings[b].active)
    ensures Seconds(taken, order, n, timeout).shown == if n < d then Ring(a) else Ring(b)
    decreases n
  {
    ShownAfterSeconds(taken, order, a, n, timeout);
    assert Left(taken.rings[b], timeout) == d;
    if n == d {
      MergeSecond(taken, b, d - 1, order, timeout);
    } else if n > d {
      TakeoverLasts(taken, a, b, n - 1, d, order, timeout);
      NothingLeftToMerge(taken, a, b, n - 1, d, order, timeout);
    }
  }

  lemma NothingLeftToMerge(m: Managed, a: ServiceKey, b: ServiceKey, n: nat, d: nat, order: seq<ServiceKey>,
                           timeout: nat)
    requires m.rings.Keys == {a, b} && Visits(order, m) && 0 < d < timeout && n >= d
    requires m.rings[a].age == None && m.rings[b].age == Some(timeout - d)
    ensures Seconds(m, order, n + 1, timeout).shown == Seconds(m, order, n, timeout).shown
  {
    RingAfterSeconds(m, order, n, timeout, a);
    RingAfterSeconds(m, order, n, timeout, b);
    NothingDue(Seconds(m, order, n, timeout).rings, order, timeout);
  }

  /** The only ring due in the second after n others is written then. */
  lemma MergeSecond(m: Managed, key: ServiceKey, n: nat, order: seq<ServiceKey>, timeout: nat)
    requires Visits(order, m) && key in m.rings && m.rings[key].age.Some? && Left(m.rings[key], timeout) == n + 1
    requires forall j :: j in m.rings && j != key && m.rings[j].age.Some? ==> Left(m.rings[j], timeout) != n + 1
    requires Fits(m.rings[key].active)
    ensures Seconds(m, order, n + 1, timeout).shown == Ring(key)
  {
    var t := Seconds(m, order, n, timeout);
    assert Seconds(m, order, n + 1, timeout) == Maintain(t, order, timeout);
    DueByPlace(m, order, n, timeout);
    RingAfterSeconds(m, order, n, timeout, key);
    hide Seconds, Due, Left;
    var p := Place(order, key);
    forall q | p < q < |order| ensures !(order[q] in t.rings && Due(t.rings[order[q]], timeout)) {
      assert order[q] != order[p];
    }
    LastDueIs(t.rings, order, timeout, p);
  }

  lemma TakeoverSecond(m: Managed, a: ServiceKey, b: ServiceKey, d: nat, order: seq<ServiceKey>, timeout: nat)
    requires a != b && m.rings.Keys == {a, b} && Visits(order, m) && 0 < d < timeout
    requires m.rings[a].age == Some(d) && Fits(m.rings[a].active) && m.rings[b].age == Some(0)
    ensures var taken := Seconds(m, order, timeout - d, timeout);
      && taken.rings.Keys == m.rings.Keys && taken.shown == Ring(a) && taken.rings[a].active == m.rings[a].active
      && taken.rings[a].age == None && taken.rings[b].age == Some(timeout - d)
      && taken.rings[b].active == m.rings[b].active && Visits(order, taken)
  {
    assert Left(m.rings[a], timeout) == timeout - d && Left(m.rings[b], timeout) == timeout;
    MergeSecond(m, a, timeout - d - 1, order, timeout);
    RingAfterSeconds(m, order, timeout - d, timeout, a);
    RingAfterSeconds(m, order, timeout - d, timeout, b);
  }
}
