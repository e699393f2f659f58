/** Backend selection on one service's slice of the backend array: round robin and weighted round robin. */
module Selection {
  import NumberTheory
  import opened Schedule
  import opened XdpTypes

  const RR_ATTEMPTS: nat := 4
  const WRR_ATTEMPTS: nat := 32

  /** Array position of a service's i-th backend, in 32-bit arithmetic. */
  function Index(info: ServiceInfo, i: nat): nat {
    (info.backendStart + i) % U32
  }

  /** The service's slice is nonempty and lies inside the array. */
  predicate SliceFits(bs: seq<Backend>, info: ServiceInfo) {
    0 < info.backendCount && info.backendStart + info.backendCount <= |bs| < U32
  }

  predicate ActiveAt(bs: seq<Backend>, info: ServiceInfo, i: nat)
    requires SliceFits(bs, info) && i < info.backendCount
  {
    bs[info.backendStart + i].active
  }

  // ---- Round robin ----

  function RrNext(cursor: nat, count: nat): nat {
    var next := (cursor + 1) % U32;
    if next >= count then 0 else next
  }

  /** The retry loop: the new cursor, and the array position of the backend if one is found. */
  function RrSearch(bs: seq<Backend>, info: ServiceInfo, cursor: nat, attempts: nat): (nat, Option<nat>)
    decreases RR_ATTEMPTS + 1 - attempts
  {
    var next := RrNext(cursor, info.backendCount);
    var idx := Index(info, next);
    if attempts + 1 > RR_ATTEMPTS || idx >= |bs| then (next, None)
    else if bs[idx].active then (next, Some(idx))
    else RrSearch(bs, info, next, attempts + 1)
  }

  /** The position d steps after the cursor, cyclically. */
  function Ahead(cursor: nat, d: nat, n: nat): (p: nat)
    requires n > 0
    ensures p < n
  {
    (cursor + d) % n
  }

  lemma RrNextIsAhead(cursor: nat, n: nat)
    requires cursor < n < U32
    ensures RrNext(cursor, n) == Ahead(cursor, 1, n)
  {
    NumberTheory.SmallMod(cursor + 1, U32);
    if cursor + 1 < n {
      NumberTheory.SmallMod(cursor + 1, n);
    } else {
      NumberTheory.DivModUnique(n, n, 1, 0);
    }
  }

  lemma AheadStep(cursor: nat, d: nat, n: nat)
    requires n > 0
    ensures Ahead(Ahead(cursor, 1, n), d, n) == Ahead(cursor, d + 1, n)
  {
    var q := (cursor + 1) / n;
    NumberTheory.DivModUnique(cursor + d + 1, n, q + ((cursor + 1) % n + d) / n, ((cursor + 1) % n + d) % n);
  }

  lemma AheadZero(x: nat, n: nat)
    requires x < n
    ensures Ahead(x, 0, n) == x
  {
    NumberTheory.SmallMod(x, n);
  }

  predicate ActiveAhead(bs: seq<Backend>, info: ServiceInfo, cursor: nat, d: nat)
    requires SliceFits(bs, info)
  {
    ActiveAt(bs, info, Ahead(cursor, d, info.backendCount))
  }

  lemma RrOneStep(bs: seq<Backend>, info: ServiceInfo, cursor: nat, attempts: nat)
    requires SliceFits(bs, info) && cursor < info.backendCount
    ensures var next := Ahead(cursor, 1, info.backendCount);
      RrSearch(bs, info, cursor, attempts) ==
        if attempts >= RR_ATTEMPTS then (next, None)
        else if ActiveAhead(bs, info, cursor, 1) then (next, Some(info.backendStart + next))
        else RrSearch(bs, info, next, attempts + 1)
    ensures forall d: nat ::
      ActiveAhead(bs, info, Ahead(cursor, 1, info.backendCount), d) == ActiveAhead(bs, info, cursor, d + 1)
  {
    RrNextIsAhead(cursor, info.backendCount);
    NumberTheory.SmallMod(info.backendStart + RrNext(cursor, info.backendCount), U32);
    forall d: nat
      ensures ActiveAhead(bs, info, Ahead(cursor, 1, info.backendCount), d) == ActiveAhead(bs, info, cursor, d + 1)
    {
      AheadStep(cursor, d, info.backendCount);
    }
  }

  /** The first active backend after the cursor, at distance d, is found when d is within the attempts left. */
  lemma {:induction false} RrFinds(bs: seq<Backend>, info: ServiceInfo, cursor: nat, attempts: nat, d: nat)
    requires SliceFits(bs, info) && cursor < info.backendCount
    requires 1 <= d && attempts + d <= 4
    requires ActiveAhead(bs, info, cursor, d)
    requires forall e :: 1 <= e < d ==> !ActiveAhead(bs, info, cursor, e)
    ensures var found := Ahead(cursor, d, info.backendCount);
      RrSearch(bs, info, cursor, attempts) == (found, Some(info.backendStart + found))
    decreases d
  {
    hide ActiveAhead, Ahead, RrSearch;
    RrOneStep(bs, info, cursor, attempts);
    if d > 1 {
      var next := Ahead(cursor, 1, info.backendCount);
      forall e | 1 <= e < d - 1 ensures !ActiveAhead(bs, info, next, e) {
        assert ActiveAhead(bs, info, next, e) == ActiveAhead(bs, info, cursor, e + 1);
      }
      assert ActiveAhead(bs, info, next, d - 1) == ActiveAhead(bs, info, cursor, d - 1 + 1);
      AheadStep(cursor, d - 1, info.backendCount);
      RrFinds(bs, info, next, attempts + 1, d - 1);
    }
  }

  /** With nobody active in the positions left, the search gives up one past the last position it tried. */
  lemma {:induction false} RrGivesUp(bs: seq<Backend>, info: ServiceInfo, cursor: nat, attempts: nat)
    requires SliceFits(bs, info) && cursor < info.backendCount && attempts <= RR_ATTEMPTS
    requires forall e :: 1 <= e <= RR_ATTEMPTS - attempts ==> !ActiveAhead(bs, info, cursor, e)
    ensures RrSearch(bs, info, cursor, attempts) ==
      (Ahead(cursor, RR_ATTEMPTS + 1 - attempts, info.backendCount), None)
    decreases RR_ATTEMPTS - attempts
  {
    hide ActiveAhead, Ahead, RrSearch;
    RrOneStep(bs, info, cursor, attempts);
    if attempts < RR_ATTEMPTS {
      var next := Ahead(cursor, 1, info.backendCount);
      forall e | 1 <= e <= RR_ATTEMPTS - attempts - 1 ensures !ActiveAhead(bs, info, next, e) {
        assert ActiveAhead(bs, info, next, e) == ActiveAhead(bs, info, cursor, e + 1);
      }
      AheadStep(cursor, RR_ATTEMPTS - attempts, info.backendCount);
      RrGivesUp(bs, info, next, attempts + 1);
    }
  }

  /** The search fails exactly when none of the next four backends is active. */
  lemma RrFailsExactly(bs: seq<Backend>, info: ServiceInfo, cursor: nat)
    requires SliceFits(bs, info) && cursor < info.backendCount
    ensures RrSearch(bs, info, cursor, 0).1 == None <==> !ActiveSoon(bs, info, cursor)
  {
    hide ActiveAhead, Ahead, RrSearch;
    if ActiveSoon(bs, info, cursor) {
      var far :| 1 <= far <= RR_ATTEMPTS && ActiveAhead(bs, info, cursor, far);
      var d := NearestActive(bs, info, cursor, far);
      RrFinds(bs, info, cursor, 0, d);
    } else {
      RrGivesUp(bs, info, cursor, 0);
    }
  }

  /** Weight 1 for each active backend of the slice. */
  function Ones(bs: seq<Backend>, info: ServiceInfo): seq<nat>
    requires SliceFits(bs, info)
  {
    seq(info.backendCount, i requires 0 <= i < info.backendCount => if ActiveAt(bs, info, i) then 1 else 0)
  }

  /** The schedule position from which entry x is next in line, k of its turns being used up. */
  function Position(w: seq<nat>, x: nat, k: nat): nat
    requires x < |w| && Total(w) > 0
  {
    (Prefix(w, x) + k) % Total(w)
  }

  lemma SomeWeight(w: seq<nat>, i: nat)
    requires i < |w| && w[i] > 0
    ensures Total(w) > 0 && Prefix(w, i) + w[i] <= Total(w)
  {
    PrefixGrows(w, i + 1, |w|);
  }

  /** Using up an entry's turns leads to the entry after it. */
  lemma EntryUsedUp(w: seq<nat>, x: nat)
    requires x < |w| && Total(w) > 0
    ensures Position(w, x, w[x]) == Position(w, Ahead(x, 1, |w|), 0)
  {
    if x + 1 < |w| {
      NumberTheory.SmallMod(x + 1, |w|);
    } else {
      NumberTheory.DivModUnique(|w|, |w|, 1, 0);
      NumberTheory.DivModUnique(Total(w), Total(w), 1, 0);
      NumberTheory.SmallMod(0, Total(w));
    }
  }

  /** A turn of entry x: the position names x, and taking the turn moves one position on. */
  lemma TurnOfEntry(w: seq<nat>, x: nat, k: nat)
    requires x < |w| && k < w[x]
    ensures Total(w) > 0 && Holder(w, Position(w, x, k)) == x
    ensures Position(w, x, k + 1) == (Position(w, x, k) + 1) % Total(w)
  {
    SomeWeight(w, x);
    NumberTheory.SmallMod(Prefix(w, x) + k, Total(w));
    HolderIs(w, Prefix(w, x) + k, x);
  }

  lemma {:induction false} RrFollowsFrom(bs: seq<Backend>, info: ServiceInfo, cursor: nat, d: nat)
    requires SliceFits(bs, info) && cursor < info.backendCount
    requires 1 <= d && ActiveAhead(bs, info, cursor, d)
    requires forall e :: 1 <= e < d ==> !ActiveAhead(bs, info, cursor, e)
    ensures var (w, n) := (Ones(bs, info), info.backendCount);
      && Total(w) > 0
      && Holder(w, Position(w, Ahead(cursor, 1, n), 0)) == Ahead(cursor, d, n)
      && Position(w, Ahead(Ahead(cursor, d, n), 1, n), 0) == (Position(w, Ahead(cursor, 1, n), 0) + 1) % Total(w)
    decreases d
  {
    var w, n := Ones(bs, info), info.backendCount;
    var next := Ahead(cursor, 1, n);
    SomeWeight(w, Ahead(cursor, d, n));
    if d == 1 {
      TurnOfEntry(w, next, 0);
      EntryUsedUp(w, next);
    } else {
      RrOneStep(bs, info, cursor, 0);
      assert !ActiveAhead(bs, info, cursor, 1);
      EntryUsedUp(w, next);
      hide ActiveAhead, Ahead, Position;
      forall e | 1 <= e < d - 1 ensures !ActiveAhead(bs, info, next, e) {
        assert ActiveAhead(bs, info, next, e) == ActiveAhead(bs, info, cursor, e + 1);
      }
      assert ActiveAhead(bs, info, next, d - 1) == ActiveAhead(bs, info, cursor, d - 1 + 1);
      AheadStep(cursor, d - 1, n);
      RrFollowsFrom(bs, info, next, d - 1);
    }
  }

  ghost predicate ActiveSoon(bs: seq<Backend>, info: ServiceInfo, p: nat)
    requires SliceFits(bs, info)
  {
    exists d :: 1 <= d <= 4 && ActiveAhead(bs, info, p, d)
  }

  /** Among any four cyclically consecutive backends one is active. */
  ghost predicate NoLongGap(bs: seq<Backend>, info: ServiceInfo)
    requires SliceFits(bs, info)
  {
    forall p :: 0 <= p < info.backendCount ==> ActiveSoon(bs, info, p)
  }

  lemma NearestActive(bs: seq<Backend>, info: ServiceInfo, p: nat, far: nat) returns (d: nat)
    requires SliceFits(bs, info) && 1 <= far && ActiveAhead(bs, info, p, far)
    ensures 1 <= d <= far && ActiveAhead(bs, info, p, d)
    ensures forall e :: 1 <= e < d ==> !ActiveAhead(bs, info, p, e)
  {
    d := 1;
    while !ActiveAhead(bs, info, p, d)
      invariant 1 <= d <= far
      decreases far - d
      invariant forall e :: 1 <= e < d ==> !ActiveAhead(bs, info, p, e)
    {
      d := d + 1;
    }
  }

  /** Without long gaps every round-robin search takes the next turn of the schedule of equal weights. */
  lemma RrTakesNextTurn(bs: seq<Backend>, info: ServiceInfo, cursor: nat)
    requires SliceFits(bs, info) && NoLongGap(bs, info) && cursor < info.backendCount
    ensures var (w, n) := (Ones(bs, info), info.backendCount);
      var (cursor', found) := RrSearch(bs, info, cursor, 0);
      && Total(w) > 0 && cursor' < n
      && found == Some(info.backendStart + Holder(w, Position(w, Ahead(cursor, 1, n), 0)))
      && Position(w, Ahead(cursor', 1, n), 0) == (Position(w, Ahead(cursor, 1, n), 0) + 1) % Total(w)
  {
    assert ActiveSoon(bs, info, cursor);
    var far :| 1 <= far <= RR_ATTEMPTS && ActiveAhead(bs, info, cursor, far);
    hide ActiveAhead, Ahead, Position, RrSearch;
    var d := NearestActive(bs, info, cursor, far);
    RrFinds(bs, info, cursor, 0, d);
    RrFollowsFrom(bs, info, cursor, d);
  }

  // ---- Weighted round robin ----

  datatype WrrState = WrrState(index: nat, counter: nat)

  /** The attempts loop: the new state, and the array position of the backend if one is found. */
  function WrrSearch(bs: seq<Backend>, info: ServiceInfo, st: WrrState, attempts: nat): (WrrState, Option<nat>)
    decreases WRR_ATTEMPTS - attempts
  {
    if attempts >= WRR_ATTEMPTS || attempts >= info.backendCount * 2 then (st, None)
    else
      var idx := Index(info, st.index);
      var next := WrrState((st.index + 1) % info.backendCount, 0);
      if idx < |bs| && bs[idx].active && bs[idx].weight > 0 then
        (if st.counter + 1 < bs[idx].weight then st.(counter := st.counter + 1) else next, Some(idx))
      else WrrSearch(bs, info, next, attempts + 1)
  }

  /** Each active backend's configured weight; inactive ones weigh nothing. */
  function Weights(bs: seq<Backend>, info: ServiceInfo): (w: seq<nat>)
    requires SliceFits(bs, info)
    ensures |w| == info.backendCount
  {
    seq(info.backendCount, i requires 0 <= i < info.backendCount =>
      if ActiveAt(bs, info, i) then bs[info.backendStart + i].weight else 0)
  }

  /** Reachable states: a backend's turns are never used beyond its weight. */
  predicate WrrStateOk(w: seq<nat>, st: WrrState) {
    st.index < |w| && (st.counter == 0 || st.counter < w[st.index])
  }

  lemma WrrOneStep(bs: seq<Backend>, info: ServiceInfo, st: WrrState, attempts: nat)
    requires SliceFits(bs, info) && st.index < info.backendCount
    requires attempts < WRR_ATTEMPTS && attempts < info.backendCount * 2
    ensures var next := WrrState(Ahead(st.index, 1, info.backendCount), 0);
      var weight := Weights(bs, info)[st.index];
      WrrSearch(bs, info, st, attempts) ==
        if weight > 0 then
          (if st.counter + 1 < weight then st.(counter := st.counter + 1) else next, Some(info.backendStart + st.index))
        else WrrSearch(bs, info, next, attempts + 1)
  {
    NumberTheory.SmallMod(info.backendStart + st.index, U32);
  }

  /** The search outcome is the schedule's next turn, and leaves the schedule one position on. */
  ghost predicate TakesTurn(w: seq<nat>, start: nat, st: WrrState, outcome: (WrrState, Option<nat>)) {
    && WrrStateOk(w, st) && WrrStateOk(w, outcome.0) && Total(w) > 0
    && outcome.1 == Some(start + Holder(w, Position(w, st.index, st.counter)))
    && Position(w, outcome.0.index, outcome.0.counter) == (Position(w, st.index, st.counter) + 1) % Total(w)
  }

  lemma WrrTakesOwnTurn(bs: seq<Backend>, info: ServiceInfo, st: WrrState, attempts: nat)
    requires SliceFits(bs, info) && WrrStateOk(Weights(bs, info), st) && Weights(bs, info)[st.index] > 0
    requires attempts < WRR_ATTEMPTS && attempts < info.backendCount * 2
    ensures TakesTurn(Weights(bs, info), info.backendStart, st, WrrSearch(bs, info, st, attempts))
  {
    var w := Weights(bs, info);
    SomeWeight(w, st.index);
    WrrOneStep(bs, info, st, attempts);
    EntryUsedUp(w, st.index);
    TurnOfEntry(w, st.index, st.counter);
    hide Ahead, Position, Total, Holder, Weights, WrrSearch;
  }

  lemma WrrSkips(bs: seq<Backend>, info: ServiceInfo, st: WrrState, attempts: nat)
    requires SliceFits(bs, info) && WrrStateOk(Weights(bs, info), st) && Weights(bs, info)[st.index] == 0
    requires attempts < WRR_ATTEMPTS && attempts < info.backendCount * 2 && Total(Weights(bs, info)) > 0
    ensures var (w, next) := (Weights(bs, info), WrrState(Ahead(st.index, 1, info.backendCount), 0));
      && WrrStateOk(w, next)
      && WrrSearch(bs, info, st, attempts) == WrrSearch(bs, info, next, attempts + 1)
      && Position(w, next.index, 0) == Position(w, st.index, st.counter)
  {
    WrrOneStep(bs, info, st, attempts);
    EntryUsedUp(Weights(bs, info), st.index);
  }

  /** With an eligible backend within the attempts left, the search takes the next turn of the weighted schedule. */
  lemma {:induction false} WrrTakesNextTurn(bs: seq<Backend>, info: ServiceInfo, st: WrrState, attempts: nat, d: nat)
    requires SliceFits(bs, info) && WrrStateOk(Weights(bs, info), st)
    requires Weights(bs, info)[Ahead(st.index, d, info.backendCount)] > 0
    requires attempts + d < WRR_ATTEMPTS && attempts + d < info.backendCount * 2
    ensures TakesTurn(Weights(bs, info), info.backendStart, st, WrrSearch(bs, info, st, attempts))
    decreases d
  {
    hide Ahead, Position, Total, Prefix, Holder, WrrSearch, Weights;
    if Weights(bs, info)[st.index] > 0 {
      WrrTakesOwnTurn(bs, info, st, attempts);
    } else {
      SomeWeight(Weights(bs, info), Ahead(st.index, d, info.backendCount));
      AheadZero(st.index, info.backendCount);
      AheadStep(st.index, d - 1, info.backendCount);
      WrrSkips(bs, info, st, attempts);
      WrrTakesNextTurn(bs, info, WrrState(Ahead(st.index, 1, info.backendCount), 0), attempts + 1, d - 1);
    }
  }

  /** How many entries one weighted search looks at, at most. */
  function WrrTries(n: nat): nat {
    if n < 16 then 2 * n else 32
  }

  /** With nothing eligible in the attempts left, the search fails and leaves the state where it stopped looking. */
  lemma {:induction false} WrrGivesUp(bs: seq<Backend>, info: ServiceInfo, st: WrrState, attempts: nat)
    requires SliceFits(bs, info) && st.index < info.backendCount && attempts <= WrrTries(info.backendCount)
    requires forall e :: 0 <= e < WrrTries(info.backendCount) - attempts ==>
      Weights(bs, info)[Ahead(st.index, e, info.backendCount)] == 0
    ensures var (n, left) := (info.backendCount, WrrTries(info.backendCount) - attempts);
      WrrSearch(bs, info, st, attempts) == (if left == 0 then st else WrrState(Ahead(st.index, left, n), 0), None)
    decreases WrrTries(info.backendCount) - attempts
  {
    var w, n := Weights(bs, info), info.backendCount;
    if attempts < WrrTries(n) {
      WrrOneStep(bs, info, st, attempts);
      AheadZero(st.index, n);
      assert w[Ahead(st.index, 0, n)] == 0;
      var next := Ahead(st.index, 1, n);
      forall e | 0 <= e < WrrTries(n) - attempts - 1 ensures w[Ahead(next, e, n)] == 0 {
        AheadStep(st.index, e, n);
      }
      WrrGivesUp(bs, info, WrrState(next, 0), attempts + 1);
      AheadStep(st.index, WrrTries(n) - attempts - 1, n);
      AheadZero(next, n);
      hide WrrSearch, Ahead, Weights;
    }
  }

  /** Every entry lies less than one round ahead of any other. */
  lemma DistanceTo(x: nat, i: nat, n: nat) returns (d: nat)
    requires x < n && i < n
    ensures d < n && Ahead(x, d, n) == i
  {
    if x <= i {
      d := i - x;
      NumberTheory.SmallMod(i, n);
    } else {
      d := i + n - x;
      NumberTheory.DivModUnique(i + n, n, 1, i);
    }
  }

  /** Up to 32 backends, the search fails exactly when no backend is active with a positive weight. */
  lemma WrrFailsOnlyWhenNoneEligible(bs: seq<Backend>, info: ServiceInfo, st: WrrState)
    requires SliceFits(bs, info) && info.backendCount <= 32 && WrrStateOk(Weights(bs, info), st)
    ensures WrrSearch(bs, info, st, 0).1 == None <==>
      forall i :: 0 <= i < info.backendCount ==> Weights(bs, info)[i] == 0
  {
    if i :| 0 <= i < info.backendCount && Weights(bs, info)[i] > 0 {
      var d := DistanceTo(st.index, i, info.backendCount);
      WrrTakesNextTurn(bs, info, st, 0, d);
    } else {
      WrrGivesUp(bs, info, st, 0);
    }
  }
}
