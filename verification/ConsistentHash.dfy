/** One consistent-hash ring: the table fill, and the update / merge / clear / tick life cycle. */
module ConsistentHash {
  import NumberTheory
  import opened Maglev
  import opened XdpTypes

  const DEFAULT_RING_SIZE: nat := 65537
  const DEFAULT_MERGE_TICKS: nat := 180

  datatype InstanceConfig = InstanceConfig(ringSize: nat, mergeTicks: nat)

  /** Ring sizes are 32-bit primes whose slots fit a signed table entry. */
  ghost predicate ValidConfig(c: InstanceConfig) {
    NumberTheory.Prime(c.ringSize) && c.ringSize < 0x8000_0000 && c.mergeTicks < U32
  }

  /** The two seeded 32-bit hashes of a backend, left uninterpreted. */
  datatype Hashes = Hashes(first: Backend -> nat, second: Backend -> nat)

  function ListOf(b: Backend, m: nat, h: Hashes): seq<nat>
    requires m >= 2
  {
    Preferences(h.first(b) % m, h.second(b) % (m - 1) + 1, m)
  }

  function Lists(backends: seq<Backend>, m: nat, h: Hashes): seq<seq<nat>>
    requires m >= 2
  {
    seq(|backends|, i requires 0 <= i < |backends| => ListOf(backends[i], m, h))
  }

  /**
   The list goes from slot to slot: it starts at the first hash, and each step is one more than the second hash modulo
   one less than the ring size.
   */
  ghost predicate Walks(list: seq<nat>, firstHash: nat, secondHash: nat, m: nat)
    requires m >= 2
  {
    && |list| == m && list[0] == firstHash % m
    && forall j :: 0 <= j < m - 1 ==> list[j + 1] == (list[j] + secondHash % (m - 1) + 1) % m
  }

  lemma NextStep(offset: nat, skip: nat, m: nat, j: nat)
    requires m > 0
    ensures Choice(offset, skip, m, j + 1) == (Choice(offset, skip, m, j) + skip) % m
  {
    var x, q := offset + j * skip, (offset + j * skip) / m;
    assert offset + (j + 1) * skip == x + skip;
    NumberTheory.DivModUnique(x + skip, m, q + (x % m + skip) / m, (x % m + skip) % m);
  }

  lemma ListWalks(b: Backend, m: nat, h: Hashes)
    requires m >= 2
    ensures Walks(ListOf(b, m, h), h.first(b), h.second(b), m)
  {
    var list, offset, skip := ListOf(b, m, h), h.first(b) % m, h.second(b) % (m - 1) + 1;
    NumberTheory.SmallMod(offset, m);
    assert Choice(offset, skip, m, 0) == offset;
    hide Choice;
    forall j | 0 <= j < m - 1 ensures list[j + 1] == (list[j] + h.second(b) % (m - 1) + 1) % m {
      NextStep(offset, skip, m, j);
    }
  }

  /** There is only one such walk. */
  lemma WalkIsTheList(list: seq<nat>, b: Backend, m: nat, h: Hashes)
    requires m >= 2 && Walks(list, h.first(b), h.second(b), m)
    ensures list == ListOf(b, m, h)
  {
    var own := ListOf(b, m, h);
    ListWalks(b, m, h);
    hide ListOf;
    var j := 1;
    while j < m
      invariant 1 <= j <= m && list[..j] == own[..j]
    {
      assert list[j - 1] == list[..j][j - 1] == own[..j][j - 1] == own[j - 1];
      assert list[j] == (list[j - 1] + h.second(b) % (m - 1) + 1) % m;
      assert own[j] == (own[j - 1] + h.second(b) % (m - 1) + 1) % m;
      assert list[..j + 1] == list[..j] + [list[j]] && own[..j + 1] == own[..j] + [own[j]];
      j := j + 1;
    }
    assert list[..m] == list && own[..m] == own;
  }

  lemma EveryListIsComplete(backends: seq<Backend>, m: nat, h: Hashes)
    requires NumberTheory.Prime(m) && backends != []
    ensures AllPreferences(Lists(backends, m, h), m)
  {
    var lists := Lists(backends, m, h);
    forall i | 0 <= i < |lists| ensures IsPreferenceList(lists[i], m) {
      PrimeRingListsEverySlot(h.first(backends[i]) % m, h.second(backends[i]) % (m - 1) + 1, m);
    }
  }

  /** The table a backend list stands for; the empty list stands for the blank table. */
  ghost function Table(backends: seq<Backend>, m: nat, h: Hashes): (t: seq<int>)
    requires NumberTheory.Prime(m)
    ensures |t| == m
  {
    if backends == [] then seq(m, _ => -1)
    else
      EveryListIsComplete(backends, m, h);
      Ring(Lists(backends, m, h), m)
  }

  lemma TableEntries(backends: seq<Backend>, m: nat, h: Hashes)
    requires NumberTheory.Prime(m)
    ensures backends == [] ==> forall s :: 0 <= s < m ==> Table(backends, m, h)[s] == -1
    ensures backends != [] ==> forall s :: 0 <= s < m ==> 0 <= Table(backends, m, h)[s] < |backends|
  {
    if backends != [] {
      EveryListIsComplete(backends, m, h);
      RingIsFull(Lists(backends, m, h), m);
    }
  }

  /** Whatever the walk of turn t's backend reaches before the slot claimed was claimed in an earlier turn. */
  ghost predicate NobodyPassesOver(walks: seq<seq<nat>>, m: nat, claims: seq<nat>)
    requires walks != [] && |claims| == m && forall i :: 0 <= i < |walks| ==> |walks[i]| == m
  {
    forall t, rank :: 0 <= t < m && 0 <= rank < m && walks[t % |walks|][rank] == claims[t] ==>
      forall j :: 0 <= j < rank ==> walks[t % |walks|][j] in claims[..t]
  }

  /**
   The table from the hashes alone: let every backend walk the ring from its first hash on by its second, and let the
   slots be claimed in turn so that nobody passes over a free slot it reaches earlier. Then slot and owner are decided:
   turn k's slot names backend k modulo their number.
   */
  lemma TableIsDecided(backends: seq<Backend>, m: nat, h: Hashes, walks: seq<seq<nat>>, claims: seq<nat>)
    requires NumberTheory.Prime(m) && backends != [] && |walks| == |backends|
    requires forall i :: 0 <= i < |walks| ==>
      |walks[i]| == m && Walks(walks[i], h.first(backends[i]), h.second(backends[i]), m)
    requires |claims| == m && NumberTheory.Distinct(claims) && forall k :: 0 <= k < m ==> claims[k] < m
    requires NobodyPassesOver(walks, m, claims)
    ensures forall k :: 0 <= k < m ==> Table(backends, m, h)[claims[k]] == k % |backends|
  {
    var lists := Lists(backends, m, h);
    EveryListIsComplete(backends, m, h);
    forall i | 0 <= i < |backends| ensures walks[i] == lists[i] {
      WalkIsTheList(walks[i], backends[i], m, h);
    }
    assert walks == lists;
    hide ListOf, Lists, Walks, NumberTheory.Prime;
    assert NeverPassesOver(lists, m, claims);
    DraftIsUnique(lists, m, claims);
    AwardSlots(m, |lists|, claims);
  }

  lemma BlankTable(m: nat, h: Hashes)
    requires NumberTheory.Prime(m)
    ensures Table([], m, h) == seq(m, _ => -1)
  {
  }

  /** What holds of the working arrays once the given slots are claimed. */
  ghost predicate Filled(lists: seq<seq<nat>>, m: nat, claims: seq<nat>, tmp: seq<int>, curr: seq<int>, next: seq<nat>)
  {
    && |tmp| == |curr| == m && |next| == |lists|
    && (forall s :: 0 <= s < m ==> (tmp[s] >= 0 <==> s in claims))
    && (forall s :: 0 <= s < m && s in claims ==> curr[s] == tmp[s])
    && (forall i :: 0 <= i < |next| ==> next[i] <= m && ClaimedAbove(lists[i], next[i], claims))
  }

  lemma TurnDone(lists: seq<seq<nat>>, m: nat, claims: seq<nat>, i: nat, rank: nat,
                 tmp: seq<int>, curr: seq<int>, next: seq<nat>)
    requires i < |lists| && |lists[i]| == m && rank < m && lists[i][rank] < m
    requires Filled(lists, m, claims, tmp, curr, next) && ClaimedAbove(lists[i], rank, claims)
    ensures var slot := lists[i][rank];
      Filled(lists, m, claims + [slot], tmp[slot := i], curr[slot := i], next[i := rank + 1])
  {
    var slot, after := lists[i][rank], claims + [lists[i][rank]];
    assert forall s :: s in after <==> s in claims || s == slot;
    forall k | 0 <= k < |next|
      ensures next[i := rank + 1][k] <= m && ClaimedAbove(lists[k], next[i := rank + 1][k], after)
    {
    }
  }

  /** One backend's turn: skip the choices already taken, claim the next, and move past it. */
  method ClaimFirstFree(lists: seq<seq<nat>>, m: nat, ghost claims: seq<nat>, i: nat,
                  tmp: array<int>, curr: array<int>, next: array<nat>) returns (pos: nat)
    requires i < |lists| && IsPreferenceList(lists[i], m) && tmp != curr
    requires NumberTheory.Distinct(claims) && |claims| < m && forall k :: 0 <= k < |claims| ==> claims[k] < m
    requires Filled(lists, m, claims, tmp[..], curr[..], next[..])
    modifies tmp, curr, next
    ensures exists k :: 0 <= k < |lists[i]| && lists[i][k] !in claims
    ensures pos == lists[i][FirstFree(lists[i], claims, 0)]
    ensures tmp[..] == old(tmp[..])[pos := i]
    ensures Filled(lists, m, claims + [pos], tmp[..], curr[..], next[..])
  {
    ghost var tmp0, curr0, next0 := tmp[..], curr[..], next[..];
    SlotStillFree(lists[i], m, claims);
    ghost var free := FirstFree(lists[i], claims, 0);
    var rank := next[i];
    pos := lists[i][rank];
    while tmp[pos] >= 0
      invariant rank <= free && pos == lists[i][rank] && ClaimedAbove(lists[i], rank, claims)
      decreases m - rank
    {
      assert tmp0[pos] >= 0;
      rank := rank + 1;
      pos := lists[i][rank];
    }
    assert tmp0[pos] < 0;
    TurnDone(lists, m, claims, i, rank, tmp0, curr0, next0);
    tmp[pos] := i;
    curr[pos] := i;
    next[i] := rank + 1;
    assert tmp[..] == tmp0[pos := i] && curr[..] == curr0[pos := i] && next[..] == next0[i := rank + 1];
  }

  /** The working arrays stand where the draft stands after count turns. */
  ghost predicate Drafted(lists: seq<seq<nat>>, m: nat, count: nat, tmp: seq<int>, curr: seq<int>, next: seq<nat>) {
    && AllPreferences(lists, m) && count <= m
    && tmp == Award(m, |lists|, Claims(lists, m, count))
    && Filled(lists, m, Claims(lists, m, count), tmp, curr, next)
  }

  lemma TurnIsNextClaim(lists: seq<seq<nat>>, m: nat, count: nat, tmp: seq<int>)
    requires AllPreferences(lists, m) && count < m
    requires tmp == Award(m, |lists|, Claims(lists, m, count))
    ensures var pref, claims := lists[count % |lists|], Claims(lists, m, count);
      && (exists k :: 0 <= k < |pref| && pref[k] !in claims)
      && var slot := pref[FirstFree(pref, claims, 0)];
      && Claims(lists, m, count + 1) == claims + [slot]
      && Award(m, |lists|, Claims(lists, m, count + 1)) == tmp[slot := count % |lists|]
  {
    NextClaim(lists, m, count);
    assert Claims(lists, m, count + 1)[..count] == Claims(lists, m, count);
  }

  method TakeTurn(lists: seq<seq<nat>>, m: nat, ghost count: nat, i: nat,
                  tmp: array<int>, curr: array<int>, next: array<nat>)
    requires Drafted(lists, m, count, tmp[..], curr[..], next[..])
    requires tmp != curr && count < m && i == count % |lists|
    modifies tmp, curr, next
    ensures Drafted(lists, m, count + 1, tmp[..], curr[..], next[..])
  {
    TurnIsNextClaim(lists, m, count, tmp[..]);
    var pos := ClaimFirstFree(lists, m, Claims(lists, m, count), i, tmp, curr, next);
  }

  lemma DraftStarts(lists: seq<seq<nat>>, m: nat, tmp: seq<int>, curr: seq<int>, next: seq<nat>)
    requires AllPreferences(lists, m) && |curr| == m
    requires tmp == seq(m, _ => -1) && next == seq(|lists|, _ => 0)
    ensures Drafted(lists, m, 0, tmp, curr, next)
  {
  }

  /** One pass over the backends, cut short when the ring is full. */
  method PlayRound(lists: seq<seq<nat>>, m: nat, before: nat, tmp: array<int>, curr: array<int>, next: array<nat>)
    returns (count: nat)
    requires Drafted(lists, m, before, tmp[..], curr[..], next[..])
    requires tmp != curr && before < m && before % |lists| == 0
    modifies tmp, curr, next
    ensures Drafted(lists, m, count, tmp[..], curr[..], next[..])
    ensures before < count && (count == m || count % |lists| == 0)
  {
    hide Claims, Award, Filled, IsPreferenceList;
    count := before;
    var n, i := |lists|, 0;
    while i < n
      invariant i <= n && count == before + i < m
      invariant count % n == if i < n then i else 0
      invariant Drafted(lists, m, count, tmp[..], curr[..], next[..])
    {
      NumberTheory.NextResidue(count, n);
      TakeTurn(lists, m, count, i, tmp, curr, next);
      count := count + 1;
      if count == m {
        break;
      }
      i := i + 1;
    }
  }

  method PopulateLookupTable(lists: seq<seq<nat>>, m: nat, curr: array<int>)
    requires AllPreferences(lists, m) && curr.Length == m
    modifies curr
    ensures curr[..] == Ring(lists, m)
  {
    hide Claims, Award, Filled, IsPreferenceList;
    var n := |lists|;
    var next := new nat[n](_ => 0);
    var tmp := new int[m](_ => -1);
    var count := 0;
    assert tmp[..] == seq(m, _ => -1) && next[..] == seq(n, _ => 0);
    DraftStarts(lists, m, tmp[..], curr[..], next[..]);
    while count < m
      invariant count < m ==> count % n == 0
      invariant Drafted(lists, m, count, tmp[..], curr[..], next[..])
      decreases m - count
    {
      count := PlayRound(lists, m, count, tmp, curr, next);
    }
    RingComplete(lists, m, tmp[..], curr[..], next[..]);
  }

  lemma RingComplete(lists: seq<seq<nat>>, m: nat, tmp: seq<int>, curr: seq<int>, next: seq<nat>)
    requires Drafted(lists, m, m, tmp, curr, next)
    ensures curr == Ring(lists, m)
  {
    NumberTheory.ListingIsOnto(Claims(lists, m, m), m);
  }

  // ---- The life cycle, in terms of backend lists instead of tables ----

  /**
   active is the list behind the current table, settled the list behind the previous one, and age
   the number of ticks since the last nonempty update while a merge is still pending.
   */
  datatype Rings = Rings(active: seq<Backend>, settled: seq<Backend>, age: Option<nat>,
                         updates: nat, merges: nat)

  datatype Op = Update(backends: seq<Backend>) | Merge | Tick | Clear

  const NO_RINGS := Rings([], [], None, 0, 0)

  function Settle(r: Rings): Rings {
    if r.age.None? then r else r.(settled := r.active, age := None, merges := r.merges + 1)
  }

  function Next(r: Rings, op: Op, timeout: nat): Rings {
    match op
    case Update(backends) =>
      if backends == [] then r.(active := [], settled := [], age := None)
      else r.(active := backends, age := Some(0), updates := r.updates + 1)
    case Merge => Settle(r)
    case Tick =>
      if r.age.None? then r
      else if r.age.value + 1 >= timeout then Settle(r)
      else r.(age := Some(r.age.value + 1))
    case Clear => r.(active := [], settled := [], age := None)
  }

  function After(h: seq<Op>, timeout: nat): Rings {
    if h == [] then NO_RINGS else Next(After(h[..|h| - 1], timeout), h[|h| - 1], timeout)
  }

  /** What every reachable state of a ring satisfies. */
  ghost predicate Coherent(r: Rings, timeout: nat) {
    && (r.age.None? ==> r.settled == r.active)
    && (r.age.Some? ==> r.active != [] && r.age.value < (if timeout >= 1 then timeout else 1))
    && r.merges + (if r.age.Some? then 1 else 0) <= r.updates
  }

  lemma {:induction false} ReachableIsCoherent(h: seq<Op>, timeout: nat)
    ensures Coherent(After(h, timeout), timeout)
  {
    if h != [] {
      ReachableIsCoherent(h[..|h| - 1], timeout);
    }
  }

  predicate Clears(op: Op) {
    op == Clear || op == Update([])
  }

  /** The i-th operation of the history completed a merge. */
  predicate MergedAt(h: seq<Op>, i: nat, timeout: nat)
    requires i < |h|
  {
    && !Clears(h[i])
    && After(h[..i], timeout).age.Some?
    && After(h[..i + 1], timeout).age.None?
  }

  lemma AfterLast(h: seq<Op>, i: nat, timeout: nat)
    requires i < |h|
    ensures After(h[..i + 1], timeout) == Next(After(h[..i], timeout), h[i], timeout)
  {
    assert h[..i + 1][..i] == h[..i];
  }

  /** With no merge and no clear from i on, the settled list is what it was. */
  lemma {:induction false} SettledIsUntouched(h: seq<Op>, i: nat, timeout: nat)
    requires i <= |h|
    requires forall j :: i <= j < |h| ==> !Clears(h[j]) && !MergedAt(h, j, timeout)
    ensures After(h, timeout).settled == After(h[..i], timeout).settled
    decreases |h| - i
  {
    if i == |h| {
      assert h[..i] == h;
    } else {
      AfterLast(h, i, timeout);
      ReachableIsCoherent(h[..i], timeout);
      SettledIsUntouched(h, i + 1, timeout);
    }
  }

  /** The previous table always shows the list that was active at the last merge since the last clear. */
  lemma SettledIsLastMerge(h: seq<Op>, i: nat, timeout: nat)
    requires i < |h| && MergedAt(h, i, timeout)
    requires forall j :: i < j < |h| ==> !Clears(h[j]) && !MergedAt(h, j, timeout)
    ensures After(h, timeout).settled == After(h[..i], timeout).active != []
  {
    AfterLast(h, i, timeout);
    ReachableIsCoherent(h[..i], timeout);
    SettledIsUntouched(h, i + 1, timeout);
  }

  /** With no merge since the last clear (at position i - 1, or the start) the previous table is blank. */
  lemma SettledIsBlank(h: seq<Op>, i: nat, timeout: nat)
    requires i <= |h| && (i > 0 ==> Clears(h[i - 1]))
    requires forall j :: i <= j < |h| ==> !Clears(h[j]) && !MergedAt(h, j, timeout)
    ensures After(h, timeout).settled == []
  {
    if i > 0 {
      AfterLast(h, i - 1, timeout);
    }
    SettledIsUntouched(h, i, timeout);
  }

  /** How many of the operations give a nonempty list, and how many complete a merge. */
  function UpdatesIn(h: seq<Op>): nat {
    if h == [] then 0
    else UpdatesIn(h[..|h| - 1]) + if h[|h| - 1].Update? && h[|h| - 1].backends != [] then 1 else 0
  }

  function MergesIn(h: seq<Op>, timeout: nat): nat {
    if h == [] then 0
    else MergesIn(h[..|h| - 1], timeout) + if MergedAt(h, |h| - 1, timeout) then 1 else 0
  }

  /** The statistics count exactly these, clears or not. */
  lemma {:induction false} StatisticsCount(h: seq<Op>, timeout: nat)
    ensures After(h, timeout).updates == UpdatesIn(h) && After(h, timeout).merges == MergesIn(h, timeout)
  {
    if h != [] {
      StatisticsCount(h[..|h| - 1], timeout);
      assert h[..|h|] == h;
    }
  }

  function Ticks(k: nat): (t: seq<Op>)
    ensures |t| == k && forall i :: 0 <= i < k ==> t[i] == Tick
  {
    if k == 0 then [] else Ticks(k - 1) + [Tick]
  }

  /**
   After a nonempty update, ticks alone merge on exactly the timeout-th one: before it the old list is
   still settled, from it on the new list is. A timeout of 0 acts as 1.
   */
  lemma {:induction false} MergesOnExactlyTheTimeout(h: seq<Op>, backends: seq<Backend>, k: nat, timeout: nat)
    requires backends != []
    ensures var r := After(h + [Update(backends)] + Ticks(k), timeout);
      && r.active == backends
      && (k < timeout || k == 0 ==> r.age == Some(k) && r.settled == After(h, timeout).settled)
      && (k >= timeout && k >= 1 ==> r.age == None && r.settled == backends)
  {
    var run := h + [Update(backends)] + Ticks(k);
    if k == 0 {
      assert run[..|run| - 1] == h;
    } else {
      MergesOnExactlyTheTimeout(h, backends, k - 1, timeout);
      assert run[..|run| - 1] == h + [Update(backends)] + Ticks(k - 1);
    }
  }

  // ---- The instance ----

  /** The stored choice in 64-bit arithmetic, cast to 32 bits: neither step loses anything. */
  function ComputeChoice(offset: nat, skip: nat, m: nat, j: nat): (c: nat)
    requires 0 < m < U32 && offset < m && skip <= m && j < m
    ensures c == (offset + j * skip) % m == Choice(offset, skip, m, j)
  {
    ChoiceFitsMachineWords(offset, skip, m, j);
    var sum := offset + j * skip;
    NumberTheory.SmallMod(sum, U64);
    NumberTheory.SmallMod(sum % m, U32);
    ((sum % U64) % m) % U32
  }

  datatype LookupResult = LookupResult(stable: bool, curr: Option<int>, prev: Option<int>)

  function Entry(v: int): Option<int> {
    if v >= 0 then Some(v) else None
  }

  class ConsistentHashInstance {
    const config: InstanceConfig
    const hashes: Hashes
    var backends: seq<Backend>
    var currLookup: seq<int>
    var prevLookup: seq<int>
    var needsMerge: bool
    var mergeTimer: nat
    var mergeCount: nat
    var updateCount: nat
    var currentBackends: nat
    /** The list whose table prevLookup holds. */
    ghost var settled: seq<Backend>

    ghost function Abs(): Rings
      reads this
    {
      Rings(backends, settled, if needsMerge then Some(mergeTimer) else None, updateCount, mergeCount)
    }

    /** Everything but the bound on the timer, which tick may reach just before it merges. */
    ghost predicate Consistent()
      reads this
    {
      && ValidConfig(config)
      && (needsMerge ==> backends != [])
      && (!needsMerge ==> settled == backends)
      && mergeCount + (if needsMerge then 1 else 0) <= updateCount
      && currLookup == Table(backends, config.ringSize, hashes)
      && prevLookup == Table(settled, config.ringSize, hashes)
      && (!needsMerge ==> mergeTimer == 0)
    }

    ghost predicate Valid()
      reads this
    {
      Consistent() && Coherent(Abs(), config.mergeTicks)
    }

    constructor (config: InstanceConfig, hashes: Hashes)
      requires ValidConfig(config)
      ensures Valid() && Abs() == NO_RINGS
      ensures this.config == config && this.hashes == hashes
    {
      hide NumberTheory.Prime, Table;
      this.config := config;
      this.hashes := hashes;
      backends, settled := [], [];
      currLookup := seq(config.ringSize, _ => -1);
      prevLookup := seq(config.ringSize, _ => -1);
      needsMerge, mergeTimer := false, 0;
      mergeCount, updateCount, currentBackends := 0, 0, 0;
      new;
      BlankTable(config.ringSize, hashes);
    }

    method GenerateRow(b: Backend) returns (row: array<nat>)
      requires ValidConfig(config)
      ensures fresh(row) && row[..] == ListOf(b, config.ringSize, hashes)
      ensures Walks(row[..], hashes.first(b), hashes.second(b), config.ringSize)
    {
      var m := config.ringSize;
      row := new nat[m];
      var offset := hashes.first(b) % m;
      var skip := hashes.second(b) % (m - 1) + 1;
      hide Choice, NumberTheory.Prime;
      for j := 0 to m
        invariant forall k :: 0 <= k < j ==> row[k] == Choice(offset, skip, m, k)
      {
        row[j] := ComputeChoice(offset, skip, m, j);
      }
      ListWalks(b, m, hashes);
    }

    method GeneratePermutations(backends: seq<Backend>) returns (permutations: seq<seq<nat>>)
      requires ValidConfig(config)
      ensures permutations == Lists(backends, config.ringSize, hashes) && |permutations| == |backends|
      ensures forall i :: 0 <= i < |backends| ==>
        Walks(permutations[i], hashes.first(backends[i]), hashes.second(backends[i]), config.ringSize)
    {
      var n, m := |backends|, config.ringSize;
      assert m >= 2;
      hide ListOf, Walks, NumberTheory.Prime;
      permutations := [];
      for i := 0 to n
        invariant permutations == Lists(backends[..i], m, hashes)
        invariant forall k :: 0 <= k < i ==>
          Walks(permutations[k], hashes.first(backends[k]), hashes.second(backends[k]), m)
      {
        var row := GenerateRow(backends[i]);
        permutations := permutations + [row[..]];
      }
      assert backends[..n] == backends;
    }

    method BuildTable(newBackends: seq<Backend>) returns (table: array<int>)
      requires ValidConfig(config) && newBackends != []
      ensures fresh(table) && table[..] == Table(newBackends, config.ringSize, hashes)
    {
      table := new int[config.ringSize](_ => -1);
      var permutations := GeneratePermutations(newBackends);
      EveryListIsComplete(newBackends, config.ringSize, hashes);
      hide NumberTheory.Prime, AllPreferences, Lists, Ring;
      PopulateLookupTable(permutations, config.ringSize, table);
    }

    /** In every reachable state each table is blank or wholly filled, and they differ only while a merge is pending. */
    lemma TablesAreBlankOrFull()
      requires Valid()
      ensures if backends == [] then forall s :: 0 <= s < config.ringSize ==> currLookup[s] == -1
              else forall s :: 0 <= s < config.ringSize ==> 0 <= currLookup[s] < |backends|
      ensures if settled == [] then forall s :: 0 <= s < config.ringSize ==> prevLookup[s] == -1
              else forall s :: 0 <= s < config.ringSize ==> 0 <= prevLookup[s] < |settled|
      ensures !needsMerge ==> prevLookup == currLookup
    {
      TableEntries(backends, config.ringSize, hashes);
      TableEntries(settled, config.ringSize, hashes);
    }

    /** What the first slot tells about the tables when no merge is pending. */
    lemma FirstSlotTellsBlank()
      requires Valid()
      ensures |currLookup| == |prevLookup| == config.ringSize >= 2
      ensures !needsMerge ==> currLookup == prevLookup
      ensures currLookup[0] == -1 <==> backends == []
      ensures !needsMerge && currLookup[0] == -1 ==> prevLookup == seq(config.ringSize, _ => -1)
    {
      TableEntries(backends, config.ringSize, hashes);
      BlankTable(config.ringSize, hashes);
    }

    method UpdateBackends(newBackends: seq<Backend>) returns (ok: bool)
      requires Valid()
      modifies this
      ensures ok && Valid()
      ensures Abs() == Next(old(Abs()), Update(newBackends), config.mergeTicks)
      ensures newBackends != [] ==> prevLookup == old(prevLookup)
      ensures currentBackends == if newBackends != [] then |newBackends| else old(currentBackends)
    {
      hide NumberTheory.Prime, Table;
      if newBackends == [] {
        ClearAll();
        return true;
      }
      FirstSlotTellsBlank();
      var newPrev := seq(config.ringSize, _ => -1);
      if currLookup[0] != -1 && !needsMerge {
        newPrev := currLookup;
      } else if needsMerge {
        newPrev := prevLookup;
      }
      var newCurr := BuildTable(newBackends);
      backends := newBackends;
      currLookup := newCurr[..];
      prevLookup := newPrev;
      updateCount := updateCount + 1;
      currentBackends := |newBackends|;
      mergeTimer := 0;
      needsMerge := true;
      return true;
    }

    method MergeRings()
      requires Consistent()
      modifies this
      ensures Valid() && Abs() == Settle(old(Abs()))
      ensures backends == old(backends) && currLookup == old(currLookup) && currentBackends == old(currentBackends)
    {
      hide NumberTheory.Prime, Table;
      if !needsMerge {
        return;
      }
      prevLookup, settled := currLookup, backends;
      needsMerge := false;
      mergeTimer := 0;
      mergeCount := mergeCount + 1;
    }

    /** Returns true exactly when this tick completed a merge. */
    method TickMergeTimer() returns (merged: bool)
      requires Valid()
      modifies this
      ensures Valid() && Abs() == Next(old(Abs()), Tick, config.mergeTicks)
      ensures merged <==> old(needsMerge) && !needsMerge
      ensures !merged ==> backends == old(backends) && currLookup == old(currLookup) && prevLookup == old(prevLookup)
      ensures currentBackends == old(currentBackends)
    {
      hide NumberTheory.Prime, Table;
      if !needsMerge {
        return false;
      }
      mergeTimer := (mergeTimer + 1) % U32;
      if mergeTimer >= config.mergeTicks {
        MergeRings();
        return true;
      }
      return false;
    }

    method ClearAll()
      requires Valid()
      modifies this
      ensures Valid() && Abs() == Next(old(Abs()), Clear, config.mergeTicks)
      ensures currentBackends == old(currentBackends)
    {
      hide NumberTheory.Prime, Table;
      backends, settled := [], [];
      currLookup := seq(config.ringSize, _ => -1);
      prevLookup := seq(config.ringSize, _ => -1);
      BlankTable(config.ringSize, hashes);
      needsMerge := false;
      mergeTimer := 0;
    }

    // ---- Lookups ----

    function Lookup(keyHash: nat): LookupResult
      reads this
      requires Valid()
    {
      if backends == [] then LookupResult(false, None, None)
      else
        var curr, prev := currLookup[keyHash % config.ringSize], prevLookup[keyHash % config.ringSize];
        LookupResult(prev == -1 || curr == prev, Entry(curr), Entry(prev))
    }

    function LookupCurr(keyHash: nat): (r: Option<int>)
      reads this
      requires Valid()
      ensures r.Some? <==> backends != []
      ensures r.Some? ==> 0 <= r.value < |backends|
    {
      TableEntries(backends, config.ringSize, hashes);
      if backends == [] then None else Entry(currLookup[keyHash % config.ringSize])
    }

    function LookupPrev(keyHash: nat): Option<int>
      reads this
      requires Valid()
    {
      if backends == [] then None else Entry(prevLookup[keyHash % config.ringSize])
    }

    predicate IsStable(keyHash: nat)
      reads this
      requires Valid()
    {
      if prevLookup[0] == -1 then true
      else currLookup[keyHash % config.ringSize] == prevLookup[keyHash % config.ringSize]
    }

    /** A nonempty ring answers every key with one of its backends, and knows the settled answer if there is one. */
    lemma LookupFindsBackend(keyHash: nat)
      requires Valid() && backends != []
      ensures var slot := keyHash % config.ringSize;
        && Lookup(keyHash).curr == LookupCurr(keyHash) == Some(Table(backends, config.ringSize, hashes)[slot])
        && 0 <= LookupCurr(keyHash).value < |backends|
        && (settled == [] ==> Lookup(keyHash).prev == LookupPrev(keyHash) == None)
        && (settled != [] ==>
              && Lookup(keyHash).prev == LookupPrev(keyHash) == Some(Table(settled, config.ringSize, hashes)[slot])
              && 0 <= LookupPrev(keyHash).value < |settled|)
    {
      TableEntries(backends, config.ringSize, hashes);
      TableEntries(settled, config.ringSize, hashes);
    }

    /** What the two tests say: the same position in both tables, nothing settled counting as the same. */
    lemma StableExactly(keyHash: nat)
      requires Valid()
      ensures var slot := keyHash % config.ringSize;
        var same := settled == [] ||
          Table(backends, config.ringSize, hashes)[slot] == Table(settled, config.ringSize, hashes)[slot];
        && (IsStable(keyHash) <==> same)
        && (Lookup(keyHash).stable <==> backends != [] && same)
    {
      TableEntries(backends, config.ringSize, hashes);
      TableEntries(settled, config.ringSize, hashes);
    }

    /** The two stability tests agree exactly on nonempty rings. */
    lemma StabilityTestsAgree(keyHash: nat)
      requires Valid()
      ensures Lookup(keyHash).stable == IsStable(keyHash) <==> backends != []
    {
      TableEntries(backends, config.ringSize, hashes);
      TableEntries(settled, config.ringSize, hashes);
    }

    /** Stability compares positions, not servers: replacing a sole backend looks stable for every key. */
    lemma SoleBackendSwapLooksStable(keyHash: nat)
      requires Valid() && |backends| == 1 && |settled| == 1
      ensures IsStable(keyHash) && Lookup(keyHash).stable
    {
      TableEntries(backends, config.ringSize, hashes);
      TableEntries(settled, config.ringSize, hashes);
    }
  }
}
