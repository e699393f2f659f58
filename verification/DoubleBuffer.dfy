/**
 The double-buffered configuration as a protocol: a control plane writing the inactive side element by
 element and then flipping the index, and packets that read the index once and the rest later.
 */
module DoubleBuffer {
  import opened XdpTypes
  import opened Layout
  import opened Schedule
  import NumberTheory

  const MAX_BACKENDS: nat := 1024
  const MAX_SERVICES: nat := 256

  datatype Writer = Idle | Loading(plan: Plan, done: nat)

  /** committed is the plan of the last flip. */
  datatype Shared = Shared(banks: seq<Bank>, index: nat, writer: Writer, committed: Plan)

  datatype Event = Begin(plan: Plan) | Write | Flip | Fail

  const NO_PLAN := Plan([], [], [])

  predicate Paired(plan: Plan) { |plan.keys| == |plan.infos| }

  function LoadSize(plan: Plan): nat { |plan.backends| + |plan.keys| }

  /** The kernel takes the n-th element: inside the array, or an old key or room for a new one. */
  predicate Accepts(bank: Bank, plan: Plan, n: nat)
    requires Paired(plan) && n < LoadSize(plan)
  {
    if n < |plan.backends| then n < |bank.backends|
    else plan.keys[n - |plan.backends|] in bank.services || |bank.services| < MAX_SERVICES
  }

  /** Writing the n-th element, first the backends in order, then the services. A refused write changes nothing. */
  function Put(bank: Bank, plan: Plan, n: nat): Bank
    requires Paired(plan) && n < LoadSize(plan)
  {
    if !Accepts(bank, plan, n) then bank
    else if n < |plan.backends| then bank.(backends := bank.backends[n := plan.backends[n]])
    else bank.(services := bank.services[plan.keys[n - |plan.backends|] := plan.infos[n - |plan.backends|]])
  }

  predicate TwoSides(s: Shared) {
    && |s.banks| == 2 && s.index < 2 && Paired(s.committed)
    && (s.writer.Loading? ==> Paired(s.writer.plan) && s.writer.done <= LoadSize(s.writer.plan))
  }

  predicate Possible(s: Shared, e: Event)
    requires TwoSides(s)
  {
    match e
    case Begin(plan) => s.writer.Idle? && Paired(plan)
    case Write =>
      && s.writer.Loading? && s.writer.done < LoadSize(s.writer.plan)
      && Accepts(s.banks[1 - s.index], s.writer.plan, s.writer.done)
    case Flip => s.writer.Loading? && s.writer.done == LoadSize(s.writer.plan)
    case Fail => s.writer.Loading?
  }

  /** An event that is not possible changes nothing. */
  function Next(s: Shared, e: Event): (t: Shared)
    requires TwoSides(s)
    ensures TwoSides(t)
  {
    if !Possible(s, e) then s
    else
      match e
      case Begin(plan) => s.(writer := Loading(plan, 0))
      case Write =>
        s.(banks := s.banks[1 - s.index := Put(s.banks[1 - s.index], s.writer.plan, s.writer.done)],
           writer := s.writer.(done := s.writer.done + 1))
      case Flip => s.(index := 1 - s.index, writer := Idle, committed := s.writer.plan)
      case Fail => s.(writer := Idle)
  }

  function After(s: Shared, es: seq<Event>): (t: Shared)
    requires TwoSides(s)
    ensures TwoSides(t)
  {
    if es == [] then s else Next(After(s, es[..|es| - 1]), es[|es| - 1])
  }

  lemma AfterNext(s: Shared, es: seq<Event>, k: nat)
    requires TwoSides(s) && k < |es|
    ensures After(s, es[..k + 1]) == Next(After(s, es[..k]), es[k])
  {
    assert es[..k + 1][..k] == es[..k];
  }

  lemma AfterOneMore(s: Shared, es: seq<Event>, e: Event)
    requires TwoSides(s)
    ensures After(s, es + [e]) == Next(After(s, es), e)
  {
    assert (es + [e])[..|es|] == es;
  }

  // ---- What the sides hold ----

  /** Among the first m services, no later one has the key of the i-th. */
  predicate LastOfItsKey(plan: Plan, i: nat, m: nat) {
    i < m <= |plan.keys| && forall j :: i < j < m ==> plan.keys[j] != plan.keys[i]
  }

  predicate Shows(bank: Bank, plan: Plan, i: nat)
    requires Paired(plan) && i < |plan.keys|
  {
    plan.keys[i] in bank.services && bank.services[plan.keys[i]] == plan.infos[i]
  }

  predicate HoldsBackends(bank: Bank, plan: Plan, m: nat) {
    m <= |plan.backends| && m <= |bank.backends| && bank.backends[..m] == plan.backends[..m]
  }

  /** Of several services with one key, the last one counts. */
  ghost predicate HoldsServices(bank: Bank, plan: Plan, m: nat)
    requires Paired(plan)
  {
    m <= |plan.keys| && forall i :: 0 <= i < m && LastOfItsKey(plan, i, m) ==> Shows(bank, plan, i)
  }

  /** The side holds the first n elements of the plan. */
  ghost predicate HoldsUpTo(bank: Bank, plan: Plan, n: nat)
    requires Paired(plan)
  {
    if n <= |plan.backends| then HoldsBackends(bank, plan, n)
    else HoldsBackends(bank, plan, |plan.backends|) && HoldsServices(bank, plan, n - |plan.backends|)
  }

  ghost predicate Holds(bank: Bank, plan: Plan)
    requires Paired(plan)
  {
    HoldsUpTo(bank, plan, LoadSize(plan))
  }

  /** The active side holds the committed plan in full; the other one what has been written of the next. */
  ghost predicate Consistent(s: Shared) {
    && TwoSides(s) && Holds(s.banks[s.index], s.committed)
    && (s.writer.Loading? ==> HoldsUpTo(s.banks[1 - s.index], s.writer.plan, s.writer.done))
  }

  lemma PutHoldsOneMore(bank: Bank, plan: Plan, n: nat)
    requires Paired(plan) && n < LoadSize(plan) && Accepts(bank, plan, n) && HoldsUpTo(bank, plan, n)
    ensures HoldsUpTo(Put(bank, plan, n), plan, n + 1)
  {
    var after, m := Put(bank, plan, n), n - |plan.backends|;
    if m < 0 {
      assert plan.backends[..n + 1] == plan.backends[..n] + [plan.backends[n]];
      assert after.backends[..n + 1] == bank.backends[..n] + [plan.backends[n]];
    } else {
      assert HoldsBackends(after, plan, |plan.backends|);
      UpsertHoldsOneMore(bank, after, plan, m);
    }
  }

  lemma UpsertHoldsOneMore(bank: Bank, after: Bank, plan: Plan, m: nat)
    requires Paired(plan) && m < |plan.keys| && (m > 0 ==> HoldsServices(bank, plan, m))
    requires after.services == bank.services[plan.keys[m] := plan.infos[m]]
    ensures HoldsServices(after, plan, m + 1)
  {
    forall i | 0 <= i < m + 1 && LastOfItsKey(plan, i, m + 1) ensures Shows(after, plan, i) {
      if i < m {
        assert LastOfItsKey(plan, i, m);
        assert Shows(bank, plan, i) && plan.keys[m] != plan.keys[i];
      }
    }
  }

  lemma NextKeepsConsistent(s: Shared, e: Event)
    requires Consistent(s)
    ensures Consistent(Next(s, e))
  {
    if e == Write && Possible(s, e) {
      PutHoldsOneMore(s.banks[1 - s.index], s.writer.plan, s.writer.done);
    }
    hide Put, Accepts, HoldsUpTo;
  }

  lemma {:induction false} RunsStayConsistent(s: Shared, es: seq<Event>)
    requires Consistent(s)
    ensures Consistent(After(s, es))
  {
    if es != [] {
      RunsStayConsistent(s, es[..|es| - 1]);
      hide Consistent, Next;
      NextKeepsConsistent(After(s, es[..|es| - 1]), es[|es| - 1]);
    }
  }

  /** Freshly loaded maps are consistent with nothing configured. */
  lemma BlankMapsAreConsistent(first: Bank, second: Bank)
    ensures Consistent(Shared([first, second], 0, Idle, NO_PLAN))
  {
  }

  // ---- Readers ----

  /**
   The events a reader can live with between reading the index and its last read: no write once a flip has
   happened.
   */
  ghost predicate NoWriteAfterFlip(es: seq<Event>, i: nat, k: nat)
    requires i <= k <= |es|
  {
    forall a, b :: i <= a < b < k && es[a] == Flip ==> es[b] != Write
  }

  predicate FlipIn(es: seq<Event>, i: nat, k: nat)
    requires i <= k <= |es|
  {
    exists a :: i <= a < k && es[a] == Flip
  }

  lemma NextTouchesInactiveOnly(s: Shared, e: Event)
    requires TwoSides(s)
    ensures e != Flip ==> Next(s, e).index == s.index
    ensures Next(s, e).banks[s.index] == s.banks[s.index]
    ensures e != Write ==> Next(s, e).banks == s.banks
  {
    hide Put, Accepts;
  }

  /** Until then the side the reader looks at stays untouched. */
  lemma {:induction false} ReadersSideIsUntouched(s: Shared, es: seq<Event>, i: nat, k: nat)
    requires TwoSides(s) && i <= k <= |es| && NoWriteAfterFlip(es, i, k)
    ensures var x := After(s, es[..i]).index;
      && After(s, es[..k]).banks[x] == After(s, es[..i]).banks[x]
      && (FlipIn(es, i, k) || After(s, es[..k]).index == x)
    decreases k - i
  {
    if i < k {
      ReadersSideIsUntouched(s, es, i, k - 1);
      AfterNext(s, es, k - 1);
      NextTouchesInactiveOnly(After(s, es[..k - 1]), es[k - 1]);
      hide After, Next, TwoSides;
      assert FlipIn(es, i, k - 1) || es[k - 1] == Flip ==> FlipIn(es, i, k);
      assert FlipIn(es, i, k - 1) ==> es[k - 1] != Write;
      hide NoWriteAfterFlip, FlipIn;
    }
  }

  /**
   A reader that reads the index at i, a service's info at j and its backends at k gets info and backends
   of the one configuration that was committed at i.
   */
  lemma ReaderSeesOneConfiguration(s: Shared, es: seq<Event>, i: nat, j: nat, k: nat, n: nat)
    requires Consistent(s) && i <= j <= k <= |es| && NoWriteAfterFlip(es, i, k)
    requires LastOfItsKey(After(s, es[..i]).committed, n, |After(s, es[..i]).committed.keys|)
    ensures var (x, plan) := (After(s, es[..i]).index, After(s, es[..i]).committed);
      var (early, late) := (After(s, es[..j]).banks[x], After(s, es[..k]).banks[x]);
      && plan.keys[n] in early.services && early.services[plan.keys[n]] == plan.infos[n]
      && |plan.backends| <= |late.backends| && late.backends[..|plan.backends|] == plan.backends
  {
    RunsStayConsistent(s, es[..i]);
    ReadersSideIsUntouched(s, es, i, j);
    ReadersSideIsUntouched(s, es, i, k);
    hide After, FlipIn, NoWriteAfterFlip;
    var (x, plan) := (After(s, es[..i]).index, After(s, es[..i]).committed);
    assert plan.backends[..|plan.backends|] == plan.backends;
    assert Shows(After(s, es[..i]).banks[x], plan, n);
  }

  lemma SliceOfPrefix<T>(a: seq<T>, m: nat, lo: nat, hi: nat)
    requires lo <= hi <= m <= |a|
    ensures a[..m][lo..hi] == a[lo..hi]
  {
  }

  /** For a committed configuration, the records it gets are that service's own reals. */
  lemma ReaderGetsItsServicesReals(s: Shared, es: seq<Event>, i: nat, j: nat, k: nat, config: seq<Service>, n: nat)
    requires Consistent(s) && i <= j <= k <= |es| && NoWriteAfterFlip(es, i, k)
    requires Resolves(config, |config|) && After(s, es[..i]).committed == PlanOf(config)
    requires LastOfItsKey(PlanOf(config), n, |config|)
    ensures var x := After(s, es[..i]).index;
      var (early, late) := (After(s, es[..j]).banks[x], After(s, es[..k]).banks[x]);
      && KeyOf(config[n]) in early.services
      && var info := early.services[KeyOf(config[n])];
      && info.algorithm == config[n].algorithm && info.serviceIdx == n
      && info.backendCount == |config[n].reals|
      && info.backendStart + info.backendCount <= |late.backends|
      && late.backends[info.backendStart..info.backendStart + info.backendCount] ==
        Records(config[n], |config[n].reals|)
  {
    ReaderSeesOneConfiguration(s, es, i, j, k, n);
    SliceHoldsItsReals(config, |config|, n);
    hide After, NoWriteAfterFlip, Consistent, LastOfItsKey, Flatten, Records;
    var x := After(s, es[..i]).index;
    var late, flat := After(s, es[..k]).banks[x], PlanOf(config).backends;
    var (start, count) := (Prefix(Counts(config), n), |config[n].reals|);
    SliceOfPrefix(late.backends, |flat|, start, start + count);
  }

  lemma FirstWriteOfNext(s: Shared, next: Plan)
    requires TwoSides(s) && s.writer.Idle? && Paired(next) && |next.backends| > 0
    requires |s.banks[1 - s.index].backends| > 0
    ensures var bank := Next(Next(s, Begin(next)), Write).banks[1 - s.index];
      |bank.backends| > 0 && bank.backends[0] == next.backends[0]
  {
  }

  /** The condition is needed: one write after a flip, and the reader's side holds the head of the reload after next. */
  lemma WriteAfterFlipTearsTheRead(s: Shared, next: Plan)
    requires TwoSides(s) && Possible(s, Flip) && Paired(next) && |next.backends| > 0
    requires |s.banks[s.index].backends| > 0
    ensures var late := After(s, [] + [Flip] + [Begin(next)] + [Write]).banks[s.index];
      |late.backends| > 0 && late.backends[0] == next.backends[0]
  {
    AfterOneMore(s, [], Flip);
    AfterOneMore(s, [] + [Flip], Begin(next));
    AfterOneMore(s, [] + [Flip] + [Begin(next)], Write);
    assert After(s, []) == s;
    FirstWriteOfNext(Next(s, Flip), next);
    hide After, Put, Accepts;
  }

  /** A reload that fails before its flip leaves the active pair, the index and the committed plan alone. */
  lemma {:induction false} UnflippedRunsChangeNothingActive(s: Shared, es: seq<Event>)
    requires TwoSides(s) && Flip !in es
    ensures var t := After(s, es);
      t.index == s.index && t.committed == s.committed && t.banks[s.index] == s.banks[s.index]
  {
    if es != [] {
      UnflippedRunsChangeNothingActive(s, es[..|es| - 1]);
    }
  }

  // ---- Keys are never deleted ----

  predicate Mentions(e: Event, key: ServiceKey) { e.Begin? && key in e.plan.keys }

  predicate SameEntry(a: Bank, b: Bank, key: ServiceKey) {
    (key in a.services <==> key in b.services) && (key in a.services ==> a.services[key] == b.services[key])
  }

  /** A service dropped from the configuration stays on whichever sides had it, as it was. */
  lemma {:induction false} DroppedServicesLinger(s: Shared, es: seq<Event>, key: ServiceKey)
    requires TwoSides(s) && (s.writer.Loading? ==> key !in s.writer.plan.keys)
    requires forall i :: 0 <= i < |es| ==> !Mentions(es[i], key)
    ensures var t := After(s, es);
      && (t.writer.Loading? ==> key !in t.writer.plan.keys)
      && SameEntry(t.banks[0], s.banks[0], key) && SameEntry(t.banks[1], s.banks[1], key)
  {
    if es != [] {
      DroppedServicesLinger(s, es[..|es| - 1], key);
      var t, e := After(s, es[..|es| - 1]), es[|es| - 1];
      assert !Mentions(e, key);
      hide After;
    }
  }

  // ---- When a load goes through ----

  /** The side after writing the first n elements. */
  function Written(bank: Bank, plan: Plan, n: nat): Bank
    requires Paired(plan) && n <= LoadSize(plan)
  {
    if n == 0 then bank else Put(Written(bank, plan, n - 1), plan, n - 1)
  }

  predicate AllAccepted(bank: Bank, plan: Plan, n: nat)
    requires Paired(plan) && n <= LoadSize(plan)
  {
    n == 0 || (AllAccepted(bank, plan, n - 1) && Accepts(Written(bank, plan, n - 1), plan, n - 1))
  }

  /** The keys among the first n elements. */
  function KeysAmong(plan: Plan, n: nat): set<ServiceKey>
    requires n <= LoadSize(plan)
  {
    if n <= |plan.backends| then {} else KeysAmong(plan, n - 1) + {plan.keys[n - 1 - |plan.backends|]}
  }

  lemma {:induction false} KeysAmongAre(plan: Plan, n: nat)
    requires n <= LoadSize(plan)
    ensures KeysAmong(plan, n) == set i | 0 <= i < n - |plan.backends| :: plan.keys[i]
  {
    if n > |plan.backends| {
      KeysAmongAre(plan, n - 1);
    }
  }

  lemma KeysAmongAreKeys(plan: Plan, n: nat)
    requires n <= LoadSize(plan)
    ensures KeysAmong(plan, n) <= NumberTheory.Elements(plan.keys)
    ensures n == LoadSize(plan) ==> KeysAmong(plan, n) == NumberTheory.Elements(plan.keys)
  {
    KeysAmongAre(plan, n);
    hide KeysAmong;
    if n == LoadSize(plan) {
      forall k | k in plan.keys ensures k in KeysAmong(plan, n) {
        var i :| 0 <= i < |plan.keys| && plan.keys[i] == k;
      }
    }
  }

  lemma PutKeys(bank: Bank, plan: Plan, n: nat)
    requires Paired(plan) && n < LoadSize(plan) && Accepts(bank, plan, n)
    ensures |Put(bank, plan, n).backends| == |bank.backends|
    ensures Put(bank, plan, n).services.Keys ==
      bank.services.Keys + if n < |plan.backends| then {} else {plan.keys[n - |plan.backends|]}
  {
  }

  lemma {:induction false} WrittenKeys(bank: Bank, plan: Plan, n: nat)
    requires Paired(plan) && n <= LoadSize(plan) && AllAccepted(bank, plan, n)
    ensures |Written(bank, plan, n).backends| == |bank.backends|
    ensures Written(bank, plan, n).services.Keys == bank.services.Keys + KeysAmong(plan, n)
  {
    if n > 0 {
      WrittenKeys(bank, plan, n - 1);
      PutKeys(Written(bank, plan, n - 1), plan, n - 1);
      hide Put, Accepts, AllAccepted;
    }
  }

  /** What a side with this plan loaded must fit: the keys of all plans ever loaded there are still in it. */
  predicate FitsKernel(bank: Bank, plan: Plan) {
    |plan.backends| <= |bank.backends| && |bank.services.Keys + NumberTheory.Elements(plan.keys)| <= 256
  }

  /** The kernel takes the whole plan exactly when it fits beside the keys already on that side. */
  lemma LoadFitsExactly(bank: Bank, plan: Plan)
    requires Paired(plan) && |bank.services| <= MAX_SERVICES
    ensures AllAccepted(bank, plan, LoadSize(plan)) <==> FitsKernel(bank, plan)
  {
    hide Accepts, Written, AllAccepted;
    if FitsKernel(bank, plan) {
      FittingLoadsAreAccepted(bank, plan, LoadSize(plan));
    }
    if AllAccepted(bank, plan, LoadSize(plan)) {
      AcceptedLoadsFit(bank, plan, LoadSize(plan));
      WrittenKeys(bank, plan, LoadSize(plan));
      KeysAmongAreKeys(plan, LoadSize(plan));
      assert |Written(bank, plan, LoadSize(plan)).services| == |Written(bank, plan, LoadSize(plan)).services.Keys|;
      BackendsWereAccepted(bank, plan);
    }
  }

  lemma BackendsWereAccepted(bank: Bank, plan: Plan)
    requires Paired(plan) && AllAccepted(bank, plan, LoadSize(plan))
    ensures |plan.backends| <= |bank.backends|
  {
    var n := LoadSize(plan);
    while n > |plan.backends|
      invariant |plan.backends| <= n <= LoadSize(plan) && AllAccepted(bank, plan, n)
    {
      n := n - 1;
    }
    if n > 0 {
      WrittenKeys(bank, plan, n - 1);
    }
  }

  lemma RoomForNext(before: Bank, bank: Bank, plan: Plan, n: nat)
    requires Paired(plan) && n < LoadSize(plan) && FitsKernel(bank, plan)
    requires |before.backends| == |bank.backends| && before.services.Keys == bank.services.Keys + KeysAmong(plan, n)
    ensures Accepts(before, plan, n)
  {
    var m := n - |plan.backends|;
    if m >= 0 && plan.keys[m] !in before.services {
      var all := bank.services.Keys + NumberTheory.Elements(plan.keys);
      KeysAmongAreKeys(plan, n);
      hide KeysAmong;
      NumberTheory.SubsetSize(before.services.Keys + {plan.keys[m]}, all);
      assert |before.services.Keys + {plan.keys[m]}| == |before.services.Keys| + 1;
      assert |before.services| == |before.services.Keys|;
    }
  }

  lemma {:induction false} FittingLoadsAreAccepted(bank: Bank, plan: Plan, n: nat)
    requires Paired(plan) && n <= LoadSize(plan) && FitsKernel(bank, plan)
    ensures AllAccepted(bank, plan, n)
  {
    if n > 0 {
      FittingLoadsAreAccepted(bank, plan, n - 1);
      WrittenKeys(bank, plan, n - 1);
      RoomForNext(Written(bank, plan, n - 1), bank, plan, n - 1);
    }
  }

  lemma RoomWasEnough(before: Bank, plan: Plan, n: nat)
    requires Paired(plan) && n < LoadSize(plan) && Accepts(before, plan, n) && |before.services| <= MAX_SERVICES
    ensures |Put(before, plan, n).services| <= MAX_SERVICES
  {
  }

  lemma {:induction false} AcceptedLoadsFit(bank: Bank, plan: Plan, n: nat)
    requires Paired(plan) && n <= LoadSize(plan) && AllAccepted(bank, plan, n) && |bank.services| <= MAX_SERVICES
    ensures |Written(bank, plan, n).services| <= MAX_SERVICES
  {
    if n > 0 {
      AcceptedLoadsFit(bank, plan, n - 1);
      hide Put, Accepts, AllAccepted;
      RoomWasEnough(Written(bank, plan, n - 1), plan, n - 1);
    }
  }
}
