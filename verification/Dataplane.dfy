/** The control plane's reload: prepare, load the inactive side, flip, and reset what the packet path keeps. */
module Dataplane {
  import opened XdpTypes
  import opened Layout
  import opened DoubleBuffer
  import opened Loading
  import NumberTheory
  import opened PacketPath
  import CH = ConsistentHash
  import Serving
  import Sessions
  import ChManager
  import RH = RingHistory
  import RingFlows
  import Resets

  const DEFAULT_RING := CH.InstanceConfig(CH.DEFAULT_RING_SIZE, CH.DEFAULT_MERGE_TICKS)

  /**
   How a reload ends. Rejected and NotLoaded come before the flip; CursorsFull and WrongStatsKey are
   errors returned when the new configuration is already in force.
   */
  datatype Outcome = Rejected(fault: Fault) | NotLoaded | CursorsFull | WrongStatsKey | Reloaded

  // ---- Resets ----

  /** The cursors as they were, but with these services' at 0. */
  ghost predicate CursorsReset(now: map<ServiceKey, nat>, before: map<ServiceKey, nat>, keys: seq<ServiceKey>) {
    && now.Keys == before.Keys + (NumberTheory.Elements(keys))
    && forall k :: k in now ==> now[k] == if k in keys then 0 else before[k]
  }

  lemma NoCursorsReset(now: map<ServiceKey, nat>)
    ensures CursorsReset(now, now, [])
  {
  }

  lemma ResetOneMore(now: map<ServiceKey, nat>, before: map<ServiceKey, nat>, keys: seq<ServiceKey>, key: ServiceKey)
    requires CursorsReset(now, before, keys)
    ensures CursorsReset(now[key := 0], before, keys + [key])
  {
  }

  lemma AllCursorsReset(now: map<ServiceKey, nat>, before: map<ServiceKey, nat>, keys: seq<ServiceKey>)
    requires CursorsReset(now, before, keys)
    ensures |now| == |before.Keys + NumberTheory.Elements(keys)|
  {
    assert |now| == |now.Keys|;
  }

  lemma CursorsNeedRoom(now: map<ServiceKey, nat>, before: map<ServiceKey, nat>, keys: seq<ServiceKey>, i: nat)
    requires i < |keys| && CursorsReset(now, before, keys[..i]) && keys[i] !in now
    ensures |now| < |before.Keys + NumberTheory.Elements(keys)|
  {
    NumberTheory.SubsetSize(now.Keys + {keys[i]}, before.Keys + NumberTheory.Elements(keys));
    assert |now.Keys + {keys[i]}| == |now.Keys| + 1 == |now| + 1;
  }

  /** The rows as they were, but zero at these indexes. */
  ghost predicate SameExceptZeroed(rows: seq<seq<int>>, before: seq<seq<int>>, zeroed: set<nat>) {
    && |rows| == |before|
    && (forall c :: 0 <= c < |rows| ==> |rows[c]| == |before[c]|)
    && (forall c, x :: 0 <= c < |rows| && 0 <= x < |rows[c]| ==> rows[c][x] == if x in zeroed then 0 else before[c][x])
  }

  lemma NothingZeroed(rows: seq<seq<int>>)
    ensures SameExceptZeroed(rows, rows, StatsRows([])) && SameExceptZeroed(rows, rows, NumberTheory.Range(0))
  {
  }

  lemma ZeroOneMore(rows: seq<seq<int>>, before: seq<seq<int>>, zeroed: set<nat>, idx: nat)
    requires SameExceptZeroed(rows, before, zeroed)
    ensures SameExceptZeroed(Resets.ZeroAt(rows, idx), before, zeroed + {idx})
  {
  }

  /** No CPU counts anything in the first n columns. */
  ghost predicate NothingBelow(rows: seq<seq<int>>, n: nat) {
    forall c, x :: 0 <= c < |rows| && 0 <= x < |rows[c]| && x < n ==> rows[c][x] == 0
  }

  lemma ZeroedBelow(rows: seq<seq<int>>, before: seq<seq<int>>, n: nat)
    requires SameExceptZeroed(rows, before, NumberTheory.Range(n))
    ensures NothingBelow(rows, n)
  {
    forall c, x | 0 <= c < |rows| && 0 <= x < |rows[c]| && x < n ensures rows[c][x] == 0 {
      assert x in NumberTheory.Range(n);
    }
  }

  ghost predicate Wide(rows: seq<seq<int>>, width: nat) {
    forall c :: 0 <= c < |rows| ==> |rows[c]| == width
  }

  lemma ZeroingKeepsWidth(rows: seq<seq<int>>, before: seq<seq<int>>, zeroed: set<nat>, width: nat)
    requires SameExceptZeroed(rows, before, zeroed) && Wide(before, width)
    ensures |rows| == |before| && Wide(rows, width)
  {
  }

  /** A row that the reset misses goes on counting the connections of the sessions it cleared. */
  lemma {:induction false} MissedRowsKeepTheirSum(rows: seq<seq<int>>, before: seq<seq<int>>, zeroed: set<nat>, x: nat)
    requires SameExceptZeroed(rows, before, zeroed)
    ensures Sessions.SumOverCpus(rows, x) == if x in zeroed then 0 else Sessions.SumOverCpus(before, x)
  {
    if rows != [] {
      MissedRowsKeepTheirSum(rows[..|rows| - 1], before[..|rows| - 1], zeroed, x);
    }
  }

  function StatsRows(keys: seq<ServiceKey>): set<nat> {
    if keys == [] then {} else StatsRows(keys[..|keys| - 1]) + {Resets.StatsRow(keys[|keys| - 1])}
  }

  lemma StatsRowsGoOn(keys: seq<ServiceKey>, i: nat)
    requires i < |keys|
    ensures StatsRows(keys[..i + 1]) == StatsRows(keys[..i]) + {Resets.StatsRow(keys[i])}
  {
    assert keys[..i + 1][..i] == keys[..i];
  }

  /** How many keys come before the first whose row is outside the map. */
  function GoodRows(keys: seq<ServiceKey>): (n: nat)
    ensures n <= |keys| && forall i :: 0 <= i < n ==> Resets.StatsRow(keys[i]) < MAX_SERVICES
    ensures n < |keys| ==> Resets.StatsRow(keys[n]) >= MAX_SERVICES
  {
    if keys == [] then 0
    else
      var n := GoodRows(keys[..|keys| - 1]);
      if n == |keys| - 1 && Resets.StatsRow(keys[|keys| - 1]) < MAX_SERVICES then |keys| else n
  }

  lemma GoodRowsAre(keys: seq<ServiceKey>, n: nat)
    requires n <= |keys| && forall i :: 0 <= i < n ==> Resets.StatsRow(keys[i]) < MAX_SERVICES
    requires n < |keys| ==> Resets.StatsRow(keys[n]) >= MAX_SERVICES
    ensures GoodRows(keys) == n
  {
  }

  lemma DefaultRingIsValid()
    ensures CH.ValidConfig(DEFAULT_RING)
  {
    NumberTheory.DefaultRingSizeIsPrime();
  }

  lemma PlanIsPaired(config: seq<Service>)
    requires Resolves(config, |config|)
    ensures Paired(PlanOf(config))
  {
  }

  lemma {:induction false} ZeroRowsSumToZero(rows: seq<seq<int>>, x: nat)
    requires forall c :: 0 <= c < |rows| && x < |rows[c]| ==> rows[c][x] == 0
    ensures Sessions.SumOverCpus(rows, x) == 0
  {
    if rows != [] {
      ZeroRowsSumToZero(rows[..|rows| - 1], x);
    }
  }

  /** What a reload hands the ring manager: each ring service among the first n, in order. */
  function Entries(config: seq<Service>, n: nat): seq<RH.Entry>
    requires n <= |config| && Resolves(config, |config|)
  {
    if n == 0 then []
    else
      Entries(config, n - 1) +
      if IsRing(config[n - 1]) then [RH.Entry(RingKeyOf(config[n - 1]), RingOf(config, n - 1))] else []
  }

  lemma NoEntries(config: seq<Service>)
    requires Resolves(config, |config|)
    ensures Entries(config, 0) == []
  {
  }

  lemma NothingToReload(m: RH.Managed)
    ensures RH.Reload(m, []) == m
  {
  }

  lemma EntriesGoOn(config: seq<Service>, n: nat, m: RH.Managed)
    requires n < |config| && Resolves(config, |config|)
    ensures RH.Reload(m, Entries(config, n + 1)) ==
      if IsRing(config[n]) then
        RH.Refresh(RH.Reload(m, Entries(config, n)), RH.Entry(RingKeyOf(config[n]), RingOf(config, n)))
      else RH.Reload(m, Entries(config, n))
  {
    var es := Entries(config, n);
    if IsRing(config[n]) {
      var e := RH.Entry(RingKeyOf(config[n]), RingOf(config, n));
      assert Entries(config, n + 1) == es + [e] && (es + [e])[..|es|] == es;
    } else {
      assert Entries(config, n + 1) == es + [] == es;
    }
  }

  lemma {:induction false} OneEntry(config: seq<Service>, n: nat, i: nat)
    requires i < |config| && n <= |config| && Resolves(config, |config|) && IsRing(config[i])
    requires forall j :: 0 <= j < |config| && j != i ==> !IsRing(config[j])
    ensures Entries(config, n) == if i < n then [RH.Entry(RingKeyOf(config[i]), RingOf(config, i))] else []
  {
    if n > 0 {
      OneEntry(config, n - 1, i);
    }
  }

  /** The ring shown is the one the manager keeps under its key, or one it no longer keeps. */
  ghost predicate ShownIn(shown: RH.Shown, services: map<ServiceKey, CH.ConsistentHashInstance>,
                          published: CH.ConsistentHashInstance?)
    reads published
  {
    match shown
    case Unreliable => published == null
    case Ring(k) => k in services && published == services[k]
    case Forgotten(backends) =>
      && published != null && published.backends == backends
      && forall k :: k in services ==> services[k] != published
  }

  /** The ring shown is kept under one key only, and its list is the one recorded. */
  ghost predicate ShownOnce(m: RH.Managed, services: map<ServiceKey, CH.ConsistentHashInstance>,
                            published: CH.ConsistentHashInstance?)
    reads published
  {
    m.shown.Ring? ==>
      && published != null && m.shown.key in m.rings && m.rings[m.shown.key].active == published.backends
      && forall k :: k in services && k != m.shown.key ==> services[k] != published
  }

  lemma ShownAfterRemoval(m: RH.Managed, e: RH.Entry, services: map<ServiceKey, CH.ConsistentHashInstance>,
                          published: CH.ConsistentHashInstance?)
    requires ShownIn(m.shown, services, published) && ShownOnce(m, services, published) && e.backends == []
    ensures ShownIn(RH.Refresh(m, e).shown, services - {e.key}, published)
  {
  }

  twostate predicate NewRingsAreFresh(manager: ChManager.ConsistentHashManager)
    reads manager
  {
    fresh(manager.services.Values - old(manager.services.Values))
  }

  class XdpDataplane {
    const kernel: KernelMaps
    const chManager: ChManager.ConsistentHashManager
    var xdpKeys: seq<ServiceKey>
    var xdpServices: seq<ServiceInfo>
    var xdpBackends: seq<Backend>
    var isFirstRun: bool
    /** The plan of the last flip. */
    ghost var committed: Plan
    /** The manager's rings and what the kernel's ring maps show, in terms of backend lists. */
    ghost var managed: RH.Managed

    ghost function Maps(): Shared
      reads `committed, kernel`banks, kernel`atomicIndex
    {
      Shared(kernel.banks, kernel.atomicIndex, Idle, committed)
    }

    /** The counter maps have a row per CPU and a column per possible index. */
    ghost predicate RowsOk()
      reads kernel`backendConns, kernel`serviceConns
    {
      && |kernel.backendConns| == |kernel.serviceConns|
      && Wide(kernel.backendConns, MAX_BACKENDS) && Wide(kernel.serviceConns, MAX_SERVICES)
    }

    /** The two sides are consistent with what is committed, and every map is within its capacity. */
    ghost predicate MapsOk()
      reads `committed, `isFirstRun
      reads kernel`banks, kernel`atomicIndex, kernel`rrIndex, kernel`backendConns, kernel`serviceConns
    {
      && Consistent(Maps()) && (isFirstRun ==> kernel.atomicIndex == 0)
      && |kernel.banks[0].services| <= MAX_SERVICES && |kernel.banks[1].services| <= MAX_SERVICES
      && |kernel.banks[0].backends| == |kernel.banks[1].backends| == MAX_BACKENDS
      && |kernel.rrIndex| <= Resets.MAX_CURSORS && RowsOk()
    }

    /** Freshly loaded maps: nothing configured on either side. */
    constructor (kernel: KernelMaps, chManager: ChManager.ConsistentHashManager)
      requires |kernel.banks| == 2 && kernel.atomicIndex == 0 && kernel.rrIndex == map[]
      requires kernel.banks[0].services == kernel.banks[1].services == map[]
      requires |kernel.banks[0].backends| == |kernel.banks[1].backends| == MAX_BACKENDS
      requires |kernel.backendConns| == |kernel.serviceConns|
      requires Wide(kernel.backendConns, MAX_BACKENDS) && Wide(kernel.serviceConns, MAX_SERVICES)
      requires chManager.Valid() && chManager.services == map[] && chManager.published == null
      ensures MapsOk() && RingsOk() && ManagedOk()
      ensures committed == NO_PLAN && managed == RH.NOTHING
      ensures this.kernel == kernel && this.chManager == chManager
    {
      this.kernel, this.chManager := kernel, chManager;
      xdpKeys, xdpServices, xdpBackends := [], [], [];
      isFirstRun, committed, managed := true, NO_PLAN, RH.NOTHING;
      new;
      BlankMapsAreConsistent(kernel.banks[0], kernel.banks[1]);
      assert Maps() == Shared([kernel.banks[0], kernel.banks[1]], 0, Idle, NO_PLAN);
    }

    ghost function Prepared(): Plan
      reads `xdpKeys, `xdpServices, `xdpBackends
    {
      Plan(xdpKeys, xdpServices, xdpBackends)
    }

    /** Appends the service's records, up to the first real at fault. */
    method PrepareReals(service: Service, i: nat) returns (count: nat, fault: Option<Fault>)
      modifies this`xdpBackends
      ensures fault.None? <==> RealsOk(service, |service.reals|)
      ensures count <= |service.reals| && RealsOk(service, count) && (fault.None? ==> count == |service.reals|)
      ensures xdpBackends == old(xdpBackends) + Records(service, count)
      ensures EndsWithReals(xdpBackends, |old(xdpBackends)|, service, count)
      ensures fault.Some? ==>
        && count < |service.reals| && !RealOk(service.reals[count])
        && fault.value == if service.reals[count].addr.None? then BadReal(i, count) else NoMac(i, count)
    {
      hide EndsWithReals, IsRecordOf;
      count := 0;
      for j := 0 to |service.reals|
        invariant count == j && RealsOk(service, j)
        invariant xdpBackends == old(xdpBackends) + Records(service, j)
      {
        var r := service.reals[j];
        if r.addr.None? {
          RecordsAppended(old(xdpBackends), service, count);
          return count, Some(BadReal(i, j));
        }
        if r.mac.None? {
          RecordsAppended(old(xdpBackends), service, count);
          return count, Some(NoMac(i, j));
        }
        xdpBackends := xdpBackends + [RecordOf(service, r)];
        count := count + 1;
      }
      RecordsAppended(old(xdpBackends), service, count);
      fault := None;
    }

    /** Turns the configuration into keys, infos and backends, up to the first fault. */
    method Prepare(config: seq<Service>) returns (fault: Option<Fault>)
      modifies this`xdpKeys, this`xdpServices, this`xdpBackends
      ensures fault.None? <==> Resolves(config, |config|)
      ensures fault.None? ==> Prepared() == PlanOf(config) && LaidOut(config, Prepared())
      ensures fault.Some? ==> FirstFault(config, fault.value)
    {
      hide Records, RealsOk, LaidOut;
      var currentBackendIdx := 0;
      xdpKeys, xdpServices, xdpBackends := [], [], [];
      for i := 0 to |config|
        invariant Resolves(config, i)
        invariant currentBackendIdx == Schedule.Prefix(Counts(config), i)
        invariant xdpKeys == Keys(config, i)
        invariant xdpServices == Infos(config, i)
        invariant xdpBackends == Flatten(config, i)
      {
        var service := config[i];
        if service.vip.None? {
          return Some(BadVip(i));
        }
        xdpKeys := xdpKeys + [KeyOf(service)];
        var count;
        count, fault := PrepareReals(service, i);
        if fault.Some? {
          assert !ServiceOk(service);
          return fault;
        }
        assert ServiceOk(service);
        xdpServices := xdpServices + [ServiceInfo(count, currentBackendIdx, service.algorithm, |xdpServices|)];
        currentBackendIdx := currentBackendIdx + count;
      }
      PlanIsLaidOut(config);
      fault := None;
    }

    /** The batch of backends. Stops at the first element the kernel does not take. */
    method LoadBackends(side: nat, refuse: Option<nat>) returns (done: nat)
      requires side < |kernel.banks| && Paired(Prepared())
      modifies kernel`banks
      ensures var (plan, bank) := (Prepared(), old(kernel.banks[side]));
        && done <= |xdpBackends| && AllAccepted(bank, plan, done)
        && kernel.banks == old(kernel.banks)[side := Written(bank, plan, done)]
        && (refuse.Some? ==> done <= refuse.value)
        && (done < |xdpBackends| ==> refuse == Some(done) || !Accepts(Written(bank, plan, done), plan, done))
    {
      ghost var (plan, bank) := (Prepared(), kernel.banks[side]);
      for i := 0 to |xdpBackends|
        invariant AllAccepted(bank, plan, i) && (refuse.Some? ==> i <= refuse.value)
        invariant kernel.banks == old(kernel.banks)[side := Written(bank, plan, i)]
      {
        var b := kernel.banks[side];
        if refuse == Some(i) || i >= |b.backends| {
          return i;
        }
        kernel.banks := kernel.banks[side := b.(backends := b.backends[i := xdpBackends[i]])];
      }
      return |xdpBackends|;
    }

    /** The batch of services, written over those already there. */
    method LoadServices(side: nat, refuse: Option<nat>, ghost bank: Bank) returns (done: nat)
      requires side < |kernel.banks| && Paired(Prepared())
      requires AllAccepted(bank, Prepared(), |xdpBackends|) &&
        kernel.banks[side] == Written(bank, Prepared(), |xdpBackends|)
      requires refuse.Some? ==> |xdpBackends| <= refuse.value
      modifies kernel`banks
      ensures var plan := Prepared();
        && |xdpBackends| <= done <= LoadSize(plan) && AllAccepted(bank, plan, done)
        && kernel.banks == old(kernel.banks)[side := Written(bank, plan, done)]
        && (refuse.Some? ==> done <= refuse.value)
        && (done < LoadSize(plan) ==> refuse == Some(done) || !Accepts(Written(bank, plan, done), plan, done))
    {
      ghost var plan := Prepared();
      done := |xdpBackends|;
      for i := 0 to |xdpKeys|
        invariant done == |xdpBackends| + i
        invariant AllAccepted(bank, plan, done) && (refuse.Some? ==> done <= refuse.value)
        invariant kernel.banks == old(kernel.banks)[side := Written(bank, plan, done)]
      {
        var b := kernel.banks[side];
        if refuse == Some(done) || (xdpKeys[i] !in b.services && |b.services| >= MAX_SERVICES) {
          return done;
        }
        kernel.banks := kernel.banks[side := b.(services := b.services[xdpKeys[i] := xdpServices[i]])];
        done := done + 1;
      }
    }

    /** Both batches, as long as the kernel takes them. */
    method LoadElements(side: nat, refuse: Option<nat>) returns (done: nat)
      requires side < |kernel.banks| && Paired(Prepared())
      modifies kernel`banks
      ensures var (plan, bank) := (Prepared(), old(kernel.banks[side]));
        && done <= LoadSize(plan) && AllAccepted(bank, plan, done)
        && kernel.banks == old(kernel.banks)[side := Written(bank, plan, done)]
        && (refuse.Some? ==> done <= refuse.value)
        && (done < LoadSize(plan) ==> refuse == Some(done) || !Accepts(Written(bank, plan, done), plan, done))
    {
      hide Accepts, Put, Written, AllAccepted;
      ghost var bank := kernel.banks[side];
      done := LoadBackends(side, refuse);
      if done == |xdpBackends| {
        done := LoadServices(side, refuse, bank);
      }
    }

    /**
     Loads the prepared plan into the inactive side and flips. The kernel may also refuse one element for reasons
     of its own.
     */
    method LoadAndFlip(refuse: Option<nat>) returns (ok: bool, ghost writes: nat)
      requires MapsOk() && Paired(Prepared())
      modifies kernel`banks, kernel`atomicIndex, this`isFirstRun, this`committed
      ensures MapsOk()
      ensures var plan := Prepared();
        && Maps() == After(old(Maps()), Script(plan, writes, if ok then Flip else Fail))
        && (ok <==>
              && FitsKernel(old(kernel.banks[1 - kernel.atomicIndex]), plan)
              && (refuse.Some? ==> refuse.value > LoadSize(plan)))
        && (ok ==> committed == plan && kernel.atomicIndex == 1 - old(kernel.atomicIndex))
        && (!ok ==> committed == old(committed) && kernel.atomicIndex == old(kernel.atomicIndex)
                    && kernel.banks[kernel.atomicIndex] == old(kernel.banks[kernel.atomicIndex]))
    {
      hide Accepts, Written, AllAccepted, Holds, After, Script, FitsKernel;
      var currentIndex := if isFirstRun then 0 else kernel.atomicIndex;
      isFirstRun := false;
      var side := if currentIndex == 0 then 1 else 0;
      ghost var (before, plan, bank) := (Maps(), Prepared(), kernel.banks[side]);
      var done := LoadElements(side, refuse);
      writes := done;
      ok := done == |xdpBackends| + |xdpKeys| && refuse != Some(done);
      LoadEnds(before, plan, done, ok);
      LoadSucceedsExactly(bank, plan, done, refuse);
      if ok {
        kernel.atomicIndex := 1 - currentIndex;
        committed := plan;
      }
    }

    // ---- After the flip ----

    predicate CursorsFit(cursors: map<ServiceKey, nat>)
      reads `xdpKeys
    {
      |cursors.Keys + NumberTheory.Elements(xdpKeys)| <= 256
    }

    /**
     Every configured service's cursor back to 0; cursors of services long gone still take up room. When there is none
     for the next service, the ones before it are zeroed and it and some after it have none.
     */
    method ResetCursors(ghost bank: Bank) returns (ok: bool, ghost es: seq<Resets.Event>, ghost done: nat)
      requires |kernel.rrIndex| <= Resets.MAX_CURSORS
      modifies kernel`rrIndex
      ensures |kernel.rrIndex| <= Resets.MAX_CURSORS && done <= |xdpKeys| && (ok <==> done == |xdpKeys|)
      ensures ok <==> CursorsFit(old(kernel.rrIndex))
      ensures CursorsReset(kernel.rrIndex, old(kernel.rrIndex), xdpKeys[..done])
      ensures !ok ==> xdpKeys[done] !in kernel.rrIndex && |kernel.rrIndex| == Resets.MAX_CURSORS
      ensures Resets.Leads(Prepared(), bank, Resets.State(old(kernel.Abs()), Resets.Cursors(0)), es,
                           Resets.State(kernel.Abs(), Resets.Cursors(done)))
    {
      hide CursorsReset, Resets.Leads;
      NoCursorsReset(kernel.rrIndex);
      ghost var (plan, from) := (Prepared(), Resets.State(kernel.Abs(), Resets.Cursors(0)));
      es, done := [], 0;
      Resets.LeadsNowhere(plan, bank, from);
      for i := 0 to |xdpKeys|
        invariant done == i && |kernel.rrIndex| <= Resets.MAX_CURSORS
        invariant CursorsReset(kernel.rrIndex, from.path.rrIndex, xdpKeys[..i])
        invariant Resets.Leads(plan, bank, from, es, Resets.State(kernel.Abs(), Resets.Cursors(i)))
      {
        if xdpKeys[i] !in kernel.rrIndex && |kernel.rrIndex| >= Resets.MAX_CURSORS {
          CursorsNeedRoom(kernel.rrIndex, from.path.rrIndex, xdpKeys, i);
          return false, es, done;
        }
        ResetOneMore(kernel.rrIndex, from.path.rrIndex, xdpKeys[..i], xdpKeys[i]);
        Resets.LeadsOn(plan, bank, from, es, Resets.State(kernel.Abs(), Resets.Cursors(i)), Resets.ZeroCursor);
        kernel.rrIndex := kernel.rrIndex[xdpKeys[i] := 0];
        es, done := es + [Resets.ZeroCursor], done + 1;
        assert xdpKeys[..i + 1] == xdpKeys[..i] + [xdpKeys[i]];
      }
      assert xdpKeys[..|xdpKeys|] == xdpKeys;
      AllCursorsReset(kernel.rrIndex, from.path.rrIndex, xdpKeys);
      ok := true;
    }

    method ClearWrrStates(ghost bank: Bank) returns (ghost es: seq<Resets.Event>)
      modifies kernel`wrrState
      ensures kernel.wrrState == map[]
      ensures Resets.Leads(Prepared(), bank, Resets.State(old(kernel.Abs()), Resets.Cursors(|xdpKeys|)), es,
                           Resets.State(kernel.Abs(), Resets.Clearing))
    {
      hide Resets.Leads;
      ghost var (plan, stage) := (Prepared(), Resets.Cursors(|xdpKeys|));
      ghost var from := Resets.State(kernel.Abs(), stage);
      es := [];
      Resets.LeadsNowhere(plan, bank, from);
      while kernel.wrrState != map[]
        invariant Resets.Leads(plan, bank, from, es, Resets.State(kernel.Abs(), stage))
        decreases |kernel.wrrState|
      {
        var key :| key in kernel.wrrState;
        Resets.LeadsOn(plan, bank, from, es, Resets.State(kernel.Abs(), stage), Resets.ForgetWeights(key));
        kernel.wrrState := kernel.wrrState - {key};
        es := es + [Resets.ForgetWeights(key)];
      }
      Resets.LeadsOn(plan, bank, from, es, Resets.State(kernel.Abs(), stage), Resets.WeightsGone);
      es := es + [Resets.WeightsGone];
    }

    method ClearSessions(ghost bank: Bank) returns (ghost es: seq<Resets.Event>)
      modifies kernel`sessions
      ensures kernel.sessions == map[]
      ensures Resets.Leads(Prepared(), bank, Resets.State(old(kernel.Abs()), Resets.Clearing), es,
                           Resets.State(kernel.Abs(), Resets.Counters(0)))
    {
      hide Resets.Leads;
      ghost var (plan, stage) := (Prepared(), Resets.Clearing);
      ghost var from := Resets.State(kernel.Abs(), stage);
      es := [];
      Resets.LeadsNowhere(plan, bank, from);
      while kernel.sessions != map[]
        invariant Resets.Leads(plan, bank, from, es, Resets.State(kernel.Abs(), stage))
        decreases |kernel.sessions|
      {
        var key :| key in kernel.sessions;
        Resets.LeadsOn(plan, bank, from, es, Resets.State(kernel.Abs(), stage), Resets.ForgetSession(key));
        kernel.sessions := kernel.sessions - {key};
        es := es + [Resets.ForgetSession(key)];
      }
      Resets.LeadsOn(plan, bank, from, es, Resets.State(kernel.Abs(), stage), Resets.SessionsGone);
      es := es + [Resets.SessionsGone];
    }

    method ResetBackendStats(ghost bank: Bank) returns (ghost es: seq<Resets.Event>)
      modifies kernel`backendConns
      ensures SameExceptZeroed(kernel.backendConns, old(kernel.backendConns), NumberTheory.Range(|xdpBackends|))
      ensures Resets.Leads(Prepared(), bank, Resets.State(old(kernel.Abs()), Resets.Counters(0)), es,
                           Resets.State(kernel.Abs(), Resets.Counters(|xdpBackends|)))
    {
      NothingZeroed(kernel.backendConns);
      hide SameExceptZeroed, Resets.ZeroAt, Resets.Leads;
      ghost var (plan, from) := (Prepared(), Resets.State(kernel.Abs(), Resets.Counters(0)));
      es := [];
      Resets.LeadsNowhere(plan, bank, from);
      for idx := 0 to |xdpBackends|
        invariant SameExceptZeroed(kernel.backendConns, from.path.backendConns, NumberTheory.Range(idx))
        invariant Resets.Leads(plan, bank, from, es, Resets.State(kernel.Abs(), Resets.Counters(idx)))
      {
        ZeroOneMore(kernel.backendConns, from.path.backendConns, NumberTheory.Range(idx), idx);
        Resets.LeadsOverBackendRow(plan, bank, from, es, kernel.Abs(), idx);
        kernel.backendConns := Resets.ZeroAt(kernel.backendConns, idx);
        es := es + [Resets.ZeroRow];
      }
    }

    predicate StatsKeysFit()
      reads `xdpKeys
    {
      forall k :: k in xdpKeys ==> Resets.StatsRow(k) < 256
    }

    /** The rows zeroed are those of the keys before the first bad one, whatever services they count for. */
    ghost predicate ServiceStatsReset(before: seq<seq<int>>)
      reads `xdpKeys, kernel`serviceConns
    {
      SameExceptZeroed(kernel.serviceConns, before, StatsRows(xdpKeys[..GoodRows(xdpKeys)]))
    }

    /** Stops at the first key that is no row of the map. */
    method ResetServiceStats(ghost bank: Bank) returns (ok: bool, ghost es: seq<Resets.Event>, ghost done: nat)
      requires Paired(Prepared())
      modifies kernel`serviceConns
      ensures done <= |xdpKeys| && (ok <==> done == |xdpKeys|)
      ensures forall i :: 0 <= i < done ==> Resets.StatsRow(xdpKeys[i]) < MAX_SERVICES
      ensures !ok ==> Resets.StatsRow(xdpKeys[done]) >= MAX_SERVICES
      ensures SameExceptZeroed(kernel.serviceConns, old(kernel.serviceConns), StatsRows(xdpKeys[..done]))
      ensures Resets.Leads(Prepared(), bank, Resets.State(old(kernel.Abs()), Resets.Counters(|xdpBackends|)), es,
                           Resets.State(kernel.Abs(), Resets.Counters(|xdpBackends| + done)))
    {
      hide SameExceptZeroed, Resets.ZeroAt, Resets.Leads, StatsRows, Resets.StatsRow;
      ghost var (plan, from) := (Prepared(), Resets.State(kernel.Abs(), Resets.Counters(|xdpBackends|)));
      es, done := [], 0;
      NothingZeroed(kernel.serviceConns);
      Resets.LeadsNowhere(plan, bank, from);
      for i := 0 to |xdpKeys|
        invariant done == i && forall j :: 0 <= j < i ==> Resets.StatsRow(xdpKeys[j]) < MAX_SERVICES
        invariant SameExceptZeroed(kernel.serviceConns, from.path.serviceConns, StatsRows(xdpKeys[..i]))
        invariant Resets.Leads(plan, bank, from, es, Resets.State(kernel.Abs(), Resets.Counters(|xdpBackends| + i)))
      {
        var row := Resets.StatsRow(xdpKeys[i]);
        if row >= MAX_SERVICES {
          return false, es, done;
        }
        ZeroOneMore(kernel.serviceConns, from.path.serviceConns, StatsRows(xdpKeys[..i]), row);
        Resets.LeadsOverServiceRow(plan, bank, from, es, kernel.Abs(), i);
        StatsRowsGoOn(xdpKeys, i);
        kernel.serviceConns := Resets.ZeroAt(kernel.serviceConns, row);
        es, done := es + [Resets.ZeroRow], done + 1;
      }
      ok := true;
    }

    lemma StopsAtTheFirstBadRow(done: nat)
      requires done <= |xdpKeys| && forall i :: 0 <= i < done ==> Resets.StatsRow(xdpKeys[i]) < MAX_SERVICES
      requires done < |xdpKeys| ==> Resets.StatsRow(xdpKeys[done]) >= MAX_SERVICES
      ensures GoodRows(xdpKeys) == done && (done == |xdpKeys| <==> StatsKeysFit())
    {
      GoodRowsAre(xdpKeys, done);
      hide GoodRows, Resets.StatsRow;
    }

    // ---- The rings ----

    ghost predicate RingsOk()
      reads chManager, chManager.kernel, chManager.kernel.currLookup, chManager.kernel.prevLookup
      reads chManager.kernel.backends
      reads chManager.services.Values, chManager.published
    {
      && chManager.Valid()
      && (chManager.published != null ==> chManager.published.config == DEFAULT_RING)
      && forall k :: k in chManager.services ==> chManager.services[k].config == DEFAULT_RING
    }

    ghost predicate RingsTied(m: RH.Managed)
      reads chManager`services, chManager.services.Values
    {
      && m.rings.Keys == chManager.services.Keys
      && forall k :: k in chManager.services ==> m.rings[k] == chManager.services[k].Abs()
    }

    ghost predicate ShownTied(m: RH.Managed)
      reads chManager, chManager.published
    {
      ShownIn(m.shown, chManager.services, chManager.published)
    }

    /** managed says which rings there are and which one the kernel's maps show. */
    ghost predicate ManagedOk()
      reads `managed, chManager, chManager.services.Values, chManager.published
    {
      RingsTied(managed) && ShownTied(managed)
    }

    /** The array entries for the service's enabled reals, looked up by address. */
    method CollectRingBackends(service: Service) returns (list: seq<Backend>)
      requires ServiceOk(service)
      ensures list == RingBackends(xdpBackends, service, |service.reals|)
    {
      list := [];
      for j := 0 to |service.reals|
        invariant list == RingBackends(xdpBackends, service, j)
      {
        var r := service.reals[j];
        if r.enabled {
          var wanted := RecordOf(service, r);
          var bi := 0;
          while bi < |xdpBackends| && !SameAddress(xdpBackends[bi], wanted)
            invariant bi <= |xdpBackends|
            invariant FirstWithAddress(xdpBackends, wanted, 0) == FirstWithAddress(xdpBackends, wanted, bi)
          {
            bi := bi + 1;
          }
          if bi < |xdpBackends| {
            list := list + [xdpBackends[bi]];
          }
        }
      }
    }

    method UpdateRing(key: ServiceKey, list: seq<Backend>)
      requires RingsOk() && list != []
      modifies chManager, chManager.services.Values
      modifies chManager.kernel, chManager.kernel.currLookup, chManager.kernel.prevLookup, chManager.kernel.backends
      ensures RingsOk() && NewRingsAreFresh(chManager)
      ensures chManager.services.Keys == old(chManager.services).Keys + {key}
      ensures forall k :: k in old(chManager.services) && k != key ==>
        chManager.services[k] == old(chManager.services[k]) &&
          chManager.services[k].Abs() == old(chManager.services[k].Abs())
      ensures chManager.services[key].Abs() ==
        RH.Updated(if key in old(chManager.services) then old(chManager.services[key].Abs()) else CH.NO_RINGS, list)
      ensures chManager.published == if RH.Fits(list) then chManager.services[key] else null
    {
      hide ChManager.ConsistentHashManager.Valid, CH.ValidConfig;
      DefaultRingIsValid();
      var updated := chManager.UpdateServiceBackends(key, list, DEFAULT_RING);
      assert chManager.services[key].backends == list;
    }

    method WriteRing(e: RH.Entry)
      requires RingsOk() && ManagedOk() && e.backends != []
      modifies this`managed, chManager, chManager.services.Values
      modifies chManager.kernel, chManager.kernel.currLookup, chManager.kernel.prevLookup, chManager.kernel.backends
      ensures RingsOk() && ManagedOk() && NewRingsAreFresh(chManager) && managed == RH.Refresh(old(managed), e)
    {
      hide RingsOk, NewRingsAreFresh, RH.Updated, CH.ConsistentHashInstance.Abs;
      UpdateRing(e.key, e.backends);
      ghost var t := RH.Refresh(managed, e);
      assert RingsTied(t) && ShownTied(t);
      hide RingsTied, ShownTied, RH.Refresh;
      managed := t;
    }

    lemma ShownRingIsOnlyOnce()
      requires RingsOk() && ManagedOk()
      ensures ShownOnce(managed, chManager.services, chManager.published)
    {
    }

    method DropRing(key: ServiceKey)
      requires RingsOk()
      modifies chManager
      ensures RingsOk() && NewRingsAreFresh(chManager)
      ensures chManager.services == old(chManager.services) - {key} && chManager.published == old(chManager.published)
      ensures forall k :: k in chManager.services ==> chManager.services[k].Abs() == old(chManager.services[k].Abs())
    {
      hide ChManager.ConsistentHashManager.Valid;
      var removed := chManager.RemoveService(key);
    }

    method DropTied(e: RH.Entry, ghost m: RH.Managed)
      requires RingsOk() && RingsTied(m) && e.backends == []
      modifies chManager
      ensures RingsOk() && NewRingsAreFresh(chManager) && RingsTied(RH.Refresh(m, e))
      ensures chManager.services == old(chManager.services) - {e.key} && chManager.published == old(chManager.published)
    {
      hide RingsOk, NewRingsAreFresh, CH.ConsistentHashInstance.Abs;
      DropRing(e.key);
    }

    method ForgetRing(e: RH.Entry)
      requires RingsOk() && ManagedOk() && e.backends == []
      modifies this`managed, chManager
      ensures RingsOk() && ManagedOk() && NewRingsAreFresh(chManager) && managed == RH.Refresh(old(managed), e)
    {
      ShownRingIsOnlyOnce();
      hide RingsOk, NewRingsAreFresh, RingsTied, ShownIn, ShownOnce, RH.Refresh;
      ShownAfterRemoval(managed, e, chManager.services, chManager.published);
      ghost var before := managed;
      managed := RH.Refresh(managed, e);
      DropTied(e, before);
    }

    /** Writes the ring, or forgets it when nothing in it is enabled; the kernel's maps then stay as they were. */
    method RefreshRing(e: RH.Entry)
      requires RingsOk() && ManagedOk()
      modifies this`managed, chManager, chManager.services.Values
      modifies chManager.kernel, chManager.kernel.currLookup, chManager.kernel.prevLookup, chManager.kernel.backends
      ensures RingsOk() && ManagedOk() && NewRingsAreFresh(chManager) && managed == RH.Refresh(old(managed), e)
    {
      hide RingsOk, ManagedOk, RH.Refresh, NewRingsAreFresh;
      if e.backends != [] {
        WriteRing(e);
      } else {
        ForgetRing(e);
      }
    }

    method RefreshRings(config: seq<Service>)
      requires RingsOk() && ManagedOk() && Resolves(config, |config|) && xdpBackends == PlanOf(config).backends
      modifies this`managed, chManager, chManager.services.Values
      modifies chManager.kernel, chManager.kernel.currLookup, chManager.kernel.prevLookup, chManager.kernel.backends
      ensures RingsOk() && ManagedOk() && managed == RH.Reload(old(managed), Entries(config, |config|))
    {
      hide RingsOk, ManagedOk, PlanOf, RingBackends, RingKeyOf, RH.Reload, Entries;
      assert Entries(config, 0) == [] && RH.Reload(managed, []) == managed by {
        NothingToReload(managed);
        NoEntries(config);
      }
      for n := 0 to |config|
        invariant RingsOk() && ManagedOk() && managed == RH.Reload(old(managed), Entries(config, n))
        invariant fresh(chManager.services.Values - old(chManager.services.Values))
      {
        EntriesGoOn(config, n, old(managed));
        if IsRing(config[n]) {
          var list := CollectRingBackends(config[n]);
          RefreshRing(RH.Entry(RingKeyOf(config[n]), list));
        }
      }
    }

    // ---- The whole reload ----

    /** No session, no weighted state, every configured cursor at 0, no connection counted for a configured backend. */
    ghost predicate FreshStart()
      reads `xdpKeys, `xdpBackends, kernel`sessions, kernel`wrrState, kernel`rrIndex, kernel`backendConns
    {
      && kernel.sessions == map[] && kernel.wrrState == map[]
      && CursorsZero() && BackendRowsZero()
    }

    ghost predicate CursorsZero()
      reads `xdpKeys, kernel`rrIndex
    {
      forall k :: k in xdpKeys ==> k in kernel.rrIndex && kernel.rrIndex[k] == 0
    }

    lemma ResetCursorsAreZero(cursors: map<ServiceKey, nat>)
      requires CursorsReset(kernel.rrIndex, cursors, xdpKeys)
      ensures CursorsZero()
    {
    }

    lemma TwoBanks()
      requires MapsOk()
      ensures kernel.Valid()
    {
    }

    ghost predicate BackendRowsZero()
      reads `xdpBackends, kernel`backendConns
    {
      NothingBelow(kernel.backendConns, |xdpBackends|)
    }

    method ResetSelection(ghost bank: Bank) returns (ok: bool, ghost es: seq<Resets.Event>, ghost done: nat)
      requires MapsOk()
      modifies kernel`rrIndex, kernel`wrrState
      ensures MapsOk() && done <= |xdpKeys| && (ok <==> done == |xdpKeys|)
      ensures ok <==> CursorsFit(old(kernel.rrIndex))
      ensures CursorsReset(kernel.rrIndex, old(kernel.rrIndex), xdpKeys[..done])
      ensures ok ==> kernel.wrrState == map[]
      ensures !ok ==> kernel.wrrState == old(kernel.wrrState)
      ensures !ok ==> xdpKeys[done] !in kernel.rrIndex && |kernel.rrIndex| == Resets.MAX_CURSORS
      ensures Resets.Leads(Prepared(), bank, Resets.State(old(kernel.Abs()), Resets.Cursors(0)), es,
                           Resets.State(kernel.Abs(), if ok then Resets.Clearing else Resets.Cursors(done)))
    {
      hide Consistent, CursorsReset, CursorsFit, Resets.Leads;
      ghost var before := kernel.Abs();
      ok, es, done := ResetCursors(bank);
      if ok {
        ghost var mid := kernel.Abs();
        ghost var fs := ClearWrrStates(bank);
        Resets.LeadsFurther(Prepared(), bank, Resets.State(before, Resets.Cursors(0)), es,
                          Resets.State(mid, Resets.Cursors(|xdpKeys|)), fs,
                          Resets.State(kernel.Abs(), Resets.Clearing));
        es := es + fs;
      }
    }

    method ResetStats(ghost bank: Bank) returns (ok: bool, ghost es: seq<Resets.Event>)
      requires RowsOk() && Paired(Prepared())
      modifies kernel`backendConns, kernel`serviceConns
      ensures RowsOk() && BackendRowsZero()
      ensures (ok <==> StatsKeysFit()) && ServiceStatsReset(old(kernel.serviceConns))
      ensures Resets.Leads(Prepared(), bank, Resets.State(old(kernel.Abs()), Resets.Counters(0)), es,
                           Resets.State(kernel.Abs(), Resets.Counters(|xdpBackends| + GoodRows(xdpKeys))))
    {
      hide StatsKeysFit, GoodRows, StatsRows, Resets.Leads, Resets.StatsRow, SameExceptZeroed, Wide, NothingBelow;
      ghost var before := kernel.Abs();
      es := ResetBackendStats(bank);
      ZeroedBelow(kernel.backendConns, before.backendConns, |xdpBackends|);
      ZeroingKeepsWidth(kernel.backendConns, before.backendConns, NumberTheory.Range(|xdpBackends|), MAX_BACKENDS);
      ghost var mid := kernel.Abs();
      ghost var (fs, done) := (es, 0);
      ok, fs, done := ResetServiceStats(bank);
      StopsAtTheFirstBadRow(done);
      ZeroingKeepsWidth(kernel.serviceConns, before.serviceConns, StatsRows(xdpKeys[..done]), MAX_SERVICES);
      Resets.LeadsFurther(Prepared(), bank, Resets.State(before, Resets.Counters(0)), es,
                          Resets.State(mid, Resets.Counters(|xdpBackends|)), fs,
                          Resets.State(kernel.Abs(), Resets.Counters(|xdpBackends| + GoodRows(xdpKeys))));
      es := es + fs;
    }

    method ResetSessionsAndStats(ghost bank: Bank) returns (ok: bool, ghost es: seq<Resets.Event>)
      requires MapsOk() && kernel.wrrState == map[] && CursorsZero()
      requires Paired(Prepared())
      modifies kernel`sessions, kernel`backendConns, kernel`serviceConns
      ensures MapsOk() && FreshStart() && (ok <==> StatsKeysFit()) && ServiceStatsReset(old(kernel.serviceConns))
      ensures Resets.Leads(Prepared(), bank, Resets.State(old(kernel.Abs()), Resets.Clearing), es,
                           Resets.State(kernel.Abs(), Resets.Counters(|xdpBackends| + GoodRows(xdpKeys))))
    {
      hide Consistent, CursorsZero, StatsKeysFit, ServiceStatsReset, RowsOk, BackendRowsZero, Resets.Leads;
      ghost var before := kernel.Abs();
      es := ClearSessions(bank);
      ghost var mid := kernel.Abs();
      ghost var fs;
      ok, fs := ResetStats(bank);
      Resets.LeadsFurther(Prepared(), bank, Resets.State(before, Resets.Clearing), es,
                          Resets.State(mid, Resets.Counters(0)), fs,
                          Resets.State(kernel.Abs(), Resets.Counters(|xdpBackends| + GoodRows(xdpKeys))));
      es := es + fs;
    }

    /** Where the steps after the flip stop, with this outcome. */
    ghost predicate StopsAt(outcome: Outcome, before: Path, t: Resets.State)
      reads `xdpKeys, `xdpServices, `xdpBackends
    {
      match outcome
      case CursorsFull =>
        Resets.Stuck(t, Prepared()) && CursorsReset(t.path.rrIndex, before.rrIndex, xdpKeys[..t.stage.done])
      case WrongStatsKey => t.stage.Counters? && t.stage.done < LoadSize(Prepared())
      case Reloaded => t.stage == Resets.Counters(LoadSize(Prepared()))
      case _ => false
    }

    /** The packet path's maps are where these events lead from before, and the steps stop there. */
    ghost predicate ResetBy(outcome: Outcome, before: Path, bank: Bank, es: seq<Resets.Event>)
      reads `xdpKeys, `xdpServices, `xdpBackends
      reads kernel`rrIndex, kernel`wrrState, kernel`sessions, kernel`backendConns, kernel`serviceConns
    {
      var t := Resets.After(Resets.State(before, Resets.Cursors(0)), bank, Prepared(), es);
      t.path == Path(kernel.rrIndex, kernel.wrrState, kernel.sessions, kernel.backendConns, kernel.serviceConns) &&
        StopsAt(outcome, before, t)
    }

    lemma StopsInCounters(ok: bool, before: Path, t: Resets.State)
      requires Paired(Prepared()) && (ok <==> StatsKeysFit())
      requires t.stage == Resets.Counters(|xdpBackends| + GoodRows(xdpKeys))
      ensures StopsAt(if ok then Reloaded else WrongStatsKey, before, t)
    {
      if ok {
        GoodRowsAre(xdpKeys, |xdpKeys|);
      }
    }

    /** The steps after the flip, and the events they are when no packet arrives in between. */
    method ResetAfterFlip(config: seq<Service>, ghost bank: Bank)
      returns (outcome: Outcome, ghost es: seq<Resets.Event>)
      requires MapsOk() && RingsOk() && ManagedOk() && Resolves(config, |config|) && Prepared() == PlanOf(config)
      modifies kernel`rrIndex, kernel`wrrState, kernel`sessions, kernel`backendConns, kernel`serviceConns
      modifies this`managed, chManager, chManager.services.Values
      modifies chManager.kernel, chManager.kernel.currLookup, chManager.kernel.prevLookup, chManager.kernel.backends
      ensures MapsOk() && RingsOk() && ManagedOk()
      ensures outcome ==
        if !CursorsFit(old(kernel.rrIndex)) then CursorsFull else if StatsKeysFit() then Reloaded else WrongStatsKey
      ensures outcome != CursorsFull ==> FreshStart() && ServiceStatsReset(old(kernel.serviceConns))
      ensures outcome != CursorsFull ==> managed == RH.Reload(old(managed), Entries(config, |config|))
      ensures outcome == CursorsFull ==>
        && kernel.sessions == old(kernel.sessions) && kernel.wrrState == old(kernel.wrrState)
        && kernel.backendConns == old(kernel.backendConns) && kernel.serviceConns == old(kernel.serviceConns)
        && managed == old(managed)
      ensures ResetBy(outcome, old(kernel.Abs()), bank, es)
    {
      hide MapsOk, RingsOk, ManagedOk, PlanOf, FreshStart, CursorsFit, StatsKeysFit, CursorsReset, ServiceStatsReset;
      hide Resets.After, GoodRows, CursorsZero;
      PlanIsPaired(config);
      ghost var before := kernel.Abs();
      var ok;
      ghost var done;
      ok, es, done := ResetSelection(bank);
      if !ok {
        return CursorsFull, es;
      }
      assert xdpKeys[..done] == xdpKeys;
      ghost var mid := kernel.Abs();
      ghost var fs;
      RefreshRings(config);
      ResetCursorsAreZero(before.rrIndex);
      ok, fs := ResetSessionsAndStats(bank);
      Resets.LeadsFurther(Prepared(), bank, Resets.State(before, Resets.Cursors(0)), es,
                          Resets.State(mid, Resets.Clearing), fs,
                          Resets.State(kernel.Abs(), Resets.Counters(|xdpBackends| + GoodRows(xdpKeys))));
      es := es + fs;
      outcome := if ok then Reloaded else WrongStatsKey;
      StopsInCounters(ok, before, Resets.State(kernel.Abs(), Resets.Counters(|xdpBackends| + GoodRows(xdpKeys))));
    }

    /** Loads the prepared plan, flips, and resets. */
    method PutInForce(config: seq<Service>, refuse: Option<nat>)
      returns (outcome: Outcome, ghost writes: nat, ghost resets: seq<Resets.Event>)
      requires MapsOk() && RingsOk() && ManagedOk() && Resolves(config, |config|) && Prepared() == PlanOf(config)
      modifies kernel, this`isFirstRun, this`committed, this`managed, chManager, chManager.services.Values
      modifies chManager.kernel, chManager.kernel.currLookup, chManager.kernel.prevLookup, chManager.kernel.backends
      ensures MapsOk() && RingsOk() && ManagedOk()
      ensures !outcome.Rejected?
      ensures outcome == NotLoaded <==>
        !FitsKernel(old(kernel.banks[1 - kernel.atomicIndex]), PlanOf(config)) ||
          (refuse.Some? && refuse.value <= LoadSize(PlanOf(config)))
      ensures outcome == NotLoaded ==>
        && Maps() == After(old(Maps()), Script(PlanOf(config), writes, Fail))
        && committed == old(committed) && kernel.atomicIndex == old(kernel.atomicIndex)
        && kernel.banks[kernel.atomicIndex] == old(kernel.banks[kernel.atomicIndex])
        && kernel.rrIndex == old(kernel.rrIndex)
      ensures outcome in {CursorsFull, WrongStatsKey, Reloaded} ==>
        && Maps() == After(old(Maps()), Script(PlanOf(config), writes, Flip))
        && committed == PlanOf(config)
        && outcome ==
          if !CursorsFit(old(kernel.rrIndex)) then CursorsFull else if StatsKeysFit() then Reloaded else WrongStatsKey
      ensures outcome in {WrongStatsKey, Reloaded} ==> FreshStart() && ServiceStatsReset(old(kernel.serviceConns))
      ensures outcome in {NotLoaded, CursorsFull} ==>
        && kernel.sessions == old(kernel.sessions) && kernel.wrrState == old(kernel.wrrState)
        && kernel.backendConns == old(kernel.backendConns) && kernel.serviceConns == old(kernel.serviceConns)
      ensures outcome in {WrongStatsKey, Reloaded} ==> managed == RH.Reload(old(managed), Entries(config, |config|))
      ensures outcome !in {WrongStatsKey, Reloaded} ==> managed == old(managed)
      ensures outcome in {CursorsFull, WrongStatsKey, Reloaded} ==>
        ResetBy(outcome, old(kernel.Abs()), kernel.Active(), resets)
    {
      hide RingsOk, ManagedOk, Entries, PlanOf, Script, FitsKernel, FreshStart, MapsOk;
      hide Resolves, After, CursorsFit, StatsKeysFit, ServiceStatsReset, Prepared, Maps, LoadSize;
      hide ResetBy;
      resets := [];
      PlanIsPaired(config);
      var ok;
      ok, writes := LoadAndFlip(refuse);
      if !ok {
        return NotLoaded, writes, resets;
      }
      TwoBanks();
      outcome, resets := ResetAfterFlip(config, kernel.Active());
    }

    /**
     ReloadConfig. refuse is an element of the load that the kernel turns down for reasons of its own, if any.
     Errors returned before the flip leave the configuration in force untouched; errors returned after it do not.
     */
    method ReloadConfig(config: seq<Service>, refuse: Option<nat>)
      returns (outcome: Outcome, ghost writes: nat, ghost resets: seq<Resets.Event>)
      requires MapsOk() && RingsOk() && ManagedOk()
      modifies this, kernel, chManager, chManager.services.Values
      modifies chManager.kernel, chManager.kernel.currLookup, chManager.kernel.prevLookup, chManager.kernel.backends
      ensures MapsOk() && RingsOk() && ManagedOk()
      ensures outcome.Rejected? <==> !Resolves(config, |config|)
      ensures outcome.Rejected? ==>
        FirstFault(config, outcome.fault) && unchanged(kernel) && committed == old(committed)
      ensures Resolves(config, |config|) ==>
        var plan := PlanOf(config);
        outcome == NotLoaded <==>
          !FitsKernel(old(kernel.banks[1 - kernel.atomicIndex]), plan) ||
            (refuse.Some? && refuse.value <= LoadSize(plan))
      ensures outcome == NotLoaded ==>
        && Maps() == After(old(Maps()), Script(PlanOf(config), writes, Fail))
        && committed == old(committed) && kernel.atomicIndex == old(kernel.atomicIndex)
        && kernel.banks[kernel.atomicIndex] == old(kernel.banks[kernel.atomicIndex])
        && kernel.rrIndex == old(kernel.rrIndex)
      ensures outcome in {CursorsFull, WrongStatsKey, Reloaded} ==>
        && Maps() == After(old(Maps()), Script(PlanOf(config), writes, Flip))
        && committed == PlanOf(config) == Prepared()
        && outcome ==
          if !CursorsFit(old(kernel.rrIndex)) then CursorsFull else if StatsKeysFit() then Reloaded else WrongStatsKey
      ensures outcome in {WrongStatsKey, Reloaded} ==> FreshStart() && ServiceStatsReset(old(kernel.serviceConns))
      ensures outcome in {NotLoaded, CursorsFull} ==>
        && kernel.sessions == old(kernel.sessions) && kernel.wrrState == old(kernel.wrrState)
        && kernel.backendConns == old(kernel.backendConns) && kernel.serviceConns == old(kernel.serviceConns)
      ensures outcome in {WrongStatsKey, Reloaded} ==> managed == RH.Reload(old(managed), Entries(config, |config|))
      ensures outcome !in {WrongStatsKey, Reloaded} ==> managed == old(managed)
      ensures outcome in {CursorsFull, WrongStatsKey, Reloaded} ==>
        ResetBy(outcome, old(kernel.Abs()), kernel.Active(), resets)
    {
      hide RingsOk, ManagedOk, Entries, PlanOf, Script, FitsKernel, FreshStart, MapsOk;
      hide Resolves, FirstFault, After, CursorsFit, StatsKeysFit, ServiceStatsReset, Prepared, Maps, LoadSize;
      hide ResetBy;
      writes, resets := 0, [];
      var fault := Prepare(config);
      if fault.Some? {
        return Rejected(fault.value), writes, resets;
      }
      outcome, writes, resets := PutInForce(config, refuse);
    }

    /** Once the resets are through, packets start afresh on the new configuration with zeroed counters. */
    lemma ReloadStartsAfresh(config: seq<Service>)
      requires MapsOk() && FreshStart() && Resolves(config, |config|) && committed == Prepared() == PlanOf(config)
      ensures kernel.Valid() && Serving.Fresh(kernel.Abs(), kernel.Active(), config)
      ensures forall x: nat :: x < |xdpBackends| ==> Sessions.SumOverCpus(kernel.backendConns, x) == 0
    {
      forall i | 0 <= i < |config| ensures KeyOf(config[i]) in kernel.rrIndex && kernel.rrIndex[KeyOf(config[i])] == 0 {
        assert xdpKeys[i] == KeyOf(config[i]);
      }
      forall x: nat | x < |xdpBackends| ensures Sessions.SumOverCpus(kernel.backendConns, x) == 0 {
        ZeroRowsSumToZero(kernel.backendConns, x);
      }
      hide Holds, Flatten;
    }

    /**
     With packets arriving between the resets as they may: once the control plane reaches the counters, what the packet
     path remembers fits the new configuration, whatever it was at the flip.
     */
    lemma ReloadSettlesDespiteTraffic(config: seq<Service>, before: Path, es: seq<Resets.Event>)
      requires MapsOk() && Resolves(config, |config|) && committed == Prepared() == PlanOf(config)
      ensures kernel.Valid()
      ensures var t := Resets.After(Resets.State(before, Resets.Cursors(0)), kernel.Active(), Prepared(), es);
        t.stage.Counters? ==> Serving.Settled(t.path, kernel.Active(), config)
    {
      ActiveHolds(config);
      hide MapsOk, Resets.After, PlanOf, Holds, Serving.Settled, Resets.Progress;
      Resets.SettledDespiteTraffic(Resets.State(before, Resets.Cursors(0)), kernel.Active(), config, es);
    }

    /**
     From there on, over any run: the reported connections of a configured backend are its live sessions plus the
     losses since; those of a service carry on from what its row held after the reload.
     */
    lemma ConnectionsAfterReload(config: seq<Service>, ps: seq<Packet>, x: nat)
      requires MapsOk() && FreshStart() && Resolves(config, |config|) && committed == Prepared() == PlanOf(config)
      requires forall i :: 0 <= i < |ps| ==> Sessions.Plausible(ps[i], kernel.Active(), |kernel.backendConns|)
      ensures var after := Sessions.Run(kernel.Abs(), kernel.Active(), ps);
        && (x < |xdpBackends| ==>
              Sessions.SumOverCpus(after.backendConns, x) ==
                |Sessions.LiveKeys(after.sessions, Sessions.ByBackend, x)| +
                Sessions.LostInRun(kernel.Abs(), kernel.Active(), ps, Sessions.ByBackend, x))
        && (x < MAX_SERVICES ==>
              Sessions.SumOverCpus(after.serviceConns, x) ==
                Sessions.SumOverCpus(kernel.serviceConns, x) +
                  |Sessions.LiveKeys(after.sessions, Sessions.ByService, x)| +
                Sessions.LostInRun(kernel.Abs(), kernel.Active(), ps, Sessions.ByService, x))
    {
      var s, bank, cpus := kernel.Abs(), kernel.Active(), |kernel.backendConns|;
      ReloadStartsAfresh(config);
      assert Sessions.LiveKeys(s.sessions, Sessions.ByBackend, x) == {};
      assert Sessions.LiveKeys(s.sessions, Sessions.ByService, x) == {};
      PlanFits(config);
      if x < |xdpBackends| {
        Sessions.SurplusIsLoss(s, bank, cpus, ps, Sessions.ByBackend, x);
      }
      if x < MAX_SERVICES {
        Sessions.SurplusIsLoss(s, bank, cpus, ps, Sessions.ByService, x);
      }
      hide Consistent, Sessions.Run, Sessions.LostInRun, Sessions.Plausible, Sessions.SumOverCpus, Sessions.LiveKeys;
    }

    lemma PlanFits(config: seq<Service>)
      requires MapsOk() && Resolves(config, |config|) && committed == Prepared() == PlanOf(config)
      ensures |xdpBackends| <= MAX_BACKENDS
    {
    }

    /** The ring service is the only one, and its list of backends is its enabled reals, which fit the kernel's map. */
    ghost predicate OneGoodRing(config: seq<Service>, i: nat) {
      && i < |config| && Resolves(config, |config|) && IsRing(config[i])
      && (forall j :: 0 <= j < |config| && j != i ==> !IsRing(config[j]))
      && (forall j :: 0 <= j < |config[i].reals| && config[i].reals[j].enabled ==>
        FoundAsItself(PlanOf(config).backends, config[i], j))
      && 1 <= |EnabledRecords(config[i], |config[i].reals|)| <= 257
    }

    /** The manager's ring for the key has these backends, and the kernel picks for every hash what that ring names. */
    ghost predicate PicksFrom(key: ServiceKey, backends: seq<Backend>)
      reads chManager, chManager.kernel, chManager.kernel.currLookup, chManager.kernel.prevLookup
      reads chManager.kernel.backends
      reads chManager.services.Values, chManager.published
      requires RingsOk()
    {
      && key in chManager.services && chManager.services[key].backends == backends
      && forall keyHash: nat :: KernelPick(keyHash) == ManagerPick(key, keyHash)
    }

    ghost function KernelPick(keyHash: nat): Option<(nat, Backend)>
      reads chManager, chManager.kernel, chManager.kernel.currLookup, chManager.kernel.prevLookup
      reads chManager.kernel.backends
      requires chManager.kernel.Valid()
    {
      chManager.kernel.ChBalancerHandle(keyHash)
    }

    /** The backend that the control plane's lookup names. */
    ghost function ManagerPick(key: ServiceKey, keyHash: nat): Option<(nat, Backend)>
      reads chManager, chManager.services.Values
      requires key in chManager.services && chManager.services[key].Valid()
    {
      var ring := chManager.services[key];
      match ring.LookupCurr(keyHash)
      case None => None
      case Some(b) => Some((b, ring.backends[b]))
    }

    /** A shown ring of enabled backends: for every hash the kernel's pick is the control plane's. */
    lemma ShownRingIsPickedFrom(key: ServiceKey)
      requires RingsOk() && ManagedOk() && managed.shown == RH.Ring(key)
      requires key in managed.rings && managed.rings[key].active != []
      requires forall b :: b in managed.rings[key].active ==> b.active
      ensures PicksFrom(key, managed.rings[key].active)
    {
      assert chManager.published == chManager.services[key];
      forall keyHash: nat ensures KernelPick(keyHash) == ManagerPick(key, keyHash) {
        ChManager.KernelAgreesWithControlPlane(chManager.kernel, chManager.published, keyHash);
      }
    }

    /**
     That pick is the ring table's, so what a packet's ring lookup answers follows from the list and the packet's
     hash.
     */
    lemma ShownRingPicksByItsTable(key: ServiceKey, keyHash: nat)
      requires RingsOk() && ManagedOk() && managed.shown == RH.Ring(key)
      requires key in managed.rings && managed.rings[key].active != []
      requires forall b :: b in managed.rings[key].active ==> b.active
      ensures KernelPick(keyHash) == Some(RingFlows.PickOf(managed.rings[key].active, chManager.hashes, keyHash))
    {
      var ring := chManager.services[key];
      assert chManager.published == ring && managed.rings[key].active == ring.backends &&
        ring.hashes == chManager.hashes;
      hide ManagedOk;
      ring.LookupFindsBackend(keyHash);
      ChManager.KernelAgreesWithControlPlane(chManager.kernel, ring, keyHash);
    }

    lemma ActiveHolds(config: seq<Service>)
      requires MapsOk() && Resolves(config, |config|) && committed == PlanOf(config)
      ensures kernel.Valid() && Holds(kernel.Active(), PlanOf(config)) && |kernel.Active().backends| == MAX_BACKENDS
    {
      hide Holds;
    }

    lemma ManagerNamesABackend(key: ServiceKey, list: seq<Backend>, keyHash: nat)
      requires RingsOk() && key in chManager.services && chManager.services[key].backends == list != []
      ensures var pick := ManagerPick(key, keyHash);
        pick.Some? && pick.value.0 < |list| && pick.value.1 == list[pick.value.0]
    {
    }

    /**
     A packet that opens a flow of the one ring service, its ring lookup answered by the kernel's maps: it goes to the
     enabled real that the control plane's lookup names for its hash.
     */
    lemma RingOpenerGoesToTheNamedReal(config: seq<Service>, i: nat, s: Path, p: Packet, keyHash: nat)
      requires MapsOk() && RingFlows.RingService(config, i) && committed == PlanOf(config)
      requires RingsOk() && PicksFrom(RingKeyOf(config[i]), EnabledRecords(config[i], |config[i].reals|))
      requires EnabledRecords(config[i], |config[i].reals|) != []
      requires Serving.AddressedTo(p.flow, config[i]) && FindSession(s, p).1 == None && p.chPick == KernelPick(keyHash)
      ensures var (key, list) := (RingKeyOf(config[i]), EnabledRecords(config[i], |config[i].reals|));
        && ManagerPick(key, keyHash).Some? && ManagerPick(key, keyHash).value.0 < |list|
        && ManagerPick(key, keyHash).value.1 == list[ManagerPick(key, keyHash).value.0]
        && IsEnabledReal(ManagerPick(key, keyHash).value.1, config[i])
        && FindTcpBackend(s, kernel.Active(), p).1 ==
             Forward(ManagerPick(key, keyHash).value.0, ManagerPick(key, keyHash).value.1)
    {
      var key, list := RingKeyOf(config[i]), EnabledRecords(config[i], |config[i].reals|);
      Serving.AddressedExactly(p.flow, config[i]);
      hide FindTcpBackend, FindSession, ServiceOf, KernelPick, ManagerPick, RingsOk, MapsOk, EnabledRecords, PlanOf;
      hide IsEnabledReal;
      ActiveHolds(config);
      assert KernelPick(keyHash) == ManagerPick(key, keyHash);
      hide PicksFrom;
      ManagerNamesABackend(key, list, keyHash);
      EnabledRecordsAreReals(config[i], |config[i].reals|, ManagerPick(key, keyHash).value.0);
      RingFlows.OpenerGoesToTheRingsPick(s, kernel.Active(), config, i, p);
    }

    /**
     A packet that opens a flow of any ring service goes to the ring shown, whichever that is: when it is another
     service's, to that service's reals.
     */
    lemma RingOpenerGoesToTheShownRing(config: seq<Service>, i: nat, key: ServiceKey, s: Path, p: Packet,
                                       keyHash: nat)
      requires MapsOk() && RingFlows.RingService(config, i) && committed == PlanOf(config)
      requires RingsOk() && ManagedOk() && managed.shown == RH.Ring(key)
      requires key in managed.rings && managed.rings[key].active != []
      requires forall b :: b in managed.rings[key].active ==> b.active
      requires ServiceOf(p.flow) == KeyOf(config[i]) && FindSession(s, p).1 == None && p.chPick == KernelPick(keyHash)
      ensures var (b, record) := RingFlows.PickOf(managed.rings[key].active, chManager.hashes, keyHash);
        FindTcpBackend(s, kernel.Active(), p).1 == Forward(b, record)
    {
      hide FindTcpBackend, FindSession, ServiceOf, KernelPick, RingsOk, MapsOk, ManagedOk, RingFlows.PickOf, PlanOf;
      ActiveHolds(config);
      ShownRingPicksByItsTable(key, keyHash);
      RingFlows.OpenerGoesToTheRingsPick(s, kernel.Active(), config, i, p);
    }

    lemma {:induction false} LastEntryIs(config: seq<Service>, n: nat, j: nat)
      requires j < n <= |config| && Resolves(config, |config|) && IsRing(config[j])
      requires forall k :: j < k < n ==> !IsRing(config[k])
      ensures var es := Entries(config, n);
        es != [] && es[|es| - 1] == RH.Entry(RingKeyOf(config[j]), RingOf(config, j))
    {
      if n - 1 > j {
        LastEntryIs(config, n - 1, j);
        hide RingOf;
      }
    }

    /** After a reload with several ring services the flows of all of them open on the reals of the last one. */
    lemma LastRingServesThemAll(config: seq<Service>, before: RH.Managed, i: nat, j: nat, s: Path, p: Packet,
                                keyHash: nat)
      requires MapsOk() && RingFlows.RingService(config, i) && committed == PlanOf(config)
      requires RingsOk() && ManagedOk() && managed == RH.Reload(before, Entries(config, |config|))
      requires j < |config| && IsRing(config[j]) && forall k :: j < k < |config| ==> !IsRing(config[k])
      requires RingOf(config, j) != [] && RH.Fits(RingOf(config, j)) && forall b :: b in RingOf(config, j) ==> b.active
      requires ServiceOf(p.flow) == KeyOf(config[i]) && FindSession(s, p).1 == None && p.chPick == KernelPick(keyHash)
      ensures var (b, record) := RingFlows.PickOf(RingOf(config, j), chManager.hashes, keyHash);
        FindTcpBackend(s, kernel.Active(), p).1 == Forward(b, record)
    {
      LastEntryIs(config, |config|, j);
      var es, key := Entries(config, |config|), RingKeyOf(config[j]);
      assert managed.shown == RH.Ring(key) && key in managed.rings && managed.rings[key].active == RingOf(config, j);
      hide FindTcpBackend, FindSession, ServiceOf, KernelPick, RingsOk, MapsOk, ManagedOk, RingFlows.PickOf, PlanOf;
      hide RingOf, Entries, RH.Reload;
      RingOpenerGoesToTheShownRing(config, i, key, s, p, keyHash);
    }

    /** A forgotten ring goes on being picked from: the kernel still answers every hash with one of its backends. */
    lemma ForgottenRingIsStillPickedFrom(backends: seq<Backend>, keyHash: nat)
      requires RingsOk() && ManagedOk() && managed.shown == RH.Forgotten(backends)
      requires backends != [] && forall b :: b in backends ==> b.active
      ensures var pick := KernelPick(keyHash);
        pick.Some? && pick.value.0 < |backends| && pick.value.1 == backends[pick.value.0]
    {
      ChManager.KernelAgreesWithControlPlane(chManager.kernel, chManager.published, keyHash);
    }

    lemma OneGoodRingEntry(config: seq<Service>, i: nat)
      requires OneGoodRing(config, i)
      ensures Entries(config, |config|) ==
        [RH.Entry(RingKeyOf(config[i]), EnabledRecords(config[i], |config[i].reals|))]
    {
      RingHasTheEnabledReals(config, i, |config[i].reals|);
      OneEntry(config, |config|, i);
    }

    /**
     After the reload the kernel picks, for every hash, the enabled real of the one ring service that the control
     plane names, and goes on doing so for as many seconds as no other ring's pending merge completes last.
     */
    lemma RingServesTheEnabledReals(config: seq<Service>, i: nat, before: RH.Managed, order: seq<ServiceKey>, n: nat)
      requires OneGoodRing(config, i) && RingsOk() && ManagedOk()
      requires var m := RH.Reload(before, Entries(config, |config|));
        && RH.Visits(order, m) && managed == RH.Seconds(m, order, n, CH.DEFAULT_MERGE_TICKS)
        && RingKeyOf(config[i]) in m.rings
        && RH.Undisturbed(m, order, RingKeyOf(config[i]), n, CH.DEFAULT_MERGE_TICKS)
      ensures PicksFrom(RingKeyOf(config[i]), EnabledRecords(config[i], |config[i].reals|))
    {
      var key, list := RingKeyOf(config[i]), EnabledRecords(config[i], |config[i].reals|);
      OneGoodRingEntry(config, i);
      RH.ReloadOne(before, RH.Entry(key, list));
      var m := RH.Reload(before, Entries(config, |config|));
      RH.ShownAfterSeconds(m, order, key, n, CH.DEFAULT_MERGE_TICKS);
      RH.RingAfterSeconds(m, order, n, CH.DEFAULT_MERGE_TICKS, key);
      hide RingsOk, PicksFrom, ManagedOk, RH.Seconds, RH.Undisturbed, RH.Visits;
      ShownRingIsPickedFrom(key);
    }

    /**
     With one ring service ever configured, after any sequence of reloads and seconds the kernel picks for every
     hash what the control plane's lookup names in the latest list.
     */
    lemma OneRingServiceIsServed(moves: seq<RH.Move>, key: ServiceKey, list: seq<Backend>)
      requires RingsOk() && ManagedOk() && managed == RH.After(moves, CH.DEFAULT_MERGE_TICKS)
      requires RH.OnlyKey(moves, key) && RH.LastList(moves) == Some(list)
      requires 1 <= |list| <= 257 && forall b :: b in list ==> b.active
      ensures PicksFrom(key, list)
    {
      RH.OneRingIsAlwaysShown(moves, key, CH.DEFAULT_MERGE_TICKS);
      hide RingsOk, PicksFrom, ManagedOk, RH.After, RH.OnlyKey;
      ShownRingIsPickedFrom(key);
    }

    /** The manager's pass over rings as they stand: a ring's merge completes exactly when it is due. */
    method TickInstances(order: seq<ServiceKey>, ghost m: RH.Managed) returns (ghost last: Option<nat>)
      requires RingsOk() && RingsTied(m)
      requires forall k :: k in chManager.services <==> k in order
      requires forall i, j :: 0 <= i < j < |order| ==> order[i] != order[j]
      modifies chManager`published, chManager.services.Values
      modifies chManager.kernel, chManager.kernel.currLookup, chManager.kernel.prevLookup, chManager.kernel.backends
      ensures RingsOk() && chManager.services == old(chManager.services)
      ensures forall k :: k in chManager.services ==>
        && chManager.services[k].Abs() == CH.Next(m.rings[k], CH.Tick, CH.DEFAULT_MERGE_TICKS)
        && (chManager.Completed(chManager.services[k]) <==> RH.Due(m.rings[k], CH.DEFAULT_MERGE_TICKS))
      ensures last.Some? ==> last.value < |order| && chManager.Completed(chManager.services[order[last.value]])
      ensures forall j :: (if last.Some? then last.value else -1) < j < |order| ==>
        !chManager.Completed(chManager.services[order[j]])
      ensures chManager.published ==
        if last.None? then old(chManager.published)
        else if RH.Fits(m.rings[order[last.value]].active) then chManager.services[order[last.value]]
        else null
      ensures last.None? && chManager.published != null ==>
        chManager.published.backends == old(chManager.published.backends)
    {
      hide ChManager.ConsistentHashManager.Valid;
      last := chManager.PeriodicMaintenance(order);
    }

    /** last is the last service whose merge was due. */
    method TickDueRings(order: seq<ServiceKey>, ghost m: RH.Managed) returns (ghost last: Option<nat>)
      requires RingsOk() && RingsTied(m)
      requires forall k :: k in chManager.services <==> k in order
      requires forall i, j :: 0 <= i < j < |order| ==> order[i] != order[j]
      modifies chManager`published, chManager.services.Values
      modifies chManager.kernel, chManager.kernel.currLookup, chManager.kernel.prevLookup, chManager.kernel.backends
      ensures RingsOk() && chManager.services == old(chManager.services) && LastMerge(m.rings, order, last)
      ensures forall k :: k in chManager.services ==>
        chManager.services[k].Abs() == CH.Next(m.rings[k], CH.Tick, CH.DEFAULT_MERGE_TICKS)
      ensures chManager.published ==
        if last.None? then old(chManager.published)
        else if RH.Fits(m.rings[order[last.value]].active) then chManager.services[order[last.value]]
        else null
      ensures last.None? && chManager.published != null ==>
        chManager.published.backends == old(chManager.published.backends)
    {
      hide RingsOk, CH.Next, CH.ConsistentHashInstance.Abs, RH.Due, ChManager.ConsistentHashManager.Completed;
      last := TickInstances(order, m);
    }

    method TickRings(order: seq<ServiceKey>, ghost m: RH.Managed) returns (ghost last: Option<nat>)
      requires RingsOk() && RingsTied(m)
      requires forall k :: k in chManager.services <==> k in order
      requires forall i, j :: 0 <= i < j < |order| ==> order[i] != order[j]
      modifies chManager`published, chManager.services.Values
      modifies chManager.kernel, chManager.kernel.currLookup, chManager.kernel.prevLookup, chManager.kernel.backends
      ensures RingsOk() && chManager.services == old(chManager.services) && LastMerge(m.rings, order, last)
      ensures RingsTied(RH.Maintain(m, order, CH.DEFAULT_MERGE_TICKS))
      ensures chManager.published ==
        if last.None? then old(chManager.published)
        else if RH.Fits(m.rings[order[last.value]].active) then chManager.services[order[last.value]]
        else null
      ensures last.None? && chManager.published != null ==>
        chManager.published.backends == old(chManager.published.backends)
    {
      hide RingsOk, LastMerge, RH.Fits, CH.Next, CH.ConsistentHashInstance.Abs;
      last := TickDueRings(order, m);
    }

    /**
     Ring a alone and then, d seconds later, ring b alone: from a's merge until b's own the kernel picks from a, a ring
     that is no longer configured.
     */
    lemma DepartedRingIsPickedFrom(a: RH.Entry, b: RH.Entry, d: nat, n: nat, order: seq<ServiceKey>)
      requires a.key != b.key && a.backends != [] && b.backends != [] && RH.Fits(a.backends) && RH.Fits(b.backends)
      requires 0 < d < 180 && 180 - d <= n < 180
      requires RH.Visits(order, RH.HandedOver(a, b, d, CH.DEFAULT_MERGE_TICKS))
      requires RingsOk() && ManagedOk()
      requires managed == RH.Seconds(RH.HandedOver(a, b, d, CH.DEFAULT_MERGE_TICKS), order, n, CH.DEFAULT_MERGE_TICKS)
      requires forall x :: x in a.backends ==> x.active
      ensures PicksFrom(a.key, a.backends)
    {
      var m := RH.HandedOver(a, b, d, CH.DEFAULT_MERGE_TICKS);
      RH.HandoverState(a, b, d, CH.DEFAULT_MERGE_TICKS);
      RH.DepartedRingTakesOver(a, b, d, n, order, CH.DEFAULT_MERGE_TICKS);
      RH.RingAfterSeconds(m, order, n, CH.DEFAULT_MERGE_TICKS, a.key);
      hide RingsOk, ManagedOk, PicksFrom, RH.HandedOver, RH.Seconds, RH.Visits;
      ShownRingIsPickedFrom(a.key);
    }

    /** Every second: each ring ticks, and merges that have waited long enough are written. */
    method ChPeriodicMaintenance(order: seq<ServiceKey>)
      requires RingsOk() && ManagedOk()
      requires forall k :: k in chManager.services <==> k in order
      requires forall i, j :: 0 <= i < j < |order| ==> order[i] != order[j]
      modifies this`managed, chManager`published, chManager.services.Values
      modifies chManager.kernel, chManager.kernel.currLookup, chManager.kernel.prevLookup, chManager.kernel.backends
      ensures RingsOk() && ManagedOk() && chManager.services == old(chManager.services)
      ensures managed == RH.Maintain(old(managed), order, CH.DEFAULT_MERGE_TICKS)
    {
      hide RingsOk, RingsTied, RH.Due, RH.Fits;
      ghost var last := TickRings(order, managed);
      LastMergeIsLastDue(managed.rings, order, last);
      hide LastMerge, RH.LastDue;
      ghost var t := RH.Maintain(managed, order, CH.DEFAULT_MERGE_TICKS);
      assert ShownTied(t);
      hide ShownTied, RH.Maintain;
      managed := t;
    }
  }

  /** The position of the last ring in visiting order whose merge is due. */
  ghost predicate LastMerge(rings: map<ServiceKey, CH.Rings>, order: seq<ServiceKey>, last: Option<nat>) {
    && (forall k :: k in order ==> k in rings)
    && (last.Some? ==> last.value < |order| && RH.Due(rings[order[last.value]], CH.DEFAULT_MERGE_TICKS))
    && forall j :: (if last.Some? then last.value else -1) < j < |order| ==>
      !RH.Due(rings[order[j]], CH.DEFAULT_MERGE_TICKS)
  }

  lemma LastMergeIsLastDue(rings: map<ServiceKey, CH.Rings>, order: seq<ServiceKey>, last: Option<nat>)
    requires LastMerge(rings, order, last)
    ensures RH.LastDue(rings, order, CH.DEFAULT_MERGE_TICKS) == if last.None? then None else Some(order[last.value])
  {
    if last.Some? {
      RH.LastDueIs(rings, order, CH.DEFAULT_MERGE_TICKS, last.value);
    } else {
      RH.NothingDue(rings, order, CH.DEFAULT_MERGE_TICKS);
    }
  }
}
