/**
 What a loaded configuration means for packets: from any state that fits it on, each service is served by its own
 enabled reals.
 */
module Serving {
  import opened XdpTypes
  import opened Layout
  import opened DoubleBuffer
  import opened Schedule
  import opened Selection
  import opened PacketPath
  import opened Sessions
  import Fairness
  import NumberTheory

  /** The side holds the configuration, and the packet path remembers nothing from before. */
  ghost predicate Fresh(s: Path, bank: Bank, config: seq<Service>) {
    && Resolves(config, |config|) && Holds(bank, PlanOf(config)) && |bank.backends| == MAX_BACKENDS
    && s.sessions == map[] && s.wrrState == map[]
    && forall i :: 0 <= i < |config| ==> KeyOf(config[i]) in s.rrIndex && s.rrIndex[KeyOf(config[i])] == 0
  }

  /** The service's cursor, or its weighted state, is one that its present slice can have. */
  predicate CursorSettled(s: Path, config: seq<Service>, n: nat)
    requires Served(config, n)
  {
    var key := KeyOf(config[n]);
    if config[n].algorithm == RoundRobin then key in s.rrIndex && s.rrIndex[key] < |config[n].reals|
    else WrrStateOk(ConfiguredWeights(config[n]), Fairness.WrrStateOf(s, key))
  }

  /** The side holds the configuration, and whatever the packet path remembers fits it. */
  ghost predicate Settled(s: Path, bank: Bank, config: seq<Service>) {
    && Resolves(config, |config|) && Holds(bank, PlanOf(config)) && |bank.backends| == MAX_BACKENDS
    && WrrIndexesOk(s, bank) && SessionsInSlices(s, bank)
    && forall n: nat :: Served(config, n) ==> CursorSettled(s, config, n)
  }

  lemma FreshIsSettled(s: Path, bank: Bank, config: seq<Service>)
    requires Fresh(s, bank, config)
    ensures Settled(s, bank, config)
  {
    hide Holds, Sliced, PlanOf;
  }

  /** A round-robin or weighted service with reals, whose key no later service takes over. */
  predicate Served(config: seq<Service>, n: nat) {
    && n < |config| && Resolves(config, |config|) && LastOfItsKey(PlanOf(config), n, |config|)
    && (config[n].algorithm == RoundRobin || config[n].algorithm == WeightedRoundRobin)
    && config[n].reals != []
  }

  lemma SettledCursor(s: Path, bank: Bank, config: seq<Service>, n: nat)
    requires Settled(s, bank, config) && Served(config, n)
    ensures Holds(bank, PlanOf(config)) && |bank.backends| == MAX_BACKENDS
    ensures CursorSettled(s, config, n)
  {
    hide Holds, WrrIndexesOk, SessionsInSlices, Served, CursorSettled;
  }

  function Start(config: seq<Service>, n: nat): nat
    requires n < |config|
  {
    Prefix(Counts(config), n)
  }

  lemma ServedIsSliced(bank: Bank, config: seq<Service>, n: nat)
    requires Served(config, n) && Holds(bank, PlanOf(config)) && |bank.backends| == MAX_BACKENDS
    ensures var key := KeyOf(config[n]);
      && Sliced(bank, key) && bank.services[key] == InfoOf(config, n)
      && Start(config, n) + |config[n].reals| <= |bank.backends|
    ensures forall j :: 0 <= j < |config[n].reals| ==>
      bank.backends[Start(config, n) + j] == RecordOf(config[n], config[n].reals[j])
  {
    var plan, start, count := PlanOf(config), Start(config, n), |config[n].reals|;
    SliceHoldsItsReals(config, |config|, n);
    assert Shows(bank, plan, n);
    hide Holds, LastOfItsKey, Flatten, Prefix;
    forall j | 0 <= j < count ensures bank.backends[start + j] == RecordOf(config[n], config[n].reals[j]) {
      assert plan.backends[start..start + count][j] == Records(config[n], count)[j];
      assert bank.backends[..|plan.backends|][start + j] == plan.backends[start + j];
    }
  }

  /** The flow's packets are for this service: destination address, port in network byte order, TCP over IPv4. */
  predicate AddressedTo(flow: SessionKey, s: Service) {
    && s.vip == Some(flow.dst) && s.ipVersion == 4 && s.tcp
    && s.port % 0x1_0000 == flow.dport % 0x100 * 0x100 + flow.dport / 0x100 % 0x100
  }

  lemma AddressedExactly(flow: SessionKey, s: Service)
    requires s.vip.Some?
    ensures AddressedTo(flow, s) <==> ServiceOf(flow) == KeyOf(s)
  {
  }

  /** The pick is one of the service's own enabled reals, at its place in the array. */
  predicate OwnReal(config: seq<Service>, n: nat, idx: nat, record: Backend)
    requires n < |config| && Resolves(config, |config|)
  {
    && Start(config, n) <= idx < Start(config, n) + |config[n].reals|
    && var r := config[n].reals[idx - Start(config, n)];
    r.enabled && IsRecordOf(record, config[n], r)
  }

  lemma InSliceIsOwnReal(bank: Bank, config: seq<Service>, n: nat, idx: nat)
    requires Served(config, n) && Holds(bank, PlanOf(config)) && |bank.backends| == MAX_BACKENDS
    requires InSlice(bank.backends, InfoOf(config, n), idx)
    ensures OwnReal(config, n, idx, bank.backends[idx])
  {
    ServedIsSliced(bank, config, n);
    assert bank.backends[Start(config, n) + (idx - Start(config, n))] == bank.backends[idx];
  }

  /** Every packet of the service that is forwarded at all goes to one of the service's own enabled reals. */
  lemma EveryPacketReachesItsService(s: Path, bank: Bank, config: seq<Service>, n: nat, ps: seq<Packet>, p: Packet)
    requires Settled(s, bank, config) && Served(config, n) && AddressedTo(p.flow, config[n])
    ensures var outcome := FindTcpBackend(Run(s, bank, ps), bank, p).1;
      outcome.Forward? ==> OwnReal(config, n, outcome.idx, outcome.record)
  {
    AddressedExactly(p.flow, config[n]);
    ServedIsSliced(bank, config, n);
    hide FindTcpBackend, Run, WrrIndexesOk, SessionsInSlices, Sliced, ServiceOf, Holds, InSlice, OwnReal, InfoOf;
    hide Served;
    RunStaysInSlices(s, bank, ps);
    ForwardsIntoSlice(Run(s, bank, ps), bank, p);
    var outcome := FindTcpBackend(Run(s, bank, ps), bank, p).1;
    if outcome.Forward? {
      InSliceIsOwnReal(bank, config, n, outcome.idx);
    }
  }

  /** Every live session of the service counts for it and points at one of its own enabled reals. */
  lemma EverySessionPointsAtItsService(s: Path, bank: Bank, config: seq<Service>, n: nat, ps: seq<Packet>,
                                       flow: SessionKey)
    requires Settled(s, bank, config) && Served(config, n) && AddressedTo(flow, config[n])
    requires flow in Run(s, bank, ps).sessions
    ensures var v := Run(s, bank, ps).sessions[flow];
      v.serviceIdx == n && v.backendIdx < |bank.backends| &&
        OwnReal(config, n, v.backendIdx, bank.backends[v.backendIdx])
  {
    AddressedExactly(flow, config[n]);
    ServedIsSliced(bank, config, n);
    assert InfoOf(config, n).serviceIdx == n;
    hide Run, WrrIndexesOk, SessionsInSlices, Sliced, ServiceOf, Holds, OwnReal, InfoOf, Served;
    RunStaysInSlices(s, bank, ps);
    SessionIsInItsSlice(Run(s, bank, ps), bank, flow);
    InSliceIsOwnReal(bank, config, n, Run(s, bank, ps).sessions[flow].backendIdx);
  }

  function ConfiguredWeights(s: Service): (w: seq<nat>)
    ensures |w| == |s.reals|
  {
    seq(|s.reals|, j requires 0 <= j < |s.reals| => if s.reals[j].enabled then s.reals[j].weight else 0)
  }

  lemma LoadedWeights(bank: Bank, config: seq<Service>, n: nat)
    requires Served(config, n) && Holds(bank, PlanOf(config)) && |bank.backends| == MAX_BACKENDS
    requires config[n].algorithm == WeightedRoundRobin && |config[n].reals| <= 32 &&
      Total(ConfiguredWeights(config[n])) > 0
    ensures Fairness.WeightedService(bank, KeyOf(config[n]), ConfiguredWeights(config[n]), Start(config, n))
  {
    ServedIsSliced(bank, config, n);
    hide Holds, Prefix, Flatten;
    assert Weights(bank.backends, bank.services[KeyOf(config[n])]) == ConfiguredWeights(config[n]);
  }

  /**
   Weighted round robin from a fresh start: the t-th pick of the service is the real whose interval of the
   configured weights contains t modulo their sum, whatever other traffic does.
   */
  lemma WeightedPicksFollowTheWeights(s: Path, bank: Bank, config: seq<Service>, n: nat, ps: seq<Packet>, t: nat)
    requires Fresh(s, bank, config) && Served(config, n)
    requires config[n].algorithm == WeightedRoundRobin && |config[n].reals| <= 32 &&
      Total(ConfiguredWeights(config[n])) > 0
    requires t < |Fairness.Choices(s, bank, ps, KeyOf(config[n]))|
    ensures var w := ConfiguredWeights(config[n]);
      Fairness.Choices(s, bank, ps, KeyOf(config[n]))[t] == Start(config, n) + Holder(w, t % Total(w))
  {
    var w, key := ConfiguredWeights(config[n]), KeyOf(config[n]);
    LoadedWeights(bank, config, n);
    assert Fairness.WrrStateOf(s, key) == WrrState(0, 0);
    assert Position(w, 0, 0) == 0 by {
      NumberTheory.SmallMod(0, Total(w));
    }
    hide Fresh, Served, Position, Fairness.WeightedService, Fairness.Choices, Run, Times, Total;
    Fairness.WeightedServiceFollowsSchedule(s, bank, ps, key, w, Start(config, n));
    assert Follows(Fairness.Choices(s, bank, ps, key), w, Start(config, n), 0);
  }

  /**
   From any state that fits, any W consecutive picks, W being the sum of the configured weights, choose each enabled
   real exactly its weight.
   */
  lemma WeightedPicksAreFair(s: Path, bank: Bank, config: seq<Service>, n: nat, ps: seq<Packet>, t: nat, j: nat)
    requires Settled(s, bank, config) && Served(config, n) && j < |config[n].reals|
    requires config[n].algorithm == WeightedRoundRobin && |config[n].reals| <= 32 &&
      Total(ConfiguredWeights(config[n])) > 0
    requires t + Total(ConfiguredWeights(config[n])) <= |Fairness.Choices(s, bank, ps, KeyOf(config[n]))|
    ensures var w := ConfiguredWeights(config[n]);
      Times(Fairness.Choices(s, bank, ps, KeyOf(config[n])), t, Total(w), Start(config, n) + j) == w[j]
  {
    var w, key := ConfiguredWeights(config[n]), KeyOf(config[n]);
    SettledCursor(s, bank, config, n);
    hide Settled, Holds;
    LoadedWeights(bank, config, n);
    hide Served, Fairness.WeightedService, Fairness.Choices, Run, Times, Total, WrrStateOk;
    hide Fairness.WrrStateOf, Resolves, Prefix;
    Fairness.WeightedServiceIsFair(s, bank, ps, key, w, Start(config, n), t, j);
  }

  /** Among any four cyclically consecutive reals one is enabled. */
  predicate NoFourDisabledInARow(s: Service)
    requires s.reals != []
  {
    forall p :: 0 <= p < |s.reals| ==> EnabledSoon(s, p)
  }

  predicate EnabledSoon(s: Service, p: nat)
    requires s.reals != []
  {
    exists d :: 1 <= d <= 4 && s.reals[Ahead(p, d, |s.reals|)].enabled
  }

  function EnabledOnes(s: Service): (w: seq<nat>)
    ensures |w| == |s.reals|
  {
    seq(|s.reals|, j requires 0 <= j < |s.reals| => if s.reals[j].enabled then 1 else 0)
  }

  lemma LoadedOnes(bank: Bank, config: seq<Service>, n: nat)
    requires Served(config, n) && Holds(bank, PlanOf(config)) && |bank.backends| == MAX_BACKENDS
    requires config[n].algorithm == RoundRobin && NoFourDisabledInARow(config[n])
    ensures Fairness.RoundRobinService(bank, KeyOf(config[n]), EnabledOnes(config[n]), Start(config, n))
  {
    ServedIsSliced(bank, config, n);
    hide Holds, Prefix, Flatten, Ahead;
    var info, bs := bank.services[KeyOf(config[n])], bank.backends;
    assert Ones(bs, info) == EnabledOnes(config[n]);
    forall p | 0 <= p < info.backendCount ensures ActiveSoon(bs, info, p) {
      assert EnabledSoon(config[n], p);
      var d :| 1 <= d <= RR_ATTEMPTS && config[n].reals[Ahead(p, d, |config[n].reals|)].enabled;
      assert ActiveAhead(bs, info, p, d);
    }
  }

  lemma RoundRobinLoaded(s: Path, bank: Bank, config: seq<Service>, n: nat, j: nat)
    requires Settled(s, bank, config) && Served(config, n) && j < |config[n].reals|
    requires config[n].algorithm == RoundRobin && NoFourDisabledInARow(config[n])
    ensures var key := KeyOf(config[n]);
      && Fairness.RoundRobinService(bank, key, EnabledOnes(config[n]), Start(config, n))
      && key in s.rrIndex && s.rrIndex[key] < |config[n].reals|
    ensures Start(config, n) + j < |bank.backends|
    ensures bank.backends[Start(config, n) + j].active <==> config[n].reals[j].enabled
  {
    SettledCursor(s, bank, config, n);
    hide Settled, Holds;
    LoadedOnes(bank, config, n);
    assert EnabledOnes(config[n])[j] == if config[n].reals[j].enabled then 1 else 0;
    hide Fairness.RoundRobinService, EnabledOnes, Prefix;
    Fairness.OnesMarkTheActive(bank, KeyOf(config[n]), EnabledOnes(config[n]), Start(config, n), j);
  }

  lemma RoundRobinWindow(s: Path, bank: Bank, ps: seq<Packet>, key: ServiceKey, w: seq<nat>, start: nat, t: nat, j: nat,
                         enabled: bool)
    requires Fairness.RoundRobinService(bank, key, w, start) && key in s.rrIndex && s.rrIndex[key] < |w| && j < |w|
    requires start + j < |bank.backends| && (bank.backends[start + j].active <==> enabled)
    requires t + Total(w) <= |Fairness.Choices(s, bank, ps, key)|
    ensures Times(Fairness.Choices(s, bank, ps, key), t, Total(w), start + j) == if enabled then 1 else 0
  {
    hide *;
    Fairness.RoundRobinServiceIsFair(s, bank, ps, key, w, start, t, j);
  }

  /** Plain round robin: any A consecutive picks choose each of the A enabled reals exactly once. */
  lemma RoundRobinPicksAreFair(s: Path, bank: Bank, config: seq<Service>, n: nat, ps: seq<Packet>, t: nat, j: nat)
    requires Settled(s, bank, config) && Served(config, n) && j < |config[n].reals|
    requires config[n].algorithm == RoundRobin && NoFourDisabledInARow(config[n])
    requires t + Total(EnabledOnes(config[n])) <= |Fairness.Choices(s, bank, ps, KeyOf(config[n]))|
    ensures Times(Fairness.Choices(s, bank, ps, KeyOf(config[n])), t, Total(EnabledOnes(config[n])),
                  Start(config, n) + j) ==
      if config[n].reals[j].enabled then 1 else 0
  {
    var (key, w, start) := (KeyOf(config[n]), EnabledOnes(config[n]), Start(config, n));
    RoundRobinLoaded(s, bank, config, n, j);
    hide *;
    RoundRobinWindow(s, bank, ps, key, w, start, t, j, config[n].reals[j].enabled);
  }

  /** No packet of such a weighted service is ever left without a backend. */
  lemma WeightedServiceAlwaysAnswers(s: Path, bank: Bank, config: seq<Service>, n: nat, ps: seq<Packet>, p: Packet)
    requires Settled(s, bank, config) && Served(config, n) && AddressedTo(p.flow, config[n])
    requires config[n].algorithm == WeightedRoundRobin && |config[n].reals| <= 32 &&
      Total(ConfiguredWeights(config[n])) > 0
    ensures FindTcpBackend(Run(s, bank, ps), bank, p).1.Forward?
  {
    AddressedExactly(p.flow, config[n]);
    var (w, key, t) := (ConfiguredWeights(config[n]), KeyOf(config[n]), Run(s, bank, ps));
    SettledCursor(s, bank, config, n);
    hide Settled, Holds;
    LoadedWeights(bank, config, n);
    hide Served, FindTcpBackend, Fairness.WeightedService, Fairness.Choices, Run, Total, ServiceOf;
    hide Fairness.Picks, Prefix;
    Fairness.WeightedServiceFollowsSchedule(s, bank, ps, key, w, Start(config, n));
    if Fairness.Picks(t, bank, p, key) {
      Fairness.WeightedPick(t, bank, p, key, w, Start(config, n));
    } else {
      Fairness.OrItsSessionServes(t, bank, p);
    }
  }

  /** Nor is one of a round-robin service without four disabled reals in a row. */
  lemma RoundRobinServiceAlwaysAnswers(s: Path, bank: Bank, config: seq<Service>, n: nat, ps: seq<Packet>, p: Packet)
    requires Settled(s, bank, config) && Served(config, n) && AddressedTo(p.flow, config[n])
    requires config[n].algorithm == RoundRobin && NoFourDisabledInARow(config[n])
    ensures FindTcpBackend(Run(s, bank, ps), bank, p).1.Forward?
  {
    AddressedExactly(p.flow, config[n]);
    var (w, key, t) := (EnabledOnes(config[n]), KeyOf(config[n]), Run(s, bank, ps));
    SettledCursor(s, bank, config, n);
    hide Settled, Holds;
    LoadedOnes(bank, config, n);
    hide Served, FindTcpBackend, Fairness.RoundRobinService, Fairness.Choices, Run, Total, ServiceOf;
    hide Fairness.Picks;
    Fairness.RoundRobinServiceFollowsSchedule(s, bank, ps, key, w, Start(config, n));
    if Fairness.Picks(t, bank, p, key) {
      Fairness.RoundRobinPick(t, bank, p, key, w, Start(config, n));
    } else {
      Fairness.OrItsSessionServes(t, bank, p);
    }
  }

  /**
   The connections reported for a service are the live sessions of every service, configured or not, whose entry on this
   side carries its number. Of the configured ones only its own does; a dropped one keeps the number it had.
   */
  lemma RowCountsByNumber(s: Path, bank: Bank, config: seq<Service>, n: nat, flow: SessionKey)
    requires Settled(s, bank, config) && n < |config| && flow in s.sessions && Sliced(bank, ServiceOf(flow))
    ensures flow in LiveKeys(s.sessions, ByService, n) <==> bank.services[ServiceOf(flow)].serviceIdx == n
    ensures forall m: nat :: Served(config, m) && ServiceOf(flow) == KeyOf(config[m]) ==>
      (flow in LiveKeys(s.sessions, ByService, n) <==> m == n)
  {
    assert flow in LiveKeys(s.sessions, ByService, n) <==> s.sessions[flow].serviceIdx == n;
    hide LiveKeys, Sliced, Holds, WrrIndexesOk, Served;
    SessionIsInItsSlice(s, bank, flow);
    forall m: nat | Served(config, m) && ServiceOf(flow) == KeyOf(config[m])
      ensures bank.services[ServiceOf(flow)].serviceIdx == m
    {
      ServedIsSliced(bank, config, m);
    }
  }

  // ---- Services without reals ----

  lemma {:induction false} EmptySliceSearch(bs: seq<Backend>, info: ServiceInfo, cursor: nat, attempts: nat)
    requires info.backendCount == 0 && info.backendStart < |bs| < U32
    ensures RrSearch(bs, info, cursor, attempts).1 ==
      if attempts < RR_ATTEMPTS && bs[info.backendStart].active then Some(info.backendStart) else None
    decreases RR_ATTEMPTS + 1 - attempts
  {
    NumberTheory.SmallMod(info.backendStart, U32);
    if attempts < RR_ATTEMPTS {
      EmptySliceSearch(bs, info, RrNext(cursor, 0), attempts + 1);
    }
  }

  /**
   Round robin over no reals at all selects whatever stands where the slice would start: the first real of the next
   service that has some, if that is enabled. Weighted round robin selects nothing.
   */
  lemma ServiceWithoutRealsTakesTheNext(s: Path, bank: Bank, config: seq<Service>, n: nat,
                                        chPick: Option<(nat, Backend)>)
    requires Resolves(config, |config|) && Holds(bank, PlanOf(config)) && |bank.backends| == MAX_BACKENDS
    requires n < |config| && config[n].reals == [] && KeyOf(config[n]) in s.rrIndex
    requires Start(config, n) < |PlanOf(config).backends|
    ensures var record := PlanOf(config).backends[Start(config, n)];
      var pick := Select(s, bank, KeyOf(config[n]), InfoOf(config, n), chPick).1;
      && (config[n].algorithm == RoundRobin ==>
            pick == if record.active then Some((Start(config, n), record)) else None)
      && (config[n].algorithm == WeightedRoundRobin ==> pick == None)
  {
    var info := InfoOf(config, n);
    HeldRecords(bank, PlanOf(config));
    hide Holds, PlanOf, Prefix;
    if config[n].algorithm == RoundRobin {
      EmptySliceSearch(bank.backends, info, s.rrIndex[KeyOf(config[n])], 0);
    }
  }

  lemma NothingBetween(w: seq<nat>, n: nat, h: nat, i: nat)
    requires n <= i < h <= |w| && Prefix(w, n) == Prefix(w, h)
    ensures w[i] == 0
  {
    PrefixGrows(w, n, i);
    PrefixGrows(w, i + 1, h);
    assert Prefix(w, i + 1) == Prefix(w, i) + w[i];
  }

  /** The position belongs to a later service, whose first real it is. */
  lemma NextServicesFirstReal(config: seq<Service>, n: nat)
    requires Resolves(config, |config|) && n < |config| && config[n].reals == []
    requires Start(config, n) < |PlanOf(config).backends|
    ensures Start(config, n) < Total(Counts(config))
    ensures var h := Holder(Counts(config), Start(config, n));
      && h > n && config[h].reals != [] && (forall i :: n <= i < h ==> config[i].reals == [])
      && PlanOf(config).backends[Start(config, n)] == RecordOf(config[h], config[h].reals[0])
  {
    var (w, start) := (Counts(config), Start(config, n));
    FlattenLength(config, |config|);
    var h := Holder(w, start);
    assert Prefix(w, n + 1) == Prefix(w, n);
    if h < n {
      PrefixGrows(w, h + 1, n);
    }
    PrefixGrows(w, n, h);
    forall i | n <= i < h ensures config[i].reals == [] {
      NothingBetween(w, n, h, i);
    }
    hide Prefix, Holder;
    SliceHoldsItsReals(config, |config|, h);
    var count := |config[h].reals|;
    assert Flatten(config, |config|)[start..start + count][0] == Records(config[h], count)[0];
  }

  // ---- Services dropped from the configuration ----

  /**
   A service no later configuration mentions is still selected from the slice it had when it was loaded, while the
   array under that slice is the newest one's: within the new configuration's total its packets get that
   configuration's records.
   */
  lemma DroppedServiceUsesItsOldSlice(maps: Shared, es: seq<Event>, key: ServiceKey, s: Path, p: Packet)
    requires Consistent(maps) && (maps.writer.Loading? ==> key !in maps.writer.plan.keys)
    requires forall i :: 0 <= i < |es| ==> !Mentions(es[i], key)
    requires var x := After(maps, es).index;
      var bank := After(maps, es).banks[x];
      && key in maps.banks[x].services && ServiceOf(p.flow) == key
      && SliceFits(bank.backends, maps.banks[x].services[key])
      && maps.banks[x].services[key].algorithm in {RoundRobin, WeightedRoundRobin}
      && WrrIndexesOk(s, bank) && SessionsInSlices(s, bank)
    ensures var t := After(maps, es);
      var (bank, old0) := (t.banks[t.index], maps.banks[t.index].services[key]);
      var outcome := FindTcpBackend(s, bank, p).1;
      outcome.Forward? ==>
        && old0.backendStart <= outcome.idx < old0.backendStart + old0.backendCount
        && outcome.record == bank.backends[outcome.idx] && outcome.record.active
        && (outcome.idx < |t.committed.backends| ==> outcome.record == t.committed.backends[outcome.idx])
  {
    var t := After(maps, es);
    var bank := t.banks[t.index];
    DroppedServicesLinger(maps, es, key);
    RunsStayConsistent(maps, es);
    HeldRecords(bank, t.committed);
    assert bank.services[key] == maps.banks[t.index].services[key];
    hide FindTcpBackend, After, Consistent, Holds, ServiceOf, WrrIndexesOk, SessionsInSlices, SliceFits;
    ForwardsIntoSlice(s, bank, p);
  }

  lemma HeldRecords(bank: Bank, plan: Plan)
    requires Paired(plan) && Holds(bank, plan)
    ensures |plan.backends| <= |bank.backends|
    ensures forall i :: 0 <= i < |plan.backends| ==> bank.backends[i] == plan.backends[i]
  {
    forall i | 0 <= i < |plan.backends| ensures bank.backends[i] == plan.backends[i] {
      assert bank.backends[..|plan.backends|][i] == plan.backends[..|plan.backends|][i];
    }
  }
}
