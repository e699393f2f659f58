/** TCP and UDP packets mixed: what the selections of a service do over whole runs. */
module Traffic {
  import opened XdpTypes
  import opened Layout
  import opened DoubleBuffer
  import opened Schedule
  import opened Selection
  import opened PacketPath
  import opened Sessions
  import opened Serving
  import Fairness
  import NumberTheory

  /** A TCP packet, or a UDP packet to a service key. */
  datatype Arrival = Tcp(p: Packet) | Udp(key: ServiceKey)

  function Arrive(s: Path, bank: Bank, a: Arrival): (Path, Outcome) {
    match a
    case Tcp(p) => FindTcpBackend(s, bank, p)
    case Udp(key) => FindUdpBackend(s, bank, key)
  }

  function Flow(s: Path, bank: Bank, arrivals: seq<Arrival>): Path {
    if arrivals == [] then s
    else Arrive(Flow(s, bank, arrivals[..|arrivals| - 1]), bank, arrivals[|arrivals| - 1]).0
  }

  /** The packet makes the service pick: any UDP packet of it, and TCP packets that no session serves. */
  predicate MakesPick(s: Path, bank: Bank, a: Arrival, key: ServiceKey) {
    match a
    case Tcp(p) => Fairness.Picks(s, bank, p, key)
    case Udp(k) => k == key
  }

  function NewChoice(s: Path, bank: Bank, a: Arrival, key: ServiceKey): seq<nat> {
    var outcome := Arrive(s, bank, a).1;
    if MakesPick(s, bank, a, key) && outcome.Forward? then [outcome.idx] else []
  }

  /** The positions picked for the service, in order. */
  function Choices(s: Path, bank: Bank, arrivals: seq<Arrival>, key: ServiceKey): seq<nat> {
    if arrivals == [] then []
    else
      var front := arrivals[..|arrivals| - 1];
      Choices(s, bank, front, key) + NewChoice(Flow(s, bank, front), bank, arrivals[|arrivals| - 1], key)
  }

  // ---- One UDP packet ----

  /** A UDP packet touches no session and no connection counter. */
  lemma UdpLeavesConnections(s: Path, bank: Bank, key: ServiceKey)
    ensures var after := FindUdpBackend(s, bank, key).0;
      && after.sessions == s.sessions
      && after.backendConns == s.backendConns && after.serviceConns == s.serviceConns
  {
    if key in bank.services {
      SelectKeeps(s, bank, key, bank.services[key], None);
    }
    hide Select;
  }

  /** Nor does it give any service a cursor, or take one away. */
  lemma UdpKeepsCursorKeys(s: Path, bank: Bank, key: ServiceKey)
    ensures FindUdpBackend(s, bank, key).0.rrIndex.Keys == s.rrIndex.Keys
  {
    hide RrSearch, WrrSearch;
  }

  lemma UdpWeightedPick(s: Path, bank: Bank, key: ServiceKey, w: seq<nat>, start: nat)
    requires Fairness.WeightedService(bank, key, w, start) && WrrStateOk(w, Fairness.WrrStateOf(s, key))
    ensures var (after, outcome) := FindUdpBackend(s, bank, key);
      outcome.Forward? &&
        TakesTurn(w, start, Fairness.WrrStateOf(s, key), (Fairness.WrrStateOf(after, key), Some(outcome.idx)))
  {
    Fairness.WeightedSearch(bank, key, w, start, Fairness.WrrStateOf(s, key));
    hide WrrSearch, TakesTurn;
  }

  lemma UdpRoundRobinPick(s: Path, bank: Bank, key: ServiceKey, w: seq<nat>, start: nat)
    requires Fairness.RoundRobinService(bank, key, w, start) && key in s.rrIndex && s.rrIndex[key] < |w|
    ensures var (after, outcome) := FindUdpBackend(s, bank, key);
      var n := |w|;
      && Total(w) > 0 && outcome.Forward? && key in after.rrIndex && after.rrIndex[key] < n
      && outcome.idx == start + Holder(w, Position(w, Ahead(s.rrIndex[key], 1, n), 0))
      && Position(w, Ahead(after.rrIndex[key], 1, n), 0) == (Position(w, Ahead(s.rrIndex[key], 1, n), 0) + 1) % Total(w)
  {
    RrTakesNextTurn(bank.backends, bank.services[key], s.rrIndex[key]);
    RrStaysInSlice(bank.backends, bank.services[key], s.rrIndex[key], 0);
    hide RrSearch, NoLongGap, Position, Total, Ahead, Holder;
  }

  /** It moves no other service's cursor or weighted state. */
  lemma UdpMovesItsServiceOnly(s: Path, bank: Bank, other: ServiceKey, key: ServiceKey)
    requires other != key
    ensures var after := FindUdpBackend(s, bank, other).0;
      && (key in after.rrIndex <==> key in s.rrIndex) && (key in s.rrIndex ==> after.rrIndex[key] == s.rrIndex[key])
      && (key in after.wrrState <==> key in s.wrrState)
      && (key in s.wrrState ==> after.wrrState[key] == s.wrrState[key])
  {
    if other in bank.services {
      Fairness.SelectTouchesItsServiceOnly(s, bank, other, bank.services[other], None, key);
    }
    hide Select;
  }

  // ---- Schedules over mixed runs ----

  lemma WeightedArrival(s: Path, bank: Bank, a: Arrival, key: ServiceKey, w: seq<nat>, start: nat, p0: nat,
                        choices: seq<nat>)
    requires Fairness.WeightedService(bank, key, w, start)
    requires Fairness.WeightedAt(Fairness.WrrStateOf(s, key), w, start, p0, choices)
    ensures Fairness.WeightedAt(Fairness.WrrStateOf(Arrive(s, bank, a).0, key), w, start, p0,
                                choices + NewChoice(s, bank, a, key))
  {
    match a
    case Tcp(p) =>
      Fairness.WeightedStep(s, bank, p, key, w, start, p0, choices);
      assert NewChoice(s, bank, a, key) == Fairness.NewChoice(s, bank, p, key);
    case Udp(k) =>
      hide FindUdpBackend, Fairness.WeightedAt, Fairness.WeightedService, TakesTurn;
      var st, after := Fairness.WrrStateOf(s, key), FindUdpBackend(s, bank, k);
      if k == key {
        WeightedStateIsOk(st, w, start, p0, choices);
        UdpWeightedPick(s, bank, key, w, start);
        Fairness.WeightedMovesOn(st, Fairness.WrrStateOf(after.0, key), w, start, p0, choices, after.1.idx);
      } else {
        UdpMovesItsServiceOnly(s, bank, k, key);
        assert choices + [] == choices;
      }
  }

  lemma WeightedStateIsOk(st: WrrState, w: seq<nat>, start: nat, p0: nat, choices: seq<nat>)
    requires Fairness.WeightedAt(st, w, start, p0, choices)
    ensures WrrStateOk(w, st)
  {
  }

  /** The picks of a weighted service follow its schedule, its UDP or TCP packets mixed with anything else. */
  lemma {:induction false} WeightedMixFollows(s: Path, bank: Bank, arrivals: seq<Arrival>, key: ServiceKey, w: seq<nat>,
                                              start: nat)
    requires Fairness.WeightedService(bank, key, w, start) && WrrStateOk(w, Fairness.WrrStateOf(s, key))
    ensures var st := Fairness.WrrStateOf(s, key);
      Fairness.WeightedAt(Fairness.WrrStateOf(Flow(s, bank, arrivals), key), w, start,
        Position(w, st.index, st.counter),
                          Choices(s, bank, arrivals, key))
  {
    var st := Fairness.WrrStateOf(s, key);
    var p0 := Position(w, st.index, st.counter);
    if arrivals == [] {
      NumberTheory.SmallMod(p0, Total(w));
    } else {
      hide Arrive, NewChoice, Fairness.WeightedAt, Fairness.WeightedService, Position;
      var front, last := arrivals[..|arrivals| - 1], arrivals[|arrivals| - 1];
      WeightedMixFollows(s, bank, front, key, w, start);
      WeightedArrival(Flow(s, bank, front), bank, last, key, w, start, p0, Choices(s, bank, front, key));
    }
  }

  lemma WeightedMixWindow(s: Path, bank: Bank, arrivals: seq<Arrival>, key: ServiceKey, w: seq<nat>, start: nat,
                          t: nat, i: nat)
    requires Fairness.WeightedService(bank, key, w, start) && WrrStateOk(w, Fairness.WrrStateOf(s, key))
    requires i < |w| && t + Total(w) <= |Choices(s, bank, arrivals, key)|
    ensures Times(Choices(s, bank, arrivals, key), t, Total(w), start + i) == w[i]
  {
    var st := Fairness.WrrStateOf(s, key);
    WeightedMixFollows(s, bank, arrivals, key, w, start);
    hide Choices, Flow, Position, Total, Fairness.WeightedService, Follows;
    FollowingIsFair(Choices(s, bank, arrivals, key), w, start, Position(w, st.index, st.counter), t, i);
  }

  lemma RoundRobinMixWindow(s: Path, bank: Bank, arrivals: seq<Arrival>, key: ServiceKey, w: seq<nat>, start: nat,
                            t: nat, i: nat)
    requires Fairness.RoundRobinService(bank, key, w, start) && key in s.rrIndex && s.rrIndex[key] < |w|
    requires i < |w| && t + Total(w) <= |Choices(s, bank, arrivals, key)|
    ensures Times(Choices(s, bank, arrivals, key), t, Total(w), start + i) == w[i]
  {
    hide Choices, Flow, Position, Ahead, Total, Fairness.RoundRobinService, Fairness.OnSchedule;
    RoundRobinMixFollows(s, bank, arrivals, key, w, start);
    var after, p0 := Flow(s, bank, arrivals), Position(w, Ahead(s.rrIndex[key], 1, |w|), 0);
    Fairness.OnScheduleIsFair(Choices(s, bank, arrivals, key), w, start, p0,
                              Position(w, Ahead(after.rrIndex[key], 1, |w|), 0), t, i);
  }

  lemma RoundRobinArrival(s: Path, bank: Bank, a: Arrival, key: ServiceKey, w: seq<nat>, start: nat, p0: nat,
                          choices: seq<nat>)
    requires Fairness.RoundRobinService(bank, key, w, start) && Fairness.CursorAt(s, key, w, start, p0, choices)
    ensures Fairness.CursorAt(Arrive(s, bank, a).0, key, w, start, p0, choices + NewChoice(s, bank, a, key))
  {
    match a
    case Tcp(p) =>
      Fairness.RoundRobinStep(s, bank, p, key, w, start, p0, choices);
      assert NewChoice(s, bank, a, key) == Fairness.NewChoice(s, bank, p, key);
    case Udp(k) =>
      var now, after := Position(w, Ahead(s.rrIndex[key], 1, |w|), 0), FindUdpBackend(s, bank, k);
      assert now < Total(w);
      hide FindUdpBackend, Fairness.OnSchedule, Position, Total, Ahead, Holder, Fairness.RoundRobinService;
      if k == key {
        UdpRoundRobinPick(s, bank, key, w, start);
        Fairness.ScheduleMovesOn(w, start, p0, choices, now, Position(w, Ahead(after.0.rrIndex[key], 1, |w|), 0),
                                 after.1.idx);
      } else {
        UdpMovesItsServiceOnly(s, bank, k, key);
        assert choices + [] == choices;
      }
  }

  lemma {:induction false} RoundRobinMixFollows(s: Path, bank: Bank, arrivals: seq<Arrival>, key: ServiceKey,
                                                w: seq<nat>, start: nat)
    requires Fairness.RoundRobinService(bank, key, w, start) && key in s.rrIndex && s.rrIndex[key] < |w|
    ensures Total(w) > 0
    ensures Fairness.CursorAt(Flow(s, bank, arrivals), key, w, start, Position(w, Ahead(s.rrIndex[key], 1, |w|), 0),
                              Choices(s, bank, arrivals, key))
  {
    RrTakesNextTurn(bank.backends, bank.services[key], s.rrIndex[key]);
    var p0 := Position(w, Ahead(s.rrIndex[key], 1, |w|), 0);
    if arrivals == [] {
      NumberTheory.SmallMod(p0, Total(w));
    } else {
      hide Arrive, NewChoice, Fairness.CursorAt, Fairness.RoundRobinService, Position, Ahead, Total;
      var front, last := arrivals[..|arrivals| - 1], arrivals[|arrivals| - 1];
      RoundRobinMixFollows(s, bank, front, key, w, start);
      RoundRobinArrival(Flow(s, bank, front), bank, last, key, w, start, p0, Choices(s, bank, front, key));
    }
  }

  // ---- In terms of the configuration ----

  lemma ArrivalStaysInSlices(s: Path, bank: Bank, a: Arrival)
    requires WrrIndexesOk(s, bank) && SessionsInSlices(s, bank)
    ensures WrrIndexesOk(Arrive(s, bank, a).0, bank) && SessionsInSlices(Arrive(s, bank, a).0, bank)
  {
    match a
    case Tcp(p) => StepStaysInSlices(s, bank, p);
    case Udp(key) =>
      UdpLeavesConnections(s, bank, key);
      SameSessionsInSlices(s, FindUdpBackend(s, bank, key).0, bank);
      if key in bank.services {
        SelectStaysInSlice(s, bank, key, None);
      }
      hide Select, WrrIndexesOk, SessionsInSlices;
  }

  lemma {:induction false} FlowStaysInSlices(s: Path, bank: Bank, arrivals: seq<Arrival>)
    requires WrrIndexesOk(s, bank) && SessionsInSlices(s, bank)
    ensures WrrIndexesOk(Flow(s, bank, arrivals), bank) && SessionsInSlices(Flow(s, bank, arrivals), bank)
  {
    if arrivals != [] {
      FlowStaysInSlices(s, bank, arrivals[..|arrivals| - 1]);
      hide Arrive, WrrIndexesOk, SessionsInSlices;
      ArrivalStaysInSlices(Flow(s, bank, arrivals[..|arrivals| - 1]), bank, arrivals[|arrivals| - 1]);
    }
  }

  /** The packet is for this service: by its flow for TCP, by its key for UDP. */
  predicate IsFor(a: Arrival, s: Service) {
    match a
    case Tcp(p) => AddressedTo(p.flow, s)
    case Udp(key) => IsKeyOf(key, s) && !s.tcp
  }

  lemma UdpIntoSlice(s: Path, bank: Bank, key: ServiceKey)
    requires WrrIndexesOk(s, bank) && Sliced(bank, key)
    ensures var outcome := FindUdpBackend(s, bank, key).1;
      outcome.Forward? ==>
        InSlice(bank.backends, bank.services[key], outcome.idx) && outcome.record == bank.backends[outcome.idx]
  {
    SelectStaysInSlice(s, bank, key, None);
    SelectKeeps(s, bank, key, bank.services[key], None);
    hide Select, WrrIndexesOk;
  }

  lemma ArrivalIntoSlice(s: Path, bank: Bank, a: Arrival, key: ServiceKey)
    requires WrrIndexesOk(s, bank) && SessionsInSlices(s, bank) && Sliced(bank, key)
    requires match a case Tcp(p) => ServiceOf(p.flow) == key case Udp(k) => k == key
    ensures var outcome := Arrive(s, bank, a).1;
      outcome.Forward? ==>
        InSlice(bank.backends, bank.services[key], outcome.idx) && outcome.record == bank.backends[outcome.idx]
  {
    hide FindTcpBackend, FindUdpBackend, WrrIndexesOk, SessionsInSlices, Sliced, ServiceOf, InSlice;
    match a
    case Tcp(p) => ForwardsIntoSlice(s, bank, p);
    case Udp(k) => UdpIntoSlice(s, bank, k);
  }

  lemma IsForItsKey(a: Arrival, config: seq<Service>, n: nat)
    requires Served(config, n) && IsFor(a, config[n])
    ensures match a case Tcp(p) => ServiceOf(p.flow) == KeyOf(config[n]) case Udp(k) => k == KeyOf(config[n])
  {
    match a
    case Tcp(p) => AddressedExactly(p.flow, config[n]);
    case Udp(key) => KeyIsExact(key, config[n]);
  }

  /** Every TCP or UDP packet of the service that is forwarded goes to one of its own enabled reals. */
  lemma EveryArrivalReachesItsService(s: Path, bank: Bank, config: seq<Service>, n: nat, arrivals: seq<Arrival>,
                                      a: Arrival)
    requires Settled(s, bank, config) && Served(config, n) && IsFor(a, config[n])
    ensures var outcome := Arrive(Flow(s, bank, arrivals), bank, a).1;
      outcome.Forward? ==> OwnReal(config, n, outcome.idx, outcome.record)
  {
    ServedIsSliced(bank, config, n);
    FlowStaysInSlices(s, bank, arrivals);
    IsForItsKey(a, config, n);
    hide Arrive, Flow, WrrIndexesOk, SessionsInSlices, Sliced, Holds, InSlice, OwnReal, InfoOf, Served, ServiceOf;
    hide IsFor, KeyOf;
    ArrivalIntoSlice(Flow(s, bank, arrivals), bank, a, KeyOf(config[n]));
    var outcome := Arrive(Flow(s, bank, arrivals), bank, a).1;
    if outcome.Forward? {
      InSliceIsOwnReal(bank, config, n, outcome.idx);
    }
  }

  lemma KeyIsServiceKey(key: ServiceKey, config: seq<Service>, n: nat)
    requires Served(config, n) && IsKeyOf(key, config[n])
    ensures key == KeyOf(config[n])
  {
    KeyIsExact(key, config[n]);
  }

  lemma WeightedAsLoaded(s: Path, bank: Bank, config: seq<Service>, n: nat, key: ServiceKey)
    requires Settled(s, bank, config) && Served(config, n) && IsKeyOf(key, config[n])
    requires config[n].algorithm == WeightedRoundRobin && |config[n].reals| <= 32 &&
      Total(ConfiguredWeights(config[n])) > 0
    ensures Fairness.WeightedService(bank, key, ConfiguredWeights(config[n]), Start(config, n))
    ensures WrrStateOk(ConfiguredWeights(config[n]), Fairness.WrrStateOf(s, key))
    ensures forall j :: 0 <= j < |config[n].reals| ==>
      ConfiguredWeights(config[n])[j] == if config[n].reals[j].enabled then config[n].reals[j].weight else 0
  {
    KeyIsServiceKey(key, config, n);
    SettledCursor(s, bank, config, n);
    hide Settled, Holds;
    LoadedWeights(bank, config, n);
  }

  lemma RoundRobinAsLoaded(s: Path, bank: Bank, config: seq<Service>, n: nat, key: ServiceKey)
    requires Settled(s, bank, config) && Served(config, n) && IsKeyOf(key, config[n])
    requires config[n].algorithm == RoundRobin && NoFourDisabledInARow(config[n])
    ensures Fairness.RoundRobinService(bank, key, EnabledOnes(config[n]), Start(config, n))
    ensures key in s.rrIndex && s.rrIndex[key] < |config[n].reals|
    ensures forall j :: 0 <= j < |config[n].reals| ==>
      EnabledOnes(config[n])[j] == if config[n].reals[j].enabled then 1 else 0
  {
    KeyIsServiceKey(key, config, n);
    SettledCursor(s, bank, config, n);
    hide Settled, Holds;
    LoadedOnes(bank, config, n);
  }

  /**
   Any W consecutive picks of a weighted service, W being the sum of its weights, choose each enabled real exactly its
   weight, whatever TCP and UDP packets come in between.
   */
  lemma WeightedMixIsFair(s: Path, bank: Bank, config: seq<Service>, n: nat, key: ServiceKey, arrivals: seq<Arrival>,
                          t: nat, j: nat)
    requires Settled(s, bank, config) && Served(config, n) && IsKeyOf(key, config[n]) && j < |config[n].reals|
    requires config[n].algorithm == WeightedRoundRobin && |config[n].reals| <= 32 &&
      Total(ConfiguredWeights(config[n])) > 0
    requires t + Total(ConfiguredWeights(config[n])) <= |Choices(s, bank, arrivals, key)|
    ensures Times(Choices(s, bank, arrivals, key), t, Total(ConfiguredWeights(config[n])), Start(config, n) + j) ==
      if config[n].reals[j].enabled then config[n].reals[j].weight else 0
  {
    WeightedAsLoaded(s, bank, config, n, key);
    hide *;
    WeightedMixWindow(s, bank, arrivals, key, ConfiguredWeights(config[n]), Start(config, n), t, j);
  }

  /** From a fresh start the t-th pick is the real whose interval of the weights contains t modulo W. */
  lemma WeightedMixFollowsTheWeights(s: Path, bank: Bank, config: seq<Service>, n: nat, key: ServiceKey,
                                     arrivals: seq<Arrival>, t: nat)
    requires Fresh(s, bank, config) && Served(config, n) && IsKeyOf(key, config[n])
    requires config[n].algorithm == WeightedRoundRobin && |config[n].reals| <= 32 &&
      Total(ConfiguredWeights(config[n])) > 0
    requires t < |Choices(s, bank, arrivals, key)|
    ensures var w := ConfiguredWeights(config[n]);
      Choices(s, bank, arrivals, key)[t] == Start(config, n) + Holder(w, t % Total(w))
  {
    var w := ConfiguredWeights(config[n]);
    KeyIsServiceKey(key, config, n);
    LoadedWeights(bank, config, n);
    assert Fairness.WrrStateOf(s, key) == WrrState(0, 0);
    assert Position(w, 0, 0) == 0 by {
      NumberTheory.SmallMod(0, Total(w));
    }
    hide Fresh, Served, Position, Fairness.WeightedService, Choices, Flow, Total;
    WeightedMixFollows(s, bank, arrivals, key, w, Start(config, n));
    assert Follows(Choices(s, bank, arrivals, key), w, Start(config, n), 0);
  }

  /** And of a round-robin service any A consecutive picks choose each of its A enabled reals once. */
  lemma RoundRobinMixIsFair(s: Path, bank: Bank, config: seq<Service>, n: nat, key: ServiceKey, arrivals: seq<Arrival>,
                            t: nat, j: nat)
    requires Settled(s, bank, config) && Served(config, n) && IsKeyOf(key, config[n]) && j < |config[n].reals|
    requires config[n].algorithm == RoundRobin && NoFourDisabledInARow(config[n])
    requires t + Total(EnabledOnes(config[n])) <= |Choices(s, bank, arrivals, key)|
    ensures Times(Choices(s, bank, arrivals, key), t, Total(EnabledOnes(config[n])), Start(config, n) + j) ==
      if config[n].reals[j].enabled then 1 else 0
  {
    RoundRobinAsLoaded(s, bank, config, n, key);
    hide *;
    RoundRobinMixWindow(s, bank, arrivals, key, EnabledOnes(config[n]), Start(config, n), t, j);
  }

  /** No packet of a weighted service with up to 32 reals and some weight is left without a backend. */
  lemma WeightedMixAlwaysAnswers(s: Path, bank: Bank, config: seq<Service>, n: nat, arrivals: seq<Arrival>, a: Arrival)
    requires Settled(s, bank, config) && Served(config, n) && IsFor(a, config[n])
    requires config[n].algorithm == WeightedRoundRobin && |config[n].reals| <= 32 &&
      Total(ConfiguredWeights(config[n])) > 0
    ensures Arrive(Flow(s, bank, arrivals), bank, a).1.Forward?
  {
    var w, t, key := ConfiguredWeights(config[n]), Flow(s, bank, arrivals), KeyOf(config[n]);
    IsForItsKey(a, config, n);
    SettledCursor(s, bank, config, n);
    hide Settled, Holds, IsFor, KeyOf;
    LoadedWeights(bank, config, n);
    hide Served, FindUdpBackend, FindTcpBackend, Fairness.WeightedService, Choices, Flow, Total, Prefix, ServiceOf;
    WeightedMixFollows(s, bank, arrivals, key, w, Start(config, n));
    hide Fairness.Picks;
    match a
    case Tcp(p) =>
      if Fairness.Picks(t, bank, p, key) {
        Fairness.WeightedPick(t, bank, p, key, w, Start(config, n));
      } else {
        Fairness.OrItsSessionServes(t, bank, p);
      }
    case Udp(k) => UdpWeightedPick(t, bank, key, w, Start(config, n));
  }

  /** Nor is one of a round-robin service without four disabled reals in a row. */
  lemma RoundRobinMixAlwaysAnswers(s: Path, bank: Bank, config: seq<Service>, n: nat, arrivals: seq<Arrival>,
                                   a: Arrival)
    requires Settled(s, bank, config) && Served(config, n) && IsFor(a, config[n])
    requires config[n].algorithm == RoundRobin && NoFourDisabledInARow(config[n])
    ensures Arrive(Flow(s, bank, arrivals), bank, a).1.Forward?
  {
    var w, t, key := EnabledOnes(config[n]), Flow(s, bank, arrivals), KeyOf(config[n]);
    IsForItsKey(a, config, n);
    SettledCursor(s, bank, config, n);
    hide Settled, Holds, IsFor, KeyOf;
    LoadedOnes(bank, config, n);
    hide Served, FindUdpBackend, FindTcpBackend, Fairness.RoundRobinService, Choices, Flow, Total, ServiceOf;
    RoundRobinMixFollows(s, bank, arrivals, key, w, Start(config, n));
    hide Fairness.Picks;
    match a
    case Tcp(p) =>
      if Fairness.Picks(t, bank, p, key) {
        Fairness.RoundRobinPick(t, bank, p, key, w, Start(config, n));
      } else {
        Fairness.OrItsSessionServes(t, bank, p);
      }
    case Udp(k) => UdpRoundRobinPick(t, bank, key, w, Start(config, n));
  }
}
