/** Fair selection over whole runs: a service's picks follow its schedule whatever other flows and services do. */
module Fairness {
  import opened XdpTypes
  import opened Schedule
  import opened Selection
  import opened PacketPath
  import opened Sessions
  import NumberTheory

  /** The packet makes the service pick a backend: it is the service's and no cached session serves it. */
  predicate Picks(s: Path, bank: Bank, p: Packet, key: ServiceKey) {
    && ServiceOf(p.flow) == key
    && var (_, cached) := FindSession(s, p);
    !(cached.Some? && cached.value.backendIdx < |bank.backends|)
  }

  /** The backend this packet makes the service pick, if it does and one is found. */
  function NewChoice(s: Path, bank: Bank, p: Packet, key: ServiceKey): seq<nat> {
    var outcome := FindTcpBackend(s, bank, p).1;
    if Picks(s, bank, p, key) && outcome.Forward? then [outcome.idx] else []
  }

  /** The backends picked for a service in a run, in order. */
  function Choices(s: Path, bank: Bank, ps: seq<Packet>, key: ServiceKey): seq<nat> {
    if ps == [] then []
    else
      var front := ps[..|ps| - 1];
      Choices(s, bank, front, key) + NewChoice(Run(s, bank, front), bank, ps[|ps| - 1], key)
  }

  lemma FindSessionKeepsCursors(s: Path, p: Packet)
    ensures var found := FindSession(s, p).0; found.rrIndex == s.rrIndex && found.wrrState == s.wrrState
  {
  }

  /** A packet that makes the service pick runs its selection once on the cursors as they stand. */
  lemma PickIsOneSelection(s: Path, bank: Bank, p: Packet, key: ServiceKey)
    requires key in bank.services && Picks(s, bank, p, key)
    ensures var (after, outcome) := FindTcpBackend(s, bank, p);
      var (selected, pick) := Select(FindSession(s, p).0, bank, key, bank.services[key], p.chPick);
      && after.rrIndex == selected.rrIndex && after.wrrState == selected.wrrState
      && (outcome.Forward? <==> pick.Some?) && (pick.Some? ==> outcome.idx == pick.value.0)
  {
    hide Select, FindSession, Bump;
    var (found, cached) := FindSession(s, p);
    assert !(cached.Some? && cached.value.backendIdx < |bank.backends|);
    var (selected, pick) := Select(found, bank, key, bank.services[key], p.chPick);
    if pick.Some? {
      assert FindTcpBackend(s, bank, p).1 == Forward(pick.value.0, pick.value.1);
    } else {
      assert FindTcpBackend(s, bank, p) == (selected, NoBackend);
    }
  }

  /** A packet that does not make its service pick is served by its session. */
  lemma OrItsSessionServes(s: Path, bank: Bank, p: Packet)
    requires !Picks(s, bank, p, ServiceOf(p.flow))
    ensures FindTcpBackend(s, bank, p).1.Forward?
  {
    hide FindSession, ServiceOf, Select, Bump;
  }

  /** Any other packet leaves the service's cursors alone. */
  lemma OthersDoNotMoveCursors(s: Path, bank: Bank, p: Packet, key: ServiceKey)
    requires !Picks(s, bank, p, key)
    ensures var after := Step(s, bank, p);
      && (key in after.rrIndex <==> key in s.rrIndex) && (key in s.rrIndex ==> after.rrIndex[key] == s.rrIndex[key])
      && (key in after.wrrState <==> key in s.wrrState) &&
        (key in s.wrrState ==> after.wrrState[key] == s.wrrState[key])
  {
    FindSessionKeepsCursors(s, p);
    var other := ServiceOf(p.flow);
    var found := FindSession(s, p).0;
    if other in bank.services {
      SelectTouchesItsServiceOnly(found, bank, other, bank.services[other], p.chPick, key);
    }
    hide Select, FindSession, ServiceOf, Bump;
  }

  lemma SelectTouchesItsServiceOnly(s: Path, bank: Bank, other: ServiceKey, info: ServiceInfo,
                                    chPick: Option<(nat, Backend)>, key: ServiceKey)
    ensures var after := Select(s, bank, other, info, chPick).0;
      other != key ==>
      && (key in after.rrIndex <==> key in s.rrIndex) && (key in s.rrIndex ==> after.rrIndex[key] == s.rrIndex[key])
      && (key in after.wrrState <==> key in s.wrrState) &&
        (key in s.wrrState ==> after.wrrState[key] == s.wrrState[key])
  {
    hide RrSearch, WrrSearch;
  }

  function WrrStateOf(s: Path, key: ServiceKey): WrrState {
    if key in s.wrrState then s.wrrState[key] else WrrState(0, 0)
  }

  /** A weighted service within the 32 attempts, with these weights from this array position, not all of them zero. */
  ghost predicate WeightedService(bank: Bank, key: ServiceKey, w: seq<nat>, start: nat) {
    && Sliced(bank, key) && bank.services[key].algorithm == WeightedRoundRobin
    && bank.services[key].backendCount <= 32
    && start == bank.services[key].backendStart && w == Weights(bank.backends, bank.services[key])
    && Total(w) > 0
  }

  lemma {:induction false} SomeEntryWeighs(w: seq<nat>, k: nat) returns (i: nat)
    requires k <= |w| && Prefix(w, k) > 0
    ensures i < k && w[i] > 0
  {
    if w[k - 1] > 0 {
      i := k - 1;
    } else {
      i := SomeEntryWeighs(w, k - 1);
    }
  }

  lemma WeightedSearch(bank: Bank, key: ServiceKey, w: seq<nat>, start: nat, st: WrrState)
    requires WeightedService(bank, key, w, start) && WrrStateOk(w, st)
    ensures var (st', found) := WrrSearch(bank.backends, bank.services[key], st, 0);
      TakesTurn(w, start, st, (st', found)) && RecordAt(bank.backends, found).Some?
  {
    var i := SomeEntryWeighs(w, |w|);
    var d := DistanceTo(st.index, i, |w|);
    WrrTakesNextTurn(bank.backends, bank.services[key], st, 0, d);
    WrrStaysInSlice(bank.backends, bank.services[key], st, 0);
  }

  lemma WeightedPick(s: Path, bank: Bank, p: Packet, key: ServiceKey, w: seq<nat>, start: nat)
    requires WeightedService(bank, key, w, start) && Picks(s, bank, p, key) && WrrStateOk(w, WrrStateOf(s, key))
    ensures var (after, outcome) := FindTcpBackend(s, bank, p);
      outcome.Forward? && TakesTurn(w, start, WrrStateOf(s, key), (WrrStateOf(after, key), Some(outcome.idx)))
  {
    FindSessionKeepsCursors(s, p);
    PickIsOneSelection(s, bank, p, key);
    WeightedSearch(bank, key, w, start, WrrStateOf(s, key));
    hide FindTcpBackend, FindSession, WrrSearch, TakesTurn;
  }

  /** The picks so far follow the schedule, and the service stands where it continues. */
  ghost predicate OnSchedule(w: seq<nat>, start: nat, p0: nat, choices: seq<nat>, now: nat) {
    Total(w) > 0 && Follows(choices, w, start, p0) && now == (p0 + |choices|) % Total(w)
  }

  lemma ScheduleMovesOn(w: seq<nat>, start: nat, p0: nat, choices: seq<nat>, now: nat, next: nat, idx: nat)
    requires OnSchedule(w, start, p0, choices, now) && now < Total(w)
    requires idx == start + Holder(w, now) && next == (now + 1) % Total(w)
    ensures OnSchedule(w, start, p0, choices + [idx], next)
  {
    FollowsOn(choices, w, start, p0, now, idx);
  }

  ghost predicate WeightedAt(st: WrrState, w: seq<nat>, start: nat, p0: nat, choices: seq<nat>) {
    WrrStateOk(w, st) && Total(w) > 0 && OnSchedule(w, start, p0, choices, Position(w, st.index, st.counter))
  }

  lemma WeightedMovesOn(st: WrrState, st': WrrState, w: seq<nat>, start: nat, p0: nat, choices: seq<nat>, idx: nat)
    requires WeightedAt(st, w, start, p0, choices) && TakesTurn(w, start, st, (st', Some(idx)))
    ensures WeightedAt(st', w, start, p0, choices + [idx])
  {
    var now := Position(w, st.index, st.counter);
    assert now < Total(w);
    hide Position, OnSchedule, Total, Holder;
    ScheduleMovesOn(w, start, p0, choices, now, Position(w, st'.index, st'.counter), idx);
  }

  lemma WeightedStep(s: Path, bank: Bank, p: Packet, key: ServiceKey, w: seq<nat>, start: nat, p0: nat,
                     choices: seq<nat>)
    requires WeightedService(bank, key, w, start) && WeightedAt(WrrStateOf(s, key), w, start, p0, choices)
    ensures WeightedAt(WrrStateOf(Step(s, bank, p), key), w, start, p0, choices + NewChoice(s, bank, p, key))
  {
    if Picks(s, bank, p, key) {
      WeightedPick(s, bank, p, key, w, start);
      hide FindTcpBackend, Picks, WeightedAt, WeightedService, TakesTurn;
      WeightedMovesOn(WrrStateOf(s, key), WrrStateOf(Step(s, bank, p), key), w, start, p0, choices,
                      FindTcpBackend(s, bank, p).1.idx);
    } else {
      OthersDoNotMoveCursors(s, bank, p, key);
      hide FindTcpBackend, Picks, WeightedAt, WeightedService;
      assert choices + [] == choices;
    }
  }

  /**
   Weighted fairness over any run, whatever other flows and services do: the picks of the service follow
   its weighted schedule from the position where it stood.
   */
  lemma {:induction false} WeightedServiceFollowsSchedule(s: Path, bank: Bank, ps: seq<Packet>, key: ServiceKey,
                                                          w: seq<nat>, start: nat)
    requires WeightedService(bank, key, w, start) && WrrStateOk(w, WrrStateOf(s, key))
    ensures var st := WrrStateOf(s, key);
      WeightedAt(WrrStateOf(Run(s, bank, ps), key), w, start, Position(w, st.index, st.counter),
        Choices(s, bank, ps, key))
  {
    var st := WrrStateOf(s, key);
    var p0 := Position(w, st.index, st.counter);
    if ps == [] {
      NumberTheory.SmallMod(p0, Total(w));
    } else {
      hide Step, NewChoice, WeightedAt, WeightedService, Position;
      WeightedServiceFollowsSchedule(s, bank, ps[..|ps| - 1], key, w, start);
      WeightedStep(Run(s, bank, ps[..|ps| - 1]), bank, ps[|ps| - 1], key, w, start, p0,
                   Choices(s, bank, ps[..|ps| - 1], key));
    }
  }

  /** So any Total(w) consecutive picks of the service choose each of its backends exactly its weight. */
  lemma WeightedServiceIsFair(s: Path, bank: Bank, ps: seq<Packet>, key: ServiceKey, w: seq<nat>, start: nat, t: nat,
                              i: nat)
    requires WeightedService(bank, key, w, start) && WrrStateOk(w, WrrStateOf(s, key))
    requires i < |w| && t + Total(w) <= |Choices(s, bank, ps, key)|
    ensures Times(Choices(s, bank, ps, key), t, Total(w), start + i) == w[i]
  {
    var st := WrrStateOf(s, key);
    WeightedServiceFollowsSchedule(s, bank, ps, key, w, start);
    hide Choices, Run, Position, Total, WeightedService, Follows;
    FollowingIsFair(Choices(s, bank, ps, key), w, start, Position(w, st.index, st.counter), t, i);
  }

  // ---- Round robin ----

  /** A round-robin service in which no four cyclically consecutive backends are inactive; w marks the active ones. */
  ghost predicate RoundRobinService(bank: Bank, key: ServiceKey, w: seq<nat>, start: nat) {
    && Sliced(bank, key) && bank.services[key].algorithm == RoundRobin
    && NoLongGap(bank.backends, bank.services[key])
    && start == bank.services[key].backendStart && w == Ones(bank.backends, bank.services[key])
  }

  /** The cursor is in range, and the entry after it is the schedule's next. */
  ghost predicate CursorAt(s: Path, key: ServiceKey, w: seq<nat>, start: nat, p0: nat, choices: seq<nat>) {
    && key in s.rrIndex && s.rrIndex[key] < |w| && Total(w) > 0
    && OnSchedule(w, start, p0, choices, Position(w, Ahead(s.rrIndex[key], 1, |w|), 0))
  }

  lemma RoundRobinPick(s: Path, bank: Bank, p: Packet, key: ServiceKey, w: seq<nat>, start: nat)
    requires RoundRobinService(bank, key, w, start) && Picks(s, bank, p, key)
    requires key in s.rrIndex && s.rrIndex[key] < |w|
    ensures var (after, outcome) := FindTcpBackend(s, bank, p);
      var n := |w|;
      && Total(w) > 0 && outcome.Forward? && key in after.rrIndex && after.rrIndex[key] < n
      && outcome.idx == start + Holder(w, Position(w, Ahead(s.rrIndex[key], 1, n), 0))
      && Position(w, Ahead(after.rrIndex[key], 1, n), 0) == (Position(w, Ahead(s.rrIndex[key], 1, n), 0) + 1) % Total(w)
  {
    FindSessionKeepsCursors(s, p);
    PickIsOneSelection(s, bank, p, key);
    RrTakesNextTurn(bank.backends, bank.services[key], s.rrIndex[key]);
    RrStaysInSlice(bank.backends, bank.services[key], s.rrIndex[key], 0);
    hide FindTcpBackend, FindSession, RrSearch, NoLongGap, Position, Total, Ahead, Holder;
  }

  lemma RoundRobinStep(s: Path, bank: Bank, p: Packet, key: ServiceKey, w: seq<nat>, start: nat, p0: nat,
                       choices: seq<nat>)
    requires RoundRobinService(bank, key, w, start) && CursorAt(s, key, w, start, p0, choices)
    ensures CursorAt(Step(s, bank, p), key, w, start, p0, choices + NewChoice(s, bank, p, key))
  {
    var now := Position(w, Ahead(s.rrIndex[key], 1, |w|), 0);
    assert now < Total(w);
    if Picks(s, bank, p, key) {
      RoundRobinPick(s, bank, p, key, w, start);
      hide FindTcpBackend, Picks, OnSchedule, Position, Total, Ahead, Holder, RoundRobinService;
      var after := Step(s, bank, p);
      ScheduleMovesOn(w, start, p0, choices, now, Position(w, Ahead(after.rrIndex[key], 1, |w|), 0),
                      FindTcpBackend(s, bank, p).1.idx);
    } else {
      OthersDoNotMoveCursors(s, bank, p, key);
      hide FindTcpBackend, Picks, OnSchedule, Position, Total, Ahead, RoundRobinService;
      assert choices + [] == choices;
    }
  }

  lemma {:induction false} RoundRobinServiceFollowsSchedule(s: Path, bank: Bank, ps: seq<Packet>, key: ServiceKey,
                                                            w: seq<nat>, start: nat)
    requires RoundRobinService(bank, key, w, start) && key in s.rrIndex && s.rrIndex[key] < |w|
    ensures Total(w) > 0
    ensures CursorAt(Run(s, bank, ps), key, w, start, Position(w, Ahead(s.rrIndex[key], 1, |w|), 0),
      Choices(s, bank, ps, key))
  {
    RrTakesNextTurn(bank.backends, bank.services[key], s.rrIndex[key]);
    var p0 := Position(w, Ahead(s.rrIndex[key], 1, |w|), 0);
    if ps == [] {
      NumberTheory.SmallMod(p0, Total(w));
    } else {
      hide Step, NewChoice, CursorAt, RoundRobinService, Position, Ahead, Total;
      RoundRobinServiceFollowsSchedule(s, bank, ps[..|ps| - 1], key, w, start);
      RoundRobinStep(Run(s, bank, ps[..|ps| - 1]), bank, ps[|ps| - 1], key, w, start, p0,
                     Choices(s, bank, ps[..|ps| - 1], key));
    }
  }

  lemma OnScheduleIsFair(choices: seq<nat>, w: seq<nat>, start: nat, p0: nat, now: nat, t: nat, i: nat)
    requires OnSchedule(w, start, p0, choices, now) && i < |w| && t + Total(w) <= |choices|
    ensures Times(choices, t, Total(w), start + i) == w[i]
  {
    hide Total, Follows;
    FollowingIsFair(choices, w, start, p0, t, i);
  }

  lemma OnesMarkTheActive(bank: Bank, key: ServiceKey, w: seq<nat>, start: nat, i: nat)
    requires RoundRobinService(bank, key, w, start) && i < |w|
    ensures start + i < |bank.backends| && w[i] == if bank.backends[start + i].active then 1 else 0
  {
    hide NoLongGap;
  }

  /** So any A consecutive picks, A being the number of active backends, choose each active backend exactly once. */
  lemma RoundRobinServiceIsFair(s: Path, bank: Bank, ps: seq<Packet>, key: ServiceKey, w: seq<nat>, start: nat,
                                t: nat, i: nat)
    requires RoundRobinService(bank, key, w, start) && key in s.rrIndex && s.rrIndex[key] < |w|
    requires i < |w| && t + Total(w) <= |Choices(s, bank, ps, key)|
    ensures start + i < |bank.backends|
    ensures Times(Choices(s, bank, ps, key), t, Total(w), start + i) == if bank.backends[start + i].active then 1 else 0
  {
    hide Choices, Run, Position, Ahead, Total, RoundRobinService, OnSchedule;
    RoundRobinServiceFollowsSchedule(s, bank, ps, key, w, start);
    OnesMarkTheActive(bank, key, w, start, i);
    var after, p0 := Run(s, bank, ps), Position(w, Ahead(s.rrIndex[key], 1, |w|), 0);
    OnScheduleIsFair(Choices(s, bank, ps, key), w, start, p0, Position(w, Ahead(after.rrIndex[key], 1, |w|), 0), t, i);
  }
}
