/** What one TCP packet does to the maps, case by case, in the maps' own fields. */
module PacketRules {
  import opened XdpTypes
  import opened Selection
  import opened PacketPath
  import opened Sessions
  import Fairness

  /** The counters with this much added in one CPU's copy, at one index. */
  ghost predicate AddedOnCpu(rows: seq<seq<int>>, before: seq<seq<int>>, cpu: nat, x: nat, delta: int) {
    && |rows| == |before| && (forall c :: 0 <= c < |rows| ==> |rows[c]| == |before[c]|)
    && forall c, y :: 0 <= c < |rows| && 0 <= y < |rows[c]| ==>
      rows[c][y] == before[c][y] + if c == cpu && y == x then delta else 0
  }

  lemma BumpAdds(rows: seq<seq<int>>, cpu: nat, x: nat, delta: int)
    ensures AddedOnCpu(Bump(rows, cpu, x, delta), rows, cpu, x, delta)
  {
  }

  /** The flow's session, if any, is not looked at: there is none, or the packet is a pure SYN. */
  predicate NotLookedUp(s: Path, p: Packet) {
    (p.syn && !p.ack) || p.flow !in s.sessions
  }

  /**
   Such a packet selects from the cursors as they stand, whatever session its flow has. With a pick it goes there, is
   counted on its CPU, and its session is written over any other, or dropped if it is new and the map is full.
   Without one it gets nothing and leaves sessions and counters alone.
   */
  lemma SelectsAfresh(s: Path, bank: Bank, p: Packet)
    requires NotLookedUp(s, p) && ServiceOf(p.flow) in bank.services
    ensures var key := ServiceOf(p.flow);
      var (after, outcome) := FindTcpBackend(s, bank, p);
      var (selected, pick) := Select(s, bank, key, bank.services[key], p.chPick);
      && after.rrIndex == selected.rrIndex && after.wrrState == selected.wrrState
      && (pick.None? ==> outcome == NoBackend && after.sessions == s.sessions
                         && after.backendConns == s.backendConns && after.serviceConns == s.serviceConns)
      && (pick.Some? ==>
            && outcome == Forward(pick.value.0, pick.value.1)
            && after.sessions == (
                 if p.flow in s.sessions || |s.sessions| < 65536 then
                   s.sessions[p.flow := Session(pick.value.0, bank.services[key].serviceIdx, p.now, 60_000_000_000)]
                 else s.sessions)
            && AddedOnCpu(after.backendConns, s.backendConns, p.cpu, pick.value.0, 1)
            && AddedOnCpu(after.serviceConns, s.serviceConns, p.cpu, bank.services[key].serviceIdx, 1))
  {
    var key := ServiceOf(p.flow);
    var pick := Select(s, bank, key, bank.services[key], p.chPick).1;
    assert FindSession(s, p) == (s, None);
    SelectKeeps(s, bank, key, bank.services[key], p.chPick);
    hide FindSession, Select, ServiceOf, Bump, AddedOnCpu;
    if pick.Some? {
      BumpAdds(s.backendConns, p.cpu, pick.value.0, 1);
      BumpAdds(s.serviceConns, p.cpu, bank.services[key].serviceIdx, 1);
    }
  }

  /** A packet to an address nobody serves gets nothing and changes nothing. */
  lemma NobodyServes(s: Path, bank: Bank, p: Packet)
    requires NotLookedUp(s, p) && ServiceOf(p.flow) !in bank.services
    ensures FindTcpBackend(s, bank, p) == (s, NoBackend)
  {
  }

  /**
   A pure SYN with a live session of its flow: the connection of the session written over stays counted, so counter
   sum minus live sessions goes up by one where it was, and nowhere else.
   */
  lemma PureSynLosesOne(s: Path, bank: Bank, cpus: nat, p: Packet, kind: Kind, x: nat)
    requires p.syn && !p.ack && p.flow in s.sessions && ServiceOf(p.flow) in bank.services
    requires Shaped(s, bank, cpus) && Plausible(p, bank, cpus) && Counted(s, kind, cpus, x)
    requires Select(s, bank, ServiceOf(p.flow), bank.services[ServiceOf(p.flow)], p.chPick).1.Some?
    ensures var after, old0 := FindTcpBackend(s, bank, p).0, s.sessions[p.flow];
      SumOverCpus(Rows(after, kind), x) - |LiveKeys(after.sessions, kind, x)| ==
        SumOverCpus(Rows(s, kind), x) - |LiveKeys(s.sessions, kind, x)| +
        if x == (if kind == ByBackend then old0.backendIdx else old0.serviceIdx) then 1 else 0
  {
    SelectsAfresh(s, bank, p);
    StepAddsItsLoss(s, bank, cpus, p, kind, x);
    assert FindSession(s, p) == (s, None);
    hide FindTcpBackend, FindSession, Select, SumOverCpus, LiveKeys, Shaped, Counted, Plausible, ServiceOf, AddedOnCpu;
  }

  /**
   In particular round robin takes the first active backend after the cursor, d positions on, and moves the cursor
   there, although the flow has a session.
   */
  lemma PureSynTakesTheNext(s: Path, bank: Bank, p: Packet, d: nat)
    requires p.syn && !p.ack && Sliced(bank, ServiceOf(p.flow))
    requires bank.services[ServiceOf(p.flow)].algorithm == RoundRobin && ServiceOf(p.flow) in s.rrIndex
    requires var (info, cursor) := (bank.services[ServiceOf(p.flow)], s.rrIndex[ServiceOf(p.flow)]);
      && cursor < info.backendCount && 1 <= d <= 4 && ActiveAhead(bank.backends, info, cursor, d)
      && forall e :: 1 <= e < d ==> !ActiveAhead(bank.backends, info, cursor, e)
    ensures var (key, info) := (ServiceOf(p.flow), bank.services[ServiceOf(p.flow)]);
      var next := (s.rrIndex[key] + d) % info.backendCount;
      var (after, outcome) := FindTcpBackend(s, bank, p);
      && info.backendStart + next < |bank.backends|
      && outcome == Forward(info.backendStart + next, bank.backends[info.backendStart + next])
      && after.rrIndex == s.rrIndex[key := next]
      && (p.flow in s.sessions ==>
            after.sessions ==
              s.sessions[p.flow := Session(info.backendStart + next, info.serviceIdx, p.now, 60_000_000_000)])
  {
    var (key, info) := (ServiceOf(p.flow), bank.services[ServiceOf(p.flow)]);
    SelectsAfresh(s, bank, p);
    RrFinds(bank.backends, info, s.rrIndex[key], 0, d);
    hide FindTcpBackend, ServiceOf, RrSearch, ActiveAhead, AddedOnCpu;
  }

  /** A failed round-robin search has moved the cursor five on. */
  lemma FailedRoundRobinMovesOn(s: Path, bank: Bank, p: Packet)
    requires NotLookedUp(s, p) && Sliced(bank, ServiceOf(p.flow))
    requires bank.services[ServiceOf(p.flow)].algorithm == RoundRobin && ServiceOf(p.flow) in s.rrIndex
    requires var (info, cursor) := (bank.services[ServiceOf(p.flow)], s.rrIndex[ServiceOf(p.flow)]);
      cursor < info.backendCount && forall d :: 1 <= d <= 4 ==> !ActiveAhead(bank.backends, info, cursor, d)
    ensures var key, (after, outcome) := ServiceOf(p.flow), FindTcpBackend(s, bank, p);
      outcome == NoBackend && after.rrIndex == s.rrIndex[key := (s.rrIndex[key] + 5) % bank.services[key].backendCount]
  {
    SelectsAfresh(s, bank, p);
    RrGivesUp(bank.backends, bank.services[ServiceOf(p.flow)], s.rrIndex[ServiceOf(p.flow)], 0);
    hide FindTcpBackend, ServiceOf, RrSearch, ActiveAhead, AddedOnCpu;
  }

  lemma WeightedSelection(s: Path, bank: Bank, key: ServiceKey, info: ServiceInfo, chPick: Option<(nat, Backend)>)
    requires info.algorithm == WeightedRoundRobin
    ensures var (st, idx) := WrrSearch(bank.backends, info, Fairness.WrrStateOf(s, key), 0);
      Select(s, bank, key, info, chPick) == (s.(wrrState := s.wrrState[key := st]), RecordAt(bank.backends, idx))
  {
    hide WrrSearch;
  }

  /** A failed weighted search has moved its state past every entry it looked at: the next one starts there. */
  lemma FailedWeightedMovesOn(s: Path, bank: Bank, p: Packet)
    requires NotLookedUp(s, p) && Sliced(bank, ServiceOf(p.flow))
    requires bank.services[ServiceOf(p.flow)].algorithm == WeightedRoundRobin
    requires var (info, st) := (bank.services[ServiceOf(p.flow)], Fairness.WrrStateOf(s, ServiceOf(p.flow)));
      && st.index < info.backendCount
      && forall e :: 0 <= e < WrrTries(info.backendCount) ==>
        Weights(bank.backends, info)[Ahead(st.index, e, info.backendCount)] == 0
    ensures var key, (after, outcome) := ServiceOf(p.flow), FindTcpBackend(s, bank, p);
      var n, st := bank.services[key].backendCount, Fairness.WrrStateOf(s, key);
      outcome == NoBackend && after.wrrState == s.wrrState[key := WrrState((st.index + WrrTries(n)) % n, 0)]
  {
    hide FindTcpBackend, ServiceOf, WrrSearch, Weights, AddedOnCpu;
    var key := ServiceOf(p.flow);
    SelectsAfresh(s, bank, p);
    WrrGivesUp(bank.backends, bank.services[key], Fairness.WrrStateOf(s, key), 0);
    WeightedSelection(s, bank, key, bank.services[key], p.chPick);
    hide Select, SliceFits;
  }

  /** The unsigned time since the session's last packet is at most a minute. */
  predicate Lives(v: Session, now: Time) {
    (if now >= v.created then now - v.created else now - v.created + U64) <= v.timeout
  }

  /**
   Any other packet of a live session goes to the record at its position, on no cursor: FIN or RST end the session and
   take its connection off on the packet's CPU, others refresh it.
   */
  lemma ServedBySession(s: Path, bank: Bank, p: Packet)
    requires !(p.syn && !p.ack) && p.flow in s.sessions
    requires Lives(s.sessions[p.flow], p.now) && s.sessions[p.flow].backendIdx < |bank.backends|
    ensures var (v, delta) := (s.sessions[p.flow], if p.fin || p.rst then -1 else 0);
      var (after, outcome) := FindTcpBackend(s, bank, p);
      && outcome == Forward(v.backendIdx, bank.backends[v.backendIdx])
      && after.rrIndex == s.rrIndex && after.wrrState == s.wrrState
      && after.sessions == (
           if p.fin || p.rst then s.sessions - {p.flow} else s.sessions[p.flow := v.(created := p.now)])
      && AddedOnCpu(after.backendConns, s.backendConns, p.cpu, v.backendIdx, delta)
      && AddedOnCpu(after.serviceConns, s.serviceConns, p.cpu, v.serviceIdx, delta)
  {
    var (v, delta) := (s.sessions[p.flow], if p.fin || p.rst then -1 else 0);
    assert s.sessions[p.flow := v.(created := p.now)] - {p.flow} == s.sessions - {p.flow};
    BumpAdds(s.backendConns, p.cpu, v.backendIdx, delta);
    BumpAdds(s.serviceConns, p.cpu, v.serviceIdx, delta);
    hide Bump, AddedOnCpu, Select, ServiceOf;
  }

  /**
   A live session whose position is outside the array serves nobody: the packet selects afresh. FIN or RST then end the
   session and take a connection off where the new pick is; others open a session there.
   */
  lemma PositionOutsideTheArray(s: Path, bank: Bank, p: Packet)
    requires !(p.syn && !p.ack) && p.flow in s.sessions && ServiceOf(p.flow) in bank.services
    requires Lives(s.sessions[p.flow], p.now) && s.sessions[p.flow].backendIdx >= |bank.backends|
    requires Select(s, bank, ServiceOf(p.flow), bank.services[ServiceOf(p.flow)], p.chPick).1.Some?
    ensures var key := ServiceOf(p.flow);
      var (after, outcome) := FindTcpBackend(s, bank, p);
      var (selected, pick) := Select(s, bank, key, bank.services[key], p.chPick);
      var closing := p.fin || p.rst;
      && outcome == Forward(pick.value.0, pick.value.1)
      && after.rrIndex == selected.rrIndex && after.wrrState == selected.wrrState
      && after.sessions == (
           if closing then s.sessions - {p.flow}
           else s.sessions[p.flow := Session(pick.value.0, bank.services[key].serviceIdx, p.now, 60_000_000_000)])
      && AddedOnCpu(after.backendConns, s.backendConns, p.cpu, pick.value.0, if closing then -1 else 1)
  {
    var key, v := ServiceOf(p.flow), s.sessions[p.flow];
    var (info, found) := (bank.services[key], s.(sessions := s.sessions[p.flow := v.(created := p.now)]));
    assert FindSession(s, p) == (found, Some(v.(created := p.now)));
    SelectIgnoresSessions(s, found, bank, key, info, p.chPick);
    SelectKeeps(found, bank, key, info, p.chPick);
    var pick := Select(s, bank, key, info, p.chPick).1.value;
    BumpAdds(s.backendConns, p.cpu, pick.0, if p.fin || p.rst then -1 else 1);
    hide FindSession, Bump, AddedOnCpu, Select, ServiceOf;
    var started := found.sessions[p.flow := Session(pick.0, info.serviceIdx, p.now, TCP_STATE_TIMEOUT)];
    assert started - {p.flow} == s.sessions - {p.flow};
  }

  lemma SelectIgnoresSessions(s: Path, t: Path, bank: Bank, key: ServiceKey, info: ServiceInfo,
                              chPick: Option<(nat, Backend)>)
    requires t == s.(sessions := t.sessions)
    ensures var (a, b) := (Select(s, bank, key, info, chPick), Select(t, bank, key, info, chPick));
      b.1 == a.1 && b.0 == a.0.(sessions := t.sessions)
  {
    hide RrSearch, WrrSearch;
  }

  /**
   A packet of an expired session ends it, takes its connection off on its own CPU, and is then handled like one without
   a session.
   */
  lemma ExpiryUncounts(s: Path, bank: Bank, p: Packet) returns (without: Path)
    requires !(p.syn && !p.ack) && p.flow in s.sessions && !Lives(s.sessions[p.flow], p.now)
    ensures without.rrIndex == s.rrIndex && without.wrrState == s.wrrState
    ensures without.sessions == s.sessions - {p.flow}
    ensures AddedOnCpu(without.backendConns, s.backendConns, p.cpu, s.sessions[p.flow].backendIdx, -1)
    ensures AddedOnCpu(without.serviceConns, s.serviceConns, p.cpu, s.sessions[p.flow].serviceIdx, -1)
    ensures FindTcpBackend(s, bank, p) == FindTcpBackend(without, bank, p) && NotLookedUp(without, p)
  {
    var v := s.sessions[p.flow];
    without := Count(Close(s, p.flow), p.cpu, v.backendIdx, v.serviceIdx, -1);
    BumpAdds(s.backendConns, p.cpu, v.backendIdx, -1);
    BumpAdds(s.serviceConns, p.cpu, v.serviceIdx, -1);
    assert FindSession(s, p) == (without, None) == FindSession(without, p);
    hide Bump, AddedOnCpu, Select, ServiceOf, FindSession;
  }

  /** An algorithm the packet program does not know, or a ring that answers nothing, leaves a flow without a backend. */
  lemma NoAnswerNoBackend(s: Path, bank: Bank, p: Packet)
    requires NotLookedUp(s, p) && ServiceOf(p.flow) in bank.services
    requires bank.services[ServiceOf(p.flow)].algorithm == Unknown ||
      (bank.services[ServiceOf(p.flow)].algorithm == ConsistentHashing && p.chPick.None?)
    ensures FindTcpBackend(s, bank, p) == (s, NoBackend)
  {
    hide ServiceOf, Bump;
  }
}
