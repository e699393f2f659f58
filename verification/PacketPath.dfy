/** The TCP packet path: session lookup, backend selection, session creation and closing, connection counters. */
module PacketPath {
  import opened XdpTypes
  import opened Selection

  const TCP_STATE_TIMEOUT: nat := 60_000_000_000
  const SESSION_CAPACITY: nat := 65536

  /** IPv4 addresses and ports as they stand in the packet. */
  datatype SessionKey = SessionKey(src: nat, dst: nat, sport: nat, dport: nat)

  datatype Session = Session(backendIdx: nat, serviceIdx: nat, created: Time, timeout: nat)

  /**
   A parsed TCP packet on some CPU. chPick is what the ring lookup answers for it at that moment: an
   index into the ring's own backend array and the record there.
   */
  datatype Packet = Packet(flow: SessionKey, syn: bool, ack: bool, fin: bool, rst: bool,
                           cpu: nat, now: Time, chPick: Option<(nat, Backend)>)

  datatype Outcome = NoBackend | Forward(idx: nat, record: Backend)

  /** Connection counters are one row per CPU. */
  datatype Path = Path(rrIndex: map<ServiceKey, nat>, wrrState: map<ServiceKey, WrrState>,
                       sessions: map<SessionKey, Session>,
                       backendConns: seq<seq<int>>, serviceConns: seq<seq<int>>)

  predicate PureSyn(p: Packet) { p.syn && !p.ack }
  predicate Closing(p: Packet) { p.fin || p.rst }

  function Ntohs(port: nat): nat { port % 256 * 256 + port / 256 % 256 }

  function ServiceOf(flow: SessionKey): ServiceKey {
    ServiceKey(flow.dst, 4, Ntohs(flow.dport), IPPROTO_TCP)
  }

  function Bump(rows: seq<seq<int>>, cpu: nat, idx: nat, delta: int): seq<seq<int>> {
    if cpu < |rows| && idx < |rows[cpu]| then rows[cpu := rows[cpu][idx := rows[cpu][idx] + delta]] else rows
  }

  function Count(s: Path, cpu: nat, backendIdx: nat, serviceIdx: nat, delta: int): Path {
    s.(backendConns := Bump(s.backendConns, cpu, backendIdx, delta),
       serviceConns := Bump(s.serviceConns, cpu, serviceIdx, delta))
  }

  function Close(s: Path, flow: SessionKey): Path {
    s.(sessions := s.sessions - {flow})
  }

  /** The cached session, if there is one still alive; an expired one is removed and uncounted. */
  function FindSession(s: Path, p: Packet): (Path, Option<Session>) {
    if PureSyn(p) || p.flow !in s.sessions then (s, None)
    else
      var v := s.sessions[p.flow];
      if Since(p.now, v.created) > v.timeout then
        (Count(Close(s, p.flow), p.cpu, v.backendIdx, v.serviceIdx, -1), None)
      else
        (s.(sessions := s.sessions[p.flow := v.(created := p.now)]), Some(v.(created := p.now)))
  }

  function RecordAt(backends: seq<Backend>, idx: Option<nat>): Option<(nat, Backend)> {
    if idx.Some? && idx.value < |backends| then Some((idx.value, backends[idx.value])) else None
  }

  function Select(s: Path, bank: Bank, key: ServiceKey, info: ServiceInfo, chPick: Option<(nat, Backend)>)
    : (Path, Option<(nat, Backend)>)
  {
    match info.algorithm
    case RoundRobin =>
      if key !in s.rrIndex then (s, None)
      else
        var (cursor, idx) := RrSearch(bank.backends, info, s.rrIndex[key], 0);
        (s.(rrIndex := s.rrIndex[key := cursor]), RecordAt(bank.backends, idx))
    case WeightedRoundRobin =>
      var st := if key in s.wrrState then s.wrrState[key] else WrrState(0, 0);
      var (st', idx) := WrrSearch(bank.backends, info, st, 0);
      (s.(wrrState := s.wrrState[key := st']), RecordAt(bank.backends, idx))
    case ConsistentHashing => (s, chPick)
    case Unknown => (s, None)
  }

  /** Inserting a new key into the full session map fails silently; overwriting never does. */
  function Open(s: Path, flow: SessionKey, v: Session): Path {
    if flow in s.sessions || |s.sessions| < SESSION_CAPACITY then s.(sessions := s.sessions[flow := v]) else s
  }

  function FindTcpBackend(s: Path, bank: Bank, p: Packet): (Path, Outcome) {
    var (found, cached) := FindSession(s, p);
    if cached.Some? && cached.value.backendIdx < |bank.backends| then
      var v := cached.value;
      var closed := if Closing(p) then Close(found, p.flow) else found;
      (Count(closed, p.cpu, v.backendIdx, v.serviceIdx, if Closing(p) then -1 else 0),
       Forward(v.backendIdx, bank.backends[v.backendIdx]))
    else
      var key := ServiceOf(p.flow);
      if key !in bank.services then (found, NoBackend)
      else
        var info := bank.services[key];
        var (selected, pick) := Select(found, bank, key, info, p.chPick);
        if pick.None? then (selected, NoBackend)
        else
          var (idx, record) := pick.value;
          var created := Open(selected, p.flow, Session(idx, info.serviceIdx, p.now, TCP_STATE_TIMEOUT));
          var closing := cached.Some? && Closing(p);
          var closed := if closing then Close(created, p.flow) else created;
          (Count(closed, p.cpu, idx, info.serviceIdx, if closing then -1 else 1), Forward(idx, record))
  }

  /** A UDP packet has no session; a ring service gives it nothing. */
  function FindUdpBackend(s: Path, bank: Bank, key: ServiceKey): (Path, Outcome) {
    if key !in bank.services then (s, NoBackend)
    else
      var (selected, pick) := Select(s, bank, key, bank.services[key], None);
      (selected, if pick.None? then NoBackend else Forward(pick.value.0, pick.value.1))
  }

  /** The kernel maps of the packet program. */
  class KernelMaps {
    var banks: seq<Bank>
    var atomicIndex: nat
    var rrIndex: map<ServiceKey, nat>
    var wrrState: map<ServiceKey, WrrState>
    var sessions: map<SessionKey, Session>
    var backendConns: seq<seq<int>>
    var serviceConns: seq<seq<int>>

    predicate Valid()
      reads this
    {
      |banks| == 2
    }

    function Active(): Bank
      reads this
      requires Valid()
    {
      if atomicIndex == 0 then banks[0] else banks[1]
    }

    function Abs(): Path
      reads this
    {
      Path(rrIndex, wrrState, sessions, backendConns, serviceConns)
    }

    /** One round-robin call: moves the cursor on and returns whatever stands there. */
    method RrBalancerHandle(bs: seq<Backend>, info: ServiceInfo, key: ServiceKey)
      returns (idx: nat, back: Option<Backend>)
      modifies this`rrIndex
      ensures key !in old(rrIndex) ==> back == None && rrIndex == old(rrIndex)
      ensures key in old(rrIndex) ==>
        var next := RrNext(old(rrIndex)[key], info.backendCount);
        && rrIndex == old(rrIndex)[key := next] && idx == Index(info, next)
        && back == if idx < |bs| then Some(bs[idx]) else None
    {
      idx, back := 0, None;
      if key in rrIndex {
        var next := (rrIndex[key] + 1) % U32;
        if next >= info.backendCount {
          next := 0;
        }
        idx := Index(info, next);
        back := if idx < |bs| then Some(bs[idx]) else None;
        rrIndex := rrIndex[key := next];
      }
    }

    /** Round robin with its retries over inactive backends. */
    method RrSelect(bs: seq<Backend>, info: ServiceInfo, key: ServiceKey) returns (pick: Option<(nat, Backend)>)
      modifies this`rrIndex
      ensures key !in old(rrIndex) ==> pick == None && rrIndex == old(rrIndex)
      ensures key in old(rrIndex) ==>
        var (cursor, idx) := RrSearch(bs, info, old(rrIndex)[key], 0);
        rrIndex == old(rrIndex)[key := cursor] && pick == RecordAt(bs, idx)
    {
      hide Index, RrNext;
      if key !in rrIndex {
        var idx0, back0 := RrBalancerHandle(bs, info, key);
        return None;
      }
      var attempts := 0;
      while true
        invariant attempts <= RR_ATTEMPTS && key in rrIndex
        invariant rrIndex == old(rrIndex)[key := rrIndex[key]]
        invariant RrSearch(bs, info, rrIndex[key], attempts) == RrSearch(bs, info, old(rrIndex)[key], 0)
        decreases RR_ATTEMPTS - attempts
      {
        var idx, back := RrBalancerHandle(bs, info, key);
        attempts := attempts + 1;
        if attempts > RR_ATTEMPTS {
          return None;
        }
        if back == None {
          return None;
        }
        if back.value.active {
          return Some((idx, back.value));
        }
      }
    }

    /**
     Weighted round robin, stepping the stored state in place. What it returns is always active, so the
     retry loop around the call ends after one round.
     */
    method WrrBalancerHandle(bs: seq<Backend>, info: ServiceInfo, key: ServiceKey)
      returns (pick: Option<(nat, Backend)>)
      modifies this`wrrState
      ensures var st := if key in old(wrrState) then old(wrrState)[key] else WrrState(0, 0);
        var (st', idx) := WrrSearch(bs, info, st, 0);
        && wrrState == old(wrrState)[key := st']
        && pick == RecordAt(bs, idx)
      ensures pick.Some? ==> pick.value.1.active
    {
      hide Index;
      if key !in wrrState {
        wrrState := wrrState[key := WrrState(0, 0)];
      }
      ghost var st0 := wrrState[key];
      var attempts := 0;
      while attempts < WRR_ATTEMPTS
        invariant attempts <= WRR_ATTEMPTS && key in wrrState
        invariant wrrState == old(wrrState)[key := wrrState[key]]
        invariant WrrSearch(bs, info, wrrState[key], attempts) == WrrSearch(bs, info, st0, 0)
      {
        if attempts >= info.backendCount * 2 {
          break;
        }
        var st := wrrState[key];
        var idx := Index(info, st.index);
        if idx < |bs| && bs[idx].active && bs[idx].weight > 0 {
          if st.counter + 1 < bs[idx].weight {
            wrrState := wrrState[key := st.(counter := st.counter + 1)];
          } else {
            wrrState := wrrState[key := WrrState((st.index + 1) % info.backendCount, 0)];
          }
          return Some((idx, bs[idx]));
        }
        wrrState := wrrState[key := WrrState((st.index + 1) % info.backendCount, 0)];
        attempts := attempts + 1;
      }
      return None;
    }

    method Uncount(cpu: nat, v: Session, flow: SessionKey)
      modifies this`sessions, this`backendConns, this`serviceConns
      ensures Abs() == Count(Close(old(Abs()), flow), cpu, v.backendIdx, v.serviceIdx, -1)
    {
      sessions := sessions - {flow};
      backendConns := Bump(backendConns, cpu, v.backendIdx, -1);
      serviceConns := Bump(serviceConns, cpu, v.serviceIdx, -1);
    }

    method SelectBackend(bank: Bank, key: ServiceKey, info: ServiceInfo, chPick: Option<(nat, Backend)>)
      returns (pick: Option<(nat, Backend)>)
      modifies this`rrIndex, this`wrrState
      ensures (Abs(), pick) == Select(old(Abs()), bank, key, info, chPick)
    {
      match info.algorithm
      case RoundRobin =>
        pick := RrSelect(bank.backends, info, key);
      case WeightedRoundRobin =>
        pick := WrrBalancerHandle(bank.backends, info, key);
      case ConsistentHashing =>
        pick := chPick;
      case Unknown =>
        pick := None;
    }

    method Process(p: Packet) returns (outcome: Outcome)
      requires Valid()
      modifies this`rrIndex, this`wrrState, this`sessions, this`backendConns, this`serviceConns
      ensures (Abs(), outcome) == FindTcpBackend(old(Abs()), Active(), p)
    {
      hide RrSearch, WrrSearch, Bump, Ntohs, Select;
      var bank := Active();
      var cached: Option<Session> := None;
      if !(p.syn && !p.ack) && p.flow in sessions {
        var v := sessions[p.flow];
        if Since(p.now, v.created) > v.timeout {
          Uncount(p.cpu, v, p.flow);
        } else {
          sessions := sessions[p.flow := v.(created := p.now)];
          cached := Some(v.(created := p.now));
        }
      }
      assert (Abs(), cached) == FindSession(old(Abs()), p);
      var idx, serviceIdx, delta, record: Backend;
      if cached.Some? && cached.value.backendIdx < |bank.backends| {
        idx, serviceIdx, delta := cached.value.backendIdx, cached.value.serviceIdx, 0;
        record := bank.backends[idx];
      } else {
        var key := ServiceOf(p.flow);
        if key !in bank.services {
          return NoBackend;
        }
        var info := bank.services[key];
        var pick := SelectBackend(bank, key, info, p.chPick);
        if pick == None {
          return NoBackend;
        }
        idx, record := pick.value.0, pick.value.1;
        serviceIdx, delta := info.serviceIdx, 1;
        if p.flow in sessions || |sessions| < SESSION_CAPACITY {
          sessions := sessions[p.flow := Session(idx, serviceIdx, p.now, TCP_STATE_TIMEOUT)];
        }
      }
      if cached.Some? && (p.fin || p.rst) {
        sessions := sessions - {p.flow};
        delta := -1;
      }
      backendConns := Bump(backendConns, p.cpu, idx, delta);
      serviceConns := Bump(serviceConns, p.cpu, serviceIdx, delta);
      return Forward(idx, record);
    }

    method ProcessUdp(key: ServiceKey) returns (outcome: Outcome)
      requires Valid()
      modifies this`rrIndex, this`wrrState
      ensures (Abs(), outcome) == FindUdpBackend(old(Abs()), Active(), key)
    {
      hide Select;
      var bank := Active();
      if key !in bank.services {
        return NoBackend;
      }
      var info := bank.services[key];
      if info.algorithm == ConsistentHashing {
        RingGivesUdpNothing(Abs(), bank, key, info);
        return NoBackend;
      }
      var pick := SelectBackend(bank, key, info, None);
      return if pick.None? then NoBackend else Forward(pick.value.0, pick.value.1);
    }
  }

  lemma RingGivesUdpNothing(s: Path, bank: Bank, key: ServiceKey, info: ServiceInfo)
    requires info.algorithm == ConsistentHashing
    ensures Select(s, bank, key, info, None) == (s, None)
  {
  }
}
