/** What holds of the packet path over whole runs: connection counts, session affinity and slice integrity. */
module Sessions {
  import opened XdpTypes
  import opened Selection
  import opened PacketPath
  import NumberTheory

  // ---- Runs ----

  function Step(s: Path, bank: Bank, p: Packet): Path {
    FindTcpBackend(s, bank, p).0
  }

  function Run(s: Path, bank: Bank, ps: seq<Packet>): Path {
    if ps == [] then s else Step(Run(s, bank, ps[..|ps| - 1]), bank, ps[|ps| - 1])
  }

  // ---- Connection conservation ----

  /** Connections are counted per backend and per service; the argument is the same for both. */
  datatype Kind = ByBackend | ByService

  function Tag(v: Session, kind: Kind): nat {
    if kind == ByBackend then v.backendIdx else v.serviceIdx
  }

  function Rows(s: Path, kind: Kind): seq<seq<int>> {
    if kind == ByBackend then s.backendConns else s.serviceConns
  }

  /** What the control plane reports: the counter summed over all CPUs. */
  function SumOverCpus(rows: seq<seq<int>>, x: nat): int {
    if rows == [] then 0
    else
      var last := rows[|rows| - 1];
      SumOverCpus(rows[..|rows| - 1], x) + if x < |last| then last[x] else 0
  }

  /** The live sessions with this backend or service index. */
  function LiveKeys(sessions: map<SessionKey, Session>, kind: Kind, x: nat): set<SessionKey> {
    set k | k in sessions && Tag(sessions[k], kind) == x
  }

  /** Every counter row is wide enough for every index used. */
  ghost predicate Shaped(s: Path, bank: Bank, cpus: nat) {
    && |s.backendConns| == |s.serviceConns| == cpus
    && (forall c :: 0 <= c < cpus ==> |s.backendConns[c]| == |bank.backends|)
    && (forall k :: k in s.sessions ==> s.sessions[k].backendIdx < |bank.backends|)
  }

  lemma {:induction false} BumpSum(rows: seq<seq<int>>, cpu: nat, idx: nat, delta: int, x: nat)
    ensures SumOverCpus(Bump(rows, cpu, idx, delta), x) ==
      SumOverCpus(rows, x) + if cpu < |rows| && idx < |rows[cpu]| && idx == x then delta else 0
  {
    if rows != [] && cpu < |rows| && idx < |rows[cpu]| {
      var last := |rows| - 1;
      var bumped := Bump(rows, cpu, idx, delta);
      if cpu == last {
        assert bumped[..last] == rows[..last];
      } else {
        assert bumped[..last] == Bump(rows[..last], cpu, idx, delta);
        BumpSum(rows[..last], cpu, idx, delta, x);
      }
    }
  }

  lemma LiveRemove(sessions: map<SessionKey, Session>, flow: SessionKey, kind: Kind, x: nat)
    ensures |LiveKeys(sessions - {flow}, kind, x)| ==
      |LiveKeys(sessions, kind, x)| - if flow in sessions && Tag(sessions[flow], kind) == x then 1 else 0
  {
    if flow in sessions && Tag(sessions[flow], kind) == x {
      assert LiveKeys(sessions, kind, x) == LiveKeys(sessions - {flow}, kind, x) + {flow};
    } else {
      assert LiveKeys(sessions, kind, x) == LiveKeys(sessions - {flow}, kind, x);
    }
  }

  lemma LiveInsert(sessions: map<SessionKey, Session>, flow: SessionKey, v: Session, kind: Kind, x: nat)
    ensures |LiveKeys(sessions[flow := v], kind, x)| ==
      |LiveKeys(sessions - {flow}, kind, x)| + if Tag(v, kind) == x then 1 else 0
  {
    assert LiveKeys(sessions[flow := v], kind, x)
        == LiveKeys(sessions - {flow}, kind, x) + if Tag(v, kind) == x then {flow} else {};
  }

  /**
   The connection counted but no longer backed by a session when v is opened: one overwritten, or v itself when
   the map is full.
   */
  function LostOpening(s: Path, flow: SessionKey, v: Session, kind: Kind, x: nat): nat {
    if flow in s.sessions then (if Tag(s.sessions[flow], kind) == x then 1 else 0)
    else if |s.sessions| >= 65536 && Tag(v, kind) == x then 1
    else 0
  }

  /** What a packet loses for index x: only a packet that opens a session can lose one. */
  function Lost(s: Path, bank: Bank, p: Packet, kind: Kind, x: nat): nat {
    var (found, cached) := FindSession(s, p);
    var outcome := FindTcpBackend(s, bank, p).1;
    var key := ServiceOf(p.flow);
    if outcome.NoBackend? || cached.Some? || key !in bank.services then 0
    else
      LostOpening(found, p.flow, Session(outcome.idx, bank.services[key].serviceIdx, p.now, TCP_STATE_TIMEOUT),
                  kind, x)
  }

  /** Counter sum minus live sessions: what a packet changes is exactly what it loses. */
  function Surplus(s: Path, kind: Kind, x: nat): int {
    SumOverCpus(Rows(s, kind), x) - |LiveKeys(s.sessions, kind, x)|
  }

  /** The index is inside every counter row. */
  ghost predicate Counted(s: Path, kind: Kind, cpus: nat, x: nat) {
    |Rows(s, kind)| == cpus && forall c :: 0 <= c < cpus ==> x < |Rows(s, kind)[c]|
  }

  lemma FindSessionKeepsSurplus(s: Path, p: Packet, kind: Kind, cpus: nat, x: nat)
    requires Counted(s, kind, cpus, x) && p.cpu < cpus
    ensures var (found, cached) := FindSession(s, p);
      && Counted(found, kind, cpus, x) && Surplus(found, kind, x) == Surplus(s, kind, x)
      && (cached.Some? ==> p.flow in found.sessions && cached.value == found.sessions[p.flow])
  {
    if !PureSyn(p) && p.flow in s.sessions {
      var v := s.sessions[p.flow];
      LiveRemove(s.sessions, p.flow, kind, x);
      LiveInsert(s.sessions, p.flow, v.(created := p.now), kind, x);
      CountMovesSum(Close(s, p.flow), p.cpu, v, -1, kind, cpus, x);
    }
  }

  lemma SelectKeeps(s: Path, bank: Bank, key: ServiceKey, info: ServiceInfo, chPick: Option<(nat, Backend)>)
    ensures var (selected, pick) := Select(s, bank, key, info, chPick);
      && selected.sessions == s.sessions
      && selected.backendConns == s.backendConns && selected.serviceConns == s.serviceConns
      && (pick.Some? && info.algorithm != ConsistentHashing ==>
            pick.value.0 < |bank.backends| && pick.value.1 == bank.backends[pick.value.0])
      && (info.algorithm == ConsistentHashing ==> pick == chPick)
  {
  }

  lemma CountMovesSum(s: Path, cpu: nat, v: Session, delta: int, kind: Kind, cpus: nat, x: nat)
    requires Counted(s, kind, cpus, x) && cpu < cpus
    ensures var after := Count(s, cpu, v.backendIdx, v.serviceIdx, delta);
      && after.sessions == s.sessions && Counted(after, kind, cpus, x)
      && SumOverCpus(Rows(after, kind), x) == SumOverCpus(Rows(s, kind), x) + if Tag(v, kind) == x then delta else 0
  {
    BumpSum(Rows(s, kind), cpu, Tag(v, kind), delta, x);
  }

  lemma OpenAddsItsLoss(s: Path, flow: SessionKey, v: Session, cpu: nat, kind: Kind, cpus: nat, x: nat)
    requires Counted(s, kind, cpus, x) && cpu < cpus
    ensures var after := Count(Open(s, flow, v), cpu, v.backendIdx, v.serviceIdx, 1);
      Counted(after, kind, cpus, x) && Surplus(after, kind, x) == Surplus(s, kind, x) + LostOpening(s, flow, v, kind, x)
  {
    LiveRemove(s.sessions, flow, kind, x);
    LiveInsert(s.sessions, flow, v, kind, x);
    CountMovesSum(Open(s, flow, v), cpu, v, 1, kind, cpus, x);
    hide Count, SumOverCpus, LiveKeys;
  }

  lemma ServingKeepsSurplus(s: Path, flow: SessionKey, closing: bool, cpu: nat, kind: Kind, cpus: nat, x: nat)
    requires Counted(s, kind, cpus, x) && cpu < cpus && flow in s.sessions
    ensures var v := s.sessions[flow];
      var after := Count(if closing then Close(s, flow) else s, cpu, v.backendIdx, v.serviceIdx,
                         if closing then -1 else 0);
      Counted(after, kind, cpus, x) && Surplus(after, kind, x) == Surplus(s, kind, x)
  {
    LiveRemove(s.sessions, flow, kind, x);
    CountMovesSum(if closing then Close(s, flow) else s, cpu, s.sessions[flow], if closing then -1 else 0, kind, cpus,
                  x);
    hide Count, SumOverCpus, LiveKeys;
  }

  /** The packet ran on one of the CPUs, and a ring pick fits the counters. */
  ghost predicate Plausible(p: Packet, bank: Bank, cpus: nat) {
    p.cpu < cpus && (p.chPick.Some? ==> p.chPick.value.0 < |bank.backends|)
  }

  lemma CachedIsServed(s: Path, bank: Bank, cpus: nat, p: Packet)
    requires Shaped(s, bank, cpus)
    ensures FindSession(s, p).1.Some? ==> FindSession(s, p).1.value.backendIdx < |bank.backends|
  {
  }

  lemma StepAddsItsLoss(s: Path, bank: Bank, cpus: nat, p: Packet, kind: Kind, x: nat)
    requires Shaped(s, bank, cpus) && Plausible(p, bank, cpus) && Counted(s, kind, cpus, x)
    ensures Counted(Step(s, bank, p), kind, cpus, x)
    ensures Surplus(Step(s, bank, p), kind, x) == Surplus(s, kind, x) + Lost(s, bank, p, kind, x)
  {
    var (found, cached) := FindSession(s, p);
    var key := ServiceOf(p.flow);
    FindSessionKeepsSurplus(s, p, kind, cpus, x);
    CachedIsServed(s, bank, cpus, p);
    hide FindSession, Surplus, Counted, Bump, Close, Open, LostOpening, Select, ServiceOf;
    if cached.Some? {
      ServingKeepsSurplus(found, p.flow, Closing(p), p.cpu, kind, cpus, x);
    } else if key in bank.services {
      var (selected, pick) := Select(found, bank, key, bank.services[key], p.chPick);
      SelectKeeps(found, bank, key, bank.services[key], p.chPick);
      SurplusOf(found, selected, kind, cpus, x);
      if pick.Some? {
        var v := Session(pick.value.0, bank.services[key].serviceIdx, p.now, TCP_STATE_TIMEOUT);
        OpenAddsItsLoss(selected, p.flow, v, p.cpu, kind, cpus, x);
        LossOf(found, selected, p.flow, v, kind, x);
      }
    }
  }

  lemma SurplusOf(s: Path, t: Path, kind: Kind, cpus: nat, x: nat)
    requires s.sessions == t.sessions && s.backendConns == t.backendConns && s.serviceConns == t.serviceConns
    ensures Surplus(s, kind, x) == Surplus(t, kind, x) && (Counted(s, kind, cpus, x) <==> Counted(t, kind, cpus, x))
  {
  }

  lemma LossOf(s: Path, t: Path, flow: SessionKey, v: Session, kind: Kind, x: nat)
    requires s.sessions == t.sessions
    ensures LostOpening(s, flow, v, kind, x) == LostOpening(t, flow, v, kind, x)
  {
  }

  lemma CountKeepsShape(s: Path, bank: Bank, cpus: nat, cpu: nat, backendIdx: nat, serviceIdx: nat, delta: int)
    requires Shaped(s, bank, cpus)
    ensures Shaped(Count(s, cpu, backendIdx, serviceIdx, delta), bank, cpus)
  {
  }

  lemma OpenKeepsShape(s: Path, bank: Bank, cpus: nat, flow: SessionKey, v: Session)
    requires Shaped(s, bank, cpus) && v.backendIdx < |bank.backends|
    ensures Shaped(Open(s, flow, v), bank, cpus)
  {
  }

  lemma CloseKeepsShape(s: Path, bank: Bank, cpus: nat, flow: SessionKey)
    requires Shaped(s, bank, cpus)
    ensures Shaped(Close(s, flow), bank, cpus)
  {
  }

  lemma StepKeepsShape(s: Path, bank: Bank, cpus: nat, p: Packet)
    requires Shaped(s, bank, cpus) && Plausible(p, bank, cpus)
    ensures Shaped(Step(s, bank, p), bank, cpus)
  {
    var (found, cached) := FindSession(s, p);
    assert Shaped(found, bank, cpus) by {
      if !PureSyn(p) && p.flow in s.sessions {
        CloseKeepsShape(s, bank, cpus, p.flow);
        CountKeepsShape(Close(s, p.flow), bank, cpus, p.cpu, s.sessions[p.flow].backendIdx,
                        s.sessions[p.flow].serviceIdx, -1);
      }
    }
    var key := ServiceOf(p.flow);
    hide Select, Close, Count, Open, ServiceOf, FindSession;
    if cached.Some? && cached.value.backendIdx < |bank.backends| {
      var v := cached.value;
      CloseKeepsShape(found, bank, cpus, p.flow);
      CountKeepsShape(if Closing(p) then Close(found, p.flow) else found, bank, cpus,
                      p.cpu, v.backendIdx, v.serviceIdx, if Closing(p) then -1 else 0);
    } else if key in bank.services {
      var info := bank.services[key];
      SelectKeeps(found, bank, key, info, p.chPick);
      var (selected, pick) := Select(found, bank, key, info, p.chPick);
      if pick.Some? {
        var v := Session(pick.value.0, info.serviceIdx, p.now, TCP_STATE_TIMEOUT);
        OpenKeepsShape(selected, bank, cpus, p.flow, v);
        var created, closing := Open(selected, p.flow, v), cached.Some? && Closing(p);
        CloseKeepsShape(created, bank, cpus, p.flow);
        CountKeepsShape(if closing then Close(created, p.flow) else created, bank, cpus,
                        p.cpu, v.backendIdx, v.serviceIdx, if closing then -1 else 1);
      }
    }
  }

  function LostInRun(s: Path, bank: Bank, ps: seq<Packet>, kind: Kind, x: nat): nat {
    if ps == [] then 0
    else
      var front := ps[..|ps| - 1];
      LostInRun(s, bank, front, kind, x) + Lost(Run(s, bank, front), bank, ps[|ps| - 1], kind, x)
  }

  lemma {:induction false} SurplusIsLoss(s: Path, bank: Bank, cpus: nat, ps: seq<Packet>, kind: Kind, x: nat)
    requires Shaped(s, bank, cpus) && Counted(s, kind, cpus, x)
    requires forall i :: 0 <= i < |ps| ==> Plausible(ps[i], bank, cpus)
    ensures Shaped(Run(s, bank, ps), bank, cpus) && Counted(Run(s, bank, ps), kind, cpus, x)
    ensures Surplus(Run(s, bank, ps), kind, x) == Surplus(s, kind, x) + LostInRun(s, bank, ps, kind, x)
  {
    hide Shaped, Counted, Surplus, Lost, Step, Plausible;
    if ps != [] {
      var front, last := ps[..|ps| - 1], ps[|ps| - 1];
      SurplusIsLoss(s, bank, cpus, front, kind, x);
      StepAddsItsLoss(Run(s, bank, front), bank, cpus, last, kind, x);
      StepKeepsShape(Run(s, bank, front), bank, cpus, last);
    }
  }

  /**
   From a state without sessions and with zeroed counters, the reported connections of every backend and
   service are the live sessions there plus the losses so far, whatever CPU each packet ran on.
   */
  lemma ConnectionsAreConserved(s: Path, bank: Bank, cpus: nat, ps: seq<Packet>, kind: Kind, x: nat)
    requires Shaped(s, bank, cpus) && Counted(s, kind, cpus, x)
    requires s.sessions == map[] && SumOverCpus(Rows(s, kind), x) == 0
    requires forall i :: 0 <= i < |ps| ==> Plausible(ps[i], bank, cpus)
    ensures var after := Run(s, bank, ps);
      SumOverCpus(Rows(after, kind), x) == |LiveKeys(after.sessions, kind, x)| + LostInRun(s, bank, ps, kind, x) >= 0
  {
    assert LiveKeys(s.sessions, kind, x) == {};
    SurplusIsLoss(s, bank, cpus, ps, kind, x);
  }

  // ---- Session affinity ----

  /** Packets of other flows leave this flow's session alone. */
  lemma OtherFlowsDoNotInterfere(s: Path, bank: Bank, p: Packet, flow: SessionKey)
    requires p.flow != flow
    ensures flow in Step(s, bank, p).sessions <==> flow in s.sessions
    ensures flow in s.sessions ==> Step(s, bank, p).sessions[flow] == s.sessions[flow]
  {
    hide RrSearch, WrrSearch, Ntohs, Since, Bump;
    var found := FindSession(s, p).0;
    var key := ServiceOf(p.flow);
    if key in bank.services {
      SelectKeeps(found, bank, key, bank.services[key], p.chPick);
    }
  }

  /** The flow has a live-able session on this backend, last refreshed at this time. */
  predicate SessionOn(s: Path, bank: Bank, flow: SessionKey, idx: nat, last: Time) {
    && idx < |bank.backends| && flow in s.sessions
    && s.sessions[flow].backendIdx == idx
    && s.sessions[flow].created == last && s.sessions[flow].timeout == 60_000_000_000
  }

  lemma SessionServes(s: Path, bank: Bank, p: Packet, idx: nat, last: Time)
    requires SessionOn(s, bank, p.flow, idx, last) && !PureSyn(p)
    requires last <= p.now <= last + 60_000_000_000
    ensures FindTcpBackend(s, bank, p).1 == Forward(idx, bank.backends[idx])
    ensures !Closing(p) ==> SessionOn(Step(s, bank, p), bank, p.flow, idx, p.now)
    ensures Closing(p) ==> p.flow !in Step(s, bank, p).sessions
  {
    hide Bump;
  }

  /** An expired session serves nobody: the packet selects afresh from a state without it. */
  lemma ExpiredSessionIsDropped(s: Path, bank: Bank, p: Packet, idx: nat, last: Time)
    requires SessionOn(s, bank, p.flow, idx, last) && !PureSyn(p)
    requires last + 60_000_000_000 < p.now
    ensures var (found, cached) := FindSession(s, p); cached == None && p.flow !in found.sessions
  {
  }

  /** The time the flow was last seen in the run, or since if never. */
  function LastSeen(ps: seq<Packet>, flow: SessionKey, since: Time): Time {
    if ps == [] then since
    else if ps[|ps| - 1].flow == flow then ps[|ps| - 1].now
    else LastSeen(ps[..|ps| - 1], flow, since)
  }

  /** The flow's packet at position i follows the previous one within the session timeout, and is no pure SYN. */
  predicate KeepsUp(ps: seq<Packet>, flow: SessionKey, since: Time, i: nat)
    requires i < |ps|
  {
    ps[i].flow == flow ==>
      var last := LastSeen(ps[..i], flow, since);
      !PureSyn(ps[i]) && last <= ps[i].now <= last + 60_000_000_000
  }

  lemma KeepsUpFront(ps: seq<Packet>, flow: SessionKey, since: Time, i: nat)
    requires i <= |ps| && forall j :: 0 <= j < i ==> KeepsUp(ps, flow, since, j)
    ensures forall j :: 0 <= j < i ==> KeepsUp(ps[..i], flow, since, j)
  {
    forall j | 0 <= j < i ensures KeepsUp(ps[..i], flow, since, j) {
      assert ps[..i][..j] == ps[..j];
      assert KeepsUp(ps, flow, since, j);
    }
  }

  predicate ClosesFlow(p: Packet, flow: SessionKey) { p.flow == flow && Closing(p) }

  lemma {:induction false} SessionLasts(s: Path, bank: Bank, ps: seq<Packet>, flow: SessionKey, idx: nat, since: Time)
    requires SessionOn(s, bank, flow, idx, since)
    requires forall i :: 0 <= i < |ps| ==> KeepsUp(ps, flow, since, i) && !ClosesFlow(ps[i], flow)
    ensures SessionOn(Run(s, bank, ps), bank, flow, idx, LastSeen(ps, flow, since))
  {
    if ps != [] {
      var front, last := ps[..|ps| - 1], |ps| - 1;
      forall i | 0 <= i < |front| ensures KeepsUp(front, flow, since, i) && !ClosesFlow(front[i], flow) {
        assert front[..i] == ps[..i];
        assert KeepsUp(ps, flow, since, i);
      }
      SessionLasts(s, bank, front, flow, idx, since);
      assert KeepsUp(ps, flow, since, last) && !ClosesFlow(ps[last], flow);
      hide FindTcpBackend;
      if ps[last].flow == flow {
        SessionServes(Run(s, bank, front), bank, ps[last], idx, LastSeen(front, flow, since));
      } else {
        OtherFlowsDoNotInterfere(Run(s, bank, front), bank, ps[last], flow);
      }
    }
  }

  /** The packet starts a session and there is room for it. */
  predicate Opens(s: Path, bank: Bank, p: Packet) {
    var (found, cached) := FindSession(s, p);
    && cached == None && FindTcpBackend(s, bank, p).1.Forward?
    && (p.flow in found.sessions || |found.sessions| < 65536)
    && bank.services[ServiceOf(p.flow)].algorithm != ConsistentHashing
  }

  lemma OpeningStartsSession(s: Path, bank: Bank, p: Packet)
    requires Opens(s, bank, p)
    ensures var outcome := FindTcpBackend(s, bank, p).1;
      SessionOn(Step(s, bank, p), bank, p.flow, outcome.idx, p.now) && outcome.record == bank.backends[outcome.idx]
  {
    hide Bump, Ntohs, Since;
    var (found, key) := (FindSession(s, p).0, ServiceOf(p.flow));
    SelectKeeps(found, bank, key, bank.services[key], p.chPick);
    hide Select;
  }

  /**
   Affinity: from the packet that opens a round-robin session on, every packet of the flow up to and
   including the first FIN or RST goes to the backend chosen then, whatever other flows do in between,
   as long as the flow never pauses beyond the timeout nor sends a pure SYN.
   */
  lemma FlowStaysOnItsBackend(s: Path, bank: Bank, opener: Packet, ps: seq<Packet>, i: nat)
    requires Opens(s, bank, opener)
    requires i < |ps| && ps[i].flow == opener.flow
    requires forall j :: 0 <= j <= i ==> KeepsUp(ps, opener.flow, opener.now, j)
    requires forall j :: 0 <= j < i ==> !ClosesFlow(ps[j], opener.flow)
    ensures var started := Step(s, bank, opener);
      FindTcpBackend(Run(started, bank, ps[..i]), bank, ps[i]).1 == FindTcpBackend(s, bank, opener).1
  {
    var start, idx := Step(s, bank, opener), FindTcpBackend(s, bank, opener).1.idx;
    OpeningStartsSession(s, bank, opener);
    hide FindTcpBackend, Opens;
    KeepsUpFront(ps, opener.flow, opener.now, i);
    SessionLasts(start, bank, ps[..i], opener.flow, idx, opener.now);
    assert KeepsUp(ps, opener.flow, opener.now, i);
    SessionServes(Run(start, bank, ps[..i]), bank, ps[i], idx, LastSeen(ps[..i], opener.flow, opener.now));
  }

  /**
   The packet starts a session of a ring service at the position the ring lookup answers, and there is room for
   it.
   */
  predicate OpensOnRing(s: Path, bank: Bank, p: Packet) {
    var (found, cached) := FindSession(s, p);
    && cached == None && (p.flow in found.sessions || |found.sessions| < 65536)
    && ServiceOf(p.flow) in bank.services && bank.services[ServiceOf(p.flow)].algorithm == ConsistentHashing
    && p.chPick.Some? && p.chPick.value.0 < |bank.backends|
  }

  lemma RingOpenerStartsSession(s: Path, bank: Bank, p: Packet)
    requires OpensOnRing(s, bank, p)
    ensures FindTcpBackend(s, bank, p).1 == Forward(p.chPick.value.0, p.chPick.value.1)
    ensures SessionOn(Step(s, bank, p), bank, p.flow, p.chPick.value.0, p.now)
  {
    hide Bump, Ntohs;
  }

  /**
   A ring session stores the position in the ring's own array, but its later packets read the service array: up to
   and including the first FIN or RST they all go to the record there, which is where the opener went exactly when
   both arrays have the same record at that position.
   */
  lemma RingFlowFollowsTheOtherArray(s: Path, bank: Bank, opener: Packet, ps: seq<Packet>, i: nat)
    requires OpensOnRing(s, bank, opener)
    requires i < |ps| && ps[i].flow == opener.flow
    requires forall j :: 0 <= j <= i ==> KeepsUp(ps, opener.flow, opener.now, j)
    requires forall j :: 0 <= j < i ==> !ClosesFlow(ps[j], opener.flow)
    ensures var (idx, record) := opener.chPick.value;
      var later := FindTcpBackend(Run(Step(s, bank, opener), bank, ps[..i]), bank, ps[i]).1;
      && later == Forward(idx, bank.backends[idx])
      && (later == FindTcpBackend(s, bank, opener).1 <==> bank.backends[idx] == record)
  {
    var start, idx := Step(s, bank, opener), opener.chPick.value.0;
    RingOpenerStartsSession(s, bank, opener);
    hide FindTcpBackend, OpensOnRing;
    KeepsUpFront(ps, opener.flow, opener.now, i);
    SessionLasts(start, bank, ps[..i], opener.flow, idx, opener.now);
    assert KeepsUp(ps, opener.flow, opener.now, i);
    SessionServes(Run(start, bank, ps[..i]), bank, ps[i], idx, LastSeen(ps[..i], opener.flow, opener.now));
  }

  /**
   A session outlives a flip until the reset clears it: its packets read its position in whatever array is active.
   They stay on their backend exactly when the new array has the same record there.
   */
  lemma SurvivingSessionReadsTheNewArray(s: Path, before: Bank, bank: Bank, p: Packet, idx: nat, last: Time)
    requires SessionOn(s, before, p.flow, idx, last) && !PureSyn(p) && last <= p.now <= last + 60_000_000_000
    requires idx < |bank.backends|
    ensures FindTcpBackend(s, bank, p).1 == Forward(idx, bank.backends[idx])
    ensures FindTcpBackend(s, bank, p).1 == FindTcpBackend(s, before, p).1 <==>
      bank.backends[idx] == before.backends[idx]
  {
    hide FindTcpBackend;
    SessionServes(s, before, p, idx, last);
    SessionServes(s, bank, p, idx, last);
  }

  lemma OpenerCountsOnItsCpu(s: Path, bank: Bank, p: Packet, cpu: nat)
    requires Opens(s, bank, p) && cpu < |s.backendConns| && cpu != p.cpu
    ensures cpu < |Step(s, bank, p).backendConns| && Step(s, bank, p).backendConns[cpu] == s.backendConns[cpu]
  {
    var found := FindSession(s, p).0;
    assert cpu < |found.backendConns| && found.backendConns[cpu] == s.backendConns[cpu];
    SelectKeeps(found, bank, ServiceOf(p.flow), bank.services[ServiceOf(p.flow)], p.chPick);
    hide Select, ServiceOf, FindSession;
  }

  /** One CPU's copy goes below where it was when the closing packet runs there and the opening one did not. */
  lemma OneCpusCopyCanDrop(s: Path, bank: Bank, opener: Packet, closer: Packet)
    requires Opens(s, bank, opener) && closer.flow == opener.flow && Closing(closer) && !PureSyn(closer)
    requires opener.now <= closer.now <= opener.now + 60_000_000_000
    requires opener.cpu != closer.cpu < |s.backendConns|
    requires var idx := FindTcpBackend(s, bank, opener).1.idx; idx < |s.backendConns[closer.cpu]|
    ensures var idx := FindTcpBackend(s, bank, opener).1.idx;
      var after := Step(Step(s, bank, opener), bank, closer);
      && closer.cpu < |after.backendConns| && idx < |after.backendConns[closer.cpu]|
      && after.backendConns[closer.cpu][idx] == s.backendConns[closer.cpu][idx] - 1
  {
    OpenerCountsOnItsCpu(s, bank, opener, closer.cpu);
    OpeningStartsSession(s, bank, opener);
    var mid := Step(s, bank, opener);
    hide Opens, Select, ServiceOf;
    assert FindSession(mid, closer).1.Some?;
    assert FindSession(mid, closer).0.backendConns == mid.backendConns;
  }

  // ---- Slice integrity ----

  /** The service selects by round robin, plain or weighted, from a slice inside the array. */
  predicate Sliced(bank: Bank, key: ServiceKey) {
    && key in bank.services && SliceFits(bank.backends, bank.services[key])
    && (bank.services[key].algorithm == RoundRobin || bank.services[key].algorithm == WeightedRoundRobin)
  }

  predicate InSlice(bs: seq<Backend>, info: ServiceInfo, idx: nat) {
    && info.backendStart <= idx < info.backendStart + info.backendCount
    && idx < |bs| && bs[idx].active
  }

  ghost predicate WrrIndexesOk(s: Path, bank: Bank) {
    forall key :: key in s.wrrState && Sliced(bank, key) ==> s.wrrState[key].index < bank.services[key].backendCount
  }

  ghost predicate SessionsInSlices(s: Path, bank: Bank) {
    forall k :: k in s.sessions && Sliced(bank, ServiceOf(k)) ==>
      var info := bank.services[ServiceOf(k)];
      s.sessions[k].serviceIdx == info.serviceIdx && InSlice(bank.backends, info, s.sessions[k].backendIdx)
  }

  lemma SessionIsInItsSlice(s: Path, bank: Bank, flow: SessionKey)
    requires SessionsInSlices(s, bank) && flow in s.sessions && Sliced(bank, ServiceOf(flow))
    ensures var info := bank.services[ServiceOf(flow)];
      s.sessions[flow].serviceIdx == info.serviceIdx && InSlice(bank.backends, info, s.sessions[flow].backendIdx)
  {
  }

  lemma {:induction false} RrStaysInSlice(bs: seq<Backend>, info: ServiceInfo, cursor: nat, attempts: nat)
    requires SliceFits(bs, info)
    ensures var found := RrSearch(bs, info, cursor, attempts).1; found.Some? ==> InSlice(bs, info, found.value)
    decreases RR_ATTEMPTS + 1 - attempts
  {
    var next := RrNext(cursor, info.backendCount);
    NumberTheory.SmallMod(info.backendStart + next, U32);
    if attempts < RR_ATTEMPTS {
      RrStaysInSlice(bs, info, next, attempts + 1);
    }
  }

  lemma {:induction false} WrrStaysInSlice(bs: seq<Backend>, info: ServiceInfo, st: WrrState, attempts: nat)
    requires SliceFits(bs, info) && st.index < info.backendCount
    ensures var (st', found) := WrrSearch(bs, info, st, attempts);
      st'.index < info.backendCount && (found.Some? ==> InSlice(bs, info, found.value))
    decreases WRR_ATTEMPTS - attempts
  {
    NumberTheory.SmallMod(info.backendStart + st.index, U32);
    if attempts < WRR_ATTEMPTS && attempts < info.backendCount * 2 {
      WrrStaysInSlice(bs, info, WrrState((st.index + 1) % info.backendCount, 0), attempts + 1);
    }
  }

  lemma SelectStaysInSlice(s: Path, bank: Bank, key: ServiceKey, chPick: Option<(nat, Backend)>)
    requires WrrIndexesOk(s, bank) && key in bank.services
    ensures var (selected, pick) := Select(s, bank, key, bank.services[key], chPick);
      && WrrIndexesOk(selected, bank)
      && (pick.Some? && Sliced(bank, key) ==> InSlice(bank.backends, bank.services[key], pick.value.0))
  {
    var info := bank.services[key];
    if Sliced(bank, key) {
      if info.algorithm == RoundRobin && key in s.rrIndex {
        RrStaysInSlice(bank.backends, info, s.rrIndex[key], 0);
      }
      if info.algorithm == WeightedRoundRobin {
        WrrStaysInSlice(bank.backends, info, if key in s.wrrState then s.wrrState[key] else WrrState(0, 0), 0);
      }
    }
    hide RrSearch, WrrSearch, SliceFits, InSlice;
  }

  /** Dropping sessions, or refreshing them, keeps the rest in their slices. */
  lemma FewerStayInSlices(s: Path, t: Path, bank: Bank)
    requires WrrIndexesOk(s, bank) && SessionsInSlices(s, bank) && t.wrrState == s.wrrState
    requires forall k :: k in t.sessions ==>
      && k in s.sessions && t.sessions[k].backendIdx == s.sessions[k].backendIdx
      && t.sessions[k].serviceIdx == s.sessions[k].serviceIdx
    ensures WrrIndexesOk(t, bank) && SessionsInSlices(t, bank)
  {
    hide Sliced, InSlice, ServiceOf;
  }

  lemma OpenedStaysInSlices(s: Path, bank: Bank, flow: SessionKey, v: Session)
    requires WrrIndexesOk(s, bank) && SessionsInSlices(s, bank)
    requires Sliced(bank, ServiceOf(flow)) ==>
      && v.serviceIdx == bank.services[ServiceOf(flow)].serviceIdx
      && InSlice(bank.backends, bank.services[ServiceOf(flow)], v.backendIdx)
    ensures WrrIndexesOk(Open(s, flow, v), bank) && SessionsInSlices(Open(s, flow, v), bank)
  {
    hide Sliced, InSlice, ServiceOf;
  }

  lemma StepStaysInSlices(s: Path, bank: Bank, p: Packet)
    requires WrrIndexesOk(s, bank) && SessionsInSlices(s, bank)
    ensures WrrIndexesOk(Step(s, bank, p), bank) && SessionsInSlices(Step(s, bank, p), bank)
  {
    var (found, cached) := FindSession(s, p);
    FewerStayInSlices(s, found, bank);
    hide Ntohs, Bump, FindSession, WrrIndexesOk, SessionsInSlices, Sliced, InSlice, Select, ServiceOf, Open;
    var key := ServiceOf(p.flow);
    var after := Step(s, bank, p);
    if cached.Some? && cached.value.backendIdx < |bank.backends| {
      FewerStayInSlices(found, after, bank);
    } else if key in bank.services {
      var (selected, pick) := Select(found, bank, key, bank.services[key], p.chPick);
      SelectKeeps(found, bank, key, bank.services[key], p.chPick);
      SelectStaysInSlice(found, bank, key, p.chPick);
      SameSessionsInSlices(found, selected, bank);
      if pick.Some? {
        var v := Session(pick.value.0, bank.services[key].serviceIdx, p.now, TCP_STATE_TIMEOUT);
        OpenedStaysInSlices(selected, bank, p.flow, v);
        FewerStayInSlices(Open(selected, p.flow, v), after, bank);
      }
    }
  }

  lemma SameSessionsInSlices(s: Path, t: Path, bank: Bank)
    requires SessionsInSlices(s, bank) && t.sessions == s.sessions
    ensures SessionsInSlices(t, bank)
  {
  }

  lemma {:induction false} RunStaysInSlices(s: Path, bank: Bank, ps: seq<Packet>)
    requires WrrIndexesOk(s, bank) && SessionsInSlices(s, bank)
    ensures WrrIndexesOk(Run(s, bank, ps), bank) && SessionsInSlices(Run(s, bank, ps), bank)
  {
    if ps != [] {
      RunStaysInSlices(s, bank, ps[..|ps| - 1]);
      hide Step, WrrIndexesOk, SessionsInSlices;
      StepStaysInSlices(Run(s, bank, ps[..|ps| - 1]), bank, ps[|ps| - 1]);
    }
  }

  /**
   In every state reached from one without sessions or weighted states, each live session points into its own
   service's slice.
   */
  lemma EverySessionIsInItsSlice(s: Path, bank: Bank, ps: seq<Packet>)
    requires s.sessions == map[] && s.wrrState == map[]
    ensures WrrIndexesOk(Run(s, bank, ps), bank) && SessionsInSlices(Run(s, bank, ps), bank)
  {
    RunStaysInSlices(s, bank, ps);
  }

  /** Whatever a packet of a sliced service is forwarded to is an active backend of that service's slice. */
  lemma ForwardsIntoSlice(s: Path, bank: Bank, p: Packet)
    requires WrrIndexesOk(s, bank) && SessionsInSlices(s, bank) && Sliced(bank, ServiceOf(p.flow))
    ensures var outcome := FindTcpBackend(s, bank, p).1;
      outcome.Forward? ==>
        && InSlice(bank.backends, bank.services[ServiceOf(p.flow)], outcome.idx)
        && outcome.record == bank.backends[outcome.idx]
  {
    hide Bump, Ntohs, Since, SliceFits;
    var key := ServiceOf(p.flow);
    var found := FindSession(s, p).0;
    assert WrrIndexesOk(found, bank) && SessionsInSlices(found, bank);
    SelectKeeps(found, bank, key, bank.services[key], p.chPick);
    SelectStaysInSlice(found, bank, key, p.chPick);
    hide Select;
  }
}
