/**
 The steps after the flip as a protocol: the control plane's single map operations in their order, and packets of the
 new configuration arriving in between.
 */
module Resets {
  import opened XdpTypes
  import opened Layout
  import opened Selection
  import opened PacketPath
  import opened Sessions
  import opened Serving
  import DoubleBuffer
  import Fairness
  import NumberTheory
  import Traffic

  const MAX_CURSORS: nat := 256

  /**
   The cursors of the first services zeroed; once all are, the weighted states are being emptied. Then the sessions
   are, and then the counter rows zeroed one by one.
   */
  datatype Stage = Cursors(done: nat) | Clearing | Counters(done: nat)

  datatype State = State(path: Path, stage: Stage)

  /** The next operation of the control plane, or a packet. WeightsGone and SessionsGone find the map empty. */
  datatype Event =
    | Arrive(p: Packet) | ArriveUdp(key: ServiceKey) | ZeroCursor | ForgetWeights(key: ServiceKey) | WeightsGone
    | ForgetSession(flow: SessionKey) | SessionsGone | ZeroRow

  function ZeroAt(rows: seq<seq<int>>, idx: nat): seq<seq<int>> {
    seq(|rows|, c requires 0 <= c < |rows| => if idx < |rows[c]| then rows[c][idx := 0] else rows[c])
  }

  /**
   The statistics map is an array, but its index is taken from the first four bytes of the service key.
   An address is the number its bytes spell, lowest first.
   */
  function StatsRow(key: ServiceKey): nat {
    key.vip % U32
  }

  /** It is inside the map of 256 rows exactly if the second, third and fourth byte of the address are zero. */
  lemma StatsRowIsTheFirstBytes(key: ServiceKey, b0: nat, b1: nat, b2: nat, b3: nat, rest: nat)
    requires b0 < 0x100 && b1 < 0x100 && b2 < 0x100 && b3 < 0x100
    requires key.vip == b0 + b1 * 0x100 + b2 * 0x1_0000 + b3 * 0x100_0000 + rest * 0x1_0000_0000
    ensures StatsRow(key) == b0 + b1 * 0x100 + b2 * 0x1_0000 + b3 * 0x100_0000
    ensures StatsRow(key) < 256 <==> b1 == b2 == b3 == 0
  {
    NumberTheory.DivModUnique(key.vip, U32, rest, b0 + b1 * 0x100 + b2 * 0x1_0000 + b3 * 0x100_0000);
  }

  /** The row the n-th zeroing is for: first each backend's, then what the services' keys are taken for. */
  function RowAt(plan: Plan, n: nat): Option<(Kind, nat)> {
    if n < |plan.backends| then Some((ByBackend, n))
    else if n < DoubleBuffer.LoadSize(plan) && StatsRow(plan.keys[n - |plan.backends|]) < DoubleBuffer.MAX_SERVICES then
      Some((ByService, StatsRow(plan.keys[n - |plan.backends|])))
    else None
  }

  function ZeroedRow(s: Path, kind: Kind, x: nat): Path {
    if kind == ByBackend then s.(backendConns := ZeroAt(s.backendConns, x))
    else s.(serviceConns := ZeroAt(s.serviceConns, x))
  }

  predicate Possible(s: State, plan: Plan, e: Event) {
    match e
    case Arrive(_) => true
    case ArriveUdp(_) => true
    case ZeroCursor =>
      && s.stage.Cursors? && s.stage.done < |plan.keys|
      && (plan.keys[s.stage.done] in s.path.rrIndex || |s.path.rrIndex| < MAX_CURSORS)
    case ForgetWeights(key) => s.stage == Cursors(|plan.keys|) && key in s.path.wrrState
    case WeightsGone => s.stage == Cursors(|plan.keys|) && s.path.wrrState == map[]
    case ForgetSession(flow) => s.stage == Clearing && flow in s.path.sessions
    case SessionsGone => s.stage == Clearing && s.path.sessions == map[]
    case ZeroRow => s.stage.Counters? && RowAt(plan, s.stage.done).Some?
  }

  /** An event that is not possible changes nothing. */
  function Next(s: State, bank: Bank, plan: Plan, e: Event): State {
    if !Possible(s, plan, e) then s
    else
      match e
      case Arrive(p) => s.(path := Step(s.path, bank, p))
      case ArriveUdp(key) => s.(path := FindUdpBackend(s.path, bank, key).0)
      case ZeroCursor =>
        State(s.path.(rrIndex := s.path.rrIndex[plan.keys[s.stage.done] := 0]), Cursors(s.stage.done + 1))
      case ForgetWeights(key) => s.(path := s.path.(wrrState := s.path.wrrState - {key}))
      case WeightsGone => s.(stage := Clearing)
      case ForgetSession(flow) => s.(path := Close(s.path, flow))
      case SessionsGone => s.(stage := Counters(0))
      case ZeroRow =>
        var (kind, x) := RowAt(plan, s.stage.done).value;
        State(ZeroedRow(s.path, kind, x), Counters(s.stage.done + 1))
  }

  function After(s: State, bank: Bank, plan: Plan, es: seq<Event>): State {
    if es == [] then s else Next(After(s, bank, plan, es[..|es| - 1]), bank, plan, es[|es| - 1])
  }

  lemma AfterOneMore(s: State, bank: Bank, plan: Plan, es: seq<Event>, e: Event)
    ensures After(s, bank, plan, es + [e]) == Next(After(s, bank, plan, es), bank, plan, e)
  {
    assert (es + [e])[..|es|] == es;
  }

  lemma {:induction false} AfterBoth(s: State, bank: Bank, plan: Plan, es: seq<Event>, fs: seq<Event>)
    ensures After(s, bank, plan, es + fs) == After(After(s, bank, plan, es), bank, plan, fs)
  {
    hide Next;
    if fs == [] {
      assert es + fs == es;
    } else {
      var last := |fs| - 1;
      assert (es + fs)[..|es + fs| - 1] == es + fs[..last];
      AfterBoth(s, bank, plan, es, fs[..last]);
    }
  }

  /** These events lead from one state to the other. */
  predicate Leads(plan: Plan, bank: Bank, from: State, es: seq<Event>, to: State) {
    After(from, bank, plan, es) == to
  }

  lemma LeadsNowhere(plan: Plan, bank: Bank, s: State)
    ensures Leads(plan, bank, s, [], s)
  {
  }

  lemma LeadsOn(plan: Plan, bank: Bank, from: State, es: seq<Event>, s: State, e: Event)
    requires Leads(plan, bank, from, es, s)
    ensures Leads(plan, bank, from, es + [e], Next(s, bank, plan, e))
  {
    AfterOneMore(from, bank, plan, es, e);
  }

  lemma LeadsFurther(plan: Plan, bank: Bank, from: State, es: seq<Event>, mid: State, fs: seq<Event>, to: State)
    requires Leads(plan, bank, from, es, mid) && Leads(plan, bank, mid, fs, to)
    ensures Leads(plan, bank, from, es + fs, to)
  {
    AfterBoth(from, bank, plan, es, fs);
  }

  lemma LeadsOverBackendRow(plan: Plan, bank: Bank, from: State, es: seq<Event>, s: Path, n: nat)
    requires Leads(plan, bank, from, es, State(s, Counters(n))) && n < |plan.backends|
    ensures Leads(plan, bank, from, es + [ZeroRow],
                  State(s.(backendConns := ZeroAt(s.backendConns, n)), Counters(n + 1)))
  {
    LeadsOn(plan, bank, from, es, State(s, Counters(n)), ZeroRow);
    hide Leads, ZeroAt;
  }

  lemma LeadsOverServiceRow(plan: Plan, bank: Bank, from: State, es: seq<Event>, s: Path, i: nat)
    requires Leads(plan, bank, from, es, State(s, Counters(|plan.backends| + i))) && i < |plan.keys|
    requires StatsRow(plan.keys[i]) < DoubleBuffer.MAX_SERVICES
    ensures Leads(plan, bank, from, es + [ZeroRow],
                  State(s.(serviceConns := ZeroAt(s.serviceConns, StatsRow(plan.keys[i]))),
                        Counters(|plan.backends| + i + 1)))
  {
    OverServiceRow(plan, bank, s, i);
    LeadsOn(plan, bank, from, es, State(s, Counters(|plan.backends| + i)), ZeroRow);
    hide Leads, ZeroAt, StatsRow, Next;
  }

  lemma OverServiceRow(plan: Plan, bank: Bank, s: Path, i: nat)
    requires i < |plan.keys| && StatsRow(plan.keys[i]) < DoubleBuffer.MAX_SERVICES
    ensures Next(State(s, Counters(|plan.backends| + i)), bank, plan, ZeroRow) ==
      State(s.(serviceConns := ZeroAt(s.serviceConns, StatsRow(plan.keys[i]))), Counters(|plan.backends| + i + 1))
  {
    hide ZeroAt, StatsRow;
  }

  // ---- What the counters count from ----

  /** This event is the one that zeroes the row. */
  predicate Zeroes(s: State, plan: Plan, e: Event, kind: Kind, x: nat) {
    e.ZeroRow? && s.stage.Counters? && RowAt(plan, s.stage.done) == Some((kind, x))
  }

  /** Connections that stay counted though their session is gone: a packet's losses, or a session cleared. */
  function LostTo(s: State, bank: Bank, plan: Plan, e: Event, kind: Kind, x: nat): nat {
    match e
    case Arrive(p) => Lost(s.path, bank, p, kind, x)
    case ForgetSession(flow) => if Possible(s, plan, e) && Tag(s.path.sessions[flow], kind) == x then 1 else 0
    case _ => 0
  }

  lemma {:induction false} ZeroSum(rows: seq<seq<int>>, idx: nat, x: nat)
    ensures SumOverCpus(ZeroAt(rows, idx), x) == if x == idx then 0 else SumOverCpus(rows, x)
  {
    if rows != [] {
      assert ZeroAt(rows, idx)[..|rows| - 1] == ZeroAt(rows[..|rows| - 1], idx);
      ZeroSum(rows[..|rows| - 1], idx, x);
    }
  }

  lemma ZeroedRowSurplus(s: Path, bank: Bank, cpus: nat, row: (Kind, nat), kind: Kind, x: nat)
    requires Shaped(s, bank, cpus) && Counted(s, kind, cpus, x)
    ensures var t := ZeroedRow(s, row.0, row.1);
      && Shaped(t, bank, cpus) && Counted(t, kind, cpus, x)
      && Surplus(t, kind, x) == if row == (kind, x) then -|LiveKeys(s.sessions, kind, x)| else Surplus(s, kind, x)
  {
    ZeroSum(Rows(s, kind), row.1, x);
    hide SumOverCpus, LiveKeys;
  }

  /** Every event but the row's own zeroing adds exactly its loss; the zeroing leaves minus the sessions live then. */
  lemma EventAddsItsLoss(s: State, bank: Bank, plan: Plan, cpus: nat, e: Event, kind: Kind, x: nat)
    requires Shaped(s.path, bank, cpus) && Counted(s.path, kind, cpus, x)
    requires e.Arrive? ==> Plausible(e.p, bank, cpus)
    ensures var t := Next(s, bank, plan, e);
      && Shaped(t.path, bank, cpus) && Counted(t.path, kind, cpus, x)
      && Surplus(t.path, kind, x) ==
           if Zeroes(s, plan, e, kind, x) then -|LiveKeys(s.path.sessions, kind, x)|
           else Surplus(s.path, kind, x) + LostTo(s, bank, plan, e, kind, x)
  {
    if Possible(s, plan, e) {
      match e
      case Arrive(p) =>
        StepAddsItsLoss(s.path, bank, cpus, p, kind, x);
        StepKeepsShape(s.path, bank, cpus, p);
      case ArriveUdp(key) =>
        Traffic.UdpLeavesConnections(s.path, bank, key);
        SurplusOf(s.path, FindUdpBackend(s.path, bank, key).0, kind, cpus, x);
      case ForgetSession(flow) =>
        LiveRemove(s.path.sessions, flow, kind, x);
      case ZeroRow =>
        ZeroedRowSurplus(s.path, bank, cpus, RowAt(plan, s.stage.done).value, kind, x);
      case _ =>
    }
    hide SumOverCpus, LiveKeys, Step, FindUdpBackend, Lost, ZeroedRow, RowAt;
  }

  ghost predicate NotZeroed(s: State, bank: Bank, plan: Plan, es: seq<Event>, kind: Kind, x: nat) {
    forall i :: 0 <= i < |es| ==> !Zeroes(After(s, bank, plan, es[..i]), plan, es[i], kind, x)
  }

  ghost predicate AllPlausible(es: seq<Event>, bank: Bank, cpus: nat) {
    forall i :: 0 <= i < |es| && es[i].Arrive? ==> Plausible(es[i].p, bank, cpus)
  }

  function LostAmid(s: State, bank: Bank, plan: Plan, es: seq<Event>, kind: Kind, x: nat): nat {
    if es == [] then 0
    else
      var front := es[..|es| - 1];
      LostAmid(s, bank, plan, front, kind, x) +
        LostTo(After(s, bank, plan, front), bank, plan, es[|es| - 1], kind, x)
  }

  lemma {:induction false} EventsAddTheirLosses(s: State, bank: Bank, plan: Plan, cpus: nat, es: seq<Event>,
                                                kind: Kind, x: nat)
    requires Shaped(s.path, bank, cpus) && Counted(s.path, kind, cpus, x)
    requires AllPlausible(es, bank, cpus) && NotZeroed(s, bank, plan, es, kind, x)
    ensures var t := After(s, bank, plan, es);
      && Shaped(t.path, bank, cpus) && Counted(t.path, kind, cpus, x)
      && Surplus(t.path, kind, x) == Surplus(s.path, kind, x) + LostAmid(s, bank, plan, es, kind, x)
  {
    if es != [] {
      var front, last := es[..|es| - 1], es[|es| - 1];
      assert NotZeroed(s, bank, plan, front, kind, x) by {
        forall i | 0 <= i < |front| ensures !Zeroes(After(s, bank, plan, front[..i]), plan, front[i], kind, x) {
          assert front[..i] == es[..i];
        }
      }
      assert !Zeroes(After(s, bank, plan, front), plan, last, kind, x);
      hide Shaped, Counted, Surplus, Next, LostTo, Zeroes, NotZeroed, Plausible;
      EventsAddTheirLosses(s, bank, plan, cpus, front, kind, x);
      EventAddsItsLoss(After(s, bank, plan, front), bank, plan, cpus, last, kind, x);
    }
  }

  /**
   From the zeroing of a row on, whatever arrives: the reported connections are the live sessions, less those that
   were live at the zeroing, plus the losses since. So the counter starts balanced exactly when there were none.
   */
  lemma CountedFromTheZeroing(s: State, bank: Bank, plan: Plan, cpus: nat, es: seq<Event>, kind: Kind, x: nat)
    requires Shaped(s.path, bank, cpus) && Counted(s.path, kind, cpus, x) && Zeroes(s, plan, ZeroRow, kind, x)
    requires AllPlausible(es, bank, cpus) && NotZeroed(Next(s, bank, plan, ZeroRow), bank, plan, es, kind, x)
    ensures var t := Next(s, bank, plan, ZeroRow);
      var end := After(t, bank, plan, es).path;
      && SumOverCpus(Rows(end, kind), x) ==
           |LiveKeys(end.sessions, kind, x)| - |LiveKeys(s.path.sessions, kind, x)| +
           LostAmid(t, bank, plan, es, kind, x)
      && (Surplus(t.path, kind, x) == 0 <==> forall k :: k in s.path.sessions ==> Tag(s.path.sessions[k], kind) != x)
  {
    var t := Next(s, bank, plan, ZeroRow);
    EventAddsItsLoss(s, bank, plan, cpus, ZeroRow, kind, x);
    EventsAddTheirLosses(t, bank, plan, cpus, es, kind, x);
    var live := LiveKeys(s.path.sessions, kind, x);
    assert |live| == 0 <==> live == {};
    assert live == {} <==> forall k :: k in s.path.sessions ==> Tag(s.path.sessions[k], kind) != x by {
      assert forall k :: k in live <==> k in s.path.sessions && Tag(s.path.sessions[k], kind) == x;
    }
    hide Shaped, Counted, Next, LostAmid, Zeroes, NotZeroed, SumOverCpus, LiveKeys;
  }

  lemma {:induction false} RowsGoUp(s: State, bank: Bank, plan: Plan, es: seq<Event>)
    requires s.stage.Counters?
    ensures var t := After(s, bank, plan, es); t.stage.Counters? && t.stage.done >= s.stage.done
  {
    if es != [] {
      RowsGoUp(s, bank, plan, es[..|es| - 1]);
      hide Step, FindUdpBackend, ZeroedRow;
    }
  }

  /** A backend's row is zeroed once only, so the above says what it counts ever after. */
  lemma BackendRowIsZeroedOnce(s: State, bank: Bank, plan: Plan, es: seq<Event>, x: nat)
    requires Zeroes(s, plan, ZeroRow, ByBackend, x)
    ensures NotZeroed(Next(s, bank, plan, ZeroRow), bank, plan, es, ByBackend, x)
  {
    var t := Next(s, bank, plan, ZeroRow);
    hide After;
    forall i | 0 <= i < |es| ensures !Zeroes(After(t, bank, plan, es[..i]), plan, es[i], ByBackend, x) {
      RowsGoUp(t, bank, plan, es[..i]);
    }
  }

  /** A flow that opens after the sessions are cleared and closes after its backend's row is zeroed. */
  function StraddlingFlow(opener: Packet, closer: Packet): seq<Event> {
    [Arrive(opener), ZeroRow, Arrive(closer)]
  }

  lemma ThreeEvents(s: State, bank: Bank, plan: Plan, a: Event, b: Event, c: Event)
    ensures After(s, bank, plan, [a, b, c]) == Next(Next(Next(s, bank, plan, a), bank, plan, b), bank, plan, c)
  {
    AfterOneMore(s, bank, plan, [], a);
    AfterOneMore(s, bank, plan, [a], b);
    AfterOneMore(s, bank, plan, [a, b], c);
    assert [] + [a] == [a] && [a] + [b] == [a, b] && [a, b] + [c] == [a, b, c];
    hide Next;
  }

  lemma OpenerIsTheOnlySession(s: Path, bank: Bank, p: Packet)
    requires Opens(s, bank, p) && s.sessions == map[]
    ensures Step(s, bank, p).sessions.Keys == {p.flow}
  {
    hide Bump, Ntohs, Since;
    var (found, key) := (FindSession(s, p).0, ServiceOf(p.flow));
    SelectKeeps(found, bank, key, bank.services[key], p.chPick);
    hide Select;
  }

  lemma CloserEndsItsSession(s: Path, bank: Bank, p: Packet, idx: nat, last: Time)
    requires SessionOn(s, bank, p.flow, idx, last) && Closing(p) && !PureSyn(p)
    requires last <= p.now <= last + TCP_STATE_TIMEOUT
    ensures Step(s, bank, p).sessions == s.sessions - {p.flow}
    ensures forall kind, x :: Lost(s, bank, p, kind, x) == 0
  {
    hide Select, ServiceOf, Bump;
  }

  /** So with traffic during the reset the sum over CPUs can go below zero. */
  lemma SumGoesNegative(s: State, bank: Bank, plan: Plan, cpus: nat, opener: Packet, closer: Packet, x: nat)
    requires Shaped(s.path, bank, cpus) && s.stage == Counters(x) && x < |plan.backends| <= |bank.backends|
    requires s.path.sessions == map[]
    requires Opens(s.path, bank, opener) && FindTcpBackend(s.path, bank, opener).1.idx == x
    requires closer.flow == opener.flow && Closing(closer) && !PureSyn(closer)
    requires opener.now <= closer.now <= opener.now + TCP_STATE_TIMEOUT && opener.cpu < cpus && closer.cpu < cpus
    requires Plausible(opener, bank, cpus) && Plausible(closer, bank, cpus)
    ensures SumOverCpus(After(s, bank, plan, StraddlingFlow(opener, closer)).path.backendConns, x) == -1
  {
    var mid := Next(s, bank, plan, Arrive(opener));
    ThreeEvents(s, bank, plan, Arrive(opener), ZeroRow, Arrive(closer));
    OpenedBeforeZeroing(s, bank, plan, cpus, opener, x);
    hide After, Step, Shaped, Counted, Opens, SumOverCpus, Surplus;
    CloserUncounts(Next(mid, bank, plan, ZeroRow), bank, plan, cpus, closer, x, opener.now);
  }

  lemma OpenedBeforeZeroing(s: State, bank: Bank, plan: Plan, cpus: nat, opener: Packet, x: nat)
    requires Shaped(s.path, bank, cpus) && s.stage == Counters(x) && x < |plan.backends| <= |bank.backends|
    requires s.path.sessions == map[] && Plausible(opener, bank, cpus)
    requires Opens(s.path, bank, opener) && FindTcpBackend(s.path, bank, opener).1.idx == x
    ensures var t := Next(Next(s, bank, plan, Arrive(opener)), bank, plan, ZeroRow).path;
      && Shaped(t, bank, cpus) && Counted(t, ByBackend, cpus, x) && Surplus(t, ByBackend, x) == -1
      && SessionOn(t, bank, opener.flow, x, opener.now) && t.sessions.Keys == {opener.flow}
  {
    var mid := Next(s, bank, plan, Arrive(opener));
    OpeningStartsSession(s.path, bank, opener);
    OpenerIsTheOnlySession(s.path, bank, opener);
    EventAddsItsLoss(s, bank, plan, cpus, Arrive(opener), ByBackend, x);
    EventAddsItsLoss(mid, bank, plan, cpus, ZeroRow, ByBackend, x);
    SoleSession(mid.path.sessions, opener.flow, x);
    hide FindTcpBackend, Opens, Plausible, LiveKeys, SumOverCpus, ZeroAt;
  }

  lemma SoleSession(sessions: map<SessionKey, Session>, flow: SessionKey, x: nat)
    requires sessions.Keys == {flow} && sessions[flow].backendIdx == x
    ensures LiveKeys(sessions, ByBackend, x) == {flow}
  {
  }

  lemma CloserUncounts(s: State, bank: Bank, plan: Plan, cpus: nat, p: Packet, x: nat, last: Time)
    requires Shaped(s.path, bank, cpus) && Counted(s.path, ByBackend, cpus, x) && Plausible(p, bank, cpus)
    requires SessionOn(s.path, bank, p.flow, x, last) && Closing(p) && !PureSyn(p)
    requires last <= p.now <= last + TCP_STATE_TIMEOUT && s.path.sessions.Keys == {p.flow}
    ensures SumOverCpus(Next(s, bank, plan, Arrive(p)).path.backendConns, x) == Surplus(s.path, ByBackend, x)
  {
    EventAddsItsLoss(s, bank, plan, cpus, Arrive(p), ByBackend, x);
    CloserEndsItsSession(s.path, bank, p, x, last);
    assert LiveKeys(Step(s.path, bank, p).sessions, ByBackend, x) == {};
    hide Step, SumOverCpus, Shaped, Counted;
  }

  lemma StepKeepsOtherSessions(s: Path, bank: Bank, p: Packet, flow: SessionKey)
    requires flow in Step(s, bank, p).sessions
    ensures flow in s.sessions || p.flow == flow
  {
    hide Step;
    if p.flow != flow {
      OtherFlowsDoNotInterfere(s, bank, p, flow);
    }
  }

  lemma OnlyItsPacketOpens(s: State, bank: Bank, plan: Plan, e: Event, flow: SessionKey)
    requires flow in Next(s, bank, plan, e).path.sessions
    ensures flow in s.path.sessions || (e.Arrive? && e.p.flow == flow)
  {
    if e.Arrive? {
      StepKeepsOtherSessions(s.path, bank, e.p, flow);
    } else if e.ArriveUdp? {
      Traffic.UdpLeavesConnections(s.path, bank, e.key);
    }
    hide Step, FindUdpBackend, ZeroAt, RowAt;
  }

  predicate ArrivesIn(es: seq<Event>, flow: SessionKey) {
    exists i :: 0 <= i < |es| && es[i].Arrive? && es[i].p.flow == flow
  }

  /** What is live when a row is zeroed are flows with a packet since the sessions were found cleared. */
  lemma {:induction false} LiveSinceCleared(s: State, bank: Bank, plan: Plan, es: seq<Event>, flow: SessionKey)
    requires s.path.sessions == map[] && flow in After(s, bank, plan, es).path.sessions
    ensures ArrivesIn(es, flow)
  {
    if es != [] {
      var front, last := es[..|es| - 1], es[|es| - 1];
      OnlyItsPacketOpens(After(s, bank, plan, front), bank, plan, last, flow);
      hide Next, After;
      if flow in After(s, bank, plan, front).path.sessions {
        LiveSinceCleared(s, bank, plan, front, flow);
        var i :| 0 <= i < |front| && front[i].Arrive? && front[i].p.flow == flow;
        assert es[i] == front[i];
      }
    }
  }

  // ---- When the cursors do not fit ----

  /** The next service has no cursor and there is no room for one. */
  predicate Stuck(s: State, plan: Plan) {
    && s.stage.Cursors? && s.stage.done < |plan.keys|
    && plan.keys[s.stage.done] !in s.path.rrIndex && |s.path.rrIndex| >= MAX_CURSORS
  }

  lemma StepKeepsCursorKeys(s: Path, bank: Bank, p: Packet)
    ensures Step(s, bank, p).rrIndex.Keys == s.rrIndex.Keys
  {
    var found, key := FindSession(s, p).0, ServiceOf(p.flow);
    Fairness.FindSessionKeepsCursors(s, p);
    assert key in bank.services ==>
      Select(found, bank, key, bank.services[key], p.chPick).0.rrIndex.Keys == s.rrIndex.Keys by {
      hide FindSession, ServiceOf, RrSearch, WrrSearch;
    }
    hide FindSession, Select, ServiceOf, Bump;
  }

  /** Then the resets go no further whatever arrives, and no service gains a cursor. */
  lemma {:induction false} StuckForGood(s: State, bank: Bank, plan: Plan, es: seq<Event>)
    requires Stuck(s, plan)
    ensures var t := After(s, bank, plan, es);
      Stuck(t, plan) && t.stage == s.stage && t.path.rrIndex.Keys == s.path.rrIndex.Keys
  {
    if es != [] {
      var front, last := es[..|es| - 1], es[|es| - 1];
      StuckForGood(s, bank, plan, front);
      var before := After(s, bank, plan, front);
      if last.Arrive? {
        StepKeepsCursorKeys(before.path, bank, last.p);
        SameSize(Step(before.path, bank, last.p).rrIndex, before.path.rrIndex);
      } else if last.ArriveUdp? {
        Traffic.UdpKeepsCursorKeys(before.path, bank, last.key);
        SameSize(FindUdpBackend(before.path, bank, last.key).0.rrIndex, before.path.rrIndex);
      }
      hide FindUdpBackend;
      hide Step, After;
    }
  }

  lemma SameSize(a: map<ServiceKey, nat>, b: map<ServiceKey, nat>)
    requires a.Keys == b.Keys
    ensures |a| == |b|
  {
    assert |a| == |a.Keys| && |b| == |b.Keys|;
  }

  lemma {:induction false} RunKeepsCursorKeys(s: Path, bank: Bank, ps: seq<Packet>)
    ensures Run(s, bank, ps).rrIndex.Keys == s.rrIndex.Keys
  {
    if ps != [] {
      RunKeepsCursorKeys(s, bank, ps[..|ps| - 1]);
      StepKeepsCursorKeys(Run(s, bank, ps[..|ps| - 1]), bank, ps[|ps| - 1]);
      hide Step;
    }
  }

  /** A round-robin service without a cursor has no backend for any packet that no session serves. */
  lemma NobodyAnswersWithoutCursor(s: Path, bank: Bank, ps: seq<Packet>, p: Packet)
    requires var key := ServiceOf(p.flow);
      key !in s.rrIndex && key in bank.services && bank.services[key].algorithm == RoundRobin
    ensures var t := Run(s, bank, ps);
      FindTcpBackend(t, bank, p).1 == NoBackend <==> Fairness.Picks(t, bank, p, ServiceOf(p.flow))
  {
    var t := Run(s, bank, ps);
    RunKeepsCursorKeys(s, bank, ps);
    Fairness.FindSessionKeepsCursors(t, p);
    hide Run, FindSession, FindTcpBackend, ServiceOf, Fairness.Picks;
    if Fairness.Picks(t, bank, p, ServiceOf(p.flow)) {
      Fairness.PickIsOneSelection(t, bank, p, ServiceOf(p.flow));
    } else {
      Fairness.OrItsSessionServes(t, bank, p);
    }
  }

  // ---- Weighted states of the old configuration ----

  predicate Eligible(bs: seq<Backend>, idx: nat) {
    idx < |bs| && bs[idx].active && bs[idx].weight > 0
  }

  lemma WrrFirstStep(bs: seq<Backend>, info: ServiceInfo, st: WrrState)
    requires SliceFits(bs, info) && info.backendStart + st.index < U32
    ensures var idx, next := info.backendStart + st.index, WrrState((st.index + 1) % info.backendCount, 0);
      && next.index < info.backendCount
      && WrrSearch(bs, info, st, 0) ==
           if !Eligible(bs, idx) then WrrSearch(bs, info, next, 1)
           else (if st.counter + 1 < bs[idx].weight then st.(counter := st.counter + 1) else next, Some(idx))
  {
    NumberTheory.SmallMod(info.backendStart + st.index, U32);
  }

  /**
   A weighted state stored for another slice: the search it starts finds a backend of the present slice exactly when
   the index is below the present count, or the entry it points at cannot be picked.
   */
  lemma WrrStaysInSliceExactly(bs: seq<Backend>, info: ServiceInfo, st: WrrState)
    requires SliceFits(bs, info) && info.backendStart + st.index < U32
    ensures var found := WrrSearch(bs, info, st, 0).1;
      found.Some? ==>
        (InSlice(bs, info, found.value) <==>
           st.index < info.backendCount || !Eligible(bs, info.backendStart + st.index))
  {
    WrrFirstStep(bs, info, st);
    hide WrrSearch, SliceFits;
    if st.index < info.backendCount {
      WrrStaysInSlice(bs, info, st, 0);
    } else {
      WrrStaysInSlice(bs, info, WrrState((st.index + 1) % info.backendCount, 0), 1);
    }
  }

  /** The states after n more searches. */
  function Searched(bs: seq<Backend>, info: ServiceInfo, st: WrrState, n: nat): WrrState {
    if n == 0 then st else WrrSearch(bs, info, Searched(bs, info, st, n - 1), 0).0
  }

  lemma StrayStep(bs: seq<Backend>, info: ServiceInfo, st: WrrState)
    requires SliceFits(bs, info) && info.backendStart + st.index < U32
    ensures var after := WrrSearch(bs, info, st, 0).0;
      after.index < info.backendCount ||
        (after == st.(counter := st.counter + 1) && Eligible(bs, info.backendStart + st.index) &&
           after.counter < bs[info.backendStart + st.index].weight)
  {
    WrrFirstStep(bs, info, st);
    hide WrrSearch, SliceFits;
    if st.index < info.backendCount {
      WrrStaysInSlice(bs, info, st, 0);
    } else {
      WrrStaysInSlice(bs, info, WrrState((st.index + 1) % info.backendCount, 0), 1);
    }
  }

  /** n picks later it still points at the same entry outside, having used up n more of its turns. */
  predicate StillStray(bs: seq<Backend>, info: ServiceInfo, st: WrrState, n: nat, after: WrrState) {
    && after == st.(counter := st.counter + n) && Eligible(bs, info.backendStart + st.index)
    && after.counter < bs[info.backendStart + st.index].weight
  }

  /** It comes back to the slice after as many picks as the entry there has weight, at the latest. */
  lemma {:induction false} StrayPicksEnd(bs: seq<Backend>, info: ServiceInfo, st: WrrState, n: nat)
    requires SliceFits(bs, info) && info.backendStart + st.index < U32 && n > 0
    ensures var after := Searched(bs, info, st, n);
      after.index < info.backendCount || StillStray(bs, info, st, n, after)
  {
    var before := if n == 1 then st else Searched(bs, info, st, n - 1);
    assert Searched(bs, info, st, n) == WrrSearch(bs, info, before, 0).0;
    hide WrrSearch, SliceFits, Searched;
    if n > 1 {
      StrayPicksEnd(bs, info, st, n - 1);
    }
    if before.index < info.backendCount {
      WrrStaysInSlice(bs, info, before, 0);
    } else {
      StrayStep(bs, info, before);
    }
  }

  // ---- What holds once the resets are through ----

  /** The n-th service's cursor or weighted state has been reset. */
  predicate Due(stage: Stage, config: seq<Service>, n: nat)
    requires n < |config|
  {
    if config[n].algorithm == RoundRobin then stage.Cursors? ==> n < stage.done else !stage.Cursors?
  }

  ghost predicate CursorsDue(s: State, config: seq<Service>) {
    forall n: nat :: Served(config, n) && Due(s.stage, config, n) ==> CursorSettled(s.path, config, n)
  }

  ghost predicate Progress(s: State, bank: Bank, config: seq<Service>) {
    && CursorsDue(s, config) && (!s.stage.Cursors? ==> WrrIndexesOk(s.path, bank))
    && (s.stage.Counters? ==> SessionsInSlices(s.path, bank))
  }

  ghost predicate Loaded(bank: Bank, config: seq<Service>) {
    && Resolves(config, |config|) && DoubleBuffer.Holds(bank, PlanOf(config))
    && |bank.backends| == DoubleBuffer.MAX_BACKENDS
  }

  lemma {:induction false} RrCursorInRange(bs: seq<Backend>, info: ServiceInfo, cursor: nat, attempts: nat)
    requires info.backendCount > 0
    ensures RrSearch(bs, info, cursor, attempts).0 < info.backendCount
    decreases RR_ATTEMPTS + 1 - attempts
  {
    if attempts < RR_ATTEMPTS {
      RrCursorInRange(bs, info, RrNext(cursor, info.backendCount), attempts + 1);
    }
  }

  lemma {:induction false} WrrStateStaysOk(bs: seq<Backend>, info: ServiceInfo, st: WrrState, attempts: nat)
    requires SliceFits(bs, info) && WrrStateOk(Weights(bs, info), st)
    ensures WrrStateOk(Weights(bs, info), WrrSearch(bs, info, st, attempts).0)
    decreases WRR_ATTEMPTS - attempts
  {
    if attempts < WRR_ATTEMPTS && attempts < info.backendCount * 2 {
      WrrOneStep(bs, info, st, attempts);
      WrrStateStaysOk(bs, info, WrrState(Ahead(st.index, 1, info.backendCount), 0), attempts + 1);
    }
  }

  lemma SelectKeepsCursor(s: Path, bank: Bank, config: seq<Service>, n: nat, chPick: Option<(nat, Backend)>)
    requires Served(config, n) && Loaded(bank, config) && CursorSettled(s, config, n)
    ensures CursorSettled(Select(s, bank, KeyOf(config[n]), InfoOf(config, n), chPick).0, config, n)
  {
    var key, info := KeyOf(config[n]), InfoOf(config, n);
    ServedIsSliced(bank, config, n);
    hide DoubleBuffer.Holds, WrrSearch, RrSearch;
    if config[n].algorithm == RoundRobin {
      RrCursorInRange(bank.backends, info, s.rrIndex[key], 0);
    } else {
      assert Weights(bank.backends, info) == ConfiguredWeights(config[n]);
      WrrStateStaysOk(bank.backends, info, Fairness.WrrStateOf(s, key), 0);
    }
  }

  lemma PacketKeepsCursor(s: Path, bank: Bank, config: seq<Service>, n: nat, p: Packet)
    requires Served(config, n) && Loaded(bank, config) && CursorSettled(s, config, n)
    ensures CursorSettled(Step(s, bank, p), config, n)
  {
    var key := KeyOf(config[n]);
    ServedIsSliced(bank, config, n);
    hide DoubleBuffer.Holds, FindTcpBackend, FindSession, Fairness.Picks, InfoOf, Served, Sliced;
    if Fairness.Picks(s, bank, p, key) {
      var found := FindSession(s, p).0;
      Fairness.FindSessionKeepsCursors(s, p);
      Fairness.PickIsOneSelection(s, bank, p, key);
      assert CursorSettled(found, config, n);
      SelectKeepsCursor(found, bank, config, n, p.chPick);
      hide Select;
    } else {
      Fairness.OthersDoNotMoveCursors(s, bank, p, key);
    }
  }

  lemma PacketKeepsIndexes(s: Path, bank: Bank, p: Packet)
    requires WrrIndexesOk(s, bank)
    ensures WrrIndexesOk(Step(s, bank, p), bank)
  {
    var found := FindSession(s, p).0;
    Fairness.FindSessionKeepsCursors(s, p);
    var key := ServiceOf(p.flow);
    if key in bank.services {
      SelectStaysInSlice(found, bank, key, p.chPick);
    }
    hide FindSession, Select, Sliced, ServiceOf, Bump;
  }

  lemma ArrivalKeepsProgress(s: State, bank: Bank, config: seq<Service>, p: Packet)
    requires Loaded(bank, config) && Progress(s, bank, config)
    ensures Progress(s.(path := Step(s.path, bank, p)), bank, config)
  {
    var t := s.(path := Step(s.path, bank, p));
    forall n: nat | Served(config, n) && Due(t.stage, config, n) ensures CursorSettled(t.path, config, n) {
      assert CursorSettled(s.path, config, n);
      PacketKeepsCursor(s.path, bank, config, n, p);
    }
    if !s.stage.Cursors? {
      PacketKeepsIndexes(s.path, bank, p);
    }
    if s.stage.Counters? {
      StepStaysInSlices(s.path, bank, p);
    }
    hide Step, Loaded, WrrIndexesOk, SessionsInSlices, Served, Due, CursorSettled;
  }

  lemma UdpKeepsCursor(s: Path, bank: Bank, config: seq<Service>, n: nat, key: ServiceKey)
    requires Served(config, n) && Loaded(bank, config) && CursorSettled(s, config, n)
    ensures CursorSettled(FindUdpBackend(s, bank, key).0, config, n)
  {
    ServedIsSliced(bank, config, n);
    if key == KeyOf(config[n]) {
      SelectKeepsCursor(s, bank, config, n, None);
    } else {
      Traffic.UdpMovesItsServiceOnly(s, bank, key, KeyOf(config[n]));
      hide FindUdpBackend;
    }
    hide DoubleBuffer.Holds, Select, InfoOf, Sliced;
  }

  lemma UdpKeepsProgress(s: State, bank: Bank, config: seq<Service>, key: ServiceKey)
    requires Loaded(bank, config) && Progress(s, bank, config)
    ensures Progress(s.(path := FindUdpBackend(s.path, bank, key).0), bank, config)
  {
    var t := s.(path := FindUdpBackend(s.path, bank, key).0);
    forall n: nat | Served(config, n) && Due(t.stage, config, n) ensures CursorSettled(t.path, config, n) {
      assert CursorSettled(s.path, config, n);
      UdpKeepsCursor(s.path, bank, config, n, key);
    }
    Traffic.UdpLeavesConnections(s.path, bank, key);
    SameSessionsWhenUdp(s.path, bank, key);
    hide FindUdpBackend, Loaded, WrrIndexesOk, SessionsInSlices, Served, Due, CursorSettled;
  }

  lemma SameSessionsWhenUdp(s: Path, bank: Bank, key: ServiceKey)
    ensures var t := FindUdpBackend(s, bank, key).0;
      && (WrrIndexesOk(s, bank) ==> WrrIndexesOk(t, bank))
      && (SessionsInSlices(s, bank) ==> SessionsInSlices(t, bank))
  {
    Traffic.UdpLeavesConnections(s, bank, key);
    if key in bank.services && WrrIndexesOk(s, bank) {
      SelectStaysInSlice(s, bank, key, None);
    }
    hide Select, WrrIndexesOk, Sliced, InSlice, ServiceOf;
  }

  lemma ZeroCursorKeepsProgress(s: State, bank: Bank, config: seq<Service>)
    requires Loaded(bank, config) && Progress(s, bank, config) && Possible(s, PlanOf(config), ZeroCursor)
    ensures Progress(Next(s, bank, PlanOf(config), ZeroCursor), bank, config)
  {
    var t, d := Next(s, bank, PlanOf(config), ZeroCursor), s.stage.done;
    hide DoubleBuffer.Holds;
    forall n: nat | Served(config, n) && Due(t.stage, config, n) ensures CursorSettled(t.path, config, n) {
      if n < d {
        assert CursorSettled(s.path, config, n);
        assert PlanOf(config).keys[d] != PlanOf(config).keys[n];
      }
    }
  }

  lemma EventKeepsProgress(s: State, bank: Bank, config: seq<Service>, e: Event)
    requires Loaded(bank, config) && Progress(s, bank, config)
    ensures Progress(Next(s, bank, PlanOf(config), e), bank, config)
  {
    if Possible(s, PlanOf(config), e) {
      match e
      case Arrive(p) => ArrivalKeepsProgress(s, bank, config, p);
      case ArriveUdp(key) => UdpKeepsProgress(s, bank, config, key);
      case ZeroCursor => ZeroCursorKeepsProgress(s, bank, config);
      case WeightsGone => EmptyWeightsAreSettled(s, bank, config);
      case _ => OtherEventsKeepProgress(s, bank, config, e);
    }
  }

  lemma EmptyWeightsAreSettled(s: State, bank: Bank, config: seq<Service>)
    requires Loaded(bank, config) && Progress(s, bank, config) && Possible(s, PlanOf(config), WeightsGone)
    ensures Progress(s.(stage := Clearing), bank, config)
  {
    hide DoubleBuffer.Holds, Sliced;
    forall n: nat | Served(config, n) ensures CursorSettled(s.path, config, n) {
      if config[n].algorithm == RoundRobin {
        assert Due(s.stage, config, n);
      }
    }
  }

  lemma OtherEventsKeepProgress(s: State, bank: Bank, config: seq<Service>, e: Event)
    requires Loaded(bank, config) && Progress(s, bank, config) && Possible(s, PlanOf(config), e)
    requires e.ForgetWeights? || e.ForgetSession? || e.SessionsGone? || e.ZeroRow?
    ensures Progress(Next(s, bank, PlanOf(config), e), bank, config)
  {
    hide DoubleBuffer.Holds, Sliced, ZeroAt, RowAt, InSlice, ServiceOf;
    var t := Next(s, bank, PlanOf(config), e);
    forall n: nat | Served(config, n) && Due(t.stage, config, n) ensures CursorSettled(t.path, config, n) {
      assert Due(s.stage, config, n);
      assert CursorSettled(s.path, config, n);
    }
  }

  /**
   Whatever the packet path held at the flip and whatever arrives during the resets: once they reach the counters,
   cursors, weighted states and sessions all fit the new configuration, and so they do from then on.
   */
  lemma {:induction false} SettledDespiteTraffic(s: State, bank: Bank, config: seq<Service>, es: seq<Event>)
    requires Loaded(bank, config) && s.stage == Cursors(0)
    ensures var t := After(s, bank, PlanOf(config), es);
      Progress(t, bank, config) && (t.stage.Counters? ==> Settled(t.path, bank, config))
  {
    var plan := PlanOf(config);
    if es == [] {
      hide Served;
    } else {
      SettledDespiteTraffic(s, bank, config, es[..|es| - 1]);
      EventKeepsProgress(After(s, bank, plan, es[..|es| - 1]), bank, config, es[|es| - 1]);
      hide Next, Served, WrrIndexesOk, SessionsInSlices, CursorSettled, PlanOf, DoubleBuffer.Holds;
    }
  }
}
