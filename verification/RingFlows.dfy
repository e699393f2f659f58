/** The flows of a consistent-hash service: where their first packet goes, and where the later ones do. */
module RingFlows {
  import opened XdpTypes
  import opened Layout
  import opened DoubleBuffer
  import opened PacketPath
  import opened Sessions
  import CH = ConsistentHash
  import ChManager
  import Maglev
  import NumberTheory
  import opened PacketHash

  /** What the ring of these backends answers for a packet hash. */
  ghost function PickOf(list: seq<Backend>, h: CH.Hashes, keyHash: nat): (pick: (nat, Backend))
    requires list != []
    ensures pick.0 < |list| && pick.1 == list[pick.0]
  {
    NumberTheory.DefaultRingSizeIsPrime();
    CH.TableEntries(list, CH.DEFAULT_RING_SIZE, h);
    var b := CH.Table(list, CH.DEFAULT_RING_SIZE, h)[keyHash % 65537];
    (b, list[b])
  }

  /** A ring service whose key no later service takes over. */
  predicate RingService(config: seq<Service>, n: nat) {
    n < |config| && Resolves(config, |config|) && IsRing(config[n]) && LastOfItsKey(PlanOf(config), n, |config|)
  }

  lemma LoadedRing(bank: Bank, config: seq<Service>, n: nat)
    requires RingService(config, n) && Holds(bank, PlanOf(config))
    ensures KeyOf(config[n]) in bank.services && bank.services[KeyOf(config[n])] == InfoOf(config, n)
    ensures |PlanOf(config).backends| <= |bank.backends|
    ensures bank.backends[..|PlanOf(config).backends|] == PlanOf(config).backends
  {
    var plan := PlanOf(config);
    assert Shows(bank, plan, n);
    assert plan.backends[..|plan.backends|] == plan.backends;
  }

  lemma {:induction false} RingIsNoLonger(backends: seq<Backend>, s: Service, n: nat)
    requires n <= |s.reals| && RealsOk(s, n)
    ensures |RingBackends(backends, s, n)| <= n
  {
    if n > 0 {
      RingIsNoLonger(backends, s, n - 1);
    }
  }

  lemma RingIsShorterThanTheArray(config: seq<Service>, n: nat)
    requires n < |config| && Resolves(config, |config|)
    ensures |RingOf(config, n)| <= |PlanOf(config).backends|
  {
    RingIsNoLonger(PlanOf(config).backends, config[n], |config[n].reals|);
    SliceHoldsItsReals(config, |config|, n);
  }

  /** A packet of the ring service without a session goes where the ring answers. */
  lemma OpenerGoesToTheRingsPick(s: Path, bank: Bank, config: seq<Service>, n: nat, p: Packet)
    requires RingService(config, n) && Holds(bank, PlanOf(config)) && ServiceOf(p.flow) == KeyOf(config[n])
    requires FindSession(s, p).1 == None && p.chPick.Some?
    ensures FindTcpBackend(s, bank, p).1 == Forward(p.chPick.value.0, p.chPick.value.1)
  {
    LoadedRing(bank, config, n);
    hide FindSession, Holds, Bump, Ntohs;
  }

  /** Every backend of the ring is some hash's pick. */
  lemma EveryBackendIsPicked(list: seq<Backend>, h: CH.Hashes, b: nat) returns (keyHash: nat)
    requires b < |list| <= 257
    ensures keyHash < U32 && PickOf(list, h, keyHash).0 == b
  {
    var m := CH.DEFAULT_RING_SIZE;
    NumberTheory.DefaultRingSizeIsPrime();
    CH.EveryListIsComplete(list, m, h);
    var lists := CH.Lists(list, m, h);
    hide NumberTheory.Prime, Maglev.AllPreferences;
    Maglev.RingIsBalanced(lists, m, b);
    AtLeastOneSlot(m, |list|);
    var slots := Maglev.HeldBy(Maglev.Ring(lists, m), b);
    assert slots != {};
    keyHash :| keyHash in slots;
    NumberTheory.SmallMod(keyHash, m);
  }

  lemma AtLeastOneSlot(m: nat, n: nat)
    requires 0 < n <= m
    ensures m / n >= 1
  {
  }

  /** The service array has the picked record at the picked position. */
  predicate SameInBoth(bank: Bank, pick: (nat, Backend)) {
    pick.0 < |bank.backends| && bank.backends[pick.0] == pick.1
  }

  /**
   When ring flows stay: for every hash the flow's later packets find the record its opener was sent to, if and only
   if the ring's list is the head of the configuration's whole array.
   */
  lemma AllHashesStayExactly(bank: Bank, config: seq<Service>, n: nat, h: CH.Hashes)
    requires RingService(config, n) && Holds(bank, PlanOf(config))
    requires 0 < |RingOf(config, n)| <= 257
    ensures (forall keyHash: nat :: keyHash < U32 ==> SameInBoth(bank, PickOf(RingOf(config, n), h, keyHash)))
        <==> RingOf(config, n) <= PlanOf(config).backends
  {
    var list, flat := RingOf(config, n), PlanOf(config).backends;
    LoadedRing(bank, config, n);
    RingIsShorterThanTheArray(config, n);
    hide PickOf, Holds, RingOf, PlanOf, RingService;
    if list <= flat {
      forall keyHash: nat | keyHash < U32 ensures SameInBoth(bank, PickOf(list, h, keyHash)) {
        var b := PickOf(list, h, keyHash).0;
        assert list[b] == flat[b] == bank.backends[..|flat|][b];
      }
    }
    if forall keyHash: nat :: keyHash < U32 ==> SameInBoth(bank, PickOf(list, h, keyHash)) {
      forall b | 0 <= b < |list| ensures list[b] == flat[b] {
        var keyHash := EveryBackendIsPicked(list, h, b);
        assert SameInBoth(bank, PickOf(list, h, keyHash));
        assert flat[b] == bank.backends[..|flat|][b];
      }
    }
  }

  /** Some flow of the service has this hash. */
  lemma SomeFlowHas(key: ServiceKey, keyHash: nat) returns (flow: SessionKey)
    requires key.ipVersion == 4 && key.protocol == IPPROTO_TCP && key.vip < U32 && key.port < 0x1_0000
    requires keyHash < U32
    ensures InRange(flow) && ServiceOf(flow) == key && FlowHash(flow) == keyHash
  {
    var dport := Ntohs(key.port);
    assert dport < 0x1_0000 && Ntohs(dport) == key.port;
    hide Ntohs, FlowHash;
    var src := EveryHashIsSomeFlows(keyHash, key.vip, 0, dport);
    flow := SessionKey(src, key.vip, 0, dport);
  }

  /** So of the service's own flows, each hashed as the packet program does, all stay under the same condition. */
  lemma AllFlowsStayExactly(bank: Bank, config: seq<Service>, n: nat, h: CH.Hashes)
    requires RingService(config, n) && Holds(bank, PlanOf(config))
    requires 0 < |RingOf(config, n)| <= 257
    requires KeyOf(config[n]).ipVersion == 4 && KeyOf(config[n]).protocol == IPPROTO_TCP && KeyOf(config[n]).vip < U32
    ensures (forall flow :: InRange(flow) && ServiceOf(flow) == KeyOf(config[n]) ==>
               SameInBoth(bank, PickOf(RingOf(config, n), h, FlowHash(flow))))
        <==> RingOf(config, n) <= PlanOf(config).backends
  {
    var key, list := KeyOf(config[n]), RingOf(config, n);
    AllHashesStayExactly(bank, config, n, h);
    hide PickOf, Holds, RingOf, PlanOf, SameInBoth, FlowHash, ServiceOf, InRange;
    if forall flow :: InRange(flow) && ServiceOf(flow) == key ==> SameInBoth(bank, PickOf(list, h, FlowHash(flow))) {
      forall keyHash: nat | keyHash < U32 ensures SameInBoth(bank, PickOf(list, h, keyHash)) {
        var flow := SomeFlowHas(key, keyHash);
      }
    }
  }

  /**
   A ring flow, in the configuration's terms: the opener goes where the ring answers, every later packet to the
   entry of the configuration's whole array at that position, up to and including the first FIN or RST.
   */
  lemma RingFlowStaysExactly(s: Path, bank: Bank, config: seq<Service>, n: nat, h: CH.Hashes, keyHash: nat,
                             opener: Packet, ps: seq<Packet>, i: nat)
    requires RingService(config, n) && Holds(bank, PlanOf(config)) && RingOf(config, n) != []
    requires opener.chPick == Some(PickOf(RingOf(config, n), h, keyHash))
    requires ServiceOf(opener.flow) == KeyOf(config[n]) && OpensOnRing(s, bank, opener)
    requires i < |ps| && ps[i].flow == opener.flow
    requires forall j :: 0 <= j <= i ==> KeepsUp(ps, opener.flow, opener.now, j)
    requires forall j :: 0 <= j < i ==> !ClosesFlow(ps[j], opener.flow)
    ensures var b := PickOf(RingOf(config, n), h, keyHash).0;
      var first, later := FindTcpBackend(s, bank, opener).1,
        FindTcpBackend(Run(Step(s, bank, opener), bank, ps[..i]), bank, ps[i]).1;
      && b < |PlanOf(config).backends|
      && first == Forward(b, RingOf(config, n)[b]) && later == Forward(b, PlanOf(config).backends[b])
  {
    var b, flat := PickOf(RingOf(config, n), h, keyHash).0, PlanOf(config).backends;
    LoadedRing(bank, config, n);
    RingIsShorterThanTheArray(config, n);
    assert flat[b] == bank.backends[..|flat|][b];
    hide PickOf, Holds, RingOf, PlanOf, RingService, FindTcpBackend, OpensOnRing, KeepsUp, Run, Step;
    RingOpenerStartsSession(s, bank, opener);
    RingFlowFollowsTheOtherArray(s, bank, opener, ps, i);
  }

  // ---- A flow that moves ----

  const WEB := Service(Some(1), 4, 80, true, RoundRobin, [Real(Some(10), 4, 1, true, Some(0xA))])
  const RING := Service(Some(2), 4, 81, true, ConsistentHashing, [Real(Some(20), 4, 1, true, Some(0xB))])

  lemma WebAndRing()
    ensures RingService([WEB, RING], 1)
    ensures PlanOf([WEB, RING]).backends == [RecordOf(WEB, WEB.reals[0]), RecordOf(RING, RING.reals[0])]
    ensures RingOf([WEB, RING], 1) == [RecordOf(RING, RING.reals[0])]
  {
    var config := [WEB, RING];
    assert Records(WEB, 1) == [RecordOf(WEB, WEB.reals[0])] && Records(RING, 1) == [RecordOf(RING, RING.reals[0])];
    assert Flatten(config, 1) == Flatten(config, 0) + Records(WEB, 1);
    assert Flatten(config, 2) == Flatten(config, 1) + Records(RING, 1);
    var flat := PlanOf(config).backends;
    assert FirstWithAddress(flat, RecordOf(RING, RING.reals[0]), 1) == Some(flat[1]);
    assert RingBackends(flat, RING, 0) == [];
  }

  /**
   A configuration and a flow that moves: a web service in front of a ring service, one real each. The flow's first
   packet goes to the ring's real, the next one to the web service's.
   */
  lemma RingFlowMoves(s: Path, bank: Bank, h: CH.Hashes, keyHash: nat, cpu: nat, t: Time)
    requires Holds(bank, PlanOf([WEB, RING])) && s.sessions == map[] && t + 1 < U64
    ensures var flow := SessionKey(9, 2, 1000, 81 * 256);
      var opener := Packet(flow, true, false, false, false, cpu, t,
        Some(PickOf([RecordOf(RING, RING.reals[0])], h, keyHash)));
      var next := Packet(flow, false, true, false, false, cpu, t + 1, None);
      && FindTcpBackend(s, bank, opener).1 == Forward(0, RecordOf(RING, RING.reals[0]))
      && FindTcpBackend(Step(s, bank, opener), bank, next).1 == Forward(0, RecordOf(WEB, WEB.reals[0]))
  {
    WebAndRing();
    LoadedRing(bank, [WEB, RING], 1);
    var list := [RecordOf(RING, RING.reals[0])];
    var flow := SessionKey(9, 2, 1000, 81 * 256);
    var opener := Packet(flow, true, false, false, false, cpu, t, Some(PickOf(list, h, keyHash)));
    var next := Packet(flow, false, true, false, false, cpu, t + 1, None);
    assert ServiceOf(flow) == KeyOf(RING);
    assert OpensOnRing(s, bank, opener);
    assert LastSeen([next][..0], flow, t) == t;
    assert KeepsUp([next], flow, t, 0);
    hide PickOf, Holds, RingOf, PlanOf, RingService, FindTcpBackend, OpensOnRing, KeepsUp, ServiceOf;
    RingFlowStaysExactly(s, bank, [WEB, RING], 1, h, keyHash, opener, [next], 0);
    assert Run(Step(s, bank, opener), bank, [next][..0]) == Step(s, bank, opener);
  }
}
