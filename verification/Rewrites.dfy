/** Checksums of rewritten IPv6 segments, in terms of the configuration that chose the backend. */
module Rewrites {
  import opened XdpTypes
  import opened Checksum
  import opened Layout
  import DoubleBuffer
  import Loading
  import opened Schedule
  import opened PacketPath
  import opened Serving
  import opened Selection
  import NumberTheory
  import Sessions

  /** A port as it stands in the header, from the number it has in the configuration, and back. */
  function Raw(port: nat): Word {
    Ntohs(port)
  }

  lemma RawIsItsOwnInverse(dport: Word)
    ensures Raw(Ntohs(dport)) == dport
  {
    NumberTheory.DivModUnique(Ntohs(dport), 256, dport % 256, dport / 256);
    NumberTheory.SmallMod(dport / 256, 256);
  }

  /** An address as the rewrite loads it, four bytes at a time. */
  function Loads(ip: nat): Address {
    [ip % U32, ip / U32 % U32, ip / U64 % U32, ip / (U64 * U32) % U32]
  }

  /** The loads spell the address, lowest first. */
  lemma LoadsSpellTheAddress(ip: nat)
    requires ip < U64 * U64
    ensures var a := Loads(ip); ip == a[0] + a[1] * U32 + a[2] * U64 + a[3] * (U64 * U32)
  {
    var (p, q, r) := (ip / U32, ip / U64, ip / (U64 * U32));
    DividedTwice(ip, U32, U32);
    DividedTwice(ip, U64, U32);
    assert ip == p * U32 + ip % U32 && p == q * U32 + p % U32 && q == r * U32 + q % U32;
    assert r < U32;
  }

  lemma DividedTwice(x: nat, d: nat, e: nat)
    requires d > 0 && e > 0
    ensures x / (d * e) == x / d / e
  {
    var (y, z) := (x / d, x / d / e);
    assert x == (z * e + y % e) * d + x % d;
    assert (z * e + y % e) * d == z * (d * e) + y % e * d;
    assert 0 <= y % e * d + x % d < d * e by {
      NumberTheory.MulMonotone(y % e, e - 1, d);
    }
    NumberTheory.DivModUnique(x, d * e, z, y % e * d + x % d);
  }

  /** The TCP or UDP segment pointed at this backend. */
  predicate PointedAt(t: Segment, s: Segment, record: Backend) {
    t == Rewritten(s, Loads(record.ip), Raw(record.port)) || t == RewrittenUdp(s, Loads(record.ip), Raw(record.port))
  }

  /** The header's port does not change exactly when the record has the service's. */
  lemma PortKeptExactly(port: nat, keyPort: nat, dport: Word)
    requires port < 0x1_0000 && keyPort == Ntohs(dport)
    ensures Raw(port) == dport <==> port == keyPort
  {
    RawIsItsOwnInverse(dport);
    RawIsItsOwnInverse(port);
    hide Ntohs;
  }

  /**
   What round robin or weighted round robin selects for a service on the active side, configured or not, from any
   state: the record at its position, and an accepted segment stays accepted exactly if that record does not lose the
   carry, which it cannot while it has the service's port.
   */
  lemma SelectedRecordsVerdict(s: Path, bank: Bank, key: ServiceKey, chPick: Option<(nat, Backend)>, seg: Segment,
                               t: Segment)
    requires key in bank.services && bank.services[key].algorithm != ConsistentHashing
    requires key.port == Ntohs(seg.dport) && Sum(seg.rest) > 0
    requires var pick := Select(s, bank, key, bank.services[key], chPick).1;
      pick.Some? && pick.value.1.port < 0x1_0000 && PointedAt(t, seg, pick.value.1)
    ensures var (idx, record) := Select(s, bank, key, bank.services[key], chPick).1.value;
      && idx < |bank.backends| && record == bank.backends[idx]
      && (Raw(record.port) == seg.dport <==> record.port == key.port)
      && (record.port == key.port ==> (Accepts(Covered(t)) <==> Accepts(Covered(seg))))
      && (Accepts(Covered(seg)) ==>
            (Accepts(Covered(t)) <==> !CarryLost(seg, Loads(record.ip), Raw(record.port))))
  {
    var info := bank.services[key];
    Sessions.SelectKeeps(s, bank, key, info, chPick);
    var (idx, record) := Select(s, bank, key, info, chPick).1.value;
    PortKeptExactly(record.port, key.port, seg.dport);
    hide Select, Ntohs, Accepts, Covered, Loads, Sum, Rewritten, RewrittenUdp, CarryLost, Raw;
    RewriteVerdict(seg, Loads(record.ip), Raw(record.port), t);
    if record.port == key.port {
      SamePortKeepsVerdict(seg, Loads(record.ip), t);
    }
  }

  lemma {:induction false} PortsInTheArray(config: seq<Service>, n: nat, idx: nat)
    requires n <= |config| && Resolves(config, n) && idx < |Flatten(config, n)|
    ensures idx < Prefix(Counts(config), n)
    ensures Flatten(config, n)[idx].port == config[HolderBelow(Counts(config), n, idx)].port % 0x1_0000
  {
    FlattenLength(config, n);
    FlattenLength(config, n - 1);
    if idx < |Flatten(config, n - 1)| {
      PortsInTheArray(config, n - 1, idx);
    }
  }

  /**
   In terms of the configuration: the record at a position of its array keeps the port of a service exactly when the
   service that owns the position now has the same port. A configured service's own slice always does; a dropped one's
   old slice need not.
   */
  lemma ArrayKeepsThePortExactly(bank: Bank, config: seq<Service>, key: ServiceKey, idx: nat, dport: Word)
    requires Resolves(config, |config|) && DoubleBuffer.Holds(bank, PlanOf(config)) && key.port == Ntohs(dport)
    requires idx < |PlanOf(config).backends| <= |bank.backends|
    ensures idx < Total(Counts(config))
    ensures Raw(bank.backends[idx].port) == dport <==>
      config[Holder(Counts(config), idx)].port % 0x1_0000 == key.port
  {
    PortsInTheArray(config, |config|, idx);
    HeldRecords(bank, PlanOf(config));
    PortKeptExactly(bank.backends[idx].port, key.port, dport);
    hide Ntohs, Raw, DoubleBuffer.Holds, Flatten;
  }

  /** Every record of a service's own slice has the service's port, so the header's port does not change. */
  lemma OwnRealsKeepThePort(bank: Bank, config: seq<Service>, n: nat, idx: nat, dport: Word)
    requires Served(config, n) && DoubleBuffer.Holds(bank, PlanOf(config)) &&
      |bank.backends| == DoubleBuffer.MAX_BACKENDS
    requires Sessions.InSlice(bank.backends, InfoOf(config, n), idx) && KeyOf(config[n]).port == Ntohs(dport)
    ensures bank.backends[idx].port == KeyOf(config[n]).port && Raw(bank.backends[idx].port) == dport
  {
    InSliceIsOwnReal(bank, config, n, idx);
    RawIsItsOwnInverse(dport);
    hide Ntohs, DoubleBuffer.Holds;
  }

  /**
   So whatever round robin or weighted round robin selects for a configured service, of either address version, the
   rewrite keeps the checksum's verdict: the lost carry cannot happen.
   */
  lemma SelectedRealsKeepTheVerdict(s: Path, bank: Bank, config: seq<Service>, n: nat,
                                    chPick: Option<(nat, Backend)>, seg: Segment, t: Segment)
    requires Served(config, n) && DoubleBuffer.Holds(bank, PlanOf(config)) &&
      |bank.backends| == DoubleBuffer.MAX_BACKENDS
    requires Sessions.WrrIndexesOk(s, bank) && KeyOf(config[n]).port == Ntohs(seg.dport) && Sum(seg.rest) > 0
    requires var pick := Select(s, bank, KeyOf(config[n]), InfoOf(config, n), chPick).1;
      pick.Some? && PointedAt(t, seg, pick.value.1)
    ensures Accepts(Covered(t)) <==> Accepts(Covered(seg))
  {
    var key := KeyOf(config[n]);
    ServedIsSliced(bank, config, n);
    Sessions.SelectStaysInSlice(s, bank, key, chPick);
    Sessions.SelectKeeps(s, bank, key, InfoOf(config, n), chPick);
    var pick := Select(s, bank, key, InfoOf(config, n), chPick).1;
    OwnRealsKeepThePort(bank, config, n, pick.value.0, seg.dport);
    hide Select, DoubleBuffer.Holds, Ntohs, Accepts, Covered, Loads, Sum, Rewritten, RewrittenUdp, InfoOf, Served;
    SamePortKeepsVerdict(seg, Loads(pick.value.1.ip), t);
  }

  /** A configured UDP service with reals never loses the carry, whatever its algorithm: a ring selects nothing. */
  lemma UdpServicesKeepTheVerdict(s: Path, bank: Bank, config: seq<Service>, n: nat, seg: Segment, t: Segment)
    requires n < |config| && Resolves(config, |config|) && DoubleBuffer.Holds(bank, PlanOf(config))
    requires DoubleBuffer.LastOfItsKey(PlanOf(config), n, |config|) && config[n].reals != []
    requires |bank.backends| == DoubleBuffer.MAX_BACKENDS && Sessions.WrrIndexesOk(s, bank)
    requires KeyOf(config[n]).port == Ntohs(seg.dport) && Sum(seg.rest) > 0
    requires var outcome := FindUdpBackend(s, bank, KeyOf(config[n])).1;
      outcome.Forward? && PointedAt(t, seg, outcome.record)
    ensures Served(config, n) && (Accepts(Covered(t)) <==> Accepts(Covered(seg)))
  {
    assert DoubleBuffer.Shows(bank, PlanOf(config), n);
    hide RrSearch, WrrSearch, Accepts, Covered, Rewritten, RewrittenUdp, Loads, Sum, Ntohs, DoubleBuffer.Holds;
    assert Served(config, n);
    SelectedRealsKeepTheVerdict(s, bank, config, n, None, seg, t);
  }

  // ---- A ring can change the port ----

  const FRONT := Service(Some(7), 6, 22016, true, RoundRobin, [Real(Some(2), 6, 1, true, Some(0xA))])
  const SHARED := Service(Some(1), 6, 20480, true, ConsistentHashing, [Real(Some(2), 6, 1, true, Some(0xA))])

  /** The ring service's only real shares its address with an earlier service's, and gets that service's port. */
  lemma SharedAddressTakesThePort()
    ensures Resolves([FRONT, SHARED], 2)
    ensures RingOf([FRONT, SHARED], 1) == [RecordOf(FRONT, FRONT.reals[0])]
    ensures RecordOf(FRONT, FRONT.reals[0]).active && RecordOf(FRONT, FRONT.reals[0]).port == 22016
  {
    var config := [FRONT, SHARED];
    var flat := PlanOf(config).backends;
    assert Flatten(config, 1) == Flatten(config, 0) + Records(FRONT, 1);
    assert Flatten(config, 2) == Flatten(config, 1) + Records(SHARED, 1);
    assert flat[0] == RecordOf(FRONT, FRONT.reals[0]);
    assert RingBackends(flat, SHARED, 0) == [];
  }

  const ADDRESS_1: Address := [1, 0, 0, 0]
  const ADDRESS_2: Address := [2, 0, 0, 0]

  lemma SmallAddressWords(a: Address, x: Word)
    requires a == [x, 0, 0, 0]
    ensures Sum(Words(a)) == x
  {
    WordsNext(a, 0);
    WordsNext(a, 1);
    WordsNext(a, 2);
    WordsNext(a, 3);
    assert a[..4] == a && a[..0] == [];
  }

  /** The address step from 1 to 2 takes 1 off a checksum of 6. */
  lemma AddressStepGivesFive()
    ensures ReplaceAddress(6, ADDRESS_1, ADDRESS_2, 4) == 5
  {
    AddressKeepsSum(6, ADDRESS_1, ADDRESS_2);
    SmallAddressWords(ADDRESS_1, 1);
    SmallAddressWords(ADDRESS_2, 2);
    hide ReplaceAddress, Words, Sum, Congruent;
    OnlyFiveFits(ReplaceAddress(6, ADDRESS_1, ADDRESS_2, 4));
  }

  lemma OnlyFiveFits(x: Word)
    requires Congruent(x + 2, 6 + 1)
    ensures x == 5
  {
    if x < 5 {
      NumberTheory.DivModUnique(x - 5, 0xFFFF, -1, x - 5 + 0xFFFF);
    } else {
      NumberTheory.SmallMod(x - 5, 0xFFFF);
    }
  }

  lemma CarryIsLost(rest: seq<Word>)
    requires Sum(rest) > 0 && Accepts(Covered(Segment(6, ADDRESS_1, 80, rest)))
    ensures !Accepts(Covered(Rewritten(Segment(6, ADDRESS_1, 80, rest), ADDRESS_2, 86)))
  {
    var s := Segment(6, ADDRESS_1, 80, rest);
    AddressStepGivesFive();
    hide Accepts, Covered, Sum, Rewritten, ReplaceAddress;
    assert CarryLost(s, ADDRESS_2, 86);
    RewriteVerdict(s, ADDRESS_2, 86, Rewritten(s, ADDRESS_2, 86));
  }

  lemma FrontRecord()
    ensures var record := RecordOf(FRONT, FRONT.reals[0]);
      Loads(1) == ADDRESS_1 && Loads(record.ip) == ADDRESS_2 && Raw(record.port) == 86
  {
  }

  /**
   So an accepted segment to that ring service can leave the balancer refused: whatever else it carries, with
   checksum 6 its new port is one more than the checksum after the address step plus its old port.
   */
  lemma RingBreaksAChecksum(rest: seq<Word>)
    requires Sum(rest) > 0 && Accepts(Covered(Segment(6, Loads(1), 80, rest)))
    ensures KeyOf(SHARED).vip == 1 && KeyOf(SHARED).port == Ntohs(80)
    ensures var record := RecordOf(FRONT, FRONT.reals[0]);
      !Accepts(Covered(Rewritten(Segment(6, Loads(1), 80, rest), Loads(record.ip), Raw(record.port))))
  {
    FrontRecord();
    hide Accepts, Covered, Loads, Sum, Rewritten, Raw;
    CarryIsLost(rest);
  }

  // ---- So can a dropped service ----

  const GONE := Service(Some(1), 6, 20480, true, RoundRobin, [Real(Some(2), 6, 1, true, Some(0xA))])

  lemma PlansOfOne()
    ensures Resolves([GONE], 1) && PlanOf([GONE]) ==
      Plan([KeyOf(GONE)], [ServiceInfo(1, 0, RoundRobin, 0)], [RecordOf(GONE, GONE.reals[0])])
    ensures Resolves([FRONT], 1) && PlanOf([FRONT]) ==
      Plan([KeyOf(FRONT)], [ServiceInfo(1, 0, RoundRobin, 0)], [RecordOf(FRONT, FRONT.reals[0])])
    ensures KeyOf(GONE) != KeyOf(FRONT)
  {
    assert Flatten([GONE], 1) == Flatten([GONE], 0) + Records(GONE, 1);
    assert Flatten([FRONT], 1) == Flatten([FRONT], 0) + Records(FRONT, 1);
  }

  /** The maps after GONE is configured once and then FRONT instead, twice. */
  function GoneThenFront(first: Bank, second: Bank): DoubleBuffer.Shared {
    PlansOfOne();
    DoubleBuffer.After(DoubleBuffer.Shared([first, second], 0, DoubleBuffer.Idle, DoubleBuffer.NO_PLAN),
                       Loading.ThreeLoads(PlanOf([GONE]), PlanOf([FRONT])))
  }

  predicate GoneOverFront(bank: Bank) {
    && KeyOf(GONE) in bank.services && bank.services[KeyOf(GONE)] == ServiceInfo(1, 0, RoundRobin, 0)
    && |bank.backends| == DoubleBuffer.MAX_BACKENDS && bank.backends[0] == RecordOf(FRONT, FRONT.reals[0])
  }

  lemma GoneLingersOverFront(first: Bank, second: Bank)
    requires first.services == second.services == map[]
    requires |first.backends| == |second.backends| == DoubleBuffer.MAX_BACKENDS
    ensures var t := GoneThenFront(first, second);
      && |t.banks| == 2 && t.index == 1 && Resolves([FRONT], 1) && t.committed == PlanOf([FRONT])
      && GoneOverFront(t.banks[1])
  {
    PlansOfOne();
    var (a, b) := (PlanOf([GONE]), PlanOf([FRONT]));
    hide PlanOf, DoubleBuffer.After, Loading.ThreeLoads, DoubleBuffer.Holds;
    TwoKeysFit(a.keys, b.keys);
    Loading.DroppedOverTheNewest(first, second, a, b, 0);
    HeldRecords(GoneThenFront(first, second).banks[1], b);
  }

  lemma GonePicksFront(s: Path, bank: Bank)
    requires GoneOverFront(bank) && KeyOf(GONE) in s.rrIndex && s.rrIndex[KeyOf(GONE)] == 0
    ensures Select(s, bank, KeyOf(GONE), bank.services[KeyOf(GONE)], None).1 ==
      Some((0, RecordOf(FRONT, FRONT.reals[0])))
  {
  }

  lemma TwoKeysFit(a: seq<ServiceKey>, b: seq<ServiceKey>)
    requires |a| == |b| == 1
    ensures |NumberTheory.Elements(a) + NumberTheory.Elements(b)| <= 2
  {
    assert NumberTheory.Elements(a) + NumberTheory.Elements(b) == {a[0], b[0]};
  }

  /** Round robin then answers GONE's packets with FRONT's real. */
  lemma DroppedServiceGetsAnothersReal(first: Bank, second: Bank, s: Path)
    requires first.services == second.services == map[]
    requires |first.backends| == |second.backends| == DoubleBuffer.MAX_BACKENDS
    requires KeyOf(GONE) in s.rrIndex && s.rrIndex[KeyOf(GONE)] == 0
    ensures var (t, key) := (GoneThenFront(first, second), KeyOf(GONE));
      && |t.banks| == 2 && t.index == 1 && Resolves([FRONT], 1) && t.committed == PlanOf([FRONT])
      && key in t.banks[1].services
      && Select(s, t.banks[1], key, t.banks[1].services[key], None).1 == Some((0, RecordOf(FRONT, FRONT.reals[0])))
  {
    GoneLingersOverFront(first, second);
    hide GoneThenFront, Select, PlanOf;
    GonePicksFront(s, GoneThenFront(first, second).banks[1]);
  }

  /** And so accepted segments of the same shape as the ring's leave refused. */
  lemma DroppedServiceBreaksAChecksum(first: Bank, second: Bank, s: Path, rest: seq<Word>)
    requires first.services == second.services == map[]
    requires |first.backends| == |second.backends| == DoubleBuffer.MAX_BACKENDS
    requires KeyOf(GONE) in s.rrIndex && s.rrIndex[KeyOf(GONE)] == 0
    requires Sum(rest) > 0 && Accepts(Covered(Segment(6, Loads(1), 80, rest)))
    ensures KeyOf(GONE).vip == 1 && KeyOf(GONE).port == Ntohs(80)
    ensures var (t, key) := (GoneThenFront(first, second), KeyOf(GONE));
      && |t.banks| == 2 && key in t.banks[1].services
      && var pick := Select(s, t.banks[1], key, t.banks[1].services[key], None).1;
      && t.index == 1 && pick.Some? && pick.value.1.port < 0x1_0000
      && !Accepts(Covered(Rewritten(Segment(6, Loads(1), 80, rest), Loads(pick.value.1.ip), Raw(pick.value.1.port))))
  {
    DroppedServiceGetsAnothersReal(first, second, s);
    RingBreaksAChecksum(rest);
    hide GoneThenFront, Accepts, Covered, Loads, Sum, Rewritten, Raw, Select, PlanOf;
  }

  /** Such segments exist: for instance with these as the words besides checksum, address and port. */
  lemma SuchSegmentsAreAccepted()
    ensures Sum([6, 0xFFFF - 93]) > 0 && Accepts(Covered(Segment(6, Loads(1), 80, [6, 0xFFFF - 93])))
  {
    var rest: seq<Word> := [6, 0xFFFF - 93];
    var s := Segment(6, Loads(1), 80, rest);
    SumPair(6, 0xFFFF - 93);
    SumCovered(s);
    assert Loads(1) == ADDRESS_1;
    SmallAddressWords(ADDRESS_1, 1);
    AcceptsIffMultiple(Covered(s));
  }
}
