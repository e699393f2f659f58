/** How a configuration is laid out for the kernel: one flat backend array and one slice of it per service. */
module Layout {
  import opened XdpTypes
  import opened Schedule

  /** A configured real server, with what parsing its address and asking for its MAC answer. */
  datatype Real = Real(addr: Option<nat>, ipVersion: nat, weight: nat, enabled: bool, mac: Option<nat>)

  datatype Service = Service(vip: Option<nat>, ipVersion: nat, port: nat, tcp: bool, algorithm: Algorithm,
                             reals: seq<Real>)

  /** Why a configuration is turned down, and where. */
  datatype Fault = BadVip(service: nat) | BadReal(service: nat, position: nat) | NoMac(service: nat, position: nat)

  datatype Plan = Plan(keys: seq<ServiceKey>, infos: seq<ServiceInfo>, backends: seq<Backend>)

  predicate RealOk(r: Real) { r.addr.Some? && r.mac.Some? }

  predicate RealsOk(s: Service, n: nat)
    requires n <= |s.reals|
  {
    forall j :: 0 <= j < n ==> RealOk(s.reals[j])
  }

  predicate ServiceOk(s: Service) { s.vip.Some? && RealsOk(s, |s.reals|) }

  /** The first n services are fit to be loaded. */
  predicate Resolves(config: seq<Service>, n: nat)
    requires n <= |config|
  {
    forall i :: 0 <= i < n ==> ServiceOk(config[i])
  }

  /** The fault is real, and nothing before it in the order of the configuration is at fault. */
  predicate FirstFault(config: seq<Service>, fault: Fault) {
    && fault.service < |config| && Resolves(config, fault.service)
    && var s := config[fault.service];
    match fault
    case BadVip(_) => s.vip.None?
    case BadReal(_, j) => s.vip.Some? && j < |s.reals| && RealsOk(s, j) && s.reals[j].addr.None?
    case NoMac(_, j) => s.vip.Some? && j < |s.reals| && RealsOk(s, j) && s.reals[j].addr.Some? && s.reals[j].mac.None?
  }

  function Version(v: nat): nat { if v == 4 then 4 else 6 }

  function KeyOf(s: Service): ServiceKey
    requires s.vip.Some?
  {
    ServiceKey(s.vip.value, Version(s.ipVersion), s.port % 0x1_0000, if s.tcp then IPPROTO_TCP else IPPROTO_UDP)
  }

  function RecordOf(s: Service, r: Real): Backend
    requires RealOk(r)
  {
    Backend(r.addr.value, Version(r.ipVersion), s.port % 0x1_0000, r.mac.value, r.enabled, r.weight)
  }

  /** Field by field: the record is this real's, as a backend of this service. */
  predicate IsRecordOf(b: Backend, s: Service, r: Real) {
    && r.addr == Some(b.ip) && b.ipVersion == (if r.ipVersion == 4 then 4 else 6)
    && r.mac == Some(b.mac) && b.port == s.port % 0x1_0000
    && b.active == r.enabled && b.weight == r.weight
  }

  /** The record is that of one of the service's enabled reals. */
  predicate IsEnabledReal(b: Backend, s: Service) {
    exists j :: 0 <= j < |s.reals| && s.reals[j].enabled && IsRecordOf(b, s, s.reals[j])
  }

  /** Field by field: the key is this service's. */
  predicate IsKeyOf(key: ServiceKey, s: Service) {
    && s.vip == Some(key.vip) && key.ipVersion == (if s.ipVersion == 4 then 4 else 6)
    && key.port == s.port % 0x1_0000 && key.protocol == (if s.tcp then 6 else 17)
  }

  lemma KeyIsExact(key: ServiceKey, s: Service)
    requires s.vip.Some?
    ensures IsKeyOf(key, s) <==> key == KeyOf(s)
  {
  }

  /** The records of the service's first n reals. */
  function Records(s: Service, n: nat): (bs: seq<Backend>)
    requires n <= |s.reals| && RealsOk(s, n)
    ensures |bs| == n && forall j :: 0 <= j < n ==> IsRecordOf(bs[j], s, s.reals[j])
  {
    seq(n, j requires 0 <= j < n => RecordOf(s, s.reals[j]))
  }

  /** From position start on stand the records of the service's first n reals, and nothing else. */
  predicate EndsWithReals(backends: seq<Backend>, start: nat, s: Service, n: nat)
    requires n <= |s.reals|
  {
    |backends| == start + n && forall j :: 0 <= j < n ==> IsRecordOf(backends[start + j], s, s.reals[j])
  }

  lemma RecordsAppended(before: seq<Backend>, s: Service, n: nat)
    requires n <= |s.reals| && RealsOk(s, n)
    ensures EndsWithReals(before + Records(s, n), |before|, s, n)
  {
  }

  function Flatten(config: seq<Service>, n: nat): seq<Backend>
    requires n <= |config| && Resolves(config, n)
  {
    if n == 0 then [] else Flatten(config, n - 1) + Records(config[n - 1], |config[n - 1].reals|)
  }

  function Counts(config: seq<Service>): (w: seq<nat>)
    ensures |w| == |config|
  {
    seq(|config|, i requires 0 <= i < |config| => |config[i].reals|)
  }

  /** The service's slice starts after the reals of all services before it. */
  function InfoOf(config: seq<Service>, i: nat): ServiceInfo
    requires i < |config|
  {
    ServiceInfo(Counts(config)[i], Prefix(Counts(config), i), config[i].algorithm, i)
  }

  function Keys(config: seq<Service>, n: nat): (ks: seq<ServiceKey>)
    requires n <= |config| && Resolves(config, n)
    ensures |ks| == n
  {
    seq(n, i requires 0 <= i < n => KeyOf(config[i]))
  }

  function Infos(config: seq<Service>, n: nat): (infos: seq<ServiceInfo>)
    requires n <= |config|
    ensures |infos| == n
  {
    seq(n, i requires 0 <= i < n => InfoOf(config, i))
  }

  function PlanOf(config: seq<Service>): Plan
    requires Resolves(config, |config|)
  {
    Plan(Keys(config, |config|), Infos(config, |config|), Flatten(config, |config|))
  }

  lemma {:induction false} FlattenLength(config: seq<Service>, n: nat)
    requires n <= |config| && Resolves(config, n)
    ensures |Flatten(config, n)| == Prefix(Counts(config), n)
  {
    if n > 0 {
      FlattenLength(config, n - 1);
    }
  }

  /** What lies in the array at a service's slice is that service's reals, in order. */
  lemma {:induction false} SliceHoldsItsReals(config: seq<Service>, n: nat, i: nat)
    requires i < n <= |config| && Resolves(config, n)
    ensures var (start, count) := (Prefix(Counts(config), i), |config[i].reals|);
      start + count <= |Flatten(config, n)| && Flatten(config, n)[start..start + count] == Records(config[i], count)
  {
    var (start, count) := (Prefix(Counts(config), i), |config[i].reals|);
    FlattenLength(config, n - 1);
    var front, last := Flatten(config, n - 1), Records(config[n - 1], |config[n - 1].reals|);
    if i < n - 1 {
      SliceHoldsItsReals(config, n - 1, i);
      assert (front + last)[start..start + count] == front[start..start + count];
    } else {
      assert (front + last)[start..start + count] == last;
    }
  }

  /**
   What the kernel is given for a configuration, field by field: a key and a slice for each service in order, and in the
   slice the records of its reals in order.
   */
  ghost predicate LaidOut(config: seq<Service>, plan: Plan) {
    && |plan.keys| == |plan.infos| == |config|
    && (forall i :: 0 <= i < |config| ==> IsKeyOf(plan.keys[i], config[i]) && Describes(plan, config[i], i))
    && forall i :: 0 <= i < |config| ==> HoldsReals(plan.backends, plan.infos[i].backendStart, config[i])
  }

  predicate Describes(plan: Plan, s: Service, i: nat)
    requires i < |plan.infos|
  {
    && plan.infos[i].algorithm == s.algorithm && plan.infos[i].serviceIdx == i
    && plan.infos[i].backendCount == |s.reals|
    && plan.infos[i].backendStart == if i == 0 then 0 else
        plan.infos[i - 1].backendStart + plan.infos[i - 1].backendCount
  }

  predicate HoldsReals(backends: seq<Backend>, start: nat, s: Service) {
    && start + |s.reals| <= |backends|
    && forall j :: 0 <= j < |s.reals| ==> IsRecordOf(backends[start + j], s, s.reals[j])
  }

  lemma PlanIsLaidOut(config: seq<Service>)
    requires Resolves(config, |config|)
    ensures LaidOut(config, PlanOf(config))
  {
    var plan := PlanOf(config);
    forall i | 0 <= i < |config| ensures HoldsReals(plan.backends, plan.infos[i].backendStart, config[i]) {
      SliceIsHeld(config, i);
    }
    hide HoldsReals, Flatten, Records, RecordOf;
  }

  lemma SliceIsHeld(config: seq<Service>, i: nat)
    requires Resolves(config, |config|) && i < |config|
    ensures HoldsReals(PlanOf(config).backends, Prefix(Counts(config), i), config[i])
  {
    var (flat, start, s) := (Flatten(config, |config|), Prefix(Counts(config), i), config[i]);
    SliceHoldsItsReals(config, |config|, i);
    assert ServiceOk(s);
    hide Flatten, Prefix, Counts, IsRecordOf, Resolves, RecordOf;
    SliceOfRecords(flat, start, s);
  }

  lemma SliceOfRecords(flat: seq<Backend>, start: nat, s: Service)
    requires RealsOk(s, |s.reals|) && start + |s.reals| <= |flat|
    requires flat[start..start + |s.reals|] == Records(s, |s.reals|)
    ensures HoldsReals(flat, start, s)
  {
    hide IsRecordOf, RecordOf;
    forall j | 0 <= j < |s.reals| ensures IsRecordOf(flat[start + j], s, s.reals[j]) {
      assert flat[start..start + |s.reals|][j] == Records(s, |s.reals|)[j];
    }
  }

  predicate Owns(info: ServiceInfo, p: nat) {
    info.backendStart <= p < info.backendStart + info.backendCount
  }

  /** Where the next slice starts, or the array ends. */
  function NextStart(plan: Plan, i: nat): nat {
    if i < |plan.infos| then plan.infos[i].backendStart else |plan.backends|
  }

  /** The slices partition the array: consecutive, from 0 on, and each position in exactly one of them. */
  lemma SlicesPartitionTheArray(config: seq<Service>)
    requires Resolves(config, |config|)
    ensures var plan := PlanOf(config);
      && NextStart(plan, 0) == 0 && |plan.backends| == Total(Counts(config))
      && (forall i :: 0 <= i < |config| ==> plan.infos[i].serviceIdx == i)
      && (forall i :: 0 <= i < |config| ==>
            plan.infos[i].backendStart + plan.infos[i].backendCount == NextStart(plan, i + 1))
    ensures var plan := PlanOf(config);
      && (forall p :: 0 <= p < |plan.backends| ==> Owns(plan.infos[Holder(Counts(config), p)], p))
      && (forall p, i :: 0 <= p < |plan.backends| && 0 <= i < |config| && Owns(plan.infos[i], p) ==>
        i == Holder(Counts(config), p))
  {
    var plan, w := PlanOf(config), Counts(config);
    FlattenLength(config, |config|);
    forall i | 0 <= i < |config|
      ensures plan.infos[i].backendStart + plan.infos[i].backendCount == NextStart(plan, i + 1)
    {
      assert Prefix(w, i + 1) == Prefix(w, i) + w[i];
    }
    forall p, i | 0 <= p < |plan.backends| && 0 <= i < |config| && Owns(plan.infos[i], p) ensures i == Holder(w, p) {
      assert Prefix(w, i + 1) == Prefix(w, i) + w[i];
      HolderIs(w, p, i);
    }
  }

  /** Every record of the array is, field by field, that of a real of the service that owns its position. */
  lemma EveryRecordIsAReals(config: seq<Service>, p: nat)
    requires Resolves(config, |config|) && p < |PlanOf(config).backends|
    ensures p < Total(Counts(config))
    ensures var h := Holder(Counts(config), p);
      var j := p - Prefix(Counts(config), h);
      j < |config[h].reals| && IsRecordOf(PlanOf(config).backends[p], config[h], config[h].reals[j])
  {
    FlattenLength(config, |config|);
    var h := Holder(Counts(config), p);
    SliceIsHeld(config, h);
    assert PlanOf(config).backends[Prefix(Counts(config), h) + (p - Prefix(Counts(config), h))] ==
      PlanOf(config).backends[p];
    hide Flatten, IsRecordOf;
  }

  // ---- The list of backends of a ring ----

  predicate SameAddress(a: Backend, b: Backend) {
    a.ip == b.ip && a.ipVersion == b.ipVersion
  }

  /** The first entry of the whole array with this entry's address: what a ring takes for a real. */
  function FirstWithAddress(backends: seq<Backend>, b: Backend, from: nat): (r: Option<Backend>)
    requires from <= |backends|
    decreases |backends| - from
  {
    if from == |backends| then None
    else if SameAddress(backends[from], b) then Some(backends[from])
    else FirstWithAddress(backends, b, from + 1)
  }

  lemma {:induction false} FirstWithAddressIs(backends: seq<Backend>, b: Backend, from: nat, p: nat)
    requires from <= p < |backends| && SameAddress(backends[p], b)
    requires forall q :: from <= q < p ==> !SameAddress(backends[q], b)
    ensures FirstWithAddress(backends, b, from) == Some(backends[p])
    decreases p - from
  {
    if from < p {
      FirstWithAddressIs(backends, b, from + 1, p);
    }
  }

  /** How many of the service's first n reals are enabled. */
  function EnabledCount(s: Service, n: nat): nat
    requires n <= |s.reals|
  {
    if n == 0 then 0 else EnabledCount(s, n - 1) + if s.reals[n - 1].enabled then 1 else 0
  }

  /** The records of the enabled ones among the service's first n reals. */
  function EnabledRecords(s: Service, n: nat): (bs: seq<Backend>)
    requires n <= |s.reals| && RealsOk(s, n)
    ensures |bs| == EnabledCount(s, n)
    ensures forall b :: b in bs ==> b.active
  {
    if n == 0 then []
    else EnabledRecords(s, n - 1) + if s.reals[n - 1].enabled then [RecordOf(s, s.reals[n - 1])] else []
  }

  /** They are the enabled reals' records and no others, in the order of the reals. */
  lemma {:induction false} EnabledRecordsInOrder(s: Service, n: nat, j: nat)
    requires j < n <= |s.reals| && RealsOk(s, n) && s.reals[j].enabled
    ensures EnabledCount(s, j) < |EnabledRecords(s, n)|
    ensures EnabledRecords(s, n)[EnabledCount(s, j)] == RecordOf(s, s.reals[j])
  {
    if j < n - 1 {
      EnabledRecordsInOrder(s, n - 1, j);
    }
  }

  /** What the ring is built from. */
  function RingBackends(backends: seq<Backend>, s: Service, n: nat): seq<Backend>
    requires n <= |s.reals| && RealsOk(s, n)
  {
    if n == 0 then []
    else
      var b := FirstWithAddress(backends, RecordOf(s, s.reals[n - 1]), 0);
      RingBackends(backends, s, n - 1) + if s.reals[n - 1].enabled && b.Some? then [b.value] else []
  }

  predicate IsRing(s: Service) { s.algorithm == ConsistentHashing }

  /** The manager's key carries the configured address version as it is. */
  function RingKeyOf(s: Service): ServiceKey
    requires s.vip.Some?
  {
    KeyOf(s).(ipVersion := s.ipVersion)
  }

  /** Field by field, with the address version not brought to 4 or 6. */
  lemma RingKeyIsExact(key: ServiceKey, s: Service)
    requires s.vip.Some?
    ensures key == RingKeyOf(s) <==>
      && s.vip == Some(key.vip) && key.ipVersion == s.ipVersion
      && key.port == s.port % 0x1_0000 && key.protocol == (if s.tcp then 6 else 17)
  {
  }

  /** What the i-th service's ring is built from. */
  function RingOf(config: seq<Service>, i: nat): seq<Backend>
    requires i < |config| && Resolves(config, |config|)
  {
    RingBackends(PlanOf(config).backends, config[i], |config[i].reals|)
  }

  /** The first entry with the real's address, if any, is the real's own record. */
  predicate FoundAsItself(backends: seq<Backend>, s: Service, j: nat)
    requires j < |s.reals| && RealOk(s.reals[j])
  {
    FirstWithAddress(backends, RecordOf(s, s.reals[j]), 0) == Some(RecordOf(s, s.reals[j]))
  }

  lemma {:induction false} SomeEntryFound(backends: seq<Backend>, b: Backend, from: nat, p: nat)
    requires from <= p < |backends| && SameAddress(backends[p], b)
    ensures FirstWithAddress(backends, b, from).Some?
    decreases p - from
  {
    if from < p && !SameAddress(backends[from], b) {
      SomeEntryFound(backends, b, from + 1, p);
    }
  }

  lemma EveryRealIsFound(config: seq<Service>, i: nat, j: nat)
    requires Resolves(config, |config|) && i < |config| && j < |config[i].reals|
    ensures FirstWithAddress(PlanOf(config).backends, RecordOf(config[i], config[i].reals[j]), 0).Some?
  {
    SliceHoldsItsReals(config, |config|, i);
    var (start, count, flat) := (Prefix(Counts(config), i), |config[i].reals|, Flatten(config, |config|));
    assert flat[start..start + count][j] == Records(config[i], count)[j];
    SomeEntryFound(flat, RecordOf(config[i], config[i].reals[j]), 0, start + j);
  }

  /** The ring is built from exactly the service's enabled reals if and only if each of them is found as itself. */
  lemma {:induction false} RingHasTheEnabledReals(config: seq<Service>, i: nat, n: nat)
    requires Resolves(config, |config|) && i < |config| && n <= |config[i].reals|
    ensures var (flat, s) := (PlanOf(config).backends, config[i]);
      && |RingBackends(flat, s, n)| == |EnabledRecords(s, n)|
      && (RingBackends(flat, s, n) == EnabledRecords(s, n) <==>
            forall j :: 0 <= j < n && s.reals[j].enabled ==> FoundAsItself(flat, s, j))
  {
    var (flat, s) := (PlanOf(config).backends, config[i]);
    hide FirstWithAddress, PlanOf;
    if n > 0 {
      RingHasTheEnabledReals(config, i, n - 1);
      EveryRealIsFound(config, i, n - 1);
      var ring, enabled := RingBackends(flat, s, n - 1), EnabledRecords(s, n - 1);
      if s.reals[n - 1].enabled {
        var found, own := FirstWithAddress(flat, RecordOf(s, s.reals[n - 1]), 0).value, RecordOf(s, s.reals[n - 1]);
        assert ring + [found] == enabled + [own] <==> ring == enabled && found == own by {
          assert (ring + [found])[..|ring|] == ring && (enabled + [own])[..|enabled|] == enabled;
          assert (ring + [found])[|ring|] == found && (enabled + [own])[|enabled|] == own;
        }
        assert FoundAsItself(flat, s, n - 1) <==> found == own;
      } else {
        assert ring + [] == ring && enabled + [] == enabled;
      }
    }
  }

  /**
   The ring's entry for an enabled real: the first record of the whole array with its address and address version,
   whoever's it is.
   */
  lemma {:induction false} RingEntryIsTheFirst(backends: seq<Backend>, s: Service, n: nat, j: nat, p: nat)
    requires n <= |s.reals| && RealsOk(s, n) && j < n && s.reals[j].enabled && p < |backends|
    requires forall k :: 0 <= k < n && s.reals[k].enabled ==>
      FirstWithAddress(backends, RecordOf(s, s.reals[k]), 0).Some?
    requires backends[p].ip == s.reals[j].addr.value &&
      backends[p].ipVersion == (if s.reals[j].ipVersion == 4 then 4 else 6)
    requires forall q :: 0 <= q < p && backends[q].ip == s.reals[j].addr.value ==>
      backends[q].ipVersion != (if s.reals[j].ipVersion == 4 then 4 else 6)
    ensures |RingBackends(backends, s, n)| == EnabledCount(s, n) > EnabledCount(s, j)
    ensures RingBackends(backends, s, n)[EnabledCount(s, j)] == backends[p]
  {
    RingCounts(backends, s, n - 1);
    if j < n - 1 {
      RingEntryIsTheFirst(backends, s, n - 1, j, p);
    } else {
      FirstWithAddressIs(backends, RecordOf(s, s.reals[j]), 0, p);
    }
  }

  lemma {:induction false} RingCounts(backends: seq<Backend>, s: Service, n: nat)
    requires n <= |s.reals| && RealsOk(s, n)
    requires forall k :: 0 <= k < n && s.reals[k].enabled ==>
      FirstWithAddress(backends, RecordOf(s, s.reals[k]), 0).Some?
    ensures |RingBackends(backends, s, n)| == EnabledCount(s, n)
  {
    if n > 0 {
      RingCounts(backends, s, n - 1);
    }
  }

  /** In a configuration's array every real is found, so this decides a ring's whole list. */
  lemma RingEntryInConfig(config: seq<Service>, i: nat, j: nat, p: nat)
    requires Resolves(config, |config|) && i < |config| && j < |config[i].reals| && config[i].reals[j].enabled
    requires var (flat, r) := (PlanOf(config).backends, config[i].reals[j]);
      && p < |flat| && flat[p].ip == r.addr.value && flat[p].ipVersion == (if r.ipVersion == 4 then 4 else 6)
      && forall q :: 0 <= q < p && flat[q].ip == r.addr.value ==>
        flat[q].ipVersion != (if r.ipVersion == 4 then 4 else 6)
    ensures |RingOf(config, i)| == EnabledCount(config[i], |config[i].reals|) > EnabledCount(config[i], j)
    ensures RingOf(config, i)[EnabledCount(config[i], j)] == PlanOf(config).backends[p]
  {
    var (flat, s) := (PlanOf(config).backends, config[i]);
    forall k | 0 <= k < |s.reals| && s.reals[k].enabled
      ensures FirstWithAddress(flat, RecordOf(s, s.reals[k]), 0).Some?
    {
      EveryRealIsFound(config, i, k);
    }
    hide FirstWithAddress, PlanOf, RingBackends;
    RingEntryIsTheFirst(flat, s, |s.reals|, j, p);
  }

  /** Each of the enabled records is an enabled real's. */
  lemma {:induction false} EnabledRecordsAreReals(s: Service, n: nat, b: nat)
    requires n <= |s.reals| && RealsOk(s, n) && b < |EnabledRecords(s, n)|
    ensures IsEnabledReal(EnabledRecords(s, n)[b], s)
  {
    if b < |EnabledRecords(s, n - 1)| {
      EnabledRecordsAreReals(s, n - 1, b);
    } else {
      assert IsRecordOf(EnabledRecords(s, n)[b], s, s.reals[n - 1]);
    }
  }

  predicate DistinctAddresses(backends: seq<Backend>) {
    forall p, q :: 0 <= p < q < |backends| ==> !SameAddress(backends[p], backends[q])
  }

  /** Distinct addresses over the whole configuration are enough. */
  lemma DistinctAddressesAreFound(config: seq<Service>, i: nat)
    requires Resolves(config, |config|) && i < |config| && DistinctAddresses(PlanOf(config).backends)
    ensures RingBackends(PlanOf(config).backends, config[i], |config[i].reals|) ==
      EnabledRecords(config[i], |config[i].reals|)
  {
    var (flat, s, count) := (Flatten(config, |config|), config[i], |config[i].reals|);
    forall j | 0 <= j < count ensures FoundAsItself(flat, s, j) {
      SliceHoldsItsReals(config, |config|, i);
      var start := Prefix(Counts(config), i);
      assert flat[start..start + count][j] == Records(s, count)[j];
      FirstWithAddressIs(flat, RecordOf(s, s.reals[j]), 0, start + j);
    }
    RingHasTheEnabledReals(config, i, count);
  }

  /** A real disabled in an earlier service takes the place of the same, enabled address in a later ring. */
  lemma SharedAddressGoesDark(front: Service, ring: Service, addr: nat, mac: nat)
    requires front.vip.Some? && ring.vip.Some?
    requires front.reals == [Real(Some(addr), 4, 1, false, Some(mac))] &&
      ring.reals == [Real(Some(addr), 4, 1, true, Some(mac))]
    ensures var backends := RingBackends(PlanOf([front, ring]).backends, ring, 1);
      |backends| == 1 && !backends[0].active
  {
    var config := [front, ring];
    assert Flatten(config, 1)[0] == RecordOf(front, front.reals[0]);
    assert Flatten(config, 2)[0] == Flatten(config, 1)[0];
    assert RingBackends(PlanOf(config).backends, ring, 0) == [];
  }
}
