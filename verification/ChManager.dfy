/** The ring manager, the kernel maps it mirrors rings into, and the per-packet ring lookup that reads them. */
module ChManager {
  import opened XdpTypes
  import opened ConsistentHash
  import RingWrites

  const CH_RING_CAPACITY: nat := 65537
  const CH_BACKEND_CAPACITY: nat := 257

  function Min(a: nat, b: nat): nat { if a < b then a else b }

  class ChKernelMaps {
    /** ch_config[0] and ch_config[1]. */
    var ringSize: nat
    var backendCount: nat
    const currLookup: array<int>
    const prevLookup: array<int>
    const backends: array<Backend>

    ghost predicate Valid()
      reads this
    {
      && currLookup != prevLookup
      && currLookup.Length == prevLookup.Length == CH_RING_CAPACITY
      && backends.Length == CH_BACKEND_CAPACITY
    }

    /** Array maps start zeroed. */
    constructor (zero: Backend)
      ensures Valid() && ringSize == 0 && backendCount == 0
      ensures fresh(currLookup) && fresh(prevLookup) && fresh(backends)
    {
      ringSize, backendCount := 0, 0;
      currLookup := new int[CH_RING_CAPACITY](_ => 0);
      prevLookup := new int[CH_RING_CAPACITY](_ => 0);
      backends := new Backend[CH_BACKEND_CAPACITY](_ => zero);
    }

    /** The maps show exactly this ring. */
    ghost predicate Shows(bs: seq<Backend>, curr: seq<int>, prev: seq<int>, m: nat)
      reads this, currLookup, prevLookup, backends
    {
      && Valid()
      && ringSize == m && backendCount == |bs| <= CH_BACKEND_CAPACITY
      && m == |curr| == |prev| <= CH_RING_CAPACITY
      && currLookup[..m] == curr
      && prevLookup[..m] == prev
      && backends[..|bs|] == bs
    }

    /** What the ring lookup reads. */
    ghost function Now(): RingWrites.Maps
      reads this, currLookup, backends
    {
      RingWrites.Maps(ringSize, currLookup[..], backends[..])
    }

    /** Size, count and backends; each step is the next of the ring's single writes. */
    method WriteBackends(bs: seq<Backend>, m: nat, ghost r: RingWrites.Ring) returns (ok: bool)
      requires Valid() && r.backends == bs && r.size == m
      modifies this, backends
      ensures Valid() && ringSize == m && backendCount == |bs|
      ensures ok <==> |bs| <= CH_BACKEND_CAPACITY
      ensures ok ==> backends[..|bs|] == bs && Now() == RingWrites.Written(old(Now()), r, 2 + |bs|)
    {
      ghost var before := Now();
      ringSize := m;
      backendCount := |bs|;
      RingWrites.FirstTwoWrites(before, r);
      var i := 0;
      while i < |bs|
        invariant i <= |bs| && i <= backends.Length
        invariant backends[..i] == bs[..i] && ringSize == m && backendCount == |bs|
        invariant Now() == RingWrites.Written(before, r, 2 + i)
      {
        if i >= backends.Length {
          return false;
        }
        ghost var was := backends[..];
        backends[i] := bs[i];
        assert backends[..] == was[i := bs[i]];
        i := i + 1;
      }
      assert bs[..i] == bs;
      return true;
    }

    method UpdateChBpfMaps(bs: seq<Backend>, curr: seq<int>, prev: seq<int>, m: nat) returns (ok: bool)
      requires Valid()
      modifies this, currLookup, prevLookup, backends
      ensures Valid() && ringSize == m && backendCount == |bs|
      ensures ok <==>
        |bs| <= 257 && Min(m, |curr|) <= 65537 && Min(m, |prev|) <= 65537
      ensures ok && |curr| == |prev| == m ==> Shows(bs, curr, prev, m)
      ensures ok ==>
        Now() == RingWrites.Written(old(Now()), RingWrites.Ring(bs, curr, m), 2 + |bs| + Min(m, |curr|))
    {
      ghost var before, r := Now(), RingWrites.Ring(bs, curr, m);
      var written := WriteBackends(bs, m, r);
      if !written {
        return false;
      }
      ghost var mid := Now();
      written := MirrorTable(currLookup, curr, m);
      if !written {
        return false;
      }
      RingWrites.TableComesLast(before, r);
      assert Now() == mid.(table := curr[..Min(m, |curr|)] + mid.table[Min(m, |curr|)..]);
      hide RingWrites.Written;
      written := MirrorTable(prevLookup, prev, m);
      return written;
    }

    static method MirrorTable(table: array<int>, values: seq<int>, m: nat) returns (ok: bool)
      modifies table
      ensures ok <==> Min(m, |values|) <= table.Length
      ensures ok ==> table[..] == values[..Min(m, |values|)] + old(table[..])[Min(m, |values|)..]
    {
      var i := 0;
      while i < m && i < |values|
        invariant i <= Min(m, |values|) && i <= table.Length
        invariant table[..i] == values[..i] && table[i..] == old(table[..])[i..]
      {
        if i >= table.Length {
          return false;
        }
        table[i] := values[i];
        i := i + 1;
      }
      return true;
    }

    /** The packet path's slot lookup; -1 when the ring is unset, the slot is out of range or empty. */
    function ConsistentHashLookup(keyHash: nat, usePrev: bool): int
      reads this, currLookup, prevLookup
      requires Valid()
    {
      if ringSize == 0 || keyHash % ringSize >= CH_RING_CAPACITY then -1
      else
        var v := if usePrev then prevLookup[keyHash % ringSize] else currLookup[keyHash % ringSize];
        if v < 0 then -1 else v
    }

    function ChBalancerHandle(keyHash: nat): Option<(nat, Backend)>
      reads this, currLookup, prevLookup, backends
      requires Valid()
    {
      var v := ConsistentHashLookup(keyHash, false);
      if v < 0 || v >= CH_BACKEND_CAPACITY || !backends[v].active then None else Some((v, backends[v]))
    }

    predicate ConsistentHashIsStable(keyHash: nat)
      reads this, currLookup, prevLookup
      requires Valid()
    {
      ringSize == 0 || keyHash % ringSize >= CH_RING_CAPACITY ||
      currLookup[keyHash % ringSize] == prevLookup[keyHash % ringSize]
    }
  }

  ghost predicate Mirrors(kernel: ChKernelMaps, inst: ConsistentHashInstance)
    reads kernel, kernel.currLookup, kernel.prevLookup, kernel.backends, inst
  {
    kernel.Shows(inst.backends, inst.currLookup, inst.prevLookup, inst.config.ringSize)
  }

  predicate Fits(inst: ConsistentHashInstance)
    reads inst
  {
    |inst.backends| <= CH_BACKEND_CAPACITY && inst.config.ringSize <= CH_RING_CAPACITY
  }

  /** The lookup as the single-write model has it. */
  lemma PickIsTheLookup(kernel: ChKernelMaps, keyHash: nat)
    requires kernel.Valid()
    ensures kernel.ChBalancerHandle(keyHash) == RingWrites.Pick(kernel.Now(), keyHash)
  {
  }

  /** Maps that mirror a ring of enabled backends are what the next ring's writes start from. */
  lemma MirrorIsShown(kernel: ChKernelMaps, inst: ConsistentHashInstance)
    requires inst.Valid() && Mirrors(kernel, inst) && inst.backends != []
    requires forall b :: b in inst.backends ==> b.active
    ensures RingWrites.Shows(kernel.Now(),
                             RingWrites.Ring(inst.backends, inst.currLookup, inst.config.ringSize))
  {
    TableEntries(inst.backends, inst.config.ringSize, inst.hashes);
  }

  /** While the maps mirror a ring, the kernel picks for every hash what the control plane names, if it is enabled. */
  lemma KernelAgreesWithControlPlane(kernel: ChKernelMaps, inst: ConsistentHashInstance, keyHash: nat)
    requires inst.Valid() && Mirrors(kernel, inst)
    ensures kernel.ChBalancerHandle(keyHash) ==
      match inst.LookupCurr(keyHash)
      case None => None
      case Some(b) => if inst.backends[b].active then Some((b, inst.backends[b])) else None
  {
    TableEntries(inst.backends, inst.config.ringSize, inst.hashes);
    var slot, m := keyHash % inst.config.ringSize, inst.config.ringSize;
    assert kernel.currLookup[slot] == kernel.currLookup[..m][slot];
    if inst.backends != [] {
      var b := inst.currLookup[slot];
      assert kernel.backends[b] == kernel.backends[..|inst.backends|][b];
    }
  }

  /** The kernel's unused stability test disagrees exactly when nothing has settled yet. */
  lemma KernelStabilityTest(kernel: ChKernelMaps, inst: ConsistentHashInstance, keyHash: nat)
    requires inst.Valid() && Mirrors(kernel, inst)
    ensures kernel.ConsistentHashIsStable(keyHash) == inst.IsStable(keyHash)
        <==> inst.settled != [] || inst.backends == []
  {
    TableEntries(inst.backends, inst.config.ringSize, inst.hashes);
    TableEntries(inst.settled, inst.config.ringSize, inst.hashes);
    var slot, m := keyHash % inst.config.ringSize, inst.config.ringSize;
    assert kernel.currLookup[slot] == kernel.currLookup[..m][slot];
    assert kernel.prevLookup[slot] == kernel.prevLookup[..m][slot];
  }

  class ConsistentHashManager {
    var services: map<ServiceKey, ConsistentHashInstance>
    const kernel: ChKernelMaps
    const hashes: Hashes
    /** The ring last written to the kernel in full, if the maps still show it. */
    ghost var published: ConsistentHashInstance?

    ghost predicate Valid()
      reads this, kernel, kernel.currLookup, kernel.prevLookup, kernel.backends
      reads services.Values, published
    {
      && kernel.Valid()
      && (forall k :: k in services ==> services[k].Valid() && services[k].hashes == hashes)
      && (forall j, k :: j in services && k in services && j != k ==> services[j] != services[k])
      && (published != null ==> published.Valid() && Mirrors(kernel, published))
    }

    constructor (kernel: ChKernelMaps, hashes: Hashes)
      requires kernel.Valid()
      ensures Valid() && services == map[] && published == null
      ensures this.kernel == kernel && this.hashes == hashes
    {
      this.kernel, this.hashes := kernel, hashes;
      services := map[];
      published := null;
    }

    /** The callback: its success is not looked at, but only a full write leaves the maps mirroring the ring. */
    method Publish(inst: ConsistentHashInstance)
      requires kernel.Valid() && inst.Valid()
      modifies this`published, kernel, kernel.currLookup, kernel.prevLookup, kernel.backends
      ensures kernel.Valid()
      ensures published == if Fits(inst) then inst else null
      ensures published != null ==> Mirrors(kernel, published)
    {
      inst.TablesAreBlankOrFull();
      var ok := kernel.UpdateChBpfMaps(inst.backends, inst.currLookup, inst.prevLookup, inst.config.ringSize);
      published := if ok then inst else null;
    }

    method UpdateServiceBackends(key: ServiceKey, backends: seq<Backend>, config: InstanceConfig) returns (ok: bool)
      requires Valid() && ValidConfig(config)
      modifies this, services.Values, kernel, kernel.currLookup, kernel.prevLookup, kernel.backends
      ensures ok && Valid()
      ensures services.Keys == old(services.Keys) + {key}
      ensures forall k :: k in old(services) ==> services[k] == old(services[k])
      ensures key !in old(services) ==> fresh(services[key]) && services[key].config == config
      ensures forall k :: k in old(services) && k != key ==> services[k].Abs() == old(services[k].Abs())
      ensures services[key].Abs() ==
        Next(if key in old(services) then old(services[key].Abs()) else NO_RINGS,
             Update(backends), services[key].config.mergeTicks)
      ensures published == if Fits(services[key]) then services[key] else null
    {
      hide ConsistentHashInstance.Valid, ConsistentHashInstance.Abs, Mirrors, Next;
      if key in services {
        ok := services[key].UpdateBackends(backends);
      } else {
        var instance := new ConsistentHashInstance(config, hashes);
        ok := instance.UpdateBackends(backends);
        services := services[key := instance];
      }
      Publish(services[key]);
    }

    method RemoveService(key: ServiceKey) returns (removed: bool)
      requires Valid()
      modifies this
      ensures Valid() && removed == (key in old(services))
      ensures services == old(services) - {key} && published == old(published)
    {
      removed := key in services;
      services := services - {key};
    }

    method MaintainOne(inst: ConsistentHashInstance)
      requires kernel.Valid() && inst.Valid()
      requires published != null ==> published.Valid() && Mirrors(kernel, published)
      modifies this`published, inst, kernel, kernel.currLookup, kernel.prevLookup, kernel.backends
      ensures kernel.Valid() && inst.Valid()
      ensures inst.Abs() == Next(old(inst.Abs()), Tick, inst.config.mergeTicks)
      ensures published != null ==> published.Valid() && Mirrors(kernel, published)
      ensures published ==
        if old(inst.needsMerge) && !inst.needsMerge then (if Fits(inst) then inst else null) else old(published)
    {
      hide ConsistentHashInstance.Valid, Coherent, Table;
      if inst.needsMerge {
        var merged := inst.TickMergeTimer();
        if merged {
          Publish(inst);
        }
      }
    }

    /** Ticks each ring once, in order, and writes it whenever its merge completes. last is the last such ring. */
    method TickAll(entries: seq<ConsistentHashInstance>) returns (ghost last: Option<nat>)
      requires kernel.Valid() && forall j :: 0 <= j < |entries| ==> entries[j].Valid()
      requires forall i, j :: 0 <= i < j < |entries| ==> entries[i] != entries[j]
      requires published != null ==> published.Valid() && Mirrors(kernel, published)
      modifies this`published, entries, kernel, kernel.currLookup, kernel.prevLookup, kernel.backends
      ensures kernel.Valid() && forall j :: 0 <= j < |entries| ==> entries[j].Valid()
      ensures published != null ==> published.Valid() && Mirrors(kernel, published)
      ensures forall j :: 0 <= j < |entries| ==>
        entries[j].Abs() == Next(old(entries[j].Abs()), Tick, entries[j].config.mergeTicks)
      ensures last.Some? ==> last.value < |entries| && Completed(entries[last.value])
      ensures forall j :: (if last.Some? then last.value else -1) < j < |entries| ==> !Completed(entries[j])
      ensures published ==
        if last.None? then old(published) else if Fits(entries[last.value]) then entries[last.value] else null
    {
      hide ConsistentHashInstance.Valid, ConsistentHashInstance.Abs, Mirrors, Next, ChKernelMaps.Valid, Fits;
      last := None;
      for i := 0 to |entries|
        invariant kernel.Valid()
        invariant forall j :: 0 <= j < |entries| ==> entries[j].Valid()
        invariant published != null ==> published.Valid() && Mirrors(kernel, published)
        invariant forall j :: 0 <= j < i ==>
          entries[j].Abs() == Next(old(entries[j].Abs()), Tick, entries[j].config.mergeTicks)
        invariant forall j :: i <= j < |entries| ==> unchanged(entries[j])
        invariant last.Some? ==> last.value < i && Completed(entries[last.value])
        invariant forall j :: (if last.Some? then last.value else -1) < j < i ==> !Completed(entries[j])
        invariant last.None? ==> published == old(published)
        invariant last.Some? ==> published == if Fits(entries[last.value]) then entries[last.value] else null
      {
        MaintainOne(entries[i]);
        if old(entries[i].needsMerge) && !entries[i].needsMerge {
          last := Some(i);
        }
      }
    }

    /**
     One second of maintenance, visiting the services in the given order. last is the last service whose merge
     this second completed, if any: its ring is the one the maps show now.
     */
    method PeriodicMaintenance(order: seq<ServiceKey>) returns (ghost last: Option<nat>)
      requires Valid()
      requires forall k :: k in services <==> k in order
      requires forall i, j :: 0 <= i < j < |order| ==> order[i] != order[j]
      modifies this`published, services.Values, kernel, kernel.currLookup, kernel.prevLookup, kernel.backends
      ensures Valid() && services == old(services)
      ensures forall k :: k in services ==>
        services[k].Abs() == Next(old(services[k].Abs()), Tick, services[k].config.mergeTicks)
      ensures last.Some? ==> last.value < |order| && Completed(services[order[last.value]])
      ensures forall j :: (if last.Some? then last.value else -1) < j < |order| ==> !Completed(services[order[j]])
      ensures published ==
        if last.None? then old(published)
        else if Fits(services[order[last.value]]) then services[order[last.value]] else null
    {
      hide ConsistentHashInstance.Valid, ConsistentHashInstance.Abs, Mirrors, Next, ChKernelMaps.Valid, Fits;
      var map0 := services;
      var entries := seq(|order|, i requires 0 <= i < |order| => map0[order[i]]);
      last := TickAll(entries);
      forall k | k in services
        ensures services[k].Valid()
        ensures services[k].Abs() == Next(old(services[k].Abs()), Tick, services[k].config.mergeTicks)
      {
        var j :| 0 <= j < |order| && order[j] == k;
        assert entries[j] == services[k];
      }
      forall j | (if last.Some? then last.value else -1) < j < |order| ensures !Completed(services[order[j]]) {
        assert entries[j] == services[order[j]];
      }
    }

    /** A merge was pending and has completed. */
    twostate predicate Completed(inst: ConsistentHashInstance)
      reads inst
    {
      old(inst.needsMerge) && !inst.needsMerge
    }
  }
}
