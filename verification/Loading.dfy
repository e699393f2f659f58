/** One load of the inactive side as a run of the double-buffer protocol. */
module Loading {
  import opened XdpTypes
  import opened Layout
  import opened DoubleBuffer
  import NumberTheory

  // ---- The writer's script ----

  function Writes(n: nat): seq<Event> {
    if n == 0 then [] else Writes(n - 1) + [Write]
  }

  /** The events of one reload: n writes, then the flip or the failure. */
  function Script(plan: Plan, n: nat, last: Event): seq<Event> {
    [Begin(plan)] + Writes(n) + [last]
  }

  /** Where the first n writes of a load leave the maps. */
  function LoadingState(s: Shared, plan: Plan, n: nat): (t: Shared)
    requires TwoSides(s) && Paired(plan) && n <= LoadSize(plan)
    ensures TwoSides(t)
  {
    s.(banks := s.banks[1 - s.index := Written(s.banks[1 - s.index], plan, n)], writer := Loading(plan, n))
  }

  lemma LoadBegins(s: Shared, plan: Plan)
    requires TwoSides(s) && s.writer.Idle? && Paired(plan)
    ensures After(s, [Begin(plan)] + Writes(0)) == LoadingState(s, plan, 0)
  {
    AfterOneMore(s, [], Begin(plan));
    assert [] + [Begin(plan)] == [Begin(plan)] + Writes(0);
    assert After(s, []) == s;
    assert s.banks[1 - s.index := s.banks[1 - s.index]] == s.banks;
  }

  lemma LoadGoesOn(s: Shared, plan: Plan, n: nat)
    requires TwoSides(s) && Paired(plan) && n < LoadSize(plan) && AllAccepted(s.banks[1 - s.index], plan, n + 1)
    ensures Next(LoadingState(s, plan, n), Write) == LoadingState(s, plan, n + 1)
  {
    hide Put, Accepts;
  }

  lemma {:induction false} WritesLoadTheInactiveSide(s: Shared, plan: Plan, n: nat)
    requires TwoSides(s) && s.writer.Idle? && Paired(plan) && n <= LoadSize(plan)
    requires AllAccepted(s.banks[1 - s.index], plan, n)
    ensures After(s, [Begin(plan)] + Writes(n)) == LoadingState(s, plan, n)
  {
    if n == 0 {
      LoadBegins(s, plan);
    } else {
      assert [Begin(plan)] + Writes(n - 1) + [Write] == [Begin(plan)] + Writes(n);
      hide After, LoadingState, Writes, Next;
      AfterOneMore(s, [Begin(plan)] + Writes(n - 1), Write);
      LoadGoesOn(s, plan, n - 1);
      WritesLoadTheInactiveSide(s, plan, n - 1);
    }
  }

  lemma {:induction false} AcceptedSoFar(bank: Bank, plan: Plan, n: nat, m: nat)
    requires Paired(plan) && n <= m <= LoadSize(plan) && AllAccepted(bank, plan, m)
    ensures AllAccepted(bank, plan, n)
    decreases m - n
  {
    if n < m {
      AcceptedSoFar(bank, plan, n + 1, m);
    }
  }

  /** What stands after a load that stopped after n elements. */
  lemma LoadEnds(s: Shared, plan: Plan, n: nat, ok: bool)
    requires Consistent(s) && s.writer.Idle? && Paired(plan) && n <= LoadSize(plan)
    requires |s.banks[1 - s.index].services| <= MAX_SERVICES
    requires AllAccepted(s.banks[1 - s.index], plan, n) && (ok ==> n == LoadSize(plan))
    ensures var bank := Written(s.banks[1 - s.index], plan, n);
      var t := After(s, Script(plan, n, if ok then Flip else Fail));
      && Consistent(t)
      && t == s.(banks := s.banks[1 - s.index := bank], index := if ok then 1 - s.index else s.index,
                 committed := if ok then plan else s.committed)
      && |bank.services| <= MAX_SERVICES && |bank.backends| == |s.banks[1 - s.index].backends|
  {
    var last := if ok then Flip else Fail;
    WritesLoadTheInactiveSide(s, plan, n);
    AfterOneMore(s, [Begin(plan)] + Writes(n), last);
    RunsStayConsistent(s, Script(plan, n, last));
    AcceptedLoadsFit(s.banks[1 - s.index], plan, n);
    WrittenKeys(s.banks[1 - s.index], plan, n);
    hide After, Accepts, Put, Written, Consistent, Writes, AllAccepted;
  }

  lemma LoadSucceedsExactly(bank: Bank, plan: Plan, n: nat, refuse: Option<nat>)
    requires Paired(plan) && n <= LoadSize(plan) && |bank.services| <= MAX_SERVICES
    requires AllAccepted(bank, plan, n) && (refuse.Some? ==> n <= refuse.value)
    requires n < LoadSize(plan) ==> refuse == Some(n) || !Accepts(Written(bank, plan, n), plan, n)
    ensures n == LoadSize(plan) && refuse != Some(n)
        <==> FitsKernel(bank, plan) && (refuse.Some? ==> refuse.value > LoadSize(plan))
  {
    LoadFitsExactly(bank, plan);
    if n < LoadSize(plan) && AllAccepted(bank, plan, LoadSize(plan)) {
      AcceptedSoFar(bank, plan, n + 1, LoadSize(plan));
    }
    hide Accepts, Written, FitsKernel;
  }

  // ---- Loads add up ----

  lemma {:induction false} AfterBoth(s: Shared, es: seq<Event>, fs: seq<Event>)
    requires TwoSides(s)
    ensures After(s, es + fs) == After(After(s, es), fs)
  {
    hide Next;
    if fs == [] {
      assert es + fs == es;
    } else {
      var last := |fs| - 1;
      assert (es + fs)[..|es + fs| - 1] == es + fs[..last];
      AfterBoth(s, es, fs[..last]);
    }
  }

  /** A first plan loaded, and then an empty configuration. */
  function TwoLoads(p: Plan): seq<Event> {
    Script(p, LoadSize(p), Flip) + Script(NO_PLAN, 0, Flip)
  }

  /** Back on the side of the first plan: a further one must fit beside its keys, though nothing of it is configured. */
  lemma LoadsAddUp(first: Bank, second: Bank, p: Plan, q: Plan)
    requires Paired(p) && Paired(q) && FitsKernel(second, p) && second.services == map[]
    requires |q.backends| <= |second.backends|
    ensures var t := After(Shared([first, second], 0, Idle, NO_PLAN), TwoLoads(p));
      && t.index == 0 && t.committed == NO_PLAN
      && (FitsKernel(t.banks[1], q) <==>
            |NumberTheory.Elements(p.keys) + NumberTheory.Elements(q.keys)| <= MAX_SERVICES)
  {
    var s := Shared([first, second], 0, Idle, NO_PLAN);
    BlankMapsAreConsistent(first, second);
    LoadFitsExactly(second, p);
    LoadEnds(s, p, LoadSize(p), true);
    WrittenKeys(second, p, LoadSize(p));
    KeysAmongAreKeys(p, LoadSize(p));
    var mid := After(s, Script(p, LoadSize(p), Flip));
    EmptyLoad(mid);
    AfterBoth(s, Script(p, LoadSize(p), Flip), Script(NO_PLAN, 0, Flip));
    hide After, Written, AllAccepted, Consistent, Script, KeysAmong;
  }

  // ---- Back on a side with another plan ----

  /** One plan, and then another one twice: the second time on the side that had the first. */
  function ThreeLoads(a: Plan, b: Plan): seq<Event> {
    Script(a, LoadSize(a), Flip) + (Script(b, LoadSize(b), Flip) + Script(b, LoadSize(b), Flip))
  }

  lemma {:induction false} WritesAre(n: nat, i: nat)
    requires i < |Writes(n)|
    ensures Writes(n)[i] == Write
  {
    if n > 0 && i < |Writes(n - 1)| {
      WritesAre(n - 1, i);
    }
  }

  lemma ScriptMentions(p: Plan, n: nat, last: Event, key: ServiceKey, i: nat)
    requires key !in p.keys && !last.Begin? && i < |Script(p, n, last)|
    ensures !Mentions(Script(p, n, last)[i], key)
  {
    if 1 <= i < |Script(p, n, last)| - 1 {
      WritesAre(n, i - 1);
    }
  }

  /** A whole load from idle, the kernel taking everything. */
  lemma WholeLoad(s: Shared, p: Plan)
    requires Consistent(s) && s.writer.Idle? && Paired(p)
    requires |s.banks[1 - s.index].services| <= MAX_SERVICES && FitsKernel(s.banks[1 - s.index], p)
    ensures var t := After(s, Script(p, LoadSize(p), Flip));
      && Consistent(t) && t.writer.Idle? && t.index == 1 - s.index && t.committed == p
      && t.banks[s.index] == s.banks[s.index] && Holds(t.banks[t.index], p)
      && t.banks[t.index].services.Keys == s.banks[1 - s.index].services.Keys + NumberTheory.Elements(p.keys)
      && |t.banks[t.index].services| <= MAX_SERVICES
      && |t.banks[t.index].backends| == |s.banks[1 - s.index].backends|
  {
    var bank, n := s.banks[1 - s.index], LoadSize(p);
    LoadFitsExactly(bank, p);
    LoadEnds(s, p, n, true);
    WrittenKeys(bank, p, n);
    KeysAmongAreKeys(p, n);
    hide After, Written, AllAccepted, Script, KeysAmong, HoldsUpTo;
  }

  /** A load repeated, so that it reaches the side that is active now: services it does not name stay on it. */
  lemma LoadedTwice(s: Shared, b: Plan, key: ServiceKey)
    requires Consistent(s) && s.writer.Idle? && Paired(b) && key !in b.keys
    requires |s.banks[0].services| <= MAX_SERVICES && |s.banks[1].services| <= MAX_SERVICES
    requires FitsKernel(s.banks[0], b) && FitsKernel(s.banks[1], b)
    ensures var t := After(s, Script(b, LoadSize(b), Flip) + Script(b, LoadSize(b), Flip));
      && t.index == s.index && t.committed == b && Holds(t.banks[t.index], b)
      && |t.banks[t.index].backends| == |s.banks[s.index].backends|
      && SameEntry(t.banks[0], s.banks[0], key) && SameEntry(t.banks[1], s.banks[1], key)
  {
    var fs := Script(b, LoadSize(b), Flip);
    hide After, Script, Holds, HoldsUpTo, FitsKernel, SameEntry;
    WholeLoad(s, b);
    WholeLoad(After(s, fs), b);
    AfterBoth(s, fs, fs);
    forall j | 0 <= j < |fs + fs| ensures !Mentions((fs + fs)[j], key) {
      ScriptMentions(b, LoadSize(b), Flip, key, if j < |fs| then j else j - |fs|);
    }
    DroppedServicesLinger(s, fs + fs, key);
  }

  lemma FirstLoad(first: Bank, second: Bank, a: Plan, i: nat)
    requires Paired(a) && second.services == map[] && FitsKernel(second, a) && LastOfItsKey(a, i, |a.keys|)
    ensures var t := After(Shared([first, second], 0, Idle, NO_PLAN), Script(a, LoadSize(a), Flip));
      && Consistent(t) && t.writer.Idle? && t.index == 1 && t.banks[0] == first
      && t.banks[1].services.Keys == NumberTheory.Elements(a.keys) && |t.banks[1].services| <= MAX_SERVICES
      && |t.banks[1].backends| == |second.backends|
      && a.keys[i] in t.banks[1].services && t.banks[1].services[a.keys[i]] == a.infos[i]
  {
    var s := Shared([first, second], 0, Idle, NO_PLAN);
    BlankMapsAreConsistent(first, second);
    WholeLoad(s, a);
    assert Shows(After(s, Script(a, LoadSize(a), Flip)).banks[1], a, i);
    hide After, Script, Consistent, Holds, FitsKernel;
    assert second.services.Keys + NumberTheory.Elements(a.keys) == NumberTheory.Elements(a.keys);
  }

  /** Then the first plan's services stand over the second plan's backends. */
  lemma DroppedOverTheNewest(first: Bank, second: Bank, a: Plan, b: Plan, i: nat)
    requires Paired(a) && Paired(b) && first.services == second.services == map[]
    requires |a.backends| <= |second.backends| && |b.backends| <= |first.backends| == |second.backends|
    requires |NumberTheory.Elements(a.keys) + NumberTheory.Elements(b.keys)| <= MAX_SERVICES
    requires LastOfItsKey(a, i, |a.keys|) && a.keys[i] !in b.keys
    ensures var t := After(Shared([first, second], 0, Idle, NO_PLAN), ThreeLoads(a, b));
      && t.index == 1 && t.committed == b && Holds(t.banks[1], b)
      && |t.banks[1].backends| == |second.backends|
      && a.keys[i] in t.banks[1].services && t.banks[1].services[a.keys[i]] == a.infos[i]
  {
    FitsBeside(first, second, a, b);
    FirstLoad(first, second, a, i);
    var s := Shared([first, second], 0, Idle, NO_PLAN);
    var (es, fs) := (Script(a, LoadSize(a), Flip), Script(b, LoadSize(b), Flip));
    hide After, Script, Consistent, Holds;
    LoadedTwice(After(s, es), b, a.keys[i]);
    AfterBoth(s, es, fs + fs);
  }

  lemma FitsBeside(first: Bank, second: Bank, a: Plan, b: Plan)
    requires first.services == second.services == map[]
    requires |a.backends| <= |second.backends| && |b.backends| <= |first.backends|
    requires |NumberTheory.Elements(a.keys) + NumberTheory.Elements(b.keys)| <= MAX_SERVICES
    ensures FitsKernel(second, a) && FitsKernel(first, b)
  {
    var (x, y) := (NumberTheory.Elements(a.keys), NumberTheory.Elements(b.keys));
    NumberTheory.SubsetSize(x, x + y);
    NumberTheory.SubsetSize(y, x + y);
    assert second.services.Keys + x == x && first.services.Keys + y == y;
  }

  lemma EmptyLoad(s: Shared)
    requires TwoSides(s) && s.writer.Idle?
    ensures After(s, Script(NO_PLAN, 0, Flip)) == s.(index := 1 - s.index, committed := NO_PLAN)
  {
    LoadBegins(s, NO_PLAN);
    AfterOneMore(s, [Begin(NO_PLAN)] + Writes(0), Flip);
    assert s.banks[1 - s.index := s.banks[1 - s.index]] == s.banks;
    hide After;
  }

  /** n services without reals, on n addresses from here on. */
  function Many(from: nat, n: nat): (p: Plan)
    ensures Paired(p) && |p.keys| == n && p.backends == []
    ensures forall i :: 0 <= i < n ==> p.keys[i] == ServiceKey(from + i, 4, 80, IPPROTO_TCP)
  {
    Plan(seq(n, i requires 0 <= i < n => ServiceKey(from + i, 4, 80, IPPROTO_TCP)),
         seq(n, i requires 0 <= i < n => ServiceInfo(0, 0, RoundRobin, i)), [])
  }

  lemma ManyKeys(from: nat, n: nat)
    ensures |NumberTheory.Elements(Many(from, n).keys)| == n
  {
    NumberTheory.DistinctSize(Many(from, n).keys);
  }

  lemma OneFitsAlone(second: Bank)
    requires second.services == map[]
    ensures FitsKernel(second, Many(0, MAX_SERVICES)) && FitsKernel(second, Many(MAX_SERVICES, 1))
  {
    ManyKeys(0, MAX_SERVICES);
    ManyKeys(MAX_SERVICES, 1);
    assert second.services.Keys == {};
    hide Many;
  }

  lemma TogetherTooMany()
    ensures |NumberTheory.Elements(Many(0, MAX_SERVICES).keys) + NumberTheory.Elements(Many(MAX_SERVICES, 1).keys)|
            > MAX_SERVICES
  {
    var (p, q) := (Many(0, MAX_SERVICES), Many(MAX_SERVICES, 1));
    ManyKeys(0, MAX_SERVICES + 1);
    KeysOfBoth(p.keys, q.keys);
    assert Many(0, MAX_SERVICES + 1).keys == p.keys + q.keys;
    hide Many, NumberTheory.Elements;
  }

  /** So one service fits blank maps, and does not fit the ones that 256 others went through. */
  lemma FitsAloneButNotAfterOthers(first: Bank, second: Bank)
    requires second.services == map[]
    ensures var t := After(Shared([first, second], 0, Idle, NO_PLAN), TwoLoads(Many(0, MAX_SERVICES)));
      FitsKernel(second, Many(MAX_SERVICES, 1)) && t.committed == NO_PLAN &&
        !FitsKernel(t.banks[1], Many(MAX_SERVICES, 1))
  {
    OneFitsAlone(second);
    TogetherTooMany();
    hide After, TwoLoads, Many, FitsKernel;
    LoadsAddUp(first, second, Many(0, MAX_SERVICES), Many(MAX_SERVICES, 1));
  }

  lemma KeysOfBoth(a: seq<ServiceKey>, b: seq<ServiceKey>)
    ensures NumberTheory.Elements(a + b) == NumberTheory.Elements(a) + NumberTheory.Elements(b)
  {
  }
}
