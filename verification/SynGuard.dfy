/** The SYN-rate guard: fixed windows per source and overall, a blacklist, and a drop counter. */
module SynGuard {
  import NumberTheory
  import opened XdpTypes

  const WINDOW_NS: nat := 10_000_000_000
  const DEFAULT_BAN_NS: nat := 300_000_000_000
  const BLACKLIST_CAPACITY: nat := 16384

  datatype SynCounter = SynCounter(syn: nat, ack: nat, windowStart: Time, total: nat)
  datatype DdosConfig = DdosConfig(synThreshold: nat, synAckRatio: nat, globalThreshold: nat, banNs: nat)
  datatype GlobalSyn = GlobalSyn(syn: nat, windowStart: Time, dropped: nat)

  datatype Guard = Guard(cfg: Option<DdosConfig>, blacklist: map<nat, Time>,
                         tracker: map<nat, SynCounter>, global: GlobalSyn)

  datatype Call = Call(src: nat, syn: bool, ack: bool, now: Time)

  datatype Verdict = Pass | Drop

  predicate PureSyn(c: Call) { c.syn && !c.ack }

  function BanDuration(g: Guard): nat {
    match g.cfg case Some(cfg) => cfg.banNs case None => DEFAULT_BAN_NS
  }

  predicate Banned(g: Guard, src: nat, now: Time) {
    src in g.blacklist && Since(now, g.blacklist[src]) < BanDuration(g)
  }

  /** The source's counter after this call has been counted in the window it falls in. */
  function Counted(tracker: map<nat, SynCounter>, c: Call): SynCounter {
    var cnt := if c.src in tracker then tracker[c.src] else SynCounter(0, 0, c.now, 0);
    var cnt := if Since(c.now, cnt.windowStart) > WINDOW_NS then SynCounter(0, 0, c.now, 0) else cnt;
    SynCounter(cnt.syn + (if PureSyn(c) then 1 else 0), cnt.ack + (if c.ack && !c.syn then 1 else 0),
               cnt.windowStart, cnt.total + 1)
  }

  function CountedGlobally(global: GlobalSyn, c: Call): GlobalSyn {
    if !PureSyn(c) then global
    else if Since(c.now, global.windowStart) > WINDOW_NS then GlobalSyn(1, c.now, global.dropped)
    else global.(syn := global.syn + 1)
  }

  predicate FloodsGlobally(g: Guard, c: Call) {
    && PureSyn(c) && g.cfg.Some? && g.cfg.value.globalThreshold > 0
    && CountedGlobally(g.global, c).syn > g.cfg.value.globalThreshold
  }

  /** More than 10 SYNs, and more SYNs per hundred ACKs than allowed (no ACK counts as one). */
  predicate RatioExceeded(cfg: DdosConfig, cnt: SynCounter) {
    cfg.synAckRatio > 0 && cnt.syn > 10 && cnt.syn * 100 / (if cnt.ack > 0 then cnt.ack else 1) > cfg.synAckRatio
  }

  predicate Misbehaves(cfg: DdosConfig, cnt: SynCounter) {
    || (cfg.synThreshold > 0 && cnt.syn > cfg.synThreshold)
    || RatioExceeded(cfg, cnt)
  }

  /** Inserting into the full hash map fails silently. */
  function Blacklisted(blacklist: map<nat, Time>, src: nat, now: Time): map<nat, Time> {
    if src in blacklist || |blacklist| < BLACKLIST_CAPACITY then blacklist[src := now] else blacklist
  }

  function Step(g: Guard, c: Call): (Guard, Verdict) {
    if Banned(g, c.src, c.now) then (g, Drop)
    else
      var cnt, global, unbanned := Counted(g.tracker, c), CountedGlobally(g.global, c), g.blacklist - {c.src};
      var dropped := global.(dropped := global.dropped + 1);
      var tracker := g.tracker[c.src := cnt];
      if FloodsGlobally(g, c) then
        (Guard(g.cfg, unbanned, tracker, dropped), Drop)
      else if g.cfg.Some? && Misbehaves(g.cfg.value, cnt) then
        (Guard(g.cfg, Blacklisted(unbanned, c.src, c.now), tracker, dropped), Drop)
      else
        (Guard(g.cfg, unbanned, tracker, global), Pass)
  }

  /** The maps of the packet program, updated call by call. */
  class GuardMaps {
    const cfg: Option<DdosConfig>
    var blacklist: map<nat, Time>
    var synTracker: map<nat, SynCounter>
    var globalSyn: GlobalSyn

    function Abs(): Guard
      reads this
    {
      Guard(cfg, blacklist, synTracker, globalSyn)
    }

    constructor (cfg: Option<DdosConfig>)
      ensures Abs() == Guard(cfg, map[], map[], GlobalSyn(0, 0, 0))
    {
      this.cfg := cfg;
      blacklist, synTracker, globalSyn := map[], map[], GlobalSyn(0, 0, 0);
    }

    /** Counts the call per source and overall; flooded says that the overall limit is exceeded. */
    method CountCall(c: Call) returns (cnt: SynCounter, flooded: bool)
      modifies this`synTracker, this`globalSyn
      ensures cnt == Counted(old(synTracker), c) && synTracker == old(synTracker)[c.src := cnt]
      ensures flooded <==> FloodsGlobally(old(Abs()), c)
      ensures var counted := CountedGlobally(old(globalSyn), c);
        globalSyn == if flooded then counted.(dropped := counted.dropped + 1) else counted
    {
      // cnt stands for the map value, which is written back before returning.
      cnt := if c.src in synTracker then synTracker[c.src] else SynCounter(0, 0, c.now, 0);
      flooded := false;
      if Since(c.now, cnt.windowStart) > WINDOW_NS {
        cnt := SynCounter(0, 0, c.now, 0);
      }
      cnt := cnt.(total := cnt.total + 1);
      if c.syn && !c.ack {
        cnt := cnt.(syn := cnt.syn + 1);
        if Since(c.now, globalSyn.windowStart) > WINDOW_NS {
          globalSyn := globalSyn.(syn := 0, windowStart := c.now);
        }
        globalSyn := globalSyn.(syn := globalSyn.syn + 1);
        if cfg.Some? && cfg.value.globalThreshold > 0 && globalSyn.syn > cfg.value.globalThreshold {
          globalSyn := globalSyn.(dropped := globalSyn.dropped + 1);
          flooded := true;
        }
      }
      if !flooded && c.ack && !c.syn {
        cnt := cnt.(ack := cnt.ack + 1);
      }
      synTracker := synTracker[c.src := cnt];
    }

    method Ban(src: nat, now: Time)
      modifies this`blacklist, this`globalSyn
      ensures blacklist == Blacklisted(old(blacklist), src, now)
      ensures globalSyn == old(globalSyn).(dropped := old(globalSyn).dropped + 1)
    {
      blacklist := Blacklisted(blacklist, src, now);
      globalSyn := globalSyn.(dropped := globalSyn.dropped + 1);
    }

    method DdosCheckV4(c: Call) returns (verdict: Verdict)
      modifies this
      ensures (Abs(), verdict) == Step(old(Abs()), c)
    {
      hide Counted, CountedGlobally, FloodsGlobally, RatioExceeded, Blacklisted;
      if c.src in blacklist {
        var duration := if cfg.Some? then cfg.value.banNs else DEFAULT_BAN_NS;
        if Since(c.now, blacklist[c.src]) < duration {
          return Drop;
        }
      }
      FloodIgnoresBlacklist(Abs(), c);
      blacklist := blacklist - {c.src};
      var cnt, flooded := CountCall(c);
      if flooded {
        return Drop;
      }
      if cfg.None? {
        return Pass;
      }
      if cfg.value.synThreshold > 0 && cnt.syn > cfg.value.synThreshold {
        Ban(c.src, c.now);
        return Drop;
      }
      if RatioExceeded(cfg.value, cnt) {
        Ban(c.src, c.now);
        return Drop;
      }
      return Pass;
    }
  }

  lemma FloodIgnoresBlacklist(g: Guard, c: Call)
    ensures FloodsGlobally(g.(blacklist := g.blacklist - {c.src}), c) == FloodsGlobally(g, c)
  {
  }

  // ---- Runs ----

  /** A run mixes calls from any sources with evictions of least recently used counters. */
  datatype Event = Check(call: Call) | Evict(src: nat, now: Time)

  function At(e: Event): Time {
    match e case Check(c) => c.now case Evict(_, now) => now
  }

  function Apply(g: Guard, e: Event): Guard {
    match e
    case Check(c) => Step(g, c).0
    case Evict(src, _) => g.(tracker := g.tracker - {src})
  }

  function Run(g: Guard, es: seq<Event>): Guard {
    if es == [] then g else Apply(Run(g, es[..|es| - 1]), es[|es| - 1])
  }

  /** Times never go back. */
  ghost predicate Ordered(es: seq<Event>) {
    forall i, j :: 0 <= i < j < |es| ==> At(es[i]) <= At(es[j])
  }

  /** No window was opened and no ban set after time t. */
  ghost predicate WellTimed(g: Guard, t: Time) {
    && (forall src :: src in g.tracker ==> g.tracker[src].windowStart <= t)
    && AllBy(g.blacklist, t)
    && g.global.windowStart <= t
  }

  ghost predicate AllBy(m: map<nat, Time>, t: Time) {
    forall src :: src in m ==> m[src] <= t
  }

  lemma BlacklistStaysBy(m: map<nat, Time>, src: nat, t: Time, now: Time)
    requires AllBy(m, t) && t <= now
    ensures AllBy(m - {src}, now) && AllBy(Blacklisted(m - {src}, src, now), now)
  {
  }

  lemma StepKeepsTime(g: Guard, c: Call, t: Time)
    requires WellTimed(g, t) && t <= c.now
    ensures WellTimed(Step(g, c).0, c.now)
  {
    assert Counted(g.tracker, c).windowStart <= c.now && CountedGlobally(g.global, c).windowStart <= c.now;
    BlacklistStaysBy(g.blacklist, c.src, t, c.now);
    hide Counted, CountedGlobally, Misbehaves, FloodsGlobally, Banned, Blacklisted;
    assert AllBy(Step(g, c).0.blacklist, c.now);
  }

  lemma EventKeepsTime(g: Guard, e: Event, t: Time)
    requires WellTimed(g, t) && t <= At(e)
    ensures WellTimed(Apply(g, e), At(e)) && Apply(g, e).cfg == g.cfg
  {
    if e.Check? {
      StepKeepsTime(g, e.call, t);
    }
  }

  lemma {:induction false} StaysWellTimed(g: Guard, es: seq<Event>, t: Time)
    requires es != [] && Ordered(es) && t <= At(es[0]) && WellTimed(g, t)
    ensures WellTimed(Run(g, es), At(es[|es| - 1])) && Run(g, es).cfg == g.cfg
  {
    hide WellTimed, Apply;
    var front := es[..|es| - 1];
    if front != [] {
      StaysWellTimed(g, front, t);
      EventKeepsTime(Run(g, front), es[|es| - 1], At(front[|front| - 1]));
    } else {
      EventKeepsTime(g, es[0], t);
    }
  }

  // ---- Fixed windows bound every sliding interval ----

  /**
   The event is a pure SYN of the given source (of any when None) that passes within the ten seconds from then on.
   */
  predicate PassesNow(before: Guard, e: Event, src: Option<nat>, from: nat) {
    && e.Check? && PureSyn(e.call)
    && (src == None || src == Some(e.call.src))
    && from <= e.call.now <= from + 10_000_000_000
    && Step(before, e.call).1 == Pass
  }

  function Passes(g: Guard, es: seq<Event>, src: Option<nat>, from: nat): nat {
    if es == [] then 0
    else
      var front := es[..|es| - 1];
      Passes(g, front, src, from) + if PassesNow(Run(g, front), es[|es| - 1], src, from) then 1 else 0
  }

  /** How many passes the interval from `from` can have seen, given the open window's start and count. */
  function Budget(windowStart: nat, count: nat, limit: nat, from: nat): nat {
    var open := if count < limit then count else limit;
    if windowStart < from then open
    else if windowStart <= from + WINDOW_NS then limit + open
    else 2 * limit
  }

  /** One counted call: the window rolls over when it is too old, then the count goes up by k. */
  lemma BudgetCoversStep(start: nat, count: nat, start': nat, count': nat, k: nat, now: nat,
                         limit: nat, from: nat, passes: nat, passed: bool)
    requires start <= now && k <= 1
    requires if now - start > WINDOW_NS then start' == now && count' == k else start' == start && count' == count + k
    requires passes <= Budget(start, count, limit, from) && (now < from ==> passes == 0)
    requires passed ==> k == 1 && count' <= limit && from <= now <= from + WINDOW_NS
    ensures passes + (if passed then 1 else 0) <= Budget(start', count', limit, from)
  {
  }

  lemma {:induction false} NonePassedBefore(g: Guard, es: seq<Event>, src: Option<nat>, from: nat)
    requires Ordered(es) && (es != [] ==> At(es[|es| - 1]) < from)
    ensures Passes(g, es, src, from) == 0
  {
    if es != [] {
      NonePassedBefore(g, es[..|es| - 1], src, from);
    }
  }

  lemma ClockBefore(g: Guard, es: seq<Event>, t: Time)
    requires es != [] && Ordered(es) && t <= At(es[0]) && WellTimed(g, t)
    ensures WellTimed(Run(g, es[..|es| - 1]), At(es[|es| - 1])) && Run(g, es[..|es| - 1]).cfg == g.cfg
  {
    if |es| > 1 {
      StaysWellTimed(g, es[..|es| - 1], t);
    }
  }

  function SourceBudget(g: Guard, src: nat, limit: nat, from: nat): nat {
    if src in g.tracker then Budget(g.tracker[src].windowStart, g.tracker[src].syn, limit, from) else 0
  }

  lemma SourceStep(g: Guard, c: Call, src: nat, from: nat, passes: nat, passed: bool)
    requires g.cfg.Some? && g.cfg.value.synThreshold > 0 && WellTimed(g, c.now)
    requires passes <= SourceBudget(g, src, g.cfg.value.synThreshold, from) && (c.now < from ==> passes == 0)
    requires passed ==> c.src == src && PureSyn(c) && Step(g, c).1 == Pass && from <= c.now <= from + WINDOW_NS
    ensures passes + (if passed then 1 else 0) <= SourceBudget(Step(g, c).0, src, g.cfg.value.synThreshold, from)
  {
    if c.src == src && !Banned(g, src, c.now) {
      var cnt := if src in g.tracker then g.tracker[src] else SynCounter(0, 0, c.now, 0);
      var after := Counted(g.tracker, c);
      BudgetCoversStep(cnt.windowStart, cnt.syn, after.windowStart, after.syn, if PureSyn(c) then 1 else 0,
                       c.now, g.cfg.value.synThreshold, from, passes, passed);
    }
  }

  lemma {:induction false} SourceStaysInBudget(g: Guard, es: seq<Event>, src: nat, from: nat, t: Time)
    requires g.cfg.Some? && g.cfg.value.synThreshold > 0
    requires Ordered(es) && WellTimed(g, t) && (es != [] ==> t <= At(es[0]))
    requires forall i :: 0 <= i < |es| ==> !(es[i].Evict? && es[i].src == src)
    ensures Passes(g, es, Some(src), from) <= SourceBudget(Run(g, es), src, g.cfg.value.synThreshold, from)
  {
    if es != [] {
      var front, e := es[..|es| - 1], es[|es| - 1];
      SourceStaysInBudget(g, front, src, from, t);
      ClockBefore(g, es, t);
      if At(e) < from { NonePassedBefore(g, front, Some(src), from); }
      hide Step, WellTimed, Ordered;
      if e.Check? {
        SourceStep(Run(g, front), e.call, src, from, Passes(g, front, Some(src), from),
                   PassesNow(Run(g, front), e, Some(src), from));
      }
    }
  }

  /** At most 2 * threshold pure SYNs of one source pass in any interval of one window's length. */
  lemma SourceRateIsBounded(g: Guard, es: seq<Event>, src: nat, from: nat, t: Time)
    requires g.cfg.Some? && g.cfg.value.synThreshold > 0
    requires Ordered(es) && WellTimed(g, t) && (es != [] ==> t <= At(es[0]))
    requires forall i :: 0 <= i < |es| ==> !(es[i].Evict? && es[i].src == src)
    ensures Passes(g, es, Some(src), from) <= 2 * g.cfg.value.synThreshold
  {
    SourceStaysInBudget(g, es, src, from, t);
  }

  lemma GlobalStep(g: Guard, c: Call, from: nat, passes: nat, passed: bool)
    requires g.cfg.Some? && g.cfg.value.globalThreshold > 0 && WellTimed(g, c.now)
    requires passes <= Budget(g.global.windowStart, g.global.syn, g.cfg.value.globalThreshold, from)
    requires c.now < from ==> passes == 0
    requires passed ==> PureSyn(c) && Step(g, c).1 == Pass && from <= c.now <= from + WINDOW_NS
    ensures var after := Step(g, c).0.global;
      passes + (if passed then 1 else 0) <= Budget(after.windowStart, after.syn, g.cfg.value.globalThreshold, from)
  {
    if PureSyn(c) && !Banned(g, c.src, c.now) {
      var after := CountedGlobally(g.global, c);
      BudgetCoversStep(g.global.windowStart, g.global.syn, after.windowStart, after.syn, 1,
                       c.now, g.cfg.value.globalThreshold, from, passes, passed);
    }
  }

  lemma {:induction false} AllStayInBudget(g: Guard, es: seq<Event>, from: nat, t: Time)
    requires g.cfg.Some? && g.cfg.value.globalThreshold > 0
    requires Ordered(es) && WellTimed(g, t) && (es != [] ==> t <= At(es[0]))
    ensures var after := Run(g, es).global;
      Passes(g, es, None, from) <= Budget(after.windowStart, after.syn, g.cfg.value.globalThreshold, from)
  {
    if es != [] {
      var front, e := es[..|es| - 1], es[|es| - 1];
      AllStayInBudget(g, front, from, t);
      ClockBefore(g, es, t);
      if At(e) < from { NonePassedBefore(g, front, None, from); }
      hide Step, WellTimed, Ordered;
      if e.Check? {
        GlobalStep(Run(g, front), e.call, from, Passes(g, front, None, from), PassesNow(Run(g, front), e, None, from));
      }
    }
  }

  /** The same for all sources together, evictions or not. */
  lemma GlobalRateIsBounded(g: Guard, es: seq<Event>, from: nat, t: Time)
    requires g.cfg.Some? && g.cfg.value.globalThreshold > 0
    requires Ordered(es) && WellTimed(g, t) && (es != [] ==> t <= At(es[0]))
    ensures Passes(g, es, None, from) <= 2 * g.cfg.value.globalThreshold
  {
    AllStayInBudget(g, es, from, t);
  }

  // ---- The factor 2 is needed ----

  function Syns(src: nat, now: Time, k: nat): (es: seq<Event>)
    ensures |es| == k && forall i :: 0 <= i < k ==> es[i] == Check(Call(src, true, false, now))
  {
    if k == 0 then [] else Syns(src, now, k - 1) + [Check(Call(src, true, false, now))]
  }

  /** Only the per-source limit is on, src is not banned, and its window has this start and count. */
  ghost predicate OnlySourceLimit(g: Guard, src: nat, limit: nat, start: Time, count: nat) {
    && g.cfg.Some? && g.cfg.value.synThreshold == limit > 0
    && g.cfg.value.synAckRatio == 0 && g.cfg.value.globalThreshold == 0
    && g.blacklist == map[]
    && src in g.tracker && g.tracker[src].windowStart == start && g.tracker[src].syn == count
  }

  lemma OneMore(g: Guard, es: seq<Event>, e: Event, src: Option<nat>, from: nat)
    ensures Run(g, es + [e]) == Apply(Run(g, es), e)
    ensures Passes(g, es + [e], src, from) == Passes(g, es, src, from) +
      if PassesNow(Run(g, es), e, src, from) then 1 else 0
  {
    assert (es + [e])[..|es|] == es;
  }

  /** A SYN inside the open window, or one that opens the next. */
  lemma SynPasses(g: Guard, src: nat, now: Time, limit: nat, start: Time, count: nat)
    requires OnlySourceLimit(g, src, limit, start, count) && start <= now &&
      (now <= start + WINDOW_NS ==> count < limit)
    ensures var (after, verdict) := Step(g, Call(src, true, false, now));
      && verdict == Pass
      && if now <= start + WINDOW_NS then OnlySourceLimit(after, src, limit, start, count + 1)
         else OnlySourceLimit(after, src, limit, now, 1)
  {
    assert g.blacklist - {src} == map[];
  }

  lemma SynAppended(g: Guard, es: seq<Event>, src: nat, now: Time, limit: nat, start: Time, count: nat, from: nat)
    requires OnlySourceLimit(Run(g, es), src, limit, start, count)
    requires start <= now && (now <= start + WINDOW_NS ==> count < limit) && from <= now <= from + WINDOW_NS
    ensures var e := Check(Call(src, true, false, now));
      && (if now <= start + WINDOW_NS then OnlySourceLimit(Run(g, es + [e]), src, limit, start, count + 1)
          else OnlySourceLimit(Run(g, es + [e]), src, limit, now, 1))
      && Passes(g, es + [e], Some(src), from) == Passes(g, es, Some(src), from) + 1
  {
    SynPasses(Run(g, es), src, now, limit, start, count);
    OneMore(g, es, Check(Call(src, true, false, now)), Some(src), from);
  }

  lemma {:induction false} SynsPass(g: Guard, es: seq<Event>, src: nat, now: Time, k: nat, limit: nat, start: Time,
                                    count: nat, from: nat)
    requires OnlySourceLimit(Run(g, es), src, limit, start, count) && count + k <= limit
    requires start <= now <= start + WINDOW_NS && from <= now <= from + WINDOW_NS
    ensures OnlySourceLimit(Run(g, es + Syns(src, now, k)), src, limit, start, count + k)
    ensures Passes(g, es + Syns(src, now, k), Some(src), from) == Passes(g, es, Some(src), from) + k
  {
    hide OnlySourceLimit, Step, Run, Passes;
    if k == 0 {
      assert es + Syns(src, now, 0) == es;
    } else {
      SynsPass(g, es, src, now, k - 1, limit, start, count, from);
      SynAppended(g, es + Syns(src, now, k - 1), src, now, limit, start, count + k - 1, from);
      assert es + Syns(src, now, k) == es + Syns(src, now, k - 1) + [Check(Call(src, true, false, now))];
    }
  }

  lemma OpeningCall(g: Guard, src: nat, limit: nat, ban: nat, from: nat)
    requires limit > 0 && g == Guard(Some(DdosConfig(limit, 0, 0, ban)), map[], map[], GlobalSyn(0, 0, 0))
    ensures var opening := [Check(Call(src, false, true, 0))];
      OnlySourceLimit(Run(g, opening), src, limit, 0, 0) && Passes(g, opening, Some(src), from) == 0
  {
    OneMore(g, [], Check(Call(src, false, true, 0)), Some(src), from);
    assert [] + [Check(Call(src, false, true, 0))] == [Check(Call(src, false, true, 0))];
    assert g.blacklist - {src} == map[];
  }

  /** An opening call at time 0, limit SYNs as the first window closes, and limit more one nanosecond later. */
  function TwoBursts(src: nat, limit: nat): seq<Event>
    requires limit > 0
  {
    [Check(Call(src, false, true, 0))] + Syns(src, WINDOW_NS, limit)
      + [Check(Call(src, true, false, WINDOW_NS + 1))] + Syns(src, WINDOW_NS + 1, limit - 1)
  }

  lemma TwoBurstsAreOrdered(src: nat, limit: nat)
    requires limit > 0
    ensures Ordered(TwoBursts(src, limit))
  {
    var es := TwoBursts(src, limit);
    assert forall i :: 0 <= i < |es| ==>
      At(es[i]) == if i == 0 then 0 else if i <= limit then WINDOW_NS else WINDOW_NS + 1;
  }

  /** For every threshold some run has 2 * threshold passes inside one window's length. */
  lemma TwiceTheThresholdIsReached(g: Guard, src: nat, limit: nat, ban: nat)
    requires limit > 0 && g == Guard(Some(DdosConfig(limit, 0, 0, ban)), map[], map[], GlobalSyn(0, 0, 0))
    ensures Ordered(TwoBursts(src, limit))
    ensures Passes(g, TwoBursts(src, limit), Some(src), WINDOW_NS) == 2 * limit
  {
    TwoBurstsAreOrdered(src, limit);
    OpeningCall(g, src, limit, ban, WINDOW_NS);
    hide OnlySourceLimit, Step, Run, Passes, Ordered;
    var opening := [Check(Call(src, false, true, 0))];
    SynsPass(g, opening, src, WINDOW_NS, limit, limit, 0, 0, WINDOW_NS);
    var first := opening + Syns(src, WINDOW_NS, limit);
    SynAppended(g, first, src, WINDOW_NS + 1, limit, 0, limit, WINDOW_NS);
    var rolled := first + [Check(Call(src, true, false, WINDOW_NS + 1))];
    SynsPass(g, rolled, src, WINDOW_NS + 1, limit - 1, limit, WINDOW_NS + 1, 1, WINDOW_NS);
  }

  // ---- The guard as the packet program calls it ----

  /** What the packet program's call site does: a pure SYN passes without the guard being asked. */
  function Handle(g: Guard, c: Call): (Guard, Verdict) {
    if PureSyn(c) then (g, Pass) else Step(g, c)
  }

  function ApplyHandled(g: Guard, e: Event): Guard {
    match e
    case Check(c) => Handle(g, c).0
    case Evict(src, _) => g.(tracker := g.tracker - {src})
  }

  function RunHandled(g: Guard, es: seq<Event>): Guard {
    if es == [] then g else ApplyHandled(RunHandled(g, es[..|es| - 1]), es[|es| - 1])
  }

  /** Nobody is banned and no SYN has been counted, as in freshly loaded maps. */
  ghost predicate Quiet(g: Guard) {
    g.blacklist == map[] && forall src :: src in g.tracker ==> g.tracker[src].syn == 0
  }

  lemma QuietCallPasses(g: Guard, c: Call)
    requires Quiet(g) && !PureSyn(c)
    ensures Quiet(Step(g, c).0) && Step(g, c).1 == Pass
  {
    assert g.blacklist - {c.src} == map[];
    assert Counted(g.tracker, c).syn == 0;
  }

  /** So in the packet program, whatever its limits, the guard never drops a packet nor bans a source. */
  lemma {:induction false} HandledRunsNeverDrop(g: Guard, es: seq<Event>, c: Call)
    requires Quiet(g)
    ensures Quiet(RunHandled(g, es)) && Handle(RunHandled(g, es), c).1 == Pass
  {
    hide Quiet, Step;
    if es != [] {
      HandledRunsNeverDrop(g, es[..|es| - 1], c);
      HandledStaysQuiet(RunHandled(g, es[..|es| - 1]), es[|es| - 1]);
    }
    if !PureSyn(c) {
      QuietCallPasses(RunHandled(g, es), c);
    }
  }

  lemma HandledStaysQuiet(g: Guard, e: Event)
    requires Quiet(g)
    ensures Quiet(ApplyHandled(g, e))
  {
    if e.Check? && !PureSyn(e.call) {
      QuietCallPasses(g, e.call);
    }
    hide Step;
  }

  /** A drop that is not a ban hit needs a pure SYN handed to the guard: this call or one before it. */
  lemma {:induction false} DropsNeedAPureSyn(g: Guard, es: seq<Event>, c: Call)
    requires Quiet(g) && Step(Run(g, es), c).1 == Drop
    ensures PureSyn(c) || exists i :: 0 <= i < |es| && es[i].Check? && PureSyn(es[i].call)
  {
    if !PureSyn(c) && forall i :: 0 <= i < |es| ==> !(es[i].Check? && PureSyn(es[i].call)) {
      SameRuns(g, es);
      HandledRunsNeverDrop(g, es, c);
    }
  }

  lemma {:induction false} SameRuns(g: Guard, es: seq<Event>)
    requires forall i :: 0 <= i < |es| ==> !(es[i].Check? && PureSyn(es[i].call))
    ensures Run(g, es) == RunHandled(g, es)
  {
    if es != [] {
      SameRuns(g, es[..|es| - 1]);
    }
  }

  // ---- What a call does to the maps ----

  /** How long a ban lasts: as configured, or five minutes. */
  function BanLength(g: Guard): nat {
    if g.cfg.Some? then g.cfg.value.banNs else 300_000_000_000
  }

  /** The source's ban is still running: unsigned time since it was set is below its length. */
  predicate StillBanned(g: Guard, src: nat, now: Time) {
    src in g.blacklist &&
      (if now >= g.blacklist[src] then now - g.blacklist[src] else now - g.blacklist[src] + U64) < BanLength(g)
  }

  /**
   A ban ends: the call drops without changing anything if and only if the ban is still running. Any later call is
   handled as if the source were not on the blacklist, and leaves it there only by banning it anew.
   */
  lemma BanEndsExactly(g: Guard, c: Call)
    requires c.src in g.blacklist && g.blacklist[c.src] <= c.now
    ensures var t, (after, verdict) := g.blacklist[c.src], Step(g, c);
      && ((after, verdict) == (g, Drop) <==> c.now < t + BanLength(g))
      && (c.now >= t + BanLength(g) ==>
            && (after, verdict) == Step(g.(blacklist := g.blacklist - {c.src}), c)
            && (c.src in after.blacklist ==> verdict == Drop && after.blacklist[c.src] == c.now))
  {
    if c.now >= g.blacklist[c.src] + BanLength(g) {
      var unbanned := g.blacklist - {c.src};
      assert unbanned - {c.src} == unbanned;
      assert Step(g, c).0.tracker[c.src] == Counted(g.tracker, c);
      assert c.src in g.tracker ==> Counted(g.tracker, c) != g.tracker[c.src];
      hide Counted, CountedGlobally, FloodsGlobally, Misbehaves;
    }
  }

  /** The open window goes on while it is no older than ten seconds. */
  predicate SameWindow(start: Time, now: Time) {
    (if now >= start then now - start else now - start + U64) <= 10_000_000_000
  }

  /** Any other call is counted: per source in the open window or as the first of a new one. */
  lemma CallIsCounted(g: Guard, c: Call)
    requires !StillBanned(g, c.src, c.now)
    ensures var after, syn, ack := Step(g, c).0, if c.syn && !c.ack then 1 else 0, if c.ack && !c.syn then 1 else 0;
      && after.tracker.Keys == g.tracker.Keys + {c.src}
      && (forall k :: k in g.tracker && k != c.src ==> after.tracker[k] == g.tracker[k])
      && after.tracker[c.src] ==
           if c.src in g.tracker && SameWindow(g.tracker[c.src].windowStart, c.now) then
             var cnt := g.tracker[c.src];
             SynCounter(cnt.syn + syn, cnt.ack + ack, cnt.windowStart, cnt.total + 1)
           else SynCounter(syn, ack, c.now, 1)
  {
    hide CountedGlobally, FloodsGlobally, Misbehaves, Blacklisted;
  }

  /** And a pure SYN overall in the same way. */
  lemma SynIsCountedOverall(g: Guard, c: Call)
    requires !StillBanned(g, c.src, c.now)
    ensures var after := Step(g, c).0.global;
      (after.syn, after.windowStart) ==
        if !(c.syn && !c.ack) then (g.global.syn, g.global.windowStart)
        else if SameWindow(g.global.windowStart, c.now) then (g.global.syn + 1, g.global.windowStart)
        else (1, c.now)
  {
    hide Counted, Misbehaves, Blacklisted;
  }

  /** The source's call at this place of the run was counted, not dropped as a ban hit. */
  predicate CountedAt(g: Guard, es: seq<Event>, i: nat, src: nat)
    requires i < |es|
  {
    es[i].Check? && es[i].call.src == src && !StillBanned(Run(g, es[..i]), src, es[i].call.now)
  }

  /** The counted calls of the source from this place on. */
  function CallsFrom(g: Guard, es: seq<Event>, src: nat, from: nat): seq<Call>
    decreases |es|
  {
    if |es| <= from then []
    else
      var last := |es| - 1;
      CallsFrom(g, es[..last], src, from) + if CountedAt(g, es, last, src) then [es[last].call] else []
  }

  function PureSyns(cs: seq<Call>): nat {
    if cs == [] then 0
    else PureSyns(cs[..|cs| - 1]) + if cs[|cs| - 1].syn && !cs[|cs| - 1].ack then 1 else 0
  }

  function PureAcks(cs: seq<Call>): nat {
    if cs == [] then 0
    else PureAcks(cs[..|cs| - 1]) + if cs[|cs| - 1].ack && !cs[|cs| - 1].syn then 1 else 0
  }

  ghost predicate NoEviction(es: seq<Event>, src: nat) {
    forall i :: 0 <= i < |es| ==> !(es[i].Evict? && es[i].src == src)
  }

  /** What a counter says about the run: its window was opened by the call at this place, and these are its calls. */
  ghost predicate CountsFrom(g: Guard, es: seq<Event>, src: nat, opening: nat, cnt: SynCounter) {
    && opening < |es| && CountedAt(g, es, opening, src) && cnt.windowStart == es[opening].call.now
    && var cs := CallsFrom(g, es, src, opening);
    && cnt.total == |cs| && cnt.syn == PureSyns(cs) && cnt.ack == PureAcks(cs)
    && forall j :: 0 <= j < |cs| ==> SameWindow(cnt.windowStart, cs[j].now)
  }

  /** The call opened a window: the source had no counter, or one whose window was too old. */
  predicate OpensWindow(g: Guard, es: seq<Event>, src: nat, opening: nat)
    requires opening < |es| && es[opening].Check?
  {
    var before := Run(g, es[..opening]);
    src !in before.tracker || !SameWindow(before.tracker[src].windowStart, es[opening].call.now)
  }

  lemma OneMoreCall(g: Guard, es: seq<Event>, src: nat, opening: nat)
    requires opening < |es| - 1
    ensures var front, last := es[..|es| - 1], |es| - 1;
      && es[opening] == front[opening] && (CountedAt(g, es, opening, src) <==> CountedAt(g, front, opening, src))
      && CallsFrom(g, es, src, opening) ==
           if CountedAt(g, es, last, src) then CallsFrom(g, front, src, opening) + [es[last].call]
           else CallsFrom(g, front, src, opening)
  {
    assert es[..|es| - 1][..opening] == es[..opening];
    hide Run, StillBanned;
    assert CallsFrom(g, es[..|es| - 1], src, opening) + [] == CallsFrom(g, es[..|es| - 1], src, opening);
  }

  lemma OneMoreCounted(cs: seq<Call>, c: Call)
    ensures PureSyns(cs + [c]) == PureSyns(cs) + if c.syn && !c.ack then 1 else 0
    ensures PureAcks(cs + [c]) == PureAcks(cs) + if c.ack && !c.syn then 1 else 0
  {
    assert (cs + [c])[..|cs|] == cs;
  }

  lemma CounterStep(g: Guard, es: seq<Event>, src: nat, opening: nat)
    requires es != []
    requires var front, last := es[..|es| - 1], |es| - 1;
      && src in Run(g, front).tracker && CountsFrom(g, front, src, opening, Run(g, front).tracker[src])
      && CountedAt(g, es, last, src) && SameWindow(Run(g, front).tracker[src].windowStart, es[last].call.now)
    ensures src in Run(g, es).tracker && CountsFrom(g, es, src, opening, Run(g, es).tracker[src])
  {
    var front, c := es[..|es| - 1], es[|es| - 1].call;
    CallIsCounted(Run(g, front), c);
    OneMoreCall(g, es, src, opening);
    OneMoreCounted(CallsFrom(g, front, src, opening), c);
    assert Run(g, es) == Step(Run(g, front), c).0;
    hide Step, StillBanned, SameWindow, Run, CallsFrom, PureSyns, PureAcks;
  }

  lemma CounterStays(g: Guard, es: seq<Event>, src: nat, opening: nat)
    requires es != [] && !CountedAt(g, es, |es| - 1, src) && !(es[|es| - 1].Evict? && es[|es| - 1].src == src)
    requires var front := es[..|es| - 1];
      src in Run(g, front).tracker && CountsFrom(g, front, src, opening, Run(g, front).tracker[src])
    ensures src in Run(g, es).tracker && CountsFrom(g, es, src, opening, Run(g, es).tracker[src])
  {
    var front, e := es[..|es| - 1], es[|es| - 1];
    OtherEventsLeaveCounter(Run(g, front), e, src);
    OneMoreCall(g, es, src, opening);
    assert Run(g, es) == Apply(Run(g, front), e);
    hide Step, StillBanned, SameWindow, Apply, Run, CallsFrom, PureSyns, PureAcks;
  }

  lemma OtherEventsLeaveCounter(before: Guard, e: Event, src: nat)
    requires !(e.Evict? && e.src == src)
    requires !(e.Check? && e.call.src == src && !StillBanned(before, src, e.call.now))
    ensures var after := Apply(before, e);
      && (src in after.tracker <==> src in before.tracker)
      && (src in before.tracker ==> after.tracker[src] == before.tracker[src])
  {
    if e.Check? {
      if StillBanned(before, e.call.src, e.call.now) {
        BannedCallChangesNothing(before, e.call);
      } else {
        CallIsCounted(before, e.call);
      }
    }
    hide Step, StillBanned;
  }

  lemma OpenedNow(g: Guard, es: seq<Event>, src: nat)
    requires es != [] && CountedAt(g, es, |es| - 1, src) && OpensWindow(g, es, src, |es| - 1)
    ensures src in Run(g, es).tracker && CountsFrom(g, es, src, |es| - 1, Run(g, es).tracker[src])
  {
    var last := |es| - 1;
    var c := es[last].call;
    CallIsCounted(Run(g, es[..last]), c);
    assert CallsFrom(g, es[..last], src, last) == [];
    var cs := CallsFrom(g, es, src, last);
    assert cs == [c] && cs[..|cs| - 1] == [];
    assert PureSyns(cs) == (if c.syn && !c.ack then 1 else 0) && PureAcks(cs) == if c.ack && !c.syn then 1 else 0;
    hide Step, StillBanned;
  }

  /**
   Over any run without evictions of the source, its counter counts its calls since the one that opened the window: all
   of them within ten seconds of that one.
   */
  lemma {:induction false} CounterCountsItsWindow(g: Guard, es: seq<Event>, src: nat) returns (opening: nat)
    requires src !in g.tracker && NoEviction(es, src) && src in Run(g, es).tracker
    ensures CountsFrom(g, es, src, opening, Run(g, es).tracker[src]) && OpensWindow(g, es, src, opening)
  {
    var front, last := es[..|es| - 1], |es| - 1;
    var before, e := Run(g, front), es[last];
    assert NoEviction(front, src);
    if CountedAt(g, es, last, src) &&
      (src !in before.tracker || !SameWindow(before.tracker[src].windowStart, e.call.now)) {
      opening := last;
      OpenedNow(g, es, src);
    } else {
      if !CountedAt(g, es, last, src) {
        OtherEventsLeaveCounter(before, e, src);
      }
      opening := CounterCountsItsWindow(g, front, src);
      assert opening < |front| && es[..opening] == front[..opening];
      hide CountsFrom, Step, StillBanned, SameWindow;
      if CountedAt(g, es, last, src) {
        CounterStep(g, es, src, opening);
      } else {
        CounterStays(g, es, src, opening);
      }
    }
  }

  // ---- Bans and drops ----

  lemma BannedCallChangesNothing(g: Guard, c: Call)
    requires Banned(g, c.src, c.now)
    ensures Step(g, c) == (g, Drop)
  {
  }

  /** Nothing lifts a ban set at time t before its duration is over. */
  lemma {:induction false} BanHolds(g: Guard, es: seq<Event>, src: nat, t: Time)
    requires src in g.blacklist && g.blacklist[src] == t
    requires forall i :: 0 <= i < |es| ==> t <= At(es[i]) < t + BanDuration(g)
    ensures src in Run(g, es).blacklist && Run(g, es).blacklist[src] == t && Run(g, es).cfg == g.cfg
  {
    if es != [] {
      BanHolds(g, es[..|es| - 1], src, t);
      BanSurvives(Run(g, es[..|es| - 1]), es[|es| - 1], src, t);
    }
  }

  lemma BanSurvives(g: Guard, e: Event, src: nat, t: Time)
    requires src in g.blacklist && g.blacklist[src] == t && t <= At(e) < t + BanDuration(g)
    ensures var after := Apply(g, e); src in after.blacklist && after.blacklist[src] == t && after.cfg == g.cfg
  {
    hide Counted, CountedGlobally, Misbehaves, FloodsGlobally;
  }

  /** So every call of the source in that time drops and changes no state. */
  lemma BannedSourceIsSilent(g: Guard, es: seq<Event>, src: nat, t: Time, i: nat)
    requires src in g.blacklist && g.blacklist[src] == t
    requires forall i :: 0 <= i < |es| ==> t <= At(es[i]) < t + BanDuration(g)
    requires i < |es| && es[i].Check? && es[i].call.src == src
    ensures Step(Run(g, es[..i]), es[i].call) == (Run(g, es[..i]), Drop)
  {
    BanHolds(g, es[..i], src, t);
    BannedCallChangesNothing(Run(g, es[..i]), es[i].call);
  }

  /**
   The per-source limits, without division: SYNs up to the threshold, and at most ratio / 100 SYNs to an ACK
   after the first ten.
   */
  predicate WithinLimits(cfg: DdosConfig, cnt: SynCounter) {
    && (cfg.synThreshold == 0 || cnt.syn <= cfg.synThreshold)
    && (cfg.synAckRatio == 0 || cnt.syn <= 10 ||
      100 * cnt.syn < (cfg.synAckRatio + 1) * (if cnt.ack == 0 then 1 else cnt.ack))
  }

  lemma QuotientAbove(x: nat, d: nat, q: nat)
    requires d > 0
    ensures x / d > q <==> x >= (q + 1) * d
  {
    var r := x - x / d * d;
    assert x == x / d * d + r && 0 <= r < d;
    if x / d > q {
      NumberTheory.MulMonotone(q + 1, x / d, d);
    } else {
      NumberTheory.MulMonotone(x / d + 1, q + 1, d);
    }
  }

  /** The call is a pure SYN and with it the overall window has more than the limit. */
  predicate TooManyOverall(g: Guard, c: Call, after: Guard) {
    && c.syn && !c.ack && g.cfg.Some? && g.cfg.value.globalThreshold > 0
    && after.global.syn > g.cfg.value.globalThreshold
  }

  /**
   A call that is not banned passes exactly when, with it counted, neither the overall limit nor the source's own
   limits are exceeded.
   */
  lemma PassesExactlyWithinLimits(g: Guard, c: Call)
    requires !StillBanned(g, c.src, c.now)
    ensures var (after, verdict) := Step(g, c);
      && c.src in after.tracker
      && (verdict == Pass <==>
            !TooManyOverall(g, c, after) && (g.cfg.Some? ==> WithinLimits(g.cfg.value, after.tracker[c.src])))
  {
    if g.cfg.Some? {
      var cnt := Counted(g.tracker, c);
      QuotientAbove(cnt.syn * 100, if cnt.ack > 0 then cnt.ack else 1, g.cfg.value.synAckRatio);
    }
    hide Counted, CountedGlobally, Blacklisted;
  }

  /**
   And a drop by the source's own limits, no other one, bans the source from that moment, if the blacklist has room. No
   other source's ban is touched.
   */
  lemma BansExactly(g: Guard, c: Call)
    requires !StillBanned(g, c.src, c.now)
    ensures var (after, verdict) := Step(g, c);
      var others := g.blacklist - {c.src};
      after.blacklist ==
        if verdict == Drop && !TooManyOverall(g, c, after) && |others| < 16_384 then others[c.src := c.now] else others
  {
    hide Counted, CountedGlobally, Misbehaves;
  }

  /** Drops that were not blacklist hits. */
  function CountedDrops(g: Guard, es: seq<Event>): nat {
    if es == [] then 0
    else
      var front, e := es[..|es| - 1], es[|es| - 1];
      CountedDrops(g, front) +
        var before := Run(g, front);
        if e.Check? && Step(before, e.call).1 == Drop && !StillBanned(before, e.call.src, e.call.now) then 1 else 0
  }

  /** dropped_total counts exactly the drops that were not blacklist hits. */
  lemma {:induction false} DropsAreCounted(g: Guard, es: seq<Event>)
    ensures Run(g, es).global.dropped == g.global.dropped + CountedDrops(g, es)
  {
    if es != [] {
      DropsAreCounted(g, es[..|es| - 1]);
    }
  }
}
