/**
 The periodic schedule behind round robin and weighted round robin: position p of the cycle belongs
 to the entry whose weight-prefix interval contains p.
 */
module Schedule {
  import NumberTheory

  function Prefix(w: seq<nat>, k: nat): nat
    requires k <= |w|
  {
    if k == 0 then 0 else Prefix(w, k - 1) + w[k - 1]
  }

  function Total(w: seq<nat>): nat {
    Prefix(w, |w|)
  }

  lemma {:induction false} PrefixGrows(w: seq<nat>, j: nat, k: nat)
    requires j <= k <= |w|
    ensures Prefix(w, j) <= Prefix(w, k)
  {
    if j < k {
      PrefixGrows(w, j, k - 1);
    }
  }

  function HolderBelow(w: seq<nat>, k: nat, p: nat): (i: nat)
    requires k <= |w| && p < Prefix(w, k)
    ensures i < k && Prefix(w, i) <= p < Prefix(w, i + 1)
  {
    if p >= Prefix(w, k - 1) then k - 1 else HolderBelow(w, k - 1, p)
  }

  /** The entry that position p belongs to. */
  function Holder(w: seq<nat>, p: nat): (i: nat)
    requires p < Total(w)
    ensures i < |w| && Prefix(w, i) <= p < Prefix(w, i + 1)
  {
    HolderBelow(w, |w|, p)
  }

  lemma HolderIs(w: seq<nat>, p: nat, i: nat)
    requires i < |w| && Prefix(w, i) <= p < Prefix(w, i + 1)
    ensures p < Total(w) && Holder(w, p) == i
  {
    PrefixGrows(w, i + 1, |w|);
    var h := Holder(w, p);
    if h < i {
      PrefixGrows(w, h + 1, i);
    } else if i < h {
      PrefixGrows(w, i + 1, h);
    }
  }

  /** How many of the len turns from start on go to entry i. */
  function Turns(w: seq<nat>, start: nat, len: nat, i: nat): nat
    requires Total(w) > 0
  {
    if len == 0 then 0
    else Turns(w, start, len - 1, i) + if Holder(w, (start + len - 1) % Total(w)) == i then 1 else 0
  }

  lemma {:induction false} TurnsFromNext(w: seq<nat>, start: nat, len: nat, i: nat)
    requires Total(w) > 0
    ensures Turns(w, start, len + 1, i) ==
      Turns(w, start + 1, len, i) + if Holder(w, start % Total(w)) == i then 1 else 0
  {
    if len > 0 {
      TurnsFromNext(w, start, len - 1, i);
    }
  }

  lemma {:induction false} FirstTurns(w: seq<nat>, len: nat, i: nat)
    requires i < |w| && 0 < Total(w) && len <= Total(w)
    ensures Turns(w, 0, len, i) ==
      if len <= Prefix(w, i) then 0 else if len <= Prefix(w, i + 1) then len - Prefix(w, i) else w[i]
  {
    if len > 0 {
      FirstTurns(w, len - 1, i);
      NumberTheory.SmallMod(len - 1, Total(w));
      if Prefix(w, i) <= len - 1 < Prefix(w, i + 1) {
        HolderIs(w, len - 1, i);
      }
    }
  }

  lemma FirstCycle(w: seq<nat>, i: nat)
    requires Total(w) > 0 && i < |w|
    ensures Turns(w, 0, Total(w), i) == w[i]
  {
    PrefixGrows(w, i + 1, |w|);
    FirstTurns(w, Total(w), i);
  }

  lemma SameAfterCycle(x: nat, m: nat)
    requires m > 0
    ensures (x + m) % m == x % m
  {
    NumberTheory.DivModUnique(x + m, m, x / m + 1, x % m);
  }

  lemma TurnsAtEnd(w: seq<nat>, start: nat, len: nat, i: nat)
    requires Total(w) > 0
    ensures Turns(w, start, len + 1, i) ==
      Turns(w, start, len, i) + if Holder(w, (start + len) % Total(w)) == i then 1 else 0
  {
    assert start + (len + 1) - 1 == start + len;
  }

  lemma CycleShifts(w: seq<nat>, start: nat, i: nat)
    requires Total(w) > 0
    ensures Turns(w, start + 1, Total(w), i) == Turns(w, start, Total(w), i)
  {
    hide Total, Holder, Turns;
    TurnsFromNext(w, start, Total(w), i);
    TurnsAtEnd(w, start, Total(w), i);
    SameAfterCycle(start, Total(w));
  }

  /** Any Total(w) consecutive turns, from any start, give each entry exactly its weight. */
  lemma {:induction false} FullCycle(w: seq<nat>, start: nat, i: nat)
    requires Total(w) > 0 && i < |w|
    ensures Turns(w, start, Total(w), i) == w[i]
  {
    if start == 0 {
      FirstCycle(w, i);
    } else {
      FullCycle(w, start - 1, i);
      CycleShifts(w, start - 1, i);
    }
  }

  /** The picks, numbered from base, follow the schedule of w from position p0 on. */
  ghost predicate Follows(picks: seq<nat>, w: seq<nat>, base: nat, p0: nat)
    requires Total(w) > 0
  {
    forall t :: 0 <= t < |picks| ==> picks[t] == base + Holder(w, (p0 + t) % Total(w))
  }

  /** How often x is chosen among the len picks from position t on. */
  function Times(picks: seq<nat>, t: nat, len: nat, x: nat): nat
    requires t + len <= |picks|
  {
    multiset(picks[t..t + len])[x]
  }

  lemma {:induction false} PicksAreTurns(picks: seq<nat>, w: seq<nat>, base: nat, p0: nat, s: nat, len: nat, i: nat)
    requires Total(w) > 0 && Follows(picks, w, base, p0) && s + len <= |picks|
    ensures Times(picks, s, len, base + i) == Turns(w, p0 + s, len, i)
  {
    hide Total, Holder;
    if len > 0 {
      PicksAreTurns(picks, w, base, p0, s, len - 1, i);
      assert picks[s..s + len] == picks[s..s + len - 1] + [picks[s + len - 1]];
    }
  }

  /** Every Total(w) consecutive picks choose each entry exactly its weight. */
  lemma FollowingIsFair(picks: seq<nat>, w: seq<nat>, base: nat, p0: nat, s: nat, i: nat)
    requires Total(w) > 0 && Follows(picks, w, base, p0) && s + Total(w) <= |picks| && i < |w|
    ensures Times(picks, s, Total(w), base + i) == w[i]
  {
    PicksAreTurns(picks, w, base, p0, s, Total(w), i);
    FullCycle(w, p0 + s, i);
  }

  /** One more pick, taken at the position the schedule has reached. */
  lemma FollowsOn(picks: seq<nat>, w: seq<nat>, base: nat, p0: nat, p: nat, pick: nat)
    requires Total(w) > 0 && Follows(picks, w, base, p0)
    requires p == (p0 + |picks|) % Total(w) && pick == base + Holder(w, p)
    ensures Follows(picks + [pick], w, base, p0)
    ensures (p + 1) % Total(w) == (p0 + |picks + [pick]|) % Total(w)
  {
    hide Holder;
    NumberTheory.NextResidue(p0 + |picks|, Total(w));
    NumberTheory.NextResidue(p, Total(w));
    NumberTheory.SmallMod(p, Total(w));
  }
}
