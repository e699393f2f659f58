/**
 The Maglev ring as a draft: each backend has a preference list over the ring slots, and the
 backends take turns claiming the first slot on their list that is still free.
 */
module Maglev {
  import opened NumberTheory
  import opened XdpTypes

  /** A listing of all m slots, each once. */
  ghost predicate IsPreferenceList(p: seq<nat>, m: nat) {
    && |p| == m
    && Distinct(p)
    && forall j :: 0 <= j < m ==> p[j] < m
  }

  /** The j-th choice of a backend whose hashes give this offset and skip. */
  function Choice(offset: nat, skip: nat, m: nat, j: nat): nat
    requires m > 0
  {
    (offset + j * skip) % m
  }

  function Preferences(offset: nat, skip: nat, m: nat): seq<nat>
    requires m > 0
  {
    seq(m, j requires 0 <= j => Choice(offset, skip, m, j))
  }

  /** With a 32-bit ring the 64-bit sum never wraps and the stored choice fits 32 bits. */
  lemma ChoiceFitsMachineWords(offset: nat, skip: nat, m: nat, j: nat)
    requires 0 < m < U32 && offset < m && skip <= m && j < m
    ensures offset + j * skip < U64
    ensures Choice(offset, skip, m, j) < m < U32
  {
    MulMonotone(j, m - 1, skip);
    MulMonotone(skip, m, m - 1);
    MulMonotone(m, U32 - 1, m - 1);
    MulMonotone(m - 1, U32 - 2, U32 - 1);
  }

  lemma ChoicesDiffer(offset: nat, skip: nat, m: nat, j: nat, k: nat)
    requires Prime(m) && 0 < skip < m && j < k < m
    ensures Choice(offset, skip, m, j) != Choice(offset, skip, m, k)
  {
    if Choice(offset, skip, m, j) == Choice(offset, skip, m, k) {
      SameResidue(offset + k * skip, offset + j * skip, m);
      assert (offset + k * skip) - (offset + j * skip) == (k - j) * skip;
      ProductNotMultiple(m, k - j, skip);
    }
  }

  /** On a prime ring every offset and skip give a full preference list. */
  lemma PrimeRingListsEverySlot(offset: nat, skip: nat, m: nat)
    requires Prime(m) && 0 < skip < m
    ensures IsPreferenceList(Preferences(offset, skip, m), m)
  {
    var p := Preferences(offset, skip, m);
    forall j, k | 0 <= j < k < |p| ensures p[j] != p[k] {
      ChoicesDiffer(offset, skip, m, j, k);
    }
  }

  lemma DivisorSkipRepeats(m: nat, d: nat)
    requires 1 < d < m && m % d == 0
    ensures !IsPreferenceList(Preferences(0, d, m), m)
  {
    var p, k := Preferences(0, d, m), m / d;
    assert k * d == m;
    if k <= 0 { MulMonotone(k, 0, d); }
    if k >= m { MulMonotone(m, k, d); MulMonotone(2, d, m); }
    DivModUnique(m, m, 1, 0);
    DivModUnique(0, m, 0, 0);
    assert p[0] == Choice(0, d, m, 0) == 0;
    assert p[k] == Choice(0, d, m, k) == 0;
  }

  /** Primality is exactly what the walk needs: on a composite ring some skip repeats slots. */
  lemma RingMustBePrime(m: nat)
    requires m >= 2
    ensures Prime(m) <==>
      forall offset: nat, skip: nat :: offset < m && 0 < skip < m ==> IsPreferenceList(Preferences(offset, skip, m), m)
  {
    if Prime(m) {
      forall offset: nat, skip: nat | offset < m && 0 < skip < m
        ensures IsPreferenceList(Preferences(offset, skip, m), m)
      {
        PrimeRingListsEverySlot(offset, skip, m);
      }
    } else {
      var d: nat :| 1 < d < m && m % d == 0;
      DivisorSkipRepeats(m, d);
    }
  }

  lemma SomethingLeft(a: set<nat>, b: set<nat>)
    requires |a| < |b|
    ensures exists x :: x in b && x !in a
  {
    if b <= a {
      SubsetSize(b, a);
    }
  }

  /**
   What a list that misses slots does to a sole backend: it finds a free choice exactly until it has claimed every
   slot it lists. The ring is not full then, so its next search would run past the end of the list.
   */
  lemma SoleBackendRunsOut(pref: seq<nat>, m: nat, claims: seq<nat>)
    requires |pref| == m && (forall j :: 0 <= j < m ==> pref[j] < m) && !IsPreferenceList(pref, m)
    requires Distinct(claims) && forall k :: 0 <= k < |claims| ==> claims[k] in pref
    ensures |claims| <= |Elements(pref)| < m
    ensures (exists j :: 0 <= j < m && pref[j] !in claims) <==> |claims| < |Elements(pref)|
  {
    DistinctSize(claims);
    SubsetSize(Elements(claims), Elements(pref));
    RepeatsShrink(pref);
    if |claims| < |Elements(pref)| {
      SomethingLeft(Elements(claims), Elements(pref));
      var missing :| missing in Elements(pref) && missing !in Elements(claims);
      var j :| 0 <= j < m && pref[j] == missing;
    } else {
      forall j | 0 <= j < m ensures pref[j] in claims {
        assert pref[j] in Elements(pref);
      }
    }
  }

  // ---- The draft ----

  /** Position of the first choice, at or after from, that nobody has claimed. */
  function FirstFree(pref: seq<nat>, claimed: seq<nat>, from: nat): (j: nat)
    requires exists k :: from <= k < |pref| && pref[k] !in claimed
    ensures from <= j < |pref| && pref[j] !in claimed
    ensures forall k :: from <= k < j ==> pref[k] in claimed
    decreases |pref| - from
  {
    if pref[from] !in claimed then from else FirstFree(pref, claimed, from + 1)
  }

  lemma SlotStillFree(pref: seq<nat>, m: nat, claimed: seq<nat>)
    requires IsPreferenceList(pref, m) && Distinct(claimed) && |claimed| < m
    requires forall k :: 0 <= k < |claimed| ==> claimed[k] < m
    ensures exists k :: 0 <= k < |pref| && pref[k] !in claimed
  {
    ListingIsOnto(pref, m);
    var v := SomeValueMissing(claimed, m);
    assert v in pref;
  }

  ghost predicate AllPreferences(prefs: seq<seq<nat>>, m: nat) {
    && prefs != []
    && forall i :: 0 <= i < |prefs| ==> IsPreferenceList(prefs[i], m)
  }

  /** The slots claimed by the first t turns, in order; turn k belongs to backend k mod n. */
  ghost function Claims(prefs: seq<seq<nat>>, m: nat, t: nat): (claims: seq<nat>)
    requires AllPreferences(prefs, m) && t <= m
    ensures |claims| == t && Distinct(claims) && forall k :: 0 <= k < t ==> claims[k] < m
  {
    if t == 0 then []
    else
      var earlier := Claims(prefs, m, t - 1);
      var pref := prefs[(t - 1) % |prefs|];
      SlotStillFree(pref, m, earlier);
      earlier + [pref[FirstFree(pref, earlier, 0)]]
  }

  /** The ring after the given claims: claimed slots name the claiming backend, others hold -1. */
  ghost function Award(m: nat, n: nat, claims: seq<nat>): (ring: seq<int>)
    requires n > 0 && forall k :: 0 <= k < |claims| ==> claims[k] < m
    ensures |ring| == m
  {
    if claims == [] then seq(m, _ => -1)
    else
      var last := |claims| - 1;
      Award(m, n, claims[..last])[claims[last] := last % n]
  }

  lemma {:induction false} AwardSlots(m: nat, n: nat, claims: seq<nat>)
    requires n > 0 && Distinct(claims) && forall k :: 0 <= k < |claims| ==> claims[k] < m
    ensures forall k :: 0 <= k < |claims| ==> Award(m, n, claims)[claims[k]] == k % n
    ensures forall s :: 0 <= s < m && s !in claims ==> Award(m, n, claims)[s] == -1
  {
    if claims != [] {
      var last := |claims| - 1;
      AwardSlots(m, n, claims[..last]);
      assert claims == claims[..last] + [claims[last]];
    }
  }

  lemma {:induction false} ClaimsExtend(prefs: seq<seq<nat>>, m: nat, s: nat, t: nat)
    requires AllPreferences(prefs, m) && s <= t <= m
    ensures Claims(prefs, m, t)[..s] == Claims(prefs, m, s)
    decreases t
  {
    if s < t {
      ClaimsExtend(prefs, m, s, t - 1);
      assert Claims(prefs, m, t)[..s] == Claims(prefs, m, t - 1)[..s];
    }
  }

  /** The finished ring. */
  ghost function Ring(prefs: seq<seq<nat>>, m: nat): (ring: seq<int>)
    requires AllPreferences(prefs, m)
    ensures |ring| == m
  {
    Award(m, |prefs|, Claims(prefs, m, m))
  }

  // ---- What the draft guarantees ----

  lemma RingIsFull(prefs: seq<seq<nat>>, m: nat)
    requires AllPreferences(prefs, m)
    ensures forall s :: 0 <= s < m ==> 0 <= Ring(prefs, m)[s] < |prefs|
  {
    var claims := Claims(prefs, m, m);
    ListingIsOnto(claims, m);
    AwardSlots(m, |prefs|, claims);
    forall s | 0 <= s < m ensures 0 <= Ring(prefs, m)[s] < |prefs| {
      assert s in claims;
      var k :| 0 <= k < m && claims[k] == s;
    }
  }

  ghost predicate ClaimedAbove(pref: seq<nat>, rank: nat, claimed: seq<nat>) {
    forall j :: 0 <= j < rank && j < |pref| ==> pref[j] in claimed
  }

  /** Everything turn t's backend likes better than the slot it got was claimed by an earlier turn. */
  ghost predicate NeverPassesOver(prefs: seq<seq<nat>>, m: nat, claims: seq<nat>)
    requires AllPreferences(prefs, m)
  {
    forall t, rank :: 0 <= t < |claims| && 0 <= rank < m && prefs[t % |prefs|][rank] == claims[t]
      ==> ClaimedAbove(prefs[t % |prefs|], rank, claims[..t])
  }

  lemma NextClaim(prefs: seq<seq<nat>>, m: nat, t: nat)
    requires AllPreferences(prefs, m) && t < m
    ensures exists k :: 0 <= k < |prefs[t % |prefs|]| && prefs[t % |prefs|][k] !in Claims(prefs, m, t)
    ensures Claims(prefs, m, t + 1)
         == Claims(prefs, m, t) + [prefs[t % |prefs|][FirstFree(prefs[t % |prefs|], Claims(prefs, m, t), 0)]]
  {
    SlotStillFree(prefs[t % |prefs|], m, Claims(prefs, m, t));
  }

  lemma TurnTakesBestFree(prefs: seq<seq<nat>>, m: nat, t: nat, u: nat, rank: nat)
    requires AllPreferences(prefs, m) && u < t <= m && rank < m
    requires prefs[u % |prefs|][rank] == Claims(prefs, m, t)[u]
    ensures ClaimedAbove(prefs[u % |prefs|], rank, Claims(prefs, m, t)[..u])
  {
    ClaimsExtend(prefs, m, u + 1, t);
    ClaimsExtend(prefs, m, u, t);
    assert Claims(prefs, m, t)[u] == Claims(prefs, m, t)[..u + 1][u];
    NextClaim(prefs, m, u);
    assert rank == FirstFree(prefs[u % |prefs|], Claims(prefs, m, u), 0);
  }

  lemma {:induction false} DraftNeverPassesOver(prefs: seq<seq<nat>>, m: nat, t: nat)
    requires AllPreferences(prefs, m) && t <= m
    ensures NeverPassesOver(prefs, m, Claims(prefs, m, t))
  {
    var claims := Claims(prefs, m, t);
    forall u, rank | 0 <= u < |claims| && 0 <= rank < m && prefs[u % |prefs|][rank] == claims[u]
      ensures ClaimedAbove(prefs[u % |prefs|], rank, claims[..u])
    {
      TurnTakesBestFree(prefs, m, t, u, rank);
    }
  }

  lemma LastClaimIsForced(pref: seq<nat>, m: nat, earlier: seq<nat>, rank: nat)
    requires IsPreferenceList(pref, m) && Distinct(earlier) && |earlier| < m
    requires forall k :: 0 <= k < |earlier| ==> earlier[k] < m
    requires rank < m && pref[rank] !in earlier && ClaimedAbove(pref, rank, earlier)
    ensures exists k :: 0 <= k < |pref| && pref[k] !in earlier
    ensures rank == FirstFree(pref, earlier, 0)
  {
    SlotStillFree(pref, m, earlier);
  }

  lemma PrefixNeverPassesOver(prefs: seq<seq<nat>>, m: nat, claims: seq<nat>, t: nat)
    requires AllPreferences(prefs, m) && t <= |claims|
    requires NeverPassesOver(prefs, m, claims)
    ensures NeverPassesOver(prefs, m, claims[..t])
  {
    assert forall u :: 0 <= u < t ==> claims[..t][..u] == claims[..u];
  }

  lemma RankOf(pref: seq<nat>, m: nat, slot: nat) returns (rank: nat)
    requires IsPreferenceList(pref, m) && slot < m
    ensures rank < m && pref[rank] == slot
  {
    ListingIsOnto(pref, m);
    assert slot in pref;
    rank :| rank < m && pref[rank] == slot;
  }

  /** The draft is the only sequence of distinct claims in which no backend passes over a free slot. */
  lemma {:induction false} DraftIsUnique(prefs: seq<seq<nat>>, m: nat, claims: seq<nat>)
    requires AllPreferences(prefs, m) && |claims| <= m && Distinct(claims)
    requires forall k :: 0 <= k < |claims| ==> claims[k] < m
    requires NeverPassesOver(prefs, m, claims)
    ensures claims == Claims(prefs, m, |claims|)
  {
    if claims != [] {
      var t := |claims| - 1;
      PrefixNeverPassesOver(prefs, m, claims, t);
      DraftIsUnique(prefs, m, claims[..t]);
      NextClaim(prefs, m, t);
      var pref := prefs[t % |prefs|];
      var rank := RankOf(pref, m, claims[t]);
      LastClaimIsForced(pref, m, claims[..t], rank);
      assert claims == claims[..t] + [claims[t]];
    }
  }

  /** The slots of a ring held by backend i. */
  ghost function HeldBy(ring: seq<int>, i: int): set<nat> {
    set s: nat | 0 <= s < |ring| && ring[s] == i
  }

  /** How many of the first t turns belong to backend i. */
  function TurnsOf(t: nat, n: nat, i: nat): nat
    requires n > 0
  {
    t / n + if i < t % n then 1 else 0
  }

  lemma NextTurn(t: nat, n: nat, i: nat)
    requires n > 0 && i < n
    ensures TurnsOf(t + 1, n, i) == TurnsOf(t, n, i) + if t % n == i then 1 else 0
  {
    NextResidue(t, n);
  }

  lemma FillSlot(ring: seq<int>, slot: nat, owner: nat, i: nat)
    requires slot < |ring| && ring[slot] == -1
    ensures |HeldBy(ring[slot := owner], i)| == |HeldBy(ring, i)| + if owner == i then 1 else 0
  {
    assert HeldBy(ring[slot := owner], i) == HeldBy(ring, i) + if owner == i then {slot} else {};
  }

  lemma ShareStep(prefs: seq<seq<nat>>, m: nat, t: nat, i: nat)
    requires AllPreferences(prefs, m) && t < m
    ensures |HeldBy(Award(m, |prefs|, Claims(prefs, m, t + 1)), i)|
         == |HeldBy(Award(m, |prefs|, Claims(prefs, m, t)), i)| + if t % |prefs| == i then 1 else 0
  {
    var claims := Claims(prefs, m, t + 1);
    assert claims[..t] == Claims(prefs, m, t);
    AwardSlots(m, |prefs|, claims[..t]);
    assert claims[t] !in claims[..t];
    FillSlot(Award(m, |prefs|, claims[..t]), claims[t], t % |prefs|, i);
  }

  lemma NoShares(m: nat, n: nat, i: nat)
    requires n > 0
    ensures |HeldBy(Award(m, n, []), i)| == 0 == TurnsOf(0, n, i)
  {
    assert HeldBy(Award(m, n, []), i) == {};
    DivModUnique(0, n, 0, 0);
  }

  lemma {:induction false} SharesSoFar(prefs: seq<seq<nat>>, m: nat, t: nat, i: nat)
    requires AllPreferences(prefs, m) && t <= m && i < |prefs|
    ensures |HeldBy(Award(m, |prefs|, Claims(prefs, m, t)), i)| == TurnsOf(t, |prefs|, i)
  {
    if t == 0 {
      NoShares(m, |prefs|, i);
      assert Claims(prefs, m, 0) == [];
    } else {
      hide Award, Claims, HeldBy, TurnsOf, AllPreferences;
      SharesSoFar(prefs, m, t - 1, i);
      NextTurn(t - 1, |prefs|, i);
      ShareStep(prefs, m, t - 1, i);
    }
  }

  /** Exact balance: every backend holds m / n slots, and the first m mod n of them one more. */
  lemma RingIsBalanced(prefs: seq<seq<nat>>, m: nat, i: nat)
    requires AllPreferences(prefs, m) && i < |prefs|
    ensures |HeldBy(Ring(prefs, m), i)| == m / |prefs| + if i < m % |prefs| then 1 else 0
  {
    SharesSoFar(prefs, m, m, i);
  }
}
