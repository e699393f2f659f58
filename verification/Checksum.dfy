/** Incremental one's-complement checksum updates (section 3 of RFC 1624) and the IPv6 rewrites that use them. */
module Checksum {
  import NumberTheory

  type Word = x: int | 0 <= x < 0x1_0000
  type Double = x: int | 0 <= x < 0x1_0000_0000

  function Low(x: Double): Word { x % 0x1_0000 }
  function High(x: Double): Word { x / 0x1_0000 }
  function Complement(x: Double): Double { 0xFFFF_FFFF - x }

  function CsumReplace16(check: Word, oldVal: Word, newVal: Word): Word {
    var c := Low(Complement(check)) + Low(Complement(oldVal)) + newVal;
    Low(Complement(High(c) + Low(c)))
  }

  function CsumReplace32(check: Word, oldVal: Double, newVal: Double): Word {
    var c := Low(Complement(check));
    var c := c + High(Complement(oldVal)) + Low(Complement(oldVal));
    var c := c + High(newVal) + Low(newVal);
    var c := High(c) + Low(c);
    Low(Complement(c + High(c)))
  }

  /** Equal as one's-complement numbers, where 0 and 0xFFFF are the same. */
  ghost predicate Congruent(x: int, y: int) {
    (x - y) % 0xFFFF == 0
  }

  lemma ComplementHalves(x: Double)
    ensures Low(Complement(x)) == 0xFFFF - Low(x) && High(Complement(x)) == 0xFFFF - High(x)
  {
    NumberTheory.DivModUnique(Complement(x), 0x1_0000, 0xFFFF - High(x), 0xFFFF - Low(x));
  }

  lemma SmallHalves(w: int)
    requires 0 <= w < 0x2_0000
    ensures w < 0x1_0000 ==> High(w) == 0 && Low(w) == w
    ensures w >= 0x1_0000 ==> High(w) == 1 && Low(w) == w - 0x1_0000
  {
    if w < 0x1_0000 {
      NumberTheory.DivModUnique(w, 0x1_0000, 0, w);
    } else {
      NumberTheory.DivModUnique(w, 0x1_0000, 1, w - 0x1_0000);
    }
  }

  /** Swapping a 32-bit field keeps checksum plus field the same one's-complement number, for all inputs. */
  lemma Replace32KeepsSum(check: Word, oldVal: Double, newVal: Double)
    ensures Congruent(CsumReplace32(check, oldVal, newVal) + High(newVal) + Low(newVal),
                      check + High(oldVal) + Low(oldVal))
  {
    SmallHalves(check);
    ComplementHalves(check);
    ComplementHalves(oldVal);
    var c := 0x2_FFFD - check - High(oldVal) - Low(oldVal) + High(newVal) + Low(newVal);
    var folded := High(c) + Low(c);
    SmallHalves(folded);
    var twice := folded + High(folded);
    SmallHalves(twice);
    ComplementHalves(twice);
    assert CsumReplace32(check, oldVal, newVal) == 0xFFFF - Low(twice);
    NumberTheory.MultipleOf(0xFFFF, High(c) - 2);
    NumberTheory.MultipleOf(0xFFFF, High(c) - 1);
  }

  /**
   The 16-bit form drops its second carry: the sum is kept unless newVal == check + oldVal + 1, and then it is
   off by one.
   */
  lemma Replace16KeepsSum(check: Word, oldVal: Word, newVal: Word)
    ensures Congruent(CsumReplace16(check, oldVal, newVal) + newVal, check + oldVal) <==> newVal != check + oldVal + 1
    ensures newVal == check + oldVal + 1 ==> CsumReplace16(check, oldVal, newVal) == 0xFFFF
  {
    SmallHalves(check);
    SmallHalves(oldVal);
    ComplementHalves(check);
    ComplementHalves(oldVal);
    var c := 0x1_FFFE - check - oldVal + newVal;
    var folded := High(c) + Low(c);
    SmallHalves(folded);
    ComplementHalves(folded);
    assert CsumReplace16(check, oldVal, newVal) == 0xFFFF - Low(folded);
    NumberTheory.MultipleOf(0xFFFF, High(c) - 1);
    assert folded >= 0x1_0000 <==> c == 0x1_FFFF;
  }

  /** Which of the two zeroes comes out: all ones only from three zeroes, so the sum decides the checksum. */
  lemma Replace32IsOnes(check: Word, oldVal: Double, newVal: Double)
    ensures CsumReplace32(check, oldVal, newVal) == 0xFFFF <==>
      check == 0xFFFF && oldVal == 0xFFFF_FFFF && newVal == 0
  {
    SmallHalves(check);
    ComplementHalves(check);
    ComplementHalves(oldVal);
    var c := 0x2_FFFD - check - High(oldVal) - Low(oldVal) + High(newVal) + Low(newVal);
    var folded := High(c) + Low(c);
    SmallHalves(folded);
    var twice := folded + High(folded);
    SmallHalves(twice);
    ComplementHalves(twice);
    assert CsumReplace32(check, oldVal, newVal) == 0xFFFF - Low(twice);
    assert Low(twice) == 0 ==> c == 0;
  }

  // ---- IPv6 addresses, four 32-bit loads at a time ----

  type Address = a: seq<Double> | |a| == 4 witness [0, 0, 0, 0]

  /** The 16-bit words of a run of 32-bit loads. */
  function Words(a: seq<Double>): seq<Word> {
    if a == [] then [] else Words(a[..|a| - 1]) + [High(a[|a| - 1]), Low(a[|a| - 1])]
  }

  function Sum(ws: seq<Word>): nat {
    if ws == [] then 0 else Sum(ws[..|ws| - 1]) + ws[|ws| - 1]
  }

  lemma {:induction false} SumAppend(a: seq<Word>, b: seq<Word>)
    ensures Sum(a + b) == Sum(a) + Sum(b)
  {
    if b == [] {
      assert a + b == a;
    } else {
      assert (a + b)[..|a + b| - 1] == a + b[..|b| - 1];
      SumAppend(a, b[..|b| - 1]);
    }
  }

  lemma SumPair(x: Word, y: Word)
    ensures Sum([x, y]) == x + y
  {
    var both: seq<Word> := [x, y];
    var first: seq<Word> := [x];
    assert both[..1] == first && first[..0] == [];
    assert Sum(first) == x;
  }

  lemma WordsNext(a: seq<Double>, i: nat)
    requires i < |a|
    ensures Sum(Words(a[..i + 1])) == Sum(Words(a[..i])) + High(a[i]) + Low(a[i])
  {
    assert a[..i + 1][..i] == a[..i];
    SumAppend(Words(a[..i]), [High(a[i]), Low(a[i])]);
    SumPair(High(a[i]), Low(a[i]));
  }

  lemma CongruentSum(a: int, b: int, c: int, d: int)
    requires Congruent(a, b) && Congruent(c, d)
    ensures Congruent(a + c, b + d)
  {
    var p, q := (a - b) / 0xFFFF, (c - d) / 0xFFFF;
    assert a + c - (b + d) == (p + q) * 0xFFFF;
    NumberTheory.MultipleOf(0xFFFF, p + q);
  }

  /** A checksum that stands for o read as n, updated once more for h read as g. */
  lemma CongruentChain(check: int, o: int, r: int, n: int, h: int, next: int, g: int)
    requires Congruent(r + n, check + o) && Congruent(next + g, r + h)
    ensures Congruent(next + (n + g), check + (o + h))
  {
    CongruentSum(r + n, check + o, next + g, r + h);
  }

  lemma AddressStep(check: Word, r: Word, oldAddr: Address, newAddr: Address, i: nat)
    requires i < 4 && Congruent(r + Sum(Words(newAddr[..i])), check + Sum(Words(oldAddr[..i])))
    ensures Congruent(CsumReplace32(r, oldAddr[i], newAddr[i]) + Sum(Words(newAddr[..i + 1])),
                      check + Sum(Words(oldAddr[..i + 1])))
  {
    hide CsumReplace32, Words, Sum, High, Low, Congruent;
    var next := CsumReplace32(r, oldAddr[i], newAddr[i]);
    var g, h := High(newAddr[i]) + Low(newAddr[i]), High(oldAddr[i]) + Low(oldAddr[i]);
    Replace32KeepsSum(r, oldAddr[i], newAddr[i]);
    assert next + High(newAddr[i]) + Low(newAddr[i]) == next + g && r + High(oldAddr[i]) + Low(oldAddr[i]) == r + h;
    WordsNext(oldAddr, i);
    WordsNext(newAddr, i);
    CongruentChain(check, Sum(Words(oldAddr[..i])), r, Sum(Words(newAddr[..i])), h, next, g);
  }

  /** The checksum after the first n loads of the address have been swapped. */
  function ReplaceAddress(check: Word, oldAddr: Address, newAddr: Address, n: nat): Word
    requires n <= 4
  {
    if n == 0 then check
    else CsumReplace32(ReplaceAddress(check, oldAddr, newAddr, n - 1), oldAddr[n - 1], newAddr[n - 1])
  }

  method CsumReplaceIpv6(check: Word, oldAddr: Address, newAddr: Address) returns (r: Word)
    ensures r == ReplaceAddress(check, oldAddr, newAddr, 4)
  {
    hide CsumReplace32;
    r := check;
    for i := 0 to 4
      invariant r == ReplaceAddress(check, oldAddr, newAddr, i)
    {
      r := CsumReplace32(r, oldAddr[i], newAddr[i]);
    }
  }

  lemma {:induction false} SwappedSoFar(check: Word, oldAddr: Address, newAddr: Address, n: nat)
    requires n <= 4
    ensures Congruent(ReplaceAddress(check, oldAddr, newAddr, n) + Sum(Words(newAddr[..n])),
                      check + Sum(Words(oldAddr[..n])))
  {
    hide CsumReplace32, Words, Sum, Congruent;
    if n == 0 {
      assert newAddr[..0] == oldAddr[..0];
      CongruentSelf(check + Sum(Words(oldAddr[..0])));
    } else {
      SwappedSoFar(check, oldAddr, newAddr, n - 1);
      AddressStep(check, ReplaceAddress(check, oldAddr, newAddr, n - 1), oldAddr, newAddr, n - 1);
    }
  }

  lemma CongruentSelf(x: int)
    ensures Congruent(x, x)
  {
  }

  /** Swapping a whole address keeps checksum plus address words the same one's-complement number. */
  lemma AddressKeepsSum(check: Word, oldAddr: Address, newAddr: Address)
    ensures Congruent(ReplaceAddress(check, oldAddr, newAddr, 4) + Sum(Words(newAddr)), check + Sum(Words(oldAddr)))
  {
    SwappedSoFar(check, oldAddr, newAddr, 4);
    assert newAddr[..4] == newAddr && oldAddr[..4] == oldAddr;
  }

  // ---- What the receiver checks ----

  /** One's-complement addition: the carry comes back in at the bottom. */
  function AddWithCarry(a: Word, b: Word): Word {
    if a + b >= 0x1_0000 then a + b - 0xFFFF else a + b
  }

  function OnesSum(ws: seq<Word>): Word {
    if ws == [] then 0 else AddWithCarry(OnesSum(ws[..|ws| - 1]), ws[|ws| - 1])
  }

  /** A receiver adds up every covered word, checksum included, and wants all ones. */
  predicate Accepts(ws: seq<Word>) {
    OnesSum(ws) == 0xFFFF
  }

  lemma {:induction false} OnesSumIsResidue(ws: seq<Word>)
    ensures Congruent(Sum(ws), OnesSum(ws)) && (OnesSum(ws) == 0 <==> Sum(ws) == 0)
  {
    if ws != [] {
      var front, last := ws[..|ws| - 1], ws[|ws| - 1];
      OnesSumIsResidue(front);
      var k := (Sum(front) - OnesSum(front)) / 0xFFFF;
      assert Sum(front) == OnesSum(front) + k * 0xFFFF;
      NumberTheory.MultipleOf(0xFFFF, k);
      NumberTheory.MultipleOf(0xFFFF, k + 1);
      assert Sum(ws) - OnesSum(ws) == if OnesSum(front) + last >= 0x1_0000 then (k + 1) * 0xFFFF else k * 0xFFFF;
    }
  }

  lemma AcceptsIffMultiple(ws: seq<Word>)
    requires Sum(ws) > 0
    ensures Accepts(ws) <==> Sum(ws) % 0xFFFF == 0
  {
    OnesSumIsResidue(ws);
    var k := (Sum(ws) - OnesSum(ws)) / 0xFFFF;
    assert Sum(ws) == k * 0xFFFF + OnesSum(ws);
    if OnesSum(ws) == 0xFFFF {
      NumberTheory.MultipleOf(0xFFFF, k + 1);
    } else {
      NumberTheory.DivModUnique(Sum(ws), 0xFFFF, k, OnesSum(ws));
    }
  }

  // ---- Rewriting an IPv6 segment ----

  /**
   An IPv6 TCP or UDP segment as its checksum covers it: checksum, destination address and port, and
   every other covered word (source, length, protocol, other header fields, payload).
   */
  datatype Segment = Segment(check: Word, daddr: Address, dport: Word, rest: seq<Word>)

  function Covered(s: Segment): seq<Word> {
    [s.check] + Words(s.daddr) + [s.dport] + s.rest
  }

  lemma SumCovered(s: Segment)
    ensures Sum(Covered(s)) == s.check + Sum(Words(s.daddr)) + s.dport + Sum(s.rest)
  {
    SumAppend([s.check] + Words(s.daddr) + [s.dport], s.rest);
    SumAppend([s.check] + Words(s.daddr), [s.dport]);
    SumAppend([s.check], Words(s.daddr));
    assert [s.check][..0] == [] && [s.dport][..0] == [];
    assert Sum([s.check]) == s.check && Sum([s.dport]) == s.dport;
  }

  lemma CongruentResidue(x: int, y: int)
    requires Congruent(x, y)
    ensures x % 0xFFFF == 0 <==> y % 0xFFFF == 0
  {
    var k := (x - y) / 0xFFFF;
    if y % 0xFFFF == 0 {
      assert x == (y / 0xFFFF + k) * 0xFFFF;
      NumberTheory.MultipleOf(0xFFFF, y / 0xFFFF + k);
    }
    if x % 0xFFFF == 0 {
      assert y == (x / 0xFFFF - k) * 0xFFFF;
      NumberTheory.MultipleOf(0xFFFF, x / 0xFFFF - k);
    }
  }

  /** Segments with congruent sums are accepted or refused together. */
  lemma SameVerdict(s: Segment, t: Segment)
    requires Sum(s.rest) > 0 && Sum(t.rest) > 0
    requires Congruent(Sum(Covered(t)), Sum(Covered(s)))
    ensures Accepts(Covered(t)) <==> Accepts(Covered(s))
  {
    SumCovered(s);
    SumCovered(t);
    AcceptsIffMultiple(Covered(s));
    AcceptsIffMultiple(Covered(t));
    CongruentResidue(Sum(Covered(t)), Sum(Covered(s)));
  }

  /** A segment whose sum is one more than an accepted segment's is refused. */
  lemma OffByOneIsRefused(s: Segment, t: Segment)
    requires Sum(s.rest) > 0 && Sum(t.rest) > 0 && Accepts(Covered(s))
    requires Congruent(Sum(Covered(t)), Sum(Covered(s)) + 1)
    ensures !Accepts(Covered(t))
  {
    SumCovered(s);
    SumCovered(t);
    AcceptsIffMultiple(Covered(s));
    AcceptsIffMultiple(Covered(t));
    CongruentResidue(Sum(Covered(t)), Sum(Covered(s)) + 1);
    NumberTheory.NextResidue(Sum(Covered(s)), 0xFFFF);
  }

  function MidCheck(s: Segment, daddr: Address): Word {
    ReplaceAddress(s.check, s.daddr, daddr, 4)
  }

  /** The segment pointed at a backend. */
  function Rewritten(s: Segment, daddr: Address, dport: Word): Segment {
    Segment(CsumReplace16(MidCheck(s, daddr), s.dport, dport), daddr, dport, s.rest)
  }

  /** For UDP a zero checksum would mean none, so it becomes all ones. */
  function RewrittenUdp(s: Segment, daddr: Address, dport: Word): Segment {
    var t := Rewritten(s, daddr, dport);
    if t.check == 0 then t.(check := 0xFFFF) else t
  }

  /**
   The port step drops a carry: the new port is one more than the checksum after the address step plus the old
   port.
   */
  predicate CarryLost(s: Segment, daddr: Address, dport: Word) {
    dport == MidCheck(s, daddr) + s.dport + 1
  }

  /** The verdict in terms of the checksum that the address step leaves (mid) and the port step finishes. */
  lemma VerdictByMid(s: Segment, mid: Word, daddr: Address, dport: Word, check: Word)
    requires Sum(s.rest) > 0
    requires Congruent(mid + Sum(Words(daddr)), s.check + Sum(Words(s.daddr)))
    requires check == CsumReplace16(mid, s.dport, dport) || (CsumReplace16(mid, s.dport, dport) == 0 && check == 0xFFFF)
    ensures var t := Segment(check, daddr, dport, s.rest);
      && (dport != mid + s.dport + 1 ==> (Accepts(Covered(t)) <==> Accepts(Covered(s))))
      && (dport == mid + s.dport + 1 && Accepts(Covered(s)) ==> !Accepts(Covered(t)))
  {
    hide CsumReplace16, Covered, Accepts, Words, Sum;
    var t := Segment(check, daddr, dport, s.rest);
    SumCovered(s);
    SumCovered(t);
    Replace16KeepsSum(mid, s.dport, dport);
    if dport != mid + s.dport + 1 {
      assert Congruent(check + dport, mid + s.dport);
      CongruentSum(check + dport, mid + s.dport, mid + Sum(Words(daddr)), s.check + Sum(Words(s.daddr)));
      SameVerdict(s, t);
    } else {
      assert check + dport == 0xFFFF + mid + s.dport + 1;
      CongruentSum(check + dport, mid + s.dport + 1, mid + Sum(Words(daddr)), s.check + Sum(Words(s.daddr)));
      if Accepts(Covered(s)) {
        OffByOneIsRefused(s, t);
      }
    }
  }

  /**
   A rewritten segment is accepted exactly as the original was, except when the carry is lost: then an accepted one
   is refused.
   */
  lemma RewriteVerdict(s: Segment, daddr: Address, dport: Word, t: Segment)
    requires Sum(s.rest) > 0
    requires t == Rewritten(s, daddr, dport) || t == RewrittenUdp(s, daddr, dport)
    ensures !CarryLost(s, daddr, dport) ==> (Accepts(Covered(t)) <==> Accepts(Covered(s)))
    ensures CarryLost(s, daddr, dport) && Accepts(Covered(s)) ==> !Accepts(Covered(t))
  {
    hide CsumReplace16, Covered, Accepts, Words, Sum, ReplaceAddress, Congruent;
    AddressKeepsSum(s.check, s.daddr, daddr);
    VerdictByMid(s, MidCheck(s, daddr), daddr, dport, t.check);
  }

  /** A rewrite that keeps the port never loses the carry. */
  lemma SamePortKeepsVerdict(s: Segment, daddr: Address, t: Segment)
    requires Sum(s.rest) > 0
    requires t == Rewritten(s, daddr, s.dport) || t == RewrittenUdp(s, daddr, s.dport)
    ensures Accepts(Covered(t)) <==> Accepts(Covered(s))
  {
    hide CsumReplace16, Covered, Accepts, Sum, ReplaceAddress;
    RewriteVerdict(s, daddr, s.dport, t);
  }

  /** The header fields the IPv6 handlers rewrite. */
  class Ipv6Header {
    var check: Word
    var daddr: Address
    var dport: Word
    ghost const rest: seq<Word>

    ghost function Seg(): Segment
      reads this
    {
      Segment(check, daddr, dport, rest)
    }

    constructor (check: Word, daddr: Address, dport: Word, ghost rest: seq<Word>)
      ensures Seg() == Segment(check, daddr, dport, rest)
    {
      this.check, this.daddr, this.dport, this.rest := check, daddr, dport, rest;
    }

    /**
     Points a TCP segment at its backend. An acceptable segment stays acceptable exactly when the carry is not lost,
     which in particular it is not when the port stays the same.
     */
    method RewriteTcp(newAddr: Address, newPort: Word)
      requires Sum(rest) > 0
      modifies this
      ensures Seg() == Rewritten(old(Seg()), newAddr, newPort)
      ensures Accepts(Covered(old(Seg()))) ==> (Accepts(Covered(Seg())) <==> !CarryLost(old(Seg()), newAddr, newPort))
    {
      hide Accepts, Covered, Sum, CsumReplace16, ReplaceAddress;
      var oldAddr, oldPort := daddr, dport;
      daddr := newAddr;
      dport := newPort;
      check := CsumReplaceIpv6(check, oldAddr, daddr);
      check := CsumReplace16(check, oldPort, dport);
      RewriteVerdict(old(Seg()), newAddr, newPort, Seg());
    }

    /** The same for UDP, which also never leaves a zero checksum. */
    method RewriteUdp(newAddr: Address, newPort: Word)
      requires Sum(rest) > 0
      modifies this
      ensures Seg() == RewrittenUdp(old(Seg()), newAddr, newPort) && check != 0
      ensures Accepts(Covered(old(Seg()))) ==> (Accepts(Covered(Seg())) <==> !CarryLost(old(Seg()), newAddr, newPort))
    {
      hide Accepts, Covered, Sum, CsumReplace16, ReplaceAddress;
      var oldAddr, oldPort := daddr, dport;
      daddr := newAddr;
      dport := newPort;
      check := CsumReplaceIpv6(check, oldAddr, daddr);
      check := CsumReplace16(check, oldPort, dport);
      if check == 0 {
        check := 0xFFFF;
      }
      RewriteVerdict(old(Seg()), newAddr, newPort, Seg());
    }
  }
}
