/** Divisibility facts about a prime modulus, and counting arguments on finite ranges. */
module NumberTheory {

  ghost predicate Prime(p: int) {
    p >= 2 && forall d :: 1 < d < p ==> p % d != 0
  }

  ghost predicate Distinct<T>(s: seq<T>) {
    forall i, j :: 0 <= i < j < |s| ==> s[i] != s[j]
  }

  function Range(n: nat): (r: set<nat>)
    ensures forall x: nat :: x in r <==> x < n
    ensures |r| == n
  {
    if n == 0 then {} else Range(n - 1) + {n - 1}
  }

  function Elements<T>(s: seq<T>): set<T> {
    set x | x in s
  }

  lemma MultipleOf(p: int, k: int)
    requires p > 0
    ensures (k * p) % p == 0
  {
    DivModUnique(k * p, p, k, 0);
  }

  lemma DivModUnique(x: int, m: int, q: int, r: int)
    requires m > 0 && 0 <= r < m && x == q * m + r
    ensures x / m == q && x % m == r
  {
    var d := x / m - q;
    assert d * m == r - x % m by {
      assert x == (x / m) * m + x % m;
    }
    if d >= 1 {
      MulMonotone(1, d, m);
    } else if d <= -1 {
      MulMonotone(1, -d, m);
    }
  }

  lemma SmallMod(x: int, m: int)
    requires 0 <= x < m
    ensures x % m == x
  {
  }

  lemma NextResidue(x: int, m: int)
    requires m > 0
    ensures (x + 1) % m == if x % m + 1 < m then x % m + 1 else 0
    ensures (x + 1) / m == if x % m + 1 < m then x / m else x / m + 1
  {
    if x % m + 1 < m {
      DivModUnique(x + 1, m, x / m, x % m + 1);
    } else {
      DivModUnique(x + 1, m, x / m + 1, 0);
    }
  }

  lemma MulMonotone(a: int, b: int, m: int)
    requires a <= b && m >= 0
    ensures a * m <= b * m
  {
  }

  lemma SameResidue(x: int, y: int, m: int)
    requires m > 0 && x % m == y % m
    ensures (x - y) % m == 0
  {
    MultipleOf(m, x / m - y / m);
    assert x - y == (x / m - y / m) * m;
  }

  lemma RemainderDivides(p: int, a: int, b: int, q: int, r: int)
    requires p > 0 && p == q * a + r && (a * b) % p == 0
    ensures (r * b) % p == 0
  {
    var k := (a * b) / p;
    calc {
      r * b;
      (p - q * a) * b;
      p * b - q * (a * b);
      { assert a * b == k * p; }
      p * b - q * (k * p);
      (b - q * k) * p;
    }
    MultipleOf(p, b - q * k);
  }

  /** Euclid's lemma in the form the ring needs: two nonzero residues of a prime have a nonzero product. */
  lemma {:induction false} ProductNotMultiple(p: int, a: int, b: int)
    requires Prime(p) && 0 < a < p && 0 < b < p
    ensures (a * b) % p != 0
    decreases a
  {
    if a == 1 {
      assert a * b == b;
    } else if (a * b) % p == 0 {
      var q, r := p / a, p % a;
      assert p == q * a + r;
      RemainderDivides(p, a, b, q, r);
      ProductNotMultiple(p, r, b);
    }
  }

  lemma {:induction false} DistinctSize<T>(s: seq<T>)
    requires Distinct(s)
    ensures |Elements(s)| == |s|
  {
    if s != [] {
      var k := |s| - 1;
      DistinctSize(s[..k]);
      assert s == s[..k] + [s[k]];
      assert Elements(s) == Elements(s[..k]) + {s[k]};
    }
  }

  lemma {:induction false} FewElements<T>(s: seq<T>)
    ensures |Elements(s)| <= |s|
  {
    if s != [] {
      var k := |s| - 1;
      FewElements(s[..k]);
      assert s == s[..k] + [s[k]];
      assert Elements(s) == Elements(s[..k]) + {s[k]};
    }
  }

  /** A listing with a repetition has fewer values than entries. */
  lemma RepeatsShrink<T>(s: seq<T>)
    requires !Distinct(s)
    ensures |Elements(s)| < |s|
  {
    var i, j :| 0 <= i < j < |s| && s[i] == s[j];
    var rest := s[..j] + s[j + 1..];
    FewElements(rest);
    forall x | x in s ensures x in rest {
      var k :| 0 <= k < |s| && s[k] == x;
      assert rest[if k < j then k else if k == j then i else k - 1] == x;
    }
    assert Elements(s) == Elements(rest);
  }

  lemma {:induction false} SubsetSize<T>(a: set<T>, b: set<T>)
    requires a <= b
    ensures |a| <= |b|
    ensures |a| == |b| ==> a == b
  {
    if a != {} {
      var x :| x in a;
      SubsetSize(a - {x}, b - {x});
    }
  }

  /** A distinct listing of n values below n lists every value below n. */
  lemma ListingIsOnto(s: seq<nat>, n: nat)
    requires |s| == n && Distinct(s) && forall k :: 0 <= k < n ==> s[k] < n
    ensures forall v: nat :: v < n ==> v in s
  {
    DistinctSize(s);
    SubsetSize(Elements(s), Range(n));
    forall v: nat | v < n ensures v in s {
      assert v in Range(n);
    }
  }

  /** Fewer than n values leave some value below n unlisted. */
  lemma SomeValueMissing(s: seq<nat>, n: nat) returns (v: nat)
    requires |s| < n && Distinct(s) && forall k :: 0 <= k < |s| ==> s[k] < n
    ensures v < n && v !in s
  {
    DistinctSize(s);
    if Range(n) <= Elements(s) {
      SubsetSize(Range(n), Elements(s));
    }
    v :| v in Range(n) && v !in Elements(s);
  }

  /** No divisor of n lies in [2, bound]. */
  ghost predicate NoDivisorUpTo(n: nat, bound: nat) {
    forall d :: 2 <= d <= bound ==> n % d != 0
  }

  /** Trial division up to the square root decides primality. */
  lemma TrialDivision(n: nat, root: nat)
    requires 2 <= n < (root + 1) * (root + 1)
    requires NoDivisorUpTo(n, root)
    requires root < n
    ensures Prime(n)
  {
    forall d | 1 < d < n ensures n % d != 0 {
      if n % d == 0 {
        var e := n / d;
        assert n == e * d;
        if d > root {
          if e >= root + 1 {
            MulMonotone(root + 1, e, d);
            MulMonotone(root + 1, d, root + 1);
          } else if e <= 1 {
            MulMonotone(e, 1, d);
          }
          assert n == d * e;
          MultipleOf(e, d);
        }
      }
    }
  }

  lemma SieveLow()
    ensures forall d :: 2 <= d <= 128 ==> 65537 % d != 0
  {
  }

  lemma SieveHigh()
    ensures forall d :: 129 <= d <= 256 ==> 65537 % d != 0
  {
  }

  /** The ring size every service gets is prime. */
  lemma DefaultRingSizeIsPrime()
    ensures Prime(65537)
  {
    SieveLow();
    SieveHigh();
    TrialDivision(65537, 256);
  }

  lemma LargeSieve1()
    ensures forall d :: 2 <= d <= 72 ==> 999983 % d != 0
  {
  }

  lemma LargeSieve2()
    ensures forall d :: 73 <= d <= 144 ==> 999983 % d != 0
  {
  }

  lemma LargeSieve3()
    ensures forall d :: 145 <= d <= 215 ==> 999983 % d != 0
  {
  }

  lemma LargeSieve4()
    ensures forall d :: 216 <= d <= 286 ==> 999983 % d != 0
  {
  }

  lemma LargeSieve5()
    ensures forall d :: 287 <= d <= 357 ==> 999983 % d != 0
  {
  }

  lemma LargeSieve6()
    ensures forall d :: 358 <= d <= 429 ==> 999983 % d != 0
  {
  }

  lemma LargeSieve7()
    ensures forall d :: 430 <= d <= 500 ==> 999983 % d != 0
  {
  }

  lemma LargeSieve8()
    ensures forall d :: 501 <= d <= 571 ==> 999983 % d != 0
  {
  }

  lemma LargeSieve9()
    ensures forall d :: 572 <= d <= 643 ==> 999983 % d != 0
  {
  }

  lemma LargeSieve10()
    ensures forall d :: 644 <= d <= 714 ==> 999983 % d != 0
  {
  }

  lemma LargeSieve11()
    ensures forall d :: 715 <= d <= 785 ==> 999983 % d != 0
  {
  }

  lemma LargeSieve12()
    ensures forall d :: 786 <= d <= 856 ==> 999983 % d != 0
  {
  }

  lemma LargeSieve13()
    ensures forall d :: 857 <= d <= 928 ==> 999983 % d != 0
  {
  }

  lemma LargeSieve14()
    ensures forall d :: 929 <= d <= 999 ==> 999983 % d != 0
  {
  }

  /** The large ring size is prime as well. */
  lemma LargeRingSizeIsPrime()
    ensures Prime(999983)
  {
    LargeSieve1();
    LargeSieve2();
    LargeSieve3();
    LargeSieve4();
    LargeSieve5();
    LargeSieve6();
    LargeSieve7();
    LargeSieve8();
    LargeSieve9();
    LargeSieve10();
    LargeSieve11();
    LargeSieve12();
    LargeSieve13();
    LargeSieve14();
    TrialDivision(999983, 999);
  }
}
