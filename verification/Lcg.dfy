/**
The sampler's private random number generator: a linear congruential generator
modulo 2^64 whose comment promises the "full 64 bit space".
*/
module Lcg {
  const Modulus: nat := 0x1_0000_0000_0000_0000
  const A: nat := 0x5deece66d
  const C: nat := 0xb

  type Word = x: nat | x < 0x1_0000_0000_0000_0000

  /** One call of _pump_rand(), with the wrap-around of uint64_t arithmetic. */
  function Next(x: Word): Word {
    (A * x + C) % Modulus
  }

  /** The constants of drand48() on 64 bits. */
  lemma FirstDraws(x: Word)
    ensures Next(x) == (25_214_903_917 * x + 11) % 18_446_744_073_709_551_616
    ensures Next(0) == 11 && Next(1) == 25_214_903_928
  {}

  /** The state after n draws. */
  function Iter(x: Word, n: nat): Word {
    if n == 0 then x else Next(Iter(x, n - 1))
  }

  class RandState {
    var xi: Word

    constructor (seed: Word)
      ensures xi == seed
    {
      xi := seed;
    }

    method PumpRand() returns (r: Word)
      modifies this
      ensures r == xi == Next(old(xi))
    {
      xi := (0x5deece66d * xi + 0xb) % 0x1_0000_0000_0000_0000;
      return xi;
    }
  }

  function Pow(b: nat, n: nat): (r: nat)
    ensures b > 0 ==> r > 0
  {
    if n == 0 then 1 else b * Pow(b, n - 1)
  }

  /** 1 + A + ... + A^(n-1), built from the front. */
  function Sum(n: nat): nat {
    if n == 0 then 0 else A * Sum(n - 1) + 1
  }

  /** 2^k divides n. */
  predicate Divides(k: nat, n: nat) {
    k == 0 || (n % 2 == 0 && Divides(k - 1, n / 2))
  }

  lemma {:induction false} DividesIsRemainder(k: nat, n: nat)
    ensures Divides(k, n) <==> n % Pow(2, k) == 0
  {
    if k > 0 {
      var p := Pow(2, k - 1);
      DividesIsRemainder(k - 1, n / 2);
      SplitRemainder(n, p);
    }
  }

  lemma SplitRemainder(n: nat, p: nat)
    requires p > 0
    ensures n % (2 * p) == 0 <==> n % 2 == 0 && (n / 2) % p == 0
  {
    if n % (2 * p) == 0 {
      var q := n / (2 * p);
      assert n == 2 * p * q;
      assert n == 2 * (p * q);
      assert n / 2 == p * q;
      MultipleRemainder(p, q);
    }
    if n % 2 == 0 && (n / 2) % p == 0 {
      var q := n / 2 / p;
      assert n / 2 == p * q;
      assert n == (2 * p) * q;
      MultipleRemainder(2 * p, q);
    }
  }

  lemma MultipleRemainder(p: nat, q: nat)
    requires p > 0
    ensures (p * q) % p == 0
  {
    var t := (p * q) / p;
    assert p * q == p * t + (p * q) % p;
    assert p * (q - t) == (p * q) % p;
    Multiple(p, q - t, (p * q) % p);
  }

  lemma {:induction false} OddFactor(k: nat, o: nat, z: nat)
    requires o % 2 == 1
    ensures Divides(k, o * z) <==> Divides(k, z)
  {
    if k > 0 {
      var h, r := z / 2, z % 2;
      var g := o / 2;
      assert o * z == 2 * (o * h) + o * r;
      if r == 0 {
        assert o * z / 2 == o * h;
        OddFactor(k - 1, o, h);
      }
    }
  }

  lemma {:induction false} SumAdds(m: nat, n: nat)
    ensures Sum(m + n) == Sum(m) * Pow(A, n) + Sum(n)
  {
    if n > 0 {
      SumAdds(m, n - 1);
      var s, p, t := Sum(m), Pow(A, n - 1), Sum(n - 1);
      assert Sum(m + n) == A * (s * p + t) + 1;
      Distribute(A, s, p, t);
    }
  }

  lemma Distribute(a: nat, s: nat, p: nat, t: nat)
    ensures a * (s * p + t) == s * (a * p) + a * t
  {}

  lemma {:induction false} PowModFour(n: nat)
    ensures Pow(A, n) % 4 == 1
  {
    if n > 0 {
      PowModFour(n - 1);
      TimesModFour(A, Pow(A, n - 1));
    }
  }

  lemma TimesModFour(a: nat, p: nat)
    requires a % 4 == 1 && p % 4 == 1
    ensures (a * p) % 4 == 1
  {
    var k := a / 4;
    assert a * p == 4 * (k * p) + p by { assert a == 4 * k + 1; }
  }

  lemma {:induction false} SumParity(n: nat)
    ensures Sum(n) % 2 == n % 2
  {
    if n > 0 {
      SumParity(n - 1);
      var s := Sum(n - 1);
      assert A * s == 2 * ((A / 2) * s) + s;
    }
  }

  /** Sum(n) is divisible by exactly the powers of two that divide n. */
  lemma {:induction false} SumDivides(k: nat, n: nat)
    ensures Divides(k, Sum(n)) <==> Divides(k, n)
  {
    hide Pow, Sum;
    SumParity(n);
    if k > 0 && n % 2 == 0 {
      var m := n / 2;
      SumAdds(m, m);
      PowModFour(m);
      var s, o := Sum(m), (Pow(A, m) + 1) / 2;
      assert n == m + m && Pow(A, m) == 2 * o - 1;
      assert Sum(n) == s * (2 * o - 1) + s;
      assert s * (2 * o - 1) + s == 2 * (o * s) by { assert s * (2 * o - 1) == 2 * (s * o) - s; }
      assert Sum(n) == 2 * (o * s);
      OddFactor(k - 1, o, s);
      SumDivides(k - 1, m);
    }
  }

  lemma {:induction false} PowerSum(n: nat)
    ensures Pow(A, n) == (A - 1) * Sum(n) + 1
  {
    if n > 0 {
      PowerSum(n - 1);
      var s := Sum(n - 1);
      assert A * ((A - 1) * s + 1) == (A - 1) * (A * s + 1) + 1;
    }
  }

  /** The n-th state in closed form, up to a multiple q of the modulus. */
  lemma {:induction false} ClosedForm(x: Word, n: nat) returns (q: nat)
    ensures x + ((A - 1) * x + C) * Sum(n) == Iter(x, n) + Modulus * q
  {
    if n == 0 {
      q := 0;
    } else {
      var p := ClosedForm(x, n - 1);
      hide Iter, Sum;
      var r := IterStep(x, n);
      q := A * p + r;
      ClosedStep(A, C, x, Sum(n - 1), Iter(x, n - 1), p, Iter(x, n), r);
    }
  }

  lemma IterStep(x: Word, n: nat) returns (r: nat)
    requires n > 0
    ensures A * Iter(x, n - 1) + C == Iter(x, n) + Modulus * r
    ensures Sum(n) == A * Sum(n - 1) + 1
  {
    r := (A * Iter(x, n - 1) + C) / Modulus;
  }

  lemma ClosedStep(a: nat, c: nat, x: nat, s: nat, y: nat, p: nat, z: nat, r: nat)
    requires a > 0 && x + ((a - 1) * x + c) * s == y + Modulus * p
    requires a * y + c == z + Modulus * r
    ensures x + ((a - 1) * x + c) * (a * s + 1) == z + Modulus * (a * p + r)
  {
    var d := (a - 1) * x + c;
    var ds := d * s;
    assert d * (a * s + 1) == a * ds + d;
    assert a * (x + ds) == a * y + Modulus * (a * p);
    assert a * (x + ds) == a * x + a * ds;
    assert (a - 1) * x == a * x - x;
  }

  lemma ModulusIsPower()
    ensures Pow(2, 64) == Modulus
  {
    assert Pow(2, 8) == 0x100;
    assert Pow(2, 16) == 0x1_0000;
    assert Pow(2, 24) == 0x100_0000;
    assert Pow(2, 32) == 0x1_0000_0000;
    assert Pow(2, 40) == 0x100_0000_0000;
    assert Pow(2, 48) == 0x1_0000_0000_0000;
    assert Pow(2, 56) == 0x100_0000_0000_0000;
  }

  /** Modulo 2^k the state returns exactly after the multiples of 2^k draws. */
  lemma LowBitsPeriod(x: Word, n: nat, k: nat)
    requires k <= 64
    ensures Iter(x, n) % Pow(2, k) == x % Pow(2, k) <==> n % Pow(2, k) == 0
  {
    hide Pow, Sum, Iter, Divides;
    var m, d := Pow(2, k), ((A - 1) * x + C) * Sum(n);
    assert d % m == 0 <==> n % m == 0 by {
      OddIncrement(x);
      OddFactor(k, (A - 1) * x + C, Sum(n));
      SumDivides(k, n);
      DividesIsRemainder(k, n);
      DividesIsRemainder(k, d);
    }
    var q := ClosedForm(x, n);
    var r := Pow(2, 64 - k) * q;
    assert Modulus * q == m * r by {
      PowerSplits(64, k);
      ModulusIsPower();
    }
    SameRemainder(x, d, Iter(x, n), m, r);
  }

  lemma OddIncrement(x: nat)
    ensures ((A - 1) * x + C) % 2 == 1
  {
    assert (A - 1) * x + C == 2 * ((A - 1) / 2 * x + C / 2) + 1;
  }

  lemma {:induction false} PowerSplits(n: nat, k: nat)
    requires k <= n
    ensures Pow(2, n) == Pow(2, k) * Pow(2, n - k)
  {
    if k > 0 {
      PowerSplits(n - 1, k - 1);
    }
  }

  lemma {:induction false} SameRemainder(x: nat, d: nat, y: nat, m: nat, r: nat)
    requires m > 0 && x + d == y + m * r
    ensures y % m == x % m <==> d % m == 0
  {
    var a, b, c := x / m, y / m, d / m;
    assert x == m * a + x % m && y == m * b + y % m && d == m * c + d % m;
    assert m * (b + r - a - c) == x % m - y % m + d % m;
    var t := b + r - a - c;
    if y % m == x % m {
      Multiple(m, t, d % m);
    }
    if d % m == 0 {
      Multiple(m, t, x % m - y % m);
    }
  }

  lemma Multiple(m: nat, t: int, d: int)
    requires m * t == d && d < m && -d < m
    ensures d == 0
  {
    assert t >= 1 ==> m * t >= m;
    assert t <= -1 ==> m * -t >= m;
  }

  lemma {:induction false} IterCompose(x: Word, i: nat, n: nat)
    ensures Iter(Iter(x, i), n) == Iter(x, i + n)
  {
    if n > 0 {
      IterCompose(x, i, n - 1);
    }
  }

  /** From any seed, two draws give the same state exactly a multiple of 2^64 draws apart. */
  lemma FullPeriod(x: Word, i: nat, j: nat)
    requires i <= j
    ensures Iter(x, i) == Iter(x, j) <==> (j - i) % Modulus == 0
  {
    hide Pow, Iter;
    IterCompose(x, i, j - i);
    ModulusIsPower();
    LowBitsPeriod(Iter(x, i), j - i, 64);
  }

  /** The states among the first n draws. */
  function Orbit(x: Word, n: nat): set<nat> {
    set i: nat | i < n :: Iter(x, i)
  }

  lemma {:induction false} OrbitSize(x: Word, n: nat)
    requires n <= Modulus
    ensures |Orbit(x, n)| == n
  {
    hide Iter;
    if n > 0 {
      OrbitSize(x, n - 1);
      assert Orbit(x, n) == Orbit(x, n - 1) + {Iter(x, n - 1)};
      forall i: nat | i < n - 1 ensures Iter(x, i) != Iter(x, n - 1) {
        FullPeriod(x, i, n - 1);
      }
    }
  }

  function Below(n: nat): (s: set<nat>)
    ensures forall y: nat :: y in s <==> y < n
    ensures |s| == n
  {
    if n == 0 then {} else Below(n - 1) + {n - 1}
  }

  lemma SubsetOfSameSize<T>(a: set<T>, b: set<T>)
    requires a <= b && |a| == |b|
    ensures a == b
  {
    assert |b - a| == |b| - |a|;
  }

  /** From any seed, every 64-bit value is drawn exactly once in 2^64 draws. */
  lemma VisitsEverything(x: Word, y: Word) returns (i: nat)
    ensures i < Modulus && Iter(x, i) == y
    ensures forall j: nat :: j < Modulus && Iter(x, j) == y ==> j == i
  {
    hide Iter, Below;
    OrbitSize(x, Modulus);
    assert Orbit(x, Modulus) <= Below(Modulus);
    SubsetOfSameSize(Orbit(x, Modulus), Below(Modulus));
    assert y in Orbit(x, Modulus);
    i :| 0 <= i < Modulus && Iter(x, i) == y;
    forall j: nat | j < Modulus && Iter(x, j) == y ensures j == i {
      if i <= j {
        FullPeriod(x, i, j);
      } else {
        FullPeriod(x, j, i);
      }
    }
  }
}
