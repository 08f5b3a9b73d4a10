/** Residues, primes, and Fermat's little theorem. */
module NumberTheory {

  predicate Divides(d: int, n: int)
    requires d > 0
  {
    n % d == 0
  }

  ghost predicate IsPrime(n: int) {
    2 <= n && forall m :: 2 <= m < n ==> !Divides(m, n)
  }

  function Pow(a: int, e: nat): int {
    if e == 0 then 1 else a * Pow(a, e - 1)
  }

  // ----- Residues -----

  lemma MulAtLeast(a: int, b: int)
    requires a >= 1 && b >= 0
    ensures a * b >= b
  {
    assert a * b == (a - 1) * b + b;
  }

  lemma Distribute(a: int, b: int, c: int)
    ensures a * (b + c) == a * b + a * c == b * a + c * a == (b + c) * a
  {
  }

  lemma DistributeSub(a: int, b: int, c: int)
    ensures (b - c) * a == b * a - c * a
  {
  }

  lemma DivMod(a: int, n: int)
    requires n > 0
    ensures a == a / n * n + a % n && 0 <= a % n < n
  {
  }

  lemma Associate(a: int, b: int, c: int)
    ensures a * (b * c) == (a * b) * c == (b * a) * c == b * (a * c)
  {
  }

  /** Quotient and remainder are unique. */
  lemma DivModUnique(x: int, q: int, r: int, n: int)
    requires n > 0 && x == q * n + r && 0 <= r < n
    ensures x / n == q && x % n == r
  {
    var q' := x / n;
    assert (q - q') * n == x % n - r;
    if q > q' {
      MulAtLeast(q - q', n);
    } else if q < q' {
      MulAtLeast(q' - q, n);
    }
  }

  lemma SmallMod(r: int, n: int)
    requires 0 <= r < n
    ensures r % n == r
  {
  }

  lemma ModShift(a: int, k: int, n: int)
    requires n > 0
    ensures (a + k * n) % n == a % n
  {
    var q, r := a / n, a % n;
    assert a + k * n == (q + k) * n + r;
    DivModUnique(a + k * n, q + k, r, n);
  }

  lemma EqModDiff(a: int, b: int, n: int)
    requires n > 0 && a % n == b % n
    ensures (a - b) % n == 0
  {
    var qa, qb := a / n, b / n;
    DivMod(a, n);
    DivMod(b, n);
    DistributeSub(n, qa, qb);
    DivModUnique(a - b, qa - qb, 0, n);
  }

  /** Equal residues differ by a multiple of the modulus, and conversely. */
  lemma ModEqDiff(a: int, b: int, n: int)
    requires n > 0
    ensures a % n == b % n <==> (a - b) % n == 0
  {
    if a % n == b % n {
      EqModDiff(a, b, n);
    } else if (a - b) % n == 0 {
      var k := (a - b) / n;
      DivMod(a - b, n);
      ModShift(b, k, n);
    }
  }

  lemma ModAdd(a: int, b: int, n: int)
    requires n > 0
    ensures (a + b) % n == (a % n + b % n) % n
  {
    assert a + b == (a % n + b % n) + (a / n + b / n) * n;
    ModShift(a % n + b % n, a / n + b / n, n);
  }

  lemma ModMulLeft(a: int, b: int, n: int)
    requires n > 0
    ensures (a * b) % n == ((a % n) * b) % n
  {
    assert a * b == (a % n) * b + (a / n * b) * n;
    ModShift((a % n) * b, a / n * b, n);
  }

  lemma ModMul(a: int, b: int, n: int)
    requires n > 0
    ensures (a * b) % n == ((a % n) * (b % n)) % n
  {
    ModMulLeft(a, b, n);
    var c := a % n;
    assert c * b == b * c;
    ModMulLeft(b, c, n);
    assert (b % n) * c == c * (b % n);
  }

  // ----- Primes -----

  lemma MultipleDivides(p: int, m: int)
    requires p > 0
    ensures Divides(p, m * p) && Divides(p, p * m)
  {
    ModShift(0, m, p);
  }

  /** Euclid's lemma for a factor already reduced below p. */
  lemma {:induction false} EuclidReduced(p: int, a: int, b: int)
    requires IsPrime(p) && 1 <= a < p && Divides(p, a * b)
    ensures Divides(p, b)
    decreases a
  {
    if a > 1 {
      var q, r := p / a, p % a;
      assert !Divides(a, p);
      assert r * b == b * p - q * (a * b);
      var m := a * b / p;
      assert a * b == m * p;
      assert q * (a * b) == (q * m) * p by { assert q * (m * p) == (q * m) * p; }
      assert r * b == 0 + (b - q * m) * p;
      ModShift(0, b - q * m, p);
      EuclidReduced(p, r, b);
    }
  }

  lemma Euclid(p: int, a: int, b: int)
    requires IsPrime(p) && Divides(p, a * b)
    ensures Divides(p, a) || Divides(p, b)
  {
    if !Divides(p, a) {
      ModMulLeft(a, b, p);
      EuclidReduced(p, a % p, b);
    }
  }

  /** A number above 1 that is not prime has a divisor whose square does not exceed it. */
  lemma SmallDivisor(n: int) returns (d: int)
    requires n >= 2 && !IsPrime(n)
    ensures 2 <= d && d * d <= n && Divides(d, n)
  {
    d :| 2 <= d < n && Divides(d, n);
    if d * d > n {
      var q := n / d;
      DivMod(n, d);
      assert n == q * d;
      Cofactor(d, q);
      MultipleDivides(q, d);
      d := q;
    }
  }

  lemma Cofactor(d: int, q: int)
    requires 2 <= d < q * d < d * d
    ensures 2 <= q < d && q * q <= q * d
  {
    if q <= 0 { Distribute(d, -q, q); MulNonneg(-q, d); }
    if q >= d { Distribute(d, d, q - d); MulNonneg(q - d, d); }
    Distribute(q, q, d - q);
    MulNonneg(q, d - q);
  }

  lemma MulNonneg(a: int, b: int)
    requires a >= 0 && b >= 0
    ensures a * b >= 0
  {
  }

  lemma DividesTransitive(a: int, b: int, c: int)
    requires a > 0 && b > 0 && Divides(a, b) && Divides(b, c)
    ensures Divides(a, c)
  {
    var m, k := b / a, c / b;
    Associate(k, m, a);
    assert c == (k * m) * a;
    MultipleDivides(a, k * m);
  }

  function Factorial(n: nat): (f: nat)
    ensures f >= 1
  {
    if n == 0 then 1 else MulAtLeast(n, Factorial(n - 1)); n * Factorial(n - 1)
  }

  lemma {:induction false} FactorialDivisible(n: nat, d: nat)
    requires 1 <= d <= n
    ensures Divides(d, Factorial(n))
  {
    if d == n {
      MultipleDivides(n, Factorial(n - 1));
    } else {
      FactorialDivisible(n - 1, d);
      MultipleDivides(Factorial(n - 1), n);
      DividesTransitive(d, Factorial(n - 1), Factorial(n));
    }
  }

  /** Some prime divides every number above 1. */
  lemma {:induction false} PrimeDivisor(m: int) returns (q: int)
    requires m >= 2
    ensures IsPrime(q) && Divides(q, m) && q <= m
    decreases m
  {
    if IsPrime(m) {
      q := m;
    } else {
      var d :| 2 <= d < m && Divides(d, m);
      q := PrimeDivisor(d);
      DividesTransitive(q, d, m);
    }
  }

  /** Primes never run out. */
  lemma PrimeAbove(n: nat) returns (q: int)
    ensures IsPrime(q) && q > n
  {
    q := PrimeDivisor(Factorial(n) + 1);
    if q <= n {
      FactorialDivisible(n, q);
      ModEqDiff(Factorial(n) + 1, Factorial(n), q);
      SmallMod(1, q);
    }
  }

  // ----- Binomial coefficients -----

  function Choose(n: nat, k: nat): nat {
    if k == 0 then 1 else if n == 0 then 0 else Choose(n - 1, k - 1) + Choose(n - 1, k)
  }

  lemma {:induction false} ChooseAbove(n: nat, k: nat)
    requires k > n
    ensures Choose(n, k) == 0
  {
    if n > 0 {
      ChooseAbove(n - 1, k - 1);
      ChooseAbove(n - 1, k);
    }
  }

  lemma {:induction false} ChooseAll(n: nat)
    ensures Choose(n, n) == 1
  {
    if n > 0 {
      ChooseAll(n - 1);
      ChooseAbove(n - 1, n);
    }
  }

  lemma {:induction false} ChooseAbsorb(n: nat, k: nat)
    requires n >= 1 && k >= 1
    ensures k * Choose(n, k) == n * Choose(n - 1, k - 1)
  {
    if n == 1 {
      if k > 1 { ChooseAbove(1, k); ChooseAbove(0, k - 1); }
    } else {
      var c, d := Choose(n - 1, k - 1), Choose(n - 2, k - 1);
      ChooseAbsorb(n - 1, k);
      Distribute(k, c, Choose(n - 1, k));
      Distribute(c, k - 1, 1);
      Distribute(c, n - 1, 1);
      if k > 1 {
        ChooseAbsorb(n - 1, k - 1);
        Distribute(n - 1, Choose(n - 2, k - 2), d);
      }
    }
  }

  /** A prime divides every binomial coefficient strictly inside its row. */
  lemma PrimeDividesChoose(p: int, k: nat)
    requires IsPrime(p) && 1 <= k < p
    ensures Divides(p, Choose(p, k))
  {
    ChooseAbsorb(p, k);
    MultipleDivides(p, Choose(p - 1, k - 1));
    var c := Choose(p, k);
    assert Divides(p, k * c);
    SmallMod(k, p);
    Euclid(p, k, c);
  }

  /** Sum of the terms Choose(n, j) * a^j for j up to k. */
  function BinomialSum(n: nat, a: int, k: nat): int {
    if k == 0 then 1 else BinomialSum(n, a, k - 1) + Choose(n, k) * Pow(a, k)
  }

  lemma {:induction false} BinomialSumStep(n: nat, a: int, k: nat)
    ensures BinomialSum(n + 1, a, k + 1) ==
            BinomialSum(n, a, k + 1) + a * BinomialSum(n, a, k)
  {
    if k == 0 {
      assert Pow(a, 1) == a * Pow(a, 0);
      Distribute(a, Choose(n, 0), Choose(n, 1));
    } else {
      BinomialSumStep(n, a, k - 1);
      var u, v, x := Choose(n, k), Choose(n, k + 1), Pow(a, k);
      Distribute(Pow(a, k + 1), u, v);
      Associate(u, a, x);
      Distribute(a, BinomialSum(n, a, k - 1), u * x);
    }
  }

  lemma {:induction false} BinomialTheorem(n: nat, a: int)
    ensures BinomialSum(n, a, n) == Pow(a + 1, n)
  {
    if n > 0 {
      BinomialTheorem(n - 1, a);
      BinomialSumStep(n - 1, a, n - 1);
      ChooseAbove(n - 1, n);
      Distribute(BinomialSum(n - 1, a, n - 1), a, 1);
    }
  }

  // ----- Fermat's little theorem -----

  lemma AddMultipleMod(s: int, c: int, x: int, p: int)
    requires p > 0 && Divides(p, c)
    ensures (s + c * x) % p == s % p
  {
    var m := c / p;
    Associate(m, p, x);
    Associate(m, x, p);
    ModShift(s, m * x, p);
  }

  lemma {:induction false} BinomialSumModPrime(p: int, a: int, k: nat)
    requires IsPrime(p) && k < p
    ensures BinomialSum(p, a, k) % p == 1
  {
    if k == 0 {
      SmallMod(1, p);
    } else {
      BinomialSumModPrime(p, a, k - 1);
      PrimeDividesChoose(p, k);
      AddMultipleMod(BinomialSum(p, a, k - 1), Choose(p, k), Pow(a, k), p);
    }
  }

  lemma {:induction false} FermatPower(p: int, a: nat)
    requires IsPrime(p)
    ensures Pow(a, p) % p == a % p
  {
    if a == 0 {
      assert Pow(0, p) == 0 * Pow(0, p - 1);
    } else {
      FermatPower(p, a - 1);
      BinomialTheorem(p, a - 1);
      BinomialSumModPrime(p, a - 1, p - 1);
      ChooseAll(p);
      var s := BinomialSum(p, a - 1, p - 1);
      assert Pow(a, p) == s + Pow(a - 1, p);
      ModAdd(s, Pow(a - 1, p), p);
      ModAdd(1, a - 1, p);
      ModAdd(s, a - 1, p);
      assert 1 % p == 1;
    }
  }

  lemma Fermat(p: int, a: int)
    requires IsPrime(p) && 1 <= a < p
    ensures Pow(a, p - 1) % p == 1
  {
    FermatPower(p, a);
    var y := Pow(a, p - 1);
    assert Pow(a, p) == a * y;
    CancelFactor(p, a, y);
  }

  lemma CancelFactor(p: int, a: int, y: int)
    requires IsPrime(p) && 1 <= a < p && (a * y) % p == a % p
    ensures y % p == 1
  {
    SmallMod(a, p);
    SmallMod(1, p);
    ModEqDiff(a * y, a, p);
    Distribute(a, y, -1);
    assert a * y - a == a * (y - 1);
    Euclid(p, a, y - 1);
    ModEqDiff(y, 1, p);
  }

  lemma {:induction false} PowAdd(a: int, m: nat, n: nat)
    ensures Pow(a, m + n) == Pow(a, m) * Pow(a, n)
  {
    if m > 0 {
      PowAdd(a, m - 1, n);
      var x, y := Pow(a, m - 1), Pow(a, n);
      assert a * (x * y) == (a * x) * y;
    }
  }
}
