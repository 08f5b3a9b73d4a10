/** The Miller-Rabin witness of DSAAC/fig10_62.c. */
module Witness {
  import opened NumberTheory
  import opened Basics

  /** Computes a^i mod n, giving 0 as soon as a non-trivial square root of 1 turns up. */
  function Witness(a: int, i: nat, n: int): (y: int)
    requires n > 1 && a >= 0
    ensures 0 <= y < n
  {
    if i == 0 then 1
    else
      var x := Witness(a, i / 2, n);
      if x == 0 then 0
      else
        var y := (x * x) % n;
        if y == 1 && x != 1 && x != n - 1 then 0
        else if i % 2 != 0 then (a * y) % n
        else y
  }

  /** One squaring step keeps the residue of the power. */
  lemma HalvedPower(a: int, i: nat, n: int, x: int)
    requires n > 1 && i > 0 && x == Pow(a, i / 2) % n
    ensures i % 2 == 0 ==> Pow(a, i) % n == (x * x) % n
    ensures i % 2 != 0 ==> Pow(a, i) % n == (a * ((x * x) % n)) % n
  {
    var h := Pow(a, i / 2);
    PowAdd(a, i / 2, i / 2);
    ModMul(h, h, n);
    if i % 2 != 0 {
      var s := h * h;
      assert Pow(a, i) == a * s;
      ModMulLeft(s, a, n);
    }
  }

  predicate NontrivialRoot(x: int, n: int)
    requires n > 1
  {
    (x * x) % n == 1 && x != 1 && x != n - 1
  }

  /** The exponent i with its last t binary digits dropped. */
  function Shifted(i: nat, t: nat): nat {
    if t == 0 then i else Shifted(i / 2, t - 1)
  }

  /** Some proper binary prefix of the exponent lands on a non-trivial square root of 1. */
  ghost predicate MeetsRoot(a: int, i: nat, n: int)
    requires n > 1
  {
    exists t: nat :: t >= 1 && NontrivialRoot(Pow(a, Shifted(i, t)) % n, n)
  }

  lemma MeetsRootStep(a: int, i: nat, n: int)
    requires n > 1 && i > 0
    ensures MeetsRoot(a, i, n) <==> NontrivialRoot(Pow(a, i / 2) % n, n) || MeetsRoot(a, i / 2, n)
  {
    if MeetsRoot(a, i, n) {
      var t: nat :| t >= 1 && NontrivialRoot(Pow(a, Shifted(i, t)) % n, n);
      assert Shifted(i, t) == Shifted(i / 2, t - 1);
    }
    if NontrivialRoot(Pow(a, i / 2) % n, n) {
      assert Shifted(i, 1) == Shifted(i / 2, 0);
    }
    if MeetsRoot(a, i / 2, n) {
      var t: nat :| t >= 1 && NontrivialRoot(Pow(a, Shifted(i / 2, t)) % n, n);
      assert Shifted(i, t + 1) == Shifted(i / 2, t);
    }
  }

  lemma {:induction false} ShiftedZero(t: nat)
    ensures Shifted(0, t) == 0
  {
    if t > 0 { ShiftedZero(t - 1); }
  }

  /** Witness is modular exponentiation, except that it answers 0 exactly when some
      squaring on the way meets a non-trivial square root of 1. */
  lemma {:induction false} WitnessExact(a: int, i: nat, n: int)
    requires n > 1 && a >= 0
    ensures Witness(a, i, n) == if MeetsRoot(a, i, n) then 0 else Pow(a, i) % n
  {
    if i == 0 {
      SmallMod(1, n);
      forall t: nat | t >= 1 ensures !NontrivialRoot(Pow(a, Shifted(0, t)) % n, n) {
        ShiftedZero(t);
      }
    } else {
      WitnessExact(a, i / 2, n);
      MeetsRootStep(a, i, n);
      HalvedPower(a, i, n, Pow(a, i / 2) % n);
      SmallMod(0, n);
    }
  }

  /** A nonzero result is exactly the residue of a^i. */
  lemma NonzeroIsPower(a: int, i: nat, n: int)
    requires n > 1 && a >= 0
    ensures Witness(a, i, n) != 0 ==> Witness(a, i, n) == Pow(a, i) % n
  {
    WitnessExact(a, i, n);
  }

  /** Modulo a prime, 1 has only the trivial square roots. */
  lemma SquareRootsOfOne(p: int, x: int)
    requires IsPrime(p) && 0 < x < p && (x * x) % p == 1
    ensures x == 1 || x == p - 1
  {
    SmallMod(1, p);
    ModEqDiff(x * x, 1, p);
    RootFactors(x);
    assert Divides(p, (x - 1) * (x + 1));
    Euclid(p, x - 1, x + 1);
    if x != 1 && x != p - 1 {
      SmallMod(x - 1, p);
      SmallMod(x + 1, p);
    }
  }

  lemma RootFactors(x: int)
    ensures x * x - 1 == (x - 1) * (x + 1)
  {
    Distribute(x + 1, x, -1);
    Distribute(x, x, 1);
  }

  lemma {:induction false} PowNotDivisible(p: int, a: int, i: nat)
    requires IsPrime(p) && 1 <= a < p
    ensures Pow(a, i) % p != 0
  {
    if i > 0 {
      PowNotDivisible(p, a, i - 1);
      ProductNotDivisible(p, a, Pow(a, i - 1));
    }
  }

  lemma {:induction false} ProductNotDivisible(p: int, a: int, b: int)
    requires IsPrime(p) && 1 <= a < p && !Divides(p, b)
    ensures !Divides(p, a * b)
  {
    if Divides(p, a * b) { EuclidReduced(p, a, b); }
  }

  /** Modulo a prime the search for square roots never fires, so Witness is modular exponentiation. */
  lemma PrimePower(p: int, a: int, i: nat)
    requires IsPrime(p) && 1 <= a < p
    ensures Witness(a, i, p) == Pow(a, i) % p != 0
  {
    PowNotDivisible(p, a, i);
    forall t: nat | t >= 1 ensures !NontrivialRoot(Pow(a, Shifted(i, t)) % p, p) {
      PowNotDivisible(p, a, Shifted(i, t));
      var x := Pow(a, Shifted(i, t)) % p;
      if (x * x) % p == 1 { SquareRootsOfOne(p, x); }
    }
    WitnessExact(a, i, p);
  }

  /** The result 1 for a prime and every base: any other result proves n composite. */
  lemma PrimePasses(p: int, a: int)
    requires IsPrime(p) && 1 <= a < p
    ensures Witness(a, p - 1, p) == 1
  {
    PrimePower(p, a, p - 1);
    Fermat(p, a);
  }

  /** A result other than 1 on the exponent n-1 proves n composite; so does a result 0 on any exponent. */
  lemma OtherResultProvesComposite(a: int, i: nat, n: int)
    requires n > 1 && 1 <= a < n
    ensures Witness(a, n - 1, n) != 1 ==> !IsPrime(n)
    ensures Witness(a, i, n) == 0 ==> !IsPrime(n)
  {
    if IsPrime(n) {
      PrimePasses(n, a);
      PrimePower(n, a, i);
    }
  }

  /** The bases from which IsPrime means to draw. */
  predicate IsBase(n: int, a: int) {
    2 <= a <= n - 2
  }

  /** The primality test on base a, which the source draws at random from 2 .. n-2:
      it rejects only composites, and accepts exactly when a^(n-1) = 1 mod n was reached
      without meeting a non-trivial square root of 1. */
  function PassesTest(n: int, a: int): (ok: bool)
    requires IsBase(n, a)
  {
    Witness(a, n - 1, n) == 1
  }

  lemma TestRejectsOnlyComposites(n: int, a: int)
    requires IsBase(n, a)
    ensures IsPrime(n) ==> PassesTest(n, a)
    ensures PassesTest(n, a) ==> Pow(a, n - 1) % n == 1
  {
    if IsPrime(n) { PrimePasses(n, a); }
    NonzeroIsPower(a, n - 1, n);
  }

  /** RandInt, where r is the value of rand( ); no value stands for a division by zero. */
  function RandInt(r: nat, low: int, high: int): (a: Option<int>)
    requires low <= high + 1
    ensures a == None <==> high - low + 1 == 0
    ensures a.Some? ==> low <= a.value <= high
  {
    if high - low + 1 == 0 then None else Some(r % (high - low + 1) + low)
  }

  /** IsPrime, which is documented for n >= 3. */
  function TestWith(n: int, r: nat): (ok: Option<bool>)
    requires n >= 3
  {
    var a := RandInt(r, 2, n - 2);
    if a == None then None else Some(PassesTest(n, a.value))
  }

  /** The documented range is too wide by its first number: for n = 3, whatever rand( ) gives, the range of bases is
      empty and the call divides by zero; for every other n it returns, and no prime is rejected. */
  lemma {:induction false} TestDefined(n: int, r: nat)
    requires n >= 3
    ensures TestWith(n, r) == None <==> n == 3
    ensures n == 3 <==> !exists a :: IsBase(n, a)
    ensures IsPrime(n) && n != 3 ==> TestWith(n, r) == Some(true)
  {
    if n > 3 {
      assert IsBase(n, 2);
      TestRejectsOnlyComposites(n, RandInt(r, 2, n - 2).value);
    }
  }

  /** Every base from 2 to n - 2 can be drawn, so a composite is rejected by some value of rand( ) exactly when one of
      these bases rejects it. */
  lemma {:induction false} EveryBaseDrawn(n: int, a: int) returns (r: nat)
    requires IsBase(n, a)
    ensures TestWith(n, r) == Some(PassesTest(n, a))
  {
    r := a - 2;
    SmallMod(r, n - 3);
  }

  /** A power of a divisor of n, with a positive exponent, is not 1 modulo n. */
  lemma {:induction false} DivisorPower(n: int, d: int, e: nat)
    requires 2 <= d <= n && Divides(d, n) && e >= 1
    ensures Pow(d, e) % n != 1
  {
    var x, y := Pow(d, e), Pow(d, e - 1);
    if x % n == 1 {
      var q, m := x / n, n / d;
      DivMod(x, n);
      DivMod(n, d);
      Associate(q, m, d);
      assert x == 1 + (q * m) * d;
      ModShift(1, q * m, d);
      SmallMod(1, d);
      MultipleDivides(d, y);
    }
  }

  /** A composite is rejected by some base in the range. */
  lemma {:induction false} RejectingBase(n: int) returns (a: int)
    requires n > 3 && !IsPrime(n)
    ensures IsBase(n, a) && !PassesTest(n, a)
  {
    a := SmallDivisor(n);
    Distribute(a, 2, a - 2);
    MulNonneg(a, a - 2);
    DivisorPower(n, a, n - 1);
    TestRejectsOnlyComposites(n, a);
  }

  /** From 4 on the test on all bases decides primality: no base rejects a prime, and some base rejects a composite. */
  lemma {:induction false} AllBasesDecide(n: int)
    requires n > 3
    ensures IsPrime(n) <==> forall a :: IsBase(n, a) ==> PassesTest(n, a)
    ensures IsPrime(n) <==> forall r :: TestWith(n, r) == Some(true)
  {
    if IsPrime(n) {
      forall a | IsBase(n, a) ensures PassesTest(n, a) { TestRejectsOnlyComposites(n, a); }
      forall r: nat ensures TestWith(n, r) == Some(true) { TestDefined(n, r); }
    } else {
      var a := RejectingBase(n);
      var r := EveryBaseDrawn(n, a);
      assert TestWith(n, r) != Some(true);
    }
  }
}
