/** The Fibonacci table of the spiral generator (SpiralMaker.cs, lines 80-93):
    an array of C# `long` filled by a two-variable additive recurrence. */
module Fibonacci {

  /** C#'s 64-bit signed `long` */
  newtype i64 = x: int | -0x8000_0000_0000_0000 <= x <= 0x7FFF_FFFF_FFFF_FFFF

  const MinLong: int := -0x8000_0000_0000_0000
  const MaxLong: int := 0x7FFF_FFFF_FFFF_FFFF
  const TwoTo64: int := 0x1_0000_0000_0000_0000

  /** The largest index whose Fibonacci number a `long` holds (proved by `LongLimit`) */
  const ExactLimit: nat := 92

  /** The mathematical Fibonacci numbers, F(1) = F(2) = 1 */
  function Fib(n: nat): nat {
    if n == 0 then 0 else if n == 1 then 1 else Fib(n - 1) + Fib(n - 2)
  }

  /** F(1) + ... + F(n) */
  function FibSum(n: nat): nat {
    if n == 0 then 0 else FibSum(n - 1) + Fib(n)
  }

  function Pow2(n: nat): nat {
    if n == 0 then 1 else 2 * Pow2(n - 1)
  }

  /** `a + b` on C# `long`s in the default unchecked context: the exact sum
      reduced to the `long` range modulo 2^64. */
  function AddLong(a: i64, b: i64): (r: i64)
    ensures MinLong <= a as int + b as int <= MaxLong ==> r as int == a as int + b as int
  {
    var m := (a as int + b as int) % TwoTo64;
    if m <= MaxLong then m as i64 else (m - TwoTo64) as i64
  }

  /** Whether or not it overflows, `a + b` on `long`s differs from the exact
      sum by a multiple of 2^64. */
  lemma AddLongWraps(a: i64, b: i64)
    ensures (AddLong(a, b) as int - (a as int + b as int)) % TwoTo64 == 0
  {
  }

  /** `x` holds F(n), provided F(n) lies within the range the table keeps
      exact */
  predicate ExactFib(x: i64, n: nat) {
    n <= ExactLimit ==> x as int == Fib(n)
  }

  /** The table loop: `fib[i] = b` followed by `(a, b) = (b, a + b)`. The array
      has one unused slot 0, which keeps the zero C# gives it. */
  method FibonacciTable(steps: nat) returns (fib: array<i64>)
    ensures fib.Length == steps + 1
    ensures fib[0] == 0
    ensures forall i :: 1 <= i <= steps && i <= ExactLimit ==> fib[i] as int == Fib(i)
  {
    fib := new i64[steps + 1](_ => 0);
    var a: i64, b: i64 := 0, 1;
    for i := 1 to steps + 1
      invariant fib[0] == 0
      invariant ExactFib(a, i - 1) && ExactFib(b, i)
      invariant forall j :: 1 <= j < i ==> ExactFib(fib[..i][j], j)
    {
      ghost var filled := fib[..i];
      fib[i] := b;
      assert fib[..i + 1] == filled + [b];
      var next := AddLong(a, b);
      NextIsFib(i, a, b);
      a := b;
      b := next;
    }
    assert fib[..steps + 1] == fib[..];
  }

  /** One turn of the table loop: from F(i - 1) and F(i) the `long` sum
      gives F(i + 1) exactly. */
  lemma NextIsFib(i: nat, a: i64, b: i64)
    requires 1 <= i
    requires ExactFib(a, i - 1) && ExactFib(b, i)
    ensures ExactFib(AddLong(a, b), i + 1)
  {
    if i + 1 <= ExactLimit {
      NextFitsInLong(i);
    }
  }

  /** While the table is exact, `a + b` does not wrap. */
  lemma NextFitsInLong(i: nat)
    requires 1 <= i && i + 1 <= ExactLimit
    ensures Fib(i - 1) + Fib(i) <= MaxLong
  {
    FibMonotone(i + 1, ExactLimit);
    LongLimit();
  }

  /** Every table entry F(1), F(2), ... is at least 1. */
  lemma {:induction false} FibPositive(n: nat)
    requires n >= 1
    ensures Fib(n) >= 1
  {
    if n > 2 {
      FibPositive(n - 1);
    }
  }

  lemma {:induction false} FibMonotone(m: nat, n: nat)
    requires m <= n
    ensures Fib(m) <= Fib(n)
  {
    if m < n {
      FibMonotone(m, n - 1);
    }
  }

  /** F(1) + ... + F(n) = F(n + 2) - 1 */
  lemma {:induction false} FibSumClosedForm(n: nat)
    ensures FibSum(n) == Fib(n + 2) - 1
  {
    if n > 0 {
      FibSumClosedForm(n - 1);
    }
  }

  /** F(n) < 2^n */
  lemma {:induction false} FibBelowPow2(n: nat)
    ensures Fib(n) < Pow2(n)
  {
    if n >= 2 {
      FibBelowPow2(n - 1);
      FibBelowPow2(n - 2);
    }
  }

  /** The addition formula F(m + n + 1) = F(m + 1) F(n + 1) + F(m) F(n). */
  lemma {:induction false} FibAddition(m: nat, n: nat)
    ensures Fib(m + n + 1) == Fib(m + 1) * Fib(n + 1) + Fib(m) * Fib(n)
  {
    var a, b := Fib(m + 1), Fib(m);
    if n == 0 {
      assert Fib(1) == 1;
    } else if n == 1 {
      assert Fib(2) == 1;
      assert Fib(m + 2) == a + b;
    } else {
      FibAddition(m, n - 1);
      FibAddition(m, n - 2);
      AdditionStep(a, b, Fib(n), Fib(n - 1), Fib(n - 2), Fib(m + n), Fib(m + n - 1),
                   Fib(m + n + 1), Fib(n + 1));
    }
  }

  /** The induction step of `FibAddition` over plain integers: if
      s1 = a x1 + b y1, s2 = a y1 + b z, f = s1 + s2, g = x1 + y1 and
      x1 = y1 + z, then f = a g + b x1. */
  lemma AdditionStep(a: int, b: int, x1: int, y1: int, z: int, s1: int, s2: int, f: int, g: int)
    requires s1 == a * x1 + b * y1 && s2 == a * y1 + b * z
    requires f == s1 + s2 && g == x1 + y1 && x1 == y1 + z
    ensures f == a * g + b * x1
  {
  }

  /** A `long` holds F(92) but not F(93): the table is exact up to index 92,
      and the `a + b` computed after storing F(92) is the first to wrap. */
  lemma LongLimit()
    ensures Fib(ExactLimit) <= MaxLong < Fib(ExactLimit + 1)
  {
    FibValues45to47();
    FibAddition(45, 46);
    FibAddition(46, 46);
    var f45, f46, f47 := Fib(45), Fib(46), Fib(47);
    assert Fib(92) == f46 * f47 + f45 * f46;
    assert Fib(93) == f47 * f47 + f46 * f46;
  }

  lemma FibValues1to3()
    ensures Fib(1) == 1 && Fib(2) == 1 && Fib(3) == 2
  {
  }

  lemma FibValues10to13()
    ensures Fib(10) == 55 && Fib(11) == 89 && Fib(12) == 144 && Fib(13) == 233
  {
    assert Fib(5) == 5 && Fib(6) == 8;
    assert Fib(8) == 21 && Fib(9) == 34;
  }

  lemma FibValues22to24()
    ensures Fib(22) == 17711 && Fib(23) == 28657 && Fib(24) == 46368
  {
    FibValues10to13();
    FibAddition(10, 11);
    FibAddition(11, 11);
    FibAddition(11, 12);
    var f10, f11, f12, f13 := Fib(10), Fib(11), Fib(12), Fib(13);
    assert Fib(22) == f11 * f12 + f10 * f11;
    assert Fib(23) == f12 * f12 + f11 * f11;
    assert Fib(24) == f12 * f13 + f11 * f12;
  }

  lemma FibValues45to47()
    ensures Fib(45) == 1134903170 && Fib(46) == 1836311903 && Fib(47) == 2971215073
  {
    FibValues22to24();
    Fib45();
    Fib46();
    Fib47();
  }

  lemma Fib45()
    requires Fib(22) == 17711 && Fib(23) == 28657
    ensures Fib(45) == 1134903170
  {
    FibAddition(22, 22);
  }

  lemma Fib46()
    requires Fib(22) == 17711 && Fib(23) == 28657 && Fib(24) == 46368
    ensures Fib(46) == 1836311903
  {
    FibAddition(22, 23);
  }

  lemma Fib47()
    requires Fib(23) == 28657 && Fib(24) == 46368
    ensures Fib(47) == 2971215073
  {
    FibAddition(23, 23);
  }

  lemma {:induction false} Pow2Add(a: nat, b: nat)
    ensures Pow2(a + b) == Pow2(a) * Pow2(b)
  {
    if a > 0 {
      Pow2Add(a - 1, b);
      assert Pow2(a + b) == 2 * Pow2(a - 1 + b);
    }
  }

  /** 2^52 */
  lemma Pow2Value52()
    ensures Pow2(52) == 0x10_0000_0000_0000
  {
    assert Pow2(13) == 8192;
    Pow2Add(13, 13);
    Pow2Add(26, 26);
  }
}
