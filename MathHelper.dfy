// The growth sequence that sets how many monsters a round spawns.
//
// The C# helper is compiled with FIBONACCI_RECURSIVE defined, so the
// recursive variant is the one the game runs; the iterative variant sits in
// the #else branch. Both compute on C# `int`, whose additions wrap around
// silently (unchecked context), so the model wraps them explicitly and
// compares them with the unbounded reference sequence Fib.
module MathHelper {

  const Int32Min: int := -0x8000_0000
  const Int32Max: int := 0x7fff_ffff

  /** A C# `int` value. */
  type int32 = x: int | -0x8000_0000 <= x <= 0x7fff_ffff

  /** Two's-complement wrap-around of an unbounded integer into `int`. */
  function Int32Wrap(x: int): (r: int32)
    ensures Int32Min <= x <= Int32Max ==> r == x
    ensures Int32Max < x <= 2 * Int32Max + 1 ==> r == x - 0x1_0000_0000
    ensures 2 * Int32Min <= x < Int32Min ==> r == x + 0x1_0000_0000
  {
    (x + 0x8000_0000) % 0x1_0000_0000 - 0x8000_0000
  }

  /** The reference sequence: F(0) = 0, F(1) = 1, F(n) = F(n-1) + F(n-2). */
  function Fib(n: nat): nat
  {
    if n <= 1 then n else Fib(n - 1) + Fib(n - 2)
  }

  /** The compiled variant: any n <= 1, negative ones included, is its own
      result; every other value is the wrapped sum of the two before it. */
  function Fibonacci(n: int32): int32
    decreases n
  {
    if n <= 1 then n else Int32Wrap(Fibonacci(n - 1) + Fibonacci(n - 2))
  }

  /** The alternative variant: a loop that keeps the last two values in
      `a` and `b`. It returns 0 for n == 0 and `b` otherwise, which is 1
      whenever the loop does not run (n == 1 and every negative n). */
  method FibonacciIterative(n: int32) returns (r: int32)
    ensures n >= 0 ==> r == Fibonacci(n)
    ensures n < 0 ==> r == 1
  {
    var a: int32, b: int32, c: int32 := 0, 1, 0;
    if n == 0 {
      return a;
    }
    var i := 2;
    while i <= n
      invariant i == 2 || 2 < i <= n + 1
      invariant a == Fibonacci(i - 2) && b == Fibonacci(i - 1)
    {
      c := Int32Wrap(a + b);
      a := b;
      b := c;
      i := i + 1;
    }
    r := b;
  }

  /** The reference sequence never decreases. */
  lemma {:induction false} FibMonotone(m: nat, n: nat)
    requires m <= n
    ensures Fib(m) <= Fib(n)
    decreases n - m
  {
    if m < n {
      FibMonotone(m + 1, n);
      if m >= 1 {
        assert Fib(m + 1) == Fib(m) + Fib(m - 1);
      }
    }
  }

  /** The largest reference value that fits in `int`, and the first one
      that does not. */
  lemma FibAround32Bits()
    ensures Fib(45) == 1134903170 && Fib(46) == 1836311903
    ensures Fib(46) <= Int32Max < Fib(47)
  {
    assert Fib(2) == 1;
    assert Fib(3) == 2;
    assert Fib(4) == 3;
    assert Fib(5) == 5;
    assert Fib(6) == 8;
    assert Fib(7) == 13;
    assert Fib(8) == 21;
    assert Fib(9) == 34;
    assert Fib(10) == 55;
    assert Fib(11) == 89;
    assert Fib(12) == 144;
    assert Fib(13) == 233;
    assert Fib(14) == 377;
    assert Fib(15) == 610;
    assert Fib(16) == 987;
    assert Fib(17) == 1597;
    assert Fib(18) == 2584;
    assert Fib(19) == 4181;
    assert Fib(20) == 6765;
    assert Fib(21) == 10946;
    assert Fib(22) == 17711;
    assert Fib(23) == 28657;
    assert Fib(24) == 46368;
    assert Fib(25) == 75025;
    assert Fib(26) == 121393;
    assert Fib(27) == 196418;
    assert Fib(28) == 317811;
    assert Fib(29) == 514229;
    assert Fib(30) == 832040;
    assert Fib(31) == 1346269;
    assert Fib(32) == 2178309;
    assert Fib(33) == 3524578;
    assert Fib(34) == 5702887;
    assert Fib(35) == 9227465;
    assert Fib(36) == 14930352;
    assert Fib(37) == 24157817;
    assert Fib(38) == 39088169;
    assert Fib(39) == 63245986;
    assert Fib(40) == 102334155;
    assert Fib(41) == 165580141;
    assert Fib(42) == 267914296;
    assert Fib(43) == 433494437;
    assert Fib(44) == 701408733;
    assert Fib(45) == 1134903170;
    assert Fib(46) == 1836311903;
  }

  /** For 0 <= n <= 46 no addition wraps: the compiled variant is exactly
      the reference sequence. */
  lemma {:induction false} FibonacciIsFib(n: int32)
    requires 0 <= n <= 46
    ensures Fibonacci(n) == Fib(n)
  {
    if n >= 2 {
      FibonacciIsFib(n - 1);
      FibonacciIsFib(n - 2);
      FibMonotone(n, 46);
      FibAround32Bits();
    }
  }

  /** The compiled variant equals the reference sequence exactly up to
      46: from 47 on the true value no longer fits in `int`. */
  lemma FibonacciExactIff(n: int32)
    requires n >= 0
    ensures Fibonacci(n) == Fib(n) <==> n <= 46
  {
    if n <= 46 {
      FibonacciIsFib(n);
    } else {
      FibAround32Bits();
      FibMonotone(47, n);
    }
  }

  /** Round 47 is the first whose spawn count wraps: the compiled variant
      returns F(47) - 2^32, a negative number. */
  lemma FibonacciWrapsAt47(n: int32)
    requires n == 47
    ensures Fibonacci(n) == Fib(n) - 0x1_0000_0000 < 0
  {
    FibonacciIsFib(n - 1);
    FibonacciIsFib(n - 2);
    FibAround32Bits();
  }

  /** Within the range that does not wrap, the compiled variant is
      non-negative and non-decreasing. */
  lemma FibonacciMonotone(m: int32, n: int32)
    requires 0 <= m <= n <= 46
    ensures 0 <= Fibonacci(m) <= Fibonacci(n)
  {
    FibonacciIsFib(m);
    FibonacciIsFib(n);
    FibMonotone(m, n);
  }

  /** The variants disagree on every negative argument: the recursive one
      returns n itself, the iterative one 1. */
  lemma VariantsDisagreeBelowZero(n: int32)
    requires n < 0
    ensures Fibonacci(n) == n && Fibonacci(n) != 1
  {
  }

  /** The reference values the growth sequence is documented with:
      F(4) = 3 and F(5) = 5 are the spawn counts of the first two rounds. */
  lemma FibSmallValues()
    ensures Fib(0) == 0 && Fib(1) == 1 && Fib(2) == 1 && Fib(3) == 2
    ensures Fib(4) == 3 && Fib(5) == 5 && Fib(10) == 55
  {
  }
}
