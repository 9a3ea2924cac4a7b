/** The benchmark's recursive Fibonacci function, with Python's unbounded
    integers. */
module Bench {
  /** `fibonacci` as written: every `n` below 2, negatives included, is
      returned unchanged; from 2 up it is the sum of the two before. */
  function Fibonacci(n: int): (r: int)
    ensures n >= 0 ==> r >= 0
    ensures n >= 1 ==> r >= 1
    decreases n
  {
    if n < 2 then n else Fibonacci(n - 1) + Fibonacci(n - 2)
  }

  /** The Fibonacci numbers as usually defined, on the naturals only:
      F(0) = 0, F(1) = 1, F(k + 2) = F(k + 1) + F(k). */
  function Standard(n: nat): nat {
    match n
    case 0 => 0
    case 1 => 1
    case _ => Standard(n - 1) + Standard(n - 2)
  }

  /** On the naturals `fibonacci` is the Fibonacci sequence; below zero it
      is the identity. */
  lemma {:induction false} FibonacciIsStandard(n: int)
    ensures n >= 0 ==> Fibonacci(n) == Standard(n)
    ensures n < 0 ==> Fibonacci(n) == n
    decreases n
  {
    if n >= 2 {
      FibonacciIsStandard(n - 1);
      FibonacciIsStandard(n - 2);
    }
  }

  /** The recurrence holds from 2 up, and only there: at 1 the function
      gives 1 although the two values before it sum to -1. */
  lemma FibonacciRecurrence(n: int)
    ensures n >= 2 ==> Fibonacci(n) == Fibonacci(n - 1) + Fibonacci(n - 2)
    ensures Fibonacci(1) != Fibonacci(0) + Fibonacci(-1)
  {
  }

  /** From 0 on the sequence never decreases. */
  lemma {:induction false} FibonacciMonotone(n: nat)
    ensures Fibonacci(n) <= Fibonacci(n + 1)
  {
    if n >= 1 {
      assert Fibonacci(n + 1) == Fibonacci(n) + Fibonacci(n - 1);
    }
  }

  /** The value the benchmark prints. */
  lemma Printed()
    ensures Fibonacci(30) == 832040
  {
    assert Fibonacci(5) == 5;
    assert Fibonacci(10) == 55;
    assert Fibonacci(15) == 610;
    assert Fibonacci(20) == 6765;
    assert Fibonacci(25) == 75025;
  }

  /** The same function computed bottom-up in linear time, the way the
      naive recursion's result is usually cross-checked. */
  method FibonacciLoop(n: int) returns (r: int)
    ensures r == Fibonacci(n)
  {
    if n < 2 {
      return n;
    }
    var prev, cur := 0, 1;
    var i := 1;
    while i < n
      invariant 1 <= i <= n
      invariant prev == Fibonacci(i - 1) && cur == Fibonacci(i)
      decreases n - i
    {
      prev, cur := cur, prev + cur;
      i := i + 1;
    }
    r := cur;
  }
}
