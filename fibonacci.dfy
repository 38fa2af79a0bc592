/** The linear, pair-accumulating Fibonacci. */
module FibonacciNumbers {
  import opened UtilityTypes

  /** The textbook Fibonacci recurrence. */
  function Fib(n: nat): (r: nat)
  {
    if n < 2 then n else Fib(n - 2) + Fib(n - 1)
  }

  /** `Fibonacci<N, A, B, I>`: while the counter `I` is shorter than `N`,
      moves `(A, B)` to `(B, A + B)` (the sum passed through `ToNumber`) and
      prepends one placeholder to `I`. The type-level definition does not stop
      for a counter already longer than `N`; that start is excluded.
      The accumulator invariant: a pair holding `fib(|I|)` and `fib(|I| + 1)`
      leads to `fib(N)`. */
  function FibonacciAcc(n: nat, a: nat, b: nat, i: Tuple): (r: nat)
    requires |i| <= n
    ensures a == Fib(|i|) && b == Fib(|i| + 1) ==> r == Fib(n)
    decreases n - |i|
  {
    if |i| == n then a
    else
      var sum := ToNumber(NumberType(Add(a, b)));
      FibonacciAcc(n, b, sum.value, [()] + i)
  }

  /** `Fibonacci<N>`: the pair starts at `(0, 1)` and the counter empty. */
  function Fibonacci(n: nat): (r: nat)
    ensures r == Fib(n)
  {
    FibonacciAcc(n, 0, 1, [])
  }

  /** The two seeds and the recurrence. */
  lemma FibonacciRecurrence(n: nat)
    ensures Fibonacci(0) == 0 && Fibonacci(1) == 1
    ensures Fibonacci(n + 2) == Fibonacci(n) + Fibonacci(n + 1)
  {
  }
}
