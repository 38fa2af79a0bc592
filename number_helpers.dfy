/** Predicates and arithmetic on unary numerals. */
module NumberHelpers {
  import opened UtilityTypes

  /** `IsEven<N>`: peels two placeholders at a time off `BuildTuple<N>`;
      nothing left means even, a single one left means odd. */
  function IsEven(n: nat): (r: bool)
    ensures r <==> n % 2 == 0
    decreases n
  {
    var t := BuildTuple(n);
    if |t| >= 2 then IsEven(|t[2..]|)
    else if |t| == 1 then false
    else true
  }

  /** The peeling rule: zero is even, one is not, and two more placeholders
      change nothing. */
  lemma IsEvenPeelsTwo(n: nat)
    ensures IsEven(0) && !IsEven(1)
    ensures IsEven(n + 2) == IsEven(n)
  {
  }

  /** `IsOdd<N>`: the negation of `IsEven<N>`. */
  function IsOdd(n: nat): (r: bool)
    ensures r <==> n % 2 == 1
  {
    if IsEven(n) then false else true
  }

  /** A number is odd exactly when it is not even. */
  lemma OddIsNotEven(n: nat)
    ensures IsOdd(n) != IsEven(n)
  {
  }

  /** `OddOrEven<N>`: the tag `"even"` or `"odd"`. */
  function OddOrEven(n: nat): (r: string)
    ensures r == "even" || r == "odd"
    ensures r == "even" <==> n % 2 == 0
  {
    if IsEven(n) then "even" else "odd"
  }

  /** The larger of two numbers. */
  function Max(a: nat, b: nat): (r: nat)
  {
    if a >= b then a else b
  }

  /** `Greater<N, T>`: `N` when `BuildTuple<T>` is a prefix of
      `BuildTuple<N>` (so a tie goes to the first argument), otherwise `T`. */
  function Greater(n: nat, t: nat): (r: nat)
    ensures r == Max(n, t)
    ensures r == n <==> n >= t
    ensures r >= n && r >= t
  {
    PrefixIsAtMost(BuildTuple(t), BuildTuple(n));
    if BuildTuple(t) <= BuildTuple(n) then n else t
  }

  /** `GreatestOfThree<A, B, C>`: compares the winner of `A` and `B` with `C`,
      ties favouring the earlier operand. */
  function GreatestOfThree(a: nat, b: nat, c: nat): (r: nat)
    ensures r == Max(Max(a, b), c)
    ensures r == a || r == b || r == c
    ensures r >= a && r >= b && r >= c
  {
    if Greater(a, b) == a then
      (if Greater(a, c) == a then a else c)
    else
      (if Greater(b, c) == b then b else c)
  }

  /** `Multiply<A, B, Result>`: appends `BuildTuple<A>` to the accumulator
      `b` times, counting `b` down with `Subtract<B, 1>`. */
  function MultiplyAcc(a: nat, b: nat, result: Tuple): (r: nat)
    ensures r == |result| + a * b
    decreases b
  {
    if b == 0 then |result|
    else
      var rest := Subtract(b, 1);
      MultiplyAcc(a, rest.value, result + BuildTuple(a))
  }

  /** `Multiply<A, B>`, the accumulator starting empty. */
  function Multiply(a: nat, b: nat): (r: nat)
    ensures r == a * b
  {
    MultiplyAcc(a, b, [])
  }

  /** Multiplying by zero gives zero, and one more round of the accumulator
      adds `a` once more. */
  lemma MultiplyStep(a: nat, b: nat)
    ensures Multiply(a, 0) == 0
    ensures b > 0 ==> Multiply(a, b) == Add(Multiply(a, b - 1), a)
  {
  }

  /** The textbook factorial. */
  function Fact(n: nat): (r: nat)
  {
    if n == 0 then 1 else n * Fact(n - 1)
  }

  /** `Factorial<N, Acc>`: multiplies the accumulator by `N`, `N - 1`, ..., `1`. */
  function FactorialAcc(n: nat, acc: nat): (r: nat)
    ensures r == acc * Fact(n)
    decreases n
  {
    if n == 0 then acc
    else
      var m := Subtract(n, 1);
      assert acc * n * Fact(n - 1) == acc * Fact(n);
      FactorialAcc(m.value, Multiply(acc, n))
  }

  /** `Factorial<N>`, the accumulator starting at one. */
  function Factorial(n: nat): (r: nat)
    ensures r == Fact(n)
    ensures n == 0 ==> r == 1
    ensures r >= 1
  {
    FactOneAtLeast(n);
    FactorialAcc(n, 1)
  }

  /** Every factorial is at least one. */
  lemma {:induction false} FactOneAtLeast(n: nat)
    ensures Fact(n) >= 1
  {
    if n > 0 {
      FactOneAtLeast(n - 1);
    }
  }
}
