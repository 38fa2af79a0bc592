/** The literal instantiations the repository writes down, with the values
    its comments give for them. */
module Demo {
  import opened Wrappers
  import opened UtilityTypes
  import opened NumberHelpers
  import opened FibonacciNumbers
  import opened LinkedList
  import opened StringHelpers

  lemma FibonacciValues()
    ensures Fibonacci(0) == 0 && Fibonacci(1) == 1 && Fibonacci(2) == 1
    ensures Fibonacci(3) == 2 && Fibonacci(4) == 3 && Fibonacci(5) == 5
    ensures Fibonacci(6) == 8 && Fibonacci(7) == 13 && Fibonacci(8) == 21
    ensures Fibonacci(9) == 34
    ensures Fibonacci(10) == 55 && Fibonacci(16) == 987
  {
  }

  lemma ParityValues()
    ensures IsEven(6) && IsOdd(5) && !IsOdd(4)
    ensures OddOrEven(5) == "odd" && OddOrEven(4) == "even"
  {
  }

  lemma ComparisonValues()
    ensures Greater(1, 2) == 2 && Greater(100, 9) == 100 && Greater(999, 500) == 999
    ensures GreatestOfThree(1, 3, 2) == 3 && GreatestOfThree(1, 3, 4) == 4
    ensures GreatestOfThree(5, 3, 4) == 5
  {
  }

  lemma ArithmeticValues()
    ensures Multiply(10, 10) == 100
    ensures Factorial(0) == 1 && Factorial(1) == 1 && Factorial(2) == 2 && Factorial(3) == 6
    ensures Factorial(4) == 24 && Factorial(5) == 120 && Factorial(6) == 720
  {
  }

  /** The demo list `[1, 2, 3, 4, 5]` under the accessors. */
  lemma ListAccessValues()
    ensures Head(TupleToList([1, 2, 3, 4, 5])) == Some(1)
    ensures Tail(TupleToList([1, 2, 3, 4, 5])) == Some(TupleToList([2, 3, 4, 5]))
    ensures ListToTuple(Prepend(0, TupleToList([1, 2, 3, 4, 5]))) == [0, 1, 2, 3, 4, 5]
    ensures Length(TupleToList([1, 2, 3, 4, 5])) == 5
    ensures ValueAt(TupleToList([1, 2, 3, 4, 5]), 2) == Some(3)
  {
    TupleListTuple([1, 2, 3, 4, 5]);
  }

  /** The demo list under append and reverse. */
  lemma ListAppendReverseValues()
    ensures ListToTuple(Append(TupleToList([1, 2, 3, 4, 5]), 6)) == [1, 2, 3, 4, 5, 6]
    ensures ListToTuple(Reverse(TupleToList([1, 2, 3, 4, 5]))) == [5, 4, 3, 2, 1]
  {
    TupleListTuple([1, 2, 3, 4, 5]);
  }

  /** Concatenating `[1, 2]` with `[3, 4]`, and adding one to every value of
      the demo list. */
  lemma ListConcatMapValues()
    ensures ListToTuple(Concat(TupleToList([1, 2]), TupleToList([3, 4]))) == [1, 2, 3, 4]
    ensures ListToTuple(Map(TupleToList<nat>([1, 2, 3, 4, 5]), AddOne)) == [2, 3, 4, 5, 6]
  {
    TupleListTuple([1, 2]);
    TupleListTuple([3, 4]);
    ConcatValues(TupleToList([1, 2]), TupleToList([3, 4]));
    TupleListTuple<nat>([1, 2, 3, 4, 5]);
  }

  lemma StringValues()
    ensures StringToTuple("hello") == ["h", "e", "l", "l", "o"]
    ensures IndexedChars("hello") == [(0, "h"), (1, "e"), (2, "l"), (3, "l"), (4, "o")]
    ensures CharAt("hello", 1) == Some("e")
  {
  }
}
