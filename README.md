# typecraft, modelled in Dafny

typecraft is a small symbolic computation system written as TypeScript
type-level definitions. This project models its core as pure Dafny functions
over immutable values, and proves what those definitions compute:

- **Unary numerals** (`UtilityTypes`, `utility-types.ts`). A number `n` is a
  tuple of `n` placeholders (`seq<()>`). `BuildTuple` builds it by
  prepending. `Add` is the length of two numerals laid end to end.
  `Subtract` is a prefix test. Each is proved equal to `nat` arithmetic, and
  the representation is proved canonical.
- **Predicates and arithmetic** (`NumberHelpers`, `number-helpers.ts`).
  `IsEven` peels two placeholders at a time. `IsOdd`, `OddOrEven`,
  `Greater` and `GreatestOfThree` are built on it or on the prefix test.
  `Multiply` and `Factorial` are accumulator recursions, proved against
  `a * b` and a textbook factorial.
- **Fibonacci** (`FibonacciNumbers`, `fibonacci.ts`). The pair and counter
  recursion is proved against the textbook recurrence through its
  accumulator invariant.
- **Linked list** (`LinkedList`, `linked-list.ts`). A list is
  `Empty | Node(value, next)`. Every operation is stated against
  `ListToTuple`, the list's values in order: head, tail, prepend, append,
  length, indexing, the two conversions (a round trip in both directions),
  accumulator reverse (an involution), concat and map.
- **Strings** (`StringHelpers`, `string-helpers.ts`). A string is split into
  one-character strings that spell it back, paired with their indices, and
  indexed.

The list datatype `LinkedList.List` models `ListNode`/`EmptyList`
(linked-list.ts:8-14). The uninhabited result `never` is
`Wrappers.Option.None`. The module `Demo` restates the literal
instantiations written down in `main.ts` and in the demo section of
`linked-list.ts`, with the values their comments give.

The source leaves every case without a result as `never` (or, for `CharAt`,
`undefined`), and the model returns `None` for each:
- `Subtract` with a larger subtrahend;
- `Head` and `Tail` of the empty list;
- `ValueAt` and `CharAt` past the end.

`ToNumber` is the identity on numbers and `never` for anything else.

## Model

| member | source | states |
|---|---|---|
| UtilityTypes.TupleCanonical | utility-types.ts:8-11 | two numerals are equal exactly when their lengths are equal, so the unary representation is canonical |
| UtilityTypes.PrefixIsAtMost | utility-types.ts:32 | the prefix test `A extends [...B, ...R]` on numerals holds exactly when `|B| <= |A|` |
| UtilityTypes.BuildTupleAcc | utility-types.ts:8-11 | from any accumulator no longer than `n`, prepending one placeholder per step ends at length exactly `n` (the measure `n - |t|` shows termination) |
| UtilityTypes.BuildTupleAccCanonical | utility-types.ts:11 | whatever accumulator the construction starts from, it reaches the same numeral as `BuildTuple(n)` |
| UtilityTypes.BuildTuple | utility-types.ts:8-11 | `BuildTuple(n)` has length `n`, and `BuildTuple(0)` is empty |
| UtilityTypes.ToNumber | utility-types.ts:16 | a number is returned unchanged; any other type gives `never` |
| UtilityTypes.Add | utility-types.ts:21-24 | the length of `BuildTuple(a) ++ BuildTuple(b)` is `a + b` |
| UtilityTypes.Subtract | utility-types.ts:29-32 | there is a result exactly when `b <= a`, and it is `a - b`; for `b > a` the result is `never` |
| UtilityTypes.SubtractAfterAdd | utility-types.ts:21-32 | `Subtract(Add(a, b), b)` is `a` |
| UtilityTypes.AddAfterSubtract | utility-types.ts:21-32 | when `Subtract(a, b)` has a result, adding `b` back gives `a` |
| NumberHelpers.IsEven | number-helpers.ts:9-16 | peeling two placeholders at a time answers true exactly when `n % 2 == 0` |
| NumberHelpers.IsEvenPeelsTwo | number-helpers.ts:9-16 | `IsEven(0)` holds, `IsEven(1)` does not, and `IsEven(n + 2) == IsEven(n)` |
| NumberHelpers.IsOdd | number-helpers.ts:21-22 | the negation of `IsEven` holds exactly when `n % 2 == 1` |
| NumberHelpers.OddIsNotEven | number-helpers.ts:21-22 | `IsOdd(n)` and `IsEven(n)` always differ |
| NumberHelpers.OddOrEven | number-helpers.ts:27 | the tag is `"even"` or `"odd"`, and it is `"even"` exactly for even `n` |
| NumberHelpers.Greater | number-helpers.ts:32-35 | the result is `max(n, t)`, it is the first argument exactly when `n >= t` (ties go to the first), and it bounds both arguments |
| NumberHelpers.GreatestOfThree | number-helpers.ts:40-46 | the result is one of the three inputs, bounds all three, and equals `max(max(a, b), c)` |
| NumberHelpers.MultiplyAcc | number-helpers.ts:51-57 | appending `BuildTuple(a)` `b` times to the accumulator gives length `|acc| + a * b` |
| NumberHelpers.Multiply | number-helpers.ts:51-57 | `Multiply(a, b) == a * b` |
| NumberHelpers.MultiplyStep | number-helpers.ts:51-57 | `Multiply(a, 0) == 0`, and for `b > 0`, `Multiply(a, b) == Add(Multiply(a, b - 1), a)` |
| NumberHelpers.FactorialAcc | number-helpers.ts:62-67 | from accumulator `acc`, the result is `acc * n!` |
| NumberHelpers.Factorial | number-helpers.ts:62-67 | `Factorial(n) == n!`, which is at least 1, and `Factorial(0) == 1` |
| FibonacciNumbers.FibonacciAcc | fibonacci.ts:6-11 | for a counter of length `i <= n`, starting from the pair `(fib(i), fib(i + 1))` gives `fib(n)`; the measure `n - |I|` shows termination |
| FibonacciNumbers.Fibonacci | fibonacci.ts:6-11 | the pair recursion started at `(0, 1)` computes `fib(n)` of the textbook recurrence |
| FibonacciNumbers.FibonacciRecurrence | fibonacci.ts:11 | `Fibonacci(0) == 0`, `Fibonacci(1) == 1` and `Fibonacci(n + 2) == Fibonacci(n) + Fibonacci(n + 1)` |
| LinkedList.ListToTuple | linked-list.ts:55-58 | the tuple is empty exactly for the empty list, and starts with the head value otherwise |
| LinkedList.TupleToList | linked-list.ts:47-52 | the empty tuple gives the empty list and nothing else does |
| LinkedList.TupleListTuple | linked-list.ts:47-58 | `ListToTuple(TupleToList(s)) == s` |
| LinkedList.ListTupleList | linked-list.ts:47-58 | `TupleToList(ListToTuple(l)) == l` |
| LinkedList.IsEmpty | linked-list.ts:17 | holds exactly when the list has no values |
| LinkedList.Head | linked-list.ts:20 | the first value when there is one, `never` on the empty list |
| LinkedList.Tail | linked-list.ts:23 | the values after the first when there is one, `never` on the empty list |
| LinkedList.Prepend | linked-list.ts:26 | the new list's values are `v` followed by the old ones |
| LinkedList.HeadTailPrepend | linked-list.ts:17-26 | `Head(Prepend(v, l)) == v`, `Tail(Prepend(v, l)) == l`, a prepended list is not empty, and on the empty list `Head` and `Tail` are `never` |
| LinkedList.Append | linked-list.ts:29-31 | `ListToTuple(Append(l, v)) == ListToTuple(l) + [v]`: one value is added at the end and the others are kept |
| LinkedList.LengthAcc | linked-list.ts:34-36 | from accumulator `acc`, the result is `|acc|` plus the number of nodes |
| LinkedList.Length | linked-list.ts:34-36 | the number of values in the list |
| LinkedList.ValueAtAcc | linked-list.ts:39-44 | from a counter of length `c <= index`, the walk finds a value exactly when position `index - c` exists, and the value is the one at that position; from a longer counter it finds nothing |
| LinkedList.ValueAt | linked-list.ts:39-44 | for `index < Length(l)` the result is element `index` of `ListToTuple(l)`; otherwise it is `never` |
| LinkedList.ReverseAcc | linked-list.ts:61-64 | the values of `Reverse(l, acc)` are those of `l` reversed, followed by those of `acc` |
| LinkedList.Reverse | linked-list.ts:61-64 | the values of the reversed list are the original values reversed |
| LinkedList.ReverseProperties | linked-list.ts:61-64 | reversing keeps the length and undoes itself, and on a non-empty list the new head is the old last value |
| LinkedList.Concat | linked-list.ts:67-70 | `Concat(Empty, b) == b` |
| LinkedList.ConcatValues | linked-list.ts:67-70 | the values of `Concat(a, b)` are those of `a` followed by those of `b`, so the lengths add |
| LinkedList.Map | linked-list.ts:72-76 | mapping keeps the length, and the value at each position `k` becomes `f` of the old value at `k` |
| LinkedList.TupleMakerAcc | linked-list.ts:80-81 | from any accumulator no longer than `n`, appending one slot per step ends at length exactly `n` |
| LinkedList.TupleMaker | linked-list.ts:80-81 | `TupleMaker(n)` has length `n` |
| LinkedList.AddOne | linked-list.ts:79 | `AddOne(t) == t + 1` |
| StringHelpers.StringToTupleAcc | string-helpers.ts:8-11 | the result is the accumulator followed by one one-character string per character of `s`, in order |
| StringHelpers.StringToTuple | string-helpers.ts:8-11 | there are `|s|` parts, and part `k` is the character `s[k]` as a string |
| StringHelpers.StringToTupleAccPrefix | string-helpers.ts:10-11 | `StringToTuple(s, acc) == acc + StringToTuple(s)` |
| StringHelpers.StringToTupleSpells | string-helpers.ts:8-11 | every part is a single character, and the parts joined in order give back `s` |
| StringHelpers.IndexedChars | string-helpers.ts:16-18 | there are `|s|` pairs, and pair `k` is `(k, s[k])` |
| StringHelpers.CharAt | string-helpers.ts:23-27 | there is a result exactly when `i < |s|`, and it is `s[i]`; past the end the tuple gives `undefined` (modelled as `None`) |
| Demo.FibonacciValues | main.ts:17-28 | all twelve Fibonacci values the demo lists: `Fibonacci(0)` to `Fibonacci(10)` and `Fibonacci(16) == 987` |
| Demo.ParityValues | main.ts:31-35 | `IsEven(6)`, `IsOdd(5)`, not `IsOdd(4)`, `OddOrEven(5) == "odd"` and `OddOrEven(4) == "even"` |
| Demo.ComparisonValues | main.ts:38-43 | the `Greater` and `GreatestOfThree` values the demo lists |
| Demo.ArithmeticValues | main.ts:46-55 | `Multiply(10, 10) == 100` and the factorials from 0 to 6 |
| Demo.ListAccessValues | linked-list.ts:89-107 | the demo list `[1..5]` under head, tail, prepend, length and index |
| Demo.ListAppendReverseValues | linked-list.ts:100-110 | the demo list with 6 appended, and reversed |
| Demo.ListConcatMapValues | linked-list.ts:112-118 | `[1, 2]` concatenated with `[3, 4]`, and the demo list with `AddOne` mapped over it |
| Demo.StringValues | main.ts:58-60 | `StringToTuple("hello")`, `IndexedChars("hello")` and `CharAt("hello", 1) == "e"` |

## Left out

- Type-checker limits: recursion depth and instantiation limits do not apply to Dafny functions.
- Non-numeric inputs: `BuildTuple` of `number`, of negative or of fractional arguments (it never terminates there) is out, because every numeral input is a `nat`. The same holds for negative or fractional indices to `ValueAt` and `CharAt`.
- Over-long start accumulators: `BuildTupleAcc`, `TupleMakerAcc` and `FibonacciAcc` require an accumulator or counter no longer than the target. With a longer one the type-level recursion never stops. The public entry points always start empty.
- Placeholder types: `unknown` and `any` placeholders are all `()`. Only the length of a placeholder tuple is observable.
- AddOne: the leading literal `1` slot counts as one more placeholder, because only the tuple's length is used.
- ToNumber: the argument is drawn from a two-case universe (a number or any other type). The rest of TypeScript's types are not modelled.
- Mechanics with no counterpart: `infer`, distributive conditional types over unions, and generic-signature instantiation.
- IndexedChars: the mapped-tuple keys are numeric strings (`"0"`, `"1"`, ...). The index is modelled as a `nat`.
- Map: the literal `ReturnType<F>` in every node (`linked-list.ts:76`) does not depend on the node's value. Its doc comment and its `AddOne` example describe elementwise application, and that is what is modelled.
- Head/Tail inside other operations: `Append`, `Length`, `ValueAt`, `ListToTuple`, `Reverse`, `Concat` and `Map` take a node apart by pattern matching. On a node this is the same as the source's `Head<List>`/`Tail<List>`.
- GreatestOfThree: the tie-break toward the earlier operand cannot be observed on values, since tied operands are equal numbers. The contract states the value only.
- Module import/export wiring is not modelled. `main.ts` appears only as the concrete lemmas of `Demo`.
- StringToTupleAcc, StringToTuple, IndexedChars, CharAt: a Dafny `string` is a sequence of Unicode scalar values, while template-literal inference splits a TypeScript string into UTF-16 code units. For text outside the Basic Multilingual Plane the model therefore counts one part per scalar where the source gives two surrogate halves, and every length and index in the string layer differs there.
- IsEven, CharAt: only the default of the optional last parameter is modelled. That is the tuple `T` of `IsEven<N, T>` (number-helpers.ts:11) and the tuple `Arr` of `CharAt<S, I, Arr>` (string-helpers.ts:26). No caller in the source passes either parameter explicitly.
