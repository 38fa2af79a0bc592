/** Unary numerals: a number `n` is a tuple of `n` placeholders. */
module UtilityTypes {
  import opened Wrappers

  /** A placeholder slot (the source's `unknown`); only how many there are matters. */
  type Placeholder = ()

  /** A unary numeral: its value is its length. */
  type Tuple = seq<Placeholder>

  /** Two numerals of the same length are the same numeral: the
      representation is canonical. */
  lemma {:induction false} TupleCanonical(s: Tuple, t: Tuple)
    ensures s == t <==> |s| == |t|
  {
    if |s| == |t| {
      assert forall k :: 0 <= k < |s| ==> s[k] == t[k];
    }
  }

  /** The prefix test on numerals (`A extends [...B, ...infer R]`) is exactly
      the comparison of their values. */
  lemma {:induction false} PrefixIsAtMost(s: Tuple, t: Tuple)
    ensures s <= t <==> |s| <= |t|
  {
    if |s| <= |t| {
      TupleCanonical(s, t[..|s|]);
    }
  }

  /** `BuildTuple<N, T>`: prepends one placeholder per step until the
      accumulator has length `n`. The type-level definition never stops when
      the accumulator starts out longer than `n`; that start is excluded. */
  function BuildTupleAcc(n: nat, t: Tuple): (r: Tuple)
    requires |t| <= n
    ensures |r| == n
    decreases n - |t|
  {
    if |t| == n then t else BuildTupleAcc(n, [()] + t)
  }

  /** Whatever accumulator it starts from, the construction reaches the one
      canonical numeral of value `n`. */
  lemma BuildTupleAccCanonical(n: nat, t: Tuple)
    requires |t| <= n
    ensures BuildTupleAcc(n, t) == BuildTuple(n)
  {
    TupleCanonical(BuildTupleAcc(n, t), BuildTuple(n));
  }

  /** `BuildTuple<N>`, the accumulator starting empty. */
  function BuildTuple(n: nat): (r: Tuple)
    ensures |r| == n
    ensures n == 0 ==> r == []
  {
    BuildTupleAcc(n, [])
  }

  /** The few kinds of type that reach `ToNumber`: a numeric literal, or
      anything else (a string, a tuple, an object, ...). */
  datatype TypeTerm = NumberType(n: nat) | OtherType

  /** `ToNumber<T>`: the identity on numbers, `never` on everything else. */
  function ToNumber(t: TypeTerm): (r: Option<nat>)
    ensures r.Some? <==> t.NumberType?
    ensures t.NumberType? ==> r.value == t.n
  {
    match t
    case NumberType(n) => Some(n)
    case OtherType => None
  }

  /** `Add<A, B>`: the length of the two numerals laid end to end. */
  function Add(a: nat, b: nat): (r: nat)
    ensures r == a + b
  {
    |BuildTuple(a) + BuildTuple(b)|
  }

  /** `Subtract<A, B>`: if `BuildTuple<B>` is a prefix of `BuildTuple<A>` the
      result is the length of what remains, otherwise `never`. */
  function Subtract(a: nat, b: nat): (r: Option<nat>)
    ensures r.Some? <==> b <= a
    ensures r.Some? ==> r.value == a - b
  {
    var ta, tb := BuildTuple(a), BuildTuple(b);
    PrefixIsAtMost(tb, ta);
    if tb <= ta then Some(|ta[|tb|..]|) else None
  }

  /** Subtraction undoes addition. */
  lemma SubtractAfterAdd(a: nat, b: nat)
    ensures Subtract(Add(a, b), b) == Some(a)
  {
  }

  /** Addition undoes a subtraction that has a result. */
  lemma AddAfterSubtract(a: nat, b: nat)
    requires Subtract(a, b).Some?
    ensures Add(Subtract(a, b).value, b) == a
  {
  }
}
