/** An immutable singly linked list: `null` or a node `{value, next}`.
    Every operation builds a new list; no node is ever changed. */
module LinkedList {
  import opened Wrappers
  import opened UtilityTypes

  /** `EmptyList` (`null`) and `ListNode<T, Next>`. */
  datatype List<T> = Empty | Node(value: T, next: List<T>)

  /** `ListToTuple<List>`: the values in order, head first. */
  function ListToTuple<T>(l: List<T>): (r: seq<T>)
    ensures l.Empty? <==> r == []
    ensures l.Node? ==> r[0] == l.value
  {
    match l
    case Empty => []
    case Node(v, next) => [v] + ListToTuple(next)
  }

  /** `TupleToList<Tuple>`: one node per element, in order. */
  function TupleToList<T>(s: seq<T>): (r: List<T>)
    ensures s == [] <==> r.Empty?
  {
    if s == [] then Empty else Node(s[0], TupleToList(s[1..]))
  }

  /** Converting a tuple to a list and back gives the tuple. */
  lemma {:induction false} TupleListTuple<T>(s: seq<T>)
    ensures ListToTuple(TupleToList(s)) == s
  {
    if s != [] {
      TupleListTuple(s[1..]);
    }
  }

  /** Converting a list to a tuple and back gives the list; so a list is
      determined by its values. */
  lemma {:induction false} ListTupleList<T>(l: List<T>)
    ensures TupleToList(ListToTuple(l)) == l
  {
    match l
    case Empty =>
    case Node(v, next) =>
      ListTupleList(next);
      assert ListToTuple(l)[1..] == ListToTuple(next);
  }

  /** `IsEmpty<List>`. */
  function IsEmpty<T>(l: List<T>): (r: bool)
    ensures r <==> ListToTuple(l) == []
  {
    l.Empty?
  }

  /** `Head<List>`: the first value, `never` on the empty list. */
  function Head<T>(l: List<T>): (r: Option<T>)
    ensures r.Some? <==> ListToTuple(l) != []
    ensures r.Some? ==> r.value == ListToTuple(l)[0]
  {
    match l
    case Empty => None
    case Node(v, _) => Some(v)
  }

  /** `Tail<List>`: the list after the first node, `never` on the empty list. */
  function Tail<T>(l: List<T>): (r: Option<List<T>>)
    ensures r.Some? <==> ListToTuple(l) != []
    ensures r.Some? ==> ListToTuple(r.value) == ListToTuple(l)[1..]
  {
    match l
    case Empty => None
    case Node(_, next) => Some(next)
  }

  /** `Prepend<Value, List>`: a new node in front. */
  function Prepend<T>(v: T, l: List<T>): (r: List<T>)
    ensures ListToTuple(r) == [v] + ListToTuple(l)
  {
    Node(v, l)
  }

  /** `Head` and `Tail` take apart what `Prepend` put together, and only an
      empty list is `IsEmpty`. */
  lemma HeadTailPrepend<T>(v: T, l: List<T>)
    ensures Head(Prepend(v, l)) == Some(v)
    ensures Tail(Prepend(v, l)) == Some(l)
    ensures !IsEmpty(Prepend(v, l))
    ensures Head(List<T>.Empty).None? && Tail(List<T>.Empty).None? && IsEmpty(List<T>.Empty)
  {
  }

  /** `Append<List, Value>`: rebuilds every node and ends with `{v, null}`,
      so exactly one value is added at the end and the others are kept. */
  function Append<T>(l: List<T>, v: T): (r: List<T>)
    ensures ListToTuple(r) == ListToTuple(l) + [v]
  {
    match l
    case Empty => Node(v, Empty)
    case Node(h, next) => Node(h, Append(next, v))
  }

  /** `Length<List, Acc>`: one placeholder appended to `Acc` per node. */
  function LengthAcc<T>(l: List<T>, acc: Tuple): (r: nat)
    ensures r == |acc| + |ListToTuple(l)|
  {
    match l
    case Empty => |acc|
    case Node(_, next) => LengthAcc(next, acc + [()])
  }

  /** `Length<List>`, the accumulator starting empty. */
  function Length<T>(l: List<T>): (r: nat)
    ensures r == |ListToTuple(l)|
  {
    LengthAcc(l, [])
  }

  /** `ValueAt<List, Index, CurrentIndex>`: walks the list with a counter
      and answers the head once the counter's length equals `index`;
      `never` when the list runs out first. From a counter of length
      `c <= index` it answers the value at position `index - c`, and `never`
      exactly when there is none; from a longer counter it walks off the end. */
  function ValueAtAcc<T>(l: List<T>, index: nat, current: Tuple): (r: Option<T>)
    ensures |current| <= index ==> (r.Some? <==> index - |current| < |ListToTuple(l)|)
    ensures |current| <= index && r.Some? ==> r.value == ListToTuple(l)[index - |current|]
    ensures |current| > index ==> r.None?
  {
    match l
    case Empty => None
    case Node(v, next) =>
      if |current| == index then Some(v) else ValueAtAcc(next, index, current + [()])
  }

  /** `ValueAt<List, Index>`: the value at `index`, `never` past the end. */
  function ValueAt<T>(l: List<T>, index: nat): (r: Option<T>)
    ensures r.Some? <==> index < Length(l)
    ensures r.Some? ==> r.value == ListToTuple(l)[index]
  {
    ValueAtAcc(l, index, [])
  }

  /** The sequence reversed. */
  function Reversed<T>(s: seq<T>): (r: seq<T>)
  {
    if s == [] then [] else Reversed(s[1..]) + [s[0]]
  }

  lemma {:induction false} ReversedLength<T>(s: seq<T>)
    ensures |Reversed(s)| == |s|
  {
    if s != [] {
      ReversedLength(s[1..]);
    }
  }

  lemma {:induction false} ReversedConcat<T>(s: seq<T>, t: seq<T>)
    ensures Reversed(s + t) == Reversed(t) + Reversed(s)
    decreases |s|
  {
    if s == [] {
      assert s + t == t;
    } else {
      assert (s + t)[1..] == s[1..] + t;
      ReversedConcat(s[1..], t);
    }
  }

  lemma {:induction false} ReversedTwice<T>(s: seq<T>)
    ensures Reversed(Reversed(s)) == s
  {
    if s != [] {
      ReversedTwice(s[1..]);
      ReversedConcat(Reversed(s[1..]), [s[0]]);
      assert Reversed([s[0]]) == [s[0]];
    }
  }

  /** `Reverse<List, Acc>`: moves each head onto the accumulator. The
      accumulator invariant: the result is the reversed list in front of the
      accumulator. */
  function ReverseAcc<T>(l: List<T>, acc: List<T>): (r: List<T>)
    ensures ListToTuple(r) == Reversed(ListToTuple(l)) + ListToTuple(acc)
  {
    match l
    case Empty => acc
    case Node(v, next) =>
      assert ListToTuple(l)[1..] == ListToTuple(next);
      ReverseAcc(next, Node(v, acc))
  }

  /** `Reverse<List>`, the accumulator starting empty. */
  function Reverse<T>(l: List<T>): (r: List<T>)
    ensures ListToTuple(r) == Reversed(ListToTuple(l))
  {
    ReverseAcc(l, Empty)
  }

  /** Reversing keeps the length, undoes itself, and puts the last value
      first. */
  lemma ReverseProperties<T>(l: List<T>)
    ensures Length(Reverse(l)) == Length(l)
    ensures Reverse(Reverse(l)) == l
    ensures l.Node? ==> Head(Reverse(l)) == ValueAt(l, Length(l) - 1)
  {
    var s := ListToTuple(l);
    ReversedLength(s);
    ReversedTwice(s);
    ListTupleList(Reverse(Reverse(l)));
    ListTupleList(l);
    if l.Node? {
      ReversedConcat(s[..|s| - 1], [s[|s| - 1]]);
      assert s[..|s| - 1] + [s[|s| - 1]] == s;
    }
  }

  /** `Concat<ListA, ListB>`: rebuilds `a` with `b` as its final tail. */
  function Concat<T>(a: List<T>, b: List<T>): (r: List<T>)
    ensures a.Empty? ==> r == b
  {
    match a
    case Empty => b
    case Node(h, next) => Node(h, Concat(next, b))
  }

  /** Concatenation lays the values of `a` before those of `b`, so the
      lengths add. */
  lemma {:induction false} ConcatValues<T>(a: List<T>, b: List<T>)
    ensures ListToTuple(Concat(a, b)) == ListToTuple(a) + ListToTuple(b)
    ensures Length(Concat(a, b)) == Length(a) + Length(b)
  {
    match a
    case Empty =>
    case Node(h, next) => ConcatValues(next, b);
  }

  /** `Map<List, F>`: applies `f` to every value, keeping the length and
      the order. The type-level definition puts `ReturnType<F>` in every node, which does
      not depend on the node's value; its doc comment and its example
      (adding one to each number) describe this elementwise map, and that is
      what is modelled. */
  function Map<T, U>(l: List<T>, f: T -> U): (r: List<U>)
    ensures |ListToTuple(r)| == |ListToTuple(l)|
    ensures forall k :: 0 <= k < |ListToTuple(l)| ==> ListToTuple(r)[k] == f(ListToTuple(l)[k])
  {
    match l
    case Empty => Empty
    case Node(v, next) =>
      assert ListToTuple(l)[1..] == ListToTuple(next);
      Node(f(v), Map(next, f))
  }

  /** `TupleMaker<N, T>`: appends one placeholder per step until the length
      is `n`. The type-level definition does not stop for an accumulator
      already longer than `n`; that start is excluded. */
  function TupleMakerAcc(n: nat, t: Tuple): (r: Tuple)
    requires |t| <= n
    ensures |r| == n
    decreases n - |t|
  {
    if |t| == n then t else TupleMakerAcc(n, t + [()])
  }

  /** `TupleMaker<N>`, the accumulator starting empty. */
  function TupleMaker(n: nat): (r: Tuple)
    ensures |r| == n
  {
    TupleMakerAcc(n, [])
  }

  /** `AddOne<T>`: the length of one extra slot in front of `TupleMaker<T>`. */
  function AddOne(t: nat): (r: nat)
    ensures r == t + 1
  {
    |[()] + TupleMaker(t)|
  }
}
