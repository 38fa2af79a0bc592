/** Strings taken apart into tuples of one-character strings. */
module StringHelpers {
  import opened Wrappers

  /** The parts laid end to end. */
  function Join(parts: seq<string>): (r: string)
  {
    if parts == [] then "" else parts[0] + Join(parts[1..])
  }

  /** `StringToTuple<S, T>`: splits off the first character of `s` and
      appends it, as a string of its own, to the accumulator, until `s` is
      empty. */
  function StringToTupleAcc(s: string, t: seq<string>): (r: seq<string>)
    ensures |r| == |t| + |s|
    ensures r[..|t|] == t
    ensures forall k :: 0 <= k < |s| ==> r[|t| + k] == [s[k]]
  {
    if |s| > 0 then StringToTupleAcc(s[1..], t + [s[..1]]) else t
  }

  /** `StringToTuple<S>`, the accumulator starting empty. */
  function StringToTuple(s: string): (r: seq<string>)
    ensures |r| == |s|
    ensures forall k :: 0 <= k < |s| ==> r[k] == [s[k]]
  {
    StringToTupleAcc(s, [])
  }

  /** The accumulator only ever sits in front of the decomposition. */
  lemma StringToTupleAccPrefix(s: string, t: seq<string>)
    ensures StringToTupleAcc(s, t) == t + StringToTuple(s)
  {
    var r, d := StringToTupleAcc(s, t), StringToTuple(s);
    assert forall j :: 0 <= j < |r| ==> r[j] == (t + d)[j] by {
      forall j | 0 <= j < |r| ensures r[j] == (t + d)[j] {
        if j < |t| {
          assert r[..|t|][j] == r[j];
        } else {
          assert r[|t| + (j - |t|)] == [s[j - |t|]];
        }
      }
    }
  }

  /** Decomposing a non-empty string gives its first character, then the
      decomposition of the rest. */
  lemma StringToTupleCons(s: string)
    requires s != []
    ensures StringToTuple(s) == [s[..1]] + StringToTuple(s[1..])
  {
    var first: seq<string> := [s[..1]];
    assert [] + first == first;
    assert StringToTuple(s) == StringToTupleAcc(s[1..], first);
    StringToTupleAccPrefix(s[1..], first);
  }

  /** Every part is a single character, and the parts in order spell `s`. */
  lemma {:induction false} StringToTupleSpells(s: string)
    ensures forall k :: 0 <= k < |StringToTuple(s)| ==> |StringToTuple(s)[k]| == 1
    ensures Join(StringToTuple(s)) == s
  {
    if s != [] {
      var d := StringToTuple(s);
      StringToTupleSpells(s[1..]);
      StringToTupleCons(s);
      assert d[0] == s[..1] && d[1..] == StringToTuple(s[1..]);
      assert Join(d) == s[..1] + s[1..];
      assert s[..1] + s[1..] == s;
    }
  }

  /** `IndexedChars<S>`: every part of `StringToTuple<S>` paired with its
      position. */
  function IndexedChars(s: string): (r: seq<(nat, string)>)
    ensures |r| == |s|
    ensures forall k :: 0 <= k < |s| ==> r[k] == (k, [s[k]])
  {
    var arr := StringToTuple(s);
    seq(|arr|, k requires 0 <= k < |arr| => (k, arr[k]))
  }

  /** `CharAt<S, I>`: the part at position `i`. Past the end, indexing the
      tuple gives `undefined`, modelled as `None`. */
  function CharAt(s: string, i: nat): (r: Option<string>)
    ensures r.Some? <==> i < |s|
    ensures r.Some? ==> r.value == [s[i]]
  {
    var arr := StringToTuple(s);
    if i < |arr| then Some(arr[i]) else None
  }
}
