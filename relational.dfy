/** Sequence helpers shared by the query models. */
module Relational {
  import opened Wrappers

  /** The position of the first occurrence of `x` in `s`. */
  function FirstIndex<T(==)>(s: seq<T>, x: T): (i: nat)
    requires x in s
    ensures i < |s| && s[i] == x
    ensures forall j :: 0 <= j < i ==> s[j] != x
  {
    if s[0] == x then 0 else 1 + FirstIndex(s[1..], x)
  }

  /** Appending after the first occurrence does not move it. */
  lemma FirstIndexAppend<T>(s: seq<T>, y: T, x: T)
    requires x in s
    ensures FirstIndex(s + [y], x) == FirstIndex(s, x)
  {
    var i := FirstIndex(s, x);
    assert (s + [y])[i] == x;
    assert forall j :: 0 <= j < i ==> (s + [y])[j] == s[j];
  }

  lemma FirstIndexAppendAll<T(!new)>(s: seq<T>, y: T)
    ensures forall x :: x in s ==> FirstIndex(s + [y], x) == FirstIndex(s, x)
  {
    forall x | x in s ensures FirstIndex(s + [y], x) == FirstIndex(s, x) {
      FirstIndexAppend(s, y, x);
    }
  }

  /**
   * The distinct elements of `s`, each kept at its first occurrence
   * (pandas' drop_duplicates and unique, which keep the first row of each
   * group of equal rows and preserve their order).
   */
  function Dedup<T(==,!new)>(s: seq<T>): (r: seq<T>)
    ensures forall x :: x in r <==> x in s
    ensures forall i, j :: 0 <= i < j < |r| ==> r[i] != r[j]
    ensures forall i, j :: 0 <= i < j < |r| ==> FirstIndex(s, r[i]) < FirstIndex(s, r[j])
    ensures |r| <= |s|
  {
    if s == [] then []
    else
      var prefix := s[..|s| - 1];
      var last := s[|s| - 1];
      assert s == prefix + [last];
      var d := Dedup(prefix);
      FirstIndexAppendAll(prefix, last);
      if last in d then d
      else
        assert FirstIndex(s, last) == |s| - 1;
        d + [last]
  }

  /** Two sequences that are permutations of each other have the same members. */
  lemma SameMembers<T(!new)>(a: seq<T>, b: seq<T>)
    requires multiset(a) == multiset(b)
    ensures forall x :: x in a <==> x in b
  {
    forall x ensures x in a <==> x in b {
      assert x in a <==> x in multiset(a);
      assert x in b <==> x in multiset(b);
    }
  }

  /** A set of at most one element that holds `x` is `{x}`. */
  lemma AtMostOne<T>(s: set<T>, x: T)
    requires x in s && |s| <= 1
    ensures s == {x}
  {
    var rest := s - {x};
    assert |s| == |rest| + 1;
    assert rest == {};
  }

  /** The value of the last pair whose key is `key`, if any. */
  function LastFor<K(==), V>(pairs: seq<(K, V)>, key: K): (v: Option<V>)
    ensures v.None? <==> forall k :: 0 <= k < |pairs| ==> pairs[k].0 != key
    ensures v.Some? ==>
      exists k :: 0 <= k < |pairs| && pairs[k] == (key, v.value) && forall j :: k < j < |pairs| ==> pairs[j].0 != key
  {
    if pairs == [] then None
    else if pairs[|pairs| - 1].0 == key then Some(pairs[|pairs| - 1].1)
    else
      var front := pairs[..|pairs| - 1];
      assert forall k :: 0 <= k < |front| ==> front[k] == pairs[k];
      LastFor(front, key)
  }

  /**
   * A Python dict built from (key, value) pairs in order (dict(zip(...)),
   * Series.to_dict()): every key present maps to its LAST value.
   */
  function ToDict<K(==,!new), V>(pairs: seq<(K, V)>): (d: map<K, V>)
    ensures forall key :: key in d <==> LastFor(pairs, key).Some?
    ensures forall key :: key in d ==> d[key] == LastFor(pairs, key).value
  {
    if pairs == [] then map[]
    else ToDict(pairs[..|pairs| - 1])[pairs[|pairs| - 1].0 := pairs[|pairs| - 1].1]
  }
}
