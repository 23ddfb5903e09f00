/** Containers shared by every module: options, results, Python's insertion-ordered
    dictionary and the list operations `remove` and `insert`. */
module Collections {

  datatype Option<+T> = None | Some(value: T) {
    predicate IsFailure() { None? }
    function PropagateFailure<U>(): Option<U> requires None? { None }
    function Extract(): T requires Some? { value }
  }

  datatype Result<+T, +E> = Ok(value: T) | Err(error: E)

  function MapSeq<A, B>(f: A -> B, s: seq<A>): (r: seq<B>)
    ensures |r| == |s| && forall i :: 0 <= i < |s| ==> r[i] == f(s[i])
  {
    seq(|s|, i requires 0 <= i < |s| => f(s[i]))
  }

  function Get<K, V>(m: map<K, V>, k: K): Option<V> {
    if k in m then Some(m[k]) else None
  }

  function Last<T>(s: seq<T>): T
    requires s != []
  {
    s[|s| - 1]
  }

  function Init<T>(s: seq<T>): seq<T>
    requires s != []
  {
    s[..|s| - 1]
  }

  function Elements<T(!new)>(s: seq<T>): set<T> {
    set x | x in s
  }

  ghost predicate Distinct<T>(s: seq<T>) {
    forall i, j :: 0 <= i < j < |s| ==> s[i] != s[j]
  }

  lemma DistinctAppend<T(!new)>(a: seq<T>, b: seq<T>)
    requires Distinct(a) && Distinct(b) && forall x :: x in a ==> x !in b
    ensures Distinct(a + b)
  {
    var c := a + b;
    forall i, j | 0 <= i < j < |c| ensures c[i] != c[j] {
      assert i < |a| ==> a[i] in a;
      assert j >= |a| ==> b[j - |a|] in b;
    }
  }

  /** `if x in s: s.remove(x)`: the first occurrence goes, the rest keep their order. */
  function Remove<T(==)>(s: seq<T>, x: T): (r: seq<T>)
    ensures x !in s ==> r == s
    ensures x in s ==> |r| == |s| - 1
  {
    if s == [] then [] else if s[0] == x then s[1..] else [s[0]] + Remove(s[1..], x)
  }

  /** Every occurrence of x removed. */
  function Without<T(!new, ==)>(s: seq<T>, x: T): (r: seq<T>)
    ensures x !in r
    ensures forall y :: y in r <==> y in s && y != x
  {
    if s == [] then [] else (if s[0] == x then [] else [s[0]]) + Without(s[1..], x)
  }

  lemma {:induction false} RemoveFromDistinct<T(!new)>(s: seq<T>, x: T)
    requires Distinct(s)
    ensures Remove(s, x) == Without(s, x) && Distinct(Remove(s, x))
  {
    if s != [] {
      var t := s[1..];
      RemoveFromDistinct(t, x);
      assert s[0] !in t;
      if s[0] == x {
        assert Remove(t, x) == t;
      } else {
        assert s[0] !in Without(t, x);
      }
    }
  }

  lemma {:induction false} RemoveAppended<T(!new)>(s: seq<T>, x: T)
    requires x !in s
    ensures Remove(s + [x], x) == s
  {
    if s != [] {
      RemoveAppended(s[1..], x);
      assert (s + [x])[1..] == s[1..] + [x];
    }
  }

  /** Python dictionary: the mapping together with the order in which its keys were first
      inserted.  Assigning to a present key keeps that key's position. */
  datatype Dict<K(!new, ==), V> = Dict(keys: seq<K>, vals: map<K, V>) {

    ghost predicate Wf() {
      && Distinct(keys)
      && (forall k :: k in keys <==> k in vals)
    }

    function Put(k: K, v: V): (d: Dict<K, V>) {
      Dict(if k in vals then keys else keys + [k], vals[k := v])
    }

    function Pop(k: K): (d: Dict<K, V>) {
      Dict(Remove(keys, k), vals - {k})
    }

    lemma PutWf(k: K, v: V)
      requires Wf()
      ensures Put(k, v).Wf()
    {
    }

    lemma PopWf(k: K)
      requires Wf()
      ensures Pop(k).Wf()
    {
      RemoveFromDistinct(keys, k);
    }
  }
}
