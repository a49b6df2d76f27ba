/** Options, finite sums and minima, and the sorted lists the folds keep. */
module Basics {

  datatype Option<+T> = None | Some(value: T)

  /** The elements of a sequence. */
  function Elems<T>(s: seq<T>): set<T> {
    set x | x in s
  }

  predicate Distinct<T(==)>(s: seq<T>) {
    forall i, j :: 0 <= i < j < |s| ==> s[i] != s[j]
  }

  predicate Ascending(s: seq<int>) {
    forall i, j :: 0 <= i < j < |s| ==> s[i] < s[j]
  }

  lemma ElemsAppend<T>(s: seq<T>, x: T)
    ensures Elems(s + [x]) == Elems(s) + {x}
  {
    assert forall y :: y in s + [x] <==> y in s || y == x;
  }

  lemma ElemsConcat<T>(s: seq<T>, t: seq<T>)
    ensures Elems(s + t) == Elems(s) + Elems(t)
  {
    assert forall y :: y in s + t <==> y in s || y in t;
  }

  /** Sequences of the same elements, each as often. */
  lemma SameMembers<T>(a: seq<T>, b: seq<T>)
    requires multiset(a) == multiset(b)
    ensures forall x :: x in a <==> x in b
  {
    forall x ensures x in a <==> x in b {
      assert x in a <==> x in multiset(a);
      assert x in b <==> x in multiset(b);
    }
  }

  /** Where the last of one stands in the other, and that the rest of both are again the same. */
  lemma RestSame<T>(a: seq<T>, b: seq<T>) returns (i: nat)
    requires multiset(a) == multiset(b) && a != []
    ensures i < |b| && b[i] == a[|a| - 1] && multiset(a[..|a| - 1]) == multiset(b[..i] + b[i + 1..])
  {
    var n := |a| - 1;
    SameMembers(a, b);
    var last := a[n];
    assert last in a && last in b;
    i :| 0 <= i < |b| && b[i] == last;
    WithoutOne(a, n);
    WithoutOne(b, i);
    assert a[..n] + a[n + 1..] == a[..n];
  }

  lemma WithoutOne<T>(s: seq<T>, i: nat)
    requires i < |s|
    ensures multiset(s[..i] + s[i + 1..]) == multiset(s) - multiset{s[i]}
  {
    assert s == s[..i] + ([s[i]] + s[i + 1..]);
  }

  lemma {:induction false} DistinctSize<T>(s: seq<T>)
    requires Distinct(s)
    ensures |Elems(s)| == |s|
  {
    if s != [] {
      var n := |s| - 1;
      DistinctSize(s[..n]);
      assert s == s[..n] + [s[n]];
      ElemsAppend(s[..n], s[n]);
    }
  }

  /** What is left of a map once `todo` shrinks by one key, and once nothing is left to do. */
  lemma MinusNext<K, V>(m: map<K, V>, todo: set<K>, k: K)
    requires k in todo && k in m
    ensures m - (todo - {k}) == (m - todo)[k := m[k]]
  {
  }

  lemma MinusEnds<K, V>(m: map<K, V>)
    ensures m - {} == m
    ensures m - m.Keys == map[]
  {
  }

  lemma SubsetSize<T>(a: set<T>, b: set<T>)
    requires a <= b
    ensures |a| <= |b|
    ensures |a| == |b| ==> a == b
  {
    assert b == a + (b - a);
  }

  /** Some element of a nonempty set. */
  ghost function Pick<T>(s: set<T>): (x: T)
    requires s != {}
    ensures x in s
  {
    var x :| x in s;
    x
  }

  /** Take some element of a nonempty set, as iterating over it does. */
  method Take<T(==)>(s: set<T>) returns (x: T)
    requires s != {}
    ensures x in s
  {
    x :| x in s;
  }

  /** The least element of a set of integers. */
  ghost function Min(s: set<int>): (m: int)
    requires s != {}
    ensures m in s && forall x :: x in s ==> m <= x
  {
    MinExists(s);
    var m :| m in s && forall x :: x in s ==> m <= x;
    m
  }

  lemma {:induction false} MinExists(s: set<int>)
    requires s != {}
    ensures exists m :: m in s && forall x :: x in s ==> m <= x
    decreases |s|
  {
    var y := Pick(s);
    var rest := s - {y};
    if rest == {} {
      assert s == {y};
    } else {
      MinExists(rest);
      var m :| m in rest && forall x :: x in rest ==> m <= x;
      var least := if y < m then y else m;
      assert forall x :: x in s ==> x == y || x in rest;
      assert least in s && forall x :: x in s ==> least <= x;
    }
  }

  /** The sum of the values of a finite map. */
  ghost function Total<T(!new)>(m: map<T, nat>): nat {
    SumOver(m, m.Keys)
  }

  ghost function SumOver<T(!new)>(m: map<T, nat>, keys: set<T>): nat
    decreases |keys|
  {
    if keys == {} then 0
    else
      var x := Pick(keys);
      (if x in m then m[x] else 0) + SumOver(m, keys - {x})
  }

  lemma {:induction false} SumRemove<T(!new)>(m: map<T, nat>, keys: set<T>, x: T)
    requires x in keys
    ensures SumOver(m, keys) == (if x in m then m[x] else 0) + SumOver(m, keys - {x})
    decreases |keys|
  {
    var y := Pick(keys);
    if y != x {
      SumRemove(m, keys - {y}, x);
      SumRemove(m, keys - {x}, y);
      assert keys - {y} - {x} == keys - {x} - {y};
    }
  }

  lemma {:induction false} SumSame<T(!new)>(m: map<T, nat>, n: map<T, nat>, keys: set<T>)
    requires keys <= m.Keys && keys <= n.Keys && forall x :: x in keys ==> m[x] == n[x]
    ensures SumOver(m, keys) == SumOver(n, keys)
    decreases |keys|
  {
    if keys != {} {
      SumSame(m, n, keys - {Pick(keys)});
    }
  }

  lemma TotalRemove<T(!new)>(m: map<T, nat>, x: T)
    requires x in m
    ensures Total(m) == m[x] + Total(m - {x})
  {
    SumRemove(m, m.Keys, x);
    SumSame(m, m - {x}, m.Keys - {x});
    assert (m - {x}).Keys == m.Keys - {x};
  }

  lemma TotalInsert<T(!new)>(m: map<T, nat>, x: T, v: nat)
    requires x !in m
    ensures Total(m[x := v]) == Total(m) + v
  {
    TotalRemove(m[x := v], x);
    assert m[x := v] - {x} == m;
  }

  lemma {:induction false} TotalSubmap<T(!new)>(small: map<T, nat>, big: map<T, nat>)
    requires small.Keys <= big.Keys
    requires forall x :: x in small ==> small[x] == big[x]
    ensures Total(small) <= Total(big)
    decreases |small|
  {
    if small != map[] {
      var x :| x in small;
      TotalRemove(small, x);
      TotalRemove(big, x);
      TotalSubmap(small - {x}, big - {x});
    }
  }
}
