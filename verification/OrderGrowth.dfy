/** How the order of applied events moves when more apply. */
module OrderGrowth {
  // An order of some events is taken to be one that Kahn's algorithm gives: parents first, ties by ascending
  // digest.

  import opened Basics
  import opened Dag

  /** What Kahn's algorithm gives of some events: each after its parents, the smallest first. */
  ghost predicate IsOrder(parents: map<int, seq<int>>, root: int, order: seq<int>) {
    && Distinct(order) && Elems(order) <= parents.Keys
    && Topological(parents, root, order) && SmallestFirst(parents, root, order)
  }

  /** The events of `order` that are among `keep`, in its order. */
  function Only(order: seq<int>, keep: set<int>): (r: seq<int>)
    ensures |r| <= |order| && Elems(r) == Elems(order) * keep
  {
    if order == [] then []
    else
      var n := |order| - 1;
      assert order == order[..n] + [order[n]];
      ElemsAppend(order[..n], order[n]);
      var rest := Only(order[..n], keep);
      ElemsAppend(rest, order[n]);
      if order[n] in keep then rest + [order[n]] else rest
  }

  lemma {:induction false} OnlyPrefix(order: seq<int>, keep: set<int>, n: nat)
    requires n <= |order|
    ensures Only(order[..n], keep) <= Only(order, keep)
  {
    if n < |order| {
      assert order[..|order| - 1][..n] == order[..n];
      OnlyPrefix(order[..|order| - 1], keep, n);
    } else {
      assert order[..n] == order;
    }
  }

  /** Where the `i`th event kept stands: after all that were kept before it. */
  ghost predicate StandsAt(order: seq<int>, kept: seq<int>, i: nat, a: nat)
    requires i < |kept|
  {
    a < |order| && order[a] == kept[i] && Elems(kept[..i]) <= Elems(order[..a])
  }

  lemma {:induction false} OnlyStands(order: seq<int>, keep: set<int>, i: nat) returns (a: nat)
    requires i < |Only(order, keep)|
    ensures StandsAt(order, Only(order, keep), i, a)
  {
    var n := |order| - 1;
    var rest := Only(order[..n], keep);
    if i < |rest| {
      a := OnlyStands(order[..n], keep, i);
      assert order[..n][..a] == order[..a] && Only(order, keep)[..i] == rest[..i];
    } else {
      a := n;
      assert Only(order, keep)[..i] == rest;
    }
  }

  lemma {:induction false} OnlyDistinct(order: seq<int>, keep: set<int>)
    requires Distinct(order)
    ensures Distinct(Only(order, keep))
  {
    if order != [] {
      var n := |order| - 1;
      OnlyDistinct(order[..n], keep);
      assert order[n] !in Elems(order[..n]);
      assert Elems(Only(order[..n], keep)) <= Elems(order[..n]);
    }
  }

  /** Events whose parents are among them keep their order whatever else is put between them. */
  lemma {:induction false} OnlyIsOrder(parents: map<int, seq<int>>, root: int, order: seq<int>, keep: set<int>)
    requires IsOrder(parents, root, order) && keep <= Elems(order)
    requires forall d :: d in keep ==> ParentsIn(root, parents[d], keep)
    ensures IsOrder(parents, root, Only(order, keep)) && Elems(Only(order, keep)) == keep
  {
    var kept := Only(order, keep);
    OnlyDistinct(order, keep);
    assert forall i :: 0 <= i < |kept| ==> kept[i] in Elems(kept);
    forall i | 0 <= i < |kept| ensures ParentsIn(root, parents[kept[i]], Elems(kept[..i])) {
      var a := OnlyStands(order, keep, i);
      assert kept[i] in Elems(kept);
      ParentsBefore(root, parents[kept[i]], order, keep, i, a);
    }
    forall i, j | 0 <= i < j < |kept| && ParentsIn(root, parents[kept[j]], Elems(kept[..i])) ensures kept[i] < kept[j] {
      var a := OnlyStands(order, keep, i);
      var b := OnlyStands(order, keep, j);
      assert kept[i] in Elems(kept[..j]) by {
        assert kept[..j][i] == kept[i];
      }
      StandsBefore(order, a, b);
    }
  }

  lemma StandsBefore(order: seq<int>, a: nat, b: nat)
    requires Distinct(order) && a < |order| && b < |order| && order[a] in Elems(order[..b])
    ensures a < b
  {
    PrefixMember(order, b, order[a]);
  }

  lemma ParentsBefore(root: int, list: seq<int>, order: seq<int>, keep: set<int>, i: nat, a: nat)
    requires Distinct(order) && keep <= Elems(order) && ParentsIn(root, list, keep)
    requires i < |Only(order, keep)| && StandsAt(order, Only(order, keep), i, a)
    requires ParentsIn(root, list, Elems(order[..a]))
    ensures ParentsIn(root, list, Elems(Only(order, keep)[..i]))
  {
    hide Only, Distinct;
    var kept := Only(order, keep);
    forall q | q in list && q != root ensures q in Elems(kept[..i]) {
      assert q in Elems(kept) && q in Elems(order[..a]);
      var j :| 0 <= j < |kept| && kept[j] == q;
      var b := OnlyStands(order, keep, j);
      StandsBefore(order, b, a);
      if j > i {
        assert kept[..j][i] == kept[i] && kept[i] in Elems(kept[..j]);
        StandsBefore(order, a, b);
      } else if j == i {
        StandsBefore(order, a, a);
      }
      assert j < i && kept[..i][j] == q;
    }
  }

  // ---------------------------------------------------------------- more events apply

  /** `kept` as an order of events of `order`, closed under parents. */
  ghost predicate PartOf(parents: map<int, seq<int>>, root: int, kept: seq<int>, order: seq<int>) {
    IsOrder(parents, root, kept) && IsOrder(parents, root, order) && Elems(kept) <= Elems(order)
  }

  lemma StartIsOrder(parents: map<int, seq<int>>, root: int, order: seq<int>, n: nat)
    requires IsOrder(parents, root, order) && n <= |order|
    ensures IsOrder(parents, root, order[..n]) && Elems(order[..n]) <= Elems(order)
  {
    var start := order[..n];
    assert forall i :: 0 <= i <= n ==> start[..i] == order[..i];
    assert forall i :: 0 <= i < n ==> start[i] == order[i] && order[i] in Elems(order);
  }

  lemma OwnParents(parents: map<int, seq<int>>, root: int, order: seq<int>)
    requires IsOrder(parents, root, order)
    ensures forall d :: d in Elems(order) ==> ParentsIn(root, parents[d], Elems(order))
  {
    forall d | d in Elems(order) ensures ParentsIn(root, parents[d], Elems(order)) {
      var i :| 0 <= i < |order| && order[i] == d;
      forall q | q in parents[d] && q != root ensures q in Elems(order) {
        assert q in Elems(order[..i]);
        PrefixMember(order, i, q);
      }
    }
  }

  /** More events never reorder those already there. */
  lemma OrderRestricts(parents: map<int, seq<int>>, root: int, kept: seq<int>, order: seq<int>)
    requires PartOf(parents, root, kept, order)
    ensures Only(order, Elems(kept)) == kept
  {
    hide Topological, SmallestFirst, Only;
    OwnParents(parents, root, kept);
    OnlyIsOrder(parents, root, order, Elems(kept));
    OnlyOrder(parents, root, kept);
    OnlyOrder(parents, root, Only(order, Elems(kept)));
  }

  /** So what is left of them at the start of the larger order is an initial segment of theirs. */
  lemma StartRestricts(parents: map<int, seq<int>>, root: int, kept: seq<int>, order: seq<int>, n: nat)
    requires PartOf(parents, root, kept, order) && n <= |order|
    ensures Only(order[..n], Elems(kept)) <= kept
  {
    hide PartOf, Only;
    OrderRestricts(parents, root, kept, order);
    OnlyPrefix(order, Elems(kept), n);
  }

  /** After a common start the larger order goes on with `kept`'s next event or with a smaller one. */
  lemma NextOrSmaller(parents: map<int, seq<int>>, root: int, kept: seq<int>, order: seq<int>, i: nat)
    requires PartOf(parents, root, kept, order) && i < |kept| && i < |order| && order[..i] == kept[..i]
    ensures order[i] <= kept[i]
    ensures order[i] != kept[i] ==> order[i] !in kept
    ensures ParentsIn(root, parents[order[i]], Elems(kept[..i]))
  {
    NextIsSmallest(parents, root, order, i);
    PrefixMember(kept, i, kept[i]);
    assert kept[i] in Elems(kept);
    if order[i] in kept {
      var j :| 0 <= j < |kept| && kept[j] == order[i];
      PrefixMember(order, i, order[i]);
      PrefixMember(kept, i, order[i]);
      assert j >= i;
    }
  }

  lemma PartSizes(parents: map<int, seq<int>>, root: int, kept: seq<int>, order: seq<int>)
    requires PartOf(parents, root, kept, order)
    ensures |kept| <= |order| && Elems(order) <= parents.Keys
  {
    hide Topological, SmallestFirst;
    DistinctSize(kept);
    DistinctSize(order);
    SubsetSize(Elems(kept), Elems(order));
  }

  lemma {:induction false} SameSoFar(parents: map<int, seq<int>>, root: int, kept: seq<int>, order: seq<int>, i: nat)
    requires PartOf(parents, root, kept, order) && i <= |kept|
    requires Elems(order) <= parents.Keys && ComesAfter(parents, root, Elems(order), kept)
    ensures i <= |order| && order[..i] == kept[..i]
  {
    hide PartOf, ComesAfter;
    PartSizes(parents, root, kept, order);
    if i > 0 {
      SameSoFar(parents, root, kept, order, i - 1);
      NextOrSmaller(parents, root, kept, order, i - 1);
      AfterNext(parents, root, kept, order, i - 1);
      assert order[..i] == order[..i - 1] + [order[i - 1]] && kept[..i] == kept[..i - 1] + [kept[i - 1]];
    }
  }

  lemma AfterNext(parents: map<int, seq<int>>, root: int, kept: seq<int>, order: seq<int>, i: nat)
    requires Elems(order) <= parents.Keys && ComesAfter(parents, root, Elems(order), kept)
    requires i < |kept| && i < |order| && order[i] in parents && ParentsIn(root, parents[order[i]], Elems(kept[..i])) && order[i] <= kept[i]
    ensures order[i] != kept[i] ==> order[i] in kept
  {
    assert order[i] in Elems(order);
  }

  /** Exactly when what is kept stays where it is: no other event could have been taken before one of its own. */
  lemma {:induction false} PrefixIff(parents: map<int, seq<int>>, root: int, kept: seq<int>, order: seq<int>)
    requires PartOf(parents, root, kept, order)
    ensures Elems(order) <= parents.Keys
    ensures kept <= order <==> ComesAfter(parents, root, Elems(order), kept)
  {
    hide PartOf, ComesAfter;
    PartSizes(parents, root, kept, order);
    if ComesAfter(parents, root, Elems(order), kept) {
      SameSoFar(parents, root, kept, order, |kept|);
      assert kept[..|kept|] == kept;
    }
    if kept <= order {
      PrefixComesAfter(parents, root, kept, order);
    }
  }

  lemma PrefixComesAfter(parents: map<int, seq<int>>, root: int, kept: seq<int>, order: seq<int>)
    requires PartOf(parents, root, kept, order) && kept <= order && Elems(order) <= parents.Keys
    ensures ComesAfter(parents, root, Elems(order), kept)
  {
    hide Topological;
    assert forall j :: 0 <= j < |kept| ==> order[j] == kept[j] && kept[j] in Elems(kept);
    forall i, d | 0 <= i < |kept| && d in Elems(order) && d !in Elems(kept) && ParentsIn(root, parents[d], Elems(kept[..i]))
      ensures kept[i] < d
    {
      var j :| 0 <= j < |order| && order[j] == d;
      assert order[..i] == kept[..i] && order[i] == kept[i];
    }
  }

  // ---------------------------------------------------------------- which of two orders is the earlier

  /** `a` goes on from `b`, or has a smaller event where they first differ. */
  ghost predicate NoLater(a: seq<int>, b: seq<int>) {
    b <= a || exists i :: FirstSmaller(a, b, i)
  }

  ghost predicate FirstSmaller(a: seq<int>, b: seq<int>, i: int) {
    0 <= i < |a| && i < |b| && a[..i] == b[..i] && a[i] < b[i]
  }

  /** More events only ever make an order earlier. */
  lemma {:induction false} OrderEarlier(parents: map<int, seq<int>>, root: int, kept: seq<int>, order: seq<int>, n: nat)
    requires PartOf(parents, root, kept, order) && |kept| <= n <= |order|
    ensures NoLater(order[..n], kept)
  {
    if !(kept <= order[..n]) {
      var i := FirstDiffers(kept, order[..n], |kept|);
      assert order[..i] == order[..n][..i];
      NextOrSmaller(parents, root, kept, order, i);
      assert FirstSmaller(order[..n], kept, i);
    }
  }

  lemma {:induction false} FirstDiffers(a: seq<int>, b: seq<int>, n: nat) returns (i: nat)
    requires n <= |a| && n <= |b| && a[..n] != b[..n]
    ensures i < n && a[..i] == b[..i] && a[i] != b[i]
  {
    if a[..n - 1] == b[..n - 1] {
      i := n - 1;
      assert a[..n] == a[..i] + [a[i]] && b[..n] == b[..i] + [b[i]];
    } else {
      i := FirstDiffers(a, b, n - 1);
    }
  }

  lemma NoLaterTransitive(a: seq<int>, b: seq<int>, c: seq<int>)
    requires NoLater(a, b) && NoLater(b, c)
    ensures NoLater(a, c)
  {
    if !(b <= a) || !(c <= b) {
      if b <= a {
        var j :| FirstSmaller(b, c, j);
        assert a[..j] == b[..j] && FirstSmaller(a, c, j);
      } else {
        var i :| FirstSmaller(a, b, i);
        if c <= b {
          if i < |c| {
            assert c[..i] == b[..i] && FirstSmaller(a, c, i);
          } else {
            assert a[..|c|] == a[..i][..|c|] == b[..i][..|c|] == c;
          }
        } else {
          var j :| FirstSmaller(b, c, j);
          var k := if i < j then i else j;
          assert a[..k] == a[..i][..k] == b[..i][..k] == b[..k] == b[..j][..k] == c[..j][..k] == c[..k];
          assert FirstSmaller(a, c, k);
        }
      }
    }
  }

  lemma SmallerOneWay(a: seq<int>, b: seq<int>, i: int)
    requires FirstSmaller(a, b, i)
    ensures !(a <= b) && !(b <= a)
    ensures forall j :: !FirstSmaller(b, a, j)
  {
    forall j ensures !FirstSmaller(b, a, j) {
      if i < j <= |a| && j <= |b| {
        assert a[..j][i] != b[..j][i];
      }
      if 0 <= j < i {
        assert a[..i][j] == a[j] && b[..i][j] == b[j];
      }
    }
  }
}
