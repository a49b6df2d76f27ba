/** A graph of events, each judged on the join of what went before. */
module Dag {
  // The states after the parents are left open: only what an event adds to the state it is judged against
  // matters here.

  import opened Basics

  /** `parents` names the events of the graph and what each lists; `root` is the parent that stands for
      the state `base`; `effect` says what an event adds to a causal state, or that it is refused. */
  datatype Dag<!S(!new)> = Dag(
    parents: map<int, seq<int>>, root: int, base: S, empty: S,
    join: (S, S) -> S, effect: (int, S) -> Option<S>)

  /** Whether every parent is the root or among `done`. */
  predicate ParentsIn(root: int, parents: seq<int>, done: set<int>) {
    forall q :: q in parents ==> q == root || q in done
  }

  /** The join of the parents' states, in the order the event lists them. */
  ghost function Causal<S(!new)>(dag: Dag<S>, after: map<int, S>, parents: seq<int>): S {
    if parents == [] then dag.empty
    else
      var last := parents[|parents| - 1];
      var before := Causal(dag, after, parents[..|parents| - 1]);
      if last == dag.root then dag.join(before, dag.base)
      else if last in after then dag.join(before, after[last])
      else before
  }

  ghost function CausalOf<S(!new)>(dag: Dag<S>, after: map<int, S>, d: int): S
    requires d in dag.parents
  {
    Causal(dag, after, dag.parents[d])
  }

  ghost predicate Applies<S(!new)>(dag: Dag<S>, d: int, after: map<int, S>) {
    && d in dag.parents
    && ParentsIn(dag.root, dag.parents[d], after.Keys)
    && dag.effect(d, CausalOf(dag, after, d)).Some?
  }

  ghost function StateAfter<S(!new)>(dag: Dag<S>, d: int, after: map<int, S>): S
    requires Applies(dag, d, after)
  {
    dag.join(CausalOf(dag, after, d), dag.effect(d, CausalOf(dag, after, d)).value)
  }

  /** The events that apply once those of `after` have, each with the state after it. */
  ghost function Advance<S(!new)>(dag: Dag<S>, after: map<int, S>): map<int, S> {
    map d | d in dag.parents && Applies(dag, d, after) :: StateAfter(dag, d, after)
  }

  ghost function Settle<S(!new)>(dag: Dag<S>, rounds: nat): map<int, S> {
    if rounds == 0 then map[] else Advance(dag, Settle(dag, rounds - 1))
  }

  /** Every event that applies, with the state after it. */
  ghost function AfterStates<S(!new)>(dag: Dag<S>): map<int, S> {
    Settle(dag, |dag.parents|)
  }

  // ---------------------------------------------------------------- the fixed point

  lemma SettledInGraph<S(!new)>(dag: Dag<S>, k: nat)
    ensures Settle(dag, k).Keys <= dag.parents.Keys
  {
  }

  /** `big` has every state `small` has. */
  ghost predicate Extends<S(!new)>(small: map<int, S>, big: map<int, S>) {
    small.Keys <= big.Keys && forall d :: d in small ==> small[d] == big[d]
  }

  lemma SameStates<S(!new)>(a: map<int, S>, b: map<int, S>)
    requires Extends(a, b) && |b| <= |a|
    ensures a == b
  {
    SubsetSize(a.Keys, b.Keys);
    forall d | d in b ensures d in a && a[d] == b[d] {
      assert d in a.Keys;
    }
  }

  lemma {:induction false} CausalAgrees<S(!new)>(dag: Dag<S>, a: map<int, S>, b: map<int, S>, parents: seq<int>)
    requires Extends(a, b) && ParentsIn(dag.root, parents, a.Keys)
    ensures Causal(dag, a, parents) == Causal(dag, b, parents)
  {
    if parents != [] {
      CausalAgrees(dag, a, b, parents[..|parents| - 1]);
    }
  }

  lemma AppliesLater<S(!new)>(dag: Dag<S>, d: int, a: map<int, S>, b: map<int, S>)
    requires Extends(a, b) && Applies(dag, d, a)
    ensures Applies(dag, d, b) && StateAfter(dag, d, a) == StateAfter(dag, d, b)
  {
    CausalAgrees(dag, a, b, dag.parents[d]);
  }

  lemma {:induction false} SettleGrows<S(!new)>(dag: Dag<S>, k: nat)
    ensures Extends(Settle(dag, k), Settle(dag, k + 1))
  {
    if k != 0 {
      SettleGrows(dag, k - 1);
      forall d | d in Settle(dag, k)
        ensures d in Settle(dag, k + 1) && Settle(dag, k)[d] == Settle(dag, k + 1)[d]
      {
        AppliesLater(dag, d, Settle(dag, k - 1), Settle(dag, k));
      }
    }
  }

  lemma {:induction false} SettleLater<S(!new)>(dag: Dag<S>, j: nat, k: nat)
    requires j <= k
    ensures Extends(Settle(dag, j), Settle(dag, k))
    decreases k
  {
    if j < k {
      SettleLater(dag, j, k - 1);
      SettleGrows(dag, k - 1);
    }
  }

  lemma {:induction false} SettleStalls<S(!new)>(dag: Dag<S>, k: nat)
    ensures |Settle(dag, k)| >= k || Settle(dag, k + 1) == Settle(dag, k)
  {
    hide Advance;
    if k != 0 && |Settle(dag, k)| < k {
      SettleStalls(dag, k - 1);
      SettleGrows(dag, k - 1);
      SubsetSize(Settle(dag, k - 1).Keys, Settle(dag, k).Keys);
      if |Settle(dag, k - 1)| >= k - 1 {
        SameStates(Settle(dag, k - 1), Settle(dag, k));
      }
    }
  }

  /** Recursive definition: an event applies iff every parent applies and it has an effect on the join
      of its parents' states, and the state after it is that join with the effect. */
  lemma AppliesIff<S(!new)>(dag: Dag<S>)
    ensures var after := AfterStates(dag);
      && (forall d :: d in after <==> Applies(dag, d, after))
      && (forall d :: d in after ==> after[d] == StateAfter(dag, d, after))
  {
    var n := |dag.parents|;
    SettleStalls(dag, n);
    SettleGrows(dag, n);
    assert Settle(dag, n + 1).Keys <= dag.parents.Keys;
    SubsetSize(Settle(dag, n + 1).Keys, dag.parents.Keys);
    if Settle(dag, n + 1) != AfterStates(dag) {
      SameStates(AfterStates(dag), Settle(dag, n + 1));
    }
    assert Advance(dag, AfterStates(dag)) == AfterStates(dag);
    assert forall d :: d in AfterStates(dag) <==> d in Advance(dag, AfterStates(dag));
  }

  // ---------------------------------------------------------------- uniqueness

  /** Each event of `order` stands after its parents. */
  ghost predicate Topological(parents: map<int, seq<int>>, root: int, order: seq<int>) {
    forall i :: 0 <= i < |order| ==> order[i] in parents && ParentsIn(root, parents[order[i]], Elems(order[..i]))
  }

  /** Every state of `after` is the one the recursive definition gives it. */
  ghost predicate Earned<S(!new)>(dag: Dag<S>, after: map<int, S>) {
    forall d :: d in after ==> Applies(dag, d, after) && after[d] == StateAfter(dag, d, after)
  }

  /** Nothing else of the graph applies. */
  ghost predicate Closed<S(!new)>(dag: Dag<S>, after: map<int, S>) {
    forall d :: Applies(dag, d, after) ==> d in after
  }

  lemma {:induction false} SettledWithin<S(!new)>(dag: Dag<S>, after: map<int, S>, k: nat)
    requires Closed(dag, after) && Earned(dag, after)
    ensures Extends(Settle(dag, k), after)
  {
    if k != 0 {
      SettledWithin(dag, after, k - 1);
      forall d | d in Settle(dag, k)
        ensures d in after && Settle(dag, k)[d] == after[d]
      {
        AppliesLater(dag, d, Settle(dag, k - 1), after);
      }
    }
  }

  lemma {:induction false} OrderSettles<S(!new)>(dag: Dag<S>, after: map<int, S>, order: seq<int>, k: nat)
    requires Earned(dag, after) && Elems(order) == after.Keys
    requires Topological(dag.parents, dag.root, order) && k <= |order|
    ensures forall i :: 0 <= i < k ==> order[i] in Settle(dag, k) && Settle(dag, k)[order[i]] == after[order[i]]
  {
    if k != 0 {
      OrderSettles(dag, after, order, k - 1);
      var before := Settle(dag, k - 1);
      var known := map d | d in Elems(order[..k - 1]) && d in after :: after[d];
      forall d | d in known ensures d in before && known[d] == before[d] {
        var i :| 0 <= i < k - 1 && order[i] == d;
      }
      forall i | 0 <= i < k
        ensures order[i] in Settle(dag, k) && Settle(dag, k)[order[i]] == after[order[i]]
      {
        var d := order[i];
        assert d in Elems(order);
        forall q | q in dag.parents[d] && q != dag.root ensures q in known {
          var j :| 0 <= j < i && order[j] == q;
          assert order[..k - 1][j] == q && q in Elems(order);
        }
        CausalAgrees(dag, known, after, dag.parents[d]);
        CausalAgrees(dag, known, before, dag.parents[d]);
      }
    }
  }

  /** States earned in order are among those of the recursive definition. */
  lemma OrderWithin<S(!new)>(dag: Dag<S>, after: map<int, S>, order: seq<int>)
    requires Earned(dag, after) && Elems(order) == after.Keys && Distinct(order)
    requires Topological(dag.parents, dag.root, order)
    ensures Extends(after, AfterStates(dag))
  {
    hide Earned, Advance;
    DistinctSize(order);
    assert Elems(order) <= dag.parents.Keys;
    SubsetSize(Elems(order), dag.parents.Keys);
    OrderSettles(dag, after, order, |order|);
    SettleLater(dag, |order|, |dag.parents|);
    forall d | d in after ensures d in AfterStates(dag) && after[d] == AfterStates(dag)[d] {
      var i :| 0 <= i < |order| && order[i] == d;
    }
  }

  /** The recursive definition is the only closed account of the graph in which every event stands
      after its parents. */
  lemma OnlyAccount<S(!new)>(dag: Dag<S>, after: map<int, S>, order: seq<int>)
    requires Earned(dag, after) && Closed(dag, after)
    requires Topological(dag.parents, dag.root, order) && Elems(order) == after.Keys && Distinct(order)
    ensures after == AfterStates(dag)
  {
    hide Earned, Closed, Topological;
    SettledWithin(dag, after, |dag.parents|);
    OrderWithin(dag, after, order);
    SubsetSize(AfterStates(dag).Keys, after.Keys);
    SameStates(after, AfterStates(dag));
  }

  // ---------------------------------------------------------------- growth

  /** What `small` applies, `big` holds with the same parents and accepts on the same causal state. */
  ghost predicate Refines<S(!new)>(small: Dag<S>, big: Dag<S>) {
    && small.root == big.root && small.base == big.base && small.empty == big.empty
    && (forall a, b :: small.join(a, b) == big.join(a, b))
    && (forall d :: d in AfterStates(small) ==>
      d in big.parents && d in small.parents && big.parents[d] == small.parents[d])
    && (forall d, s :: d in AfterStates(small) && small.effect(d, s).Some? ==> big.effect(d, s) == small.effect(d, s))
  }

  lemma {:induction false} CausalRefines<S(!new)>(small: Dag<S>, big: Dag<S>, a: map<int, S>, parents: seq<int>)
    requires Refines(small, big)
    ensures Causal(small, a, parents) == Causal(big, a, parents)
  {
    if parents != [] {
      CausalRefines(small, big, a, parents[..|parents| - 1]);
    }
  }

  lemma {:induction false} SettleRefines<S(!new)>(small: Dag<S>, big: Dag<S>, k: nat)
    requires Refines(small, big) && k <= |small.parents|
    ensures Extends(Settle(small, k), AfterStates(big))
  {
    if k != 0 {
      SettleRefines(small, big, k - 1);
      SettleLater(small, k, |small.parents|);
      AppliesIff(big);
      var before, after := Settle(small, k - 1), AfterStates(big);
      forall d | d in Settle(small, k)
        ensures d in after && Settle(small, k)[d] == after[d]
      {
        CausalRefines(small, big, before, small.parents[d]);
        CausalAgrees(big, before, after, small.parents[d]);
        assert big.parents[d] == small.parents[d];
        assert Applies(big, d, after);
      }
    }
  }

  /** What applies goes on applying, in the same state, in any graph that refines this one. */
  lemma Growth<S(!new)>(small: Dag<S>, big: Dag<S>)
    requires Refines(small, big)
    ensures Extends(AfterStates(small), AfterStates(big))
  {
    SettleRefines(small, big, |small.parents|);
  }

  // ---------------------------------------------------------------- the order of application

  /** An event stands before every later one that could have been taken in its place. */
  ghost predicate SmallestFirst(parents: map<int, seq<int>>, root: int, order: seq<int>)
    requires Elems(order) <= parents.Keys
  {
    forall i, j :: 0 <= i < j < |order| ==>
      (ParentsIn(root, parents[order[j]], Elems(order[..i])) ==> order[i] < order[j])
  }

  ghost function ReadyIn(parents: map<int, seq<int>>, root: int, todo: set<int>, done: set<int>): set<int> {
    set d | d in todo && d !in done && d in parents && ParentsIn(root, parents[d], done)
  }

  /** `applied` after `done`: parents first, ties by ascending digest. */
  ghost function KahnOrder(parents: map<int, seq<int>>, root: int, applied: set<int>, done: seq<int>): (order: seq<int>)
    ensures Elems(order) <= applied + Elems(done)
    decreases applied - Elems(done)
  {
    var ready := ReadyIn(parents, root, applied, Elems(done));
    if ready == {} then done
    else
      ElemsAppend(done, Min(ready));
      KahnOrder(parents, root, applied, done + [Min(ready)])
  }

  lemma PrefixMember(order: seq<int>, k: nat, d: int)
    requires k <= |order|
    ensures d in Elems(order[..k]) <==> exists j :: 0 <= j < k && order[j] == d
  {
    if d in Elems(order[..k]) {
      var j :| 0 <= j < k && order[..k][j] == d;
    }
    if j :| 0 <= j < k && order[j] == d {
      assert order[..k][j] == d;
    }
  }

  /** The next event of such an order is the smallest ready one. */
  lemma NextIsSmallest(parents: map<int, seq<int>>, root: int, order: seq<int>, k: nat)
    requires Distinct(order) && Elems(order) <= parents.Keys && k < |order|
    requires Topological(parents, root, order) && SmallestFirst(parents, root, order)
    ensures var ready := ReadyIn(parents, root, Elems(order), Elems(order[..k]));
      ready != {} && Min(ready) == order[k]
  {
    var ready := ReadyIn(parents, root, Elems(order), Elems(order[..k]));
    PrefixMember(order, k, order[k]);
    assert order[k] in ready;
    forall d | d in ready ensures order[k] <= d {
      var j :| 0 <= j < |order| && order[j] == d;
      PrefixMember(order, k, d);
      assert j >= k;
    }
  }

  lemma {:induction false} OrderFrom(parents: map<int, seq<int>>, root: int, order: seq<int>, k: nat)
    requires Distinct(order) && Elems(order) <= parents.Keys && k <= |order|
    requires Topological(parents, root, order) && SmallestFirst(parents, root, order)
    ensures KahnOrder(parents, root, Elems(order), order[..k]) == order
    decreases |order| - k
  {
    if k == |order| {
      assert order[..k] == order;
      assert ReadyIn(parents, root, Elems(order), Elems(order)) == {};
    } else {
      NextIsSmallest(parents, root, order, k);
      assert order[..k] + [order[k]] == order[..k + 1];
      OrderFrom(parents, root, order, k + 1);
    }
  }

  /** Parents first and smallest first leaves one order of a set of events. */
  lemma OnlyOrder(parents: map<int, seq<int>>, root: int, order: seq<int>)
    requires Distinct(order) && Elems(order) <= parents.Keys
    requires Topological(parents, root, order) && SmallestFirst(parents, root, order)
    ensures KahnOrder(parents, root, Elems(order), []) == order
  {
    OrderFrom(parents, root, order, 0);
    assert order[..0] == [];
  }

  // ---------------------------------------------------------------- the order, from the definition

  /** Everything still to come stands after each event of `done` it could have been taken for. */
  ghost predicate ComesAfter(parents: map<int, seq<int>>, root: int, applied: set<int>, done: seq<int>)
    requires applied <= parents.Keys
  {
    forall i, d :: 0 <= i < |done| && d in applied && d !in Elems(done) ==>
      (ParentsIn(root, parents[d], Elems(done[..i])) ==> done[i] < d)
  }

  ghost predicate GoodPrefix(parents: map<int, seq<int>>, root: int, applied: set<int>, done: seq<int>)
    requires applied <= parents.Keys
  {
    && Distinct(done) && Elems(done) <= applied
    && Topological(parents, root, done) && SmallestFirst(parents, root, done)
    && ComesAfter(parents, root, applied, done)
  }

  lemma GoodNext(parents: map<int, seq<int>>, root: int, applied: set<int>, done: seq<int>, d: int)
    requires applied <= parents.Keys && GoodPrefix(parents, root, applied, done)
    requires var ready := ReadyIn(parents, root, applied, Elems(done)); ready != {} && d == Min(ready)
    ensures GoodPrefix(parents, root, applied, done + [d])
  {
    ElemsAppend(done, d);
    var next := done + [d];
    assert forall i :: 0 <= i <= |done| ==> next[..i] == done[..i];
    forall i, e | 0 <= i < |next| && e in applied && e !in Elems(next) && ParentsIn(root, parents[e], Elems(next[..i]))
      ensures next[i] < e
    {
      if i == |done| {
        assert next[..i] == done;
        assert e in ReadyIn(parents, root, applied, Elems(done));
      }
    }
  }

  lemma {:induction false} KahnOrderGood(parents: map<int, seq<int>>, root: int, applied: set<int>, done: seq<int>)
    requires applied <= parents.Keys && GoodPrefix(parents, root, applied, done)
    ensures GoodPrefix(parents, root, applied, KahnOrder(parents, root, applied, done))
    ensures ReadyIn(parents, root, applied, Elems(KahnOrder(parents, root, applied, done))) == {}
    decreases applied - Elems(done)
  {
    hide GoodPrefix;
    var ready := ReadyIn(parents, root, applied, Elems(done));
    if ready != {} {
      GoodNext(parents, root, applied, done, Min(ready));
      ElemsAppend(done, Min(ready));
      KahnOrderGood(parents, root, applied, done + [Min(ready)]);
    }
  }

  lemma {:induction false} NoneReadyAllDone<S(!new)>(dag: Dag<S>, done: set<int>, k: nat)
    requires ReadyIn(dag.parents, dag.root, AfterStates(dag).Keys, done) == {} && k <= |dag.parents|
    ensures Settle(dag, k).Keys <= done
  {
    if k != 0 {
      NoneReadyAllDone(dag, done, k - 1);
      SettleLater(dag, k, |dag.parents|);
      forall d | d in Settle(dag, k) ensures d in done {
        assert ParentsIn(dag.root, dag.parents[d], done);
        assert d !in ReadyIn(dag.parents, dag.root, AfterStates(dag).Keys, done);
      }
    }
  }

  /** What applies can be put in order: each event after its parents, the smallest first, none left out. */
  lemma OrderExists<S(!new)>(dag: Dag<S>)
    ensures var applied := AfterStates(dag).Keys;
      var order := KahnOrder(dag.parents, dag.root, applied, []);
      && applied <= dag.parents.Keys && GoodPrefix(dag.parents, dag.root, applied, order)
      && Elems(order) == applied
  {
    SettledInGraph(dag, |dag.parents|);
    var applied := AfterStates(dag).Keys;
    assert Elems<int>([]) == {};
    KahnOrderGood(dag.parents, dag.root, applied, []);
    var order := KahnOrder(dag.parents, dag.root, applied, []);
    NoneReadyAllDone(dag, Elems(order), |dag.parents|);
  }
}
