/** `appliedCopies`: what memory keeps of an epoch folds again to exactly those events, in the same
    order, with nothing pending or refused. */
module EpochRefold {
  import opened Basics
  import opened Dag
  import opened Events
  import opened EpochSpec
  import opened EpochTheorems
  import opened EpochMemory

  ghost function CausalIn(ep: Epoch, g: Graph, d: Digest): EpochState
    requires d in g
  {
    Causal(DagOf(ep, g), After(ep, g), g[d].event.p)
  }

  /** `small` is the first `n` events applied of `g`, each still accepted where it stood, at no cost. */
  ghost predicate RefoldOf(ep: Epoch, g: Graph, n: nat, small: Graph) {
    && n <= |Applied(ep, g)| && small.Keys == Elems(Applied(ep, g)[..n]) && small.Keys <= g.Keys
    && (forall d :: d in small ==>
      && small[d].event == g[d].event
      && Judge(ep, small[d], CausalIn(ep, g, d)) == Judge(ep, g[d], CausalIn(ep, g, d)).(charge := 0))
  }

  /** A prefix of the order is closed under ancestors and keeps its order. */
  lemma {:induction false} PrefixOrder(parents: map<Digest, seq<Digest>>, root: Digest, order: seq<Digest>, n: nat, small: map<Digest, seq<Digest>>)
    requires n <= |order| && Distinct(order) && Elems(order) <= parents.Keys
    requires Topological(parents, root, order) && SmallestFirst(parents, root, order)
    requires small.Keys == Elems(order[..n]) && forall d :: d in small ==> d in parents && small[d] == parents[d]
    ensures Distinct(order[..n]) && Topological(small, root, order[..n]) && SmallestFirst(small, root, order[..n])
    ensures forall d :: d in small ==> ParentsIn(root, small[d], small.Keys)
  {
    var prefix := order[..n];
    assert forall i :: 0 <= i <= n ==> prefix[..i] == order[..i];
    assert forall i :: 0 <= i < n ==> prefix[i] == order[i] && prefix[i] in Elems(prefix);
    forall d | d in small ensures ParentsIn(root, small[d], small.Keys) {
      var i :| 0 <= i < n && prefix[i] == d;
      forall q | q in small[d] && q != root ensures q in small.Keys {
        assert q in Elems(order[..i]);
        PrefixMember(order, i, q);
        PrefixMember(order, n, q);
      }
    }
  }

  lemma {:induction false} RefoldShape(ep: Epoch, g: Graph, n: nat, small: Graph)
    requires RefoldOf(ep, g, n, small)
    ensures n <= |Applied(ep, g)|
    ensures var prefix := Applied(ep, g)[..n];
      && Distinct(prefix) && Elems(prefix) == small.Keys && small.Keys <= After(ep, g).Keys && After(ep, g).Keys <= g.Keys
      && Topological(ParentsOf(small), ep.anchor.epoch, prefix) && SmallestFirst(ParentsOf(small), ep.anchor.epoch, prefix)
    ensures forall d :: d in small ==> ParentsIn(ep.anchor.epoch, small[d].event.p, small.Keys)
  {
    hide Judge, Join, After, CausalIn, Applied;
    AppliedOrder(ep, g);
    AfterWithin(ep, g);
    PrefixMembers(Applied(ep, g), n);
    assert ParentsOf(small).Keys == small.Keys && ParentsOf(g).Keys == g.Keys;
    PrefixOrder(ParentsOf(g), ep.anchor.epoch, Applied(ep, g), n, ParentsOf(small));
    forall d | d in small ensures ParentsIn(ep.anchor.epoch, small[d].event.p, small.Keys) {
      assert ParentsIn(ep.anchor.epoch, ParentsOf(small)[d], ParentsOf(small).Keys);
    }
  }

  /** The part of the states that the refold keeps. */
  ghost function StatesOf(ep: Epoch, g: Graph, small: Graph): States {
    map d | d in small && d in After(ep, g) :: After(ep, g)[d]
  }

  lemma {:induction false} RefoldStates(ep: Epoch, g: Graph, n: nat, small: Graph)
    requires RefoldOf(ep, g, n, small)
    ensures Applied(ep, small) == Applied(ep, g)[..n]
    ensures After(ep, small) == StatesOf(ep, g, small) && After(ep, small).Keys == small.Keys
    ensures forall d :: d in small ==>
      Causal(DagOf(ep, small), After(ep, small), small[d].event.p) == CausalIn(ep, g, d)
  {
    hide Judge, Join, Topological, SmallestFirst, CausalIn, Earned, Causal, DagOf, RefoldOf, ParentsIn, Closed, KahnOrder;
    RefoldShape(ep, g, n, small);
    var after, prefix := StatesOf(ep, g, small), Applied(ep, g)[..n];
    assert after.Keys == small.Keys;
    RefoldEarned(ep, g, n, small, after);
    WithinCloses(ep, small, after);
    OnlyAccount(DagOf(ep, small), after, prefix);
    OnlyOrder(ParentsOf(small), ep.anchor.epoch, prefix);
  }

  lemma WithinCloses(ep: Epoch, g: Graph, after: States)
    requires after.Keys == g.Keys
    ensures Closed(DagOf(ep, g), after)
    ensures DagOf(ep, g).parents == ParentsOf(g) && DagOf(ep, g).root == ep.anchor.epoch
  {
  }

  lemma PrefixMembers(order: seq<Digest>, n: nat)
    requires n <= |order|
    ensures Elems(order[..n]) <= Elems(order)
  {
  }

  lemma {:induction false} RefoldEarned(ep: Epoch, g: Graph, n: nat, small: Graph, after: States)
    requires RefoldOf(ep, g, n, small) && After(ep, g).Keys <= g.Keys
    requires after.Keys == small.Keys && small.Keys <= After(ep, g).Keys
    requires forall d :: d in after ==> after[d] == After(ep, g)[d]
    requires forall d :: d in small ==> ParentsIn(ep.anchor.epoch, small[d].event.p, small.Keys)
    ensures Earned(DagOf(ep, small), after)
    ensures forall d :: d in small ==> Causal(DagOf(ep, small), after, small[d].event.p) == CausalIn(ep, g, d)
  {
    hide Judge, Join, Applied, After;
    EventApplies(ep, g);
    forall d | d in small
      ensures Causal(DagOf(ep, small), after, small[d].event.p) == CausalIn(ep, g, d)
      ensures Applies(DagOf(ep, small), d, after) && after[d] == StateAfter(DagOf(ep, small), d, after)
    {
      CausalAgrees(DagOf(ep, g), after, After(ep, g), g[d].event.p);
      SameCausal(ep, small, g, after, g[d].event.p);
    }
  }

  lemma {:induction false} SameCausal(ep: Epoch, a: Graph, b: Graph, after: States, parents: seq<Digest>)
    ensures Causal(DagOf(ep, a), after, parents) == Causal(DagOf(ep, b), after, parents)
  {
    hide Judge, Join, AnchorState;
    if parents != [] {
      SameCausal(ep, a, b, after, parents[..|parents| - 1]);
    }
  }

  /** Every event of the refold is judged as it was, for free. */
  lemma {:induction false} RefoldVerdicts(ep: Epoch, g: Graph, n: nat, small: Graph)
    requires RefoldOf(ep, g, n, small)
    ensures After(ep, small).Keys == small.Keys && small.Keys <= g.Keys
    ensures forall d :: d in small ==>
      VerdictOn(ep, small, After(ep, small), d) == VerdictOn(ep, g, After(ep, g), d).(charge := 0)
  {
    hide Judge, Join, Applied, After, Causal, DagOf;
    RefoldStates(ep, g, n, small);
  }

  lemma {:induction false} NothingTotals<T(!new)>(m: map<T, nat>)
    requires forall x :: x in m ==> m[x] == 0
    ensures Total(m) == 0
    decreases |m|
  {
    if m != map[] {
      var x :| x in m;
      TotalRemove(m, x);
      NothingTotals(m - {x});
    }
  }

  lemma {:induction false} RefoldAccount(ep: Epoch, g: Graph, n: nat, small: Graph)
    requires RefoldOf(ep, g, n, small)
    ensures Evaluated(ep, small) == small.Keys && After(ep, small).Keys == small.Keys
    ensures Total(Charges(ep, small)) == 0
    ensures AuthenticCopies(ep, small).Keys == small.Keys && small.Keys <= AuthenticCopies(ep, g).Keys
    ensures forall d :: d in small ==> AuthenticCopies(ep, small)[d] == AuthenticCopies(ep, g)[d]
  {
    hide Judge, Join, Applied, After, VerdictOn;
    RefoldVerdicts(ep, g, n, small);
    RefoldShape(ep, g, n, small);
    NothingTotals(Charges(ep, small));
    AuthenticAll(ep, g);
    AuthenticAll(ep, small);
  }

  lemma {:induction false} UnionSame(ep: Epoch, g: Graph, n: nat, small: Graph, order: seq<Digest>)
    requires RefoldOf(ep, g, n, small) && Elems(order) <= small.Keys && Elems(order) <= g.Keys
    ensures Union(ep, small, After(ep, small), order) == Union(ep, g, After(ep, g), order)
  {
    hide Judge, Join, Applied, After, VerdictOn, RefoldOf;
    RefoldVerdicts(ep, g, n, small);
    if order != [] {
      var k := |order| - 1;
      PrefixMembers(order, k);
      assert order[k] in Elems(order);
      UnionSame(ep, g, n, small, order[..k]);
    }
  }
}
