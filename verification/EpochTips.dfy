/** `epochHeads`: the tips an event built now should name, and why naming them puts it after everything. Every
    applied event stands behind a tip, and a state only grows on the way to it; so an event that names all tips is
    judged on a state that has all the epoch has applied. With more than sixteen tips the smallest are named and
    the rest stay tips for the next event. */
module EpochTips {
  import opened Basics
  import opened Dag
  import opened Events
  import opened EpochSpec
  import opened EpochTheorems
  import opened EpochMemory
  import opened Lists

  /** The applied events that are nobody's parent among the applied. */
  ghost function TipsOf(r: EpochFold): set<Digest>
    requires r.Merged?
  {
    set d | d in r.applied && !exists e :: e in r.applied && e in r.authentic && d in r.authentic[e].event.p
  }

  /** Up to sixteen tips, the smallest first, or the epoch's own opening when nothing applied. */
  ghost predicate AreHeads(r: EpochFold, heads: seq<Digest>)
    requires r.Merged?
  {
    && Ascending(heads) && 0 < |heads| <= MAX_EVENT_PARENTS
    && (TipsOf(r) == {} ==> heads == [r.head.epoch])
    && (TipsOf(r) != {} ==> Elems(heads) <= TipsOf(r))
    && (TipsOf(r) != {} ==> forall d :: d in TipsOf(r) && d !in heads ==> |heads| == MAX_EVENT_PARENTS && heads[|heads| - 1] < d)
  }

  method TipsToName(r: EpochFold) returns (heads: seq<Digest>)
    requires r.Merged?
    ensures AreHeads(r, heads)
  {
    var named: set<Digest> := {};
    for i := 0 to |r.applied|
      invariant forall d :: d in named <==> exists j :: 0 <= j < i && r.applied[j] in r.authentic && d in r.authentic[r.applied[j]].event.p
    {
      var e := r.applied[i];
      if e in r.authentic {
        named := named + Elems(r.authentic[e].event.p);
      }
    }
    NamedIs(r, named);
    var tips: seq<Digest> := [];
    for i := 0 to |r.applied|
      invariant Ascending(tips) && forall d :: d in Elems(tips) <==> d in r.applied[..i] && d !in named
    {
      assert r.applied[..i + 1] == r.applied[..i] + [r.applied[i]];
      if r.applied[i] !in named && r.applied[i] !in Elems(tips) {
        tips := InsertSorted(tips, r.applied[i]);
      }
    }
    assert r.applied[..|r.applied|] == r.applied;
    assert forall d :: d in Elems(tips) <==> d in TipsOf(r);
    if tips == [] {
      return [r.head.epoch];
    }
    assert tips[0] in Elems(tips);
    heads := if |tips| <= MAX_EVENT_PARENTS then tips else tips[..MAX_EVENT_PARENTS];
    FirstOfTips(tips, heads);
  }

  lemma NamedIs(r: EpochFold, named: set<Digest>)
    requires r.Merged?
    requires forall d :: d in named <==> exists j :: 0 <= j < |r.applied| && r.applied[j] in r.authentic && d in r.authentic[r.applied[j]].event.p
    ensures forall d :: d in r.applied ==> (d in TipsOf(r) <==> d !in named)
  {
    forall d | d in r.applied ensures d in TipsOf(r) <==> d !in named {
      if d in named {
        var j :| 0 <= j < |r.applied| && r.applied[j] in r.authentic && d in r.authentic[r.applied[j]].event.p;
        var e := r.applied[j];
        assert e in r.applied && e in r.authentic && d in r.authentic[e].event.p;
      }
      if d !in TipsOf(r) {
        var e :| e in r.applied && e in r.authentic && d in r.authentic[e].event.p;
        var j :| 0 <= j < |r.applied| && r.applied[j] == e;
      }
    }
  }

  lemma FirstOfTips(tips: seq<Digest>, heads: seq<Digest>)
    requires Ascending(tips) && tips != []
    requires heads == if |tips| <= MAX_EVENT_PARENTS then tips else tips[..MAX_EVENT_PARENTS]
    ensures Ascending(heads) && Elems(heads) <= Elems(tips)
    ensures forall d :: d in Elems(tips) && d !in heads ==> |heads| == MAX_EVENT_PARENTS && heads[|heads| - 1] < d
  {
    forall d | d in Elems(tips) && d !in heads ensures |heads| == MAX_EVENT_PARENTS && heads[|heads| - 1] < d {
      var i :| 0 <= i < |tips| && tips[i] == d;
      assert forall j :: 0 <= j < |heads| ==> heads[j] == tips[j] && heads[j] in heads;
    }
  }

  // ---------------------------------------------------------------- naming the tips sees everything

  /** Whatever `small` holds, `big` does, with leases no shorter. */
  ghost predicate Sees(small: EpochState, big: EpochState) {
    && small.deny <= big.deny && small.removed <= big.removed && small.added.Keys <= big.added.Keys
    && (forall a :: a in small.leases ==> a in big.leases && small.leases[a] <= big.leases[a])
  }

  lemma JoinSees(a: EpochState, b: EpochState)
    ensures Sees(a, Join(a, b)) && Sees(b, Join(a, b))
  {
  }

  lemma SeesOn(a: EpochState, b: EpochState, c: EpochState)
    requires Sees(a, b) && Sees(b, c)
    ensures Sees(a, c)
  {
    assert forall k :: k in a.leases ==> k in b.leases && a.leases[k] <= b.leases[k] <= c.leases[k];
  }

  lemma {:induction false} CausalSees(ep: Epoch, g: Graph, after: States, parents: seq<Digest>, q: Digest)
    requires q in parents && q in after && q != ep.anchor.epoch
    ensures Sees(after[q], Causal(DagOf(ep, g), after, parents))
  {
    hide Judge, Join, Sees, AnchorState;
    var n := |parents| - 1;
    var last, before := parents[n], Causal(DagOf(ep, g), after, parents[..n]);
    assert parents == parents[..n] + [last];
    if last == ep.anchor.epoch {
      JoinSees(before, AnchorState(ep));
    } else if last in after {
      JoinSees(before, after[last]);
    }
    if last != q {
      CausalSees(ep, g, after, parents[..n], q);
      SeesOn(after[q], before, Causal(DagOf(ep, g), after, parents));
    }
  }

  lemma {:induction false} ChildSees(ep: Epoch, g: Graph, d: Digest, q: Digest)
    requires d in After(ep, g) && d in g && q in g[d].event.p && q in After(ep, g) && q != ep.anchor.epoch
    ensures Sees(After(ep, g)[q], After(ep, g)[d])
  {
    hide Judge, Join, Sees, After;
    EventApplies(ep, g);
    var causal := Causal(DagOf(ep, g), After(ep, g), g[d].event.p);
    CausalSees(ep, g, After(ep, g), g[d].event.p, q);
    JoinSees(causal, VerdictOn(ep, g, After(ep, g), d).outcome.effect);
    SeesOn(After(ep, g)[q], causal, After(ep, g)[d]);
  }

  /** Every applied event stands behind some tip. */
  lemma {:induction false} BehindTip(ep: Epoch, g: Graph, tips: set<Digest>, i: nat) returns (h: Digest)
    requires i < |Applied(ep, g)| && ep.anchor.epoch !in g
    requires forall d :: d in Applied(ep, g) && d !in tips ==> exists e :: e in Applied(ep, g) && e in g && d in g[e].event.p
    ensures h in tips && h in After(ep, g) && Applied(ep, g)[i] in After(ep, g)
    ensures Sees(After(ep, g)[Applied(ep, g)[i]], After(ep, g)[h])
    decreases |Applied(ep, g)| - i
  {
    hide Judge, Join, After, Sees, Applied;
    AppliedOrder(ep, g);
    AfterWithin(ep, g);
    var order := Applied(ep, g);
    var d := order[i];
    assert d in Elems(order);
    if d in tips {
      h := d;
      SeesItself(After(ep, g)[d]);
    } else {
      var e :| e in order && e in g && d in g[e].event.p;
      var j :| 0 <= j < |order| && order[j] == e;
      StandsLater(ep, g, order, i, j);
      h := BehindTip(ep, g, tips, j);
      assert e in Elems(order);
      ChildSees(ep, g, e, d);
      SeesOn(After(ep, g)[d], After(ep, g)[e], After(ep, g)[h]);
    }
  }

  lemma SeesItself(a: EpochState)
    ensures Sees(a, a)
  {
  }

  lemma StandsLater(ep: Epoch, g: Graph, order: seq<Digest>, i: nat, j: nat)
    requires Distinct(order) && Topological(ParentsOf(g), ep.anchor.epoch, order) && i < |order| && j < |order|
    requires order[j] in g && order[i] in g[order[j]].event.p && order[i] != ep.anchor.epoch
    ensures i < j
  {
    var e := order[j];
    assert ParentsOf(g)[e] == g[e].event.p;
    assert order[i] in Elems(order[..j]);
    PrefixMember(order, j, order[i]);
  }

  /** An event that names every tip is judged on a state that has all the epoch has applied. */
  lemma {:induction false} NamingTipsSeesAll(ep: Epoch, view: View, maxEvents: nat, heads: seq<Digest>, d: Digest)
    requires FoldSpec(ep, view, maxEvents).Merged? && ep.anchor.epoch !in GraphOf(ep, view)
    requires TipsOf(FoldSpec(ep, view, maxEvents)) <= Elems(heads) && d in FoldSpec(ep, view, maxEvents).applied
    ensures var g := GraphOf(ep, view);
      d in After(ep, g) && Sees(After(ep, g)[d], Causal(DagOf(ep, g), After(ep, g), heads))
  {
    hide Judge, Join, After, Sees, Applied, GraphOf, Charges, Reasons, Union, Evaluated, MembersOf, AuthenticCopies;
    var g, r := GraphOf(ep, view), FoldSpec(ep, view, maxEvents);
    AuthenticAll(ep, g);
    AppliedOrder(ep, g);
    forall x | x in Applied(ep, g) && x !in TipsOf(r) ensures exists e :: e in Applied(ep, g) && e in g && x in g[e].event.p {
      var e :| e in r.applied && e in r.authentic && x in r.authentic[e].event.p;
      assert e in Elems(Applied(ep, g));
    }
    var i :| 0 <= i < |r.applied| && r.applied[i] == d;
    var h := BehindTip(ep, g, TipsOf(r), i);
    AfterWithin(ep, g);
    CausalSees(ep, g, After(ep, g), heads, h);
    SeesOn(After(ep, g)[d], After(ep, g)[h], Causal(DagOf(ep, g), After(ep, g), heads));
  }
}
