/** Memory: what was applied once is applied again whatever else is presented, and the copies memory
    keeps of an epoch fold again to exactly themselves. */
module EpochMemory {
  import opened Basics
  import opened Dag
  import opened Events
  import opened EpochSpec
  import opened EpochTheorems
  import opened EpochHead

  /** A view of entries that were shaped as triage checks them, held ones of this epoch under their digest. */
  ghost predicate WellView(ep: Epoch, view: View) {
    && (forall d :: d in view.held ==>
      IsEpochShape(ep.suite, view.held[d]) && Local(ep, view.held[d].event) && DigestOf(ep, view.held[d].event) == d)
    && (forall x :: x in view.present ==> IsEpochShape(ep.suite, x))
  }

  /** What a fold is given is always such a view. */
  lemma ViewsWell(ep: Epoch, trusted: seq<EpochEntry>, events: seq<EpochEntry>)
    ensures WellView(ep, ViewOf(ep, trusted, events))
  {
    HeldShaped(ep, trusted);
  }

  lemma GraphKeyed(ep: Epoch, view: View)
    requires WellView(ep, view)
    ensures Keyed(ep, GraphOf(ep, view))
    ensures forall d :: d in GraphOf(ep, view) ==> Local(ep, GraphOf(ep, view)[d].event)
    ensures NoNegativeLease(GraphOf(ep, view))
  {
    hide Local, ListsOutside;
  }

  ghost predicate NoNegativeLease(g: Graph) {
    forall d :: d in g && g[d].event.action.Renew? ==> 0 <= g[d].event.action.lease
  }

  lemma AfterWithin(ep: Epoch, g: Graph)
    ensures After(ep, g).Keys <= g.Keys
  {
    hide Judge, Join;
    SettledInGraph(DagOf(ep, g), |ParentsOf(g)|);
  }

  // ---------------------------------------------------------------- nothing is forgotten

  /** Memory holds a copy of every event the first fold applied. */
  ghost predicate Remembers(ep: Epoch, g: Graph, held: map<Digest, EpochCopy>) {
    forall d :: d in After(ep, g) ==> d in g && d in held && held[d].event == g[d].event
  }

  lemma RememberedCandidates(ep: Epoch, g: Graph, view: View)
    requires Remembers(ep, g, view.held)
    ensures forall d :: d in After(ep, g) ==>
      && d in GraphOf(ep, view) && d in g && GraphOf(ep, view)[d].event == g[d].event
      && GraphOf(ep, view)[d].trusted.Some?
  {
    hide Judge, Join;
    EventApplies(ep, g);
    forall d | d in After(ep, g) ensures d in GraphOf(ep, view) && GraphOf(ep, view)[d].event == g[d].event
      && GraphOf(ep, view)[d].trusted.Some?
    {
      assert d in Candidates(ep, view);
      forall q | q in g[d].event.p && q != ep.anchor.epoch ensures q in Candidates(ep, view) {
        assert q in After(ep, g);
      }
    }
  }

  lemma TrustedJudged(ep: Epoch, a: Candidate, b: Candidate, causal: EpochState)
    requires a.event == b.event && b.trusted.Some? && Judge(ep, a, causal).outcome.Accepted?
    ensures Judge(ep, b, causal).outcome == Judge(ep, a, causal).outcome
  {
    hide Rules, Charge, FailedCopies;
  }

  /** Whatever else is presented, every event memory holds applies again, in the same state. */
  lemma NothingForgotten(ep: Epoch, g: Graph, view: View)
    requires Remembers(ep, g, view.held)
    ensures Extends(After(ep, g), After(ep, GraphOf(ep, view)))
  {
    hide Judge, Join, GraphOf;
    var g' := GraphOf(ep, view);
    RememberedCandidates(ep, g, view);
    AfterWithin(ep, g);
    var small, big := DagOf(ep, g), DagOf(ep, g');
    forall d, s | d in After(ep, g) && small.effect(d, s).Some? ensures big.effect(d, s) == small.effect(d, s) {
      TrustedJudged(ep, g[d], g'[d], s);
    }
    assert Refines(small, big);
    Growth(small, big);
  }

  /** Everything the smaller state holds, the larger holds, with leases no shorter. */
  ghost predicate StateWithin(small: EpochState, big: EpochState) {
    && small.deny <= big.deny && small.removed <= big.removed && small.added.Keys <= big.added.Keys
    && (forall a :: a in small.leases ==> a in big.leases && small.leases[a] <= big.leases[a])
    && (forall a :: a in big.leases ==> 0 <= big.leases[a])
  }

  /** The same of two heads: no denial, removal or incarnation is lost. */
  ghost predicate HeadWithin(small: KeyState, big: KeyState) {
    && small.deny <= big.deny && small.members.Keys <= big.members.Keys
    && (forall a :: a in small.members && small.members[a].removed ==> big.members[a].removed)
    && (small.saturated ==> big.saturated)
  }

  /** And no lease gets shorter, nor does a member that could not act come back. */
  ghost predicate MembersWithin(small: map<Digest, MemberState>, big: map<Digest, MemberState>)
    requires small.Keys <= big.Keys
  {
    forall a :: a in small ==>
      && small[a].entry.lease <= big[a].entry.lease
      && (big[a].effective ==> small[a].effective)
  }

  lemma UnionGrows(ep: Epoch, v1: View, v2: View)
    requires WellView(ep, v1) && WellView(ep, v2) && Remembers(ep, GraphOf(ep, v1), v2.held)
    ensures var g1, g2 := GraphOf(ep, v1), GraphOf(ep, v2);
      var u1, u2 := Union(ep, g1, After(ep, g1), Applied(ep, g1)), Union(ep, g2, After(ep, g2), Applied(ep, g2));
      && StateWithin(u1, u2)
      && (ep.anchor.members.Keys !! g2.Keys ==> forall a :: a in u1.added ==> u2.added[a] == u1.added[a])
  {
    hide Judge, Join, GraphOf, Union, Applied, After, WellView;
    var g1, g2 := GraphOf(ep, v1), GraphOf(ep, v2);
    GraphKeyed(ep, v1);
    GraphKeyed(ep, v2);
    AppliedOrder(ep, g1);
    AppliedOrder(ep, g2);
    AfterWithin(ep, g1);
    AfterWithin(ep, g2);
    RememberedCandidates(ep, g1, v2);
    NothingForgotten(ep, g1, v2);
    UnionMeans(ep, g1, Applied(ep, g1));
    UnionMeans(ep, g2, Applied(ep, g2));
    MergesGrow(g1, g2, After(ep, g1).Keys, After(ep, g2).Keys, AnchorState(ep),
      Union(ep, g1, After(ep, g1), Applied(ep, g1)), Union(ep, g2, After(ep, g2), Applied(ep, g2)));
  }

  lemma MergesGrow(g1: Graph, g2: Graph, done1: set<Digest>, done2: set<Digest>, base: EpochState, u1: EpochState, u2: EpochState)
    requires done1 <= g1.Keys && done2 <= g2.Keys && done1 <= done2 && NoNegativeLease(g2)
    requires forall d :: d in done1 ==> g1[d].event == g2[d].event
    requires IsMergeOf(g1, done1, base, u1) && IsMergeOf(g2, done2, base, u2)
    ensures StateWithin(u1, u2)
    ensures base.added.Keys !! g2.Keys ==> forall a :: a in u1.added ==> u2.added[a] == u1.added[a]
  {
    hide LeasesOf, DenyOf, RemovedOf, AddedOf;
    LeasesGrow(g1, g2, done1, done2, u1.leases, u2.leases);
    MarksGrow(g1, g2, done1, done2, base, u1, u2);
    AddsGrow(g1, g2, done1, done2, base.added, u1.added, u2.added);
  }

  lemma AddsGrow(g1: Graph, g2: Graph, done1: set<Digest>, done2: set<Digest>, base: map<Digest, MemberEntry>,
      a: map<Digest, MemberEntry>, b: map<Digest, MemberEntry>)
    requires done1 <= g1.Keys && done2 <= g2.Keys && done1 <= done2
    requires forall d :: d in done1 ==> g1[d].event == g2[d].event
    requires AddedOf(g1, done1, base, a) && AddedOf(g2, done2, base, b)
    ensures a.Keys <= b.Keys
    ensures base.Keys !! g2.Keys ==> forall k :: k in a ==> b[k] == a[k]
  {
    forall k | k in a ensures k in b {
    }
  }

  lemma LeasesGrow(g1: Graph, g2: Graph, done1: set<Digest>, done2: set<Digest>, a: map<Digest, int>, b: map<Digest, int>)
    requires done1 <= g1.Keys && done2 <= g2.Keys && done1 <= done2 && NoNegativeLease(g2)
    requires forall d :: d in done1 ==> g1[d].event == g2[d].event
    requires LeasesOf(g1, done1, a) && LeasesOf(g2, done2, b)
    ensures forall k :: k in a ==> k in b && a[k] <= b[k]
    ensures forall k :: k in b ==> 0 <= b[k]
  {
    forall k | k in a ensures k in b && a[k] <= b[k] {
      var d :| d in done1 && g1[d].event.action == Renew(k, a[k]);
      assert d in done2 && g2[d].event.action.Renew?;
    }
  }

  lemma MarksGrow(g1: Graph, g2: Graph, done1: set<Digest>, done2: set<Digest>, base: EpochState, u1: EpochState, u2: EpochState)
    requires done1 <= g1.Keys && done2 <= g2.Keys && done1 <= done2
    requires forall d :: d in done1 ==> g1[d].event == g2[d].event
    requires DenyOf(g1, done1, base.deny, u1.deny) && DenyOf(g2, done2, base.deny, u2.deny)
    requires RemovedOf(g1, done1, base.removed, u1.removed) && RemovedOf(g2, done2, base.removed, u2.removed)
    ensures u1.deny <= u2.deny && u1.removed <= u2.removed
  {
    forall a | a in u1.removed ensures a in u2.removed {
      if a !in base.removed {
        var d :| d in done1 && g1[d].event.action == Remove(a);
        assert d in done2;
      }
    }
    forall x | x in u1.deny ensures x in u2.deny {
      if x !in base.deny {
        var d :| d in done1 && g1[d].event.action == Revoke(x);
        assert d in done2;
      }
    }
  }

  /** No forgetting: once memory holds what a fold applied, every later fold with that memory applies it
      all again, so denials, removals, incarnations and leases only grow and saturation stays. */
  lemma MemoryOnlyGrows(ep: Epoch, v1: View, v2: View, maxEvents: nat)
    requires WellView(ep, v1) && WellView(ep, v2)
    requires FoldSpec(ep, v1, maxEvents).Merged? && FoldSpec(ep, v2, maxEvents).Merged?
    requires forall d :: d in FoldSpec(ep, v1, maxEvents).authentic ==>
      d in v2.held && v2.held[d] == FoldSpec(ep, v1, maxEvents).authentic[d]
    ensures var r1, r2 := FoldSpec(ep, v1, maxEvents), FoldSpec(ep, v2, maxEvents);
      && Elems(r1.applied) <= Elems(r2.applied)
      && HeadWithin(r1.head, r2.head)
      && (ep.anchor.members.Keys !! GraphOf(ep, v2).Keys ==> MembersWithin(r1.head.members, r2.head.members))
  {
    hide Judge, Join, GraphOf, Union, Applied, After, WellView, Charges, Evaluated, CrossEpoch, RefusedOnSight, Reasons,
      StateWithin, MembersOf, AuthenticCopies, MembersWithin, HeadWithin;
    var g1, g2 := GraphOf(ep, v1), GraphOf(ep, v2);
    AuthenticAll(ep, g1);
    UnionGrows(ep, v1, v2);
    NothingForgotten(ep, g1, v2);
    AppliedOrder(ep, g1);
    AppliedOrder(ep, g2);
    DistinctSize(Applied(ep, g1));
    DistinctSize(Applied(ep, g2));
    SubsetSize(After(ep, g1).Keys, After(ep, g2).Keys);
    HeadsGrow(ep, Union(ep, g1, After(ep, g1), Applied(ep, g1)), Union(ep, g2, After(ep, g2), Applied(ep, g2)),
      |Applied(ep, g1)| > maxEvents, |Applied(ep, g2)| > maxEvents);
  }

  lemma HeadsGrow(ep: Epoch, u1: EpochState, u2: EpochState, full1: bool, full2: bool)
    requires StateWithin(u1, u2) && (full1 ==> full2)
    ensures HeadWithin(HeadOf(ep, u1, full1), HeadOf(ep, u2, full2))
    ensures (forall a :: a in u1.added ==> u2.added[a] == u1.added[a])
      ==> MembersWithin(HeadOf(ep, u1, full1).members, HeadOf(ep, u2, full2).members)
  {
    hide Targets;
  }

  /** Every applied event has its authentic copy. */
  lemma AuthenticAll(ep: Epoch, g: Graph)
    ensures AuthenticCopies(ep, g).Keys == After(ep, g).Keys
    ensures forall d :: d in After(ep, g) ==> d in g && AuthenticCopies(ep, g)[d].event == g[d].event
  {
    hide Rules, Charge, FailedCopies, Join;
    EventApplies(ep, g);
    forall d | d in After(ep, g) ensures VerdictOn(ep, g, After(ep, g), d).authentic.Some? {
    }
  }
}
