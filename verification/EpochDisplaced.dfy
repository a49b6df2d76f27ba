/** What a memory keeps of an epoch once more of it applies. */
module EpochDisplaced {
  // It keeps an initial segment of what it held, the whole of it exactly when nothing new could have been
  // taken before an event of its own.

  import opened Basics
  import opened Dag
  import opened Events
  import opened EpochSpec
  import opened EpochTheorems
  import opened EpochMemory
  import opened EpochKept
  import opened OrderGrowth

  /** Each newly applying event is above every kept one that it could have been taken for: one whose
      predecessors in `kept` already include the parents of the new event. */
  ghost predicate NoneBefore(root: Digest, r: EpochFold, kept: seq<Digest>)
    requires r.Merged?
  {
    forall i, d :: 0 <= i < |kept| && d in r.applied && d !in kept && d in r.authentic ==>
      (ParentsIn(root, r.authentic[d].event.p, Elems(kept[..i])) ==> kept[i] < d)
  }

  /** A later fold with the memory of an earlier one. */
  ghost predicate FoldsOn(ep: Epoch, v1: View, v2: View, maxEvents: nat) {
    && WellView(ep, v1) && WellView(ep, v2)
    && FoldSpec(ep, v1, maxEvents).Merged? && FoldSpec(ep, v2, maxEvents).Merged?
    && forall d :: d in FoldSpec(ep, v1, maxEvents).authentic ==>
      d in v2.held && v2.held[d] == FoldSpec(ep, v1, maxEvents).authentic[d]
  }

  lemma SameParents(small: map<int, seq<int>>, big: map<int, seq<int>>, root: int, order: seq<int>)
    requires IsOrder(small, root, order) && Elems(order) <= big.Keys && forall d :: d in Elems(order) ==> big[d] == small[d]
    ensures IsOrder(big, root, order)
  {
    assert forall i :: 0 <= i < |order| ==> order[i] in Elems(order);
  }

  /** What the earlier fold applied is part of what the later one does, in an order of its own. */
  lemma {:induction false} AppliedPart(ep: Epoch, v1: View, v2: View, maxEvents: nat)
    requires FoldsOn(ep, v1, v2, maxEvents)
    ensures PartOf(ParentsOf(GraphOf(ep, v2)), ep.anchor.epoch, FoldSpec(ep, v1, maxEvents).applied, FoldSpec(ep, v2, maxEvents).applied)
  {
    hide Judge, Join, GraphOf, Union, Applied, After, WellView, Charges, Evaluated, CrossEpoch, RefusedOnSight, Reasons,
      MembersOf, AuthenticCopies, Topological, SmallestFirst, HeadOf;
    var g1, g2 := GraphOf(ep, v1), GraphOf(ep, v2);
    AuthenticAll(ep, g1);
    NothingForgotten(ep, g1, v2);
    AfterWithin(ep, g1);
    AfterWithin(ep, g2);
    AppliedOrder(ep, g1);
    AppliedOrder(ep, g2);
    RememberedCandidates(ep, g1, v2);
    assert IsOrder(ParentsOf(g2), ep.anchor.epoch, Applied(ep, g2));
    assert IsOrder(ParentsOf(g1), ep.anchor.epoch, Applied(ep, g1));
    SameParents(ParentsOf(g1), ParentsOf(g2), ep.anchor.epoch, Applied(ep, g1));
  }

  /** The parents of applied events, read off their authentic copies. */
  lemma {:induction false} ParentsRead(ep: Epoch, view: View, maxEvents: nat)
    requires FoldSpec(ep, view, maxEvents).Merged?
    ensures var r := FoldSpec(ep, view, maxEvents);
      && Elems(r.applied) <= ParentsOf(GraphOf(ep, view)).Keys
      && forall d :: d in r.applied ==> d in r.authentic && r.authentic[d].event.p == ParentsOf(GraphOf(ep, view))[d]
  {
    hide Judge, Join, GraphOf, Union, Applied, After, Charges, Evaluated, CrossEpoch, RefusedOnSight, Reasons, MembersOf,
      AuthenticCopies, Topological, SmallestFirst, HeadOf;
    var g := GraphOf(ep, view);
    AuthenticAll(ep, g);
    AppliedOrder(ep, g);
    forall d | d in Applied(ep, g) ensures d in After(ep, g) {
      assert d in Elems(Applied(ep, g));
    }
  }

  lemma NoneBeforeIs(parents: map<int, seq<int>>, root: Digest, r: EpochFold, kept: seq<Digest>)
    requires r.Merged? && Elems(r.applied) <= parents.Keys
    requires forall d :: d in r.applied ==> d in r.authentic && r.authentic[d].event.p == parents[d]
    ensures NoneBefore(root, r, kept) <==> ComesAfter(parents, root, Elems(r.applied), kept)
  {
    assert forall d :: d in r.applied <==> d in Elems(r.applied);
    assert forall d :: d in kept <==> d in Elems(kept);
  }

  /** Of `kept`, which stands at the start of an order, what is left when only `n` of a larger one are kept. */
  lemma LeftOf(parents: map<int, seq<int>>, root: int, kept: seq<int>, order: seq<int>, n: nat)
    requires PartOf(parents, root, kept, order) && |kept| <= n <= |order|
    ensures kept <= order[..n] <==> kept <= order
    ensures Only(order[..n], Elems(kept)) <= kept && NoLater(order[..n], kept)
  {
    hide PartOf, NoLater, Only;
    StartRestricts(parents, root, kept, order, n);
    OrderEarlier(parents, root, kept, order, n);
    assert order[..n][..|kept|] == order[..|kept|];
  }

  /** What a memory that held `kept`, or more after it, keeps after a fold: it is still there from its first event
      on, in its order, up to some event; all of it is, in its place, exactly when nothing new could have been
      taken before an event of its own; and where the two differ first, the new order has the smaller event. */
  lemma {:induction false} KeptMoves(ep: Epoch, v1: View, v2: View, maxEvents: nat, kept: seq<Digest>)
    requires FoldsOn(ep, v1, v2, maxEvents) && |kept| <= maxEvents + 1 && kept <= FoldSpec(ep, v1, maxEvents).applied
    ensures var r := FoldSpec(ep, v2, maxEvents);
      && Only(r.applied, Elems(kept)) == kept
      && Only(KeptOrder(r, maxEvents), Elems(kept)) <= kept
      && NoLater(KeptOrder(r, maxEvents), kept)
      && |kept| <= |KeptOrder(r, maxEvents)|
      && (kept <= KeptOrder(r, maxEvents) <==> NoneBefore(ep.anchor.epoch, r, kept))
  {
    hide FoldSpec, WellView, PartOf, NoneBefore, ComesAfter, NoLater, Only, GraphOf, ParentsOf, Distinct;
    var r := FoldSpec(ep, v2, maxEvents);
    var parents, root := ParentsOf(GraphOf(ep, v2)), ep.anchor.epoch;
    AppliedPart(ep, v1, v2, maxEvents);
    StartIsPart(parents, root, FoldSpec(ep, v1, maxEvents).applied, kept, r.applied);
    ParentsRead(ep, v2, maxEvents);
    PartSizes(parents, root, kept, r.applied);
    OrderRestricts(parents, root, kept, r.applied);
    PrefixIff(parents, root, kept, r.applied);
    NoneBeforeIs(parents, root, r, kept);
    var n := |KeptOrder(r, maxEvents)|;
    assert KeptOrder(r, maxEvents) == r.applied[..n];
    LeftOf(parents, root, kept, r.applied, n);
  }

  lemma StartIsPart(parents: map<int, seq<int>>, root: int, whole: seq<int>, kept: seq<int>, order: seq<int>)
    requires PartOf(parents, root, whole, order) && kept <= whole
    ensures PartOf(parents, root, kept, order)
  {
    hide IsOrder;
    StartIsOrder(parents, root, whole, |kept|);
    assert whole[..|kept|] == kept;
  }
}
