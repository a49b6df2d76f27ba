/** The merged head, said of the answer alone. */
module MergedHead {
  import opened Basics
  import opened Events
  import opened EpochSpec
  import opened EpochTheorems
  import opened EpochHead
  import opened EpochMemory
  import opened Members

  /** An event that did something applied. */
  ghost predicate Did(r: EpochFold, action: Action)
    requires r.Merged?
  {
    exists d :: d in r.authentic && r.authentic[d].event.action == action
  }

  /** An event that did something applied, among the candidates. */
  ghost predicate DidIn(g: Graph, done: set<Digest>, action: Action)
    requires done <= g.Keys
  {
    exists d :: d in done && g[d].event.action == action
  }

  /** Who an incarnation is: what an applied event admitted, else what the anchor lists. */
  ghost function EntryIn(ep: Epoch, r: EpochFold, a: Digest): MemberEntry
    requires r.Merged? && (a in ep.anchor.members || (a in r.authentic && r.authentic[a].event.action.Add?))
  {
    if a in r.authentic && r.authentic[a].event.action.Add?
    then MemberEntry(r.authentic[a].event.action.did, r.authentic[a].event.action.key, a, r.authentic[a].event.action.lease)
    else ep.anchor.members[a].entry
  }

  /** The longest lease an incarnation was given: its own, or an applied renewal's. */
  ghost predicate LongestLease(r: EpochFold, a: Digest, own: int, lease: int)
    requires r.Merged?
  {
    && own <= lease && (forall other :: Did(r, Renew(a, other)) ==> other <= lease)
    && (lease == own || Did(r, Renew(a, lease)) || (own < 0 && lease == 0))
  }

  ghost predicate MemberMeans(ep: Epoch, r: EpochFold, a: Digest)
    requires r.Merged? && a in r.head.members && (a in ep.anchor.members || (a in r.authentic && r.authentic[a].event.action.Add?))
  {
    var member, entry := r.head.members[a], EntryIn(ep, r, a);
    && member.entry == entry.(lease := member.entry.lease) && LongestLease(r, a, entry.lease, member.entry.lease)
    && (member.removed <==> (a in ep.anchor.members && ep.anchor.members[a].removed) || Did(r, Remove(a)))
    && (member.effective <==> !member.removed && Unnamed(ep.suite, r.head.deny, entry.did, entry.key))
  }

  /** The head of a merge is the anchor with what the applied events say: denied is what the anchor or one of them
      denies; a member is who the anchor lists or one of them admits; it is removed, renewed and effective as they
      have it. Nothing else of the anchor is touched. */
  lemma {:induction false} HeadMeans(ep: Epoch, view: View, maxEvents: nat)
    requires WellView(ep, view) && FoldSpec(ep, view, maxEvents).Merged?
    ensures var r := FoldSpec(ep, view, maxEvents);
      && r.head == ep.anchor.(deny := r.head.deny, members := r.head.members, saturated := |r.applied| > maxEvents)
      && (forall t :: t in r.head.deny <==> t in ep.anchor.deny || Did(r, Revoke(t)))
      && (forall a :: a in r.head.members <==> a in ep.anchor.members || (a in r.authentic && r.authentic[a].event.action.Add?))
      && (forall a :: a in r.head.members ==> MemberMeans(ep, r, a))
  {
    hide FoldSpec, GraphOf, MembersOf, WellView, IsMergeOf, MemberMeans, DidIn, Unnamed, LongestLease;
    var r, g := FoldSpec(ep, view, maxEvents), GraphOf(ep, view);
    var union := IsUnion(ep, view, maxEvents);
    GraphKeyed(ep, view);
    forall action ensures DidIn(g, Elems(r.applied), action) <==> Did(r, action) {
      SameDeeds(g, r, action);
    }
    forall t ensures t in r.head.deny <==> t in ep.anchor.deny || Did(r, Revoke(t)) {
      DenyMeans(ep, g, Elems(r.applied), union, t);
    }
    forall a ensures a in r.head.members <==> a in ep.anchor.members || (a in r.authentic && r.authentic[a].event.action.Add?) {
      AddedMeans(ep, g, Elems(r.applied), union, a);
    }
    forall a | a in r.head.members ensures MemberMeans(ep, r, a) {
      AddedMeans(ep, g, Elems(r.applied), union, a);
      ThatMember(ep, g, r, union, a);
    }
  }

  /** The head as the union gives it, and what the answer keeps of the candidates. */
  lemma {:induction false} IsUnion(ep: Epoch, view: View, maxEvents: nat) returns (union: EpochState)
    requires WellView(ep, view) && FoldSpec(ep, view, maxEvents).Merged?
    ensures var r, g := FoldSpec(ep, view, maxEvents), GraphOf(ep, view);
      && Elems(r.applied) <= g.Keys && IsMergeOf(g, Elems(r.applied), AnchorState(ep), union)
      && r.head == ep.anchor.(deny := union.deny, members := MembersOf(ep, union), saturated := |r.applied| > maxEvents)
      && r.authentic.Keys == Elems(r.applied) && forall d :: d in r.authentic ==> r.authentic[d].event == g[d].event
  {
    hide Judge, Join, After, Applied, GraphOf, Charges, Reasons, Union, Evaluated, MembersOf, WellView, AuthenticCopies, IsMergeOf;
    var g := GraphOf(ep, view);
    GraphKeyed(ep, view);
    AppliedOrder(ep, g);
    AfterWithin(ep, g);
    AuthenticAll(ep, g);
    UnionMeans(ep, g, Applied(ep, g));
    union := Union(ep, g, After(ep, g), Applied(ep, g));
  }

  lemma SameDeeds(g: Graph, r: EpochFold, action: Action)
    requires r.Merged? && Elems(r.applied) <= g.Keys && r.authentic.Keys == Elems(r.applied)
    requires forall d :: d in r.authentic ==> r.authentic[d].event == g[d].event
    ensures DidIn(g, Elems(r.applied), action) <==> Did(r, action)
  {
    if d :| d in Elems(r.applied) && g[d].event.action == action {
      assert d in r.authentic && r.authentic[d].event.action == action;
    }
    if d :| d in r.authentic && r.authentic[d].event.action == action {
      assert d in Elems(r.applied);
    }
  }

  lemma DenyMeans(ep: Epoch, g: Graph, done: set<Digest>, union: EpochState, t: Target)
    requires done <= g.Keys && IsMergeOf(g, done, AnchorState(ep), union)
    ensures t in union.deny <==> t in ep.anchor.deny || DidIn(g, done, Revoke(t))
  {
    hide RemovedOf, AddedOf, LeasesOf;
  }

  lemma AddedMeans(ep: Epoch, g: Graph, done: set<Digest>, union: EpochState, a: Digest)
    requires done <= g.Keys && IsMergeOf(g, done, AnchorState(ep), union)
    ensures a in MembersOf(ep, union) <==> a in ep.anchor.members || (a in done && g[a].event.action.Add?)
    ensures a in union.added && a in done && g[a].event.action.Add? ==>
      union.added[a] == MemberEntry(g[a].event.action.did, g[a].event.action.key, a, g[a].event.action.lease)
    ensures a in union.added && !(a in done && g[a].event.action.Add?) ==> union.added[a] == ep.anchor.members[a].entry
  {
    hide RemovedOf, DenyOf, LeasesOf;
  }

  lemma RemovedMeans(ep: Epoch, g: Graph, done: set<Digest>, union: EpochState, a: Digest)
    requires done <= g.Keys && IsMergeOf(g, done, AnchorState(ep), union)
    ensures a in union.removed <==> (a in ep.anchor.members && ep.anchor.members[a].removed) || DidIn(g, done, Remove(a))
  {
    hide AddedOf, DenyOf, LeasesOf;
  }

  lemma LeaseMeans(g: Graph, r: EpochFold, leases: map<Digest, int>, a: Digest, own: int)
    requires r.Merged? && Elems(r.applied) <= g.Keys && r.authentic.Keys == Elems(r.applied) && LeasesOf(g, Elems(r.applied), leases)
    requires forall d :: d in r.authentic ==> r.authentic[d].event == g[d].event
    ensures var renewed := if a in leases then leases[a] else 0;
      LongestLease(r, a, own, if own >= renewed then own else renewed)
  {
    forall other | Did(r, Renew(a, other)) ensures a in leases && other <= leases[a] {
      var d :| d in r.authentic && r.authentic[d].event.action == Renew(a, other);
      assert d in Elems(r.applied) && g[d].event.action.Renew?;
    }
    if a in leases {
      var d :| d in Elems(r.applied) && g[d].event.action == Renew(a, leases[a]);
      assert d in r.authentic;
    }
  }

  lemma ThatMember(ep: Epoch, g: Graph, r: EpochFold, union: EpochState, a: Digest)
    requires r.Merged? && Elems(r.applied) <= g.Keys && IsMergeOf(g, Elems(r.applied), AnchorState(ep), union)
    requires r.authentic.Keys == Elems(r.applied) && forall d :: d in r.authentic ==> r.authentic[d].event == g[d].event
    requires forall action :: DidIn(g, Elems(r.applied), action) <==> Did(r, action)
    requires r.head == ep.anchor.(deny := union.deny, members := MembersOf(ep, union), saturated := r.head.saturated) && a in r.head.members
    requires a in ep.anchor.members || (a in r.authentic && r.authentic[a].event.action.Add?)
    ensures MemberMeans(ep, r, a)
  {
    hide DidIn, Did, AnchorState, IsDenied, Unnamed, LongestLease;
    AddedMeans(ep, g, Elems(r.applied), union, a);
    RemovedMeans(ep, g, Elems(r.applied), union, a);
    LeaseMeans(g, r, union.leases, a, EntryIn(ep, r, a).lease);
    DeniedIff(ep.suite, union.deny, union.added[a]);
  }
}
