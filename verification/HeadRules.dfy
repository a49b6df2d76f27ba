/** The merged head keeps what the chain keeps: root's keys are not denied and no member holds one. The chain's
    own rules say this of every chain state; the rules for adds and revocations carry it to the head, because
    each is judged against the root keys of the anchor's generation whatever its causal past, so that no order
    or omission of events can leave a head that breaks it. */
module HeadRules {
  import opened Dag
  import opened Events
  import opened ChainFacts
  import opened RootKeysKept
  import opened EpochSpec
  import opened EpochTheorems
  import opened EpochHead
  import opened EpochMemory
  import opened EpochMerge

  lemma AcceptedAction(ep: Epoch, cand: Candidate, causal: EpochState)
    requires Judge(ep, cand, causal).outcome.Accepted?
    ensures var action := cand.event.action;
      && (action.Add? ==> !IsRootKey(ep.suite, action.key, ep.roots))
      && (action.Revoke? && action.x.KeyTarget? ==>
        action.x.key !in ep.anchor.keys && action.x.key !in ep.anchor.agreement)
  {
    hide Authentic, Charge, FailedCopies, IsDenied, KeyIsLive, TargetsSomeMember, IsRootKey;
  }

  lemma {:induction false} AppliedAction(ep: Epoch, g: Graph, d: Digest)
    requires d in After(ep, g)
    ensures d in g
    ensures var action := g[d].event.action;
      && (action.Add? ==> !IsRootKey(ep.suite, action.key, ep.roots))
      && (action.Revoke? && action.x.KeyTarget? ==>
        action.x.key !in ep.anchor.keys && action.x.key !in ep.anchor.agreement)
  {
    hide Judge, Join, After, IsRootKey;
    EventApplies(ep, g);
    AcceptedAction(ep, g[d], Causal(DagOf(ep, g), After(ep, g), g[d].event.p));
  }

  lemma {:induction false} HeadMeans(ep: Epoch, view: View, maxEvents: nat)
    requires WellView(ep, view) && FoldSpec(ep, view, maxEvents).Merged?
    ensures var g := GraphOf(ep, view);
      && After(ep, g).Keys <= g.Keys
      && exists u :: (IsMergeOf(g, After(ep, g).Keys, AnchorState(ep), u)
        && FoldSpec(ep, view, maxEvents).head.deny == u.deny
        && FoldSpec(ep, view, maxEvents).head.members == MembersOf(ep, u))
  {
    hide Judge, Join, After, IsMergeOf, Union, Applied, WellView, GraphOf, MembersOf, Charges, AuthenticCopies, Reasons, Evaluated;
    var g := GraphOf(ep, view);
    GraphKeyed(ep, view);
    AfterWithin(ep, g);
    AppliedOrder(ep, g);
    UnionMeans(ep, g, Applied(ep, g));
    assert IsMergeOf(g, After(ep, g).Keys, AnchorState(ep), Union(ep, g, After(ep, g), Applied(ep, g)));
  }

  /** The merged head denies all that the chain does, and no key of root's. */
  lemma {:induction false} HeadNeverDeniesRoot(ep: Epoch, view: View, maxEvents: nat)
    requires WellView(ep, view) && FoldSpec(ep, view, maxEvents).Merged?
    requires forall key :: Publishes(ep.anchor, key) ==> KeyTarget(key) !in ep.anchor.deny
    ensures var head := FoldSpec(ep, view, maxEvents).head;
      && head.keys == ep.anchor.keys && head.agreement == ep.anchor.agreement && ep.anchor.deny <= head.deny
      && (forall key :: Publishes(head, key) ==> KeyTarget(key) !in head.deny)
  {
    hide Judge, Join, After, WellView, GraphOf, MembersOf, Charges, AuthenticCopies, Reasons, Evaluated, AddedOf, LeasesOf, RemovedOf, Union, Applied;
    HeadMeans(ep, view, maxEvents);
    var g, head := GraphOf(ep, view), FoldSpec(ep, view, maxEvents).head;
    var u :| IsMergeOf(g, After(ep, g).Keys, AnchorState(ep), u) && head.deny == u.deny;
    forall key | Publishes(head, key) ensures KeyTarget(key) !in head.deny {
      if KeyTarget(key) in head.deny {
        var d :| d in After(ep, g).Keys && g[d].event.action == Revoke(KeyTarget(key));
        AppliedAction(ep, g, d);
      }
    }
  }

  /** No member of the merged head, snapshot or added since, holds a root key of its generation. */
  lemma {:induction false} HeadClearOfRoot(ep: Epoch, view: View, maxEvents: nat)
    requires WellView(ep, view) && FoldSpec(ep, view, maxEvents).Merged?
    requires ClearOfRoot(ep.suite, ep.anchor, ep.roots)
    ensures ClearOfRoot(ep.suite, FoldSpec(ep, view, maxEvents).head, ep.roots)
  {
    hide Judge, Join, After, WellView, GraphOf, Charges, AuthenticCopies, Reasons, Evaluated, LeasesOf, RemovedOf, DenyOf, Union, Applied, IsRootKey,
      IsDenied;
    HeadMeans(ep, view, maxEvents);
    var g, head := GraphOf(ep, view), FoldSpec(ep, view, maxEvents).head;
    var u :| IsMergeOf(g, After(ep, g).Keys, AnchorState(ep), u) && head.members == MembersOf(ep, u);
    forall add | add in head.members ensures !IsRootKey(ep.suite, head.members[add].entry.key, ep.roots) {
      if add in After(ep, g).Keys && g[add].event.action.Add? {
        AppliedAction(ep, g, add);
      }
    }
  }

  /** Over a whole log: the head a chain and any epoch events merge to denies no key it publishes, keeps
      every denial of a retired key, and has no member on a key the next rotate could reveal. */
  lemma {:induction false} HeadOfLog(c: Suite, did: Did, chain: seq<ChainEntry>, view: View, maxEvents: nat)
    requires Folds(c, did, chain) && WellView(EpochOf(c, did, ChainStates(c, did, chain)), view)
    requires FoldSpec(EpochOf(c, did, ChainStates(c, did, chain)), view, maxEvents).Merged?
    ensures var ep := EpochOf(c, did, ChainStates(c, did, chain));
      var head := FoldSpec(ep, view, maxEvents).head;
      && (forall key :: Publishes(head, key) ==> KeyTarget(key) !in head.deny)
      && ep.anchor.deny <= head.deny
      && ClearOfRoot(c, head, ep.roots)
      && (forall add :: add in head.members ==> c.keyDigest(head.members[add].entry.key) !in head.next)
  {
    hide FoldSpec, WellView, Folds, ChainStates, IsRootKey, ClearOfRoot;
    var states := ChainStates(c, did, chain);
    var n, ep := |chain| - 1, EpochOf(c, did, states);
    assert states[..n + 1] == states;
    MembersClearOfRoot(c, did, chain, n);
    forall key | Publishes(ep.anchor, key) ensures KeyTarget(key) !in ep.anchor.deny {
      OwnKeysNeverDenied(c, did, chain, n, key);
    }
    HeadNeverDeniesRoot(ep, view, maxEvents);
    HeadClearOfRoot(ep, view, maxEvents);
    CommitmentsClear(ep, view, maxEvents, states);
  }

  lemma CommitmentsClear(ep: Epoch, view: View, maxEvents: nat, states: seq<KeyState>)
    requires states != [] && ep == EpochOf(ep.suite, ep.did, states)
    requires FoldSpec(ep, view, maxEvents).Merged? && ClearOfRoot(ep.suite, FoldSpec(ep, view, maxEvents).head, ep.roots)
    ensures var head := FoldSpec(ep, view, maxEvents).head;
      forall add :: add in head.members ==> ep.suite.keyDigest(head.members[add].entry.key) !in head.next
  {
    hide Charges, AuthenticCopies, Reasons, Evaluated, Union, Applied, MembersOf;
    assert ep.anchor in states;
    assert forall x :: x in ep.anchor.next ==> x in ep.roots.commitments;
  }
}
