/** What the merged head is: the anchor's state with what every applied event contributes and nothing
    else, whatever order the events were taken in. */
module EpochHead {
  import opened Basics
  import opened Dag
  import opened Events
  import opened EpochSpec
  import opened EpochTheorems

  /** What an event adds wherever the rules accept it. */
  function Contribution(ep: Epoch, event: EpochEvent): EpochState {
    match event.action
    case Revoke(x) => EMPTY.(deny := {x})
    case Add(did, key, lease) =>
      EMPTY.(added := map[DigestOf(ep, event) := MemberEntry(did, key, DigestOf(ep, event), lease)])
    case Renew(add, lease) => EMPTY.(leases := map[add := lease])
    case Remove(add) => EMPTY.(removed := {add})
  }

  lemma AcceptedEffect(ep: Epoch, cand: Candidate, causal: EpochState)
    ensures Judge(ep, cand, causal).outcome.Accepted?
      ==> Judge(ep, cand, causal).outcome.effect == Contribution(ep, cand.event)
  {
    hide Charge, FailedCopies, IsDenied, IsRootKey, KeyIsLive, TargetsSomeMember;
  }

  ghost predicate Keyed(ep: Epoch, g: Graph) {
    forall d :: d in g ==> DigestOf(ep, g[d].event) == d
  }

  // Each deny entry, removal, incarnation and lease of a merged state has the event it comes from, and
  // every event of `done` has left its mark.

  ghost predicate DenyOf(g: Graph, done: set<Digest>, base: set<Target>, deny: set<Target>)
    requires done <= g.Keys
  {
    forall x :: x in deny <==> x in base || exists d :: d in done && g[d].event.action == Revoke(x)
  }

  ghost predicate RemovedOf(g: Graph, done: set<Digest>, base: set<Digest>, removed: set<Digest>)
    requires done <= g.Keys
  {
    forall a :: a in removed <==> a in base || exists d :: d in done && g[d].event.action == Remove(a)
  }

  ghost predicate AddedOf(g: Graph, done: set<Digest>, base: map<Digest, MemberEntry>, added: map<Digest, MemberEntry>)
    requires done <= g.Keys
  {
    && (forall a :: a in added <==> a in base || (a in done && g[a].event.action.Add?))
    && (forall a :: a in added && a in done && g[a].event.action.Add? ==>
      added[a] == MemberEntry(g[a].event.action.did, g[a].event.action.key, a, g[a].event.action.lease))
    && (forall a :: a in added && !(a in done && g[a].event.action.Add?) ==> added[a] == base[a])
  }

  ghost predicate LeasesOf(g: Graph, done: set<Digest>, leases: map<Digest, int>)
    requires done <= g.Keys
  {
    && (forall d :: d in done && g[d].event.action.Renew? ==>
      g[d].event.action.add in leases && g[d].event.action.lease <= leases[g[d].event.action.add])
    && (forall a :: a in leases ==> exists d :: d in done && g[d].event.action == Renew(a, leases[a]))
  }

  /** `state` is `base` with everything the events of `done` contribute and nothing else. */
  ghost predicate IsMergeOf(g: Graph, done: set<Digest>, base: EpochState, state: EpochState)
    requires done <= g.Keys
  {
    && DenyOf(g, done, base.deny, state.deny)
    && RemovedOf(g, done, base.removed, state.removed)
    && AddedOf(g, done, base.added, state.added)
    && LeasesOf(g, done, state.leases)
  }

  lemma DenyNext(ep: Epoch, g: Graph, done: set<Digest>, base: set<Target>, deny: set<Target>, d: Digest)
    requires done <= g.Keys && d in g && DenyOf(g, done, base, deny)
    ensures DenyOf(g, done + {d}, base, deny + Contribution(ep, g[d].event).deny)
  {
  }

  lemma RemovedNext(ep: Epoch, g: Graph, done: set<Digest>, base: set<Digest>, removed: set<Digest>, d: Digest)
    requires done <= g.Keys && d in g && RemovedOf(g, done, base, removed)
    ensures RemovedOf(g, done + {d}, base, removed + Contribution(ep, g[d].event).removed)
  {
  }

  lemma AddedNext(ep: Epoch, g: Graph, done: set<Digest>, base: map<Digest, MemberEntry>, added: map<Digest, MemberEntry>, d: Digest)
    requires Keyed(ep, g) && done <= g.Keys && d in g && d !in done && AddedOf(g, done, base, added)
    ensures AddedOf(g, done + {d}, base, added + Contribution(ep, g[d].event).added)
  {
  }

  lemma LeasesNext(ep: Epoch, g: Graph, done: set<Digest>, leases: map<Digest, int>, d: Digest)
    requires done <= g.Keys && d in g && LeasesOf(g, done, leases)
    ensures LeasesOf(g, done + {d}, MaxLeases(leases, Contribution(ep, g[d].event).leases))
  {
    var next := MaxLeases(leases, Contribution(ep, g[d].event).leases);
    if g[d].event.action.Renew? {
      var add, lease := g[d].event.action.add, g[d].event.action.lease;
      forall a | a in next ensures exists e :: e in done + {d} && g[e].event.action == Renew(a, next[a]) {
        if a == add && (add !in leases || leases[add] < lease) {
          assert g[d].event.action == Renew(a, next[a]);
        } else {
          var e :| e in done && g[e].event.action == Renew(a, leases[a]);
          assert e in done + {d};
        }
      }
    } else {
      assert next == leases;
    }
  }

  lemma MergeNext(ep: Epoch, g: Graph, done: set<Digest>, base: EpochState, state: EpochState, d: Digest)
    requires Keyed(ep, g) && done <= g.Keys && d in g && d !in done && IsMergeOf(g, done, base, state)
    ensures IsMergeOf(g, done + {d}, base, Join(state, Contribution(ep, g[d].event)))
  {
    hide Contribution, DenyOf, RemovedOf, AddedOf, LeasesOf, MaxLeases;
    DenyNext(ep, g, done, base.deny, state.deny, d);
    RemovedNext(ep, g, done, base.removed, state.removed, d);
    AddedNext(ep, g, done, base.added, state.added, d);
    LeasesNext(ep, g, done, state.leases, d);
  }

  lemma {:induction false} UnionMeans(ep: Epoch, g: Graph, order: seq<Digest>)
    requires Keyed(ep, g) && Distinct(order) && Elems(order) <= After(ep, g).Keys && After(ep, g).Keys <= g.Keys
    ensures IsMergeOf(g, Elems(order), AnchorState(ep), Union(ep, g, After(ep, g), order))
  {
    hide IsMergeOf, Join, Contribution, After, AnchorState, Judge;
    if order == [] {
      NothingMerged(ep, g);
    } else {
      var n := |order| - 1;
      var last := order[n];
      assert order == order[..n] + [last];
      ElemsAppend(order[..n], last);
      assert last in Elems(order) && last !in Elems(order[..n]);
      UnionMeans(ep, g, order[..n]);
      EventApplies(ep, g);
      AcceptedEffect(ep, g[last], Causal(DagOf(ep, g), After(ep, g), g[last].event.p));
      MergeNext(ep, g, Elems(order[..n]), AnchorState(ep), Union(ep, g, After(ep, g), order[..n]), last);
    }
  }

  lemma NothingMerged(ep: Epoch, g: Graph)
    ensures Elems<Digest>([]) == {} && IsMergeOf(g, {}, AnchorState(ep), AnchorState(ep))
  {
  }

  /** Two states that merge the same events into the same base are one state. */
  lemma OneMerge(g: Graph, done: set<Digest>, base: EpochState, a: EpochState, b: EpochState)
    requires done <= g.Keys && IsMergeOf(g, done, base, a) && IsMergeOf(g, done, base, b)
    ensures a == b
  {
    hide AddedOf, LeasesOf;
    assert a.deny == b.deny;
    forall k ensures k in a.removed <==> k in b.removed {
    }
    OneAdded(g, done, base.added, a.added, b.added);
    OneLeases(g, done, a.leases, b.leases);
  }

  lemma OneAdded(g: Graph, done: set<Digest>, base: map<Digest, MemberEntry>, a: map<Digest, MemberEntry>, b: map<Digest, MemberEntry>)
    requires done <= g.Keys && AddedOf(g, done, base, a) && AddedOf(g, done, base, b)
    ensures a == b
  {
    forall k ensures k in a <==> k in b {
    }
    forall k | k in a ensures k in b && a[k] == b[k] {
    }
  }

  lemma OneLeases(g: Graph, done: set<Digest>, a: map<Digest, int>, b: map<Digest, int>)
    requires done <= g.Keys && LeasesOf(g, done, a) && LeasesOf(g, done, b)
    ensures a == b
  {
    forall k | k in a ensures k in b && a[k] <= b[k] {
      var d :| d in done && g[d].event.action == Renew(k, a[k]);
    }
    forall k | k in b ensures k in a && b[k] <= a[k] {
      var d :| d in done && g[d].event.action == Renew(k, b[k]);
    }
  }

  /** However the applied events are put in order, their effects join with the anchor to one state. */
  lemma AnyOrderMerges(ep: Epoch, g: Graph, a: seq<Digest>, b: seq<Digest>)
    requires Keyed(ep, g) && After(ep, g).Keys <= g.Keys
    requires Distinct(a) && Distinct(b) && Elems(a) == Elems(b) && Elems(a) <= After(ep, g).Keys
    ensures Union(ep, g, After(ep, g), a) == Union(ep, g, After(ep, g), b)
  {
    hide IsMergeOf, Union, After, AnchorState;
    UnionMeans(ep, g, a);
    UnionMeans(ep, g, b);
    OneMerge(g, Elems(a), AnchorState(ep), Union(ep, g, After(ep, g), a), Union(ep, g, After(ep, g), b));
  }
}
