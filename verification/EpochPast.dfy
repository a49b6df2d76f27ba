/** The causal past of an event, and what the state after it holds. */
module EpochPast {
  // The recursive definition joins the states after the parents one by one. What comes of it is said here without
  // joins: the anchor's state with the contribution of every event in the causal past, each once, and nothing else.

  import opened Basics
  import opened Dag
  import opened Events
  import opened EpochSpec
  import opened EpochTheorems
  import opened EpochHead

  /** A set of events that has the parents of each, the epoch's opening aside. */
  ghost predicate Closed(g: Graph, root: Digest, s: set<Digest>) {
    forall d, q :: d in s && d in g && q in g[d].event.p && q != root ==> q in s
  }

  /** The causal past of an event: the least closed set it is in. */
  ghost predicate IsPast(g: Graph, root: Digest, d: Digest, past: set<Digest>) {
    && d in past && past <= g.Keys && Closed(g, root, past)
    && forall s: set<Digest> :: Closed(g, root, s) && d in s ==> past <= s
  }

  /** What a list of parents brings in: the causal pasts of those that are events. */
  ghost function PastsOf(root: Digest, parents: seq<Digest>, pasts: map<Digest, set<Digest>>): set<Digest> {
    set q, x | q in parents && q != root && q in pasts && x in pasts[q] :: x
  }

  lemma AddedJoins(g: Graph, a: set<Digest>, b: set<Digest>, base: map<Digest, MemberEntry>, x: map<Digest, MemberEntry>, y: map<Digest, MemberEntry>)
    requires a + b <= g.Keys && base.Keys !! g.Keys && AddedOf(g, a, base, x) && AddedOf(g, b, base, y)
    ensures AddedOf(g, a + b, base, x + y)
  {
  }

  lemma LeasesJoin(g: Graph, a: set<Digest>, b: set<Digest>, x: map<Digest, int>, y: map<Digest, int>)
    requires a + b <= g.Keys && LeasesOf(g, a, x) && LeasesOf(g, b, y)
    ensures LeasesOf(g, a + b, MaxLeases(x, y))
  {
    var z := MaxLeases(x, y);
    forall add | add in z ensures exists d :: d in a + b && g[d].event.action == Renew(add, z[add]) {
      if add in x && z[add] == x[add] {
        var d :| d in a && g[d].event.action == Renew(add, x[add]);
        assert d in a + b;
      } else {
        var d :| d in b && g[d].event.action == Renew(add, y[add]);
        assert d in a + b;
      }
    }
  }

  lemma MarksJoin(g: Graph, a: set<Digest>, b: set<Digest>, base: EpochState, x: EpochState, y: EpochState)
    requires a + b <= g.Keys && DenyOf(g, a, base.deny, x.deny) && DenyOf(g, b, base.deny, y.deny)
    requires RemovedOf(g, a, base.removed, x.removed) && RemovedOf(g, b, base.removed, y.removed)
    ensures DenyOf(g, a + b, base.deny, x.deny + y.deny) && RemovedOf(g, a + b, base.removed, x.removed + y.removed)
  {
    forall t ensures t in x.deny + y.deny <==> t in base.deny || exists d :: d in a + b && g[d].event.action == Revoke(t) {
      if d :| d in a && g[d].event.action == Revoke(t) {
        assert d in a + b;
      }
      if d :| d in b && g[d].event.action == Revoke(t) {
        assert d in a + b;
      }
    }
    forall t ensures t in x.removed + y.removed <==> t in base.removed || exists d :: d in a + b && g[d].event.action == Remove(t) {
      if d :| d in a && g[d].event.action == Remove(t) {
        assert d in a + b;
      }
      if d :| d in b && g[d].event.action == Remove(t) {
        assert d in a + b;
      }
    }
  }

  /** Two merges into one base join to the merge of both. */
  lemma MergesJoin(g: Graph, a: set<Digest>, b: set<Digest>, base: EpochState, x: EpochState, y: EpochState)
    requires a + b <= g.Keys && base.added.Keys !! g.Keys && IsMergeOf(g, a, base, x) && IsMergeOf(g, b, base, y)
    ensures IsMergeOf(g, a + b, base, Join(x, y))
  {
    hide DenyOf, RemovedOf, AddedOf, LeasesOf, MaxLeases;
    AddedJoins(g, a, b, base.added, x.added, y.added);
    LeasesJoin(g, a, b, x.leases, y.leases);
    MarksJoin(g, a, b, base, x, y);
  }

  lemma JoinsNothing(x: EpochState)
    ensures Join(EMPTY, x) == x
  {
    assert MaxLeases(map[], x.leases) == x.leases;
  }

  lemma PastsNext(root: Digest, parents: seq<Digest>, pasts: map<Digest, set<Digest>>)
    requires parents != []
    ensures var last := parents[|parents| - 1];
      PastsOf(root, parents, pasts) == PastsOf(root, parents[..|parents| - 1], pasts) + if last != root && last in pasts then pasts[last] else {}
  {
    var n := |parents| - 1;
    assert parents == parents[..n] + [parents[n]];
    assert forall q :: q in parents <==> q in parents[..n] || q == parents[n];
    var more := if parents[n] != root && parents[n] in pasts then pasts[parents[n]] else {};
    forall x ensures x in PastsOf(root, parents, pasts) <==> x in PastsOf(root, parents[..n], pasts) + more {
      if x in PastsOf(root, parents, pasts) {
        var q :| q in parents && q != root && q in pasts && x in pasts[q];
      }
    }
  }

  /** Each parent's state is the merge of its causal past, as far as `pasts` has them. */
  ghost predicate Merged(ep: Epoch, g: Graph, pasts: map<Digest, set<Digest>>) {
    forall d :: d in pasts ==> d in After(ep, g) && pasts[d] <= g.Keys && IsMergeOf(g, pasts[d], AnchorState(ep), After(ep, g)[d])
  }

  lemma {:induction false} CausalMerges(ep: Epoch, g: Graph, parents: seq<Digest>, pasts: map<Digest, set<Digest>>)
    requires parents != [] && Merged(ep, g, pasts) && ep.anchor.members.Keys !! g.Keys
    requires forall q :: q in parents && q != ep.anchor.epoch ==> q in pasts
    ensures PastsOf(ep.anchor.epoch, parents, pasts) <= g.Keys
    ensures IsMergeOf(g, PastsOf(ep.anchor.epoch, parents, pasts), AnchorState(ep), Causal(DagOf(ep, g), After(ep, g), parents))
  {
    hide After, Judge, Join, IsMergeOf, PastsOf;
    var root, n := ep.anchor.epoch, |parents| - 1;
    var last, rest := parents[n], parents[..n];
    assert last in parents && forall q :: q in rest ==> q in parents;
    PastsNext(root, parents, pasts);
    NothingMerged(ep, g);
    assert AnchorState(ep).added.Keys == ep.anchor.members.Keys;
    assert Merged(ep, g, pasts);
    var done, state := if last == root then {} else pasts[last], if last == root then AnchorState(ep) else After(ep, g)[last];
    assert last != root ==> last in pasts && last in After(ep, g);
    assert Causal(DagOf(ep, g), After(ep, g), parents) == Join(Causal(DagOf(ep, g), After(ep, g), rest), state);
    if rest == [] {
      NoPasts(root, pasts);
      JoinsNothing(state);
      assert Causal(DagOf(ep, g), After(ep, g), rest) == EMPTY;
      assert PastsOf(root, parents, pasts) == done;
      assert IsMergeOf(g, done, AnchorState(ep), state);
    } else {
      CausalMerges(ep, g, rest, pasts);
      MergesJoin(g, PastsOf(root, rest, pasts), done, AnchorState(ep), Causal(DagOf(ep, g), After(ep, g), rest), state);
    }
  }

  lemma NoPasts(root: Digest, pasts: map<Digest, set<Digest>>)
    ensures PastsOf(root, [], pasts) == {}
  {
  }

  /** The causal past of an event is it and its parents' pasts. */
  lemma PastNext(g: Graph, root: Digest, d: Digest, pasts: map<Digest, set<Digest>>)
    requires d in g && forall q :: q in g[d].event.p && q != root ==> q in pasts
    requires forall q :: q in pasts ==> IsPast(g, root, q, pasts[q])
    ensures IsPast(g, root, d, PastsOf(root, g[d].event.p, pasts) + {d})
  {
    var past := PastsOf(root, g[d].event.p, pasts) + {d};
    forall s: set<Digest> | Closed(g, root, s) && d in s ensures past <= s {
      forall q, x | q in g[d].event.p && q != root && q in pasts && x in pasts[q] ensures x in s {
        assert q in s;
        assert pasts[q] <= s;
      }
    }
    forall e, q | e in past && e in g && q in g[e].event.p && q != root ensures q in past {
      if e == d {
        assert q in pasts[q];
      } else {
        var p :| p in g[d].event.p && p != root && p in pasts && e in pasts[p];
        assert Closed(g, root, pasts[p]);
        assert q in pasts[p];
      }
    }
  }

  /** The causal pasts of the first events to apply, and their states as merges. */
  lemma {:induction false} FirstPasts(ep: Epoch, g: Graph, n: nat) returns (pasts: map<Digest, set<Digest>>)
    requires Keyed(ep, g) && ep.anchor.members.Keys !! g.Keys && (forall d :: d in g ==> g[d].event.p != []) && n <= |Applied(ep, g)|
    ensures pasts.Keys == Elems(Applied(ep, g)[..n]) && Merged(ep, g, pasts)
    ensures forall d :: d in pasts ==> IsPast(g, ep.anchor.epoch, d, pasts[d]) && pasts[d] <= Elems(Applied(ep, g)[..n])
  {
    hide After, IsPast, PastsOf, Applied, IsMergeOf;
    if n == 0 {
      pasts := map[];
    } else {
      var order, root := Applied(ep, g), ep.anchor.epoch;
      var d := order[n - 1];
      var before := FirstPasts(ep, g, n - 1);
      assert order[..n] == order[..n - 1] + [d];
      ElemsAppend(order[..n - 1], d);
      ParentsBefore(ep, g, n - 1);
      PastsIn(root, g[d].event.p, before, Elems(order[..n - 1]));
      PastNext(g, root, d, before);
      StateNext(ep, g, d, before);
      pasts := before[d := PastsOf(root, g[d].event.p, before) + {d}];
    }
  }

  lemma ParentsBefore(ep: Epoch, g: Graph, i: nat)
    requires i < |Applied(ep, g)|
    ensures var order := Applied(ep, g);
      && order[i] in g && order[i] in After(ep, g) && order[i] !in Elems(order[..i])
      && forall q :: q in g[order[i]].event.p && q != ep.anchor.epoch ==> q in Elems(order[..i])
  {
    hide After, Judge, Join, Applied;
    AppliedOrder(ep, g);
    var order := Applied(ep, g);
    assert order[i] in Elems(order) && ParentsOf(g)[order[i]] == g[order[i]].event.p;
  }

  lemma {:induction false} StateNext(ep: Epoch, g: Graph, d: Digest, before: map<Digest, set<Digest>>)
    requires Keyed(ep, g) && ep.anchor.members.Keys !! g.Keys && d in g && g[d].event.p != [] && d in After(ep, g) && Merged(ep, g, before)
    requires forall q :: q in g[d].event.p && q != ep.anchor.epoch ==> q in before
    requires d !in PastsOf(ep.anchor.epoch, g[d].event.p, before)
    ensures var past := PastsOf(ep.anchor.epoch, g[d].event.p, before) + {d};
      past <= g.Keys && IsMergeOf(g, past, AnchorState(ep), After(ep, g)[d])
  {
    hide After, Judge, Join, IsMergeOf, PastsOf, Contribution;
    EventApplies(ep, g);
    CausalMerges(ep, g, g[d].event.p, before);
    AcceptedEffect(ep, g[d], Causal(DagOf(ep, g), After(ep, g), g[d].event.p));
    MergeNext(ep, g, PastsOf(ep.anchor.epoch, g[d].event.p, before), AnchorState(ep), Causal(DagOf(ep, g), After(ep, g), g[d].event.p), d);
  }

  lemma PastsIn(root: Digest, parents: seq<Digest>, pasts: map<Digest, set<Digest>>, s: set<Digest>)
    requires forall d :: d in pasts ==> pasts[d] <= s
    ensures PastsOf(root, parents, pasts) <= s
  {
  }

  /** The state after an applied event is the anchor's with what each event of its causal past contributes. */
  lemma {:induction false} PastMerged(ep: Epoch, g: Graph, d: Digest) returns (past: set<Digest>)
    requires Keyed(ep, g) && ep.anchor.members.Keys !! g.Keys && (forall e :: e in g ==> g[e].event.p != []) && d in After(ep, g)
    ensures IsPast(g, ep.anchor.epoch, d, past) && past <= After(ep, g).Keys
    ensures IsMergeOf(g, past, AnchorState(ep), After(ep, g)[d])
  {
    hide After, Judge, Join, IsMergeOf, IsPast, Applied;
    AppliedOrder(ep, g);
    var order := Applied(ep, g);
    var pasts := FirstPasts(ep, g, |order|);
    assert order[..|order|] == order;
    past := pasts[d];
  }

  /** And the state an event is judged on is the anchor's with what each event before it contributes. */
  lemma {:induction false} CausalMerged(ep: Epoch, g: Graph, d: Digest) returns (before: set<Digest>)
    requires Keyed(ep, g) && ep.anchor.members.Keys !! g.Keys && (forall e :: e in g ==> g[e].event.p != [])
    requires d in g && ParentsIn(ep.anchor.epoch, g[d].event.p, After(ep, g).Keys)
    ensures before <= After(ep, g).Keys && before <= g.Keys && IsPast(g, ep.anchor.epoch, d, before + {d})
    ensures IsMergeOf(g, before, AnchorState(ep), Causal(DagOf(ep, g), After(ep, g), g[d].event.p))
  {
    hide After, Judge, Join, IsMergeOf, IsPast, Applied, PastsOf;
    AppliedOrder(ep, g);
    var order := Applied(ep, g);
    var pasts := FirstPasts(ep, g, |order|);
    assert order[..|order|] == order;
    CausalMerges(ep, g, g[d].event.p, pasts);
    PastsIn(ep.anchor.epoch, g[d].event.p, pasts, After(ep, g).Keys);
    PastNext(g, ep.anchor.epoch, d, pasts);
    before := PastsOf(ep.anchor.epoch, g[d].event.p, pasts);
  }
}
