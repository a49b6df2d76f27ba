/** What a merge promises of its order and of repetition. */
module EpochTheorems {
  // The answer does not depend on the order or repetition of what was presented; what applies is settled by a
  // recursive definition, and the order by parents first and smallest digest first.

  import opened Basics
  import opened Dag
  import opened Events
  import opened EpochSpec

  // ---------------------------------------------------------------- the recursive definition

  /** An event applies iff every parent applies and the rules accept it on the join of the states after
      its parents; the state after it is that join with its effect. */
  lemma EventApplies(ep: Epoch, g: Graph)
    ensures var after := After(ep, g);
      && (forall d :: d in after <==>
        d in g && ParentsIn(ep.anchor.epoch, g[d].event.p, after.Keys) && VerdictOn(ep, g, after, d).outcome.Accepted?)
      && (forall d :: d in after ==>
        after[d] == Join(Causal(DagOf(ep, g), after, g[d].event.p), VerdictOn(ep, g, after, d).outcome.effect))
  {
    hide Judge, Join;
    AppliesIff(DagOf(ep, g));
  }

  /** The applied events in order: each after its parents, ties by ascending digest, none left out. */
  lemma AppliedOrder(ep: Epoch, g: Graph)
    ensures var order := Applied(ep, g);
      && Distinct(order) && Elems(order) == After(ep, g).Keys
      && Topological(ParentsOf(g), ep.anchor.epoch, order)
      && SmallestFirst(ParentsOf(g), ep.anchor.epoch, order)
  {
    hide Judge, Join;
    OrderExists(DagOf(ep, g));
  }

  // ---------------------------------------------------------------- order and repetition

  lemma {:induction false} JunkRemoved(ep: Epoch, events: seq<EpochEntry>, i: nat)
    requires i < |events|
    ensures JunkCount(ep, events) == JunkCount(ep, events[..i] + events[i + 1..]) + if WellFormed(ep, events[i]) then 0 else 1
  {
    var rest, n := events[..i] + events[i + 1..], |events| - 1;
    if i < n {
      JunkRemoved(ep, events[..n], i);
      assert rest[..n - 1] == events[..n][..i] + events[..n][i + 1..];
    } else {
      assert rest == events[..n];
    }
  }

  lemma {:induction false} JunkPermuted(ep: Epoch, a: seq<EpochEntry>, b: seq<EpochEntry>)
    requires multiset(a) == multiset(b)
    ensures JunkCount(ep, a) == JunkCount(ep, b)
    decreases |a|
  {
    if a == [] {
      assert |multiset(b)| == 0;
    } else {
      var i := RestSame(a, b);
      JunkRemoved(ep, b, i);
      JunkPermuted(ep, a[..|a| - 1], b[..i] + b[i + 1..]);
    }
  }

  /** The answer is the same for every order of the events presented. */
  lemma OrderIndependent(ep: Epoch, trusted: seq<EpochEntry>, a: seq<EpochEntry>, b: seq<EpochEntry>, maxEvents: nat)
    requires multiset(a) == multiset(b)
    ensures FoldSpec(ep, ViewOf(ep, trusted, a), maxEvents) == FoldSpec(ep, ViewOf(ep, trusted, b), maxEvents)
  {
    hide FoldSpec;
    JunkPermuted(ep, a, b);
    SameMembers(a, b);
    assert Present(ep, a) == Present(ep, b);
  }

  /** Presenting a well-formed copy again changes nothing. */
  lemma RepeatHarmless(ep: Epoch, trusted: seq<EpochEntry>, events: seq<EpochEntry>, i: nat, maxEvents: nat)
    requires i < |events| && WellFormed(ep, events[i])
    ensures FoldSpec(ep, ViewOf(ep, trusted, events + [events[i]]), maxEvents)
      == FoldSpec(ep, ViewOf(ep, trusted, events), maxEvents)
  {
    hide FoldSpec, IsEpochShape;
    var more := events + [events[i]];
    assert more[..|more| - 1] == events;
    assert forall x :: x in more <==> x in events;
    assert Present(ep, more) == Present(ep, events);
  }
}
