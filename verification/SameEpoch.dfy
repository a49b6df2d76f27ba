/** Two chains with one head open one epoch, and what an epoch merges to does not depend on which other
    digests the chain it stands on held. */
module SameEpoch {
  import opened Basics
  import opened Dag
  import opened Events
  import opened Members
  import opened ChainFacts
  import opened ChainHistory
  import opened EpochSpec
  import opened EpochMemory
  import opened EpochMerge

  lemma SameRoots(a: seq<KeyState>, b: seq<KeyState>, gen: int, recovery: Digest)
    requires forall s :: s in a && s.gen == gen ==> s in b
    requires forall s :: s in b && s.gen == gen ==> s in a
    ensures RootsOf(a, gen, recovery) == RootsOf(b, gen, recovery)
  {
  }

  /** One head, one epoch: only the digests of other chain events may differ. */
  lemma {:induction false} OneHeadOneEpoch(c: Suite, did: Did, a: seq<ChainEntry>, b: seq<ChainEntry>)
    requires Sound(c) && Folds(c, did, a) && Folds(c, did, b)
    requires HeadState(c, did, a).digest == HeadState(c, did, b).digest
    ensures var x, y := EpochOf(c, did, ChainStates(c, did, a)), EpochOf(c, did, ChainStates(c, did, b));
      y == x.(chain := y.chain)
  {
    hide Folds, ChainStates, Top, RootsOf, Sound;
    SameHistory(c, did, a, b);
    TopMeans(c, did, a);
    TopMeans(c, did, b);
    var head := HeadState(c, did, a);
    SameRoots(ChainStates(c, did, a), ChainStates(c, did, b), head.gen, head.recovery);
  }

  lemma {:induction false} GateIgnoresChain(ep: Epoch, chain: set<Digest>, cand: Candidate, causal: EpochState)
    ensures Judge(ep.(chain := chain), cand, causal) == Judge(ep, cand, causal)
  {
    hide IsDenied, IsRootKey, Charge, VerifySignatures;
    var ep' := ep.(chain := chain);
    var gate := SignerGate(ep, cand.event, causal);
    assert gate == SignerGate(ep', cand.event, causal);
    if gate.Signers? {
      assert GenuineCopies(ep', cand, gate.keys) == GenuineCopies(ep, cand, gate.keys);
      assert FailedCopies(ep', cand, gate.keys) == FailedCopies(ep, cand, gate.keys);
      assert Authentic(ep', cand, gate.keys) == Authentic(ep, cand, gate.keys);
      RulesIgnoreChain(ep, chain, cand.event, gate.signer, causal);
    }
  }

  lemma RulesIgnoreChain(ep: Epoch, chain: set<Digest>, event: EpochEvent, signer: Option<MemberEntry>, causal: EpochState)
    ensures Rules(ep.(chain := chain), event, signer, causal) == Rules(ep, event, signer, causal)
  {
    hide IsDenied, IsRootKey, Targets;
  }

  /** The states after the events, whatever the chain. */
  lemma {:induction false} SameAfter(ep: Epoch, chain: set<Digest>, g: Graph)
    ensures After(ep.(chain := chain), g) == After(ep, g)
  {
    hide Judge, Join, AnchorState;
    var ep' := ep.(chain := chain);
    var a, b := DagOf(ep, g), DagOf(ep', g);
    AnchorIgnoresChain(ep, chain);
    forall d, s ensures a.effect(d, s) == b.effect(d, s) {
      if d in g {
        GateIgnoresChain(ep, chain, g[d], s);
      }
    }
    AfterWithin(ep, g);
    AfterWithin(ep', g);
    assert Refines(a, b) && Refines(b, a);
    Growth(a, b);
    Growth(b, a);
    BothExtend(After(ep, g), After(ep', g));
  }

  lemma BothExtend<S(!new)>(a: map<int, S>, b: map<int, S>)
    requires Extends(a, b) && Extends(b, a)
    ensures a == b
  {
    SubsetSize(b.Keys, a.Keys);
    SameStates(a, b);
  }

  lemma AnchorIgnoresChain(ep: Epoch, chain: set<Digest>)
    ensures AnchorState(ep.(chain := chain)) == AnchorState(ep)
  {
  }

  lemma {:induction false} SameCausal(ep: Epoch, chain: set<Digest>, g: Graph, after: States, parents: seq<Digest>)
    ensures Causal(DagOf(ep.(chain := chain), g), after, parents) == Causal(DagOf(ep, g), after, parents)
  {
    hide Judge, Join, AnchorState;
    AnchorIgnoresChain(ep, chain);
    if parents != [] {
      SameCausal(ep, chain, g, after, parents[..|parents| - 1]);
    }
  }

  lemma {:induction false} SameVerdict(ep: Epoch, chain: set<Digest>, g: Graph, after: States, d: Digest)
    requires d in g
    ensures VerdictOn(ep.(chain := chain), g, after, d) == VerdictOn(ep, g, after, d)
  {
    hide Judge, Join, DagOf;
    SameCausal(ep, chain, g, after, g[d].event.p);
    GateIgnoresChain(ep, chain, g[d], Causal(DagOf(ep, g), after, g[d].event.p));
  }

  lemma {:induction false} SameUnion(ep: Epoch, chain: set<Digest>, g: Graph, after: States, order: seq<Digest>)
    requires Elems(order) <= g.Keys
    ensures Union(ep.(chain := chain), g, after, order) == Union(ep, g, after, order)
  {
    hide VerdictOn, Join, AnchorState;
    if order == [] {
      AnchorIgnoresChain(ep, chain);
    } else {
      var last := order[|order| - 1];
      assert last in Elems(order) && Elems(order[..|order| - 1]) <= Elems(order);
      SameUnion(ep, chain, g, after, order[..|order| - 1]);
      SameVerdict(ep, chain, g, after, last);
    }
  }

  lemma {:induction false} SameAccount(ep: Epoch, chain: set<Digest>, g: Graph)
    ensures var ep' := ep.(chain := chain);
      && After(ep', g) == After(ep, g) && Applied(ep', g) == Applied(ep, g)
      && Evaluated(ep', g) == Evaluated(ep, g) && Charges(ep', g) == Charges(ep, g)
      && AuthenticCopies(ep', g) == AuthenticCopies(ep, g)
      && Union(ep', g, After(ep', g), Applied(ep', g)) == Union(ep, g, After(ep, g), Applied(ep, g))
      && (forall d :: d in g ==> VerdictOn(ep', g, After(ep', g), d) == VerdictOn(ep, g, After(ep, g), d))
  {
    hide VerdictOn, Join, AnchorState, After, Union, KahnOrder;
    SameAfter(ep, chain, g);
    forall d | d in g ensures VerdictOn(ep.(chain := chain), g, After(ep, g), d) == VerdictOn(ep, g, After(ep, g), d) {
      SameVerdict(ep, chain, g, After(ep, g), d);
    }
    SameUnion(ep, chain, g, After(ep, g), Applied(ep, g));
  }

  lemma OneDigestOneEvent(ep: Epoch, a: EpochEvent, b: EpochEvent)
    requires Sound(ep.suite) && DigestOf(ep, a) == DigestOf(ep, b)
    ensures a == b
  {
    assert OfEpoch(a) == OfEpoch(b);
  }

  lemma SameCandidates(ep: Epoch, chain: set<Digest>, view: View)
    requires Sound(ep.suite)
    ensures Candidates(ep.(chain := chain), view) == Candidates(ep, view)
  {
    hide Sound, Local, DigestOf;
    var ep', present := ep.(chain := chain), view.present;
    LocalIgnoresChain(ep, chain);
    assert LocalDigests(ep', present) == LocalDigests(ep, present);
    forall d | d in LocalDigests(ep, present) ensures EventOf(ep', present, d) == EventOf(ep, present, d) {
      OneDigestOneEvent(ep, EventOf(ep', present, d), EventOf(ep, present, d));
    }
    forall d ensures CopiesOf(ep', present, d) == CopiesOf(ep, present, d) {
    }
  }

  lemma LocalIgnoresChain(ep: Epoch, chain: set<Digest>)
    ensures forall event :: Local(ep.(chain := chain), event) == Local(ep, event)
    ensures forall event :: DigestOf(ep.(chain := chain), event) == DigestOf(ep, event)
  {
  }

  lemma SameRefusals(ep: Epoch, chain: set<Digest>, present: set<EpochCopy>)
    requires Sound(ep.suite)
    ensures var ep' := ep.(chain := chain);
      && RefusedOnSight(ep', present) == RefusedOnSight(ep, present)
      && (forall d :: d in RefusedOnSight(ep, present) ==> RefusalOnSight(ep', present, d) == RefusalOnSight(ep, present, d))
      && OtherEpochs(ep', present) == OtherEpochs(ep, present)
  {
    hide Sound, DigestOf;
    var ep' := ep.(chain := chain);
    LocalIgnoresChain(ep, chain);
    assert forall event :: Intrinsic(ep', event) == Intrinsic(ep, event);
    assert RefusedOnSight(ep', present) == RefusedOnSight(ep, present);
    forall d | d in RefusedOnSight(ep, present) ensures RefusalOnSight(ep', present, d) == RefusalOnSight(ep, present, d) {
      OneRefusal(ep, chain, present, d);
    }
  }

  lemma OneRefusal(ep: Epoch, chain: set<Digest>, present: set<EpochCopy>, d: Digest)
    requires Sound(ep.suite) && d in RefusedOnSight(ep, present) && d in RefusedOnSight(ep.(chain := chain), present)
    ensures RefusalOnSight(ep.(chain := chain), present, d) == RefusalOnSight(ep, present, d)
  {
    var x :| x in present && x.event.e == ep.anchor.epoch && Intrinsic(ep, x.event).Some? && DigestOf(ep, x.event) == d;
    forall y | y in present && DigestOf(ep, y.event) == d ensures y.event == x.event {
      OneDigestOneEvent(ep, x.event, y.event);
    }
  }

  lemma {:induction false} SameReasons(ep: Epoch, chain: set<Digest>, view: View)
    requires Sound(ep.suite) && CrossEpoch(ep.(chain := chain), view) == CrossEpoch(ep, view)
    ensures Reasons(ep.(chain := chain), view) == Reasons(ep, view)
  {
    hide VerdictOn, After, Evaluated, Candidates, RefusedOnSight, RefusalOnSight, CrossEpoch, Sound, Applied, Union, Charges, AuthenticCopies;
    SameCandidates(ep, chain, view);
    SameRefusals(ep, chain, view.present);
    SameAccount(ep, chain, GraphOf(ep, view));
  }

  /** The same events left outside, the same answer. */
  lemma {:induction false} SameFold(ep: Epoch, chain: set<Digest>, view: View, maxEvents: nat)
    requires Sound(ep.suite) && CrossEpoch(ep.(chain := chain), view) == CrossEpoch(ep, view)
    ensures FoldSpec(ep.(chain := chain), view, maxEvents) == FoldSpec(ep, view, maxEvents)
  {
    hide VerdictOn, After, Union, Applied, Evaluated, Charges, AuthenticCopies, Candidates, RefusedOnSight, RefusalOnSight, CrossEpoch, Sound,
      Reasons, MembersOf, Total;
    var g := GraphOf(ep, view);
    SameCandidates(ep, chain, view);
    SameRefusals(ep, chain, view.present);
    SameAccount(ep, chain, g);
    SameReasons(ep, chain, view);
    SameHead(ep, chain, Union(ep, g, After(ep, g), Applied(ep, g)));
  }

  lemma SameHead(ep: Epoch, chain: set<Digest>, state: EpochState)
    ensures MembersOf(ep.(chain := chain), state) == MembersOf(ep, state)
  {
    hide IsDenied;
  }
}