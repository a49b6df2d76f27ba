/** Events by root on the opening of an epoch, which all apply whatever else is presented with them, and a chain of
    one inception, under a suite that accepts everything, to present them on. They are the inputs on which a log
    is shown to do what its comments rule out: each event is within root's power on the state the chain opens
    with, each copy is genuine, and the fold of any number of them goes through. */
module OpeningEvents {
  import opened Basics
  import opened Dag
  import opened Events
  import opened Fold
  import opened ChainFacts
  import opened EpochSpec
  import opened EpochTheorems
  import opened EpochAuthority
  import opened EpochMemory
  import opened EpochRefold
  import opened EpochTriage
  import opened EpochMerge
  import opened Resolve
  import opened OpenSuite

  // ---------------------------------------------------------------- root's events on the opening

  /** The state an event on the opening is judged against. */
  ghost function OnOpening(ep: Epoch): EpochState {
    Join(EMPTY, AnchorState(ep))
  }

  /** An event by root, on the opening, that is within root's power there. */
  ghost predicate PlainEvent(ep: Epoch, event: EpochEvent) {
    && Local(ep, event) && event.p == [ep.anchor.epoch] && event.author.None? && WithinPower(ep, event, OnOpening(ep))
  }

  /** All that is held and presented are such events, those presented with root's signatures. */
  ghost predicate AllPlain(ep: Epoch, view: View) {
    && WellView(ep, view)
    && (forall d :: d in view.held ==> PlainEvent(ep, view.held[d].event))
    && (forall x :: x in view.present ==> PlainEvent(ep, x.event) && Genuine(ep, x.event, x.sigs, ep.anchor.keys))
  }

  lemma {:induction false} PlainCandidates(ep: Epoch, view: View)
    requires Sound(ep.suite) && AllPlain(ep, view)
    ensures GraphOf(ep, view) == Candidates(ep, view)
    ensures GraphOf(ep, view).Keys == view.held.Keys + LocalDigests(ep, view.present)
    ensures forall d :: d in GraphOf(ep, view) ==> PlainCandidate(ep, GraphOf(ep, view)[d])
  {
    hide Local, Genuine, WellView, WithinPower, OnOpening;
    var g := Candidates(ep, view);
    forall d | d in g ensures PlainCandidate(ep, g[d]) {
      if d !in view.held {
        PlainCopies(ep, view, d);
      }
    }
    assert CrossEpoch(ep, view) == {};
  }

  ghost predicate PlainCandidate(ep: Epoch, cand: Candidate) {
    && PlainEvent(ep, cand.event) && cand.copies != {}
    && (cand.trusted.Some? || forall s :: s in cand.copies ==> Genuine(ep, cand.event, s, ep.anchor.keys))
  }

  lemma PlainCopies(ep: Epoch, view: View, d: Digest)
    requires Sound(ep.suite) && AllPlain(ep, view) && d in LocalDigests(ep, view.present)
    ensures PlainEvent(ep, EventOf(ep, view.present, d)) && CopiesOf(ep, view.present, d) != {}
    ensures forall s :: s in CopiesOf(ep, view.present, d) ==> Genuine(ep, EventOf(ep, view.present, d), s, ep.anchor.keys)
  {
    hide Local, Genuine, WellView, WithinPower, OnOpening;
    var event := EventOf(ep, view.present, d);
    var x :| x in view.present && Local(ep, x.event) && DigestOf(ep, x.event) == d && event == x.event;
    assert x.sigs in CopiesOf(ep, view.present, d);
    forall y | y in view.present && DigestOf(ep, y.event) == d ensures y.event == event {
      assert ep.suite.bodyOf(ep.suite.digestOf(OfEpoch(y.event))) == OfEpoch(y.event);
      assert ep.suite.bodyOf(ep.suite.digestOf(OfEpoch(event))) == OfEpoch(event);
    }
  }

  /** Such a candidate is accepted, at no cost. */
  lemma {:induction false} PlainJudged(ep: Epoch, cand: Candidate)
    requires PlainCandidate(ep, cand)
    ensures Judge(ep, cand, OnOpening(ep)).outcome.Accepted? && Judge(ep, cand, OnOpening(ep)).charge == 0
  {
    hide Local, Genuine, WithinPower, Join, AnchorState;
    AcceptedIff(ep, cand, OnOpening(ep));
    var s := Pick(cand.copies);
    assert FailedCopies(ep, cand, ep.anchor.keys) == {} by {
      if cand.trusted.None? {
        assert GenuineCopies(ep, cand, ep.anchor.keys) == cand.copies;
      }
    }
    if cand.trusted.None? {
      GenuineIff(ep, cand.event, s, ep.anchor.keys);
    }
    NoCharge();
  }

  lemma CausalOnOpening(ep: Epoch, g: Graph, after: States)
    ensures Causal(DagOf(ep, g), after, [ep.anchor.epoch]) == OnOpening(ep)
  {
    hide Judge;
    assert [ep.anchor.epoch][..0] == [];
    assert Causal(DagOf(ep, g), after, []) == EMPTY;
  }

  lemma {:induction false} PlainApply(ep: Epoch, g: Graph)
    requires forall d :: d in g ==> PlainCandidate(ep, g[d])
    ensures After(ep, g).Keys == g.Keys
  {
    hide Judge, PlainCandidate, PlainEvent, Join, After, Genuine, Causal, OnOpening;
    EventApplies(ep, g);
    AfterWithin(ep, g);
    CausalOnOpening(ep, g, After(ep, g));
    forall d | d in g ensures d in After(ep, g) {
      CandidateEvent(ep, g[d]);
      OpeningParents(ep, g[d].event, After(ep, g).Keys);
      PlainJudged(ep, g[d]);
    }
  }

  lemma CandidateEvent(ep: Epoch, cand: Candidate)
    requires PlainCandidate(ep, cand)
    ensures PlainEvent(ep, cand.event)
  {
  }

  lemma {:induction false} PlainCharges(ep: Epoch, g: Graph)
    requires forall d :: d in g ==> PlainCandidate(ep, g[d])
    ensures Total(Charges(ep, g)) == 0
  {
    hide Judge, PlainCandidate, PlainEvent, Join, After, Causal, Total, OnOpening;
    CausalOnOpening(ep, g, After(ep, g));
    forall d | d in g ensures VerdictOn(ep, g, After(ep, g), d).charge == 0 {
      CandidateEvent(ep, g[d]);
      OpeningParents(ep, g[d].event, After(ep, g).Keys);
      PlainJudged(ep, g[d]);
    }
    NothingTotals(Charges(ep, g));
  }

  /** All of them apply, and the fold goes through. */
  lemma {:induction false} PlainFolds(ep: Epoch, view: View, maxEvents: nat)
    requires Sound(ep.suite) && AllPlain(ep, view)
    ensures var r := FoldSpec(ep, view, maxEvents);
      && r.Merged? && Elems(r.applied) == view.held.Keys + LocalDigests(ep, view.present) && Distinct(r.applied)
      && (forall d :: d in r.applied ==> d in r.authentic && PlainEvent(ep, r.authentic[d].event))
  {
    hide Judge, GraphOf, Union, Reasons, MembersOf, Applied, PlainEvent, PlainCandidate, Join, LocalDigests, AllPlain, AuthenticCopies, Charges,
      After, Evaluated, Total, Sound, RefusedOnSight, CrossEpoch;
    var g := GraphOf(ep, view);
    PlainCandidates(ep, view);
    PlainApply(ep, g);
    PlainCharges(ep, g);
    AppliedOrder(ep, g);
    AuthenticAll(ep, g);
    forall d | d in Applied(ep, g) ensures d in g && PlainEvent(ep, g[d].event) {
      assert d in Elems(Applied(ep, g));
      CandidateEvent(ep, g[d]);
    }
  }

  lemma OpeningParents(ep: Epoch, event: EpochEvent, done: set<Digest>)
    requires PlainEvent(ep, event)
    ensures event.p == [ep.anchor.epoch] && ParentsIn(ep.anchor.epoch, event.p, done)
  {
  }

  lemma PlainLocal(ep: Epoch, event: EpochEvent)
    requires PlainEvent(ep, event)
    ensures Local(ep, event)
  {
  }

  // ---------------------------------------------------------------- a chain to present them on

  /** An inception under a suite that accepts everything, and the chain of it alone. */
  ghost function Opening(): ChainEvent {
    Inception(0, 0, KeySet([1], [2], [3], 1, 1), 4)
  }

  ghost function OpeningChain(): Chain {
    [Signed(Opening(), [0], None)]
  }

  ghost function OpeningDigest(): Digest {
    Digested(Accepting(), Opening())
  }

  ghost function Owner(): Did {
    Kokuin(OpeningDigest())
  }

  ghost function OpeningEpoch(): Epoch
    requires Folds(Accepting(), Owner(), OpeningChain())
  {
    EpochOf(Accepting(), Owner(), ChainStates(Accepting(), Owner(), OpeningChain()))
  }

  lemma OpeningFolds()
    ensures Folds(Accepting(), Owner(), OpeningChain())
    ensures ChainStates(Accepting(), Owner(), OpeningChain()) == [FirstState(Accepting(), Owner(), Opening())]
    ensures OpeningEpoch().suite == Accepting() && OpeningEpoch().did == Owner() && OpeningEpoch().anchor == FirstState(Accepting(), Owner(), Opening())
  {
    hide OfBody, OfList;
  }
}
