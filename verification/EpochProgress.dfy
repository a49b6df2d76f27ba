/** What the merge loop knows between two events, and that it ends at the recursive definition. A `Progress` is
    the part of the loop's state that the answer is read off; `Right` says that its states are those the
    definition gives, that every verdict was the one due, and that nothing still to come should have been
    taken before an event already taken. Each kind of step keeps it, and with nothing ready it is all there is. */
module EpochProgress {
  import opened Basics
  import opened Dag
  import opened Events
  import opened EpochSpec
  import opened Kahn

  /** Where the loop stands: the events applied in order, those judged, the state after each applied
      one, why the others were refused, what each cost in failed signatures, and the copies kept. */
  datatype Progress = Progress(
    applied: seq<Digest>, judged: set<Digest>, states: States,
    refused: map<Digest, Reason>, charges: map<Digest, nat>, authentic: map<Digest, EpochCopy>)

  ghost predicate VerdictKept(ep: Epoch, g: Graph, p: Progress, d: Digest)
    requires d in g
  {
    var v := VerdictOn(ep, g, p.states, d);
    && d in p.charges && p.charges[d] == v.charge
    && match v.outcome
       case Accepted(effect) =>
         && d in p.states && d !in p.refused && v.authentic.Some?
         && p.states[d] == Join(Causal(DagOf(ep, g), p.states, g[d].event.p), effect)
         && d in p.authentic && p.authentic[d] == EpochCopy(g[d].event, v.authentic.value)
       case Refused(reason) =>
         d !in p.states && d in p.refused && p.refused[d] == reason && d !in p.authentic
  }

  ghost predicate Domains(ep: Epoch, g: Graph, p: Progress) {
    && Distinct(p.applied) && Elems(p.applied) == p.states.Keys
    && p.states.Keys <= p.judged && p.judged <= g.Keys
    && p.charges.Keys == p.judged && p.refused.Keys == p.judged - p.states.Keys && p.authentic.Keys == p.states.Keys
    && (forall d :: d in p.judged ==> ParentsIn(ep.anchor.epoch, g[d].event.p, p.states.Keys))
  }

  /** Every event not judged yet comes after each applied one it could have been taken for. */
  ghost predicate Least(ep: Epoch, g: Graph, p: Progress) {
    forall i, d :: 0 <= i < |p.applied| && d in g && d !in p.judged ==>
      (ParentsIn(ep.anchor.epoch, g[d].event.p, Elems(p.applied[..i])) ==> p.applied[i] < d)
  }

  ghost predicate Right(ep: Epoch, g: Graph, p: Progress) {
    && Domains(ep, g, p)
    && (forall d :: d in p.judged ==> VerdictKept(ep, g, p, d))
    && Topological(ParentsOf(g), ep.anchor.epoch, p.applied)
    && SmallestFirst(ParentsOf(g), ep.anchor.epoch, p.applied)
    && Least(ep, g, p)
  }

  const START := Progress([], {}, map[], map[], map[], map[])

  ghost predicate Next(ep: Epoch, g: Graph, p: Progress, d: Digest) {
    NextReady(ParentsOf(g), ep.anchor.epoch, p.states.Keys, p.judged, d)
  }

  function Refusing(p: Progress, d: Digest, reason: Reason, charge: nat): Progress {
    p.(judged := p.judged + {d}, refused := p.refused[d := reason], charges := p.charges[d := charge])
  }

  function Applying(p: Progress, d: Digest, state: EpochState, copy: EpochCopy, charge: nat): Progress {
    p.(applied := p.applied + [d], judged := p.judged + {d}, states := p.states[d := state],
       charges := p.charges[d := charge], authentic := p.authentic[d := copy])
  }

  lemma StartRight(ep: Epoch, g: Graph)
    ensures Right(ep, g, START)
  {
    assert Elems<Digest>([]) == {};
  }

  lemma RefusingRight(ep: Epoch, g: Graph, p: Progress, d: Digest)
    requires Right(ep, g, p) && Next(ep, g, p, d)
    requires VerdictOn(ep, g, p.states, d).outcome.Refused?
    ensures var v := VerdictOn(ep, g, p.states, d); Right(ep, g, Refusing(p, d, v.outcome.reason, v.charge))
  {
    hide Judge, Causal, DagOf, ParentsIn, Topological, SmallestFirst;
    var v := VerdictOn(ep, g, p.states, d);
    var q := Refusing(p, d, v.outcome.reason, v.charge);
    forall e | e in q.judged ensures VerdictKept(ep, g, q, e) {
      if e != d {
        assert VerdictKept(ep, g, p, e);
      }
    }
  }

  lemma PrefixesKept(order: seq<Digest>, d: Digest)
    ensures forall i :: 0 <= i <= |order| ==> (order + [d])[..i] == order[..i]
  {
  }

  lemma OrderGrows(ep: Epoch, g: Graph, p: Progress, d: Digest)
    requires Domains(ep, g, p) && Least(ep, g, p) && Next(ep, g, p, d)
    requires Topological(ParentsOf(g), ep.anchor.epoch, p.applied)
    requires SmallestFirst(ParentsOf(g), ep.anchor.epoch, p.applied)
    ensures Elems(p.applied + [d]) == p.states.Keys + {d}
    ensures Topological(ParentsOf(g), ep.anchor.epoch, p.applied + [d])
    ensures SmallestFirst(ParentsOf(g), ep.anchor.epoch, p.applied + [d])
  {
    ElemsAppend(p.applied, d);
    PrefixesKept(p.applied, d);
    assert d !in Elems(p.applied);
  }

  lemma LeastGrows(ep: Epoch, g: Graph, p: Progress, d: Digest, q: Progress)
    requires Domains(ep, g, p) && Least(ep, g, p) && Next(ep, g, p, d)
    requires q.applied == p.applied + [d] && q.judged == p.judged + {d}
    ensures Least(ep, g, q)
  {
    PrefixesKept(p.applied, d);
    assert q.applied[..|p.applied|] == p.applied;
    forall i, e | 0 <= i < |q.applied| && e in g && e !in q.judged
      && ParentsIn(ep.anchor.epoch, g[e].event.p, Elems(q.applied[..i]))
      ensures q.applied[i] < e
    {
      if i == |p.applied| {
        assert e in ReadyNow(ParentsOf(g), ep.anchor.epoch, p.states.Keys, p.judged);
      }
    }
  }

  lemma DomainsGrow(ep: Epoch, g: Graph, p: Progress, d: Digest, state: EpochState, copy: EpochCopy, charge: nat)
    requires Domains(ep, g, p) && Next(ep, g, p, d)
    ensures Domains(ep, g, Applying(p, d, state, copy, charge))
  {
    ElemsAppend(p.applied, d);
    assert d !in Elems(p.applied);
  }

  lemma VerdictStays(ep: Epoch, g: Graph, a: States, b: States, d: Digest)
    requires d in g && Extends(a, b) && ParentsIn(ep.anchor.epoch, g[d].event.p, a.Keys)
    ensures VerdictOn(ep, g, a, d) == VerdictOn(ep, g, b, d)
    ensures Causal(DagOf(ep, g), a, g[d].event.p) == Causal(DagOf(ep, g), b, g[d].event.p)
  {
    CausalAgrees(DagOf(ep, g), a, b, g[d].event.p);
  }

  /** The progress after the verdict on `d` accepts it. */
  ghost function Applied'(ep: Epoch, g: Graph, p: Progress, d: Digest): Progress
    requires d in g
    requires VerdictOn(ep, g, p.states, d).outcome.Accepted? && VerdictOn(ep, g, p.states, d).authentic.Some?
  {
    var v := VerdictOn(ep, g, p.states, d);
    Applying(p, d, Join(Causal(DagOf(ep, g), p.states, g[d].event.p), v.outcome.effect),
      EpochCopy(g[d].event, v.authentic.value), v.charge)
  }

  lemma VerdictsStay(ep: Epoch, g: Graph, p: Progress, d: Digest, e: Digest)
    requires Domains(ep, g, p) && d in g && d !in p.judged && e in p.judged && VerdictKept(ep, g, p, e)
    requires VerdictOn(ep, g, p.states, d).outcome.Accepted? && VerdictOn(ep, g, p.states, d).authentic.Some?
    ensures VerdictKept(ep, g, Applied'(ep, g, p, d), e)
  {
    hide Judge, Causal, DagOf, Join, VerdictOn;
    var q := Applied'(ep, g, p, d);
    assert Extends(p.states, q.states);
    VerdictStays(ep, g, p.states, q.states, e);
  }

  lemma VerdictAdded(ep: Epoch, g: Graph, p: Progress, d: Digest)
    requires Domains(ep, g, p) && d in g && d !in p.judged
    requires ParentsIn(ep.anchor.epoch, g[d].event.p, p.states.Keys)
    requires VerdictOn(ep, g, p.states, d).outcome.Accepted? && VerdictOn(ep, g, p.states, d).authentic.Some?
    ensures VerdictKept(ep, g, Applied'(ep, g, p, d), d)
  {
    hide Judge, Causal, DagOf, Join, VerdictOn;
    var q := Applied'(ep, g, p, d);
    assert Extends(p.states, q.states);
    VerdictStays(ep, g, p.states, q.states, d);
  }

  lemma ApplyingRight(ep: Epoch, g: Graph, p: Progress, d: Digest)
    requires Right(ep, g, p) && d in g && Next(ep, g, p, d)
    requires VerdictOn(ep, g, p.states, d).outcome.Accepted? && VerdictOn(ep, g, p.states, d).authentic.Some?
    ensures Right(ep, g, Applied'(ep, g, p, d))
  {
    hide VerdictOn, Causal, Topological, SmallestFirst, Join, VerdictKept, Domains, Least, Next;
    var q := Applied'(ep, g, p, d);
    NextIs(ep, g, p, d);
    OrderGrows(ep, g, p, d);
    LeastGrows(ep, g, p, d, q);
    DomainsGrow(ep, g, p, d, q.states[d], q.authentic[d], q.charges[d]);
    VerdictAdded(ep, g, p, d);
    forall e | e in q.judged ensures VerdictKept(ep, g, q, e) {
      if e != d {
        VerdictsStay(ep, g, p, d, e);
      }
    }
  }

  lemma NextIs(ep: Epoch, g: Graph, p: Progress, d: Digest)
    requires Domains(ep, g, p) && Next(ep, g, p, d)
    ensures d in g && d !in p.judged && ParentsIn(ep.anchor.epoch, g[d].event.p, p.states.Keys)
    ensures p.judged <= g.Keys
  {
  }

  // ---------------------------------------------------------------- where it ends

  lemma StatesEarned(ep: Epoch, g: Graph, p: Progress)
    requires Right(ep, g, p)
    ensures Earned(DagOf(ep, g), p.states)
  {
    hide Judge, Causal, Join, Topological, SmallestFirst, Least;
    forall d | d in p.states
      ensures Applies(DagOf(ep, g), d, p.states) && p.states[d] == StateAfter(DagOf(ep, g), d, p.states)
    {
      assert VerdictKept(ep, g, p, d);
    }
  }

  lemma NothingElseApplies(ep: Epoch, g: Graph, p: Progress)
    requires Right(ep, g, p) && ReadyNow(ParentsOf(g), ep.anchor.epoch, p.states.Keys, p.judged) == {}
    ensures Closed(DagOf(ep, g), p.states)
  {
    hide Judge, Causal, Join, Topological, SmallestFirst, Least;
    forall d | Applies(DagOf(ep, g), d, p.states) ensures d in p.states {
      assert d !in ReadyNow(ParentsOf(g), ep.anchor.epoch, p.states.Keys, p.judged);
      assert VerdictKept(ep, g, p, d);
    }
  }

  lemma WithinAfter(ep: Epoch, g: Graph, p: Progress)
    requires Right(ep, g, p)
    ensures Extends(p.states, After(ep, g))
  {
    hide Judge, Causal, Join, DagOf, VerdictKept, Topological, Earned, SmallestFirst, Least;
    StatesEarned(ep, g, p);
    DagShape(ep, g);
    OrderWithin(DagOf(ep, g), p.states, p.applied);
  }

  lemma DagShape(ep: Epoch, g: Graph)
    ensures DagOf(ep, g).parents == ParentsOf(g) && DagOf(ep, g).root == ep.anchor.epoch
    ensures |ParentsOf(g)| == |g|
  {
    assert ParentsOf(g).Keys == g.Keys;
  }

  /** With nothing ready, the loop has computed the recursive definition and its order. */
  lemma Ended(ep: Epoch, g: Graph, p: Progress)
    requires Right(ep, g, p) && ReadyNow(ParentsOf(g), ep.anchor.epoch, p.states.Keys, p.judged) == {}
    ensures p.states == After(ep, g) && p.applied == Applied(ep, g) && p.judged == Evaluated(ep, g)
  {
    hide Judge, Causal, Join, DagOf, VerdictKept;
    StatesEarned(ep, g, p);
    NothingElseApplies(ep, g, p);
    DagShape(ep, g);
    OnlyAccount(DagOf(ep, g), p.states, p.applied);
    OnlyOrder(ParentsOf(g), ep.anchor.epoch, p.applied);
    forall d | d in Evaluated(ep, g) ensures d in p.judged {
      assert d !in ReadyNow(ParentsOf(g), ep.anchor.epoch, p.states.Keys, p.judged);
    }
    forall d | d in p.judged ensures d in Evaluated(ep, g) {
      assert ParentsIn(ep.anchor.epoch, g[d].event.p, p.states.Keys);
    }
  }

  lemma EndedAccounts(ep: Epoch, g: Graph, p: Progress)
    requires Right(ep, g, p) && p.states == After(ep, g) && p.judged == Evaluated(ep, g)
    ensures p.charges == Charges(ep, g) && p.authentic == AuthenticCopies(ep, g)
    ensures forall d :: d in p.refused ==>
      VerdictOn(ep, g, After(ep, g), d).outcome == Refused(p.refused[d])
  {
    hide Judge, Causal, Join, DagOf, Topological, SmallestFirst, Least, After;
    forall d | d in p.judged ensures VerdictKept(ep, g, p, d) {
    }
  }

  /** What the events judged so far cost, with the next one, is part of what the whole fold costs. */
  lemma OverLimit(ep: Epoch, g: Graph, p: Progress, d: Digest)
    requires Right(ep, g, p) && d in g && Next(ep, g, p, d)
    requires Total(p.charges) + VerdictOn(ep, g, p.states, d).charge > MAX_FAILED_SIGNATURES
    ensures Total(Charges(ep, g)) > MAX_FAILED_SIGNATURES
  {
    hide Judge, Causal, Join, DagOf, Topological, SmallestFirst, Least;
    WithinAfter(ep, g, p);
    var part := p.charges[d := VerdictOn(ep, g, p.states, d).charge];
    TotalInsert(p.charges, d, VerdictOn(ep, g, p.states, d).charge);
    forall e | e in part ensures e in Charges(ep, g) && Charges(ep, g)[e] == part[e] {
      VerdictStays(ep, g, p.states, After(ep, g), e);
      if e != d {
        assert VerdictKept(ep, g, p, e);
      }
    }
    TotalSubmap(part, Charges(ep, g));
  }
}
