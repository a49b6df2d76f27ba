/** Merging an epoch into the chain's last state: Kahn's algorithm over the candidates, with the state after
    each event kept only until its last child has read it. The states are objects added to in place; `owned`
    holds those of applied events, and `Kept` ties each one still held to the state the definition gives its
    event. The loop's variables travel as one `Loop` value, and a step is split into judging the next event
    and taking in what comes of it. */
module MergeLoop {
  import opened Basics
  import opened Dag
  import opened Events
  import opened EpochSpec
  import opened EpochProgress
  import opened EpochTriage
  import opened Kahn

  /** An epoch state that is added to in place. */
  class Accumulator {
    var added: map<Digest, MemberEntry>
    var removed: set<Digest>
    var leases: map<Digest, int>
    var deny: set<Target>

    function Value(): EpochState
      reads this
    {
      EpochState(added, removed, leases, deny)
    }

    constructor (state: EpochState)
      ensures Value() == state
    {
      added, removed, leases, deny := state.added, state.removed, state.leases, state.deny;
    }

    /** Become the join of this state and `other`. */
    method JoinInto(other: EpochState)
      modifies this
      ensures Value() == Join(old(Value()), other)
    {
      AddMembers(other.added);
      removed := removed + other.removed;
      RaiseLeases(other.leases);
      deny := deny + other.deny;
    }

    method AddMembers(more: map<Digest, MemberEntry>)
      modifies this`added
      ensures added == old(added) + more
    {
      MinusEnds(more);
      var todo: set<Digest> := more.Keys;
      while todo != {}
        invariant todo <= more.Keys && added == old(added) + (more - todo)
        decreases todo
      {
        var add := Take(todo);
        MinusNext(more, todo, add);
        added := added[add := more[add]];
        todo := todo - {add};
      }
    }

    method RaiseLeases(more: map<Digest, int>)
      modifies this`leases
      ensures leases == MaxLeases(old(leases), more)
    {
      MinusEnds(more);
      var todo: set<Digest> := more.Keys;
      assert MaxLeases(leases, map[]) == leases;
      while todo != {}
        invariant todo <= more.Keys && leases == MaxLeases(old(leases), more - todo)
        decreases todo
      {
        var add := Take(todo);
        MinusNext(more, todo, add);
        MaxLeasesNext(old(leases), more - todo, add, more[add]);
        if add !in leases || more[add] > leases[add] {
          leases := leases[add := more[add]];
        }
        todo := todo - {add};
      }
    }
  }

  lemma MaxLeasesNext(a: map<Digest, int>, b: map<Digest, int>, k: Digest, lease: int)
    requires k !in b
    ensures var m := MaxLeases(a, b);
      MaxLeases(a, b[k := lease]) == if k !in m || lease > m[k] then m[k := lease] else m
  {
  }

  /** Judge a candidate: let its signer in, find its authentic copy, apply the rules. */
  method Evaluate(ep: Epoch, slot: Slot, causal: EpochState, failedBefore: nat)
    returns (outcome: Outcome, authentic: Option<seq<Sig>>, failed: nat)
    requires Sound(ep.suite) && failedBefore <= MAX_FAILED_SIGNATURES
    ensures var v := Judge(ep, CandidateIn(slot), causal);
      && (failed <= MAX_FAILED_SIGNATURES
        ==> failed == failedBefore + v.charge && outcome == v.outcome && authentic == v.authentic)
      && (failed > MAX_FAILED_SIGNATURES ==> failedBefore + v.charge > MAX_FAILED_SIGNATURES)
  {
    var gate := SignerGate(ep, slot.event, causal);
    if gate.Barred? {
      return Refused(gate.reason), None, failedBefore;
    }
    if slot.trusted.Some? {
      authentic, failed := slot.trusted, failedBefore;
      NoCharge();
    } else {
      authentic, failed := CanonicalCopy(ep, slot.event, slot.copies, gate.keys, failedBefore);
      assert CandidateIn(slot) == Candidate(slot.event, Elems(slot.copies), None);
    }
    if authentic.None? {
      outcome := Refused(if slot.event.author.None? then InvalidRootSignature else InvalidMemberSignature);
    } else {
      outcome := Rules(ep, slot.event, gate.signer, causal);
    }
  }

  /** The states kept for children still to read them. */
  ghost predicate Kept(owned: set<Accumulator>, after: map<Digest, Accumulator>, unread: map<Digest, nat>, states: States)
    reads owned
  {
    && after.Keys == unread.Keys && after.Keys <= states.Keys
    && forall d :: d in after ==> after[d] in owned && after[d].Value() == states[d]
  }

  /** Join the states of an event's parents, dropping each state once its last child has read it. */
  method ReadParents(ep: Epoch, ghost g: Graph, c: Digest, list: seq<Digest>, after0: map<Digest, Accumulator>,
      unread0: map<Digest, nat>, ghost owned: set<Accumulator>, ghost states: States, ghost judged: set<Digest>)
    returns (causal: Accumulator, after: map<Digest, Accumulator>, unread: map<Digest, nat>)
    requires c in g && g[c].event.p == list && Distinct(list) && c !in judged
    requires ParentsIn(ep.anchor.epoch, list, states.Keys)
    requires Kept(owned, after0, unread0, states)
    requires UnreadRight(ParentsOf(g), ep.anchor.epoch, unread0, states.Keys, judged)
    ensures fresh(causal) && causal.Value() == Causal(DagOf(ep, g), states, list)
    ensures Kept(owned, after, unread, states)
    ensures UnreadRight(ParentsOf(g), ep.anchor.epoch, unread, states.Keys, judged + {c})
  {
    hide UnreadMid, UnreadRight, Join;
    ghost var parents, root := ParentsOf(g), ep.anchor.epoch;
    causal := new Accumulator(EMPTY);
    after, unread := after0, unread0;
    UnreadStart(parents, root, unread, states.Keys, judged, c);
    assert list[..0] == [];
    for k := 0 to |list|
      invariant fresh(causal) && causal.Value() == Causal(DagOf(ep, g), states, list[..k])
      invariant Kept(owned, after, unread, states)
      invariant UnreadMid(parents, root, unread, states.Keys, judged, c, list[..k])
    {
      var parent := list[k];
      assert list[..k + 1] == list[..k] + [parent] && list[..k + 1][..k] == list[..k];
      if parent == ep.anchor.epoch {
        RootUnread(parents, root, unread, states.Keys, judged, c, list[..k]);
        causal.JoinInto(AnchorState(ep));
      } else {
        ReadNext(parents, root, unread, states.Keys, judged, c, list[..k], parent);
        causal.JoinInto(after[parent].Value());
        if unread[parent] == 1 {
          unread, after := unread - {parent}, after - {parent};
        } else {
          unread := unread[parent := unread[parent] - 1];
        }
      }
    }
    assert list[..|list|] == list;
    UnreadEnd(parents, root, unread, states.Keys, judged, c);
  }

  lemma {:induction false} UnionStays(ep: Epoch, g: Graph, a: States, b: States, order: seq<Digest>)
    requires Elems(order) <= a.Keys && a.Keys <= g.Keys && Extends(a, b)
    requires forall d :: d in a ==> ParentsIn(ep.anchor.epoch, g[d].event.p, a.Keys)
    ensures Union(ep, g, a, order) == Union(ep, g, b, order)
  {
    hide VerdictOn, Join, AnchorState;
    if order != [] {
      var last := order[|order| - 1];
      assert last in Elems(order);
      assert Elems(order[..|order| - 1]) <= Elems(order);
      UnionStays(ep, g, a, b, order[..|order| - 1]);
      VerdictStays(ep, g, a, b, last);
    }
  }

  /** The union takes in the effect of the event that has just applied. */
  lemma UnionGrows(ep: Epoch, g: Graph, p: Progress, d: Digest)
    requires Right(ep, g, p) && d in g && Next(ep, g, p, d)
    requires VerdictOn(ep, g, p.states, d).outcome.Accepted? && VerdictOn(ep, g, p.states, d).authentic.Some?
    ensures var q := Applied'(ep, g, p, d);
      && Elems(q.applied) <= g.Keys && Elems(p.applied) <= g.Keys
      && Union(ep, g, q.states, q.applied)
        == Join(Union(ep, g, p.states, p.applied), VerdictOn(ep, g, p.states, d).outcome.effect)
  {
    hide VerdictOn, Join, AnchorState, Topological, SmallestFirst, Least, Causal, DagOf, VerdictKept;
    var q := Applied'(ep, g, p, d);
    ElemsAppend(p.applied, d);
    assert Extends(p.states, q.states);
    UnionStays(ep, g, p.states, q.states, p.applied);
    VerdictStays(ep, g, p.states, q.states, d);
    assert q.applied[..|q.applied| - 1] == p.applied;
  }

  function SlotParents(slots: map<Digest, Slot>): map<Digest, seq<Digest>> {
    map d | d in slots :: slots[d].event.p
  }

  lemma SlotParentsAre(slots: map<Digest, Slot>)
    ensures SlotParents(slots) == ParentsOf(GraphIn(slots))
  {
    var a, b := SlotParents(slots), ParentsOf(GraphIn(slots));
    assert a.Keys == slots.Keys == GraphIn(slots).Keys == b.Keys;
    forall d | d in a ensures d in b && a[d] == b[d] {
      assert d in slots;
    }
  }

  /** What the loop holds against what it has computed so far. */
  ghost predicate Standing(ep: Epoch, g: Graph, p: Progress, evaluated: nat, failed: nat, union: EpochState) {
    && Right(ep, g, p)
    && evaluated == |p.judged|
    && failed == Total(p.charges) <= MAX_FAILED_SIGNATURES
    && Elems(p.applied) <= g.Keys
    && union == Union(ep, g, p.states, p.applied)
  }

  lemma StandingStart(ep: Epoch, g: Graph)
    ensures Standing(ep, g, START, 0, 0, AnchorState(ep))
    ensures UnreadRight(ParentsOf(g), ep.anchor.epoch, map[], {}, {})
    ensures START == Progress([], {}, map[], map[], map[], map[])
  {
    StartRight(ep, g);
  }

  lemma StandingRefused(ep: Epoch, g: Graph, p: Progress, evaluated: nat, failed: nat, union: EpochState, d: Digest, v: Verdict,
      failedNow: nat)
    requires Standing(ep, g, p, evaluated, failed, union) && d in g && d !in p.judged && Next(ep, g, p, d)
    requires v == VerdictOn(ep, g, p.states, d) && v.outcome.Refused?
    requires failedNow == failed + v.charge <= MAX_FAILED_SIGNATURES
    ensures var q := Refusing(p, d, v.outcome.reason, v.charge);
      && Standing(ep, g, q, evaluated + 1, failedNow, union)
      && q.applied == p.applied && q.judged == p.judged + {d} && q.states == p.states
      && q.refused == p.refused[d := v.outcome.reason] && q.authentic == p.authentic
  {
    hide Right, VerdictOn, Union, Next;
    RefusingRight(ep, g, p, d);
    RightDomains(ep, g, p);
    TotalInsert(p.charges, d, v.charge);
  }

  lemma StandingApplied(ep: Epoch, g: Graph, p: Progress, evaluated: nat, failed: nat, union: EpochState, d: Digest, v: Verdict,
      failedNow: nat, unionNow: EpochState, q: Progress)
    requires Standing(ep, g, p, evaluated, failed, union) && d in g && d !in p.judged && Next(ep, g, p, d)
    requires v == VerdictOn(ep, g, p.states, d) && v.outcome.Accepted? && v.authentic.Some?
    requires failedNow == failed + v.charge <= MAX_FAILED_SIGNATURES && unionNow == Join(union, v.outcome.effect)
    requires q == Applied'(ep, g, p, d)
    ensures Standing(ep, g, q, evaluated + 1, failedNow, unionNow)
  {
    hide Right, VerdictOn, Union, Next, Join, Causal, DagOf;
    ApplyingRight(ep, g, p, d);
    UnionGrows(ep, g, p, d);
    RightDomains(ep, g, p);
    TotalInsert(p.charges, d, v.charge);
  }

  lemma AppliedFields(ep: Epoch, g: Graph, p: Progress, d: Digest, v: Verdict, q: Progress)
    requires d in g && v == VerdictOn(ep, g, p.states, d) && v.outcome.Accepted? && v.authentic.Some?
    requires q == Applied'(ep, g, p, d)
    ensures
      && q.applied == p.applied + [d] && q.judged == p.judged + {d} && q.states.Keys == p.states.Keys + {d}
      && q.states == p.states[d := Join(Causal(DagOf(ep, g), p.states, g[d].event.p), v.outcome.effect)]
      && q.refused == p.refused && q.authentic == p.authentic[d := EpochCopy(g[d].event, v.authentic.value)]
  {
    hide VerdictOn, Join, Causal, DagOf;
  }

  lemma RightDomains(ep: Epoch, g: Graph, p: Progress)
    requires Right(ep, g, p)
    ensures p.charges.Keys == p.judged && p.judged <= g.Keys && p.states.Keys <= p.judged
    ensures forall d :: d in p.judged ==> ParentsIn(ep.anchor.epoch, g[d].event.p, p.states.Keys)
  {
  }

  lemma VerdictIs(ep: Epoch, g: Graph, p: Progress, d: Digest, causal: EpochState)
    requires d in g && causal == Causal(DagOf(ep, g), p.states, g[d].event.p)
    ensures VerdictOn(ep, g, p.states, d) == Judge(ep, g[d], causal)
    ensures VerdictOn(ep, g, p.states, d).outcome.Accepted? ==> VerdictOn(ep, g, p.states, d).authentic.Some?
  {
    hide Causal, DagOf, Rules, Charge, FailedCopies, Authentic;
  }

  /** Add an applied event's effect to the union, keep the state after it while it has children, and
      tell them. */
  method TakeIn(parents: map<Digest, seq<Digest>>, root: Digest, d: Digest, children: map<Digest, seq<Digest>>,
      waiting0: map<Digest, nat>, ready0: seq<Digest>, after0: map<Digest, Accumulator>, unread0: map<Digest, nat>,
      union: Accumulator, causal: Accumulator, effect: EpochState,
      ghost owned: set<Accumulator>, ghost states: States, ghost judged: set<Digest>)
    returns (waiting: map<Digest, nat>, ready: seq<Digest>, after: map<Digest, Accumulator>, unread: map<Digest, nat>)
    requires d in parents && d in judged && d !in states
    requires forall e :: e in judged && e in parents ==> ParentsIn(root, parents[e], states.Keys)
    requires Books(parents, root, children, waiting0, ready0, unread0, states.Keys, judged)
    requires Kept(owned, after0, unread0, states) && causal !in owned && union !in owned && union != causal
    modifies union, causal
    ensures union.Value() == Join(old(union.Value()), effect)
    ensures Books(parents, root, children, waiting, ready, unread, states.Keys + {d}, judged)
    ensures Kept(owned + {causal}, after, unread, states[d := Join(old(causal.Value()), effect)])
  {
    hide WaitingRight, ReadyRight, UnreadRight, Join, ReadyNow;
    union.JoinInto(effect);
    waiting, ready, after, unread := waiting0, ready0, after0, unread0;
    UnreadApplied(parents, root, unread, states.Keys, judged, d);
    if d in children {
      causal.JoinInto(effect);
      after := after[d := causal];
      DistinctSize(children[d]);
      unread := unread[d := |children[d]|];
      waiting, ready := ReleaseKids(parents, root, d, children[d], waiting, ready, states.Keys, judged);
    } else {
      Childless(parents, root, d, waiting, ready, states.Keys, judged);
    }
  }

  lemma Childless(parents: map<Digest, seq<Digest>>, root: Digest, d: Digest, waiting: map<Digest, nat>, ready: seq<Digest>,
      applied: set<Digest>, judged: set<Digest>)
    requires Kids(parents, root, d) == {} && d !in applied
    requires WaitingRight(parents, root, waiting, applied) && ReadyRight(parents, root, ready, applied, judged)
    ensures WaitingRight(parents, root, waiting, applied + {d}) && ReadyRight(parents, root, ready, applied + {d}, judged)
  {
    forall e | e in parents ensures Outstanding(root, parents[e], applied + {d}) == Outstanding(root, parents[e], applied) {
      assert e !in Kids(parents, root, d);
    }
    forall e | e in parents ensures ParentsIn(root, parents[e], applied + {d}) <==> ParentsIn(root, parents[e], applied) {
      assert e !in Kids(parents, root, d);
    }
  }

  lemma GraphInIs(slots: map<Digest, Slot>)
    ensures GraphIn(slots).Keys == slots.Keys == SlotParents(slots).Keys
    ensures forall d :: d in slots ==>
      GraphIn(slots)[d] == CandidateIn(slots[d]) && GraphIn(slots)[d].event == slots[d].event
      && SlotParents(slots)[d] == slots[d].event.p
  {
  }

  lemma BooksOpen(parents: map<Digest, seq<Digest>>, root: Digest, children: map<Digest, seq<Digest>>,
      waiting: map<Digest, nat>, ready: seq<Digest>)
    requires ChildrenRight(parents, root, children)
    requires WaitingRight(parents, root, waiting, {}) && ReadyRight(parents, root, ready, {}, {})
    ensures Books(parents, root, children, waiting, ready, map[], START.states.Keys, START.judged)
  {
    assert START.states.Keys == {};
  }

  lemma NextMeans(ep: Epoch, g: Graph, p: Progress, d: Digest)
    requires NextReady(ParentsOf(g), ep.anchor.epoch, p.states.Keys, p.judged, d)
    ensures Next(ep, g, p, d)
  {
  }

  lemma StandingMeans(ep: Epoch, g: Graph, p: Progress, evaluated: nat, failed: nat, union: EpochState)
    requires Standing(ep, g, p, evaluated, failed, union)
    ensures Right(ep, g, p) && failed == Total(p.charges) <= MAX_FAILED_SIGNATURES && p.judged <= g.Keys && p.states.Keys <= p.judged
    ensures forall e :: e in p.judged ==> ParentsIn(ep.anchor.epoch, ParentsOf(g)[e], p.states.Keys)
  {
    hide Right, Union;
    RightDomains(ep, g, p);
  }

  datatype Merge =
    | Exceeded
    | Done(applied: seq<Digest>, evaluated: nat, refused: map<Digest, Reason>,
        authentic: map<Digest, EpochCopy>, union: EpochState)

  /** The merge is refused exactly when the whole fold's failed signatures pass the limit, and otherwise
      is the recursive definition's account of the candidates. */
  ghost predicate MergeRight(ep: Epoch, g: Graph, m: Merge) {
    match m
    case Exceeded => Total(Charges(ep, g)) > MAX_FAILED_SIGNATURES
    case Done(applied, evaluated, refused, authentic, union) =>
      && Total(Charges(ep, g)) <= MAX_FAILED_SIGNATURES
      && applied == Applied(ep, g) && Elems(applied) == After(ep, g).Keys
      && evaluated == |Evaluated(ep, g)|
      && refused.Keys == Evaluated(ep, g) - After(ep, g).Keys
      && (forall d :: d in refused ==> d in g && VerdictOn(ep, g, After(ep, g), d).outcome == Refused(refused[d]))
      && authentic == AuthenticCopies(ep, g)
      && union == Union(ep, g, After(ep, g), applied)
  }

  lemma MergeExceeded(ep: Epoch, g: Graph)
    requires Total(Charges(ep, g)) > MAX_FAILED_SIGNATURES
    ensures MergeRight(ep, g, Exceeded)
  {
  }

  lemma StandingEnd(ep: Epoch, g: Graph, p: Progress, children: map<Digest, seq<Digest>>, waiting: map<Digest, nat>,
      unread: map<Digest, nat>, evaluated: nat, failed: nat, union: EpochState)
    requires Standing(ep, g, p, evaluated, failed, union)
    requires Books(ParentsOf(g), ep.anchor.epoch, children, waiting, [], unread, p.states.Keys, p.judged)
    ensures MergeRight(ep, g, Done(p.applied, evaluated, p.refused, p.authentic, union))
  {
    hide VerdictOn, Union, Charges, Applied, Evaluated, After, AuthenticCopies, Topological, SmallestFirst, Least, VerdictKept;
    NoneReady(ParentsOf(g), ep.anchor.epoch, p.states.Keys, p.judged);
    Ended(ep, g, p);
    EndedAccounts(ep, g, p);
  }

  /** The loop's variables: the books, the states kept, and the account so far. */
  datatype Loop = Loop(
    waiting: map<Digest, nat>, ready: seq<Digest>, after: map<Digest, Accumulator>, unread: map<Digest, nat>,
    applied: seq<Digest>, refused: map<Digest, Reason>, authentic: map<Digest, EpochCopy>, evaluated: nat, failed: nat)

  ghost predicate LoopRight(ep: Epoch, g: Graph, children: map<Digest, seq<Digest>>, union: Accumulator,
      owned: set<Accumulator>, p: Progress, l: Loop)
    reads owned, union
  {
    && Standing(ep, g, p, l.evaluated, l.failed, union.Value())
    && l.applied == p.applied && l.refused == p.refused && l.authentic == p.authentic
    && Books(ParentsOf(g), ep.anchor.epoch, children, l.waiting, l.ready, l.unread, p.states.Keys, p.judged)
    && Kept(owned, l.after, l.unread, p.states)
    && union !in owned
  }

  function WithRefused(l: Loop, d: Digest, reason: Reason, after: map<Digest, Accumulator>, unread: map<Digest, nat>): Loop {
    l.(ready := if l.ready == [] then [] else l.ready[1..], after := after, unread := unread,
       evaluated := l.evaluated + 1, refused := l.refused[d := reason])
  }

  function WithApplied(l: Loop, d: Digest, copy: EpochCopy, waiting: map<Digest, nat>, ready: seq<Digest>,
    after: map<Digest, Accumulator>, unread: map<Digest, nat>): Loop
  {
    l.(waiting := waiting, ready := ready, after := after, unread := unread, evaluated := l.evaluated + 1,
       applied := l.applied + [d], authentic := l.authentic[d := copy])
  }

  lemma LoopRefused(ep: Epoch, g: Graph, children: map<Digest, seq<Digest>>, union: Accumulator, owned: set<Accumulator>,
      p: Progress, l: Loop, failedBefore: nat, d: Digest, v: Verdict, after: map<Digest, Accumulator>, unread: map<Digest, nat>)
    requires LoopRight(ep, g, children, union, owned, p, l.(failed := failedBefore)) && l.ready != []
    requires d == l.ready[0] && d in g && d !in p.judged && p.judged <= g.Keys && Next(ep, g, p, d)
    requires v == VerdictOn(ep, g, p.states, d) && v.outcome.Refused?
    requires l.failed == failedBefore + v.charge <= MAX_FAILED_SIGNATURES
    requires Books(ParentsOf(g), ep.anchor.epoch, children, l.waiting, l.ready[1..], unread, p.states.Keys, p.judged + {d})
    requires Kept(owned, after, unread, p.states)
    ensures LoopRight(ep, g, children, union, owned, Refusing(p, d, v.outcome.reason, v.charge),
      WithRefused(l, d, v.outcome.reason, after, unread))
    ensures p.judged < Refusing(p, d, v.outcome.reason, v.charge).judged <= g.Keys
  {
    hide Books, Kept, Right, Next, VerdictOn, Union;
    StandingRefused(ep, g, p, l.evaluated, failedBefore, union.Value(), d, v, l.failed);
  }

  lemma LoopApplied(ep: Epoch, g: Graph, children: map<Digest, seq<Digest>>, union: Accumulator, owned: set<Accumulator>,
      p: Progress, l: Loop, failedBefore: nat, sum: EpochState, d: Digest, v: Verdict,
      waiting: map<Digest, nat>, ready: seq<Digest>, after: map<Digest, Accumulator>, unread: map<Digest, nat>)
    requires Standing(ep, g, p, l.evaluated, failedBefore, sum)
    requires l.applied == p.applied && l.refused == p.refused && l.authentic == p.authentic && union !in owned
    requires d in g && d !in p.judged && p.judged <= g.Keys && Next(ep, g, p, d)
    requires v == VerdictOn(ep, g, p.states, d) && v.outcome.Accepted? && v.authentic.Some?
    requires l.failed == failedBefore + v.charge <= MAX_FAILED_SIGNATURES && union.Value() == Join(sum, v.outcome.effect)
    requires Books(ParentsOf(g), ep.anchor.epoch, children, waiting, ready, unread, p.states.Keys + {d}, p.judged + {d})
    requires Kept(owned, after, unread, p.states[d := Join(Causal(DagOf(ep, g), p.states, g[d].event.p), v.outcome.effect)])
    ensures LoopRight(ep, g, children, union, owned, Applied'(ep, g, p, d),
      WithApplied(l, d, EpochCopy(g[d].event, v.authentic.value), waiting, ready, after, unread))
    ensures p.judged < Applied'(ep, g, p, d).judged <= g.Keys
  {
    hide Books, Kept, Right, Next, VerdictOn, Union, Causal, DagOf, Join;
    var q := Applied'(ep, g, p, d);
    StandingApplied(ep, g, p, l.evaluated, failedBefore, sum, d, v, l.failed, union.Value(), q);
    AppliedFields(ep, g, p, d, v, q);
  }

  /** Read the smallest ready event's parents and judge it on the join of their states. */
  method JudgeNext(ep: Epoch, slots: map<Digest, Slot>, ghost children: map<Digest, seq<Digest>>, ghost union: Accumulator, l: Loop,
      ghost owned: set<Accumulator>, ghost p: Progress, ghost g: Graph)
    returns (causal: Accumulator, after: map<Digest, Accumulator>, unread: map<Digest, nat>,
      outcome: Outcome, copy: Option<seq<Sig>>, failed: nat)
    requires Sound(ep.suite) && (forall d :: d in slots ==> Distinct(slots[d].event.p)) && g == GraphIn(slots)
    requires LoopRight(ep, g, children, union, owned, p, l) && l.ready != []
    ensures fresh(causal)
    ensures l.ready[0] in slots && l.ready[0] in g && g[l.ready[0]].event == slots[l.ready[0]].event
    ensures Next(ep, g, p, l.ready[0]) && l.ready[0] !in p.judged && p.judged <= g.Keys && l.ready[0] !in p.states
    ensures forall e :: e in p.judged + {l.ready[0]} ==>
      e in ParentsOf(g) && ParentsIn(ep.anchor.epoch, ParentsOf(g)[e], p.states.Keys)
    ensures causal.Value() == Causal(DagOf(ep, g), p.states, g[l.ready[0]].event.p)
    ensures Kept(owned, after, unread, p.states)
    ensures Books(ParentsOf(g), ep.anchor.epoch, children, l.waiting, l.ready[1..], unread, p.states.Keys, p.judged + {l.ready[0]})
    ensures failed > MAX_FAILED_SIGNATURES ==> Total(Charges(ep, g)) > MAX_FAILED_SIGNATURES
    ensures failed <= MAX_FAILED_SIGNATURES ==>
      var v := VerdictOn(ep, g, p.states, l.ready[0]);
      failed == l.failed + v.charge && outcome == v.outcome && copy == v.authentic && (v.outcome.Accepted? ==> copy.Some?)
  {
    hide Books, Kept, UnreadRight, Right, Next, NextReady, ParentsIn, VerdictOn, Judge, Causal, DagOf, Union,
      ChildrenRight, WaitingRight, ReadyRight, Sound, Charges, CandidateIn, GraphIn, SlotParents, ParentsOf, Total;
    var digest, root := l.ready[0], ep.anchor.epoch;
    ghost var parents := ParentsOf(g);
    SlotParentsAre(slots);
    GraphInIs(slots);
    StandingMeans(ep, g, p, l.evaluated, l.failed, union.Value());
    NextOfBooks(parents, root, children, l.waiting, l.ready, l.unread, p.states.Keys, p.judged);
    NextMeans(ep, g, p, digest);
    causal, after, unread := ReadParents(ep, g, digest, slots[digest].event.p, l.after, l.unread, owned, p.states, p.judged);
    VerdictIs(ep, g, p, digest, causal.Value());
    outcome, copy, failed := Evaluate(ep, slots[digest], causal.Value(), l.failed);
    BooksJudged(parents, root, children, l.waiting, l.ready, l.unread, unread, p.states.Keys, p.judged);
    if failed > MAX_FAILED_SIGNATURES {
      OverLimit(ep, g, p, digest);
    }
  }

  /** Take the smallest ready event, judge it on its parents' states, and record what comes of it. */
  method Step(ep: Epoch, slots: map<Digest, Slot>, children: map<Digest, seq<Digest>>, union: Accumulator, l0: Loop,
      ghost owned0: set<Accumulator>, ghost p0: Progress, ghost g: Graph)
    returns (l: Loop, ghost kept: set<Accumulator>, ghost p: Progress)
    requires Sound(ep.suite) && (forall d :: d in slots ==> Distinct(slots[d].event.p)) && g == GraphIn(slots)
    requires LoopRight(ep, g, children, union, owned0, p0, l0) && l0.ready != []
    modifies union
    ensures fresh(kept)
    ensures l.failed > MAX_FAILED_SIGNATURES ==> Total(Charges(ep, g)) > MAX_FAILED_SIGNATURES
    ensures l.failed <= MAX_FAILED_SIGNATURES ==>
      LoopRight(ep, g, children, union, owned0 + kept, p, l) && p0.judged < p.judged <= g.Keys
  {
    hide Books, Kept, Right, Next, ParentsIn, VerdictOn, Judge, Causal, DagOf, Join, Applied', Refusing, WithApplied, WithRefused, Sound, Charges, GraphIn, Total, Union,
      ParentsOf, SlotParents;
    ghost var sum := union.Value();
    var digest := l0.ready[0];
    SlotParentsAre(slots);
    StandingMeans(ep, g, p0, l0.evaluated, l0.failed, sum);
    var causal, after, unread, outcome, copy, failed := JudgeNext(ep, slots, children, union, l0, owned0, p0, g);
    l, kept, p := l0.(failed := failed), {}, p0;
    if failed > MAX_FAILED_SIGNATURES {
      return;
    }
    ghost var v := VerdictOn(ep, g, p.states, digest);
    if outcome.Refused? {
      l := WithRefused(l, digest, outcome.reason, after, unread);
      p := Refusing(p, digest, outcome.reason, v.charge);
      LoopRefused(ep, g, children, union, owned0, p0, l0.(failed := failed), l0.failed, digest, v, after, unread);
      assert owned0 + kept == owned0;
    } else {
      var waiting, ready;
      waiting, ready, after, unread := TakeIn(SlotParents(slots), ep.anchor.epoch, digest, children, l.waiting, l.ready[1..],
        after, unread, union, causal, outcome.effect, owned0, p.states, p.judged + {digest});
      l := WithApplied(l, digest, EpochCopy(slots[digest].event, copy.value), waiting, ready, after, unread);
      kept, p := {causal}, Applied'(ep, g, p, digest);
      LoopApplied(ep, g, children, union, owned0 + kept, p0, l0.(failed := failed), l0.failed, sum, digest, v, waiting, ready, after, unread);
    }
  }

  /** Kahn's algorithm, smallest ready digest first. */
  method MergeReady(ep: Epoch, slots: map<Digest, Slot>) returns (m: Merge)
    requires Sound(ep.suite)
    requires forall d :: d in slots ==> Distinct(slots[d].event.p)
    ensures MergeRight(ep, GraphIn(slots), m)
  {
    hide *;
    ghost var g := GraphIn(slots);
    GraphInIs(slots);
    var parents := SlotParents(slots);
    SlotParentsAre(slots);
    var children, waiting, ready := RegisterEdges(parents, ep.anchor.epoch);
    var union := new Accumulator(AnchorState(ep));
    var l := Loop(waiting, ready, map[], map[], [], map[], map[], 0, 0);
    ghost var owned: set<Accumulator>, p := {}, START;
    StartsRight(ep, g, children, union, l);
    while l.ready != []
      invariant LoopRight(ep, g, children, union, owned, p, l)
      invariant fresh(union) && fresh(owned)
      decreases |slots.Keys - p.judged|
    {
      ghost var before := p;
      ghost var kept;
      l, kept, p := Step(ep, slots, children, union, l, owned, p, g);
      owned := owned + kept;
      if l.failed > MAX_FAILED_SIGNATURES {
        MergeExceeded(ep, g);
        return Exceeded;
      }
      Shrinks(slots.Keys, before.judged, p.judged);
    }
    EndsRight(ep, g, children, union, owned, p, l);
    return Done(l.applied, l.evaluated, l.refused, l.authentic, union.Value());
  }

  lemma Shrinks(all: set<Digest>, before: set<Digest>, now: set<Digest>)
    requires before < now <= all
    ensures |all - now| < |all - before|
  {
    SubsetSize(all - now, all - before);
    assert Pick(now - before) in all - before;
  }

  lemma StartsRight(ep: Epoch, g: Graph, children: map<Digest, seq<Digest>>, union: Accumulator, l: Loop)
    requires ChildrenRight(ParentsOf(g), ep.anchor.epoch, children)
    requires WaitingRight(ParentsOf(g), ep.anchor.epoch, l.waiting, {}) && ReadyRight(ParentsOf(g), ep.anchor.epoch, l.ready, {}, {})
    requires union.Value() == AnchorState(ep)
    requires l == Loop(l.waiting, l.ready, map[], map[], [], map[], map[], 0, 0)
    ensures LoopRight(ep, g, children, union, {}, START, l)
  {
    hide Standing, Books, Right, ChildrenRight, WaitingRight, ReadyRight, AnchorState;
    StandingStart(ep, g);
    BooksOpen(ParentsOf(g), ep.anchor.epoch, children, l.waiting, l.ready);
  }

  lemma EndsRight(ep: Epoch, g: Graph, children: map<Digest, seq<Digest>>, union: Accumulator,
      owned: set<Accumulator>, p: Progress, l: Loop)
    requires LoopRight(ep, g, children, union, owned, p, l) && l.ready == []
    ensures MergeRight(ep, g, Done(l.applied, l.evaluated, l.refused, l.authentic, union.Value()))
  {
    hide Standing, Books, MergeRight;
    StandingEnd(ep, g, p, children, l.waiting, l.unread, l.evaluated, l.failed, union.Value());
  }
}
