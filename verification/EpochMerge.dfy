/** `foldEpochDetailed`: triage, the cross-epoch refusals, the merge, and the head that comes of it. The parts are
    put together here and the whole is proved equal to `FoldSpec`: an answer that names no order of arrival,
    no queue and no shared state, only the set of copies presented, what memory holds, and how many entries
    were not epoch events at all. */
module EpochMerge {
  import opened Basics
  import opened Events
  import opened EpochSpec
  import opened MergeLoop
  import opened EpochTriage
  import opened Members

  /** The epoch a chain's last state opens. */
  function EpochOf(c: Suite, did: Did, states: seq<KeyState>): Epoch
    requires states != []
  {
    var anchor := states[|states| - 1];
    Epoch(c, did, anchor, RootsOf(states, anchor.gen, anchor.recovery), set s | s in states :: s.digest)
  }

  /** Read the root keys and the chain's digests off its states. */
  method OpenEpoch(c: Suite, did: Did, states: seq<KeyState>) returns (ep: Epoch)
    requires states != []
    ensures ep == EpochOf(c, did, states)
  {
    var anchor := states[|states| - 1];
    var keys: set<Key>, commitments: set<Digest>, chain: set<Digest> := {}, {}, {};
    for i := 0 to |states|
      invariant keys == RootsOf(states[..i], anchor.gen, anchor.recovery).keys
      invariant commitments == RootsOf(states[..i], anchor.gen, anchor.recovery).commitments
      invariant chain == set s | s in states[..i] :: s.digest
    {
      RootsNext(states, i, anchor.gen, anchor.recovery);
      chain := chain + {states[i].digest};
      if states[i].gen == anchor.gen {
        keys := keys + Elems(states[i].keys + states[i].agreement);
        commitments := commitments + Elems(states[i].next);
      }
    }
    assert states[..|states|] == states;
    ep := Epoch(c, did, anchor, RootKeys(keys, commitments, anchor.recovery), chain);
  }

  /** Take out the candidates that list a parent outside their epoch. Every candidate is classified
      before any is taken out. */
  method RefuseOutside(ep: Epoch, slots: map<Digest, Slot>, others: set<Digest>) returns (outside: set<Digest>)
    ensures outside == set d | d in slots && ListsOutside(ep, slots.Keys, others, slots[d].event.p)
  {
    outside := {};
    var todo := slots.Keys;
    while todo != {}
      invariant todo <= slots.Keys
      invariant outside == set d | d in slots && d !in todo && ListsOutside(ep, slots.Keys, others, slots[d].event.p)
      decreases todo
    {
      var d := Take(todo);
      if ListsOutside(ep, slots.Keys, others, slots[d].event.p) {
        outside := outside + {d};
      }
      todo := todo - {d};
    }
  }

  lemma OutsideIs(ep: Epoch, slots: map<Digest, Slot>, others: set<Digest>, outside: set<Digest>)
    requires outside == set d | d in slots && ListsOutside(ep, slots.Keys, others, slots[d].event.p)
    ensures var cands := GraphIn(slots);
      outside == set d | d in cands && ListsOutside(ep, cands.Keys, others, cands[d].event.p)
  {
    hide ListsOutside;
    var cands := GraphIn(slots);
    assert cands.Keys == slots.Keys;
    forall d ensures d in outside <==> d in cands && ListsOutside(ep, cands.Keys, others, cands[d].event.p) {
      assert d in slots ==> cands[d] == CandidateIn(slots[d]);
    }
  }

  lemma GraphWithout(ep: Epoch, view: View, t: Triaged, outside: set<Digest>)
    requires Sound(ep.suite) && TriagedRight(ep, view.held, view.present, view.junk, t)
    requires outside == set d | d in t.slots && ListsOutside(ep, t.slots.Keys, t.others, t.slots[d].event.p)
    ensures outside == CrossEpoch(ep, view)
    ensures GraphIn(t.slots - outside) == GraphOf(ep, view)
    ensures GraphIn(t.slots) == Candidates(ep, view)
  {
    hide Sorted, Candidates, ListsOutside, OtherEpochs, RefusalsKept, GraphIn;
    SortedIsCandidates(ep, view.held, view.present, view.junk, t.slots);
    OutsideIs(ep, t.slots, t.others, outside);
    GraphMinus(t.slots, outside);
  }

  lemma GraphMinus(slots: map<Digest, Slot>, outside: set<Digest>)
    ensures GraphIn(slots - outside) == GraphIn(slots) - outside
  {
    assert GraphIn(slots - outside).Keys == (GraphIn(slots) - outside).Keys;
  }

  /** Every candidate's parents are distinct: they were checked when it was presented or kept. */
  lemma ParentsDistinct(ep: Epoch, trusted: seq<EpochEntry>, events: seq<EpochEntry>, slots: map<Digest, Slot>)
    requires Sound(ep.suite) && Sorted(ep, Held(ep, trusted), Present(ep, events), slots)
    ensures forall d :: d in slots ==> Distinct(slots[d].event.p)
  {
    HeldShaped(ep, trusted);
    forall d | d in slots ensures Distinct(slots[d].event.p) {
      if d !in Held(ep, trusted) {
        var x :| x in Present(ep, events) && Local(ep, x.event) && DigestOf(ep, x.event) == d;
        SameEvent(ep, x.event, slots[d].event);
      }
    }
  }

  /** The reasons of every candidate left unapplied: the verdict's when it was judged, else that a
      parent is missing. */
  method ReasonsLeft(ep: Epoch, digests: set<Digest>, applied: seq<Digest>, reasons0: map<Digest, Reason>)
    returns (reasons: map<Digest, Reason>)
    ensures reasons == reasons0 + map d | d in digests && d !in applied && d !in reasons0 :: ParentNotApplied
  {
    reasons := reasons0;
    var todo := digests;
    while todo != {}
      invariant todo <= digests
      invariant reasons == reasons0 + map d | d in digests && d !in todo && d !in applied && d !in reasons0 :: ParentNotApplied
      decreases todo
    {
      var d := Take(todo);
      if d !in applied && d !in reasons {
        reasons := reasons[d := ParentNotApplied];
      }
      todo := todo - {d};
    }
  }

  /** The members of a merged state, one incarnation at a time. */
  method BuildMembers(ep: Epoch, union: EpochState) returns (members: map<Digest, MemberState>)
    ensures members == MembersOf(ep, union)
  {
    members := map[];
    var todo := union.added.Keys;
    MinusEnds(MembersOf(ep, union));
    while todo != {}
      invariant todo <= union.added.Keys
      invariant members == MembersOf(ep, union) - todo
      decreases todo
    {
      var add := Take(todo);
      MinusNext(MembersOf(ep, union), todo, add);
      var entry := union.added[add];
      var renewed := if add in union.leases then union.leases[add] else 0;
      var lease := if entry.lease >= renewed then entry.lease else renewed;
      var removed := add in union.removed;
      members := members[add := MemberState(entry.(lease := lease), removed, !removed && !IsDenied(ep.suite, union.deny, entry))];
      todo := todo - {add};
    }
  }

  /** What `foldEpochDetailed` answers is a function of the set of well-formed copies presented, what memory
      holds, and how many entries were junk: the recursive definition's account of them. */
  method FoldEpochDetailed(c: Suite, did: Did, states: seq<KeyState>, events: seq<EpochEntry>, trusted: seq<EpochEntry>,
      maxEvents: nat)
    returns (r: EpochFold)
    requires Sound(c) && states != []
    ensures var ep := EpochOf(c, did, states); r == FoldSpec(ep, ViewOf(ep, trusted, events), maxEvents)
  {
    hide TriagedRight, Sorted, MergeRight, Candidates, CrossEpoch, Reasons, AuthenticCopies, Applied, Evaluated, Charges, Union, After,
      EpochOf, ViewOf, ListsOutside, Total, RefusedOnSight, GraphIn, MembersOf, HeadOf, GraphOf;
    var ep := OpenEpoch(c, did, states);
    EpochSuite(c, did, states);
    var t := Triage(ep, trusted, events);
    ghost var view := ViewOf(ep, trusted, events);
    var outside := RefuseOutside(ep, t.slots, t.others);
    Classified(ep, trusted, events, t, outside);
    var slots := t.slots - outside;
    ghost var g := GraphOf(ep, view);
    var m := MergeReady(ep, slots);
    r := Assemble(ep, view, t, outside, slots, m, maxEvents);
  }

  /** Put the answer together from the merge and what triage kept. */
  method Assemble(ep: Epoch, ghost view: View, t: Triaged, outside: set<Digest>, slots: map<Digest, Slot>, m: Merge, maxEvents: nat)
    returns (r: EpochFold)
    requires TriagedRight(ep, view.held, view.present, view.junk, t)
    requires outside == CrossEpoch(ep, view) && GraphOf(ep, view) == GraphIn(slots)
    requires GraphOf(ep, view).Keys !! RefusedOnSight(ep, view.present)
    requires MergeRight(ep, GraphOf(ep, view), m)
    ensures r == FoldSpec(ep, view, maxEvents)
  {
    hide Sorted, CrossEpoch, Reasons, RefusedOnSight, GraphIn, MembersOf, GraphOf, FoldSpec, RefusalOnSight, OtherEpochs,
      After, Evaluated, Applied, Union, AuthenticCopies, Charges, Total, VerdictOn;
    if m.Exceeded? {
      RefusedRight(ep, view, maxEvents);
      return TooManyFailedSignatures;
    }
    Counts(ep, view, t, m, slots);
    var reasons := t.reasons + (map d | d in outside :: OutsideEpoch) + m.refused;
    var left := ReasonsLeft(ep, slots.Keys, m.applied, reasons);
    ReasonsRight(ep, view, t, outside, m, left);
    var members := BuildMembers(ep, m.union);
    var head := ep.anchor.(deny := m.union.deny, members := members, saturated := |m.applied| > maxEvents);
    r := Merged(head, m.applied, |slots.Keys| - m.evaluated, t.rejected + |outside| + |m.refused|, left, m.authentic);
    Answered(ep, view, m, maxEvents, r);
  }

  /** No candidate was refused on sight: one event cannot be both. */
  lemma CandidatesNotRefused(ep: Epoch, view: View, slots: map<Digest, Slot>)
    requires Sound(ep.suite) && Sorted(ep, view.held, view.present, slots)
    requires forall d :: d in view.held ==> Local(ep, view.held[d].event) && DigestOf(ep, view.held[d].event) == d
    ensures slots.Keys !! RefusedOnSight(ep, view.present)
  {
    forall d | d in slots && d in RefusedOnSight(ep, view.present) ensures false {
      var x :| x in view.present && x.event.e == ep.anchor.epoch && Intrinsic(ep, x.event).Some? && DigestOf(ep, x.event) == d;
      SameEvent(ep, x.event, slots[d].event);
    }
  }

  lemma EvaluatedWithin(ep: Epoch, g: Graph)
    ensures Evaluated(ep, g) <= g.Keys
  {
  }

  /** Why a candidate was left unapplied, as the merge and as the recursive definition give it. */
  lemma LeftUnapplied(ep: Epoch, g: Graph, m: Merge, d: Digest)
    requires m.Done? && MergeRight(ep, g, m) && d in g
    ensures d in m.applied <==> d in After(ep, g)
    ensures d !in After(ep, g) ==>
      (if d in m.refused then m.refused[d] else ParentNotApplied)
      == if d in Evaluated(ep, g) && VerdictOn(ep, g, After(ep, g), d).outcome.Refused?
         then VerdictOn(ep, g, After(ep, g), d).outcome.reason
         else ParentNotApplied
  {
    hide After, Evaluated, VerdictOn, Applied, Union, AuthenticCopies, Charges, Total;
    assert d in Elems(m.applied) <==> d in m.applied;
    EvaluatedWithin(ep, g);
  }

  lemma ReasonsRight(ep: Epoch, view: View, t: Triaged, outside: set<Digest>, m: Merge, left: map<Digest, Reason>)
    requires RefusalsKept(ep, view.present, t.reasons) && outside == CrossEpoch(ep, view)
    requires m.Done? && MergeRight(ep, GraphOf(ep, view), m)
    requires GraphOf(ep, view).Keys !! RefusedOnSight(ep, view.present)
    requires var reasons := t.reasons + (map d | d in outside :: OutsideEpoch) + m.refused;
      left == reasons + map d | d in GraphOf(ep, view) && d !in m.applied && d !in reasons :: ParentNotApplied
    ensures left == Reasons(ep, view)
  {
    hide MergeRight, After, Evaluated, VerdictOn, Candidates, CrossEpoch, RefusedOnSight, Applied, Union, AuthenticCopies, Charges,
      RefusalOnSight, ListsOutside, Total, GraphOf;
    GraphInside(ep, view);
    var g, spec := GraphOf(ep, view), Reasons(ep, view);
    forall d | d in g
      ensures d in m.applied <==> d in After(ep, g)
      ensures d in left <==> d in spec
      ensures d in left ==> left[d] == spec[d]
    {
      LeftUnapplied(ep, g, m, d);
      RefusedLeft(ep, g, m, d);
    }
    RefusedWithin(ep, g, m);
    assert left.Keys == spec.Keys;
    SameMaps(left, spec);
  }

  lemma SameMaps<K, V>(a: map<K, V>, b: map<K, V>)
    requires a.Keys == b.Keys && forall k :: k in a ==> a[k] == b[k]
    ensures a == b
  {
  }

  lemma GraphInside(ep: Epoch, view: View)
    ensures GraphOf(ep, view).Keys !! CrossEpoch(ep, view)
  {
    hide Candidates, CrossEpoch;
  }

  lemma RefusedLeft(ep: Epoch, g: Graph, m: Merge, d: Digest)
    requires m.Done? && MergeRight(ep, g, m)
    ensures d in m.refused ==> d !in After(ep, g)
  {
    hide After, Evaluated, VerdictOn, Applied, Union, AuthenticCopies, Charges, Total;
  }

  lemma RefusedWithin(ep: Epoch, g: Graph, m: Merge)
    requires m.Done? && MergeRight(ep, g, m)
    ensures m.refused.Keys <= g.Keys
  {
    hide After, Evaluated, VerdictOn, Applied, Union, AuthenticCopies, Charges, Total;
    EvaluatedWithin(ep, g);
  }

  lemma Counts(ep: Epoch, view: View, t: Triaged, m: Merge, slots: map<Digest, Slot>)
    requires TriagedRight(ep, view.held, view.present, view.junk, t) && GraphOf(ep, view) == GraphIn(slots)
    requires m.Done? && MergeRight(ep, GraphOf(ep, view), m)
    ensures var g := GraphOf(ep, view);
      && t.rejected == view.junk + |RefusedOnSight(ep, view.present)|
      && |m.refused| == |Evaluated(ep, g) - After(ep, g).Keys|
      && slots.Keys == g.Keys && m.evaluated <= |slots.Keys|
      && |slots.Keys| - m.evaluated == |g.Keys - Evaluated(ep, g)|
  {
    hide After, Evaluated, VerdictOn, GraphOf, RefusedOnSight, Sorted, OtherEpochs, Applied, Union, AuthenticCopies, Charges;
    var g := GraphOf(ep, view);
    assert t.reasons.Keys == RefusedOnSight(ep, view.present);
    assert m.refused.Keys == Evaluated(ep, g) - After(ep, g).Keys;
    EvaluatedWithin(ep, g);
    SubsetSize(Evaluated(ep, g), g.Keys);
    assert slots.Keys == GraphIn(slots).Keys;
  }

  lemma Answered(ep: Epoch, view: View, m: Merge, maxEvents: nat, r: EpochFold)
    requires m.Done? && MergeRight(ep, GraphOf(ep, view), m)
    requires var g := GraphOf(ep, view);
      r == Merged(
        ep.anchor.(deny := m.union.deny, members := MembersOf(ep, m.union), saturated := |m.applied| > maxEvents),
        m.applied, |g.Keys - Evaluated(ep, g)|,
        view.junk + |RefusedOnSight(ep, view.present)| + |CrossEpoch(ep, view)| + |Evaluated(ep, g) - After(ep, g).Keys|,
        Reasons(ep, view), m.authentic)
    ensures r == FoldSpec(ep, view, maxEvents)
  {
    hide After, Evaluated, VerdictOn, GraphOf, CrossEpoch, RefusedOnSight, Applied, Union, AuthenticCopies, Charges, Reasons, MembersOf;
  }

  lemma EpochSuite(c: Suite, did: Did, states: seq<KeyState>)
    requires states != []
    ensures EpochOf(c, did, states).suite == c
  {
  }

  lemma RefusedRight(ep: Epoch, view: View, maxEvents: nat)
    requires MergeRight(ep, GraphOf(ep, view), Exceeded)
    ensures FoldSpec(ep, view, maxEvents) == TooManyFailedSignatures
  {
  }

  lemma Classified(ep: Epoch, trusted: seq<EpochEntry>, events: seq<EpochEntry>, t: Triaged, outside: set<Digest>)
    requires Sound(ep.suite)
    requires var view := ViewOf(ep, trusted, events); TriagedRight(ep, view.held, view.present, view.junk, t)
    requires outside == set d | d in t.slots && ListsOutside(ep, t.slots.Keys, t.others, t.slots[d].event.p)
    ensures var view := ViewOf(ep, trusted, events);
      && outside == CrossEpoch(ep, view)
      && GraphIn(t.slots - outside) == GraphOf(ep, view)
    ensures forall d :: d in t.slots - outside ==> Distinct((t.slots - outside)[d].event.p)
    ensures var view := ViewOf(ep, trusted, events);
      && RefusalsKept(ep, view.present, t.reasons) && GraphOf(ep, view).Keys !! RefusedOnSight(ep, view.present)
  {
    hide Sorted, Candidates, ListsOutside, OtherEpochs, RefusalsKept, GraphIn;
    var view := ViewOf(ep, trusted, events);
    GraphWithout(ep, view, t, outside);
    ParentsDistinct(ep, trusted, events, t.slots);
    HeldShaped(ep, trusted);
    CandidatesNotRefused(ep, view, t.slots);
    GraphWithin(t.slots, outside);
  }

  lemma GraphWithin(slots: map<Digest, Slot>, outside: set<Digest>)
    ensures GraphIn(slots - outside).Keys <= slots.Keys
  {
  }
}
