/** `appliedCopies`: the part of an epoch that memory keeps, and its refold. */
module EpochKept {
  import opened Basics
  import opened Dag
  import opened Events
  import opened EpochSpec
  import opened EpochTriage
  import opened EpochTheorems
  import opened EpochMemory
  import opened EpochRefold

  /** The digests kept: all that applied, or the first `maxEvents + 1` when the epoch is saturated. */
  function KeptOrder(r: EpochFold, maxEvents: nat): seq<Digest>
    requires r.Merged?
  {
    if r.head.saturated && maxEvents + 1 <= |r.applied| then r.applied[..maxEvents + 1] else r.applied
  }

  function CopiesIn(authentic: map<Digest, EpochCopy>, order: seq<Digest>): seq<EpochCopy> {
    if order == [] then []
    else
      var rest := CopiesIn(authentic, order[..|order| - 1]);
      var last := order[|order| - 1];
      if last in authentic then rest + [authentic[last]] else rest
  }

  /** The authentic copy of each event kept, in the order they applied. */
  method AppliedCopies(r: EpochFold, maxEvents: nat) returns (kept: seq<EpochCopy>)
    requires r.Merged?
    ensures kept == CopiesIn(r.authentic, KeptOrder(r, maxEvents))
  {
    var keep := if r.head.saturated && maxEvents + 1 <= |r.applied| then r.applied[..maxEvents + 1] else r.applied;
    kept := [];
    for i := 0 to |keep|
      invariant kept == CopiesIn(r.authentic, keep[..i])
    {
      assert keep[..i + 1][..i] == keep[..i];
      if keep[i] in r.authentic {
        kept := kept + [r.authentic[keep[i]]];
      }
    }
    assert keep[..|keep|] == keep;
  }

  function Entries(copies: seq<EpochCopy>): seq<EpochEntry> {
    seq(|copies|, i requires 0 <= i < |copies| => Typed(copies[i]))
  }

  // ---------------------------------------------------------------- what triage makes of them

  /** Each copy of `kept` is of this epoch and under its own digest. */
  ghost predicate WellKept(ep: Epoch, kept: map<Digest, EpochCopy>) {
    forall d :: d in kept ==> IsEpochShape(ep.suite, kept[d]) && Local(ep, kept[d].event) && DigestOf(ep, kept[d].event) == d
  }

  function Restrict<V>(m: map<Digest, V>, keys: set<Digest>): map<Digest, V> {
    map d | d in m && d in keys :: m[d]
  }

  lemma {:induction false} CopiesHold(ep: Epoch, authentic: map<Digest, EpochCopy>, order: seq<Digest>)
    requires WellKept(ep, authentic) && Elems(order) <= authentic.Keys && Distinct(order)
    ensures Held(ep, Entries(CopiesIn(authentic, order))) == Restrict(authentic, Elems(order))
    ensures Elems(CopiesIn(authentic, order)) == set d | d in order && d in authentic :: authentic[d]
    ensures |CopiesIn(authentic, order)| == |order|
  {
    hide IsEpochShape, Local;
    if order != [] {
      var n := |order| - 1;
      var last := order[n];
      assert order == order[..n] + [last];
      ElemsAppend(order[..n], last);
      assert last in Elems(order) && last !in Elems(order[..n]);
      CopiesHold(ep, authentic, order[..n]);
      var copies, before := CopiesIn(authentic, order), CopiesIn(authentic, order[..n]);
      assert copies == before + [authentic[last]];
      ElemsAppend(before, authentic[last]);
      assert Entries(copies)[..|copies| - 1] == Entries(before);
    }
  }

  lemma {:induction false} CopiesPresent(ep: Epoch, copies: seq<EpochCopy>)
    requires forall x :: x in copies ==> IsEpochShape(ep.suite, x)
    ensures Present(ep, Entries(copies)) == Elems(copies) && JunkCount(ep, Entries(copies)) == 0
  {
    hide IsEpochShape;
    forall x ensures x in Present(ep, Entries(copies)) <==> x in copies {
      if x in copies {
        var i :| 0 <= i < |copies| && copies[i] == x;
        assert Entries(copies)[i] == Typed(x);
      }
    }
    if copies != [] {
      var n := |copies| - 1;
      CopiesPresent(ep, copies[..n]);
      assert Entries(copies)[..n] == Entries(copies[..n]);
    }
  }

  ghost function PresentedAs(kept: map<Digest, EpochCopy>): View {
    View(map[], set d | d in kept :: kept[d], 0)
  }

  ghost predicate KeptCandidates(kept: map<Digest, EpochCopy>, g: Graph) {
    && g.Keys == kept.Keys
    && (forall d :: d in kept ==> (g[d].event == kept[d].event && g[d].copies == {kept[d].sigs}))
  }

  /** Copies of one event each are one candidate each, as memory ... */
  lemma HeldCandidates(ep: Epoch, kept: map<Digest, EpochCopy>)
    ensures var view := View(kept, {}, 0);
      && KeptCandidates(kept, Candidates(ep, view))
      && (forall d :: d in kept ==> Candidates(ep, view)[d].trusted == Some(kept[d].sigs))
      && OtherEpochs(ep, view.present) == {} && RefusedOnSight(ep, view.present) == {}
  {
  }

  /** ... and presented without one. */
  lemma PresentedCandidates(ep: Epoch, kept: map<Digest, EpochCopy>)
    requires WellKept(ep, kept)
    ensures var view := PresentedAs(kept);
      && KeptCandidates(kept, Candidates(ep, view))
      && (forall d :: d in kept ==> Candidates(ep, view)[d].trusted == None)
      && OtherEpochs(ep, view.present) == {} && RefusedOnSight(ep, view.present) == {}
  {
    hide IsEpochShape, Intrinsic;
    var view := PresentedAs(kept);
    forall d ensures d in LocalDigests(ep, view.present) <==> d in kept {
      if d in kept {
        assert kept[d] in view.present;
      }
    }
    forall d | d in kept ensures CopiesOf(ep, view.present, d) == {kept[d].sigs} && EventOf(ep, view.present, d) == kept[d].event {
      assert kept[d] in view.present;
    }
  }

  // ---------------------------------------------------------------- the refold

  /** A candidate that presents the copy already found authentic, as memory's or as the only one. */
  ghost predicate Represents(ep: Epoch, g: Graph, d: Digest, cand: Candidate)
    requires d in g
  {
    var sigs := VerdictOn(ep, g, After(ep, g), d).authentic;
    && sigs.Some? && cand.event == g[d].event && cand.copies == {sigs.value}
    && (cand.trusted == sigs || (cand.trusted.None? && g[d].trusted.None?))
  }

  lemma JudgedAlike(ep: Epoch, a: Candidate, b: Candidate, causal: EpochState)
    requires Judge(ep, a, causal).authentic.Some? && a.event == b.event && b.copies == {Judge(ep, a, causal).authentic.value}
    requires b.trusted == Judge(ep, a, causal).authentic || (b.trusted.None? && a.trusted.None?)
    ensures Judge(ep, b, causal) == Judge(ep, a, causal).(charge := 0)
  {
    hide Rules, Charge;
    NoCharge();
    var gate := SignerGate(ep, a.event, causal);
    if b.trusted.Some? {
      assert FailedCopies(ep, b, gate.keys) == {};
    } else {
      var sigs := Judge(ep, a, causal).authentic.value;
      assert GenuineCopies(ep, b, gate.keys) == {sigs};
      assert FailedCopies(ep, b, gate.keys) == {};
    }
  }

  lemma RefoldOfKept(ep: Epoch, g: Graph, n: nat, small: Graph)
    requires n <= |Applied(ep, g)| && small.Keys == Elems(Applied(ep, g)[..n])
    requires small.Keys <= g.Keys && forall d :: d in small ==> Represents(ep, g, d, small[d])
    ensures RefoldOf(ep, g, n, small)
  {
    hide Judge, Join, After, Applied;
    forall d | d in small
      ensures Judge(ep, small[d], CausalIn(ep, g, d)) == Judge(ep, g[d], CausalIn(ep, g, d)).(charge := 0)
    {
      JudgedAlike(ep, g[d], small[d], CausalIn(ep, g, d));
    }
  }

  lemma AuthenticAmong(ep: Epoch, cand: Candidate, causal: EpochState)
    requires Judge(ep, cand, causal).authentic.Some?
    ensures var sigs := Judge(ep, cand, causal).authentic;
      if cand.trusted.Some? then sigs == cand.trusted else sigs.value in cand.copies
  {
    hide Rules, Charge;
  }

  /** Only shaped copies of this epoch are ever found authentic. */
  lemma AuthenticWell(ep: Epoch, view: View)
    requires Sound(ep.suite) && WellView(ep, view)
    ensures WellKept(ep, AuthenticCopies(ep, GraphOf(ep, view)))
  {
    hide Judge, Join, After, ListsOutside, Local;
    var g := GraphOf(ep, view);
    AuthenticAll(ep, g);
    GraphKeyed(ep, view);
    forall d | d in AuthenticCopies(ep, g) ensures IsEpochShape(ep.suite, AuthenticCopies(ep, g)[d]) {
      AuthenticAmong(ep, g[d], Causal(DagOf(ep, g), After(ep, g), g[d].event.p));
      if d !in view.held {
        var sigs := AuthenticCopies(ep, g)[d].sigs;
        var x :| x in view.present && DigestOf(ep, x.event) == d && x.sigs == sigs;
        SameEvent(ep, x.event, g[d].event);
      }
    }
  }

  /** How copies kept may come back: as memory, or presented when no memory vouched for them. */
  ghost predicate ComesBack(view: View, kept: map<Digest, EpochCopy>, again: View) {
    again == View(kept, {}, 0) || (view.held == map[] && again == PresentedAs(kept))
  }

  lemma InsideItself(ep: Epoch, view: View)
    requires forall d :: d in Candidates(ep, view) ==> ParentsIn(ep.anchor.epoch, Candidates(ep, view)[d].event.p, Candidates(ep, view).Keys)
    ensures CrossEpoch(ep, view) == {} && GraphOf(ep, view) == Candidates(ep, view)
  {
    hide Candidates, OtherEpochs;
    var cands := Candidates(ep, view);
    MinusEnds(cands);
    forall d ensures d !in CrossEpoch(ep, view) {
      if d in cands {
        assert ParentsIn(ep.anchor.epoch, cands[d].event.p, cands.Keys);
      }
    }
  }

  lemma CandidateKinds(ep: Epoch, view: View, kept: map<Digest, EpochCopy>, again: View)
    requires WellKept(ep, kept) && ComesBack(view, kept, again)
    ensures KeptCandidates(kept, Candidates(ep, again)) && RefusedOnSight(ep, again.present) == {} && again.junk == 0
    ensures forall d :: d in kept ==> (
      || Candidates(ep, again)[d].trusted == Some(kept[d].sigs)
      || (Candidates(ep, again)[d].trusted.None? && forall e :: e in GraphOf(ep, view) ==> GraphOf(ep, view)[e].trusted.None?))
  {
    HeldCandidates(ep, kept);
    PresentedCandidates(ep, kept);
    hide WellKept, RefusedOnSight, KeptCandidates, CrossEpoch, CopiesOf, EventOf;
  }

  lemma AuthenticOf(ep: Epoch, g: Graph, d: Digest)
    requires d in AuthenticCopies(ep, g)
    ensures d in g && AuthenticCopies(ep, g)[d].event == g[d].event
    ensures VerdictOn(ep, g, After(ep, g), d).authentic == Some(AuthenticCopies(ep, g)[d].sigs)
  {
    hide VerdictOn, After;
  }

  lemma {:induction false} KeptRepresented(ep: Epoch, view: View, n: nat, again: View)
    requires Sound(ep.suite) && WellView(ep, view) && n <= |Applied(ep, GraphOf(ep, view))|
    requires ComesBack(view, Restrict(AuthenticCopies(ep, GraphOf(ep, view)), Elems(Applied(ep, GraphOf(ep, view))[..n])), again)
    ensures RefoldOf(ep, GraphOf(ep, view), n, Candidates(ep, again)) && GraphOf(ep, again) == Candidates(ep, again)
    ensures CrossEpoch(ep, again) == {} && RefusedOnSight(ep, again.present) == {} && again.junk == 0
  {
    hide Judge, Join, After, Applied, GraphOf, WellView, Local, IsEpochShape, WellKept, Candidates, VerdictOn, Sound, AuthenticCopies,
      ComesBack, Restrict, CrossEpoch, RefoldOf, RefusedOnSight;
    var g, small := GraphOf(ep, view), Candidates(ep, again);
    var prefix := Applied(ep, g)[..n];
    var kept := Restrict(AuthenticCopies(ep, g), Elems(prefix));
    AuthenticAll(ep, g);
    AfterWithin(ep, g);
    AppliedOrder(ep, g);
    PrefixMembers(Applied(ep, g), n);
    RestrictIs(AuthenticCopies(ep, g), Elems(prefix));
    AuthenticWell(ep, view);
    RestrictWell(ep, AuthenticCopies(ep, g), Elems(prefix));
    CandidateKinds(ep, view, kept, again);
    forall d | d in small ensures Represents(ep, g, d, small[d]) {
      AuthenticOf(ep, g, d);
    }
    RefoldOfKept(ep, g, n, small);
    RefoldShape(ep, g, n, small);
    InsideItself(ep, again);
  }

  lemma RestrictIs<V>(m: map<Digest, V>, keys: set<Digest>)
    requires keys <= m.Keys
    ensures Restrict(m, keys).Keys == keys && forall d :: d in keys ==> Restrict(m, keys)[d] == m[d]
  {
  }

  lemma RestrictWell(ep: Epoch, m: map<Digest, EpochCopy>, keys: set<Digest>)
    requires WellKept(ep, m)
    ensures WellKept(ep, Restrict(m, keys))
  {
    hide IsEpochShape, Local;
  }

  /** `appliedCopies` is refold-stable: what it keeps of an epoch folds, as memory or presented afresh, to
      exactly those events in the same order with none pending or refused, as saturated as before, and to
      the same head unless saturated. */
  lemma {:induction false} RefoldsToItself(ep: Epoch, view: View, maxEvents: nat, again: View)
    requires Sound(ep.suite) && WellView(ep, view)
    requires var r := FoldSpec(ep, view, maxEvents);
      r.Merged? && ComesBack(view, Restrict(r.authentic, Elems(KeptOrder(r, maxEvents))), again)
    ensures var r, r' := FoldSpec(ep, view, maxEvents), FoldSpec(ep, again, maxEvents);
      && r'.Merged? && r'.applied == KeptOrder(r, maxEvents) && r'.pending == 0 && r'.rejected == 0
      && r'.authentic == Restrict(r.authentic, Elems(KeptOrder(r, maxEvents)))
      && r'.head.saturated == r.head.saturated
      && (!r.head.saturated ==> r'.head == r.head)
  {
    hide Judge, Join, After, Applied, GraphOf, WellView, Candidates, VerdictOn, Sound, AuthenticCopies, Union,
      ComesBack, Restrict, CrossEpoch, RefoldOf, RefusedOnSight, Charges, Evaluated, MembersOf, Reasons;
    var r := FoldSpec(ep, view, maxEvents);
    var g := GraphOf(ep, view);
    var n := |KeptOrder(r, maxEvents)|;
    assert Applied(ep, g)[..n] == KeptOrder(r, maxEvents);
    KeptRepresented(ep, view, n, again);
    var small := GraphOf(ep, again);
    RefoldShape(ep, g, n, small);
    RefoldStates(ep, g, n, small);
    RefoldAccount(ep, g, n, small);
    RefoldAuthentic(ep, g, small);
    assert Restrict(AuthenticCopies(ep, g), small.Keys) == AuthenticCopies(ep, small);
    if !r.head.saturated {
      assert Applied(ep, g)[..n] == Applied(ep, g);
      UnionSame(ep, g, n, small, Applied(ep, g));
    }
  }

  lemma RefoldAuthentic(ep: Epoch, g: Graph, small: Graph)
    requires AuthenticCopies(ep, small).Keys == small.Keys && small.Keys <= AuthenticCopies(ep, g).Keys
    requires forall d :: d in small ==> AuthenticCopies(ep, small)[d] == AuthenticCopies(ep, g)[d]
    ensures AuthenticCopies(ep, small) == Restrict(AuthenticCopies(ep, g), small.Keys)
  {
    SameAsRestricted(AuthenticCopies(ep, small), AuthenticCopies(ep, g), small.Keys);
  }

  lemma SameAsRestricted<V>(a: map<Digest, V>, b: map<Digest, V>, keys: set<Digest>)
    requires a.Keys == keys && keys <= b.Keys && forall d :: d in keys ==> a[d] == b[d]
    ensures a == Restrict(b, keys)
  {
    assert Restrict(b, keys).Keys == keys;
    forall d | d in a ensures d in Restrict(b, keys) && a[d] == Restrict(b, keys)[d] {
      assert d in keys;
    }
  }
}
