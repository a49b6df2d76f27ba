/** A merged head whose own snapshot the fold refuses: two adds of one key, neither having seen the other, both stand,
    and a rotate that is placed, signed and carries what `snapshotOf` says of that head is malformed. The same
    rotate carrying one of the two is accepted. Everything is built on one inception under a suite that accepts
    every signature, so that nothing but the snapshot can be at fault. */
module Clashing {
  import opened Basics
  import opened Events
  import opened Members
  import opened Fold
  import opened ChainFacts
  import opened ChainMeans
  import opened EpochSpec
  import opened EpochHead
  import opened EpochMemory
  import opened HeadRules
  import opened Snapshots
  import opened Carrying
  import opened OpenSuite
  import opened OpeningEvents

  const SHARED: Key := 9
  const HOLDER := Foreign(7)

  /** Root admits one key twice, leases apart, each time on the opening. */
  ghost function Admission(lease: nat): EpochEvent {
    EpochEvent(Owner(), 0, OpeningDigest(), [OpeningDigest()], None, Add(HOLDER, SHARED, lease))
  }

  ghost function AdmissionDigest(lease: nat): Digest {
    OfBody(OfEpoch(Admission(lease)))
  }

  ghost function Admitted(lease: nat): MemberEntry {
    MemberEntry(HOLDER, SHARED, AdmissionDigest(lease), lease)
  }

  ghost function BothPresented(): View {
    View(map[], {EpochCopy(Admission(0), [0]), EpochCopy(Admission(1), [0])}, 0)
  }

  lemma AdmissionsApart()
    ensures AdmissionDigest(0) != AdmissionDigest(1)
  {
    hide OfBody;
    if AdmissionDigest(0) == AdmissionDigest(1) {
      BodiesApart(OfEpoch(Admission(0)), OfEpoch(Admission(1)));
    }
  }

  lemma {:induction false} AdmissionPlain(lease: nat)
    requires Folds(Accepting(), Owner(), OpeningChain()) && lease <= 1
    ensures var ep := OpeningEpoch();
      && PlainEvent(ep, Admission(lease)) && Genuine(ep, Admission(lease), [0], ep.anchor.keys)
      && IsEpochShape(ep.suite, EpochCopy(Admission(lease), [0])) && DigestOf(ep, Admission(lease)) == AdmissionDigest(lease)
  {
    hide OfBody, OfList, ChainStates, Folds;
    OpeningFolds();
    assert [FirstState(Accepting(), Owner(), Opening())][0] == OpeningEpoch().anchor;
  }

  lemma {:induction false} BothPlain()
    requires Folds(Accepting(), Owner(), OpeningChain())
    ensures var ep, view := OpeningEpoch(), BothPresented();
      && WellView(ep, view) && AllPlain(ep, view)
      && LocalDigests(ep, view.present) == {AdmissionDigest(0), AdmissionDigest(1)}
  {
    hide OfBody, OfList, ChainStates, Folds, PlainEvent, Genuine, OpeningEpoch, Admission, AdmissionDigest, IsEpochShape;
    AdmissionPlain(0);
    AdmissionPlain(1);
    PlainLocal(OpeningEpoch(), Admission(0));
    PlainLocal(OpeningEpoch(), Admission(1));
    var ep, view := OpeningEpoch(), BothPresented();
    var x, y := EpochCopy(Admission(0), [0]), EpochCopy(Admission(1), [0]);
    assert x in view.present && y in view.present;
  }

  lemma {:induction false} BothApply()
    requires Folds(Accepting(), Owner(), OpeningChain()) && Sound(OpeningEpoch().suite)
    ensures var ep := OpeningEpoch();
      var g := GraphOf(ep, BothPresented());
      && g.Keys == {AdmissionDigest(0), AdmissionDigest(1)} && After(ep, g).Keys == g.Keys
      && g[AdmissionDigest(0)].event == Admission(0) && g[AdmissionDigest(1)].event == Admission(1)
  {
    hide OfBody, OfList, ChainStates, Folds, PlainEvent, Genuine, WellView, AllPlain, LocalDigests, GraphOf, After, PlainCandidate, Admission,
      OpeningEpoch, AdmissionDigest;
    var ep, view := OpeningEpoch(), BothPresented();
    BothPlain();
    PlainCandidates(ep, view);
    PlainApply(ep, GraphOf(ep, view));
    GraphKeyed(ep, view);
    OwnEvent(0, GraphOf(ep, view)[AdmissionDigest(0)].event);
    OwnEvent(1, GraphOf(ep, view)[AdmissionDigest(1)].event);
  }

  lemma OwnEvent(lease: nat, event: EpochEvent)
    requires Folds(Accepting(), Owner(), OpeningChain())
    ensures DigestOf(OpeningEpoch(), event) == AdmissionDigest(lease) ==> event == Admission(lease)
  {
    hide OfBody, OfList, ChainStates, Folds, Admission;
    OpeningFolds();
    if DigestOf(OpeningEpoch(), event) == AdmissionDigest(lease) {
      BodiesApart(OfEpoch(event), OfEpoch(Admission(lease)));
    }
  }

  lemma MergedBoth(ep: Epoch, g: Graph, u: EpochState, d: Digest, e: Digest)
    requires d != e && g.Keys == {d, e} && g[d].event.action == Add(HOLDER, SHARED, 0) && g[e].event.action == Add(HOLDER, SHARED, 1)
    requires ep.anchor.members == map[] && ep.anchor.deny == {}
    requires IsMergeOf(g, g.Keys, AnchorState(ep), u)
    ensures u.deny == {} && MembersOf(ep, u).Keys == {d, e}
    ensures forall a :: a in MembersOf(ep, u) ==> !MembersOf(ep, u)[a].removed
    ensures MembersOf(ep, u)[d].entry == MemberEntry(HOLDER, SHARED, d, 0) && MembersOf(ep, u)[e].entry == MemberEntry(HOLDER, SHARED, e, 1)
  {
    hide IsDenied;
    assert forall a :: a in g ==> g[a].event.action.Add?;
    assert AnchorState(ep) == EMPTY;
    assert forall a :: a !in u.leases && a !in u.removed;
    assert forall x :: x !in u.deny;
    forall a ensures a in u.added <==> a in {d, e} {
      assert a in g.Keys <==> a in {d, e};
    }
    assert u.added.Keys == {d, e};
  }

  /** Both apply, so the merged head is exactly the two of them, live. */
  lemma {:induction false} BothStand(maxEvents: nat)
    requires Folds(Accepting(), Owner(), OpeningChain()) && Sound(OpeningEpoch().suite)
    ensures var ep, view := OpeningEpoch(), BothPresented();
      var r := FoldSpec(ep, view, maxEvents);
      && r.Merged? && r.head.deny == {} && r.head.tombstones == map[]
      && r.head.members.Keys == {AdmissionDigest(0), AdmissionDigest(1)}
      && (forall a :: a in r.head.members ==> !r.head.members[a].removed)
      && r.head.members[AdmissionDigest(0)].entry == Admitted(0) && r.head.members[AdmissionDigest(1)].entry == Admitted(1)
  {
    hide OfBody, OfList, ChainStates, Folds, PlainEvent, Genuine, OpeningEpoch, FoldSpec, WellView, AllPlain, LocalDigests, Sound, GraphOf, After,
      IsMergeOf, MembersOf, AdmissionDigest, AnchorState;
    var ep, view := OpeningEpoch(), BothPresented();
    OpeningFolds();
    AdmissionsApart();
    BothPlain();
    BothApply();
    PlainFolds(ep, view, maxEvents);
    HeadKeeps(ep, view, maxEvents);
    HeadMeans(ep, view, maxEvents);
    var g, head := GraphOf(ep, view), FoldSpec(ep, view, maxEvents).head;
    var u :| IsMergeOf(g, After(ep, g).Keys, AnchorState(ep), u) && head.deny == u.deny && head.members == MembersOf(ep, u);
    MergedBoth(ep, g, u, AdmissionDigest(0), AdmissionDigest(1));
  }

  // ---------------------------------------------------------------- the rotate

  /** The next rotate of the opening chain: it reveals the key committed to. */
  ghost function NextRotate(): ChainEvent {
    Rotate(Owner(), 0, 1, OpeningDigest(), KeySet([3], [5], [6], 1, 1), None, None, None, None)
  }

  lemma {:induction false} RotateStands(s: Snapshot)
    requires Folds(Accepting(), Owner(), OpeningChain())
    ensures var prior := OpeningEpoch().anchor;
      Rotates(Accepting(), Owner(), Signed(Publishing(NextRotate(), s), [0], None), prior)
  {
    hide OfBody, OfList, ChainStates, Folds;
    OpeningFolds();
  }

  /** What `snapshotOf` says of a state whose only incarnations are the two, both live or the second dropped. */
  lemma SnapshotBoth(state: KeyState)
    requires AdmissionDigest(0) != AdmissionDigest(1)
    requires state.deny == {} && state.tombstones == map[] && state.members.Keys == {AdmissionDigest(0), AdmissionDigest(1)}
    requires forall a :: a in state.members ==> !state.members[a].removed
    requires state.members[AdmissionDigest(0)].entry == Admitted(0) && state.members[AdmissionDigest(1)].entry == Admitted(1)
    ensures IsSnapshot(state, {}, {}, Snapshot([Admitted(0), Admitted(1)], [], []))
    ensures IsSnapshot(state, {}, {AdmissionDigest(1)}, Snapshot([Admitted(0)], [], []))
    ensures !PinsApart(state, {}) && PinsApart(state, {AdmissionDigest(1)})
  {
    hide AdmissionDigest;
    var d, e := AdmissionDigest(0), AdmissionDigest(1);
    assert Live(state, d) && Live(state, e);
    forall x ensures x in [Admitted(0), Admitted(1)] <==> LiveEntry(state, x) {
    }
    forall x ensures x in [Admitted(0)] <==> x.add !in {e} && LiveEntry(state, x) {
    }
  }

  /** What is left to check of the rotate: nothing it publishes is pinned, retired or denied. */
  lemma {:induction false} RotateFree(state: KeyState, dropMembers: set<Digest>)
    requires Folds(Accepting(), Owner(), OpeningChain())
    requires state.tombstones == map[] && state.deny == {} && forall a :: a in state.members ==> state.members[a].entry.key == SHARED
    ensures FreshKeys(Accepting(), NextRotate().keys, state, dropMembers)
    ensures var states := ChainStates(Accepting(), Owner(), OpeningChain());
      Tombstones(NextRotate(), OpeningEpoch().anchor, RootsWith(NextRotate(), OpeningEpoch().anchor, states)) !! {}
    ensures !DeniesOwnKey(NextRotate().keys, state.deny - {})
  {
    hide OfBody, OfList, ChainStates, Folds, RootsWith, OpeningEpoch;
  }

  ghost function StepOn(s: Snapshot): Step
    requires Folds(Accepting(), Owner(), OpeningChain())
  {
    StepEvent(Accepting(), Owner(), Opening(), Signed(Publishing(NextRotate(), s), [0], None), ChainStates(Accepting(), Owner(), OpeningChain()))
  }

  /** There is a chain that folds, a merged head of two adds root signed, and a rotate that is placed and signed and
      carries the whole of what `snapshotOf` says of that head, which the fold refuses; carrying one of the two
      alone, it is accepted. */
  lemma {:induction false} CarriedRefused(maxEvents: nat)
    ensures var c, did, chain := Accepting(), Owner(), OpeningChain();
      && Sound(c) && CarriesEd25519(c) && Folds(c, did, chain)
      && var ep, view := OpeningEpoch(), BothPresented();
      var r, all, one := FoldSpec(ep, view, maxEvents), Snapshot([Admitted(0), Admitted(1)], [], []), Snapshot([Admitted(0)], [], []);
      && WellView(ep, view) && r.Merged?
      && IsSnapshot(r.head, {}, {}, all) && !StepOn(all).Stepped?
      && IsSnapshot(r.head, {}, {AdmissionDigest(1)}, one) && StepOn(one).Stepped?
  {
    hide OfBody, OfList, ChainStates, Folds, FoldSpec, WellView, AllPlain, LocalDigests, Sound, GraphOf, IsSnapshot, PinsApart, FreshKeys,
      Tombstones, RootsWith, DeniesOwnKey, StepEvent, Rotates, AdmissionDigest;
    var c, did, chain := Accepting(), Owner(), OpeningChain();
    OpeningFolds();
    AcceptingSound();
    AdmissionsApart();
    BothPlain();
    BothStand(maxEvents);
    var ep, view, states := OpeningEpoch(), BothPresented(), ChainStates(c, did, chain);
    var head := FoldSpec(ep, view, maxEvents).head;
    SnapshotBoth(head);
    var all, one := Snapshot([Admitted(0), Admitted(1)], [], []), Snapshot([Admitted(0)], [], []);
    RotateStands(all);
    RotateStands(one);
    RotateFree(head, {});
    RotateFree(head, {AdmissionDigest(1)});
    CarryAccepted(c, did, chain, view, maxEvents, {}, {}, all, NextRotate(), [0], None);
    CarryAccepted(c, did, chain, view, maxEvents, {}, {AdmissionDigest(1)}, one, NextRotate(), [0], None);
  }
}
