/** What an applied event was signed with, in signatures and keys. */
module EpochSigned {
  import opened Basics
  import opened Dag
  import opened Events
  import opened EpochSpec
  import opened EpochTheorems
  import opened EpochHead
  import opened EpochMemory
  import opened EpochPast
  import opened EpochAuthority
  import opened Members
  import opened EpochTriage

  /** The state the parents of an event of the graph established. */
  ghost function Past(ep: Epoch, g: Graph, d: Digest): EpochState
    requires d in g
  {
    Causal(DagOf(ep, g), After(ep, g), g[d].event.p)
  }

  /** Root's keys, or the one key an event's author is pinned to in its causal past. */
  ghost predicate AreKeysOf(ep: Epoch, g: Graph, d: Digest, keys: seq<Key>)
    requires d in g
  {
    match g[d].event.author
    case None => keys == ep.anchor.keys
    case Some(add) => add in Past(ep, g, d).added && keys == [Past(ep, g, d).added[add].key]
  }

  /** Of the copies of an event presented with the signatures of `keys`, the one whose list sorts first. */
  ghost predicate FirstSigned(ep: Epoch, present: set<EpochCopy>, event: EpochEvent, keys: seq<Key>, copy: EpochCopy) {
    && copy in present && copy.event == event && SignedBy(ep.suite, OfEpoch(event), copy.sigs, keys)
    && forall x :: x in present && x.event == event && SignedBy(ep.suite, OfEpoch(event), x.sigs, keys) ==>
      ep.suite.sigRank(copy.sigs) <= ep.suite.sigRank(x.sigs)
  }

  lemma CandidateIs(ep: Epoch, view: View, d: Digest)
    requires Sound(ep.suite) && d in GraphOf(ep, view)
    ensures var cand := GraphOf(ep, view)[d];
      if d in view.held then cand == Candidate(view.held[d].event, {view.held[d].sigs}, Some(view.held[d].sigs))
      else cand.trusted.None? && forall s :: s in cand.copies <==> EpochCopy(cand.event, s) in view.present
  {
    hide Local, CrossEpoch;
    if d !in view.held {
      var event := EventOf(ep, view.present, d);
      forall s ensures s in CopiesOf(ep, view.present, d) <==> EpochCopy(event, s) in view.present {
        if s in CopiesOf(ep, view.present, d) {
          var x :| x in view.present && DigestOf(ep, x.event) == d && x.sigs == s;
          SameEvent(ep, x.event, event);
        }
      }
    }
  }

  /** What a verdict says of signatures, whatever the rules make of the event. */
  lemma JudgedSigned(ep: Epoch, cand: Candidate, causal: EpochState, keys: seq<Key>)
    requires SignerGate(ep, cand.event, causal).Signers? && SignerGate(ep, cand.event, causal).keys == keys && cand.trusted.None?
    ensures var v := Judge(ep, cand, causal);
      && (v.authentic.None? <==> forall s :: s in cand.copies ==> !SignedBy(ep.suite, OfEpoch(cand.event), s, keys))
      && (v.authentic.None? <==> v.outcome == Refused(if cand.event.author.None? then InvalidRootSignature else InvalidMemberSignature))
      && (v.authentic.Some? ==> v.authentic.value in cand.copies && SignedBy(ep.suite, OfEpoch(cand.event), v.authentic.value, keys))
      && (v.authentic.Some? ==> forall s :: s in cand.copies && SignedBy(ep.suite, OfEpoch(cand.event), s, keys) ==> ep.suite.sigRank(v.authentic.value) <= ep.suite.sigRank(s))
  {
    hide Genuine, SignedBy, Charge, FailedCopies, IsDenied, IsRootKey, KeyIsLive, TargetsSomeMember;
    forall s ensures Genuine(ep, cand.event, s, keys) <==> SignedBy(ep.suite, OfEpoch(cand.event), s, keys) {
      GenuineIff(ep, cand.event, s, keys);
    }
    var genuine := GenuineCopies(ep, cand, keys);
    assert forall s :: s in genuine <==> s in cand.copies && SignedBy(ep.suite, OfEpoch(cand.event), s, keys);
    if genuine != {} {
      assert Pick(genuine) in genuine;
    }
  }

  /** Every applied event that memory does not hold is kept in a copy that was presented, signed with root's keys or
      with the one its author's incarnation pins in the event's causal past, key by key. */
  lemma {:induction false} AppliedSigned(ep: Epoch, view: View, maxEvents: nat, d: Digest) returns (keys: seq<Key>)
    requires Sound(ep.suite) && FoldSpec(ep, view, maxEvents).Merged? && d in FoldSpec(ep, view, maxEvents).applied && d !in view.held
    ensures var r, g := FoldSpec(ep, view, maxEvents), GraphOf(ep, view);
      && d in g && AreKeysOf(ep, g, d, keys)
      && d in r.authentic && FirstSigned(ep, view.present, g[d].event, keys, r.authentic[d])
  {
    hide Judge, SignedBy, AreKeysOf, FoldSpec, GraphOf, SignerGate;
    var g := GraphOf(ep, view);
    AppliedVerdict(ep, view, maxEvents, d);
    CandidateIs(ep, view, d);
    GateOpen(ep, g, d);
    keys := SignerGate(ep, g[d].event, Past(ep, g, d)).keys;
    JudgedSigned(ep, g[d], Past(ep, g, d), keys);
  }

  lemma AppliedVerdict(ep: Epoch, view: View, maxEvents: nat, d: Digest)
    requires FoldSpec(ep, view, maxEvents).Merged? && d in FoldSpec(ep, view, maxEvents).applied
    ensures var g, r := GraphOf(ep, view), FoldSpec(ep, view, maxEvents);
      && d in g
      && var v := Judge(ep, g[d], Past(ep, g, d));
      && v.outcome.Accepted?
      && (v.authentic.Some? ==> d in r.authentic && r.authentic[d] == EpochCopy(g[d].event, v.authentic.value))
  {
    hide Judge, Join, After, Applied, GraphOf, Charges, Reasons, Union, Evaluated, MembersOf;
    var g := GraphOf(ep, view);
    AppliedOrder(ep, g);
    AfterWithin(ep, g);
    EventApplies(ep, g);
    assert d in Elems(Applied(ep, g));
  }

  lemma GateOpen(ep: Epoch, g: Graph, d: Digest)
    requires d in g && Judge(ep, g[d], Past(ep, g, d)).outcome.Accepted?
    ensures var gate := SignerGate(ep, g[d].event, Past(ep, g, d)); gate.Signers? && AreKeysOf(ep, g, d, gate.keys)
  {
    hide Past, Rules, Authentic, Charge, FailedCopies;
  }

  /** The key an author's incarnation pins is what the anchor lists of it, or what an event before it admitted. */
  lemma {:induction false} PinnedBefore(ep: Epoch, view: View, d: Digest) returns (before: set<Digest>)
    requires WellView(ep, view) && ep.anchor.members.Keys !! GraphOf(ep, view).Keys && d in GraphOf(ep, view)
    requires ParentsIn(ep.anchor.epoch, GraphOf(ep, view)[d].event.p, After(ep, GraphOf(ep, view)).Keys)
    ensures var g := GraphOf(ep, view);
      && before <= After(ep, g).Keys && before <= g.Keys && IsPast(g, ep.anchor.epoch, d, before + {d})
      && forall a :: a in Past(ep, g, d).added ==>
        var pin := Past(ep, g, d).added[a];
        if a in before && g[a].event.action.Add? then pin.key == g[a].event.action.key && pin.did == g[a].event.action.did
        else a in ep.anchor.members && pin == ep.anchor.members[a].entry
  {
    hide After, IsPast, GraphOf, Judge, Join, DenyOf, RemovedOf, LeasesOf;
    var g := GraphOf(ep, view);
    GraphKeyed(ep, view);
    ParentsListed(ep, view);
    before := CausalMerged(ep, g, d);
  }

  lemma ParentsListed(ep: Epoch, view: View)
    requires WellView(ep, view)
    ensures forall d :: d in GraphOf(ep, view) ==> GraphOf(ep, view)[d].event.p != []
  {
    hide Local, ListsOutside;
  }

  // ---------------------------------------------------------------- events refused for their signatures

  /** No copy presented of an event has the signatures of `keys`. */
  ghost predicate NoneSigned(c: Suite, present: set<EpochCopy>, event: EpochEvent, keys: seq<Key>) {
    forall x :: x in present && x.event == event ==> !SignedBy(c, OfEpoch(event), x.sigs, keys)
  }

  /** Why a judged event is refused for its signature: memory does not hold it, its signer may sign, and no copy
      presented has the signatures. */
  ghost predicate Unsigned(ep: Epoch, g: Graph, view: View, d: Digest)
    requires d in g
  {
    && ParentsIn(ep.anchor.epoch, g[d].event.p, After(ep, g).Keys) && d !in view.held
    && match g[d].event.author
       case None => NoneSigned(ep.suite, view.present, g[d].event, ep.anchor.keys)
       case Some(add) =>
         && Stands(ep, Past(ep, g, d), add)
         && NoneSigned(ep.suite, view.present, g[d].event, [Past(ep, g, d).added[add].key])
  }

  lemma GateIff(ep: Epoch, event: EpochEvent, causal: EpochState)
    ensures SignerGate(ep, event, causal) ==
      if event.author.None? then Signers(ep.anchor.keys, None)
      else if Stands(ep, causal, event.author.value)
      then Signers([causal.added[event.author.value].key], Some(causal.added[event.author.value]))
      else SignerGate(ep, event, causal)
    ensures SignerGate(ep, event, causal).Barred? <==> event.author.Some? && !Stands(ep, causal, event.author.value)
  {
    hide IsDenied, Unnamed;
    if event.author.Some? && event.author.value in causal.added {
      DeniedIff(ep.suite, causal.deny, causal.added[event.author.value]);
    }
  }

  lemma RulesNoSignature(ep: Epoch, event: EpochEvent, signer: Option<MemberEntry>, causal: EpochState)
    ensures Rules(ep, event, signer, causal) != Refused(InvalidRootSignature)
    ensures Rules(ep, event, signer, causal) != Refused(InvalidMemberSignature)
  {
    hide IsDenied, IsRootKey, KeyIsLive, TargetsSomeMember;
  }

  /** A verdict refuses an event for its signature exactly when its signer may sign and no copy is signed. */
  lemma UnsignedVerdict(ep: Epoch, view: View, d: Digest)
    requires Sound(ep.suite) && d in GraphOf(ep, view)
    requires ParentsIn(ep.anchor.epoch, GraphOf(ep, view)[d].event.p, After(ep, GraphOf(ep, view)).Keys)
    ensures var g := GraphOf(ep, view);
      && (Unsigned(ep, g, view, d) <==> Judge(ep, g[d], Past(ep, g, d)).outcome in {Refused(InvalidRootSignature), Refused(InvalidMemberSignature)})
      && (Judge(ep, g[d], Past(ep, g, d)).outcome == Refused(InvalidRootSignature) ==> g[d].event.author.None?)
      && (Judge(ep, g[d], Past(ep, g, d)).outcome == Refused(InvalidMemberSignature) ==> g[d].event.author.Some?)
  {
    hide Rules, SignedBy, GenuineCopies, FirstRanked, Charge, FailedCopies, GraphOf, Past, Stands, After;
    var g := GraphOf(ep, view);
    var cand, causal := g[d], Past(ep, g, d);
    CandidateIs(ep, view, d);
    GateIff(ep, cand.event, causal);
    var gate := SignerGate(ep, cand.event, causal);
    if gate.Signers? {
      RulesNoSignature(ep, cand.event, gate.signer, causal);
      if cand.trusted.None? {
        JudgedSigned(ep, cand, causal, gate.keys);
        SignedPresented(ep, view, d, gate.keys);
      } else {
        assert Authentic(ep, cand, gate.keys) == cand.trusted;
      }
    }
  }

  lemma SignedPresented(ep: Epoch, view: View, d: Digest, keys: seq<Key>)
    requires Sound(ep.suite) && d in GraphOf(ep, view) && d !in view.held
    ensures var cand := GraphOf(ep, view)[d];
      (forall s :: s in cand.copies ==> !SignedBy(ep.suite, OfEpoch(cand.event), s, keys)) <==> NoneSigned(ep.suite, view.present, cand.event, keys)
  {
    hide SignedBy, GraphOf;
    CandidateIs(ep, view, d);
    var cand := GraphOf(ep, view)[d];
    forall x | x in view.present && x.event == cand.event ensures x.sigs in cand.copies {
      assert x == EpochCopy(cand.event, x.sigs);
    }
  }

  /** The events a merge refuses for root's signature, or a member's, are exactly those that lack one. */
  lemma {:induction false} RefusedUnsigned(ep: Epoch, view: View, maxEvents: nat, d: Digest)
    requires Sound(ep.suite) && FoldSpec(ep, view, maxEvents).Merged?
    ensures var r, g := FoldSpec(ep, view, maxEvents), GraphOf(ep, view);
      && (d in r.reasons && r.reasons[d] == InvalidRootSignature <==> d in g && g[d].event.author.None? && Unsigned(ep, g, view, d))
      && (d in r.reasons && r.reasons[d] == InvalidMemberSignature <==> d in g && g[d].event.author.Some? && Unsigned(ep, g, view, d))
  {
    hide FoldSpec, GraphOf, Judge, Past, NoneSigned, Stands, After, ParentsIn;
    var g := GraphOf(ep, view);
    ReasonFor(ep, view, maxEvents, d);
    if d in g && ParentsIn(ep.anchor.epoch, g[d].event.p, After(ep, g).Keys) {
      UnsignedVerdict(ep, view, d);
    }
  }

  /** The reasons that are a verdict's, and those that are not. */
  lemma {:induction false} ReasonFor(ep: Epoch, view: View, maxEvents: nat, d: Digest)
    requires FoldSpec(ep, view, maxEvents).Merged?
    ensures var reasons, g := FoldSpec(ep, view, maxEvents).reasons, GraphOf(ep, view);
      if d in g && ParentsIn(ep.anchor.epoch, g[d].event.p, After(ep, g).Keys) && Judge(ep, g[d], Past(ep, g, d)).outcome.Refused?
      then d in reasons && reasons[d] == Judge(ep, g[d], Past(ep, g, d)).outcome.reason
      else d in reasons ==> reasons[d] in {WrongController, WrongGeneration, OutsideEpoch, ParentNotApplied}
  {
    hide Judge, Join, After, Applied, GraphOf, Charges, Union, MembersOf, AuthenticCopies, CrossEpoch, Reasons;
    AreReasons(ep, view);
    ReasonIs(ep, view, d);
  }

  lemma AreReasons(ep: Epoch, view: View)
    ensures forall maxEvents: nat :: FoldSpec(ep, view, maxEvents).Merged? ==> FoldSpec(ep, view, maxEvents).reasons == Reasons(ep, view)
  {
    hide Applied, GraphOf, Charges, Union, MembersOf, AuthenticCopies, CrossEpoch, Reasons, Evaluated, After;
  }

  lemma {:induction false} ReasonIs(ep: Epoch, view: View, d: Digest)
    ensures var reasons, g := Reasons(ep, view), GraphOf(ep, view);
      if d in g && ParentsIn(ep.anchor.epoch, g[d].event.p, After(ep, g).Keys) && Judge(ep, g[d], Past(ep, g, d)).outcome.Refused?
      then d in reasons && reasons[d] == Judge(ep, g[d], Past(ep, g, d)).outcome.reason
      else d in reasons ==> reasons[d] in {WrongController, WrongGeneration, OutsideEpoch, ParentNotApplied}
  {
    hide Judge, Join, After, GraphOf, CrossEpoch, ParentsIn;
    var g := GraphOf(ep, view);
    EventApplies(ep, g);
    AfterWithin(ep, g);
    if d in RefusedOnSight(ep, view.present) {
      SightReason(ep, view, d);
    }
  }

  lemma SightReason(ep: Epoch, view: View, d: Digest)
    requires d in RefusedOnSight(ep, view.present)
    ensures RefusalOnSight(ep, view.present, d) in {WrongController, WrongGeneration}
  {
  }
}
