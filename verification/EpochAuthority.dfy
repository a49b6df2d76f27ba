/** Who may do what in an epoch. */
module EpochAuthority {
  // An event applies exactly when its parents do, its signer had the standing to sign in its own causal past,
  // and what it does is within that signer's power there.

  import opened Basics
  import opened Dag
  import opened Events
  import opened Members
  import opened ChainFacts
  import opened EpochSpec
  import opened EpochTheorems
  import opened EpochMemory
  import opened EpochMerge

  /** A member that stands in a causal past: admitted there, not removed, and named by no denial. */
  ghost predicate Stands(ep: Epoch, causal: EpochState, a: Digest) {
    && a in causal.added && a !in causal.removed
    && Unnamed(ep.suite, causal.deny, causal.added[a].did, causal.added[a].key)
  }

  /** No member that may still act holds a key. */
  ghost predicate NotInUse(ep: Epoch, key: Key, causal: EpochState) {
    forall a :: a in causal.added && causal.added[a].key == key ==>
      causal.added[a].add in causal.removed || !Unnamed(ep.suite, causal.deny, causal.added[a].did, key)
  }

  /** Root's own: published in this generation, committed to, or recovery. */
  ghost predicate IsRoots(ep: Epoch, key: Key) {
    key in ep.roots.keys || ep.suite.keyDigest(key) in ep.roots.commitments + {ep.roots.recovery}
  }

  /** The keys an event must be signed with: root's, or the one its author is pinned to. */
  function SigningKeys(ep: Epoch, event: EpochEvent, causal: EpochState): seq<Key> {
    if event.author.None? then ep.anchor.keys
    else if event.author.value in causal.added then [causal.added[event.author.value].key]
    else []
  }

  /** Root may always sign and a member only where it stands; memory's copy was checked when it was kept, and
      of the others one at least must carry the signatures. */
  ghost predicate MaySign(ep: Epoch, cand: Candidate, causal: EpochState) {
    && (cand.event.author.Some? ==> Stands(ep, causal, cand.event.author.value))
    && (cand.trusted.Some? || exists s :: s in cand.copies && SignedBy(ep.suite, OfEpoch(cand.event), s, SigningKeys(ep, cand.event, causal)))
  }

  /** Whether the author of an event is the device an incarnation pins. */
  predicate IsItself(event: EpochEvent, causal: EpochState, add: Digest)
    requires add in causal.added
  {
    event.author.Some? && event.author.value in causal.added && causal.added[event.author.value].key == causal.added[add].key
  }

  /** Only root admits, and only a key that is its DID's, not root's, not denied and not in use; nobody renews or
      removes itself, or an incarnation it has not seen; no member denies a member it can see, and nobody a
      key root publishes. */
  ghost predicate WithinPower(ep: Epoch, event: EpochEvent, causal: EpochState) {
    match event.action
    case Add(did, key, lease) =>
      && event.author.None? && ep.suite.carries(did, key) && !IsRoots(ep, key)
      && Unnamed(ep.suite, causal.deny, did, key) && NotInUse(ep, key, causal)
    case Renew(add, _) => add in causal.added && !IsItself(event, causal, add)
    case Remove(add) => add in causal.added && !IsItself(event, causal, add)
    case Revoke(x) =>
      && (event.author.Some? ==> forall a :: a in causal.added ==> !Names(ep.suite, x, causal.added[a].did, causal.added[a].key))
      && (x.KeyTarget? ==> x.key !in ep.anchor.keys && x.key !in ep.anchor.agreement)
  }

  lemma GenuineIff(ep: Epoch, event: EpochEvent, sigs: seq<Sig>, keys: seq<Key>)
    ensures Genuine(ep, event, sigs, keys) <==> SignedBy(ep.suite, OfEpoch(event), sigs, keys)
  {
  }

  lemma AuthenticIff(ep: Epoch, cand: Candidate, keys: seq<Key>)
    ensures Authentic(ep, cand, keys).Some? <==> cand.trusted.Some? || exists s :: s in cand.copies && SignedBy(ep.suite, OfEpoch(cand.event), s, keys)
  {
    hide Genuine, FirstRanked, SignedBy;
    forall s ensures Genuine(ep, cand.event, s, keys) <==> SignedBy(ep.suite, OfEpoch(cand.event), s, keys) {
      GenuineIff(ep, cand.event, s, keys);
    }
    if s :| s in cand.copies && SignedBy(ep.suite, OfEpoch(cand.event), s, keys) {
      assert s in GenuineCopies(ep, cand, keys);
    }
    if GenuineCopies(ep, cand, keys) != {} {
      var s := Pick(GenuineCopies(ep, cand, keys));
      assert s in cand.copies && SignedBy(ep.suite, OfEpoch(cand.event), s, keys);
    }
  }

  lemma LiveIff(ep: Epoch, key: Key, causal: EpochState)
    ensures KeyIsLive(ep, key, causal) <==> !NotInUse(ep, key, causal)
  {
    hide IsDenied, Unnamed;
    forall member: MemberEntry ensures IsDenied(ep.suite, causal.deny, member) <==> !Unnamed(ep.suite, causal.deny, member.did, member.key) {
      DeniedIff(ep.suite, causal.deny, member);
    }
  }

  lemma RulesIff(ep: Epoch, event: EpochEvent, signer: Option<MemberEntry>, causal: EpochState)
    requires event.author.None? ==> signer.None?
    requires event.author.Some? ==> event.author.value in causal.added && signer == Some(causal.added[event.author.value])
    ensures Rules(ep, event, signer, causal).Accepted? <==> WithinPower(ep, event, causal)
  {
    hide IsDenied, KeyIsLive, NotInUse, Unnamed;
    if event.action.Add? {
      DeniedIff(ep.suite, causal.deny, MemberEntry(event.action.did, event.action.key, DigestOf(ep, event), event.action.lease));
      LiveIff(ep, event.action.key, causal);
    }
  }

  lemma AcceptedIff(ep: Epoch, cand: Candidate, causal: EpochState)
    ensures Judge(ep, cand, causal).outcome.Accepted? <==> MaySign(ep, cand, causal) && WithinPower(ep, cand.event, causal)
  {
    hide Authentic, Charge, FailedCopies, IsDenied, Rules, WithinPower, SignedBy, Unnamed;
    if cand.event.author.Some? && cand.event.author.value in causal.added {
      DeniedIff(ep.suite, causal.deny, causal.added[cand.event.author.value]);
    }
    AuthenticIff(ep, cand, SigningKeys(ep, cand.event, causal));
    var gate := SignerGate(ep, cand.event, causal);
    if gate.Signers? {
      assert gate.keys == SigningKeys(ep, cand.event, causal);
      RulesIff(ep, cand.event, gate.signer, causal);
    }
  }

  // ---------------------------------------------------------------- why an event is refused

  /** Where the checks come to a reason; those not listed are no verdict's. */
  function Place(reason: Reason): nat {
    match reason
    case SignerUnknown => 1
    case SignerRemoved => 2
    case SignerDenied => 3
    case InvalidRootSignature => 4
    case InvalidMemberSignature => 5
    case RevokesMember => 6
    case RevokesRootKey => 7
    case AddNotRoot => 8
    case AddDidMismatch => 9
    case AddKeyIsRoot => 10
    case AddKeyDenied => 11
    case AddKeyAlreadyMember => 12
    case UnknownMember => 13
    case SelfRenew => 14
    case SelfRemove => 15
    case _ => 0
  }

  /** An event breaks the rule a reason names. */
  ghost predicate Breaks(ep: Epoch, cand: Candidate, causal: EpochState, reason: Reason) {
    var event := cand.event;
    var author, action := event.author, event.action;
    match reason
    case SignerUnknown => author.Some? && author.value !in causal.added
    case SignerRemoved => author.Some? && author.value in causal.removed
    case SignerDenied =>
      && author.Some? && author.value in causal.added
      && !Unnamed(ep.suite, causal.deny, causal.added[author.value].did, causal.added[author.value].key)
    case InvalidRootSignature =>
      author.None? && cand.trusted.None? && forall s :: s in cand.copies ==> !SignedBy(ep.suite, OfEpoch(event), s, ep.anchor.keys)
    case InvalidMemberSignature =>
      && author.Some? && cand.trusted.None?
      && (author.value in causal.added ==> forall s :: s in cand.copies ==> !SignedBy(ep.suite, OfEpoch(event), s, [causal.added[author.value].key]))
    case RevokesMember =>
      action.Revoke? && author.Some? && exists a :: a in causal.added && Names(ep.suite, action.x, causal.added[a].did, causal.added[a].key)
    case RevokesRootKey => action.Revoke? && exists key :: key in ep.anchor.keys + ep.anchor.agreement && action.x == KeyTarget(key)
    case AddNotRoot => action.Add? && author.Some?
    case AddDidMismatch => action.Add? && !ep.suite.carries(action.did, action.key)
    case AddKeyIsRoot => action.Add? && IsRoots(ep, action.key)
    case AddKeyDenied => action.Add? && !Unnamed(ep.suite, causal.deny, action.did, action.key)
    case AddKeyAlreadyMember => action.Add? && !NotInUse(ep, action.key, causal)
    case UnknownMember => (action.Renew? || action.Remove?) && action.add !in causal.added
    case SelfRenew => action.Renew? && action.add in causal.added && IsItself(event, causal, action.add)
    case SelfRemove => action.Remove? && action.add in causal.added && IsItself(event, causal, action.add)
    case _ => false
  }

  /** The rule a verdict names is broken, and none that is checked before it is. */
  ghost predicate FirstBroken(ep: Epoch, cand: Candidate, causal: EpochState, reason: Reason) {
    Breaks(ep, cand, causal, reason) && forall other :: Breaks(ep, cand, causal, other) ==> Place(reason) <= Place(other)
  }

  lemma RulesFirst(ep: Epoch, cand: Candidate, signer: Option<MemberEntry>, causal: EpochState, reason: Reason)
    requires var event := cand.event;
      && (event.author.None? ==> signer.None?)
      && (event.author.Some? ==> event.author.value in causal.added && signer == Some(causal.added[event.author.value]))
    ensures Rules(ep, cand.event, signer, causal) == Refused(reason) ==> Breaks(ep, cand, causal, reason) && Place(reason) > 5
    ensures Rules(ep, cand.event, signer, causal) == Refused(reason) ==>
      forall other :: Breaks(ep, cand, causal, other) && Place(other) > 5 ==> Place(reason) <= Place(other)
  {
    hide IsDenied, KeyIsLive, NotInUse, Unnamed, SignedBy;
    if cand.event.action.Add? {
      DeniedIff(ep.suite, causal.deny, MemberEntry(cand.event.action.did, cand.event.action.key, DigestOf(ep, cand.event), cand.event.action.lease));
      LiveIff(ep, cand.event.action.key, causal);
    }
  }

  lemma RulesBroken(ep: Epoch, cand: Candidate, signer: Option<MemberEntry>, causal: EpochState)
    requires var event := cand.event;
      && (event.author.None? ==> signer.None?)
      && (event.author.Some? ==> event.author.value in causal.added && signer == Some(causal.added[event.author.value]))
    ensures Rules(ep, cand.event, signer, causal).Accepted? ==> forall other :: Breaks(ep, cand, causal, other) ==> Place(other) <= 5
  {
    hide IsDenied, KeyIsLive, NotInUse, Unnamed, SignedBy;
    if cand.event.action.Add? {
      DeniedIff(ep.suite, causal.deny, MemberEntry(cand.event.action.did, cand.event.action.key, DigestOf(ep, cand.event), cand.event.action.lease));
      LiveIff(ep, cand.event.action.key, causal);
    }
  }

  /** The checks of the signer and its signature, in their order. */
  lemma SignerFirst(ep: Epoch, cand: Candidate, causal: EpochState)
    ensures var v, gate := Judge(ep, cand, causal), SignerGate(ep, cand.event, causal);
      if gate.Barred? || v.authentic.None?
      then v.outcome.Refused? && FirstBroken(ep, cand, causal, v.outcome.reason)
      else v.outcome == Rules(ep, cand.event, gate.signer, causal) && forall other :: Breaks(ep, cand, causal, other) ==> Place(other) > 5
  {
    hide Charge, FailedCopies, IsDenied, Unnamed, SignedBy, NotInUse, Rules, Authentic;
    if cand.event.author.Some? && cand.event.author.value in causal.added {
      DeniedIff(ep.suite, causal.deny, causal.added[cand.event.author.value]);
    }
    AuthenticIff(ep, cand, SigningKeys(ep, cand.event, causal));
  }

  /** An event is refused for the first rule it breaks, and applies its effect when it breaks none. */
  lemma RefusedFor(ep: Epoch, cand: Candidate, causal: EpochState, reason: Reason)
    ensures Judge(ep, cand, causal).outcome == Refused(reason) <==> FirstBroken(ep, cand, causal, reason)
  {
    hide Judge, Rules, Breaks, SignerGate;
    SignerFirst(ep, cand, causal);
    var v, gate := Judge(ep, cand, causal), SignerGate(ep, cand.event, causal);
    if gate.Signers? && v.authentic.Some? {
      GateSigner(ep, cand.event, causal);
      RulesBroken(ep, cand, gate.signer, causal);
      if v.outcome.Refused? {
        RulesFirst(ep, cand, gate.signer, causal, v.outcome.reason);
      }
    }
    BreaksPlaced(ep, cand, causal);
    if v.outcome.Refused? && FirstBroken(ep, cand, causal, reason) {
      OnePlace(reason, v.outcome.reason);
    }
  }

  lemma GateSigner(ep: Epoch, event: EpochEvent, causal: EpochState)
    requires SignerGate(ep, event, causal).Signers?
    ensures var signer := SignerGate(ep, event, causal).signer;
      && (event.author.None? ==> signer.None?)
      && (event.author.Some? ==> event.author.value in causal.added && signer == Some(causal.added[event.author.value]))
  {
  }

  lemma BreaksPlaced(ep: Epoch, cand: Candidate, causal: EpochState)
    ensures forall reason :: Breaks(ep, cand, causal, reason) ==> Place(reason) > 0
  {
  }

  lemma OnePlace(a: Reason, b: Reason)
    requires Place(a) == Place(b) > 0
    ensures a == b
  {
  }

  /** An event applies if and only if its parents apply and, in the state they established, its signer stood
      and what it does was within its power. */
  lemma {:induction false} AppliesIffAuthorised(ep: Epoch, g: Graph, d: Digest)
    requires d in g
    ensures var after := After(ep, g);
      var causal := Causal(DagOf(ep, g), after, g[d].event.p);
      d in after <==>
        ParentsIn(ep.anchor.epoch, g[d].event.p, after.Keys) && MaySign(ep, g[d], causal) && WithinPower(ep, g[d].event, causal)
  {
    hide Judge, Join, After, MaySign, WithinPower;
    EventApplies(ep, g);
    AcceptedIff(ep, g[d], Causal(DagOf(ep, g), After(ep, g), g[d].event.p));
  }

  /** The digest an epoch opens with is of a chain event, so it is none of its own events. */
  lemma {:induction false} OpeningIsNoEvent(c: Suite, did: Did, chain: seq<ChainEntry>, view: View)
    requires Sound(c) && Folds(c, did, chain) && WellView(EpochOf(c, did, ChainStates(c, did, chain)), view)
    ensures var ep := EpochOf(c, did, ChainStates(c, did, chain)); ep.anchor.epoch !in GraphOf(ep, view)
  {
    hide Folds, ChainStates, WellView, GraphOf;
    var ep := EpochOf(c, did, ChainStates(c, did, chain));
    var n := |ChainStates(c, did, chain)| - 1;
    StatesOwned(c, did, chain, n);
    GraphKeyed(ep, view);
    var event :| OwnEvent(c, event, ep.anchor);
    if ep.anchor.epoch in GraphOf(ep, view) {
      NotBoth(c, event, GraphOf(ep, view)[ep.anchor.epoch].event);
    }
  }

  lemma NotBoth(c: Suite, a: ChainEvent, b: EpochEvent)
    requires Sound(c)
    ensures c.digestOf(OfChain(a)) != c.digestOf(OfEpoch(b))
  {
    assert OfChain(a) != OfEpoch(b);
  }
}
