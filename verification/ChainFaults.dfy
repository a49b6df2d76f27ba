/** Why a chain does not fold. */
module ChainFaults {
  import opened Basics
  import opened Events
  import opened Members
  import opened Fold
  import opened ChainFacts
  import opened ChainMeans
  import opened SkipLimit

  /** Where the checks of one entry come to a fault; those not listed are not about one entry after others. */
  function Place(fault: Fault): nat {
    match fault
    case MalformedEvent => 1
    case OtherController => 2
    case ResetHasTombstones => 3
    case ResetMustRestart => 4
    case InvalidReset => 5
    case NotChained => 6
    case UnknownNoFlag => 7
    case UnknownCritical => 8
    case SequenceGap => 9
    case InvalidRotate => 10
    case RotateNeedsSnapshot => 11
    case BadSnapshot(Malformed) => 12
    case BadSnapshot(MemberKeyIsRoot) => 13
    case BadSnapshot(MemberDidMismatch) => 14
    case BadSnapshot(DropsRetiredKey) => 15
    case EstablishesDenied => 16
    case _ => 0
  }

  /** Whom an event that is no inception is about. */
  ghost predicate About(event: ChainEvent, did: Did) {
    !event.Inception? && event.i == did
  }

  /** What a reset must prove, its place and its snapshot aside. */
  ghost predicate ResetSigned(c: Suite, inception: ChainEvent, entry: ChainEntry)
    requires inception.Inception? && entry.Signed? && entry.event.Rotate?
  {
    var event := entry.event;
    && event.p == c.digestOf(OfChain(inception)) && PublishesSoundly(c, event.keys)
    && entry.recoveryKey.Some? && c.keyDigest(entry.recoveryKey.value) == inception.r
    && SignedBy(c, OfChain(event), entry.sigs, [entry.recoveryKey.value])
    && event.seal.None? && event.d.Some? && (event.m.None? ==> event.d.value == []) && !(event.m == Some([]) && event.d == Some([]))
  }

  /** What a rotate must prove, its place and its snapshot aside. */
  ghost predicate RotateSigned(c: Suite, entry: ChainEntry, prior: KeyState)
    requires entry.Signed? && entry.event.Rotate?
  {
    var event := entry.event;
    && PublishesSoundly(c, event.keys) && SignedBy(c, OfChain(event), entry.sigs, event.keys.k)
    && |event.keys.k| == |prior.next| && forall j :: 0 <= j < |prior.next| ==> c.keyDigest(event.keys.k[j]) == prior.next[j]
  }

  ghost predicate InSnapshot(event: ChainEvent, entry: MemberEntry)
    requires event.Rotate?
  {
    entry in Listed(event, event.m) || entry in Listed(event, event.u)
  }

  /** What is wrong with the snapshot a rotate publishes. */
  ghost predicate Spoils(c: Suite, event: ChainEvent, prior: KeyState, chain: seq<KeyState>, fault: SnapshotFault)
    requires event.Rotate?
  {
    match fault
    case Malformed =>
      var entries := Listed(event, event.m) + Listed(event, event.u);
      || (exists i :: 0 <= i < |entries| && !(0 <= entries[i].lease <= MAX_SAFE_INTEGER && c.isEd25519(entries[i].key)))
      || (exists i, j :: 0 <= i < j < |entries| && entries[i].add == entries[j].add)
      || (exists i, j :: 0 <= i < j < |Listed(event, event.m)| && Listed(event, event.m)[i].key == Listed(event, event.m)[j].key)
    case MemberKeyIsRoot =>
      exists entry :: InSnapshot(event, entry)
        && (RootPublished(event, prior, chain, entry.key) || RootCommitted(event, prior, chain, c.keyDigest(entry.key)))
    case MemberDidMismatch => exists entry :: InSnapshot(event, entry) && !c.carries(entry.did, entry.key)
    case DropsRetiredKey =>
      exists key :: KeyTarget(key) in prior.deny && event.g <= prior.gen && RootPublished(event, prior, chain, key)
        && KeyTarget(key) !in Listed(event, event.d)
  }

  /** An entry breaks the rule a fault names. */
  ghost predicate Breaks(c: Suite, did: Did, inception: ChainEvent, entry: ChainEntry, chain: seq<KeyState>, fault: Fault)
    requires chain != [] && inception.Inception?
  {
    var prior := chain[|chain| - 1];
    if entry.BadEntry? then fault == MalformedEvent
    else if !About(entry.event, did) then fault == OtherController
    else
      var event := entry.event;
      var resets := event.Rotate? && event.g > prior.gen;
      match fault
      case ResetHasTombstones => resets && 1 <= event.g <= MAX_SAFE_INTEGER && event.u.Some?
      case ResetMustRestart => resets && 1 <= event.g <= MAX_SAFE_INTEGER && event.s != 0
      case InvalidReset => resets && !(1 <= event.g <= MAX_SAFE_INTEGER && ResetSigned(c, inception, entry))
      case NotChained => !resets && event.p != prior.digest
      case UnknownNoFlag => event.Unknown? && event.crit.None?
      case UnknownCritical => event.Unknown? && event.crit.Some? && event.crit.value
      case SequenceGap => !resets && (event.g != prior.gen || event.s != prior.sequence + 1)
      case InvalidRotate => event.Rotate? && !resets && !RotateSigned(c, entry, prior)
      case RotateNeedsSnapshot => event.Rotate? && !resets && (event.m.None? || event.d.None?)
      case BadSnapshot(spoilt) => event.Rotate? && Spoils(c, event, prior, chain, spoilt)
      case EstablishesDenied =>
        event.Rotate? && exists key :: (key in event.keys.k || key in event.keys.ka) && KeyTarget(key) in Listed(event, event.d)
      case _ => false
  }

  /** The rule a fault names is broken, and none that is checked before it is. */
  ghost predicate FirstBroken(c: Suite, did: Did, inception: ChainEvent, entry: ChainEntry, chain: seq<KeyState>, fault: Fault)
    requires chain != [] && inception.Inception?
  {
    && Breaks(c, did, inception, entry, chain, fault)
    && forall other :: Breaks(c, did, inception, entry, chain, other) ==> Place(fault) <= Place(other)
  }

  lemma ResetFaultFirst(c: Suite, inception: ChainEvent, entry: ChainEntry)
    requires inception.Inception? && entry.Signed? && entry.event.Rotate?
    ensures var event := entry.event;
      ResetFault(c, inception, event, entry.sigs, entry.recoveryKey) ==
        if !(1 <= event.g <= MAX_SAFE_INTEGER) then Some(InvalidReset)
        else if event.u.Some? then Some(ResetHasTombstones)
        else if event.s != 0 then Some(ResetMustRestart)
        else if !ResetSigned(c, inception, entry) then Some(InvalidReset)
        else None
  {
    hide EnforcedThresholds, VerifyAgreementKeys, PublishesSoundly;
    AgreementIff(c, entry.event.keys);
  }

  lemma RotateFaultFirst(c: Suite, entry: ChainEntry, prior: KeyState)
    requires entry.Signed? && entry.event.Rotate?
    ensures var event := entry.event;
      RotateFault(c, event, entry.sigs, prior) ==
        if event.p != prior.digest then Some(NotChained)
        else if event.g != prior.gen || event.s != prior.sequence + 1 then Some(SequenceGap)
        else if !RotateSigned(c, entry, prior) then Some(InvalidRotate)
        else if event.m.None? || event.d.None? then Some(RotateNeedsSnapshot)
        else None
  {
    hide EnforcedThresholds, VerifyAgreementKeys, PublishesSoundly;
    AgreementIff(c, entry.event.keys);
  }

  lemma MalformedIff(c: Suite, s: Snapshot)
    ensures var entries := s.members + s.removed;
      (!Shaped(c, s) <==> (
        || (exists i :: 0 <= i < |entries| && !(0 <= entries[i].lease <= MAX_SAFE_INTEGER && c.isEd25519(entries[i].key)))
        || (exists i, j :: 0 <= i < j < |entries| && entries[i].add == entries[j].add)
        || (exists i, j :: 0 <= i < j < |s.members| && s.members[i].key == s.members[j].key)))
  {
    var entries := s.members + s.removed;
    if forall i :: 0 <= i < |entries| ==> 0 <= entries[i].lease <= MAX_SAFE_INTEGER && c.isEd25519(entries[i].key) {
      forall entry | entry in entries ensures IsMemberEntry(c, entry) {
        var i :| 0 <= i < |entries| && entries[i] == entry;
      }
    }
    if i :| 0 <= i < |entries| && !(0 <= entries[i].lease <= MAX_SAFE_INTEGER && c.isEd25519(entries[i].key)) {
      var entry := entries[i];
      assert entry in entries && !IsMemberEntry(c, entry);
    }
  }

  /** The fault of a snapshot is the first thing wrong with it. */
  lemma SpoiltFirst(c: Suite, event: ChainEvent, prior: KeyState, chain: seq<KeyState>)
    requires event.Rotate?
    ensures var roots := RootsWith(event, prior, chain);
      SnapshotFaultOf(c, SnapshotIn(event), roots, Tombstones(event, prior, roots)) ==
        if Spoils(c, event, prior, chain, Malformed) then Some(Malformed)
        else if Spoils(c, event, prior, chain, MemberKeyIsRoot) then Some(MemberKeyIsRoot)
        else if Spoils(c, event, prior, chain, MemberDidMismatch) then Some(MemberDidMismatch)
        else if Spoils(c, event, prior, chain, DropsRetiredKey) then Some(DropsRetiredKey)
        else None
  {
    hide RootsWith, RootPublished, RootCommitted, IsRootKey, Shaped, Tombstones;
    var s, roots := SnapshotIn(event), RootsWith(event, prior, chain);
    assert s == Snapshot(Listed(event, event.m), Listed(event, event.u), Listed(event, event.d));
    MalformedIff(c, s);
    forall key ensures key in roots.keys <==> RootPublished(event, prior, chain, key)
      ensures IsRootKey(c, key, roots) <==> RootPublished(event, prior, chain, key) || RootCommitted(event, prior, chain, c.keyDigest(key))
    {
      RootKeyIff(c, event, prior, chain, key);
    }
    RetiredIff(event, prior, chain);
    forall entry ensures entry in s.members + s.removed <==> InSnapshot(event, entry) {
    }
  }

  lemma {:induction false} StepFirst(c: Suite, did: Did, inception: ChainEvent, entry: ChainEntry, chain: seq<KeyState>)
    requires chain != [] && inception.Inception?
    ensures var step := StepEvent(c, did, inception, entry, chain);
      if step.Failed? then FirstBroken(c, did, inception, entry, chain, step.fault)
      else forall fault :: !Breaks(c, did, inception, entry, chain, fault)
  {
    hide ResetFault, RotateFault, SnapshotFaultOf, Spoils, RootsWith, Tombstones, ResetSigned, RotateSigned, DeniesOwnKey, StateFrom, SnapshotIn;
    if entry.Signed? && entry.event.Rotate? && entry.event.i == did {
      RotateFirst(c, did, inception, entry, chain);
    } else if entry.Signed? && entry.event.Unknown? {
      match entry.event.crit {
        case None =>
        case Some(critical) =>
          if critical {
            assert entry.event.crit == Some(true);
          } else {
            assert entry.event.crit == Some(false);
          }
      }
    }
  }

  lemma LeastSpoilt(c: Suite, event: ChainEvent, prior: KeyState, chain: seq<KeyState>, spoilt: SnapshotFault)
    requires event.Rotate?
    ensures var roots := RootsWith(event, prior, chain);
      var fault := SnapshotFaultOf(c, SnapshotIn(event), roots, Tombstones(event, prior, roots));
      && (fault.Some? ==> Spoils(c, event, prior, chain, fault.value))
      && (Spoils(c, event, prior, chain, spoilt) ==> fault.Some? && Place(BadSnapshot(fault.value)) <= Place(BadSnapshot(spoilt)))
  {
    hide SnapshotFaultOf, Spoils, RootsWith, Tombstones, SnapshotIn;
    SpoiltFirst(c, event, prior, chain);
    match spoilt {
      case Malformed =>
      case MemberKeyIsRoot =>
      case MemberDidMismatch =>
      case DropsRetiredKey =>
    }
  }

  lemma {:induction false} RotateFirst(c: Suite, did: Did, inception: ChainEvent, entry: ChainEntry, chain: seq<KeyState>)
    requires chain != [] && inception.Inception? && entry.Signed? && entry.event.Rotate? && entry.event.i == did
    ensures var step := StepRotate(c, did, inception, entry, chain);
      if step.Failed? then FirstBroken(c, did, inception, entry, chain, step.fault)
      else forall fault :: !Breaks(c, did, inception, entry, chain, fault)
  {
    hide ResetFault, RotateFault, SnapshotFaultOf, Spoils, RootsWith, Tombstones, ResetSigned, RotateSigned, DeniesOwnKey, StateFrom, SnapshotIn;
    var prior := chain[|chain| - 1];
    forall spoilt: SnapshotFault
      ensures var roots := RootsWith(entry.event, prior, chain);
        var fault := SnapshotFaultOf(c, SnapshotIn(entry.event), roots, Tombstones(entry.event, prior, roots));
        && (fault.Some? ==> Spoils(c, entry.event, prior, chain, fault.value))
        && (Spoils(c, entry.event, prior, chain, spoilt) ==> fault.Some? && Place(BadSnapshot(fault.value)) <= Place(BadSnapshot(spoilt)))
    {
      LeastSpoilt(c, entry.event, prior, chain, spoilt);
    }
    OwnDenied(entry.event);
    if entry.event.g > prior.gen {
      ResetFaultFirst(c, inception, entry);
    } else {
      RotateFaultFirst(c, entry, prior);
    }
  }

  lemma OwnDenied(event: ChainEvent)
    requires event.Rotate?
    ensures DeniesOwnKey(event.keys, Elems(SnapshotIn(event).deny))
      <==> exists key :: (key in event.keys.k || key in event.keys.ka) && KeyTarget(key) in Listed(event, event.d)
  {
    OwnKeysIff(event.keys, SnapshotIn(event).deny);
  }

  /** An entry is refused for the first rule it breaks, and follows when it breaks none. */
  lemma StepFaultIff(c: Suite, did: Did, inception: ChainEvent, entry: ChainEntry, chain: seq<KeyState>, fault: Fault)
    requires chain != [] && inception.Inception?
    ensures StepEvent(c, did, inception, entry, chain) == Failed(fault) <==> FirstBroken(c, did, inception, entry, chain, fault)
  {
    hide Breaks, StepEvent;
    var step := StepEvent(c, did, inception, entry, chain);
    StepFirst(c, did, inception, entry, chain);
    if step.Failed? && FirstBroken(c, did, inception, entry, chain, fault) {
      BreaksPlaced(c, did, inception, entry, chain, fault);
      OnePlace(fault, step.fault);
    }
  }

  lemma BreaksPlaced(c: Suite, did: Did, inception: ChainEvent, entry: ChainEntry, chain: seq<KeyState>, fault: Fault)
    requires chain != [] && inception.Inception? && Breaks(c, did, inception, entry, chain, fault)
    ensures Place(fault) > 0
  {
    hide Spoils, ResetSigned, RotateSigned;
  }

  lemma OnePlace(a: Fault, b: Fault)
    requires Place(a) == Place(b) > 0
    ensures a == b
  {
  }

  // ---------------------------------------------------------------- whole chains

  /** What a chain is refused for, and at which entry: having none; a first that opens nothing; one that breaks a rule
      after those before it folded; or one passed over too many. */
  ghost predicate RefusedAt(c: Suite, did: Did, chain: seq<ChainEntry>, fault: Fault, index: nat) {
    if chain == [] then fault == EmptyLog && index == 0
    else if index == 0 then
      !Opens(c, did, chain[0])
      && fault == if chain[0].BadEntry? then MalformedEvent else if chain[0].event.Inception? then InvalidInception else FirstNotInception
    else
      && index < |chain| && Folds(c, did, chain[..index])
      && var before := ChainStates(c, did, chain[..index]);
      || FirstBroken(c, did, chain[0].event, chain[index], before, fault)
      || (fault == TooManyUnknown && PassedOver(did, chain[index], before[index - 1]) && !WithinSlack(chain[..index + 1]))
  }

  lemma RefusedBefore(c: Suite, did: Did, chain: seq<ChainEntry>, fault: Fault, index: nat)
    requires |chain| > 1 && index < |chain| - 1
    ensures RefusedAt(c, did, chain, fault, index) <==> RefusedAt(c, did, chain[..|chain| - 1], fault, index)
  {
    hide Opens, Folds, ChainStates, FirstBroken, PassedOver, WithinSlack;
    var before := chain[..|chain| - 1];
    assert before[..index] == chain[..index] && before[..index + 1] == chain[..index + 1];
  }

  lemma {:induction false} RefusedLast(c: Suite, did: Did, chain: seq<ChainEntry>, fault: Fault)
    requires |chain| > 1 && Folds(c, did, chain[..|chain| - 1])
    ensures ChainFoldOf(c, did, chain) == Unfoldable(fault, |chain| - 1) <==> RefusedAt(c, did, chain, fault, |chain| - 1)
  {
    hide StepEvent, InitFold, FirstBroken, PassedOver, Opens;
    var n := |chain| - 1;
    var before := ChainStates(c, did, chain[..n]);
    var step := StepEvent(c, did, chain[0].event, chain[n], before);
    assert chain[..n + 1] == chain;
    NextEntry(c, did, chain, n, before, ChainFoldOf(c, did, chain[..n]).skipped);
    SkipsCounted(c, did, chain[..n]);
    StepFaultIff(c, did, chain[0].event, chain[n], before, fault);
    PassedStep(c, did, chain[0].event, chain[n], before);
    if step.Failed? {
      StepNotMany(c, did, chain[0].event, chain[n], before);
    } else {
      StepMeans(c, did, chain[0].event, chain[n], before);
    }
  }

  lemma PassedStep(c: Suite, did: Did, inception: ChainEvent, entry: ChainEntry, chain: seq<KeyState>)
    requires chain != [] && inception.Inception?
    ensures var step := StepEvent(c, did, inception, entry, chain);
      PassedOver(did, entry, chain[|chain| - 1]) <==> step.Stepped? && step.skipped
  {
    hide StepEvent;
    if entry.Signed? && entry.event.Rotate? {
      if StepEvent(c, did, inception, entry, chain).Stepped? {
        StepMeans(c, did, inception, entry, chain);
      }
    } else {
      PassedIff(c, did, inception, entry, chain);
    }
  }

  lemma StepNotMany(c: Suite, did: Did, inception: ChainEvent, entry: ChainEntry, chain: seq<KeyState>)
    requires chain != [] && inception.Inception? && StepEvent(c, did, inception, entry, chain).Failed?
    ensures StepEvent(c, did, inception, entry, chain).fault != TooManyUnknown
  {
    hide StepEvent, FirstBroken;
    var fault := StepEvent(c, did, inception, entry, chain).fault;
    StepFaultIff(c, did, inception, entry, chain, fault);
    assert FirstBroken(c, did, inception, entry, chain, fault);
    NotBroken(c, did, inception, entry, chain, fault);
  }

  lemma NotBroken(c: Suite, did: Did, inception: ChainEvent, entry: ChainEntry, chain: seq<KeyState>, fault: Fault)
    requires chain != [] && inception.Inception? && FirstBroken(c, did, inception, entry, chain, fault)
    ensures fault != TooManyUnknown
  {
    hide Breaks;
    BreaksPlaced(c, did, inception, entry, chain, fault);
  }

  /** A chain that does not fold is refused for that, at the first entry that gives cause. */
  lemma {:induction false} UnfoldableIff(c: Suite, did: Did, chain: seq<ChainEntry>, fault: Fault, index: nat)
    ensures ChainFoldOf(c, did, chain) == Unfoldable(fault, index) <==> RefusedAt(c, did, chain, fault, index)
    decreases |chain|
  {
    hide StepEvent, InitFold, FirstBroken, PassedOver, Opens;
    if |chain| == 1 {
      FirstRefused(c, did, chain[0], fault, index);
      assert index > 0 ==> !RefusedAt(c, did, chain, fault, index);
    } else if |chain| > 1 {
      var n := |chain| - 1;
      UnfoldableIff(c, did, chain[..n], fault, index);
      if index < n {
        RefusedBefore(c, did, chain, fault, index);
      } else if Folds(c, did, chain[..n]) && index == n {
        RefusedLast(c, did, chain, fault);
      }
    }
  }

  lemma FirstRefused(c: Suite, did: Did, entry: ChainEntry, fault: Fault, index: nat)
    ensures InitFold(c, did, entry) == Unfoldable(fault, index) <==>
      index == 0 && !Opens(c, did, entry)
      && fault == if entry.BadEntry? then MalformedEvent else if entry.event.Inception? then InvalidInception else FirstNotInception
  {
    hide Opens;
    InceptionIff(c, did, entry);
  }
}
