/** What a chain that folds is made of, entry by entry: the signatures each carries, the keys it reveals, the place it
    takes and the state it leaves, all in the entries' own fields. */
module ChainMeans {
  import opened Basics
  import opened Events
  import opened Members
  import opened Fold
  import opened ChainFacts
  import opened SkipLimit

  // ---------------------------------------------------------------- signatures and keys

  /** What every event that establishes keys publishes: thresholds that ask for every key, and agreement keys. */
  ghost predicate PublishesSoundly(c: Suite, keys: KeySet) {
    && keys.kt == |keys.k| && keys.nt == |keys.n|
    && 0 < |keys.ka| && forall j :: 0 <= j < |keys.ka| ==> c.isX25519(keys.ka[j])
  }

  /** An inception: signed by its own keys, under the DID its digest names. */
  ghost predicate Opens(c: Suite, did: Did, entry: ChainEntry) {
    && entry.Signed? && entry.event.Inception?
    && did == Kokuin(c.digestOf(OfChain(entry.event)))
    && PublishesSoundly(c, entry.event.keys) && SignedBy(c, OfChain(entry.event), entry.sigs, entry.event.keys.k)
  }

  /** An event nobody understands, which says it may be skipped, in the next place. */
  ghost predicate PassedOver(did: Did, entry: ChainEntry, prior: KeyState) {
    && entry.Signed? && entry.event.Unknown?
    && entry.event.i == did && entry.event.crit == Some(false) && entry.event.p == prior.digest
    && entry.event.g == prior.gen && entry.event.s == prior.sequence + 1
  }

  /** A rotate in the next place: it reveals, one by one, the keys its prior committed to, and each signs it. */
  ghost predicate Rotates(c: Suite, did: Did, entry: ChainEntry, prior: KeyState) {
    && entry.Signed? && entry.event.Rotate?
    && var event := entry.event;
    && event.i == did && event.p == prior.digest && event.g == prior.gen && event.s == prior.sequence + 1
    && PublishesSoundly(c, event.keys)
    && |event.keys.k| == |prior.next| && (forall j :: 0 <= j < |prior.next| ==> c.keyDigest(event.keys.k[j]) == prior.next[j])
    && SignedBy(c, OfChain(event), entry.sigs, event.keys.k)
    && event.m.Some? && event.d.Some?
  }

  /** A reset: right after the inception in a later generation, under one signature by the recovery key the inception
      committed to. Its snapshot has no tombstones and no seal, and is not empty unless it is left out. */
  ghost predicate Resets(c: Suite, did: Did, inception: ChainEvent, entry: ChainEntry, prior: KeyState)
    requires inception.Inception?
  {
    && entry.Signed? && entry.event.Rotate?
    && var event := entry.event;
    && event.i == did && event.p == c.digestOf(OfChain(inception)) && event.s == 0
    && prior.gen < event.g && 1 <= event.g <= MAX_SAFE_INTEGER
    && PublishesSoundly(c, event.keys)
    && entry.recoveryKey.Some? && c.keyDigest(entry.recoveryKey.value) == inception.r
    && SignedBy(c, OfChain(event), entry.sigs, [entry.recoveryKey.value])
    && event.seal.None? && event.u.None? && event.d.Some?
    && (event.m.None? ==> event.d.value == []) && !(event.m == Some([]) && event.d == Some([]))
  }

  // ---------------------------------------------------------------- what a rotate publishes

  /** A key root has published: with this event, or, when it is no reset, earlier in its generation. */
  ghost predicate RootPublished(event: ChainEvent, prior: KeyState, chain: seq<KeyState>, key: Key)
    requires event.Rotate?
  {
    || key in event.keys.k || key in event.keys.ka
    || (event.g <= prior.gen && exists s :: s in chain && s.gen == prior.gen && (key in s.keys || key in s.agreement))
  }

  /** A digest root has committed to: with this event, or earlier in its generation, or as its recovery key. */
  ghost predicate RootCommitted(event: ChainEvent, prior: KeyState, chain: seq<KeyState>, commitment: Digest)
    requires event.Rotate?
  {
    || commitment in event.keys.n || commitment == prior.recovery
    || (event.g <= prior.gen && exists s :: s in chain && s.gen == prior.gen && commitment in s.next)
  }

  /** One entry of a snapshot: a well-formed member whose key is its DID's and none of root's. */
  ghost predicate Listable(c: Suite, event: ChainEvent, prior: KeyState, chain: seq<KeyState>, entry: MemberEntry)
    requires event.Rotate?
  {
    && 0 <= entry.lease <= MAX_SAFE_INTEGER && c.isEd25519(entry.key) && c.carries(entry.did, entry.key)
    && !RootPublished(event, prior, chain, entry.key) && !RootCommitted(event, prior, chain, c.keyDigest(entry.key))
  }

  /** The lists of a snapshot, empty where they are left out; without members there is no snapshot. */
  ghost function Listed<T>(event: ChainEvent, list: Option<seq<T>>): seq<T>
    requires event.Rotate?
  {
    if event.m.Some? && list.Some? then list.value else []
  }

  /** What a rotate may publish: members and tombstones of distinct admissions, live members of distinct keys, denials
      that keep every key of root's that was denied and deny none that it publishes now. */
  ghost predicate Publishable(c: Suite, event: ChainEvent, prior: KeyState, chain: seq<KeyState>)
    requires event.Rotate?
  {
    var members, removed, deny := Listed(event, event.m), Listed(event, event.u), Listed(event, event.d);
    && (forall i :: 0 <= i < |members| ==> Listable(c, event, prior, chain, members[i]))
    && (forall i :: 0 <= i < |removed| ==> Listable(c, event, prior, chain, removed[i]))
    && (forall i, j :: 0 <= i < j < |members| ==> members[i].add != members[j].add)
    && (forall i, j :: 0 <= i < j < |members| ==> members[i].key != members[j].key)
    && (forall i, j :: 0 <= i < j < |removed| ==> removed[i].add != removed[j].add)
    && (forall i, j :: 0 <= i < |members| && 0 <= j < |removed| ==> members[i].add != removed[j].add)
    && (forall key :: KeyTarget(key) in prior.deny && event.g <= prior.gen && RootPublished(event, prior, chain, key) ==> KeyTarget(key) in deny)
    && (forall key :: key in event.keys.k || key in event.keys.ka ==> KeyTarget(key) !in deny)
  }

  // ---------------------------------------------------------------- the state it leaves

  /** A state's members are those listed, each standing unless it is denied. */
  ghost predicate MembersAre(c: Suite, members: seq<MemberEntry>, state: KeyState) {
    && (forall a :: a in state.members ==> exists i :: 0 <= i < |members| && members[i].add == a)
    && (forall i :: 0 <= i < |members| ==>
      var entry := members[i];
      entry.add in state.members
      && state.members[entry.add] == MemberState(entry, false, state.members[entry.add].effective)
      && (state.members[entry.add].effective <==> Unnamed(c, state.deny, entry.did, entry.key)))
  }

  ghost predicate TombstonesAre(removed: seq<MemberEntry>, state: KeyState) {
    && (forall a :: a in state.tombstones ==> exists i :: 0 <= i < |removed| && removed[i].add == a)
    && (forall i :: 0 <= i < |removed| ==> removed[i].add in state.tombstones && state.tombstones[removed[i].add] == removed[i])
  }

  /** The state a rotate or a reset leaves: what it says, under its own digest. */
  ghost predicate LeavesState(c: Suite, did: Did, event: ChainEvent, prior: KeyState, state: KeyState)
    requires event.Rotate?
  {
    && state.did == did && state.gen == event.g && state.keyGen == event.g && state.sequence == event.s
    && state.keySeq == (if event.g > prior.gen then 0 else prior.keySeq + 1)
    && state.keys == event.keys.k && state.agreement == event.keys.ka && state.next == event.keys.n
    && state.recovery == prior.recovery && !state.saturated
    && state.digest == c.digestOf(OfChain(event)) && state.epoch == state.digest
    && (forall t :: t in state.deny <==> t in Listed(event, event.d))
    && MembersAre(c, Listed(event, event.m), state) && TombstonesAre(Listed(event, event.u), state)
  }

  ghost predicate FirstLeaves(c: Suite, did: Did, event: ChainEvent, state: KeyState)
    requires event.Inception?
  {
    && state.did == did && state.gen == event.g && state.keyGen == event.g && state.sequence == event.s && state.keySeq == 0
    && state.keys == event.keys.k && state.agreement == event.keys.ka && state.next == event.keys.n
    && state.recovery == event.r && !state.saturated
    && state.digest == c.digestOf(OfChain(event)) && state.epoch == state.digest
    && state.deny == {} && state.members == map[] && state.tombstones == map[]
  }

  // ---------------------------------------------------------------- one entry

  lemma AgreementIff(c: Suite, keys: KeySet)
    ensures EnforcedThresholds(keys) && VerifyAgreementKeys(c, keys.ka) <==> PublishesSoundly(c, keys)
  {
    if VerifyAgreementKeys(c, keys.ka) {
      forall j | 0 <= j < |keys.ka| ensures c.isX25519(keys.ka[j]) {
        var key := keys.ka[j];
        assert key in keys.ka;
      }
    }
    if PublishesSoundly(c, keys) {
      forall key | key in keys.ka ensures c.isX25519(key) {
        var j :| 0 <= j < |keys.ka| && keys.ka[j] == key;
      }
    }
  }

  lemma InceptionIff(c: Suite, did: Did, entry: ChainEntry)
    ensures InitFold(c, did, entry).Folded? <==> Opens(c, did, entry)
    ensures InitFold(c, did, entry).Folded? ==> FirstLeaves(c, did, entry.event, InitFold(c, did, entry).states[0])
  {
    if entry.Signed? && entry.event.Inception? {
      AgreementIff(c, entry.event.keys);
    }
  }

  lemma RotateIff(c: Suite, did: Did, entry: ChainEntry, prior: KeyState)
    requires entry.Signed? && entry.event.Rotate? && !IsReset(entry.event, prior)
    ensures entry.event.i == did && RotateFault(c, entry.event, entry.sigs, prior).None? <==> Rotates(c, did, entry, prior)
  {
    hide EnforcedThresholds, VerifyAgreementKeys, PublishesSoundly;
    AgreementIff(c, entry.event.keys);
  }

  lemma ResetIff(c: Suite, did: Did, inception: ChainEvent, entry: ChainEntry, prior: KeyState)
    requires entry.Signed? && entry.event.Rotate? && IsReset(entry.event, prior) && inception.Inception?
    ensures entry.event.i == did && ResetFault(c, inception, entry.event, entry.sigs, entry.recoveryKey).None?
      <==> Resets(c, did, inception, entry, prior)
  {
    hide EnforcedThresholds, VerifyAgreementKeys, PublishesSoundly;
    AgreementIff(c, entry.event.keys);
  }

  lemma RootKeyIff(c: Suite, event: ChainEvent, prior: KeyState, chain: seq<KeyState>, key: Key)
    requires event.Rotate?
    ensures key in RootsWith(event, prior, chain).keys <==> RootPublished(event, prior, chain, key)
    ensures IsRootKey(c, key, RootsWith(event, prior, chain))
      <==> RootPublished(event, prior, chain, key) || RootCommitted(event, prior, chain, c.keyDigest(key))
  {
    var earlier := RootsOf(chain, prior.gen, prior.recovery);
    assert key in earlier.keys <==> exists s :: s in chain && s.gen == prior.gen && (key in s.keys || key in s.agreement) by {
      if s :| s in chain && s.gen == prior.gen && (key in s.keys || key in s.agreement) {
        assert key in s.keys + s.agreement;
      }
    }
  }

  lemma DistinctIff(members: seq<MemberEntry>, removed: seq<MemberEntry>)
    ensures DistinctAdds(members + removed) <==>
      && (forall i, j :: 0 <= i < j < |members| ==> members[i].add != members[j].add)
      && (forall i, j :: 0 <= i < j < |removed| ==> removed[i].add != removed[j].add)
      && (forall i, j :: 0 <= i < |members| && 0 <= j < |removed| ==> members[i].add != removed[j].add)
  {
    var entries := members + removed;
    if DistinctAdds(entries) {
      forall i, j | 0 <= i < j < |removed| ensures removed[i].add != removed[j].add {
        assert entries[|members| + i].add != entries[|members| + j].add;
      }
      forall i, j | 0 <= i < |members| && 0 <= j < |removed| ensures members[i].add != removed[j].add {
        assert entries[i].add != entries[|members| + j].add;
      }
      forall i, j | 0 <= i < j < |members| ensures members[i].add != members[j].add {
        assert entries[i].add != entries[j].add;
      }
    }
  }

  lemma PublishIff(c: Suite, event: ChainEvent, prior: KeyState, chain: seq<KeyState>)
    requires event.Rotate? && (event.m.None? ==> event.u.None? && event.d == Some([]))
    ensures var roots := RootsWith(event, prior, chain);
      (SnapshotFaultOf(c, SnapshotIn(event), roots, Tombstones(event, prior, roots)).None?
        && !DeniesOwnKey(event.keys, Elems(SnapshotIn(event).deny)))
      <==> Publishable(c, event, prior, chain)
  {
    hide RootsWith, RootPublished, RootCommitted, IsRootKey, DistinctAdds, SnapshotFaultOf, Listable, Tombstones, IsMemberEntry, DeniesOwnKey;
    var snapshot, roots := SnapshotIn(event), RootsWith(event, prior, chain);
    forall key ensures key in roots.keys <==> RootPublished(event, prior, chain, key)
      ensures IsRootKey(c, key, roots) <==> RootPublished(event, prior, chain, key) || RootCommitted(event, prior, chain, c.keyDigest(key))
    {
      RootKeyIff(c, event, prior, chain, key);
    }
    DistinctIff(snapshot.members, snapshot.removed);
    EntriesIff(c, event, prior, chain);
    RetiredIff(event, prior, chain);
    NoFaultIff(c, snapshot, roots, Tombstones(event, prior, roots));
    OwnKeysIff(event.keys, snapshot.deny);
    assert snapshot == Snapshot(Listed(event, event.m), Listed(event, event.u), Listed(event, event.d));
    assert (forall t :: t in Tombstones(event, prior, roots) ==> t in snapshot.deny)
      <==> forall key :: KeyTarget(key) in prior.deny && event.g <= prior.gen && RootPublished(event, prior, chain, key) ==> KeyTarget(key) in snapshot.deny;
  }

  lemma OwnKeysIff(keys: KeySet, deny: seq<Target>)
    ensures DeniesOwnKey(keys, Elems(deny)) <==> exists key :: (key in keys.k || key in keys.ka) && KeyTarget(key) in deny
  {
    if key :| (key in keys.k || key in keys.ka) && KeyTarget(key) in deny {
      assert key in keys.k + keys.ka && KeyTarget(key) in Elems(deny);
    }
  }

  lemma NoFaultIff(c: Suite, s: Snapshot, roots: RootKeys, tombstones: set<Target>)
    ensures SnapshotFaultOf(c, s, roots, tombstones).None? <==>
      && (forall entry :: entry in s.members + s.removed ==>
        IsMemberEntry(c, entry) && !IsRootKey(c, entry.key, roots) && c.carries(entry.did, entry.key))
      && DistinctAdds(s.members + s.removed) && DistinctPins(s.members)
      && (forall t :: t in tombstones ==> t in s.deny)
  {
    hide IsRootKey, IsMemberEntry, DistinctAdds, DistinctPins;
  }

  lemma EntriesIff(c: Suite, event: ChainEvent, prior: KeyState, chain: seq<KeyState>)
    requires event.Rotate?
    ensures var s, roots := SnapshotIn(event), RootsWith(event, prior, chain);
      (forall entry :: entry in s.members + s.removed ==>
        IsMemberEntry(c, entry) && !IsRootKey(c, entry.key, roots) && c.carries(entry.did, entry.key))
      <==> ((forall i :: 0 <= i < |s.members| ==> Listable(c, event, prior, chain, s.members[i]))
        && (forall i :: 0 <= i < |s.removed| ==> Listable(c, event, prior, chain, s.removed[i])))
  {
    hide RootsWith, RootPublished, RootCommitted, IsRootKey;
    var s, roots := SnapshotIn(event), RootsWith(event, prior, chain);
    forall entry ensures IsMemberEntry(c, entry) && !IsRootKey(c, entry.key, roots) && c.carries(entry.did, entry.key)
      <==> Listable(c, event, prior, chain, entry)
    {
      RootKeyIff(c, event, prior, chain, entry.key);
    }
  }

  lemma RetiredIff(event: ChainEvent, prior: KeyState, chain: seq<KeyState>)
    requires event.Rotate?
    ensures var deny, roots := SnapshotIn(event).deny, RootsWith(event, prior, chain);
      (forall t :: t in Tombstones(event, prior, roots) ==> t in deny) <==>
        forall key :: KeyTarget(key) in prior.deny && event.g <= prior.gen && key in roots.keys ==> KeyTarget(key) in deny
  {
    hide RootsWith;
    var roots := RootsWith(event, prior, chain);
    forall t ensures t in Tombstones(event, prior, roots) <==> t in prior.deny && event.g <= prior.gen && t.KeyTarget? && t.key in roots.keys {
    }
    assert forall t: Target :: t.KeyTarget? ==> t == KeyTarget(t.key);
  }

  lemma {:induction false} LastOf(entries: seq<MemberEntry>, i: nat)
    requires i < |entries| && forall j, k :: 0 <= j < k < |entries| ==> entries[j].add != entries[k].add
    ensures entries[i].add in AddsOf(entries) && EntryOf(entries, entries[i].add) == entries[i]
  {
    assert entries[i] in entries;
    if i < |entries| - 1 {
      LastOf(entries[..|entries| - 1], i);
    }
  }

  lemma AddsIff(entries: seq<MemberEntry>, a: Digest)
    ensures a in AddsOf(entries) <==> exists i :: 0 <= i < |entries| && entries[i].add == a
  {
    if i :| 0 <= i < |entries| && entries[i].add == a {
      assert entries[i] in entries;
    }
  }

  /** The state made of a rotate that may be published is the state it leaves. */
  lemma StateMeans(c: Suite, did: Did, event: ChainEvent, prior: KeyState, chain: seq<KeyState>)
    requires event.Rotate? && Publishable(c, event, prior, chain)
    ensures LeavesState(c, did, event, prior, StateFrom(c, did, event, prior))
  {
    hide IsDenied, Unnamed, Listable, RootPublished, EntryOf;
    var state := StateFrom(c, did, event, prior);
    var members, removed := Listed(event, event.m), Listed(event, event.u);
    forall a ensures a in AddsOf(members) <==> exists i :: 0 <= i < |members| && members[i].add == a {
      AddsIff(members, a);
    }
    forall a ensures a in AddsOf(removed) <==> exists i :: 0 <= i < |removed| && removed[i].add == a {
      AddsIff(removed, a);
    }
    forall i | 0 <= i < |members|
      ensures members[i].add in state.members && state.members[members[i].add] == MemberState(members[i], false, !IsDenied(c, state.deny, members[i]))
      ensures IsDenied(c, state.deny, members[i]) <==> !Unnamed(c, state.deny, members[i].did, members[i].key)
    {
      LastOf(members, i);
      DeniedIff(c, state.deny, members[i]);
    }
    forall i | 0 <= i < |removed| ensures removed[i].add in state.tombstones && state.tombstones[removed[i].add] == removed[i] {
      LastOf(removed, i);
    }
  }

  /** Only one state is the one a rotate leaves. */
  lemma OneState(c: Suite, did: Did, event: ChainEvent, prior: KeyState, a: KeyState, b: KeyState)
    requires event.Rotate? && LeavesState(c, did, event, prior, a) && LeavesState(c, did, event, prior, b)
    ensures a == b
  {
    hide Unnamed;
    assert a.deny == b.deny;
    OneMembers(c, Listed(event, event.m), a, b);
    OneTombstones(Listed(event, event.u), a, b);
  }

  lemma OneMembers(c: Suite, members: seq<MemberEntry>, a: KeyState, b: KeyState)
    requires MembersAre(c, members, a) && MembersAre(c, members, b) && a.deny == b.deny
    ensures a.members == b.members
  {
    hide Unnamed;
    forall x ensures x in a.members <==> x in b.members {
    }
    forall x | x in a.members ensures x in b.members && a.members[x] == b.members[x] {
      var i :| 0 <= i < |members| && members[i].add == x;
    }
  }

  lemma OneTombstones(removed: seq<MemberEntry>, a: KeyState, b: KeyState)
    requires TombstonesAre(removed, a) && TombstonesAre(removed, b)
    ensures a.tombstones == b.tombstones
  {
    forall x ensures x in a.tombstones <==> x in b.tombstones {
    }
    forall x | x in a.tombstones ensures x in b.tombstones && a.tombstones[x] == b.tombstones[x] {
      var i :| 0 <= i < |removed| && removed[i].add == x;
    }
  }

  /** How one entry may follow the states so far, and the state after it. */
  ghost predicate Follows(c: Suite, did: Did, inception: ChainEvent, entry: ChainEntry, chain: seq<KeyState>, state: KeyState)
    requires chain != [] && inception.Inception?
  {
    var prior := chain[|chain| - 1];
    || (PassedOver(did, entry, prior) && state == prior)
    || ((Rotates(c, did, entry, prior) || Resets(c, did, inception, entry, prior))
      && Publishable(c, entry.event, prior, chain) && LeavesState(c, did, entry.event, prior, state))
  }

  /** An entry is accepted after the states so far exactly when it is one that is passed over or a rotate or a reset
      that is signed, placed and published as it must be; the state is then the one it leaves. */
  lemma StepIff(c: Suite, did: Did, inception: ChainEvent, entry: ChainEntry, chain: seq<KeyState>, state: KeyState)
    requires chain != [] && inception.Inception?
    ensures Follows(c, did, inception, entry, chain, state)
      <==> var step := StepEvent(c, did, inception, entry, chain); step.Stepped? && step.state == state
  {
    hide Rotates, Resets, Publishable, LeavesState, RotateFault, ResetFault, SnapshotFaultOf, RootsWith, Tombstones, DeniesOwnKey, StateFrom, SnapshotIn;
    var prior := chain[|chain| - 1];
    if entry.Signed? && entry.event.Rotate? {
      RotateStepIff(c, did, inception, entry, chain);
      if Publishable(c, entry.event, prior, chain) {
        StateMeans(c, did, entry.event, prior, chain);
        if LeavesState(c, did, entry.event, prior, state) {
          OneState(c, did, entry.event, prior, state, StateFrom(c, did, entry.event, prior));
        }
      }
      assert !PassedOver(did, entry, prior);
    } else {
      OnlyRotates(c, did, inception, entry, prior);
      PassedIff(c, did, inception, entry, chain);
    }
  }

  lemma PassedIff(c: Suite, did: Did, inception: ChainEvent, entry: ChainEntry, chain: seq<KeyState>)
    requires chain != [] && inception.Inception? && !(entry.Signed? && entry.event.Rotate?)
    ensures var step, prior := StepEvent(c, did, inception, entry, chain), chain[|chain| - 1];
      if PassedOver(did, entry, prior) then step == Stepped(prior, true) else step.Failed?
  {
    if entry.Signed? && entry.event.Unknown? {
      match entry.event.crit {
        case None =>
        case Some(critical) =>
          if critical {
            assert entry.event.crit == Some(true);
          } else {
            assert entry.event.crit == Some(false);
          }
      }
    }
  }

  lemma OnlyRotates(c: Suite, did: Did, inception: ChainEvent, entry: ChainEntry, prior: KeyState)
    requires inception.Inception?
    ensures Rotates(c, did, entry, prior) || Resets(c, did, inception, entry, prior) ==> entry.Signed? && entry.event.Rotate?
  {
  }

  lemma {:induction false} RotateStepIff(c: Suite, did: Did, inception: ChainEvent, entry: ChainEntry, chain: seq<KeyState>)
    requires chain != [] && inception.Inception? && entry.Signed? && entry.event.Rotate?
    ensures var step, prior := StepEvent(c, did, inception, entry, chain), chain[|chain| - 1];
      && (step.Stepped? <==>
        (Rotates(c, did, entry, prior) || Resets(c, did, inception, entry, prior)) && Publishable(c, entry.event, prior, chain))
      && (step.Stepped? ==> step.state == StateFrom(c, did, entry.event, prior))
  {
    hide Rotates, Resets, Publishable, RotateFault, ResetFault, SnapshotFaultOf, RootsWith, Tombstones, DeniesOwnKey, StateFrom, SnapshotIn;
    var prior := chain[|chain| - 1];
    WhichGeneration(c, did, inception, entry, prior);
    if IsReset(entry.event, prior) {
      ResetIff(c, did, inception, entry, prior);
    } else {
      RotateIff(c, did, entry, prior);
    }
    if Rotates(c, did, entry, prior) || Resets(c, did, inception, entry, prior) {
      PublishIff(c, entry.event, prior, chain);
    }
  }

  lemma WhichGeneration(c: Suite, did: Did, inception: ChainEvent, entry: ChainEntry, prior: KeyState)
    requires inception.Inception?
    ensures Rotates(c, did, entry, prior) ==> entry.event.m.Some? && entry.event.g <= prior.gen && entry.event.i == did
    ensures Resets(c, did, inception, entry, prior) ==> entry.event.g > prior.gen && entry.event.i == did
    ensures Resets(c, did, inception, entry, prior) && entry.event.m.None? ==> entry.event.u.None? && entry.event.d == Some([])
  {
  }

  // ---------------------------------------------------------------- whole chains

  /** What a chain is an account of: an inception, then one entry after another, never with more than eight passed over
      beyond those understood. */
  ghost predicate Accounts(c: Suite, did: Did, chain: seq<ChainEntry>, states: seq<KeyState>) {
    && chain != [] && |states| == |chain|
    && Opens(c, did, chain[0]) && FirstLeaves(c, did, chain[0].event, states[0])
    && (forall i :: 0 < i < |chain| ==> Follows(c, did, chain[0].event, chain[i], states[..i], states[i]))
    && (forall k :: 0 < k <= |chain| ==> WithinSlack(chain[..k]))
  }

  lemma {:induction false} AccountFolds(c: Suite, did: Did, chain: seq<ChainEntry>, states: seq<KeyState>)
    requires Accounts(c, did, chain, states)
    ensures Folds(c, did, chain) && ChainStates(c, did, chain) == states
  {
    hide Opens, FirstLeaves, Follows, StepEvent, InitFold;
    var n := |chain| - 1;
    if n == 0 {
      FirstEntry(c, did, chain);
      assert chain[..1] == chain;
      FirstIff(c, did, chain[0], states[0]);
    } else {
      FirstAccounts(c, did, chain, states, n);
      AccountFolds(c, did, chain[..n], states[..n]);
      assert WithinSlack(chain[..|chain|]) && chain[..|chain|] == chain;
      OneMore(c, did, chain, states);
    }
  }

  lemma FirstAccounts(c: Suite, did: Did, chain: seq<ChainEntry>, states: seq<KeyState>, n: nat)
    requires Accounts(c, did, chain, states) && 0 < n <= |chain|
    ensures Accounts(c, did, chain[..n], states[..n])
  {
    hide Opens, FirstLeaves, Follows, WithinSlack;
    assert forall k :: 0 < k <= n ==> chain[..n][..k] == chain[..k];
    assert forall i :: 0 < i < n ==> states[..n][..i] == states[..i];
  }

  /** A chain that folds goes on folding with one more entry that follows, within the slack. */
  lemma OneMore(c: Suite, did: Did, chain: seq<ChainEntry>, states: seq<KeyState>)
    requires |states| == |chain| > 1 && chain[0].Signed? && chain[0].event.Inception? && WithinSlack(chain)
    requires var n := |chain| - 1; Folds(c, did, chain[..n]) && ChainStates(c, did, chain[..n]) == states[..n]
    requires var n := |chain| - 1; Follows(c, did, chain[0].event, chain[n], states[..n], states[n])
    ensures Folds(c, did, chain) && ChainStates(c, did, chain) == states
  {
    hide Follows, StepEvent, InitFold;
    var n := |chain| - 1;
    StepIff(c, did, chain[0].event, chain[n], states[..n], states[n]);
    SkipsCounted(c, did, chain[..n]);
    StepMeans(c, did, chain[0].event, chain[n], states[..n]);
    assert states == states[..n] + [states[n]];
  }

  lemma FirstIff(c: Suite, did: Did, entry: ChainEntry, state: KeyState)
    ensures Opens(c, did, entry) && FirstLeaves(c, did, entry.event, state) <==> InitFold(c, did, entry).Folded? && InitFold(c, did, entry).states == [state]
  {
    InceptionIff(c, did, entry);
  }

  /** Every chain that folds is accounted for by its states. */
  lemma {:induction false} FoldAccounts(c: Suite, did: Did, chain: seq<ChainEntry>)
    requires Folds(c, did, chain)
    ensures Accounts(c, did, chain, ChainStates(c, did, chain))
  {
    hide Opens, FirstLeaves, Follows, StepEvent, InitFold, Folds, ChainStates;
    var states := ChainStates(c, did, chain);
    FirstOf(c, did, chain);
    PrefixFolds(c, did, chain, 1);
    FirstFolds(c, did, chain);
    FirstIff(c, did, chain[0], states[0]);
    forall i | 0 < i < |chain| ensures Follows(c, did, chain[0].event, chain[i], states[..i], states[i]) {
      PrefixFolds(c, did, chain, i + 1);
      PrefixFolds(c, did, chain, i);
      LastStep(c, did, chain[..i + 1]);
      assert chain[..i + 1][..i] == chain[..i];
      StepIff(c, did, chain[0].event, chain[i], states[..i], states[i]);
    }
    forall k | 0 < k <= |chain| ensures WithinSlack(chain[..k]) {
      SkipsLimited(c, did, chain, k);
    }
  }

  lemma FirstFolds(c: Suite, did: Did, chain: seq<ChainEntry>)
    requires chain != [] && Folds(c, did, chain[..1])
    ensures InitFold(c, did, chain[0]).Folded? && InitFold(c, did, chain[0]).states == ChainStates(c, did, chain[..1])
  {
    FirstEntry(c, did, chain);
  }

  /** A chain folds to its states exactly when they account for it. */
  lemma FoldsIff(c: Suite, did: Did, chain: seq<ChainEntry>, states: seq<KeyState>)
    ensures Accounts(c, did, chain, states) <==> Folds(c, did, chain) && ChainStates(c, did, chain) == states
  {
    hide Accounts, Folds, ChainStates;
    if Accounts(c, did, chain, states) {
      AccountFolds(c, did, chain, states);
    }
    if Folds(c, did, chain) {
      FoldAccounts(c, did, chain);
    }
  }
}
