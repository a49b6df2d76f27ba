/** When a rotate that carries a state forward is accepted: what `snapshotOf` says of a merged head may be refused
    by the fold, and exactly when. */
module Carrying {
  import opened Basics
  import opened Events
  import opened Members
  import opened Fold
  import opened ChainFacts
  import opened ChainMeans
  import opened RootKeysKept
  import opened EpochSpec
  import opened EpochHead
  import opened EpochMemory
  import opened EpochAuthority
  import opened EpochMerge
  import opened HeadRules
  import opened Snapshots

  /** A DID carries Ed25519 keys only. */
  ghost predicate CarriesEd25519(c: Suite) {
    forall did, key :: c.carries(did, key) ==> c.isEd25519(key)
  }

  predicate GoodEntry(c: Suite, entry: MemberEntry) {
    IsMemberEntry(c, entry) && c.carries(entry.did, entry.key)
  }

  /** Every incarnation is well formed, stands under its own `add` and only once. */
  ghost predicate GoodState(c: Suite, state: KeyState) {
    && KeyedByAdd(state) && state.members.Keys !! state.tombstones.Keys
    && (forall a :: a in state.members ==> GoodEntry(c, state.members[a].entry))
    && (forall a :: a in state.tombstones ==> GoodEntry(c, state.tombstones[a]))
  }

  lemma TogetherApart(a: seq<MemberEntry>, b: seq<MemberEntry>)
    requires DistinctAdds(a + b)
    ensures AddsOf(a) !! AddsOf(b)
  {
    forall i, j | 0 <= i < |a| && 0 <= j < |b| ensures a[i].add != b[j].add {
      assert (a + b)[i] == a[i] && (a + b)[|a| + j] == b[j];
    }
  }

  lemma SnapshotGood(c: Suite, did: Did, event: ChainEvent, prior: KeyState, roots: RootKeys, tombstones: set<Target>)
    requires event.Rotate? && SnapshotFaultOf(c, SnapshotIn(event), roots, tombstones).None?
    ensures GoodState(c, StateFrom(c, did, event, prior))
  {
    hide IsRootKey, IsDenied, IsMemberEntry, DistinctPins;
    var s := SnapshotIn(event);
    var entries := s.members + s.removed;
    TogetherApart(s.members, s.removed);
    assert forall x :: x in s.members ==> x in entries;
    assert forall x :: x in s.removed ==> x in entries;
  }

  lemma {:induction false} StatesGood(c: Suite, did: Did, chain: seq<ChainEntry>, i: nat)
    requires Folds(c, did, chain) && i < |chain|
    ensures GoodState(c, ChainStates(c, did, chain)[i])
  {
    hide Folds, ChainStates, RootsWith, Tombstones, SnapshotFaultOf, DeniesOwnKey, Placed, IsDenied, SnapshotIn, StateFrom, GoodEntry;
    if i == 0 {
      FirstOf(c, did, chain);
    } else {
      StepAt(c, did, chain, i);
      var states := ChainStates(c, did, chain);
      if Skips(chain[i]) {
        StatesGood(c, did, chain, i - 1);
      } else {
        var event, prior, before := chain[i].event, states[i - 1], states[..i];
        assert before[|before| - 1] == prior;
        SnapshotGood(c, did, event, prior, RootsWith(event, prior, before), Tombstones(event, prior, RootsWith(event, prior, before)));
      }
    }
  }

  /** The leases that events of a graph name are in range. */
  ghost predicate LeasesInRange(g: Graph) {
    forall d :: d in g && (g[d].event.action.Add? || g[d].event.action.Renew?) ==> IsSeconds(g[d].event.action.lease)
  }

  lemma GraphLeases(ep: Epoch, view: View)
    requires WellView(ep, view)
    ensures LeasesInRange(GraphOf(ep, view))
  {
    hide Local, ListsOutside;
  }

  lemma {:induction false} AppliedAdds(ep: Epoch, g: Graph, d: Digest)
    requires d in After(ep, g) && d in g && g[d].event.action.Add?
    ensures ep.suite.carries(g[d].event.action.did, g[d].event.action.key)
  {
    hide MaySign, After, IsDenied, IsRootKey, KeyIsLive;
    AppliesIffAuthorised(ep, g, d);
  }

  lemma {:induction false} MergedEntry(ep: Epoch, g: Graph, u: EpochState, a: Digest)
    requires LeasesInRange(g) && After(ep, g).Keys <= g.Keys && a in u.added && CarriesEd25519(ep.suite)
    requires AddedOf(g, After(ep, g).Keys, AnchorState(ep).added, u.added) && LeasesOf(g, After(ep, g).Keys, u.leases)
    requires forall b :: b in ep.anchor.members ==> GoodEntry(ep.suite, ep.anchor.members[b].entry)
    ensures a in ep.anchor.members || a in g
    ensures GoodEntry(ep.suite, MembersOf(ep, u)[a].entry)
  {
    hide After, IsDenied, CarriesEd25519;
    if a in After(ep, g).Keys && g[a].event.action.Add? {
      AppliedAdds(ep, g, a);
      AddedGood(ep.suite, u.added[a]);
    }
    assert a in u.leases ==> IsSeconds(u.leases[a]);
  }

  lemma {:induction false} HeadGood(ep: Epoch, view: View, maxEvents: nat)
    requires WellView(ep, view) && FoldSpec(ep, view, maxEvents).Merged? && GoodState(ep.suite, ep.anchor)
    requires CarriesEd25519(ep.suite) && ep.anchor.tombstones.Keys !! GraphOf(ep, view).Keys
    ensures GoodState(ep.suite, FoldSpec(ep, view, maxEvents).head)
  {
    hide FoldSpec, WellView, GraphOf, After, AddedOf, RemovedOf, DenyOf, LeasesOf, LeasesInRange, CarriesEd25519, GoodEntry, MembersOf, AnchorState,
      DenialDominates;
    HeadFits(ep, view, maxEvents);
    HeadMeans(ep, view, maxEvents);
    HeadKeeps(ep, view, maxEvents);
    GraphLeases(ep, view);
    var g, head := GraphOf(ep, view), FoldSpec(ep, view, maxEvents).head;
    var u :| IsMergeOf(g, After(ep, g).Keys, AnchorState(ep), u) && head.deny == u.deny && head.members == MembersOf(ep, u);
    MembersKeys(ep, u);
    forall a | a in head.members ensures GoodEntry(ep.suite, head.members[a].entry) && (a in ep.anchor.members || a in g) {
      MergedEntry(ep, g, u, a);
    }
  }

  lemma MembersKeys(ep: Epoch, u: EpochState)
    ensures MembersOf(ep, u).Keys == u.added.Keys
  {
  }

  lemma AddedGood(c: Suite, entry: MemberEntry)
    requires CarriesEd25519(c) && c.carries(entry.did, entry.key)
    ensures c.isEd25519(entry.key)
  {
  }

  // ---------------------------------------------------------------- the snapshot

  /** No two live members that are kept pin one key. */
  ghost predicate PinsApart(state: KeyState, dropMembers: set<Digest>) {
    forall a, b :: Live(state, a) && Live(state, b) && a !in dropMembers && b !in dropMembers && a != b ==>
      state.members[a].entry.key != state.members[b].entry.key
  }

  /** No member that is kept, live or ended, pins a root key. */
  ghost predicate ClearKept(c: Suite, state: KeyState, dropMembers: set<Digest>, roots: RootKeys) {
    && (forall a :: a in state.members && a !in dropMembers ==> !IsRootKey(c, state.members[a].entry.key, roots))
    && (forall a :: a in state.tombstones && a !in dropMembers ==> !IsRootKey(c, state.tombstones[a].key, roots))
  }

  /** Concurrent adds of one key that both apply, and neither of which is removed, leave pins that are not apart. */
  lemma {:induction false} AddsClash(ep: Epoch, view: View, maxEvents: nat, a: Digest, b: Digest, dropMembers: set<Digest>)
    requires WellView(ep, view) && FoldSpec(ep, view, maxEvents).Merged? && a != b
    requires var g := GraphOf(ep, view);
      && a in After(ep, g) && a in g && g[a].event.action.Add? && b in After(ep, g) && b in g && g[b].event.action.Add?
      && g[a].event.action.key == g[b].event.action.key
    requires var head := FoldSpec(ep, view, maxEvents).head; Live(head, a) && Live(head, b)
    ensures a !in dropMembers && b !in dropMembers ==> !PinsApart(FoldSpec(ep, view, maxEvents).head, dropMembers)
  {
    hide FoldSpec, WellView, GraphOf, After, IsDenied, RemovedOf, DenyOf, LeasesOf;
    HeadMeans(ep, view, maxEvents);
    var g, head := GraphOf(ep, view), FoldSpec(ep, view, maxEvents).head;
    var u :| IsMergeOf(g, After(ep, g).Keys, AnchorState(ep), u) && head.members == MembersOf(ep, u);
    assert head.members[a].entry.key == head.members[b].entry.key;
  }

  /** A snapshot of a state, listing each incarnation once. */
  ghost predicate IsSnapshot(state: KeyState, dropDeny: set<Target>, dropMembers: set<Digest>, s: Snapshot) {
    Tells(state, dropDeny, dropMembers, s) && DistinctAdds(s.members + s.removed)
  }

  lemma SnapshotShaped(c: Suite, state: KeyState, dropDeny: set<Target>, dropMembers: set<Digest>, s: Snapshot)
    requires GoodState(c, state) && IsSnapshot(state, dropDeny, dropMembers, s)
    ensures Shaped(c, s) <==> PinsApart(state, dropMembers)
    ensures forall x :: x in s.members + s.removed ==> c.carries(x.did, x.key)
  {
    hide IsMemberEntry;
    assert forall i :: 0 <= i < |s.members| ==> s.members[i] in s.members && (s.members + s.removed)[i] == s.members[i];
    if PinsApart(state, dropMembers) {
      forall i, j | 0 <= i < j < |s.members| ensures s.members[i].key != s.members[j].key {
        var a, b := s.members[i].add, s.members[j].add;
        assert a != b && Live(state, a) && Live(state, b);
      }
    } else {
      var a, b :| Live(state, a) && Live(state, b) && a !in dropMembers && b !in dropMembers && a != b
        && state.members[a].entry.key == state.members[b].entry.key;
      var x, y := state.members[a].entry, state.members[b].entry;
      assert x in s.members && y in s.members;
    }
  }

  lemma SnapshotClearIff(c: Suite, state: KeyState, dropDeny: set<Target>, dropMembers: set<Digest>, s: Snapshot, roots: RootKeys)
    requires GoodState(c, state) && IsSnapshot(state, dropDeny, dropMembers, s)
    ensures (exists x :: x in s.members + s.removed && IsRootKey(c, x.key, roots)) <==> !ClearKept(c, state, dropMembers, roots)
  {
    hide IsRootKey, GoodEntry;
    if !ClearKept(c, state, dropMembers, roots) {
      if a :| a in state.members && a !in dropMembers && IsRootKey(c, state.members[a].entry.key, roots) {
        assert state.members[a].entry in s.members + s.removed;
      } else {
        var a :| a in state.tombstones && a !in dropMembers && IsRootKey(c, state.tombstones[a].key, roots);
        assert state.tombstones[a] in s.members + s.removed;
      }
    }
  }

  /** A snapshot of a merged head is accepted exactly when no two live members kept pin one key, none kept pins a
      key of root's and no denial of a retired key is dropped. Two concurrent adds of one key both stand, so the
      first can fail: then the snapshot is malformed. */
  lemma SnapshotFits(c: Suite, state: KeyState, dropDeny: set<Target>, dropMembers: set<Digest>, s: Snapshot, roots: RootKeys, retired: set<Target>)
    requires GoodState(c, state) && IsSnapshot(state, dropDeny, dropMembers, s)
    ensures SnapshotFaultOf(c, s, roots, retired).None? <==>
      PinsApart(state, dropMembers) && ClearKept(c, state, dropMembers, roots) && retired <= state.deny - dropDeny
    ensures !PinsApart(state, dropMembers) <==> SnapshotFaultOf(c, s, roots, retired) == Some(Malformed)
  {
    hide Shaped, IsRootKey, GoodState, ClearKept, PinsApart;
    SnapshotShaped(c, state, dropDeny, dropMembers, s);
    SnapshotClearIff(c, state, dropDeny, dropMembers, s, roots);
  }

  // ---------------------------------------------------------------- the rotate that publishes it

  /** No member kept pins an agreement key a rotate publishes, or one it commits to. */
  ghost predicate FreshKeys(c: Suite, keys: KeySet, state: KeyState, dropMembers: set<Digest>) {
    && (forall a :: a in state.members && a !in dropMembers ==>
      state.members[a].entry.key !in keys.ka && c.keyDigest(state.members[a].entry.key) !in keys.n)
    && (forall a :: a in state.tombstones && a !in dropMembers ==>
      state.tombstones[a].key !in keys.ka && c.keyDigest(state.tombstones[a].key) !in keys.n)
  }

  /** Of the root keys a rotate is judged against, only its own agreement keys and commitments can be a member's:
      the rest the head is clear of, and the keys it reveals were committed to. */
  lemma {:induction false} FreshIff(c: Suite, event: ChainEvent, prior: KeyState, states: seq<KeyState>, state: KeyState, dropMembers: set<Digest>)
    requires event.Rotate? && !IsReset(event, prior) && prior in states
    requires ClearOfRoot(c, state, RootsOf(states, prior.gen, prior.recovery))
    requires forall key :: key in event.keys.k ==> c.keyDigest(key) in prior.next
    ensures ClearKept(c, state, dropMembers, RootsWith(event, prior, states)) <==> FreshKeys(c, event.keys, state, dropMembers)
  {
    hide RootsOf;
    var roots, earlier := RootsWith(event, prior, states), RootsOf(states, prior.gen, prior.recovery);
    Committed(states, prior);
    forall key | !IsRootKey(c, key, earlier) ensures IsRootKey(c, key, roots) <==> key in event.keys.ka || c.keyDigest(key) in event.keys.n {
      assert key in event.keys.k ==> c.keyDigest(key) in earlier.commitments;
    }
  }

  lemma Committed(states: seq<KeyState>, prior: KeyState)
    requires prior in states
    ensures forall x :: x in prior.next ==> x in RootsOf(states, prior.gen, prior.recovery).commitments
    ensures RootsOf(states, prior.gen, prior.recovery).recovery == prior.recovery
  {
  }

  /** A rotate that is placed and signed, and publishes a snapshot of the merged head, is accepted exactly when:
      no two live members it keeps pin one key; none it keeps pins an agreement key it publishes or a key it
      commits to; it drops no denial of a key its generation has retired; and it denies no key it publishes. */
  lemma {:induction false} CarryAccepted(c: Suite, did: Did, chain: seq<ChainEntry>, view: View, maxEvents: nat,
      dropDeny: set<Target>, dropMembers: set<Digest>, s: Snapshot, event: ChainEvent, sigs: seq<Sig>, recoveryKey: Option<Key>)
    requires Folds(c, did, chain) && CarriesEd25519(c) && event.Rotate?
    requires var states := ChainStates(c, did, chain);
      var ep, prior := EpochOf(c, did, states), states[|states| - 1];
      && WellView(ep, view) && prior.tombstones.Keys !! GraphOf(ep, view).Keys
      && FoldSpec(ep, view, maxEvents).Merged? && IsSnapshot(FoldSpec(ep, view, maxEvents).head, dropDeny, dropMembers, s)
      && Rotates(c, did, Signed(Publishing(event, s), sigs, recoveryKey), prior)
    ensures var states := ChainStates(c, did, chain);
      var ep, prior := EpochOf(c, did, states), states[|states| - 1];
      var head := FoldSpec(ep, view, maxEvents).head;
      StepEvent(c, did, chain[0].event, Signed(Publishing(event, s), sigs, recoveryKey), states).Stepped? <==> (
        && PinsApart(head, dropMembers)
        && FreshKeys(c, event.keys, head, dropMembers)
        && Tombstones(event, prior, RootsWith(event, prior, states)) !! dropDeny
        && !DeniesOwnKey(event.keys, head.deny - dropDeny))
  {
    hide FoldSpec, WellView, Folds, ChainStates, IsSnapshot, GoodState, GraphOf, ClearOfRoot, FreshKeys, ClearKept, PinsApart, Tombstones, RootsOf,
      DeniesOwnKey, VerifyRotate, VerifySignatures, RootsWith, SnapshotFaultOf, StateFrom;
    var states := ChainStates(c, did, chain);
    var n, ep, prior := |states| - 1, EpochOf(c, did, states), states[|states| - 1];
    var head, rotate := FoldSpec(ep, view, maxEvents).head, Publishing(event, s);
    StatesGood(c, did, chain, n);
    HeadGood(ep, view, maxEvents);
    HeadOfLog(c, did, chain, view, maxEvents);
    Revealed(c, did, Signed(rotate, sigs, recoveryKey), prior);
    Unchanged(event, s, prior, states);
    var roots := RootsWith(event, prior, states);
    FreshIff(c, event, prior, states, head, dropMembers);
    SnapshotFits(c, head, dropDeny, dropMembers, s, roots, Tombstones(event, prior, roots));
    RetiredDenied(event, prior, roots, head);
    Denials(head, dropDeny, dropMembers, s);
    assert StepEvent(c, did, chain[0].event, Signed(rotate, sigs, recoveryKey), states)
      == StepRotate(c, did, chain[0].event, Signed(rotate, sigs, recoveryKey), states);
  }

  lemma Revealed(c: Suite, did: Did, entry: ChainEntry, prior: KeyState)
    requires Rotates(c, did, entry, prior)
    ensures !IsReset(entry.event, prior) && entry.event.i == did && RotateFault(c, entry.event, entry.sigs, prior).None?
    ensures forall key :: key in entry.event.keys.k ==> c.keyDigest(key) in prior.next
  {
    hide PublishesSoundly, SignedBy;
    RotateIff(c, did, entry, prior);
    forall key | key in entry.event.keys.k ensures c.keyDigest(key) in prior.next {
      var j :| 0 <= j < |entry.event.keys.k| && entry.event.keys.k[j] == key;
      assert c.keyDigest(entry.event.keys.k[j]) == prior.next[j];
    }
  }

  lemma Unchanged(event: ChainEvent, s: Snapshot, prior: KeyState, states: seq<KeyState>)
    requires event.Rotate?
    ensures var rotate := Publishing(event, s);
      && rotate.keys == event.keys && rotate.i == event.i && IsReset(rotate, prior) == IsReset(event, prior)
      && RootsWith(rotate, prior, states) == RootsWith(event, prior, states)
      && SnapshotIn(rotate) == s
      && forall roots :: Tombstones(rotate, prior, roots) == Tombstones(event, prior, roots)
  {
    hide RootsOf;
  }

  lemma RetiredDenied(event: ChainEvent, prior: KeyState, roots: RootKeys, head: KeyState)
    requires event.Rotate? && prior.deny <= head.deny
    ensures Tombstones(event, prior, roots) <= head.deny
  {
  }

  lemma Denials(state: KeyState, dropDeny: set<Target>, dropMembers: set<Digest>, s: Snapshot)
    requires IsSnapshot(state, dropDeny, dropMembers, s)
    ensures Elems(s.deny) == state.deny - dropDeny
  {
    hide LiveEntry, EndedEntry, BuriedEntry;
  }

  // ---------------------------------------------------------------- the reset that publishes it

  /** All that a reset must prove but for what it carries: its place right after the inception, its keys, and one
      signature by the recovery key the inception committed to. */
  ghost predicate ResetProven(c: Suite, inception: ChainEvent, event: ChainEvent, sigs: seq<Sig>, recoveryKey: Option<Key>)
    requires event.Rotate? && inception.Inception?
  {
    && 1 <= event.g <= MAX_SAFE_INTEGER && event.s == 0 && event.seal.None?
    && event.p == c.digestOf(OfChain(inception))
    && PublishesSoundly(c, event.keys)
    && recoveryKey.Some? && c.keyDigest(recoveryKey.value) == inception.r
    && SignedBy(c, OfChain(event), sigs, [recoveryKey.value])
  }

  /** No member kept pins a key a reset publishes, or one it commits to. */
  ghost predicate OwnKeysUnpinned(c: Suite, keys: KeySet, state: KeyState, dropMembers: set<Digest>) {
    forall a :: a in state.members && a !in dropMembers ==>
      var key := state.members[a].entry.key;
      key !in keys.k && key !in keys.ka && c.keyDigest(key) !in keys.n
  }

  /** Every ended incarnation is dropped. */
  ghost predicate EndedDropped(state: KeyState, dropMembers: set<Digest>) {
    forall a :: Gone(state, a) ==> a in dropMembers
  }

  /** Something is carried at all: a reset that carries nothing must say so by publishing no members. */
  ghost predicate CarriesSome(state: KeyState, dropDeny: set<Target>, dropMembers: set<Digest>) {
    state.deny - dropDeny != {} || exists a :: Live(state, a) && a !in dropMembers
  }

  lemma ResetShape(state: KeyState, dropDeny: set<Target>, dropMembers: set<Digest>, s: Snapshot)
    requires KeyedByAdd(state) && IsSnapshot(state, dropDeny, dropMembers, s)
    ensures s.removed == [] <==> EndedDropped(state, dropMembers)
    ensures !(s.members == [] && s.deny == []) <==> CarriesSome(state, dropDeny, dropMembers)
  {
    if EndedDropped(state, dropMembers) && s.removed != [] {
      var x := s.removed[0];
      assert x in s.removed && Gone(state, x.add);
    }
    if a :| Gone(state, a) && a !in dropMembers {
      if a in state.tombstones {
        assert state.tombstones[a] in s.removed;
      } else {
        assert state.members[a].entry in s.removed;
      }
    }
    if a :| Live(state, a) && a !in dropMembers {
      assert state.members[a].entry in s.members;
    }
    if s.members != [] {
      assert s.members[0] in s.members;
    }
    if s.deny != [] {
      assert s.deny[0] in Elems(s.deny);
    }
  }

  lemma ResetClear(c: Suite, event: ChainEvent, prior: KeyState, states: seq<KeyState>, state: KeyState, dropMembers: set<Digest>)
    requires event.Rotate? && IsReset(event, prior) && prior in states
    requires ClearOfRoot(c, state, RootsOf(states, prior.gen, prior.recovery)) && EndedDropped(state, dropMembers)
    ensures ClearKept(c, state, dropMembers, RootsWith(event, prior, states)) <==> OwnKeysUnpinned(c, event.keys, state, dropMembers)
  {
    hide RootsOf;
    Committed(states, prior);
    var earlier := RootsOf(states, prior.gen, prior.recovery);
    assert forall key :: !IsRootKey(c, key, earlier) ==> c.keyDigest(key) != prior.recovery;
    assert forall a :: a in state.tombstones ==> Gone(state, a);
  }

  lemma ResetFaultIs(c: Suite, inception: ChainEvent, event: ChainEvent, sigs: seq<Sig>, recoveryKey: Option<Key>, s: Snapshot)
    requires inception.Inception? && event.Rotate? && ResetProven(c, inception, Publishing(event, s), sigs, recoveryKey)
    ensures ResetFault(c, inception, Publishing(event, s), sigs, recoveryKey).None? <==> s.removed == [] && !(s.members == [] && s.deny == [])
  {
    hide PublishesSoundly, VerifyAgreementKeys, EnforcedThresholds;
    AgreementIff(c, event.keys);
  }

  /** A reset that is placed and signed, and publishes a snapshot of the merged head, is accepted exactly when: it
      drops every ended incarnation, since a reset has no place for them; it carries something; no two live members
      it keeps pin one key; none it keeps pins a key of the reset's own; and it denies no key it publishes. The
      keys and denials of the generation it ends do not matter. */
  lemma {:induction false} ResetAccepted(c: Suite, did: Did, chain: seq<ChainEntry>, view: View, maxEvents: nat,
      dropDeny: set<Target>, dropMembers: set<Digest>, s: Snapshot, event: ChainEvent, sigs: seq<Sig>, recoveryKey: Option<Key>)
    requires Folds(c, did, chain) && CarriesEd25519(c) && event.Rotate? && event.i == did
    requires var states := ChainStates(c, did, chain);
      var ep, prior := EpochOf(c, did, states), states[|states| - 1];
      && WellView(ep, view) && prior.tombstones.Keys !! GraphOf(ep, view).Keys
      && FoldSpec(ep, view, maxEvents).Merged? && IsSnapshot(FoldSpec(ep, view, maxEvents).head, dropDeny, dropMembers, s)
      && IsReset(event, prior) && ResetProven(c, chain[0].event, Publishing(event, s), sigs, recoveryKey)
    ensures var states := ChainStates(c, did, chain);
      var head := FoldSpec(EpochOf(c, did, states), view, maxEvents).head;
      StepEvent(c, did, chain[0].event, Signed(Publishing(event, s), sigs, recoveryKey), states).Stepped? <==> (
        && EndedDropped(head, dropMembers)
        && CarriesSome(head, dropDeny, dropMembers)
        && PinsApart(head, dropMembers)
        && OwnKeysUnpinned(c, event.keys, head, dropMembers)
        && !DeniesOwnKey(event.keys, head.deny - dropDeny))
  {
    hide FoldSpec, WellView, Folds, ChainStates, IsSnapshot, GraphOf, ClearOfRoot, OwnKeysUnpinned, ClearKept, PinsApart, RootsOf, EndedDropped,
      CarriesSome, DeniesOwnKey, ResetProven, ResetFault, RootsWith, SnapshotFaultOf, StateFrom, GoodEntry;
    var states := ChainStates(c, did, chain);
    var n, ep, prior := |states| - 1, EpochOf(c, did, states), states[|states| - 1];
    var head, rotate := FoldSpec(ep, view, maxEvents).head, Publishing(event, s);
    StatesGood(c, did, chain, n);
    HeadGood(ep, view, maxEvents);
    HeadOfLog(c, did, chain, view, maxEvents);
    Unchanged(event, s, prior, states);
    var roots := RootsWith(event, prior, states);
    ResetShape(head, dropDeny, dropMembers, s);
    ResetFaultIs(c, chain[0].event, event, sigs, recoveryKey, s);
    if EndedDropped(head, dropMembers) {
      ResetClear(c, event, prior, states, head, dropMembers);
    }
    SnapshotFits(c, head, dropDeny, dropMembers, s, roots, {});
    Denials(head, dropDeny, dropMembers, s);
    assert StepEvent(c, did, chain[0].event, Signed(rotate, sigs, recoveryKey), states)
      == StepRotate(c, did, chain[0].event, Signed(rotate, sigs, recoveryKey), states);
  }
}
