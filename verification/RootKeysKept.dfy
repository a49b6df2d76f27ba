/** Retired keys stay retired, and no member ever holds a key of root's, along every chain that folds. */
module RootKeysKept {
  import opened Basics
  import opened Events
  import opened Members
  import opened Fold
  import opened ChainFacts

  predicate Publishes(s: KeyState, key: Key) {
    key in s.keys + s.agreement
  }

  /** No state denies a key it publishes. */
  lemma {:induction false} OwnKeysNeverDenied(c: Suite, did: Did, chain: seq<ChainEntry>, i: nat, key: Key)
    requires Folds(c, did, chain) && i < |chain|
    requires Publishes(ChainStates(c, did, chain)[i], key)
    ensures KeyTarget(key) !in ChainStates(c, did, chain)[i].deny
  {
    hide Folds, ChainStates, RootsWith, Tombstones, SnapshotFaultOf, Placed;
    if i == 0 {
      FirstOf(c, did, chain);
    } else {
      StepAt(c, did, chain, i);
      if Skips(chain[i]) {
        OwnKeysNeverDenied(c, did, chain, i - 1, key);
      }
    }
  }

  lemma TombstonesKept(c: Suite, snapshot: Snapshot, roots: RootKeys, tombstones: set<Target>)
    requires SnapshotFaultOf(c, snapshot, roots, tombstones).None?
    ensures tombstones <= Elems(snapshot.deny)
  {
    hide Shaped, IsRootKey;
  }

  /** A rotate publishes no key its prior denied. */
  lemma {:induction false} DeniedNotPublished(c: Suite, did: Did, chain: seq<ChainEntry>, i: nat, key: Key)
    requires Folds(c, did, chain) && 0 < i < |chain| && !Skips(chain[i])
    requires var states := ChainStates(c, did, chain);
      states[i].gen == states[i - 1].gen && Publishes(states[i], key)
    ensures KeyTarget(key) !in ChainStates(c, did, chain)[i - 1].deny
  {
    hide Folds, ChainStates, SnapshotFaultOf, Placed, RootsOf, IsDenied;
    StepAt(c, did, chain, i);
    var states, event := ChainStates(c, did, chain), chain[i].event;
    var prior := states[i - 1];
    assert states[..i][|states[..i]| - 1] == prior;
    var roots := RootsWith(event, prior, states[..i]);
    TombstonesKept(c, SnapshotIn(event), roots, Tombstones(event, prior, roots));
    assert key in event.keys.k + event.keys.ka && key in roots.keys;
    assert KeyTarget(key) !in Elems(SnapshotIn(event).deny);
  }

  /** Once a generation has published a key and denies it, its next state denies it too. */
  lemma {:induction false} RetiredNext(c: Suite, did: Did, chain: seq<ChainEntry>, a: nat, i: nat, key: Key)
    requires Folds(c, did, chain) && a < i < |chain|
    requires var states := ChainStates(c, did, chain);
      && states[i].gen == states[i - 1].gen == states[a].gen
      && Publishes(states[a], key) && KeyTarget(key) in states[i - 1].deny
    ensures KeyTarget(key) in ChainStates(c, did, chain)[i].deny
  {
    hide Folds, ChainStates, SnapshotFaultOf, Placed, IsDenied;
    StepAt(c, did, chain, i);
    if !Skips(chain[i]) {
      var states, event := ChainStates(c, did, chain), chain[i].event;
      var prior := states[i - 1];
      assert states[..i][|states[..i]| - 1] == prior && states[..i][a] == states[a];
      var roots := RootsWith(event, prior, states[..i]);
      TombstonesKept(c, SnapshotIn(event), roots, Tombstones(event, prior, roots));
      assert key in roots.keys;
    }
  }

  /** A key a generation published and denied stays denied there, and is never published again. */
  lemma {:induction false} RetiredForGood(c: Suite, did: Did, chain: seq<ChainEntry>, a: nat, i: nat, j: nat, key: Key)
    requires Folds(c, did, chain) && a <= i <= j < |chain|
    requires var states := ChainStates(c, did, chain);
      && states[a].gen == states[i].gen == states[j].gen
      && Publishes(states[a], key) && KeyTarget(key) in states[i].deny
    ensures var states := ChainStates(c, did, chain);
      KeyTarget(key) in states[j].deny && !Publishes(states[j], key)
    decreases j
  {
    hide Folds, ChainStates;
    if Publishes(ChainStates(c, did, chain)[j], key) && KeyTarget(key) in ChainStates(c, did, chain)[j].deny {
      OwnKeysNeverDenied(c, did, chain, j, key);
    }
    if i < j {
      PositionsForward(c, did, chain, i, j - 1);
      PositionsForward(c, did, chain, j - 1, j);
      RetiredForGood(c, did, chain, a, i, j - 1, key);
      RetiredNext(c, did, chain, a, j, key);
      if Publishes(ChainStates(c, did, chain)[j], key) {
        OwnKeysNeverDenied(c, did, chain, j, key);
      }
    }
  }

  // ---------------------------------------------------------------- members and root keys

  /** No member of a state, live or removed, pins a root key. */
  ghost predicate ClearOfRoot(c: Suite, s: KeyState, roots: RootKeys) {
    && (forall add :: add in s.members ==> !IsRootKey(c, s.members[add].entry.key, roots))
    && (forall add :: add in s.tombstones ==> !IsRootKey(c, s.tombstones[add].key, roots))
  }

  /** A rotate is judged against the root keys of its generation so far, its own included. */
  lemma {:induction false} RootsSoFar(c: Suite, did: Did, chain: seq<ChainEntry>, i: nat)
    requires Folds(c, did, chain) && 0 < i < |chain| && !Skips(chain[i])
    ensures var states := ChainStates(c, did, chain);
      && chain[i].Signed? && chain[i].event.Rotate?
      && RootsWith(chain[i].event, states[i - 1], states[..i]) == RootsOf(states[..i + 1], states[i].gen, states[i].recovery)
  {
    hide Folds, ChainStates, SnapshotFaultOf, Placed, RootsOf, IsDenied, Tombstones, RootsWith, MembersIn, TombstonesIn, DeniesOwnKey;
    StepAt(c, did, chain, i);
    StepForward(c, did, chain, i);
    var states, event := ChainStates(c, did, chain), chain[i].event;
    RootsNext(states, i, states[i].gen, states[i].recovery);
    if IsReset(event, states[i - 1]) {
      forall k | 0 <= k < i ensures states[..i][k].gen != states[i].gen {
        PositionsForward(c, did, chain, k, i - 1);
      }
      NoRootsYet(states[..i], states[i].gen, states[i].recovery);
    }
    RootsJoined(event, states[i - 1], states[..i], states[i]);
  }

  lemma NoRootsYet(states: seq<KeyState>, gen: int, recovery: Digest)
    requires forall k :: 0 <= k < |states| ==> states[k].gen != gen
    ensures RootsOf(states, gen, recovery) == RootKeys({}, {}, recovery)
  {
  }

  lemma RootsJoined(event: ChainEvent, prior: KeyState, chain: seq<KeyState>, state: KeyState)
    requires event.Rotate? && state.keys == event.keys.k && state.agreement == event.keys.ka && state.next == event.keys.n
    requires state.recovery == prior.recovery
    requires if IsReset(event, prior) then RootsOf(chain, state.gen, state.recovery) == RootKeys({}, {}, state.recovery) else state.gen == prior.gen
    ensures RootsWith(event, prior, chain)
      == RootKeys(
        RootsOf(chain, state.gen, state.recovery).keys + Elems(state.keys + state.agreement),
        RootsOf(chain, state.gen, state.recovery).commitments + Elems(state.next),
        state.recovery)
  {
    hide RootsOf;
  }

  lemma SnapshotClear(c: Suite, did: Did, event: ChainEvent, prior: KeyState, roots: RootKeys, tombstones: set<Target>)
    requires event.Rotate? && SnapshotFaultOf(c, SnapshotIn(event), roots, tombstones).None?
    ensures ClearOfRoot(c, StateFrom(c, did, event, prior), roots)
  {
    hide Shaped, IsRootKey, IsDenied, SnapshotIn;
    var snapshot := SnapshotIn(event);
    forall add | add in AddsOf(snapshot.members) ensures !IsRootKey(c, EntryOf(snapshot.members, add).key, roots) {
      assert EntryOf(snapshot.members, add) in snapshot.members + snapshot.removed;
    }
    forall add | add in AddsOf(snapshot.removed) ensures !IsRootKey(c, EntryOf(snapshot.removed, add).key, roots) {
      assert EntryOf(snapshot.removed, add) in snapshot.members + snapshot.removed;
    }
  }

  /** No member, live or removed, pins a key its generation's chain has published or committed to, or the
      recovery key. */
  lemma {:induction false} MembersClearOfRoot(c: Suite, did: Did, chain: seq<ChainEntry>, i: nat)
    requires Folds(c, did, chain) && i < |chain|
    ensures var states := ChainStates(c, did, chain);
      ClearOfRoot(c, states[i], RootsOf(states[..i + 1], states[i].gen, states[i].recovery))
  {
    hide Folds, ChainStates, SnapshotFaultOf, Placed, RootsOf, IsDenied, Tombstones, RootsWith, MembersIn, TombstonesIn, DeniesOwnKey, IsRootKey,
      ClearOfRoot;
    var states := ChainStates(c, did, chain);
    if i == 0 {
      FirstOf(c, did, chain);
      NoMembers(c, states[0], RootsOf(states[..1], states[0].gen, states[0].recovery));
    } else {
      StepAt(c, did, chain, i);
      if Skips(chain[i]) {
        MembersClearOfRoot(c, did, chain, i - 1);
        RootsRepeat(states, i);
      } else {
        var roots := RootsWith(chain[i].event, states[i - 1], states[..i]);
        RootsSoFar(c, did, chain, i);
        assert states[..i][|states[..i]| - 1] == states[i - 1];
        SnapshotClear(c, did, chain[i].event, states[i - 1], roots, Tombstones(chain[i].event, states[i - 1], roots));
      }
    }
  }

  lemma NoMembers(c: Suite, s: KeyState, roots: RootKeys)
    requires s.members == map[] && s.tombstones == map[]
    ensures ClearOfRoot(c, s, roots)
  {
  }

  /** A repeated state adds no root keys. */
  lemma RootsRepeat(states: seq<KeyState>, i: nat)
    requires 0 < i < |states| && states[i] == states[i - 1]
    ensures RootsOf(states[..i + 1], states[i].gen, states[i].recovery) == RootsOf(states[..i], states[i].gen, states[i].recovery)
  {
    var a, b := states[..i + 1], states[..i];
    assert forall s :: s in a <==> s in b by {
      assert a == b + [states[i]] && b[i - 1] == states[i];
    }
  }

  /** No member holds a key the next rotate reveals. */
  lemma {:induction false} NextKeysUnheld(c: Suite, did: Did, chain: seq<ChainEntry>, i: nat, member: MemberEntry)
    requires Folds(c, did, chain) && 0 < i < |chain| && !Skips(chain[i])
    requires var states := ChainStates(c, did, chain);
      states[i].gen == states[i - 1].gen && !IsRootKey(c, member.key, RootsOf(states[..i], states[i - 1].gen, states[i - 1].recovery))
    ensures member.key !in ChainStates(c, did, chain)[i].keys
  {
    hide Folds, ChainStates, SnapshotFaultOf, IsDenied, Tombstones, RootsWith, MembersIn, TombstonesIn, DeniesOwnKey;
    StepAt(c, did, chain, i);
    var states := ChainStates(c, did, chain);
    assert states[..i][|states[..i]| - 1] == states[i - 1];
  }
}
