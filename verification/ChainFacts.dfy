/** What holds of every chain that folds: positions only move forward, retired keys stay retired, and no
    member ever holds a root key. */
module ChainFacts {
  import opened Basics
  import opened Events
  import opened Members
  import opened Fold

  // ---------------------------------------------------------------- one step

  /** What an accepted event was: a skipped one changed nothing, any other is a rotate whose state it made. */
  lemma StepMeans(c: Suite, did: Did, inception: ChainEvent, entry: ChainEntry, chain: seq<KeyState>)
    requires chain != [] && inception.Inception? && StepEvent(c, did, inception, entry, chain).Stepped?
    ensures var step, prior := StepEvent(c, did, inception, entry, chain), chain[|chain| - 1];
      && entry.Signed? && step.skipped == entry.event.Unknown?
      && (step.skipped ==> step.state == prior)
      && (!step.skipped ==> Rotated(c, did, inception, entry.event, chain, step.state))
  {
    hide VerifyReset, VerifyRotate, SnapshotFaultOf, RootsWith, Tombstones, StateFrom, DeniesOwnKey;
    if entry.event.Rotate? {
      RotateMeans(c, did, inception, entry, chain);
    }
  }

  /** Where a rotate stands: a reset after the inception, any other after its prior, whose commitment it
      reveals. */
  ghost predicate Placed(c: Suite, inception: ChainEvent, event: ChainEvent, prior: KeyState)
    requires event.Rotate? && inception.Inception?
  {
    if IsReset(event, prior) then event.p == Digested(c, inception) && event.s == 0
    else
      && event.p == prior.digest && event.g == prior.gen && event.s == prior.sequence + 1
      && (forall key :: key in event.keys.k ==> c.keyDigest(key) in prior.next)
  }

  ghost predicate Rotated(c: Suite, did: Did, inception: ChainEvent, event: ChainEvent, chain: seq<KeyState>, state: KeyState)
    requires chain != [] && inception.Inception?
  {
    && event.Rotate?
    && var prior := chain[|chain| - 1];
    && var roots := RootsWith(event, prior, chain);
    && Placed(c, inception, event, prior)
    && SnapshotFaultOf(c, SnapshotIn(event), roots, Tombstones(event, prior, roots)).None?
    && !DeniesOwnKey(event.keys, Elems(SnapshotIn(event).deny))
    && state == StateFrom(c, did, event, prior)
  }

  lemma RotateMeans(c: Suite, did: Did, inception: ChainEvent, entry: ChainEntry, chain: seq<KeyState>)
    requires chain != [] && inception.Inception? && entry.Signed? && entry.event.Rotate?
    requires StepRotate(c, did, inception, entry, chain).Stepped?
    ensures !StepRotate(c, did, inception, entry, chain).skipped
    ensures Rotated(c, did, inception, entry.event, chain, StepRotate(c, did, inception, entry, chain).state)
  {
    hide SnapshotFaultOf, RootsWith, Tombstones, StateFrom, DeniesOwnKey, VerifySignatures, ResetSnapshotFits;
    var prior, event := chain[|chain| - 1], entry.event;
    if !IsReset(event, prior) {
      assert VerifyRotate(c, event, entry.sigs, prior.digest, prior.next);
      forall key | key in event.keys.k ensures c.keyDigest(key) in prior.next {
        var j :| 0 <= j < |event.keys.k| && event.keys.k[j] == key;
        assert c.keyDigest(event.keys.k[j]) == prior.next[j];
      }
    }
  }

  // ---------------------------------------------------------------- prefixes

  predicate Folds(c: Suite, did: Did, chain: seq<ChainEntry>) {
    ChainFoldOf(c, did, chain).Folded?
  }

  function ChainStates(c: Suite, did: Did, chain: seq<ChainEntry>): (states: seq<KeyState>)
    requires Folds(c, did, chain)
    ensures |states| == |chain| && chain != [] && chain[0].Signed? && chain[0].event.Inception?
  {
    ChainFoldOf(c, did, chain).states
  }

  lemma LastStep(c: Suite, did: Did, chain: seq<ChainEntry>)
    requires Folds(c, did, chain) && |chain| > 1
    ensures var n := |chain| - 1;
      && Folds(c, did, chain[..n])
      && ChainStates(c, did, chain)[..n] == ChainStates(c, did, chain[..n])
      && var step := StepEvent(c, did, chain[0].event, chain[n], ChainStates(c, did, chain[..n]));
      && step.Stepped? && step.state == ChainStates(c, did, chain)[n]
  {
    hide StepEvent, InitFold;
  }

  lemma FirstStep(c: Suite, did: Did, chain: seq<ChainEntry>)
    requires Folds(c, did, chain) && |chain| == 1
    ensures ChainStates(c, did, chain) == [FirstState(c, did, chain[0].event)]
    ensures Kokuin(Digested(c, chain[0].event)) == did
  {
    hide StepEvent;
  }

  /** A prefix of a chain that folds, folds to a prefix of its states. */
  lemma {:induction false} PrefixFolds(c: Suite, did: Did, chain: seq<ChainEntry>, k: nat)
    requires Folds(c, did, chain) && 0 < k <= |chain|
    ensures Folds(c, did, chain[..k]) && ChainStates(c, did, chain[..k]) == ChainStates(c, did, chain)[..k]
  {
    hide Folds, ChainStates;
    if k == |chain| {
      assert chain[..k] == chain;
    } else {
      var n := |chain| - 1;
      LastStep(c, did, chain);
      PrefixFolds(c, did, chain[..n], k);
      assert chain[..n][..k] == chain[..k];
    }
  }

  lemma {:induction false} FirstOf(c: Suite, did: Did, chain: seq<ChainEntry>)
    requires Folds(c, did, chain)
    ensures ChainStates(c, did, chain)[0] == FirstState(c, did, chain[0].event)
    ensures Kokuin(Digested(c, chain[0].event)) == did
  {
    hide Folds, ChainStates, FirstState;
    assert |ChainStates(c, did, chain)| != 0;
    PrefixFolds(c, did, chain, 1);
    FirstStep(c, did, chain[..1]);
  }

  predicate Skips(entry: ChainEntry) {
    entry.Signed? && entry.event.Unknown?
  }

  /** How each state came of the ones before it. */
  lemma {:induction false} StepAt(c: Suite, did: Did, chain: seq<ChainEntry>, i: nat)
    requires Folds(c, did, chain) && 0 < i < |chain|
    ensures var states := ChainStates(c, did, chain);
      && if Skips(chain[i]) then states[i] == states[i - 1]
         else chain[i].Signed? && Rotated(c, did, chain[0].event, chain[i].event, states[..i], states[i])
  {
    hide Folds, ChainStates, StepEvent, Rotated;
    PrefixFolds(c, did, chain, i + 1);
    PrefixFolds(c, did, chain, i);
    LastStep(c, did, chain[..i + 1]);
    assert chain[..i + 1][..i] == chain[..i];
    StepMeans(c, did, chain[0].event, chain[i], ChainStates(c, did, chain[..i]));
  }

  // ---------------------------------------------------------------- positions and digests

  /** The event whose digest a state carries. */
  ghost predicate OwnEvent(c: Suite, event: ChainEvent, state: KeyState) {
    && !event.Unknown? && state.digest == Digested(c, event) && state.epoch == state.digest
    && state.gen == event.g && state.sequence == event.s
    && state.keys == event.keys.k && state.agreement == event.keys.ka && state.next == event.keys.n
  }

  ghost predicate Owned(c: Suite, state: KeyState) {
    exists event :: OwnEvent(c, event, state)
  }

  lemma {:induction false} StatesOwned(c: Suite, did: Did, chain: seq<ChainEntry>, i: nat)
    requires Folds(c, did, chain) && i < |chain|
    ensures Owned(c, ChainStates(c, did, chain)[i])
    ensures !Skips(chain[i]) ==> chain[i].Signed? && OwnEvent(c, chain[i].event, ChainStates(c, did, chain)[i])
  {
    hide Folds, ChainStates, RootsWith, Tombstones, SnapshotFaultOf, DeniesOwnKey, Placed;
    if i == 0 {
      FirstOf(c, did, chain);
      assert OwnEvent(c, chain[0].event, ChainStates(c, did, chain)[0]);
    } else {
      StepAt(c, did, chain, i);
      if Skips(chain[i]) {
        StatesOwned(c, did, chain, i - 1);
      } else {
        assert OwnEvent(c, chain[i].event, ChainStates(c, did, chain)[i]);
      }
    }
  }

  lemma OneEvent(c: Suite, a: ChainEvent, b: ChainEvent)
    requires Sound(c) && Digested(c, a) == Digested(c, b)
    ensures a == b
  {
    assert OfChain(a) == OfChain(b);
  }

  /** `a` stands before `b`, a reset aside from any sequence. */
  predicate Before(a: KeyState, b: KeyState) {
    a.gen < b.gen || (a.gen == b.gen && a.sequence < b.sequence)
  }

  /** Positions only move forward, and exactly the skipped entries leave the digest where it was. */
  lemma {:induction false} StepForward(c: Suite, did: Did, chain: seq<ChainEntry>, i: nat)
    requires Folds(c, did, chain) && 0 < i < |chain|
    ensures var prior, state := ChainStates(c, did, chain)[i - 1], ChainStates(c, did, chain)[i];
      && state.recovery == prior.recovery && state.did == prior.did
      && (Skips(chain[i]) ==> state == prior)
      && (!Skips(chain[i]) ==> Before(prior, state))
      && (Sound(c) && !Skips(chain[i]) ==> state.digest != prior.digest)
  {
    hide Folds, ChainStates, RootsWith, Tombstones, SnapshotFaultOf, DeniesOwnKey, Sound;
    StepAt(c, did, chain, i);
    StatesOwned(c, did, chain, i - 1);
    StatesDid(c, did, chain, i - 1);
    var prior, state := ChainStates(c, did, chain)[i - 1], ChainStates(c, did, chain)[i];
    if !Skips(chain[i]) && Sound(c) && state.digest == prior.digest {
      var event :| OwnEvent(c, event, prior);
      OneEvent(c, event, chain[i].event);
    }
  }

  lemma {:induction false} StatesDid(c: Suite, did: Did, chain: seq<ChainEntry>, i: nat)
    requires Folds(c, did, chain) && i < |chain|
    ensures ChainStates(c, did, chain)[i].did == did
    ensures ChainStates(c, did, chain)[i].recovery == chain[0].event.r
  {
    hide Folds, ChainStates, RootsWith, Tombstones, SnapshotFaultOf, DeniesOwnKey, Placed;
    if i == 0 {
      FirstOf(c, did, chain);
    } else {
      StepAt(c, did, chain, i);
      StatesDid(c, did, chain, i - 1);
    }
  }

  /** Along a chain, positions never go back, and a repeated position is a repeated state. */
  lemma {:induction false} PositionsForward(c: Suite, did: Did, chain: seq<ChainEntry>, i: nat, j: nat)
    requires Folds(c, did, chain) && i <= j < |chain|
    ensures var a, b := ChainStates(c, did, chain)[i], ChainStates(c, did, chain)[j];
      a == b || Before(a, b)
    decreases j
  {
    hide Folds, ChainStates;
    if i < j {
      PositionsForward(c, did, chain, i, j - 1);
      StepForward(c, did, chain, j);
    }
  }
}
