/** `pruneLog`: the inception, the last generation's chain and the epoch's applied events, and why they fold to the
    same head. Skipped events moved nothing and nothing chains to them; a reset chains to the inception and its
    state owes nothing to what it ends; and the keys a rotate is judged against are read off its own
    generation. So dropping both leaves every remaining event its place and its state. */
module Prune {
  import opened Events
  import opened Members
  import opened Fold
  import opened ChainFacts
  import opened ChainHistory
  import opened SameEpoch

  /** The entries of the first `k` worth keeping: the first, and those of `gen` that changed the digest. */
  function KeptEntries(chain: seq<ChainEntry>, states: seq<KeyState>, gen: int, k: nat): seq<ChainEntry>
    requires k <= |chain| && |states| == |chain|
  {
    if k == 0 then []
    else
      var i := k - 1;
      var rest := KeptEntries(chain, states, gen, i);
      if i == 0 || (states[i].gen == gen && states[i].digest != states[i - 1].digest) then rest + [chain[i]] else rest
  }

  function PrunedChain(c: Suite, did: Did, chain: seq<ChainEntry>): seq<ChainEntry>
    requires Folds(c, did, chain)
  {
    KeptEntries(chain, ChainStates(c, did, chain), HeadState(c, did, chain).gen, |chain|)
  }

  method PruneChain(chain: seq<ChainEntry>, states: seq<KeyState>, gen: int) returns (kept: seq<ChainEntry>)
    requires |states| == |chain|
    ensures kept == KeptEntries(chain, states, gen, |chain|)
  {
    kept := [];
    for i := 0 to |chain|
      invariant kept == KeptEntries(chain, states, gen, i)
    {
      if i == 0 || (states[i].gen == gen && states[i].digest != states[i - 1].digest) {
        kept := kept + [chain[i]];
      }
    }
  }

  lemma {:induction false} KeptOfPrefix(chain: seq<ChainEntry>, states: seq<KeyState>, gen: int, n: nat, k: nat)
    requires k <= n <= |chain| && |states| == |chain|
    ensures KeptEntries(chain[..n], states[..n], gen, k) == KeptEntries(chain, states, gen, k)
  {
    if k > 0 {
      KeptOfPrefix(chain, states, gen, n, k - 1);
    }
  }

  lemma {:induction false} OnlyFirstKept(chain: seq<ChainEntry>, states: seq<KeyState>, gen: int, k: nat)
    requires 0 < k <= |chain| && |states| == |chain| && forall i :: 0 <= i < k ==> states[i].gen != gen
    ensures KeptEntries(chain, states, gen, k) == [chain[0]]
  {
    if k > 1 {
      OnlyFirstKept(chain, states, gen, k - 1);
    }
  }

  /** What an event does hangs only on the state before it and its generation's root keys. */
  lemma StepSame(c: Suite, did: Did, inception: ChainEvent, entry: ChainEntry, a: seq<KeyState>, b: seq<KeyState>)
    requires a != [] && b != [] && inception.Inception? && a[|a| - 1] == b[|b| - 1]
    requires var prior := a[|a| - 1]; RootsOf(a, prior.gen, prior.recovery) == RootsOf(b, prior.gen, prior.recovery)
    ensures StepEvent(c, did, inception, entry, a) == StepEvent(c, did, inception, entry, b)
  {
    hide ResetFault, RotateFault, SnapshotFaultOf, StateFrom, DeniesOwnKey, RootsOf, Tombstones;
  }

  /** A reset folds to the same state on any earlier one of the same recovery key. */
  lemma ResetAnywhere(c: Suite, did: Did, inception: ChainEvent, entry: ChainEntry, a: seq<KeyState>, b: seq<KeyState>)
    requires a != [] && b != [] && inception.Inception? && entry.Signed? && entry.event.Rotate?
    requires IsReset(entry.event, a[|a| - 1]) && IsReset(entry.event, b[|b| - 1])
    requires a[|a| - 1].recovery == b[|b| - 1].recovery
    ensures StepEvent(c, did, inception, entry, a) == StepEvent(c, did, inception, entry, b)
  {
    hide ResetFault, RotateFault, SnapshotFaultOf, DeniesOwnKey, RootsOf, SnapshotIn, MembersIn, TombstonesIn;
  }

  /** One more entry that moves the fold. */
  lemma {:induction false} Grown(c: Suite, did: Did, chain: seq<ChainEntry>, entry: ChainEntry)
    requires Folds(c, did, chain)
    requires var step := StepEvent(c, did, chain[0].event, entry, ChainStates(c, did, chain)); step.Stepped? && !step.skipped
    ensures Folds(c, did, chain + [entry])
    ensures HeadState(c, did, chain + [entry]) == StepEvent(c, did, chain[0].event, entry, ChainStates(c, did, chain)).state
  {
    hide StepEvent, InitFold;
    assert (chain + [entry])[..|chain|] == chain;
  }

  lemma {:induction false} LastMoves(c: Suite, did: Did, chain: seq<ChainEntry>)
    requires Folds(c, did, chain) && |chain| > 1 && !Skips(chain[|chain| - 1])
    ensures var n := |chain| - 1;
      && Folds(c, did, chain[..n]) && chain[n].Signed? && chain[n].event.Rotate?
      && var step := StepEvent(c, did, chain[0].event, chain[n], ChainStates(c, did, chain[..n]));
      && step.Stepped? && !step.skipped && step.state == HeadState(c, did, chain)
  {
    hide StepEvent, Rotated, Folds, ChainStates;
    LastStep(c, did, chain);
    var n := |chain| - 1;
    StepMeans(c, did, chain[0].event, chain[n], ChainStates(c, did, chain[..n]));
    StepAt(c, did, chain, n);
    assert Rotated(c, did, chain[0].event, chain[n].event, ChainStates(c, did, chain)[..n], ChainStates(c, did, chain)[n]);
    RotatedIs(c, did, chain[0].event, chain[n].event, ChainStates(c, did, chain)[..n], ChainStates(c, did, chain)[n]);
  }

  lemma RotatedIs(c: Suite, did: Did, inception: ChainEvent, event: ChainEvent, chain: seq<KeyState>, state: KeyState)
    requires chain != [] && inception.Inception? && Rotated(c, did, inception, event, chain, state)
    ensures event.Rotate?
  {
  }

  /** A pruned chain folds, and to the same state. */
  lemma {:induction false} PrunedFolds(c: Suite, did: Did, chain: seq<ChainEntry>)
    requires Sound(c) && Folds(c, did, chain)
    ensures var pruned := PrunedChain(c, did, chain);
      && Folds(c, did, pruned) && pruned != [] && pruned[0] == chain[0]
      && HeadState(c, did, pruned) == HeadState(c, did, chain)
  {
    hide Folds, ChainStates, StepEvent, KeptEntries, Sound;
    var states := ChainStates(c, did, chain);
    assert |states| == |chain|;
    var n := |chain| - 1;
    if n == 0 {
      KeptOne(chain, states, states[0].gen);
      assert chain == [chain[0]];
    } else {
      PrefixFolds(c, did, chain, n);
      StepForward(c, did, chain, n);
      KeptOfPrefix(chain, states, states[n].gen, n, n);
      KeptLast(chain, states, states[n].gen);
      assert HeadState(c, did, chain[..n]) == states[n - 1];
      if Skips(chain[n]) {
        PrunedFolds(c, did, chain[..n]);
      } else {
        LastMoves(c, did, chain);
        HeadGen(c, did, chain);
        if states[n].gen != states[n - 1].gen {
          PrunedAfterReset(c, did, chain);
        } else {
          PrunedFolds(c, did, chain[..n]);
          PrunedOnward(c, did, chain, PrunedChain(c, did, chain[..n]));
        }
      }
    }
  }

  lemma KeptOne(chain: seq<ChainEntry>, states: seq<KeyState>, gen: int)
    requires |chain| == 1 && |states| == 1
    ensures KeptEntries(chain, states, gen, 1) == [chain[0]]
  {
    assert KeptEntries(chain, states, gen, 0) == [];
  }

  lemma KeptLast(chain: seq<ChainEntry>, states: seq<KeyState>, gen: int)
    requires |chain| == |states| && |chain| > 1
    ensures var n := |chain| - 1;
      KeptEntries(chain, states, gen, |chain|)
      == if states[n].gen == gen && states[n].digest != states[n - 1].digest
        then KeptEntries(chain, states, gen, n) + [chain[n]]
        else KeptEntries(chain, states, gen, n)
  {
  }

  lemma {:induction false} PrunedOnward(c: Suite, did: Did, chain: seq<ChainEntry>, pruned: seq<ChainEntry>)
    requires Sound(c) && Folds(c, did, chain) && |chain| > 1 && !Skips(chain[|chain| - 1])
    requires Folds(c, did, chain[..|chain| - 1]) && Folds(c, did, pruned) && pruned != [] && pruned[0] == chain[0]
    requires HeadState(c, did, pruned) == HeadState(c, did, chain[..|chain| - 1])
    ensures Folds(c, did, pruned + [chain[|chain| - 1]])
    ensures HeadState(c, did, pruned + [chain[|chain| - 1]]) == HeadState(c, did, chain)
  {
    hide Folds, ChainStates, StepEvent, Sound, Top, RootsOf;
    var n := |chain| - 1;
    var a, b := ChainStates(c, did, chain[..n]), ChainStates(c, did, pruned);
    LastMoves(c, did, chain);
    SameHistory(c, did, chain[..n], pruned);
    TopMeans(c, did, chain[..n]);
    TopMeans(c, did, pruned);
    SameRoots(a, b, a[n - 1].gen, a[n - 1].recovery);
    StepSame(c, did, chain[0].event, chain[n], a, b);
    Grown(c, did, pruned, chain[n]);
  }

  lemma {:induction false} PrunedAfterReset(c: Suite, did: Did, chain: seq<ChainEntry>)
    requires Sound(c) && Folds(c, did, chain) && |chain| > 1 && !Skips(chain[|chain| - 1])
    requires ChainStates(c, did, chain)[|chain| - 1].gen != ChainStates(c, did, chain)[|chain| - 2].gen
    ensures var pruned := PrunedChain(c, did, chain);
      && Folds(c, did, pruned) && pruned != [] && pruned[0] == chain[0]
      && HeadState(c, did, pruned) == HeadState(c, did, chain)
  {
    hide Folds, ChainStates, StepEvent, Sound, KeptEntries;
    var states := ChainStates(c, did, chain);
    var n := |chain| - 1;
    forall i | 0 <= i < n ensures states[i].gen != states[n].gen && states[i].gen <= states[n - 1].gen {
      PositionsForward(c, did, chain, i, n - 1);
      StepForward(c, did, chain, n);
    }
    OnlyFirstKept(chain, states, states[n].gen, n);
    StepForward(c, did, chain, n);
    KeptLast(chain, states, states[n].gen);
    PrefixFolds(c, did, chain, 1);
    PrefixFolds(c, did, chain, n);
    LastMoves(c, did, chain);
    HeadGen(c, did, chain);
    StatesDid(c, did, chain, 0);
    StatesDid(c, did, chain, n - 1);
    var first := chain[..1];
    assert first == [chain[0]] && first[0] == chain[0];
    ResetAnywhere(c, did, chain[0].event, chain[n], ChainStates(c, did, chain[..n]), ChainStates(c, did, first));
    Grown(c, did, first, chain[n]);
  }
}
