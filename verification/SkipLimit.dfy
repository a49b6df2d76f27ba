/** How many events a chain may skip: at every point no more than it has understood, and eight besides. */
module SkipLimit {
  import opened Events
  import opened Fold
  import opened ChainFacts

  /** The entries of a chain that no reader understands. */
  function SkippedIn(chain: seq<ChainEntry>): (n: nat)
    ensures n <= |chain|
  {
    if chain == [] then 0
    else SkippedIn(chain[..|chain| - 1]) + if Skips(chain[|chain| - 1]) then 1 else 0
  }

  /** At most eight more entries skipped than understood. */
  predicate WithinSlack(chain: seq<ChainEntry>) {
    SkippedIn(chain) <= |chain| - SkippedIn(chain) + MAX_SKIPPED_SLACK
  }

  lemma {:induction false} SkipsCounted(c: Suite, did: Did, chain: seq<ChainEntry>)
    requires Folds(c, did, chain)
    ensures ChainFoldOf(c, did, chain).skipped == SkippedIn(chain)
  {
    hide InitFold, StepEvent;
    var n := |chain| - 1;
    if n == 0 {
      FirstEntry(c, did, chain);
      assert chain[..1] == chain && chain[..0] == [];
    } else {
      SkipsCounted(c, did, chain[..n]);
      StepMeans(c, did, chain[0].event, chain[n], ChainStates(c, did, chain[..n]));
    }
  }

  /** Every prefix of a chain that folds keeps within the slack, so padding cannot outgrow what is understood. */
  lemma {:induction false} SkipsLimited(c: Suite, did: Did, chain: seq<ChainEntry>, k: nat)
    requires Folds(c, did, chain) && 0 < k <= |chain|
    ensures WithinSlack(chain[..k])
  {
    hide InitFold, StepEvent;
    PrefixFolds(c, did, chain, k);
    var start := chain[..k];
    SkipsCounted(c, did, start);
    if k > 1 {
      SkipsCounted(c, did, start[..k - 1]);
      StepMeans(c, did, start[0].event, start[k - 1], ChainStates(c, did, start[..k - 1]));
      SkipsLimited(c, did, chain, k - 1);
      assert start[..k - 1] == chain[..k - 1];
    } else {
      FirstEntry(c, did, chain);
    }
  }

  /** An entry stands where it would be skipped: the chain before it folds and the event says it may be. */
  ghost predicate Skippable(c: Suite, did: Did, chain: seq<ChainEntry>, n: nat) {
    && 0 < n < |chain| && Folds(c, did, chain[..n])
    && var step := StepEvent(c, did, chain[0].event, chain[n], ChainStates(c, did, chain[..n]));
    && step.Stepped? && step.skipped
  }

  /** A chain is refused for too many unknown events exactly at the first prefix that leaves the slack. */
  lemma {:induction false} TooManyIff(c: Suite, did: Did, chain: seq<ChainEntry>, n: nat)
    ensures ChainFoldOf(c, did, chain) == Unfoldable(TooManyUnknown, n)
      <==> Skippable(c, did, chain, n) && !WithinSlack(chain[..n + 1])
  {
    hide InitFold, StepEvent;
    if Skippable(c, did, chain, n) {
      SkipsCounted(c, did, chain[..n]);
      StepMeans(c, did, chain[0].event, chain[n], ChainStates(c, did, chain[..n]));
      assert chain[..n + 1][..n] == chain[..n];
      NextEntry(c, did, chain, n, ChainStates(c, did, chain[..n]), SkippedIn(chain[..n]));
      if !WithinSlack(chain[..n + 1]) {
        UnfoldableStays(c, did, chain, n + 1);
      } else if ChainFoldOf(c, did, chain) == Unfoldable(TooManyUnknown, n) {
        RefusedAt(c, did, chain, n);
      }
    } else if ChainFoldOf(c, did, chain) == Unfoldable(TooManyUnknown, n) {
      RefusedAt(c, did, chain, n);
    }
  }

  lemma {:induction false} RefusedAt(c: Suite, did: Did, chain: seq<ChainEntry>, n: nat)
    requires ChainFoldOf(c, did, chain) == Unfoldable(TooManyUnknown, n)
    ensures Skippable(c, did, chain, n) && ChainFoldOf(c, did, chain[..n + 1]) == Unfoldable(TooManyUnknown, n)
  {
    hide StepEvent, InitFold;
    if |chain| <= 1 {
      FirstFault(c, did, chain);
    } else {
      var last := |chain| - 1;
      if ChainFoldOf(c, did, chain[..last]).Unfoldable? {
        RefusedAt(c, did, chain[..last], n);
        assert chain[..last][..n] == chain[..n] && chain[..last][..n + 1] == chain[..n + 1];
      } else {
        assert chain[..last + 1] == chain;
        StepFault(c, did, chain[0].event, chain[last], ChainStates(c, did, chain[..last]));
      }
    }
  }

  lemma FirstFault(c: Suite, did: Did, chain: seq<ChainEntry>)
    requires |chain| <= 1
    ensures ChainFoldOf(c, did, chain).Unfoldable? ==> ChainFoldOf(c, did, chain).fault != TooManyUnknown
  {
  }

  lemma StepFault(c: Suite, did: Did, inception: ChainEvent, entry: ChainEntry, states: seq<KeyState>)
    requires states != [] && inception.Inception?
    ensures StepEvent(c, did, inception, entry, states).Failed? ==> StepEvent(c, did, inception, entry, states).fault != TooManyUnknown
  {
  }
}
