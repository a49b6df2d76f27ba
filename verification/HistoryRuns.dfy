/** Runs of `authoritativeLog`: remembered heads never go back. */
module HistoryRuns {
  // Each call is fed the answer of the one before it. What the runs keep of an epoch is in `HistoryMemory`.

  import opened Basics
  import opened Events
  import opened ChainFacts
  import opened ChainHistory
  import opened Branches
  import opened Resolve
  import opened LogFolds
  import opened Log
  import opened History

  /** `b`'s head stands no earlier than `a`'s, and within one generation `b` passes through all of `a`'s. */
  ghost predicate NotBack(c: Suite, did: Did, a: Chain, b: Chain) {
    && Folds(c, did, a) && Folds(c, did, b)
    && (HeadState(c, did, a) == HeadState(c, did, b) || Before(HeadState(c, did, a), HeadState(c, did, b)))
    && (HeadState(c, did, a).gen == HeadState(c, did, b).gen ==> Top(c, did, a) <= Top(c, did, b))
  }

  lemma {:induction false} PassingIsNotBack(c: Suite, did: Did, a: Chain, b: Chain)
    requires Sound(c) && Folds(c, did, a) && Folds(c, did, b) && PassesThrough(c, did, b, HeadState(c, did, a).digest)
    ensures NotBack(c, did, a, b)
  {
    hide Folds, ChainStates, Top, HeadState, Sound;
    var states := ChainStates(c, did, b);
    assert |states| == |b|;
    var s :| s in states && s.digest == HeadState(c, did, a).digest;
    var k :| 0 <= k < |b| && states[k] == s;
    HeadOfPrefix(c, did, b, k);
    SameHistory(c, did, a, b[..k + 1]);
    HeadIsLast(c, did, b);
    PositionsForward(c, did, b, k, |b| - 1);
    if HeadState(c, did, a).gen == HeadState(c, did, b).gen {
      TopMeans(c, did, a);
      TopMeans(c, did, b);
      PrefixAt(c, did, a, b, s);
    }
  }

  lemma {:induction false} HeadIsLast(c: Suite, did: Did, b: Chain)
    requires Folds(c, did, b)
    ensures b != [] && HeadState(c, did, b) == ChainStates(c, did, b)[|b| - 1]
  {
    hide Folds, ChainStates;
    assert |ChainStates(c, did, b)| == |b|;
  }

  lemma {:induction false} HeadOfPrefix(c: Suite, did: Did, b: Chain, k: nat)
    requires Folds(c, did, b) && k < |b|
    ensures Folds(c, did, b[..k + 1]) && HeadState(c, did, b[..k + 1]) == ChainStates(c, did, b)[k]
  {
    hide Folds, ChainStates;
    PrefixFolds(c, did, b, k + 1);
  }

  lemma {:induction false} PrefixAt(c: Suite, did: Did, a: Chain, b: Chain, s: KeyState)
    requires Sound(c) && Folds(c, did, a) && Folds(c, did, b) && s in Top(c, did, b) && s.digest == HeadState(c, did, a).digest
    ensures Top(c, did, a) <= Top(c, did, b)
  {
    hide Folds, ChainStates, Top, HeadState, Sound;
    var x, y := Top(c, did, a), Top(c, did, b);
    TopMeans(c, did, a);
    TopsShareHistory(c, did, a, b);
    var j :| 0 <= j < |y| && y[j] == s;
    assert x[|x| - 1].digest == y[j].digest;
    assert x[..|x| - 1 + 1] == x;
  }

  /** A chain that wins without passing through the remembered head is of a higher generation: within one
      generation, a winner would already be an extension. */
  lemma {:induction false} BranchWinIsReset(c: Suite, did: Did, memory: Chain, loaded: Chain, chain: Chain)
    requires Sound(c) && Folds(c, did, memory) && Folds(c, did, loaded) && Folds(c, did, chain) && chain in [memory, loaded]
    requires IsOutcome(c, did, [memory, loaded], Wins(Top(c, did, chain)))
    requires HeadState(c, did, chain).digest == HeadState(c, did, loaded).digest
    requires !PassesThrough(c, did, loaded, HeadState(c, did, memory).digest)
    ensures HeadState(c, did, memory).gen < HeadState(c, did, chain).gen
  {
    hide Folds, ChainStates, Top, Sound, IsOutcome, HeadState, PassesThrough;
    WinnerExtends(c, did, [memory, loaded], chain, memory);
    if HeadState(c, did, memory).gen == HeadState(c, did, chain).gen {
      ExtensionPasses(c, did, memory, loaded, chain);
    }
  }

  lemma {:induction false} ExtensionPasses(c: Suite, did: Did, memory: Chain, loaded: Chain, chain: Chain)
    requires Sound(c) && Folds(c, did, memory) && Folds(c, did, loaded) && Folds(c, did, chain)
    requires HeadState(c, did, chain).digest == HeadState(c, did, loaded).digest && Top(c, did, memory) <= Top(c, did, chain)
    ensures PassesThrough(c, did, loaded, HeadState(c, did, memory).digest)
  {
    hide Folds, ChainStates, Top, Sound, HeadState;
    SameHistory(c, did, chain, loaded);
    TopMeans(c, did, memory);
    TopMeans(c, did, loaded);
    var x, y := Top(c, did, memory), Top(c, did, loaded);
    assert y[|x| - 1] == x[|x| - 1];
    assert HeadState(c, did, memory) in ChainStates(c, did, loaded);
  }

  /** A remembered head never goes back. */
  lemma {:induction false} HeadNeverBack(c: Suite, did: Did, seen: ControllerLog, loaded: ControllerLog, maxEvents: nat, log: ControllerLog, fold: LogFold)
    requires Sound(c) && Folds(c, did, seen.chain) && IsAnswer(c, did, Some(seen), loaded, maxEvents, log, fold)
    ensures NotBack(c, did, seen.chain, log.chain)
  {
    hide Folds, ChainStates, Top, Sound, IsOutcome, HeadState, PassesThrough;
    var memory := Recall(c, did, Some(seen));
    if PassesThrough(c, did, loaded.chain, HeadState(c, did, seen.chain).digest) {
      PassingIsNotBack(c, did, seen.chain, loaded.chain);
    } else {
      BranchWinIsReset(c, did, seen.chain, loaded.chain, log.chain);
    }
  }

  lemma NotBackTransitive(c: Suite, did: Did, x: Chain, y: Chain, z: Chain)
    requires NotBack(c, did, x, y) && NotBack(c, did, y, z)
    ensures NotBack(c, did, x, z)
  {
    hide Folds, HeadState, Top;
  }

  // ---------------------------------------------------------------- runs

  /** `logs[i + 1]` is what was answered when `loads[i]` was presented to `logs[i]`. */
  ghost predicate IsRun(c: Suite, did: Did, maxEvents: nat, logs: seq<ControllerLog>, loads: seq<ControllerLog>) {
    && |logs| == |loads| + 1 && Folds(c, did, logs[0].chain)
    && (forall i :: 0 <= i < |loads| ==> Follows(c, did, maxEvents, logs[i], loads[i], logs[i + 1]))
  }

  ghost predicate Follows(c: Suite, did: Did, maxEvents: nat, seen: ControllerLog, loaded: ControllerLog, log: ControllerLog) {
    exists fold :: IsAnswer(c, did, Some(seen), loaded, maxEvents, log, fold)
  }

  /** Over any run of answers, remembered heads never go back: generation and sequence are lexicographically
      non-decreasing, and within one generation every later chain passes through every earlier head. */
  lemma {:induction false} RunNeverBack(c: Suite, did: Did, maxEvents: nat, logs: seq<ControllerLog>, loads: seq<ControllerLog>, i: nat, j: nat)
    requires Sound(c) && IsRun(c, did, maxEvents, logs, loads) && i <= j < |logs|
    ensures NotBack(c, did, logs[i].chain, logs[j].chain)
    decreases j
  {
    hide IsAnswer, NotBack, Folds, Sound;
    if i == j {
      RunFolds(c, did, maxEvents, logs, loads, j);
      StandsStill(c, did, logs[j].chain);
    } else {
      RunNeverBack(c, did, maxEvents, logs, loads, i, j - 1);
      RunFolds(c, did, maxEvents, logs, loads, j - 1);
      assert Follows(c, did, maxEvents, logs[j - 1], loads[j - 1], logs[j - 1 + 1]);
      var fold :| IsAnswer(c, did, Some(logs[j - 1]), loads[j - 1], maxEvents, logs[j], fold);
      HeadNeverBack(c, did, logs[j - 1], loads[j - 1], maxEvents, logs[j], fold);
      NotBackTransitive(c, did, logs[i].chain, logs[j - 1].chain, logs[j].chain);
    }
  }

  lemma StandsStill(c: Suite, did: Did, chain: Chain)
    requires Folds(c, did, chain)
    ensures NotBack(c, did, chain, chain)
  {
  }

  lemma {:induction false} RunFolds(c: Suite, did: Did, maxEvents: nat, logs: seq<ControllerLog>, loads: seq<ControllerLog>, j: nat)
    requires IsRun(c, did, maxEvents, logs, loads) && j < |logs|
    ensures Folds(c, did, logs[j].chain)
  {
    hide Folds, ChainStates, Top, IsOutcome, HeadState, PassesThrough, WithEpochOf;
    if j > 0 {
      assert Follows(c, did, maxEvents, logs[j - 1], loads[j - 1], logs[j - 1 + 1]);
    }
  }
}
