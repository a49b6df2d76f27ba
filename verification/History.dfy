/** `authoritativeLog`: what a party answers from, and remembers, when a log is loaded. */
module History {
  import opened Basics
  import opened Events
  import opened Fold
  import opened ChainFacts
  import opened ChainHistory
  import opened Branches
  import opened Resolve
  import opened SelectWinner
  import opened EpochSpec
  import opened EpochKept
  import opened EpochMerge
  import opened LogFolds
  import opened Log

  datatype Refusal =
    | Invalid(reason: LogFault, index: int)
    | LogForked(duplicity: Duplicity)
    | NotAuthoritative

  /** What a call comes to: a log with its fold, or a refusal. */
  datatype Answer = Answered(log: ControllerLog, fold: LogFold) | Declined(refusal: Refusal)

  /** A remembered log and the head its chain folds to. */
  datatype Memory = Memory(log: ControllerLog, head: KeyState)

  /** The stored log, when its chain folds: a log that does not is no memory. */
  function Recall(c: Suite, did: Did, seen: Option<ControllerLog>): (memory: Option<Memory>) {
    if seen.Some? && Folds(c, did, seen.value.chain) then Some(Memory(seen.value, HeadState(c, did, seen.value.chain))) else None
  }

  ghost predicate Remembered(c: Suite, did: Did, memory: Option<Memory>) {
    memory.Some? ==> Folds(c, did, memory.value.log.chain) && memory.value.head == HeadState(c, did, memory.value.log.chain)
  }

  /** Whether a chain passes through a head. */
  predicate PassesThrough(c: Suite, did: Did, chain: Chain, digest: Digest)
    requires Folds(c, did, chain)
  {
    exists s :: s in ChainStates(c, did, chain) && s.digest == digest
  }

  function TrustedOf(memory: Option<Memory>): seq<EpochEntry> {
    if memory.Some? then memory.value.log.events else []
  }

  /** Which chain is settled: the loaded one when it passes through the remembered head, else what branch
      resolution names, as long as that ends where the loaded one does. */
  ghost predicate Settles(c: Suite, did: Did, memory: Option<Memory>, loaded: Chain, chain: Chain) {
    && Folds(c, did, loaded) && Folds(c, did, chain)
    && if memory.None? || PassesThrough(c, did, loaded, memory.value.head.digest) then chain == loaded
       else
         && chain in [memory.value.log.chain, loaded]
         && IsOutcome(c, did, [memory.value.log.chain, loaded], Wins(Top(c, did, chain)))
         && HeadState(c, did, chain).digest == HeadState(c, did, loaded).digest
  }

  /** What an answer holds: the settled chain, the fold of memory and presentation on it, and of its epoch
      what is kept. */
  ghost predicate IsAnswer(c: Suite, did: Did, seen: Option<ControllerLog>, loaded: ControllerLog, maxEvents: nat,
      log: ControllerLog, fold: LogFold)
  {
    && |loaded.events| <= MAX_LOG_EVENTS
    && Settles(c, did, Recall(c, did, seen), loaded.chain, log.chain)
    && fold == WithEpochOf(c, did, ChainStates(c, did, log.chain), TrustedOf(Recall(c, did, seen)), loaded.events, maxEvents)
    && fold.LogFolded? && fold.epoch.Merged?
    && log.events == Entries(CopiesIn(fold.epoch.authentic, KeptOrder(fold.epoch, maxEvents)))
  }

  /** Why a log is declined: a request limit or an entry that does not fold, a fork with memory, or a chain
      that memory's outranks. */
  ghost predicate Justified(c: Suite, did: Did, seen: Option<ControllerLog>, loaded: ControllerLog, maxEvents: nat, refusal: Refusal) {
    var memory := Recall(c, did, seen);
    match refusal
    case Invalid(reason, index) =>
      || (reason == LogTooLarge && |loaded.events| > MAX_LOG_EVENTS)
      || (reason.ChainFault? && var r := ChainFoldOf(c, did, loaded.chain); r.Unfoldable? && r.fault == reason.fault && r.index == index)
      || (reason == FailedSignatures && exists chain ::
        (Settles(c, did, memory, loaded.chain, chain)
        && WithEpochOf(c, did, ChainStates(c, did, chain), TrustedOf(memory), loaded.events, maxEvents).LogRefused?))
    case LogForked(report) =>
      memory.Some? && IsOutcome(c, did, [memory.value.log.chain, loaded.chain], Forks(report))
    case NotAuthoritative =>
      && memory.Some? && Folds(c, did, loaded.chain)
      && IsOutcome(c, did, [memory.value.log.chain, loaded.chain], Wins(Top(c, did, memory.value.log.chain)))
      && memory.value.head.digest != HeadState(c, did, loaded.chain).digest
  }

  method RecallLog(c: Suite, did: Did, seen: Option<ControllerLog>) returns (memory: Option<Memory>)
    requires Sound(c)
    ensures memory == Recall(c, did, seen)
  {
    hide FoldLogOf, Folds;
    if seen.None? {
      return None;
    }
    ChainAlone(c, did, seen.value.chain);
    var folded := FoldLog(c, did, seen.value.chain, []);
    memory := if folded.LogFolded? then Some(Memory(seen.value, folded.states[|folded.states| - 1])) else None;
  }

  datatype Settlement = Settled(chain: Chain, states: seq<KeyState>) | Unsettled(refusal: Refusal)

  method Settle(c: Suite, did: Did, memory: Option<Memory>, loaded: Chain, states: seq<KeyState>) returns (r: Settlement)
    requires Sound(c) && Folds(c, did, loaded) && states == ChainStates(c, did, loaded)
    requires Remembered(c, did, memory)
    ensures r.Settled? ==> Settles(c, did, memory, loaded, r.chain) && r.states == ChainStates(c, did, r.chain)
    ensures r.Unsettled? ==> memory.Some? && match r.refusal {
      case Invalid(_, _) => false
      case LogForked(report) => IsOutcome(c, did, [memory.value.log.chain, loaded], Forks(report))
      case NotAuthoritative =>
        && IsOutcome(c, did, [memory.value.log.chain, loaded], Wins(Top(c, did, memory.value.log.chain)))
        && memory.value.head.digest != HeadState(c, did, loaded).digest
    }
  {
    hide Folds, ChainStates, IsOutcome, Top, FoldLogOf, Sound, Accounted;
    if memory.None? || exists s :: s in states && s.digest == memory.value.head.digest {
      return Settled(loaded, states);
    }
    var chains := [memory.value.log.chain, loaded];
    var resolved := ResolveBranches(c, did, chains);
    if resolved.Duplicitous? {
      return Unsettled(LogForked(resolved.duplicity));
    }
    if resolved.NoValidBranch? {
      SomeValid(c, did, chains, loaded);
      assert false;
    }
    ChainAlone(c, did, resolved.winner);
    var winner := FoldLog(c, did, resolved.winner, []);
    if winner.states[|winner.states| - 1].digest != states[|states| - 1].digest {
      return Unsettled(NotAuthoritative);
    }
    r := Settled(resolved.winner, winner.states);
  }

  lemma SomeValid(c: Suite, did: Did, chains: seq<Chain>, chain: Chain)
    requires chain in chains && Folds(c, did, chain)
    ensures !IsOutcome(c, did, chains, NoBranch)
  {
    hide Folds, HeadState, Top, HasTopGen;
    if IsOutcome(c, did, chains, NoBranch) {
      var gen :| HasTopGen(c, did, chains, gen) && IsVerdict(HistoriesAt(c, did, chains, gen), NoBranch);
      NotEmpty(c, did, chains, gen);
    }
  }

  lemma NotEmpty(c: Suite, did: Did, chains: seq<Chain>, gen: int)
    requires HasTopGen(c, did, chains, gen)
    ensures HistoriesAt(c, did, chains, gen) != {}
  {
    hide Folds, HeadState, Top;
    var chain :| chain in chains && Folds(c, did, chain) && HeadState(c, did, chain).gen == gen;
    assert Top(c, did, chain) in HistoriesAt(c, did, chains, gen);
  }

  // ---------------------------------------------------------------- the answer

  predicate SameChainEntry(c: Suite, a: ChainEntry, b: ChainEntry) {
    && a.Signed? && b.Signed?
    && a.recoveryKey == b.recoveryKey && a.sigs == b.sigs && Digested(c, a.event) == Digested(c, b.event)
  }

  predicate SameEpochEntry(c: Suite, a: EpochEntry, b: EpochEntry) {
    && a.Typed? && b.Typed?
    && a.copy.sigs == b.copy.sigs && c.digestOf(OfEpoch(a.copy.event)) == c.digestOf(OfEpoch(b.copy.event))
  }

  /** Whether one log is another again, entry for entry. */
  predicate SameLog(c: Suite, a: ControllerLog, b: ControllerLog) {
    && |a.chain| == |b.chain| && |a.events| == |b.events|
    && (forall i :: 0 <= i < |a.chain| ==> SameChainEntry(c, a.chain[i], b.chain[i]))
    && (forall i :: 0 <= i < |a.events| ==> SameEpochEntry(c, a.events[i], b.events[i]))
  }

  /** Comparing digests compares logs: nothing new learned means nothing to write. */
  lemma SameLogSame(c: Suite, a: ControllerLog, b: ControllerLog)
    requires Sound(c) && SameLog(c, a, b)
    ensures a == b
  {
    hide Sound;
    forall i | 0 <= i < |a.chain| ensures a.chain[i] == b.chain[i] {
      assert SameChainEntry(c, a.chain[i], b.chain[i]);
      OneEvent(c, a.chain[i].event, b.chain[i].event);
    }
    forall i | 0 <= i < |a.events| ensures a.events[i] == b.events[i] {
      assert SameEpochEntry(c, a.events[i], b.events[i]);
      OneEpochEvent(c, a.events[i].copy.event, b.events[i].copy.event);
    }
  }

  lemma OneEpochEvent(c: Suite, a: EpochEvent, b: EpochEvent)
    requires Sound(c) && c.digestOf(OfEpoch(a)) == c.digestOf(OfEpoch(b))
    ensures a == b
  {
    assert OfEpoch(a) == OfEpoch(b);
  }

  /** An answer holds a settled chain, the fold on it of memory and of what was loaded, and what is kept of its
      epoch; a refusal names a reason that holds. */
  method AuthoritativeLog(c: Suite, did: Did, loaded: ControllerLog, seen: Option<ControllerLog>, maxEvents: nat) returns (r: Answer)
    requires Sound(c)
    ensures r.Answered? ==> IsAnswer(c, did, seen, loaded, maxEvents, r.log, r.fold)
    ensures r.Declined? ==> Justified(c, did, seen, loaded, maxEvents, r.refusal)
  {
    hide Folds, ChainStates, IsOutcome, Top, FoldLogOf, Sound, WithEpochOf, Settles, SameLog;
    if |loaded.events| > MAX_LOG_EVENTS {
      return Declined(Invalid(LogTooLarge, -1));
    }
    ChainAlone(c, did, loaded.chain);
    var folded := FoldLog(c, did, loaded.chain, []);
    if folded.LogRefused? {
      RefusedChain(c, did, loaded.chain);
      return Declined(Invalid(folded.reason, folded.index));
    }
    var memory := RecallLog(c, did, seen);
    RecallRemembered(c, did, seen);
    var settled := Settle(c, did, memory, loaded.chain, folded.states);
    if settled.Unsettled? {
      return Declined(settled.refusal);
    }
    SettledFolds(c, did, memory, loaded.chain, settled.chain);
    var fold := WithEpoch(c, did, settled.states, TrustedOf(memory), loaded.events, maxEvents);
    WithEpochMeans(c, did, settled.states, TrustedOf(memory), loaded.events, maxEvents);
    if fold.LogRefused? {
      return Declined(Invalid(fold.reason, fold.index));
    }
    var kept := AppliedCopies(fold.epoch, maxEvents);
    var log := ControllerLog(settled.chain, Entries(kept));
    if seen.Some? && memory.Some? && SameLog(c, log, seen.value) {
      SameLogSame(c, log, seen.value);
      return Answered(seen.value, fold);
    }
    r := Answered(log, fold);
  }

  lemma RefusedChain(c: Suite, did: Did, chain: Chain)
    requires FoldLogOf(c, did, chain, []).LogRefused?
    ensures var r, f := FoldLogOf(c, did, chain, []), ChainFoldOf(c, did, chain);
      r.reason.ChainFault? && f.Unfoldable? && r.reason.fault == f.fault && r.index == f.index
  {
    hide WithEpochOf;
    ChainAlone(c, did, chain);
  }

  lemma RecallRemembered(c: Suite, did: Did, seen: Option<ControllerLog>)
    ensures Remembered(c, did, Recall(c, did, seen))
  {
  }

  lemma SettledFolds(c: Suite, did: Did, memory: Option<Memory>, loaded: Chain, chain: Chain)
    requires Settles(c, did, memory, loaded, chain)
    ensures Folds(c, did, chain) && ChainStates(c, did, chain) != []
  {
    hide Folds, IsOutcome, Top, PassesThrough;
  }

  lemma WithEpochMeans(c: Suite, did: Did, states: seq<KeyState>, trusted: seq<EpochEntry>, events: seq<EpochEntry>, maxEvents: nat)
    requires states != []
    ensures var r := WithEpochOf(c, did, states, trusted, events, maxEvents);
      if r.LogFolded? then r.epoch.Merged? && r.states == states else r.reason == FailedSignatures
  {
    hide FoldSpec, ViewOf, EpochOf;
  }
}
