/** The fold of a whole log: its chain, then the epoch events on the chain's last state. */
module LogFolds {
  import opened Basics
  import opened Events
  import opened Fold
  import opened ChainFacts
  import opened EpochSpec
  import opened EpochTheorems
  import opened EpochMemory
  import opened EpochMerge

  datatype LogFault = ChainFault(fault: Fault) | LogTooLarge | FailedSignatures

  /** `index` is -1 for a request limit, which is no event's fault. */
  datatype LogFold =
    | LogFolded(states: seq<KeyState>, epoch: EpochFold)
    | LogRefused(reason: LogFault, index: int)

  /** The chain's states merged with what `events` presents, `trusted` being this party's own memory. */
  ghost function WithEpochOf(c: Suite, did: Did, states: seq<KeyState>, trusted: seq<EpochEntry>, events: seq<EpochEntry>, maxEvents: nat): LogFold
    requires states != []
  {
    var ep := EpochOf(c, did, states);
    var epoch := FoldSpec(ep, ViewOf(ep, trusted, events), maxEvents);
    if epoch.Merged? then LogFolded(states, epoch) else LogRefused(FailedSignatures, -1)
  }

  ghost function FoldLogOf(c: Suite, did: Did, chain: seq<ChainEntry>, events: seq<EpochEntry>): LogFold {
    if |events| > MAX_LOG_EVENTS then LogRefused(LogTooLarge, -1)
    else
      var folded := ChainFoldOf(c, did, chain);
      if folded.Unfoldable? then LogRefused(ChainFault(folded.fault), folded.index)
      else WithEpochOf(c, did, folded.states, [], events, MAX_EPOCH_EVENTS)
  }

  method WithEpoch(c: Suite, did: Did, states: seq<KeyState>, trusted: seq<EpochEntry>, events: seq<EpochEntry>, maxEvents: nat)
    returns (r: LogFold)
    requires Sound(c) && states != []
    ensures r == WithEpochOf(c, did, states, trusted, events, maxEvents)
  {
    hide FoldSpec, ViewOf, EpochOf;
    var epoch := FoldEpochDetailed(c, did, states, events, trusted, maxEvents);
    r := if epoch.Merged? then LogFolded(states, epoch) else LogRefused(FailedSignatures, -1);
  }

  method FoldLog(c: Suite, did: Did, chain: seq<ChainEntry>, events: seq<EpochEntry>) returns (r: LogFold)
    requires Sound(c)
    ensures r == FoldLogOf(c, did, chain, events)
  {
    hide WithEpochOf;
    if |events| > MAX_LOG_EVENTS {
      return LogRefused(LogTooLarge, -1);
    }
    var folded := FoldChain(c, did, chain);
    if folded.Unfoldable? {
      return LogRefused(ChainFault(folded.fault), folded.index);
    }
    r := WithEpoch(c, did, folded.states, [], events, MAX_EPOCH_EVENTS);
  }

  /** No events, nothing to refuse: a log with none folds exactly when its chain does. */
  lemma ChainAlone(c: Suite, did: Did, chain: seq<ChainEntry>)
    ensures var r := FoldLogOf(c, did, chain, []);
      && (r.LogFolded? <==> Folds(c, did, chain))
      && (r.LogFolded? ==> r.states == ChainStates(c, did, chain) && r.epoch.applied == [])
  {
    hide FoldSpec, ViewOf, EpochOf;
    if Folds(c, did, chain) {
      NoEvents(EpochOf(c, did, ChainStates(c, did, chain)), MAX_EPOCH_EVENTS);
    }
  }

  lemma NoEvents(ep: Epoch, maxEvents: nat)
    ensures FoldSpec(ep, ViewOf(ep, [], []), maxEvents).Merged? && FoldSpec(ep, ViewOf(ep, [], []), maxEvents).applied == []
  {
    hide Judge, Join, Reasons, Union, MembersOf, AuthenticCopies, Applied, After;
    var view := ViewOf(ep, [], []);
    assert view == View(map[], {}, 0);
    assert Candidates(ep, view) == map[];
    var g := GraphOf(ep, view);
    assert g == map[];
    AfterWithin(ep, g);
    AppliedOrder(ep, g);
    assert Charges(ep, g) == map[];
    DistinctSize(Applied(ep, g));
  }
}
