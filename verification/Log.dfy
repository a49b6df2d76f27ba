/** Logs this party holds: folding them under the larger limit, reading the heads an event built now should name,
    and pruning them to what still folds to the same head. A pruned log has no earlier generation, no skipped
    event and no event that did not apply; what makes that safe is that a reset folds to one state on any chain,
    and that what was kept of an epoch is closed under parents and folds again to itself. */
module Log {
  import opened Basics
  import opened Events
  import opened Fold
  import opened ChainFacts
  import opened ChainHistory
  import opened EpochSpec
  import opened EpochMemory
  import opened EpochTheorems
  import opened EpochRefold
  import opened EpochKept
  import opened EpochTips
  import opened EpochMerge
  import opened LogFolds
  import opened SameEpoch
  import opened Prune

  datatype ControllerLog = ControllerLog(chain: seq<ChainEntry>, events: seq<EpochEntry>)

  const MAX_HELD_EVENTS: nat := MAX_EPOCH_EVENTS + 1 + MAX_LOG_EVENTS

  /** A held log folds under the larger request limit, and none of it is trusted. */
  ghost function FoldHeldOf(c: Suite, did: Did, log: ControllerLog): LogFold {
    if |log.events| > MAX_HELD_EVENTS then LogRefused(LogTooLarge, -1)
    else
      var folded := ChainFoldOf(c, did, log.chain);
      if folded.Unfoldable? then LogRefused(ChainFault(folded.fault), folded.index)
      else WithEpochOf(c, did, folded.states, [], log.events, MAX_EPOCH_EVENTS)
  }

  method FoldHeld(c: Suite, did: Did, log: ControllerLog) returns (r: LogFold)
    requires Sound(c)
    ensures r == FoldHeldOf(c, did, log)
  {
    hide WithEpochOf;
    if |log.events| > MAX_HELD_EVENTS {
      return LogRefused(LogTooLarge, -1);
    }
    ChainAlone(c, did, log.chain);
    var folded := FoldLog(c, did, log.chain, []);
    if folded.LogRefused? {
      return folded;
    }
    r := WithEpoch(c, did, folded.states, [], log.events, MAX_EPOCH_EVENTS);
  }

  datatype Heads = Heads(parents: seq<Digest>) | NoHeads(reason: LogFault)

  /** The parents an event built now should name, off the fold of a held log, or why it does not fold. */
  method EpochHeads(c: Suite, did: Did, log: ControllerLog) returns (r: Heads)
    requires Sound(c)
    ensures r.NoHeads? <==> FoldHeldOf(c, did, log).LogRefused?
    ensures r.NoHeads? ==> FoldHeldOf(c, did, log).reason == r.reason
    ensures r.Heads? ==> Folds(c, did, log.chain) && EpochOfLog(c, did, log).Merged? && AreHeads(EpochOfLog(c, did, log), r.parents)
  {
    hide FoldSpec, ViewOf, EpochOf, AreHeads, FoldHeldOf;
    var held := FoldHeld(c, did, log);
    if held.LogRefused? {
      return NoHeads(held.reason);
    }
    HeadGenKept(c, did, held.states, held.epoch, log);
    var parents := TipsToName(held.epoch);
    r := Heads(parents);
  }

  datatype PrunedLog = Pruned(log: ControllerLog) | NotPruned(reason: LogFault, index: int)

  method PruneLog(c: Suite, did: Did, input: ControllerLog) returns (r: PrunedLog)
    requires Sound(c)
    ensures r.Pruned? <==> FoldHeldOf(c, did, input).LogFolded?
    ensures r.NotPruned? ==> FoldHeldOf(c, did, input) == LogRefused(r.reason, r.index)
    ensures r.Pruned? ==> Folds(c, did, input.chain) && r.log == PrunedLogOf(c, did, input)
  {
    hide FoldSpec, ViewOf, EpochOf;
    var held := FoldHeld(c, did, input);
    if held.LogRefused? {
      return NotPruned(held.reason, held.index);
    }
    HeadGenKept(c, did, held.states, held.epoch, input);
    var chain := PruneChain(input.chain, held.states, held.epoch.head.gen);
    var kept := AppliedCopies(held.epoch, MAX_EPOCH_EVENTS);
    r := Pruned(ControllerLog(chain, Entries(kept)));
  }

  /** The fold of a log's own epoch events, nothing trusted. */
  ghost function EpochOfLog(c: Suite, did: Did, log: ControllerLog): EpochFold
    requires Folds(c, did, log.chain)
  {
    FoldSpec(EpochOf(c, did, ChainStates(c, did, log.chain)), ViewOf(EpochOf(c, did, ChainStates(c, did, log.chain)), [], log.events), MAX_EPOCH_EVENTS)
  }

  ghost function PrunedLogOf(c: Suite, did: Did, log: ControllerLog): ControllerLog
    requires Folds(c, did, log.chain) && EpochOfLog(c, did, log).Merged?
  {
    var epoch := EpochOfLog(c, did, log);
    ControllerLog(PrunedChain(c, did, log.chain), Entries(CopiesIn(epoch.authentic, KeptOrder(epoch, MAX_EPOCH_EVENTS))))
  }

  lemma HeadGenKept(c: Suite, did: Did, states: seq<KeyState>, epoch: EpochFold, input: ControllerLog)
    requires FoldHeldOf(c, did, input) == LogFolded(states, epoch)
    ensures Folds(c, did, input.chain) && states == ChainStates(c, did, input.chain)
    ensures epoch == EpochOfLog(c, did, input) && epoch.Merged?
    ensures epoch.head.gen == HeadState(c, did, input.chain).gen
  {
    hide ViewOf, GraphOf, Union, Applied, Charges, Reasons, AuthenticCopies, Evaluated, After, MembersOf;
  }

  // ---------------------------------------------------------------- pruning keeps the meaning

  lemma KeptFits(r: EpochFold, maxEvents: nat)
    requires r.Merged? && r.head.saturated == (|r.applied| > maxEvents)
    ensures |KeptOrder(r, maxEvents)| <= maxEvents + 1
    ensures Elems(KeptOrder(r, maxEvents)) <= Elems(r.applied)
    ensures Distinct(r.applied) ==> Distinct(KeptOrder(r, maxEvents))
  {
  }

  /** What a merge applies, each once, with its copy. */
  lemma {:induction false} MergedShape(ep: Epoch, view: View, maxEvents: nat)
    requires Sound(ep.suite) && WellView(ep, view) && FoldSpec(ep, view, maxEvents).Merged?
    ensures var r := FoldSpec(ep, view, maxEvents);
      && Distinct(r.applied) && r.authentic.Keys == Elems(r.applied) && WellKept(ep, r.authentic)
      && r.head.saturated == (|r.applied| > maxEvents)
  {
    hide Applied, Charges, Reasons, AuthenticCopies, Evaluated, After, Union, MembersOf, GraphOf, WellKept, WellView, Sound;
    AppliedOrder(ep, GraphOf(ep, view));
    AuthenticAll(ep, GraphOf(ep, view));
    AuthenticWell(ep, view);
  }

  /** The copies kept of an epoch, presented on their own: one candidate each, and nothing else. */
  lemma {:induction false} KeptPresented(ep: Epoch, view: View, maxEvents: nat)
    requires Sound(ep.suite) && WellView(ep, view) && FoldSpec(ep, view, maxEvents).Merged?
    ensures var r := FoldSpec(ep, view, maxEvents);
      var order := KeptOrder(r, maxEvents);
      && ViewOf(ep, [], Entries(CopiesIn(r.authentic, order))) == PresentedAs(Restrict(r.authentic, Elems(order)))
      && ViewOf(ep, Entries(CopiesIn(r.authentic, order)), []) == View(Restrict(r.authentic, Elems(order)), {}, 0)
      && |Entries(CopiesIn(r.authentic, order))| <= maxEvents + 1
  {
    hide FoldSpec, KeptOrder, Restrict, WellKept, IsEpochShape, WellView, Sound;
    var r := FoldSpec(ep, view, maxEvents);
    var order := KeptOrder(r, maxEvents);
    MergedShape(ep, view, maxEvents);
    KeptFits(r, maxEvents);
    CopiesHold(ep, r.authentic, order);
    var copies := CopiesIn(r.authentic, order);
    CopiesShaped(ep, r.authentic, order);
    CopiesPresent(ep, copies);
    RestrictIs(r.authentic, Elems(order));
    var kept := Restrict(r.authentic, Elems(order));
    assert Elems(copies) == set d | d in kept :: kept[d] by {
      SameValues(r.authentic, order, copies, kept);
    }
  }

  lemma CopiesShaped(ep: Epoch, authentic: map<Digest, EpochCopy>, order: seq<Digest>)
    requires WellKept(ep, authentic) && Elems(CopiesIn(authentic, order)) == set d | d in order && d in authentic :: authentic[d]
    ensures forall x :: x in CopiesIn(authentic, order) ==> IsEpochShape(ep.suite, x)
  {
    hide IsEpochShape, Local;
    forall x | x in CopiesIn(authentic, order) ensures IsEpochShape(ep.suite, x) {
      assert x in Elems(CopiesIn(authentic, order));
    }
  }

  lemma SameValues(authentic: map<Digest, EpochCopy>, order: seq<Digest>, copies: seq<EpochCopy>, kept: map<Digest, EpochCopy>)
    requires Elems(copies) == set d | d in order && d in authentic :: authentic[d]
    requires kept.Keys == Elems(order) && Elems(order) <= authentic.Keys && forall d :: d in kept ==> kept[d] == authentic[d]
    ensures Elems(copies) == set d | d in kept :: kept[d]
  {
    forall x ensures x in Elems(copies) <==> x in set d | d in kept :: kept[d] {
      if x in Elems(copies) {
        var d :| d in order && d in authentic && authentic[d] == x;
        assert d in kept.Keys && kept[d] == x;
      }
      if x in set d | d in kept :: kept[d] {
        var d :| d in kept && kept[d] == x;
        assert d in Elems(order) && authentic[d] == x;
      }
    }
  }

  /** Copies that fold to themselves do so on any chain with the same head. */
  lemma {:induction false} RefoldsElsewhere(ep: Epoch, chain: set<Digest>, view: View, maxEvents: nat, again: View)
    requires Sound(ep.suite) && WellView(ep, view) && FoldSpec(ep, view, maxEvents).Merged?
    requires var r := FoldSpec(ep, view, maxEvents); ComesBack(view, Restrict(r.authentic, Elems(KeptOrder(r, maxEvents))), again)
    ensures FoldSpec(ep.(chain := chain), again, maxEvents) == FoldSpec(ep, again, maxEvents)
  {
    hide Judge, Join, After, Applied, WellView, Candidates, VerdictOn, Sound, AuthenticCopies, Union, GraphOf,
      ComesBack, Restrict, CrossEpoch, RefoldOf, RefusedOnSight, Charges, Evaluated, MembersOf, Reasons;
    var r, ep' := FoldSpec(ep, view, maxEvents), ep.(chain := chain);
    var g, n := GraphOf(ep, view), |KeptOrder(r, maxEvents)|;
    assert Applied(ep, g)[..n] == KeptOrder(r, maxEvents);
    KeptRepresented(ep, view, n, again);
    RefoldShape(ep, g, n, Candidates(ep, again));
    SameCandidates(ep, chain, again);
    InsideItself(ep', again);
    SameFold(ep, chain, again, maxEvents);
  }

  /** A pruned log folds, even as a fresh presentation; its chain ends in the same state; its epoch applies
      exactly the events kept, in the same order, with none pending or refused; and it merges to the same
      head, or to one as saturated. */
  lemma {:induction false} PruneKeepsMeaning(c: Suite, did: Did, input: ControllerLog)
    requires Sound(c) && Folds(c, did, input.chain) && EpochOfLog(c, did, input).Merged?
    ensures var r, pruned := EpochOfLog(c, did, input), PrunedLogOf(c, did, input);
      && Folds(c, did, pruned.chain) && HeadState(c, did, pruned.chain) == HeadState(c, did, input.chain)
      && |pruned.events| <= MAX_LOG_EVENTS
      && var r' := EpochOfLog(c, did, pruned);
      && r'.Merged? && r'.applied == KeptOrder(r, MAX_EPOCH_EVENTS) && r'.pending == 0 && r'.rejected == 0
      && r'.head.saturated == r.head.saturated
      && (!r.head.saturated ==> r'.head == r.head)
  {
    hide Folds, ChainStates, FoldSpec, KeptOrder, Restrict, ViewOf, Sound, EpochOf, CopiesIn, Entries, WellView, PresentedAs;
    PrunedFolds(c, did, input.chain);
    var pruned := PrunedLogOf(c, did, input);
    var ep, ep' := EpochOf(c, did, ChainStates(c, did, input.chain)), EpochOf(c, did, ChainStates(c, did, pruned.chain));
    OneHeadOneEpoch(c, did, input.chain, pruned.chain);
    EpochSuite(c, did, ChainStates(c, did, input.chain));
    var view := ViewOf(ep, [], input.events);
    var r := FoldSpec(ep, view, MAX_EPOCH_EVENTS);
    ViewsWell(ep, [], input.events);
    KeptPresented(ep, view, MAX_EPOCH_EVENTS);
    var kept := Restrict(r.authentic, Elems(KeptOrder(r, MAX_EPOCH_EVENTS)));
    NothingHeld(ep, input.events);
    RefoldsToItself(ep, view, MAX_EPOCH_EVENTS, PresentedAs(kept));
    RefoldsElsewhere(ep, ep'.chain, view, MAX_EPOCH_EVENTS, PresentedAs(kept));
    ViewIgnoresChain(ep, ep'.chain, [], pruned.events);
  }

  lemma NothingHeld(ep: Epoch, events: seq<EpochEntry>)
    ensures ViewOf(ep, [], events).held == map[]
  {
  }

  lemma {:induction false} ViewIgnoresChain(ep: Epoch, chain: set<Digest>, trusted: seq<EpochEntry>, events: seq<EpochEntry>)
    ensures ViewOf(ep.(chain := chain), trusted, events) == ViewOf(ep, trusted, events)
  {
    hide IsEpochShape;
    HeldIgnoresChain(ep, chain, trusted);
    JunkIgnoresChain(ep, chain, events);
    assert Present(ep.(chain := chain), events) == Present(ep, events);
  }

  lemma {:induction false} HeldIgnoresChain(ep: Epoch, chain: set<Digest>, trusted: seq<EpochEntry>)
    ensures Held(ep.(chain := chain), trusted) == Held(ep, trusted)
  {
    hide IsEpochShape;
    LocalIgnoresChain(ep, chain);
    if trusted != [] {
      HeldIgnoresChain(ep, chain, trusted[..|trusted| - 1]);
    }
  }

  lemma {:induction false} JunkIgnoresChain(ep: Epoch, chain: set<Digest>, events: seq<EpochEntry>)
    ensures JunkCount(ep.(chain := chain), events) == JunkCount(ep, events)
  {
    hide IsEpochShape;
    if events != [] {
      JunkIgnoresChain(ep, chain, events[..|events| - 1]);
    }
  }
}
