/** What is remembered of an epoch: every stored event applies again, so what memory denies, removes and admits
    only grows while the epoch lasts, and a saturated memory stays saturated. A saturated memory has room for the
    first events of the epoch's order alone, so there an event that applies later may take the place of one
    already stored; when it does, and when everything stored keeps its place, is settled here over any run. */
module HistoryMemory {
  import opened Basics
  import opened Events
  import opened ChainFacts
  import opened ChainHistory
  import opened EpochSpec
  import opened EpochMemory
  import opened EpochKept
  import opened OrderGrowth
  import opened EpochDisplaced
  import opened EpochMerge
  import opened LogFolds
  import opened Resolve
  import opened SameEpoch
  import opened Log
  import opened History
  import opened HistoryRuns

  ghost function EpochAt(c: Suite, did: Did, log: ControllerLog): Epoch
    requires Folds(c, did, log.chain)
  {
    EpochOf(c, did, ChainStates(c, did, log.chain))
  }

  /** A log as some answer stored it. */
  ghost predicate Stored(c: Suite, did: Did, log: ControllerLog, maxEvents: nat) {
    && Folds(c, did, log.chain)
    && exists view :: StoredFrom(EpochAt(c, did, log), view, log.events, maxEvents)
  }

  ghost predicate StoredFrom(ep: Epoch, view: View, events: seq<EpochEntry>, maxEvents: nat) {
    && WellView(ep, view)
    && var r := FoldSpec(ep, view, maxEvents);
    && r.Merged? && events == Entries(CopiesIn(r.authentic, KeptOrder(r, maxEvents)))
  }

  lemma AnswersStored(c: Suite, did: Did, seen: Option<ControllerLog>, loaded: ControllerLog, maxEvents: nat, log: ControllerLog, fold: LogFold)
    requires IsAnswer(c, did, seen, loaded, maxEvents, log, fold)
    ensures Stored(c, did, log, maxEvents)
    ensures fold.epoch == FoldSpec(EpochAt(c, did, log), ViewOf(EpochAt(c, did, log), TrustedOf(Recall(c, did, seen)), loaded.events), maxEvents)
  {
    hide Folds, ChainStates, FoldSpec, ViewOf, EpochOf, Settles, CopiesIn, KeptOrder, WellView, Recall;
    SettledFolds(c, did, Recall(c, did, seen), loaded.chain, log.chain);
    var ep := EpochAt(c, did, log);
    var view := ViewOf(ep, TrustedOf(Recall(c, did, seen)), loaded.events);
    ViewsWell(ep, TrustedOf(Recall(c, did, seen)), loaded.events);
    assert StoredFrom(ep, view, log.events, maxEvents);
  }

  /** What a stored log's epoch folds to, memory alone. */
  ghost function MemoryFold(c: Suite, did: Did, log: ControllerLog, maxEvents: nat): EpochFold
    requires Folds(c, did, log.chain)
  {
    FoldSpec(EpochAt(c, did, log), ViewOf(EpochAt(c, did, log), log.events, []), maxEvents)
  }

  /** A stored epoch folds to exactly what it holds, nothing pending or refused. */
  lemma {:induction false} StoredRefolds(ep: Epoch, view: View, events: seq<EpochEntry>, maxEvents: nat)
    requires Sound(ep.suite) && StoredFrom(ep, view, events, maxEvents)
    ensures var r, m := FoldSpec(ep, view, maxEvents), FoldSpec(ep, ViewOf(ep, events, []), maxEvents);
      && m.Merged? && m.applied == KeptOrder(r, maxEvents) && m.pending == 0 && m.rejected == 0
      && m.head.saturated == r.head.saturated && (!r.head.saturated ==> m.head == r.head)
      && ViewOf(ep, events, []) == View(m.authentic, {}, 0)
      && (forall chain :: FoldSpec(ep.(chain := chain), ViewOf(ep, events, []), maxEvents) == m)
  {
    hide FoldSpec, ViewOf, WellView, CopiesIn, KeptOrder, Restrict, Sound;
    var r := FoldSpec(ep, view, maxEvents);
    KeptPresented(ep, view, maxEvents);
    var again := View(Restrict(r.authentic, Elems(KeptOrder(r, maxEvents))), {}, 0);
    RefoldsToItself(ep, view, maxEvents, again);
    forall chain ensures FoldSpec(ep.(chain := chain), again, maxEvents) == FoldSpec(ep, again, maxEvents) {
      RefoldsElsewhere(ep, chain, view, maxEvents, again);
    }
  }

  /** What one fold holds, another does: every applied event, denial, removal and incarnation, and
      saturation. */
  ghost predicate Within(a: EpochFold, b: EpochFold) {
    && a.Merged? && b.Merged?
    && Elems(a.applied) <= Elems(b.applied) && HeadWithin(a.head, b.head)
  }

  /** No incarnation's lease gets shorter and no member that could not act comes back. */
  ghost predicate MembersKept(a: EpochFold, b: EpochFold) {
    Within(a, b) && MembersWithin(a.head.members, b.head.members)
  }

  /** What a stored epoch holds, in order. */
  ghost function StoredOrder(c: Suite, did: Did, log: ControllerLog, maxEvents: nat): seq<Digest>
    requires Folds(c, did, log.chain)
  {
    var m := MemoryFold(c, did, log, maxEvents);
    if m.Merged? then m.applied else []
  }

  /** The settled epoch seen from memory alone, and from memory with what was loaded. */
  ghost function SeenView(c: Suite, did: Did, seen: ControllerLog, log: ControllerLog): View
    requires Folds(c, did, log.chain)
  {
    ViewOf(EpochAt(c, did, log), seen.events, [])
  }

  ghost function NextView(c: Suite, did: Did, seen: ControllerLog, loaded: ControllerLog, log: ControllerLog): View
    requires Folds(c, did, log.chain)
  {
    ViewOf(EpochAt(c, did, log), seen.events, loaded.events)
  }

  /** While the settled chain keeps the seen epoch, the answer folds what was stored, and more, on that epoch. */
  lemma {:induction false} SeenFoldsOn(c: Suite, did: Did, seen: ControllerLog, loaded: ControllerLog, maxEvents: nat,
      log: ControllerLog, fold: LogFold)
    requires Sound(c) && Stored(c, did, seen, maxEvents) && IsAnswer(c, did, Some(seen), loaded, maxEvents, log, fold)
    requires Folds(c, did, log.chain) && HeadState(c, did, log.chain).digest == HeadState(c, did, seen.chain).digest
    ensures FoldsOn(EpochAt(c, did, log), SeenView(c, did, seen, log), NextView(c, did, seen, loaded, log), maxEvents)
    ensures FoldSpec(EpochAt(c, did, log), SeenView(c, did, seen, log), maxEvents) == MemoryFold(c, did, seen, maxEvents)
    ensures FoldSpec(EpochAt(c, did, log), NextView(c, did, seen, loaded, log), maxEvents) == fold.epoch
    ensures MemoryFold(c, did, seen, maxEvents).Merged? && |StoredOrder(c, did, seen, maxEvents)| <= maxEvents + 1
  {
    hide Folds, ChainStates, FoldSpec, ViewOf, EpochOf, Settles, CopiesIn, KeptOrder, WellView, Sound, StoredFrom, IsAnswer, GraphOf;
    var ep, ep' := EpochAt(c, did, seen), EpochAt(c, did, log);
    OneHeadOneEpoch(c, did, seen.chain, log.chain);
    EpochSuite(c, did, ChainStates(c, did, seen.chain));
    var view :| StoredFrom(ep, view, seen.events, maxEvents);
    StoredRefolds(ep, view, seen.events, maxEvents);
    StoredFits(ep, view, seen.events, maxEvents);
    var m := MemoryFold(c, did, seen, maxEvents);
    var v1, v2 := SeenView(c, did, seen, log), NextView(c, did, seen, loaded, log);
    ViewIgnoresChain(ep, ep'.chain, seen.events, []);
    ViewsWell(ep', seen.events, []);
    ViewsWell(ep', seen.events, loaded.events);
    assert FoldSpec(ep.(chain := ep'.chain), v1, maxEvents) == m;
    HeldEither(ep', seen.events, loaded.events);
    AnswersStored(c, did, Some(seen), loaded, maxEvents, log, fold);
    AnswerMerged(c, did, Some(seen), loaded, maxEvents, log, fold);
  }

  lemma StoredFits(ep: Epoch, view: View, events: seq<EpochEntry>, maxEvents: nat)
    requires StoredFrom(ep, view, events, maxEvents)
    ensures |KeptOrder(FoldSpec(ep, view, maxEvents), maxEvents)| <= maxEvents + 1
  {
    hide Union, Reasons, AuthenticCopies, GraphOf, Applied, WellView, CopiesIn, MembersOf;
    KeptFits(FoldSpec(ep, view, maxEvents), maxEvents);
  }

  /** While the settled chain keeps the seen epoch, every stored event applies again whatever was loaded. */
  lemma {:induction false} NothingStoredForgotten(c: Suite, did: Did, seen: ControllerLog, loaded: ControllerLog, maxEvents: nat,
      log: ControllerLog, fold: LogFold)
    requires Sound(c) && Stored(c, did, seen, maxEvents) && IsAnswer(c, did, Some(seen), loaded, maxEvents, log, fold)
    requires Folds(c, did, log.chain) && HeadState(c, did, log.chain).digest == HeadState(c, did, seen.chain).digest
    ensures Within(MemoryFold(c, did, seen, maxEvents), fold.epoch)
    ensures AddsApart(c, did, log, seen.events, loaded.events) ==> MembersKept(MemoryFold(c, did, seen, maxEvents), fold.epoch)
  {
    hide Folds, ChainStates, FoldSpec, ViewOf, EpochOf, WellView, Sound, HeadWithin, MembersWithin, Stored, IsAnswer, GraphOf, MemoryFold;
    SeenFoldsOn(c, did, seen, loaded, maxEvents, log, fold);
    MemoryOnlyGrows(EpochAt(c, did, log), SeenView(c, did, seen, log), NextView(c, did, seen, loaded, log), maxEvents);
  }

  /** No event that applies anew when `loaded` is presented could have been taken before one of `kept`. */
  ghost predicate Spares(c: Suite, did: Did, seen: ControllerLog, loaded: ControllerLog, maxEvents: nat, log: ControllerLog, kept: seq<Digest>) {
    && Folds(c, did, log.chain)
    && var r := FoldSpec(EpochAt(c, did, log), NextView(c, did, seen, loaded, log), maxEvents);
    && r.Merged? && NoneBefore(EpochAt(c, did, log).anchor.epoch, r, kept)
  }

  /** What of a stored order is stored again, `kept` being its start or all of it: its events from the first on,
      in order, up to some event; all of them in their places exactly when no newly applying event could have
      been taken before one of them; and where the orders first differ, the new one has the smaller event. */
  lemma {:induction false} StoredMoves(c: Suite, did: Did, seen: ControllerLog, loaded: ControllerLog, maxEvents: nat,
      log: ControllerLog, fold: LogFold, kept: seq<Digest>)
    requires Sound(c) && Stored(c, did, seen, maxEvents) && IsAnswer(c, did, Some(seen), loaded, maxEvents, log, fold)
    requires Folds(c, did, log.chain) && HeadState(c, did, log.chain).digest == HeadState(c, did, seen.chain).digest
    requires kept <= StoredOrder(c, did, seen, maxEvents)
    ensures var now := StoredOrder(c, did, log, maxEvents);
      && Only(now, Elems(kept)) <= kept
      && NoLater(now, kept)
      && (kept <= now <==> Spares(c, did, seen, loaded, maxEvents, log, kept))
      && |kept| <= |now|
  {
    hide Folds, ChainStates, FoldSpec, ViewOf, EpochOf, WellView, Sound, Stored, IsAnswer, GraphOf, FoldsOn, NoneBefore, Only, NoLater, KeptOrder,
      MemoryFold;
    SeenFoldsOn(c, did, seen, loaded, maxEvents, log, fold);
    KeptMoves(EpochAt(c, did, log), SeenView(c, did, seen, log), NextView(c, did, seen, loaded, log), maxEvents, kept);
    AnswerKept(c, did, Some(seen), loaded, maxEvents, log, fold);
  }

  /** What an answer stores is what of its fold is kept. */
  lemma {:induction false} AnswerKept(c: Suite, did: Did, seen: Option<ControllerLog>, loaded: ControllerLog, maxEvents: nat,
      log: ControllerLog, fold: LogFold)
    requires Sound(c) && IsAnswer(c, did, seen, loaded, maxEvents, log, fold)
    ensures Folds(c, did, log.chain) && fold.LogFolded? && fold.epoch.Merged?
    ensures MemoryFold(c, did, log, maxEvents).Merged?
    ensures StoredOrder(c, did, log, maxEvents) == KeptOrder(fold.epoch, maxEvents)
    ensures |StoredOrder(c, did, log, maxEvents)| <= maxEvents + 1
    ensures fold.epoch.head.saturated <==> |StoredOrder(c, did, log, maxEvents)| == maxEvents + 1
  {
    hide Folds, ChainStates, FoldSpec, ViewOf, EpochOf, Settles, CopiesIn, WellView, Recall, Sound;
    AnswersStored(c, did, seen, loaded, maxEvents, log, fold);
    var ep := EpochAt(c, did, log);
    EpochSuite(c, did, ChainStates(c, did, log.chain));
    var view := ViewOf(ep, TrustedOf(Recall(c, did, seen)), loaded.events);
    ViewsWell(ep, TrustedOf(Recall(c, did, seen)), loaded.events);
    assert StoredFrom(ep, view, log.events, maxEvents);
    StoredRefolds(ep, view, log.events, maxEvents);
    FlagIs(ep, view, maxEvents);
  }

  lemma FlagIs(ep: Epoch, view: View, maxEvents: nat)
    requires FoldSpec(ep, view, maxEvents).Merged?
    ensures FoldSpec(ep, view, maxEvents).head.saturated == (|FoldSpec(ep, view, maxEvents).applied| > maxEvents)
  {
    hide Union, Reasons, AuthenticCopies, GraphOf, Applied, MembersOf;
  }

  /** The `add` references of the settled snapshot are not digests of events presented. */
  ghost predicate AddsApart(c: Suite, did: Did, log: ControllerLog, trusted: seq<EpochEntry>, events: seq<EpochEntry>)
    requires Folds(c, did, log.chain)
  {
    var ep := EpochAt(c, did, log);
    ep.anchor.members.Keys !! GraphOf(ep, ViewOf(ep, trusted, events)).Keys
  }

  lemma HeldEither(ep: Epoch, trusted: seq<EpochEntry>, events: seq<EpochEntry>)
    ensures ViewOf(ep, trusted, events).held == ViewOf(ep, trusted, []).held
  {
  }

  lemma AnswerMerged(c: Suite, did: Did, seen: Option<ControllerLog>, loaded: ControllerLog, maxEvents: nat, log: ControllerLog, fold: LogFold)
    requires IsAnswer(c, did, seen, loaded, maxEvents, log, fold)
    requires seen.Some? && Folds(c, did, seen.value.chain)
    ensures fold.LogFolded? && fold.epoch.Merged? && TrustedOf(Recall(c, did, seen)) == seen.value.events
  {
    hide Folds, ChainStates, WithEpochOf, Settles;
  }

  /** How memory moves while its head stays: saturation is kept, short of it everything is, and where the stored
      order changes it gets an event smaller than the one that stood there. */
  ghost predicate Kept(c: Suite, did: Did, maxEvents: nat, a: ControllerLog, b: ControllerLog) {
    && Folds(c, did, a.chain) && Folds(c, did, b.chain)
    && var m, n := MemoryFold(c, did, a, maxEvents), MemoryFold(c, did, b, maxEvents);
    && m.Merged? && n.Merged?
    && (m.head.saturated ==> n.head.saturated)
    && (!n.head.saturated ==> Within(m, n))
    && NoLater(StoredOrder(c, did, b, maxEvents), StoredOrder(c, did, a, maxEvents))
  }

  lemma {:induction false} AnswerRemembered(c: Suite, did: Did, seen: Option<ControllerLog>, loaded: ControllerLog, maxEvents: nat,
      log: ControllerLog, fold: LogFold)
    requires Sound(c) && IsAnswer(c, did, seen, loaded, maxEvents, log, fold)
    ensures Folds(c, did, log.chain) && Stored(c, did, log, maxEvents)
    ensures var m := MemoryFold(c, did, log, maxEvents);
      && fold.LogFolded? && fold.epoch.Merged? && m.Merged? && m.head.saturated == fold.epoch.head.saturated
      && (!m.head.saturated ==> m.head == fold.epoch.head && m.applied == fold.epoch.applied)
  {
    hide Folds, ChainStates, FoldSpec, ViewOf, EpochOf, Settles, CopiesIn, WellView, Recall, Sound;
    AnswersStored(c, did, seen, loaded, maxEvents, log, fold);
    var ep := EpochAt(c, did, log);
    EpochSuite(c, did, ChainStates(c, did, log.chain));
    var view := ViewOf(ep, TrustedOf(Recall(c, did, seen)), loaded.events);
    ViewsWell(ep, TrustedOf(Recall(c, did, seen)), loaded.events);
    assert StoredFrom(ep, view, log.events, maxEvents);
    StoredRefolds(ep, view, log.events, maxEvents);
    SaturatedIs(ep, view, maxEvents);
  }

  lemma SaturatedIs(ep: Epoch, view: View, maxEvents: nat)
    requires FoldSpec(ep, view, maxEvents).Merged?
    ensures var r := FoldSpec(ep, view, maxEvents); !r.head.saturated ==> KeptOrder(r, maxEvents) == r.applied
  {
    hide FoldSpec;
  }

  lemma {:induction false} MemoryStep(c: Suite, did: Did, maxEvents: nat, seen: ControllerLog, loaded: ControllerLog, log: ControllerLog)
    requires Sound(c) && Stored(c, did, seen, maxEvents) && Follows(c, did, maxEvents, seen, loaded, log)
    requires Folds(c, did, log.chain) && HeadState(c, did, log.chain) == HeadState(c, did, seen.chain)
    ensures Kept(c, did, maxEvents, seen, log)
  {
    hide Folds, ChainStates, HeadState, MemoryFold, HeadWithin, IsAnswer, Sound, MembersKept, NoLater, Spares, Only;
    var fold :| IsAnswer(c, did, Some(seen), loaded, maxEvents, log, fold);
    StoredMoves(c, did, seen, loaded, maxEvents, log, fold, StoredOrder(c, did, seen, maxEvents));
    NothingStoredForgotten(c, did, seen, loaded, maxEvents, log, fold);
    AnswerRemembered(c, did, Some(seen), loaded, maxEvents, log, fold);
    SaturationWithin(MemoryFold(c, did, seen, maxEvents), fold.epoch);
    HeadsCarry(MemoryFold(c, did, seen, maxEvents), fold.epoch, MemoryFold(c, did, log, maxEvents));
  }

  lemma SaturationWithin(a: EpochFold, b: EpochFold)
    requires Within(a, b)
    ensures a.head.saturated ==> b.head.saturated
  {
  }

  lemma HeadsCarry(a: EpochFold, b: EpochFold, m: EpochFold)
    requires Within(a, b) && m.Merged? && (!m.head.saturated ==> m.head == b.head && m.applied == b.applied)
    ensures !m.head.saturated ==> Within(a, m)
  {
    hide HeadWithin;
  }

  lemma KeptTransitive(c: Suite, did: Did, maxEvents: nat, x: ControllerLog, y: ControllerLog, z: ControllerLog)
    requires Kept(c, did, maxEvents, x, y) && Kept(c, did, maxEvents, y, z)
    ensures Kept(c, did, maxEvents, x, z)
  {
    hide Folds, MemoryFold, NoLater;
    NoLaterTransitive(StoredOrder(c, did, z, maxEvents), StoredOrder(c, did, y, maxEvents), StoredOrder(c, did, x, maxEvents));
  }

  lemma KeptSelf(c: Suite, did: Did, maxEvents: nat, log: ControllerLog)
    requires Folds(c, did, log.chain) && MemoryFold(c, did, log, maxEvents).Merged?
    ensures Kept(c, did, maxEvents, log, log)
  {
    hide Folds, MemoryFold;
  }

  lemma {:induction false} StoredMerges(c: Suite, did: Did, log: ControllerLog, maxEvents: nat)
    requires Sound(c) && Stored(c, did, log, maxEvents)
    ensures MemoryFold(c, did, log, maxEvents).Merged?
  {
    hide Folds, ChainStates, FoldSpec, ViewOf, EpochOf, StoredFrom, Sound;
    EpochSuite(c, did, ChainStates(c, did, log.chain));
    var view :| StoredFrom(EpochAt(c, did, log), view, log.events, maxEvents);
    StoredRefolds(EpochAt(c, did, log), view, log.events, maxEvents);
  }

  lemma {:induction false} RunStored(c: Suite, did: Did, maxEvents: nat, logs: seq<ControllerLog>, loads: seq<ControllerLog>, j: nat)
    requires IsRun(c, did, maxEvents, logs, loads) && Stored(c, did, logs[0], maxEvents) && j < |logs|
    ensures Stored(c, did, logs[j], maxEvents)
  {
    hide Folds, Stored, IsAnswer;
    if j > 0 {
      assert Follows(c, did, maxEvents, logs[j - 1], loads[j - 1], logs[j - 1 + 1]);
      var fold :| IsAnswer(c, did, Some(logs[j - 1]), loads[j - 1], maxEvents, logs[j], fold);
      AnswersStored(c, did, Some(logs[j - 1]), loads[j - 1], maxEvents, logs[j], fold);
    }
  }

  /** A head between two equal ones is theirs. */
  lemma {:induction false} HeadBetween(c: Suite, did: Did, x: Chain, y: Chain, z: Chain)
    requires NotBack(c, did, x, y) && NotBack(c, did, y, z) && HeadState(c, did, x) == HeadState(c, did, z)
    ensures HeadState(c, did, y) == HeadState(c, did, x)
  {
    hide Folds, HeadState, Top;
  }

  /** Over any run, while the head stays what it was: a saturated memory stays saturated, and one that is
      not has forgotten nothing it held. */
  lemma {:induction false} RunForgetsNothing(c: Suite, did: Did, maxEvents: nat, logs: seq<ControllerLog>, loads: seq<ControllerLog>, i: nat, j: nat)
    requires Sound(c) && IsRun(c, did, maxEvents, logs, loads) && Stored(c, did, logs[0], maxEvents) && i <= j < |logs|
    requires Folds(c, did, logs[i].chain) && Folds(c, did, logs[j].chain)
    requires HeadState(c, did, logs[i].chain) == HeadState(c, did, logs[j].chain)
    ensures Kept(c, did, maxEvents, logs[i], logs[j])
    decreases j
  {
    hide Folds, Stored, IsAnswer, HeadState, NotBack, Kept, Sound, Follows, MemoryFold;
    RunStored(c, did, maxEvents, logs, loads, i);
    StoredMerges(c, did, logs[i], maxEvents);
    if i == j {
      KeptSelf(c, did, maxEvents, logs[i]);
    } else {
      RunNeverBack(c, did, maxEvents, logs, loads, i, j - 1);
      RunNeverBack(c, did, maxEvents, logs, loads, j - 1, j);
      RunFolds(c, did, maxEvents, logs, loads, j - 1);
      HeadBetween(c, did, logs[i].chain, logs[j - 1].chain, logs[j].chain);
      RunForgetsNothing(c, did, maxEvents, logs, loads, i, j - 1);
      RunStored(c, did, maxEvents, logs, loads, j - 1);
      assert Follows(c, did, maxEvents, logs[j - 1], loads[j - 1], logs[j - 1 + 1]);
      MemoryStep(c, did, maxEvents, logs[j - 1], loads[j - 1], logs[j]);
      KeptTransitive(c, did, maxEvents, logs[i], logs[j - 1], logs[j]);
    }
  }

  /** Where each stored order is no later than the one before, what starts the last has started each of them. */
  lemma StartsBetween(kept: seq<int>, middle: seq<int>, last: seq<int>)
    requires NoLater(middle, kept) && NoLater(last, middle) && kept <= last
    ensures kept <= middle
  {
    hide FirstSmaller;
    if i :| FirstSmaller(middle, kept, i) {
      SmallerOneWay(middle, kept, i);
      NoLaterTransitive(last, middle, kept);
      LaterBeyond(last, middle, kept, i);
    }
  }

  lemma LaterBeyond(last: seq<int>, middle: seq<int>, kept: seq<int>, i: int)
    requires NoLater(last, middle) && FirstSmaller(middle, kept, i)
    ensures !(kept <= last)
  {
    if middle <= last {
      assert last[i] == middle[i];
    } else {
      var j :| FirstSmaller(last, middle, j);
      if j <= i {
        assert middle[..j] == middle[..i][..j] == kept[..i][..j] == kept[..j];
      } else {
        assert last[i] == last[..j][i] == middle[..j][i] == middle[i];
      }
    }
  }

  /** Over any run, while the head stays: all that was stored is still stored and in its place if and only if at
      no call between did an event newly apply that could have been taken before one of it. A saturated memory
      has no room beside that, so then it holds exactly what it held. */
  lemma {:induction false} RunKeepsIff(c: Suite, did: Did, maxEvents: nat, logs: seq<ControllerLog>, loads: seq<ControllerLog>, i: nat, j: nat)
    requires Sound(c) && IsRun(c, did, maxEvents, logs, loads) && Stored(c, did, logs[0], maxEvents) && i <= j < |logs|
    requires Folds(c, did, logs[i].chain) && Folds(c, did, logs[j].chain)
    requires HeadState(c, did, logs[i].chain) == HeadState(c, did, logs[j].chain)
    ensures var kept := StoredOrder(c, did, logs[i], maxEvents);
      (kept <= StoredOrder(c, did, logs[j], maxEvents)) <==>
      (forall t :: i <= t < j ==> Spares(c, did, logs[t], loads[t], maxEvents, logs[t + 1], kept))
    ensures |StoredOrder(c, did, logs[i], maxEvents)| == maxEvents + 1 ==> |StoredOrder(c, did, logs[j], maxEvents)| == maxEvents + 1
    decreases j
  {
    hide Folds, Stored, IsAnswer, HeadState, NotBack, Sound, Follows, MemoryFold, Spares, NoLater, Only, StoredOrder;
    var kept := StoredOrder(c, did, logs[i], maxEvents);
    if i < j {
      RunNeverBack(c, did, maxEvents, logs, loads, i, j - 1);
      RunNeverBack(c, did, maxEvents, logs, loads, j - 1, j);
      RunFolds(c, did, maxEvents, logs, loads, j - 1);
      HeadBetween(c, did, logs[i].chain, logs[j - 1].chain, logs[j].chain);
      RunKeepsIff(c, did, maxEvents, logs, loads, i, j - 1);
      RunForgetsNothing(c, did, maxEvents, logs, loads, i, j - 1);
      RunStored(c, did, maxEvents, logs, loads, j - 1);
      StepKeepsIff(c, did, maxEvents, logs[j - 1], loads[j - 1], logs[j], kept);
    }
  }

  lemma {:induction false} StepKeepsIff(c: Suite, did: Did, maxEvents: nat, seen: ControllerLog, loaded: ControllerLog, log: ControllerLog,
      kept: seq<Digest>)
    requires Sound(c) && Stored(c, did, seen, maxEvents) && Follows(c, did, maxEvents, seen, loaded, log)
    requires Folds(c, did, seen.chain) && Folds(c, did, log.chain) && HeadState(c, did, log.chain) == HeadState(c, did, seen.chain)
    requires NoLater(StoredOrder(c, did, seen, maxEvents), kept)
    ensures (kept <= StoredOrder(c, did, log, maxEvents)) <==>
      (kept <= StoredOrder(c, did, seen, maxEvents) && Spares(c, did, seen, loaded, maxEvents, log, kept))
    ensures |StoredOrder(c, did, seen, maxEvents)| <= |StoredOrder(c, did, log, maxEvents)| <= maxEvents + 1
  {
    hide Folds, Stored, IsAnswer, HeadState, Sound, MemoryFold, Spares, NoLater, Only, StoredOrder;
    var fold :| IsAnswer(c, did, Some(seen), loaded, maxEvents, log, fold);
    var before, now := StoredOrder(c, did, seen, maxEvents), StoredOrder(c, did, log, maxEvents);
    StoredMoves(c, did, seen, loaded, maxEvents, log, fold, before);
    AnswerKept(c, did, Some(seen), loaded, maxEvents, log, fold);
    if kept <= now {
      StartsBetween(kept, before, now);
    }
    if kept <= before {
      StoredMoves(c, did, seen, loaded, maxEvents, log, fold, kept);
    }
  }
}
