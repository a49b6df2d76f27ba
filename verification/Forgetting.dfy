/** When a saturated memory forgets: what it must be presented with, and that there is such an input for every
    limit. The input is built under a suite that accepts everything: one inception, as many revocations by root
    on its opening as memory has room for, and then the one among them with the smallest digest, which was held
    back. It is applied before all the others, and the last of them is no longer stored. */
module Forgetting {
  import opened Basics
  import opened Dag
  import opened Events
  import opened ChainFacts
  import opened ChainHistory
  import opened EpochSpec
  import opened EpochTheorems
  import opened EpochMemory
  import opened EpochKept
  import opened EpochMerge
  import opened OrderGrowth
  import opened EpochDisplaced
  import opened LogFolds
  import opened Resolve
  import opened Log
  import opened History
  import opened HistoryRuns
  import opened HistoryMemory
  import opened OpenSuite
  import opened OpeningEvents

  // ---------------------------------------------------------------- what is lost

  lemma {:induction false} OnlyAll(order: seq<int>, keep: set<int>)
    requires |Only(order, keep)| == |order|
    ensures Only(order, keep) == order
  {
    if order != [] {
      OnlyAll(order[..|order| - 1], keep);
    }
  }

  lemma LastGone(now: seq<int>, kept: seq<int>)
    requires Only(now, Elems(kept)) <= kept && |now| == |kept| && now != kept && Distinct(kept)
    ensures kept != [] && kept[|kept| - 1] !in now
  {
    var left, last := Only(now, Elems(kept)), kept[|kept| - 1];
    assert last in Elems(kept);
    if last in now {
      assert last in Elems(now) && last in Elems(left);
      var i :| 0 <= i < |left| && left[i] == last;
      assert kept[i] == last;
      OnlyAll(now, Elems(kept));
    }
  }

  /** A saturated memory that is presented with an event which newly applies and could have been taken before
      one it holds, a genuine event on the opening with a smaller digest for one, forgets the last it holds. */
  lemma {:induction false} SmallerDisplaces(c: Suite, did: Did, seen: ControllerLog, loaded: ControllerLog, maxEvents: nat,
      log: ControllerLog, fold: LogFold, d: Digest, i: nat)
    requires Sound(c) && Stored(c, did, seen, maxEvents) && IsAnswer(c, did, Some(seen), loaded, maxEvents, log, fold)
    requires Folds(c, did, log.chain) && HeadState(c, did, log.chain).digest == HeadState(c, did, seen.chain).digest
    requires var kept := StoredOrder(c, did, seen, maxEvents);
      && |kept| == maxEvents + 1 && i < |kept| && fold.LogFolded? && fold.epoch.Merged?
      && d in fold.epoch.applied && d !in kept && d in fold.epoch.authentic && d <= kept[i]
      && ParentsIn(EpochAt(c, did, log).anchor.epoch, fold.epoch.authentic[d].event.p, Elems(kept[..i]))
    ensures var kept, now := StoredOrder(c, did, seen, maxEvents), StoredOrder(c, did, log, maxEvents);
      |now| == |kept| && kept[|kept| - 1] !in now
  {
    hide Folds, ChainStates, FoldSpec, ViewOf, EpochOf, Sound, StoredFrom, IsAnswer, FoldsOn, Only, NoLater, MemoryFold, StoredOrder, HeadState;
    var kept, now := StoredOrder(c, did, seen, maxEvents), StoredOrder(c, did, log, maxEvents);
    StoredMoves(c, did, seen, loaded, maxEvents, log, fold, kept);
    SeenFoldsOn(c, did, seen, loaded, maxEvents, log, fold);
    AnswerKept(c, did, Some(seen), loaded, maxEvents, log, fold);
    assert !NoneBefore(EpochAt(c, did, log).anchor.epoch, fold.epoch, kept);
    StoredDistinct(c, did, seen, maxEvents);
    LastGone(now, kept);
  }

  lemma {:induction false} StoredDistinct(c: Suite, did: Did, log: ControllerLog, maxEvents: nat)
    requires Folds(c, did, log.chain)
    ensures Distinct(StoredOrder(c, did, log, maxEvents))
  {
    hide Folds, ChainStates, ViewOf, EpochOf, GraphOf, Union, Reasons, AuthenticCopies, MembersOf, Applied, Charges, Evaluated;
    var ep := EpochAt(c, did, log);
    AppliedOrder(ep, GraphOf(ep, ViewOf(ep, log.events, [])));
  }

  // ---------------------------------------------------------------- an input for every limit

  ghost function Revocation(k: nat): EpochEvent {
    EpochEvent(Owner(), 0, OpeningDigest(), [OpeningDigest()], None, Revoke(OpaqueTarget(k)))
  }

  ghost function RevocationDigest(k: nat): Digest {
    OfBody(OfEpoch(Revocation(k)))
  }

  ghost function Entry(k: nat): EpochEntry {
    Typed(EpochCopy(Revocation(k), [0]))
  }

  lemma RevocationPlain(k: nat)
    requires Folds(Accepting(), Owner(), OpeningChain())
    ensures var ep := OpeningEpoch();
      && PlainEvent(ep, Revocation(k)) && Genuine(ep, Revocation(k), [0], ep.anchor.keys)
      && WellFormed(ep, Entry(k)) && DigestOf(ep, Revocation(k)) == RevocationDigest(k)
  {
    hide OfBody, OfList, ChainStates, Folds;
    OpeningFolds();
  }

  lemma RevocationsApart(j: nat, k: nat)
    ensures RevocationDigest(j) == RevocationDigest(k) ==> j == k
  {
    hide OfBody;
    if RevocationDigest(j) == RevocationDigest(k) {
      BodiesApart(OfEpoch(Revocation(j)), OfEpoch(Revocation(k)));
    }
  }

  /** Revocations presented on the opening, alone or to a memory of some. */
  ghost function Presented(ks: seq<nat>): ControllerLog {
    ControllerLog(OpeningChain(), seq(|ks|, i requires 0 <= i < |ks| => Entry(ks[i])))
  }

  ghost function DigestsOf(ks: seq<nat>): seq<Digest> {
    seq(|ks|, i requires 0 <= i < |ks| => RevocationDigest(ks[i]))
  }

  lemma {:induction false} PresentedPlain(ks: seq<nat>, held: map<Digest, EpochCopy>, junk: nat)
    requires Folds(Accepting(), Owner(), OpeningChain())
    requires WellView(OpeningEpoch(), View(held, Present(OpeningEpoch(), Presented(ks).events), junk))
    requires forall d :: d in held ==> PlainEvent(OpeningEpoch(), held[d].event)
    ensures AllPlain(OpeningEpoch(), View(held, Present(OpeningEpoch(), Presented(ks).events), junk))
    ensures LocalDigests(OpeningEpoch(), Present(OpeningEpoch(), Presented(ks).events)) == Elems(DigestsOf(ks))
  {
    hide OfBody, OfList, ChainStates, Folds, WellView, PlainEvent, Genuine, WellFormed, Revocation, RevocationDigest, OpeningChain, Owner, OpeningEpoch;
    var ep, events := OpeningEpoch(), Presented(ks).events;
    forall x | x in Present(ep, events)
      ensures exists i :: 0 <= i < |ks| && x == Entry(ks[i]).copy
      ensures PlainEvent(ep, x.event) && Genuine(ep, x.event, x.sigs, ep.anchor.keys)
      ensures DigestOf(ep, x.event) in Elems(DigestsOf(ks))
    {
      var i :| 0 <= i < |events| && events[i].Typed? && events[i].copy == x;
      RevocationPlain(ks[i]);
      assert DigestsOf(ks)[i] == DigestOf(ep, x.event);
    }
    forall d | d in Elems(DigestsOf(ks)) ensures d in LocalDigests(ep, Present(ep, events)) {
      var i :| 0 <= i < |ks| && DigestsOf(ks)[i] == d;
      RevocationPlain(ks[i]);
      assert events[i] == Entry(ks[i]) && Entry(ks[i]).copy in Present(ep, events);
      PlainLocal(ep, Revocation(ks[i]));
    }
  }

  /** What is answered when a log on the opening chain is presented. */
  ghost function OpeningFold(seen: seq<EpochEntry>, loaded: ControllerLog, maxEvents: nat): EpochFold
    requires Folds(Accepting(), Owner(), OpeningChain())
  {
    FoldSpec(OpeningEpoch(), ViewOf(OpeningEpoch(), seen, loaded.events), maxEvents)
  }

  ghost function OpeningAnswer(r: EpochFold, maxEvents: nat): ControllerLog
    requires r.Merged?
  {
    ControllerLog(OpeningChain(), Entries(CopiesIn(r.authentic, KeptOrder(r, maxEvents))))
  }

  lemma AnswerIs(seen: Option<ControllerLog>, loaded: ControllerLog, maxEvents: nat)
    requires Folds(Accepting(), Owner(), OpeningChain()) && loaded.chain == OpeningChain() && |loaded.events| <= MAX_LOG_EVENTS
    requires seen.Some? ==> seen.value.chain == OpeningChain()
    requires OpeningFold(if seen.Some? then seen.value.events else [], loaded, maxEvents).Merged?
    ensures var r := OpeningFold(if seen.Some? then seen.value.events else [], loaded, maxEvents);
      IsAnswer(Accepting(), Owner(), seen, loaded, maxEvents, OpeningAnswer(r, maxEvents),
        LogFolded(ChainStates(Accepting(), Owner(), OpeningChain()), r))
  {
    hide Folds, ChainStates, FoldSpec, ViewOf, EpochOf, CopiesIn, KeptOrder, OpeningChain, Accepting, IsOutcome, Top;
    var c, did, chain := Accepting(), Owner(), OpeningChain();
    HeadIsLast(c, did, chain);
    if seen.Some? {
      assert HeadState(c, did, chain) in ChainStates(c, did, chain);
      assert PassesThrough(c, did, chain, HeadState(c, did, chain).digest);
    }
  }

  /** Told of just as many revocations as it has room for, a memory holds them all and is saturated. */
  lemma {:induction false} FirstAnswer(ks: seq<nat>, maxEvents: nat)
    requires Folds(Accepting(), Owner(), OpeningChain()) && Sound(OpeningEpoch().suite)
    requires |ks| == maxEvents + 1 && Distinct(DigestsOf(ks))
    ensures var r := OpeningFold([], Presented(ks), maxEvents);
      && r.Merged? && KeptOrder(r, maxEvents) == r.applied && Elems(r.applied) == Elems(DigestsOf(ks)) && |r.applied| == maxEvents + 1
      && ViewOf(OpeningEpoch(), OpeningAnswer(r, maxEvents).events, []) == View(Restrict(r.authentic, Elems(r.applied)), {}, 0)
      && forall d :: d in r.applied ==> d in r.authentic && PlainEvent(OpeningEpoch(), r.authentic[d].event)
  {
    hide Folds, ChainStates, FoldSpec, OpeningEpoch, WellView, AllPlain, PlainEvent, CopiesIn, Sound, Presented, LocalDigests, Restrict, Present, DigestsOf;
    var ep := OpeningEpoch();
    var view := ViewOf(ep, [], Presented(ks).events);
    ViewsWell(ep, [], Presented(ks).events);
    PresentedPlain(ks, view.held, view.junk);
    PlainFolds(ep, view, maxEvents);
    var r := FoldSpec(ep, view, maxEvents);
    DistinctSize(r.applied);
    DistinctSize(DigestsOf(ks));
    SizeOf(ks);
    KeptPresented(ep, view, maxEvents);
  }

  lemma SizeOf(ks: seq<nat>)
    ensures |DigestsOf(ks)| == |ks|
  {
    hide RevocationDigest;
  }

  /** Told of one more, it applies that one too. */
  lemma {:induction false} SecondAnswer(held: map<Digest, EpochCopy>, seen: seq<EpochEntry>, k: nat, maxEvents: nat)
    requires Folds(Accepting(), Owner(), OpeningChain()) && Sound(OpeningEpoch().suite)
    requires ViewOf(OpeningEpoch(), seen, []) == View(held, {}, 0)
    requires forall d :: d in held ==> PlainEvent(OpeningEpoch(), held[d].event)
    ensures var r := OpeningFold(seen, Presented([k]), maxEvents);
      && r.Merged? && RevocationDigest(k) in r.applied && RevocationDigest(k) in r.authentic
      && r.authentic[RevocationDigest(k)].event.p == [OpeningEpoch().anchor.epoch]
  {
    hide Folds, ChainStates, FoldSpec, OpeningEpoch, WellView, AllPlain, CopiesIn, Sound, Presented, LocalDigests, Present, DigestsOf, RevocationDigest, Local;
    var ep := OpeningEpoch();
    var view := ViewOf(ep, seen, Presented([k]).events);
    HeldEither(ep, seen, Presented([k]).events);
    ViewsWell(ep, seen, Presented([k]).events);
    PresentedPlain([k], held, view.junk);
    PlainFolds(ep, view, maxEvents);
    OneDigest(k);
    assert RevocationDigest(k) in Elems(FoldSpec(ep, view, maxEvents).applied);
  }

  lemma OneDigest(k: nat)
    ensures RevocationDigest(k) in Elems(DigestsOf([k]))
  {
    hide RevocationDigest;
    assert DigestsOf([k])[0] == RevocationDigest(k);
  }

  /** All but one of the first `n + 1` numbers. */
  ghost function Others(n: nat, k: nat): seq<nat> {
    seq(n, i => if i < k then i else i + 1)
  }

  lemma OthersApart(n: nat, k: nat)
    ensures Distinct(DigestsOf(Others(n, k))) && RevocationDigest(k) !in DigestsOf(Others(n, k))
    ensures |Others(n, k)| == n && |DigestsOf(Others(n, k))| == n
    ensures forall d :: d in DigestsOf(Others(n, k)) ==> exists j :: 0 <= j <= n && d == RevocationDigest(j)
  {
    hide RevocationDigest;
    var ks := Others(n, k);
    SizeOf(ks);
    forall i, j | 0 <= i < n && 0 <= j < n && i != j ensures DigestsOf(ks)[i] != DigestsOf(ks)[j] {
      RevocationsApart(ks[i], ks[j]);
    }
    forall i | 0 <= i < n ensures DigestsOf(ks)[i] != RevocationDigest(k) {
      RevocationsApart(ks[i], k);
    }
  }

  /** The revocation among the first `n + 1` whose digest is the smallest. */
  lemma {:induction false} Smallest(n: nat) returns (k: nat)
    ensures k <= n && forall j: nat :: j <= n ==> RevocationDigest(k) <= RevocationDigest(j)
  {
    hide RevocationDigest;
    k := 0;
    if n > 0 {
      k := Smallest(n - 1);
      if RevocationDigest(n) < RevocationDigest(k) {
        k := n;
      }
    }
  }

  /** A memory filled with `ks` and then told of `k`, whose digest is smaller than all of theirs. */
  lemma {:induction false} RunOfTwo(ks: seq<nat>, k: nat, maxEvents: nat) returns (seen: ControllerLog, loaded: ControllerLog, log: ControllerLog)
    requires Folds(Accepting(), Owner(), OpeningChain()) && Sound(Accepting()) && OpeningEpoch().suite == Accepting()
    requires |ks| == maxEvents + 1 <= MAX_LOG_EVENTS && Distinct(DigestsOf(ks)) && RevocationDigest(k) !in DigestsOf(ks)
    requires forall d :: d in DigestsOf(ks) ==> RevocationDigest(k) <= d
    ensures Stored(Accepting(), Owner(), seen, maxEvents) && Follows(Accepting(), Owner(), maxEvents, seen, loaded, log)
    ensures Folds(Accepting(), Owner(), log.chain) && log.chain == seen.chain && |loaded.events| == 1
    ensures var kept, now := StoredOrder(Accepting(), Owner(), seen, maxEvents), StoredOrder(Accepting(), Owner(), log, maxEvents);
      |kept| == |now| == maxEvents + 1 && kept[maxEvents] !in now
  {
    hide Folds, ChainStates, FoldSpec, EpochOf, PlainEvent, CopiesIn, Sound, Restrict, DigestsOf, RevocationDigest, IsAnswer, ViewOf, StoredFrom,
      StoredOrder, KeptOrder, Accepting, Owner, OpeningChain, HeadState;
    var c, did := Accepting(), Owner();
    var first := Presented(ks);
    FirstAnswer(ks, maxEvents);
    var r := OpeningFold([], first, maxEvents);
    seen := OpeningAnswer(r, maxEvents);
    AnswerIs(None, first, maxEvents);
    AnswersStored(c, did, None, first, maxEvents, seen, LogFolded(ChainStates(c, did, OpeningChain()), r));
    AnswerKept(c, did, None, first, maxEvents, seen, LogFolded(ChainStates(c, did, OpeningChain()), r));
    loaded := Presented([k]);
    RestrictHolds(r.authentic, Elems(r.applied));
    SecondAnswer(Restrict(r.authentic, Elems(r.applied)), seen.events, k, maxEvents);
    var s := OpeningFold(seen.events, loaded, maxEvents);
    log := OpeningAnswer(s, maxEvents);
    AnswerIs(Some(seen), loaded, maxEvents);
    var fold := LogFolded(ChainStates(c, did, OpeningChain()), s);
    assert Follows(c, did, maxEvents, seen, loaded, log);
    assert r.applied[0] in Elems(r.applied) && r.applied[0] in DigestsOf(ks);
    assert RevocationDigest(k) !in Elems(r.applied);
    SmallerDisplaces(c, did, seen, loaded, maxEvents, log, fold, RevocationDigest(k), 0);
  }

  lemma RestrictHolds<V>(m: map<Digest, V>, keys: set<Digest>)
    ensures forall d :: d in Restrict(m, keys) ==> d in m && d in keys && Restrict(m, keys)[d] == m[d]
  {
  }

  /** The current epoch's events are not only added to: for every limit a caller can fill there is a run of two
      calls on one opening in which the second is presented one genuine event more, a saturated memory stays
      saturated, and an event it held is forgotten. */
  lemma {:induction false} SaturatedForgets(maxEvents: nat) returns (c: Suite, did: Did, seen: ControllerLog, loaded: ControllerLog, log: ControllerLog)
    requires maxEvents < MAX_LOG_EVENTS
    ensures Sound(c) && Stored(c, did, seen, maxEvents) && Follows(c, did, maxEvents, seen, loaded, log)
    ensures Folds(c, did, log.chain) && log.chain == seen.chain && |loaded.events| == 1
    ensures var kept, now := StoredOrder(c, did, seen, maxEvents), StoredOrder(c, did, log, maxEvents);
      |kept| == |now| == maxEvents + 1 && kept[maxEvents] !in now
  {
    hide Folds, ChainStates, Sound, Stored, Follows, RevocationDigest, Accepting, Owner, OpeningChain, OpeningEpoch, StoredOrder, DigestsOf;
    OpeningFolds();
    AcceptingSound();
    c, did := Accepting(), Owner();
    var k := Smallest(maxEvents + 1);
    var ks := Others(maxEvents + 1, k);
    OthersApart(maxEvents + 1, k);
    seen, loaded, log := RunOfTwo(ks, k, maxEvents);
  }
}
