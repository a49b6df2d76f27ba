/** `mergeLogs` and the in-memory store: combining two views of one log, and keeping one log per DID. A store
    takes presentations of a DID one after another and merges each into what the one before it left; what it
    has held for a DID is recorded as a history, and along that history no log goes back. A merge of two logs
    keeps every copy of every event, which is what lets a genuine copy outlive a forged one. */
module LogMerge {
  import opened Basics
  import opened Events
  import opened ChainFacts
  import opened ChainHistory
  import opened Branches
  import opened Resolve
  import opened SelectWinner
  import opened EpochSpec
  import opened LogFolds
  import opened Log
  import opened History
  import opened HistoryRuns

  // ---------------------------------------------------------------- the chain two logs agree on

  datatype Agreed = Agreed(chain: Chain) | Forked(duplicity: Duplicity) | NeitherFolds

  /** `b`'s chain when it passes through `a`'s head, else whatever branch resolution names. */
  method SettledChain(c: Suite, did: Did, a: Chain, b: Chain) returns (r: Agreed)
    requires Sound(c)
    ensures r.Agreed? ==> r.chain in [a, b] && Folds(c, did, r.chain)
    ensures r.Agreed? && Folds(c, did, a) ==> NotBack(c, did, a, r.chain)
    ensures r.Agreed? && Folds(c, did, b) ==> NotBack(c, did, b, r.chain)
    ensures Folds(c, did, a) && Folds(c, did, b) && PassesThrough(c, did, b, HeadState(c, did, a).digest) ==> r == Agreed(b)
    ensures r.Agreed? && !(Folds(c, did, a) && Folds(c, did, b) && PassesThrough(c, did, b, HeadState(c, did, a).digest))
      ==> IsOutcome(c, did, [a, b], Wins(Top(c, did, r.chain)))
    ensures r.Forked? ==> IsOutcome(c, did, [a, b], Forks(r.duplicity))
    ensures r.NeitherFolds? <==> !Folds(c, did, a) && !Folds(c, did, b)
  {
    hide Folds, FoldLogOf, IsOutcome, Sound, Top, NotBack, HeadState, ChainStates, Accounted;
    ChainAlone(c, did, a);
    ChainAlone(c, did, b);
    if Folds(c, did, a) {
      HeadIsLast(c, did, a);
    }
    var left := FoldLog(c, did, a, []);
    var right := FoldLog(c, did, b, []);
    if left.LogFolded? && right.LogFolded? && exists s :: s in right.states && s.digest == left.states[|left.states| - 1].digest {
      PassingIsNotBack(c, did, a, b);
      StandsStill(c, did, b);
      return Agreed(b);
    }
    var resolved := ResolveBranches(c, did, [a, b]);
    if resolved.Duplicitous? {
      ForkFolds(c, did, [a, b], resolved.duplicity);
      return Forked(resolved.duplicity);
    }
    if resolved.NoValidBranch? {
      NoneValid(c, did, a, b);
      return NeitherFolds;
    }
    WinnerNotBack(c, did, [a, b], resolved.winner, a);
    WinnerNotBack(c, did, [a, b], resolved.winner, b);
    r := Agreed(resolved.winner);
  }

  lemma NoneValid(c: Suite, did: Did, a: Chain, b: Chain)
    requires IsOutcome(c, did, [a, b], NoBranch)
    ensures !Folds(c, did, a) && !Folds(c, did, b)
  {
    hide Folds, IsOutcome;
    if Folds(c, did, a) {
      SomeValid(c, did, [a, b], a);
    }
    if Folds(c, did, b) {
      SomeValid(c, did, [a, b], b);
    }
  }

  lemma ForkFolds(c: Suite, did: Did, chains: seq<Chain>, report: Duplicity)
    requires IsOutcome(c, did, chains, Forks(report))
    ensures exists chain :: chain in chains && Folds(c, did, chain)
  {
    hide Folds, HasTopGen, IsVerdict, HistoriesAt;
  }

  /** The winner among chains goes no further back than any of them. */
  lemma {:induction false} WinnerNotBack(c: Suite, did: Did, chains: seq<Chain>, winner: Chain, chain: Chain)
    requires Sound(c) && winner in chains && Folds(c, did, winner) && IsOutcome(c, did, chains, Wins(Top(c, did, winner)))
    requires chain in chains
    ensures Folds(c, did, chain) ==> NotBack(c, did, chain, winner)
  {
    hide Folds, IsOutcome, Sound, Top, HeadState, ChainStates;
    if Folds(c, did, chain) {
      WinnerExtends(c, did, chains, winner, chain);
      if HeadState(c, did, chain).gen == HeadState(c, did, winner).gen {
        ExtensionPasses(c, did, chain, winner, winner);
        PassingIsNotBack(c, did, chain, winner);
      }
    }
  }

  // ---------------------------------------------------------------- the events

  /** The union of two lists of events, each copy once: copies of one event with different signatures are
      kept beside each other, and entries that are no epoch events are dropped. */
  method MergeEvents(c: Suite, entries: seq<EpochEntry>) returns (events: seq<EpochEntry>)
    requires Sound(c)
    ensures Distinct(events)
    ensures forall x :: x in events <==> x in entries && x.Typed? && IsEpochShape(c, x.copy)
  {
    hide Sound, IsEpochShape;
    events := [];
    var kept: map<Digest, seq<seq<Sig>>> := map[];
    for i := 0 to |entries|
      invariant Distinct(events)
      invariant forall x :: x in events <==> x in entries[..i] && x.Typed? && IsEpochShape(c, x.copy)
      invariant CopiesFiled(c, events, kept)
    {
      assert entries[..i + 1] == entries[..i] + [entries[i]];
      var entry := entries[i];
      if entry.Typed? && IsEpochShape(c, entry.copy) {
        var digest := c.digestOf(OfEpoch(entry.copy.event));
        var signatures := if digest in kept then kept[digest] else [];
        FiledAgain(c, events, kept, entry.copy);
        if entry.copy.sigs !in signatures {
          kept := kept[digest := signatures + [entry.copy.sigs]];
          events := events + [entry];
        }
      }
    }
    assert entries[..|entries|] == entries;
  }

  /** What is filed under a digest is exactly the signature lists of its copies. */
  ghost predicate CopiesFiled(c: Suite, events: seq<EpochEntry>, kept: map<Digest, seq<seq<Sig>>>) {
    forall x: EpochCopy :: Typed(x) in events <==>
      c.digestOf(OfEpoch(x.event)) in kept && x.sigs in kept[c.digestOf(OfEpoch(x.event))]
  }

  lemma FiledAgain(c: Suite, events: seq<EpochEntry>, kept: map<Digest, seq<seq<Sig>>>, copy: EpochCopy)
    requires Sound(c) && CopiesFiled(c, events, kept)
    ensures var digest := c.digestOf(OfEpoch(copy.event));
      var signatures := if digest in kept then kept[digest] else [];
      && (copy.sigs in signatures <==> Typed(copy) in events)
      && CopiesFiled(c, events + [Typed(copy)], kept[digest := signatures + [copy.sigs]])
  {
    var digest := c.digestOf(OfEpoch(copy.event));
    forall x: EpochCopy | c.digestOf(OfEpoch(x.event)) == digest ensures x.event == copy.event {
      OneEpochEvent(c, x.event, copy.event);
    }
  }

  /** Merging two lists loses nothing: any epoch merges the union as it would the two lists together, down to
      the junk entries refused. */
  lemma {:induction false} UnionFoldsAlike(ep: Epoch, trusted: seq<EpochEntry>, entries: seq<EpochEntry>, events: seq<EpochEntry>, maxEvents: nat)
    requires forall x :: x in events <==> x in entries && x.Typed? && IsEpochShape(ep.suite, x.copy)
    ensures var r, s := FoldSpec(ep, ViewOf(ep, trusted, entries), maxEvents), FoldSpec(ep, ViewOf(ep, trusted, events), maxEvents);
      && r.Merged? == s.Merged?
      && (r.Merged? ==> r == s.(rejected := s.rejected + JunkCount(ep, entries)))
  {
    hide IsEpochShape, Judge, Join, Applied, Union, AuthenticCopies, Charges, Evaluated, After, MembersOf, Total, Candidates, VerdictOn;
    assert Present(ep, events) == Present(ep, entries);
    NoJunk(ep, events);
    assert GraphOf(ep, ViewOf(ep, trusted, events)) == GraphOf(ep, ViewOf(ep, trusted, entries)) by {
      SameGraph(ep, ViewOf(ep, trusted, events), ViewOf(ep, trusted, entries));
    }
    SameGraph(ep, ViewOf(ep, trusted, events), ViewOf(ep, trusted, entries));
  }

  lemma {:induction false} NoJunk(ep: Epoch, events: seq<EpochEntry>)
    requires forall x :: x in events ==> x.Typed? && IsEpochShape(ep.suite, x.copy)
    ensures JunkCount(ep, events) == 0
  {
    hide IsEpochShape;
    if events != [] {
      NoJunk(ep, events[..|events| - 1]);
    }
  }

  lemma SameGraph(ep: Epoch, a: View, b: View)
    requires a.held == b.held && a.present == b.present
    ensures GraphOf(ep, a) == GraphOf(ep, b) && CrossEpoch(ep, a) == CrossEpoch(ep, b) && Reasons(ep, a) == Reasons(ep, b)
  {
    hide Judge, Join, After, Evaluated, VerdictOn, RefusedOnSight, RefusalOnSight, ListsOutside, OtherEpochs, LocalDigests, EventOf, CopiesOf;
    assert Candidates(ep, a) == Candidates(ep, b);
  }

  // ---------------------------------------------------------------- the store

  datatype MergedLog = MergedLog(log: ControllerLog) | TooLarge | ForkedLogs(duplicity: Duplicity) | NoChain

  /** Two views of one log merged: the chain they agree on, and the epoch events of both. */
  method MergeLogs(c: Suite, did: Did, left: ControllerLog, right: ControllerLog) returns (r: MergedLog)
    requires Sound(c)
    ensures r.TooLarge? <==> |left.events| > MAX_HELD_EVENTS || |right.events| > MAX_HELD_EVENTS
    ensures r.MergedLog? ==> r.log.chain in [left.chain, right.chain] && Folds(c, did, r.log.chain)
    ensures r.MergedLog? && Folds(c, did, left.chain) ==> NotBack(c, did, left.chain, r.log.chain)
    ensures r.MergedLog? && Folds(c, did, right.chain) ==> NotBack(c, did, right.chain, r.log.chain)
    ensures r.MergedLog? ==> Distinct(r.log.events)
    ensures r.MergedLog? ==> forall x :: x in r.log.events <==> x in left.events + right.events && x.Typed? && IsEpochShape(c, x.copy)
    ensures r.ForkedLogs? ==> IsOutcome(c, did, [left.chain, right.chain], Forks(r.duplicity))
    ensures r.NoChain? ==> !Folds(c, did, left.chain) && !Folds(c, did, right.chain)
  {
    hide Sound, Folds, NotBack, IsEpochShape, IsOutcome;
    if |left.events| > MAX_HELD_EVENTS || |right.events| > MAX_HELD_EVENTS {
      return TooLarge;
    }
    var agreed := SettledChain(c, did, left.chain, right.chain);
    if agreed.Forked? {
      return ForkedLogs(agreed.duplicity);
    }
    if agreed.NeitherFolds? {
      return NoChain;
    }
    var events := MergeEvents(c, left.events + right.events);
    r := MergedLog(ControllerLog(agreed.chain, events));
  }

  /** What one merge makes of what is stored: its answer's log, or, when the presentation is declined, nothing new. */
  ghost predicate Serves(c: Suite, did: Did, seen: Option<ControllerLog>, loaded: ControllerLog, next: Option<ControllerLog>) {
    || (exists maxEvents, log, fold :: IsAnswer(c, did, seen, loaded, maxEvents, log, fold) && next == Some(log))
    || (next == seen && exists maxEvents, refusal :: Justified(c, did, seen, loaded, maxEvents, refusal))
  }

  /** Presentations run one after another from nothing stored, each on what the one before it left. */
  ghost predicate Serial(c: Suite, did: Did, loads: seq<ControllerLog>, states: seq<Option<ControllerLog>>) {
    && |states| == |loads| + 1 && states[0] == None
    && (forall i :: 0 <= i < |loads| ==> Serves(c, did, states[i], loads[i], states[i + 1]))
  }

  lemma SerialNext(c: Suite, did: Did, loads: seq<ControllerLog>, states: seq<Option<ControllerLog>>, loaded: ControllerLog, next: Option<ControllerLog>)
    requires Serial(c, did, loads, states) && Serves(c, did, states[|loads|], loaded, next)
    ensures Serial(c, did, loads + [loaded], states + [next])
  {
    hide Serves;
  }

  /** In such a run nothing stored ever goes back or is lost. */
  lemma {:induction false} SerialNeverBack(c: Suite, did: Did, loads: seq<ControllerLog>, states: seq<Option<ControllerLog>>, i: nat, j: nat)
    requires Sound(c) && Serial(c, did, loads, states) && i <= j < |states| && states[i].Some?
    ensures states[j].Some? && Folds(c, did, states[i].value.chain) && NotBack(c, did, states[i].value.chain, states[j].value.chain)
    decreases j
  {
    hide IsAnswer, Justified, NotBack, Sound, Folds, Serves;
    if i < j {
      SerialNeverBack(c, did, loads, states, i, j - 1);
      SerialNeverBack(c, did, loads, states, j - 1, j - 1);
      assert Serves(c, did, states[j - 1], loads[j - 1], states[j - 1 + 1]);
      ServedOn(c, did, states[j - 1], loads[j - 1], states[j]);
      NotBackTransitive(c, did, states[i].value.chain, states[j - 1].value.chain, states[j].value.chain);
    } else if i > 0 {
      assert Serves(c, did, states[i - 1], loads[i - 1], states[i - 1 + 1]);
      if states[i - 1].Some? {
        SerialNeverBack(c, did, loads, states, i - 1, i - 1);
      }
      ServedOn(c, did, states[i - 1], loads[i - 1], states[i]);
      NotBackFolds(c, did, states[i].value.chain);
    }
  }

  lemma ServedOn(c: Suite, did: Did, seen: Option<ControllerLog>, loaded: ControllerLog, next: Option<ControllerLog>)
    requires Sound(c) && Serves(c, did, seen, loaded, next)
    requires seen.Some? ==> Folds(c, did, seen.value.chain) && NotBack(c, did, seen.value.chain, seen.value.chain)
    ensures next.Some? ==> NotBack(c, did, next.value.chain, next.value.chain)
    ensures seen.Some? ==> next.Some? && NotBack(c, did, seen.value.chain, next.value.chain)
  {
    hide IsAnswer, Justified, NotBack, Sound, Folds;
    if maxEvents, log, fold :| IsAnswer(c, did, seen, loaded, maxEvents, log, fold) && next == Some(log) {
      AnswerMoves(c, did, seen, loaded, maxEvents, log, fold);
    }
  }

  /** The presentations of a DID that have run, and what was stored before, between and after them. */
  datatype Past = Past(ran: seq<ControllerLog>, states: seq<Option<ControllerLog>>)

  /** Such a past led one merge at a time to what is stored now. */
  ghost predicate LedTo(c: Suite, did: Did, past: Past, log: Option<ControllerLog>) {
    && Serial(c, did, past.ran, past.states)
    && past.states[|past.ran|] == log
  }

  lemma NothingRan(c: Suite, did: Did)
    ensures LedTo(c, did, Past([], [None]), None)
  {
  }

  lemma LedOn(c: Suite, did: Did, past: Past, log: Option<ControllerLog>, loaded: ControllerLog, next: Option<ControllerLog>)
    requires LedTo(c, did, past, log) && Serves(c, did, log, loaded, next)
    ensures LedTo(c, did, Past(past.ran + [loaded], past.states + [next]), next)
  {
    hide Serves;
    SerialNext(c, did, past.ran, past.states, loaded, next);
  }

  /** One log per DID. Presentations for a DID wait in order, and each is merged into what the one before it
      left, failed or not. */
  class MemoryLogStore {
    const suite: Suite
    var logs: map<Did, ControllerLog>
    var waiting: map<Did, seq<ControllerLog>>
    ghost var past: map<Did, Past>

    ghost predicate Valid()
      reads this
    {
      && (forall did :: LedTo(suite, did, PastOf(did), LogOf(did)))
      && (forall did :: did in waiting ==> waiting[did] != [])
    }

    function LogOf(did: Did): Option<ControllerLog>
      reads this
    {
      if did in logs then Some(logs[did]) else None
    }

    function Waiting(did: Did): seq<ControllerLog>
      reads this
    {
      if did in waiting then waiting[did] else []
    }

    ghost function PastOf(did: Did): Past
      reads this
    {
      if did in past then past[did] else Past([], [None])
    }

    /** Every presentation of a DID, run or waiting, in the order they were made. */
    ghost function Arrivals(did: Did): seq<ControllerLog>
      reads this
    {
      PastOf(did).ran + Waiting(did)
    }

    constructor (c: Suite)
      ensures Valid() && suite == c && logs == map[] && forall did :: Arrivals(did) == []
    {
      suite, logs, waiting, past := c, map[], map[], map[];
      new;
      hide LedTo;
      forall did ensures LedTo(suite, did, PastOf(did), LogOf(did)) {
        NothingRan(suite, did);
      }
    }

    /** Queue a presentation behind those already made for its DID. Nothing runs. */
    method Present(did: Did, loaded: ControllerLog)
      requires Valid()
      modifies this
      ensures Valid() && logs == old(logs) && past == old(past)
      ensures Arrivals(did) == old(Arrivals(did)) + [loaded]
      ensures forall other :: other != did ==> Arrivals(other) == old(Arrivals(other))
    {
      hide LedTo;
      waiting := waiting[did := Waiting(did) + [loaded]];
      forall any ensures LedTo(suite, any, PastOf(any), LogOf(any)) {
        assert old(LedTo(suite, any, PastOf(any), LogOf(any)));
      }
    }

    /** Run the next presentation of a DID on what is stored now. A refusal leaves the log as it was and the
        queue moves on: presentations run in the order they were made, none twice and none skipped, and
        `Valid` says that each ran on what the one before it left. */
    method RunNext(did: Did, maxEvents: nat) returns (r: Answer)
      requires Valid() && Sound(suite) && did in waiting
      modifies this
      ensures Valid()
      ensures r.Answered? ==> IsAnswer(suite, did, old(LogOf(did)), old(Waiting(did))[0], maxEvents, r.log, r.fold) && LogOf(did) == Some(r.log)
      ensures r.Declined? ==> Justified(suite, did, old(LogOf(did)), old(Waiting(did))[0], maxEvents, r.refusal) && LogOf(did) == old(LogOf(did))
      ensures PastOf(did).ran == old(PastOf(did).ran) + [old(Waiting(did))[0]] && Arrivals(did) == old(Arrivals(did))
      ensures forall other :: other != did ==>
        LogOf(other) == old(LogOf(other)) && PastOf(other) == old(PastOf(other)) && Waiting(other) == old(Waiting(other))
    {
      hide IsAnswer, Justified, Sound, LedTo;
      var loaded := waiting[did][0];
      var seen := LogOf(did);
      r := AuthoritativeLog(suite, did, loaded, seen, maxEvents);
      var next := if r.Answered? then Some(r.log) else seen;
      assert Serves(suite, did, seen, loaded, next);
      MoveOn(did, next);
    }

    method MoveOn(did: Did, next: Option<ControllerLog>)
      requires Valid() && did in waiting && Serves(suite, did, LogOf(did), waiting[did][0], next)
      requires LogOf(did).Some? ==> next.Some?
      modifies this
      ensures Valid() && LogOf(did) == next
      ensures PastOf(did).ran == old(PastOf(did).ran) + [old(Waiting(did))[0]] && Arrivals(did) == old(Arrivals(did))
      ensures forall other :: other != did ==>
        LogOf(other) == old(LogOf(other)) && PastOf(other) == old(PastOf(other)) && Waiting(other) == old(Waiting(other))
    {
      hide LedTo, Serves;
      ghost var before := PastOf(did);
      LedOn(suite, did, before, LogOf(did), waiting[did][0], next);
      past := past[did := Past(before.ran + [waiting[did][0]], before.states + [next])];
      if next.Some? {
        logs := logs[did := next.value];
      }
      waiting := if |waiting[did]| == 1 then waiting - {did} else waiting[did := waiting[did][1..]];
      forall any ensures LedTo(suite, any, PastOf(any), LogOf(any)) {
        assert old(LedTo(suite, any, PastOf(any), LogOf(any)));
      }
    }
  }

  lemma AnswerMoves(c: Suite, did: Did, seen: Option<ControllerLog>, loaded: ControllerLog, maxEvents: nat, log: ControllerLog, fold: LogFold)
    requires Sound(c) && IsAnswer(c, did, seen, loaded, maxEvents, log, fold)
    ensures NotBack(c, did, log.chain, log.chain)
    ensures seen.Some? && Folds(c, did, seen.value.chain) ==> NotBack(c, did, seen.value.chain, log.chain)
  {
    hide Folds, NotBack, Sound, WithEpochOf, Settles;
    SettledFolds(c, did, Recall(c, did, seen), loaded.chain, log.chain);
    StandsStill(c, did, log.chain);
    if seen.Some? && Folds(c, did, seen.value.chain) {
      HeadNeverBack(c, did, seen.value, loaded, maxEvents, log, fold);
    }
  }

  lemma NotBackFolds(c: Suite, did: Did, chain: Chain)
    requires NotBack(c, did, chain, chain)
    ensures Folds(c, did, chain)
  {
    hide Folds;
  }
}
