/** The root chain: each event judged against the state before it, and the fold of a whole chain. */
module Fold {
  import opened Basics
  import opened Events
  import opened Members

  datatype Fault =
    | EmptyLog | MalformedEvent | FirstNotInception | InvalidInception
    | OtherController | NotChained | SequenceGap
    | InvalidReset | ResetHasTombstones | ResetMustRestart | InvalidRotate
    | RotateNeedsSnapshot | BadSnapshot(fault: SnapshotFault) | EstablishesDenied
    | UnknownCritical | UnknownNoFlag | TooManyUnknown

  const MAX_SKIPPED_SLACK: nat := 8

  // ---------------------------------------------------------------- what each event must prove

  function Digested(c: Suite, event: ChainEvent): Digest {
    c.digestOf(OfChain(event))
  }

  predicate VerifyAgreementKeys(c: Suite, ka: seq<Key>) {
    ka != [] && forall key :: key in ka ==> c.isX25519(key)
  }

  /** The thresholds a key set publishes are the sizes of the lists they govern. */
  predicate EnforcedThresholds(keys: KeySet) {
    keys.kt == |keys.k| && keys.nt == |keys.n|
  }

  predicate VerifyInception(c: Suite, did: Did, event: ChainEvent, sigs: seq<Sig>)
    requires event.Inception?
  {
    && EnforcedThresholds(event.keys)
    && Kokuin(Digested(c, event)) == did
    && VerifyAgreementKeys(c, event.keys.ka)
    && VerifySignatures(c, OfChain(event), sigs, event.keys.k)
  }

  /** A rotate reveals the keys its prior committed to and is signed by them. */
  predicate VerifyRotate(c: Suite, event: ChainEvent, sigs: seq<Sig>, digest: Digest, next: seq<Digest>)
    requires event.Rotate?
  {
    && event.p == digest
    && EnforcedThresholds(event.keys)
    && |event.keys.k| == |next| && (forall j :: 0 <= j < |next| ==> c.keyDigest(event.keys.k[j]) == next[j])
    && VerifyAgreementKeys(c, event.keys.ka)
    && VerifySignatures(c, OfChain(event), sigs, event.keys.k)
  }

  /** A whole snapshot, or none with an empty deny list: a blind reset. */
  predicate ResetSnapshotFits(event: ChainEvent)
    requires event.Rotate?
  {
    && (event.u.Some? ==> event.m.Some? && event.d.Some?)
    && (if event.m.None? then event.d == Some([]) else event.d.Some?)
    && !(event.m == Some([]) && event.d == Some([]))
  }

  predicate VerifyReset(c: Suite, inception: ChainEvent, event: ChainEvent, sigs: seq<Sig>, recoveryKey: Option<Key>)
    requires event.Rotate? && inception.Inception?
  {
    && event.p == Digested(c, inception) && event.s == 0 && event.g >= 1
    && EnforcedThresholds(event.keys)
    && event.seal.None? && ResetSnapshotFits(event)
    && |sigs| == 1
    && VerifyAgreementKeys(c, event.keys.ka)
    && recoveryKey.Some? && c.keyDigest(recoveryKey.value) == inception.r
    && VerifySignatures(c, OfChain(event), sigs, [recoveryKey.value])
  }

  // ---------------------------------------------------------------- one event

  datatype Step = Stepped(state: KeyState, skipped: bool) | Failed(fault: Fault)

  predicate IsReset(event: ChainEvent, prior: KeyState)
    requires event.Rotate?
  {
    event.g > prior.gen
  }

  function ResetFault(c: Suite, inception: ChainEvent, event: ChainEvent, sigs: seq<Sig>, recoveryKey: Option<Key>): Option<Fault>
    requires event.Rotate? && inception.Inception?
  {
    if !(1 <= event.g <= MAX_SAFE_INTEGER) then Some(InvalidReset)
    else if event.u.Some? then Some(ResetHasTombstones)
    else if event.s != 0 then Some(ResetMustRestart)
    else if !VerifyReset(c, inception, event, sigs, recoveryKey) then Some(InvalidReset)
    else None
  }

  function RotateFault(c: Suite, event: ChainEvent, sigs: seq<Sig>, prior: KeyState): Option<Fault>
    requires event.Rotate?
  {
    if event.p != prior.digest then Some(NotChained)
    else if event.g != prior.gen || event.s != prior.sequence + 1 then Some(SequenceGap)
    else if !VerifyRotate(c, event, sigs, prior.digest, prior.next) then Some(InvalidRotate)
    else if event.m.None? || event.d.None? then Some(RotateNeedsSnapshot)
    else None
  }

  function SnapshotIn(event: ChainEvent): Snapshot
    requires event.Rotate?
  {
    if event.m.None? then Snapshot([], [], [])
    else Snapshot(event.m.value, if event.u.Some? then event.u.value else [], if event.d.Some? then event.d.value else [])
  }

  /** The root keys a rotate's snapshot is judged against: its own, and for one that is not a reset every
      earlier one of its generation. */
  function RootsWith(event: ChainEvent, prior: KeyState, chain: seq<KeyState>): RootKeys
    requires event.Rotate?
  {
    var earlier := if IsReset(event, prior) then RootKeys({}, {}, prior.recovery) else RootsOf(chain, prior.gen, prior.recovery);
    RootKeys(
      earlier.keys + Elems(event.keys.k + event.keys.ka),
      earlier.commitments + Elems(event.keys.n),
      prior.recovery)
  }

  /** What a rotate must go on denying: the prior state's denials of keys its generation has published. */
  function Tombstones(event: ChainEvent, prior: KeyState, roots: RootKeys): set<Target>
    requires event.Rotate?
  {
    if IsReset(event, prior) then {} else set t | t in prior.deny && t.KeyTarget? && t.key in roots.keys
  }

  predicate DeniesOwnKey(keys: KeySet, deny: set<Target>) {
    exists key :: key in keys.k + keys.ka && KeyTarget(key) in deny
  }

  function MembersIn(c: Suite, snapshot: Snapshot): map<Digest, MemberState> {
    map add | add in AddsOf(snapshot.members) ::
      var entry := EntryOf(snapshot.members, add);
      MemberState(entry, false, !IsDenied(c, Elems(snapshot.deny), entry))
  }

  function TombstonesIn(snapshot: Snapshot): map<Digest, MemberEntry> {
    map add | add in AddsOf(snapshot.removed) :: EntryOf(snapshot.removed, add)
  }

  /** The entry an `add` admitted, the last of several. */
  function EntryOf(entries: seq<MemberEntry>, add: Digest): (entry: MemberEntry)
    requires add in AddsOf(entries)
    ensures entry in entries && entry.add == add
  {
    var last := entries[|entries| - 1];
    if last.add == add then last else EntryOf(entries[..|entries| - 1], add)
  }

  function StateFrom(c: Suite, did: Did, event: ChainEvent, prior: KeyState): KeyState
    requires event.Rotate?
  {
    var snapshot, digest := SnapshotIn(event), Digested(c, event);
    KeyState(did, event.g, event.s, event.g, if IsReset(event, prior) then 0 else prior.keySeq + 1,
      event.keys.k, event.keys.ka, event.keys.n, prior.recovery,
      Elems(snapshot.deny), MembersIn(c, snapshot), TombstonesIn(snapshot), digest, false, digest)
  }

  function StepRotate(c: Suite, did: Did, inception: ChainEvent, signed: ChainEntry, chain: seq<KeyState>): Step
    requires chain != [] && inception.Inception? && signed.Signed? && signed.event.Rotate?
  {
    var prior, event := chain[|chain| - 1], signed.event;
    var refused :=
      if IsReset(event, prior) then ResetFault(c, inception, event, signed.sigs, signed.recoveryKey)
      else RotateFault(c, event, signed.sigs, prior);
    var roots := RootsWith(event, prior, chain);
    var fault := SnapshotFaultOf(c, SnapshotIn(event), roots, Tombstones(event, prior, roots));
    if refused.Some? then Failed(refused.value)
    else if fault.Some? then Failed(BadSnapshot(fault.value))
    else if DeniesOwnKey(event.keys, Elems(SnapshotIn(event).deny)) then Failed(EstablishesDenied)
    else Stepped(StateFrom(c, did, event, prior), false)
  }

  function NamedBy(event: ChainEvent): Option<Did> {
    match event
    case Inception(_, _, _, _) => None
    case Rotate(i, _, _, _, _, _, _, _, _) => Some(i)
    case Unknown(_, i, _, _, _, _) => Some(i)
  }

  /** Judge one entry against the states so far. An unknown event is skipped only when it says it is not
      critical and stands at the next position; the state is then carried forward. */
  function StepEvent(c: Suite, did: Did, inception: ChainEvent, entry: ChainEntry, chain: seq<KeyState>): Step
    requires chain != [] && inception.Inception?
  {
    var prior := chain[|chain| - 1];
    if entry.BadEntry? then Failed(MalformedEvent)
    else if NamedBy(entry.event) != Some(did) then Failed(OtherController)
    else if entry.event.Rotate? then StepRotate(c, did, inception, entry, chain)
    else if entry.event.p != prior.digest then Failed(NotChained)
    else if entry.event.crit == None then Failed(UnknownNoFlag)
    else if entry.event.crit == Some(true) then Failed(UnknownCritical)
    else if entry.event.g != prior.gen || entry.event.s != prior.sequence + 1 then Failed(SequenceGap)
    else Stepped(prior, true)
  }

  // ---------------------------------------------------------------- a whole chain

  datatype ChainFold = Folded(states: seq<KeyState>, skipped: nat) | Unfoldable(fault: Fault, index: nat)

  function FirstState(c: Suite, did: Did, event: ChainEvent): KeyState
    requires event.Inception?
  {
    KeyState(did, event.g, event.s, event.g, 0, event.keys.k, event.keys.ka, event.keys.n, event.r,
      {}, map[], map[], Digested(c, event), false, Digested(c, event))
  }

  function InitFold(c: Suite, did: Did, entry: ChainEntry): ChainFold {
    if entry.BadEntry? then Unfoldable(MalformedEvent, 0)
    else if !entry.event.Inception? then Unfoldable(FirstNotInception, 0)
    else if !VerifyInception(c, did, entry.event, entry.sigs) then Unfoldable(InvalidInception, 0)
    else Folded([FirstState(c, did, entry.event)], 0)
  }

  /** What a chain folds to: one state per entry, or the first entry that does not fold. */
  function ChainFoldOf(c: Suite, did: Did, chain: seq<ChainEntry>): (r: ChainFold)
    ensures r.Folded? ==> chain != [] && |r.states| == |chain| && chain[0].Signed? && chain[0].event.Inception?
  {
    if chain == [] then Unfoldable(EmptyLog, 0)
    else if |chain| == 1 then InitFold(c, did, chain[0])
    else
      var n := |chain| - 1;
      var before := ChainFoldOf(c, did, chain[..n]);
      if before.Unfoldable? then before
      else
        var step := StepEvent(c, did, chain[0].event, chain[n], before.states);
        if step.Failed? then Unfoldable(step.fault, n)
        else if step.skipped && before.skipped + 1 > n - before.skipped + MAX_SKIPPED_SLACK then Unfoldable(TooManyUnknown, n)
        else Folded(before.states + [step.state], before.skipped + if step.skipped then 1 else 0)
  }

  /** The running budget for skipped events. */
  class SkipBudget {
    var understood: nat
    var skipped: nat

    constructor ()
      ensures understood == 1 && skipped == 0
    {
      understood, skipped := 1, 0;
    }

    method Understood()
      modifies this
      ensures understood == old(understood) + 1 && skipped == old(skipped)
    {
      understood := understood + 1;
    }

    method Skip() returns (ok: bool)
      modifies this
      ensures skipped == old(skipped) + 1 && understood == old(understood)
      ensures ok == (skipped <= understood + MAX_SKIPPED_SLACK)
    {
      skipped := skipped + 1;
      ok := skipped <= understood + MAX_SKIPPED_SLACK;
    }
  }

  /** Once a prefix does not fold, neither does the chain, at the same entry for the same reason. */
  lemma {:induction false} UnfoldableStays(c: Suite, did: Did, chain: seq<ChainEntry>, k: nat)
    requires 0 < k <= |chain| && ChainFoldOf(c, did, chain[..k]).Unfoldable?
    ensures ChainFoldOf(c, did, chain) == ChainFoldOf(c, did, chain[..k])
  {
    hide InitFold, StepEvent;
    if k < |chain| {
      var n := |chain| - 1;
      assert chain[..n][..k] == chain[..k];
      UnfoldableStays(c, did, chain[..n], k);
    } else {
      assert chain[..k] == chain;
    }
  }

  /** Folding one more entry: refused with the entry's fault, refused for too many skips, or one more state. */
  lemma {:induction false} NextEntry(c: Suite, did: Did, chain: seq<ChainEntry>, i: nat, states: seq<KeyState>, skipped: nat)
    requires 0 < i < |chain| && ChainFoldOf(c, did, chain[..i]) == Folded(states, skipped)
    ensures var step := StepEvent(c, did, chain[0].event, chain[i], states);
      ChainFoldOf(c, did, chain[..i + 1])
        == if step.Failed? then Unfoldable(step.fault, i)
           else if step.skipped && skipped + 1 > i - skipped + MAX_SKIPPED_SLACK then Unfoldable(TooManyUnknown, i)
           else Folded(states + [step.state], skipped + if step.skipped then 1 else 0)
  {
    hide InitFold, StepEvent;
    assert chain[..i + 1][..i] == chain[..i];
  }

  lemma EmptyFold(c: Suite, did: Did)
    ensures ChainFoldOf(c, did, []) == Unfoldable(EmptyLog, 0)
  {
  }

  lemma FirstEntry(c: Suite, did: Did, chain: seq<ChainEntry>)
    requires chain != []
    ensures ChainFoldOf(c, did, chain[..1]) == InitFold(c, did, chain[0])
    ensures InitFold(c, did, chain[0]).Folded? ==> InitFold(c, did, chain[0]).skipped == 0
  {
    assert chain[..1] == [chain[0]];
  }

  method FoldChain(c: Suite, did: Did, chain: seq<ChainEntry>) returns (r: ChainFold)
    ensures r == ChainFoldOf(c, did, chain)
  {
    hide InitFold, StepEvent, ChainFoldOf;
    if chain == [] {
      EmptyFold(c, did);
      return Unfoldable(EmptyLog, 0);
    }
    FirstEntry(c, did, chain);
    var init := InitFold(c, did, chain[0]);
    if init.Unfoldable? {
      UnfoldableStays(c, did, chain, 1);
      return init;
    }
    var states := init.states;
    var budget := new SkipBudget();
    for i := 1 to |chain|
      invariant ChainFoldOf(c, did, chain[..i]) == Folded(states, budget.skipped)
      invariant budget.understood == i - budget.skipped && fresh(budget)
    {
      NextEntry(c, did, chain, i, states, budget.skipped);
      var step := StepEvent(c, did, chain[0].event, chain[i], states);
      if step.Failed? {
        UnfoldableStays(c, did, chain, i + 1);
        return Unfoldable(step.fault, i);
      }
      if step.skipped {
        var ok := budget.Skip();
        if !ok {
          UnfoldableStays(c, did, chain, i + 1);
          return Unfoldable(TooManyUnknown, i);
        }
      } else {
        budget.Understood();
      }
      states := states + [step.state];
    }
    assert chain[..|chain|] == chain;
    r := Folded(states, budget.skipped);
  }

}
