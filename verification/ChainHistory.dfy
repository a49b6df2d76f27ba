/** The history behind a head. */
module ChainHistory {
  // A chain's digest fixes the states of its generation, whatever chain it was read off: the whole of a
  // generation can be told from its last digest.

  import opened Events
  import opened Members
  import opened Fold
  import opened ChainFacts

  /** The states of the last generation, one per event that changed the digest. */
  function TopStates(states: seq<KeyState>): (top: seq<KeyState>)
    requires states != []
    ensures top != []
  {
    var n := |states| - 1;
    if n == 0 then [states[0]]
    else if states[n].digest == states[n - 1].digest then TopStates(states[..n])
    else if states[n].gen != states[n - 1].gen then [states[n]]
    else TopStates(states[..n]) + [states[n]]
  }

  function Top(c: Suite, did: Did, chain: seq<ChainEntry>): (top: seq<KeyState>)
    requires Folds(c, did, chain)
    ensures top != []
  {
    TopStates(ChainStates(c, did, chain))
  }

  function HeadState(c: Suite, did: Did, chain: seq<ChainEntry>): KeyState
    requires Folds(c, did, chain)
  {
    ChainStates(c, did, chain)[|chain| - 1]
  }

  /** How the top states grow by one entry. */
  lemma {:induction false} TopStep(c: Suite, did: Did, chain: seq<ChainEntry>)
    requires Sound(c) && Folds(c, did, chain) && |chain| > 1
    ensures var n := |chain| - 1;
      && Folds(c, did, chain[..n])
      && (if Skips(chain[n]) then
          Top(c, did, chain) == Top(c, did, chain[..n]) && HeadState(c, did, chain) == HeadState(c, did, chain[..n])
        else if HeadState(c, did, chain).gen != HeadState(c, did, chain[..n]).gen
        then Top(c, did, chain) == [HeadState(c, did, chain)]
        else Top(c, did, chain) == Top(c, did, chain[..n]) + [HeadState(c, did, chain)])
  {
    hide Folds, ChainStates;
    var n := |chain| - 1;
    PrefixFolds(c, did, chain, n);
    StepForward(c, did, chain, n);
    assert ChainStates(c, did, chain)[n - 1] == ChainStates(c, did, chain[..n])[n - 1];
  }

  lemma TopOne(c: Suite, did: Did, chain: seq<ChainEntry>)
    requires Folds(c, did, chain) && |chain| == 1
    ensures Top(c, did, chain) == [HeadState(c, did, chain)] && HeadState(c, did, chain) == FirstState(c, did, chain[0].event)
    ensures Kokuin(Digested(c, chain[0].event)) == did
  {
    hide FirstState;
    FirstStep(c, did, chain);
  }

  /** The top states are those of the last generation, ending in the head. */
  lemma {:induction false} TopMeans(c: Suite, did: Did, chain: seq<ChainEntry>)
    requires Sound(c) && Folds(c, did, chain)
    ensures var top, head := Top(c, did, chain), HeadState(c, did, chain);
      && top[|top| - 1] == head
      && (forall s :: s in ChainStates(c, did, chain) && s.gen == head.gen <==> s in top)
  {
    hide Folds, ChainStates, Top;
    var states := ChainStates(c, did, chain);
    assert |states| == |chain|;
    var n := |chain| - 1;
    if n == 0 {
      TopOne(c, did, chain);
    } else {
      TopStep(c, did, chain);
      PrefixFolds(c, did, chain, n);
      TopMeans(c, did, chain[..n]);
      StepForward(c, did, chain, n);
      assert states == states[..n] + [states[n]];
      assert states[..n][n - 1] == HeadState(c, did, chain[..n]);
      if states[n].gen != states[n - 1].gen {
        forall k | 0 <= k < n ensures states[k].gen != states[n].gen {
          PositionsForward(c, did, chain, k, n - 1);
        }
      }
    }
  }

  /** A rotate's state is told by its event, where the prior one agrees on what is carried. */
  lemma StateFixed(c: Suite, did: Did, event: ChainEvent, a: KeyState, b: KeyState)
    requires event.Rotate? && a.recovery == b.recovery
    requires (IsReset(event, a) && IsReset(event, b)) || a == b
    ensures StateFrom(c, did, event, a) == StateFrom(c, did, event, b)
  {
    hide MembersIn, TombstonesIn;
  }

  /** An event is a reset of one chain only if it is of any other it folds on. */
  lemma {:induction false} ResetOnBoth(c: Suite, did: Did, a: seq<ChainEntry>, b: seq<ChainEntry>)
    requires Sound(c) && Folds(c, did, a) && Folds(c, did, b) && |a| > 1 && |b| > 1
    requires !Skips(a[|a| - 1]) && !Skips(b[|b| - 1])
    requires a[|a| - 1].Signed? && b[|b| - 1].Signed? && a[|a| - 1].event == b[|b| - 1].event && a[|a| - 1].event.Rotate?
    requires IsReset(a[|a| - 1].event, ChainStates(c, did, a)[|a| - 2])
    ensures IsReset(b[|b| - 1].event, ChainStates(c, did, b)[|b| - 2])
  {
    hide Folds, ChainStates, StateFrom, SnapshotFaultOf, RootsWith, Tombstones, DeniesOwnKey, Sound;
    var e := a[|a| - 1].event;
    SameInception(c, did, a, b);
    StepAt(c, did, a, |a| - 1);
    StepAt(c, did, b, |b| - 1);
    PositionsForward(c, did, a, 0, |a| - 2);
    FirstOf(c, did, a);
    if !IsReset(e, ChainStates(c, did, b)[|b| - 2]) {
      StatesOwned(c, did, b, |b| - 2);
      var own :| OwnEvent(c, own, ChainStates(c, did, b)[|b| - 2]);
      OneEvent(c, own, a[0].event);
    }
  }

  lemma SameInception(c: Suite, did: Did, a: seq<ChainEntry>, b: seq<ChainEntry>)
    requires Sound(c) && Folds(c, did, a) && Folds(c, did, b)
    ensures a[0].event == b[0].event
  {
    hide Folds, ChainStates, FirstState, Sound;
    assert |ChainStates(c, did, a)| == |a| && |ChainStates(c, did, b)| == |b|;
    FirstOf(c, did, a);
    FirstOf(c, did, b);
    OneEvent(c, a[0].event, b[0].event);
  }

  /** One head digest, one history: two chains that fold to the same digest have the same states in their
      last generation, however each came to it. */
  lemma {:induction false} SameHistory(c: Suite, did: Did, a: seq<ChainEntry>, b: seq<ChainEntry>)
    requires Sound(c) && Folds(c, did, a) && Folds(c, did, b)
    requires HeadState(c, did, a).digest == HeadState(c, did, b).digest
    ensures Top(c, did, a) == Top(c, did, b) && HeadState(c, did, a) == HeadState(c, did, b)
    decreases |a| + |b|
  {
    hide Folds, ChainStates, Top, HeadState, StateFrom, SnapshotFaultOf, RootsWith, Tombstones, DeniesOwnKey, Sound, Placed;
    assert a != [] && b != [] by {
      assert |ChainStates(c, did, a)| == |a| && |ChainStates(c, did, b)| == |b|;
    }
    var na, nb := |a| - 1, |b| - 1;
    if na > 0 && Skips(a[na]) {
      TopStep(c, did, a);
      SameHistory(c, did, a[..na], b);
    } else if nb > 0 && Skips(b[nb]) {
      TopStep(c, did, b);
      SameHistory(c, did, a, b[..nb]);
    } else {
      SameLastEvent(c, did, a, b);
      if na == 0 {
        TopOne(c, did, a);
        TopOne(c, did, b);
      } else {
        SameRotate(c, did, a, b);
      }
    }
  }

  lemma {:induction false} SameLastEvent(c: Suite, did: Did, a: seq<ChainEntry>, b: seq<ChainEntry>)
    requires Sound(c) && Folds(c, did, a) && Folds(c, did, b) && a != [] && b != []
    requires HeadState(c, did, a).digest == HeadState(c, did, b).digest
    requires |a| == 1 || !Skips(a[|a| - 1])
    requires |b| == 1 || !Skips(b[|b| - 1])
    ensures a[|a| - 1].Signed? && b[|b| - 1].Signed? && a[|a| - 1].event == b[|b| - 1].event
    ensures |a| == 1 <==> |b| == 1
    ensures |a| > 1 ==> a[|a| - 1].event.Rotate?
  {
    hide Folds, ChainStates, StateFrom, SnapshotFaultOf, RootsWith, Tombstones, DeniesOwnKey, Sound, Placed;
    LastOwned(c, did, a);
    LastOwned(c, did, b);
    OneEvent(c, a[|a| - 1].event, b[|b| - 1].event);
  }

  lemma {:induction false} LastOwned(c: Suite, did: Did, a: seq<ChainEntry>)
    requires Folds(c, did, a) && a != []
    requires |a| == 1 || !Skips(a[|a| - 1])
    ensures a[|a| - 1].Signed? && OwnEvent(c, a[|a| - 1].event, HeadState(c, did, a))
    ensures if |a| == 1 then a[|a| - 1].event.Inception? else a[|a| - 1].event.Rotate?
  {
    hide Folds, ChainStates, StateFrom, SnapshotFaultOf, RootsWith, Tombstones, DeniesOwnKey, Placed;
    assert |ChainStates(c, did, a)| == |a|;
    StatesOwned(c, did, a, |a| - 1);
    if |a| > 1 {
      StepAt(c, did, a, |a| - 1);
    } else {
      FirstOf(c, did, a);
    }
  }

  lemma {:induction false} SameRotate(c: Suite, did: Did, a: seq<ChainEntry>, b: seq<ChainEntry>)
    requires Sound(c) && Folds(c, did, a) && Folds(c, did, b) && |a| > 1 && |b| > 1
    requires !Skips(a[|a| - 1]) && !Skips(b[|b| - 1])
    requires a[|a| - 1].Signed? && b[|b| - 1].Signed? && a[|a| - 1].event == b[|b| - 1].event && a[|a| - 1].event.Rotate?
    requires HeadState(c, did, a).digest == HeadState(c, did, b).digest
    ensures Top(c, did, a) == Top(c, did, b) && HeadState(c, did, a) == HeadState(c, did, b)
    decreases |a| + |b|, 0
  {
    hide Folds, ChainStates, Top, StateFrom, SnapshotFaultOf, RootsWith, Tombstones, DeniesOwnKey, Sound;
    var na, nb, e := |a| - 1, |b| - 1, a[|a| - 1].event;
    var priorA, priorB := ChainStates(c, did, a)[na - 1], ChainStates(c, did, b)[nb - 1];
    StepAt(c, did, a, na);
    StepAt(c, did, b, nb);
    PrefixFolds(c, did, a, na);
    PrefixFolds(c, did, b, nb);
    TopStep(c, did, a);
    TopStep(c, did, b);
    SameInception(c, did, a, b);
    StatesDid(c, did, a, na - 1);
    StatesDid(c, did, b, nb - 1);
    if IsReset(e, priorA) || IsReset(e, priorB) {
      if IsReset(e, priorA) {
        ResetOnBoth(c, did, a, b);
      } else {
        ResetOnBoth(c, did, b, a);
      }
      StepForward(c, did, a, na);
      StepForward(c, did, b, nb);
      HeadGen(c, did, a);
      HeadGen(c, did, b);
    } else {
      SameHistory(c, did, a[..na], b[..nb]);
      HeadGen(c, did, a);
      HeadGen(c, did, b);
    }
    StateFixed(c, did, e, priorA, priorB);
  }

  lemma {:induction false} HeadGen(c: Suite, did: Did, a: seq<ChainEntry>)
    requires Folds(c, did, a) && |a| > 1 && !Skips(a[|a| - 1])
    ensures a[|a| - 1].Signed? && a[|a| - 1].event.Rotate? && HeadState(c, did, a).gen == a[|a| - 1].event.g
    ensures Folds(c, did, a[..|a| - 1]) && HeadState(c, did, a[..|a| - 1]) == ChainStates(c, did, a)[|a| - 2]
    ensures IsReset(a[|a| - 1].event, ChainStates(c, did, a)[|a| - 2])
      <==> HeadState(c, did, a).gen != ChainStates(c, did, a)[|a| - 2].gen
  {
    hide Folds, ChainStates, SnapshotFaultOf, RootsWith, Tombstones, DeniesOwnKey;
    StepAt(c, did, a, |a| - 1);
    PrefixFolds(c, did, a, |a| - 1);
  }

  /** Each of a chain's top states is the head of one of its prefixes. */
  lemma {:induction false} TopPrefix(c: Suite, did: Did, chain: seq<ChainEntry>, j: nat) returns (k: nat)
    requires Sound(c) && Folds(c, did, chain) && j < |Top(c, did, chain)|
    ensures 0 < k <= |chain| && Folds(c, did, chain[..k]) && Top(c, did, chain[..k]) == Top(c, did, chain)[..j + 1]
  {
    hide Folds, ChainStates, Top, HeadState;
    assert |ChainStates(c, did, chain)| == |chain|;
    k := |chain|;
    if j == |Top(c, did, chain)| - 1 {
      assert chain[..k] == chain;
    } else {
      if |chain| == 1 {
        TopOne(c, did, chain);
      }
      TopStep(c, did, chain);
      k := TopPrefix(c, did, chain[..k - 1], j);
      assert chain[..|chain| - 1][..k] == chain[..k];
    }
  }

  /** `a` and `b` share their history up to wherever they share a digest. */
  ghost predicate OneHistory(a: seq<KeyState>, b: seq<KeyState>) {
    forall i, j :: 0 <= i < |a| && 0 <= j < |b| && a[i].digest == b[j].digest ==> a[..i + 1] == b[..j + 1]
  }

  lemma {:induction false} TopsShareHistory(c: Suite, did: Did, a: seq<ChainEntry>, b: seq<ChainEntry>)
    requires Sound(c) && Folds(c, did, a) && Folds(c, did, b)
    ensures OneHistory(Top(c, did, a), Top(c, did, b))
  {
    hide Folds, ChainStates, Top, HeadState, Sound;
    var x, y := Top(c, did, a), Top(c, did, b);
    forall i, j | 0 <= i < |x| && 0 <= j < |y| && x[i].digest == y[j].digest ensures x[..i + 1] == y[..j + 1] {
      var k := TopPrefix(c, did, a, i);
      var l := TopPrefix(c, did, b, j);
      TopMeans(c, did, a[..k]);
      TopMeans(c, did, b[..l]);
      SameHistory(c, did, a[..k], b[..l]);
    }
  }

  // ---------------------------------------------------------------- the spine

  /** The positions at which a chain's digest changes, its first included. */
  function SpineOf(states: seq<KeyState>): (spine: seq<nat>)
    requires states != []
    ensures spine != [] && forall j :: 0 <= j < |spine| ==> spine[j] < |states|
  {
    var n := |states| - 1;
    if n == 0 then [0]
    else if states[n].digest == states[n - 1].digest then SpineOf(states[..n])
    else SpineOf(states[..n]) + [n]
  }

  function HistoryAt(states: seq<KeyState>, spine: seq<nat>): seq<KeyState>
    requires forall j :: 0 <= j < |spine| ==> spine[j] < |states|
  {
    seq(|spine|, j requires 0 <= j < |spine| => states[spine[j]])
  }

  /** Generations along the states are contiguous. */
  ghost predicate Contiguous(states: seq<KeyState>) {
    && (forall i, j :: 0 <= i <= j < |states| ==> states[i].gen <= states[j].gen)
    && (forall i :: 0 < i < |states| && states[i].digest == states[i - 1].digest ==> states[i] == states[i - 1])
  }

  lemma {:induction false} ChainContiguous(c: Suite, did: Did, chain: seq<ChainEntry>)
    requires Sound(c) && Folds(c, did, chain)
    ensures Contiguous(ChainStates(c, did, chain))
  {
    hide Folds, ChainStates, Sound;
    var states := ChainStates(c, did, chain);
    forall i, j | 0 <= i <= j < |states| ensures states[i].gen <= states[j].gen {
      PositionsForward(c, did, chain, i, j);
    }
    forall i | 0 < i < |states| && states[i].digest == states[i - 1].digest ensures states[i] == states[i - 1] {
      StepForward(c, did, chain, i);
    }
  }

  /** The spine from the first event of the last generation on is the chain's top states. */
  lemma {:induction false} SpineTop(states: seq<KeyState>, start: nat)
    requires states != [] && Contiguous(states)
    requires start < |SpineOf(states)| && states[SpineOf(states)[start]].gen == states[|states| - 1].gen
    requires forall j :: 0 <= j < start ==> states[SpineOf(states)[j]].gen != states[|states| - 1].gen
    ensures HistoryAt(states, SpineOf(states)[start..]) == TopStates(states)
  {
    hide Contiguous, HistoryAt;
    var n := |states| - 1;
    if n == 0 {
      HistoryNext(states, []);
      assert SpineOf(states)[start..] == [n];
    } else {
      var rest := states[..n];
      var before := SpineOf(rest);
      PrefixContiguous(states, n);
      if states[n].digest == states[n - 1].digest {
        SpineTop(rest, start);
        HistoryRest(states, n, before[start..]);
      } else if states[n].gen != states[n - 1].gen {
        assert forall j :: 0 <= j < |before| ==> states[before[j]].gen != states[n].gen;
        assert start == |before| && SpineOf(states)[start..] == [n];
        HistoryNext(states, []);
      } else {
        SpineGrows(states, start);
        SpineTop(rest, start);
        HistoryRest(states, n, before[start..]);
        HistoryNext(states, before[start..]);
        assert SpineOf(states)[start..] == before[start..] + [n];
      }
    }
  }

  lemma HistoryRest(states: seq<KeyState>, n: nat, spine: seq<nat>)
    requires n < |states| && forall j :: 0 <= j < |spine| ==> spine[j] < n
    ensures HistoryAt(states[..n], spine) == HistoryAt(states, spine)
  {
  }

  lemma HistoryNext(states: seq<KeyState>, spine: seq<nat>)
    requires states != [] && forall j :: 0 <= j < |spine| ==> spine[j] < |states|
    ensures HistoryAt(states, [|states| - 1]) == [states[|states| - 1]]
    ensures HistoryAt(states, spine + [|states| - 1]) == HistoryAt(states, spine) + [states[|states| - 1]]
  {
  }

  lemma PrefixContiguous(states: seq<KeyState>, n: nat)
    requires 0 < n < |states| && Contiguous(states)
    ensures Contiguous(states[..n])
    ensures states[n].digest == states[n - 1].digest ==> states[n] == states[n - 1]
    ensures states[n].gen != states[n - 1].gen ==> forall i :: 0 <= i < n ==> states[i].gen != states[n].gen
  {
  }

  lemma {:induction false} SpineGrows(states: seq<KeyState>, start: nat)
    requires |states| > 1 && Contiguous(states[..|states| - 1])
    requires var n := |states| - 1; states[n].digest != states[n - 1].digest && states[n].gen == states[n - 1].gen
    requires start < |SpineOf(states)|
    requires forall j :: 0 <= j < start ==> states[SpineOf(states)[j]].gen != states[|states| - 1].gen
    ensures var rest := states[..|states| - 1];
      && start < |SpineOf(rest)| && SpineOf(rest)[start] == SpineOf(states)[start]
      && forall j :: 0 <= j < start ==> rest[SpineOf(rest)[j]].gen != rest[|rest| - 1].gen
  {
    hide Contiguous;
    var rest := states[..|states| - 1];
    SpineEnds(rest);
    var last := |SpineOf(rest)| - 1;
    assert SpineOf(states)[last] == SpineOf(rest)[last];
    forall j | 0 <= j < start && j <= last ensures rest[SpineOf(rest)[j]].gen != rest[|rest| - 1].gen {
      assert SpineOf(states)[j] == SpineOf(rest)[j];
    }
  }

  lemma {:induction false} SpineEnds(states: seq<KeyState>)
    requires states != [] && Contiguous(states)
    ensures states[SpineOf(states)[|SpineOf(states)| - 1]] == states[|states| - 1]
  {
    var n := |states| - 1;
    if n > 0 {
      SpineEnds(states[..n]);
    }
  }
}
