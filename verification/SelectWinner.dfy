/** `selectWinner`: one representative per head, the top generation, and what a winner supersedes. Branches are
    grouped by the digest they fold to, trimmed to the last generation's first event and walked down by
    `ResolveContenders`. What is proved is that the histories left after grouping are all the histories of the
    top generation, so that the outcome is a matter of the set of chains and not of the order they came in. */
module SelectWinner {
  import opened Basics
  import opened Events
  import opened Fold
  import opened ChainFacts
  import opened ChainHistory
  import opened Branches
  import opened LogFolds
  import opened Supersede
  import opened Resolve

  /** A branch as folding its chain gives it. */
  ghost predicate Real(c: Suite, did: Did, f: FoldedBranch) {
    Folds(c, did, f.branch) && f.states == ChainStates(c, did, f.branch) && f.spine == SpineOf(f.states)
  }

  ghost predicate AllReal(c: Suite, did: Did, group: seq<FoldedBranch>) {
    forall f :: f in group ==> Real(c, did, f)
  }

  function LastDigest(c: Suite, chain: Chain): Digest
    requires chain != [] && chain[|chain| - 1].Signed?
  {
    Digested(c, chain[|chain| - 1].event)
  }

  /** Every entry of a chain that folds is an event. */
  lemma {:induction false} LastSigned(c: Suite, did: Did, f: FoldedBranch)
    requires Real(c, did, f)
    ensures f.branch != [] && f.branch[|f.branch| - 1].Signed? && f.states != [] && |f.states| == |f.branch|
    ensures f.states[|f.states| - 1] == HeadState(c, did, f.branch)
  {
    hide Rotated, FirstState;
    var n := |f.branch| - 1;
    assert |ChainStates(c, did, f.branch)| == |f.branch|;
    if n > 0 {
      StepAt(c, did, f.branch, n);
    }
  }

  /** The shorter chain first, and of two as long the one whose last event has the smaller digest. */
  predicate Preferred(c: Suite, a: Chain, b: Chain)
    requires a != [] && a[|a| - 1].Signed? && b != [] && b[|b| - 1].Signed?
  {
    if |a| != |b| then |a| < |b| else LastDigest(c, a) < LastDigest(c, b)
  }

  /** The preference leaves two branches of a head undecided exactly when they are as long and end in one event. */
  lemma PreferenceTies(c: Suite, a: Chain, b: Chain)
    requires Sound(c) && a != [] && a[|a| - 1].Signed? && b != [] && b[|b| - 1].Signed?
    ensures !Preferred(c, a, b) && !Preferred(c, b, a) <==> |a| == |b| && a[|a| - 1].event == b[|b| - 1].event
  {
    if LastDigest(c, a) == LastDigest(c, b) {
      OneEvent(c, a[|a| - 1].event, b[|b| - 1].event);
    }
  }

  /** An event no reader understands, which says it is not critical, at the next position after a state. */
  function Padding(t: int, head: KeyState): ChainEntry {
    Signed(Unknown(t, head.did, head.gen, head.sequence + 1, head.digest, Some(false)), [], None)
  }

  lemma {:induction false} SkipsWithin(c: Suite, did: Did, chain: Chain)
    requires Folds(c, did, chain)
    ensures ChainFoldOf(c, did, chain).skipped < |chain|
  {
    hide InitFold, StepEvent;
    if |chain| == 1 {
      assert chain[..1] == chain;
      FirstEntry(c, did, chain);
    } else {
      SkipsWithin(c, did, chain[..|chain| - 1]);
    }
  }

  lemma {:induction false} PaddedFolds(c: Suite, did: Did, chain: Chain, t: int)
    requires Folds(c, did, chain) && |chain| <= 2
    ensures var padded := chain + [Padding(t, HeadState(c, did, chain))];
      Folds(c, did, padded) && HeadState(c, did, padded) == HeadState(c, did, chain)
  {
    hide InitFold, StepRotate;
    var padded := chain + [Padding(t, HeadState(c, did, chain))];
    StatesDid(c, did, chain, |chain| - 1);
    SkipsWithin(c, did, chain);
    assert padded[..|padded| - 1] == chain && padded[..|chain|] == chain;
  }

  /** So the preference is no total order, as its comment has it: on any inception, branches padded with
      different skipped events before the same last one are two, of one head, and neither is preferred. */
  lemma {:induction false} PaddingUndecided(c: Suite, did: Did, inception: ChainEntry) returns (a: Chain, b: Chain)
    requires Sound(c) && Folds(c, did, [inception])
    ensures a != b && Folds(c, did, a) && Folds(c, did, b)
    ensures HeadState(c, did, a) == HeadState(c, did, b)
    ensures a[|a| - 1].Signed? && b[|b| - 1].Signed? && !Preferred(c, a, b) && !Preferred(c, b, a)
  {
    var head := HeadState(c, did, [inception]);
    PaddedFolds(c, did, [inception], 1);
    PaddedFolds(c, did, [inception], 2);
    PaddedFolds(c, did, [inception] + [Padding(1, head)], 3);
    PaddedFolds(c, did, [inception] + [Padding(2, head)], 3);
    a, b := [inception] + [Padding(1, head)] + [Padding(3, head)], [inception] + [Padding(2, head)] + [Padding(3, head)];
    assert a[1] != b[1];
  }

  predicate Ended(f: FoldedBranch) {
    f.states != [] && f.branch != [] && f.branch[|f.branch| - 1].Signed?
  }

  function Head(f: FoldedBranch): KeyState
    requires Ended(f)
  {
    f.states[|f.states| - 1]
  }

  /** Of the branches with its head, `f` is preferred to those that came before it and no later one to it. */
  ghost predicate StandsFirst(c: Suite, seen: seq<FoldedBranch>, f: FoldedBranch, k: int) {
    && 0 <= k < |seen| && seen[k] == f
    && (forall j :: 0 <= j < |seen| && j != k && Ended(f) && Ended(seen[j]) && Head(seen[j]).digest == Head(f).digest ==>
      if j < k then Preferred(c, f.branch, seen[j].branch) else !Preferred(c, seen[j].branch, f.branch))
  }

  /** One branch per head seen so far: the one preferred, the earliest of several left undecided. */
  ghost predicate OnePerHead(c: Suite, seen: seq<FoldedBranch>, byHead: map<Digest, FoldedBranch>, order: seq<Digest>) {
    && (forall f :: f in seen ==> Ended(f) && Head(f).digest in byHead)
    && (forall d :: d in byHead ==> byHead[d] in seen && Ended(byHead[d]) && Head(byHead[d]).digest == d)
    && (forall d :: d in byHead ==> exists k :: StandsFirst(c, seen, byHead[d], k))
    && Distinct(order) && Elems(order) == byHead.Keys
  }

  lemma OnePerHeadNext(c: Suite, seen: seq<FoldedBranch>, byHead: map<Digest, FoldedBranch>, order: seq<Digest>, f: FoldedBranch)
    requires OnePerHead(c, seen, byHead, order) && Ended(f)
    ensures var d := Head(f).digest;
      && (d in byHead && !Preferred(c, f.branch, byHead[d].branch) ==> OnePerHead(c, seen + [f], byHead, order))
      && (d in byHead && Preferred(c, f.branch, byHead[d].branch) ==> OnePerHead(c, seen + [f], byHead[d := f], order))
      && (d !in byHead ==> OnePerHead(c, seen + [f], byHead[d := f], order + [d]))
  {
    hide LastDigest, StandsFirst;
    var d := Head(f).digest;
    ElemsAppend(order, d);
    if d !in byHead {
      assert d !in Elems(order);
      FirstFirst(c, seen, f);
    } else {
      FirstDecides(c, seen, byHead[d], f);
    }
    forall e | e in byHead && e != d ensures exists k :: StandsFirst(c, seen + [f], byHead[e], k) {
      FirstStill(c, seen, byHead[e], f);
    }
  }

  lemma FirstFirst(c: Suite, seen: seq<FoldedBranch>, f: FoldedBranch)
    requires Ended(f) && forall g :: g in seen ==> Ended(g) && Head(g).digest != Head(f).digest
    ensures StandsFirst(c, seen + [f], f, |seen|)
  {
    hide Preferred;
  }

  lemma FirstStill(c: Suite, seen: seq<FoldedBranch>, g: FoldedBranch, f: FoldedBranch)
    requires Ended(f) && Ended(g) && Head(f).digest != Head(g).digest && exists k :: StandsFirst(c, seen, g, k)
    ensures exists k :: StandsFirst(c, seen + [f], g, k)
  {
    hide Preferred;
    var k :| StandsFirst(c, seen, g, k);
    assert StandsFirst(c, seen + [f], g, k);
  }

  lemma FirstDecides(c: Suite, seen: seq<FoldedBranch>, g: FoldedBranch, f: FoldedBranch)
    requires Ended(f) && Ended(g) && Head(f).digest == Head(g).digest && exists k :: StandsFirst(c, seen, g, k)
    ensures !Preferred(c, f.branch, g.branch) ==> exists k :: StandsFirst(c, seen + [f], g, k)
    ensures Preferred(c, f.branch, g.branch) ==> StandsFirst(c, seen + [f], f, |seen|)
  {
    hide LastDigest;
    var k :| StandsFirst(c, seen, g, k);
    assert !Preferred(c, f.branch, g.branch) ==> StandsFirst(c, seen + [f], g, k);
  }

  /** Re-derivation is idempotent: branches with one head are one history presented twice. */
  method GroupByHead(c: Suite, valid: seq<FoldedBranch>) returns (byHead: map<Digest, FoldedBranch>, order: seq<Digest>)
    requires forall f :: f in valid ==> Ended(f)
    ensures OnePerHead(c, valid, byHead, order)
  {
    hide OnePerHead, Ended, Preferred;
    byHead, order := map[], [];
    NoHeads(c);
    for i := 0 to |valid|
      invariant OnePerHead(c, valid[..i], byHead, order)
    {
      var f := valid[i];
      assert f in valid && Ended(f);
      OnePerHeadNext(c, valid[..i], byHead, order, f);
      assert valid[..i + 1] == valid[..i] + [f];
      HeadsEnded(c, valid[..i], byHead, order);
      var digest := Head(f).digest;
      if digest !in byHead {
        order := order + [digest];
        byHead := byHead[digest := f];
      } else {
        PreferredFits(f, byHead[digest]);
        if Preferred(c, f.branch, byHead[digest].branch) {
          byHead := byHead[digest := f];
        }
      }
    }
    assert valid[..|valid|] == valid;
  }

  lemma NoHeads(c: Suite)
    ensures OnePerHead(c, [], map[], [])
  {
  }

  lemma HeadsEnded(c: Suite, seen: seq<FoldedBranch>, byHead: map<Digest, FoldedBranch>, order: seq<Digest>)
    requires OnePerHead(c, seen, byHead, order)
    ensures forall d :: d in byHead ==> Ended(byHead[d]) && byHead[d] in seen
  {
  }

  lemma PreferredFits(f: FoldedBranch, g: FoldedBranch)
    requires Ended(f) && Ended(g)
    ensures f.branch != [] && f.branch[|f.branch| - 1].Signed? && g.branch != [] && g.branch[|g.branch| - 1].Signed?
  {
  }

  // ---------------------------------------------------------------- the top generation

  method TopGeneration(distinct: seq<FoldedBranch>) returns (gen: int)
    requires distinct != [] && forall f :: f in distinct ==> Ended(f)
    ensures exists f :: f in distinct && Head(f).gen == gen
    ensures forall f :: f in distinct ==> Head(f).gen <= gen
  {
    gen := Head(distinct[0]).gen;
    assert distinct[0] in distinct;
    for i := 1 to |distinct|
      invariant exists f :: f in distinct && Head(f).gen == gen
      invariant forall k :: 0 <= k < i ==> Head(distinct[k]).gen <= gen
    {
      assert distinct[i] in distinct;
      if Head(distinct[i]).gen > gen {
        gen := Head(distinct[i]).gen;
      }
    }
  }

  /** The branch from its last generation's first event on. */
  method Trim(c: Suite, ghost did: Did, f: FoldedBranch) returns (t: FoldedBranch)
    requires Sound(c) && Real(c, did, f) && Ended(f)
    ensures Indexed(t) && t.branch == f.branch && t.states == f.states
    ensures HistoryOf(t) == Top(c, did, f.branch) && HeadDigest(t) == Head(f).digest
  {
    hide Folds, ChainStates, Sound, TopStates, Contiguous, HistoryAt, Top;
    SpineReaches(c, did, f);
    var gen := Head(f).gen;
    var start := 0;
    while f.states[f.spine[start]].gen != gen
      invariant start < |f.spine|
      invariant forall j :: 0 <= j < start ==> f.states[f.spine[j]].gen != gen
      decreases |f.spine| - start
    {
      start := start + 1;
    }
    TopFrom(c, did, f, start);
    t := f.(spine := f.spine[start..]);
  }

  lemma SpineReaches(c: Suite, did: Did, f: FoldedBranch)
    requires Sound(c) && Real(c, did, f) && Ended(f)
    ensures Indexed(f) && f.states[f.spine[|f.spine| - 1]] == Head(f)
  {
    hide Folds, ChainStates, Sound;
    ChainContiguous(c, did, f.branch);
    SpineEnds(f.states);
  }

  lemma TopFrom(c: Suite, did: Did, f: FoldedBranch, start: nat)
    requires Sound(c) && Real(c, did, f) && Ended(f) && Indexed(f)
    requires start < |f.spine| && f.states[f.spine[start]].gen == Head(f).gen
    requires forall j :: 0 <= j < start ==> f.states[f.spine[j]].gen != Head(f).gen
    ensures HistoryAt(f.states, f.spine[start..]) == Top(c, did, f.branch)
  {
    hide Folds, ChainStates, Sound, TopStates, HistoryAt, Contiguous;
    ChainContiguous(c, did, f.branch);
    SpineTop(f.states, start);
  }

  // ---------------------------------------------------------------- what is superseded

  /** How many of the first `n` spine digests of `f` are not among `kept`. */
  function LostIn(f: FoldedBranch, kept: set<Digest>, n: nat): nat
    requires Indexed(f) && n <= |f.spine|
  {
    if n == 0 then 0 else LostIn(f, kept, n - 1) + if f.states[f.spine[n - 1]].digest in kept then 0 else 1
  }

  function Lost(group: seq<FoldedBranch>, kept: set<Digest>): nat
    requires forall f :: f in group ==> Indexed(f)
  {
    if group == [] then 0
    else
      var n := |group| - 1;
      assert group == group[..n] + [group[n]];
      Lost(group[..n], kept) + LostIn(group[n], kept, |group[n].spine|)
  }

  function SpineDigests(f: FoldedBranch): set<Digest>
    requires Indexed(f)
  {
    set j | 0 <= j < |f.spine| :: f.states[f.spine[j]].digest
  }

  lemma {:induction false} NoneLost(f: FoldedBranch, n: nat)
    requires Indexed(f) && n <= |f.spine|
    ensures LostIn(f, SpineDigests(f), n) == 0
  {
    if n > 0 {
      NoneLost(f, n - 1);
      assert f.states[f.spine[n - 1]].digest in SpineDigests(f);
    }
  }

  lemma {:induction false} NoneLostIn(f: FoldedBranch, kept: set<Digest>, n: nat)
    requires Indexed(f) && n <= |f.spine|
    ensures LostIn(f, kept, n) == 0 <==> forall j :: 0 <= j < n ==> f.states[f.spine[j]].digest in kept
  {
    if n > 0 {
      NoneLostIn(f, kept, n - 1);
    }
  }

  /** Nothing is lost exactly when everything the branches hold is kept. */
  lemma {:induction false} NothingLost(group: seq<FoldedBranch>, kept: set<Digest>)
    requires forall f :: f in group ==> Indexed(f)
    ensures Lost(group, kept) == 0 <==> forall f :: f in group ==> SpineDigests(f) <= kept
  {
    if group != [] {
      var n := |group| - 1;
      assert group == group[..n] + [group[n]];
      NothingLost(group[..n], kept);
      NoneLostIn(group[n], kept, |group[n].spine|);
      assert SpineDigests(group[n]) <= kept <==> LostIn(group[n], kept, |group[n].spine|) == 0 by {
        forall j | 0 <= j < |group[n].spine| ensures group[n].states[group[n].spine[j]].digest in SpineDigests(group[n]) {
        }
      }
    }
  }

  /** The events of losing branches that the winner does not hold. */
  method CountLost(distinct: seq<FoldedBranch>, winner: FoldedBranch) returns (superseded: nat)
    requires Indexed(winner) && forall f :: f in distinct ==> Indexed(f)
    ensures superseded == Lost(distinct, SpineDigests(winner))
  {
    hide Indexed;
    var kept := SpineDigests(winner);
    superseded := 0;
    for i := 0 to |distinct|
      invariant superseded == Lost(distinct[..i], kept)
    {
      var loser := distinct[i];
      assert loser in distinct && distinct[..i + 1][..i] == distinct[..i];
      if loser != winner {
        for j := 0 to |loser.spine|
          invariant superseded == Lost(distinct[..i], kept) + LostIn(loser, kept, j)
        {
          SpineInRange(loser);
          if loser.states[loser.spine[j]].digest !in kept {
            superseded := superseded + 1;
          }
        }
      } else {
        NoneLost(winner, |winner.spine|);
      }
    }
    assert distinct[..|distinct|] == distinct;
  }

  lemma SpineInRange(f: FoldedBranch)
    requires Indexed(f)
    ensures forall j :: 0 <= j < |f.spine| ==> f.spine[j] < |f.states|
  {
  }

  // ---------------------------------------------------------------- the selection

  /** The kept branches, in the order their heads first came. */
  method Representatives(byHead: map<Digest, FoldedBranch>, order: seq<Digest>) returns (distinct: seq<FoldedBranch>)
    requires Elems(order) == byHead.Keys
    ensures |distinct| == |order| && forall k :: 0 <= k < |order| ==> order[k] in byHead && distinct[k] == byHead[order[k]]
  {
    distinct := [];
    for i := 0 to |order|
      invariant |distinct| == i && forall k :: 0 <= k < i ==> order[k] in byHead && distinct[k] == byHead[order[k]]
    {
      assert order[i] in Elems(order);
      distinct := distinct + [byHead[order[i]]];
    }
  }

  ghost predicate Trimmed(c: Suite, did: Did, t: FoldedBranch, f: FoldedBranch) {
    && Real(c, did, f) && Ended(f) && Indexed(t)
    && t.branch == f.branch && t.states == f.states
    && HistoryOf(t) == Top(c, did, f.branch) && HeadDigest(t) == Head(f).digest
  }

  /** The contenders taken from the first of `distinct`: `picks` are the branches they were trimmed from. */
  ghost predicate Picked(c: Suite, did: Did, distinct: seq<FoldedBranch>, gen: int, i: nat, contenders: seq<FoldedBranch>,
      picks: seq<FoldedBranch>)
  {
    && i <= |distinct| && |picks| == |contenders|
    && (forall k :: 0 <= k < |picks| ==>
      Trimmed(c, did, contenders[k], picks[k]) && Head(picks[k]).gen == gen && picks[k] in distinct[..i])
    && (forall k :: 0 <= k < i && Ended(distinct[k]) && Head(distinct[k]).gen == gen ==> distinct[k] in picks)
    && (forall k, l :: 0 <= k < l < |picks| && Ended(picks[k]) && Ended(picks[l]) ==> Head(picks[k]).digest != Head(picks[l]).digest)
  }

  ghost predicate OwnEnds(c: Suite, did: Did, distinct: seq<FoldedBranch>) {
    && AllReal(c, did, distinct) && (forall f :: f in distinct ==> Ended(f))
    && (forall k, l :: 0 <= k < l < |distinct| && Ended(distinct[k]) && Ended(distinct[l]) ==>
      Head(distinct[k]).digest != Head(distinct[l]).digest)
  }

  lemma PickedNext(c: Suite, did: Did, distinct: seq<FoldedBranch>, gen: int, i: nat, contenders: seq<FoldedBranch>,
      picks: seq<FoldedBranch>, t: FoldedBranch)
    requires Picked(c, did, distinct, gen, i, contenders, picks) && OwnEnds(c, did, distinct) && i < |distinct|
    requires Ended(distinct[i])
    ensures Head(distinct[i]).gen != gen ==> Picked(c, did, distinct, gen, i + 1, contenders, picks)
    ensures Head(distinct[i]).gen == gen && Trimmed(c, did, t, distinct[i])
      ==> Picked(c, did, distinct, gen, i + 1, contenders + [t], picks + [distinct[i]])
  {
    hide Trimmed, Real;
    assert distinct[..i + 1] == distinct[..i] + [distinct[i]];
    forall k | 0 <= k < |picks| ensures Head(picks[k]).digest != Head(distinct[i]).digest {
      assert picks[k] in distinct[..i] && Trimmed(c, did, contenders[k], picks[k]);
      var l :| 0 <= l < i && distinct[l] == picks[k];
    }
  }

  method Contenders(c: Suite, ghost did: Did, distinct: seq<FoldedBranch>, gen: int)
    returns (contenders: seq<FoldedBranch>, original: map<FoldedBranch, FoldedBranch>, ghost picks: seq<FoldedBranch>)
    requires Sound(c) && OwnEnds(c, did, distinct)
    ensures Picked(c, did, distinct, gen, |distinct|, contenders, picks)
    ensures forall t :: t in contenders ==> t in original && original[t] in distinct && original[t].branch == t.branch
  {
    hide Sound, Real, Trimmed, Picked, Indexed;
    contenders, original, picks := [], map[], [];
    NonePicked(c, did, distinct, gen);
    for i := 0 to |distinct|
      invariant Picked(c, did, distinct, gen, i, contenders, picks)
      invariant forall t :: t in contenders ==> t in original && original[t] in distinct && original[t].branch == t.branch
    {
      var f := distinct[i];
      assert f in distinct && Real(c, did, f);
      if Head(f).gen == gen {
        var t := Trim(c, did, f);
        TrimmedBy(c, did, t, f);
        PickedNext(c, did, distinct, gen, i, contenders, picks, t);
        original := original[t := f];
        contenders, picks := contenders + [t], picks + [f];
      } else {
        PickedNext(c, did, distinct, gen, i, contenders, picks, f);
      }
    }
  }

  lemma NonePicked(c: Suite, did: Did, distinct: seq<FoldedBranch>, gen: int)
    ensures Picked(c, did, distinct, gen, 0, [], [])
  {
  }

  lemma TrimmedBy(c: Suite, did: Did, t: FoldedBranch, f: FoldedBranch)
    requires Real(c, did, f) && Ended(f) && Indexed(t) && t.branch == f.branch && t.states == f.states
    requires HistoryOf(t) == Top(c, did, f.branch) && HeadDigest(t) == Head(f).digest
    ensures Trimmed(c, did, t, f)
  {
    hide Real, Ended, Indexed;
  }

  lemma PicksContend(c: Suite, did: Did, distinct: seq<FoldedBranch>, gen: int, contenders: seq<FoldedBranch>, picks: seq<FoldedBranch>)
    requires Sound(c) && Picked(c, did, distinct, gen, |distinct|, contenders, picks)
    ensures Contend(contenders)
  {
    hide Sound, Indexed, HeadDigest, OneHistory, HistoryOf, Top, Folds;
    forall t | t in contenders ensures Indexed(t) && HistoryOf(t) != [] {
      var k :| 0 <= k < |contenders| && contenders[k] == t;
      assert Trimmed(c, did, contenders[k], picks[k]);
    }
    forall a, b | a in Histories(contenders) && b in Histories(contenders) ensures OneHistory(a, b) {
      var t :| t in contenders && HistoryOf(t) == a;
      var u :| u in contenders && HistoryOf(u) == b;
      var k :| 0 <= k < |contenders| && contenders[k] == t;
      var l :| 0 <= l < |contenders| && contenders[l] == u;
      assert Trimmed(c, did, contenders[k], picks[k]) && Trimmed(c, did, contenders[l], picks[l]);
      TopsShareHistory(c, did, t.branch, u.branch);
    }
    forall k, l | 0 <= k < l < |contenders| ensures HeadDigest(contenders[k]) != HeadDigest(contenders[l]) {
      assert Trimmed(c, did, contenders[k], picks[k]) && Trimmed(c, did, contenders[l], picks[l]);
    }
  }

  /** `valid` is every chain that folds, folded. */
  ghost predicate ValidOf(c: Suite, did: Did, chains: seq<Chain>, valid: seq<FoldedBranch>) {
    && AllReal(c, did, valid)
    && (forall f :: f in valid ==> f.branch in chains)
    && BranchesOf(valid) == Folding(c, did, chains)
    && (forall chain :: chain in chains && Folds(c, did, chain) ==> exists f :: f in valid && f.branch == chain)
  }

  /** Representatives: branches of `valid`, one for each head. */
  ghost predicate Represent(valid: seq<FoldedBranch>, distinct: seq<FoldedBranch>) {
    && (forall f :: f in distinct ==> f in valid)
    && (forall f :: f in valid && Ended(f) ==> Head(f).digest in HeadsOf(distinct))
  }

  ghost function HeadsOf(group: seq<FoldedBranch>): set<Digest> {
    set r | r in group && Ended(r) :: Head(r).digest
  }

  lemma RepresentBy(c: Suite, did: Did, valid: seq<FoldedBranch>, byHead: map<Digest, FoldedBranch>, order: seq<Digest>, distinct: seq<FoldedBranch>)
    requires AllReal(c, did, valid) && OnePerHead(c, valid, byHead, order)
    requires |distinct| == |order| && forall k :: 0 <= k < |order| ==> order[k] in byHead && distinct[k] == byHead[order[k]]
    ensures Represent(valid, distinct) && OwnEnds(c, did, distinct)
  {
    hide Preferred, Real, Ended, Head, HeadsOf;
    HeadsEnded(c, valid, byHead, order);
    forall f | f in distinct ensures f in valid && Ended(f) {
      var k :| 0 <= k < |distinct| && distinct[k] == f;
      var d := order[k];
      assert d in byHead && byHead[d] == f;
    }
    HeadsOwn(c, valid, byHead, order, distinct);
    forall f | f in valid && Ended(f) ensures Head(f).digest in HeadsOf(distinct) {
      StandsFor(c, valid, byHead, order, distinct, f);
    }
  }

  lemma HeadsOwn(c: Suite, valid: seq<FoldedBranch>, byHead: map<Digest, FoldedBranch>, order: seq<Digest>, distinct: seq<FoldedBranch>)
    requires OnePerHead(c, valid, byHead, order)
    requires |distinct| == |order| && forall k :: 0 <= k < |order| ==> order[k] in byHead && distinct[k] == byHead[order[k]]
    ensures forall k :: 0 <= k < |order| ==> Ended(distinct[k]) && Head(distinct[k]).digest == order[k]
    ensures forall k, l :: 0 <= k < l < |order| ==> order[k] != order[l]
  {
    hide Preferred, Ended, Head;
    forall k | 0 <= k < |order| ensures Ended(distinct[k]) && Head(distinct[k]).digest == order[k] {
      var d := order[k];
      assert d in byHead && byHead[d] == distinct[k];
    }
  }

  lemma StandsFor(c: Suite, valid: seq<FoldedBranch>, byHead: map<Digest, FoldedBranch>, order: seq<Digest>, distinct: seq<FoldedBranch>, f: FoldedBranch)
    requires OnePerHead(c, valid, byHead, order) && f in valid && Ended(f)
    requires |distinct| == |order| && forall k :: 0 <= k < |order| ==> order[k] in byHead && distinct[k] == byHead[order[k]]
    ensures Head(f).digest in HeadsOf(distinct)
  {
    hide Preferred, Ended, Head;
    assert Head(f).digest in Elems(order);
    var k :| 0 <= k < |order| && order[k] == Head(f).digest;
    assert distinct[k] in distinct;
  }

  /** Each chain that folds has a representative, with its head and its history. */
  lemma {:induction false} RepresentativeOf(c: Suite, did: Did, chains: seq<Chain>, valid: seq<FoldedBranch>, distinct: seq<FoldedBranch>, chain: Chain)
    returns (r: FoldedBranch)
    requires Sound(c) && ValidOf(c, did, chains, valid) && Represent(valid, distinct)
    requires chain in chains && Folds(c, did, chain)
    ensures r in distinct && Real(c, did, r) && Ended(r) && Folds(c, did, r.branch)
    ensures Head(r) == HeadState(c, did, chain) && Top(c, did, r.branch) == Top(c, did, chain)
  {
    hide Sound, Top, Folds, ChainStates, HeadState, SpineOf;
    var f :| f in valid && f.branch == chain;
    LastSigned(c, did, f);
    r :| r in distinct && Ended(r) && Head(r).digest == Head(f).digest;
    LastSigned(c, did, r);
    SameHistory(c, did, chain, r.branch);
  }

  lemma {:induction false} HistoriesWithin(c: Suite, did: Did, chains: seq<Chain>, valid: seq<FoldedBranch>, distinct: seq<FoldedBranch>,
      gen: int, contenders: seq<FoldedBranch>, picks: seq<FoldedBranch>)
    requires ValidOf(c, did, chains, valid) && Represent(valid, distinct)
    requires Picked(c, did, distinct, gen, |distinct|, contenders, picks) && AllIndexed(contenders)
    ensures Histories(contenders) <= HistoriesAt(c, did, chains, gen)
  {
    hide Indexed, HeadDigest, HistoryOf, Top, HeadState, Folds, Real, Ended, Head, Represent, ValidOf;
    forall h | h in Histories(contenders) ensures h in HistoriesAt(c, did, chains, gen) {
      var t :| t in contenders && HistoryOf(t) == h;
      var k :| 0 <= k < |contenders| && contenders[k] == t;
      assert Trimmed(c, did, contenders[k], picks[k]) && picks[k] in distinct[..|distinct|];
      RealHead(c, did, picks[k]);
      WinnerReal(c, did, chains, valid, distinct, picks[k]);
    }
  }

  lemma {:induction false} HistoriesPicked(c: Suite, did: Did, chains: seq<Chain>, valid: seq<FoldedBranch>, distinct: seq<FoldedBranch>,
      gen: int, contenders: seq<FoldedBranch>, picks: seq<FoldedBranch>)
    requires Sound(c) && ValidOf(c, did, chains, valid) && Represent(valid, distinct)
    requires Picked(c, did, distinct, gen, |distinct|, contenders, picks) && AllIndexed(contenders)
    ensures Histories(contenders) == HistoriesAt(c, did, chains, gen)
  {
    hide Sound, Indexed, HeadDigest, HistoryOf, Top, Folds, HeadState, Real, ValidOf, Represent;
    HistoriesWithin(c, did, chains, valid, distinct, gen, contenders, picks);
    forall h | h in HistoriesAt(c, did, chains, gen) ensures h in Histories(contenders) {
      var chain: Chain :| chain in chains && Folds(c, did, chain) && HeadState(c, did, chain).gen == gen && Top(c, did, chain) == h;
      var r := RepresentativeOf(c, did, chains, valid, distinct, chain);
      var i :| 0 <= i < |distinct| && distinct[i] == r;
      assert r in picks;
      var k :| 0 <= k < |picks| && picks[k] == r;
      assert Trimmed(c, did, contenders[k], picks[k]);
    }
  }

  lemma {:induction false} TopGenIs(c: Suite, did: Did, chains: seq<Chain>, valid: seq<FoldedBranch>, distinct: seq<FoldedBranch>, gen: int)
    requires Sound(c) && ValidOf(c, did, chains, valid) && Represent(valid, distinct)
    requires forall f :: f in distinct ==> Ended(f) && Head(f).gen <= gen
    requires exists f :: f in distinct && Ended(f) && Head(f).gen == gen
    ensures HasTopGen(c, did, chains, gen)
  {
    hide Sound, Top, Folds, HeadState, Real, Ended, Head;
    forall chain | chain in chains && Folds(c, did, chain) ensures HeadState(c, did, chain).gen <= gen {
      var r := RepresentativeOf(c, did, chains, valid, distinct, chain);
    }
    var f :| f in distinct && Ended(f) && Head(f).gen == gen;
    RealHead(c, did, f);
    assert f.branch in chains;
  }

  lemma RealHead(c: Suite, did: Did, f: FoldedBranch)
    requires Real(c, did, f) && Ended(f)
    ensures Folds(c, did, f.branch) && HeadState(c, did, f.branch) == Head(f)
  {
    hide Folds, SpineOf;
    LastSigned(c, did, f);
  }

  lemma RealEnded(c: Suite, did: Did, group: seq<FoldedBranch>)
    requires AllReal(c, did, group)
    ensures forall f :: f in group ==> Ended(f) && Indexed(f)
  {
    hide Folds, SpineOf;
    forall f | f in group ensures Ended(f) && Indexed(f) {
      LastSigned(c, did, f);
    }
  }

  /** The chains that fold, in the order they came. */
  function Folding(c: Suite, did: Did, chains: seq<Chain>): seq<Chain> {
    if chains == [] then []
    else
      var rest, last := Folding(c, did, chains[..|chains| - 1]), chains[|chains| - 1];
      if Folds(c, did, last) then rest + [last] else rest
  }

  function BranchesOf(valid: seq<FoldedBranch>): seq<Chain> {
    seq(|valid|, i requires 0 <= i < |valid| => valid[i].branch)
  }

  /** Two chains that fold to one head, each ending in an event. */
  predicate OneHead(c: Suite, did: Did, a: Chain, b: Chain) {
    && Folds(c, did, a) && Folds(c, did, b) && HeadState(c, did, a).digest == HeadState(c, did, b).digest
    && a != [] && a[|a| - 1].Signed? && b != [] && b[|b| - 1].Signed?
  }

  /** Of the chains with its head, the `k`th is preferred to those that came before it and no later one to it. */
  ghost predicate ComesFirst(c: Suite, did: Did, folding: seq<Chain>, winner: Chain, k: int) {
    && 0 <= k < |folding| && folding[k] == winner
    && (forall j :: 0 <= j < |folding| && j != k && OneHead(c, did, folding[j], winner) ==>
      if j < k then Preferred(c, winner, folding[j]) else !Preferred(c, folding[j], winner))
  }

  /** The chain kept of those with its head: the preferred one, the earliest of several left undecided. */
  ghost predicate Keeps(c: Suite, did: Did, folding: seq<Chain>, winner: Chain) {
    exists k :: ComesFirst(c, did, folding, winner, k)
  }

  /** Arrival decides what the preference does not: which chain of a head is kept is a matter of their order. */
  lemma KeepsOne(c: Suite, did: Did, folding: seq<Chain>, a: Chain, b: Chain)
    requires Keeps(c, did, folding, a) && Keeps(c, did, folding, b) && OneHead(c, did, a, b)
    ensures a == b
  {
    hide Folds, HeadState, LastDigest;
    var i :| ComesFirst(c, did, folding, a, i);
    var j :| ComesFirst(c, did, folding, b, j);
  }

  /** Of the chains with its head none is shorter than the `k`th, none as long ends in a smaller digest, and none as long
      that ends in the same digest came before it. */
  ghost predicate Shortest(c: Suite, did: Did, folding: seq<Chain>, winner: Chain, k: int) {
    && 0 <= k < |folding| && folding[k] == winner
    && forall j :: 0 <= j < |folding| && OneHead(c, did, folding[j], winner) ==> (
      var chain := folding[j];
      var digest, other := c.digestOf(OfChain(winner[|winner| - 1].event)), c.digestOf(OfChain(chain[|chain| - 1].event));
      |winner| <= |chain| && (|winner| == |chain| ==> digest < other || (digest == other && k <= j)))
  }

  /** The chain kept of a head is the shortest, then the one of least last digest, then the first to come. */
  lemma KeepsShortest(c: Suite, did: Did, folding: seq<Chain>, winner: Chain, k: int)
    ensures ComesFirst(c, did, folding, winner, k) <==> Shortest(c, did, folding, winner, k)
  {
    hide Folds, HeadState;
  }

  lemma {:induction false} FoldingAre(c: Suite, did: Did, chains: seq<Chain>, chain: Chain)
    ensures chain in Folding(c, did, chains) <==> chain in chains && Folds(c, did, chain)
  {
    hide Folds;
    if chains != [] {
      var n := |chains| - 1;
      assert chains == chains[..n] + [chains[n]];
      FoldingAre(c, did, chains[..n], chain);
    }
  }

  /** So the raw winner is no longer than any chain presented with its head, and of those as long ends in the least
      digest. */
  lemma {:induction false} WinnerShortest(c: Suite, did: Did, chains: seq<Chain>, winner: Chain, superseded: nat, chain: Chain)
    requires Accounted(c, did, chains, winner, superseded) && chain in chains && OneHead(c, did, chain, winner)
    ensures |winner| <= |chain|
    ensures |winner| == |chain| ==> c.digestOf(OfChain(winner[|winner| - 1].event)) <= c.digestOf(OfChain(chain[|chain| - 1].event))
  {
    hide Folds, HeadState, ComesFirst, Discards, ValidOf;
    var folding := Folding(c, did, chains);
    var k :| ComesFirst(c, did, folding, winner, k);
    KeepsShortest(c, did, folding, winner, k);
    FoldingAre(c, did, chains, chain);
    var j :| 0 <= j < |folding| && folding[j] == chain;
    assert OneHead(c, did, folding[j], winner);
  }

  /** What a winner supersedes: the events that the branches kept, for each head the
      one preferred and of several left undecided the earliest, hold and it does not. */
  ghost predicate Discards(c: Suite, did: Did, valid: seq<FoldedBranch>, winner: Chain, superseded: nat) {
    exists distinct: seq<FoldedBranch>, f: FoldedBranch ::
      && Represent(valid, distinct) && OwnEnds(c, did, distinct) && AllIndexed(distinct)
      && (forall g :: g in distinct ==> Keeps(c, did, BranchesOf(valid), g.branch))
      && f in distinct && f.branch == winner
      && superseded == Lost(distinct, SpineDigests(f))
  }

  /** A winner's account over the chains presented: it is the one kept of its head, and what is counted as
      superseded is what it discards. */
  ghost predicate Accounted(c: Suite, did: Did, chains: seq<Chain>, winner: Chain, superseded: nat) {
    && Keeps(c, did, Folding(c, did, chains), winner)
    && exists valid :: ValidOf(c, did, chains, valid) && Discards(c, did, valid, winner, superseded)
  }

  method SelectWinner(c: Suite, ghost did: Did, ghost chains: seq<Chain>, valid: seq<FoldedBranch>) returns (r: BranchResult)
    requires Sound(c) && ValidOf(c, did, chains, valid)
    ensures r.Resolved? ==> r.winner in chains && Folds(c, did, r.winner)
    ensures IsOutcome(c, did, chains, VerdictOf(c, did, r))
    ensures r.Resolved? ==> Keeps(c, did, BranchesOf(valid), r.winner) && Discards(c, did, valid, r.winner, r.superseded)
  {
    hide Sound, Folds, OnePerHead, Real, Represent, HasTopGen, IsVerdict, HistoriesAt, Rivals, Top, Ended, Indexed, HistoryOf, Picked, Trimmed,
      HeadState, Preferred, Keeps, ValidOf, OwnEnds, AllIndexed, Histories, Contend, Head, AllReal, SpineDigests, Lost, IsOutcome;
    ValidReal(c, did, chains, valid);
    if valid == [] {
      NoneFolds(c, did, chains);
      return NoValidBranch;
    }
    RealEnded(c, did, valid);
    var byHead, order := GroupByHead(c, valid);
    OrderIsKeys(c, valid, byHead, order);
    var distinct := Representatives(byHead, order);
    RepresentBy(c, did, valid, byHead, order, distinct);
    SomeRepresent(valid, distinct);
    OwnEndsReal(c, did, distinct);
    var gen := TopGeneration(distinct);
    TopGenIs(c, did, chains, valid, distinct, gen);
    var contenders, original, picks := Contenders(c, did, distinct, gen);
    PicksContend(c, did, distinct, gen, contenders, picks);
    SomePick(c, did, distinct, gen, contenders, picks);
    var resolution := ResolveContenders(contenders);
    ContendIndexed(contenders);
    HistoriesPicked(c, did, chains, valid, distinct, gen, contenders, picks);
    if resolution.Forked? {
      OutcomeIs(c, did, chains, gen, Forks(resolution.duplicity));
      return Duplicitous(resolution.duplicity);
    }
    var winner := original[resolution.winner];
    ChosenIs(c, did, distinct, gen, contenders, picks, resolution.winner);
    WinnerReal(c, did, chains, valid, distinct, winner);
    forall f | f in distinct ensures Keeps(c, did, BranchesOf(valid), f.branch) {
      NoneBeats(c, did, valid, byHead, order, distinct, f);
    }
    OutcomeIs(c, did, chains, gen, Wins(Top(c, did, winner.branch)));
    RealEnded(c, did, distinct);
    var superseded := CountLost(distinct, winner);
    DiscardsThat(c, did, valid, distinct, winner, superseded);
    r := Resolved(winner.branch, superseded);
  }

  lemma DiscardsThat(c: Suite, did: Did, valid: seq<FoldedBranch>, distinct: seq<FoldedBranch>, winner: FoldedBranch, superseded: nat)
    requires Represent(valid, distinct) && (forall f :: f in distinct ==> Indexed(f)) && winner in distinct
    requires OwnEnds(c, did, distinct) && forall f :: f in distinct ==> Keeps(c, did, BranchesOf(valid), f.branch)
    requires superseded == Lost(distinct, SpineDigests(winner))
    ensures Discards(c, did, valid, winner.branch, superseded)
  {
    hide Indexed, Lost, SpineDigests, Represent, OwnEnds, Keeps;
  }

  lemma ValidReal(c: Suite, did: Did, chains: seq<Chain>, valid: seq<FoldedBranch>)
    requires ValidOf(c, did, chains, valid)
    ensures AllReal(c, did, valid)
    ensures valid == [] ==> forall chain :: chain in chains ==> !Folds(c, did, chain)
  {
    hide Folds, AllReal;
  }

  lemma NoneFolds(c: Suite, did: Did, chains: seq<Chain>)
    requires forall chain :: chain in chains ==> !Folds(c, did, chain)
    ensures IsOutcome(c, did, chains, NoBranch)
  {
  }

  lemma OwnEndsReal(c: Suite, did: Did, distinct: seq<FoldedBranch>)
    requires OwnEnds(c, did, distinct)
    ensures AllReal(c, did, distinct) && forall f :: f in distinct ==> Ended(f)
  {
    hide AllReal, Ended;
  }

  lemma OutcomeIs(c: Suite, did: Did, chains: seq<Chain>, gen: int, v: Verdict)
    requires HasTopGen(c, did, chains, gen) && IsVerdict(HistoriesAt(c, did, chains, gen), v)
    ensures IsOutcome(c, did, chains, v)
  {
    hide HistoriesAt, IsVerdict, Folds, HeadState;
  }

  lemma OrderIsKeys(c: Suite, valid: seq<FoldedBranch>, byHead: map<Digest, FoldedBranch>, order: seq<Digest>)
    requires OnePerHead(c, valid, byHead, order)
    ensures Elems(order) == byHead.Keys
  {
  }

  lemma SomeRepresent(valid: seq<FoldedBranch>, distinct: seq<FoldedBranch>)
    requires Represent(valid, distinct) && valid != [] && Ended(valid[0])
    ensures distinct != []
  {
    assert valid[0] in valid;
  }

  lemma SomePick(c: Suite, did: Did, distinct: seq<FoldedBranch>, gen: int, contenders: seq<FoldedBranch>, picks: seq<FoldedBranch>)
    requires Picked(c, did, distinct, gen, |distinct|, contenders, picks)
    requires exists f :: f in distinct && Ended(f) && Head(f).gen == gen
    ensures contenders != []
  {
    hide Trimmed;
    var f :| f in distinct && Ended(f) && Head(f).gen == gen;
    var k :| 0 <= k < |distinct| && distinct[k] == f;
    assert f in picks;
  }

  lemma ChosenIs(c: Suite, did: Did, distinct: seq<FoldedBranch>, gen: int, contenders: seq<FoldedBranch>, picks: seq<FoldedBranch>, t: FoldedBranch)
    requires Picked(c, did, distinct, gen, |distinct|, contenders, picks) && t in contenders
    ensures Indexed(t) && Folds(c, did, t.branch) && HistoryOf(t) == Top(c, did, t.branch)
  {
    hide Folds, Top, Indexed, HistoryOf;
    var k :| 0 <= k < |contenders| && contenders[k] == t;
    assert Trimmed(c, did, contenders[k], picks[k]);
  }

  lemma WinnerReal(c: Suite, did: Did, chains: seq<Chain>, valid: seq<FoldedBranch>, distinct: seq<FoldedBranch>, winner: FoldedBranch)
    requires ValidOf(c, did, chains, valid) && Represent(valid, distinct) && winner in distinct
    ensures winner.branch in chains && Folds(c, did, winner.branch)
  {
    hide Folds;
  }

  /** Of the branches with the winner's head it is the one kept. */
  lemma {:induction false} NoneBeats(c: Suite, did: Did, valid: seq<FoldedBranch>, byHead: map<Digest, FoldedBranch>, order: seq<Digest>,
      distinct: seq<FoldedBranch>, winner: FoldedBranch)
    requires AllReal(c, did, valid) && OnePerHead(c, valid, byHead, order) && winner in distinct
    requires |distinct| == |order| && forall k :: 0 <= k < |order| ==> order[k] in byHead && distinct[k] == byHead[order[k]]
    ensures Folds(c, did, winner.branch)
    ensures Keeps(c, did, BranchesOf(valid), winner.branch)
  {
    hide Folds, Preferred, HeadState, ChainStates, SpineOf, Real, StandsFirst;
    var i :| 0 <= i < |order| && distinct[i] == winner;
    HeadsEnded(c, valid, byHead, order);
    var d := order[i];
    assert d in byHead && byHead[d] in valid;
    RealFolds(c, did, winner);
    var k :| StandsFirst(c, valid, winner, k);
    FirstComes(c, did, valid, winner, k);
  }

  lemma RealFolds(c: Suite, did: Did, f: FoldedBranch)
    requires Real(c, did, f)
    ensures Folds(c, did, f.branch)
  {
    hide Folds, SpineOf, ChainStates;
  }

  lemma {:induction false} FirstComes(c: Suite, did: Did, valid: seq<FoldedBranch>, winner: FoldedBranch, k: int)
    requires AllReal(c, did, valid) && StandsFirst(c, valid, winner, k)
    ensures ComesFirst(c, did, BranchesOf(valid), winner.branch, k)
  {
    hide Folds, Preferred, HeadState, ChainStates, SpineOf, Real;
    assert winner in valid;
    LastSigned(c, did, winner);
    forall j | 0 <= j < |valid| && j != k && OneHead(c, did, valid[j].branch, winner.branch)
      ensures if j < k then Preferred(c, winner.branch, valid[j].branch) else !Preferred(c, valid[j].branch, winner.branch)
    {
      LastSigned(c, did, valid[j]);
      assert Head(valid[j]).digest == Head(winner).digest;
    }
  }

  /** The authoritative chain among `chains`, or why there is none. */
  method ResolveBranches(c: Suite, did: Did, chains: seq<Chain>) returns (r: BranchResult)
    requires Sound(c)
    ensures r.Resolved? ==> r.winner in chains && Folds(c, did, r.winner)
    ensures IsOutcome(c, did, chains, VerdictOf(c, did, r))
    ensures r.Resolved? ==> Accounted(c, did, chains, r.winner, r.superseded)
  {
    hide Sound, Folds, FoldLogOf, IsOutcome, ChainStates, SpineOf, Keeps, Discards, ValidOf, Folding;
    var valid: seq<FoldedBranch> := [];
    NoneValidYet(c, did);
    for i := 0 to |chains|
      invariant ValidOf(c, did, chains[..i], valid)
    {
      var folded := FoldLog(c, did, chains[i], []);
      ChainAlone(c, did, chains[i]);
      assert chains[..i + 1] == chains[..i] + [chains[i]];
      if !folded.LogFolded? {
        ValidSkips(c, did, chains[..i], valid, chains[i]);
      } else {
        var f := BranchFrom(chains[i], folded.states);
        ValidNext(c, did, chains[..i], valid, f);
        valid := valid + [f];
      }
    }
    assert chains[..|chains|] == chains;
    r := SelectWinner(c, did, chains, valid);
    ValidFolding(c, did, chains, valid);
  }

  lemma NoneValidYet(c: Suite, did: Did)
    ensures ValidOf(c, did, [], [])
  {
  }

  lemma ValidFolding(c: Suite, did: Did, chains: seq<Chain>, valid: seq<FoldedBranch>)
    requires ValidOf(c, did, chains, valid)
    ensures BranchesOf(valid) == Folding(c, did, chains)
  {
    hide Folds, AllReal;
  }

  lemma ValidSkips(c: Suite, did: Did, chains: seq<Chain>, valid: seq<FoldedBranch>, chain: Chain)
    requires ValidOf(c, did, chains, valid) && !Folds(c, did, chain)
    ensures ValidOf(c, did, chains + [chain], valid)
  {
    hide Folds, Real;
    assert (chains + [chain])[..|chains|] == chains;
  }

  lemma ValidNext(c: Suite, did: Did, chains: seq<Chain>, valid: seq<FoldedBranch>, f: FoldedBranch)
    requires ValidOf(c, did, chains, valid) && Real(c, did, f)
    ensures ValidOf(c, did, chains + [f.branch], valid + [f])
  {
    hide Folds, Real;
    RealFolds(c, did, f);
    var more := valid + [f];
    assert (chains + [f.branch])[..|chains|] == chains && BranchesOf(more) == BranchesOf(valid) + [f.branch];
    assert forall g :: g in more <==> g in valid || g == f;
    forall chain | chain in chains + [f.branch] && Folds(c, did, chain) ensures exists g :: g in more && g.branch == chain {
      if chain == f.branch {
        assert f in more && f.branch == chain;
      } else {
        var g :| g in valid && g.branch == chain;
        assert g in more && g.branch == chain;
      }
    }
  }

  lemma FoldsOneByOne(c: Suite, did: Did, chains: seq<Chain>, chain: Chain)
    requires Folds(c, did, chain)
    ensures Folding(c, did, chains + [chain]) == Folding(c, did, chains) + [chain]
  {
    assert (chains + [chain])[..|chains|] == chains;
  }

  /** Of two tied chains the first to come is the raw winner, so two orders have two winners, and one outcome. */
  lemma {:induction false} TieByArrival(c: Suite, did: Did, a: Chain, b: Chain, winner: Chain, superseded: nat)
    requires a != b && OneHead(c, did, a, b) && !Preferred(c, a, b) && !Preferred(c, b, a)
    requires Accounted(c, did, [a, b], winner, superseded) && winner in [a, b]
    ensures winner == a
  {
    hide Folds, HeadState, LastDigest, Discards, ValidOf;
    FoldsOneByOne(c, did, [], a);
    FoldsOneByOne(c, did, [a], b);
    assert [] + [a] == [a] && [a] + [b] == [a, b];
    var k :| ComesFirst(c, did, [a, b], winner, k);
    assert OneHead(c, did, [a, b][0], b);
  }
}
