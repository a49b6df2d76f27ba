/** `resolveBranches`: the authoritative chain among several, or the fork between them. */
module Supersede {
  import opened Basics
  import opened Events
  import opened ChainHistory
  import opened Branches
  import opened Lists

  /** A branch that folded, with the positions at which its digest changes. */
  datatype FoldedBranch = FoldedBranch(branch: seq<ChainEntry>, states: seq<KeyState>, spine: seq<nat>)

  predicate Indexed(f: FoldedBranch) {
    f.spine != [] && forall j :: 0 <= j < |f.spine| ==> f.spine[j] < |f.states|
  }

  function HistoryOf(f: FoldedBranch): History
    requires Indexed(f)
  {
    HistoryAt(f.states, f.spine)
  }

  /** Read a folded branch's spine off its states. */
  method BranchFrom(branch: seq<ChainEntry>, states: seq<KeyState>) returns (f: FoldedBranch)
    requires states != []
    ensures f == FoldedBranch(branch, states, SpineOf(states)) && Indexed(f)
  {
    var spine := [0];
    for i := 1 to |states|
      invariant spine == SpineOf(states[..i])
    {
      assert states[..i + 1][..i] == states[..i];
      if states[i].digest != states[i - 1].digest {
        spine := spine + [i];
      }
    }
    assert states[..|states|] == states;
    f := FoldedBranch(branch, states, spine);
  }

  /** The first place on their spines where two branches differ, or where the shorter one ends. */
  method CommonSpine(a: FoldedBranch, b: FoldedBranch) returns (j: nat)
    requires Indexed(a) && Indexed(b)
    ensures j <= |a.spine| && j <= |b.spine|
    ensures forall i :: 0 <= i < j ==> HistoryOf(a)[i].digest == HistoryOf(b)[i].digest
    ensures j < |a.spine| && j < |b.spine| ==> HistoryOf(a)[j].digest != HistoryOf(b)[j].digest
  {
    var shortest := if |a.spine| < |b.spine| then |a.spine| else |b.spine|;
    j := 0;
    while j < shortest && a.states[a.spine[j]].digest == b.states[b.spine[j]].digest
      invariant j <= shortest
      invariant forall i :: 0 <= i < j ==> HistoryOf(a)[i].digest == HistoryOf(b)[i].digest
    {
      j := j + 1;
    }
  }

  // ---------------------------------------------------------------- the contenders

  datatype Resolution = Chosen(winner: FoldedBranch) | Forked(duplicity: Duplicity)

  ghost predicate AllIndexed(group: seq<FoldedBranch>) {
    forall f :: f in group ==> Indexed(f)
  }

  ghost function Histories(group: seq<FoldedBranch>): set<History>
    requires AllIndexed(group)
  {
    set f | f in group :: HistoryOf(f)
  }

  /** Rivals, each with its own head. */
  ghost predicate Contend(group: seq<FoldedBranch>) {
    && AllIndexed(group)
    && Rivals(Histories(group))
    && (forall i, j :: 0 <= i < j < |group| ==> HeadDigest(group[i]) != HeadDigest(group[j]))
  }

  function HeadDigest(f: FoldedBranch): Digest
    requires Indexed(f)
  {
    f.states[f.spine[|f.spine| - 1]].digest
  }

  /** The point every contender of the group agrees to. */
  method Divergence(group: seq<FoldedBranch>) returns (d: nat)
    requires |group| > 0 && AllIndexed(group)
    ensures Diverge(group, d)
  {
    var pivot := group[0];
    d := |pivot.spine|;
    for i := 1 to |group|
      invariant d <= |pivot.spine| && forall k :: 0 <= k < i ==> d <= |group[k].spine|
      invariant forall k, j :: 0 <= k < i && 0 <= j < d ==> HistoryOf(group[k])[j].digest == HistoryOf(pivot)[j].digest
      invariant d == |pivot.spine| || exists k :: 0 <= k < i && (d == |group[k].spine| || DifferAt(HistoryOf(group[k]), HistoryOf(pivot), d))
    {
      var common := CommonSpine(pivot, group[i]);
      if common < d {
        d := common;
        assert d == |group[i].spine| || DifferAt(HistoryOf(group[i]), HistoryOf(pivot), d);
      }
    }
  }

  /** The contenders that carry an event at the divergence point, in the order they came. */
  method Extended(group: seq<FoldedBranch>, d: nat) returns (r: seq<FoldedBranch>)
    requires AllIndexed(group)
    ensures r == LongerThan(group, d)
  {
    r := [];
    for i := 0 to |group|
      invariant r == LongerThan(group[..i], d)
    {
      assert group[..i + 1][..i] == group[..i];
      if |group[i].spine| > d {
        r := r + [group[i]];
      }
    }
    assert group[..|group|] == group;
  }

  function LongerThan(group: seq<FoldedBranch>, d: nat): (r: seq<FoldedBranch>)
    ensures |r| <= |group|
    ensures forall f :: f in r <==> f in group && |f.spine| > d
    ensures |r| == |group| ==> forall f :: f in group ==> |f.spine| > d
  {
    if group == [] then []
    else
      var n := |group| - 1;
      var rest := LongerThan(group[..n], d);
      assert group == group[..n] + [group[n]];
      if |group[n].spine| > d then rest + [group[n]] else rest
  }

  lemma {:induction false} LongerContend(group: seq<FoldedBranch>, d: nat)
    requires Contend(group)
    ensures Contend(LongerThan(group, d))
  {
    hide Indexed, HeadDigest, OneHistory, HistoryOf;
    var longer := LongerThan(group, d);
    assert Histories(longer) <= Histories(group);
    LongerHeads(group, d);
  }

  ghost predicate OwnHeads(group: seq<FoldedBranch>)
    requires AllIndexed(group)
  {
    forall i, j :: 0 <= i < j < |group| ==> HeadDigest(group[i]) != HeadDigest(group[j])
  }

  lemma {:induction false} LongerHeads(group: seq<FoldedBranch>, d: nat)
    requires AllIndexed(group) && OwnHeads(group)
    ensures AllIndexed(LongerThan(group, d)) && OwnHeads(LongerThan(group, d))
  {
    hide HeadDigest, Indexed;
    if group != [] {
      var n := |group| - 1;
      var rest := LongerThan(group[..n], d);
      LongerHeads(group[..n], d);
      forall i | 0 <= i < |rest| ensures HeadDigest(rest[i]) != HeadDigest(group[n]) {
        assert rest[i] in group[..n];
        var k :| 0 <= k < n && group[..n][k] == rest[i];
      }
    }
  }

  /** Below `m` no two of a set differ. */
  ghost predicate AgreeBelow(s: set<History>, m: nat) {
    forall j: nat :: j < m ==> !ForkedAt(s, j)
  }

  /** What a round of elimination keeps: the contenders left are those longer than `floor`, and nobody
      differs below it. */
  ghost predicate Narrowed(all: seq<FoldedBranch>, group: seq<FoldedBranch>, floor: nat)
    requires AllIndexed(all)
  {
    && group != [] && Contend(group)
    && (forall f :: f in group <==> f in all && |f.spine| > floor)
    && AgreeBelow(Histories(all), floor)
  }

  /** Where a group of several diverges. */
  ghost predicate Diverge(group: seq<FoldedBranch>, d: nat)
    requires group != [] && AllIndexed(group)
  {
    && (forall f :: f in group ==> d <= |f.spine|)
    && (forall f, j :: f in group && 0 <= j < d ==> HistoryOf(f)[j].digest == HistoryOf(group[0])[j].digest)
    && (d == |group[0].spine| || exists f :: f in group && (d == |f.spine| || DifferAt(HistoryOf(f), HistoryOf(group[0]), d)))
  }

  /** Some contender goes on: all ending together, they would have one head. */
  lemma SomeExtend(group: seq<FoldedBranch>, d: nat)
    requires |group| > 1 && Contend(group) && Diverge(group, d)
    ensures LongerThan(group, d) != []
  {
    hide Rivals, Histories;
    var a, b := group[0], group[1];
    assert a in group && b in group;
    EndsDiffer(a, b, d);
    assert a in LongerThan(group, d) || b in LongerThan(group, d);
  }

  lemma EndsDiffer(a: FoldedBranch, b: FoldedBranch, d: nat)
    requires Indexed(a) && Indexed(b) && d <= |a.spine| && d <= |b.spine| && HeadDigest(a) != HeadDigest(b)
    requires forall j :: 0 <= j < d ==> HistoryOf(b)[j].digest == HistoryOf(a)[j].digest
    ensures |a.spine| > d || |b.spine| > d
  {
    assert d > 0 ==> HistoryOf(a)[d - 1] == a.states[a.spine[d - 1]] && HistoryOf(b)[d - 1] == b.states[b.spine[d - 1]];
  }

  lemma DivergeAbove(all: seq<FoldedBranch>, group: seq<FoldedBranch>, floor: nat, d: nat)
    requires AllIndexed(all) && Narrowed(all, group, floor) && |group| > 1 && Diverge(group, d)
    ensures floor <= d && AgreeBelow(Histories(all), d)
  {
    hide Rivals, Indexed, DifferAt, Diverge, Narrowed, HistoryOf;
    forall j: nat | j < d ensures !ForkedAt(Histories(all), j) {
      forall a, b | a in Histories(all) && b in Histories(all) ensures !DifferAt(a, b, j) {
        NoDiffer(all, group, floor, d, a, b, j);
      }
    }
    NarrowedMeans(all, group, floor);
    FewerForks(Histories(group), Histories(all), floor);
    DivergeAtLeast(group, floor, d);
  }

  lemma NarrowedMeans(all: seq<FoldedBranch>, group: seq<FoldedBranch>, floor: nat)
    requires AllIndexed(all) && Narrowed(all, group, floor)
    ensures group != [] && Contend(group) && AgreeBelow(Histories(all), floor)
    ensures forall f :: f in group <==> f in all && |f.spine| > floor
    ensures Histories(group) <= Histories(all)
  {
    hide Contend, AgreeBelow;
  }

  lemma NoDiffer(all: seq<FoldedBranch>, group: seq<FoldedBranch>, floor: nat, d: nat, a: History, b: History, j: nat)
    requires AllIndexed(all) && Narrowed(all, group, floor) && |group| > 1 && Diverge(group, d)
    requires a in Histories(all) && b in Histories(all) && j < d
    ensures !DifferAt(a, b, j)
  {
    hide Rivals, Contend;
    if j < floor {
      assert !ForkedAt(Histories(all), j);
    } else if j < |a| && j < |b| {
      var f :| f in all && HistoryOf(f) == a;
      var g :| g in all && HistoryOf(g) == b;
      assert f in group && g in group;
      assert HistoryOf(f)[j].digest == HistoryOf(group[0])[j].digest;
      assert HistoryOf(g)[j].digest == HistoryOf(group[0])[j].digest;
    }
  }

  lemma ForksCarry(small: set<History>, big: set<History>, j: nat)
    requires small <= big && ForkedAt(small, j)
    ensures ForkedAt(big, j)
  {
    hide DifferAt;
  }

  lemma FewerForks(small: set<History>, big: set<History>, floor: nat)
    requires small <= big && AgreeBelow(big, floor)
    ensures AgreeBelow(small, floor)
  {
    hide ForkedAt;
    forall j: nat | j < floor ensures !ForkedAt(small, j) {
      if ForkedAt(small, j) {
        ForksCarry(small, big, j);
      }
    }
  }

  lemma DivergeAtLeast(group: seq<FoldedBranch>, floor: nat, d: nat)
    requires group != [] && Contend(group) && Diverge(group, d)
    requires forall f :: f in group ==> |f.spine| > floor
    requires AgreeBelow(Histories(group), floor)
    ensures floor <= d
  {
    assert group[0] in group;
    if d != |group[0].spine| {
      var f :| f in group && (d == |f.spine| || DifferAt(HistoryOf(f), HistoryOf(group[0]), d));
      if d != |f.spine| {
        ShowsFork(group, f, group[0], d);
      }
    }
  }

  lemma ShowsFork(group: seq<FoldedBranch>, f: FoldedBranch, g: FoldedBranch, d: nat)
    requires AllIndexed(group) && f in group && g in group && DifferAt(HistoryOf(f), HistoryOf(g), d)
    ensures ForkedAt(Histories(group), d)
  {
    assert HistoryOf(f) in Histories(group) && HistoryOf(g) in Histories(group);
  }

  function At(f: FoldedBranch, d: nat): KeyState
    requires Indexed(f) && d < |f.spine|
  {
    f.states[f.spine[d]]
  }

  /** The digests that stand at `d` in a group. */
  function StandAt(group: seq<FoldedBranch>, d: nat): set<Digest> {
    set f | f in group && Indexed(f) && d < |f.spine| :: At(f, d).digest
  }

  method DigestsOf(group: seq<FoldedBranch>, d: nat) returns (digests: seq<Digest>)
    requires AllIndexed(group) && forall f :: f in group ==> d < |f.spine|
    ensures Ascending(digests) && Elems(digests) == StandAt(group, d)
  {
    hide StandAt, Indexed;
    digests := [];
    NoneStand(d);
    for i := 0 to |group|
      invariant Ascending(digests) && Elems(digests) == StandAt(group[..i], d)
    {
      assert group[i] in group;
      var digest := At(group[i], d).digest;
      DigestsNext(group, i, d);
      if digest !in Elems(digests) {
        digests := InsertSorted(digests, digest);
      }
    }
    assert group[..|group|] == group;
  }

  lemma NoneStand(d: nat)
    ensures StandAt([], d) == {}
  {
  }

  lemma DigestsNext(group: seq<FoldedBranch>, i: nat, d: nat)
    requires i < |group| && Indexed(group[i]) && d < |group[i].spine|
    ensures StandAt(group[..i + 1], d) == StandAt(group[..i], d) + {At(group[i], d).digest}
  {
    hide Indexed, At;
    assert group[..i + 1] == group[..i] + [group[i]];
    assert forall f :: f in group[..i + 1] <==> f in group[..i] || f == group[i];
  }

  /** What is reported when nobody left ends where the rest part: the verdict on all contenders is a fork, at that
      place, between the two least digests that stand there. */
  method ReportFork(ghost all: seq<FoldedBranch>, group: seq<FoldedBranch>, ghost floor: nat, d: nat) returns (report: Duplicity)
    requires AllIndexed(all) && Narrowed(all, group, floor) && |group| > 1 && Diverge(group, d)
    requires forall f :: f in group ==> d < |f.spine|
    ensures IsVerdict(Histories(all), Forks(report))
  {
    hide Rivals, Histories, Reports;
    NarrowedMeans(all, group, floor);
    DivergeAbove(all, group, floor, d);
    var digests := DigestsOf(group, d);
    SameDigests(all, group, floor, d);
    TwoDiffer(group, d, digests);
    var i := 0;
    while At(group[i], d).digest != digests[0]
      invariant 0 <= i < |group|
      invariant forall k :: 0 <= k < i ==> At(group[k], d).digest != digests[0]
      decreases |group| - i
    {
      FirstStands(group, d, digests, i);
      i := i + 1;
    }
    var at := At(group[i], d);
    report := Duplicity(at.gen, at.sequence, digests[0], digests[1]);
    ForkReported(all, group, floor, d, digests, i, report);
  }

  lemma FirstStands(group: seq<FoldedBranch>, d: nat, digests: seq<Digest>, i: nat)
    requires AllIndexed(group) && (forall f :: f in group ==> d < |f.spine|) && digests != []
    requires Elems(digests) == StandAt(group, d)
    requires i < |group| && forall k :: 0 <= k <= i ==> At(group[k], d).digest != digests[0]
    ensures i + 1 < |group|
  {
    assert digests[0] in Elems(digests);
    var f :| f in group && At(f, d).digest == digests[0];
    var k :| 0 <= k < |group| && group[k] == f;
  }

  lemma SameDigests(all: seq<FoldedBranch>, group: seq<FoldedBranch>, floor: nat, d: nat)
    requires AllIndexed(all) && Narrowed(all, group, floor) && floor <= d
    requires forall f :: f in group ==> d < |f.spine|
    ensures DigestsAt(Histories(all), d) == StandAt(group, d)
  {
    hide Rivals, AgreeBelow, Contend;
    NarrowedMeans(all, group, floor);
    var here := StandAt(group, d);
    forall x ensures x in DigestsAt(Histories(all), d) <==> x in here {
      if x in DigestsAt(Histories(all), d) {
        var a: History :| a in Histories(all) && d < |a| && a[d].digest == x;
        var f :| f in all && HistoryOf(f) == a;
        assert f in group;
      }
      if x in here {
        var f :| f in group && At(f, d).digest == x;
        assert HistoryOf(f) in Histories(all) && HistoryOf(f)[d].digest == x;
      }
    }
  }

  lemma TwoDiffer(group: seq<FoldedBranch>, d: nat, digests: seq<Digest>)
    requires group != [] && AllIndexed(group) && Diverge(group, d) && forall f :: f in group ==> d < |f.spine|
    requires Ascending(digests) && Elems(digests) == StandAt(group, d)
    ensures |digests| > 1 && TwoLeast(Elems(digests), digests[0], digests[1])
    ensures ForkedAt(Histories(group), d)
  {
    assert group[0] in group;
    var f :| f in group && DifferAt(HistoryOf(f), HistoryOf(group[0]), d);
    ShowsFork(group, f, group[0], d);
    var x, y := At(f, d).digest, At(group[0], d).digest;
    assert x in Elems(digests) && y in Elems(digests);
    var i :| 0 <= i < |digests| && digests[i] == x;
    var j :| 0 <= j < |digests| && digests[j] == y;
    assert digests[0] in Elems(digests) && digests[1] in Elems(digests);
  }

  lemma ForkReported(all: seq<FoldedBranch>, group: seq<FoldedBranch>, floor: nat, d: nat, digests: seq<Digest>, i: nat, report: Duplicity)
    requires AllIndexed(all) && Narrowed(all, group, floor) && floor <= d && AgreeBelow(Histories(all), d)
    requires ForkedAt(Histories(group), d) && i < |group| && forall f :: f in group ==> d < |f.spine|
    requires |digests| > 1 && TwoLeast(DigestsAt(Histories(all), d), digests[0], digests[1])
    requires var at := At(group[i], d);
      at.digest == digests[0] && report == Duplicity(at.gen, at.sequence, digests[0], digests[1])
    ensures IsVerdict(Histories(all), Forks(report))
  {
    hide Rivals, Contend, DigestsAt, ForkedAt;
    NarrowedMeans(all, group, floor);
    ForksCarry(Histories(group), Histories(all), d);
    assert FirstFork(Histories(all), d);
    assert group[i] in group;
    assert HistoryOf(group[i]) in Histories(all) && HistoryOf(group[i])[d].digest == report.first;
    assert Reports(Histories(all), d, report);
  }

  lemma OneLeft(all: seq<FoldedBranch>, group: seq<FoldedBranch>, floor: nat)
    requires AllIndexed(all) && Narrowed(all, group, floor) && |group| == 1
    requires Rivals(Histories(all))
    ensures group[0] in all && IsVerdict(Histories(all), Wins(HistoryOf(group[0])))
  {
    hide Contend, OneHistory;
    NarrowedMeans(all, group, floor);
    var w := group[0];
    assert w in group;
    forall a | a in Histories(all) ensures a <= HistoryOf(w) {
      var f :| f in all && HistoryOf(f) == a;
      if f != w {
        assert f !in group;
        EndsInside(Histories(all), a, HistoryOf(w), floor);
      }
    }
    forall j: nat ensures !ForkedAt(Histories(all), j) {
      forall a, b | a in Histories(all) && b in Histories(all) ensures !DifferAt(a, b, j) {
        assert a <= HistoryOf(w) && b <= HistoryOf(w);
      }
    }
  }

  /** A history that ends where all still agree is a prefix of any that goes on. */
  lemma EndsInside(s: set<History>, a: History, w: History, floor: nat)
    requires Rivals(s) && a in s && w in s && |a| <= floor < |w| && AgreeBelow(s, floor)
    ensures a <= w
  {
    var last := |a| - 1;
    assert a != [];
    assert !ForkedAt(s, last) && !DifferAt(a, w, last);
    assert OneHistory(a, w);
    assert a[..last + 1] == a;
  }

  /** Walk the contenders down to one, or to the fork between them. */
  method ResolveContenders(contenders: seq<FoldedBranch>) returns (r: Resolution)
    requires contenders != [] && Contend(contenders)
    ensures r.Chosen? ==> r.winner in contenders && IsVerdict(Histories(contenders), Wins(HistoryOf(r.winner)))
    ensures r.Forked? ==> IsVerdict(Histories(contenders), Forks(r.duplicity))
  {
    hide Rivals, Histories, Diverge, OneHistory, IsVerdict, HistoryOf, Contend;
    var group := contenders;
    ghost var floor := 0;
    StartNarrowed(contenders);
    while |group| > 1
      invariant Narrowed(contenders, group, floor)
      decreases |group|
    {
      NarrowedMeans(contenders, group, floor);
      ContendIndexed(group);
      var d := Divergence(group);
      DivergeAbove(contenders, group, floor, d);
      SomeExtend(group, d);
      var extended := Extended(group, d);
      if |extended| < |group| {
        LongerContend(group, d);
        group := extended;
        floor := d;
      } else {
        var report := ReportFork(contenders, group, floor, d);
        return Forked(report);
      }
    }
    ContendIndexed(contenders);
    OneLeft(contenders, group, floor);
    r := Chosen(group[0]);
  }

  lemma ContendIndexed(group: seq<FoldedBranch>)
    requires Contend(group)
    ensures AllIndexed(group) && Rivals(Histories(group))
  {
  }

  lemma StartNarrowed(all: seq<FoldedBranch>)
    requires all != [] && Contend(all)
    ensures AllIndexed(all) && Narrowed(all, all, 0)
  {
    hide Rivals;
  }
}
