/** `splitRange`: a range too large to list is cut into consecutive parts that partition it. */
module Split {
  import opened Basics
  import opened Range

  // ---------------------------------------------------------------- parts of a sorted range

  /** `small` lies inside `big`. */
  ghost predicate Narrower(small: Bounds, big: Bounds) {
    forall leaf :: Holds(small, leaf) ==> Holds(big, leaf)
  }

  lemma {:induction false} WithinAppend(a: seq<Leaf>, x: Leaf, bounds: Bounds)
    ensures Within(a + [x], bounds) == if Holds(bounds, x) then Within(a, bounds) + [x] else Within(a, bounds)
  {
    hide Holds;
    if a != [] {
      assert (a + [x])[1..] == a[1..] + [x];
      WithinAppend(a[1..], x, bounds);
    } else {
      assert (a + [x])[1..] == [];
    }
  }

  lemma {:induction false} WithinInsert(sorted: seq<Leaf>, x: Leaf, bounds: Bounds)
    requires InOrder(sorted)
    ensures Within(Insert(sorted, x), bounds) == if Holds(bounds, x) then Insert(Within(sorted, bounds), x) else Within(sorted, bounds)
  {
    hide Holds;
    if sorted == [] || x.position < sorted[0].position {
      assert ([x] + sorted)[1..] == sorted;
      if Within(sorted, bounds) != [] {
        assert Within(sorted, bounds)[0] in sorted;
      }
    } else {
      WithinInsert(sorted[1..], x, bounds);
      assert Insert(sorted, x)[1..] == Insert(sorted[1..], x);
      var rest := Within(sorted[1..], bounds);
      if Holds(bounds, sorted[0]) {
        assert ([sorted[0]] + rest)[1..] == rest;
      }
    }
  }

  /** Sorting a part is taking that part of what is sorted. */
  lemma {:induction false} SortWithin(leaves: seq<Leaf>, small: Bounds, big: Bounds)
    requires Narrower(small, big)
    ensures SortLeaves(Within(leaves, small)) == Within(SortLeaves(Within(leaves, big)), small)
  {
    hide Insert, Holds, InOrder;
    if leaves != [] {
      var n := |leaves| - 1;
      assert leaves == leaves[..n] + [leaves[n]];
      WithinAppend(leaves[..n], leaves[n], small);
      WithinAppend(leaves[..n], leaves[n], big);
      SortWithin(leaves[..n], small, big);
      SortedRight(Within(leaves[..n], big));
      WithinInsert(SortLeaves(Within(leaves[..n], big)), leaves[n], small);
      SortAppend(Within(leaves[..n], small), leaves[n]);
      SortAppend(Within(leaves[..n], big), leaves[n]);
    }
  }

  lemma SortAppend(a: seq<Leaf>, x: Leaf)
    ensures SortLeaves(a + [x]) == Insert(SortLeaves(a), x)
  {
    assert (a + [x])[..|a|] == a;
  }

  lemma {:induction false} WithinSlice(s: seq<Leaf>, bounds: Bounds, start: nat, end: nat)
    requires start <= end <= |s| && forall k :: 0 <= k < |s| ==> (Holds(bounds, s[k]) <==> start <= k < end)
    ensures Within(s, bounds) == s[start..end]
  {
    hide Holds;
    if s != [] {
      WithinSlice(s[1..], bounds, if start == 0 then 0 else start - 1, if end == 0 then 0 else end - 1);
    }
  }

  /** The bounds of the part that holds the leaves from `start` to `end`. */
  function Between(inside: seq<Leaf>, bounds: Bounds, start: nat, end: nat): Bounds
    requires start < end <= |inside|
  {
    Bounds(bounds.kind,
      if start == 0 then bounds.lower else Some(inside[start - 1].position),
      if end == |inside| then bounds.upper else Some(inside[end - 1].position))
  }

  /** A part between two leaves holds just the leaves between them, as its own scan would find them. */
  lemma {:induction false} PartHolds(leaves: seq<Leaf>, bounds: Bounds, inside: seq<Leaf>, start: nat, end: nat)
    requires LeavesInRange(leaves, bounds) == Ok(inside) && start < end <= |inside|
    ensures LeavesInRange(leaves, Between(inside, bounds, start, end)) == Ok(inside[start..end])
    ensures forall k :: 0 <= k < |inside| ==> (Holds(Between(inside, bounds, start, end), inside[k]) <==> start <= k < end)
  {
    hide SortLeaves, Within;
    var part := Between(inside, bounds, start, end);
    SortedRight(Within(leaves, bounds));
    forall k | 0 <= k < |inside| ensures Holds(bounds, inside[k]) {
      assert inside[k] in multiset(inside);
      assert inside[k] in Within(leaves, bounds);
    }
    InsidePart(inside, bounds, start, end);
    SortWithin(leaves, part, bounds);
    WithinSlice(inside, part, start, end);
  }

  lemma InsidePart(inside: seq<Leaf>, bounds: Bounds, start: nat, end: nat)
    requires OnePerRecord(inside) && start < end <= |inside| && forall k :: 0 <= k < |inside| ==> Holds(bounds, inside[k])
    ensures Narrower(Between(inside, bounds, start, end), bounds)
    ensures forall k :: 0 <= k < |inside| ==> (Holds(Between(inside, bounds, start, end), inside[k]) <==> start <= k < end)
  {
  }

  // ---------------------------------------------------------------- the split

  /** Where a sorted range is cut: ascending from its start. */
  predicate Cuts(cuts: seq<nat>, end: nat) {
    && cuts != [] && cuts[0] == 0 && cuts[|cuts| - 1] == end
    && (forall i, j :: 0 <= i < j < |cuts| ==> cuts[i] < cuts[j])
  }

  /** The parts between the cuts, each smaller than the whole and summarized over its own leaves. */
  predicate PartsAt(digest: Digester, inside: seq<Leaf>, bounds: Bounds, cuts: seq<nat>, end: nat, parts: seq<Part>) {
    && Cuts(cuts, end) && |parts| == |cuts| - 1
    && (forall i :: 0 <= i < |parts| ==>
      (parts[i] == PartBetween(digest, inside, bounds, cuts[i], cuts[i + 1])
      && parts[i].Summarized? && 0 < parts[i].summary.count < |inside|))
  }

  function PartBetween(digest: Digester, inside: seq<Leaf>, bounds: Bounds, start: nat, end: nat): Part {
    if start < end <= |inside| && FingerprintOf(digest, inside[start..end]).Ok?
    then Summarized(Summary(Between(inside, bounds, start, end), FingerprintOf(digest, inside[start..end]).value, end - start))
    else Listed(bounds, [])
  }

  method SplitRange(digest: Digester, leaves: seq<Leaf>, bounds: Bounds, leafThreshold: int)
    returns (r: Result<seq<Part>>, ghost cuts: seq<nat>)
    ensures leafThreshold < 1 ==> r == Err(BadLeafThreshold)
    ensures leafThreshold >= 1 && LeavesInRange(leaves, bounds).Err? ==> r == Err(LeavesInRange(leaves, bounds).error)
    ensures leafThreshold >= 1 && LeavesInRange(leaves, bounds).Ok? ==>
      var inside := LeavesInRange(leaves, bounds).value;
      if |inside| <= leafThreshold then r == Ok([Listed(bounds, inside)])
      else if r.Ok? then PartsAt(digest, inside, bounds, cuts, |inside|, r.value) && |r.value| <= RANGE_SPLIT
      else r == Err(BadOpHash) && !AllCanonical(inside)
  {
    cuts := [];
    if leafThreshold < 1 {
      return Err(BadLeafThreshold), cuts;
    }
    var found := LeavesIn(leaves, bounds);
    if found.Err? {
      return Err(found.error), cuts;
    }
    var inside := found.value;
    if |inside| <= leafThreshold {
      return Ok([Listed(bounds, inside)]), cuts;
    }
    r, cuts := CutUp(digest, bounds, inside);
  }

  /** Cut what a range holds into at most sixteen parts of even size. */
  method CutUp(digest: Digester, bounds: Bounds, inside: seq<Leaf>) returns (r: Result<seq<Part>>, ghost cuts: seq<nat>)
    requires |inside| > 1
    ensures r.Ok? ==> PartsAt(digest, inside, bounds, cuts, |inside|, r.value) && |r.value| <= RANGE_SPLIT
    ensures r.Err? ==> r.error == BadOpHash && !AllCanonical(inside)
  {
    hide PartsAt, AllCanonical, CanonicalHash, LaneSums;
    var size := (|inside| + RANGE_SPLIT - 1) / RANGE_SPLIT;
    var parts: seq<Part> := [];
    cuts := [0];
    var start := 0;
    NoParts(digest, inside, bounds);
    while start < |inside|
      invariant PartsAt(digest, inside, bounds, cuts, if start < |inside| then start else |inside|, parts)
      invariant start < |inside| ==> start == |parts| * size
      invariant |parts| <= RANGE_SPLIT
    {
      var end := if start + size >= |inside| then |inside| else start + size;
      var chunk := inside[start..end];
      var fingerprint := FingerprintRange(digest, chunk);
      if fingerprint.Err? {
        NotAllCanonical(inside, start, end);
        return Err(BadOpHash), cuts;
      }
      FewParts(|parts|, size, |inside|);
      var part := Summarized(Summary(Between(inside, bounds, start, end), fingerprint.value, |chunk|));
      PartsNext(digest, inside, bounds, cuts, start, end, parts, part);
      parts := parts + [part];
      cuts := cuts + [end];
      start := start + size;
    }
    r := Ok(parts);
  }

  lemma NoParts(digest: Digester, inside: seq<Leaf>, bounds: Bounds)
    ensures PartsAt(digest, inside, bounds, [0], 0, [])
  {
  }

  lemma PartsNext(digest: Digester, inside: seq<Leaf>, bounds: Bounds, cuts: seq<nat>, start: nat, end: nat, parts: seq<Part>, part: Part)
    requires PartsAt(digest, inside, bounds, cuts, start, parts) && start < end <= |inside| && end - start < |inside|
    requires part == PartBetween(digest, inside, bounds, start, end) && part.Summarized?
    ensures PartsAt(digest, inside, bounds, cuts + [end], end, parts + [part])
  {
    hide FingerprintOf, Between;
    assert forall i :: 0 <= i < |cuts| ==> cuts[i] <= start;
  }

  lemma NotAllCanonical(inside: seq<Leaf>, start: nat, end: nat)
    requires start <= end <= |inside| && !AllCanonical(inside[start..end])
    ensures !AllCanonical(inside)
  {
    hide CanonicalHash;
  }

  lemma FewParts(i: nat, size: nat, n: nat)
    requires i * size < n <= RANGE_SPLIT * size
    ensures i < RANGE_SPLIT && (i + 1) * size == i * size + size
  {
    assert i >= RANGE_SPLIT ==> i * size >= RANGE_SPLIT * size;
  }

  // ---------------------------------------------------------------- what a split promises

  function CountTotal(parts: seq<Part>): nat {
    if parts == [] then 0
    else CountTotal(parts[..|parts| - 1]) + if parts[|parts| - 1].Summarized? then parts[|parts| - 1].summary.count else 0
  }

  lemma {:induction false} TotalIs(digest: Digester, inside: seq<Leaf>, bounds: Bounds, cuts: seq<nat>, end: nat, parts: seq<Part>)
    requires PartsAt(digest, inside, bounds, cuts, end, parts)
    ensures CountTotal(parts) == end
  {
    hide FingerprintOf, Between;
    if parts != [] {
      var n := |parts| - 1;
      PartsBefore(digest, inside, bounds, cuts, end, parts);
      TotalIs(digest, inside, bounds, cuts[..n + 1], cuts[n], parts[..n]);
      assert parts[n] == PartBetween(digest, inside, bounds, cuts[n], cuts[n + 1]);
    }
  }

  lemma PartsBefore(digest: Digester, inside: seq<Leaf>, bounds: Bounds, cuts: seq<nat>, end: nat, parts: seq<Part>)
    requires PartsAt(digest, inside, bounds, cuts, end, parts) && parts != []
    ensures var n := |parts| - 1; PartsAt(digest, inside, bounds, cuts[..n + 1], cuts[n], parts[..n])
  {
    hide FingerprintOf, Between, PartBetween;
  }

  /** The parts run on from one another, from the range's own start to its own end. */
  ghost predicate Consecutive(bounds: Bounds, parts: seq<Part>) {
    && parts != [] && (forall i :: 0 <= i < |parts| ==> parts[i].Summarized? && parts[i].summary.bounds.kind == bounds.kind)
    && parts[0].summary.bounds.lower == bounds.lower && parts[|parts| - 1].summary.bounds.upper == bounds.upper
    && (forall i :: 0 < i < |parts| ==> RunsOn(parts, i))
  }

  predicate RunsOn(parts: seq<Part>, i: nat)
    requires 0 < i < |parts|
  {
    && parts[i - 1].Summarized? && parts[i].Summarized?
    && parts[i - 1].summary.bounds.upper.Some? && parts[i].summary.bounds.lower == parts[i - 1].summary.bounds.upper
  }

  /** A split is a partition: at most sixteen consecutive parts that cover the range, each nonempty and smaller
      than the whole, counts that sum, every leaf in exactly one part, and each part what a summary of its own
      bounds would say. */
  lemma {:induction false} SplitPartitions(digest: Digester, leaves: seq<Leaf>, bounds: Bounds, inside: seq<Leaf>, cuts: seq<nat>, parts: seq<Part>)
    requires LeavesInRange(leaves, bounds) == Ok(inside) && inside != []
    requires PartsAt(digest, inside, bounds, cuts, |inside|, parts)
    ensures Consecutive(bounds, parts) && CountTotal(parts) == |inside|
    ensures forall i :: 0 <= i < |parts| ==> SummaryOf(digest, leaves, parts[i].summary.bounds) == Ok(parts[i].summary)
    ensures forall leaf :: leaf in inside ==> InExactlyOne(leaf, parts)
  {
    hide FingerprintOf, LeavesInRange, Holds;
    TotalIs(digest, inside, bounds, cuts, |inside|, parts);
    forall i | 0 <= i < |parts| ensures SummaryOf(digest, leaves, parts[i].summary.bounds) == Ok(parts[i].summary) {
      PartHolds(leaves, bounds, inside, cuts[i], cuts[i + 1]);
    }
    PartsConsecutive(digest, inside, bounds, cuts, parts);
    forall leaf | leaf in inside ensures InExactlyOne(leaf, parts) {
      var k :| 0 <= k < |inside| && inside[k] == leaf;
      LandsInOne(digest, leaves, bounds, inside, cuts, parts, k);
    }
  }

  ghost predicate InExactlyOne(leaf: Leaf, parts: seq<Part>) {
    exists i :: 0 <= i < |parts| && IsThePart(leaf, parts, i)
  }

  ghost predicate IsThePart(leaf: Leaf, parts: seq<Part>, i: nat)
    requires i < |parts|
  {
    forall j :: 0 <= j < |parts| && parts[j].Summarized? ==> (Holds(parts[j].summary.bounds, leaf) <==> j == i)
  }

  lemma PartsConsecutive(digest: Digester, inside: seq<Leaf>, bounds: Bounds, cuts: seq<nat>, parts: seq<Part>)
    requires PartsAt(digest, inside, bounds, cuts, |inside|, parts) && inside != []
    ensures Consecutive(bounds, parts)
  {
    hide FingerprintOf;
    hide Between;
    var n := |parts|;
    assert n > 0;
    forall i | 0 <= i < n
      ensures parts[i].Summarized? && parts[i].summary.bounds == Between(inside, bounds, cuts[i], cuts[i + 1])
      ensures parts[i].summary.bounds.kind == bounds.kind
    {
      BetweenKind(inside, bounds, cuts[i], cuts[i + 1]);
    }
    BetweenEnds(inside, bounds, cuts, n);
    forall i | 0 < i < n ensures RunsOn(parts, i) {
      assert parts[i - 1].summary.bounds == Between(inside, bounds, cuts[i - 1], cuts[i - 1 + 1]);
      BetweenMeet(inside, bounds, cuts[i - 1], cuts[i], cuts[i + 1]);
    }
  }

  lemma BetweenEnds(inside: seq<Leaf>, bounds: Bounds, cuts: seq<nat>, n: nat)
    requires Cuts(cuts, |inside|) && n == |cuts| - 1 && n > 0
    ensures cuts[n] == |inside| && Between(inside, bounds, cuts[0], cuts[1]).lower == bounds.lower
    ensures Between(inside, bounds, cuts[n - 1], cuts[n]).upper == bounds.upper
  {
  }

  lemma BetweenKind(inside: seq<Leaf>, bounds: Bounds, a: nat, b: nat)
    requires a < b <= |inside|
    ensures Between(inside, bounds, a, b).kind == bounds.kind
  {
  }

  lemma BetweenMeet(inside: seq<Leaf>, bounds: Bounds, a: nat, b: nat, c: nat)
    requires a < b < c <= |inside|
    ensures Between(inside, bounds, a, b).upper.Some?
    ensures Between(inside, bounds, b, c).lower == Between(inside, bounds, a, b).upper
  {
  }

  lemma {:induction false} CutAround(cuts: seq<nat>, n: nat, k: nat) returns (i: nat)
    requires Cuts(cuts, n) && k < n
    ensures i < |cuts| - 1 && cuts[i] <= k < cuts[i + 1]
  {
    i := 0;
    while cuts[i + 1] <= k
      invariant i + 1 < |cuts| && cuts[i] <= k
      decreases |cuts| - i
    {
      i := i + 1;
    }
  }

  lemma {:induction false} LandsInOne(digest: Digester, leaves: seq<Leaf>, bounds: Bounds, inside: seq<Leaf>, cuts: seq<nat>, parts: seq<Part>, k: nat)
    requires LeavesInRange(leaves, bounds) == Ok(inside) && k < |inside|
    requires PartsAt(digest, inside, bounds, cuts, |inside|, parts)
    ensures InExactlyOne(inside[k], parts)
  {
    hide FingerprintOf, LeavesInRange, Holds, Between;
    var i := CutAround(cuts, |inside|, k);
    forall j | 0 <= j < |parts| ensures Holds(parts[j].summary.bounds, inside[k]) <==> j == i {
      PartHolds(leaves, bounds, inside, cuts[j], cuts[j + 1]);
      OnlyCut(cuts, |inside|, k, i, j);
    }
    assert IsThePart(inside[k], parts, i);
  }

  lemma OnlyCut(cuts: seq<nat>, n: nat, k: nat, i: nat, j: nat)
    requires Cuts(cuts, n) && i + 1 < |cuts| && j + 1 < |cuts| && cuts[i] <= k < cuts[i + 1]
    ensures cuts[j] <= k < cuts[j + 1] <==> j == i
  {
    if j < i {
      assert cuts[j + 1] <= cuts[i];
    } else if i < j {
      assert cuts[i + 1] <= cuts[j];
    }
  }
}
