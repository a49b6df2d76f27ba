/** Ranges of record positions: fingerprints over sets of leaves, and splitting a range into parts. */
module Range {
  import opened Basics

  /** One decision as reconciliation sees it: where its record stands among those of its type, and the
      words of its leaf hash. An owner and an id make one position each. */
  datatype Leaf = Leaf(kind: int, position: int, opHash: seq<nat>, order: string, contentDigest: int)

  /** From `lower`, exclusive, to `upper`, inclusive; none is unbounded. */
  datatype Bounds = Bounds(kind: int, lower: Option<int>, upper: Option<int>)

  datatype Summary = Summary(bounds: Bounds, fingerprint: int, count: nat)

  /** What a responder says of a range. */
  datatype Part = Summarized(summary: Summary) | Listed(bounds: Bounds, leaves: seq<Leaf>)

  datatype RangeError = BadOpHash | TwoLeavesForOneRecord | BadLeafThreshold

  datatype Result<+T> = Ok(value: T) | Err(error: RangeError)

  const RANGE_SPLIT: nat := 16
  const RANGE_LEAF_THRESHOLD: nat := 16
  const LANES: nat := 8
  const WORD: nat := 0x1_0000_0000

  type Digester = (seq<nat>, nat) -> int

  // ---------------------------------------------------------------- fingerprints

  predicate CanonicalHash(words: seq<nat>) {
    |words| == LANES && forall j :: 0 <= j < LANES ==> words[j] < WORD
  }

  predicate AllCanonical(leaves: seq<Leaf>) {
    forall leaf :: leaf in leaves ==> CanonicalHash(leaf.opHash)
  }

  function Word(leaf: Leaf, lane: nat): nat {
    if lane < |leaf.opHash| then leaf.opHash[lane] else 0
  }

  function LaneTotal(leaves: seq<Leaf>, lane: nat): nat {
    if leaves == [] then 0 else LaneTotal(leaves[..|leaves| - 1], lane) + Word(leaves[|leaves| - 1], lane)
  }

  /** The sum of the leaf hashes, word by word, unsigned with wrap. */
  function LaneSums(leaves: seq<Leaf>): seq<nat> {
    seq(LANES, lane requires 0 <= lane < LANES => LaneTotal(leaves, lane) % WORD)
  }

  function FingerprintOf(digest: Digester, leaves: seq<Leaf>): Result<int> {
    if AllCanonical(leaves) then Ok(digest(LaneSums(leaves), |leaves| % WORD)) else Err(BadOpHash)
  }

  /** Add one leaf hash into the sum in place. */
  method AddLeaf(sum: array<nat>, ghost before: seq<Leaf>, leaf: Leaf)
    requires sum.Length == LANES && sum[..] == LaneSums(before) && CanonicalHash(leaf.opHash)
    modifies sum
    ensures sum[..] == LaneSums(before + [leaf])
  {
    hide LaneTotal, Word;
    ghost var after := before + [leaf];
    for lane := 0 to LANES
      invariant forall j :: 0 <= j < lane ==> sum[j] == LaneTotal(after, j) % WORD
      invariant forall j :: lane <= j < LANES ==> sum[j] == LaneTotal(before, j) % WORD
    {
      WrapsOnce(before, leaf, lane);
      sum[lane] := (sum[lane] + leaf.opHash[lane]) % WORD;
    }
  }

  lemma WrapsOnce(before: seq<Leaf>, leaf: Leaf, lane: nat)
    requires lane < |leaf.opHash|
    ensures LaneTotal(before + [leaf], lane) % WORD == (LaneTotal(before, lane) % WORD + leaf.opHash[lane]) % WORD
  {
    assert (before + [leaf])[..|before|] == before;
  }

  /** The fingerprint of a list of leaves, summed in place. */
  method FingerprintRange(digest: Digester, leaves: seq<Leaf>) returns (r: Result<int>)
    ensures r == FingerprintOf(digest, leaves)
    ensures r.Err? <==> exists leaf :: leaf in leaves && (|leaf.opHash| != 8 || exists j :: 0 <= j < 8 && leaf.opHash[j] > 0xFFFF_FFFF)
  {
    hide LaneSums;
    var sum := new nat[LANES](_ => 0);
    EmptySums(sum[..]);
    for i := 0 to |leaves|
      invariant forall j :: 0 <= j < i ==> CanonicalHash(leaves[j].opHash)
      invariant sum[..] == LaneSums(leaves[..i])
    {
      if !CanonicalHash(leaves[i].opHash) {
        assert leaves[i] in leaves;
        return Err(BadOpHash);
      }
      assert leaves[..i + 1] == leaves[..i] + [leaves[i]];
      AddLeaf(sum, leaves[..i], leaves[i]);
    }
    assert leaves[..|leaves|] == leaves;
    r := Ok(digest(sum[..], |leaves| % WORD));
  }

  lemma EmptySums(sum: seq<nat>)
    requires |sum| == LANES && forall j :: 0 <= j < LANES ==> sum[j] == 0
    ensures sum == LaneSums([])
  {
  }

  lemma {:induction false} TotalWithout(leaves: seq<Leaf>, i: nat, lane: nat)
    requires i < |leaves|
    ensures LaneTotal(leaves, lane) == LaneTotal(leaves[..i] + leaves[i + 1..], lane) + Word(leaves[i], lane)
  {
    hide Word;
    var rest, n := leaves[..i] + leaves[i + 1..], |leaves| - 1;
    if i < n {
      TotalWithout(leaves[..n], i, lane);
      assert rest[..n - 1] == leaves[..n][..i] + leaves[..n][i + 1..];
    } else {
      assert rest == leaves[..n];
    }
  }

  lemma {:induction false} TotalPermuted(a: seq<Leaf>, b: seq<Leaf>, lane: nat)
    requires multiset(a) == multiset(b)
    ensures LaneTotal(a, lane) == LaneTotal(b, lane)
    decreases |a|
  {
    hide Word;
    if a == [] {
      assert |multiset(b)| == 0;
    } else {
      var i := RestSame(a, b);
      TotalWithout(b, i, lane);
      TotalPermuted(a[..|a| - 1], b[..i] + b[i + 1..], lane);
    }
  }

  /** A fingerprint does not depend on the order of its leaves. */
  lemma {:induction false} FingerprintPermuted(digest: Digester, a: seq<Leaf>, b: seq<Leaf>)
    requires multiset(a) == multiset(b)
    ensures FingerprintOf(digest, a) == FingerprintOf(digest, b)
  {
    hide LaneTotal, CanonicalHash;
    SameMembers(a, b);
    assert |multiset(a)| == |a| && |multiset(b)| == |b|;
    forall lane: nat | lane < LANES ensures LaneSums(a)[lane] == LaneSums(b)[lane] {
      TotalPermuted(a, b, lane);
    }
    assert LaneSums(a) == LaneSums(b);
  }

  // ---------------------------------------------------------------- the leaves of a range

  predicate Contains(bounds: Bounds, kind: int, position: int) {
    && kind == bounds.kind
    && (bounds.lower.None? || position > bounds.lower.value)
    && (bounds.upper.None? || position <= bounds.upper.value)
  }

  predicate Holds(bounds: Bounds, leaf: Leaf) {
    Contains(bounds, leaf.kind, leaf.position)
  }

  function Within(leaves: seq<Leaf>, bounds: Bounds): (r: seq<Leaf>)
    ensures forall leaf :: leaf in r <==> leaf in leaves && Holds(bounds, leaf)
  {
    if leaves == [] then []
    else if Holds(bounds, leaves[0]) then [leaves[0]] + Within(leaves[1..], bounds)
    else Within(leaves[1..], bounds)
  }

  function Insert(sorted: seq<Leaf>, x: Leaf): seq<Leaf> {
    if sorted == [] || x.position < sorted[0].position then [x] + sorted else [sorted[0]] + Insert(sorted[1..], x)
  }

  function SortLeaves(leaves: seq<Leaf>): seq<Leaf> {
    if leaves == [] then [] else Insert(SortLeaves(leaves[..|leaves| - 1]), leaves[|leaves| - 1])
  }

  predicate InOrder(leaves: seq<Leaf>) {
    forall i, j :: 0 <= i < j < |leaves| ==> leaves[i].position <= leaves[j].position
  }

  /** One leaf for each position, ascending. */
  predicate OnePerRecord(leaves: seq<Leaf>) {
    forall i, j :: 0 <= i < j < |leaves| ==> leaves[i].position < leaves[j].position
  }

  function LeavesInRange(leaves: seq<Leaf>, bounds: Bounds): Result<seq<Leaf>> {
    var inside := SortLeaves(Within(leaves, bounds));
    if OnePerRecord(inside) then Ok(inside) else Err(TwoLeavesForOneRecord)
  }

  lemma {:induction false} InsertedOnce(sorted: seq<Leaf>, x: Leaf)
    ensures multiset(Insert(sorted, x)) == multiset(sorted) + multiset{x}
  {
    if sorted != [] && x.position >= sorted[0].position {
      InsertedOnce(sorted[1..], x);
      assert sorted == [sorted[0]] + sorted[1..];
    }
  }

  lemma {:induction false} Inserted(sorted: seq<Leaf>, x: Leaf)
    requires InOrder(sorted)
    ensures InOrder(Insert(sorted, x)) && multiset(Insert(sorted, x)) == multiset(sorted) + multiset{x}
  {
    InsertedOnce(sorted, x);
    if sorted != [] && x.position >= sorted[0].position {
      var rest := Insert(sorted[1..], x);
      Inserted(sorted[1..], x);
      LeastFirst(sorted, x, rest);
      FirstInOrder(sorted[0], rest);
    }
  }

  lemma LeastFirst(sorted: seq<Leaf>, x: Leaf, rest: seq<Leaf>)
    requires sorted != [] && InOrder(sorted) && sorted[0].position <= x.position
    requires multiset(rest) == multiset(sorted[1..]) + multiset{x}
    ensures forall leaf :: leaf in rest ==> sorted[0].position <= leaf.position
  {
    forall leaf | leaf in rest ensures sorted[0].position <= leaf.position {
      assert leaf in multiset(rest);
      assert leaf in sorted[1..] || leaf == x;
    }
  }

  lemma FirstInOrder(first: Leaf, rest: seq<Leaf>)
    requires InOrder(rest) && forall leaf :: leaf in rest ==> first.position <= leaf.position
    ensures InOrder([first] + rest)
  {
  }

  lemma {:induction false} SortedRight(leaves: seq<Leaf>)
    ensures InOrder(SortLeaves(leaves)) && multiset(SortLeaves(leaves)) == multiset(leaves)
  {
    if leaves != [] {
      var n := |leaves| - 1;
      SortedRight(leaves[..n]);
      Inserted(SortLeaves(leaves[..n]), leaves[n]);
      assert leaves == leaves[..n] + [leaves[n]];
    }
  }

  /** Sort what a range holds and refuse two leaves for one record. */
  method LeavesIn(leaves: seq<Leaf>, bounds: Bounds) returns (r: Result<seq<Leaf>>)
    ensures r == LeavesInRange(leaves, bounds)
  {
    hide SortLeaves, Within;
    var inside := SortLeaves(Within(leaves, bounds));
    SortedRight(Within(leaves, bounds));
    var i := 1;
    while i < |inside|
      invariant i >= 1
      invariant forall j :: 0 < j < i && j < |inside| ==> inside[j - 1].position < inside[j].position
    {
      if inside[i].position == inside[i - 1].position {
        return Err(TwoLeavesForOneRecord);
      }
      i := i + 1;
    }
    StepsAscend(inside);
    r := Ok(inside);
  }

  lemma {:induction false} StepsAscend(leaves: seq<Leaf>)
    requires forall j :: 0 < j < |leaves| ==> leaves[j - 1].position < leaves[j].position
    ensures OnePerRecord(leaves)
  {
    if leaves != [] {
      var n := |leaves| - 1;
      StepsAscend(leaves[..n]);
      assert forall i :: 0 <= i < n ==> leaves[i] == leaves[..n][i];
      if n > 0 {
        assert leaves[n - 1].position < leaves[n].position;
        assert forall i :: 0 <= i < n ==> leaves[i].position <= leaves[n - 1].position;
      }
    }
  }

  /** A responder's summary of one range of its leaves. */
  function SummaryOf(digest: Digester, leaves: seq<Leaf>, bounds: Bounds): Result<Summary> {
    match LeavesInRange(leaves, bounds)
    case Err(e) => Err(e)
    case Ok(inside) =>
      match FingerprintOf(digest, inside)
      case Err(e) => Err(e)
      case Ok(fingerprint) => Ok(Summary(bounds, fingerprint, |inside|))
  }

  method SummarizeRange(digest: Digester, leaves: seq<Leaf>, bounds: Bounds) returns (r: Result<Summary>)
    ensures r == SummaryOf(digest, leaves, bounds)
  {
    var inside := LeavesIn(leaves, bounds);
    if inside.Err? {
      return Err(inside.error);
    }
    var fingerprint := FingerprintRange(digest, inside.value);
    r := if fingerprint.Err? then Err(fingerprint.error) else Ok(Summary(bounds, fingerprint.value, |inside.value|));
  }
}
