/** A whole pass against an honest responder whose leaves stand still: one summary for each type, then a
    split of every range that differs. */
module PullRun {
  import opened Basics
  import opened Range
  import opened Split
  import opened Reconcile

  /** A store's view: one leaf for each record, every hash canonical and every leaf fit to list. */
  ghost predicate StoreView(k: Codec, leaves: seq<Leaf>) {
    && (forall bounds :: LeavesInRange(leaves, bounds).Ok?)
    && AllCanonical(leaves) && (forall leaf :: leaf in leaves ==> k.listable(leaf))
  }

  /** The fingerprint tells apart what the two sides hold in a range that a message summarizes: one fingerprint
      only when they hold the same leaves there. */
  ghost predicate TellsApart(k: Codec, local: seq<Leaf>, theirs: seq<Leaf>, part: Part) {
    part.Summarized? ==> forall inside ::
      LeavesInRange(theirs, part.summary.bounds) == Ok(inside)
      && FingerprintOf(k.digest, Within(local, part.summary.bounds)) == FingerprintOf(k.digest, inside) ==>
        Elems(Within(local, part.summary.bounds)) == Elems(inside)
  }

  /** A part as the responder's own scan gives it. */
  ghost predicate Honest(k: Codec, theirs: seq<Leaf>, part: Part) {
    match part
    case Summarized(summary) => SummaryOf(k.digest, theirs, summary.bounds) == Ok(summary)
    case Listed(bounds, leaves) => LeavesInRange(theirs, bounds) == Ok(leaves) && |leaves| <= RANGE_LEAF_THRESHOLD
  }

  /** What the responder sends for a range that differs. */
  ghost predicate IsSplit(k: Codec, theirs: seq<Leaf>, bounds: Bounds, parts: seq<Part>) {
    && LeavesInRange(theirs, bounds).Ok?
    && var inside := LeavesInRange(theirs, bounds).value;
    && if |inside| <= RANGE_LEAF_THRESHOLD then parts == [Listed(bounds, inside)]
       else |parts| <= RANGE_SPLIT && exists cuts :: PartsAt(k.digest, inside, bounds, cuts, |inside|, parts)
  }

  /** The responder's answer to a range that differs. */
  method RespondDiffers(k: Codec, theirs: seq<Leaf>, bounds: Bounds) returns (parts: seq<Part>)
    requires StoreView(k, theirs)
    ensures IsSplit(k, theirs, bounds, parts)
  {
    hide AllCanonical, PartsAt;
    var r, cuts := SplitRange(k.digest, theirs, bounds, RANGE_LEAF_THRESHOLD);
    InsideCanonical(k, theirs, bounds);
    parts := r.value;
  }

  lemma InsideCanonical(k: Codec, theirs: seq<Leaf>, bounds: Bounds)
    requires StoreView(k, theirs)
    ensures LeavesInRange(theirs, bounds).Ok? && AllCanonical(LeavesInRange(theirs, bounds).value)
    ensures forall leaf :: leaf in LeavesInRange(theirs, bounds).value <==> leaf in theirs && Holds(bounds, leaf)
    ensures forall leaf :: leaf in LeavesInRange(theirs, bounds).value ==> k.listable(leaf)
  {
    hide CanonicalHash, Holds, SortLeaves;
    SortedRight(Within(theirs, bounds));
    SameMembers(SortLeaves(Within(theirs, bounds)), Within(theirs, bounds));
  }

  // ---------------------------------------------------------------- parts on their way

  /** The parts on their way for a pending range, in order, cover it. */
  ghost predicate Covers(range: Bounds, parts: seq<Part>)
    decreases |parts|
  {
    && parts != []
    && var first := BoundsOf(parts[0]);
    && first.kind == range.kind && first.lower == range.lower && Open(first)
    && (|parts| == 1 ==> first.upper == range.upper)
    && (|parts| > 1 ==> (first.upper.Some? && first.upper != range.upper && EndsInside(range, first)
      && Covers(Bounds(range.kind, first.upper, range.upper), parts[1..])))
  }

  /** What a pass is at: the requester's state, the parts on their way for each pending range, and the ranges
      answered `empty`, whose records the responder sends as they are. */
  datatype Net = Net(state: PullState, batches: seq<seq<Part>>, emptied: seq<Bounds>)

  function Delivered(batches: seq<seq<Part>>, i: nat): seq<seq<Part>>
    requires i < |batches| && batches[i] != []
  {
    if |batches[i]| == 1 then batches[..i] + batches[i + 1..] else batches[i := batches[i][1..]]
  }

  /** The next part on its way for one pending range arrives and is answered. */
  ghost predicate Moves(k: Codec, local: seq<Leaf>, theirs: seq<Leaf>, a: Net, b: Net, i: nat) {
    && i < |a.batches| && a.batches[i] != []
    && var part := a.batches[i][0];
    && AdvanceOf(k, local, a.state, part).Done?
    && var (state, steps) := AdvanceOf(k, local, a.state, part).value;
    && b.state == state
    && (if steps == [Answer(Differs, BoundsOf(part))]
        then exists parts :: IsSplit(k, theirs, BoundsOf(part), parts) && b.batches == Delivered(a.batches, i) + [parts]
        else b.batches == Delivered(a.batches, i))
    && b.emptied == if steps == [Answer(Empty, BoundsOf(part))] then a.emptied + [BoundsOf(part)] else a.emptied
  }

  ghost predicate Starts(k: Codec, theirs: seq<Leaf>, types: seq<int>, net: Net) {
    && Ascending(types) && net.state == BeginRecordPull(types) && net.emptied == [] && |net.batches| == |types|
    && forall i :: 0 <= i < |types| ==> (|net.batches[i]| == 1 && net.batches[i][0].Summarized?
      && SummaryOf(k.digest, theirs, Bounds(types[i], None, None)) == Ok(net.batches[i][0].summary))
  }

  // ---------------------------------------------------------------- alignment

  /** Each pending range has the parts that cover it on their way, as the responder would give them. */
  ghost predicate Aligned(k: Codec, theirs: seq<Leaf>, net: Net) {
    && |net.batches| == |net.state.pending|
    && (forall i :: 0 <= i < |net.batches| ==> Covers(net.state.pending[i], net.batches[i]))
    && (forall i, part :: 0 <= i < |net.batches| && part in net.batches[i] ==> Honest(k, theirs, part))
  }

  /** A range that starts like a pending one is that one: two open ranges with one start overlap. */
  lemma SameStart(a: Bounds, b: Bounds)
    requires Open(a) && Open(b) && a.kind == b.kind && a.lower == b.lower
    ensures !NoOverlap(a, b)
  {
    var top := match (a.upper, b.upper)
      case (Some(x), Some(y)) => if x < y then x else y
      case (Some(x), None) => x
      case (None, Some(y)) => y
      case (None, None) => if a.lower.Some? then a.lower.value + 1 else 0;
    assert Contains(a, a.kind, top) && Contains(b, a.kind, top);
  }

  lemma FindsIt(state: PullState, i: nat, bounds: Bounds)
    requires Orderly(state) && i < |state.pending|
    requires bounds.kind == state.pending[i].kind && bounds.lower == state.pending[i].lower
    requires Open(bounds) && EndsInside(state.pending[i], bounds)
    ensures PendingIndexFor(state.pending, bounds) == Done(i)
  {
    hide NoOverlap, Contains, Open, EndsInside;
    var index := StartsAt(state.pending, bounds, 0);
    assert index <= i;
    if index < i {
      SameStart(state.pending[index], state.pending[i]);
    }
  }

  lemma CoversHead(range: Bounds, parts: seq<Part>)
    requires Covers(range, parts)
    ensures parts != [] && var first := BoundsOf(parts[0]);
      && first.kind == range.kind && first.lower == range.lower && Open(first) && EndsInside(range, first)
      && (|parts| == 1 <==> first.upper == range.upper)
      && (|parts| > 1 ==> Covers(Bounds(range.kind, first.upper, range.upper), parts[1..]))
  {
  }

  /** The parts of a split cover what was split. */
  lemma {:induction false} CoversFrom(k: Codec, inside: seq<Leaf>, bounds: Bounds, cuts: seq<nat>, parts: seq<Part>, i: nat)
    requires PartsAt(k.digest, inside, bounds, cuts, |inside|, parts) && i < |parts|
    requires OnePerRecord(inside) && forall leaf :: leaf in inside ==> Holds(bounds, leaf)
    ensures Covers(Bounds(bounds.kind, if cuts[i] == 0 then bounds.lower else Some(inside[cuts[i] - 1].position), bounds.upper), parts[i..])
    decreases |parts| - i
  {
    hide FingerprintOf, Covers;
    var range := Bounds(bounds.kind, if cuts[i] == 0 then bounds.lower else Some(inside[cuts[i] - 1].position), bounds.upper);
    var first := BoundsOf(parts[i]);
    assert first == Between(inside, bounds, cuts[i], cuts[i + 1]);
    OpenBetween(inside, bounds, cuts[i], cuts[i + 1]);
    assert parts[i..][0] == parts[i];
    if i == |parts| - 1 {
      CoversOne(range, parts[i..]);
    } else {
      assert cuts[i + 1] < cuts[|cuts| - 1];
      CoversFrom(k, inside, bounds, cuts, parts, i + 1);
      assert parts[i..][1..] == parts[i + 1..];
      BeforeEnd(inside, bounds, cuts[i + 1]);
      CoversMore(range, parts[i..]);
    }
  }

  lemma OpenBetween(inside: seq<Leaf>, bounds: Bounds, start: nat, end: nat)
    requires start < end <= |inside| && OnePerRecord(inside) && forall leaf :: leaf in inside ==> Holds(bounds, leaf)
    ensures Open(Between(inside, bounds, start, end))
  {
    assert inside[start] in inside && inside[end - 1] in inside && inside[|inside| - 1] in inside;
  }

  lemma BeforeEnd(inside: seq<Leaf>, bounds: Bounds, end: nat)
    requires 0 < end < |inside| && OnePerRecord(inside) && forall leaf :: leaf in inside ==> Holds(bounds, leaf)
    ensures bounds.upper.Some? ==> inside[end - 1].position < bounds.upper.value
  {
    assert inside[end - 1].position < inside[|inside| - 1].position && inside[|inside| - 1] in inside;
  }

  lemma CoversOne(range: Bounds, parts: seq<Part>)
    requires |parts| == 1 && BoundsOf(parts[0]) == range && Open(range)
    ensures Covers(range, parts)
  {
  }

  lemma CoversMore(range: Bounds, parts: seq<Part>)
    requires |parts| > 1
    requires var first := BoundsOf(parts[0]);
      && first.kind == range.kind && first.lower == range.lower && Open(first)
      && first.upper.Some? && first.upper != range.upper && EndsInside(range, first)
      && Covers(Bounds(range.kind, first.upper, range.upper), parts[1..])
    ensures Covers(range, parts)
  {
  }

  /** A split covers its range with honest parts. */
  lemma {:induction false} SplitCovers(k: Codec, theirs: seq<Leaf>, bounds: Bounds, parts: seq<Part>)
    requires StoreView(k, theirs) && IsSplit(k, theirs, bounds, parts) && Open(bounds)
    ensures Covers(bounds, parts) && forall part :: part in parts ==> Honest(k, theirs, part)
  {
    hide FingerprintOf, Covers, LeavesInRange, StoreView, PartsAt, Holds;
    InsideCanonical(k, theirs, bounds);
    var inside := LeavesInRange(theirs, bounds).value;
    if |inside| <= RANGE_LEAF_THRESHOLD {
      CoversOne(bounds, parts);
    } else {
      var cuts :| PartsAt(k.digest, inside, bounds, cuts, |inside|, parts);
      SortedOnce(theirs, bounds);
      CutsStart(k, inside, bounds, cuts, parts);
      CoversFrom(k, inside, bounds, cuts, parts, 0);
      assert parts[0..] == parts;
      assert bounds == Bounds(bounds.kind, bounds.lower, bounds.upper);
      SplitPartitions(k.digest, theirs, bounds, inside, cuts, parts);
    }
  }

  lemma SortedOnce(theirs: seq<Leaf>, bounds: Bounds)
    requires LeavesInRange(theirs, bounds).Ok?
    ensures OnePerRecord(LeavesInRange(theirs, bounds).value)
  {
  }

  lemma CutsStart(k: Codec, inside: seq<Leaf>, bounds: Bounds, cuts: seq<nat>, parts: seq<Part>)
    requires PartsAt(k.digest, inside, bounds, cuts, |inside|, parts) && inside != []
    ensures |parts| > 0 && cuts[0] == 0 && forall part :: part in parts ==> part.Summarized?
  {
    hide PartBetween;
  }

  // ---------------------------------------------------------------- every step goes through

  /** An honest part on its way is always accepted. */
  lemma {:induction false} Accepts(k: Codec, local: seq<Leaf>, theirs: seq<Leaf>, net: Net, i: nat)
    requires StoreView(k, theirs) && StoreView(k, local) && Orderly(net.state) && Aligned(k, theirs, net) && i < |net.batches|
    ensures net.batches[i] != [] && AdvanceOf(k, local, net.state, net.batches[i][0]).Done?
    ensures PendingIndexFor(net.state.pending, BoundsOf(net.batches[i][0])) == Done(i)
  {
    hide Orderly, Covers, Honest, FingerprintOf, LeavesInRange, StoreView, PendingIndexFor;
    CoversHead(net.state.pending[i], net.batches[i]);
    var part := net.batches[i][0];
    FindsIt(net.state, i, BoundsOf(part));
    assert part in net.batches[i] && Honest(k, theirs, part);
    Answerable(k, local, theirs, part);
  }

  lemma Answerable(k: Codec, local: seq<Leaf>, theirs: seq<Leaf>, part: Part)
    requires StoreView(k, theirs) && StoreView(k, local) && Honest(k, theirs, part)
    ensures StepsOf(k, local, part).Done?
  {
    hide CanonicalHash, Holds, LaneSums, Wanted;
    if part.Summarized? {
      assert AllCanonical(Within(local, part.summary.bounds));
    } else {
      InsideCanonical(k, theirs, part.bounds);
    }
  }

  ghost predicate Parallel(k: Codec, theirs: seq<Leaf>, pending: seq<Bounds>, batches: seq<seq<Part>>) {
    && |batches| == |pending|
    && (forall i :: 0 <= i < |batches| ==> Covers(pending[i], batches[i]))
    && (forall i, part :: 0 <= i < |batches| && part in batches[i] ==> Honest(k, theirs, part))
  }

  lemma DeliveredParallel(k: Codec, theirs: seq<Leaf>, pending: seq<Bounds>, batches: seq<seq<Part>>, i: nat)
    requires Parallel(k, theirs, pending, batches) && i < |batches|
    ensures batches[i] != [] && Parallel(k, theirs, Narrowed(pending, i, BoundsOf(batches[i][0])), Delivered(batches, i))
  {
    hide Honest, Covers;
    CoversHead(pending[i], batches[i]);
    var left := Delivered(batches, i);
    forall j, part | 0 <= j < |left| && part in left[j] ensures Honest(k, theirs, part) {
      var from := if |batches[i]| == 1 && j >= i then j + 1 else j;
      assert part in batches[from];
    }
  }

  lemma ParallelMore(k: Codec, theirs: seq<Leaf>, pending: seq<Bounds>, batches: seq<seq<Part>>, bounds: Bounds, parts: seq<Part>)
    requires Parallel(k, theirs, pending, batches) && Covers(bounds, parts) && forall part :: part in parts ==> Honest(k, theirs, part)
    ensures Parallel(k, theirs, pending + [bounds], batches + [parts])
  {
    hide Honest, Covers;
  }

  /** Whatever arrives, what is pending and what is on its way stay in step. */
  lemma {:induction false} StaysAligned(k: Codec, local: seq<Leaf>, theirs: seq<Leaf>, a: Net, b: Net, i: nat)
    requires StoreView(k, theirs) && StoreView(k, local) && Orderly(a.state) && Aligned(k, theirs, a)
    requires Moves(k, local, theirs, a, b, i)
    ensures Orderly(b.state) && Aligned(k, theirs, b)
  {
    hide Orderly, Covers, Honest, FingerprintOf, LeavesInRange, StoreView, PendingIndexFor, AdvanceOf, IsSplit, AnswerFor, Wanted;
    Accepts(k, local, theirs, a, i);
    var part := a.batches[i][0];
    StaysOrderly(k, local, a.state, part);
    AfterResponse(k, local, a.state, part);
    DeliveredParallel(k, theirs, a.state.pending, a.batches, i);
    if part.Summarized? && AnswerFor(k, local, part.summary).value == Differs {
      var parts :| IsSplit(k, theirs, BoundsOf(part), parts) && b.batches == Delivered(a.batches, i) + [parts];
      CoversHead(a.state.pending[i], a.batches[i]);
      SplitCovers(k, theirs, BoundsOf(part), parts);
      ParallelMore(k, theirs, Narrowed(a.state.pending, i, BoundsOf(part)), Delivered(a.batches, i), BoundsOf(part), parts);
    } else if part.Listed? {
      NotDiffers(k, local, a.state, part);
    }
  }

  lemma NotDiffers(k: Codec, local: seq<Leaf>, state: PullState, part: Part)
    requires part.Listed? && AdvanceOf(k, local, state, part).Done?
    ensures AdvanceOf(k, local, state, part).value.1 != [Answer(Differs, BoundsOf(part))]
    ensures AdvanceOf(k, local, state, part).value.1 != [Answer(Empty, BoundsOf(part))]
  {
    hide PendingIndexFor, Wanted, Narrowed;
  }
}
