/** A pass against an honest responder ends, and asks for exactly what the responder is ahead on. */
module PullComplete {
  import opened Basics
  import opened Range
  import opened Sortable
  import opened Split
  import opened Reconcile
  import opened PullRun

  function WholeKind(kind: int): Bounds {
    Bounds(kind, None, None)
  }

  /** Whether the responder's leaf is one to fetch. */
  ghost predicate Ahead(local: seq<Leaf>, leaf: Leaf) {
    WorthFetching(leaf, HeldAt(local, WholeKind(leaf.kind), leaf.position))
  }

  /** Asked for, by key or by the range it stands in. */
  ghost predicate AskedFor(net: Net, leaf: Leaf) {
    KeyOf(leaf) in net.state.requested || InSome(net.emptied, leaf)
  }

  ghost predicate InSome(ranges: seq<Bounds>, leaf: Leaf) {
    exists i :: 0 <= i < |ranges| && Holds(ranges[i], leaf)
  }

  /** What a pass has asked for so far is right: only leaves that are ahead; ranges answered `empty` are not waited
      on; nothing but the responder's leaves is requested. */
  ghost predicate AskedRight(local: seq<Leaf>, theirs: seq<Leaf>, net: Net) {
    && (forall leaf :: leaf in theirs && AskedFor(net, leaf) ==> Ahead(local, leaf))
    && (forall leaf :: InSome(net.state.pending, leaf) ==> !InSome(net.emptied, leaf))
    && (forall key :: key in net.state.requested ==> exists leaf :: leaf in theirs && KeyOf(leaf) == key)
  }

  /** Nothing is missed so far: a leaf that is ahead is asked for once it is no longer waited on. */
  ghost predicate NoneMissed(local: seq<Leaf>, theirs: seq<Leaf>, types: seq<int>, net: Net) {
    forall leaf :: leaf in theirs && leaf.kind in types && Ahead(local, leaf) ==> InSome(net.state.pending, leaf) || AskedFor(net, leaf)
  }

  lemma {:induction false} HeldInside(local: seq<Leaf>, bounds: Bounds, leaf: Leaf)
    requires Holds(bounds, leaf)
    ensures HeldAt(local, bounds, leaf.position) == HeldAt(local, WholeKind(leaf.kind), leaf.position)
  {
    if local != [] {
      HeldInside(local[..|local| - 1], bounds, leaf);
    }
  }

  lemma {:induction false} HeldMeans(local: seq<Leaf>, kind: int, position: int)
    ensures match HeldAt(local, WholeKind(kind), position)
      case Some(held) => held in local && held.kind == kind && held.position == position
      case None => forall leaf :: leaf in local ==> leaf.kind != kind || leaf.position != position
  {
    if local != [] {
      var n := |local| - 1;
      assert local == local[..n] + [local[n]];
      HeldMeans(local[..n], kind, position);
    }
  }

  /** Waiting ranges, seen as the leaves they hold: a response takes its own part away and no more. */
  lemma {:induction false} WaitingAfter(pending: seq<Bounds>, i: nat, bounds: Bounds, leaf: Leaf)
    requires i < |pending| && PendingIndexFor(pending, bounds) == Done(i)
    requires forall j :: 0 <= j < |pending| ==> Open(pending[j])
    requires forall j, l :: 0 <= j < l < |pending| ==> NoOverlap(pending[j], pending[l])
    ensures InSome(Narrowed(pending, i, bounds), leaf) <==> InSome(pending, leaf) && !Holds(bounds, leaf)
    ensures Holds(bounds, leaf) ==> Holds(pending[i], leaf)
  {
    var left := Narrowed(pending, i, bounds);
    InsideRange(pending[i], bounds);
    if InSome(pending, leaf) && !Holds(bounds, leaf) {
      var j :| 0 <= j < |pending| && Holds(pending[j], leaf);
      if bounds.upper == pending[i].upper {
        assert left[if j > i then j - 1 else j] == pending[j];
      } else if j != i {
        assert left[j] == pending[j];
      } else {
        assert Holds(left[i], leaf);
      }
    }
    if InSome(left, leaf) {
      var j :| 0 <= j < |left| && Holds(left[j], leaf);
      LeftOver(pending, i, bounds, j);
      var l :| 0 <= l < |pending| && Covered(left[j], pending[l]);
      assert Holds(pending[l], leaf);
      assert NoOverlap(left[j], bounds);
    }
  }

  function Verdict(k: Codec, local: seq<Leaf>, part: Part): Option<RangeAnswer> {
    if part.Summarized? && AnswerFor(k, local, part.summary).Done? then Some(AnswerFor(k, local, part.summary).value) else None
  }

  function Fetches(local: seq<Leaf>, part: Part): seq<Key> {
    if part.Listed? then Wanted(local, part.bounds, part.leaves) else []
  }

  lemma InMore(ranges: seq<Bounds>, bounds: Bounds, leaf: Leaf)
    ensures InSome(ranges + [bounds], leaf) <==> InSome(ranges, leaf) || Holds(bounds, leaf)
  {
    hide Holds;
    var more := ranges + [bounds];
    if InSome(ranges, leaf) {
      var i :| 0 <= i < |ranges| && Holds(ranges[i], leaf);
      assert Holds(more[i], leaf);
    }
    if Holds(bounds, leaf) {
      assert Holds(more[|ranges|], leaf);
    }
  }

  /** All that an arrival changes. */
  lemma {:induction false} Effects(k: Codec, local: seq<Leaf>, theirs: seq<Leaf>, a: Net, b: Net, i: nat, leaf: Leaf)
    requires StoreView(k, theirs) && StoreView(k, local) && Orderly(a.state) && Aligned(k, theirs, a) && Moves(k, local, theirs, a, b, i)
    ensures var part := a.batches[i][0];
      var bounds := BoundsOf(part);
      && Honest(k, theirs, part)
      && (part.Summarized? ==> AnswerFor(k, local, part.summary).Done?)
      && (Holds(bounds, leaf) ==> InSome(a.state.pending, leaf))
      && (InSome(b.state.pending, leaf) <==>
        (InSome(a.state.pending, leaf) && !Holds(bounds, leaf)) || (Verdict(k, local, part) == Some(Differs) && Holds(bounds, leaf)))
      && (InSome(b.emptied, leaf) <==> InSome(a.emptied, leaf) || (Verdict(k, local, part) == Some(Empty) && Holds(bounds, leaf)))
      && b.state.requested == a.state.requested + Fetches(local, part)
  {
    hide Covers, Honest, LeavesInRange, StoreView, PendingIndexFor, AdvanceOf, IsSplit, AnswerFor, Wanted, Holds, Narrowed, InSome;
    Accepts(k, local, theirs, a, i);
    var part := a.batches[i][0];
    var bounds := BoundsOf(part);
    assert part in a.batches[i];
    AfterResponse(k, local, a.state, part);
    OrderlyMeans(a.state);
    WaitingAfter(a.state.pending, i, bounds, leaf);
    InMore(Narrowed(a.state.pending, i, bounds), bounds, leaf);
    InMore(a.emptied, bounds, leaf);
    HoldsIn(a.state.pending, i, leaf);
    if part.Listed? {
      NotDiffers(k, local, a.state, part);
    }
  }

  lemma HoldsIn(ranges: seq<Bounds>, i: nat, leaf: Leaf)
    requires i < |ranges|
    ensures Holds(ranges[i], leaf) ==> InSome(ranges, leaf)
  {
  }

  lemma OrderlyMeans(state: PullState)
    requires Orderly(state)
    ensures forall j :: 0 <= j < |state.pending| ==> Open(state.pending[j])
    ensures forall j, l :: 0 <= j < l < |state.pending| ==> NoOverlap(state.pending[j], state.pending[l])
    ensures forall leaf :: InSome(state.pending, leaf) ==> KeyOf(leaf) !in state.requested
  {
    hide NoOverlap;
  }

  /** What a store holds at a record is the one leaf it has there. */
  lemma {:induction false} OneHere(k: Codec, leaves: seq<Leaf>, x: Leaf, y: Leaf)
    requires StoreView(k, leaves) && x in leaves && y in leaves && KeyOf(x) == KeyOf(y)
    ensures x == y
  {
    hide SortLeaves, CanonicalHash;
    var whole := WholeKind(x.kind);
    InsideCanonical(k, leaves, whole);
    SortedOnce(leaves, whole);
    var inside := LeavesInRange(leaves, whole).value;
    assert x in inside && y in inside;
    var i :| 0 <= i < |inside| && inside[i] == x;
    var j :| 0 <= j < |inside| && inside[j] == y;
  }

  /** What is asked for of an answered part is ahead, and of a list all that is. */
  lemma {:induction false} PartAsked(k: Codec, local: seq<Leaf>, theirs: seq<Leaf>, part: Part, leaf: Leaf)
    requires StoreView(k, theirs) && StoreView(k, local) && Honest(k, theirs, part)
    requires part.Summarized? ==> AnswerFor(k, local, part.summary).Done?
    requires leaf in theirs && Holds(BoundsOf(part), leaf)
    ensures Verdict(k, local, part) == Some(Empty) ==> Ahead(local, leaf)
    ensures part.Listed? ==> (KeyOf(leaf) in Fetches(local, part) <==> Ahead(local, leaf))
  {
    hide Holds, FingerprintOf, StoreView, LeavesInRange, WorthFetching;
    var bounds := BoundsOf(part);
    InsideCanonical(k, theirs, bounds);
    HeldInside(local, bounds, leaf);
    HeldMeans(local, leaf.kind, leaf.position);
    if part.Listed? {
      WantedMeans(local, bounds, part.leaves);
      if KeyOf(leaf) in Fetches(local, part) {
        var other :| other in part.leaves && KeyOf(other) == KeyOf(leaf) && WorthFetching(other, HeldAt(local, bounds, other.position));
        OneHere(k, theirs, other, leaf);
      }
    } else if Verdict(k, local, part) == Some(Empty) {
      NothingHeld(local, bounds, leaf);
    }
  }

  lemma NothingHeld(local: seq<Leaf>, bounds: Bounds, leaf: Leaf)
    requires Within(local, bounds) == [] && Holds(bounds, leaf)
    ensures Ahead(local, leaf)
  {
    HeldMeans(local, leaf.kind, leaf.position);
    var held := HeldAt(local, WholeKind(leaf.kind), leaf.position);
    assert forall x :: x in local ==> !Holds(bounds, x);
  }

  lemma {:induction false} MatchHeld(k: Codec, local: seq<Leaf>, theirs: seq<Leaf>, summary: Summary, leaf: Leaf)
    requires StoreView(k, theirs) && StoreView(k, local) && TellsApart(k, local, theirs, Summarized(summary))
    requires SummaryOf(k.digest, theirs, summary.bounds) == Ok(summary) && AnswerFor(k, local, summary) == Done(Matches)
    requires leaf in theirs && Holds(summary.bounds, leaf)
    ensures !Ahead(local, leaf)
  {
    hide Holds, FingerprintOf, StoreView, LeavesInRange;
    var bounds := summary.bounds;
    InsideCanonical(k, theirs, bounds);
    var inside := LeavesInRange(theirs, bounds).value;
    assert leaf in inside && summary.count == |inside|;
    assert Elems(Within(local, bounds)) == Elems(inside);
    assert leaf in Elems(inside) && leaf in Within(local, bounds);
    HeldMeans(local, leaf.kind, leaf.position);
    var held := HeldAt(local, WholeKind(leaf.kind), leaf.position);
    OneHere(k, local, held.value, leaf);
    TextTotal(leaf.order, leaf.order);
  }

  /** Every arrival keeps what is asked for right, whatever fingerprints collide. */
  lemma {:induction false} StaysRight(k: Codec, local: seq<Leaf>, theirs: seq<Leaf>, a: Net, b: Net, i: nat)
    requires StoreView(k, theirs) && StoreView(k, local)
    requires Orderly(a.state) && Aligned(k, theirs, a) && AskedRight(local, theirs, a) && Moves(k, local, theirs, a, b, i)
    ensures AskedRight(local, theirs, b)
  {
    hide Covers, Honest, StoreView, IsSplit, AnswerFor, Wanted, Holds, Moves, InSome, Ahead, Orderly, Aligned;
    MovesOne(k, local, theirs, a, b, i);
    Accepts(k, local, theirs, a, i);
    OrderlyMeans(a.state);
    var part := a.batches[i][0];
    forall leaf | leaf in theirs && AskedFor(b, leaf) ensures Ahead(local, leaf) {
      Effects(k, local, theirs, a, b, i, leaf);
      if Holds(BoundsOf(part), leaf) {
        PartAsked(k, local, theirs, part, leaf);
      } else {
        FetchesInside(local, part, leaf);
      }
    }
    forall leaf | InSome(b.state.pending, leaf) ensures !InSome(b.emptied, leaf) {
      Effects(k, local, theirs, a, b, i, leaf);
    }
    forall key | key in b.state.requested ensures exists leaf :: leaf in theirs && KeyOf(leaf) == key {
      if key !in a.state.requested {
        Effects(k, local, theirs, a, b, i, Leaf(key.kind, key.position, [], "", 0));
        FetchedAhead(k, local, theirs, part, key);
      }
    }
  }

  /** An arrival misses nothing when its fingerprint tells apart what the two sides hold in its own range. */
  lemma {:induction false} MissesNone(k: Codec, local: seq<Leaf>, theirs: seq<Leaf>, types: seq<int>, a: Net, b: Net, i: nat)
    requires StoreView(k, theirs) && StoreView(k, local)
    requires Orderly(a.state) && Aligned(k, theirs, a) && NoneMissed(local, theirs, types, a) && Moves(k, local, theirs, a, b, i)
    requires i < |a.batches| && a.batches[i] != [] && TellsApart(k, local, theirs, a.batches[i][0])
    ensures NoneMissed(local, theirs, types, b)
  {
    hide Covers, Honest, StoreView, IsSplit, AnswerFor, Wanted, Holds, Moves, InSome, Ahead, Orderly, Aligned, TellsApart;
    Accepts(k, local, theirs, a, i);
    var part := a.batches[i][0];
    forall leaf | leaf in theirs && leaf.kind in types && Ahead(local, leaf) ensures InSome(b.state.pending, leaf) || AskedFor(b, leaf) {
      Effects(k, local, theirs, a, b, i, leaf);
      if Holds(BoundsOf(part), leaf) {
        PartAsked(k, local, theirs, part, leaf);
        PartTold(k, local, theirs, part, leaf);
      }
    }
  }

  lemma {:induction false} PartTold(k: Codec, local: seq<Leaf>, theirs: seq<Leaf>, part: Part, leaf: Leaf)
    requires StoreView(k, theirs) && StoreView(k, local) && TellsApart(k, local, theirs, part) && Honest(k, theirs, part)
    requires part.Summarized? ==> AnswerFor(k, local, part.summary).Done?
    requires leaf in theirs && Holds(BoundsOf(part), leaf)
    ensures Verdict(k, local, part) == Some(Matches) ==> !Ahead(local, leaf)
  {
    hide Holds, FingerprintOf, StoreView, LeavesInRange, WorthFetching, TellsApart;
    if Verdict(k, local, part) == Some(Matches) {
      MatchHeld(k, local, theirs, part.summary, leaf);
    }
  }

  lemma MovesOne(k: Codec, local: seq<Leaf>, theirs: seq<Leaf>, a: Net, b: Net, i: nat)
    requires Moves(k, local, theirs, a, b, i)
    ensures i < |a.batches| && a.batches[i] != []
  {
    hide AdvanceOf, IsSplit;
  }

  lemma FetchesInside(local: seq<Leaf>, part: Part, leaf: Leaf)
    requires !Holds(BoundsOf(part), leaf)
    ensures KeyOf(leaf) !in Fetches(local, part)
  {
    hide Wanted;
    if part.Listed? {
      WantedMeans(local, part.bounds, part.leaves);
    }
  }

  lemma {:induction false} FetchedAhead(k: Codec, local: seq<Leaf>, theirs: seq<Leaf>, part: Part, key: Key)
    requires StoreView(k, theirs) && Honest(k, theirs, part) && key in Fetches(local, part)
    ensures exists leaf :: leaf in theirs && KeyOf(leaf) == key && Ahead(local, leaf)
  {
    hide WorthFetching, LeavesInRange, StoreView, Wanted;
    var bounds := BoundsOf(part);
    InsideCanonical(k, theirs, bounds);
    WantedMeans(local, bounds, part.leaves);
    var leaf :| leaf in part.leaves && KeyOf(leaf) == key && WorthFetching(leaf, HeldAt(local, bounds, leaf.position));
    HeldInside(local, bounds, leaf);
    assert Ahead(local, leaf);
  }

  lemma {:induction false} StartsRight(k: Codec, local: seq<Leaf>, theirs: seq<Leaf>, types: seq<int>, net: Net)
    requires Starts(k, theirs, types, net)
    ensures Orderly(net.state) && Aligned(k, theirs, net) && AskedRight(local, theirs, net) && NoneMissed(local, theirs, types, net)
  {
    hide LeavesInRange, FingerprintOf, Ahead, Covers, Orderly;
    BeginsOrderly(types);
    forall i | 0 <= i < |types| ensures Covers(net.state.pending[i], net.batches[i]) {
      assert net.batches[i][0].summary.bounds == WholeKind(types[i]);
      CoversOne(net.state.pending[i], net.batches[i]);
    }
    forall leaf | leaf in theirs && leaf.kind in types ensures InSome(net.state.pending, leaf) {
      var i :| 0 <= i < |types| && types[i] == leaf.kind;
      assert Holds(net.state.pending[i], leaf);
    }
  }

  // ---------------------------------------------------------------- a pass ends

  /** The work a part on its way can still cause, by the leaves the responder holds there. */
  function Weight(part: Part): nat {
    if part.Listed? || part.summary.count == 0 then 1 else 3 * part.summary.count - 1
  }

  function BatchWeight(parts: seq<Part>): nat {
    if parts == [] then 0 else BatchWeight(parts[..|parts| - 1]) + Weight(parts[|parts| - 1])
  }

  function NetWeight(batches: seq<seq<Part>>): nat {
    if batches == [] then 0 else NetWeight(batches[..|batches| - 1]) + BatchWeight(batches[|batches| - 1])
  }

  lemma {:induction false} BatchWithoutFirst(parts: seq<Part>)
    requires parts != []
    ensures BatchWeight(parts) == Weight(parts[0]) + BatchWeight(parts[1..])
  {
    hide Weight;
    var n := |parts| - 1;
    if n > 0 {
      BatchWithoutFirst(parts[..n]);
      assert parts[..n][1..] == parts[1..][..n - 1];
    } else {
      assert parts[..0] == [] && parts[1..] == [];
    }
  }

  lemma {:induction false} NetReplaced(batches: seq<seq<Part>>, i: nat, parts: seq<Part>)
    requires i < |batches|
    ensures NetWeight(batches[i := parts]) == NetWeight(batches) - BatchWeight(batches[i]) + BatchWeight(parts)
    ensures NetWeight(batches[..i] + batches[i + 1..]) == NetWeight(batches) - BatchWeight(batches[i])
  {
    hide BatchWeight;
    var n := |batches| - 1;
    var rest := batches[..i] + batches[i + 1..];
    if i < n {
      NetReplaced(batches[..n], i, parts);
      assert batches[i := parts][..n] == batches[..n][i := parts];
      assert rest[..n - 1] == batches[..n][..i] + batches[..n][i + 1..];
    } else {
      assert batches[i := parts][..n] == batches[..n];
      assert rest == batches[..n];
    }
  }

  lemma {:induction false} DeliveredWeight(batches: seq<seq<Part>>, i: nat)
    requires i < |batches| && batches[i] != []
    ensures NetWeight(Delivered(batches, i)) == NetWeight(batches) - Weight(batches[i][0])
  {
    hide NetWeight, BatchWeight, Weight;
    BatchWithoutFirst(batches[i]);
    NetReplaced(batches, i, batches[i][1..]);
    if |batches[i]| == 1 {
      NoWeight();
      assert batches[i][1..] == [];
    }
  }

  lemma NoWeight()
    ensures BatchWeight([]) == 0
  {
  }

  lemma {:induction false} SummedWeight(parts: seq<Part>)
    requires forall j :: 0 <= j < |parts| ==> parts[j].Summarized? && parts[j].summary.count > 0
    ensures BatchWeight(parts) == 3 * CountTotal(parts) - |parts|
  {
    if parts != [] {
      SummedWeight(parts[..|parts| - 1]);
    }
  }

  /** A split weighs less than what was split: its parts are smaller, or listed. */
  lemma {:induction false} SplitLighter(k: Codec, theirs: seq<Leaf>, summary: Summary, parts: seq<Part>)
    requires SummaryOf(k.digest, theirs, summary.bounds) == Ok(summary) && summary.count > 0 && IsSplit(k, theirs, summary.bounds, parts)
    ensures BatchWeight(parts) < 3 * summary.count - 1
  {
    hide LeavesInRange, FingerprintOf;
    var inside := LeavesInRange(theirs, summary.bounds).value;
    if |inside| <= RANGE_LEAF_THRESHOLD {
      BatchWithoutFirst(parts);
      NoWeight();
      assert parts[1..] == [];
    } else {
      var cuts :| PartsAt(k.digest, inside, summary.bounds, cuts, |inside|, parts);
      TotalIs(k.digest, inside, summary.bounds, cuts, |inside|, parts);
      SummedWeight(parts);
      SeveralParts(k, inside, summary.bounds, cuts, parts);
    }
  }

  lemma SeveralParts(k: Codec, inside: seq<Leaf>, bounds: Bounds, cuts: seq<nat>, parts: seq<Part>)
    requires PartsAt(k.digest, inside, bounds, cuts, |inside|, parts) && inside != []
    ensures |parts| > 1
  {
    hide FingerprintOf, Between;
    assert |cuts| > 1;
    assert parts[0] == PartBetween(k.digest, inside, bounds, cuts[0], cuts[1]);
  }

  /** Every arrival leaves less to do. */
  lemma {:induction false} MovesLighten(k: Codec, local: seq<Leaf>, theirs: seq<Leaf>, a: Net, b: Net, i: nat)
    requires StoreView(k, theirs) && StoreView(k, local) && Orderly(a.state) && Aligned(k, theirs, a) && Moves(k, local, theirs, a, b, i)
    ensures NetWeight(b.batches) < NetWeight(a.batches)
  {
    hide Orderly, Covers, LeavesInRange, FingerprintOf, StoreView, AdvanceOf, IsSplit, NetWeight, BatchWeight, AnswerFor;
    Accepts(k, local, theirs, a, i);
    var part := a.batches[i][0];
    assert part in a.batches[i] && Honest(k, theirs, part);
    DeliveredWeight(a.batches, i);
    AfterResponse(k, local, a.state, part);
    if AdvanceOf(k, local, a.state, part).value.1 == [Answer(Differs, BoundsOf(part))] {
      var parts :| IsSplit(k, theirs, BoundsOf(part), parts) && b.batches == Delivered(a.batches, i) + [parts];
      if part.Listed? {
        NotDiffers(k, local, a.state, part);
      }
      DiffersCounts(k, local, part.summary);
      SplitLighter(k, theirs, part.summary, parts);
      NetMore(Delivered(a.batches, i), parts);
    }
  }

  lemma NetMore(batches: seq<seq<Part>>, parts: seq<Part>)
    ensures NetWeight(batches + [parts]) == NetWeight(batches) + BatchWeight(parts)
  {
    assert (batches + [parts])[..|batches|] == batches;
  }

  lemma DiffersCounts(k: Codec, local: seq<Leaf>, summary: Summary)
    requires AnswerFor(k, local, summary) == Done(Differs)
    ensures summary.count > 0
  {
  }

  /** While anything is on its way, something can arrive. */
  lemma {:induction false} CanMove(k: Codec, local: seq<Leaf>, theirs: seq<Leaf>, a: Net, i: nat)
    requires StoreView(k, theirs) && StoreView(k, local) && Orderly(a.state) && Aligned(k, theirs, a) && i < |a.batches|
    ensures exists b :: Moves(k, local, theirs, a, b, i)
  {
    hide Orderly, Covers, LeavesInRange, FingerprintOf, StoreView, AdvanceOf, IsSplit, Honest;
    Accepts(k, local, theirs, a, i);
    var part := a.batches[i][0];
    var (state, steps) := AdvanceOf(k, local, a.state, part).value;
    var emptied := if steps == [Answer(Empty, BoundsOf(part))] then a.emptied + [BoundsOf(part)] else a.emptied;
    if steps == [Answer(Differs, BoundsOf(part))] {
      var parts := SomeSplit(k, theirs, BoundsOf(part));
      assert Moves(k, local, theirs, a, Net(state, Delivered(a.batches, i) + [parts], emptied), i);
    } else {
      assert Moves(k, local, theirs, a, Net(state, Delivered(a.batches, i), emptied), i);
    }
  }

  /** There is always an answer to a range that differs. */
  lemma {:induction false} SomeSplit(k: Codec, theirs: seq<Leaf>, bounds: Bounds) returns (parts: seq<Part>)
    requires StoreView(k, theirs)
    ensures IsSplit(k, theirs, bounds, parts)
  {
    hide StoreView, LeavesInRange, LaneSums, CanonicalHash, Between;
    InsideCanonical(k, theirs, bounds);
    var inside := LeavesInRange(theirs, bounds).value;
    if |inside| <= RANGE_LEAF_THRESHOLD {
      parts := [Listed(bounds, inside)];
    } else {
      var n := |inside|;
      var cuts := [0, 1, n];
      CanonicalSlice(inside, 0, 1);
      CanonicalSlice(inside, 1, n);
      parts := [PartBetween(k.digest, inside, bounds, 0, 1), PartBetween(k.digest, inside, bounds, 1, n)];
      assert PartsAt(k.digest, inside, bounds, cuts, n, parts);
    }
  }

  lemma CanonicalSlice(leaves: seq<Leaf>, start: nat, end: nat)
    requires AllCanonical(leaves) && start <= end <= |leaves|
    ensures AllCanonical(leaves[start..end])
  {
    hide CanonicalHash;
  }

  // ---------------------------------------------------------------- whole passes

  /** A pass from its first messages on, whatever part arrives next each time. */
  ghost predicate IsPass(k: Codec, local: seq<Leaf>, theirs: seq<Leaf>, types: seq<int>, nets: seq<Net>) {
    && nets != [] && Starts(k, theirs, types, nets[0])
    && (forall j :: 0 <= j < |nets| - 1 ==> MovesOn(k, local, theirs, nets[j], nets[j + 1]))
  }

  ghost predicate MovesOn(k: Codec, local: seq<Leaf>, theirs: seq<Leaf>, a: Net, b: Net) {
    exists i :: Moves(k, local, theirs, a, b, i)
  }

  lemma {:induction false} PassInStep(k: Codec, local: seq<Leaf>, theirs: seq<Leaf>, types: seq<int>, nets: seq<Net>, j: nat)
    requires StoreView(k, theirs) && StoreView(k, local)
    requires IsPass(k, local, theirs, types, nets) && j < |nets|
    ensures Orderly(nets[j].state) && Aligned(k, theirs, nets[j]) && AskedRight(local, theirs, nets[j])
    ensures NetWeight(nets[j].batches) + j <= NetWeight(nets[0].batches)
  {
    hide StoreView, Orderly, Aligned, AskedRight, NoneMissed, Starts, Moves, NetWeight;
    if j == 0 {
      StartsRight(k, local, theirs, types, nets[0]);
    } else {
      PassInStep(k, local, theirs, types, nets, j - 1);
      assert MovesOn(k, local, theirs, nets[j - 1], nets[j - 1 + 1]);
      var i :| Moves(k, local, theirs, nets[j - 1], nets[j], i);
      StaysAligned(k, local, theirs, nets[j - 1], nets[j], i);
      MovesLighten(k, local, theirs, nets[j - 1], nets[j], i);
      StaysRight(k, local, theirs, nets[j - 1], nets[j], i);
    }
  }

  /** Every range summarized on its way in the pass is told apart. Of no other range is anything asked. */
  ghost predicate AllTold(k: Codec, local: seq<Leaf>, theirs: seq<Leaf>, nets: seq<Net>) {
    forall j, i, part :: 0 <= j < |nets| && 0 <= i < |nets[j].batches| && part in nets[j].batches[i] ==> TellsApart(k, local, theirs, part)
  }

  lemma {:induction false} PassKeeps(k: Codec, local: seq<Leaf>, theirs: seq<Leaf>, types: seq<int>, nets: seq<Net>, j: nat)
    requires StoreView(k, theirs) && StoreView(k, local) && AllTold(k, local, theirs, nets)
    requires IsPass(k, local, theirs, types, nets) && j < |nets|
    ensures NoneMissed(local, theirs, types, nets[j])
  {
    hide StoreView, TellsApart, Orderly, Aligned, AskedRight, NoneMissed, Starts, Moves, NetWeight;
    if j == 0 {
      StartsRight(k, local, theirs, types, nets[0]);
    } else {
      PassKeeps(k, local, theirs, types, nets, j - 1);
      PassInStep(k, local, theirs, types, nets, j - 1);
      assert MovesOn(k, local, theirs, nets[j - 1], nets[j - 1 + 1]);
      var i: nat :| Moves(k, local, theirs, nets[j - 1], nets[j], i);
      MovesOne(k, local, theirs, nets[j - 1], nets[j], i);
      assert nets[j - 1].batches[i][0] in nets[j - 1].batches[i];
      MissesNone(k, local, theirs, types, nets[j - 1], nets[j], i);
    }
  }

  /** A pass ends, whatever fingerprints collide: no pass is longer than the leaves summarized at its start
      allow, and until it is complete something is on its way and is accepted when it arrives. */
  lemma {:induction false} PassEnds(k: Codec, local: seq<Leaf>, theirs: seq<Leaf>, types: seq<int>, nets: seq<Net>)
    requires StoreView(k, theirs) && StoreView(k, local) && IsPass(k, local, theirs, types, nets)
    ensures |nets| <= NetWeight(nets[0].batches) + 1
    ensures var last := nets[|nets| - 1]; !last.state.complete <==> exists b :: MovesOn(k, local, theirs, last, b)
  {
    hide StoreView, AskedRight, Starts, Moves, NetWeight, Covers, Honest;
    var last := nets[|nets| - 1];
    PassInStep(k, local, theirs, types, nets, |nets| - 1);
    if !last.state.complete {
      CanMove(k, local, theirs, last, 0);
      var b :| Moves(k, local, theirs, last, b, 0);
      assert MovesOn(k, local, theirs, last, b);
    }
    if b :| MovesOn(k, local, theirs, last, b) {
      var i :| Moves(k, local, theirs, last, b, i);
      MovesOne(k, local, theirs, last, b, i);
    }
  }

  /** Whatever fingerprints collide, a pass asks for nothing that is not ahead and requests nothing twice. */
  lemma {:induction false} PassSound(k: Codec, local: seq<Leaf>, theirs: seq<Leaf>, types: seq<int>, nets: seq<Net>)
    requires StoreView(k, theirs) && StoreView(k, local) && IsPass(k, local, theirs, types, nets)
    ensures var last := nets[|nets| - 1];
      && (forall leaf :: leaf in theirs && AskedFor(last, leaf) ==> Ahead(local, leaf))
      && (forall key :: key in last.state.requested ==> exists leaf :: leaf in theirs && KeyOf(leaf) == key && Ahead(local, leaf))
      && Distinct(last.state.requested)
  {
    hide StoreView, Starts, Moves, NetWeight, Covers, Honest, Ahead, NoOverlap;
    PassInStep(k, local, theirs, types, nets, |nets| - 1);
    var last := nets[|nets| - 1];
    forall key | key in last.state.requested ensures exists leaf :: leaf in theirs && KeyOf(leaf) == key && Ahead(local, leaf) {
      var leaf :| leaf in theirs && KeyOf(leaf) == key;
      assert AskedFor(last, leaf);
    }
  }

  /** A complete pass whose summaries told apart what they compared has asked, by key or by empty range, for exactly
      the responder's leaves that are ahead. */
  lemma {:induction false} PassComplete(k: Codec, local: seq<Leaf>, theirs: seq<Leaf>, types: seq<int>, nets: seq<Net>)
    requires StoreView(k, theirs) && StoreView(k, local) && IsPass(k, local, theirs, types, nets)
    requires AllTold(k, local, theirs, nets) && nets[|nets| - 1].state.complete
    ensures var last := nets[|nets| - 1];
      && (forall leaf :: leaf in theirs && leaf.kind in types ==> (AskedFor(last, leaf) <==> Ahead(local, leaf)))
      && (forall key :: key in last.state.requested ==> exists leaf :: leaf in theirs && KeyOf(leaf) == key && Ahead(local, leaf))
      && Distinct(last.state.requested)
  {
    hide StoreView, AllTold, Starts, Moves, NetWeight, Covers, Honest, Ahead, AskedFor, NoOverlap, AskedRight, Aligned, InSome, Contains;
    PassInStep(k, local, theirs, types, nets, |nets| - 1);
    PassKeeps(k, local, theirs, types, nets, |nets| - 1);
    PassSound(k, local, theirs, types, nets);
    NothingWaits(k, theirs, nets[|nets| - 1]);
  }

  lemma NothingWaits(k: Codec, theirs: seq<Leaf>, net: Net)
    ensures net.state.pending == [] ==> forall leaf :: !InSome(net.state.pending, leaf)
  {
  }
}
