/** A requester's pass over a responder's key space: one response at a time, narrowing what it waits on. */
module Reconcile {
  import opened Basics
  import opened Range
  import opened Sortable
  import Lists

  /** A record, by its type and position. */
  datatype Key = Key(kind: int, position: int)

  datatype RangeAnswer = Matches | Differs | Empty

  datatype Step = Answer(answer: RangeAnswer, bounds: Bounds) | Get(keys: seq<Key>)

  datatype PullState = PullState(pending: seq<Bounds>, requested: seq<Key>, complete: bool)

  datatype PullError = ListTooLong | BadListedLeaf | NotWaitingOn | ReachesOutside | BadLeaf

  datatype Reply<+T> = Done(value: T) | Failed(error: PullError)

  /** How leaves are digested, and which listed leaves are well formed. */
  datatype Codec = Codec(digest: Digester, listable: Leaf -> bool)

  function KeyOf(leaf: Leaf): Key {
    Key(leaf.kind, leaf.position)
  }

  /** Whether the responder's decision is one to fetch: nothing is held at its key, or what is held ranks
      below it, or holds the same content under other signers. */
  predicate PrefersResponder(listed: Leaf, held: Option<Leaf>) {
    if held.None? then true
    else if listed.order != held.value.order then CompareText(listed.order, held.value.order) > 0
    else if listed.contentDigest != held.value.contentDigest then listed.contentDigest > held.value.contentDigest
    else listed.opHash != held.value.opHash
  }

  function AnswerFor(k: Codec, local: seq<Leaf>, summary: Summary): Reply<RangeAnswer> {
    var mine := Within(local, summary.bounds);
    if summary.count == 0 then Done(Matches)
    else if mine == [] then Done(Empty)
    else match FingerprintOf(k.digest, mine)
      case Err(_) => Failed(BadLeaf)
      case Ok(fingerprint) => Done(if fingerprint == summary.fingerprint then Matches else Differs)
  }

  /** What the requester holds at a position of a range: the last of its leaves there. */
  function HeldAt(local: seq<Leaf>, bounds: Bounds, position: int): Option<Leaf> {
    if local == [] then None
    else
      var last := local[|local| - 1];
      if Holds(bounds, last) && last.position == position then Some(last) else HeldAt(local[..|local| - 1], bounds, position)
  }

  /** The keys to fetch of a list: each once, inside the range, and ranked above what is held. */
  function Wanted(local: seq<Leaf>, bounds: Bounds, listed: seq<Leaf>): seq<Key> {
    if listed == [] then []
    else
      var rest := Wanted(local, bounds, listed[..|listed| - 1]);
      var leaf := listed[|listed| - 1];
      if Holds(bounds, leaf) && KeyOf(leaf) !in rest && PrefersResponder(leaf, HeldAt(local, bounds, leaf.position))
      then rest + [KeyOf(leaf)] else rest
  }

  function StepsOf(k: Codec, local: seq<Leaf>, response: Part): Reply<seq<Step>> {
    match response
    case Summarized(summary) =>
      (match AnswerFor(k, local, summary)
       case Failed(e) => Failed(e)
       case Done(answer) => Done([Answer(answer, summary.bounds)]))
    case Listed(bounds, leaves) =>
      if |leaves| > RANGE_LEAF_THRESHOLD then Failed(ListTooLong)
      else if exists leaf :: leaf in leaves && !k.listable(leaf) then Failed(BadListedLeaf)
      else
        var get := Wanted(local, bounds, leaves);
        Done(if get == [] then [] else [Get(get)])
  }

  /** The leaves held inside a range, by position. */
  method HoldLeaves(local: seq<Leaf>, bounds: Bounds) returns (held: map<int, Leaf>)
    ensures forall position :: HeldAt(local, bounds, position) == if position in held then Some(held[position]) else None
  {
    held := map[];
    for i := 0 to |local|
      invariant forall position :: HeldAt(local[..i], bounds, position) == if position in held then Some(held[position]) else None
    {
      assert local[..i + 1][..i] == local[..i];
      if Holds(bounds, local[i]) {
        held := held[local[i].position := local[i]];
      }
    }
    assert local[..|local|] == local;
  }

  /** The requester's reply to one message about a range. */
  method NextRequesterSteps(k: Codec, local: seq<Leaf>, response: Part) returns (r: Reply<seq<Step>>)
    ensures r == StepsOf(k, local, response)
  {
    if response.Summarized? {
      var summary := response.summary;
      var mine := Within(local, summary.bounds);
      if summary.count == 0 {
        return Done([Answer(Matches, summary.bounds)]);
      }
      if mine == [] {
        return Done([Answer(Empty, summary.bounds)]);
      }
      var fingerprint := FingerprintRange(k.digest, mine);
      if fingerprint.Err? {
        return Failed(BadLeaf);
      }
      return Done([Answer(if fingerprint.value == summary.fingerprint then Matches else Differs, summary.bounds)]);
    }
    var bounds, leaves := response.bounds, response.leaves;
    if |leaves| > RANGE_LEAF_THRESHOLD {
      return Failed(ListTooLong);
    }
    for i := 0 to |leaves|
      invariant forall j :: 0 <= j < i ==> k.listable(leaves[j])
    {
      if !k.listable(leaves[i]) {
        assert leaves[i] in leaves;
        return Failed(BadListedLeaf);
      }
    }
    var held := HoldLeaves(local, bounds);
    var seen: set<int>, get: seq<Key> := {}, [];
    for i := 0 to |leaves|
      invariant get == Wanted(local, bounds, leaves[..i])
      invariant forall key :: key in get <==> key.kind == bounds.kind && key.position in seen
    {
      assert leaves[..i + 1][..i] == leaves[..i];
      var listed := leaves[i];
      if Holds(bounds, listed) && listed.position !in seen
        && PrefersResponder(listed, if listed.position in held then Some(held[listed.position]) else None) {
        seen := seen + {listed.position};
        get := get + [KeyOf(listed)];
      }
    }
    assert leaves[..|leaves|] == leaves;
    r := Done(if get == [] then [] else [Get(get)]);
  }

  // ---------------------------------------------------------------- the pass

  /** A pass over some types, each waiting on its whole range. */
  function BeginRecordPull(types: seq<int>): PullState
    requires Ascending(types)
  {
    PullState(seq(|types|, i requires 0 <= i < |types| => Bounds(types[i], None, None)), [], types == [])
  }

  /** Begin a pass over whatever types are given: each once, in order. */
  method BeginPass(types: seq<int>) returns (state: PullState, ghost kinds: seq<int>)
    ensures Ascending(kinds) && Elems(kinds) == Elems(types) && state == BeginRecordPull(kinds)
    ensures forall t :: t in types <==> Bounds(t, None, None) in state.pending
    ensures state.complete <==> types == []
  {
    var sorted: seq<int> := [];
    for i := 0 to |types|
      invariant Ascending(sorted) && Elems(sorted) == Elems(types[..i])
    {
      assert types[..i + 1] == types[..i] + [types[i]];
      ElemsAppend(types[..i], types[i]);
      if types[i] !in sorted {
        assert types[i] !in Elems(sorted);
        sorted := Lists.InsertSorted(sorted, types[i]);
      }
    }
    assert types[..|types|] == types;
    kinds := sorted;
    state := BeginRecordPull(sorted);
    forall t ensures t in types <==> Bounds(t, None, None) in state.pending {
      assert t in types <==> t in Elems(types);
      assert t in Elems(sorted) <==> t in sorted;
      if t in sorted {
        var j :| 0 <= j < |sorted| && sorted[j] == t;
        assert state.pending[j] == Bounds(t, None, None);
      }
    }
    if sorted != [] {
      assert sorted[0] in Elems(sorted) && sorted[0] in types;
    }
    if types != [] {
      assert types[0] in types && Bounds(types[0], None, None) in state.pending;
    }
  }

  /** The first pending range that starts where a response does. */
  function StartsAt(pending: seq<Bounds>, bounds: Bounds, from: nat): (index: nat)
    requires from <= |pending|
    ensures from <= index <= |pending|
    ensures index < |pending| ==> pending[index].kind == bounds.kind && pending[index].lower == bounds.lower
    ensures forall i :: from <= i < index ==> pending[i].kind != bounds.kind || pending[i].lower != bounds.lower
    decreases |pending| - from
  {
    if from == |pending| || (pending[from].kind == bounds.kind && pending[from].lower == bounds.lower) then from
    else StartsAt(pending, bounds, from + 1)
  }

  predicate EndsInside(range: Bounds, bounds: Bounds) {
    range.upper.None? || (bounds.upper.Some? && bounds.upper.value <= range.upper.value)
  }

  /** Some position could stand between the bounds. */
  predicate Open(bounds: Bounds) {
    bounds.lower.Some? && bounds.upper.Some? ==> bounds.lower.value < bounds.upper.value
  }

  function PendingIndexFor(pending: seq<Bounds>, bounds: Bounds): Reply<nat> {
    var index := StartsAt(pending, bounds, 0);
    if index == |pending| then Failed(NotWaitingOn)
    else if !EndsInside(pending[index], bounds) || !Open(bounds) then Failed(ReachesOutside)
    else Done(index)
  }

  method FindPending(pending: seq<Bounds>, bounds: Bounds) returns (r: Reply<nat>)
    ensures r == PendingIndexFor(pending, bounds)
  {
    var index := 0;
    while index < |pending| && !(pending[index].kind == bounds.kind && pending[index].lower == bounds.lower)
      invariant index <= |pending| && StartsAt(pending, bounds, index) == StartsAt(pending, bounds, 0)
    {
      index := index + 1;
    }
    if index == |pending| {
      return Failed(NotWaitingOn);
    }
    r := if !EndsInside(pending[index], bounds) || !Open(bounds) then Failed(ReachesOutside) else Done(index);
  }

  function BoundsOf(response: Part): Bounds {
    if response.Summarized? then response.summary.bounds else response.bounds
  }

  /** What is left to wait on once a response has answered for the start of a pending range. */
  function Narrowed(pending: seq<Bounds>, index: nat, bounds: Bounds): seq<Bounds>
    requires index < |pending|
  {
    if bounds.upper == pending[index].upper then pending[..index] + pending[index + 1..]
    else pending[index := Bounds(pending[index].kind, bounds.upper, pending[index].upper)]
  }

  function AfterSteps(pending: seq<Bounds>, requested: seq<Key>, steps: seq<Step>): (r: (seq<Bounds>, seq<Key>)) {
    if steps == [] then (pending, requested)
    else
      var before := AfterSteps(pending, requested, steps[..|steps| - 1]);
      match steps[|steps| - 1]
      case Answer(answer, bounds) => (if answer == Differs then before.0 + [bounds] else before.0, before.1)
      case Get(keys) => (before.0, before.1 + keys)
  }

  /** One message applied to a pass, and the steps to send back. */
  function AdvanceOf(k: Codec, local: seq<Leaf>, state: PullState, response: Part): Reply<(PullState, seq<Step>)> {
    match PendingIndexFor(state.pending, BoundsOf(response))
    case Failed(e) => Failed(e)
    case Done(index) =>
      match StepsOf(k, local, response)
      case Failed(e) => Failed(e)
      case Done(steps) =>
        var next := AfterSteps(Narrowed(state.pending, index, BoundsOf(response)), state.requested, steps);
        Done((PullState(next.0, next.1, next.0 == []), steps))
  }

  method AdvanceRecordPull(k: Codec, local: seq<Leaf>, state: PullState, response: Part) returns (r: Reply<(PullState, seq<Step>)>)
    ensures r == AdvanceOf(k, local, state, response)
  {
    hide StepsOf, PendingIndexFor;
    var bounds := BoundsOf(response);
    var found := FindPending(state.pending, bounds);
    if found.Failed? {
      return Failed(found.error);
    }
    var index := found.value;
    IndexInRange(state.pending, bounds);
    var range := state.pending[index];
    var pending := state.pending;
    if bounds.upper == range.upper {
      pending := pending[..index] + pending[index + 1..];
    } else {
      pending := pending[index := Bounds(range.kind, bounds.upper, range.upper)];
    }
    var requested := state.requested;
    var steps := NextRequesterSteps(k, local, response);
    if steps.Failed? {
      return Failed(steps.error);
    }
    for i := 0 to |steps.value|
      invariant (pending, requested) == AfterSteps(Narrowed(state.pending, index, bounds), state.requested, steps.value[..i])
    {
      assert steps.value[..i + 1][..i] == steps.value[..i];
      match steps.value[i]
      case Answer(answer, at) =>
        if answer == Differs {
          pending := pending + [at];
        }
      case Get(keys) =>
        requested := requested + keys;
    }
    assert steps.value[..|steps.value|] == steps.value;
    r := Done((PullState(pending, requested, pending == []), steps.value));
  }

  lemma IndexInRange(pending: seq<Bounds>, bounds: Bounds)
    ensures PendingIndexFor(pending, bounds).Done? ==> PendingIndexFor(pending, bounds).value < |pending|
  {
  }

  // ---------------------------------------------------------------- what a pass keeps, whoever answers

  /** Pending ranges never overlap, nothing requested is still waited on, and nothing is requested twice. */
  ghost predicate Orderly(state: PullState) {
    && (forall i :: 0 <= i < |state.pending| ==> Open(state.pending[i]))
    && (forall i, j :: 0 <= i < j < |state.pending| ==> NoOverlap(state.pending[i], state.pending[j]))
    && (forall i, key :: 0 <= i < |state.pending| && key in state.requested ==> !Contains(state.pending[i], key.kind, key.position))
    && Distinct(state.requested)
    && state.complete == (state.pending == [])
  }

  ghost predicate NoOverlap(a: Bounds, b: Bounds) {
    forall kind, position :: !(Contains(a, kind, position) && Contains(b, kind, position))
  }

  /** What narrowing takes away is exactly the answered part. */
  lemma NarrowedApart(pending: seq<Bounds>, index: nat, bounds: Bounds)
    requires index < |pending| && PendingIndexFor(pending, bounds) == Done(index)
    requires forall i :: 0 <= i < |pending| ==> Open(pending[i])
    requires forall i, j :: 0 <= i < j < |pending| ==> NoOverlap(pending[i], pending[j])
    ensures var left := Narrowed(pending, index, bounds);
      && (forall i :: 0 <= i < |left| ==> Open(left[i]) && NoOverlap(left[i], bounds))
      && (forall i, j :: 0 <= i < j < |left| ==> NoOverlap(left[i], left[j]))
      && (forall i :: 0 <= i < |left| ==> exists j :: 0 <= j < |pending| && Covered(left[i], pending[j]))
      && Covered(bounds, pending[index])
  {
    hide NoOverlap, Covered;
    var range, left := pending[index], Narrowed(pending, index, bounds);
    InsideRange(range, bounds);
    forall i | 0 <= i < |left|
      ensures Open(left[i]) && NoOverlap(left[i], bounds)
      ensures exists j :: 0 <= j < |pending| && Covered(left[i], pending[j])
    {
      LeftOver(pending, index, bounds, i);
    }
    forall i, j | 0 <= i < j < |left| ensures NoOverlap(left[i], left[j]) {
      LeftApart(pending, index, bounds, i, j);
    }
  }

  /** Every position of `a` is one of `b`. */
  ghost predicate Covered(a: Bounds, b: Bounds) {
    forall kind, position :: Contains(a, kind, position) ==> Contains(b, kind, position)
  }

  lemma InsideRange(range: Bounds, bounds: Bounds)
    requires range.kind == bounds.kind && range.lower == bounds.lower && EndsInside(range, bounds)
    ensures Covered(bounds, range)
  {
  }

  lemma ApartWithin(a: Bounds, b: Bounds, small: Bounds)
    requires NoOverlap(a, b) && Covered(small, b)
    ensures NoOverlap(a, small) && NoOverlap(small, a)
  {
    hide Contains;
  }

  lemma CoversItself(a: Bounds)
    ensures Covered(a, a)
  {
    hide Contains;
  }

  /** The range left after a part of it is answered. */
  lemma Remainder(range: Bounds, bounds: Bounds)
    requires range.kind == bounds.kind && range.lower == bounds.lower && EndsInside(range, bounds) && Open(bounds) && Open(range)
    requires bounds.upper != range.upper
    ensures var left := Bounds(range.kind, bounds.upper, range.upper);
      Open(left) && Covered(left, range) && NoOverlap(left, bounds) && NoOverlap(bounds, left)
  {
  }

  lemma LeftOver(pending: seq<Bounds>, index: nat, bounds: Bounds, i: nat)
    requires index < |pending| && PendingIndexFor(pending, bounds) == Done(index) && i < |Narrowed(pending, index, bounds)|
    requires forall k :: 0 <= k < |pending| ==> Open(pending[k])
    requires forall k, l :: 0 <= k < l < |pending| ==> NoOverlap(pending[k], pending[l])
    ensures var left := Narrowed(pending, index, bounds);
      Open(left[i]) && NoOverlap(left[i], bounds) && exists j :: 0 <= j < |pending| && Covered(left[i], pending[j])
  {
    hide NoOverlap, Covered;
    var left := Narrowed(pending, index, bounds);
    InsideRange(pending[index], bounds);
    if bounds.upper != pending[index].upper && i == index {
      Remainder(pending[index], bounds);
    } else {
      var j := if bounds.upper == pending[index].upper && i >= index then i + 1 else i;
      assert left[i] == pending[j] && j != index;
      CoversItself(pending[j]);
      EitherOrder(pending, j, index);
      ApartWithin(pending[j], pending[index], bounds);
    }
  }

  lemma EitherOrder(pending: seq<Bounds>, i: nat, j: nat)
    requires i < |pending| && j < |pending| && i != j
    requires forall k, l :: 0 <= k < l < |pending| ==> NoOverlap(pending[k], pending[l])
    ensures NoOverlap(pending[i], pending[j])
  {
    hide Contains;
    if j < i {
      assert NoOverlap(pending[j], pending[i]);
    }
  }

  lemma LeftApart(pending: seq<Bounds>, index: nat, bounds: Bounds, i: nat, j: nat)
    requires index < |pending| && PendingIndexFor(pending, bounds) == Done(index) && i < j < |Narrowed(pending, index, bounds)|
    requires forall k :: 0 <= k < |pending| ==> Open(pending[k])
    requires forall k, l :: 0 <= k < l < |pending| ==> NoOverlap(pending[k], pending[l])
    ensures NoOverlap(Narrowed(pending, index, bounds)[i], Narrowed(pending, index, bounds)[j])
  {
    hide NoOverlap, Covered;
    var left := Narrowed(pending, index, bounds);
    if bounds.upper == pending[index].upper {
      var k, l := if i >= index then i + 1 else i, if j >= index then j + 1 else j;
      assert left[i] == pending[k] && left[j] == pending[l];
    } else if i == index || j == index {
      Remainder(pending[index], bounds);
      var other := if i == index then j else i;
      EitherOrder(pending, other, index);
      ApartWithin(pending[other], pending[index], left[index]);
    }
  }

  /** `a` outranks `b`: by order, then by content digest. */
  ghost predicate Newer(a: Leaf, b: Leaf) {
    CompareText(a.order, b.order) > 0 || (a.order == b.order && a.contentDigest > b.contentDigest)
  }

  /** One decision under one order, held in copies of other signers. */
  ghost predicate OtherSigners(a: Leaf, b: Leaf) {
    a.order == b.order && a.contentDigest == b.contentDigest && a.opHash != b.opHash
  }

  /** A decision worth fetching: nothing is held, or something older, or the same under other signers. */
  ghost predicate WorthFetching(listed: Leaf, held: Option<Leaf>) {
    held.Some? ==> Newer(listed, held.value) || OtherSigners(listed, held.value)
  }

  lemma PrefersIff(listed: Leaf, held: Option<Leaf>)
    ensures PrefersResponder(listed, held) <==> WorthFetching(listed, held)
  {
    if held.Some? {
      TextTotal(listed.order, held.value.order);
    }
  }

  lemma {:induction false} WantedMeans(local: seq<Leaf>, bounds: Bounds, listed: seq<Leaf>)
    ensures Distinct(Wanted(local, bounds, listed))
    ensures forall key :: key in Wanted(local, bounds, listed) ==> Contains(bounds, key.kind, key.position)
    ensures forall key :: key in Wanted(local, bounds, listed) ==>
      exists leaf :: leaf in listed && KeyOf(leaf) == key && WorthFetching(leaf, HeldAt(local, bounds, leaf.position))
    ensures forall leaf :: leaf in listed && Holds(bounds, leaf) && WorthFetching(leaf, HeldAt(local, bounds, leaf.position)) ==>
      KeyOf(leaf) in Wanted(local, bounds, listed)
  {
    hide PrefersResponder, WorthFetching, HeldAt;
    if listed != [] {
      var n := |listed| - 1;
      assert listed == listed[..n] + [listed[n]];
      WantedMeans(local, bounds, listed[..n]);
      PrefersIff(listed[n], HeldAt(local, bounds, listed[n].position));
    }
  }

  /** What an accepted response leaves. */
  lemma AfterResponse(k: Codec, local: seq<Leaf>, state: PullState, response: Part)
    requires AdvanceOf(k, local, state, response).Done?
    ensures PendingIndexFor(state.pending, BoundsOf(response)).Done?
    ensures PendingIndexFor(state.pending, BoundsOf(response)).value < |state.pending|
    ensures var next := AdvanceOf(k, local, state, response).value.0; next.complete == (next.pending == [])
    ensures response.Summarized? ==> AnswerFor(k, local, response.summary).Done?
    ensures response.Summarized? ==>
      var (next, steps) := AdvanceOf(k, local, state, response).value;
      var bounds, answer := BoundsOf(response), AnswerFor(k, local, response.summary).value;
      var left := Narrowed(state.pending, PendingIndexFor(state.pending, bounds).value, bounds);
      && next.requested == state.requested && steps == [Answer(answer, bounds)]
      && next.pending == if answer == Differs then left + [bounds] else left
    ensures response.Listed? ==>
      var (next, steps) := AdvanceOf(k, local, state, response).value;
      var bounds, get := BoundsOf(response), Wanted(local, BoundsOf(response), response.leaves);
      && next.pending == Narrowed(state.pending, PendingIndexFor(state.pending, bounds).value, bounds)
      && next.requested == state.requested + get
      && steps == if get == [] then [] else [Get(get)]
  {
    hide PendingIndexFor, Narrowed, AnswerFor, Wanted;
    IndexFound(state.pending, BoundsOf(response));
    var steps := StepsOf(k, local, response).value;
    var left := Narrowed(state.pending, PendingIndexFor(state.pending, BoundsOf(response)).value, BoundsOf(response));
    assert state.requested + [] == state.requested;
    if |steps| == 1 {
      assert steps == [steps[0]];
      AfterOne(left, state.requested, steps[0]);
    }
  }

  lemma AfterOne(pending: seq<Bounds>, requested: seq<Key>, step: Step)
    ensures AfterSteps(pending, requested, [step]) ==
      if step.Answer? then (if step.answer == Differs then pending + [step.bounds] else pending, requested)
      else (pending, requested + step.keys)
  {
    assert [step][..0] == [];
  }

  lemma IndexFound(pending: seq<Bounds>, bounds: Bounds)
    ensures PendingIndexFor(pending, bounds).Done? ==> PendingIndexFor(pending, bounds).value < |pending|
  {
  }

  lemma JoinApart(left: seq<Bounds>, bounds: Bounds)
    requires Open(bounds) && forall i :: 0 <= i < |left| ==> Open(left[i]) && NoOverlap(left[i], bounds)
    requires forall i, j :: 0 <= i < j < |left| ==> NoOverlap(left[i], left[j])
    ensures var more := left + [bounds];
      && (forall i :: 0 <= i < |more| ==> Open(more[i]))
      && (forall i, j :: 0 <= i < j < |more| ==> NoOverlap(more[i], more[j]))
  {
    hide NoOverlap, Open;
  }

  /** Whatever is answered, honest or not, an accepted response keeps pending ranges disjoint, keeps what was
      requested out of them, and never requests a key twice. */
  lemma {:induction false} StaysOrderly(k: Codec, local: seq<Leaf>, state: PullState, response: Part)
    requires Orderly(state) && AdvanceOf(k, local, state, response).Done?
    ensures Orderly(AdvanceOf(k, local, state, response).value.0)
  {
    hide NoOverlap, Covered, Contains, AdvanceOf, AnswerFor, Wanted, PendingIndexFor, Narrowed;
    AfterResponse(k, local, state, response);
    var next, bounds := AdvanceOf(k, local, state, response).value.0, BoundsOf(response);
    var index := PendingIndexFor(state.pending, bounds).value;
    var left := Narrowed(state.pending, index, bounds);
    NarrowedApart(state.pending, index, bounds);
    OpenAnswered(state.pending, bounds);
    JoinApart(left, bounds);
    StillUnrequested(state, left, bounds, index);
    if response.Listed? {
      WantedMeans(local, bounds, response.leaves);
      Fetched(state, left, bounds, Wanted(local, bounds, response.leaves));
    }
  }

  lemma OpenAnswered(pending: seq<Bounds>, bounds: Bounds)
    requires PendingIndexFor(pending, bounds).Done?
    ensures Open(bounds)
  {
  }

  lemma StillUnrequested(state: PullState, left: seq<Bounds>, bounds: Bounds, index: nat)
    requires Orderly(state) && index < |state.pending| && Covered(bounds, state.pending[index])
    requires forall i :: 0 <= i < |left| ==> exists j :: 0 <= j < |state.pending| && Covered(left[i], state.pending[j])
    ensures forall i, key :: 0 <= i < |left| && key in state.requested ==> !Contains(left[i], key.kind, key.position)
    ensures forall key :: key in state.requested ==> !Contains(bounds, key.kind, key.position)
  {
    hide Contains, NoOverlap;
  }

  lemma Fetched(state: PullState, left: seq<Bounds>, bounds: Bounds, get: seq<Key>)
    requires Distinct(state.requested) && Distinct(get)
    requires forall key :: key in get ==> Contains(bounds, key.kind, key.position)
    requires forall key :: key in state.requested ==> !Contains(bounds, key.kind, key.position)
    requires forall i :: 0 <= i < |left| ==> NoOverlap(left[i], bounds)
    requires forall i, key :: 0 <= i < |left| && key in state.requested ==> !Contains(left[i], key.kind, key.position)
    ensures Distinct(state.requested + get)
    ensures forall i, key :: 0 <= i < |left| && key in state.requested + get ==> !Contains(left[i], key.kind, key.position)
  {
    hide Contains;
    var all, m := state.requested + get, |state.requested|;
    forall i, j | 0 <= i < j < |all| ensures all[i] != all[j] {
      if i < m <= j {
        assert all[i] in state.requested && all[j] in get;
      }
    }
  }

  /** A pass begins orderly. */
  lemma BeginsOrderly(types: seq<int>)
    requires Ascending(types)
    ensures Orderly(BeginRecordPull(types))
  {
  }

  /** Over any run of accepted responses. */
  lemma {:induction false} RunStaysOrderly(k: Codec, local: seq<Leaf>, types: seq<int>, responses: seq<Part>)
    requires Ascending(types) && Accepted(k, local, types, responses).Done?
    ensures Orderly(Accepted(k, local, types, responses).value)
  {
    hide Orderly, AdvanceOf;
    if responses == [] {
      BeginsOrderly(types);
    } else {
      RunStaysOrderly(k, local, types, responses[..|responses| - 1]);
      StaysOrderly(k, local, Accepted(k, local, types, responses[..|responses| - 1]).value, responses[|responses| - 1]);
    }
  }

  /** The state after a run of responses, if each was accepted. */
  function Accepted(k: Codec, local: seq<Leaf>, types: seq<int>, responses: seq<Part>): Reply<PullState>
    requires Ascending(types)
  {
    if responses == [] then Done(BeginRecordPull(types))
    else match Accepted(k, local, types, responses[..|responses| - 1])
      case Failed(e) => Failed(e)
      case Done(state) =>
        match AdvanceOf(k, local, state, responses[|responses| - 1])
        case Failed(e) => Failed(e)
        case Done(next) => Done(next.0)
  }
}
