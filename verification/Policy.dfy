/** Merge policies: comparing two ops of one record, and what any arrival order leaves stored. */
module Policy {
  import opened Basics
  import opened Sortable

  type Hash = int
  type Text = int

  /** A claim, as far as policies read it: its stamp, its `meta.version` when that is a string, and the rest. */
  datatype Claim = Claim(hlc: Text, metaVersion: Option<Text>, body: int)

  datatype Op = Op(claim: Claim, opHash: Hash, contentDigest: Hash)

  /** Where a canonical stamp stands in the order of stamps; a text that is not one stands nowhere.
      `textAt` is read by no operation: it says that a stamp has one canonical spelling. */
  datatype Clock = Clock(stamp: Text -> Option<int>, textAt: int -> Text)

  ghost predicate Canonical(k: Clock) {
    forall t :: k.stamp(t).Some? ==> k.textAt(k.stamp(t).value) == t
  }

  /** A type's version hook answers nothing when it throws or gives anything but finite numbers. */
  datatype MergePolicy = LWW | Monotonic(version: Claim -> Option<seq<Float64>>, byStamp: bool) | Immutable

  datatype EqualVersion = Resolve | Fork

  datatype Status = Apply | Noop | Reject | ForkBoth

  datatype Reason = HlcNotCanonical | StoredHlcNotCanonical | VersionInvalid | StoredVersionInvalid
    | EqualVersionFork | EqualVersionConflict | ImmutableConflict

  datatype MergeDecision = MergeDecision(status: Status, reason: Option<Reason>, conflict: Option<(Hash, Hash)>)

  function Plain(status: Status): MergeDecision {
    MergeDecision(status, None, None)
  }

  function ByContentDigest(incoming: Op, stored: Op): Status {
    if incoming.contentDigest > stored.contentDigest then Apply else Noop
  }

  function CompareLWW(k: Clock, incoming: Op, stored: Op): MergeDecision {
    var mine, theirs := k.stamp(incoming.claim.hlc), k.stamp(stored.claim.hlc);
    if mine.None? then MergeDecision(Reject, Some(HlcNotCanonical), None)
    else if theirs.None? then MergeDecision(Apply, Some(StoredHlcNotCanonical), None)
    else if mine.value != theirs.value then Plain(if mine.value > theirs.value then Apply else Noop)
    else Plain(ByContentDigest(incoming, stored))
  }

  function ReadMonotonic(k: Clock, policy: MergePolicy, claim: Claim): Option<seq<Float64>>
    requires policy.Monotonic?
  {
    var tuple := policy.version(claim);
    if tuple.None? || (policy.byStamp && (claim.metaVersion.None? || k.stamp(claim.metaVersion.value).None?)) then None else tuple
  }

  function VersionOrder(k: Clock, policy: MergePolicy, incoming: Claim, stored: Claim): int
    requires policy.Monotonic? && ReadMonotonic(k, policy, incoming).Some? && ReadMonotonic(k, policy, stored).Some?
  {
    if policy.byStamp then k.stamp(incoming.metaVersion.value).value - k.stamp(stored.metaVersion.value).value
    else CompareTuples(ReadMonotonic(k, policy, incoming).value, ReadMonotonic(k, policy, stored).value)
  }

  function CompareMonotonic(k: Clock, policy: MergePolicy, onEqual: (Op, Op) -> EqualVersion, incoming: Op, stored: Op): MergeDecision
    requires policy.Monotonic?
  {
    if ReadMonotonic(k, policy, incoming.claim).None? then MergeDecision(Reject, Some(VersionInvalid), None)
    else if ReadMonotonic(k, policy, stored.claim).None? then MergeDecision(Apply, Some(StoredVersionInvalid), None)
    else
      var order := VersionOrder(k, policy, incoming.claim, stored.claim);
      var conflict := Some((stored.opHash, incoming.opHash));
      if order != 0 then Plain(if order > 0 then Apply else Noop)
      else if onEqual(incoming, stored) == Fork then MergeDecision(ForkBoth, Some(EqualVersionFork), conflict)
      else MergeDecision(ByContentDigest(incoming, stored), Some(EqualVersionConflict), conflict)
  }

  function CompareImmutable(incoming: Op, stored: Op): MergeDecision {
    MergeDecision(ByContentDigest(incoming, stored), Some(ImmutableConflict), Some((stored.opHash, incoming.opHash)))
  }

  function AdmitFirstWrite(k: Clock, policy: MergePolicy, incoming: Op): MergeDecision {
    match policy
    case LWW => if k.stamp(incoming.claim.hlc).None? then MergeDecision(Reject, Some(HlcNotCanonical), None) else Plain(Apply)
    case Monotonic(_, _) =>
      if ReadMonotonic(k, policy, incoming.claim).None? then MergeDecision(Reject, Some(VersionInvalid), None) else Plain(Apply)
    case Immutable => Plain(Apply)
  }

  /** What the policy makes of an op on what is stored. A hook the type does not declare answers `Resolve`. */
  function CompareRecordOps(k: Clock, policy: MergePolicy, onEqual: (Op, Op) -> EqualVersion, incoming: Op, stored: Option<Op>): MergeDecision {
    if stored.None? then AdmitFirstWrite(k, policy, incoming)
    else if incoming.opHash == stored.value.opHash then Plain(Noop)
    else match policy
      case LWW => CompareLWW(k, incoming, stored.value)
      case Monotonic(_, _) => CompareMonotonic(k, policy, onEqual, incoming, stored.value)
      case Immutable => CompareImmutable(incoming, stored.value)
  }

  /** What is stored once an op has arrived: of a fork, the op of the greater content digest. */
  function StoredNext(k: Clock, policy: MergePolicy, onEqual: (Op, Op) -> EqualVersion, stored: Option<Op>, incoming: Op): Option<Op> {
    var status := CompareRecordOps(k, policy, onEqual, incoming, stored).status;
    if status == Apply || (status == ForkBoth && stored.Some? && incoming.contentDigest > stored.value.contentDigest)
    then Some(incoming) else stored
  }

  function StoredAfter(k: Clock, policy: MergePolicy, onEqual: (Op, Op) -> EqualVersion, ops: seq<Op>): Option<Op> {
    if ops == [] then None
    else StoredNext(k, policy, onEqual, StoredAfter(k, policy, onEqual, ops[..|ops| - 1]), ops[|ops| - 1])
  }

  // ---------------------------------------------------------------- what the order is

  /** Whether the policy can order an op at all. */
  predicate Orderable(k: Clock, policy: MergePolicy, op: Op) {
    match policy
    case LWW => k.stamp(op.claim.hlc).Some?
    case Monotonic(_, _) => ReadMonotonic(k, policy, op.claim).Some?
    case Immutable => true
  }

  /** The sign of the policy's order between two ops it can order. */
  function PolicyOrder(k: Clock, policy: MergePolicy, a: Op, b: Op): int
    requires Orderable(k, policy, a) && Orderable(k, policy, b)
  {
    match policy
    case LWW => k.stamp(a.claim.hlc).value - k.stamp(b.claim.hlc).value
    case Monotonic(_, _) => VersionOrder(k, policy, a.claim, b.claim)
    case Immutable => 0
  }

  /** `a` ranks at least as high as `b`: by the policy's order, then by content digest. */
  predicate AtLeast(k: Clock, policy: MergePolicy, a: Op, b: Op)
    requires Orderable(k, policy, a) && Orderable(k, policy, b)
  {
    PolicyOrder(k, policy, a, b) > 0 || (PolicyOrder(k, policy, a, b) == 0 && a.contentDigest >= b.contentDigest)
  }

  /** One rule for the three policies, with the reason and the conflict each reports: an op it cannot order is rejected
      and a stored one it cannot order gives way; else the order decides, and between ops that tie the greater digest,
      unless the type's hook forks them. */
  lemma ComparisonIs(k: Clock, policy: MergePolicy, onEqual: (Op, Op) -> EqualVersion, op: Op, stored: Op)
    requires op.opHash != stored.opHash
    ensures CompareRecordOps(k, policy, onEqual, op, Some(stored)) ==
      if !Orderable(k, policy, op) then MergeDecision(Reject, Some(if policy.LWW? then HlcNotCanonical else VersionInvalid), None)
      else if !Orderable(k, policy, stored) then MergeDecision(Apply, Some(if policy.LWW? then StoredHlcNotCanonical else StoredVersionInvalid), None)
      else if PolicyOrder(k, policy, op, stored) > 0 then MergeDecision(Apply, None, None)
      else if PolicyOrder(k, policy, op, stored) < 0 then MergeDecision(Noop, None, None)
      else
        var digests := if op.contentDigest > stored.contentDigest then Apply else Noop;
        var both := Some((stored.opHash, op.opHash));
        if policy.LWW? then MergeDecision(digests, None, None)
        else if policy.Immutable? then MergeDecision(digests, Some(ImmutableConflict), both)
        else if onEqual(op, stored) == Fork then MergeDecision(ForkBoth, Some(EqualVersionFork), both)
        else MergeDecision(digests, Some(EqualVersionConflict), both)
    ensures CompareRecordOps(k, policy, onEqual, op, None) ==
      if Orderable(k, policy, op) then MergeDecision(Apply, None, None)
      else MergeDecision(Reject, Some(if policy.LWW? then HlcNotCanonical else VersionInvalid), None)
  {
  }

  lemma {:induction false} TuplesTotal(a: seq<Float64>, b: seq<Float64>)
    ensures Sign(CompareTuples(a, b)) == -Sign(CompareTuples(b, a))
    ensures CompareTuples(a, a) == 0
  {
    hide Value;
    if a != [] {
      TuplesTotal(a[1..], if b == [] then [] else b[1..]);
    }
  }

  lemma {:induction false} TuplesTransitive(a: seq<Float64>, b: seq<Float64>, c: seq<Float64>)
    requires CompareTuples(a, b) >= 0 && CompareTuples(b, c) >= 0
    ensures CompareTuples(a, c) >= 0
    ensures CompareTuples(a, b) > 0 || CompareTuples(b, c) > 0 ==> CompareTuples(a, c) > 0
  {
    hide Value;
    if a != [] && b != [] && c != [] && Value(a[0]) == Value(b[0]) == Value(c[0]) {
      TuplesTransitive(a[1..], b[1..], c[1..]);
    }
  }

  lemma OrderTotal(k: Clock, policy: MergePolicy, a: Op, b: Op)
    requires Orderable(k, policy, a) && Orderable(k, policy, b)
    ensures Sign(PolicyOrder(k, policy, a, b)) == -Sign(PolicyOrder(k, policy, b, a))
    ensures AtLeast(k, policy, a, b) || AtLeast(k, policy, b, a)
    ensures AtLeast(k, policy, a, a)
  {
    if policy.Monotonic? && !policy.byStamp {
      TuplesTotal(ReadMonotonic(k, policy, a.claim).value, ReadMonotonic(k, policy, b.claim).value);
    }
  }

  lemma AtLeastTransitive(k: Clock, policy: MergePolicy, a: Op, b: Op, c: Op)
    requires Orderable(k, policy, a) && Orderable(k, policy, b) && Orderable(k, policy, c)
    requires AtLeast(k, policy, a, b) && AtLeast(k, policy, b, c)
    ensures AtLeast(k, policy, a, c)
  {
    if policy.Monotonic? && !policy.byStamp {
      TuplesTransitive(ReadMonotonic(k, policy, a.claim).value, ReadMonotonic(k, policy, b.claim).value, ReadMonotonic(k, policy, c.claim).value);
    }
  }

  /** An op's hash is of its whole token, so ops of one hash are one op. */
  ghost predicate HashesIdentify(ops: set<Op>) {
    forall a, b :: a in ops && b in ops && a.opHash == b.opHash ==> a == b
  }

  /** The op stored is one of those seen that the policy can order, and ranks at least as high as every
      other; nothing is stored only when none can be ordered. */
  ghost predicate IsGreatest(k: Clock, policy: MergePolicy, ops: set<Op>, stored: Option<Op>) {
    match stored
    case None => forall op :: op in ops ==> !Orderable(k, policy, op)
    case Some(s) =>
      && s in ops && Orderable(k, policy, s)
      && (forall op :: op in ops && Orderable(k, policy, op) ==> AtLeast(k, policy, s, op))
  }

  /** What one comparison does to what is stored. */
  lemma StoresGreater(k: Clock, policy: MergePolicy, onEqual: (Op, Op) -> EqualVersion, stored: Option<Op>, incoming: Op)
    requires stored.Some? ==> Orderable(k, policy, stored.value)
    ensures var next := StoredNext(k, policy, onEqual, stored, incoming);
      && (!Orderable(k, policy, incoming) ==> next == stored)
      && (Orderable(k, policy, incoming) && stored.None? ==> next == Some(incoming))
      && (Orderable(k, policy, incoming) && stored.Some? && incoming.opHash != stored.value.opHash ==>
        if AtLeast(k, policy, stored.value, incoming) then next == stored else next == Some(incoming))
      && (stored.Some? && incoming.opHash == stored.value.opHash ==> next == stored)
  {
    if stored.Some? && Orderable(k, policy, incoming) {
      OrderTotal(k, policy, incoming, stored.value);
    }
  }

  /** Whatever `onEqual` answers, ops arriving one by one leave the greatest of them stored. */
  lemma {:induction false} LeavesGreatest(k: Clock, policy: MergePolicy, onEqual: (Op, Op) -> EqualVersion, ops: seq<Op>)
    requires HashesIdentify(Elems(ops))
    ensures IsGreatest(k, policy, Elems(ops), StoredAfter(k, policy, onEqual, ops))
  {
    hide AtLeast, Orderable, StoredNext;
    if ops != [] {
      var n := |ops| - 1;
      assert ops == ops[..n] + [ops[n]];
      ElemsAppend(ops[..n], ops[n]);
      LeavesGreatest(k, policy, onEqual, ops[..n]);
      var stored := StoredAfter(k, policy, onEqual, ops[..n]);
      StoresGreater(k, policy, onEqual, stored, ops[n]);
      GreatestNext(k, policy, Elems(ops[..n]), stored, ops[n], StoredNext(k, policy, onEqual, stored, ops[n]));
    }
  }

  lemma GreatestNext(k: Clock, policy: MergePolicy, ops: set<Op>, stored: Option<Op>, incoming: Op, next: Option<Op>)
    requires IsGreatest(k, policy, ops, stored) && HashesIdentify(ops + {incoming})
    requires !Orderable(k, policy, incoming) ==> next == stored
    requires Orderable(k, policy, incoming) && stored.None? ==> next == Some(incoming)
    requires stored.Some? && Orderable(k, policy, stored.value) && Orderable(k, policy, incoming) && incoming.opHash != stored.value.opHash ==>
      if AtLeast(k, policy, stored.value, incoming) then next == stored else next == Some(incoming)
    requires stored.Some? && incoming.opHash == stored.value.opHash ==> next == stored
    ensures IsGreatest(k, policy, ops + {incoming}, next)
  {
    hide Orderable, AtLeast;
    if Orderable(k, policy, incoming) {
      OrderTotal(k, policy, incoming, incoming);
      if stored.Some? {
        OrderTotal(k, policy, stored.value, incoming);
        forall op | op in ops && Orderable(k, policy, op) && AtLeast(k, policy, incoming, stored.value) ensures AtLeast(k, policy, incoming, op) {
          AtLeastTransitive(k, policy, incoming, stored.value, op);
        }
      }
    }
  }

  /** Convergence: the same ops in any order, any number of times, under any two hooks, leave the same
      decision stored, or none. */
  lemma {:induction false} Converges(k: Clock, policy: MergePolicy, f: (Op, Op) -> EqualVersion, g: (Op, Op) -> EqualVersion, a: seq<Op>, b: seq<Op>)
    requires HashesIdentify(Elems(a)) && Elems(a) == Elems(b)
    ensures var x, y := StoredAfter(k, policy, f, a), StoredAfter(k, policy, g, b);
      && (x.None? <==> y.None?)
      && (x.Some? ==> (Orderable(k, policy, x.value) && Orderable(k, policy, y.value)))
      && (x.Some? ==> PolicyOrder(k, policy, x.value, y.value) == 0 && x.value.contentDigest == y.value.contentDigest)
  {
    hide Orderable, StoredAfter;
    LeavesGreatest(k, policy, f, a);
    LeavesGreatest(k, policy, g, b);
    var x, y := StoredAfter(k, policy, f, a), StoredAfter(k, policy, g, b);
    if x.Some? && y.Some? {
      OrderTotal(k, policy, x.value, y.value);
    }
  }
}
