/** `rangeLeaf`: a stored decision as the other side sees it, and why its order is the policy's. */
module RangeLeaf {
  import opened Basics
  import opened Sortable
  import opened Policy
  import opened Apply
  import opened Range
  import opened Reconcile

  /** How stamps and digests are written, where a record stands among those of its type, how a leaf hash is taken of a
      decision's content and signers, and which stamps fall in years of four digits. */
  datatype Writing = Writing(
    stamp: Text -> string, digest: Hash -> string, position: Apply.Key -> int,
    leafHash: (Hash, set<int>) -> seq<nat>, fourDigits: int -> bool)

  /** Digests sort as they compare, and so do the canonical stamps of four-digit years; texts are written apart. */
  ghost predicate SortsRight(w: Writing, k: Clock) {
    && Canonical(k) && (forall t, u :: w.stamp(t) == w.stamp(u) ==> t == u)
    && (forall a, b :: Sign(CompareText(w.digest(a), w.digest(b))) == Sign(a - b))
    && (forall t, u :: FourDigits(w, k, t) && FourDigits(w, k, u) ==> StampsSort(w, k, t, u))
  }

  predicate FourDigits(w: Writing, k: Clock, t: Text) {
    k.stamp(t).Some? && w.fourDigits(k.stamp(t).value)
  }

  /** Two stamps sort, as text, as they compare. */
  ghost predicate StampsSort(w: Writing, k: Clock, t: Text, u: Text)
    requires k.stamp(t).Some? && k.stamp(u).Some?
  {
    Sign(CompareText(w.stamp(t), w.stamp(u))) == Sign(k.stamp(t).value - k.stamp(u).value)
  }

  /** Whether a copy can speak for a decision: it verifies for the record, names a signer, and has a version when the
      policy reads one. */
  predicate Speaks(k: Clock, policy: MergePolicy, key: Apply.Key, copy: Copy) {
    copy.op.Some? && copy.op.value.key == key && copy.signer.Some?
    && (policy.Monotonic? ==> ReadMonotonic(k, policy, copy.op.value.op.claim).Some?)
  }

  function Speaking(k: Clock, policy: MergePolicy, key: Apply.Key, copies: seq<Copy>): (r: seq<Copy>)
    ensures forall copy :: copy in r <==> copy in copies && Speaks(k, policy, key, copy)
    ensures forall i :: 0 <= i < |r| ==> Speaks(k, policy, key, r[i])
  {
    if copies == [] then []
    else if Speaks(k, policy, key, copies[0]) then [copies[0]] + Speaking(k, policy, key, copies[1..])
    else Speaking(k, policy, key, copies[1..])
  }

  /** The text a decision sorts by, of the first copy that speaks for it. */
  function OrderOf(w: Writing, k: Clock, policy: MergePolicy, op: Op, contentDigest: Hash): Option<string>
    requires policy.Monotonic? ==> ReadMonotonic(k, policy, op.claim).Some?
  {
    match policy
    case Immutable => Some(w.digest(contentDigest))
    case LWW => if FourDigits(w, k, op.claim.hlc) then Some(w.stamp(op.claim.hlc)) else None
    case Monotonic(_, _) =>
      if policy.byStamp then Some(w.stamp(op.claim.metaVersion.value)) else Some(SortableTuple(ReadMonotonic(k, policy, op.claim).value))
  }

  function SignersOf(copies: seq<Copy>): set<int> {
    set copy | copy in copies && copy.signer.Some? :: copy.signer.value
  }

  /** A decision's leaf; none when no copy speaks for it or the policy cannot order it as text. */
  function LeafOf(w: Writing, k: Clock, policy: MergePolicy, key: Apply.Key, held: Held): Option<Leaf> {
    var speaking := Speaking(k, policy, key, held.copies);
    if speaking == [] then None
    else
      var order := OrderOf(w, k, policy, speaking[0].op.value.op, held.contentDigest);
      if order.None? then None
      else Some(Leaf(key.kind, w.position(key), w.leafHash(held.contentDigest, SignersOf(speaking)), order.value, held.contentDigest))
  }

  /** A copy of the record with a verified op, a named signer and, where the policy reads one, a version. */
  ghost predicate Counts(k: Clock, policy: MergePolicy, key: Apply.Key, copy: Copy) {
    exists op, signer :: copy.op == Some(SignedOp(key, op)) && copy.signer == Some(signer) && (policy.Monotonic? ==> Orderable(k, policy, op))
  }

  lemma SpeaksIff(k: Clock, policy: MergePolicy, key: Apply.Key, copy: Copy)
    ensures Speaks(k, policy, key, copy) <==> Counts(k, policy, key, copy)
  {
    if Speaks(k, policy, key, copy) {
      var op, signer := copy.op.value.op, copy.signer.value;
      assert copy.op.value == SignedOp(key, op);
      assert copy.op == Some(SignedOp(key, op)) && copy.signer == Some(signer) && (policy.Monotonic? ==> Orderable(k, policy, op));
    }
  }

  /** The op that speaks for a decision: its first copy's that counts. */
  ghost predicate SpokenFor(k: Clock, policy: MergePolicy, key: Apply.Key, held: Held, op: Op) {
    exists i :: SpeaksFirst(k, policy, key, held.copies, i) && held.copies[i].op == Some(SignedOp(key, op))
  }

  ghost predicate SpeaksFirst(k: Clock, policy: MergePolicy, key: Apply.Key, copies: seq<Copy>, i: int) {
    0 <= i < |copies| && Counts(k, policy, key, copies[i]) && forall j :: 0 <= j < i ==> !Counts(k, policy, key, copies[j])
  }

  lemma {:induction false} FirstSpeaking(k: Clock, policy: MergePolicy, key: Apply.Key, copies: seq<Copy>, i: nat)
    requires SpeaksFirst(k, policy, key, copies, i)
    ensures Speaking(k, policy, key, copies) != [] && Speaking(k, policy, key, copies)[0] == copies[i]
  {
    hide Counts;
    SpeaksIff(k, policy, key, copies[0]);
    if i > 0 {
      FirstSpeaking(k, policy, key, copies[1..], i - 1);
    }
  }

  /** A type's version hook gives finite numbers. */
  ghost predicate FiniteVersions(policy: MergePolicy) {
    policy.Monotonic? ==> forall claim, f :: policy.version(claim).Some? && f in policy.version(claim).value ==> Finite(f)
  }

  /** Whether the texts two ops sort by do so as the policy compares them: always, but for version stamps. */
  ghost predicate VersionsSort(w: Writing, k: Clock, policy: MergePolicy, a: Op, b: Op)
    requires Orderable(k, policy, a) && Orderable(k, policy, b)
  {
    policy.Monotonic? && policy.byStamp ==> StampsSort(w, k, a.claim.metaVersion.value, b.claim.metaVersion.value)
  }

  lemma LeafOrder(w: Writing, k: Clock, policy: MergePolicy, key: Apply.Key, held: Held, op: Op)
    requires LeafOf(w, k, policy, key, held).Some? && SpokenFor(k, policy, key, held, op)
    ensures Orderable(k, policy, op) && OrderOf(w, k, policy, op, held.contentDigest) == Some(LeafOf(w, k, policy, key, held).value.order)
    ensures policy.LWW? ==> FourDigits(w, k, op.claim.hlc)
    ensures LeafOf(w, k, policy, key, held).value.contentDigest == held.contentDigest
  {
    var i: nat :| SpeaksFirst(k, policy, key, held.copies, i) && held.copies[i].op == Some(SignedOp(key, op));
    FirstSpeaking(k, policy, key, held.copies, i);
  }

  /** The order of two leaves is the policy's order of the ops they speak for, then the digests'. */
  lemma {:induction false} OrdersAgree(w: Writing, k: Clock, policy: MergePolicy, a: Op, b: Op, s: string, t: string)
    requires SortsRight(w, k) && FiniteVersions(policy) && Orderable(k, policy, a) && Orderable(k, policy, b)
    requires policy.LWW? ==> FourDigits(w, k, a.claim.hlc) && FourDigits(w, k, b.claim.hlc)
    requires OrderOf(w, k, policy, a, a.contentDigest) == Some(s) && OrderOf(w, k, policy, b, b.contentDigest) == Some(t)
    ensures VersionsSort(w, k, policy, a, b) <==>
      Sign(CompareText(s, t)) == if policy.Immutable? then Sign(a.contentDigest - b.contentDigest) else Sign(PolicyOrder(k, policy, a, b))
  {
    match policy
    case LWW =>
      assert StampsSort(w, k, a.claim.hlc, b.claim.hlc);
    case Immutable =>
    case Monotonic(_, _) =>
      if !policy.byStamp {
        TupleOrder(ReadMonotonic(k, policy, a.claim).value, ReadMonotonic(k, policy, b.claim).value);
      }
  }

  /** Of two decisions of a record, one's leaf outranks the other's exactly when the policy ranks its op strictly above,
      as long as the stamps their versions are sort as text: what a pass fetches is what the policy would store. */
  lemma {:induction false} LeafRanks(w: Writing, k: Clock, policy: MergePolicy, key: Apply.Key, a: Held, b: Held, p: Op, q: Op)
    requires SortsRight(w, k) && FiniteVersions(policy)
    requires LeafOf(w, k, policy, key, a).Some? && LeafOf(w, k, policy, key, b).Some?
    requires SpokenFor(k, policy, key, a, p) && SpokenFor(k, policy, key, b, q)
    requires p.contentDigest == a.contentDigest && q.contentDigest == b.contentDigest
    ensures Orderable(k, policy, p) && Orderable(k, policy, q)
    ensures var x, y := LeafOf(w, k, policy, key, a).value, LeafOf(w, k, policy, key, b).value;
      VersionsSort(w, k, policy, p, q) <==>
        ((Newer(x, y) <==> !AtLeast(k, policy, q, p)) && (Newer(y, x) <==> !AtLeast(k, policy, p, q)))
  {
    hide LeafOf, SpokenFor, SortsRight, FiniteVersions, PolicyOrder, Orderable, VersionsSort;
    LeafOrder(w, k, policy, key, a, p);
    LeafOrder(w, k, policy, key, b, q);
    var x, y := LeafOf(w, k, policy, key, a).value, LeafOf(w, k, policy, key, b).value;
    OrdersAgree(w, k, policy, p, q, x.order, y.order);
    TextTotal(x.order, y.order);
    OrderTotal(k, policy, p, q);
    if policy.Monotonic? && policy.byStamp {
      NoTies(w, k, policy, p, q, x.order, y.order);
    } else {
      SortsAnyway(w, k, policy, p, q);
      if policy.Immutable? {
        ImmutableTies(k, policy, p, q);
      }
    }
  }

  /** So what a pass fetches as newer is what the merge stores over what is held. */
  lemma {:induction false} FetchedIsStored(w: Writing, k: Clock, policy: MergePolicy, onEqual: (Op, Op) -> EqualVersion, key: Apply.Key,
      a: Held, b: Held, p: Op, q: Op)
    requires SortsRight(w, k) && FiniteVersions(policy)
    requires LeafOf(w, k, policy, key, a).Some? && LeafOf(w, k, policy, key, b).Some?
    requires SpokenFor(k, policy, key, a, p) && SpokenFor(k, policy, key, b, q) && p.opHash != q.opHash
    requires p.contentDigest == a.contentDigest && q.contentDigest == b.contentDigest
    requires Orderable(k, policy, p) && Orderable(k, policy, q) && VersionsSort(w, k, policy, p, q)
    ensures Newer(LeafOf(w, k, policy, key, a).value, LeafOf(w, k, policy, key, b).value)
      <==> StoredNext(k, policy, onEqual, Some(q), p) == Some(p)
  {
    hide LeafOf, SpokenFor, SortsRight, FiniteVersions, Orderable, AtLeast, VersionsSort, StoredNext, Newer;
    LeafRanks(w, k, policy, key, a, b, p, q);
    StoresGreater(k, policy, onEqual, Some(q), p);
  }

  lemma SortsAnyway(w: Writing, k: Clock, policy: MergePolicy, p: Op, q: Op)
    requires Orderable(k, policy, p) && Orderable(k, policy, q) && !(policy.Monotonic? && policy.byStamp)
    ensures VersionsSort(w, k, policy, p, q)
  {
  }

  lemma ImmutableTies(k: Clock, policy: MergePolicy, p: Op, q: Op)
    requires policy.Immutable?
    ensures PolicyOrder(k, policy, p, q) == 0
  {
  }

  /** Under a version's stamp, ops tie exactly when their texts do. */
  lemma NoTies(w: Writing, k: Clock, policy: MergePolicy, p: Op, q: Op, s: string, t: string)
    requires SortsRight(w, k) && Orderable(k, policy, p) && Orderable(k, policy, q) && policy.Monotonic? && policy.byStamp
    requires OrderOf(w, k, policy, p, p.contentDigest) == Some(s) && OrderOf(w, k, policy, q, q.contentDigest) == Some(t)
    ensures s == t <==> PolicyOrder(k, policy, p, q) == 0
  {
    var v, u := p.claim.metaVersion.value, q.claim.metaVersion.value;
    assert k.textAt(k.stamp(v).value) == v && k.textAt(k.stamp(u).value) == u;
  }

  /** The signers a decision is held by: those of its copies that count. */
  ghost predicate Signs(k: Clock, policy: MergePolicy, key: Apply.Key, held: Held, signer: int) {
    exists copy :: copy in held.copies && Counts(k, policy, key, copy) && copy.signer == Some(signer)
  }

  /** Leaves of one content differ exactly when it is held by other signers, as long as the hash tells sets of them apart. */
  lemma {:induction false} SignersTold(w: Writing, k: Clock, policy: MergePolicy, key: Apply.Key, a: Held, b: Held)
    requires forall digest, s, t :: w.leafHash(digest, s) == w.leafHash(digest, t) ==> s == t
    requires LeafOf(w, k, policy, key, a).Some? && LeafOf(w, k, policy, key, b).Some? && a.contentDigest == b.contentDigest
    ensures LeafOf(w, k, policy, key, a).value.opHash == LeafOf(w, k, policy, key, b).value.opHash
      <==> forall signer :: Signs(k, policy, key, a, signer) <==> Signs(k, policy, key, b, signer)
  {
    hide Speaks, Counts, OrderOf;
    var s, t := SignersOf(Speaking(k, policy, key, a.copies)), SignersOf(Speaking(k, policy, key, b.copies));
    SignersAre(k, policy, key, a);
    SignersAre(k, policy, key, b);
    if forall signer :: Signs(k, policy, key, a, signer) <==> Signs(k, policy, key, b, signer) {
      assert forall signer :: signer in s <==> signer in t;
      assert s == t;
    }
  }

  lemma SignersAre(k: Clock, policy: MergePolicy, key: Apply.Key, held: Held)
    ensures forall signer :: signer in SignersOf(Speaking(k, policy, key, held.copies)) <==> Signs(k, policy, key, held, signer)
  {
    hide Speaks, Counts;
    forall copy ensures Speaks(k, policy, key, copy) <==> Counts(k, policy, key, copy) {
      SpeaksIff(k, policy, key, copy);
    }
  }

  /** Four-digit years sort right whatever the policy. */
  lemma FourDigitsSort(w: Writing, k: Clock, policy: MergePolicy, a: Op, b: Op)
    requires SortsRight(w, k) && Orderable(k, policy, a) && Orderable(k, policy, b)
    requires policy.Monotonic? && policy.byStamp ==>
      FourDigits(w, k, a.claim.metaVersion.value) && FourDigits(w, k, b.claim.metaVersion.value)
    ensures VersionsSort(w, k, policy, a, b)
  {
  }

  /** A year of five digits is written with its sign, which sorts before any digit: a version stamped then is taken for
      older than any stamped in a year of four. */
  lemma LaterYearSortsLow(w: Writing, k: Clock, policy: MergePolicy, later: Op, sooner: Op)
    requires policy.Monotonic? && policy.byStamp && Orderable(k, policy, later) && Orderable(k, policy, sooner)
    requires var t, u := later.claim.metaVersion.value, sooner.claim.metaVersion.value;
      && k.stamp(t).value > k.stamp(u).value
      && |w.stamp(t)| > 0 && w.stamp(t)[0] == '+' && |w.stamp(u)| > 0 && '0' <= w.stamp(u)[0] <= '9'
    ensures !VersionsSort(w, k, policy, later, sooner)
  {
  }
}
