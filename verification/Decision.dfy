/** The batch form of the merge: one decision out of all the verified copies held for a record. */
module Decision {
  import opened Basics
  import opened Policy

  /** A signed copy is known here by its op's hash. */
  datatype VerifiedCopy = VerifiedCopy(copy: Hash, op: Op)

  datatype StampSource = FromHlc | FromVersion

  datatype RecordDecision = RecordDecision(decisionHLC: Text, contentDigest: Hash, copies: seq<Hash>)

  function DecisionStamp(op: Op, source: StampSource): Option<Text> {
    if source == FromHlc then Some(op.claim.hlc) else op.claim.metaVersion
  }

  /** The canonical stamp a copy decides by, if it has one. */
  function StampOf(k: Clock, op: Op, source: StampSource): Option<int> {
    var text := DecisionStamp(op, source);
    if text.None? then None else k.stamp(text.value)
  }

  predicate Outdone(k: Clock, source: StampSource, op: Op, stamp: int, contentDigest: Hash) {
    StampOf(k, op, source).Some? ==>
      StampOf(k, op, source).value < stamp || (StampOf(k, op, source).value == stamp && op.contentDigest <= contentDigest)
  }

  predicate Chosen(op: Op, source: StampSource, decisionHLC: Text, contentDigest: Hash) {
    DecisionStamp(op, source) == Some(decisionHLC) && op.contentDigest == contentDigest
  }

  /** The hashes of the copies that carry a decision. */
  function CopiesOf(entries: seq<VerifiedCopy>, source: StampSource, decisionHLC: Text, contentDigest: Hash): multiset<Hash> {
    if entries == [] then multiset{}
    else
      var n := |entries| - 1;
      var rest := CopiesOf(entries[..n], source, decisionHLC, contentDigest);
      if Chosen(entries[n].op, source, decisionHLC, contentDigest) then rest + multiset{entries[n].copy} else rest
  }

  predicate Sorted(copies: seq<Hash>) {
    forall i, j :: 0 <= i < j < |copies| ==> copies[i] <= copies[j]
  }

  /** The decision is the greatest stamp any copy carries, then the greatest content digest under it, with
      every copy that carries both; there is none when no copy has a canonical stamp. */
  ghost predicate IsDecision(k: Clock, entries: seq<VerifiedCopy>, source: StampSource, d: Option<RecordDecision>) {
    match d
    case None => forall x :: x in entries ==> StampOf(k, x.op, source).None?
    case Some(r) =>
      && k.stamp(r.decisionHLC).Some?
      && (exists x :: x in entries && Chosen(x.op, source, r.decisionHLC, r.contentDigest))
      && (forall x :: x in entries ==> Outdone(k, source, x.op, k.stamp(r.decisionHLC).value, r.contentDigest))
      && Sorted(r.copies) && multiset(r.copies) == CopiesOf(entries, source, r.decisionHLC, r.contentDigest)
  }

  /** Insert keeping the order, as sorting does one element at a time. */
  method InsertCopy(sorted: seq<Hash>, x: Hash) returns (r: seq<Hash>)
    requires Sorted(sorted)
    ensures Sorted(r) && multiset(r) == multiset(sorted) + multiset{x}
  {
    var i := |sorted|;
    while i > 0 && x < sorted[i - 1]
      invariant 0 <= i <= |sorted| && forall j :: i <= j < |sorted| ==> x < sorted[j]
    {
      i := i - 1;
    }
    r := sorted[..i] + [x] + sorted[i..];
    InsertedRight(sorted, i, x);
  }

  lemma InsertedRight(sorted: seq<Hash>, i: nat, x: Hash)
    requires i <= |sorted| && Sorted(sorted)
    requires (forall j :: i <= j < |sorted| ==> x < sorted[j]) && (i > 0 ==> sorted[i - 1] <= x)
    ensures var r := sorted[..i] + [x] + sorted[i..];
      Sorted(r) && multiset(r) == multiset(sorted) + multiset{x}
  {
    var r := sorted[..i] + [x] + sorted[i..];
    assert multiset(r) == multiset(sorted) + multiset{x} by {
      assert sorted == sorted[..i] + sorted[i..];
    }
    forall p, q | 0 <= p < q < |r| ensures r[p] <= r[q] {
      if q < i {
        assert sorted[p] <= sorted[q];
      } else if q == i {
        assert p == i - 1 || sorted[p] <= sorted[i - 1];
      } else if p > i {
        assert sorted[p - 1] <= sorted[q - 1];
      } else if p < i {
        assert p == q - 1 || sorted[p] <= sorted[q - 1];
      }
    }
  }

  /** The winner among the first `n` copies. */
  ghost predicate IsWinner(k: Clock, entries: seq<VerifiedCopy>, source: StampSource, n: nat, winner: Option<(Text, Hash)>)
    requires n <= |entries|
  {
    match winner
    case None => forall j :: 0 <= j < n ==> StampOf(k, entries[j].op, source).None?
    case Some((text, digest)) =>
      && k.stamp(text).Some?
      && (exists x :: x in entries && Chosen(x.op, source, text, digest))
      && (forall j :: 0 <= j < n ==> Outdone(k, source, entries[j].op, k.stamp(text).value, digest))
  }

  method WinnerAmong(k: Clock, entries: seq<VerifiedCopy>, source: StampSource) returns (winner: Option<(Text, Hash)>)
    requires Canonical(k)
    ensures IsWinner(k, entries, source, |entries|, winner)
  {
    winner := None;
    for i := 0 to |entries|
      invariant IsWinner(k, entries, source, i, winner)
    {
      var op := entries[i].op;
      var text := DecisionStamp(op, source);
      if text.None? || k.stamp(text.value).None? {
        continue;
      }
      assert k.textAt(k.stamp(text.value).value) == text.value;
      if winner.None? || k.stamp(text.value).value > k.stamp(winner.value.0).value
        || (text.value == winner.value.0 && op.contentDigest > winner.value.1) {
        winner := Some((text.value, op.contentDigest));
        assert entries[i] in entries && Chosen(entries[i].op, source, winner.value.0, winner.value.1);
      }
    }
  }

  method RecordDecisionFromVerifiedCopies(k: Clock, entries: seq<VerifiedCopy>, source: StampSource) returns (d: Option<RecordDecision>)
    requires Canonical(k)
    ensures IsDecision(k, entries, source, d)
  {
    hide Outdone, Chosen, StampOf;
    var winner := WinnerAmong(k, entries, source);
    if winner.None? {
      return None;
    }
    var copies: seq<Hash> := [];
    for i := 0 to |entries|
      invariant Sorted(copies) && multiset(copies) == CopiesOf(entries[..i], source, winner.value.0, winner.value.1)
    {
      assert entries[..i + 1][..i] == entries[..i];
      if Chosen(entries[i].op, source, winner.value.0, winner.value.1) {
        copies := InsertCopy(copies, entries[i].copy);
      }
    }
    assert entries[..|entries|] == entries;
    d := Some(RecordDecision(winner.value.0, winner.value.1, copies));
  }

  function OpsOf(entries: seq<VerifiedCopy>): seq<Op> {
    seq(|entries|, i requires 0 <= i < |entries| => entries[i].op)
  }

  /** The batch choice is the incremental one: what `lww` leaves stored after any order of the ops is the
      decision read off all their copies at once. */
  lemma {:induction false} BatchAgrees(k: Clock, onEqual: (Op, Op) -> EqualVersion, entries: seq<VerifiedCopy>, ops: seq<Op>, d: Option<RecordDecision>)
    requires Canonical(k) && HashesIdentify(Elems(ops)) && Elems(ops) == Elems(OpsOf(entries))
    requires IsDecision(k, entries, FromHlc, d)
    ensures var stored := StoredAfter(k, LWW, onEqual, ops);
      && (stored.None? <==> d.None?)
      && (stored.Some? ==> stored.value.claim.hlc == d.value.decisionHLC && stored.value.contentDigest == d.value.contentDigest)
  {
    hide StoredAfter;
    LeavesGreatest(k, LWW, onEqual, ops);
    var stored := StoredAfter(k, LWW, onEqual, ops);
    forall x | x in entries ensures x.op in Elems(ops) {
      var i :| 0 <= i < |entries| && entries[i] == x;
      assert OpsOf(entries)[i] == x.op;
      assert x.op in Elems(OpsOf(entries));
    }
    if stored.Some? {
      assert stored.value in Elems(OpsOf(entries));
      var i :| 0 <= i < |entries| && entries[i].op == stored.value;
      assert entries[i] in entries;
      var x :| x in entries && Chosen(x.op, FromHlc, d.value.decisionHLC, d.value.contentDigest);
      assert Orderable(k, LWW, x.op) && AtLeast(k, LWW, stored.value, x.op);
      assert Outdone(k, FromHlc, entries[i].op, k.stamp(d.value.decisionHLC).value, d.value.contentDigest);
    }
  }

  /** The same of a type ordered by the stamps its versions are: what it leaves stored is the decision read off the
      versions of all copies at once, as long as its hook gives every claim a version. */
  lemma {:induction false} VersionBatchAgrees(k: Clock, policy: MergePolicy, onEqual: (Op, Op) -> EqualVersion, entries: seq<VerifiedCopy>,
      ops: seq<Op>, d: Option<RecordDecision>)
    requires policy.Monotonic? && policy.byStamp && forall op :: op in ops ==> policy.version(op.claim).Some?
    requires Canonical(k) && HashesIdentify(Elems(ops)) && Elems(ops) == Elems(OpsOf(entries))
    requires IsDecision(k, entries, FromVersion, d)
    ensures var stored := StoredAfter(k, policy, onEqual, ops);
      && (stored.None? <==> d.None?)
      && (stored.Some? ==> stored.value.claim.metaVersion == Some(d.value.decisionHLC) && stored.value.contentDigest == d.value.contentDigest)
  {
    hide StoredAfter;
    LeavesGreatest(k, policy, onEqual, ops);
    var stored := StoredAfter(k, policy, onEqual, ops);
    forall x | x in entries ensures x.op in Elems(ops) && x.op in ops {
      var i :| 0 <= i < |entries| && entries[i] == x;
      assert OpsOf(entries)[i] == x.op;
      assert x.op in Elems(OpsOf(entries));
    }
    if stored.Some? {
      assert stored.value in Elems(OpsOf(entries));
      var i :| 0 <= i < |entries| && entries[i].op == stored.value;
      assert entries[i] in entries;
      var x :| x in entries && Chosen(x.op, FromVersion, d.value.decisionHLC, d.value.contentDigest);
      assert Orderable(k, policy, x.op) && AtLeast(k, policy, stored.value, x.op);
      assert Outdone(k, FromVersion, entries[i].op, k.stamp(d.value.decisionHLC).value, d.value.contentDigest);
      assert k.textAt(k.stamp(stored.value.claim.metaVersion.value).value) == stored.value.claim.metaVersion.value;
      assert k.textAt(k.stamp(d.value.decisionHLC).value) == d.value.decisionHLC;
    }
  }
}
