/** What a chunk leaves stored: at every key the greatest op, by the type's policy, of those it held and those that
    were applied or left unchanged. */
module ApplyConverges {
  import opened Basics
  import opened Policy
  import opened Apply
  import opened ApplyCopies
  import opened ApplyPasses
  import opened ApplyMeans

  /** The decision stamp of an op: its version when it has one. */
  ghost function StampText(op: Op): Text {
    match op.claim.metaVersion
    case Some(version) => version
    case None => op.claim.hlc
  }

  /** Ops of one decision: they say the same under one stamp. */
  ghost predicate OneDecision(a: Op, b: Op) {
    a.contentDigest == b.contentDigest && StampText(a) == StampText(b)
  }

  /** The policy ranks ops of one decision alike. */
  ghost predicate RanksAsOne(k: Clock, policy: MergePolicy, ops: set<Op>) {
    forall a, b :: a in ops && b in ops && OneDecision(a, b) ==>
      (Orderable(k, policy, a) ==> Orderable(k, policy, b) && PolicyOrder(k, policy, a, b) == 0)
  }

  /** A decision as a store holds it: every copy verifies and carries it. */
  ghost predicate WellHeld(store: Store, key: Key) {
    key in store ==>
      var held := store[key];
      held.copies != [] && forall copy :: copy in held.copies ==>
        copy.op.Some? && copy.op.value.key == key && copy.op.value.op.opHash == copy.opHash
        && copy.op.value.op.contentDigest == held.contentDigest && StampText(copy.op.value.op) == held.decisionHLC
  }

  ghost function HeldOps(store: Store, key: Key): set<Op> {
    if key in store then set copy | copy in store[key].copies && copy.op.Some? :: copy.op.value.op else {}
  }

  /** The ops of the candidates for a key. */
  ghost function OpsFor(candidates: seq<Candidate>, key: Key): set<Op> {
    set c | c in candidates && c.signed.key == key :: c.signed.op
  }

  /** The op a store stands on at a key is one of `ops`, and ranks at least as high as each the policy can order. */
  ghost predicate StandsTop(k: Clock, policy: MergePolicy, store: Store, key: Key, ops: set<Op>) {
    && WellHeld(store, key) && HeldOps(store, key) <= ops
    && (FirstOp(store, key).None? ==> ops == {})
    && (FirstOp(store, key).Some? ==>
      var top := FirstOp(store, key).value.op;
      top in ops && forall op :: op in ops && Orderable(k, policy, op) ==> Orderable(k, policy, top) && AtLeast(k, policy, top, op))
  }

  /** A record's own hash is its op's, and it is of a type that is known. */
  ghost predicate Arrives(env: Env, candidate: Candidate) {
    Known(env, candidate) && candidate.opHash == candidate.signed.op.opHash
  }

  lemma DecidedOn(store: Store, key: Key)
    requires WellHeld(store, key) && key in store
    ensures FirstOp(store, key).Some? && FirstOp(store, key).value.op in HeldOps(store, key)
    ensures FirstOp(store, key).value.op.contentDigest == store[key].contentDigest && StampText(FirstOp(store, key).value.op) == store[key].decisionHLC
  {
    var copy := store[key].copies[0];
    assert copy in store[key].copies;
  }

  /** An op of the decision held ranks as what it stands on does. */
  lemma SameTop(k: Clock, policy: MergePolicy, store: Store, key: Key, ops: set<Op>, all: set<Op>, other: Op)
    requires StandsTop(k, policy, store, key, ops) && key in store && ops <= all && RanksAsOne(k, policy, all) && other in all
    requires other.contentDigest == store[key].contentDigest && StampText(other) == store[key].decisionHLC
    ensures forall op :: op in ops + {other} && Orderable(k, policy, op) ==> Orderable(k, policy, other) && AtLeast(k, policy, other, op)
    ensures var top := FirstOp(store, key); top.Some? && (Orderable(k, policy, other) ==> Orderable(k, policy, top.value.op) && AtLeast(k, policy, top.value.op, other))
  {
    hide AtLeast, Orderable, PolicyOrder;
    DecidedOn(store, key);
    var top := FirstOp(store, key).value.op;
    assert OneDecision(top, other) && OneDecision(other, top);
    AlikeRank(k, policy, top, other);
    forall op | op in ops + {other} && Orderable(k, policy, op) ensures Orderable(k, policy, other) && AtLeast(k, policy, other, op) {
      if op == other {
        OrderTotal(k, policy, other, other);
      } else {
        AtLeastTransitive(k, policy, other, top, op);
      }
    }
  }

  lemma AlikeRank(k: Clock, policy: MergePolicy, a: Op, b: Op)
    requires a.contentDigest == b.contentDigest
    requires Orderable(k, policy, a) ==> Orderable(k, policy, b) && PolicyOrder(k, policy, a, b) == 0
    requires Orderable(k, policy, b) ==> Orderable(k, policy, a) && PolicyOrder(k, policy, b, a) == 0
    ensures Orderable(k, policy, a) ==> AtLeast(k, policy, a, b) && AtLeast(k, policy, b, a)
  {
  }

  // ---------------------------------------------------------------- one candidate

  /** A candidate left unchanged ranks no higher than what is stored. */
  lemma {:induction false} UnchangedKeepsTop(env: Env, store: Store, c: Candidate, ops: set<Op>, all: set<Op>)
    requires Arrives(env, c) && OutcomeOf(env, store, c).NoChange?
    requires var policy := env.types[c.signed.key.kind].policy;
      && StandsTop(env.clock, policy, store, c.signed.key, ops) && RanksAsOne(env.clock, policy, all)
    requires ops + {c.signed.op} <= all && HashesIdentify(all)
    ensures StandsTop(env.clock, env.types[c.signed.key.kind].policy, store, c.signed.key, ops + {c.signed.op})
  {
    hide AtLeast, Orderable, PolicyOrder, OutcomeOf, Ready, OwnerStands, Authorized, PayloadDue;
    var k, policy, key, op := env.clock, env.types[c.signed.key.kind].policy, c.signed.key, c.signed.op;
    OutcomeMeans(env, store, c);
    if HoldsIt(store, c) {
      var copy :| copy in store[key].copies && copy.opHash == c.opHash;
      assert copy.op.value.op in HeldOps(store, key);
      assert copy.op.value.op == op;
      SameTop(k, policy, store, key, ops, all, op);
    }
  }

  lemma RememberedFrom(copies: seq<Copy>, copy: Copy)
    ensures forall x :: x in Remember(copies, copy) ==> x in copies || x == copy
    ensures copies != [] ==> Remember(copies, copy) != []
  {
    RetainedMembers(copies, copy);
  }

  /** A candidate applied as one more copy leaves the decision where it was. */
  lemma {:induction false} CopyKeepsTop(env: Env, store: Store, c: Candidate, ops: set<Op>, all: set<Op>)
    requires Arrives(env, c) && OutcomeOf(env, store, c).Applied? && IsCopyOf(store, c)
    requires var policy := env.types[c.signed.key.kind].policy;
      && StandsTop(env.clock, policy, store, c.signed.key, ops) && RanksAsOne(env.clock, policy, all)
    requires ops + {c.signed.op} <= all
    ensures StandsTop(env.clock, env.types[c.signed.key.kind].policy, StoreAfter(env, store, c), c.signed.key, ops + {c.signed.op})
  {
    hide AtLeast, Orderable, PolicyOrder, OutcomeOf, Remember;
    var k, policy, key, op := env.clock, env.types[c.signed.key.kind].policy, c.signed.key, c.signed.op;
    AppliedLeaves(env, store, c);
    var copies, after := store[key].copies, StoreAfter(env, store, c);
    RememberedFrom(copies, CopyOf(c));
    var first := after[key].copies[0];
    assert first in after[key].copies;
    assert first in copies || first == CopyOf(c);
    var top := first.op.value.op;
    assert first in copies ==> top in HeldOps(store, key);
    SameTop(k, policy, store, key, ops, all, op);
    SameTop(k, policy, store, key, ops, all, top);
    TopOver(k, policy, store, key, ops, all, op, top);
  }

  /** Two ops of the decision held: either ranks as high as the other, and as all that it does. */
  lemma TopOver(k: Clock, policy: MergePolicy, store: Store, key: Key, ops: set<Op>, all: set<Op>, op: Op, top: Op)
    requires StandsTop(k, policy, store, key, ops) && key in store && ops + {op, top} <= all && RanksAsOne(k, policy, all)
    requires top.contentDigest == op.contentDigest == store[key].contentDigest && StampText(op) == StampText(top) == store[key].decisionHLC
    ensures forall x :: x in ops + {op} && Orderable(k, policy, x) ==> Orderable(k, policy, top) && AtLeast(k, policy, top, x)
  {
    hide AtLeast, Orderable, PolicyOrder;
    SameTop(k, policy, store, key, ops, all, op);
    SameTop(k, policy, store, key, ops, all, top);
    assert OneDecision(top, op) && OneDecision(op, top);
    AlikeRank(k, policy, top, op);
  }

  /** A candidate applied over what was stored is the new top. */
  lemma {:induction false} WinnerTakesTop(env: Env, store: Store, c: Candidate, ops: set<Op>)
    requires Arrives(env, c) && OutcomeOf(env, store, c).Applied? && !IsCopyOf(store, c)
    requires StandsTop(env.clock, env.types[c.signed.key.kind].policy, store, c.signed.key, ops)
    ensures StandsTop(env.clock, env.types[c.signed.key.kind].policy, StoreAfter(env, store, c), c.signed.key, ops + {c.signed.op})
  {
    hide AtLeast, Orderable, PolicyOrder, OutcomeOf, Remember, Stopped;
    var k, policy, key, op := env.clock, env.types[c.signed.key.kind].policy, c.signed.key, c.signed.op;
    AppliedLeaves(env, store, c);
    OutcomeMeans(env, store, c);
    var after := StoreAfter(env, store, c);
    assert after[key].copies == [CopyOf(c)];
    OrderTotal(k, policy, op, op);
    if FirstOp(store, key).Some? && Orderable(k, policy, FirstOp(store, key).value.op) {
      var top := FirstOp(store, key).value.op;
      OrderTotal(k, policy, op, top);
      forall x | x in ops && Orderable(k, policy, x) ensures AtLeast(k, policy, op, x) {
        AtLeastTransitive(k, policy, op, top, x);
      }
    }
  }

  /** A candidate for another key, or one that neither applies nor is left unchanged, changes nothing here. */
  lemma ElsewhereKeepsTop(env: Env, store: Store, c: Candidate, key: Key, policy: MergePolicy, ops: set<Op>)
    requires Known(env, c) && StandsTop(env.clock, policy, store, key, ops)
    requires c.signed.key != key || !OutcomeOf(env, store, c).Applied?
    ensures StandsTop(env.clock, policy, StoreAfter(env, store, c), key, ops)
  {
    hide AtLeast, Orderable, OutcomeOf;
    var after := StoreAfter(env, store, c);
    assert key in after <==> key in store;
    assert key in store ==> after[key] == store[key];
  }

  // ---------------------------------------------------------------- passes

  /** What a chunk has taken account of at a key. */
  ghost function SettledOps(a: Account, key: Key): set<Op> {
    OpsFor(a.applied, key) + OpsFor(a.noops, key)
  }

  lemma OpsMore(candidates: seq<Candidate>, c: Candidate, key: Key)
    ensures OpsFor(candidates + [c], key) == OpsFor(candidates, key) + if c.signed.key == key then {c.signed.op} else {}
  {
    forall x ensures x in OpsFor(candidates + [c], key) <==> x in OpsFor(candidates, key) || (c.signed.key == key && x == c.signed.op) {
      if x in OpsFor(candidates, key) {
        var d :| d in candidates && d.signed.key == key && d.signed.op == x;
        assert d in candidates + [c];
      }
      if c.signed.key == key && x == c.signed.op {
        assert c in candidates + [c];
      }
    }
  }

  lemma OpsBoth(a: seq<Candidate>, b: seq<Candidate>, key: Key)
    ensures OpsFor(a + b, key) == OpsFor(a, key) + OpsFor(b, key)
  {
    forall x ensures x in OpsFor(a + b, key) <==> x in OpsFor(a, key) || x in OpsFor(b, key) {
      if x in OpsFor(a, key) {
        var d :| d in a && d.signed.key == key && d.signed.op == x;
        assert d in a + b;
      }
      if x in OpsFor(b, key) {
        var d :| d in b && d.signed.key == key && d.signed.op == x;
        assert d in a + b;
      }
    }
  }

  /** Ops that a policy and a hash tell apart as they should. */
  ghost predicate Consistent(k: Clock, policy: MergePolicy, ops: set<Op>) {
    HashesIdentify(ops) && RanksAsOne(k, policy, ops)
  }

  lemma {:induction false} EnteredKeepsTop(env: Env, a: Account, c: Candidate, key: Key, base: set<Op>, all: set<Op>)
    requires Arrives(env, c) && key.kind in env.types
    requires var policy := env.types[key.kind].policy;
      StandsTop(env.clock, policy, a.store, key, base + SettledOps(a, key)) && Consistent(env.clock, policy, all)
    requires base + SettledOps(a, key) <= all && (c.signed.key == key ==> c.signed.op in all)
    ensures StandsTop(env.clock, env.types[key.kind].policy, Entered(env, a, c).store, key, base + SettledOps(Entered(env, a, c), key))
  {
    hide StandsTop, OutcomeOf, IsCopyOf, RanksAsOne, HashesIdentify;
    var ops, b := base + SettledOps(a, key), Entered(env, a, c);
    var outcome := OutcomeOf(env, a.store, c);
    OpsMore(a.applied, c, key);
    OpsMore(a.noops, c, key);
    assert b.store == StoreAfter(env, a.store, c);
    if c.signed.key == key && outcome.NoChange? {
      UnchangedKeepsTop(env, a.store, c, ops, all);
      assert base + SettledOps(b, key) == ops + {c.signed.op};
    } else if c.signed.key == key && outcome.Applied? {
      if IsCopyOf(a.store, c) {
        CopyKeepsTop(env, a.store, c, ops, all);
      } else {
        WinnerTakesTop(env, a.store, c, ops);
      }
      assert base + SettledOps(b, key) == ops + {c.signed.op};
    } else {
      ElsewhereKeepsTop(env, a.store, c, key, env.types[key.kind].policy, ops);
      assert SettledOps(b, key) == SettledOps(a, key);
    }
  }

  ghost predicate AllArrive(env: Env, candidates: seq<Candidate>) {
    forall c :: c in candidates ==> Arrives(env, c)
  }

  lemma {:induction false} PassKeepsTop(env: Env, store: Store, pending: seq<Candidate>, key: Key, base: set<Op>, all: set<Op>)
    requires AllArrive(env, pending) && AllKnown(env, pending) && key.kind in env.types
    requires var policy := env.types[key.kind].policy; StandsTop(env.clock, policy, store, key, base) && Consistent(env.clock, policy, all)
    requires base + OpsFor(pending, key) <= all
    ensures StandsTop(env.clock, env.types[key.kind].policy, Pass(env, store, pending).store, key, base + SettledOps(Pass(env, store, pending), key))
    ensures SettledOps(Pass(env, store, pending), key) <= OpsFor(pending, key)
  {
    hide StandsTop, Entered, Consistent;
    if pending == [] {
      assert SettledOps(Nothing(store), key) == {};
      assert base + {} == base;
    } else {
      var n := |pending| - 1;
      var c := pending[n];
      assert c in pending && forall x :: x in pending[..n] ==> x in pending;
      assert pending == pending[..n] + [c];
      OpsMore(pending[..n], c, key);
      PassKeepsTop(env, store, pending[..n], key, base, all);
      EnteredKeepsTop(env, Pass(env, store, pending[..n]), c, key, base, all);
      EnteredSettles(env, Pass(env, store, pending[..n]), c, key);
    }
  }

  lemma EnteredSettles(env: Env, a: Account, c: Candidate, key: Key)
    requires Known(env, c)
    ensures SettledOps(Entered(env, a, c), key) <= SettledOps(a, key) + if c.signed.key == key then {c.signed.op} else {}
  {
    hide OutcomeOf;
    OpsMore(a.applied, c, key);
    OpsMore(a.noops, c, key);
  }

  /** Passes leave at each key the greatest of what it held and what they settled there. */
  lemma {:induction false} PassesLeaveTop(env: Env, store: Store, pending: seq<Candidate>, key: Key, base: set<Op>, all: set<Op>)
    requires AllArrive(env, pending) && AllKnown(env, pending) && key.kind in env.types
    requires var policy := env.types[key.kind].policy; StandsTop(env.clock, policy, store, key, base) && Consistent(env.clock, policy, all)
    requires base + OpsFor(pending, key) <= all
    ensures StandsTop(env.clock, env.types[key.kind].policy, Passes(env, store, pending).store, key, base + SettledOps(Passes(env, store, pending), key))
    decreases |pending|
  {
    hide StandsTop, Pass, Consistent;
    var pass := Pass(env, store, pending);
    PassKeepsTop(env, store, pending, key, base, all);
    if pass.parked != [] && pass.applied != [] {
      ParkedFrom(env, store, pending);
      OpsWithin(pass.parked, pending, key);
      var rest := Passes(env, pass.store, pass.parked);
      PassesLeaveTop(env, pass.store, pass.parked, key, base + SettledOps(pass, key), all);
      OpsBoth(pass.applied, rest.applied, key);
      OpsBoth(pass.noops, rest.noops, key);
      assert base + SettledOps(pass, key) + SettledOps(rest, key) == base + SettledOps(Passes(env, store, pending), key);
    }
  }

  lemma OpsWithin(some: seq<Candidate>, all: seq<Candidate>, key: Key)
    requires forall c :: c in some ==> c in all
    ensures OpsFor(some, key) <= OpsFor(all, key)
  {
  }
}
