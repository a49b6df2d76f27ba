/** Convergence of a whole chunk, and the one way it can fail. */
module ChunkConverges {
  import opened Basics
  import opened Policy
  import opened Apply
  import opened ApplyMeans
  import opened ApplyChunk
  import opened ApplyConverges

  lemma {:induction false} HeldStandsTop(k: Clock, policy: MergePolicy, store: Store, key: Key)
    requires WellHeld(store, key) && RanksAsOne(k, policy, HeldOps(store, key))
    ensures StandsTop(k, policy, store, key, HeldOps(store, key))
  {
    hide AtLeast, Orderable, PolicyOrder;
    if key in store {
      DecidedOn(store, key);
      var top := FirstOp(store, key).value.op;
      forall op | op in HeldOps(store, key) && Orderable(k, policy, op) ensures Orderable(k, policy, top) && AtLeast(k, policy, top, op) {
        assert OneDecision(top, op) && OneDecision(op, top);
        AlikeRank(k, policy, top, op);
      }
    }
  }

  /** At the key of any candidate, a chunk leaves the greatest op, by the type's policy, of those held there before and
      those of the candidates it applied or left unchanged. */
  lemma {:induction false} ChunkLeavesGreatest(env: Env, ranks: map<int, nat>, store: Store, candidates: seq<Candidate>, key: Key)
    requires AllArrive(env, candidates) && AllKnown(env, candidates) && key.kind in env.types
    requires WellHeld(store, key) && exists c :: c in candidates && c.signed.key == key
    requires Consistent(env.clock, env.types[key.kind].policy, HeldOps(store, key) + OpsFor(candidates, key))
    ensures AllKnown(env, SortedByRank(env, ranks, candidates))
    ensures var a := Passes(env, Consulted(store, candidates), SortedByRank(env, ranks, candidates));
      StandsTop(env.clock, env.types[key.kind].policy, a.store, key, HeldOps(store, key) + SettledOps(a, key))
  {
    hide StandsTop, Passes, SortedByRank, InRankOrder, RanksAsOne, HashesIdentify;
    var view, sorted, policy := Consulted(store, candidates), SortedByRank(env, ranks, candidates), env.types[key.kind].policy;
    SortedInOrder(env, ranks, candidates);
    KnownInOrder(env, ranks, sorted);
    SameMembers(candidates, sorted);
    OpsWithin(sorted, candidates, key);
    ConsultedThere(store, candidates, key);
    FewerConsistent(env.clock, policy, HeldOps(store, key), HeldOps(store, key) + OpsFor(candidates, key));
    HeldStandsTop(env.clock, policy, view, key);
    PassesLeaveTop(env, view, sorted, key, HeldOps(store, key), HeldOps(store, key) + OpsFor(candidates, key));
  }

  lemma ConsultedThere(store: Store, candidates: seq<Candidate>, key: Key)
    requires exists c :: c in candidates && c.signed.key == key
    ensures var view := Consulted(store, candidates);
      (key in view <==> key in store) && (key in store ==> view[key] == store[key])
      && HeldOps(view, key) == HeldOps(store, key) && (WellHeld(view, key) <==> WellHeld(store, key))
  {
    var c :| c in candidates && c.signed.key == key;
    assert key in KeysOf(c);
  }

  lemma FewerConsistent(k: Clock, policy: MergePolicy, some: set<Op>, all: set<Op>)
    requires some <= all && Consistent(k, policy, all)
    ensures RanksAsOne(k, policy, some)
  {
  }

  /** Two stores that stand on the greatest of the same ops stand on one decision. */
  lemma OneTop(k: Clock, policy: MergePolicy, a: Store, b: Store, key: Key, ops: set<Op>)
    requires StandsTop(k, policy, a, key, ops) && StandsTop(k, policy, b, key, ops)
    requires exists op :: op in ops && Orderable(k, policy, op)
    ensures var x, y := FirstOp(a, key), FirstOp(b, key);
      && x.Some? && y.Some? && Orderable(k, policy, x.value.op) && Orderable(k, policy, y.value.op)
      && PolicyOrder(k, policy, x.value.op, y.value.op) == 0 && x.value.op.contentDigest == y.value.op.contentDigest
  {
    hide Orderable;
    var op :| op in ops && Orderable(k, policy, op);
    OrderTotal(k, policy, FirstOp(a, key).value.op, FirstOp(b, key).value.op);
  }

  // ---------------------------------------------------------------- the store a candidate met

  /** A store that a candidate was weighed against, in some pass. */
  ghost predicate Met(env: Env, store: Store, pending: seq<Candidate>, c: Candidate, met: Store)
    requires AllKnown(env, pending)
    decreases |pending|
  {
    var pass := Pass(env, store, pending);
    || (exists i :: 0 <= i < |pending| && pending[i] == c && MetAt(env, store, pending, i, met))
    || (pass.parked != [] && pass.applied != [] && Met(env, pass.store, pass.parked, c, met))
  }

  ghost predicate MetAt(env: Env, store: Store, pending: seq<Candidate>, i: int, met: Store)
    requires AllKnown(env, pending)
  {
    0 <= i < |pending| && AllKnown(env, pending[..i]) && met == Pass(env, store, pending[..i]).store
  }

  lemma {:induction false} AppliedMet(env: Env, store: Store, pending: seq<Candidate>, c: Candidate) returns (i: nat)
    requires AllKnown(env, pending) && c in Pass(env, store, pending).applied
    ensures i < |pending| && pending[i] == c && AllKnown(env, pending[..i]) && OutcomeOf(env, Pass(env, store, pending[..i]).store, c).Applied?
  {
    hide OutcomeOf;
    var n := |pending| - 1;
    assert forall x :: x in pending[..n] ==> x in pending;
    var before := Pass(env, store, pending[..n]);
    if c in before.applied {
      i := AppliedMet(env, store, pending[..n], c);
      assert pending[..n][..i] == pending[..i];
    } else {
      i := n;
    }
  }

  /** Every candidate a chunk applies was, on a store it met, accepted by its type's authorizer, ready, of the stored
      owner unless the policy settles owners, with the payload it signs for; and it outranked what was stored there or
      is one more copy of that decision. */
  lemma {:induction false} AppliedRightly(env: Env, store: Store, pending: seq<Candidate>, c: Candidate) returns (met: Store)
    requires AllKnown(env, pending) && c in Passes(env, store, pending).applied
    ensures Known(env, c) && Met(env, store, pending, c, met)
    ensures Authorized(env, met, c) && Ready(env, met, c) && OwnerStands(env, met, c) && c.payloadMatches && !HoldsIt(met, c)
    ensures IsCopyOf(met, c) || Outranks(env, met, c)
    decreases |pending|
  {
    hide Pass, Authorized, Ready, OwnerStands, IsCopyOf, Outranks, HoldsIt, OutcomeOf;
    var pass := Pass(env, store, pending);
    if c in pass.applied {
      var i := AppliedMet(env, store, pending, c);
      met := Pass(env, store, pending[..i]).store;
      assert MetAt(env, store, pending, i, met) && pending[i] == c && c in pending;
      OutcomeMeans(env, met, c);
    } else {
      met := AppliedRightly(env, pass.store, pass.parked, c);
    }
  }

  // ---------------------------------------------------------------- where it fails

  /** A candidate that nothing but the policy can stop, on whatever store. */
  ghost predicate Free(env: Env, c: Candidate) {
    && Arrives(env, c) && c.dependencies == [] && c.payloadMatches
    && forall met :: Authorized(env, met, c)
  }

  /** The second is kept in place of the first, not beside it: one signer, and it sorts first. */
  ghost predicate Replaces(first: Candidate, second: Candidate) {
    first.signer.Some? && second.signer == first.signer && second.opHash < first.opHash
  }

  /** Two candidates that arrive one after the other where nothing is held leave the greater stored, unless they are
      copies of one decision which the policy nevertheless ranks apart, and the copy kept first is the lesser. */
  lemma {:induction false} PairConverges(env: Env, store: Store, first: Candidate, second: Candidate)
    requires Free(env, first) && Free(env, second) && first.signed.key == second.signed.key && first.signed.key !in store
    requires first.opHash != second.opHash
    requires var policy := env.types[first.signed.key.kind].policy;
      Orderable(env.clock, policy, first.signed.op) && Orderable(env.clock, policy, second.signed.op)
    ensures AllKnown(env, [first, second])
    ensures var policy, x, y := env.types[first.signed.key.kind].policy, first.signed.op, second.signed.op;
      StandsTop(env.clock, policy, Pass(env, store, [first, second]).store, first.signed.key, {x, y}) <==>
        (OneDecision(x, y) ==>
          if Replaces(first, second) then PolicyOrder(env.clock, policy, y, x) >= 0 else PolicyOrder(env.clock, policy, x, y) >= 0)
  {
    hide OutcomeOf, Orderable, AtLeast, PolicyOrder, Remember, StandsTop, HeldOps, WellHeld;
    var k, policy, key := env.clock, env.types[first.signed.key.kind].policy, first.signed.key;
    var x, y, after := first.signed.op, second.signed.op, StoreAfter(env, store, first);
    BothEnter(env, store, first, second);
    FirstApplies(env, store, first);
    OutcomeMeans(env, after, second);
    assert IsCopyOf(after, second) <==> OneDecision(x, y);
    if IsCopyOf(after, second) {
      PairOfCopies(env, after, first, second);
    } else {
      AloneAlike(k, policy, x, y);
      assert {x} + {y} == {x, y};
      if OutcomeOf(env, after, second).Applied? {
        WinnerTakesTop(env, after, second, {x});
      } else {
        UnchangedKeepsTop(env, after, second, {x}, {x, y});
      }
    }
  }

  lemma AloneAlike(k: Clock, policy: MergePolicy, x: Op, y: Op)
    requires x.opHash != y.opHash && !OneDecision(x, y)
    ensures HashesIdentify({x, y}) && RanksAsOne(k, policy, {x, y})
  {
    if Orderable(k, policy, x) {
      OrderTotal(k, policy, x, x);
    }
    if Orderable(k, policy, y) {
      OrderTotal(k, policy, y, y);
    }
  }

  lemma {:induction false} FirstApplies(env: Env, store: Store, first: Candidate)
    requires Free(env, first) && first.signed.key !in store
    requires Orderable(env.clock, env.types[first.signed.key.kind].policy, first.signed.op)
    ensures var after, key, op := StoreAfter(env, store, first), first.signed.key, first.signed.op;
      && key in after && after[key] == Held(StampText(op), op.contentDigest, [CopyOf(first)])
      && StandsTop(env.clock, env.types[key.kind].policy, after, key, {op})
      && (OutcomeOf(env, store, first).Applied? && FirstOp(after, key) == Some(first.signed))
  {
    hide OutcomeOf, Orderable, AtLeast;
    assert Authorized(env, store, first);
    OutcomeMeans(env, store, first);
    AppliedLeaves(env, store, first);
    OrderTotal(env.clock, env.types[first.signed.key.kind].policy, first.signed.op, first.signed.op);
  }

  lemma BothEnter(env: Env, store: Store, first: Candidate, second: Candidate)
    requires Known(env, first) && Known(env, second)
    ensures AllKnown(env, [first, second])
    ensures Pass(env, store, [first, second]).store == StoreAfter(env, StoreAfter(env, store, first), second)
  {
    hide OutcomeOf;
    assert [first, second][..1] == [first] && [first][..0] == [];
    assert Pass(env, store, [first]) == Entered(env, Nothing(store), first);
  }

  /** Of two copies of one decision the one kept first is the one it stands on. */
  lemma {:induction false} PairOfCopies(env: Env, after: Store, first: Candidate, second: Candidate)
    requires Free(env, second) && first.signed.key == second.signed.key && first.opHash != second.opHash && Known(env, first)
    requires first.opHash == first.signed.op.opHash
    requires var key, x := first.signed.key, first.signed.op;
      key in after && after[key] == Held(StampText(x), x.contentDigest, [CopyOf(first)]) && IsCopyOf(after, second)
    requires var policy := env.types[first.signed.key.kind].policy;
      Orderable(env.clock, policy, first.signed.op) && Orderable(env.clock, policy, second.signed.op)
    ensures var policy, x, y := env.types[first.signed.key.kind].policy, first.signed.op, second.signed.op;
      StandsTop(env.clock, policy, StoreAfter(env, after, second), first.signed.key, {x, y}) <==>
        if Replaces(first, second) then PolicyOrder(env.clock, policy, y, x) >= 0 else PolicyOrder(env.clock, policy, x, y) >= 0
  {
    hide OutcomeOf, Orderable, PolicyOrder, AtLeast, Remember, StandsTop;
    var k, policy, key, x, y := env.clock, env.types[first.signed.key.kind].policy, first.signed.key, first.signed.op, second.signed.op;
    assert Authorized(env, after, second);
    OutcomeMeans(env, after, second);
    AppliedLeaves(env, after, second);
    TwoCopies(CopyOf(first), CopyOf(second));
    TopOfTwo(k, policy, StoreAfter(env, after, second), first, second);
    TiedByDigest(k, policy, x, y);
  }

  /** Of two ops of one content the policy's order alone says which ranks at least as high. */
  lemma TiedByDigest(k: Clock, policy: MergePolicy, x: Op, y: Op)
    requires Orderable(k, policy, x) && Orderable(k, policy, y) && x.contentDigest == y.contentDigest
    ensures AtLeast(k, policy, x, y) <==> PolicyOrder(k, policy, x, y) >= 0
    ensures AtLeast(k, policy, y, x) <==> PolicyOrder(k, policy, y, x) >= 0
  {
    hide Orderable, PolicyOrder;
  }

  lemma TopOfTwo(k: Clock, policy: MergePolicy, store: Store, first: Candidate, second: Candidate)
    requires first.signed.key == second.signed.key && first.opHash == first.signed.op.opHash && second.opHash == second.signed.op.opHash
    requires Orderable(k, policy, first.signed.op) && Orderable(k, policy, second.signed.op) && OneDecision(first.signed.op, second.signed.op)
    requires var key, x := first.signed.key, first.signed.op;
      && key in store && store[key].contentDigest == x.contentDigest && store[key].decisionHLC == StampText(x)
      && store[key].copies == if first.signer.None? || second.signer != first.signer then [CopyOf(first), CopyOf(second)]
        else if second.opHash < first.opHash then [CopyOf(second)] else [CopyOf(first)]
    ensures var x, y := first.signed.op, second.signed.op;
      StandsTop(k, policy, store, first.signed.key, {x, y}) <==>
        if Replaces(first, second) then AtLeast(k, policy, y, x) else AtLeast(k, policy, x, y)
  {
    hide Orderable, AtLeast;
    var x, y := first.signed.op, second.signed.op;
    OrderTotal(k, policy, x, x);
    OrderTotal(k, policy, y, y);
    var copies := store[first.signed.key].copies;
    assert copies[0].op.value.op == if Replaces(first, second) then y else x;
  }

  lemma TwoCopies(a: Copy, b: Copy)
    requires a.op.Some? && b.op.Some? && a.opHash != b.opHash
    ensures Remember([a], b) ==
      if a.signer.None? || b.signer != a.signer then [a, b] else if b.opHash < a.opHash then [b] else [a]
  {
    assert [a][..0] == [];
    assert Retained([], b) == [];
  }

  /** A `lww` type whose claims carry a version: two signers sign the same at two times. Whichever comes first is what the
      record stands on, so the two orders leave ops of different rank. */
  lemma {:induction false} CopiesRankedApart() returns (env: Env, first: Candidate, second: Candidate)
    ensures Free(env, first) && Free(env, second) && first.signed.key == second.signed.key && first.opHash != second.opHash
    ensures env.types[first.signed.key.kind].policy == LWW && OneDecision(first.signed.op, second.signed.op)
    ensures var both := {first.signed.op, second.signed.op};
      && !StandsTop(env.clock, LWW, Pass(env, map[], [first, second]).store, first.signed.key, both)
      && StandsTop(env.clock, LWW, Pass(env, map[], [second, first]).store, first.signed.key, both)
  {
    hide Pass, StandsTop;
    env := Env(Clock(t => Some(t), n => n), map[0 := TypeDefinition(LWW, [], (c, store) => true, (a, b) => Resolve, false)], (want, op) => true);
    var key := Key(0, 0, 0);
    first := Candidate(1, SignedOp(key, Op(Claim(1, Some(7), 0), 1, 0)), Some(1), true, []);
    second := Candidate(2, SignedOp(key, Op(Claim(5, Some(7), 0), 2, 0)), Some(2), true, []);
    PairConverges(env, map[], first, second);
    PairConverges(env, map[], second, first);
    assert {first.signed.op, second.signed.op} == {second.signed.op, first.signed.op};
  }
}
