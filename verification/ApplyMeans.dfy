/** What becomes of one candidate, in its own fields and the order of its type's policy. */
module ApplyMeans {
  import opened Basics
  import opened Policy
  import opened Apply

  /** The op a stored decision stands on: its first copy's, when that still verifies. */
  ghost function FirstOp(store: Store, key: Key): Option<SignedOp> {
    if key in store && |store[key].copies| > 0 then store[key].copies[0].op else None
  }

  ghost predicate HoldsIt(store: Store, candidate: Candidate) {
    candidate.signed.key in store && exists copy :: copy in store[candidate.signed.key].copies && copy.opHash == candidate.opHash
  }

  /** Each record it depends on is held in a copy that is one of that record and wanted. */
  ghost predicate Ready(env: Env, store: Store, candidate: Candidate) {
    forall d :: d in candidate.dependencies ==> d.key in store && exists copy ::
      copy in store[d.key].copies && copy.op.Some? && copy.op.value.key == d.key && env.satisfies(d.want, copy.op.value)
  }

  /** It is of the stored owner, where the policy settles no conflict of owners. */
  ghost predicate OwnerStands(env: Env, store: Store, candidate: Candidate)
    requires Known(env, candidate)
  {
    env.types[candidate.signed.key.kind].policy.Immutable? || FirstOp(store, candidate.signed.key).None?
    || FirstOp(store, candidate.signed.key).value.key.owner == candidate.signed.key.owner
  }

  /** The type's authorizer accepts it on this store. */
  ghost predicate Authorized(env: Env, store: Store, candidate: Candidate)
    requires Known(env, candidate)
  {
    env.types[candidate.signed.key.kind].authorize(candidate, store)
  }

  ghost predicate PayloadDue(env: Env, candidate: Candidate)
    requires Known(env, candidate)
  {
    env.types[candidate.signed.key.kind].checksPayloadFirst && !candidate.payloadMatches
  }

  /** One op says what another does, for the same decision stamp. */
  ghost predicate IsCopyOf(store: Store, candidate: Candidate) {
    && candidate.signed.key in store
    && store[candidate.signed.key].contentDigest == candidate.signed.op.contentDigest
    && store[candidate.signed.key].decisionHLC
      == match candidate.signed.op.claim.metaVersion case Some(version) => version case None => candidate.signed.op.claim.hlc
  }

  /** The policy ranks an op strictly above a stored one it can order, and above any it cannot. */
  ghost predicate Above(k: Clock, policy: MergePolicy, op: Op, stored: Option<Op>) {
    Orderable(k, policy, op)
    && (stored.None? || (op.opHash != stored.value.opHash && (!Orderable(k, policy, stored.value) || !AtLeast(k, policy, stored.value, op))))
  }

  ghost predicate Outranks(env: Env, store: Store, candidate: Candidate)
    requires Known(env, candidate)
  {
    var first := FirstOp(store, candidate.signed.key);
    Above(env.clock, env.types[candidate.signed.key.kind].policy, candidate.signed.op, if first.Some? then Some(first.value.op) else None)
  }

  /** The policy can order it, or it is the very op stored. */
  ghost predicate Ordered(env: Env, store: Store, candidate: Candidate)
    requires Known(env, candidate)
  {
    var first := FirstOp(store, candidate.signed.key);
    || Orderable(env.clock, env.types[candidate.signed.key.kind].policy, candidate.signed.op)
    || (first.Some? && first.value.op.opHash == candidate.signed.op.opHash)
  }

  /** Why a candidate would be refused before its merit is weighed. */
  ghost predicate Stopped(env: Env, store: Store, candidate: Candidate)
    requires Known(env, candidate)
  {
    HoldsIt(store, candidate) || !Ready(env, store, candidate) || !OwnerStands(env, store, candidate)
    || !Authorized(env, store, candidate) || PayloadDue(env, candidate)
  }

  /** What each comparison comes to, whatever the hook answers. */
  lemma ComparisonMeans(k: Clock, policy: MergePolicy, onEqual: (Op, Op) -> EqualVersion, op: Op, stored: Option<Op>)
    ensures var merge := CompareRecordOps(k, policy, onEqual, op, stored);
      && (merge.status == Reject <==> !Orderable(k, policy, op) && !(stored.Some? && stored.value.opHash == op.opHash))
      && (merge.status == Reject ==> merge.reason == Some(if policy.LWW? then HlcNotCanonical else VersionInvalid))
      && (Above(k, policy, op, stored) <==>
        merge.status == Apply || (merge.status == ForkBoth && stored.Some? && op.contentDigest > stored.value.contentDigest))
  {
    if stored.Some? && Orderable(k, policy, op) && Orderable(k, policy, stored.value) {
      OrderTotal(k, policy, op, stored.value);
    }
  }

  /** The first check that settles a candidate, and what it comes to. */
  lemma {:induction false} OutcomeMeans(env: Env, store: Store, candidate: Candidate)
    requires Known(env, candidate)
    ensures var outcome := OutcomeOf(env, store, candidate);
      var moot := HoldsIt(store, candidate);
      var barred := Stopped(env, store, candidate);
      && (outcome.Applied? <==> !barred && candidate.payloadMatches && (IsCopyOf(store, candidate) || Outranks(env, store, candidate)))
      && (outcome.NoChange? <==> moot || (!barred && !IsCopyOf(store, candidate) && Ordered(env, store, candidate) && !Outranks(env, store, candidate)))
      && (outcome.Parked? <==> !moot && !Ready(env, store, candidate))
      && (outcome == Refused(WrongOwner) <==> !moot && Ready(env, store, candidate) && !OwnerStands(env, store, candidate))
      && (outcome == Refused(Unauthorized) <==>
        !moot && Ready(env, store, candidate) && OwnerStands(env, store, candidate) && !Authorized(env, store, candidate))
      && (outcome.Refused? && outcome.reason.ByPolicy? <==> !barred && !IsCopyOf(store, candidate) && !Ordered(env, store, candidate))
      && (outcome.Refused? && outcome.reason.ByPolicy? ==>
        outcome.reason.reason == Some(if env.types[candidate.signed.key.kind].policy.LWW? then HlcNotCanonical else VersionInvalid))
  {
    hide CompareRecordOps, Above, Orderable, Remember;
    ChecksAre(env, store, candidate);
    var definition, first := env.types[candidate.signed.key.kind], FirstOp(store, candidate.signed.key);
    ComparisonMeans(env.clock, definition.policy, definition.onEqual, candidate.signed.op, if first.Some? then Some(first.value.op) else None);
  }

  lemma ChecksAre(env: Env, store: Store, candidate: Candidate)
    requires Known(env, candidate)
    ensures StoredOp(HeldOf(store, candidate.signed.key)) == FirstOp(store, candidate.signed.key)
    ensures Repeats(HeldOf(store, candidate.signed.key), candidate) <==> HoldsIt(store, candidate)
    ensures IsParked(env, store, candidate) <==> !Ready(env, store, candidate)
    ensures SameDecision(HeldOf(store, candidate.signed.key), candidate) <==> IsCopyOf(store, candidate)
  {
    if !IsParked(env, store, candidate) {
      forall d | d in candidate.dependencies
        ensures d.key in store && exists copy ::
          copy in store[d.key].copies && copy.op.Some? && copy.op.value.key == d.key && env.satisfies(d.want, copy.op.value)
      {
        assert Satisfied(env, store, d);
        var copy :| copy in store[d.key].copies && Satisfies(env, d, copy);
      }
    }
    if Ready(env, store, candidate) {
      forall d | d in candidate.dependencies ensures Satisfied(env, store, d) {
        var copy :| copy in store[d.key].copies && copy.op.Some? && copy.op.value.key == d.key && env.satisfies(d.want, copy.op.value);
        assert Satisfies(env, d, copy);
      }
    }
  }

  /** What an applied candidate leaves at its key: itself alone, or one more copy of the decision it shares. */
  lemma AppliedLeaves(env: Env, store: Store, candidate: Candidate)
    requires Known(env, candidate) && OutcomeOf(env, store, candidate).Applied?
    ensures var held, op := OutcomeOf(env, store, candidate).held, candidate.signed.op;
      && held.contentDigest == op.contentDigest
      && held.decisionHLC == (match op.claim.metaVersion case Some(version) => version case None => op.claim.hlc)
      && if IsCopyOf(store, candidate)
         then held.copies == Remember(store[candidate.signed.key].copies, Copy(candidate.opHash, Some(candidate.signed), candidate.signer))
         else held.copies == [Copy(candidate.opHash, Some(candidate.signed), candidate.signer)]
  {
    hide CompareRecordOps, Remember;
    ChecksAre(env, store, candidate);
  }

  /** A conflict is reported when a candidate that reaches the policy meets another op of equal rank, or any other
      under an immutable one: forked when the type's hook says so. */
  lemma ConflictMeans(env: Env, store: Store, candidate: Candidate)
    requires Known(env, candidate)
    ensures var definition, first, op := env.types[candidate.signed.key.kind], FirstOp(store, candidate.signed.key), candidate.signed.op;
      var outcome := OutcomeOf(env, store, candidate);
      ConflictsOf(outcome) ==
        if (outcome.Applied? || outcome.NoChange?) && !HoldsIt(store, candidate) && !IsCopyOf(store, candidate)
          && first.Some? && first.value.op.opHash != op.opHash
          && (definition.policy.Immutable? || (definition.policy.Monotonic? && Tied(env.clock, definition.policy, op, first.value.op)))
        then [Conflict(candidate, first.value.op.opHash, op.opHash, definition.policy.Monotonic? && definition.onEqual(op, first.value.op) == Fork)]
        else []
  {
    hide Remember, IsParked;
    ChecksAre(env, store, candidate);
  }

  ghost predicate Tied(k: Clock, policy: MergePolicy, a: Op, b: Op) {
    Orderable(k, policy, a) && Orderable(k, policy, b) && PolicyOrder(k, policy, a, b) == 0
  }
}
