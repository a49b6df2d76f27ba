/** What the pass loop promises. */
module ApplyPasses {
  // Every candidate ends in one place, what stays parked lacks something in the final store, and in dependency
  // order the first pass is already the last.

  import opened Policy
  import opened Ranks
  import opened Apply

  function RefusedOnes(refused: seq<(Candidate, Refusal)>): multiset<Candidate> {
    if refused == [] then multiset{} else RefusedOnes(refused[..|refused| - 1]) + multiset{refused[|refused| - 1].0}
  }

  /** Where every candidate went. */
  function Everyone(a: Account): multiset<Candidate> {
    multiset(a.applied) + multiset(a.noops) + RefusedOnes(a.refused) + multiset(a.parked)
  }

  lemma {:induction false} RefusedTogether(a: seq<(Candidate, Refusal)>, b: seq<(Candidate, Refusal)>)
    ensures RefusedOnes(a + b) == RefusedOnes(a) + RefusedOnes(b)
  {
    if b == [] {
      assert a + b == a;
    } else {
      assert (a + b)[..|a + b| - 1] == a + b[..|b| - 1];
      RefusedTogether(a, b[..|b| - 1]);
    }
  }

  lemma EnteredOne(env: Env, a: Account, candidate: Candidate)
    requires Known(env, candidate)
    ensures Everyone(Entered(env, a, candidate)) == Everyone(a) + multiset{candidate}
  {
    hide OutcomeOf, RefusedOnes, ConflictsOf;
    var outcome := OutcomeOf(env, a.store, candidate);
    if outcome.Refused? {
      RefusedMore(a.refused, candidate, outcome.reason);
    }
  }

  lemma RefusedMore(refused: seq<(Candidate, Refusal)>, candidate: Candidate, reason: Refusal)
    ensures RefusedOnes(refused + [(candidate, reason)]) == RefusedOnes(refused) + multiset{candidate}
  {
    assert (refused + [(candidate, reason)])[..|refused|] == refused;
  }

  lemma {:induction false} PassPlaces(env: Env, store: Store, pending: seq<Candidate>)
    requires AllKnown(env, pending)
    ensures Everyone(Pass(env, store, pending)) == multiset(pending)
  {
    hide Entered, Everyone;
    if pending == [] {
      NobodyYet(store);
    } else {
      var n := |pending| - 1;
      assert pending == pending[..n] + [pending[n]];
      PassPlaces(env, store, pending[..n]);
      EnteredOne(env, Pass(env, store, pending[..n]), pending[n]);
    }
  }

  lemma NobodyYet(store: Store)
    ensures Everyone(Nothing(store)) == multiset{}
  {
  }

  /** Each candidate ends in exactly one of applied, unchanged, refused or parked. */
  lemma {:induction false} PassesPlaceEveryone(env: Env, store: Store, pending: seq<Candidate>)
    requires AllKnown(env, pending)
    ensures Everyone(Passes(env, store, pending)) == multiset(pending)
    decreases |pending|
  {
    hide Pass;
    PassPlaces(env, store, pending);
    var pass := Pass(env, store, pending);
    if pass.parked != [] && pass.applied != [] {
      PassesPlaceEveryone(env, pass.store, pass.parked);
      RefusedTogether(pass.refused, Passes(env, pass.store, pass.parked).refused);
    }
  }

  // ---------------------------------------------------------------- what stays parked

  lemma {:induction false} ParkedFrom(env: Env, store: Store, pending: seq<Candidate>)
    requires AllKnown(env, pending)
    ensures forall candidate :: candidate in Pass(env, store, pending).parked ==> candidate in pending
  {
    hide OutcomeOf;
    if pending != [] {
      assert forall candidate :: candidate in pending[..|pending| - 1] ==> candidate in pending;
      ParkedFrom(env, store, pending[..|pending| - 1]);
    }
  }

  lemma ParkedLacks(env: Env, store: Store, candidate: Candidate)
    requires Known(env, candidate) && OutcomeOf(env, store, candidate).Parked?
    ensures IsParked(env, store, candidate) && !Repeats(HeldOf(store, candidate.signed.key), candidate)
  {
    hide CompareRecordOps, Satisfied;
  }

  /** A pass that stores nothing leaves the store alone, and parks what the store does not satisfy. */
  lemma {:induction false} IdlePass(env: Env, store: Store, pending: seq<Candidate>)
    requires AllKnown(env, pending) && Pass(env, store, pending).applied == []
    ensures Pass(env, store, pending).store == store
    ensures forall candidate :: candidate in Pass(env, store, pending).parked ==> IsParked(env, store, candidate)
  {
    hide OutcomeOf, IsParked;
    if pending != [] {
      var n := |pending| - 1;
      assert forall candidate :: candidate in pending[..n] ==> candidate in pending;
      var before := Pass(env, store, pending[..n]);
      IdlePass(env, store, pending[..n]);
      if OutcomeOf(env, before.store, pending[n]).Parked? {
        ParkedLacks(env, store, pending[n]);
      }
    }
  }

  /** Every record still parked has a dependency the final store does not satisfy. */
  lemma {:induction false} ParkedUnsatisfied(env: Env, store: Store, pending: seq<Candidate>)
    requires AllKnown(env, pending)
    ensures forall candidate :: candidate in Passes(env, store, pending).parked ==> IsParked(env, Passes(env, store, pending).store, candidate)
    decreases |pending|
  {
    hide Pass, IsParked;
    var pass := Pass(env, store, pending);
    if pass.applied == [] {
      IdlePass(env, store, pending);
    } else if pass.parked != [] {
      ParkedUnsatisfied(env, pass.store, pass.parked);
    }
  }

  // ---------------------------------------------------------------- dependency order

  /** What the types declare of one another. */
  function GraphOf(env: Env): Graph {
    map t | t in env.types :: env.types[t].dependsOn
  }

  /** Candidates stand in dependency order, name only dependencies of types theirs depends on, and a hash
      is of one op, whose dependencies are one list. */
  ghost predicate WellOrdered(env: Env, ranks: map<int, nat>, candidates: seq<Candidate>) {
    && AllKnown(env, candidates) && Ranked(GraphOf(env), ranks)
    && (forall i, j :: 0 <= i < j < |candidates| && Known(env, candidates[i]) && Known(env, candidates[j]) ==>
      RankOf(env, ranks, candidates[i]) <= RankOf(env, ranks, candidates[j]))
    && (forall c, d :: c in candidates && d in c.dependencies && Known(env, c) ==> d.key.kind in env.types[c.signed.key.kind].dependsOn)
    && (forall c, d :: c in candidates && d in candidates && c.opHash == d.opHash ==> c.dependencies == d.dependencies)
  }

  function RankOf(env: Env, ranks: map<int, nat>, candidate: Candidate): nat
    requires Known(env, candidate)
  {
    if candidate.signed.key.kind in ranks then ranks[candidate.signed.key.kind] else 0
  }

  /** A candidate that a store parks and does not repeat. */
  ghost predicate StillParked(env: Env, store: Store, candidate: Candidate) {
    IsParked(env, store, candidate) && !Repeats(HeldOf(store, candidate.signed.key), candidate)
  }

  lemma {:induction false} RetainedFrom(copies: seq<Copy>, copy: Copy, x: Copy)
    requires x in Retained(copies, copy)
    ensures x in copies
  {
    if copies != [] {
      var n := |copies| - 1;
      if x in Retained(copies[..n], copy) {
        RetainedFrom(copies[..n], copy, x);
      }
    }
  }

  /** What an applied candidate leaves at its key: copies that were there, and its own. */
  lemma {:induction false} LeavesOwn(env: Env, store: Store, candidate: Candidate, hash: Hash)
    requires Known(env, candidate) && OutcomeOf(env, store, candidate).Applied? && hash != candidate.opHash
    ensures var held := OutcomeOf(env, store, candidate).held;
      (exists copy :: copy in held.copies && copy.opHash == hash) ==>
        HeldOf(store, candidate.signed.key).Some? && exists copy :: copy in HeldOf(store, candidate.signed.key).value.copies && copy.opHash == hash
  {
    hide IsParked, CompareRecordOps, StoodFor;
    var held, before := OutcomeOf(env, store, candidate).held, HeldOf(store, candidate.signed.key);
    if copy :| copy in held.copies && copy.opHash == hash {
      if SameDecision(before, candidate) && held == before.value.(copies := Remember(before.value.copies, CopyOf(candidate))) {
        if copy !in before.value.copies {
          RetainedFrom(before.value.copies, CopyOf(candidate), copy);
        }
      }
    }
  }

  /** What one more candidate does to one already parked: nothing, in dependency order. */
  lemma {:induction false} ParkedThrough(env: Env, ranks: map<int, nat>, store: Store, c: Candidate, x: Candidate)
    requires Known(env, c) && Known(env, x) && Ranked(GraphOf(env), ranks) && StillParked(env, store, c)
    requires RankOf(env, ranks, c) <= RankOf(env, ranks, x)
    requires forall d :: d in c.dependencies ==> d.key.kind in env.types[c.signed.key.kind].dependsOn
    requires c.opHash == x.opHash ==> c.dependencies == x.dependencies
    ensures StillParked(env, StoreAfter(env, store, x), c)
  {
    hide Satisfied, OutcomeOf;
    if OutcomeOf(env, store, x).Applied? {
      var d :| d in c.dependencies && !Satisfied(env, store, d);
      RanksBelow(env, ranks, c.signed.key.kind, d.key.kind);
      assert d.key != x.signed.key;
      Elsewhere(env, store, x.signed.key, OutcomeOf(env, store, x).held, d);
      if c.opHash == x.opHash {
        ParkedFirst(env, store, x, d);
      } else if c.signed.key == x.signed.key {
        LeavesOwn(env, store, x, c.opHash);
      }
    }
  }

  lemma RanksBelow(env: Env, ranks: map<int, nat>, t: int, d: int)
    requires Ranked(GraphOf(env), ranks) && t in env.types && d in env.types[t].dependsOn
    ensures t in ranks && d in ranks && ranks[d] < ranks[t]
  {
    assert t in GraphOf(env) && d in GraphOf(env)[t];
  }

  lemma Elsewhere(env: Env, store: Store, key: Key, held: Held, d: Dependency)
    requires d.key != key
    ensures Satisfied(env, store[key := held], d) == Satisfied(env, store, d)
  {
    hide Satisfies;
  }

  lemma ParkedFirst(env: Env, store: Store, x: Candidate, d: Dependency)
    requires Known(env, x) && d in x.dependencies && !Satisfied(env, store, d)
    ensures !OutcomeOf(env, store, x).Applied?
  {
    hide Satisfied, Merged;
    assert IsParked(env, store, x);
  }

  lemma {:induction false} ParkedStays(env: Env, ranks: map<int, nat>, store: Store, pending: seq<Candidate>)
    requires WellOrdered(env, ranks, pending)
    ensures AllKnown(env, pending)
    ensures forall c :: c in Pass(env, store, pending).parked ==> c in pending && StillParked(env, Pass(env, store, pending).store, c)
  {
    hide OutcomeOf, StillParked, WellOrdered;
    OrderedMeans(env, ranks, pending);
    if pending != [] {
      var n := |pending| - 1;
      assert pending == pending[..n] + [pending[n]];
      OrderedBefore(env, ranks, pending);
      ParkedStays(env, ranks, store, pending[..n]);
      var before, x := Pass(env, store, pending[..n]), pending[n];
      assert x in pending;
      forall c | c in Pass(env, store, pending).parked ensures c in pending && StillParked(env, Pass(env, store, pending).store, c) {
        if c in before.parked {
          OrderedPair(env, ranks, pending, c);
          ParkedThrough(env, ranks, before.store, c, x);
        } else {
          ParkedNow(env, before.store, x);
        }
      }
    }
  }

  lemma ParkedNow(env: Env, store: Store, x: Candidate)
    requires Known(env, x) && OutcomeOf(env, store, x).Parked?
    ensures StillParked(env, store, x)
  {
    ParkedLacks(env, store, x);
    hide OutcomeOf;
  }

  lemma OrderedMeans(env: Env, ranks: map<int, nat>, pending: seq<Candidate>)
    requires WellOrdered(env, ranks, pending)
    ensures AllKnown(env, pending) && Ranked(GraphOf(env), ranks)
  {
    hide Ranked;
  }

  lemma OrderedBefore(env: Env, ranks: map<int, nat>, pending: seq<Candidate>)
    requires WellOrdered(env, ranks, pending) && pending != []
    ensures WellOrdered(env, ranks, pending[..|pending| - 1])
  {
    hide Ranked, RankOf;
    var rest := pending[..|pending| - 1];
    assert forall c :: c in rest ==> c in pending;
    assert forall i :: 0 <= i < |rest| ==> rest[i] == pending[i];
  }

  lemma OrderedPair(env: Env, ranks: map<int, nat>, pending: seq<Candidate>, c: Candidate)
    requires WellOrdered(env, ranks, pending) && pending != [] && c in pending[..|pending| - 1]
    ensures var x := pending[|pending| - 1];
      && Known(env, c) && Known(env, x) && RankOf(env, ranks, c) <= RankOf(env, ranks, x)
      && (forall d :: d in c.dependencies ==> d.key.kind in env.types[c.signed.key.kind].dependsOn)
      && (c.opHash == x.opHash ==> c.dependencies == x.dependencies)
  {
    hide Ranked, RankOf;
    var i :| 0 <= i < |pending| - 1 && pending[i] == c;
    assert pending[i] in pending && pending[|pending| - 1] in pending;
  }

  /** Parking everything changes nothing. */
  lemma {:induction false} AllParkAgain(env: Env, store: Store, pending: seq<Candidate>)
    requires AllKnown(env, pending) && forall c :: c in pending ==> StillParked(env, store, c)
    ensures Pass(env, store, pending) == Nothing(store).(parked := pending)
  {
    hide StillParked, Satisfied, OutcomeOf;
    if pending != [] {
      var n := |pending| - 1;
      assert pending == pending[..n] + [pending[n]];
      AllParkAgain(env, store, pending[..n]);
      ParksAgain(env, store, pending[n]);
    }
  }

  lemma ParksAgain(env: Env, store: Store, c: Candidate)
    requires Known(env, c) && StillParked(env, store, c)
    ensures OutcomeOf(env, store, c).Parked?
  {
    hide Merged, IsParked;
  }

  /** In dependency order the first pass is already the fixed point: passing again settles nothing more. */
  lemma {:induction false} FirstPassSettles(env: Env, ranks: map<int, nat>, store: Store, pending: seq<Candidate>)
    requires WellOrdered(env, ranks, pending)
    ensures AllKnown(env, pending) && Passes(env, store, pending) == Pass(env, store, pending)
  {
    hide Pass, StillParked, WellOrdered;
    OrderedMeans(env, ranks, pending);
    ParkedStays(env, ranks, store, pending);
    var pass := Pass(env, store, pending);
    if pass.parked != [] && pass.applied != [] {
      AllParkAgain(env, pass.store, pass.parked);
    }
  }
}
