/** A chunk reads no more of a store than the keys its candidates name. */
module ChunkView {
  import opened Basics
  import opened Apply
  import opened ApplyPasses
  import opened ApplyChunk

  /** Two stores that hold the same at every one of these keys. */
  ghost predicate Agree(a: Store, b: Store, keys: set<Key>) {
    forall key :: key in keys ==> (key in a <==> key in b) && (key in a ==> a[key] == b[key])
  }

  /** Authorizers read the store at these keys only. */
  ghost predicate ReadsOnly(env: Env, keys: set<Key>) {
    forall t, a, b :: t in env.types && Agree(a, b, keys) ==> forall c :: env.types[t].authorize(c, a) == env.types[t].authorize(c, b)
  }

  /** A candidate names its own key, and those of the records it depends on. */
  ghost predicate NamesOnly(c: Candidate, keys: set<Key>) {
    c.signed.key in keys && forall d :: d in c.dependencies ==> d.key in keys
  }

  lemma SameOutcome(env: Env, a: Store, b: Store, keys: set<Key>, c: Candidate)
    requires Known(env, c) && Agree(a, b, keys) && ReadsOnly(env, keys) && NamesOnly(c, keys)
    ensures OutcomeOf(env, a, c) == OutcomeOf(env, b, c)
    ensures Agree(StoreAfter(env, a, c), StoreAfter(env, b, c), keys)
  {
    hide Merged, Repeats, Remember, SameDecision;
    assert HeldOf(a, c.signed.key) == HeldOf(b, c.signed.key);
    forall d | d in c.dependencies ensures Satisfied(env, a, d) <==> Satisfied(env, b, d) {
      assert d.key in keys;
    }
  }

  lemma {:induction false} SamePass(env: Env, a: Store, b: Store, keys: set<Key>, pending: seq<Candidate>)
    requires AllKnown(env, pending) && Agree(a, b, keys) && ReadsOnly(env, keys) && forall c :: c in pending ==> NamesOnly(c, keys)
    ensures Pass(env, a, pending) == Pass(env, b, pending).(store := Pass(env, a, pending).store)
    ensures Agree(Pass(env, a, pending).store, Pass(env, b, pending).store, keys)
  {
    hide Entered, ReadsOnly, Agree, NamesOnly;
    if pending != [] {
      var n := |pending| - 1;
      assert pending[n] in pending && forall c :: c in pending[..n] ==> c in pending;
      SamePass(env, a, b, keys, pending[..n]);
      SameEntered(env, Pass(env, a, pending[..n]), Pass(env, b, pending[..n]), keys, pending[n]);
    }
  }

  lemma SameEntered(env: Env, x: Account, y: Account, keys: set<Key>, c: Candidate)
    requires Known(env, c) && ReadsOnly(env, keys) && NamesOnly(c, keys) && x == y.(store := x.store) && Agree(x.store, y.store, keys)
    ensures Entered(env, x, c) == Entered(env, y, c).(store := Entered(env, x, c).store)
    ensures Agree(Entered(env, x, c).store, Entered(env, y, c).store, keys)
  {
    hide OutcomeOf, ReadsOnly, Agree, NamesOnly;
    SameOutcome(env, x.store, y.store, keys, c);
  }

  lemma {:induction false} SamePasses(env: Env, a: Store, b: Store, keys: set<Key>, pending: seq<Candidate>)
    requires AllKnown(env, pending) && Agree(a, b, keys) && ReadsOnly(env, keys) && forall c :: c in pending ==> NamesOnly(c, keys)
    ensures Passes(env, a, pending) == Passes(env, b, pending).(store := Passes(env, a, pending).store)
    ensures Agree(Passes(env, a, pending).store, Passes(env, b, pending).store, keys)
    decreases |pending|
  {
    hide Pass, ReadsOnly, Agree, NamesOnly;
    SamePass(env, a, b, keys, pending);
    var pass := Pass(env, a, pending);
    if pass.parked != [] && pass.applied != [] {
      ParkedFrom(env, a, pending);
      SamePasses(env, pass.store, Pass(env, b, pending).store, keys, pass.parked);
    }
  }

  /** What a chunk comes to on the part of the store it consults is what it would come to on the whole. */
  lemma {:induction false} ConsultedSuffices(env: Env, ranks: map<int, nat>, store: Store, candidates: seq<Candidate>)
    requires AllKnown(env, candidates) && ReadsOnly(env, AllKeys(candidates))
    ensures AllKnown(env, SortedByRank(env, ranks, candidates))
    ensures var sorted := SortedByRank(env, ranks, candidates);
      var some, whole := Passes(env, Consulted(store, candidates), sorted), Passes(env, store, sorted);
      && some == whole.(store := some.store) && Agree(some.store, whole.store, AllKeys(candidates))
      && forall c :: c in candidates ==> NamesOnly(c, AllKeys(candidates))
  {
    hide Passes, ReadsOnly, Agree, NamesOnly, InRankOrder, SortedByRank;
    var sorted := SortedByRank(env, ranks, candidates);
    SortedInOrder(env, ranks, candidates);
    KnownInOrder(env, ranks, sorted);
    SameMembers(candidates, sorted);
    forall c | c in candidates ensures NamesOnly(c, AllKeys(candidates)) {
      NamesConsulted(candidates, c);
    }
    ViewAgrees(store, candidates);
    SamePasses(env, Consulted(store, candidates), store, AllKeys(candidates), sorted);
  }

  lemma NamesConsulted(candidates: seq<Candidate>, c: Candidate)
    requires c in candidates
    ensures NamesOnly(c, AllKeys(candidates))
  {
    assert c.signed.key in KeysOf(c) && forall d :: d in c.dependencies ==> d.key in KeysOf(c);
  }

  lemma ViewAgrees(store: Store, candidates: seq<Candidate>)
    ensures Agree(Consulted(store, candidates), store, AllKeys(candidates))
  {
  }
}
