/** The chunk as it runs: snapshots of decisions updated in place, and the loop over pending candidates. A
    context reads every decision its candidates will consult once, and writes made by the chunk update those
    snapshots; `View` is the store as they stand. Each method is proved to do to the view what the
    specification of passes does to a store, and the candidates are first sorted by the rank of their type. */
module ApplyChunk {
  import opened Basics
  import opened Policy
  import opened Ranks
  import opened Apply
  import opened ApplyCopies
  import opened ApplyPasses

  /** A decision as the chunk has read it, and has left it since. */
  class DecisionSnapshot {
    var decision: Option<(Text, Hash)>
    var verified: seq<Copy>

    function Value(): Option<Held>
      reads this
    {
      if decision.None? then None else Some(Held(decision.value.0, decision.value.1, verified))
    }

    constructor (held: Option<Held>)
      ensures Value() == held
    {
      decision := if held.Some? then Some((held.value.decisionHLC, held.value.contentDigest)) else None;
      verified := if held.Some? then held.value.copies else [];
    }

    /** Keep a copy beside those of other signers, unless its signer's already stands for it. */
    method RememberCopy(copy: Copy, op: Op)
      modifies this
      ensures verified == Remember(old(verified), copy)
      ensures decision == if StoodFor(Retained(old(verified), copy), copy) then old(decision) else Some((DecisionHLC(op), op.contentDigest))
      ensures OnePerSigner(old(verified)) && copy.op.Some? ==> TookIn(old(verified), copy, verified)
      ensures OnePerSigner(old(verified)) && copy.op.Some? && copy.signer.Some? && FirstBy(old(verified), copy) ==> decision == old(decision)
    {
      hide OnePerSigner, TookIn, FirstBy, StoodFor;
      if OnePerSigner(verified) && copy.op.Some? {
        RememberedOne(verified, copy);
      }
      var retained := [];
      for i := 0 to |verified|
        invariant retained == Retained(verified[..i], copy) && verified == old(verified) && decision == old(decision)
      {
        assert verified[..i + 1][..i] == verified[..i];
        var held := verified[i];
        if held.op.None? || copy.signer.None? || held.signer != copy.signer || held.opHash < copy.opHash {
          retained := retained + [held];
        }
      }
      assert verified[..|verified|] == verified;
      if StoodFor(retained, copy) {
        return;
      }
      verified := retained + [copy];
      decision := Some((DecisionHLC(op), op.contentDigest));
    }
  }

  /** Every key at which the outcome of a candidate reads the store. */
  function KeysOf(candidate: Candidate): set<Key> {
    {candidate.signed.key} + set d | d in candidate.dependencies :: d.key
  }

  /** The snapshots of one transaction. */
  class ChunkContext {
    const env: Env
    var decisions: map<Key, DecisionSnapshot>

    ghost predicate Valid()
      reads this
    {
      forall k, l :: k in decisions && l in decisions && decisions[k] == decisions[l] ==> k == l
    }

    /** The store that the snapshots stand for. */
    function View(): Store
      reads this, decisions.Values
    {
      map k | k in decisions && decisions[k].decision.Some? :: decisions[k].Value().value
    }

    /** Read every decision the candidates will consult, once. */
    constructor (env: Env, store: Store, keys: set<Key>)
      ensures Valid() && this.env == env && decisions.Keys == keys
      ensures fresh(decisions.Values)
      ensures View() == map k | k in keys && k in store :: store[k]
    {
      this.env := env;
      decisions := map[];
      new;
      var todo := keys;
      while todo != {}
        invariant todo <= keys && decisions.Keys == keys - todo && Valid()
        invariant forall k :: k in decisions ==> fresh(decisions[k])
        invariant forall k :: k in decisions ==> decisions[k].Value() == HeldOf(store, k)
        decreases todo
      {
        var key := Take(todo);
        var snapshot := new DecisionSnapshot(HeldOf(store, key));
        decisions := decisions[key := snapshot];
        todo := todo - {key};
      }
    }

    /** Check one candidate against the chunk's view and store it if it wins. */
    method ApplyCandidate(candidate: Candidate) returns (outcome: Outcome)
      requires Valid() && Known(env, candidate) && KeysOf(candidate) <= decisions.Keys
      modifies decisions.Values
      ensures Valid() && decisions == old(decisions)
      ensures outcome == OutcomeOf(env, old(View()), candidate)
      ensures View() == StoreAfter(env, old(View()), candidate)
    {
      hide OutcomeOf, Remember, Retained, StoodFor;
      var key, op := candidate.signed.key, candidate.signed.op;
      outcome := OutcomeOf(env, View(), candidate);
      if outcome.Applied? {
        assert key in KeysOf(candidate);
        var snapshot := decisions[key];
        AppliedHow(env, View(), candidate);
        ViewAt(this, key);
        var before := snapshot.Value();
        if SameDecision(before, candidate) {
          snapshot.RememberCopy(CopyOf(candidate), op);
        } else {
          snapshot.decision := None;
          snapshot.verified := [];
          snapshot.RememberCopy(CopyOf(candidate), op);
          AloneKept(CopyOf(candidate));
        }
        assert snapshot.Value() == Some(outcome.held);
        forall k | k in decisions && k != key ensures decisions[k].Value() == old(decisions[k].Value()) {
          assert decisions[k] != snapshot;
        }
        assert View() == old(View())[key := outcome.held];
      }
    }
  }

  lemma AloneKept(copy: Copy)
    ensures Remember([], copy) == [copy] && !StoodFor(Retained([], copy), copy)
  {
  }

  lemma ViewAt(ctx: ChunkContext, key: Key)
    requires key in ctx.decisions
    ensures HeldOf(ctx.View(), key) == ctx.decisions[key].Value()
  {
  }

  /** How a stored candidate is stored: beside the copies of its own decision, or in place of another. */
  lemma AppliedHow(env: Env, store: Store, candidate: Candidate)
    requires Known(env, candidate) && OutcomeOf(env, store, candidate).Applied?
    ensures var held, op := HeldOf(store, candidate.signed.key), candidate.signed.op;
      OutcomeOf(env, store, candidate).held == if SameDecision(held, candidate)
        then held.value.(copies := Remember(held.value.copies, CopyOf(candidate)))
        else Held(DecisionHLC(op), op.contentDigest, [CopyOf(candidate)])
  {
    hide IsParked, CompareRecordOps, Remember;
  }

  /** Everything a chunk touches is among the snapshots it read. */
  predicate AllRead(keys: set<Key>, candidates: seq<Candidate>) {
    forall candidate :: candidate in candidates ==> KeysOf(candidate) <= keys
  }

  /** One pass over the pending candidates. */
  method RunPass(ctx: ChunkContext, pending: seq<Candidate>) returns (a: Account)
    requires ctx.Valid() && AllKnown(ctx.env, pending) && AllRead(ctx.decisions.Keys, pending)
    modifies ctx.decisions.Values
    ensures ctx.Valid() && ctx.decisions == old(ctx.decisions)
    ensures a == Pass(ctx.env, old(ctx.View()), pending) && ctx.View() == a.store
  {
    hide KeysOf, OutcomeOf, StoreAfter;
    ghost var store := ctx.View();
    a := Nothing(ctx.View());
    for i := 0 to |pending|
      invariant ctx.Valid() && ctx.decisions == old(ctx.decisions)
      invariant AllKnown(ctx.env, pending[..i]) && a == Pass(ctx.env, store, pending[..i]) && ctx.View() == a.store
    {
      assert pending[..i + 1][..i] == pending[..i] && pending[i] in pending;
      assert forall candidate :: candidate in pending[..i + 1] ==> candidate in pending;
      var candidate := pending[i];
      var outcome := ctx.ApplyCandidate(candidate);
      StoresEntered(ctx.env, a, candidate);
      a := a.(store := ctx.View(), conflicts := a.conflicts + ConflictsOf(outcome));
      match outcome
      case Applied(_, _) => a := a.(applied := a.applied + [candidate]);
      case NoChange(_) => a := a.(noops := a.noops + [candidate]);
      case Parked => a := a.(parked := a.parked + [candidate]);
      case Refused(reason) => a := a.(refused := a.refused + [(candidate, reason)]);
    }
    assert pending[..|pending|] == pending;
  }

  lemma StoresEntered(env: Env, a: Account, candidate: Candidate)
    requires Known(env, candidate)
    ensures Entered(env, a, candidate).store == StoreAfter(env, a.store, candidate)
  {
    hide OutcomeOf;
  }

  function Joined(a: Account, b: Account): Account {
    Account(b.store, a.applied + b.applied, a.noops + b.noops, a.refused + b.refused, a.conflicts + b.conflicts, b.parked)
  }

  lemma JoinedAgain(a: Account, b: Account, c: Account)
    ensures Joined(a, Joined(b, c)) == Joined(Joined(a, b), c)
    ensures a.applied == a.noops == [] && a.refused == [] && a.conflicts == [] ==> Joined(a, b) == b
  {
  }

  /** The pass loop: while something was stored and something is parked, pass over what is parked. */
  method RunPasses(ctx: ChunkContext, active: seq<Candidate>) returns (a: Account)
    requires ctx.Valid() && AllKnown(ctx.env, active) && AllRead(ctx.decisions.Keys, active)
    modifies ctx.decisions.Values
    ensures ctx.Valid() && ctx.decisions == old(ctx.decisions)
    ensures a == Passes(ctx.env, old(ctx.View()), active) && ctx.View() == a.store
  {
    hide KeysOf, Pass;
    ghost var store := ctx.View();
    ghost var env := ctx.env;
    a := Nothing(ctx.View()).(parked := active);
    JoinedAgain(a, Passes(env, store, active), a);
    var more := true;
    while more
      invariant ctx.Valid() && ctx.decisions == old(ctx.decisions) && ctx.View() == a.store
      invariant AllKnown(env, a.parked) && AllRead(ctx.decisions.Keys, a.parked)
      invariant Passes(env, store, active) == if more then Joined(a, Passes(env, a.store, a.parked)) else a
      decreases |a.parked|, more
    {
      var pass := RunPass(ctx, a.parked);
      ParkedFrom(env, a.store, a.parked);
      more := pass.parked != [] && pass.applied != [];
      if more {
        JoinedAgain(a, pass, Passes(env, pass.store, pass.parked));
      }
      a := Joined(a, pass);
    }
  }

  datatype ChunkResult = CyclicTypes | Chunk(account: Account)

  function SortedByRank(env: Env, ranks: map<int, nat>, candidates: seq<Candidate>): seq<Candidate>
    requires AllKnown(env, candidates)
  {
    if candidates == [] then []
    else
      var n := |candidates| - 1;
      assert forall c :: c in candidates[..n] ==> c in candidates;
      SortedIn(env, ranks, SortedByRank(env, ranks, candidates[..n]), candidates[n])
  }

  /** Insert after every candidate of the same rank or lower: a stable sort, one at a time. */
  function SortedIn(env: Env, ranks: map<int, nat>, sorted: seq<Candidate>, candidate: Candidate): seq<Candidate>
    requires Known(env, candidate)
  {
    if sorted != [] && Known(env, sorted[|sorted| - 1]) && RankOf(env, ranks, candidate) < RankOf(env, ranks, sorted[|sorted| - 1])
    then SortedIn(env, ranks, sorted[..|sorted| - 1], candidate) + [sorted[|sorted| - 1]]
    else sorted + [candidate]
  }

  ghost predicate InRankOrder(env: Env, ranks: map<int, nat>, candidates: seq<Candidate>) {
    && AllKnown(env, candidates)
    && (forall i, j :: 0 <= i < j < |candidates| && Known(env, candidates[i]) && Known(env, candidates[j]) ==>
      RankOf(env, ranks, candidates[i]) <= RankOf(env, ranks, candidates[j]))
  }

  /** Every candidate ranks no higher than `top`. */
  ghost predicate AtMost(env: Env, ranks: map<int, nat>, candidates: seq<Candidate>, top: Candidate) {
    forall c :: c in candidates && Known(env, c) && Known(env, top) ==> RankOf(env, ranks, c) <= RankOf(env, ranks, top)
  }

  lemma AppendedInOrder(env: Env, ranks: map<int, nat>, sorted: seq<Candidate>, top: Candidate)
    requires InRankOrder(env, ranks, sorted) && Known(env, top) && AtMost(env, ranks, sorted, top)
    ensures InRankOrder(env, ranks, sorted + [top])
  {
    hide RankOf;
  }

  lemma LastOnTop(env: Env, ranks: map<int, nat>, sorted: seq<Candidate>)
    requires InRankOrder(env, ranks, sorted) && sorted != []
    ensures var n := |sorted| - 1;
      InRankOrder(env, ranks, sorted[..n]) && Known(env, sorted[n]) && AtMost(env, ranks, sorted[..n], sorted[n])
  {
    hide RankOf;
    var n := |sorted| - 1;
    assert sorted[n] in sorted && forall c :: c in sorted[..n] ==> c in sorted;
    forall c | c in sorted[..n] ensures RankOf(env, ranks, c) <= RankOf(env, ranks, sorted[n]) {
      var i :| 0 <= i < n && sorted[i] == c;
    }
  }

  lemma {:induction false} InsertedInOrder(env: Env, ranks: map<int, nat>, sorted: seq<Candidate>, candidate: Candidate)
    requires InRankOrder(env, ranks, sorted) && Known(env, candidate)
    ensures InRankOrder(env, ranks, SortedIn(env, ranks, sorted, candidate))
    ensures multiset(SortedIn(env, ranks, sorted, candidate)) == multiset(sorted) + multiset{candidate}
  {
    hide RankOf, InRankOrder;
    if sorted == [] {
      NobodyInOrder(env, ranks);
      AppendedInOrder(env, ranks, [], candidate);
    } else {
      var n := |sorted| - 1;
      assert sorted == sorted[..n] + [sorted[n]];
      LastOnTop(env, ranks, sorted);
      if RankOf(env, ranks, candidate) < RankOf(env, ranks, sorted[n]) {
        InsertedInOrder(env, ranks, sorted[..n], candidate);
        var rest := SortedIn(env, ranks, sorted[..n], candidate);
        forall c | c in rest ensures c in sorted[..n] || c == candidate {
          assert c in multiset(rest);
        }
        AppendedInOrder(env, ranks, rest, sorted[n]);
      } else {
        AppendedInOrder(env, ranks, sorted, candidate);
      }
    }
  }

  lemma {:induction false} SortedInOrder(env: Env, ranks: map<int, nat>, candidates: seq<Candidate>)
    requires AllKnown(env, candidates)
    ensures InRankOrder(env, ranks, SortedByRank(env, ranks, candidates))
    ensures multiset(SortedByRank(env, ranks, candidates)) == multiset(candidates)
  {
    hide InRankOrder;
    if candidates == [] {
      NobodyInOrder(env, ranks);
    } else {
      var n := |candidates| - 1;
      assert forall c :: c in candidates[..n] ==> c in candidates;
      assert candidates == candidates[..n] + [candidates[n]] && candidates[n] in candidates;
      SortedInOrder(env, ranks, candidates[..n]);
      InsertedInOrder(env, ranks, SortedByRank(env, ranks, candidates[..n]), candidates[n]);
    }
  }

  lemma NobodyInOrder(env: Env, ranks: map<int, nat>)
    ensures InRankOrder(env, ranks, [])
  {
  }

  function AllKeys(candidates: seq<Candidate>): set<Key> {
    set c, key | c in candidates && key in KeysOf(c) :: key
  }

  /** The part of a store a chunk consults. */
  function Consulted(store: Store, candidates: seq<Candidate>): Store {
    map key | key in AllKeys(candidates) && key in store :: store[key]
  }

  /** Apply a chunk: candidates in the types' dependency order, passed over until nothing more can apply. */
  method ApplyRecordChunk(env: Env, store: Store, candidates: seq<Candidate>) returns (r: ChunkResult, ghost ranks: map<int, nat>)
    requires AllKnown(env, candidates)
    ensures r.CyclicTypes? <==> exists path, t :: LeadsAstray(GraphOf(env), path, t)
    ensures r.Chunk? ==> Ranked(GraphOf(env), ranks) && AllKnown(env, SortedByRank(env, ranks, candidates))
    ensures r.Chunk? ==> r.account == Passes(env, Consulted(store, candidates), SortedByRank(env, ranks, candidates))
  {
    hide KeysOf, Passes, InRankOrder, Ranked, SortedByRank, LeadsAstray;
    var found := RankTypes(GraphOf(env));
    if found.None? {
      return CyclicTypes, map[];
    }
    ranks := found.value;
    var sorted := SortedByRank(env, found.value, candidates);
    SortedInOrder(env, ranks, candidates);
    KnownInOrder(env, ranks, sorted);
    SameMembers(candidates, sorted);
    var ctx := new ChunkContext(env, store, AllKeys(candidates));
    ReadAll(candidates, sorted);
    var account := RunPasses(ctx, sorted);
    r := Chunk(account);
  }

  lemma KnownInOrder(env: Env, ranks: map<int, nat>, candidates: seq<Candidate>)
    requires InRankOrder(env, ranks, candidates)
    ensures AllKnown(env, candidates)
  {
  }

  lemma ReadAll(candidates: seq<Candidate>, sorted: seq<Candidate>)
    requires forall c :: c in candidates <==> c in sorted
    ensures AllRead(AllKeys(candidates), sorted)
  {
    hide KeysOf;
  }

  /** Over a whole chunk: every candidate ends in one place; what stays parked has a dependency the store it
      leaves does not satisfy; and when types declare what their records depend on, one pass settles it all. */
  lemma {:induction false} ChunkSettles(env: Env, ranks: map<int, nat>, store: Store, candidates: seq<Candidate>)
    requires AllKnown(env, candidates) && Ranked(GraphOf(env), ranks)
    ensures AllKnown(env, SortedByRank(env, ranks, candidates))
    ensures var a := Passes(env, store, SortedByRank(env, ranks, candidates));
      && Everyone(a) == multiset(candidates)
      && (forall c :: c in a.parked ==> IsParked(env, a.store, c))
      && (Declares(env, candidates) ==> a == Pass(env, store, SortedByRank(env, ranks, candidates)))
  {
    hide Passes, Pass, IsParked, InRankOrder, Ranked, Everyone, SortedByRank, Declares;
    var sorted := SortedByRank(env, ranks, candidates);
    SortedInOrder(env, ranks, candidates);
    KnownInOrder(env, ranks, sorted);
    PassesPlaceEveryone(env, store, sorted);
    ParkedUnsatisfied(env, store, sorted);
    if Declares(env, candidates) {
      SameMembers(candidates, sorted);
      DeclaredOrder(env, ranks, candidates, sorted);
      FirstPassSettles(env, ranks, store, sorted);
    }
  }

  /** Each named dependency is of a type the record's type depends on, and a hash is of one op. */
  ghost predicate Declares(env: Env, candidates: seq<Candidate>) {
    && (forall c, d :: c in candidates && d in c.dependencies && Known(env, c) ==> d.key.kind in env.types[c.signed.key.kind].dependsOn)
    && (forall c, d :: c in candidates && d in candidates && c.opHash == d.opHash ==> c.dependencies == d.dependencies)
  }

  lemma DeclaredOrder(env: Env, ranks: map<int, nat>, candidates: seq<Candidate>, sorted: seq<Candidate>)
    requires Declares(env, candidates) && InRankOrder(env, ranks, sorted) && Ranked(GraphOf(env), ranks)
    requires forall c :: c in candidates <==> c in sorted
    ensures WellOrdered(env, ranks, sorted)
  {
    hide Ranked, RankOf;
  }
}
