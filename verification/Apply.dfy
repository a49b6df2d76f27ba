/** Applying a chunk of records: each candidate against what earlier ones have stored, pass after pass
    while parked ones may still find what they depend on. */
module Apply {
  import opened Basics
  import opened Policy

  datatype Key = Key(kind: int, owner: int, id: int)

  /** A verified op and the key its claim names. */
  datatype SignedOp = SignedOp(key: Key, op: Op)

  /** A held copy: its op, unless it no longer verifies, and the signer key, when one can be read. */
  datatype Copy = Copy(opHash: Hash, op: Option<SignedOp>, signer: Option<int>)

  /** A stored decision and every copy kept of it. */
  datatype Held = Held(decisionHLC: Text, contentDigest: Hash, copies: seq<Copy>)

  type Store = map<Key, Held>

  /** A record another needs, satisfied by what `want` accepts of its ops. */
  datatype Dependency = Dependency(key: Key, want: int)

  /** A record that passed the clock, signature and precheck checks. */
  datatype Candidate = Candidate(opHash: Hash, signed: SignedOp, signer: Option<int>, payloadMatches: bool, dependencies: seq<Dependency>)

  /** `checksPayloadFirst` is whether the type keeps branch evidence once a record is authorized. */
  datatype TypeDefinition = TypeDefinition(
    policy: MergePolicy, dependsOn: seq<int>, authorize: (Candidate, Store) -> bool,
    onEqual: (Op, Op) -> EqualVersion, checksPayloadFirst: bool)

  datatype Env = Env(clock: Clock, types: map<int, TypeDefinition>, satisfies: (int, SignedOp) -> bool)

  datatype Refusal = WrongOwner | Unauthorized | BadDigest | ByPolicy(reason: Option<Policy.Reason>)

  datatype Conflict = Conflict(record: Candidate, stored: Hash, incoming: Hash, forked: bool)

  datatype Outcome =
    | Applied(held: Held, conflict: Option<Conflict>)
    | NoChange(conflict: Option<Conflict>)
    | Parked
    | Refused(reason: Refusal)

  predicate Known(env: Env, candidate: Candidate) {
    candidate.signed.key.kind in env.types
  }

  function DecisionHLC(op: Op): Text {
    if op.claim.metaVersion.Some? then op.claim.metaVersion.value else op.claim.hlc
  }

  // ---------------------------------------------------------------- dependencies

  predicate Satisfies(env: Env, dependency: Dependency, copy: Copy) {
    copy.op.Some? && copy.op.value.key == dependency.key && env.satisfies(dependency.want, copy.op.value)
  }

  predicate Satisfied(env: Env, store: Store, dependency: Dependency) {
    dependency.key in store && exists copy :: copy in store[dependency.key].copies && Satisfies(env, dependency, copy)
  }

  predicate IsParked(env: Env, store: Store, candidate: Candidate) {
    exists dependency :: dependency in candidate.dependencies && !Satisfied(env, store, dependency)
  }

  // ---------------------------------------------------------------- remembering a copy

  /** The copies kept beside a new one: of its signer, only those that sort before it. */
  function Retained(copies: seq<Copy>, copy: Copy): seq<Copy> {
    if copies == [] then []
    else
      var rest, last := Retained(copies[..|copies| - 1], copy), copies[|copies| - 1];
      if last.op.None? || copy.signer.None? || last.signer != copy.signer || last.opHash < copy.opHash then rest + [last] else rest
  }

  /** Whether a signer's earlier copy already stands for it. */
  predicate StoodFor(copies: seq<Copy>, copy: Copy) {
    copy.signer.Some? && exists held :: held in copies && held.op.Some? && held.signer == copy.signer && held.opHash <= copy.opHash
  }

  function Remember(copies: seq<Copy>, copy: Copy): seq<Copy> {
    if StoodFor(Retained(copies, copy), copy) then copies else Retained(copies, copy) + [copy]
  }

  // ---------------------------------------------------------------- one candidate

  function CopyOf(candidate: Candidate): Copy {
    Copy(candidate.opHash, Some(candidate.signed), candidate.signer)
  }

  function StoredOp(held: Option<Held>): Option<SignedOp> {
    if held.Some? && held.value.copies != [] then held.value.copies[0].op else None
  }

  function HeldOf(store: Store, key: Key): Option<Held> {
    if key in store then Some(store[key]) else None
  }

  predicate Repeats(held: Option<Held>, candidate: Candidate) {
    held.Some? && exists copy :: copy in held.value.copies && copy.opHash == candidate.opHash
  }

  predicate SameDecision(held: Option<Held>, candidate: Candidate) {
    held.Some? && held.value.contentDigest == candidate.signed.op.contentDigest && held.value.decisionHLC == DecisionHLC(candidate.signed.op)
  }

  /** What the merge policy makes of an authorized candidate. */
  function Merged(env: Env, held: Option<Held>, candidate: Candidate): Outcome
    requires Known(env, candidate)
  {
    var definition, stored := env.types[candidate.signed.key.kind], StoredOp(held);
    var op := candidate.signed.op;
    var storedOp := if stored.Some? then Some(stored.value.op) else None;
    var merge := CompareRecordOps(env.clock, definition.policy, definition.onEqual, op, storedOp);
    if merge.status == Reject then Refused(ByPolicy(merge.reason))
    else
      var conflict := if merge.conflict.None? then None
        else Some(Conflict(candidate, merge.conflict.value.0, merge.conflict.value.1, merge.status == ForkBoth));
      var wins := merge.status == Apply || (merge.status == ForkBoth && storedOp.Some? && op.contentDigest > storedOp.value.contentDigest);
      if !wins then NoChange(conflict)
      else if !candidate.payloadMatches then Refused(BadDigest)
      else Applied(Held(DecisionHLC(op), op.contentDigest, [CopyOf(candidate)]), conflict)
  }

  /** What becomes of a candidate on a store: the first check that settles it does. */
  function OutcomeOf(env: Env, store: Store, candidate: Candidate): Outcome
    requires Known(env, candidate)
  {
    var key, definition := candidate.signed.key, env.types[candidate.signed.key.kind];
    var held := HeldOf(store, key);
    var stored := StoredOp(held);
    if Repeats(held, candidate) then NoChange(None)
    else if IsParked(env, store, candidate) then Parked
    else if stored.Some? && !definition.policy.Immutable? && key.owner != stored.value.key.owner then Refused(WrongOwner)
    else if !definition.authorize(candidate, store) then Refused(Unauthorized)
    else if definition.checksPayloadFirst && !candidate.payloadMatches then Refused(BadDigest)
    else if SameDecision(held, candidate) then
      if !candidate.payloadMatches then Refused(BadDigest)
      else Applied(held.value.(copies := Remember(held.value.copies, CopyOf(candidate))), None)
    else Merged(env, held, candidate)
  }

  function StoreAfter(env: Env, store: Store, candidate: Candidate): Store
    requires Known(env, candidate)
  {
    var outcome := OutcomeOf(env, store, candidate);
    if outcome.Applied? then store[candidate.signed.key := outcome.held] else store
  }

  // ---------------------------------------------------------------- one pass and all of them

  /** What passes have settled: where the store stands and where each candidate went. */
  datatype Account = Account(
    store: Store, applied: seq<Candidate>, noops: seq<Candidate>,
    refused: seq<(Candidate, Refusal)>, conflicts: seq<Conflict>, parked: seq<Candidate>)

  function ConflictsOf(outcome: Outcome): seq<Conflict> {
    if (outcome.Applied? || outcome.NoChange?) && outcome.conflict.Some? then [outcome.conflict.value] else []
  }

  function Entered(env: Env, a: Account, candidate: Candidate): Account
    requires Known(env, candidate)
  {
    var outcome := OutcomeOf(env, a.store, candidate);
    var b := a.(conflicts := a.conflicts + ConflictsOf(outcome));
    match outcome
    case Applied(held, _) => b.(store := a.store[candidate.signed.key := held], applied := a.applied + [candidate])
    case NoChange(_) => b.(noops := a.noops + [candidate])
    case Parked => b.(parked := a.parked + [candidate])
    case Refused(reason) => b.(refused := a.refused + [(candidate, reason)])
  }

  predicate AllKnown(env: Env, candidates: seq<Candidate>) {
    forall candidate :: candidate in candidates ==> Known(env, candidate)
  }

  function Nothing(store: Store): Account {
    Account(store, [], [], [], [], [])
  }

  /** One pass over the pending candidates, in order. */
  function Pass(env: Env, store: Store, pending: seq<Candidate>): (a: Account)
    requires AllKnown(env, pending)
    ensures AllKnown(env, a.parked)
    ensures |a.parked| + |a.applied| <= |pending|
  {
    if pending == [] then Nothing(store)
    else
      assert forall candidate :: candidate in pending[..|pending| - 1] ==> candidate in pending;
      Entered(env, Pass(env, store, pending[..|pending| - 1]), pending[|pending| - 1])
  }

  /** Passes until one parks nothing or stores nothing. */
  function Passes(env: Env, store: Store, pending: seq<Candidate>): Account
    requires AllKnown(env, pending)
    decreases |pending|
  {
    var pass := Pass(env, store, pending);
    if pass.parked == [] || pass.applied == [] then pass
    else
      var rest := Passes(env, pass.store, pass.parked);
      Account(rest.store, pass.applied + rest.applied, pass.noops + rest.noops,
        pass.refused + rest.refused, pass.conflicts + rest.conflicts, rest.parked)
  }
}
