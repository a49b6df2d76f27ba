/** What merging an epoch means, as functions of the set of copies presented: the state an event is
    judged against is the join of its parents' states, and an event applies when all its parents do
    and the rules accept it there. */
module EpochSpec {
  import opened Basics
  import opened Dag
  import opened Events

  /** What one epoch accumulates. */
  datatype EpochState = EpochState(
    added: map<Digest, MemberEntry>,
    removed: set<Digest>,
    leases: map<Digest, int>,
    deny: set<Target>)

  const EMPTY := EpochState(map[], {}, map[], {})

  /** The greater lease of each incarnation. */
  function MaxLeases(a: map<Digest, int>, b: map<Digest, int>): map<Digest, int> {
    map d | d in a.Keys + b.Keys ::
      if d !in b then a[d] else if d in a && a[d] >= b[d] then a[d] else b[d]
  }

  function Join(a: EpochState, b: EpochState): EpochState {
    EpochState(a.added + b.added, a.removed + b.removed, MaxLeases(a.leases, b.leases), a.deny + b.deny)
  }

  /** The epoch being merged: whose it is, the chain state it grew from, that generation's root keys,
      and the digests of the chain's events. */
  datatype Epoch = Epoch(suite: Suite, did: Did, anchor: KeyState, roots: RootKeys, chain: set<Digest>)

  function AnchorState(ep: Epoch): EpochState {
    EpochState(
      map a | a in ep.anchor.members :: ep.anchor.members[a].entry,
      set a | a in ep.anchor.members && ep.anchor.members[a].removed,
      map[],
      ep.anchor.deny)
  }

  function DigestOf(ep: Epoch, event: EpochEvent): Digest {
    ep.suite.digestOf(OfEpoch(event))
  }

  // ---------------------------------------------------------------- who may do what

  datatype Reason =
    | WrongController | WrongGeneration | OutsideEpoch | ParentNotApplied
    | InvalidRootSignature | SignerUnknown | SignerRemoved | SignerDenied | InvalidMemberSignature
    | RevokesMember | RevokesRootKey
    | AddNotRoot | AddDidMismatch | AddKeyIsRoot | AddKeyDenied | AddKeyAlreadyMember
    | UnknownMember | SelfRenew | SelfRemove

  /** Why an event of this epoch is refused whatever its causal past. */
  function Intrinsic(ep: Epoch, event: EpochEvent): Option<Reason> {
    if event.i != ep.did then Some(WrongController)
    else if event.g != ep.anchor.gen then Some(WrongGeneration)
    else None
  }

  predicate Effective(ep: Epoch, state: EpochState, member: MemberEntry) {
    member.add !in state.removed && !IsDenied(ep.suite, state.deny, member)
  }

  /** Whether the signer an event names may sign at all here, and the keys it must sign with. */
  datatype Gate = Barred(reason: Reason) | Signers(keys: seq<Key>, signer: Option<MemberEntry>)

  function SignerGate(ep: Epoch, event: EpochEvent, causal: EpochState): Gate {
    match event.author
    case None => Signers(ep.anchor.keys, None)
    case Some(add) =>
      if add !in causal.added then Barred(SignerUnknown)
      else if add in causal.removed then Barred(SignerRemoved)
      else if IsDenied(ep.suite, causal.deny, causal.added[add]) then Barred(SignerDenied)
      else Signers([causal.added[add].key], Some(causal.added[add]))
  }

  datatype Outcome = Refused(reason: Reason) | Accepted(effect: EpochState)

  predicate TargetsSomeMember(ep: Epoch, x: Target, causal: EpochState) {
    exists a :: a in causal.added && Targets(ep.suite, x, causal.added[a])
  }

  predicate KeyIsLive(ep: Epoch, key: Key, causal: EpochState) {
    exists a :: a in causal.added && causal.added[a].key == key && Effective(ep, causal, causal.added[a])
  }

  /** The rules an authentic event is judged by, and what it adds when they accept it. */
  function Rules(ep: Epoch, event: EpochEvent, signer: Option<MemberEntry>, causal: EpochState): Outcome {
    match event.action
    case Revoke(x) =>
      if signer.Some? && TargetsSomeMember(ep, x, causal) then Refused(RevokesMember)
      else if x.KeyTarget? && (x.key in ep.anchor.keys || x.key in ep.anchor.agreement)
      then Refused(RevokesRootKey)
      else Accepted(EMPTY.(deny := {x}))
    case Add(did, key, lease) =>
      var digest := DigestOf(ep, event);
      var entry := MemberEntry(did, key, digest, lease);
      if signer.Some? then Refused(AddNotRoot)
      else if !ep.suite.carries(did, key) then Refused(AddDidMismatch)
      else if IsRootKey(ep.suite, key, ep.roots) then Refused(AddKeyIsRoot)
      else if IsDenied(ep.suite, causal.deny, entry) then Refused(AddKeyDenied)
      else if KeyIsLive(ep, key, causal) then Refused(AddKeyAlreadyMember)
      else Accepted(EMPTY.(added := map[digest := entry]))
    case Renew(add, lease) =>
      if add !in causal.added then Refused(UnknownMember)
      else if signer.Some? && signer.value.key == causal.added[add].key then Refused(SelfRenew)
      else Accepted(EMPTY.(leases := map[add := lease]))
    case Remove(add) =>
      if add !in causal.added then Refused(UnknownMember)
      else if signer.Some? && signer.value.key == causal.added[add].key then Refused(SelfRemove)
      else Accepted(EMPTY.(removed := {add}))
  }

  // ---------------------------------------------------------------- which copy is authentic

  /** A candidate: its event, the signature lists it was presented with, and the one memory holds. */
  datatype Candidate = Candidate(event: EpochEvent, copies: set<seq<Sig>>, trusted: Option<seq<Sig>>)

  /** Root signs with the anchor's keys, a member with its pinned one: a member's list has one entry
      because its key list does. */
  predicate Genuine(ep: Epoch, event: EpochEvent, sigs: seq<Sig>, keys: seq<Key>) {
    VerifySignatures(ep.suite, OfEpoch(event), sigs, keys)
  }

  ghost function GenuineCopies(ep: Epoch, cand: Candidate, keys: seq<Key>): set<seq<Sig>> {
    set s | s in cand.copies && Genuine(ep, cand.event, s, keys)
  }

  /** The copy to keep: memory's, else the genuine one whose signature list sorts first. */
  ghost function Authentic(ep: Epoch, cand: Candidate, keys: seq<Key>): Option<seq<Sig>> {
    if cand.trusted.Some? then cand.trusted
    else if GenuineCopies(ep, cand, keys) == {} then None
    else Some(FirstRanked(ep.suite, GenuineCopies(ep, cand, keys)))
  }

  ghost function FirstRanked(c: Suite, lists: set<seq<Sig>>): (first: seq<Sig>)
    requires lists != {}
    ensures first in lists
    ensures forall s :: s in lists ==> c.sigRank(first) <= c.sigRank(s)
  {
    var ranks := set s | s in lists :: c.sigRank(s);
    assert c.sigRank(Pick(lists)) in ranks;
    assert forall s :: s in lists ==> c.sigRank(s) in ranks;
    var first :| first in lists && c.sigRank(first) == Min(ranks);
    first
  }

  /** The copies checked and found false: those sorting before the one kept. */
  ghost function FailedCopies(ep: Epoch, cand: Candidate, keys: seq<Key>): set<seq<Sig>> {
    if cand.trusted.Some? then {}
    else if GenuineCopies(ep, cand, keys) == {} then cand.copies
    else
      var first := FirstRanked(ep.suite, GenuineCopies(ep, cand, keys));
      set s | s in cand.copies && ep.suite.sigRank(s) < ep.suite.sigRank(first)
  }

  ghost function Lengths(lists: set<seq<Sig>>): map<seq<Sig>, nat> {
    map s | s in lists :: |s|
  }

  /** What the failed copies are charged: every signature each carries. */
  ghost function Charge(lists: set<seq<Sig>>): nat {
    Total(Lengths(lists))
  }

  datatype Verdict = Verdict(outcome: Outcome, authentic: Option<seq<Sig>>, charge: nat)

  /** Judging a candidate against the state its parents established. */
  ghost function Judge(ep: Epoch, cand: Candidate, causal: EpochState): Verdict {
    match SignerGate(ep, cand.event, causal)
    case Barred(reason) => Verdict(Refused(reason), None, 0)
    case Signers(keys, signer) =>
      var authentic := Authentic(ep, cand, keys);
      var charge := Charge(FailedCopies(ep, cand, keys));
      if authentic.None?
      then Verdict(Refused(if cand.event.author.None? then InvalidRootSignature else InvalidMemberSignature), None, charge)
      else Verdict(Rules(ep, cand.event, signer, causal), authentic, charge)
  }

  // ---------------------------------------------------------------- the recursive definition

  type Graph = map<Digest, Candidate>
  type States = map<Digest, EpochState>

  ghost function EffectOf(verdict: Verdict): Option<EpochState> {
    if verdict.outcome.Accepted? then Some(verdict.outcome.effect) else None
  }

  function ParentsOf(g: Graph): map<Digest, seq<Digest>> {
    map d | d in g :: g[d].event.p
  }

  /** The candidates as a graph whose events are judged on the join of their parents' states. */
  ghost function DagOf(ep: Epoch, g: Graph): Dag<EpochState> {
    Dag(ParentsOf(g), ep.anchor.epoch, AnchorState(ep), EMPTY, Join,
        (d, causal) => if d in g then EffectOf(Judge(ep, g[d], causal)) else None)
  }

  /** The states after the events that apply. */
  ghost function After(ep: Epoch, g: Graph): States {
    AfterStates(DagOf(ep, g))
  }

  /** The events that are judged: those whose parents all apply. */
  ghost function Evaluated(ep: Epoch, g: Graph): set<Digest> {
    set d | d in g && ParentsIn(ep.anchor.epoch, g[d].event.p, After(ep, g).Keys)
  }

  ghost function VerdictOn(ep: Epoch, g: Graph, after: States, d: Digest): Verdict
    requires d in g
  {
    Judge(ep, g[d], Causal(DagOf(ep, g), after, g[d].event.p))
  }

  ghost function Charges(ep: Epoch, g: Graph): map<Digest, nat> {
    map d | d in Evaluated(ep, g) :: VerdictOn(ep, g, After(ep, g), d).charge
  }

  // ---------------------------------------------------------------- triage

  /** What a fold is given, without the order it came in: what memory holds of this epoch, the distinct
      well-formed copies presented, and how many entries were not epoch events. */
  datatype View = View(held: map<Digest, EpochCopy>, present: set<EpochCopy>, junk: nat)

  predicate Local(ep: Epoch, event: EpochEvent) {
    event.e == ep.anchor.epoch && Intrinsic(ep, event).None?
  }

  predicate WellFormed(ep: Epoch, entry: EpochEntry) {
    entry.Typed? && IsEpochShape(ep.suite, entry.copy)
  }

  predicate Usable(ep: Epoch, entry: EpochEntry) {
    WellFormed(ep, entry) && Local(ep, entry.copy.event)
  }

  /** Memory's copies of this epoch, the first of each event. */
  function Held(ep: Epoch, trusted: seq<EpochEntry>): map<Digest, EpochCopy> {
    if trusted == [] then map[]
    else
      var rest := Held(ep, trusted[..|trusted| - 1]);
      var last := trusted[|trusted| - 1];
      if Usable(ep, last) && DigestOf(ep, last.copy.event) !in rest
      then rest[DigestOf(ep, last.copy.event) := last.copy]
      else rest
  }

  /** Memory's copies are shaped, of this epoch and under their own digest. */
  lemma {:induction false} HeldShaped(ep: Epoch, trusted: seq<EpochEntry>)
    ensures forall d :: d in Held(ep, trusted) ==>
      var x := Held(ep, trusted)[d];
      Typed(x) in trusted && IsEpochShape(ep.suite, x) && Local(ep, x.event) && DigestOf(ep, x.event) == d
  {
    if trusted != [] {
      HeldShaped(ep, trusted[..|trusted| - 1]);
    }
  }

  function Present(ep: Epoch, events: seq<EpochEntry>): set<EpochCopy> {
    set x | x in events && WellFormed(ep, x) :: x.copy
  }

  function JunkCount(ep: Epoch, events: seq<EpochEntry>): nat {
    if events == [] then 0
    else
      JunkCount(ep, events[..|events| - 1]) + if WellFormed(ep, events[|events| - 1]) then 0 else 1
  }

  function ViewOf(ep: Epoch, trusted: seq<EpochEntry>, events: seq<EpochEntry>): View {
    View(Held(ep, trusted), Present(ep, events), JunkCount(ep, events))
  }

  ghost function LocalDigests(ep: Epoch, present: set<EpochCopy>): set<Digest> {
    set x | x in present && Local(ep, x.event) :: DigestOf(ep, x.event)
  }

  ghost function CopiesOf(ep: Epoch, present: set<EpochCopy>, d: Digest): set<seq<Sig>> {
    set x | x in present && DigestOf(ep, x.event) == d :: x.sigs
  }

  ghost function EventOf(ep: Epoch, present: set<EpochCopy>, d: Digest): EpochEvent
    requires d in LocalDigests(ep, present)
  {
    var x :| x in present && Local(ep, x.event) && DigestOf(ep, x.event) == d;
    x.event
  }

  /** The candidates: memory's copies, and every presented event of this epoch with all its copies. */
  ghost function Candidates(ep: Epoch, view: View): Graph {
    map d | d in view.held.Keys + LocalDigests(ep, view.present) ::
      if d in view.held
      then Candidate(view.held[d].event, {view.held[d].sigs}, Some(view.held[d].sigs))
      else Candidate(EventOf(ep, view.present, d), CopiesOf(ep, view.present, d), None)
  }

  ghost function OtherEpochs(ep: Epoch, present: set<EpochCopy>): set<Digest> {
    set x | x in present && x.event.e != ep.anchor.epoch :: DigestOf(ep, x.event)
  }

  /** Events of this epoch refused on sight. */
  ghost function RefusedOnSight(ep: Epoch, present: set<EpochCopy>): set<Digest> {
    set x | x in present && x.event.e == ep.anchor.epoch && Intrinsic(ep, x.event).Some? :: DigestOf(ep, x.event)
  }

  ghost function RefusalOnSight(ep: Epoch, present: set<EpochCopy>, d: Digest): Reason
    requires d in RefusedOnSight(ep, present)
  {
    var x :| x in present && x.event.e == ep.anchor.epoch && Intrinsic(ep, x.event).Some? && DigestOf(ep, x.event) == d;
    Intrinsic(ep, x.event).value
  }

  predicate ListsOutside(ep: Epoch, known: set<Digest>, others: set<Digest>, parents: seq<Digest>) {
    exists q :: q in parents && q != ep.anchor.epoch && q !in known && (q in others || q in ep.chain)
  }

  /** Candidates naming a parent that is another epoch's event, or the chain's. */
  ghost function CrossEpoch(ep: Epoch, view: View): set<Digest> {
    var cands := Candidates(ep, view);
    set d | d in cands && ListsOutside(ep, cands.Keys, OtherEpochs(ep, view.present), cands[d].event.p)
  }

  ghost function GraphOf(ep: Epoch, view: View): Graph {
    Candidates(ep, view) - CrossEpoch(ep, view)
  }

  // ---------------------------------------------------------------- the merged head

  /** The anchor's state joined with the effect of each event of `order`, given the states after them. */
  ghost function Union(ep: Epoch, g: Graph, after: States, order: seq<Digest>): EpochState
    requires Elems(order) <= g.Keys
  {
    if order == [] then AnchorState(ep)
    else
      var last := order[|order| - 1];
      assert last in Elems(order);
      assert Elems(order[..|order| - 1]) <= Elems(order);
      var before := Union(ep, g, after, order[..|order| - 1]);
      var outcome := VerdictOn(ep, g, after, last).outcome;
      if outcome.Accepted? then Join(before, outcome.effect) else before
  }

  /** The members of a merged state: each incarnation with its longest lease and whether it may act. */
  function MembersOf(ep: Epoch, state: EpochState): map<Digest, MemberState> {
    map add | add in state.added ::
      var entry := state.added[add];
      var renewed := if add in state.leases then state.leases[add] else 0;
      var removed := add in state.removed;
      MemberState(entry.(lease := if entry.lease >= renewed then entry.lease else renewed),
        removed, !removed && !IsDenied(ep.suite, state.deny, entry))
  }

  function HeadOf(ep: Epoch, state: EpochState, saturated: bool): KeyState {
    ep.anchor.(deny := state.deny, members := MembersOf(ep, state), saturated := saturated)
  }

  datatype EpochFold =
    | TooManyFailedSignatures
    | Merged(head: KeyState, applied: seq<Digest>, pending: nat, rejected: nat,
        reasons: map<Digest, Reason>, authentic: map<Digest, EpochCopy>)

  /** Applied events in the order they apply: parents first, ties by ascending digest. */
  ghost function Applied(ep: Epoch, g: Graph): (order: seq<Digest>)
    ensures Elems(order) <= g.Keys
  {
    SettledInGraph(DagOf(ep, g), |g|);
    KahnOrder(ParentsOf(g), ep.anchor.epoch, After(ep, g).Keys, [])
  }

  /** Why each event that did not apply did not. */
  ghost function Reasons(ep: Epoch, view: View): map<Digest, Reason> {
    var g := GraphOf(ep, view);
    (map d | d in RefusedOnSight(ep, view.present) :: RefusalOnSight(ep, view.present, d))
    + (map d | d in CrossEpoch(ep, view) :: OutsideEpoch)
    + (map d | d in g && d !in After(ep, g) ::
        if d in Evaluated(ep, g) && VerdictOn(ep, g, After(ep, g), d).outcome.Refused?
        then VerdictOn(ep, g, After(ep, g), d).outcome.reason
        else ParentNotApplied)
  }

  ghost function AuthenticCopies(ep: Epoch, g: Graph): map<Digest, EpochCopy> {
    map d | d in After(ep, g) && d in g && VerdictOn(ep, g, After(ep, g), d).authentic.Some? ::
      EpochCopy(g[d].event, VerdictOn(ep, g, After(ep, g), d).authentic.value)
  }

  /** The merge of an epoch: refused as a whole when the signatures found false are too many, else the
      head and the account of every event presented. */
  ghost function FoldSpec(ep: Epoch, view: View, maxEvents: nat): EpochFold {
    var g := GraphOf(ep, view);
    var applied := Applied(ep, g);
    if Total(Charges(ep, g)) > MAX_FAILED_SIGNATURES then TooManyFailedSignatures
    else
      Merged(
        HeadOf(ep, Union(ep, g, After(ep, g), applied), |applied| > maxEvents),
        applied,
        |g.Keys - Evaluated(ep, g)|,
        view.junk + |RefusedOnSight(ep, view.present)| + |CrossEpoch(ep, view)|
          + |Evaluated(ep, g) - After(ep, g).Keys|,
        Reasons(ep, view),
        AuthenticCopies(ep, g))
  }
}
