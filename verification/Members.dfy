/** Members and their pins: which keys are root's, what a denial targets, and when a state snapshot may
    become the state. */
module Members {
  import opened Basics
  import opened Events

  /** The root keys of a generation along a chain: every `k`, `ka` and `n` on it, and recovery. */
  function RootsOf(states: seq<KeyState>, gen: int, recovery: Digest): RootKeys {
    RootKeys(
      set s, key | s in states && s.gen == gen && key in s.keys + s.agreement :: key,
      set s, commitment | s in states && s.gen == gen && commitment in s.next :: commitment,
      recovery)
  }

  lemma RootsNext(states: seq<KeyState>, i: nat, gen: int, recovery: Digest)
    requires i < |states|
    ensures var before, now := RootsOf(states[..i], gen, recovery), RootsOf(states[..i + 1], gen, recovery);
      if states[i].gen == gen
      then now.keys == before.keys + Elems(states[i].keys + states[i].agreement)
        && now.commitments == before.commitments + Elems(states[i].next)
      else now == before
    ensures RootsOf(states[..i + 1], gen, recovery).recovery == recovery
    ensures (set s | s in states[..i + 1] :: s.digest) == (set s | s in states[..i] :: s.digest) + {states[i].digest}
  {
    assert states[..i + 1] == states[..i] + [states[i]];
    assert forall s :: s in states[..i + 1] <==> s in states[..i] || s == states[i];
    var before, now := RootsOf(states[..i], gen, recovery), RootsOf(states[..i + 1], gen, recovery);
    if states[i].gen == gen {
      forall key | key in before.keys ensures key in now.keys {
        var s :| s in states[..i] && s.gen == gen && key in s.keys + s.agreement;
        assert s in states[..i + 1];
      }
      forall key | key in states[i].keys + states[i].agreement ensures key in now.keys {
        assert states[i] in states[..i + 1];
      }
      forall x | x in before.commitments ensures x in now.commitments {
        var s :| s in states[..i] && s.gen == gen && x in s.next;
        assert s in states[..i + 1];
      }
      forall x | x in states[i].next ensures x in now.commitments {
        assert states[i] in states[..i + 1];
      }
    }
  }

  // ---------------------------------------------------------------- signatures and denials

  /** At least one key, each an Ed25519 one with a valid signature in its own place, and no signature more. */
  ghost predicate SignedBy(c: Suite, body: Body, sigs: seq<Sig>, keys: seq<Key>) {
    && 0 < |keys| == |sigs|
    && forall j :: 0 <= j < |keys| ==> c.isEd25519(keys[j]) && c.sigOk(body, sigs[j], keys[j])
  }

  /** A deny list names a member: the key it is pinned to, or its DID up to spelling. */
  ghost predicate Names(c: Suite, t: Target, did: Did, key: Key) {
    t == KeyTarget(key) || (t.HolderTarget? && c.canonical(t.did) == c.canonical(did))
  }

  ghost predicate Unnamed(c: Suite, deny: set<Target>, did: Did, key: Key) {
    forall t :: t in deny ==> !Names(c, t, did, key)
  }

  lemma DeniedIff(c: Suite, deny: set<Target>, member: MemberEntry)
    ensures IsDenied(c, deny, member) <==> !Unnamed(c, deny, member.did, member.key)
  {
    if t :| t in deny && Names(c, t, member.did, member.key) {
      assert Targets(c, t, member);
    }
    if t :| t in deny && Targets(c, t, member) {
      assert Names(c, t, member.did, member.key);
    }
  }

  /** Denials matched against members with each DID canonicalised once. */
  class DenialMatcher {
    const suite: Suite
    var canonical: map<Did, Did>

    ghost predicate Valid()
      reads this
    {
      forall did :: did in canonical ==> canonical[did] == suite.canonical(did)
    }

    constructor (c: Suite)
      ensures Valid() && suite == c
    {
      suite := c;
      canonical := map[];
    }

    method CanonicalOnce(did: Did) returns (r: Did)
      requires Valid()
      modifies this
      ensures Valid() && r == suite.canonical(did)
      ensures canonical == old(canonical)[did := r]
    {
      if did !in canonical {
        canonical := canonical[did := suite.canonical(did)];
      }
      r := canonical[did];
    }

    /** The cache changes the work, never the answer. */
    method Matches(entry: Target, member: MemberEntry) returns (r: bool)
      requires Valid()
      modifies this
      ensures Valid() && r == Targets(suite, entry, member)
    {
      if entry == KeyTarget(member.key) {
        return true;
      }
      if !entry.HolderTarget? {
        return false;
      }
      var left := CanonicalOnce(entry.did);
      var right := CanonicalOnce(member.did);
      r := left == right;
    }
  }

  /** The whole state a rotate leaves behind. */
  datatype Snapshot = Snapshot(members: seq<MemberEntry>, removed: seq<MemberEntry>, deny: seq<Target>)

  datatype SnapshotFault = Malformed | MemberKeyIsRoot | MemberDidMismatch | DropsRetiredKey

  predicate IsMemberEntry(c: Suite, entry: MemberEntry) {
    IsSeconds(entry.lease) && c.isEd25519(entry.key)
  }

  predicate DistinctAdds(entries: seq<MemberEntry>) {
    forall i, j :: 0 <= i < j < |entries| ==> entries[i].add != entries[j].add
  }

  predicate DistinctPins(entries: seq<MemberEntry>) {
    forall i, j :: 0 <= i < j < |entries| ==> entries[i].key != entries[j].key
  }

  /** No two entries share an `add`, live or removed, and no two live ones a key. */
  predicate Shaped(c: Suite, snapshot: Snapshot) {
    && (forall entry :: entry in snapshot.members + snapshot.removed ==> IsMemberEntry(c, entry))
    && DistinctAdds(snapshot.members + snapshot.removed)
    && DistinctPins(snapshot.members)
  }

  function SnapshotFaultOf(c: Suite, snapshot: Snapshot, roots: RootKeys, tombstones: set<Target>): Option<SnapshotFault> {
    var entries := snapshot.members + snapshot.removed;
    if !Shaped(c, snapshot) then Some(Malformed)
    else if exists entry :: entry in entries && IsRootKey(c, entry.key, roots) then Some(MemberKeyIsRoot)
    else if exists entry :: entry in entries && !c.carries(entry.did, entry.key) then Some(MemberDidMismatch)
    else if exists t :: t in tombstones && t !in snapshot.deny then Some(DropsRetiredKey)
    else None
  }

  function AddsOf(entries: seq<MemberEntry>): set<Digest> {
    set entry | entry in entries :: entry.add
  }

  function PinsOf(entries: seq<MemberEntry>): set<Key> {
    set entry | entry in entries :: entry.key
  }

  lemma AddsNext(entries: seq<MemberEntry>, i: nat)
    requires i < |entries|
    ensures AddsOf(entries[..i + 1]) == AddsOf(entries[..i]) + {entries[i].add}
    ensures PinsOf(entries[..i + 1]) == PinsOf(entries[..i]) + {entries[i].key}
    ensures DistinctAdds(entries[..i + 1]) <==> DistinctAdds(entries[..i]) && entries[i].add !in AddsOf(entries[..i])
    ensures DistinctPins(entries[..i + 1]) <==> DistinctPins(entries[..i]) && entries[i].key !in PinsOf(entries[..i])
  {
    var before, now := entries[..i], entries[..i + 1];
    assert now == before + [entries[i]];
    forall entry ensures entry in now <==> entry in before || entry == entries[i] {
    }
    if entries[i].add in AddsOf(before) {
      var j :| 0 <= j < i && before[j].add == entries[i].add;
      assert now[j].add == now[i].add;
    }
    if entries[i].key in PinsOf(before) {
      var j :| 0 <= j < i && before[j].key == entries[i].key;
      assert now[j].key == now[i].key;
    }
    if DistinctAdds(now) {
      forall j, k | 0 <= j < k < i ensures before[j].add != before[k].add {
        assert now[j].add != now[k].add;
      }
    }
    if DistinctPins(now) {
      forall j, k | 0 <= j < k < i ensures before[j].key != before[k].key {
        assert now[j].key != now[k].key;
      }
    }
  }

  lemma PrefixDistinct(entries: seq<MemberEntry>, i: nat)
    requires i <= |entries|
    ensures DistinctAdds(entries) ==> DistinctAdds(entries[..i])
    ensures DistinctPins(entries) ==> DistinctPins(entries[..i])
  {
  }

  /** The live entries, one by one; `adds` is what they were admitted by. */
  method CheckLive(c: Suite, members: seq<MemberEntry>) returns (ok: bool, adds: set<Digest>)
    ensures ok == ((forall entry :: entry in members ==> IsMemberEntry(c, entry)) && DistinctAdds(members) && DistinctPins(members))
    ensures ok ==> adds == AddsOf(members)
  {
    hide DistinctAdds, DistinctPins, AddsOf, PinsOf, IsMemberEntry;
    adds := {};
    var pins: set<Key> := {};
    NoEntries();
    for i := 0 to |members|
      invariant forall j :: 0 <= j < i ==> IsMemberEntry(c, members[j])
      invariant DistinctAdds(members[..i]) && DistinctPins(members[..i])
      invariant adds == AddsOf(members[..i]) && pins == PinsOf(members[..i])
    {
      AddsNext(members, i);
      PrefixDistinct(members, i + 1);
      if !IsMemberEntry(c, members[i]) || members[i].add in adds || members[i].key in pins {
        return false, adds;
      }
      adds := adds + {members[i].add};
      pins := pins + {members[i].key};
    }
    assert members[..|members|] == members;
    ok := true;
  }

  lemma NoEntries()
    ensures DistinctAdds([]) && DistinctPins([]) && AddsOf([]) == {} && PinsOf([]) == {}
  {
  }

  /** The shape of a snapshot, entry by entry. */
  method CheckShape(c: Suite, snapshot: Snapshot) returns (ok: bool)
    ensures ok == Shaped(c, snapshot)
  {
    hide DistinctAdds, DistinctPins, AddsOf, PinsOf, IsMemberEntry;
    var members, removed := snapshot.members, snapshot.removed;
    ghost var entries := members + removed;
    var live, adds := CheckLive(c, members);
    assert entries[..|members|] == members;
    PrefixDistinct(entries, |members|);
    if !live {
      return false;
    }
    for i := 0 to |removed|
      invariant forall j :: 0 <= j < i ==> IsMemberEntry(c, removed[j])
      invariant DistinctAdds(entries[..|members| + i]) && adds == AddsOf(entries[..|members| + i])
    {
      AddsNext(entries, |members| + i);
      PrefixDistinct(entries, |members| + i + 1);
      if !IsMemberEntry(c, removed[i]) || removed[i].add in adds {
        assert removed[i] in entries;
        return false;
      }
      adds := adds + {removed[i].add};
    }
    assert entries[..|members| + |removed|] == entries;
    ok := true;
  }

  /** The first thing wrong with a snapshot for these root keys and retirements, or nothing. */
  method ValidateSnapshot(c: Suite, snapshot: Snapshot, roots: RootKeys, tombstones: set<Target>) returns (fault: Option<SnapshotFault>)
    ensures fault == SnapshotFaultOf(c, snapshot, roots, tombstones)
  {
    hide Shaped, IsRootKey;
    var ok := CheckShape(c, snapshot);
    if !ok {
      return Some(Malformed);
    }
    var entries := snapshot.members + snapshot.removed;
    for i := 0 to |entries|
      invariant forall j :: 0 <= j < i ==> !IsRootKey(c, entries[j].key, roots)
    {
      if IsRootKey(c, entries[i].key, roots) {
        assert entries[i] in entries;
        return Some(MemberKeyIsRoot);
      }
    }
    for i := 0 to |entries|
      invariant forall j :: 0 <= j < i ==> c.carries(entries[j].did, entries[j].key)
    {
      if !c.carries(entries[i].did, entries[i].key) {
        assert entries[i] in entries;
        return Some(MemberDidMismatch);
      }
    }
    var todo := tombstones;
    while todo != {}
      invariant todo <= tombstones && forall t :: t in tombstones && t !in todo ==> t in snapshot.deny
      decreases todo
    {
      var t := Take(todo);
      if t !in snapshot.deny {
        return Some(DropsRetiredKey);
      }
      todo := todo - {t};
    }
    fault := None;
  }
}
