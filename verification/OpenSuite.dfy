/** A suite the assumptions hold of: digests that are numberings of bodies, and checks that accept everything. */
module OpenSuite {
  import opened Basics
  import opened Events

  // ---------------------------------------------------------------- numbers for pairs and lists

  ghost function Natural(n: int): nat {
    if n >= 0 then 2 * n else -2 * n - 1
  }

  ghost function Doubled(times: nat, n: nat): nat {
    if times == 0 then n else 2 * Doubled(times - 1, n)
  }

  /** One number for two: the first counts the twos in it, the second is what is left. */
  ghost function Pair(a: int, b: int): int {
    Doubled(Natural(a), 2 * Natural(b) + 1)
  }

  lemma {:induction false} DoubledApart(m: nat, x: nat, n: nat, y: nat)
    requires Doubled(m, 2 * x + 1) == Doubled(n, 2 * y + 1)
    ensures m == n && x == y
  {
    if m > 0 && n > 0 {
      DoubledApart(m - 1, x, n - 1, y);
    }
  }

  lemma PairApart()
    ensures forall a, b, c, d :: Pair(a, b) == Pair(c, d) ==> a == c && b == d
  {
    forall a, b, c, d | Pair(a, b) == Pair(c, d) ensures a == c && b == d {
      DoubledApart(Natural(a), Natural(b), Natural(c), Natural(d));
    }
  }

  ghost function OfList(s: seq<int>): int {
    if s == [] then Pair(0, 0) else Pair(1, Pair(s[0], OfList(s[1..])))
  }

  lemma {:induction false} ListsApart(s: seq<int>, t: seq<int>)
    requires OfList(s) == OfList(t)
    ensures s == t
  {
    hide Pair;
    PairApart();
    if s != [] && t != [] {
      ListsApart(s[1..], t[1..]);
      assert s == [s[0]] + s[1..] && t == [t[0]] + t[1..];
    }
  }

  // ---------------------------------------------------------------- numbers for what a log is made of

  ghost function OfDid(did: Did): int {
    match did
    case Kokuin(inception) => Pair(0, inception)
    case Foreign(id) => Pair(1, id)
  }

  ghost function OfTarget(x: Target): int {
    match x
    case KeyTarget(key) => Pair(0, key)
    case HolderTarget(did) => Pair(1, OfDid(did))
    case OpaqueTarget(id) => Pair(2, id)
  }

  ghost function OfTargets(s: seq<Target>): int {
    if s == [] then Pair(0, 0) else Pair(1, Pair(OfTarget(s[0]), OfTargets(s[1..])))
  }

  ghost function OfEntry(entry: MemberEntry): int {
    Pair(OfDid(entry.did), Pair(entry.key, Pair(entry.add, entry.lease)))
  }

  ghost function OfEntries(s: seq<MemberEntry>): int {
    if s == [] then Pair(0, 0) else Pair(1, Pair(OfEntry(s[0]), OfEntries(s[1..])))
  }

  lemma PartsApart()
    ensures forall a, b :: OfDid(a) == OfDid(b) ==> a == b
    ensures forall a, b :: OfTarget(a) == OfTarget(b) ==> a == b
    ensures forall a, b :: OfEntry(a) == OfEntry(b) ==> a == b
  {
    hide Pair;
    PairApart();
  }

  lemma {:induction false} TargetsApart(s: seq<Target>, t: seq<Target>)
    requires OfTargets(s) == OfTargets(t)
    ensures s == t
  {
    hide Pair, OfTarget;
    PairApart();
    PartsApart();
    if s != [] && t != [] {
      TargetsApart(s[1..], t[1..]);
      assert s == [s[0]] + s[1..] && t == [t[0]] + t[1..];
    }
  }

  lemma {:induction false} EntriesApart(s: seq<MemberEntry>, t: seq<MemberEntry>)
    requires OfEntries(s) == OfEntries(t)
    ensures s == t
  {
    hide Pair, OfEntry;
    PairApart();
    PartsApart();
    if s != [] && t != [] {
      EntriesApart(s[1..], t[1..]);
      assert s == [s[0]] + s[1..] && t == [t[0]] + t[1..];
    }
  }

  ghost function OfEntriesIf(s: Option<seq<MemberEntry>>): int {
    if s.None? then Pair(0, 0) else Pair(1, OfEntries(s.value))
  }

  ghost function OfTargetsIf(s: Option<seq<Target>>): int {
    if s.None? then Pair(0, 0) else Pair(1, OfTargets(s.value))
  }

  ghost function OfNumberIf(n: Option<int>): int {
    if n.None? then Pair(0, 0) else Pair(1, n.value)
  }

  ghost function OfFlagIf(b: Option<bool>): int {
    if b.None? then 0 else if b.value then 1 else 2
  }

  ghost function OfKeys(keys: KeySet): int {
    Pair(OfList(keys.k), Pair(OfList(keys.ka), Pair(OfList(keys.n), Pair(keys.kt, keys.nt))))
  }

  ghost function OfAction(action: Action): int {
    match action
    case Add(did, key, lease) => Pair(0, Pair(OfDid(did), Pair(key, lease)))
    case Renew(add, lease) => Pair(1, Pair(add, lease))
    case Remove(add) => Pair(2, add)
    case Revoke(x) => Pair(3, OfTarget(x))
  }

  ghost function OfEvent(event: EpochEvent): int {
    Pair(OfDid(event.i), Pair(event.g, Pair(event.e, Pair(OfList(event.p), Pair(OfNumberIf(event.author), OfAction(event.action))))))
  }

  ghost function OfChainEvent(event: ChainEvent): int {
    match event
    case Inception(g, s, keys, r) => Pair(0, Pair(g, Pair(s, Pair(OfKeys(keys), r))))
    case Rotate(i, g, s, p, keys, seal, m, u, d) =>
      Pair(1, Pair(OfDid(i), Pair(g, Pair(s, Pair(p, Pair(OfKeys(keys), Pair(OfNumberIf(seal), Pair(OfEntriesIf(m), Pair(OfEntriesIf(u), OfTargetsIf(d))))))))))
    case Unknown(t, i, g, s, p, crit) => Pair(2, Pair(t, Pair(OfDid(i), Pair(g, Pair(s, Pair(p, OfFlagIf(crit)))))))
  }

  ghost function OfBody(body: Body): int {
    match body
    case OfChain(chain) => Pair(0, OfChainEvent(chain))
    case OfEpoch(epoch) => Pair(1, OfEvent(epoch))
  }

  lemma FieldsApart()
    ensures forall a, b :: OfEntriesIf(a) == OfEntriesIf(b) ==> a == b
    ensures forall a, b :: OfTargetsIf(a) == OfTargetsIf(b) ==> a == b
    ensures forall a, b :: OfNumberIf(a) == OfNumberIf(b) ==> a == b
    ensures forall a, b :: OfFlagIf(a) == OfFlagIf(b) ==> a == b
    ensures forall s, t :: OfList(s) == OfList(t) ==> s == t
  {
    hide Pair, OfEntries, OfTargets, OfList;
    PairApart();
    forall s, t | OfEntries(s) == OfEntries(t) ensures s == t {
      EntriesApart(s, t);
    }
    forall s, t | OfTargets(s) == OfTargets(t) ensures s == t {
      TargetsApart(s, t);
    }
    forall s, t | OfList(s) == OfList(t) ensures s == t {
      ListsApart(s, t);
    }
  }

  lemma KeysApart()
    ensures forall a, b :: OfKeys(a) == OfKeys(b) ==> a == b
  {
    hide Pair, OfList;
    PairApart();
    FieldsApart();
  }

  lemma EventsApart(a: EpochEvent, b: EpochEvent)
    requires OfEvent(a) == OfEvent(b)
    ensures a == b
  {
    hide Pair, OfList, OfDid, OfTarget, OfNumberIf;
    PairApart();
    PartsApart();
    FieldsApart();
  }

  lemma ChainEventsApart(a: ChainEvent, b: ChainEvent)
    requires OfChainEvent(a) == OfChainEvent(b)
    ensures a == b
  {
    hide Pair, OfList, OfDid, OfKeys, OfNumberIf, OfEntriesIf, OfTargetsIf, OfFlagIf;
    PairApart();
    PartsApart();
    FieldsApart();
    KeysApart();
  }

  /** No two bodies have one number. */
  lemma BodiesApart(a: Body, b: Body)
    requires OfBody(a) == OfBody(b)
    ensures a == b
  {
    hide Pair, OfEvent, OfChainEvent;
    PairApart();
    if a.OfChain? && b.OfChain? {
      ChainEventsApart(a.chain, b.chain);
    } else if a.OfEpoch? && b.OfEpoch? {
      EventsApart(a.epoch, b.epoch);
    }
  }

  // ---------------------------------------------------------------- the suite

  ghost function BodyAt(digest: Digest): (body: Body)
    ensures (exists b :: OfBody(b) == digest) ==> OfBody(body) == digest
  {
    if b :| OfBody(b) == digest then b else OfEpoch(EpochEvent(Foreign(0), 0, 0, [], None, Remove(0)))
  }

  ghost function ListAt(rank: int): (s: seq<int>)
    ensures (exists t :: OfList(t) == rank) ==> OfList(s) == rank
  {
    if t :| OfList(t) == rank then t else []
  }

  /** Everything verifies, every DID carries every key and is spelled one way, and every event fits. */
  ghost function Accepting(): Suite {
    Suite(OfBody, BodyAt, key => key, OfList, ListAt, (body, sig, key) => true, key => true, key => true,
      did => did, (did, key) => true, event => 0)
  }

  /** The assumptions made of a suite can be met. */
  lemma AcceptingSound()
    ensures Sound(Accepting())
  {
    hide OfBody, OfList;
    var c := Accepting();
    forall body ensures c.bodyOf(c.digestOf(body)) == body {
      BodiesApart(BodyAt(OfBody(body)), body);
    }
    forall sigs ensures c.listAt(c.sigRank(sigs)) == sigs {
      ListsApart(ListAt(OfList(sigs)), sigs);
    }
  }
}
