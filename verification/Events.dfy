/** What a controller log is made of: identifiers, the root chain's events, the events of an epoch,
    and the key state the fold produces. Wire strings that are only ever compared for equality are
    integers here; a digest is one too, since digests have one length and sort as numbers do. */
module Events {
  import opened Basics

  type Digest = int
  type Key = int
  type Sig = int

  /** A DID: the one an inception's digest names, or any other. */
  datatype Did = Kokuin(inception: Digest) | Foreign(id: int)

  /** A deny entry: `#key`, a DID, or a string that is neither. */
  datatype Target = KeyTarget(key: Key) | HolderTarget(did: Did) | OpaqueTarget(id: int)

  datatype MemberEntry = MemberEntry(did: Did, key: Key, add: Digest, lease: int)

  datatype MemberState = MemberState(entry: MemberEntry, removed: bool, effective: bool)

  /** Events of an epoch. `author` (`by` on the wire) is absent for root. */
  datatype Action =
    | Add(did: Did, key: Key, lease: int)
    | Renew(add: Digest, lease: int)
    | Remove(add: Digest)
    | Revoke(x: Target)

  datatype EpochEvent =
    EpochEvent(i: Did, g: int, e: Digest, p: seq<Digest>, author: Option<Digest>, action: Action)

  /** The lists an `icp` or a `rot` publishes. */
  datatype KeySet = KeySet(k: seq<Key>, ka: seq<Key>, n: seq<Digest>, kt: int, nt: int)

  /** Events of the root chain. An inception omits the DID; `crit` is absent when not a boolean. */
  datatype ChainEvent =
    | Inception(g: int, s: int, keys: KeySet, r: Digest)
    | Rotate(i: Did, g: int, s: int, p: Digest, keys: KeySet, seal: Option<int>,
        m: Option<seq<MemberEntry>>, u: Option<seq<MemberEntry>>, d: Option<seq<Target>>)
    | Unknown(t: int, i: Did, g: int, s: int, p: Digest, crit: Option<bool>)

  /** What a digest is taken of: an event of either tier. */
  datatype Body = OfChain(chain: ChainEvent) | OfEpoch(epoch: EpochEvent)

  /** A presented chain entry: an envelope of the right shape, or anything else. */
  datatype ChainEntry = BadEntry | Signed(event: ChainEvent, sigs: seq<Sig>, recoveryKey: Option<Key>)

  /** One copy of an epoch event: copies of one event differ only in their signatures. */
  datatype EpochCopy = EpochCopy(event: EpochEvent, sigs: seq<Sig>)

  /** A presented epoch entry: typed as a signed epoch event, or anything else. */
  datatype EpochEntry = Junk | Typed(copy: EpochCopy)

  /** The state after one chain event, or of the head once the epoch is merged in. */
  datatype KeyState = KeyState(
    did: Did, gen: int, sequence: int, keyGen: int, keySeq: int,
    keys: seq<Key>, agreement: seq<Key>, next: seq<Digest>, recovery: Digest,
    deny: set<Target>, members: map<Digest, MemberState>, tombstones: map<Digest, MemberEntry>,
    epoch: Digest, saturated: bool, digest: Digest)

  /** The functions the log is read through and this model does not look inside. `bodyOf` and `listAt`
      are read by no operation: they say that a digest is of one body only and that signature lists
      have distinct places in text order. */
  datatype Suite = Suite(
    digestOf: Body -> Digest, bodyOf: Digest -> Body,
    keyDigest: Key -> Digest,
    sigRank: seq<Sig> -> int, listAt: int -> seq<Sig>,
    sigOk: (Body, Sig, Key) -> bool,
    isEd25519: Key -> bool,
    isX25519: Key -> bool,
    canonical: Did -> Did,
    carries: (Did, Key) -> bool,
    size: EpochEvent -> nat)

  /** Digests identify bodies, and the text order of signature lists tells any two lists apart. */
  ghost predicate Sound(c: Suite) {
    && (forall body :: c.bodyOf(c.digestOf(body)) == body)
    && (forall sigs :: c.listAt(c.sigRank(sigs)) == sigs)
  }

  const MAX_SAFE_INTEGER := 0x1F_FFFF_FFFF_FFFF
  const MAX_EPOCH_EVENTS: nat := 4096
  const MAX_LOG_EVENTS: nat := 8192
  const MAX_FAILED_SIGNATURES: nat := 64
  const MAX_EVENT_PARENTS: nat := 16
  const MAX_EVENT_BYTES: nat := 8192
  const MAX_EVENT_SIGNATURES: nat := 16

  predicate IsSeconds(n: int) {
    0 <= n <= MAX_SAFE_INTEGER
  }

  /** The checks of an epoch entry that its types leave open. */
  predicate IsEpochShape(c: Suite, copy: EpochCopy) {
    && 0 < |copy.sigs| <= MAX_EVENT_SIGNATURES
    && IsSeconds(copy.event.g)
    && 0 < |copy.event.p| <= MAX_EVENT_PARENTS
    && Distinct(copy.event.p)
    && (copy.event.action.Add? || copy.event.action.Renew? ==> IsSeconds(copy.event.action.lease))
    && c.size(copy.event) <= MAX_EVENT_BYTES
  }

  /** One valid Ed25519 signature per key, in order, and at least one. */
  predicate VerifySignatures(c: Suite, body: Body, sigs: seq<Sig>, keys: seq<Key>) {
    && |sigs| == |keys| && |sigs| != 0
    && (forall j :: 0 <= j < |keys| ==> c.isEd25519(keys[j]))
    && (forall j :: 0 <= j < |keys| ==> c.sigOk(body, sigs[j], keys[j]))
  }

  /** Whether a deny entry targets a member: by its pinned key, or by its DID up to spelling. */
  predicate Targets(c: Suite, entry: Target, member: MemberEntry) {
    || entry == KeyTarget(member.key)
    || (entry.HolderTarget? && c.canonical(entry.did) == c.canonical(member.did))
  }

  predicate IsDenied(c: Suite, deny: set<Target>, member: MemberEntry) {
    exists entry :: entry in deny && Targets(c, entry, member)
  }

  /** Every root key of a generation: what its chain publishes, what it commits to, and recovery. */
  datatype RootKeys = RootKeys(keys: set<Key>, commitments: set<Digest>, recovery: Digest)

  predicate IsRootKey(c: Suite, key: Key, roots: RootKeys) {
    || key in roots.keys
    || c.keyDigest(key) in roots.commitments
    || c.keyDigest(key) == roots.recovery
  }
}
