# Kokuin protocol model

Dafny models of four parts of the Kokuin packages, with proofs of what they promise. Methods follow the
TypeScript and C operations loop by loop and field by field; each is proved against a specification function
or predicate, and the theorems are about those.

**The `did:kokuin` controller log** (`packages/controller`). A root chain of inception and rotate events is
folded in sequence; the events of the current epoch form a graph, each authorised on the state of its own
causal past, and merge into the head.

- `Dag`, `EpochSpec`: what a merge means, as a recursive definition over the set of events.
- `EpochTriage`, `Kahn`, `MergeLoop`, `EpochProgress`, `EpochMerge`: the merge as the code runs it (triage,
  ready queue, states dropped after their last reader, the budget of failed signatures), proved equal to that.
- `EpochTheorems`, `EpochHead`, `EpochAuthority`, `EpochTips`, `SameEpoch`: order independence, what the head
  holds, who may do what, which tips to name.
- `EpochEntries`, `EpochPast`, `EpochSigned`, `MergedHead`: the same answer in the terms of the entries given: what takes
  part, what each event is judged on, with which signatures it applied, and what the head says.
- `EpochMemory`, `EpochRefold`, `EpochKept`: nothing forgotten, and what memory keeps folds to itself.
- `OrderGrowth`, `EpochDisplaced`, `Forgetting`: what a memory keeps once more of an epoch applies, exactly when a
  full one forgets, and an input on which it does. `OpenSuite` and `OpeningEvents` build such inputs.
- `Members`, `Fold`, `SkipLimit`, `ChainFacts`, `RootKeysKept`, `HeadRules`: the chain fold, retired keys, and
  that no member ever holds a root key.
- `ChainMeans`, `ChainFaults`: exactly which chains fold, to which states, and why and where one does not.
- `Snapshots`, `Carrying`, `Clashing`: what a rotate or a reset carries forward, exactly when it is accepted, and a
  head whose own snapshot is not.
- `ChainHistory`, `Branches`, `Supersede`, `Resolve`, `SelectWinner`: rival chains.
- `LogFolds`, `Prune`, `Log`, `LogMerge`, `History`, `HistoryRuns`, `HistoryMemory`: pruning, merging, and
  memory over runs of `authoritativeLog`.

**Record replication** (`packages/records`): `Sortable`, `Policy`, `Decision` (merge policies converge),
`Range`, `Split`, `RangeLeaf`, `Reconcile`, `PullRun`, `PullComplete`, `PullLeaves` (range reconciliation ends, finds
exactly what is missing and leaves both sides with the greater decision of each record), `Ranks`, `Apply`, `ApplyMeans`,
`ApplyCopies`, `ApplyPasses`, `ApplyChunk`, `ApplyConverges`, `ChunkConverges`, `ChunkView` (the chunk's pass loop, which
copies of a decision are kept, and that a chunk leaves the greatest op at each key).

**Capability attenuation** (`packages/capability`): `Slashes`, `Patterns`, `Delegation`, `DelegationMeans`.

**Ledger signing transport** (`packages/ledger-device`, `apps/ledger`): `PathText`, `Apdu`, `Device`, `Signing`.

## Reading the model

- Digests are integers: they have one length, so text order is number order. `Events.Suite` holds the
  functions the log is read through: the digest, the signature check, key digests, DID canonicalisation, the
  key a DID carries, event sizes. `Sound` says digests of different bodies differ and that the text order of
  signature lists tells lists apart (`OpenSuite.AcceptingSound` shows that both can be had). `Carrying` alone
  assumes also that a DID carries Ed25519 keys only, as `packages/controller/src/members.ts:42-58` checks.
- A JSON value of the wrong shape is `BadEntry` on the chain and `Junk` in an epoch; the remaining shape
  checks (distinct parents, sizes, thresholds, ranges) are modelled.
- A finite float64 is its sign, exponent and mantissa, and its value an exact multiple of 2^-1074.
- Fingerprints are an arbitrary function of lane sums and count. `PullRun.TellsApart` says that it
  tells apart what the two sides hold in one summarized range. Completeness of a pass needs it of the ranges
  summarized in that pass; its end, and that it asks for nothing it should not, need it of none.
- Clock, verification and authorisation hooks are parameters. How stamps and digests are written is one too:
  `RangeLeaf.SortsRight` says that digests, and the stamps of four-digit years, sort as they compare.

## Where the code and its comments or expectations part

- `packages/controller/src/supersede.ts:97-109` calls the preference among branches of one head a total order.
  Branches of one length that end in one event tie, and the first to arrive is kept
  (`SelectWinner.PreferenceTies`, `SelectWinner.PaddingUndecided`, `SelectWinner.TieByArrival`). Outcome, winning
  history and duplicity report are nonetheless the same for every order (`Resolve.ArrivalOrder`).
- `packages/controller/src/history.ts:34-35` says that the current epoch's events are never forgotten, only added
  to. Once memory is saturated that fails: it holds the first events of the epoch's order, and a genuine event
  presented later can stand before one of them (`Forgetting.SaturatedForgets`, for every limit). Within one call
  every stored event applies (`HistoryMemory.NothingStoredForgotten`). Over a run, what was stored stays in its
  place if and only if no event newly applies that could have been taken before one of it
  (`HistoryMemory.RunKeepsIff`); while memory is unsaturated nothing is lost whatever applies, and saturation
  itself is never lost (`HistoryMemory.RunForgetsNothing`).
- What `snapshotOf` says of a merged head may be refused by the fold. Two adds of one key that have not seen each
  other both stand, and a snapshot with two live members on one key is malformed: `Clashing.CarriedRefused` has the
  chain, the adds and the rotate, `Carrying.SnapshotFits` and `Carrying.CarryAccepted` the exact condition.
- `packages/records/src/policy.ts:207-209` has ops leave the same one stored however they arrive. Applying a
  chunk takes an op of the stored decision for a copy of it before any policy compares them, and a decision leaves out
  the time at which a versioned claim was signed; a `lww` type reads just that. Two such copies can rank apart, and the
  first stays the one the record stands on (`ChunkConverges.CopiesRankedApart`). `ChunkConverges.PairConverges` has the
  exact condition; where ops of one decision rank alike a chunk leaves the greatest
  (`ChunkConverges.ChunkLeavesGreatest`).
- `packages/records/src/range.ts:256-263` means the text of a leaf's order to sort as the policy does. Stamps outside
  four-digit years are kept out for `lww`, not for a `monotonic` type ordered by version stamps: there a later year sorts
  below (`RangeLeaf.LaterYearSortsLow`). Leaves rank as the policy does if and only if the two stamps sort as text
  (`RangeLeaf.LeafRanks`).
- `encodeSignMessageChunks` does not refuse path bytes longer than an APDU. Its chunks are then not well cut, and on
  some messages its loop takes an empty slice again and again: `Apdu.EndsIff` says exactly when it ends. A path of
  64 components with a message of 255 bytes is an input on which it does not (`Apdu.LongPathSpins`).

## Model

| member | source | states |
|---|---|---|
| EpochMerge.FoldEpochDetailed | packages/controller/src/epoch.ts:390-609 | The whole merge (head, applied order, pending and rejected counts, reason of each event left out, authentic copies, refusal on the failed-signature budget) equals the recursive account of the set of distinct well-formed copies presented, memory's copies and the number of junk entries |
| MergeLoop.MergeReady | packages/controller/src/epoch.ts:507-578 | The ready-queue loop ends at the recursive definition's states, order, verdicts and union, and gives up exactly when the whole fold's failed signatures pass 64 |
| MergeLoop.ReadParents | packages/controller/src/epoch.ts:527-544 | Joining the parents' states while dropping each after its last reader gives the join of all of them: no state is dropped before a child that still has to read it |
| Kahn.ReadNext | packages/controller/src/epoch.ts:535-543 | A parent about to be read is still kept, its unread count is at least one, and the counts stay the number of children that have not read it |
| Kahn.RegisterEdges | packages/controller/src/epoch.ts:488-505 | Edges, waiting counts and the first ready list are those of the parent lists, missing parents counted as never applying |
| Kahn.ReleaseKids | packages/controller/src/epoch.ts:571-576 | After an event applies, waiting counts are the parents still outstanding and the ready list is every unjudged event whose parents have all applied, in order |
| MergeLoop.Accumulator.JoinInto | packages/controller/src/epoch.ts:150-158 | In place, the state becomes the join of itself and another: entries and removals united, each lease the greater of the two |
| MergeLoop.TakeIn | packages/controller/src/epoch.ts:563-577 | Applying an event joins its effect into the union and its own state, keeps that state only while it has children, and tells them |
| MergeLoop.Evaluate | packages/controller/src/epoch.ts:257-371 | Outcome, kept copy and signatures charged are those of judging the candidate on its causal state, or the budget is passed |
| EpochTriage.CanonicalCopy | packages/controller/src/epoch.ts:232-250 | The copy found is the genuine one whose signature list sorts first, whatever order copies came in; those sorting before it are charged signature by signature, and the walk stops only past the limit |
| EpochTriage.Triage | packages/controller/src/epoch.ts:419-461 | Candidates, other epochs' digests, refusals on sight and the rejection count are those of the set of entries, memory standing in for copies of what it holds |
| EpochMerge.OpenEpoch | packages/controller/src/epoch.ts:397-415 | The epoch a chain opens: its last state as anchor, every digest of the chain, and the root keys of the anchor's generation |
| EpochMerge.RefuseOutside | packages/controller/src/epoch.ts:463-487 | Exactly the candidates naming a chain event or another epoch's event as a parent, classified before any is removed |
| Lists.InsertSorted | packages/controller/src/epoch.ts:374-383 | Binary insertion keeps the list ascending and adds just that digest |
| EpochTheorems.EventApplies | packages/controller/src/epoch.ts:257-371 | An event applies if and only if all its parents apply and the rules accept it on the join of their after-states; the state after it is that join with its effect |
| EpochTheorems.AppliedOrder | packages/controller/src/epoch.ts:507-578 | The applied list holds every event that applies once, parents first, ties by ascending digest |
| EpochTheorems.OrderIndependent | packages/controller/src/epoch.ts:390-609 | Every permutation of the presented entries folds to the same answer, refusal included |
| EpochTheorems.RepeatHarmless | packages/controller/src/epoch.ts:436-461 | Presenting a well-formed copy again changes nothing in the answer |
| Dag.AppliesIff | packages/controller/src/epoch.ts:507-578 | The rounds by which a graph settles reach a fixed point of the recursive definition |
| Dag.OnlyAccount | packages/controller/src/epoch.ts:507-578 | Any closed account of a graph whose events stand after their parents is the recursive definition: it has one solution |
| Dag.OnlyOrder | packages/controller/src/epoch.ts:521-578 | Parents first and smallest ready digest first leaves one order of the applied events |
| Dag.OrderExists | packages/controller/src/epoch.ts:521-578 | Taking the smallest ready event each time takes every event that applies, each after its parents |
| Dag.Growth | packages/controller/src/epoch.ts:390-609 | What applies goes on applying, in the same state, in any graph that holds those events and accepts them on the same past |
| EpochHead.UnionMeans | packages/controller/src/epoch.ts:563-577 | The merged state is the anchor's with what each applied event contributes and nothing else |
| EpochHead.AnyOrderMerges | packages/controller/src/epoch.ts:563-577 | Joining the effects in any order gives the same state |
| EpochHead.OneMerge | packages/controller/src/epoch.ts:150-158 | Two states that merge the same events into one base are equal |
| EpochAuthority.AcceptedIff | packages/controller/src/epoch.ts:257-371 | The cascade of checks accepts an event exactly when its signer may sign in its causal past and its action is within that signer's power, both stated without the cascade |
| EpochAuthority.AppliesIffAuthorised | packages/controller/src/epoch.ts:257-371 | An event applies exactly when its parents do and it is so authorised on the state they established |
| EpochAuthority.RefusedFor | packages/controller/src/epoch.ts:257-371 | An event is refused for a reason exactly when it breaks the rule that reason names, said in signatures, keys, denials and incarnations, and none of the rules checked before it |
| EpochSigned.AppliedSigned | packages/controller/src/epoch.ts:232-292 | Every applied event that memory does not hold is kept in a presented copy with as many signatures as its signer has keys, at least one, each valid under the Ed25519 key in its place: the anchor's keys, or the one key its author's incarnation pins in its causal past; of several the copy that sorts first |
| EpochSigned.RefusedUnsigned | packages/controller/src/epoch.ts:270-292 | An event is refused for root's signature, or a member's, exactly when its parents apply, its signer may sign, memory does not hold it and no presented copy carries the signatures |
| EpochSigned.PinnedBefore | packages/controller/src/epoch.ts:283-292 | The key a signer is held to is the one the anchor lists of its incarnation or the one an event of the causal past admitted it with |
| EpochPast.PastMerged | packages/controller/src/epoch.ts:527-577 | The state after an applied event is the anchor's with what each event of its causal past, the least set closed under parents it is in, contributes, and nothing else |
| EpochPast.CausalMerged | packages/controller/src/epoch.ts:527-544 | The state an event is judged on is the anchor's with what each event before it contributes, and nothing else |
| EpochEntries.EntryTaken | packages/controller/src/epoch.ts:436-441 | One more entry presented is one more copy when it is within the limits on signatures, parents, seconds and size, and one more refusal when it is not |
| EpochEntries.JunkOnlyCounted | packages/controller/src/epoch.ts:436-441 | An entry outside the limits changes nothing in the answer but the count of refusals |
| EpochEntries.HeldFirst | packages/controller/src/epoch.ts:428-435 | Memory stands in with its first copy of each event that is within the limits and names this epoch, controller and generation, and with no other |
| EpochEntries.JudgedIff | packages/controller/src/epoch.ts:463-487 | An event that takes part is judged in the epoch exactly when no parent it names is, without taking part, on the chain or presented as another epoch's |
| MergedHead.HeadMeans | packages/controller/src/epoch.ts:588-602 | Said of the answer alone: the head denies what the anchor or an applied event denies, its members are who the anchor lists or an applied event admits, each removed, leased for longest and effective as the applied events and denials have it, and nothing else of the anchor changes |
| EpochAuthority.OpeningIsNoEvent | packages/controller/src/epoch.ts:160-173 | The digest an epoch opens with is never one of its own events |
| EpochMerge.BuildMembers | packages/controller/src/epoch.ts:588-594 | One member per incarnation with its longest lease, removed or not, effective exactly when neither removed nor denied |
| EpochMemory.NothingForgotten | packages/controller/src/epoch.ts:425-461 | Whatever else is presented, every event memory holds a copy of applies again, in the same state |
| EpochMemory.MemoryOnlyGrows | packages/controller/src/epoch.ts:390-609 | A later fold with that memory applies a superset; denials, removals, incarnations, leases and saturation only grow, and with `add` references apart from event digests no removed or denied member returns |
| EpochKept.AppliedCopies | packages/controller/src/log.ts:213-227 | The authentic copies of the applied events in order, all of them or the first limit + 1 when saturated |
| EpochKept.RefoldsToItself | packages/controller/src/log.ts:213-227 | What is kept folds, as memory or presented afresh, to exactly those events in that order, none pending or rejected, with the same saturation flag and the same head when unsaturated |
| EpochRefold.PrefixOrder | packages/controller/src/log.ts:208-227 | A prefix of the applied order is closed under ancestors and is itself the order of what it holds |
| EpochRefold.RefoldVerdicts | packages/controller/src/log.ts:213-227 | Every kept event gets the verdict it had, without a failed signature charged |
| EpochKept.AuthenticWell | packages/controller/src/epoch.ts:232-250 | Only shaped copies of this epoch, under their own digest, are ever found authentic |
| OrderGrowth.OrderRestricts | packages/controller/src/log.ts:208-227 | However many more events apply, those of an ancestor-closed order keep their order among themselves |
| OrderGrowth.PrefixIff | packages/controller/src/log.ts:208-227 | An ancestor-closed order stays the start of a larger one if and only if no other event of that one is below a kept event it could have been taken for |
| OrderGrowth.OrderEarlier | packages/controller/src/log.ts:208-227 | Where a larger order first differs from what was kept it has a smaller event |
| EpochDisplaced.KeptMoves | packages/controller/src/log.ts:208-227 | What a memory that held an order, or its start, keeps after a later fold is an initial segment of it; all of it in place if and only if each newly applying event is above every kept one whose predecessors include its parents |
| EpochTips.BehindTip | packages/controller/src/log.ts:159-194 | Every applied event is an ancestor of a tip whose state holds all of that event's |
| EpochTips.TipsToName | packages/controller/src/log.ts:185-194 | At most sixteen tips, the smallest, ascending; the opening digest when there is none; a tip is left out only when sixteen smaller ones are in |
| Log.EpochHeads | packages/controller/src/log.ts:176-194 | The heads of a held log are those of its fold; there are none, with the reason, exactly when it does not fold under the held limit |
| EpochTips.NamingTipsSeesAll | packages/controller/src/log.ts:159-194 | An event that names every tip is judged on a state holding everything the epoch has applied |
| SameEpoch.OneHeadOneEpoch | packages/controller/src/epoch.ts:398-417 | Two folding chains with one head digest open the same epoch up to which other chain digests they carry |
| SameEpoch.SameFold | packages/controller/src/epoch.ts:463-487 | The same events refused as cross-epoch, the same answer, whatever chain the epoch stands on |
| Fold.FoldChain | packages/controller/src/fold.ts:465-505 | One state per entry, or the first entry that does not fold with its reason, skipped events within their budget |
| SkipLimit.SkipsLimited | packages/controller/src/fold.ts:375-400 | Every prefix of a chain that folds has skipped at most eight more events than it understood |
| SkipLimit.TooManyIff | packages/controller/src/fold.ts:375-400 | A chain is refused for too many unknown events, at an entry, if and only if the chain before it folds, the entry would be skipped, and that prefix is one past the slack |
| Members.DenialMatcher.Matches | packages/controller/src/members.ts:86-114 | The cache of canonical DIDs never changes whether a denial targets a member |
| Members.ValidateSnapshot | packages/controller/src/members.ts:181-230 | The fault of a snapshot against root keys and retired keys, in the order the checks are made |
| Members.CheckShape | packages/controller/src/members.ts:181-230 | The loops over live and removed entries accept exactly the snapshots of well-formed entries with distinct `add`s across both lists and distinct live keys |
| Members.RootsNext | packages/controller/src/epoch.ts:404-414 | The root keys of a generation grow by exactly one state's keys, agreement keys and commitments |
| ChainFacts.StepMeans | packages/controller/src/fold.ts:177-362 | An accepted event changed nothing when it was skipped, and otherwise is a rotate placed after its prior or a reset after the inception |
| ChainMeans.InceptionIff | packages/controller/src/events.ts:278-314 | A first entry is accepted exactly when each of its own keys, at least one, has a valid signature in its place, its digest names the DID and its thresholds and agreement keys are in order |
| ChainMeans.RotateIff | packages/controller/src/events.ts:537-561 | A rotate stands after its prior exactly when it takes the next place, reveals one by one the keys its prior committed to, each with a valid signature in its place, and publishes thresholds, agreement keys and a snapshot |
| ChainMeans.ResetIff | packages/controller/src/events.ts:664-710 | A reset stands exactly when it follows the inception in a later generation under the one signature of the recovery key whose digest the inception committed to, without seal or tombstones and with a snapshot that is whole and not empty, or none |
| ChainMeans.PublishIff | packages/controller/src/members.ts:181-230 | A snapshot is accepted exactly when its entries are well formed, carried by their DIDs, of distinct admissions and live keys, clear of every key root has published or committed to in the generation, and its denials keep every retired key and spare the keys published |
| ChainMeans.StepIff | packages/controller/src/fold.ts:177-362 | An entry is accepted with a state exactly when it is passed over as not critical in the next place, or a signed, placed and publishable rotate or reset that leaves that state field by field |
| ChainMeans.FoldsIff | packages/controller/src/fold.ts:465-505 | A chain folds to its states exactly when they account for it: an inception, entries that each follow the states before them, and never more than eight passed over beyond those understood |
| ChainFaults.StepFaultIff | packages/controller/src/fold.ts:177-362 | An entry is refused for a fault exactly when it breaks the rule that fault names and none of the rules checked before it |
| ChainFaults.UnfoldableIff | packages/controller/src/fold.ts:465-505 | A chain is refused for a fault at an entry exactly when what stands before folds and that entry is the first to give that cause |
| ChainFacts.StepForward | packages/controller/src/fold.ts:177-362 | Each event that is not skipped moves (generation, sequence) strictly forward and changes the digest; a skipped one leaves the state as it was |
| ChainFacts.PositionsForward | packages/controller/src/fold.ts:465-505 | Along a chain positions never go back and a repeated position is a repeated state |
| ChainFacts.PrefixFolds | packages/controller/src/fold.ts:465-505 | Every nonempty prefix of a chain that folds, folds to a prefix of its states |
| RootKeysKept.OwnKeysNeverDenied | packages/controller/src/fold.ts:280-290 | No chain state denies a key in its own `keys` or `agreement` |
| RootKeysKept.DeniedNotPublished | packages/controller/src/fold.ts:259-290 | No rotate publishes a key its immediate prior denied |
| RootKeysKept.RetiredForGood | packages/controller/src/fold.ts:259-290 | Once a generation has published a key and denied it, every later state of it denies the key and none publishes it |
| RootKeysKept.MembersClearOfRoot | packages/controller/src/members.ts:134-230 | In every chain state no member, live or removed, pins a key its generation has published, a key it has committed to, or the recovery key |
| RootKeysKept.NextKeysUnheld | packages/controller/src/members.ts:134-140 | A key that is not root's by that predicate is never among the keys the next rotate reveals |
| HeadRules.HeadNeverDeniesRoot | packages/controller/src/epoch.ts:317-324 | The merged head denies all the chain denied and no key root publishes |
| HeadRules.HeadClearOfRoot | packages/controller/src/epoch.ts:326-349 | No member of the merged head, of the snapshot or added since, pins a root key |
| HeadRules.HeadOfLog | packages/controller/src/epoch.ts:390-609 | Both, for any folding chain and any epoch events on it, and no member's key is committed for the next rotate |
| ChainHistory.SameHistory | packages/controller/src/supersede.ts:249-270 | Two chains that fold to one digest have the same last-generation states, however each came to it |
| ChainHistory.TopsShareHistory | packages/controller/src/supersede.ts:115-122 | Two chains share their last generation up to wherever they share a digest |
| ChainHistory.SpineTop | packages/controller/src/supersede.ts:81-95 | The spine from the last generation's first event on is that generation's states |
| Supersede.BranchFrom | packages/controller/src/supersede.ts:81-95 | The spine is the positions whose digest changed |
| Supersede.CommonSpine | packages/controller/src/supersede.ts:115-122 | The first position two spines differ at, or the length of the shorter |
| Supersede.ResolveContenders | packages/controller/src/supersede.ts:139-186 | The walk ends in the verdict on the set of histories: a contender every other is a prefix of, or the first fork with its two least digests |
| Supersede.SomeExtend | packages/controller/src/supersede.ts:150-158 | The unreachable branch is unreachable: some contender always goes on past the divergence point |
| Supersede.ReportFork | packages/controller/src/supersede.ts:164-182 | The report names the position of the first fork and the two least digests standing there |
| Branches.OneVerdict | packages/controller/src/supersede.ts:139-186 | There is one verdict on a set of rival histories |
| Branches.ForkIffDiffer | packages/controller/src/supersede.ts:164-182 | A fork is the verdict exactly when two histories differ at a position both hold |
| Resolve.ArrivalOrder | packages/controller/src/supersede.ts:217-242 | Any order and repetition of the chains has the same outcome: the same winning history to its head, or the same duplicity report |
| Resolve.WinnerExtends | packages/controller/src/supersede.ts:188-211 | A winner has the highest folded generation, and every rival of that generation is a prefix of it from the generation's first event |
| Resolve.ForkReportedIff | packages/controller/src/supersede.ts:188-211 | Duplicity is reported exactly when two chains of the highest generation differ at a position of it both hold |
| SelectWinner.GroupByHead | packages/controller/src/supersede.ts:249-262 | One branch per head digest: preferred to those that came before it and none after preferred to it |
| SelectWinner.SelectWinner | packages/controller/src/supersede.ts:244-300 | The outcome is the verdict on the highest generation's histories; the winner is the chain kept of its head, the earliest of several left undecided; `superseded` counts what the kept branches hold and it does not |
| SelectWinner.ResolveBranches | packages/controller/src/supersede.ts:217-242 | The same from the presented chains, those that do not fold left out |
| SelectWinner.CountLost | packages/controller/src/supersede.ts:287-299 | The count of spine digests over all kept branches that the winner's spine lacks |
| SelectWinner.NothingLost | packages/controller/src/supersede.ts:287-299 | The count is zero exactly when the winner's spine holds everything every kept branch does |
| SelectWinner.PreferenceTies | packages/controller/src/supersede.ts:97-109 | Two branches of a head are left undecided exactly when they are as long and end in the same event |
| SelectWinner.PaddingUndecided | packages/controller/src/supersede.ts:97-109 | On any inception, two different folding branches of one head neither of which is preferred: the comment that the preference is a total order does not hold of the code |
| SelectWinner.KeepsOne | packages/controller/src/supersede.ts:249-262 | Of the chains of one head in a given order of arrival exactly one is kept |
| SelectWinner.KeepsShortest | packages/controller/src/supersede.ts:97-109 | The chain kept of a head is the shortest presented, of those as long the one that ends in the least digest, and of those the first to arrive |
| SelectWinner.WinnerShortest | packages/controller/src/supersede.ts:249-262 | A raw winner is no longer than any chain presented with its head, and of those as long its last digest is the least |
| SelectWinner.TieByArrival | packages/controller/src/supersede.ts:217-262 | Of two tied chains the first to arrive is the raw winner, so the two orders of one set of chains have two raw winners and one outcome |
| LogFolds.FoldLog | packages/controller/src/fold.ts:522-547 | The chain's fold merged with the epoch events, or why not |
| LogFolds.ChainAlone | packages/controller/src/fold.ts:522-547 | With no epoch events a log folds exactly when its chain does, to the same states |
| Log.FoldHeld | packages/controller/src/log.ts:95-120 | A held log folds under its own request limit with nothing trusted |
| Prune.PruneChain | packages/controller/src/log.ts:331-340 | The inception and the last generation's entries that moved the fold, in order |
| Prune.PrunedFolds | packages/controller/src/log.ts:320-341 | A pruned chain folds, to the same last state, though earlier generations and skipped events are gone |
| Log.PruneLog | packages/controller/src/log.ts:320-341 | Pruning succeeds exactly when the held log folds, and refuses for the same reason otherwise |
| Log.PruneKeepsMeaning | packages/controller/src/log.ts:320-341 | A pruned log fits a fresh presentation and folds; its chain ends in the same state; its epoch applies exactly the kept events in order, none pending or rejected; the head is equal when unsaturated and still saturated otherwise |
| History.RecallLog | packages/controller/src/history.ts:98-109 | Memory is the stored log when its chain folds, and nothing otherwise |
| History.Settle | packages/controller/src/history.ts:234-262 | The loaded chain when it passes through the remembered head, else what branch resolution names if it ends where the loaded one does; otherwise the refusal that is due |
| History.AuthoritativeLog | packages/controller/src/history.ts:204-287 | An answer holds the settled chain, the fold of memory and presentation on it and what is kept of its epoch; a refusal is justified by a limit, a fold fault, a fork or an outranking memory |
| History.SameLogSame | packages/controller/src/history.ts:115-136 | Logs the entry-by-entry comparison calls the same are equal |
| HistoryRuns.BranchWinIsReset | packages/controller/src/history.ts:234-262 | A chain that wins without passing through the remembered head has a strictly higher generation |
| HistoryRuns.HeadNeverBack | packages/controller/src/history.ts:234-262 | One call never moves the head back, and within a generation the new chain passes through the remembered head |
| HistoryRuns.RunNeverBack | packages/controller/src/history.ts:204-287 | Over any run of calls fed their own results, (generation, sequence) never decreases, and within a generation every later chain passes through every earlier head |
| HistoryMemory.StoredRefolds | packages/controller/src/log.ts:213-227 | A stored epoch folds from memory alone to exactly what it holds, on any chain with that head |
| HistoryMemory.NothingStoredForgotten | packages/controller/src/history.ts:264-287 | When the settled chain keeps the seen epoch, every stored event applies again whatever was loaded, so denials, removals, incarnations, leases and saturation only grow |
| HistoryMemory.StoredMoves | packages/controller/src/history.ts:264-287 | What of a stored order is stored again by the next answer is an initial segment of it, also when the epoch fills up; all of it in place if and only if no newly applying event could have been taken before one of it; where the orders first differ the new one has the smaller event |
| HistoryMemory.RunForgetsNothing | packages/controller/src/history.ts:264-287 | Over any run, while the head stays: saturation is kept, an unsaturated memory has forgotten nothing it held, and stored orders only ever move to smaller events |
| HistoryMemory.RunKeepsIff | packages/controller/src/history.ts:264-287 | Over any run, while the head stays: all that was stored is still stored and in its place if and only if at no call between did an event newly apply that could have been taken before one of it; a saturated memory then holds exactly what it held |
| Forgetting.SmallerDisplaces | packages/controller/src/history.ts:264-287 | A saturated memory presented with a newly applying event that could have been taken before one it holds, as a genuine event on the opening with a smaller digest can, forgets the last event it holds |
| Forgetting.SaturatedForgets | packages/controller/src/history.ts:28-36 | For every limit a caller can fill there is a run of two calls on one opening, with a sound suite, a chain that folds and genuine events, in which one event more is presented, memory stays saturated and a stored event is gone: the comment that the current epoch's events are only added to does not hold of the code |
| OpenSuite.AcceptingSound | packages/controller/src/epoch.ts:232-250 | There is a suite of which the assumptions made of digests and signature lists hold |
| LogMerge.SettledChain | packages/controller/src/log.ts:238-257 | `b`'s chain when both fold and it passes through `a`'s head, else what branch resolution names; no further back than either that folds; a fork is reported as one; neither folds exactly when nothing is agreed |
| LogMerge.MergeLogs | packages/controller/src/log.ts:275-302 | A merged log has the agreed chain, no further back than either that folds, and exactly the well-formed epoch entries of both, each once; refused exactly when too large, forked or when neither chain folds |
| LogMerge.MergeEvents | packages/controller/src/log.ts:287-300 | The union keeps exactly the well-formed entries of either list, each copy once, copies with different signatures side by side |
| LogMerge.UnionFoldsAlike | packages/controller/src/log.ts:287-301 | Any epoch merges the union as it would both lists together, junk refusals aside |
| LogMerge.SerialNeverBack | packages/controller/src/history.ts:57-95 | In any sequence of presentations each merged into what the one before it left, declined ones included, what is stored is never lost and no stored log stands further back than an earlier one |
| LogMerge.MemoryLogStore.RunNext | packages/controller/src/history.ts:66-95 | The presentations of a DID run in the order they were made, none twice and none skipped, each on what the one before it left, failed or not; a refusal leaves the log as it was |
| Snapshots.SnapshotOf | packages/controller/src/fold.ts:574-593 | The snapshot tells a state's denials, live and ended members, less what is dropped |
| Snapshots.CarriesForward | packages/controller/src/fold.ts:574-593 | A rotate that publishes it leaves a state with the denials not dropped, the live members not dropped, each able to act exactly when no denial left targets it, and every ended incarnation not dropped on record |
| Carrying.HeadGood | packages/controller/src/epoch.ts:588-602 | Every incarnation of a merged head is well formed, carried by its DID and listed once, live, removed or ended |
| Carrying.SnapshotFits | packages/controller/src/members.ts:181-230 | A snapshot of such a state is accepted if and only if no two live members kept pin one key, none kept pins a root key and no denial of a retired key is dropped; two live pins of one key, which concurrent adds leave, and nothing else, make it malformed |
| Carrying.AddsClash | packages/controller/src/epoch.ts:337-346 | Two adds of one key that both apply, neither removed, leave live pins of the merged head that are not apart |
| Carrying.CarryAccepted | packages/controller/src/fold.ts:240-290 | A rotate in the next place that reveals what its prior committed to and is signed key by key, and publishes a snapshot of the merged head, is accepted if and only if live pins kept are apart, no member kept pins its agreement keys or what it commits to, no denial of a retired key is dropped and none left denies a key it publishes |
| Carrying.ResetAccepted | packages/controller/src/fold.ts:196-290 | A reset after the inception signed by the recovery key it committed to, and publishing a snapshot of the merged head, is accepted if and only if it drops every ended incarnation, carries something, keeps no two live members on one key and none on a key of its own, and denies no key it publishes |
| Clashing.CarriedRefused | packages/controller/src/fold.ts:574-593 | A chain that folds, a merged head of two adds root signed, and a placed and signed rotate that carries all `snapshotOf` says of that head, which the fold refuses; carrying one of the two it is accepted |
| Snapshots.HeadFits | packages/controller/src/epoch.ts:588-602 | Merged heads are states a snapshot can be taken of: keyed by `add`, effective exactly when neither removed nor denied |
| Sortable.CompareTuplesByScan | packages/records/src/policy.ts:126-135 | The index scan compares lexicographically, a tuple that extends an equal prefix being greater |
| Sortable.NumberOrder | packages/records/src/range.ts:241-253 | For all finite float64s the 16-digit codes sort as the numbers do, negatives included and `-0` as `0` |
| Sortable.NumberText | packages/records/src/range.ts:241-253 | The text of a finite number is two words of eight hex digits, of a code as far above 2^63 as a positive number's bits, as far below as a negative one's, and 2^63 for both zeros |
| Sortable.HexAt | packages/records/src/range.ts:241-253 | Each digit of a word is the lower-case hex digit of its place |
| Sortable.TupleOrder | packages/records/src/range.ts:331-353 | String order of the concatenated codes agrees with tuple comparison on all finite tuples of any lengths |
| RangeLeaf.LeafRanks | packages/records/src/range.ts:256-353 | Of two decisions of one record, either leaf outranks the other exactly when the policy ranks its op strictly above, if and only if the stamps their versions are sort as text, which matters to version stamps alone |
| RangeLeaf.FetchedIsStored | packages/records/src/range.ts:256-329 | What a pass fetches as newer is what the merge would store over what is held, whatever the hook answers |
| RangeLeaf.LaterYearSortsLow | packages/records/src/range.ts:309-321 | A version stamped in a year of five digits sorts below any stamped in a year of four, so there the two orders part |
| RangeLeaf.FourDigitsSort | packages/records/src/range.ts:314-321 | Between stamps of four-digit years the orders never part, whatever the policy |
| RangeLeaf.SignersTold | packages/records/src/range.ts:320-328 | Two leaves of one content have one hash exactly when the same signers hold it in copies that speak for the record |
| Policy.StoresGreater | packages/records/src/policy.ts:218-243 | One arrival stores the greater of two orderable ops by (policy order, content digest) and nothing the policy cannot order, whatever `onEqual` answers |
| Policy.ComparisonIs | packages/records/src/policy.ts:82-243 | One rule for three policies with reason and conflict: what cannot be ordered is rejected, a stored op that cannot be gives way, else the order decides and between ops that tie the greater digest, or the hook's fork |
| Policy.LeavesGreatest | packages/records/src/policy.ts:218-243 | Ops arriving one by one leave the greatest of them stored, and nothing only when none can be ordered |
| Policy.Converges | packages/records/src/policy.ts:218-243 | The same ops in any order with any repetition under any two hooks leave decisions of equal policy order and equal content digest |
| Policy.TuplesTransitive | packages/records/src/policy.ts:126-135 | The tuple order is transitive, strictly where either step is |
| Decision.RecordDecisionFromVerifiedCopies | packages/records/src/decision.ts:34-66 | The decision is the greatest canonical stamp, then the greatest content digest under it, with every copy that carries both, sorted; none exactly when no copy has a canonical stamp |
| Decision.BatchAgrees | packages/records/src/decision.ts:34-66 | For `lww` the batch decision is the one incremental merging leaves in any order of arrival |
| Decision.VersionBatchAgrees | packages/records/src/decision.ts:22-66 | For a type ordered by version stamps the batch decision read off versions is the one incremental merging leaves in any order of arrival |
| Range.FingerprintRange | packages/records/src/range.ts:118-136 | The in-place 32-bit lane sums are the wrapped sums of all leaf hashes, refused exactly when one is not canonical |
| Range.FingerprintPermuted | packages/records/src/range.ts:118-136 | A fingerprint does not depend on the order of its leaves |
| Range.LeavesIn | packages/records/src/range.ts:158-170 | The leaves of a range in position order, or the refusal of two leaves for one record |
| Range.SummarizeRange | packages/records/src/range.ts:178-190 | Fingerprint and count of exactly the leaves the range holds |
| Split.SplitRange | packages/records/src/range.ts:202-234 | Below the threshold the leaves themselves, above it at most sixteen parts between ascending cuts, or the error due |
| Split.SplitPartitions | packages/records/src/range.ts:202-234 | The parts run on from one another and cover the range; each is nonempty and smaller than the whole; counts sum; every leaf is in exactly one; each part is what a summary of its own bounds gives |
| Reconcile.BeginPass | packages/records/src/reconcile.ts:144-147 | A pass waits on the whole range of each type given, each once in order, and is complete at once exactly when none is given |
| Reconcile.NextRequesterSteps | packages/records/src/reconcile.ts:108-141 | One answer for a summary; for a list, the keys inside the range that are worth fetching over what is held, each once |
| Reconcile.PrefersIff | packages/records/src/reconcile.ts:63-72 | A listed decision is fetched exactly when nothing is held, or something of lower order or of equal order and smaller digest, or the same content under other signers |
| Reconcile.WantedMeans | packages/records/src/reconcile.ts:123-140 | The fetched keys are distinct, inside the range and exactly those of listed leaves there that are newer by order and digest than what is held, or the same under other signers |
| Reconcile.FindPending | packages/records/src/reconcile.ts:154-170 | The first pending range that starts where the response does, or the refusal of one not waited on or reaching outside |
| Reconcile.AdvanceRecordPull | packages/records/src/reconcile.ts:180-214 | The answered part is taken off its pending range, a range that differs is waited on again, fetched keys are recorded, and the pass is complete when nothing is pending |
| Reconcile.StaysOrderly | packages/records/src/reconcile.ts:180-214 | Any accepted response, honest or not, keeps pending ranges disjoint, keeps every requested key outside them and requests no key twice |
| Reconcile.RunStaysOrderly | packages/records/src/reconcile.ts:144-214 | The same over any run of accepted responses from the start of a pass |
| PullRun.RespondDiffers | packages/records/src/range.ts:202-234 | An honest responder's answer to a range that differs is a split of what it holds there |
| PullRun.SplitCovers | packages/records/src/range.ts:202-234 | The parts of a split cover the range, in order, each as the responder's own scan gives it |
| PullRun.Accepts | packages/records/src/reconcile.ts:154-214 | Every honest part on its way is accepted, against its own pending range |
| PullRun.StaysAligned | packages/records/src/reconcile.ts:180-214 | Pending ranges and the parts on their way stay in step through every arrival |
| PullComplete.StaysRight | packages/records/src/reconcile.ts:63-89 | Whatever fingerprints collide, every arrival keeps what is asked for to leaves that are preferred, and no range answered `empty` is still waited on |
| PullComplete.MissesNone | packages/records/src/reconcile.ts:63-89 | An arrival whose fingerprint tells apart what the two sides hold in its own range misses no preferred leaf: each is still waited on or asked for |
| PullComplete.MovesLighten | packages/records/src/reconcile.ts:180-214 | Every arrival leaves strictly less weight by the leaf counts of what is on its way |
| PullComplete.PassEnds | packages/records/src/reconcile.ts:108-214 | Whatever fingerprints collide, no pass is longer than the counts summarized at its start allow, and until it is complete something can arrive and is accepted |
| PullComplete.PassSound | packages/records/src/reconcile.ts:63-214 | Whatever fingerprints collide, a pass asks only for leaves that are preferred and requests no key twice |
| PullComplete.PassComplete | packages/records/src/reconcile.ts:63-214 | A complete pass, each of whose summarized ranges is told apart by its fingerprint, has asked, by key or by a range answered `empty`, for exactly the responder's leaves that are newer than its own by order and digest, or the same under other signers, for nothing else and for no key twice |
| PullLeaves.AskedExactly | packages/records/src/reconcile.ts:63-214 | A complete pass has asked for a leaf of its types exactly when every leaf held of that record is older by order and digest, or the same content under other signers |
| PullLeaves.PassLeavesGreater | packages/records/src/reconcile.ts:63-214 | Once all that a complete pass asked for is taken in, the requester holds of every record of the types the decision, of the two sides', that is greater by order and content digest, and nothing else |
| PullLeaves.BothAgree | packages/records/src/reconcile.ts:63-214 | After a pass each way both sides hold the same decision of every record of the types, whether the second reads the first side as it was or as the first pass left it |
| Ranks.Ranker.Visit | packages/records/src/apply.ts:235-260 | The depth-first visit ranks a type after all it depends on, or there is a chain of dependencies that comes back to a type on it or ends outside the registered types |
| Ranks.RankTypes | packages/records/src/apply.ts:235-260 | Ranks that put every type after those it depends on, exactly when they exist; none exactly when some chain of dependencies comes back to a type on it or runs into one not registered |
| ApplyCopies.RememberedOne | packages/records/src/apply.ts:377-410 | One arrival leaves other signers' copies and unnamed ones as they were, in order, and its signer with one copy: the arrival, unless one it had sorts first |
| ApplyCopies.KeepsFirst | packages/records/src/apply.ts:377-410 | After any arrivals each named signer that sent a copy has exactly one, the one whose hash sorts first of all it sent, and copies naming no signer are all there in the order they came |
| ApplyCopies.AnyOrderKeeps | packages/records/src/apply.ts:377-410 | Which copies are kept does not depend on the order they arrive in |
| ApplyChunk.DecisionSnapshot.RememberCopy | packages/records/src/apply.ts:377-410 | Updated in place, a snapshot keeps other signers' copies and unnamed ones as they were and one copy of the arrival's signer, whichever of its own sorts first; the decision moves only when the copy is taken |
| ApplyChunk.ChunkContext.ApplyCandidate | packages/records/src/apply.ts:499-628 | The outcome and the store's new view are those of the checks in order against the view before |
| ApplyMeans.OutcomeMeans | packages/records/src/apply.ts:499-628 | A candidate is applied exactly when its hash is not held, its dependencies are, its owner and authorizer let it, its payload matches and it is a copy of the stored decision or the policy ranks it strictly above; likewise left unchanged, parked and refused for each reason |
| ApplyMeans.AppliedLeaves | packages/records/src/apply.ts:561-626 | An applied candidate leaves its own stamp and digest at its key, alone, or one more copy of the decision it shares |
| ApplyMeans.ConflictMeans | packages/records/src/apply.ts:601-617 | A conflict is reported exactly of a candidate that meets another op of equal version rank, or any other under an immutable policy; it is a fork exactly when the hook says so |
| ApplyConverges.PassesLeaveTop | packages/records/src/apply.ts:915-951 | Passes leave at each key the greatest op, by policy order and digest, of those that were held and those applied or left unchanged there |
| ChunkConverges.ChunkLeavesGreatest | packages/records/src/apply.ts:673-951 | So does a whole chunk: the decision left at every candidate's key is the greatest of what the store held and what was applied or left unchanged, where a hash is of one op and ops of one decision rank alike |
| ChunkConverges.OneTop | packages/records/src/apply.ts:673-951 | Two stores that stand on the greatest of the same ops stand on one decision |
| ChunkConverges.AppliedRightly | packages/records/src/apply.ts:499-628 | Every candidate a chunk applied was, on a store it met, authorized, ready, of the stored owner unless the policy settles owners, with its payload, and outranked what was stored or is one more copy of it |
| ChunkConverges.PairConverges | packages/records/src/apply.ts:561-598 | Two candidates one after the other leave the greater stored unless they are copies of one decision that the policy ranks apart and the one kept first is the lesser: the exact condition |
| ChunkConverges.CopiesRankedApart | packages/records/src/apply.ts:561-598 | A `lww` type and two copies of one versioned claim signed at two times, on which one order of arrival leaves the lesser stored |
| ChunkView.ConsultedSuffices | packages/records/src/apply.ts:320-335 | What a chunk comes to on the decisions it reads, those its candidates and their dependencies name, is what it would come to on the whole store, when authorizers read no others |
| ApplyChunk.RunPasses | packages/records/src/apply.ts:915-951 | The loop over pending candidates ends in the passes' account of the chunk's view |
| ApplyChunk.ApplyRecordChunk | packages/records/src/apply.ts:673-951 | A chunk is refused exactly when some chain of type dependencies comes back to itself or leaves the registered types, else its account is that of passes over it in rank order |
| ApplyChunk.SortedInOrder | packages/records/src/apply.ts:759-762 | Sorting by rank is in order and loses or adds no candidate |
| ApplyPasses.PassesPlaceEveryone | packages/records/src/apply.ts:915-951 | Every candidate ends in exactly one of applied, unchanged, refused or parked |
| ApplyPasses.ParkedUnsatisfied | packages/records/src/apply.ts:915-951 | Every candidate still parked has a dependency the final store does not satisfy |
| ApplyPasses.FirstPassSettles | packages/records/src/apply.ts:915-951 | When candidates stand in rank order and name dependencies of declared types only, passing again changes nothing |
| ApplyPasses.ParkedThrough | packages/records/src/apply.ts:473-496 | In rank order applying one candidate leaves an earlier parked one parked |
| ApplyChunk.ChunkSettles | packages/records/src/apply.ts:673-951 | All three over a whole chunk, the last when types declare what their records depend on |
| Patterns.HasPartsMatch | packages/capability/src/patterns.ts:83-102 | The index scan accepts exactly when the granted components cover the requested ones, a wildcard covering whatever remains |
| Patterns.HasPermissionMeans | packages/capability/src/patterns.ts:106-145 | The recursion over lists holds exactly when every requested pair is covered by some granted pair |
| Patterns.PermissionTransitive | packages/capability/src/patterns.ts:106-145 | What a grant covers, anything that covers the grant covers too, over lists and wildcards |
| Patterns.OnlyItself | packages/capability/src/patterns.ts:83-102 | Without a wildcard a grant covers just itself: no implicit descent |
| Delegation.ChainAttenuates | packages/capability/src/delegation.ts:196-265 | In an accepted chain every link is within every link above it in permission, shares one subject with it and sets an expiry no later than any it sets; each was granted to the issuer below, unexpired and not issued in the future, and the last ends on the subject, field by field |
| Delegation.UnderTransitive | packages/capability/src/delegation.ts:57-61 | Standing under a link, expiry included, carries down a chain |
| Delegation.OwnGrantBinds | packages/capability/src/delegation.ts:281-408 | A capability presented directly is held to its own grant on every arm |
| Delegation.AcceptedWithinChain | packages/capability/src/delegation.ts:281-408 | A permission accepted on a chain is covered by every link's grant up to the root, all of the named subject, within the depth limit |
| Delegation.RootIff | packages/capability/src/delegation.ts:214-230 | A chain may end in a link exactly when the subject issued it to an audience not revoked at a time within its three claims, or another did as a member whose standing the subject's log upholds |
| DelegationMeans.ChainIff | packages/capability/src/delegation.ts:196-265 | A chain is accepted exactly when it is within the depth limit and link by link verified, current, handed to the issuer below about one subject, narrowing and outliving nothing, up to one that ends on the subject |
| DelegationMeans.SubjectIff | packages/capability/src/delegation.ts:281-315 | A subject's own token is accepted exactly when its times, its audience and its grant allow |
| DelegationMeans.MemberIff | packages/capability/src/delegation.ts:317-330 | A member's own token is accepted exactly when its grant covers the permission and its standing is upheld |
| DelegationMeans.DelegatedIff | packages/capability/src/delegation.ts:332-408 | Any other payload is accepted exactly when the first capability it carries was granted to its issuer, stands on its subject and covers what it asks, and when it makes a grant of its own, that grant covers the permission, is current and is within the capability's |
| DelegationMeans.LinkRefused | packages/capability/src/delegation.ts:236-265 | A link is refused for what it breaks: audience, subject, expiry, issuance or permission |
| DelegationMeans.RootRefused | packages/capability/src/delegation.ts:214-230 | A last link is refused for what it breaks: issuer, membership, audience or one of its times |
| DelegationMeans.NobodysRefused | packages/capability/src/delegation.ts:286-289 | A payload about nobody is never accepted |
| Apdu.EncodeDerivationPath | packages/ledger-device/src/apdu.ts:21-43 | The count byte and big-endian hardened words of the path read off its text, or the first component without its hardening mark |
| PathText.ReadsBack | packages/ledger-device/src/apdu.ts:21-43 | A path written as decimal indices with their marks, after `m/` or not, is read as those indices |
| PathText.ReadsSigned | packages/ledger-device/src/apdu.ts:36-38 | A component is read past blanks and a sign as the digits up to the first character that is none, and as 0 when there are none there |
| PathText.ComponentsAre | packages/ledger-device/src/apdu.ts:21-38 | A path is read part by part between slashes, past a leading `m/`: a part that ends in the mark as the number before it, any other as not hardened |
| Apdu.EncodeSignMessageChunks | packages/ledger-device/src/apdu.ts:47-75 | For path bytes and messages of every length: the result is what the loop makes of them; it ends exactly on the lengths `Ends` names; when the path leaves room it is path and message cut in order; and what it ends with is well cut, every chunk nonempty and at most 255 bytes, the first alone opening and only the last ending, if and only if there is room and anything to send |
| Apdu.EndsIff | packages/ledger-device/src/apdu.ts:47-75 | The encoder ends if and only if the path bytes are at most 255; or the message is of 1 to 254 bytes and the path bytes are under 510; or, with t the excess over 510, such a message is longer than t and its length is no power of two times what it has beyond t |
| Apdu.LongPathSpins | packages/ledger-device/src/apdu.ts:21-75 | A path of 64 components or more never lets the encoder end on an empty message or one of 255 bytes or more |
| Device.ParseBip32Path | apps/ledger/src/crypto.c:6-35 | The path buffer gets the components read up to one not hardened; bytes consumed, or refusal |
| Device.SigningDevice.HandleFirst | apps/ledger/src/sign_message.c:60-95 | The first chunk's answer and whole new context, whatever was under way, a refused path or message ending the request |
| Device.SigningDevice.HandleContinuation | apps/ledger/src/sign_message.c:97-121 | A continuation is taken only while signing is under way and the message fits; it is appended, or the request ends |
| Device.SigningDevice.HandleSignMessage | apps/ledger/src/sign_message.c:60-126 | Both by the first parameter byte, any other refused |
| Device.SigningDevice.SignApproved | apps/ledger/src/sign_message.c:15-49 | Approval ends the request; the signature is over exactly the held path and message; the message is wiped once keys derive |
| Device.SigningDevice.SignRejected | apps/ledger/src/sign_message.c:51-58 | Rejection ends the request and wipes the message |
| Signing.RoundTrip | apps/ledger/src/sign_message.c:60-126 | For every hardened path of 1 to 5 components and message of at most 8192 bytes, from any context, the device ends holding exactly that path and message, and only the last chunk triggers review |
| Signing.WrittenRoundTrip | apps/ledger/src/sign_message.c:60-126 | The same from the path as text: one to five decimal indices below 2^31 reach the device as exactly those, hardened |
| Signing.TooLongNeverReviewed | apps/ledger/src/sign_message.c:60-126 | A longer message is never put to review |
| Signing.NeverOverruns | apps/ledger/src/sign_message.c:60-126 | For any sequence of commands the message length stays within 8192 and the path within 5 |
| Signing.StraysRefused | apps/ledger/src/sign_message.c:97-100 | With no request under way any run of continuation chunks is refused one by one and changes nothing |

## Left out

- Cryptography, key derivation, canonical JSON, base64url, multibase and DID parsing: functions of `Suite`.
- Creating events and capabilities (`createInception`, `createRotate`, `createReset`, `createCapability`) and signing.
- Async scheduling, provider failures, defensive copies and returning the caller's own array or log object when unchanged.
- Sequence, generation and lease numbers are unbounded integers; float64 rounding past 2^53 is not modelled.
- The order in which a JavaScript Map or Set is walked, where no result depends on it, is arbitrary.
- EpochMemory.MemoryOnlyGrows: that members keep their entry and do not return is stated where the snapshot's `add` references are not digests of events presented.
- LogMerge.MemoryLogStore.RunNext: what runs is the head of a queue of presentations; promise scheduling is not modelled, nor is that an unchanged log is not written again.
- ApplyChunk.ChunkContext.ApplyCandidate: the re-verification of copies already held and the pruning of those no longer authorised (`packages/records/src/apply.ts:568-592`) rest on caller hooks and are not modelled.
- Carrying.CarryAccepted: where the `add` references of the chain's ended incarnations are not digests of events presented, as is `Carrying.ResetAccepted`.
- ApplyChunk.ApplyRecordChunk: clock, signature and precheck screening, locks, retries after a changed source and content refusals happen around the pass loop and are not modelled; the store is seen at the keys the chunk consults.
- The hash of an op, the decoding of a stored copy's token, the HLC library, and the record stores: hashes, copies as read and canonical stamps are given.
- PullComplete.PassComplete: for a pass in which no summarized range collides, that is, no fingerprint sent is also that of other leaves held in the same range.
- ChunkConverges.ChunkLeavesGreatest: of a key whose held copies all verify and carry the decision held; one whose first copy fails verification gives way to any op the policy can order, as `ApplyMeans.OutcomeMeans` says.
- PullLeaves.PassLeavesGreater: what was asked for is taken in as the policy stores it, the newer decision of each record; that a fetch may fail is not modelled.
- RangeLeaf.LeafRanks: of decisions whose copies carry the content digest the decision names.
- Delegation.AcceptedWithinChain: token verification, audience revocation and the standing of a member-issued root are answers of `Verifier`.
- Well-formedness of patterns (`assertValidPattern`) and of token payloads: payloads are typed.
- Apdu.EncodeDerivationPath: indices are read exactly; the rounding of ones past 2^53 is not modelled.
- Signing.RoundTrip: states the path for an uninterrupted chunk sequence; public-key and ECDH commands appear only as commands that may overwrite the path.
- Ledger screens, status words beyond the answers named, and decoding of public-key, signature and shared-secret replies.
- SQL stores, migrations, key stores, resolvers, identity builders, OAuth and tracing: plumbing around these parts.
