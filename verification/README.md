# CELLO: directory replication and waitlist, modelled and proved

A Dafny 4.11 model of the parts of CELLO where correctness is a matter of state and interleaving:

- **Anti-entropy between directory nodes.** Each node pulls from its peers. It compares one digest
  per table, plans what it lacks (Tier A by record hash over a bucket walk, Tier B by key and version
  hash), fetches it and applies it (Tier A inserts by natural key if absent, Tier B merges).
  `Rows`, `Reconciliation`, `Merges`, `Store`, `Channel`, `Engine`, `RoundProperties`, `ForeignKeys`,
  `SteadyState`; the concrete tables in `DirectoryTables`, `NodeDirectory` and `NodeRound`; any number of nodes in
  `Convergence`, tied to the engine in `Refinement`.
- **The channel's mutual handshake** on a network that does what it likes: `Handshake`.
- **The dial and the fork alarm** over the history of dials: `Dialer`, `ForkAlarm`.
- **The kill switch** as interleaved SQL statements: `KillSwitch`.
- **Checkpoint signing** with concurrent replies and canonical batch order: `Checkpoint`.
- **Graph analysis** by union-find with path compression: `GraphAnalysis`.
- **The waitlist**: wave allocation (`Waves`), the mail queue with its resend door (`EmailJobs`), the
  gate that redeems tokens (`Gate`).
- **Peer ids**: base58 and varint (`PeerId`).

`Ordering` holds the shared facts about orders, sorting and counting.

The model keeps the source's form. Objects whose methods update their fields are classes
(`Store.Database`, `Channel.RemoteStoreView`, `GraphAnalysis.Analysis`, `KillSwitch.Suspensions`,
`Gate.Portal`, `EmailJobs.Desk`, `ForkAlarm.SyncService`); loops are loops with invariants, proved
against functions about which the theorems are stated. Protocols are state machines whose steps are
single committed statements, transactions or frames; a theorem "on every run" quantifies over every
sequence of steps.

**What stands for the outside.** SHA-256, JSON text, `Number()`, `Date.parse`, the signed encoding and
the per-table encoders are function values. SHA-256 is assumed collision free only on the finitely
many texts the two nodes being compared hash; version and tie-break hashes are assumed injective where
a lemma says so. Clocks, random nonces and peers' replies are inputs of the steps.

**Where the code and its prose differ.**

- A round is documented as losing only the failing table. Two things cross tables. The second local
  read of a table's hashes, inside the dialer's bucket walk, is outside every per-table `try`: of the
  rounds that healthy tables would have finished, exactly those in which such a read takes place and
  fails are lost whole (`RoundProperties.OnlyRereadsAreFatal`, with an input in
  `ForeignKeys.OneRereadLosesTheRound`). And a table with a foreign key depends on its parent: when the
  parent could not be read or pulled, a child record whose parent row is missing fails its INSERT, is
  passed over and is reported as a content fork of the child, which is not among the failures
  (`ForeignKeys.UnreadableParentLosesTheChild`, with an input in
  `ForeignKeys.LinkIsLostWithItsAccount`). A child is left as it would have been if and only if
  each record it is served finds its parent in both cases or in neither
  (`ForeignKeys.ChildIsIsolatedExactly`); a table whose whole line of parents is without fault is
  unaffected (`RoundProperties.HealthyLinesAreUnaffected`), and so is every table outside the line
  (`RoundProperties.LinesAreIsolated`). The registry's order is needed for this
  (`ForeignKeys.ChildFirstIsLost`) and suffices wherever the parent itself can be taken
  (`ForeignKeys.NoChildIsLeftBehind`); a parent that a second unique column keeps out, as two accounts
  of one phone number, takes its children with it (`ForeignKeys.ParentsFirstExactly` says exactly when).
- `failures` is documented as naming the tables that did not reconcile. A Tier-A table whose local
  INSERTs fail is not among them: `applyTierA` logs each failing INSERT and goes on, and the missing
  records are reported as a content fork of exactly their number, in a
  table with further unique columns too (`RoundProperties.RefusedInsertsLookLikeAFork`). The dial stays
  conclusive, and two such dials raise the fork alarm although no content disagrees
  (`Dialer.RefusedInsertsAlarm`). Only the checks before the INSERT throw (`Store.FoldAThrowsExactly`).
- The engine's header says a further round after both directions pulls nothing. That holds where no
  append-only row is kept out by a constraint and no status disagrees; otherwise every later round
  plans exactly those rows and statuses (`NodeRound.SteadyRound`) and every dial from the second on
  alarms (`Dialer.ConflictsAlarmForever`). No row changes again in any case
  (`NodeRound.OneRoundEachSettlesForGood`). The heartbeats of the shared `directory_nodes` row come
  together after two pulls exactly when no row known to the first side alone is older than the inserted
  default, and always after a third (`NodeDirectory.TwoPullsSettleExactly`,
  `NodeDirectory.ThreePullsSettle`). The failing family is real (`NodeDirectory.TwoPullsMayNotSettle`)
  but needs an instant before 1970: the column can hold one, while `refreshNodeHeartbeat` only ever
  writes the present time.
- `mergeSuspension` is documented as commutative. It is exactly when two records that tie on sequence
  number and tie-break hash carry the same copied columns (`Merges.SuspensionCommutesExactly`).
- A retired token is meant to be out of circulation, but the burning UPDATE does not ask whether it is
  retired and judges expiry as of its transaction's start, so a redemption begun in time still spends
  it (`Gate.RetiredTokenMayBeSpent`; exactly when: `Gate.SpendsRetiredExactly`).
- A checkpoint's threshold counts node ids. The key a signature is checked under comes with the reply,
  so one key can answer for several ids (`Checkpoint.OneKeyMayFillTheQuorum`; exactly when it cannot:
  `Checkpoint.QuorumOfKeys`).
- A login mail that has lost its link is to fail alone, but the error is raised inside the claiming
  transaction and takes the whole batch with it, again at every claim (`EmailJobs.ClaimBatch`,
  `EmailJobs.FailedBatchStaysStuck`): at the head of the queue it stops all mail until the link is back.
- `encodeVarint` works on 32-bit integers: it is inverted exactly for values below 2^32
  (`PeerId.VarintIsExactBelow32Bits`).
- A confirmation mail on its last attempt is no longer "already coming", so a resend can be claimed
  while it is still going out and its link is then dead (`EmailJobs.LastAttemptMayMailADeadLink`). And
  recording an outcome is unconditional, so a worker that outlives the reclaim window can put back a
  mail beside a newer one (`EmailJobs.LateOutcomeMayDoubleAMail`); exactly which outcomes do harm is
  `EmailJobs.OutcomeIsSafeExactly`.

## Model

| member | source | states |
|---|---|---|
| Convergence.NothingIsLostOrInvented | packages/directory/src/anti-entropy-engine.ts:288-389 | on every interleaving of the steps of any number of pulls between any number of nodes, no node loses or lowers a row between any two moments, and none exceeds the join of all initial states |
| Convergence.FullPassConverges | packages/directory/src/ae-sync-service.ts:221-228 | on every interleaving, with foreign keys checked at every apply, a node that has finished one full pass over its peers, each table after its parent, holds exactly the join of all initial states |
| Convergence.ConvergenceStaysPossible | packages/directory/src/ae-sync-service.ts:221-228 | after any run whatsoever some continuation brings every node to the join, so the full pass in order is always reachable |
| Convergence.NoRowDangles | packages/directory/db/migrations/V59__agent_account_links.sql:45-48 | on every interleaving, in order or not, no node ever holds a row without the row its foreign key refers to |
| Convergence.ChildFirstStaysBehind | packages/directory/src/pg-ae-store.ts:144-180 | why the order is asked for: an empty node that pulls a child table and then its parent, both to the end, has no row of the child |
| Convergence.PlanOmitsOnlyArrived | packages/directory/src/ae-round.ts:72-97 | whatever stale basis a plan was made from, a row it leaves out is already below the local row |
| Convergence.WalkOmitsOnlyArrived | packages/directory/src/ae-channel.ts:274-293 | the bucket walk too omits only rows that have arrived, though its second local read, the peer's bucket digests and the peer's hash list are of different moments |
| Convergence.WantedExactly | packages/directory/src/ae-round.ts:72-97 | when nothing moves in between, what is wanted of a peer is exactly its rows missing here or of another version, bucket walk or not |
| Convergence.PullAlone | packages/directory/src/anti-entropy-engine.ts:288-389 | a pull that nothing disturbs, its applies in any order, absorbs exactly the wanted rows of the peer, less those whose parent row is not here |
| Refinement.PullIsRoundA | packages/directory/src/anti-entropy-engine.ts:316-349 | that stepwise pull of a Tier-A table, key conflicts and children without their parent included, leaves exactly the rows the engine's round leaves against an honest peer, and touches no other table |
| Refinement.PullIsRoundB | packages/directory/src/anti-entropy-engine.ts:351-386 | the same for Tier B |
| Convergence.StepKeepsInv | packages/directory/src/anti-entropy-engine.ts:288-389 | every single step (digest, local read, plan, fetch, one apply, finish, failure) keeps the run invariant and only grows nodes |
| Convergence.DirectoryRulesAreLawful | packages/directory/src/anti-entropy-engine.ts:12-19 | the real suspension and presence merges, and insert-if-absent without key conflicts, are joins with versions that determine the row |
| Convergence.DirectoriesConverge | packages/directory/src/pg-ae-store.ts:144-260 | the convergence theorem instantiated with the actual merges and the actual foreign keys: although a child without its parent is refused, a pass with parents before children ends in the join |
| Convergence.BurnsSpread | packages/directory/src/suspension-merge.ts:68-98 | once a node has pulled suspensions from a node that held a burn, it holds the burn, in every run and ever after |
| NodeRound.OneRoundEachSettlesForGood | packages/directory/src/anti-entropy-engine.ts:288-389 | after one honest round each way, parents registered before children and no early row new to one side, no sequence of further honest rounds in either direction changes a row of any table of either node |
| NodeRound.TwoRoundsSettle | packages/directory/src/anti-entropy-engine.ts:12-19 | one honest round each way leaves nothing that could still pass in either direction, in any table of both tiers, and the shared table's heartbeats together exactly when no early row was new to one side |
| NodeRound.NoLaterRoundChangesAnything | packages/directory/src/anti-entropy-engine.ts:12-19 | from such a state no sequence of honest rounds changes anything |
| NodeRound.TwoRoundsMakeSteady | packages/directory/src/anti-entropy-engine.ts:288-389 | and every one of them, whichever side pulls, is a steady round as below |
| NodeRound.SteadyRound | packages/directory/src/anti-entropy-engine.ts:313-386 | once two nodes have settled, a round in either direction over all tables of both tiers finishes, changes no row, fetches all it plans and fails nowhere; it plans exactly the unsettled append-only records and the status disagreements, reports their numbers as divergent, and plans nothing where there are none |
| SteadyState.TwoRoundsSettleA | packages/directory/src/anti-entropy-engine.ts:288-389 | one honest pull each way settles an append-only table: neither side holds a row the other could still insert, under any unique constraint or foreign key |
| SteadyState.TwoRoundsSettleForever | packages/directory/src/anti-entropy-engine.ts:16-19 | and no sequence of further pulls in either direction changes a row of it |
| SteadyState.TwoRoundsSettleB | packages/directory/src/anti-entropy-engine.ts:288-389 | and brings a mutable table that owns its rows to the join on both sides |
| SteadyState.NoLaterRoundChangesARow | packages/directory/src/anti-entropy-engine.ts:16-19 | any sequence of pulls between two settled tables, each side checking its own parents, leaves both as they are |
| SteadyState.SettledPull | packages/directory/src/ae-round.ts:75-86 | a settled pull inserts nothing and wants exactly, one hash each, the peer's rows bound here to different content or refused by another constraint, a foreign key included |
| SteadyState.UnsettledAreTheMissing | packages/directory/src/pg-ae-store.ts:742-880 | in a settled table those rows are exactly the peer's rows not held |
| SteadyState.PullExhaustsThePeer | packages/directory/src/pg-ae-store.ts:742-880 | after an honest pull no row of the peer's could be inserted any more; own rows stay, new ones are the peer's, keys stay unique |
| SteadyState.HonestRoundA | packages/directory/src/anti-entropy-engine.ts:316-349 | against an honest peer all that is planned is fetched, and what did not insert is what is reported divergent |
| SteadyState.HonestRoundB | packages/directory/src/anti-entropy-engine.ts:351-386 | against an honest peer a Tier-B round computes the join of the two tables, planned keys or not, and plans nothing when they are equal |
| SteadyState.QuietRound | packages/directory/src/anti-entropy-engine.ts:288-389 | a round over quiet tables finishes, changes nothing, is conclusive |
| DirectoryTables.SuspensionsAreALattice | packages/directory/src/pg-ae-store.ts:387-454 | the kill-switch table, with its actual validation, stored form, merge and version summary over columns, is such a mutable table |
| DirectoryTables.PresenceIsALattice | packages/directory/src/pg-ae-store.ts:455-515 | so is the presence table, malformed timestamps included |
| DirectoryTables.PulledSuspensionIs | packages/directory/src/pg-ae-store.ts:960-1025 | over the columns, the row a pulled kill-switch record leaves: burned if either is, paused as the newer of the two says, and on a tie if either says so |
| DirectoryTables.SuspensionRefusedExactly | packages/directory/src/pg-ae-store.ts:387-454 | a kill-switch record is refused exactly when its key is not its agent or a column has the wrong type |
| DirectoryTables.PulledPresenceIs | packages/directory/src/pg-ae-store.ts:960-1025 | the row a pulled presence record leaves: of two real instants the later, and a malformed one never replaces a real one |
| DirectoryTables.PresenceRefusedExactly | packages/directory/src/pg-ae-store.ts:455-515 | the same refusal for presence records |
| DirectoryTables.VersionDigestDiscerns | packages/directory/src/ae-round.ts:66-69 | the actual Tier-B digest tells two version maps apart, as the rounds above need |
| NodeRound.EngineRoundIsPull | packages/directory/src/pg-ae-store.ts:516-614 | the engine's round over the one table both tiers share, Tier A inserting and Tier B merging the same row, is exactly `Pull` in rows, plan and verdict |
| NodeRound.SettledNodesAreQuiet | packages/directory/src/directory-node-heartbeat-merge.ts:87-126 | once heartbeats agree that table is quiet and reports exactly its status disagreements |
| Engine.RunRound | packages/directory/src/anti-entropy-engine.ts:288-389 | whatever the peer answers and whatever fails locally: a round that returns has done to each physical table exactly what its own function says, a child's foreign key checked against its parent as of its turn and Tier B seeing what Tier A left, and reports exactly their sum; it throws exactly when planning or the wire fails, each table then being as it was, as its Tier-A half or as its whole round left it; detail is requested only where digests differ and only non-empty plans are pulled |
| Engine.MakePlan | packages/directory/src/ae-round.ts:72-97 | the plan is, for every table, the one that table's own state and advertisement call for; it fails exactly when some detail request fails |
| Engine.PlanTierA | packages/directory/src/ae-round.ts:75-86 | untracked, unreadable, unadvertised and digest-equal tables are not planned and cause no detail request |
| Engine.PlanTierB | packages/directory/src/ae-round.ts:88-94 | the same for version maps |
| Engine.ReadTierA | packages/directory/src/anti-entropy-engine.ts:195-207 | a failing read costs that table alone and is named |
| Engine.ReadTierB | packages/directory/src/anti-entropy-engine.ts:208-220 | the same for Tier B |
| Engine.PullTierA | packages/directory/src/anti-entropy-engine.ts:313-349 | the loop processes tables in the local order, so that parents are settled before their children's foreign keys are checked, counts only completed ones, contains store failures and stops at a wire failure |
| Engine.PullTierB | packages/directory/src/anti-entropy-engine.ts:351-386 | the same for Tier B, on the tables as Tier A left them; the store's verdict is always present when it reports divergence |
| RoundProperties.ShortfallIsExact | packages/directory/src/ae-sync-service.ts:405-411 | against an arbitrary peer total pulled never exceeds total planned, and the shortfall is zero exactly when every planned record of every table was served and its table applied |
| RoundProperties.OnlyPlannedRowsLand | packages/directory/src/pg-ae-store.ts:742-880 | against an arbitrary peer no existing Tier-A row moves, and every new row's own content hash was planned |
| RoundProperties.LinesAreIsolated | packages/directory/src/anti-entropy-engine.ts:316-386 | two rounds that look alike from a physical table and from every table its foreign key leads back to give it the same plans, counts and final contents in both tiers, whatever happens in any other table |
| RoundProperties.HealthyLinesAreUnaffected | packages/directory/src/anti-entropy-engine.ts:195-220 | a table that has no fault, nor any table its foreign key leads back to, fares as if nothing had failed anywhere |
| RoundProperties.OnlyRereadsAreFatal | packages/directory/src/ae-channel.ts:274-293 | of the rounds that healthy tables would have finished, local failures end exactly those in which a second read of a table's hashes takes place and fails |
| ForeignKeys.OneRereadLosesTheRound | packages/directory/src/ae-channel.ts:274-293 | a failing input, for any two rows, encoders and hashes against an honest peer: one second read fails and a round that would have brought both rows is lost whole |
| ForeignKeys.FkRefusesExactly | packages/directory/src/pg-ae-store.ts:850-876 | a foreign key refuses exactly the records whose parent row is not there, whatever else the batch meets |
| ForeignKeys.ChildrenLandWithTheirParents | packages/directory/src/pg-ae-store.ts:144-180 | of a batch on which nothing else fails, exactly the children whose parent is there at their turn land; the others are a content fork of the child, which is not among the failures |
| ForeignKeys.ChildIsIsolatedExactly | packages/directory/src/anti-entropy-engine.ts:316-349 | two rounds alike from a child itself leave it alike if and only if every record it is served found its parent in both or in neither |
| ForeignKeys.ParentsFirst | packages/directory/src/pg-ae-store.ts:144-150 | with the parent registered first and pulled honestly, a child finds it if it was held, or is served and clashes with no other row held or served, and only if held or served |
| ForeignKeys.ParentsFirstExactly | packages/directory/db/migrations/V22__user_accounts.sql:22-24 | with unique columns besides the key, as the account table has, it finds it if and only if it was held, or the peer holds it and no row held here keeps it out |
| RoundProperties.RoomExactly | packages/directory/db/migrations/V9__agent_profiles.sql:24-25 | under unique columns a row has room beside a pool exactly when it meets its own checks and no row of the pool under another key clashes with it |
| ForeignKeys.NoChildIsLeftBehind | packages/directory/src/pg-ae-store.ts:144-180 | then an honest pull refuses no child whose parent is held, or is served and clashes with no other row held or served: the whole batch lands |
| ForeignKeys.UnreadableParentLosesTheChild | packages/directory/src/pg-ae-store.ts:169-180 | for every round: while the parent table cannot be read, each new child of a parent not held is lost, as a fork of its sound table and not as a failure |
| ForeignKeys.ChildFirstIsLost | packages/directory/src/pg-ae-store.ts:144-148 | for every round: with the child registered first, each new child of a parent not held is lost although nothing fails |
| ForeignKeys.OrphanIsLost | packages/directory/src/pg-ae-store.ts:850-876 | a new row of an honest peer whose parent is not there at its turn is lost and reported as a fork of its own table, which is not among the failures |
| ForeignKeys.LinkIsLostWithItsAccount | packages/directory/src/pg-ae-store.ts:169-180 | a failing input, for any rows, encoders and hashes: an account arrives with its link from an honest peer, and the link is lost when the account table cannot be read |
| ForeignKeys.LinkIsLostBeforeItsAccount | packages/directory/src/pg-ae-store.ts:144-148 | another: with the link table first the link is lost although nothing fails and the account arrives |
| RoundProperties.RefusedInsertsLookLikeAFork | packages/directory/src/pg-ae-store.ts:850-876 | where the local database fails INSERTs of a batch of which no record clashes with a row held or a record before it, the table takes exactly the rest, the missing records are reported as a content fork, and the table is not among the failures |
| RoundProperties.FailsExactlyA | packages/directory/src/anti-entropy-engine.ts:323-349 | a Tier-A table fails exactly when serving fails short of the wire or a kept record does not pass the checks before its INSERT |
| RoundProperties.NeverPlanned | packages/directory/src/ae-round.ts:75-94 | a locally unreadable or unadvertised table is never planned, counted or changed |
| RoundProperties.DroppedByTheResponder | packages/directory/src/ae-channel.ts:202-223 | a responder advertises exactly its registered readable tables, so a table it dropped is unadvertised |
| RoundProperties.ReportIsExact | packages/directory/src/anti-entropy-engine.ts:298-389 | `failures` names exactly the unreadable and failed tables, `unconverged` exactly the divergent ones |
| RoundProperties.CountsAreRows | packages/directory/src/anti-entropy-engine.ts:316-349 | a Tier-A half that goes through reports the rows it added as applied and the rest of what it fetched as divergent, a content fork if there is any |
| RoundProperties.CountsAreTheStores | packages/directory/src/anti-entropy-engine.ts:351-386 | and a Tier-B half reports what the store reported: applied, divergent, keys and verdict |
| RoundProperties.TallyAddsUp | packages/directory/src/anti-entropy-engine.ts:298-389 | planned, pulled and applied counts, failures and reports of a tier are the sums over its tables |
| RoundProperties.DetailOnlyWhereDigestsDiffer | packages/directory/src/ae-round.ts:72-97 | detail of a table is requested only where it is registered, readable and advertised and the digests differ, and records only for a non-empty plan |
| Channel.KeptAreRequestedOnce | packages/directory/src/ae-channel.ts:315-347 | whatever a peer serves, the kept records are served ones, requested, each once; a requested one is kept exactly when served |
| Channel.KeptCount | packages/directory/src/ae-channel.ts:315-347 | never more than requested, and as many exactly when all requested were served |
| Channel.KeptAreTheFirst | packages/directory/src/ae-channel.ts:315-347 | of records served under one label the first is kept |
| Channel.FilterServed | packages/directory/src/ae-channel.ts:327-334 | the filter with its `seen` set keeps exactly those records |
| Channel.WalkIsFullExchange | packages/directory/src/ae-channel.ts:268-293 | over the wire, against a peer answering from its table, the bucket walk ends in the plan the full hash list would give |
| Channel.RemoteStoreView.RecordHashes | packages/directory/src/ae-channel.ts:274-293 | the walk's requests and result for any replies, including its second local read |
| Channel.RemoteStoreView.ServeTierA | packages/directory/src/ae-channel.ts:315-335 | one request, and the reply cut down to what was asked |
| Channel.RemoteStoreView.ServeTierB | packages/directory/src/ae-channel.ts:336-347 | the same by key |
| Channel.AdvertisedExactly | packages/directory/src/ae-channel.ts:202-223 | a table is advertised exactly when registered and readable, once, with its digest |
| Channel.Advertise | packages/directory/src/ae-channel.ts:202-223 | the loop builds that advertisement and names exactly the skipped tables |
| Channel.ServedAreTheRows | packages/directory/src/pg-ae-store.ts:709-719 | serving returns exactly the rows whose hash was asked for, under that hash |
| Channel.ServedInOrder | packages/directory/src/pg-ae-store.ts:709-719 | in table order |
| Channel.ServeRows | packages/directory/src/pg-ae-store.ts:709-719 | the serving loop, in table order |
| Store.FoldAOnlyAppends | packages/directory/src/pg-ae-store.ts:742-880 | a Tier-A batch, thrown or not, only appends genuine offered rows, as many as it reports, and keeps natural keys unique |
| Store.FoldAThrowsExactly | packages/directory/src/pg-ae-store.ts:742-810 | a Tier-A batch throws exactly on a record that fails the checks before its INSERT (required columns, content hash, and for a chained table its writer and hex); no failing INSERT throws |
| Store.FoldBThrowsExactly | packages/directory/src/pg-ae-store.ts:960-980 | a Tier-B batch throws exactly on a key/body mismatch, an invalid body or a failing store; an unknown key does not throw |
| Store.FoldBStaysInItsKeys | packages/directory/src/pg-ae-store.ts:960-1025 | a batch touches only rows it names, each stays under its own key, and a table that does not own its rows gains none |
| Store.FoldBAt | packages/directory/src/pg-ae-store.ts:960-1025 | sound records of distinct keys act independently: each leaves its own row merged where the merge moves the version, inserted or skipped as the table owns its rows or not, and is a witness exactly when it disagrees |
| Store.VerdictAlwaysNamed | packages/directory/src/pg-ae-store.ts:938-957 | divergence is reported exactly with a verdict; a fork only on a witness, counting the disagreeing records; a peer behind only when the whole batch changed nothing, counting all of it; the first five keys are named |
| Store.Database.ApplyTierA | packages/directory/src/pg-ae-store.ts:742-880 | the table becomes the batch's fold, foreign keys checked against the database, with the mutable half of each new row opened where the table has one; earlier inserts survive a throw, failing INSERTs are passed over, other tables are untouched |
| Store.Database.ApplyTierB | packages/directory/src/pg-ae-store.ts:911-958 | the same for Tier B, with the reported counts, keys and verdict |
| Reconciliation.BucketWalkIsExact | packages/directory/src/ae-channel.ts:274-293 | planning from the hashes of differing buckets gives the same list as planning from the whole hash list |
| Reconciliation.TableDigestIsExact | packages/directory/src/set-reconciliation.ts:77-93 | table digests agree exactly when the record sets do, whatever the order and repetition |
| Reconciliation.BucketTextIsExact | packages/directory/src/set-reconciliation.ts:77-83 | the separator-less text of a bucket determines exactly its set of hashes |
| Reconciliation.BucketTextIsSorted | packages/directory/src/set-reconciliation.ts:77-83 | what a bucket's digest covers: its hashes, each once, ascending, run together |
| Reconciliation.BucketsAreInOrder | packages/directory/src/set-reconciliation.ts:36-50 | a bucket is the rank of the first two hex digits, so buckets are in the order of the hashes |
| Reconciliation.JoinIsInjective | packages/directory/src/set-reconciliation.ts:53-58 | joining 64-character hashes without separator is unambiguous |
| Reconciliation.WellFormedExactly | packages/directory/src/set-reconciliation.ts:60-69 | a hash is well formed exactly when it is 64 lower-case hex digits |
| Reconciliation.ValidatedSet | packages/directory/src/set-reconciliation.ts:60-69 | throws exactly on a malformed hash, otherwise each hash once |
| Reconciliation.FillBuckets | packages/directory/src/set-reconciliation.ts:77-82 | every bucket receives exactly the hashes of its prefix, in order |
| Reconciliation.BucketDigests | packages/directory/src/set-reconciliation.ts:77-83 | 256 digests, empty buckets included |
| Reconciliation.DifferingBuckets | packages/directory/src/set-reconciliation.ts:99-105 | exactly the differing positions, each once, a short vector included |
| Reconciliation.MissingLocallyIsDifference | packages/directory/src/set-reconciliation.ts:111-121 | exactly the peer's hashes not held here, each once |
| Reconciliation.VersionDigestIsExact | packages/directory/src/ae-round.ts:66-69 | Tier-B digests agree exactly when the version maps do, whatever the listing order |
| Reconciliation.VersionDigestHashesSorted | packages/directory/src/ae-round.ts:66-69 | what is hashed are the entries sorted by key |
| Reconciliation.StaleIsExact | packages/directory/src/version-reconcile.ts:22-34 | the keys to pull are exactly the peer's keys missing or different here, each once |
| Reconciliation.StaleInOrder | packages/directory/src/version-reconcile.ts:22-34 | in the peer's order |
| Reconciliation.VersionKeysToPull | packages/directory/src/version-reconcile.ts:22-34 | the loop returns that list in the peer's order |
| Merges.SuspensionCommutesExactly | packages/directory/src/suspension-merge.ts:68-98 | the merge commutes if and only if a tie on number and hash is a tie on the copied columns |
| Merges.SuspensionAssociative | packages/directory/src/suspension-merge.ts:68-98 | associative for all records, hash collisions included |
| Merges.SuspensionIdempotent | packages/directory/src/suspension-merge.ts:68-98 | merging a record with itself changes nothing |
| Merges.KillSwitchNeverLosesABurn | packages/directory/src/suspension-merge.ts:68-98 | burned exactly if either was; a newer write decides the pause and brings its columns; among equals suspended wins and the larger tie-break hash brings the columns |
| Merges.PresenceIsSemilattice | packages/directory/src/presence-merge.ts:42-57 | commutative, associative and idempotent, malformed timestamps included |
| Merges.LaterPresenceWins | packages/directory/src/presence-merge.ts:42-57 | on either side: the later of two real instants wins, a real one wins over a malformed one, and between equal ones the larger canonical text |
| Merges.HeartbeatMergeLaws | packages/directory/src/directory-node-heartbeat-merge.ts:87-126 | on one node id associative, idempotent, absorbing, keeps the left status, agrees on the timestamp; commutes if and only if statuses agree |
| Merges.LaterHeartbeatWins | packages/directory/src/directory-node-heartbeat-merge.ts:103-126 | on either side: the later of two real heartbeats stays, a malformed one never does, and on a tie the larger canonical text decides |
| NodeDirectory.VersionSeesExactlyItsColumns | packages/directory/src/ae-mutable-version.ts:112-120 | two rows share a version exactly when they agree, normalised, on every version column |
| NodeDirectory.DriversAgree | packages/directory/src/ae-mutable-version.ts:112-120 | an instant and its decimal text, a flag and its text, a null and a missing column give one version |
| NodeDirectory.TextsTell | packages/directory/src/ae-mutable-version.ts:112-120 | two different texts, or a text and a null, do not |
| NodeDirectory.EncodeVersion | packages/directory/src/ae-mutable-version.ts:112-120 | the loop hashes exactly the spec's columns |
| NodeDirectory.EqualVersionsLeaveTheRowAlone | packages/directory/src/directory-node-heartbeat-merge.ts:103-126 | equal versions mean the merge leaves the local row as it is |
| NodeDirectory.PullIs | packages/directory/src/pg-ae-store.ts:516-614 | a pull column by column: a known node keeps region and status, a new one takes the peer's region and is active, and the later real heartbeat stays |
| NodeDirectory.SettledForever | packages/directory/src/directory-node-heartbeat-merge.ts:87-126 | once heartbeats agree nothing moves in any later exchange, and every round in both directions plans and reports exactly the status disagreements |
| NodeDirectory.TwoPullsSettleExactly | packages/directory/src/pg-ae-store.ts:516-614 | one pull each way brings the heartbeats together exactly when no row is new to one side with a heartbeat older than the inserted default |
| NodeDirectory.TwoPullsMayNotSettle | packages/directory/src/pg-ae-store.ts:538-548 | a node known to the first side alone with a heartbeat before 1970 is one pull short |
| NodeDirectory.ThreePullsSettle | packages/directory/src/pg-ae-store.ts:516-614 | a third pull always does |
| Handshake.ResponderAgreement | packages/directory/src/ae-channel.ts:529-592 | on every run, a responder that served a round frame shares node ids, peer ids, nonces and timestamp with exactly one dialer session of the claimed honest node, and no other responder session shares them |
| Handshake.DialerAgreement | packages/directory/src/ae-channel.ts:395-489 | symmetrically for a dialer that sent a request |
| Handshake.StepKeepsInv | packages/directory/src/ae-channel.ts:419-489 | every frame the network may deliver keeps the invariant behind both |
| Handshake.VerifyAcceptsExactly | packages/directory/src/ae-handshake.ts:65-126 | a frame is accepted exactly when every binding holds at once: both node ids, the pinned key and peer id, the live peer, both nonces in their places, a timestamp with offset within a minute of now, and the signature over all of it |
| Handshake.ReasonsAreTrue | packages/directory/src/ae-handshake.ts:65-126 | whatever reason a refusal names is true of the frame |
| Handshake.HonestHandshakeCompletes | packages/directory/src/ae-channel.ts:395-592 | two honest nodes that pin each other do get through, so agreement is not vacuous |
| ForkAlarm.StreaksAreTrailingRuns | packages/directory/src/ae-sync-service.ts:435-481 | for every history the stored streak of every table is the number of trailing conclusive dials that diverged on it; others neither count nor clear |
| ForkAlarm.AlarmIsExact | packages/directory/src/ae-sync-service.ts:435-481 | the alarm fires exactly on conclusive dials where that number is at least two, with that number |
| ForkAlarm.PersistentForkAlarms | packages/directory/src/ae-sync-service.ts:435-481 | a table divergent on every dial, all conclusive, alarms from the second on with the number of dials |
| ForkAlarm.NoForkNoAlarm | packages/directory/src/ae-sync-service.ts:435-481 | a table that never diverges never alarms |
| ForkAlarm.ConclusiveExactly | packages/directory/src/ae-sync-service.ts:352-434 | a failure in any round, or a shortfall summed over all rounds, makes a dial inconclusive, and nothing else does |
| ForkAlarm.RoundsAddUp | packages/directory/src/ae-sync-service.ts:352-411 | planned and pulled records, failures and reports of a dial are those of all its rounds |
| Dialer.RunRounds | packages/directory/src/ae-channel.ts:472-489 | the dialer's loop: each round against the advertisement it has just asked for, on the rows the last one left; an unfinished round ends the dial |
| Dialer.SteadyDial | packages/directory/src/ae-sync-service.ts:352-481 | a dial between settled nodes is conclusive and divergent exactly on the tables with unsettled rows or a status disagreement |
| Dialer.ConflictsAlarmForever | packages/directory/src/ae-sync-service.ts:412-481 | such a table alarms on every dial from the second on, every other table never |
| Dialer.RefusedInsertsAlarm | packages/directory/src/pg-ae-store.ts:850-876 | two dials in a row on which the local database refused inserts raise the fork alarm, though no content disagrees |
| ForkAlarm.SyncService.Account | packages/directory/src/ae-sync-service.ts:352-481 | the accounting of one dial updates this peer's streaks accordingly and no other peer's |
| ForkAlarm.MergedVerdicts | packages/directory/src/ae-sync-service.ts:358-374 | merging a dial's rounds keeps a table divergent exactly if some round was, and a content fork if any round had one |
| ForkAlarm.DivergedExactly | packages/directory/src/ae-sync-service.ts:358-374 | a dial diverges on a table exactly when one of its rounds reported it divergent |
| ForkAlarm.MergedAddsUp | packages/directory/src/ae-sync-service.ts:358-374 | the merged report of a table sums its counts over all rounds and names the first five keys |
| ForkAlarm.MergeUnconverged | packages/directory/src/ae-sync-service.ts:358-374 | the reduction computes that merge |
| ForkAlarm.Advance | packages/directory/src/ae-sync-service.ts:442-480 | clears the converged tables, extends the others, alarms from two on |
| KillSwitch.WritesAreLinearizable | packages/directory/src/agent-write-repository.ts:58-104 | every interleaving of the statements of concurrent pause, clear and burn calls has a sequential order with the same replies and the same row |
| KillSwitch.HistoryRespectsRealTime | packages/directory/src/agent-write-repository.ts:58-104 | in that order a call that returned before another started comes first |
| KillSwitch.ReachableStates | packages/directory/src/agent-write-repository.ts:58-104 | in every reachable state burned implies paused, burned never reverts, and the sequence number counts the writes |
| KillSwitch.StatementsDo | packages/directory/src/agent-write-repository.ts:66-103 | on every interleaving, what each single statement does to the row and what it answers |
| KillSwitch.OnlyAClearResumes | packages/directory/src/agent-write-repository.ts:66-103 | on every interleaving a paused agent stays paused until the UPDATE of a clear, and a burned one whatever runs |
| KillSwitch.Suspensions.ApplyRevocationFlag | packages/directory/src/agent-write-repository.ts:58-104 | one uninterrupted call: a pause or burn leaves the agent paused under the caller's account and node, burned if it was or this is a burn; a clear leaves an agent that is not burned unpaused with its account kept, and otherwise changes nothing and tells burned from absent; no other agent is touched |
| Checkpoint.BatchOrderIsCanonical | packages/directory/src/checkpoint-coordinator.ts:85-95 | a permutation in the order of recorded time and then conversation id, and the same sequence for every permutation of a batch with distinct keys |
| Ordering.SortIsStable | packages/directory/src/checkpoint-coordinator.ts:85-95 | rows that tie stay in the order they were read |
| Checkpoint.CoordinatorsAreTheLowest | packages/directory/src/checkpoint-coordinator.ts:230-273 | with a shared view exactly the lowest id coordinates inside the window, and exactly the two lowest after it |
| Checkpoint.CheckpointsHaveQuorum | packages/directory/src/checkpoint-coordinator.ts:366-531 | for any replies in any interleaving a checkpoint is written only with a threshold of distinct nodes whose signatures verify over the same bytes |
| Checkpoint.OneKeyMayFillTheQuorum | packages/directory/src/checkpoint-coordinator.ts:421-483 | a failing input: two peers answering under one key are both counted |
| Checkpoint.QuorumOfKeys | packages/directory/src/checkpoint-coordinator.ts:421-483 | for any replies in any order, a quorum of ids is one of keys if and only if no countable reply comes under the coordinator's key or under another's, as whenever each comes under the key pinned to the peer addressed alone |
| Checkpoint.CollectedAre | packages/directory/src/checkpoint-coordinator.ts:421-483 | whatever the order of the answers, the collected signatures are the coordinator's and exactly those of the countable replies |
| Checkpoint.BeginAsks | packages/directory/src/checkpoint-coordinator.ts:366-421 | a round begins with only its own signature counted, nothing stored, and every other node asked |
| Checkpoint.OnlyTheBatchIsCleared | packages/directory/src/checkpoint-coordinator.ts:500-520 | only rows of the batch are cleared, and only after the checkpoint and all its signatures |
| Checkpoint.StepKeepsInv | packages/directory/src/checkpoint-coordinator.ts:366-531 | every collector and write step keeps the round's invariant |
| Checkpoint.HonestSignersHeldTheState | packages/directory/src/checkpoint-coordinator.ts:286-325 | a collected signature under an honest key was made by a node that held the coordinator's peaks and identity root |
| Checkpoint.ExactlyTheValidCount | packages/directory/src/checkpoint-coordinator.ts:421-483 | in any order of answers the counted nodes are the coordinator and exactly the peers that answered with a valid signature |
| Checkpoint.Collect | packages/directory/src/checkpoint-coordinator.ts:402-483 | the concurrent collectors, resumed in the order of arrival, grow `seenNodeIds` and the signatures as those answers demand |
| Checkpoint.RunCoordinatorRound | packages/directory/src/checkpoint-coordinator.ts:366-531 | for any answers in any order: writes exactly when the counted signatures reach the threshold, then all of them, clearing only the batch; one run of that machine |
| GraphAnalysis.Compute | packages/directory/src/analytics-job.ts:479-617 | for every edge list each pseudonym's metrics describe its component: community id is the rank of the component's least member, conductance 0, clustering in [0,1]; on canonical edges clustering times k(k-1) is twice the number of edges among its k neighbours, and 0 below two |
| GraphAnalysis.CommunityIsComponent | packages/directory/src/analytics-job.ts:563-597 | two community ids are equal exactly when an edge path connects the pseudonyms |
| GraphAnalysis.RootsAreComponents | packages/directory/src/analytics-job.ts:523-561 | two nodes share a root exactly when connected, and the root is the component's least member |
| GraphAnalysis.CompressionKeepsRoots | packages/directory/src/analytics-job.ts:536-543 | path compression changes no root |
| GraphAnalysis.LinkPartitionsOneMore | packages/directory/src/analytics-job.ts:546-557 | linking two roots turns the partition of the edges so far into that of one edge more |
| GraphAnalysis.RootsAreLeasts | packages/directory/src/analytics-job.ts:549-569 | the roots are exactly the least members of the components |
| GraphAnalysis.Analysis.Find | packages/directory/src/analytics-job.ts:531-544 | terminates with the root and compresses without moving any |
| GraphAnalysis.Analysis.Union | packages/directory/src/analytics-job.ts:546-557 | the forest now partitions by the old edges and the new one |
| GraphAnalysis.Analysis.UnionAll | packages/directory/src/analytics-job.ts:559-561 | the forest partitions by all edges |
| GraphAnalysis.Analysis.CollectRoots | packages/directory/src/analytics-job.ts:563-567 | exactly the roots |
| GraphAnalysis.Analysis.CrossWeight | packages/directory/src/analytics-job.ts:598-611 | no edge leaves a component, so the cut weight is 0 |
| GraphAnalysis.NumberRoots | packages/directory/src/analytics-job.ts:568-569 | ids fill 0..n-1 in the order of the roots |
| GraphAnalysis.BuildAdjacency | packages/directory/src/analytics-job.ts:483-510 | neighbours and weighted degrees are those of the edges |
| GraphAnalysis.DegreesSumToTwiceTheWeight | packages/directory/src/analytics-job.ts:483-510 | every edge counts at both its ends: over all nodes those degrees sum to twice the weight of the graph |
| GraphAnalysis.CountLinked | packages/directory/src/analytics-job.ts:582-590 | counts each edge among the neighbours once, at most all pairs |
| GraphAnalysis.MeasureClustering | packages/directory/src/analytics-job.ts:579-592 | in [0,1]; on canonical edges, times k(k-1), exactly twice the number of edges among the k neighbours, and 0 below two |
| Waves.Validate | infra/lambda/waitlist-waves/handler.py:66-94 | accepts exactly positive capacity, shares between 0 and 100 together, and a named opener |
| Waves.ValidateNamesTheFirst | infra/lambda/waitlist-waves/handler.py:66-94 | and names the first fault, in its order |
| Waves.CohortIsSound | infra/lambda/waitlist-waves/handler.py:97-280 | no user id twice, only waiting, verified users without a live token, at most `capacity` |
| Waves.FloorsFit | infra/lambda/waitlist-waves/handler.py:175-176 | the floors of the two shares never exceed the remainder |
| Waves.ShortCohortTakesEveryone | infra/lambda/waitlist-waves/handler.py:214-251 | a short cohort holds every waiting, verified user without a live token, except those without points when `zero_pct` is 0 |
| Waves.NobodyIsPassedOver | infra/lambda/waitlist-waves/handler.py:144-280 | over the columns: no left-out user of the points class has more points than an admitted one, or as many and an earlier sign-up; none of the other classes an earlier sign-up than an admitted one |
| Waves.ClassesInOrder | infra/lambda/waitlist-waves/handler.py:144-251 | while a premium user is left out only premium users are admitted; while one with points is left out those without fill no more than their share |
| Waves.ZeroShareIsObeyed | infra/lambda/waitlist-waves/handler.py:222-251 | with `zero_pct` 0 no user without points is admitted, not even to fill the wave |
| Waves.BackfillIsNeverPremium | infra/lambda/waitlist-waves/handler.py:228-251 | the backfill holds no premium user |
| Waves.BreakdownIsExact | infra/lambda/waitlist-waves/handler.py:261-280 | the three counts are the cohort's classes and sum to its size |
| Waves.SharesAreHonoured | infra/lambda/waitlist-waves/handler.py:144-280 | premium users first, and each share filled as far as its class reaches |
| Waves.SelectCohort | infra/lambda/waitlist-waves/handler.py:97-280 | the four queries return such a cohort: nobody twice, within capacity, nobody passed over within a class or between them, everyone when there is room, both shares honoured, and the counts those of the admitted users by their columns |
| EmailJobs.EveryInterleaving | infra/lambda/waitlist-email/handler.py:187-224 | in every interleaving of signup, resend, claim, crash, reclaim and outcome in which no worker outlives the reclaim window, a user has at most one claimable confirmation job |
| EmailJobs.StepKeepsInv | infra/lambda/waitlist-email/handler.py:658-684 | every step keeps the queue's invariant, outcomes as long as they are on time |
| EmailJobs.LastAttemptMayMailADeadLink | infra/lambda/_resend.py:81-205 | for every configuration, a run within the window in which a last attempt mails a link already replaced, so "below the maximum" cannot be dropped |
| EmailJobs.LateOutcomeMayDoubleAMail | infra/lambda/waitlist-email/handler.py:469-502 | for every configuration with three attempts, a run in which an outcome recorded after the window leaves two claimable jobs, so the window cannot be dropped |
| EmailJobs.OutcomeIsSafeExactly | infra/lambda/waitlist-email/handler.py:469-502 | an outcome, late or not, breaks the promise exactly when the user had unsubscribed by the claim, or an active user's mail failed with attempts to spare in claim and row, beside another claimable job of the user |
| EmailJobs.Desk.ResendLink | infra/lambda/_resend.py:37-205 | the door's checks in order: already coming, rate limit, then request and job |
| EmailJobs.ResendAnswers | infra/lambda/_resend.py:81-205 | case by case: silence for a stranger or a suppressed mailbox, throttled exactly when no mail may still go and the limit's worth of requests lie inside the window, otherwise a login link for a verified user and a confirmation for another |
| EmailJobs.Desk.FindComing | infra/lambda/_resend.py:98-160 | finds a job exactly when one is still coming |
| EmailJobs.Desk.Drain | infra/lambda/waitlist-email/handler.py:690-812 | one claimed job gets exactly its outcome and the claim ends |
| EmailJobs.OutcomeIs | infra/lambda/waitlist-email/handler.py:469-502 | what becomes of a claimed job: a delivered mail is sent, a failed one waits until its last attempt, and what a suppressed or unconfirmed user's mail does |
| EmailJobs.TakingIs | infra/lambda/waitlist-email/handler.py:187-224 | a job may be taken exactly when it is due, has attempts left and is pending or left behind by a worker past the window; what taking changes and what the claim carries |
| EmailJobs.SignupIs | infra/lambda/waitlist-signup/handler.py:489-513 | a signup queues the confirmation at once, the survey a day later and the update after two weeks |
| EmailJobs.UsersOnlyAdvance | infra/lambda/waitlist-bounce/handler.py:91-107 | on every run a user, once there, stays, confirmed for good and suppressed for good |
| EmailJobs.ClaimBatch | infra/lambda/waitlist-email/handler.py:187-296 | a claim takes its whole batch exactly when every login mail in it still has its link, and nothing otherwise |
| EmailJobs.FailedBatchStaysStuck | infra/lambda/waitlist-email/handler.py:187-320 | a login mail without its link at the head of the queue fails every later claim whole, however many invocations run: until the link is back no job is claimed, queued before or since |
| Gate.EveryRun | infra/lambda/waitlist-gate/handler.py:109-275 | over all runs of assembly, expiry and redemption, expiry judged as of each redemption's start, a user holds at most one live token, used tokens equal accounts linked by token, and a token is burned once exactly if it is used |
| Gate.FinishIsAllOrNothing | infra/lambda/waitlist-gate/handler.py:109-195 | a refusal changes nothing; a burn spends exactly the token presented and links exactly one account; no key is rebound |
| Gate.RedemptionIsJudged | infra/lambda/waitlist-gate/handler.py:109-195 | every answer to a redemption by token over what was presented and what the tables hold, the first failing check naming itself |
| Gate.KnownIsJudged | infra/lambda/waitlist-gate/handler.py:234-256 | a known account is admitted unless it presents somebody else's key |
| Gate.KeysAreNeverRebound | infra/lambda/waitlist-gate/handler.py:196-232 | between any two moments of a run an agent key stays with its user |
| Gate.AdmissionBindsTheKey | infra/lambda/waitlist-gate/handler.py:176-275 | an admission with a key binds it to exactly the token's or the known account's user and changes no other binding |
| Gate.AdmittedKeysStayBound | infra/lambda/waitlist-gate/handler.py:196-275 | on every run a key presented by an admitted redemption is bound, from then on, to the user it was admitted for |
| Gate.RetiredTokenMayBeSpent | infra/lambda/waitlist-gate/handler.py:122-132 | for any users, tokens and times, a run from the start in which a redemption begun before a token lapses spends it after a wave has retired it |
| Gate.SpendsRetiredExactly | infra/lambda/waitlist-gate/handler.py:122-132 | a redemption makes a retired token a spent one exactly when it is by token and well-formed, the account is new, the token is retired, unused and had not expired at its start, and the key is free or the user's own |
| Gate.PromptRunsSpendNoRetiredToken | infra/lambda/waitlist-gate/handler.py:109-195 | on every run in which no redemption meets a token retired meanwhile, no retired token is ever spent |
| Gate.AssembleKeepsInv | infra/lambda/waitlist-waves/handler.py:403-430 | opening a wave keeps the invariant and spends no token |
| Gate.AssembleAdmits | infra/lambda/waitlist-waves/handler.py:403-413 | opening a wave takes exactly the admitted users out of the queue |
| Gate.AssembleMints | infra/lambda/waitlist-waves/handler.py:137-142 | it retires exactly the lapsed unused tokens and gives each admitted user one of two weeks; an empty cohort changes nothing |
| Gate.Portal.Burn | infra/lambda/waitlist-gate/handler.py:109-195 | the transaction, with its rollbacks and its start as the time it judges expiry by, is the redemption step; an admission spends exactly the token and binds the key to its user, a refusal changes nothing |
| Gate.Portal.WriteLink | infra/lambda/waitlist-gate/handler.py:196-232 | binds a free key, accepts the same user again, refuses another |
| Gate.Portal.Reap | infra/lambda/waitlist-waves/handler.py:137-142 | retires exactly the lapsed unused tokens |
| PeerId.Base58RoundTrip | infra/scripts/derive-peerid-from-transport-key.js:61-81 | a positional decoder undoes the encoding; value and leading zeros are kept |
| PeerId.Base58IsInjective | infra/scripts/derive-peerid-from-transport-key.js:61-81 | different byte strings encode differently |
| PeerId.Base58Encode | infra/scripts/derive-peerid-from-transport-key.js:61-81 | the division loop computes that encoding and throws exactly on the empty input |
| PeerId.VarintRoundTrip | infra/scripts/derive-peerid-from-transport-key.js:119-127 | a base-128 decoder reads back the value modulo 2^32 and the rest of the stream |
| PeerId.VarintIsExactBelow32Bits | infra/scripts/derive-peerid-from-transport-key.js:119-127 | it reads back the value itself exactly below 2^32 |
| PeerId.VarintIsPrefixFree | infra/scripts/derive-peerid-from-transport-key.js:119-127 | below 2^32 no encoding is a proper prefix of another |
| PeerId.EncodeVarint | infra/scripts/derive-peerid-from-transport-key.js:119-127 | the shifting loop computes that encoding |
| PeerId.PeerIdDeterminesKey | infra/scripts/derive-peerid-from-transport-key.js:116-135 | two transport keys with the same peer id are the same key |
| PeerId.PeerIdBegins | infra/scripts/derive-peerid-from-transport-key.js:6-25 | every peer id of a 32-byte key begins with 12D3KooW |

## Left out

- Dialing, stream framing, timeouts, eviction and redial: a peer is a script of replies that may fail, and a frame that is malformed, oversized or late is a wire failure.
- The internals of SHA-256, Ed25519, CBOR and JSON, Unicode normalisation in record hashes, and `buildAePeerAuthTbs`, which is not part of this model; the handshake uses an injective encoding that refuses one node on both sides.
- SQL text, locking, row-level security, the insert-race retry of `applyTierB`: each committed statement or transaction is one atomic step.
- The chain hashes of chained Tier-A tables; their checks before the INSERT are modelled.
- The wire filter of `signal_records`: the model's rows are the ones a table advertises and serves; a row the filter hides, and the key it occupies, are left out.
- NodeRound.SteadyRound: supposes that what a table's own constraint refuses beside some rows it still refuses beside more, as unique constraints and column encodings do.
- DirectoryTables.SuspensionsAreALattice: a peer's null `origin_node` is read as the empty string it is stored as, also where the tie-break hash sees the raw value.
- Convergence.DirectoriesConverge: leaves out the heartbeat of `directory_nodes`, whose status is deliberately never merged; NodeDirectory and NodeRound state what converges there.
- Convergence.FullPassConverges: no local writes during the run, no append-only key conflict and, as for failures, no row kept out by a constraint other than its foreign key; digests stand for the version maps they are exact for.
- Refinement.PullIsRoundA: supposes that no new row of the peer's clashes, under a constraint other than natural key and foreign key, with a row held by either side, since the stepwise model has no such constraint.
- Handshake.ResponderAgreement: says nothing about a claimed node whose key is not held by an honest node, since such a node can sign anything.
- GraphAnalysis.Compute: edges are looked up as pairs rather than by `a|b` strings, so pseudonyms containing the separator do not alias.
- Waves.CohortIsSound: takes `waitlist_id` as the primary key it is.
- Waves.SelectCohort: one wave at a time. Two opened at once under READ COMMITTED can make a `LIMIT ... FOR UPDATE` query return fewer rows than match, and then a premium user can reach the backfill.
- Waves.Validate: Python's acceptance of booleans as integers is not modelled; points are natural numbers.
- EmailJobs.EveryInterleaving: supposes, as the design does, that mailboxes are suppressed one way and that no worker outlives the reclaim window; the confirmation and login links only, the doors of the other templates and sending itself being parameters or left out.
- Checkpoint: the MMR and identity-root computations, and the persistence of proposals between rounds.
- The first two analytics phases, the gap alarm, latency floors, HTTP, mail templates, pages, the gallery, webhooks, rotation, seeding and publishing scripts: I/O or one-branch facts.
