# LiminalDB: verified model of the field, its journal and its ledgers

LiminalDB keeps a field of cells in memory. Impulses wake cells, ticks age, divide and kill them,
dreams move the scores of the links between them, and every change that must survive is written to
a journal as a delta; recovery folds those deltas again. Beside the field stand an idempotent,
hash-chained evidence ledger, a chain of signed checkpoints that an external anchor protects from
rollback, and the snapshot, manifest and garbage-collection machinery of the write-ahead log.

This project models those parts in Dafny and proves what they promise over every run, not just for
one call.

## How the project is laid out

| file | contents |
|---|---|
| `Cells`, `FieldModel` | one cell's life; the field as a state machine with its journal and `apply_delta` |
| `FieldInvariant`, `FieldReplay` | live field and replayed journal agree, for every run and every restart |
| `CellLaws` | what ticks, impulses, divisions, trims and alignment do to a cell, in numbers |
| `SnapshotReplay` | recovery from a snapshot and the deltas after it |
| `LiveField` | the field as an object updated in place, with its token index; every method is a step of the machine |
| `Windows`, `TokenHits`, `RecentPairs`, `Reflex` | bounded queues against the full history: hits, co-occurrences, reflex counters |
| `Synchrony`, `CollectiveDream`, `DreamEngine`, `Sorting` | sync groups as connected components, collective and single dream cycles |
| `Routing`, `Cycles` | one impulse over all of these, and the cycles over what impulses leave in the histories |
| `ProofPathModel`, `ProofPathProofs`, `ProofPathLedger` | the durable ledger: exactly-once under ambiguous failures |
| `ProofPathLaws` | which inputs, records and logs the ledger accepts, and what it answers |
| `Checkpoint`, `CheckpointLaws` | signed checkpoint chains and the anti-rollback anchor; what acceptance consists of |
| `JournalModel`, `JournalProofs`, `JournalFaults`, `DiskJournal` | WAL segments, snapshots, manifest, garbage collection, failing appends |
| `Codec` | JSON and CBOR with short key names |
| `RateLimit` | the namespace token bucket |
| `Basics`, `Text`, `TextLaws`, `Wal` | small shared definitions |

Code that changes things step by step is modelled by classes and loops proved against a pure
specification; the theorems are then about that specification. f32 and f64 amounts are reals,
`f32::EPSILON` is a positive constant, hash-map iteration orders and random draws are parameters
with no constraint beyond what the code guarantees, and SHA-256, CBOR encoding and Ed25519 are
function parameters. No theorem assumes a digest to be injective outright, which no function into
71-character strings is: the theorems about hash chains conclude "equal, or here are two different
bodies with the same digest".

## Main results

- **Replay refinement** (`FieldReplay.RunAgrees`): at every point of every run, restarts included,
  the journal folds to a field with the same ids, patterns, links, next id, clock and scores; after a
  tick the vital signs agree too. Live ticks bury their dead in one batch and register links before
  cells; replay does it delta by delta.
- **Exactly once** (`ProofPathProofs.RunSound`, `RetryAfterFailure`): however appends, ambiguous
  failures, closes and opens interleave, the WAL replays, memory equals its replay and no operation
  has two records; a retry keeps the first writer's times.
- **Nothing lost** (`JournalProofs.RunRecovers`): recovery yields the last completed snapshot plus
  exactly the deltas appended since, unless the manifest itself was cut short.
- **No fork below an anchor** (`Checkpoint.NoForkBelowAnchor`), **exact components**
  (`Synchrony.ExtractComponents`), **index equals scan** (`LiveField.ClusterField.Candidates`),
  **window equals history** (`TokenHits.HitField.RecentFor`), **pair counts equal brute force**
  (`RecentPairs.RouteField.CollectRecentPairs`), **honest reflexes**
  (`Reflex.ReflexField.RouteReflexes`), **codec normal form** (`Codec.RoundTripIsIdempotent`),
  **rate bound** (`RateLimit.RateBound`).
- **Acceptance, both ways**: a log replays, a checkpoint chain is accepted and an append is answered
  if and only if conditions in the data's own fields hold (`ProofPathLaws.ReplaysIff`,
  `CheckpointLaws.ChainAcceptedIff`, `ProofPathLaws.AnswerToRepeat`); every accepted checkpoint is
  signed (`CheckpointLaws.AcceptedChainIsSigned`).
- **Cells in numbers**: what a whole tick, an impulse or a trim leaves of each cell
  (`CellLaws.TickDecays`, `CellLaws.TickStates`, `CellLaws.ImpulseOutcome`, `CellLaws.TrimOutcome`), and
  when the closest cells are picked (`CellLaws.RanksRightIff`).

Five promises turned out false of the code and are stated with the exact condition under which they hold:

- A snapshot carries no link scores, so a field restored from one agrees with the original only if
  every score is 1.0 (`FieldReplay.RestoreAgrees`, counterexample `FieldReplay.RestoreForgets`); after
  later deltas it agrees on every score they decide (`SnapshotReplay.SnapshotThenReplay`).
- The manifest is rewritten in place, so a crash inside that write makes recovery fail although the
  whole log is on disk; it fails exactly then (`JournalProofs.TornMeans`,
  counterexample `JournalProofs.TornManifestLosesRecovery`).
- The delta journal does not stop after a failed append, so records may land behind torn bytes.
  Opening decides by lengths alone whether to cut them off with the torn frame, so acknowledged
  records can be lost silently: `JournalFaults.FaultyRunRecovers` says what recovery yields,
  `JournalFaults.SilentLossIff` when something is lost (counterexamples `JournalFaults.TornThenAppend`
  and `JournalFaults.StalePosition`).
- A round trip through CBOR is the identity exactly on values without alias keys
  (`Codec.RoundTripIsIdentityIff`; with colliding keys the greatest name wins, `Codec.CollidingKeysLoseOne`), and
  decoding gives up exactly on integers outside the JSON range (`Codec.CborToJson`).
- A negative cost can push the bucket above its capacity; one call keeps the range exactly when the
  refund fits (`RateLimit.RangeKeptIff`, counterexample `RateLimit.NegativeCostOverfills`).

## Model

| member | source | states |
|---|---|---|
| `FieldReplay.RunAgrees` | liminal-db/crates/liminal-core/src/cluster_field.rs:1950-2121 | for every run from an empty field and every point of it, folding the journal gives the same ids, patterns, links, next id, clock and, up to the EPSILON change test, score of every pair; right after a tick also energy, metabolism, state and last response |
| `FieldReplay.RunWellFormed` | liminal-db/crates/liminal-core/src/cluster_field.rs:1161-1186 | at every point of every run each scored pair is a link of a live cell, each link between live cells is scored, linked ids are below the next id, scores lie in [0.2, 3.0] |
| `FieldReplay.StepAgrees` | liminal-db/crates/liminal-core/src/cluster_field.rs:2423-2597 | each operation, and a restart that throws the memory away, keeps the journal folding to the field |
| `FieldReplay.TickAgrees` | liminal-db/crates/liminal-core/src/cluster_field.rs:1950-2080 | a tick keeps that agreement and leaves every cell's vital signs equal to the replayed ones, for any iteration order |
| `FieldReplay.GraftTwins` | liminal-db/crates/liminal-core/src/cluster_field.rs:2017-2033 | linking the parent before attaching the child, as the live code does, is replayed faithfully although the link dangles for a moment |
| `FieldReplay.AttachAfterLink` | liminal-db/crates/liminal-core/src/cluster_field.rs:2017-2033 | link-then-attach and attach-then-link give the same field |
| `FieldReplay.CullTwins` | liminal-db/crates/liminal-core/src/cluster_field.rs:2035-2064 | falling asleep and dying are journalled so that replay, which buries at once, stays in step with a live field that still holds the dead |
| `FieldReplay.BuryAgrees` | liminal-db/crates/liminal-core/src/cluster_field.rs:2065-2075 | dropping, rebuilding once and purging all dead ids gives the field that replay reached one death at a time |
| `FieldReplay.TrimAgrees` | liminal-db/crates/liminal-core/src/cluster_field.rs:2139-2186 | trimming keeps the agreement although its sleeps are not journalled |
| `FieldReplay.InjectAgrees` | liminal-db/crates/liminal-core/src/cluster_field.rs:2188-2224 | injecting a variation, with or without links to it, keeps the agreement |
| `FieldReplay.AdjustAgrees` | liminal-db/crates/liminal-core/src/cluster_field.rs:1244-1256 | adjusting a score keeps the agreement although a clamped change of at most EPSILON is not journalled |
| `FieldReplay.PruneAgrees` | liminal-db/crates/liminal-core/src/cluster_field.rs:1262-1273 | pruning a link, replayed as two deltas, keeps the agreement |
| `FieldReplay.RewireAgrees` | liminal-db/crates/liminal-core/src/cluster_field.rs:1275-1317 | rewiring, replayed as two deltas for one link, keeps the agreement |
| `FieldReplay.TouchAgrees` | liminal-db/crates/liminal-core/src/cluster_field.rs:1887-1946 | any change of cells that keeps ids, patterns, links and life, journalled for only some of them, keeps the agreement |
| `FieldReplay.RestartAgrees` | liminal-db/crates/liminal-core/src/cluster_field.rs:2423-2597 | a field recovered from the journal is itself well formed and agrees with the same journal |
| `FieldReplay.RestoreAgrees` | liminal-db/crates/liminal-store/src/snapshot.rs:60-100 | a snapshot brings back every cell, the next id and the clock; scores agree if and only if all of them are 1.0 |
| `FieldReplay.RestoreForgets` | liminal-db/crates/liminal-store/src/snapshot.rs:60-100 | a reachable field whose snapshot loses a strengthened score |
| `SnapshotReplay.SnapshotThenReplay` | liminal-db/crates/liminal-store/src/snapshot.rs:60-100 | for every run and any earlier point, restoring that snapshot and applying the deltas journalled since gives the live ids, patterns, links, next id and clock; a score is the live one if a later delta decided it or it was 1.0 at the snapshot, and otherwise back at 1.0 |
| `SnapshotReplay.FoldKeeps` | liminal-db/crates/liminal-core/src/cluster_field.rs:2423-2597 | two fields with the same skeleton stay so under any deltas, and agree on every score a delta decided |
| `SnapshotReplay.LogGrows` | liminal-db/crates/liminal-core/src/cluster_field.rs:1136-1140 | no operation ever rewrites the journal: earlier logs are prefixes of later ones |
| `FieldInvariant.DeathKeepsTwins` | liminal-db/crates/liminal-core/src/cluster_field.rs:2449-2453 | replaying a death and the energy report that follows it removes exactly that cell and its scores, while the live field still holds the corpse |
| `FieldInvariant.SpawnKeepsTwins` | liminal-db/crates/liminal-core/src/cluster_field.rs:3333-3352 | a spawn delta brings back exactly the attached cell and moves the next id past it |
| `FieldInvariant.LinkKeepsTwins` | liminal-db/crates/liminal-core/src/cluster_field.rs:1173-1181 | linking and its replay agree and keep the scores well formed, even for a dangling target |
| `LiveField.ClusterField.TickAll` | liminal-db/crates/liminal-core/src/cluster_field.rs:1950-2080 | the in-place tick is the machine's step, keeps the index equal to a scan, and leaves the journal reproducing all vital signs; what the step makes of each cell is in `CellLaws.TickOutcome`, `CellLaws.TickDecays` and `CellLaws.TickStates` |
| `LiveField.ClusterField.MetaboliseCells` | liminal-db/crates/liminal-core/src/cluster_field.rs:1959-1978 | the first loop of the tick makes the machine's metabolism of every cell, events included; `CellLaws.TickDecays` says in numbers what that is |
| `LiveField.ClusterField.DivideCells` | liminal-db/crates/liminal-core/src/cluster_field.rs:1988-2016 | the dividing loop equals its specification: new ids in order, affinity and energy reported for each parent |
| `LiveField.ClusterField.GraftCells` | liminal-db/crates/liminal-core/src/cluster_field.rs:2017-2033 | the children are linked, attached, indexed and reported as specified |
| `LiveField.ClusterField.CullCells` | liminal-db/crates/liminal-core/src/cluster_field.rs:2035-2064 | the sleep-or-die loop equals its specification |
| `LiveField.ClusterField.BuryCells` | liminal-db/crates/liminal-core/src/cluster_field.rs:2065-2080 | skipping the rebuild when nothing died changes nothing; the index equals a scan afterwards |
| `CellLaws.TickOutcome` | liminal-db/crates/liminal-core/src/cluster_field.rs:1950-2080 | whatever the visit order, a tick removes an old cell exactly if its own four steps end in death, and otherwise leaves what they make of it, links aside: no cell influences another |
| `CellLaws.TickDecays` | liminal-db/crates/liminal-core/src/node_cell.rs:112-133 | an ordinary cell that survives a tick has no more energy than before: what its new metabolism (19/20 of the old and 1/20 of the scaled base, so between the two) leaves of it at 0.0003 for each millisecond, not below 0, times 0.55 if that exceeds 0.8 and it is active; affinity stays between its own and its seed's, nothing else but state and links changes |
| `CellLaws.TickStates` | liminal-db/crates/liminal-core/src/node_cell.rs:112-184 | the state after a tick for any sleep shift: death below 0.05 after six idle seconds, sleep when low after three, otherwise active to idle below 0.2 - k, idle to active above 0.6 - k, sleeping to idle above 0.5 - k, where k is the shift held within 0.2 of zero |
| `CellLaws.AffinityDrifts` | liminal-db/crates/liminal-core/src/node_cell.rs:162-166 | the affinity closes 5% of its gap to the seed's for each unit of drive, at most a quarter |
| `CellLaws.TickBirths` | liminal-db/crates/liminal-core/src/node_cell.rs:135-160 | every new cell after a tick has a fresh id and is the child of an old active cell above 0.8 energy: idle, energy 0.45, half the salience, metabolism half way to the base, named after parent and id |
| `LiveField.ClusterField.TrimLowEnergy` | liminal-db/crates/liminal-core/src/cluster_field.rs:2139-2186 | the in-place trim is the machine's step and keeps the index |
| `CellLaws.TrimOutcome` | liminal-db/crates/liminal-core/src/cluster_field.rs:2139-2186 | a trim removes a cell exactly if it is dead, or untagged, below salience 0.7 and at most 0.1 energy; the killing tosses decide nothing; a survivor at most falls asleep, if unprotected, forgotten for a minute and active |
| `LiveField.ClusterField.AddRoot` | liminal-db/crates/liminal-core/src/cluster_field.rs:1576-1586 | a fresh id, one spawn delta, index and agreement kept |
| `CellLaws.AddedCell` | liminal-db/crates/liminal-core/src/node_cell.rs:26-40 | the new cell is active at energy 0.6 with its seed's affinity and metabolism, unlinked and untagged; no other cell changes |
| `LiveField.ClusterField.InjectSeedVariation` | liminal-db/crates/liminal-core/src/cluster_field.rs:2188-2224 | nothing above the cell limit, otherwise a bud linked from each source; index and agreement kept |
| `LiveField.ClusterField.UpdateIndexFor` | liminal-db/crates/liminal-core/src/cluster_field.rs:1149-1159 | a cell is listed once per occurrence of each token of its pattern and nothing else in the index moves; for an id that is no cell nothing changes |
| `LiveField.ClusterField.RebuildIndex` | liminal-db/crates/liminal-core/src/cluster_field.rs:1568-1574 | for every token and id, the multiplicity equals the number of occurrences in that live cell's pattern; every link is tracked, existing scores kept |
| `LiveField.ClusterField.AttachCell` | liminal-db/crates/liminal-core/src/cluster_field.rs:1142-1147 | index still equals a scan and the cell's links are tracked |
| `LiveField.ClusterField.Candidates` | liminal-db/crates/liminal-core/src/cluster_field.rs:1858-1866 | the candidate set equals a brute-force scan of all patterns, or all cells if the scan finds none |
| `LiveField.ClusterField.Respond` | liminal-db/crates/liminal-core/src/cluster_field.rs:1834-1948 | the three best of the scanned pool by affinity, state and strongest route bias take the impulse in, exactly the responders are journalled, and agreement and index are kept |
| `CellLaws.ImpulseOutcome` | liminal-db/crates/liminal-core/src/node_cell.rs:50-110 | an impulse changes only the picked living cells: one responds if and only if a token of its pattern is in the impulse or its affinity is within 0.55 of the strength; the rest lose 0.01 energy; a responder keeps all but state, energy, salience and time stamps |
| `CellLaws.QueryOutcome` | liminal-db/crates/liminal-core/src/node_cell.rs:74-88 | a responder to a query loses 0.05 of its strength, wakes from sleep above 0.6, and on a close match stamps the recall and, if tagged, gains 0.05 salience |
| `CellLaws.WriteOutcome` | liminal-db/crates/liminal-core/src/node_cell.rs:89-95 | a responder to a write becomes active and gains 0.08 of its strength |
| `CellLaws.AffectOutcome` | liminal-db/crates/liminal-core/src/node_cell.rs:66-107 | a responder to a feeling gains or loses 0.05 of what its strength is above or below 0.4, is active above 0.8 and idle below 0.3, and on a close match of a marked pattern gains 0.15 of the strength in salience |
| `CellLaws.ScoreMeans` | liminal-db/crates/liminal-core/src/cluster_field.rs:3318-3331 | the routing score is the closeness, from 0.6 on times the scale held in [0.5, 1.5], plus 0.2, 0, -0.4 or -1 for active, idle, sleeping or dead |
| `CellLaws.ScaleMeans` | liminal-db/crates/liminal-core/src/cluster_field.rs:521-529 | the active hormone raises the scale of a tagged cell by a quarter of its level and of no other |
| `CellLaws.RanksRightIff` | liminal-db/crates/liminal-core/src/cluster_field.rs:3318-3331 | closer and livelier cells always score at least as high, and strictly higher if strictly so, if and only if the scale is at least 1.0 |
| `CellLaws.LowScaleInverts` | liminal-db/crates/liminal-core/src/cluster_field.rs:3318-3331 | for any scale below 1.0, two cells and an impulse for which the closer one scores lower |
| `CellLaws.PickedAreBest` | liminal-db/crates/liminal-core/src/cluster_field.rs:1886-1888 | without bias and hormone and at a scale of at least 1.0, no candidate left out is closer than a picked one and as lively, nor as close and livelier |
| `CellLaws.SeparatorSplits` | liminal-db/crates/liminal-core/src/cluster_field.rs:2600-2606 | the tokens of two patterns joined by a separator are the tokens of the one and then of the other |
| `CellLaws.WordIsToken` | liminal-db/crates/liminal-core/src/cluster_field.rs:2600-2606 | a pattern without separators is its lower-cased self as the only token, and has none if empty |
| `LiveField.PickTop` | liminal-db/crates/liminal-core/src/cluster_field.rs:1886-1888 | three distinct members (or all if fewer), none outside scoring higher than one inside |
| `LiveField.BestBias` | liminal-db/crates/liminal-core/src/cluster_field.rs:1873-1881 | the largest bias of any token towards the cell, and 1.0 if none is larger |
| `Routing.RouteImpulse` | liminal-db/crates/liminal-core/src/cluster_field.rs:1834-1948 | one impulse over reflexes, cells, route histories and hits: reflexes hear it first, the three best candidates by the scanned pool take it in, and exactly those that responded enter the route history and the hits of every token of the pattern, once each, with their own latencies; nothing else is recorded |
| `LiveField.ClusterField.AdjustLinkScore` | liminal-db/crates/liminal-core/src/cluster_field.rs:1244-1256 | only a link of a live cell is adjusted and clamped, and the answer says whether it moved by more than EPSILON |
| `LiveField.ClusterField.AdjustAndReport` | liminal-db/crates/liminal-core/src/cluster_field.rs:1319-1355 | an adjustment with its report is one machine step |
| `LiveField.ClusterField.PruneLink` | liminal-db/crates/liminal-core/src/cluster_field.rs:1262-1273 | the link and its score go together, and the answer says whether there was one |
| `LiveField.ClusterField.FindNearest` | liminal-db/crates/liminal-core/src/cluster_field.rs:1283-1303 | no other cell is closer in affinity; none is found only if there is no other cell |
| `LiveField.ClusterField.RewireLonely` | liminal-db/crates/liminal-core/src/cluster_field.rs:1275-1317 | exactly the lonely cells with a neighbour to find are linked, to a nearest one |
| `CellLaws.NearestMeans` | liminal-db/crates/liminal-core/src/cluster_field.rs:1275-1317 | no other cell's affinity is nearer to the lonely cell's, on either side, than that of the cell it is linked to |
| `LiveField.ClusterField.ShareTokens` | liminal-db/crates/liminal-core/src/cluster_field.rs:1451-1523 | for any list of nodes: each link gets the clamped weight once for every pair of places that hold its ends, in whichever directions it exists; no other score moves; cells only drift; nothing happens without tokens |
| `LiveField.ClusterField.AlignCells` | liminal-db/crates/liminal-core/src/cluster_field.rs:1466-1502 | each listed live cell is aligned, as often as it is listed, to the centroid of the group as it was; no other cell changes |
| `LiveField.VisitedOnce` | liminal-db/crates/liminal-core/src/cluster_field.rs:1503-1518 | without repetition the double loop adjusts a link between two members exactly once, and no other |
| `LiveField.AlignedOnce` | liminal-db/crates/liminal-core/src/cluster_field.rs:1466-1502 | without repetition every live member is aligned once and no other cell changes |
| `CellLaws.AlignmentCloses` | liminal-db/crates/liminal-core/src/cluster_field.rs:1467-1487 | an aligned cell closes 8% of its gap to the centroid, unless the gap is at most 0.002, and keeps all but affinity and metabolism |
| `CellLaws.AlignmentPaces` | liminal-db/crates/liminal-core/src/cluster_field.rs:1467-1487 | a salient or tagged cell keeps its metabolism; another's falls by a twentieth of the weight if the centroid is below its affinity and rises otherwise, within [0.05, 5.0] |
| `CellLaws.CentroidWithin` | liminal-db/crates/liminal-core/src/cluster_field.rs:1385-1402 | the centroid lies within any bounds on the live members' affinities |
| `LiveField.RaisedMeans` | liminal-db/crates/liminal-core/src/cluster_field.rs:1501-1518 | a link visited n times gains n weights, up to 3.0 |
| `LiveField.ClusterField.ApplyDelta` | liminal-db/crates/liminal-core/src/cluster_field.rs:2423-2597 | applying any delta in place, known cell or not, is the specified step and keeps the index equal to a scan |
| `CellLaws.RecoveredAffinity` | liminal-db/crates/liminal-core/src/cluster_field.rs:2468-2473 | from any log at all, a recovered cell has the affinity, and its seed the affinity, that the last spawn, division or affinity delta for it journalled |
| `LiveField.ClusterField.Recover` | liminal-db/crates/liminal-core/src/cluster_field.rs:2423-2597 | recovery from any log gives the folded field with an index equal to a scan; from the journal of a valid field it gives a valid field |
| `Cells.Ingest` | liminal-db/crates/liminal-core/src/node_cell.rs:50-110 | taking an impulse in never changes a cell's id, pattern or links, and neither kills nor revives it |
| `Windows.WindowedEqualsHistory` | liminal-db/crates/liminal-core/src/cluster_field.rs:462-476 | scanning a bounded queue from its end finds exactly the entries after the cutoff among the last `cap` of the full history |
| `Windows.QueueCountsAll` | liminal-db/crates/liminal-core/src/cluster_field.rs:1672-1678 | a bounded queue counts what the history does while no more than `cap` entries are young |
| `Windows.Evict` | liminal-db/crates/liminal-core/src/cluster_field.rs:1649-1659 | evicting by age and then by number leaves an end piece of the history, cut only where entries expired or the cap was reached |
| `TokenHits.HitField.RecordTokenHit` | liminal-db/crates/liminal-core/src/cluster_field.rs:435-460 | the history grows by one numbered hit and the queue still stands for it |
| `TokenHits.HitField.RecentFor` | liminal-db/crates/liminal-core/src/cluster_field.rs:462-476 | for any window up to 120000 ms: exactly the hits at or after the cutoff among the last 512 ever recorded for the token, in order; for a longer one, among those still queued |
| `TokenHits.HitField.GatherHits` | liminal-db/crates/liminal-core/src/cluster_field.rs:566-582 | the duplicate-free, time-sorted union of the recent hits of the pattern's tokens, repeated tokens included |
| `RecentPairs.BruteCountsIndexPairs` | liminal-db/crates/liminal-core/src/cluster_field.rs:1525-1566 | the brute-force count is the number of index pairs i < j inside the cutoff with those two nodes, and the brute-force total is the sum, over those same index pairs, of the mean of the two strengths |
| `RecentPairs.RowsOfRelevant` | liminal-db/crates/liminal-core/src/cluster_field.rs:1528-1533 | filtering the history by the cutoff first loses no pair |
| `RecentPairs.CountRow` | liminal-db/crates/liminal-core/src/cluster_field.rs:1534-1551 | the early break drops no pair as long as no entry is later than now; counts saturate at u32 |
| `RecentPairs.RouteField.RecordResponses` | liminal-db/crates/liminal-core/src/cluster_field.rs:1916-1935 | responders are appended, expired entries and all but the newest 96 dropped, and nothing lies in the future |
| `RecentPairs.KeptMeans` | liminal-db/crates/liminal-core/src/cluster_field.rs:1917-1933 | of a history in time order the evictions keep exactly the entries that are among the newest 96 and no older than 90 seconds |
| `RecentPairs.RouteField.CollectRecentPairs` | liminal-db/crates/liminal-core/src/cluster_field.rs:1525-1566 | exactly the pairs with a positive brute-force count are reported, each once, lower id first: its frequency is that count, at most u32::MAX, and its strength times its frequency is the brute-force total |
| `Reflex.CountIsHonest` | liminal-db/crates/liminal-core/src/cluster_field.rs:1668-1682 | the queue never counts more than really arrived, and exactly that while at most 256 fall into the retention |
| `Reflex.ReflexField.ProcessReflexFor` | liminal-db/crates/liminal-core/src/cluster_field.rs:1619-1687 | of the relevant rules that have not fired yet, exactly those that reached their count fire, once each, with an honest count |
| `Reflex.ReflexField.RouteReflexes` | liminal-db/crates/liminal-core/src/cluster_field.rs:1852-1857 | per impulse no rule fires twice, none that reached its count is missed, at least `min_count` matching impulses had arrived, and the count is exact if the rules never changed and at most 256 impulses fall into the retention |
| `Reflex.FireMeans` | liminal-db/crates/liminal-core/src/cluster_field.rs:1619-1685 | the rule of a fire is enabled, of the impulse's kind and names the token, and at least the reported number of impulses, which reaches its minimum, are in its window and strong enough |
| `Reflex.ExactFireMeans` | liminal-db/crates/liminal-core/src/cluster_field.rs:1619-1685 | with at most 256 impulses in the retention, exactly as many impulses as reported are in the window and strong enough |
| `Reflex.ReachedMeans` | liminal-db/crates/liminal-core/src/cluster_field.rs:1619-1685 | an enabled rule of the kind that names the token fires whenever enough counted impulses are in its window and strong enough |
| `Synchrony.BuildAdjacency` | liminal-db/crates/liminal-core/src/synchrony.rs:53-66 | neighbours are exactly the pairs at or above the threshold, symmetrically |
| `Synchrony.CollectComponent` | liminal-db/crates/liminal-core/src/synchrony.rs:75-92 | the stack loop ends with exactly the component of its root |
| `Synchrony.ExtractComponents` | liminal-db/crates/liminal-core/src/synchrony.rs:68-95 | precisely the connected components of more than one node: pairwise disjoint, connected, maximal, no node repeated, none missing |
| `Synchrony.DetectSyncGroups` | liminal-db/crates/liminal-core/src/synchrony.rs:97-127 | at most `max_groups` groups, taken in order from the components ranked by size, each with tokens |
| `CollectiveDream.RunCollectiveDream` | liminal-db/crates/liminal-core/src/synchrony.rs:129-153 | for any groups, each link is raised as often as each group visits it; cells keep their shape; journal and index stay in step |
| `CollectiveDream.DisjointRaisesOnce` | liminal-db/crates/liminal-core/src/synchrony.rs:129-153 | with disjoint groups free of repetition a link is raised once if some group holds both its ends and otherwise kept |
| `CollectiveDream.SyncCycle` | liminal-db/crates/liminal-core/src/synchrony.rs:97-153 | detection then dream: exactly the links inside one detected component are raised, once each |
| `Cycles.FieldSyncCycle` | liminal-db/crates/liminal-core/src/synchrony.rs:97-153 | a whole sync cycle over the field's own histories: components of the pairs that co-occur strongly enough, each of the largest with its top tokens if it has any, and exactly the links inside one of them raised, once each; the pairs are the measured ones of `RecentPairs.RouteField.CollectRecentPairs` |
| `Cycles.TopTokensMean` | liminal-db/crates/liminal-core/src/cluster_field.rs:1404-1449 | the selected tokens are, without repetition and as many as asked for if there are that many, those with the highest recent scores in descending order, or if no token has a score those occurring most often in the members' patterns; none only if there is neither |
| `Cycles.ResponseScores` | liminal-db/crates/liminal-core/src/cluster_field.rs:1408-1424 | one more response to a token adds its strength and a quarter to the token's score if it is a member's, and nothing otherwise |
| `Cycles.OldResponsesDrop` | liminal-db/crates/liminal-core/src/cluster_field.rs:1408-1424 | only the newest 64 responses to a token count |
| `CollectiveDream.ShareBias` | liminal-db/crates/liminal-core/src/cluster_field.rs:1488-1502 | each live member's bias towards each lower-cased token is raised once per pair of listings, clamped to [0.2, 5.0]; no other bias moves, and what moved is told with its value |
| `CollectiveDream.BiasMeans` | liminal-db/crates/liminal-core/src/cluster_field.rs:1491-1499 | a bias raised n times gains n weights while that stays within 5.0, and otherwise ends at most EPSILON below 5.0 |
| `DreamEngine.RunDream` | liminal-db/crates/liminal-core/src/dream_engine.rs:44-141 | at most `max_ops_per_cycle` + 1 operations; exactly the unshielded top pairs are raised once and the unshielded bottom pairs not raised are lowered once, as far as the budget goes; every other link is intact, new links start at 1.0, a link really moved to 0.25 or below is gone; the report counts exactly the raised pairs that moved, the lowered pairs that moved and those that were due for pruning, and at most two rewirings for each pruning; which pairs are eligible is `DreamEngine.EligibleIff`, in the cells' own fields |
| `Cycles.DreamCycle` | liminal-db/crates/liminal-core/src/dream_engine.rs:44-141 | the same for the pairs of the field's own histories: exactly those that brute force counts, with its counts |
| `DreamEngine.StrengthenTop` | liminal-db/crates/liminal-core/src/dream_engine.rs:75-92 | the first loop raises exactly the unshielded pairs it reached, counts those that really moved, and stops only at the end or at an empty budget |
| `DreamEngine.WeakenBottom` | liminal-db/crates/liminal-core/src/dream_engine.rs:94-136 | the second loop lowers, once each, exactly the unshielded pairs it reached that the first did not touch, and prunes exactly what really moved to 0.25 or below |
| `DreamEngine.PruneWeak` | liminal-db/crates/liminal-core/src/dream_engine.rs:115-131 | prunes exactly at or below the threshold, and prune plus rewires overrun the budget by at most one |
| `DreamEngine.LoweredExactlyOnce` | liminal-db/crates/liminal-core/src/dream_engine.rs:101-136 | the link of a lowered pair from the lower id ends 0.2 lower if it was above 0.45, at 0.2 if it was within EPSILON of that, and otherwise is gone or rewired at 1.0; the opposite link is intact |
| `DreamEngine.GainMeansRewired` | liminal-db/crates/liminal-core/src/cluster_field.rs:1275-1317 | a cell gains a link only after losing all it had; it is left with that one link, to a nearest cell, at 1.0 or once lowered to 0.8, and never if shielded |
| `DreamEngine.ProtectedUntouched` | liminal-db/crates/liminal-core/src/dream_engine.rs:143-156 | a cell with salience at or above the limit, or tagged where tags count, keeps every link to and from it at its score and gains no outgoing one, and no pair with it is raised or lowered |
| `DreamEngine.EligibleIff` | liminal-db/crates/liminal-core/src/dream_engine.rs:143-156 | a visited pair is eligible, so raised or lowered, if and only if each end that is a cell is below the salience limit and, where tags count, untagged |
| `DreamEngine.RaisedExactlyOnce` | liminal-db/crates/liminal-core/src/dream_engine.rs:75-92 | of a raised pair one link gains 0.15, up to 3.0, the one from the lower id if there is one, and the other is intact |
| `DreamEngine.TopMeans` | liminal-db/crates/liminal-core/src/dream_engine.rs:59-75 | the first loop visits the most frequent pairs in descending order: none left out is more frequent |
| `DreamEngine.BottomMeans` | liminal-db/crates/liminal-core/src/dream_engine.rs:94-101 | the second loop visits the rarest pairs in ascending order: none left out is rarer |
| `DreamEngine.ShareMeans` | liminal-db/crates/liminal-core/src/dream_engine.rs:65-71 | the share is within one half of that part of the pairs |
| `ProofPathProofs.RunSound` | liminal-db/crates/liminal-store/src/proofpath_durable.rs:188-247 | in every run of appends, ambiguous failures, closes and opens the WAL replays, an unpoisoned memory equals its replay, a poisoned one misses at most the last record, no operation has two records, and the WAL only grows |
| `ProofPathProofs.StepSound` | liminal-db/crates/liminal-store/src/proofpath_durable.rs:166-247 | each action keeps all of that |
| `ProofPathProofs.RetryAfterFailure` | liminal-db/crates/liminal-store/src/proofpath_durable.rs:188-247 | after a storage failure, reopening and retrying the same evidence leaves exactly one record, with the first attempt's times if it had landed; it cannot fail if the first attempt landed or the input is the same, and otherwise only by not encoding |
| `ProofPathProofs.SuccessHoldsOnce` | liminal-db/crates/liminal-store/src/proofpath_durable.rs:188-247 | a successful append leaves exactly one record of the operation, the one it returns |
| `ProofPathProofs.OpenSucceeds` | liminal-db/crates/liminal-store/src/proofpath_durable.rs:166-186 | from any reachable disk, opening fails exactly when a partial payload was left behind |
| `ProofPathProofs.ReplayedState` | liminal-db/crates/liminal-store/src/proofpath_durable.rs:322-415 | the replayed state holds exactly the WAL's records, numbered from 1, each under its own key, with the last hash as head |
| `ProofPathProofs.AtMostOneRecord` | liminal-db/crates/liminal-store/src/proofpath_durable.rs:337-415 | a WAL that replays has at most one record for each operation |
| `ProofPathProofs.BuilderAgreesWithValidator` | liminal-db/crates/liminal-store/src/proofpath_durable.rs:205-239 | a record built from any normalised input passes every check of the validator |
| `ProofPathProofs.AppendErrors` | liminal-db/crates/liminal-store/src/proofpath_durable.rs:188-247 | append fails only by poisoning, bad input, idempotency conflict, or storage or encoding trouble |
| `ProofPathProofs.KeySeedInjective` | liminal-db/crates/liminal-store/src/proofpath_durable.rs:430-433 | for valid namespaces the key seed determines namespace and operation |
| `ProofPathProofs.HeadCommitsToHistory` | liminal-db/crates/liminal-store/src/proofpath_durable.rs:337-415 | two WALs that replay to the same head hash are equal record for record, or exhibit a digest collision |
| `ProofPathLedger.ReplayFrom` | liminal-db/crates/liminal-store/src/proofpath_durable.rs:322-335 | the replay loop returns the fold, or the first error |
| `ProofPathLedger.ProofPathLedger.Open` | liminal-db/crates/liminal-store/src/proofpath_durable.rs:166-186 | opening is the machine's open, keeps the WAL, and gives a valid ledger |
| `ProofPathLedger.ProofPathLedger.Append` | liminal-db/crates/liminal-store/src/proofpath_durable.rs:188-247 | the in-place append is the machine's append, failure cases and poisoning included |
| `ProofPathLaws.AnswerToRepeat` | liminal-db/crates/liminal-store/src/proofpath_durable.rs:199-203 | on a healthy ledger, an input whose operation has a record in the WAL is answered with that record if and only if source event bytes, admission report bytes, source receipt and valid time all equal the record's, and otherwise with a conflict; nothing changes either way |
| `ProofPathLaws.AnswerToFirst` | liminal-db/crates/liminal-store/src/proofpath_durable.rs:205-247 | an input whose key no record has is answered, unless it does not encode, with the new last record, which carries its evidence, times and references in a well-formed WAL |
| `ProofPathLaws.ReplaysIff` | liminal-db/crates/liminal-store/src/proofpath_durable.rs:322-415 | a WAL replays if and only if every record is consistent in itself (schema, namespace, digests, references, times, provenance, authority) and in its place (number, predecessor's hash, new key) |
| `ProofPathLaws.AcceptedIff` | liminal-db/crates/liminal-store/src/proofpath_durable.rs:337-415 | a record is accepted if and only if it is consistent in itself, has the next number, names the head and brings a new key |
| `ProofPathLaws.InputAcceptedIff` | liminal-db/crates/liminal-store/src/proofpath_durable.rs:300-320 | an input is accepted, unchanged, if and only if its operation is trimmed and not empty, both byte strings are not empty, both references are well formed and 0 < valid time <= transaction time |
| `ProofPathLaws.NamespaceAcceptedIff` | liminal-db/crates/liminal-store/src/proofpath_durable.rs:282-298 | a namespace is accepted if and only if it has 1 to 64 letters, digits, dots, dashes and underscores and begins with a letter or digit |
| `TextLaws.RefMeans` | liminal-db/crates/liminal-store/src/proofpath_durable.rs:435-446 | a reference is `sha256:` and 64 lower-case hexadecimal digits |
| `TextLaws.TrimMeans` | liminal-db/crates/liminal-store/src/proofpath_durable.rs:303 | trimming cuts white space off both ends and nothing else |
| `ProofPathLedger.ProofPathLedger.Get` | liminal-db/crates/liminal-store/src/proofpath_durable.rs:249-256 | whatever it returns is a WAL record under the operation's key, even on a poisoned ledger; on a healthy one it finds the record whenever there is one |
| `ProofPathLedger.Store.Append` | liminal-db/crates/liminal-store/src/wal.rs:99-127 | a failed append leaves the old WAL, the old WAL with a torn tail, or the WAL with the record |
| `ProofPathLedger.Store.Recover` | liminal-db/crates/liminal-store/src/wal.rs:326-394 | a torn length is cut off, a torn payload refuses to open, records never change |
| `Checkpoint.NoForkBelowAnchor` | liminal-db/crates/liminal-store/src/checkpoint.rs:402-474 | any two chains accepted with the same anchor contain the anchored checkpoint, have equal bodies going back from it as far as both reach, and end no lower, or exhibit a digest collision |
| `Checkpoint.AnchoredPosition` | liminal-db/crates/liminal-store/src/checkpoint.rs:440-471 | an accepted chain contains the anchored checkpoint with the anchor's sequence and head |
| `Checkpoint.SharedPast` | liminal-db/crates/liminal-store/src/checkpoint.rs:415-438 | equal references at two positions force equal bodies all the way back, or a collision |
| `Checkpoint.GlobalOrder` | liminal-db/crates/liminal-store/src/checkpoint.rs:415-438 | in an accepted chain, for all i < j: identity constant, sequence and (segment, offset) strictly increasing, issue times not decreasing |
| `Checkpoint.SubchainAccepted` | liminal-db/crates/liminal-store/src/checkpoint.rs:402-438 | every non-empty contiguous part of an accepted chain is accepted without an anchor |
| `Checkpoint.AcceptanceIsAnInterval` | liminal-db/crates/liminal-store/src/checkpoint.rs:349-400 | a chain accepted at two times is accepted at every time between |
| `Checkpoint.ManifestWindow` | liminal-db/crates/liminal-store/src/checkpoint.rs:349-400 | one manifest is accepted if and only if its timeless checks pass and the time lies in its and its key's window; `CheckpointLaws.ManifestAcceptedIff` spells those checks out |
| `CheckpointLaws.AcceptedChainIsSigned` | liminal-db/crates/liminal-store/src/checkpoint.rs:349-400 | at every position of every accepted chain, with any anchor, the key slot is registered, key and signature parse, the reference is the digest of the canonical body and the primitive verifies the signature over it |
| `CheckpointLaws.ForgeryRefused` | liminal-db/crates/liminal-store/src/checkpoint.rs:397-399 | a manifest with everything else right whose signature does not verify is refused with exactly that error |
| `CheckpointLaws.ForgedChainRefused` | liminal-db/crates/liminal-store/src/checkpoint.rs:402-438 | no chain with a checkpoint whose signature does not verify is accepted |
| `CheckpointLaws.ManifestAcceptedIff` | liminal-db/crates/liminal-store/src/checkpoint.rs:349-400 | a manifest is accepted if and only if its fields are well formed, it is bound to its body and a registered key, the time is inside all five limits, and the signature parses and verifies |
| `CheckpointLaws.ChainAcceptedIff` | liminal-db/crates/liminal-store/src/checkpoint.rs:402-471 | a chain is accepted if and only if it is not empty, every manifest passes, each follows its predecessor, and the anchor, if any, is well formed, not ahead of the tip and agrees with the first checkpoint that has its reference |
| `CheckpointLaws.AnchorVerdict` | liminal-db/crates/liminal-store/src/checkpoint.rs:440-485 | a well-formed anchor ahead of the tip is a rollback; otherwise it agrees with the first checkpoint it names, or is a fork, or is not in the chain if nothing has its reference or contradicts it |
| `CheckpointLaws.LinkAcceptedIff` | liminal-db/crates/liminal-store/src/checkpoint.rs:415-438 | a checkpoint links to the one before if and only if ledger, storage and signer are the same, it names that reference, number and WAL position rise, the time does not fall and the head differs |
| `Checkpoint.AcceptedMeans` | liminal-db/crates/liminal-store/src/checkpoint.rs:402-438 | a chain is accepted without an anchor if and only if it is not empty, each manifest passes and each neighbouring pair links |
| `Checkpoint.FindAnchored` | liminal-db/crates/liminal-store/src/checkpoint.rs:446-448 | finds a manifest with the anchored reference, or there is none |
| `Checkpoint.SignThenVerify` | liminal-db/crates/liminal-store/src/checkpoint.rs:287-329 | what a signer signs verifies with its trusted key at any time in the window, by the law of section 5.1.7 of RFC 8032 |
| `JournalProofs.RunRecovers` | liminal-db/crates/liminal-store/src/journal_impl.rs:60-114 | at every point of every interleaving of appends, rotations, snapshots cut short anywhere and collections with earlier offsets, recovery yields the last completed snapshot and exactly the deltas since, and fails only while the manifest is torn |
| `JournalProofs.RunSound` | liminal-db/crates/liminal-store/src/journal_impl.rs:87-114 | segments stay contiguous, the manifest names a whole snapshot and a readable offset, and no returned offset points past it |
| `JournalProofs.TornMeans` | liminal-db/crates/liminal-store/src/wal.rs:165-169 | the manifest is torn if and only if its last rewrite was cut short |
| `JournalProofs.TornManifestLosesRecovery` | liminal-db/crates/liminal-store/src/wal.rs:165-169 | a run in which a torn manifest makes recovery fail although every delta is on disk |
| `JournalProofs.RunPacks` | liminal-db/crates/liminal-store/src/wal.rs:269-290 | at every point of every run only a segment with a single frame exceeds the rotation size, and a segment was left only for a frame that would not have fitted |
| `JournalFaults.FaultyRunRecovers` | liminal-db/crates/liminal-store/src/wal.rs:269-394 | in every run with failing appends and reopenings, recovery yields the last completed snapshot and the records written whole since, minus exactly those behind a torn frame that opening cut off and those that a stale manifest position passes over; it fails exactly if the manifest is torn, opening refuses the last segment, torn bytes must be read, or the stale position falls inside a record |
| `JournalFaults.SilentLossIff` | liminal-db/crates/liminal-store/src/wal.rs:326-394 | a recovery that succeeds misses a record written whole since the snapshot if and only if opening cut off a torn frame with such a record behind it, or a stale manifest position passes over one |
| `JournalFaults.CompleteIff` | liminal-db/crates/liminal-store/src/journal_impl.rs:143-164 | every delta was written whole if and only if no append failed short of that |
| `JournalFaults.CarefulRun` | liminal-db/crates/liminal-store/src/wal.rs:326-394 | if the journal is reopened after each torn append before it writes again, recovery yields every record written whole since the snapshot, or fails |
| `JournalFaults.TornThenAppend` | liminal-db/crates/liminal-store/src/wal.rs:326-394 | for all sizes: after a record torn behind its length prefix, a record appended with success is silently cut off by the next open if the torn length is 5 to 8 more than its payload, and otherwise makes recovery fail |
| `JournalFaults.StalePosition` | liminal-db/crates/liminal-store/src/journal_impl.rs:87-109 | a snapshot taken over a record that is cut off later leaves a stale position: a further record is silently skipped if it is less than four bytes longer than the lost one, and otherwise makes recovery fail |
| `JournalProofs.AppendStream` | liminal-db/crates/liminal-store/src/wal.rs:269-324 | appending, rotation included, adds exactly the new delta to what every readable offset streams |
| `JournalProofs.CollectStream` | liminal-db/crates/liminal-store/src/gc.rs:6-20 | collection leaves what streams from any offset in or after the collected one's segment unchanged |
| `JournalProofs.CollectHarmlessIff` | liminal-db/crates/liminal-store/src/gc.rs:6-20 | collecting with an arbitrary offset leaves a reader's stream unchanged if and only if it deletes no delta after that reader's offset |
| `DiskJournal.DiskJournal.AppendDelta` | liminal-db/crates/liminal-store/src/journal_impl.rs:143-164 | one machine step however the append fails: nothing written, rotated only, torn after any number of bytes, or landed after all; torn bytes are written past without repair; the counter grows only on success |
| `DiskJournal.DiskJournal.WriteSnapshot` | liminal-db/crates/liminal-store/src/journal_impl.rs:87-109 | one machine step wherever it is cut short; a completed one returns the writer's end, which leaves torn bytes out, and resets the counter |
| `DiskJournal.DiskJournal.RunGc` | liminal-db/crates/liminal-store/src/gc.rs:6-20 | for any offset the deleting loop removes exactly the segments before it, never the one being written; with an earlier snapshot's offset nothing needed is lost |
| `DiskJournal.DiskJournal.LoadAndReplay` | liminal-db/crates/liminal-store/src/journal_impl.rs:60-85 | returns the last completed snapshot with exactly the records since that were neither cut off nor passed over, or fails for exactly one of the reasons above |
| `DiskJournal.DiskJournal.Reopen` | liminal-db/crates/liminal-store/src/wal.rs:326-394 | opening cuts a torn frame off with all that is behind it exactly if nothing follows its prefix or the bytes that follow are 0 to 3 more than its claimed length, and refuses otherwise |
| `DiskJournal.DiskJournal.ReadFrom` | liminal-db/crates/liminal-store/src/wal.rs:493-596 | for any offset, in an existing segment or not, past its end or within its last three bytes, streaming walks the segments and yields the specified deltas |
| `Codec.RoundTripIsIdempotent` | liminal-db/crates/liminal-bridge-net/src/stream_codec.rs:48-136 | decoding an encoding twice gives what once gave, for every nested value and whichever colliding keys win |
| `Codec.RoundTripIsIdentityIff` | liminal-db/crates/liminal-bridge-net/src/stream_codec.rs:48-136 | a round trip is the identity if and only if no object key at any depth is one of the nine aliases |
| `Codec.RoundTripIsNormal` | liminal-db/crates/liminal-bridge-net/src/stream_codec.rs:48-136 | no result of a round trip has an alias key anywhere |
| `Codec.NormalRoundTrips` | liminal-db/crates/liminal-bridge-net/src/stream_codec.rs:48-136 | a value without alias keys comes back unchanged |
| `Codec.KeyNormalForm` | liminal-db/crates/liminal-bridge-net/src/stream_codec.rs:106-136 | the nine aliases are exactly the keys that come back as another, and no key comes back as an alias |
| `Codec.EncodedIsDecodable` | liminal-db/crates/liminal-bridge-net/src/stream_codec.rs:48-104 | every encoded value can be decoded |
| `Codec.JsonToCbor` | liminal-db/crates/liminal-bridge-net/src/stream_codec.rs:48-76 | fields go in by name order, so an entry comes from the greatest of the colliding field names, at every depth |
| `Codec.ObjectNames` | liminal-db/crates/liminal-bridge-net/src/stream_codec.rs:106-121 | an encoded object has exactly the keys that the table of nine short names gives for its fields, other names unchanged |
| `Codec.EncodedIsOnWire` | liminal-db/crates/liminal-bridge-net/src/stream_codec.rs:48-121 | no encoding has one of the nine long names as a key at any depth |
| `Codec.CborToJson` | liminal-db/crates/liminal-bridge-net/src/stream_codec.rs:78-104 | meets the decoding relation, and gives up exactly if an integer at a value position is outside the JSON range |
| `Codec.ThroughCbor` | liminal-db/crates/liminal-bridge-net/src/stream_codec.rs:48-104 | both conversions in a row never fail and give the canonical form |
| `Codec.ResultIsCanon` | liminal-db/crates/liminal-bridge-net/src/stream_codec.rs:48-104 | the round trip is a function: whatever decoding an encoding yields is the canonical form |
| `Codec.CanonIsIdempotent` | liminal-db/crates/liminal-bridge-net/src/stream_codec.rs:48-136 | the canonical form of a canonical form is itself, and it equals the value exactly if there is no alias key |
| `Codec.GreatestNameWins` | liminal-db/crates/liminal-bridge-net/src/stream_codec.rs:67-75 | a field comes back under its canonical name with the value of the greatest colliding field; the others are lost |
| `Codec.SortedIsEncoding` | liminal-db/crates/liminal-bridge-net/src/stream_codec.rs:67-75 | encoding in name order is one of the encodings in which any colliding key may win, so all of the above applies to it |
| `Codec.DecodesUniquely` | liminal-db/crates/liminal-bridge-net/src/stream_codec.rs:78-104 | any CBOR value in which no two keys of a map come back under one name has exactly one decoding |
| `Codec.CollidingKeysLoseOne` | liminal-db/crates/liminal-bridge-net/src/stream_codec.rs:68-75 | of {"d", "data"} the value of "d" is always lost |
| `RateLimit.RateBound` | liminal-db/crates/liminal-core/src/security.rs:188-223 | in any contiguous part of any run with any clock readings, the cost granted is at most the capacity plus the rate times the advance of the refill clock, and tokens are in [0, capacity] |
| `RateLimit.RateBoundInQuotas` | liminal-db/crates/liminal-core/src/security.rs:188-223 | the cost granted in any part of any run is at most the larger of burst and rate, plus the rate for each second by which the refill clock advanced |
| `RateLimit.NewBucketGrants` | liminal-db/crates/liminal-core/src/security.rs:189-203 | a new bucket grants at once exactly what fits the larger of burst and rate |
| `RateLimit.RunConserves` | liminal-db/crates/liminal-core/src/security.rs:205-223 | tokens left plus cost granted never exceed tokens there plus refill earned, over every run |
| `RateLimit.RateBoundByClock` | liminal-db/crates/liminal-core/src/security.rs:205-223 | the same bound by the latest clock reading |
| `RateLimit.ServedConserves` | liminal-db/crates/liminal-core/src/security.rs:205-223 | one request conserves tokens and keeps them in range |
| `RateLimit.RangeKeptIff` | liminal-db/crates/liminal-core/src/security.rs:214-222 | one call keeps the range if and only if a negative cost fits below the capacity |
| `RateLimit.NegativeCostOverfills` | liminal-db/crates/liminal-core/src/security.rs:214-222 | a full bucket and a negative cost end above the capacity |
| `RateLimit.NoRateNoRefill` | liminal-db/crates/liminal-core/src/security.rs:189-203 | without a rate the whole run shares the one initial burst |
| `RateLimit.IdleBucketGrants` | liminal-db/crates/liminal-core/src/security.rs:205-223 | a bucket left alone long enough grants any request within its capacity |
| `RateLimit.TokenBucket.Allow` | liminal-db/crates/liminal-core/src/security.rs:214-222 | the in-place call refills, decides and pays as specified, and keeps the range for non-negative costs |
| `RateLimit.TokenBucket.Refill` | liminal-db/crates/liminal-core/src/security.rs:205-212 | a reading not after the last changes nothing; otherwise the earned tokens are added up to the capacity |

## Left out

- A cell is a value inside the field's map, replaced when the source updates it in place; nothing in the source keeps a second reference to a cell.
- Rounding of f32 and f64, and overflow of node ids, hit numbers, WAL offsets and record sequences (u64 in the source, unbounded here).
- Lower-casing outside ASCII, and Unicode white space and alphanumerics.
- Journalled state that does not touch cells, links, scores, ids or the clock: reflex rules, TRS and harmony tuning, dream, sync and awakening settings and reports, mirror epochs. Their deltas are one that changes nothing.
- State that the source does not restore from deltas: affinity drift, salience, link and route usage counts, boosted or drained route bias.
- What reflex rules do when they fire: spawning and waking are instances of the modelled operations (add a cell; touch cells), boosting moves only route bias.
- The wording of log lines, the views and the harmony snapshot produced during a tick.
- `LiveField.ClusterField.Respond`: the affinity scale, the active hormone and the route bias it reads are parameters; `Routing.RouteImpulse` sets the hormone that the impulse itself brings, the life loop that moves the scale is not modelled.
- `LiveField.ClusterField.ShareTokens`: the shared, aligned and protected counters it returns for the sync report are not modelled; the route bias it raises is `CollectiveDream.ShareBias`.
- `Routing.RouteImpulse`: reflexes are counted and reported, but what they do when they fire is not carried out in between; link usage counts and log lines are not modelled.
- `DreamEngine.RunDream`: takes the recent pairs as a parameter, which `Cycles.DreamCycle` fills from the histories; the elapsed time and the stored report are not modelled.
- `Synchrony.DetectSyncGroups`: takes the pairs and the token ranking as parameters, which `Cycles.FieldSyncCycle` fills from the histories and the cells; sorting the pairs by score first does not matter to the result.
- `CollectiveDream.SyncCycle`: the same parameters, filled by `Cycles.FieldSyncCycle`.
- `JournalFaults.FaultyRunRecovers`: a checksum over bytes that are not a record's own, torn or read from inside a record, is taken never to match; a length prefix cut inside its four bytes is not modelled. Opening looks at no checksum when it cuts, and the model does not either.
- `FieldReplay.RunAgrees`: adjustments in a run are larger than EPSILON, as every caller's are, and every delta reaches the journal; what failing appends do to the journal is in `JournalFaults`.
- `Codec.CborToJson`: the debug rendering of a map key that is not text is a parameter, the order in which serde_cbor visits map keys is not part of this model (so which of several colliding keys of foreign CBOR wins is open), and bytes on the wire are not modelled.
- `Codec.JsonToCbor`: takes the map of serde_json to be sorted by name, as the locked build has it (liminal-db/Cargo.lock).
- `ProofPathProofs.RetryAfterFailure`: a tail cut inside the payload is excluded, because the source then refuses to open at all, as `ProofPathProofs.OpenSucceeds` states.
- `Checkpoint.NoForkBelowAnchor`: the registry's key slot joins signer and key id with NUL, so two id pairs containing NUL may share a slot; the theorem holds for any registries.
- Hashing, CBOR and JSON bytes, hexadecimal text, CRC framing, file locking and directory syncing.
- Opening a journal whose manifest names a missing snapshot, which no modelled run reaches.
- The life loop, TRS controller, symmetry, resonance, awakening, mirror and variant heuristics: range facts about floating-point formulas.
- Seeds, views, echo, peers, the outbox, LQL, the governance bridge, roles and API keys: small maps and per-item checks that would add only easy members.
- The command line, FFI, WebAssembly, network servers and clients, sensors and the Python tools.
