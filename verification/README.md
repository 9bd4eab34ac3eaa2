# OpenTela: verified models

A Dafny model of the parts of OpenTela where a small amount of code carries a large promise, with proofs of
those promises. `dafny verify dfyconfig.toml` checks everything.

| part of the repository | modules | what is at stake |
|---|---|---|
| replicated key-value set (`src/internal/protocol/go-ds-crdt`) | `CrdtSet`, `CrdtProofs`, `CrdtBatches`, `CrdtConcurrent`, `CrdtConcurrentProofs`, `CrdtOverlap`, `CrdtGuarded`, `CrdtRaces`, `CrdtCompaction` | replicas that merged the same deltas agree; which deltas and which overlaps of merges break this; when pruning tombstones shows, also in the middle of a merge |
| reservoir sampler (`src/internal/analytics/reservoir.go`) | `Reservoir`, `Sampler` | the bounded sample is unbiased, as an exact count over all draws; nearest-rank percentiles |
| convergence benchmark (`contrib/benchmark_convergence`) | `Convergence`, `ConvergenceProofs`, `ConvergenceSafety`, `ConvergenceClocks`, `ConvergenceTables`, `Aggregation`, `Framing`, `JsonReader` | safety of coordinator and observers over every interleaving, from the measured clock offsets to the rows of the result table; messages written and read back |
| trace reducer (`contrib/serving-simulator/tools/reduce_trace.py`) | `TraceReducer`, `TraceProofs` | reducing again changes nothing, nothing is lost, what blocks cover |
| token tools (`contrib/ownership/src`, `docs/app/account/format.ts`) | `Amounts`, `Holders`, `HolderReports`, `Metadata` | exact amounts, holder ranking from account bytes to report, byte layout round trip |
| API key server (`contrib/auth`) | `Auth`, `AuthProofs` | one use of a challenge with its exact limit, tokens and revocation over every run |
| node readiness (`contrib/benchmark/cli/spinup.py`) | `Readiness` | one counter decides a condition on all keys |

`Options`, `Sorting`, `Counting`, `Arith`, `Decimal`, `Text` and `ByteStrings` hold the shared mathematics: stable
sorting and its uniqueness, sizes of finite sets, decimal numerals, splitting of text, little-endian numbers.

## How the models are built

Code that updates state is a class or a method with loops, proved equal to a specification function
(`CrdtSet.Set`, `CrdtBatches.Batcher`, `Sampler.Sampler`, `Convergence.CoordinatorState`, `Auth.Server`, the loops of `TraceReducer`,
`Holders`, `Metadata`, `Readiness`, `Aggregation`, `Framing`). Whole runs are sequences of steps or requests over those
functions, and the theorems quantify over all of them.

- Random draws (`rng.Intn`) are enumerated: a theorem counts the sequences of draws, all equally likely.
- Threads are atomic steps that interleave in any order; a deadline is a step that may be taken at any time.
- Clock readings, generated ids and tokens, signature checks and HTTP outcomes are parameters of a step.
- A library sort is the stable sort `Sorting.Sort`; query results come in an arbitrary order.

## Findings

Where the code does not do what it says, the model follows the code, and the limit is proved exactly.

- Merges run on several workers at once (`src/internal/protocol/go-ds-crdt/crdt.go:170`, `733-757`), but the mutex of
  the set covers `putElems` only (`src/internal/protocol/go-ds-crdt/set.go:464-466`), and a ticker prunes tombstones in
  a goroutine of its own without taking it (`src/internal/protocol/tombstone_compactor.go:51-86`). What `putTombs` reads
  may be outdated when it commits, and what `putElems` reads may be changed by a commit of `putTombs`. Replicas that
  merged the same deltas then differ. `CrdtRaces` has four interleavings of ordinary deltas: a newer value is lost
  (`NewerValueLost`), a removed value stays (`RemovedValueStays`), a live value is not shown (`LiveValueHidden`), and a
  removed value comes back because its tombstone is pruned between the query and the lookup of a scan
  (`PrunedValueReturns`).
  Over every interleaving of merges and prunings, key by key, `CrdtOverlap.CacheRightExactly` says which commits do the
  damage, `CrdtOverlap.KeyRightExactly` when a key is right in the end, past damage included, and
  `CrdtOverlap.FinishedAlikeExactly` when it agrees with the merges made one after the other; the rows always converge
  (`CrdtOverlap.FinishedRows`). Nothing is disturbed on a key when removals and prunings for it overlap no other work on
  it (`CrdtGuarded.ApartNeverDisturbed`). That is so with the mutex around `putTombs` and around the pruning; then every
  interleaving converges as long as no pruned element is alive again (`CrdtGuarded.GuardedConverge`). A mutex around
  `putTombs` alone is not enough: in `PrunedValueReturns` no two merges overlap.
- The comment on `set` (`src/internal/protocol/go-ds-crdt/set.go:34-36`) says that equal priorities are decided by
  the ids; the code compares values. An empty value, or a key that occurs in one delta with a later value that is not
  the greatest, makes the order of merges visible: `CrdtProofs.TombstoneCommutesExactly` says for which deltas. A batch
  with two puts of one key builds such a delta: `CrdtBatches.BatchOrderShows` has the input, and
  `CrdtBatches.BatchTameExactly` says which batches are safe.
- A pruned element comes back when its delta is merged after the pruning, for the first time or again, without its
  tombstone: `CrdtOverlap.ReturnedExactly` has the exact condition for every interleaving. For merges that come one after
  the other, none of them under way at the pruning, `CrdtCompaction.PruningNeverShowsExactly` says exactly when a reader
  ever notices, and `CrdtCompaction.PrunedElementReturns` what he then finds.
- The row of a used challenge counts its lifetime from acceptance, the challenge counts it from its timestamp.
  `AuthProofs.SecondAcceptanceExactly` gives the condition, to the microsecond, under which a challenge can be accepted
  a second time.
- `--include-zero` does not change the entries of a snapshot, although it is documented to include empty accounts:
  `Holders.IncludeZeroChangesNothing`.
- The owner aggregation compares an account with the running total, not with the best account so far. It is right
  because its input is sorted; `Holders.UnsortedMissesLargest` shows it is not right otherwise,
  `Holders.AggregateCarriesLastLeader` says what it keeps on any input, and `Holders.CarriesLargestExactly` when that is
  one of the largest.
- A merged decode block ends where its last event ends, so an earlier, longer event sticks out:
  `TraceProofs.CoverageNeedsOrder`, with the exact condition in `TraceProofs.MergeCoversExactly`.
- Reducing a trace twice needs no assumption on durations: `TraceProofs.ReduceTwice` holds for every input that the
  first pass accepts.

## Model

| member | source | states |
|---|---|---|
| `CrdtSet.BestUnique` | src/internal/protocol/go-ds-crdt/set.go:355-445 | the best rank (priority, then value) among a set of elements is unique, so the order in which the query returns them cannot matter |
| `CrdtSet.LessExactly` | src/internal/protocol/go-ds-crdt/set.go:447 | the order of values is that of `bytes.Compare`: a proper prefix is less, and otherwise the first different byte decides |
| `CrdtSet.Set.constructor` | src/internal/protocol/go-ds-crdt/set.go:50-70 | a new set is empty |
| `CrdtSet.Set.Remove` | src/internal/protocol/go-ds-crdt/set.go:86-130 | the delta tombstones exactly the elements of the key that this store knows to be alive, and no other key |
| `CrdtSet.Set.SetValue` | src/internal/protocol/go-ds-crdt/set.go:311-353 | an element that is not tombstoned replaces the cached entry just when its rank is strictly higher |
| `CrdtSet.Set.GreatestInDelta` | src/internal/protocol/go-ds-crdt/set.go:425-437 | the loop finds the greatest value a delta holds for the key |
| `CrdtSet.Set.FindBestValue` | src/internal/protocol/go-ds-crdt/set.go:359-445 | whatever the order of the query, the result is the highest rank among the elements neither tombstoned nor pending, or the bottom if there is none |
| `CrdtSet.Set.PutAll` | src/internal/protocol/go-ds-crdt/set.go:464-508 | the batch of elements, each decided against the store before the batch |
| `CrdtSet.Set.TombOne` | src/internal/protocol/go-ds-crdt/set.go:533-566 | one tombstone, with the entry of its key recomputed without the pending ids |
| `CrdtSet.Set.TombAll` | src/internal/protocol/go-ds-crdt/set.go:510-582 | the batch of tombstones when no other merge commits meanwhile, with the entry of each key recomputed without the ids collected so far |
| `CrdtSet.Set.Merge` | src/internal/protocol/go-ds-crdt/set.go:584-591 | tombstones first, then elements, when no other merge overlaps |
| `CrdtProofs.PutElemsEntry` | src/internal/protocol/go-ds-crdt/set.go:464-508 | what a batch of elements leaves for a key: the last value that ranks above the entry before the batch |
| `CrdtProofs.PutTombsEntry` | src/internal/protocol/go-ds-crdt/set.go:510-582 | what a batch of tombstones leaves for a key: the best of the elements left by all its tombstones together |
| `CrdtProofs.MergedEntry` | src/internal/protocol/go-ds-crdt/set.go:584-591 | what any delta leaves for a key, tame or not: its tombstones act first, and its elements are compared with what they leave |
| `CrdtProofs.PlainIsTame` | src/internal/protocol/go-ds-crdt/set.go:73-83 | deltas without empty values and without repeated keys, such as those of Add, are tame |
| `CrdtProofs.MergeKeepsInv` | src/internal/protocol/go-ds-crdt/set.go:584-591 | a merge of a tame delta that no other overlaps keeps the cache equal to the best of the live elements, for every key |
| `CrdtProofs.RunKeepsInv` | src/internal/protocol/go-ds-crdt/set.go:584-591 | so it is after every sequence of merges, one after the other |
| `CrdtProofs.RunReads` | src/internal/protocol/go-ds-crdt/set.go:133-147 | after any sequence of merges a key is in the set just when a live element has a value for it, and the value read is the best one |
| `CrdtProofs.RunReadsNewest` | src/internal/protocol/go-ds-crdt/set.go:133-147 | the value read is that of a live element, and every other live element has a lower priority, or the same one and no greater value |
| `CrdtProofs.LaterWins` | src/internal/protocol/go-ds-crdt/set.go:311-353 | of two additions of a key the one with the higher priority is read, in either order |
| `CrdtProofs.TieReadsGreater` | src/internal/protocol/go-ds-crdt/set.go:329-340 | of two additions at one priority the bytewise greater value is read, in either order |
| `CrdtProofs.Convergence` | src/internal/protocol/go-ds-crdt/set.go:31-36 | replicas that merged the same tame deltas, one after the other, in any order and any number of times, hold identical stores |
| `CrdtProofs.TombstoneCommutesExactly` | src/internal/protocol/go-ds-crdt/set.go:313-353 | a delta and a tombstone for another element of the same key commute if and only if the delta is tame at that key |
| `CrdtProofs.RemovalTakesObserved` | src/internal/protocol/go-ds-crdt/set.go:86-130 | a removal takes away what the removing store had seen, leaves the best of the rest, and touches no other key |
| `CrdtProofs.RemovalAtHome` | src/internal/protocol/go-ds-crdt/set.go:86-130 | after a removal merged at the store itself, with nothing else under way, the key is gone |
| `CrdtProofs.AddWins` | src/internal/protocol/go-ds-crdt/set.go:31-36 | an addition that the remover had not seen survives the removal |
| `CrdtCompaction.CompactionInvisible` | src/internal/protocol/go-ds-crdt/compaction.go:29-127 | the commit of a pruning, of any tombstones with their elements, changes no entry and no live element, and keeps the invariant |
| `CrdtCompaction.MergeAlikeExactly` | src/internal/protocol/go-ds-crdt/compaction.go:29-127 | a merge that starts after the pruning and runs alone shows the pruning if and only if it brings a pruned element without its tombstone |
| `CrdtCompaction.PruningShowsExactly` | src/internal/protocol/go-ds-crdt/compaction.go:110-118 | for the first such merge the condition is on the delta alone: each pruned element it holds is tombstoned by the delta itself |
| `CrdtCompaction.PruningNeverShowsExactly` | src/internal/protocol/go-ds-crdt/compaction.go:29-127 | over any later sequence of merges, one after the other, the pruning never shows if and only if every pruned element that is merged has its tombstone merged with it or before it |
| `CrdtCompaction.PrunedElementReturns` | src/internal/protocol/go-ds-crdt/compaction.go:110-118 | otherwise the element is alive in the pruned store, and a reader finds the higher of its rank and what he would have found without pruning |
| `CrdtBatches.Batcher.constructor` | src/internal/protocol/go-ds-crdt/crdt.go:1356-1366 | a batch starts empty |
| `CrdtBatches.Batcher.Add` | src/internal/protocol/go-ds-crdt/crdt.go:1306-1310 | a put is appended to the collected delta |
| `CrdtBatches.Batcher.AddRemoval` | src/internal/protocol/go-ds-crdt/crdt.go:1321-1343 | a removal takes out what the batch had put for the key and appends the tombstones |
| `CrdtBatches.Batcher.Publish` | src/internal/protocol/go-ds-crdt/crdt.go:1356-1366 | the delta goes out with its height, and a new one starts |
| `CrdtBatches.CollectedValues` | src/internal/protocol/go-ds-crdt/crdt.go:1293-1354 | a batch holds for a key the values put since its last removal, in order |
| `CrdtBatches.CollectedTombs` | src/internal/protocol/go-ds-crdt/crdt.go:1293-1354 | a batch holds the tombstones of all its removals, in order, whatever else is put or removed |
| `CrdtBatches.BatchLive` | src/internal/protocol/go-ds-crdt/crdt.go:1293-1366 | once a batch is merged anywhere, the live elements of a key are those before without the removed ones, and the batch's own if it put the key since its last removal |
| `CrdtBatches.BatchRemovesObserved` | src/internal/protocol/go-ds-crdt/crdt.go:1312-1354 | a batch with a removal taken at one store, merged at any other, leaves nothing of what the first had seen of the key |
| `CrdtBatches.BatchRemovesAtHome` | src/internal/protocol/go-ds-crdt/crdt.go:1312-1366 | merged where the removal was taken, it leaves for the key what the batch put afterwards, or nothing |
| `CrdtBatches.BatchTameExactly` | src/internal/protocol/go-ds-crdt/crdt.go:1293-1354 | a published batch is tame if and only if, for every key, the last value put since its last removal is not empty and none before it is greater |
| `CrdtBatches.MergedTwiceDiffers` | src/internal/protocol/go-ds-crdt/set.go:464-508 | two puts of one key, the greater first: one merge leaves the smaller value, a second one the greater |
| `CrdtBatches.BatchOrderShows` | src/internal/protocol/go-ds-crdt/crdt.go:1293-1304 | the concrete batch of 2 and then 1 is not tame; merging it before or after a tombstone, once or twice, gives different stores |
| `CrdtConcurrentProofs.ExecOk` | src/internal/protocol/go-ds-crdt/crdt.go:733-757 | in every interleaving of overlapping merges and prunings the rows are those committed, but for pruned ones, which were tombstoned; each scan has found every queried element that is neither tombstoned nor pruned; the mutex has one holder |
| `CrdtOverlap.TombCommitAt` | src/internal/protocol/go-ds-crdt/set.go:533-575 | a commit of tombstones leaves the right entry for a key if and only if the rank it writes is the best of the elements then alive |
| `CrdtOverlap.TombCommitExactly` | src/internal/protocol/go-ds-crdt/set.go:510-582 | whatever went before, prunings included, a commit of tombstones leaves the right entry for a key if and only if no live element that the scan missed outranks what it found, and its best rank is held by a live element |
| `CrdtOverlap.NewcomerIsNew` | src/internal/protocol/go-ds-crdt/set.go:367-402 | an element that the scan missed and that is alive at the commit was committed after the query, or its tombstone was pruned |
| `CrdtOverlap.ElemCommitExactly` | src/internal/protocol/go-ds-crdt/set.go:464-508 | a commit of elements keeps a right entry right if and only if what was taken has not been tombstoned since and is the delta's greatest, and what was not taken is tombstoned or still outranked |
| `CrdtOverlap.ElemCommitAnyway` | src/internal/protocol/go-ds-crdt/set.go:464-508 | whatever the entry was before, a commit of elements leaves it right if and only if the rank taken, or else the one already there, is outranked by nothing alive after the commit and held by something alive |
| `CrdtOverlap.CacheRightExactly` | src/internal/protocol/go-ds-crdt/set.go:313-591 | in every interleaving of tame deltas and prunings, with every single read a step of its own, the cache of a key is right at all times if and only if no commit is disturbed at that key |
| `CrdtOverlap.KeyRightExactly` | src/internal/protocol/go-ds-crdt/set.go:313-591 | after every interleaving the cache of a key is right if and only if the last commit that touched the key left it right; wrong entries heal |
| `CrdtOverlap.FinishedRows` | src/internal/protocol/go-ds-crdt/set.go:464-591 | however merges and prunings overlap, elements and tombstones end up as in any sequential run, but for the pruned rows |
| `CrdtOverlap.ReturnedExactly` | src/internal/protocol/go-ds-crdt/compaction.go:103-118 | in every interleaving, a pruned element is alive if and only if a merge committed it after its latest pruning and none has committed a tombstone for it since |
| `CrdtOverlap.FinishedAlikeExactly` | src/internal/protocol/go-ds-crdt/set.go:464-591 | once all merges are done, a key has the live elements and the entry of a sequential run if and only if no pruned element of it is alive and its last commit left it right |
| `CrdtOverlap.FinishedAgreesExactly` | src/internal/protocol/go-ds-crdt/set.go:464-591 | once all merges are done, without pruning, the store is that of a sequential run if and only if for every key the last commit left it right |
| `CrdtOverlap.GoodRunsConverge` | src/internal/protocol/go-ds-crdt/set.go:31-36 | replicas with the same deltas, no key left wrong and no pruned element alive, show the same, whatever the interleavings and prunings on each |
| `CrdtOverlap.UndisturbedConverge` | src/internal/protocol/go-ds-crdt/set.go:31-36 | so do replicas whose commits were not disturbed; without pruning their stores are identical |
| `CrdtGuarded.ApartNeverDisturbed` | src/internal/protocol/go-ds-crdt/set.go:464-582 | a condition on the schedule alone: when removals and prunings of a key overlap no other work on it, no commit is disturbed at that key |
| `CrdtGuarded.GuardedKeepsRight` | src/internal/protocol/go-ds-crdt/set.go:46-48 | with the mutex around `putTombs` and the pruning as well, every commit leaves every key right, at all times |
| `CrdtGuarded.GuardedKeepsInv` | src/internal/protocol/go-ds-crdt/set.go:46-48 | so the invariant of the store holds after every interleaving |
| `CrdtGuarded.GuardedConverge` | src/internal/protocol/go-ds-crdt/set.go:46-48 | then replicas that merged the same tame deltas show the same, however their merges and prunings interleave, if no pruned element is alive; without pruning their stores are identical |
| `CrdtRaces.NewerValueLost` | src/internal/protocol/go-ds-crdt/set.go:510-582 | an interleaving after which a reader finds an older value although a newer one is alive |
| `CrdtRaces.RemovedValueStays` | src/internal/protocol/go-ds-crdt/set.go:510-582 | two overlapping removals after which a removed value is still read |
| `CrdtRaces.LiveValueHidden` | src/internal/protocol/go-ds-crdt/set.go:464-508 | an interleaving after which the only live value of a key is not shown |
| `CrdtRaces.PrunedValueReturns` | src/internal/protocol/go-ds-crdt/set.go:359-445 | every element of a key is removed, and yet the oldest value is read: its tombstone was pruned inside the scan of the last removal; one after the other the same deltas leave nothing |
| `Sampler.Sampler.constructor` | src/internal/analytics/reservoir.go:18-23 | an empty reservoir, of capacity at least 1 |
| `Sampler.Sampler.Add` | src/internal/analytics/reservoir.go:25-35 | the samples stay the outcome of Algorithm R on everything observed and drawn so far, with length min(count, max) |
| `Sampler.Sampler.RankIndex` | src/internal/analytics/reservoir.go:60-66 | the clamped index is the nearest rank less one |
| `Sampler.Sampler.Percentile` | src/internal/analytics/reservoir.go:52-68 | 0 for no samples; otherwise a sample with at least k samples not above and fewer than k below it, k the nearest rank; the reservoir is unchanged |
| `Sampler.NearestRankExact` | src/internal/analytics/reservoir.go:60-66 | for 0 < p <= 100 the rank is exactly ceil(p n / 100) and never clamped |
| `Sampler.NearestRankClamped` | src/internal/analytics/reservoir.go:60-66 | a percentage of 0 or less asks for the smallest sample, one over 100 for the largest |
| `Sampler.KthOfPermutation` | src/internal/analytics/reservoir.go:57-67 | the percentile depends on the samples as a multiset only |
| `Sampler.KthMonotone` | src/internal/analytics/reservoir.go:57-67 | lower ranks never give larger values; the k-th value is unique |
| `Sampler.PercentileMonotone` | src/internal/analytics/reservoir.go:52-68 | percentiles grow with p |
| `Reservoir.KeptInvariant` | src/internal/analytics/reservoir.go:25-35 | the slots always hold pairwise different past positions |
| `Reservoir.RunReadsPositions` | src/internal/analytics/reservoir.go:25-35 | which positions are kept depends on the draws alone, never on the values |
| `Reservoir.DrawsTotal` | src/internal/analytics/reservoir.go:31 | n observations consume one of n!/m! equally likely draw sequences |
| `Reservoir.EveryPositionEquallyLikely` | src/internal/analytics/reservoir.go:9-10 | every observation is kept in exactly the fraction m/n of all draw sequences |
| `Reservoir.EverySubsetEquallyLikely` | src/internal/analytics/reservoir.go:9-10 | stronger: every set of m observations is the sample of exactly (n-m)! draw sequences |
| `Convergence.CoordinatorState.constructor` | contrib/benchmark_convergence/benchmark_convergence/coordinator.py:50-58 | the state starts empty |
| `Convergence.CoordinatorState.Drain` | contrib/benchmark_convergence/benchmark_convergence/coordinator.py:87-101 | one message handled as the protocol says; what the stored offsets, sightings, acknowledgements and errors mean is stated over runs below |
| `Convergence.CoordinatorState.MarkSeen` | contrib/benchmark_convergence/benchmark_convergence/coordinator.py:95-97 | one sighting is entered for a name and a task, all others stay |
| `Convergence.CoordinatorState.Snapshot` | contrib/benchmark_convergence/benchmark_convergence/coordinator.py:140-152 | the row of the name, and exactly the expected tasks without an entry |
| `Convergence.ScanTable` | contrib/benchmark_convergence/benchmark_convergence/observer.py:69-76 | a poll reports each watched name once, when it is shown first |
| `ConvergenceProofs.NamesInjective` | contrib/benchmark_convergence/benchmark_convergence/coordinator.py:235 | a write name determines its sequence number and its writer |
| `ConvergenceProofs.NamesWatched` | contrib/benchmark_convergence/benchmark_convergence/coordinator.py:156 | every name is watched, and no write is named like the warmup |
| `ConvergenceProofs.CellIsValid` | contrib/benchmark_convergence/benchmark_convergence/coordinator.py:225-235 | the names of a cell keep its rounds and its warmup apart, for any run id and any choice of writers |
| `ConvergenceSafety.EntriesWrittenOnce` | contrib/benchmark_convergence/benchmark_convergence/coordinator.py:95-97 | a report about to be read never names an entry that exists: entries are written at most once |
| `ConvergenceSafety.AcksAreRegistrations` | contrib/benchmark_convergence/benchmark_convergence/coordinator.py:98-99 | a stored acknowledgement is the time at which that writer registered the name of that round |
| `ConvergenceSafety.Pigeonhole` | contrib/benchmark_convergence/benchmark_convergence/coordinator.py:61-84 | with n-1 connections accepted every observer is known |
| `ConvergenceSafety.ExecInv` | contrib/benchmark_convergence/benchmark_convergence/coordinator.py:187-302 | the invariant of the whole system holds after every list of steps |
| `ConvergenceSafety.NeverCrashes` | contrib/benchmark_convergence/benchmark_convergence/coordinator.py:249 | the lookup of the writer's connection never misses |
| `ConvergenceSafety.EveryHostHasStart` | contrib/benchmark_convergence/benchmark_convergence/coordinator.py:216-220 | once stabilization has succeeded every host has a start offset, because the streams are first-in-first-out |
| `ConvergenceSafety.SightingsAreFirstPolls` | contrib/benchmark_convergence/benchmark_convergence/observer.py:55-84 | a stored sighting is the start of that task's first successful poll that showed the name |
| `ConvergenceSafety.SightingsNeverChange` | contrib/benchmark_convergence/benchmark_convergence/coordinator.py:104-127 | no step changes a stored sighting |
| `ConvergenceSafety.SightingsStay` | contrib/benchmark_convergence/benchmark_convergence/coordinator.py:95-127 | over the whole rest of any run a stored sighting stays what it is |
| `ConvergenceSafety.RecordsInOrder` | contrib/benchmark_convergence/benchmark_convergence/coordinator.py:233-281 | one record per finished round, in order; each is a failure with no time and no sightings, or has the registration time of its own name and, for every other task, its first sighting of that name or a timeout |
| `ConvergenceSafety.PublishedResultsOk` | contrib/benchmark_convergence/benchmark_convergence/coordinator.py:283-302 | published results have a record for every round, all hosts in the manifest and all their start offsets |
| `ConvergenceClocks.OffsetsAreReadings` | contrib/benchmark_convergence/benchmark_convergence/coordinator.py:86-101 | over every run, each clock offset in the tables and in the published results was measured by a task on that host |
| `ConvergenceClocks.RecordsCollected` | contrib/benchmark_convergence/benchmark_convergence/coordinator.py:267-280 | every record was made from the table of its own round: a time for everyone whose sighting was there, TIMEOUT only for those without one |
| `ConvergenceClocks.PublishedFrom` | contrib/benchmark_convergence/benchmark_convergence/coordinator.py:283-320 | the results are the tables and records as they stood when they were published |
| `ConvergenceClocks.PublishedCollected` | contrib/benchmark_convergence/benchmark_convergence/coordinator.py:267-320 | so the published records were collected that way |
| `ConvergenceTables.NothingReadIsLost` | contrib/benchmark_convergence/benchmark_convergence/coordinator.py:86-101 | over every run, whatever the coordinator has read from a task has left its entry in the tables |
| `ConvergenceTables.ErrorsAreReports` | contrib/benchmark_convergence/benchmark_convergence/coordinator.py:100-101 | an error is in the table if and only if that task has reported it |
| `ConvergenceTables.EveryoneIsStopped` | contrib/benchmark_convergence/benchmark_convergence/coordinator.py:283-285 | once the write loop is over, every observer has been told to stop and the coordinator has measured its own offset again |
| `ConvergenceTables.FirstPollExactly` | contrib/benchmark_convergence/benchmark_convergence/observer.py:66-86 | the first poll of a name is the one that shows it with none before it showing it |
| `ConvergenceTables.NamesExactly` | contrib/benchmark_convergence/benchmark_convergence/coordinator.py:235 | the names watched are those with the prefix, and the names written have the documented form |
| `Aggregation.HostForTask` | contrib/benchmark_convergence/benchmark_convergence/aggregate.py:14-18 | the first matching entry of the manifest, or the error |
| `Aggregation.MakeRow` | contrib/benchmark_convergence/benchmark_convergence/aggregate.py:41-70 | the row of one sighting, missing just when a lookup fails |
| `Aggregation.AddEntry` | contrib/benchmark_convergence/benchmark_convergence/aggregate.py:37-70 | one turn of the inner loop adds the row of its entry, or fails just when that row is missing |
| `Aggregation.AggregateWrite` | contrib/benchmark_convergence/benchmark_convergence/aggregate.py:37-70 | the inner loop adds one row for every task other than the writer, in any order, or fails just when the write is not usable |
| `Aggregation.AggregateCell` | contrib/benchmark_convergence/benchmark_convergence/aggregate.py:33-70 | aggregation succeeds just when every write is usable; then the rows are one for each write and other task, none twice |
| `Aggregation.PublishedUsable` | contrib/benchmark_convergence/benchmark_convergence/aggregate.py:14-52 | on published results no lookup misses and no missing time is read |
| `Aggregation.PublishedRowCount` | contrib/benchmark_convergence/benchmark_convergence/aggregate.py:24-26 | n-1 rows for every acknowledged write |
| `Aggregation.AggregateRun` | contrib/benchmark_convergence/benchmark_convergence/aggregate.py:21-70 | end to end: whatever run of the benchmark publishes can be aggregated, with n-1 rows per acknowledged write, one for each other task |
| `Aggregation.PublishedLatency` | contrib/benchmark_convergence/benchmark_convergence/aggregate.py:41-52 | end to end, for every published run: each field of a row, and its latency is the reference time from the writer's registration of that name to the observer's first poll that shows it, by the offsets which tasks on the two hosts measured; with one task per host, the two tasks themselves |
| `Aggregation.LatencyIsReferenceTime` | contrib/benchmark_convergence/benchmark_convergence/aggregate.py:52 | with constant offsets the latency is exactly the difference of the reference times |
| `Aggregation.LatencyIgnoresShifts` | contrib/benchmark_convergence/benchmark_convergence/aggregate.py:41-52 | shifting any clocks changes no latency |
| `Aggregation.CheckDrift` | contrib/benchmark_convergence/benchmark_convergence/coordinator.py:298-302 | the flag is set just when some host with both readings moved by more than 5 ms |
| `Aggregation.DriftFlagsExactly` | contrib/benchmark_convergence/benchmark_convergence/coordinator.py:298-302 | the flag as an if and only if on the two readings of each host, with the limit as a number |
| `Aggregation.PublishedDrift` | contrib/benchmark_convergence/benchmark_convergence/coordinator.py:298-302 | end to end: in any published run without the flag, with clocks that stay between what the tasks of the host measured at start and end, each latency is within 10 ms of the reference time from registration to first poll |
| `Aggregation.DriftBound` | contrib/benchmark_convergence/benchmark_convergence/coordinator.py:298-302 | without the flag, and with clocks that stay between their readings, a latency is off by at most 10 ms |
| `Framing.DumpsIsClean` | contrib/benchmark_convergence/benchmark_convergence/protocol.py:9 | a dumped message has no raw newline and stripping leaves it alone |
| `Framing.ReadMessages` | contrib/benchmark_convergence/benchmark_convergence/protocol.py:23-33 | the loop over lines hands out the texts of the specification |
| `Framing.ReadCutStream` | contrib/benchmark_convergence/benchmark_convergence/protocol.py:8-33 | for any messages and any cut of their stream, exactly the texts of the whole frames before the cut are read |
| `Framing.WholeFramesFit` | contrib/benchmark_convergence/benchmark_convergence/protocol.py:16 | the whole frames are as many as fit before the cut, no fewer |
| `JsonReader.CharsBack` | contrib/benchmark_convergence/benchmark_convergence/protocol.py:9 | a reader of JSON strings after section 7 of RFC 8259 returns every string that was escaped, surrogate pairs included |
| `JsonReader.LoadsDumps` | contrib/benchmark_convergence/benchmark_convergence/protocol.py:9 | a JSON reader after RFC 8259 returns the dumped message, through escapes, numerals, arrays and objects |
| `JsonReader.MessagesReadBack` | contrib/benchmark_convergence/benchmark_convergence/protocol.py:8-33 | for any messages and any cut of their stream, reading yields exactly the messages before the cut, decoded |
| `JsonReader.DumpsInjective` | contrib/benchmark_convergence/benchmark_convergence/protocol.py:9 | different messages have different texts |
| `JsonReader.ReadDeterminesMessages` | contrib/benchmark_convergence/benchmark_convergence/protocol.py:8-33 | for any messages and any cut, the texts read are those of exactly the messages before the cut and of no other list |
| `Framing.ReadWholeStream` | contrib/benchmark_convergence/benchmark_convergence/protocol.py:8-33 | uncut, every message is read, in order |
| `TraceReducer.Split` | contrib/serving-simulator/tools/reduce_trace.py:39-45 | the events by kind, in their order |
| `TraceReducer.DropRepeats` | contrib/serving-simulator/tools/reduce_trace.py:49-63 | the loop keeps an event when its args differ from the last kept ones |
| `TraceReducer.MergeDecodes` | contrib/serving-simulator/tools/reduce_trace.py:72-143 | the merge loop, and where a missing field ends it |
| `TraceReducer.ReduceTrace` | contrib/serving-simulator/tools/reduce_trace.py:34-149 | the whole reduction |
| `TraceProofs.ReduceSucceeds` | contrib/serving-simulator/tools/reduce_trace.py:95-111 | decode events with start and duration never make it fail |
| `TraceProofs.ReduceTwice` | contrib/serving-simulator/tools/reduce_trace.py:34-149 | a second pass returns the same events in the same order, only the step counters restart at 1 |
| `TraceProofs.ReduceThrice` | contrib/serving-simulator/tools/reduce_trace.py:34-149 | from the second pass on nothing changes at all |
| `TraceProofs.ReduceConserves` | contrib/serving-simulator/tools/reduce_trace.py:108-147 | per engine and request the emitted tokens add up as before, the step counters add up to the number of decode events, all other events survive as a multiset |
| `TraceProofs.MergeGroups` | contrib/serving-simulator/tools/reduce_trace.py:79-143 | merging cuts the decode events into consecutive runs of one request, as long as they can be: inside a run each event starts at most 5 ms after the end of the one before, between runs the request changes or more than 5 ms pass; each run is replaced by a block with its start, its last end, its count, its token sum and its latest totals |
| `TraceProofs.ReduceGroups` | contrib/serving-simulator/tools/reduce_trace.py:66-149 | the same for a whole trace: its decode events in the output are those blocks in the order of time |
| `TraceProofs.ReduceOrder` | contrib/serving-simulator/tools/reduce_trace.py:145-149 | the output is in the order of time; at one time first the other events as they came, then the blocks by engine and request, then the samples |
| `TraceProofs.StrLeqExactly` | contrib/serving-simulator/tools/reduce_trace.py:66-70 | engine and request are compared by code points: a prefix first, otherwise the first different character |
| `TraceProofs.ExampleReduction` | contrib/serving-simulator/tools/reduce_trace.py:34-149 | a concrete trace with every kind of event and its reduction |
| `TraceProofs.ReduceCovers` | contrib/serving-simulator/tools/reduce_trace.py:101-112 | when ends are in order each decode interval lies inside a block of its request |
| `TraceProofs.CoverageNeedsOrder` | contrib/serving-simulator/tools/reduce_trace.py:111-112 | two events for which a block does not cover the longer one |
| `TraceProofs.MergeCoversExactly` | contrib/serving-simulator/tools/reduce_trace.py:108-112 | an interval lies inside its block if and only if it does not end after the last event of its run |
| `TraceProofs.ReduceSeparates` | contrib/serving-simulator/tools/reduce_trace.py:95-106 | blocks of one request on one engine are more than the threshold apart |
| `TraceProofs.ReduceHolds` | contrib/serving-simulator/tools/reduce_trace.py:47-63 | at every time the counter shows the same value before and after |
| `TraceProofs.ReduceNoRepeats` | contrib/serving-simulator/tools/reduce_trace.py:58-63 | no two neighbouring samples of the output are equal |
| `Amounts.UiAmountExact` | docs/app/account/format.ts:24-40 | exactly the plain texts with few enough decimals and a positive value are accepted, and the result is that value in raw units |
| `Amounts.PlainExactly` | docs/app/account/format.ts:24-30 | the accepted form: digits, and perhaps a point with more digits behind it |
| `Amounts.ReadsDigits` | docs/app/account/format.ts:24-40 | digits, a point and digits, with any blanks around them, are read as the number they denote |
| `Amounts.ReadsWhole` | docs/app/account/format.ts:24-40 | and so is a whole number |
| `Amounts.ConversionsAgree` | contrib/ownership/src/spl-helpers.ts:341-355 | string concatenation and multiply-and-add give the same result on every plain decimal text, but for the positivity check |
| `Amounts.EqualAmounts` | docs/app/account/format.ts:24-40 | two accepted texts give equal raw amounts if and only if they denote the same number |
| `Amounts.PrintThenRead` | docs/app/account/format.ts:15-40 | printing and reading returns every positive amount, for every number of decimals |
| `Amounts.ReadThenPrint` | docs/app/account/format.ts:15-40 | reading and printing gives the canonical form of the text |
| `Amounts.FromRawExact` | contrib/ownership/src/spl-helpers.ts:360-365 | the text before float conversion denotes exactly raw / 10^d, and `toRawAmount` reads it back |
| `Amounts.BigIntExactly` | contrib/ownership/src/spl-helpers.ts:341-355 | which texts are integers: digits, or a minus sign before at least one digit |
| `Amounts.NegativeReads` | contrib/ownership/src/spl-helpers.ts:341-355 | a minus sign before the text turns the amount around |
| `Holders.ReadAmount` | contrib/ownership/src/spl-helpers.ts:827-832 | the weighted sum is the little-endian number |
| `Holders.SnapshotAllHolders` | contrib/ownership/src/spl-helpers.ts:814-847 | the accounts with a balance, decoded and sorted; what is decoded from which bytes is stated by `HolderReports.DecodeReadsBack` |
| `Holders.SnapshotSortedMembers` | contrib/ownership/src/spl-helpers.ts:819-847 | exactly the decoded accounts with a balance, in descending order |
| `HolderReports.DecodeReadsBack` | contrib/ownership/src/spl-helpers.ts:819-836 | an account made of mint, owner, little-endian amount and the rest decodes to that owner and amount |
| `HolderReports.EveryAccountIsASlot` | contrib/ownership/src/spl-helpers.ts:814-836 | every account of 165 bytes is made that way |
| `HolderReports.SnapshotLists` | contrib/ownership/src/spl-helpers.ts:819-847 | the snapshot lists owner, account and amount of an account if and only if the amount is positive |
| `Holders.AggregateOwners` | contrib/ownership/src/snapshot-holders.ts:352-380 | the loop over the insertion-ordered map |
| `Holders.AggregateConserves` | contrib/ownership/src/snapshot-holders.ts:357-380 | the total balance is conserved |
| `Holders.AggregateSums` | contrib/ownership/src/snapshot-holders.ts:357-380 | one entry per owner, with the sum of the owner's accounts |
| `Holders.AggregateCarriesLastLeader` | contrib/ownership/src/snapshot-holders.ts:361-372 | on any input the kept account is the owner's last one to exceed all the earlier ones together |
| `Holders.SortedCarriesLargest` | contrib/ownership/src/snapshot-holders.ts:361-372 | on sorted input that is one of the owner's largest accounts |
| `Holders.CarriesLargestExactly` | contrib/ownership/src/snapshot-holders.ts:361-372 | in any order, with distinct account keys, the kept account is one of the owner's largest if and only if one of the largest exceeds all of the owner's earlier accounts together |
| `Holders.UnsortedMissesLargest` | contrib/ownership/src/snapshot-holders.ts:368-371 | balances 3, 3, 4 keep the wrong account |
| `Holders.RankHolders` | contrib/ownership/src/snapshot-holders.ts:352-409 | aggregation, sort, filters and cut, in this order |
| `HolderReports.ReportIsSoundAndComplete` | contrib/ownership/src/snapshot-holders.ts:335-409 | from what the accounts say to the ranking: descending, no owner twice, never longer than asked for; each entry has the sum of the owner's amounts, is above the bound and shows one of the owner's largest accounts; an owner with funds above the bound is left out only of a full list whose members all have at least as much |
| `HolderReports.FullReportConserves` | contrib/ownership/src/snapshot-holders.ts:352-391 | without bounds and cut the report adds up to the amounts of all accounts |
| `Holders.IncludeZeroChangesNothing` | contrib/ownership/src/snapshot-holders.ts:401-404 | the option has no effect on the entries |
| `Holders.PointsBound` | contrib/ownership/src/snapshot-holders.ts:425-432 | rounding down loses less than a hundredth of a percent per entry |
| `Holders.SharesWithinSupply` | contrib/ownership/src/snapshot-holders.ts:425-432 | the shares never add up to more than 100 % when the balances fit the supply |
| `Metadata.BuildInstructionData` | contrib/ownership/src/create-token.ts:89-128 | the pushed parts are the documented layout behind the discriminator; fails just when a length does not fit in 32 bits |
| `Metadata.TakeString` | contrib/ownership/src/token-info.ts:141-148 | a length-prefixed string and the offset after it |
| `Metadata.SkipCreators` | contrib/ownership/src/token-info.ts:172-182 | the offset after the optional creators |
| `Metadata.ScanFields` | contrib/ownership/src/token-info.ts:118-213 | the cursor-driven scanner equals its specification, out-of-range reads included |
| `Metadata.Scan` | contrib/ownership/src/token-info.ts:122-218 | the same with trailing NULs removed |
| `Metadata.ScanOfAccount` | contrib/ownership/src/token-info.ts:122-213 | scanning any account of the documented layout returns its strings, fee, authority and mutability, whatever creators, collection and uses stand in between |
| `Metadata.ScanOfCutAccount` | contrib/ownership/src/token-info.ts:122-213 | for every beginning of such an account: nothing if the fee or the count of the creators is cut, otherwise the fields, and without its flag the token counts as mutable |
| `Metadata.OtherAccountsRefused` | contrib/ownership/src/token-info.ts:122-131 | an account with another key or too short for a header is refused |
| `Metadata.ExampleBody` | contrib/ownership/src/create-token.ts:89-128 | the concrete bytes for one-letter strings |
| `Metadata.BuiltScansBack` | contrib/ownership/src/create-token.ts:89-128 | what the builder writes scans back, each of the three strings unchanged just when it does not end in NUL |
| `ByteStrings.ValueOfLittleEndian` | contrib/ownership/src/create-token.ts:65-70 | writing and reading a little-endian number returns it |
| `ByteStrings.LittleEndianOfValue` | contrib/ownership/src/spl-helpers.ts:827-832 | reading and writing bytes returns them |
| `Auth.Server.constructor` | contrib/auth/models.py:18-41 | both tables start empty |
| `Auth.Server.ValidateChallenge` | contrib/auth/server.py:90-132 | error 400 just when format, wallet or window is wrong |
| `Auth.Server.CreateKey` | contrib/auth/server.py:153-210 | the new tables in every case, and which requests get which status |
| `Auth.Server.RevokeKey` | contrib/auth/server.py:234-247 | the flag of the key, 404 or 403 |
| `Auth.Server.VerifyToken` | contrib/auth/server.py:251-264 | finds the unrevoked key with the token's digest if and only if there is one |
| `AuthProofs.ChallengeShape` | contrib/auth/server.py:97-118 | a challenge names a wallet and a time if and only if it has the documented form |
| `AuthProofs.WindowExactly` | contrib/auth/server.py:120-132 | a challenge is valid if and only if its timestamp is at most 300 s old and at most 60 s ahead |
| `AuthProofs.AcceptedInWindow` | contrib/auth/server.py:120-132 | over every run a challenge is accepted inside that window only, for its own wallet and with a valid signature |
| `AuthProofs.UnsignedReads` | contrib/auth/server.py:112-113 | a timestamp of digits is read as its number, whatever white space is around it |
| `AuthProofs.SignedReads` | contrib/auth/server.py:112-113 | a sign may stand before the digits |
| `AuthProofs.GroupedExactly` | contrib/auth/server.py:112-113 | single underscores may stand between groups of digits, and nowhere else |
| `AuthProofs.GroupsRead` | contrib/auth/server.py:112-113 | and do not change the number |
| `AuthProofs.NumeralCharacters` | contrib/auth/server.py:112-118 | a text with any other character is refused |
| `AuthProofs.RowStays` | contrib/auth/server.py:171-189 | an accepted challenge stays in the table unless a later purge has passed its lifetime |
| `AuthProofs.AcceptancesFarApart` | contrib/auth/server.py:171-189 | over every run, two acceptances of one challenge are more than 300 s apart |
| `AuthProofs.PastTimestampUsedOnce` | contrib/auth/server.py:120-132 | a timestamp before the second of the first acceptance makes it the only one |
| `AuthProofs.WholeSecondsUsedOnce` | contrib/auth/server.py:120-132 | on a clock of whole seconds a timestamp not ahead of it is enough |
| `AuthProofs.SecondAcceptanceExactly` | contrib/auth/server.py:120-189 | some run accepts the challenge again if and only if the first acceptance leaves room for a purge inside the challenge's window |
| `AuthProofs.TableRecordsRun` | contrib/auth/server.py:191-247 | the key table is a faithful record of the creations and revocations of the run |
| `AuthProofs.TokenGoodExactly` | contrib/auth/server.py:251-262 | a token is good for a wallet if and only if a key was created with it for that wallet and never revoked since |
| `AuthProofs.TokenNamesOneKey` | contrib/auth/models.py:35-37 | a token never stands for two wallets or two keys |
| `AuthProofs.RevocationIsFinal` | contrib/auth/server.py:234-247 | a revoked key stays revoked whatever follows |
| `AuthProofs.KeyBelongsToChallenge` | contrib/auth/server.py:106-110 | each key belongs to the wallet its own signed challenge names |
| `Readiness.RequiredCounts` | contrib/benchmark/cli/spinup.py:149-154 | how often each key is expected |
| `Readiness.OfferExactly` | contrib/benchmark/cli/spinup.py:171-212 | a node counts for a model and a hardware if and only if its first llm service is connected and its first model identity names the model, and its first GPU is of that kind |
| `Readiness.CountMatching` | contrib/benchmark/cli/spinup.py:167-221 | the counter is the sum over all keys of min(required, available), as the size of a multiset intersection |
| `Readiness.CounterDecides` | contrib/benchmark/cli/spinup.py:227-230 | it reaches the number of expected nodes if and only if every key has enough |
| `Readiness.WaitForNodes` | contrib/benchmark/cli/spinup.py:144-236 | the wait ends at the first poll whose table is ready, past failed polls |
| `Readiness.OrderDoesNotMatter` | contrib/benchmark/cli/spinup.py:171-221 | the offers depend on the rows of the table, not on their order |

## Left out

- Sockets, HTTP, threads as an API, SSH, Slurm, file output and logging: only messages, queues, steps and tables are modelled.
- Liveness: that a poll, an acknowledgement or an observer's last message ever comes is not claimed.
- Two observers with the same task id, and connections that do not start with a hello message.
- Numbers in messages are whole numbers; the JSON reader refuses fractions, exponents and lone surrogates, and keeps the fields of an object as a list.
- Floating point: percentiles work on real numbers; `parseFloat`, `Math.round` on the minimum balance and NaN are not modelled, and neither is `mean`.
- Trace times are whole microseconds, and the merged text fields are uninterpreted.
- Text is kept as bytes where the code works on bytes (UTF-8 validity is not modelled); `int()` is modelled on ASCII text without its limit on the number of digits.
- Negative raw amounts, and number arguments of `toRawAmount` in exponent form.
- The on-chain layout: only the byte layout that the two files write and read.
- Solana RPC and instruction builders, base58, Ed25519 and SHA-256: a signature check is an outcome, a digest is an injective function.
- Concurrent database transactions of the key server: requests are handled one after the other; listing keys is not modelled.
- The rest of go-ds-crdt: heads, the Merkle DAG walk, broadcasting and migrations. A block is available once its delta has been merged, a datastore query returns one consistent set of keys, and a batch is committed at once, that of a pruning too.
- CrdtCompaction.CompactionInvisible: which tombstones are old enough, and the limit per call, are not modelled; it holds for any set of them.
- Reservoir.EveryPositionEquallyLikely: that `math/rand` draws uniformly and independently is taken as given.
- HolderReports.ReportIsSoundAndComplete: the count of holders before filtering, the ranks and the UI balances are not modelled, because they follow from the list and from `Amounts`.
- Plots, documentation site, command wiring, the serving simulator and its scheduler.
