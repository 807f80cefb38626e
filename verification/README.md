# ULPF core, modelled in Dafny

This project models the parts of the ULPF log framework on which its guarantees rest, and proves those
guarantees for every input, every run and, where threads are involved, every interleaving.

- **Integrity** (`Hashing`, `Merkle`, `MerkleProofs`, `Tamper`, `Batcher`, `Archives`,
  `Accumulator`): the Merkle tree
  of RFC 6962, its proofs and verifiers, tamper reports, and the batcher that writes blocks and ledger.
- **Ingestion** (`IngestQueue`, `MemoryQueues`): the bounded queue as a state machine of producers,
  consumers and closers, and as an object.
- **Template mining** (`Drain` and the `Drain...` modules): the Drain miner with action anchors.
- **The tiered pipeline** (`Recency`, `SignatureCache`, `Registry`, `ParserRegistry`, `Pipeline`, `PipelineRouting`,
  `PipelineAnswers`, `Signatures`, `TieredPipelines`, `TriageProtocol`, `TriageWorker`, `RouteProtocol`): cache, dynamic parser registry, routing, and the
  exemplar budget, one call at a time and under interleavings.
- **Readers and scores** (`Text`, `Csv`, `Cef`, `Purity`): the CSV and CEF tokenizers, grouping accuracy
  and mixed-disposition counts.

SHA-256 is a parameter. Soundness results read "the conclusion holds, or two of these hashed inputs
collide", where the inputs are those of the honest tree and those the verifier hashed; so the second
alternative is a concrete collision and not the mere existence of one. Source loops and objects are
methods and classes proved equal to a specification function; the theorems are about those functions.
Merkle trees are handled as a `Shape`, the tree that a list is split into.

## What turned out different from the documentation

- The inclusion verifier never compares the stated index with the path's sides, and the by-hash entry
  point accepts inner nodes (`StatedIndexRight`, `InnerNodeAccepted`, `HashEntryIsLeafIff`).
- Two spellings of one action, such as ALLOW and allow, are merged into a wildcard, which the configuration
  says never happens; after that any ordinary token joins the cluster. Two different actions still never
  meet (`TwoSpellingsHideAnchor`, `AnchorRuleIff`, `PinnedIffUnspoiled`, `ActionInviolability`).
- The key-aware class partition leaks in the same way: once another key has turned a `type=` position into a
  wildcard, lines of different types join (`ClassesCanMix`, `ClassesShownIff`).
- The queue's `close` can miss a producer about to wait (`LostWakeup`, `CloseReleasesIff`).
- The signature cache evicts first in, first out, not least recently used (`ShardIsFifoWindow`,
  `ShardIsLruIff`, `ShardHoldsLruIff`).
- A failed block write, and a restart with a non-empty buffer, lose the batch (`FailedWriteLoses`,
  `RestartLoses`, `Conservation`).
- The CEF signature bucket is coarser than the classifier. The bucket takes every line with `CEF:` in its
  first 96 bytes, while the classifier goes by the leftmost pattern, so a line with `%ASA-` before that
  `CEF:` is a Cisco line in the CEF bucket (`ClassifiedCefIff`, `PairsExist`, `CiscoLineMisrouted`).
- The budget gate can wrap below zero for a moment, and one key's race can close it for another (`GateCanWrap`,
  `GateExactIff`, `OtherKeyClosesGate`).
- `unescape_cef` drops the backslash of an unknown escape, which its comment says stays (`DocumentedIff`).

## Model

| member | source | states |
|---|---|---|
| Hashing.EncodeInjective | crates/ulpf-integrity/src/merkle.rs:95-115 | Leaf, node and empty-tree inputs are never confused: different inputs have different byte strings, thanks to the 0x00/0x01 prefixes |
| Hashing.CollisionIsReal | crates/ulpf-integrity/src/merkle.rs:95-109 | A `Collide` verdict is a genuine SHA-256 collision on two different byte strings |
| Merkle.LargestPowerOfTwoLessThan | crates/ulpf-integrity/src/merkle.rs:117-125 | The shift formula equals the recursive split point k with k < n <= 2k |
| Merkle.SplitPointIsHighBit | crates/ulpf-integrity/src/merkle.rs:117-125 | The split point is the highest power of two below n |
| Merkle.SplitOfPrefix | crates/ulpf-integrity/src/merkle.rs:351-373 | The split lemma: k(n) < m <= n implies k(m) = k(n) |
| Merkle.BuildSubtreeAnnotates | crates/ulpf-integrity/src/merkle.rs:261-280 | The stored tree carries the RFC hash and size at every node |
| Merkle.BuildSubtreeNumbers | crates/ulpf-integrity/src/merkle.rs:261-280 | Its leaves carry consecutive indexes from the offset on |
| Merkle.FromLeafHashes | crates/ulpf-integrity/src/merkle.rs:232-259 | The tree built from leaf hashes has the Merkle tree hash of section 2.1 of RFC 6962 as its root, also when empty |
| Merkle.CollectAuditPath | crates/ulpf-integrity/src/merkle.rs:160-178 | Walking the stored tree appends exactly the audit path of section 2.1.1 of RFC 6962 |
| Merkle.GenerateInclusionProof | crates/ulpf-integrity/src/merkle.rs:314-333 | The proof for an index in range is that path; any other index is the out-of-bounds error |
| Merkle.VerifyInclusionByHash | crates/ulpf-integrity/src/merkle.rs:388-413 | An index outside the size is rejected, a one-leaf tree needs an empty path and the leaf as root, and otherwise the verdict is whether the path folds to the root, whatever the index and size |
| Merkle.VerifySubproofFull | crates/ulpf-integrity/src/merkle.rs:463-482 | The stack-popping recursion computes the functional run: same hashes, same stack left, same failures |
| Merkle.VerifyConsistencyInternal | crates/ulpf-integrity/src/merkle.rs:437-461 | Likewise for the recursion that still knows the previous root |
| Merkle.VerifyConsistencyProof | crates/ulpf-integrity/src/merkle.rs:416-435 | Size zero and a previous size above the current one are rejected, equal sizes need an empty proof and equal roots, and otherwise the verdict is that of the recursion with the stack emptied |
| MerkleProofs.ConsistencyComplete | crates/ulpf-integrity/src/merkle.rs:337-373 | For every list and 1 <= m <= n the generated proof is accepted with the stack exactly emptied |
| MerkleProofs.FullRunSound | crates/ulpf-integrity/src/merkle.rs:463-482 | A full run that reproduces a subtree's root had the honest prefix root and consumed exactly the honest subproof, or two of the hashed inputs collide |
| MerkleProofs.InternalRunSound | crates/ulpf-integrity/src/merkle.rs:437-461 | Likewise for the internal run |
| MerkleProofs.ConsistencySound | crates/ulpf-integrity/src/merkle.rs:416-482 | An accepted proof against the root of L forces the previous root to be the root of L's first m leaves and the proof to be the honest one, or an explicit collision |
| MerkleProofs.PathFolds | crates/ulpf-integrity/src/merkle.rs:160-178 | Folding any generated path from its leaf gives the root |
| MerkleProofs.InclusionComplete | crates/ulpf-integrity/src/merkle.rs:314-413 | Every generated audit path is accepted for its leaf and index |
| MerkleProofs.HonestIndexRange | crates/ulpf-integrity/src/merkle.rs:388-413 | The honest path of a leaf is accepted for exactly the indexes in range |
| MerkleProofs.OnlyRangeMatters | crates/ulpf-integrity/src/merkle.rs:388-413 | For sizes above one the verdict depends on index and size through the range check only |
| MerkleProofs.PathLengthIsLogarithmic | crates/ulpf-integrity/src/merkle.rs:160-178 | An audit path is no longer than ceil(log2 n) |
| MerkleProofs.FoldSound | crates/ulpf-integrity/src/merkle.rs:388-413 | A path folding to a tree's root leads to a subtree whose root is the start hash, or a collision |
| MerkleProofs.InclusionSound | crates/ulpf-integrity/src/merkle.rs:376-413 | An accepted raw-log proof puts the log into the list at the position the sides spell out, whatever index and size are stated and for the empty list too, or a collision, leaf against node included |
| MerkleProofs.StatedIndexRight | crates/ulpf-integrity/src/merkle.rs:376-413 | The stated index holds the log if and only if it holds the same log as the position the sides spell out; with no repeated logs, if and only if it is that position. The code never compares them |
| MerkleProofs.StatedIndexCanBeWrong | crates/ulpf-integrity/src/merkle.rs:388-413 | A proof relabelled to another index is accepted |
| MerkleProofs.HashEntrySound | crates/ulpf-integrity/src/merkle.rs:388-413 | Through the by-hash entry point an accepted hash is the root of the subtree the sides lead to |
| MerkleProofs.AnyNodeAccepted | crates/ulpf-integrity/src/merkle.rs:388-413 | Every node of the tree is accepted with the honest siblings above it, for any index in range |
| MerkleProofs.InnerNodeAccepted | crates/ulpf-integrity/src/merkle.rs:388-413 | Over three logs the node above the first two is accepted as if it were a leaf |
| MerkleProofs.HashEntryIsLeafIff | crates/ulpf-integrity/src/merkle.rs:388-413 | Up to a collision an accepted hash is the leaf hash of some log if and only if the sides lead all the way down to a leaf |
| MerkleProofs.RootInjective | crates/ulpf-integrity/src/merkle.rs:232-280 | Equal roots mean equal log lists across all lengths, empty included, or a collision |
| Tamper.VerifyRecords | crates/ulpf-integrity/src/tamper.rs:229-332 | The report is valid exactly when record count, root, leaf indexes and every digest agree; its findings are the specified list in order |
| Tamper.CheckRows | crates/ulpf-integrity/src/tamper.rs:229-332 | The row loop pushes exactly the row findings, in order |
| Tamper.FindingsEmptyIff | crates/ulpf-integrity/src/tamper.rs:229-332 | No finding at all if and only if the block is intact |
| Tamper.FindingsExact | crates/ulpf-integrity/src/tamper.rs:229-332 | A report's findings are exactly: the count if it differs, each row with a wrong index or a wrong hash, and the root if it differs and nothing else is wrong; each names the recorded value first and the computed one second |
| Tamper.DigestFindingsExact | crates/ulpf-integrity/src/tamper.rs:269-284 | Digest findings are exactly the rows whose stored hash disagrees with their raw log, in row order |
| Tamper.IntactForcesLogs | crates/ulpf-integrity/src/tamper.rs:229-332 | A valid report forces the raw logs to be those the ledger root was computed from, or a collision |
| Tamper.OtherColumnsUncovered | crates/ulpf-integrity/src/tamper.rs:229-332 | Event ids, timestamps, vendor and normalised columns play no part in the verdict |
| Tamper.FindEntryUnique | crates/ulpf-integrity/src/tamper.rs:191-226 | With increasing block ids, lookup by id finds the one entry |
| Tamper.FindEntryMember | crates/ulpf-integrity/src/tamper.rs:191-226 | Lookup answers the first entry with the id, and none if and only if there is none |
| Tamper.VerifyBlockWithLedger | crates/ulpf-integrity/src/tamper.rs:191-226 | The target block is the rows' own or the file's; a missing entry is an error, otherwise the whole report is that of `verify_records` |
| Batcher.RunKeeps | crates/ulpf-integrity/src/batcher.rs:122-291 | After any pushes, timeouts, flushes, failed writes and restarts: ids strictly increase and stay below the next id, every ledger entry anchors its stored file, and taken batches plus the buffer are all pushed logs |
| Batcher.NothingLostIff | crates/ulpf-integrity/src/batcher.rs:182-291 | No batch is lost if and only if every event that takes a batch has working writes and no restart finds a filled buffer, both decided from the calls alone |
| Batcher.Conservation | crates/ulpf-integrity/src/batcher.rs:182-291 | Archived blocks followed by the buffer equal all pushed logs in order if and only if that condition on the events holds |
| Batcher.FailedWriteLoses | crates/ulpf-integrity/src/batcher.rs:226-291 | A failed file write loses the whole batch, since the buffer is emptied first, and leaves no file |
| Batcher.FailedLedgerOrphans | crates/ulpf-integrity/src/batcher.rs:226-291 | A failed ledger write loses the batch too and leaves its file without an entry |
| Batcher.RestartLoses | crates/ulpf-integrity/src/batcher.rs:122-141 | A restart loses a log that was pushed and not yet due |
| Batcher.ArchivedBlocksVerify | crates/ulpf-integrity/src/batcher.rs:226-291 | Every archived block of a run is found under its id and verifies against its own entry |
| Batcher.ArchiveSound | crates/ulpf-integrity/src/tamper.rs:191-332 | Any rows that verify against a run's ledger carry exactly the raw logs of one archived batch, or SHA-256 collides on inputs of the two trees |
| Archives.IdsAreGapFree | crates/ulpf-integrity/src/batcher.rs:122-141 | In a run whose writes go through blocks are numbered without a gap, across restarts |
| Archives.RowsCarryLogs | crates/ulpf-integrity/src/batcher.rs:226-291 | In every run each archived file carries its batch row by row: raw log, vendor, block id, and event id, time and event object where the log had them |
| Accumulator.BatchAccumulator.constructor | crates/ulpf-integrity/src/batcher.rs:122-141 | Opening resumes one past the largest ledger id with an empty buffer |
| Accumulator.BatchAccumulator.Push | crates/ulpf-integrity/src/batcher.rs:182-193 | One push step, flushing at the size bound or the time bound |
| Accumulator.BatchAccumulator.CheckTimeout | crates/ulpf-integrity/src/batcher.rs:196-208 | One timeout step and its result: nothing unless the buffer is overdue, otherwise that of the flush |
| Accumulator.BatchAccumulator.Flush | crates/ulpf-integrity/src/batcher.rs:226-291 | One flush step for each outcome of the disk, with the matching result |
| IngestQueue.EveryRunSafe | crates/ulpf-core/src/ingest/queue.rs:102-208 | In every interleaving: popped then queued items are the accepted ones in FIFO order, the length stays within capacity, gauges, high-water mark and shed counts are exact, and a producer parked without a notification implies a full queue |
| IngestQueue.PopTakes | crates/ulpf-core/src/ingest/queue.rs:153-185 | Under a free lock a pop takes from the front as many items as asked for or all there are, and leaves the rest in order |
| IngestQueue.PopWakesAll | crates/ulpf-core/src/ingest/queue.rs:153-185 | A non-empty pop leaves no producer parked without a notification |
| IngestQueue.AlonePushes | crates/ulpf-core/src/ingest/queue.rs:102-151 | A producer that runs undisturbed appends its item when there is room; on a full queue it loses the item or goes to sleep with it, by policy |
| IngestQueue.ClosedRefuses | crates/ulpf-core/src/ingest/queue.rs:102-106 | A call on a closed queue changes nothing |
| IngestQueue.ClosedAcceptsAtMostTail | crates/ulpf-core/src/ingest/queue.rs:102-151 | After close at most one more item is accepted, that of the producer already past its last look at the flag; one that wakes later never enqueues |
| IngestQueue.CloseReleasesIff | crates/ulpf-core/src/ingest/queue.rs:201-208 | Close releases every producer for good if and only if none stands between its look at the flag and its wait when the notification is sent |
| IngestQueue.LostWakeup | crates/ulpf-core/src/ingest/queue.rs:102-151 | Behind any full queue a run exists in which close completes and a producer then sleeps unnotified |
| MemoryQueues.MemoryQueue.TryPush | crates/ulpf-core/src/ingest/queue.rs:102-151 | One attempt under the lock: closed, full under either policy, or accepted at the end, with the whole new state |
| MemoryQueues.MemoryQueue.PopBatch | crates/ulpf-core/src/ingest/queue.rs:153-185 | Returns the maximum number of items or all there are, from the front; batch and remainder are the old queue; gauges follow; wakes exactly when something was popped |
| MemoryQueues.MemoryQueue.Stats | crates/ulpf-core/src/ingest/queue.rs:187-199 | The reported depth and bytes are those of the queued items |
| DrainClusters.TemplateIsLeastGeneral | crates/ulpf-ai/src/drain.rs:147-189 | A template covers all members and every pattern covering them is at least as general |
| DrainClusters.MergeIsTemplate | crates/ulpf-ai/src/drain.rs:171-189 | Absorbing a line turns the members' template into that of members plus line |
| DrainClusters.AbsorbKeepsAnchors | crates/ulpf-ai/src/drain.rs:544-603 | Absorbing a compatible line never puts two vocabulary values into one position, even behind a wildcard |
| DrainClusters.HiddenAfterIff | crates/ulpf-ai/src/drain.rs:171-189 | The documented rule for one absorption: no anchor is behind a wildcard afterwards if and only if none was before and the line repeats every anchor token of the template verbatim |
| DrainClusters.PinnedStaysIff | crates/ulpf-ai/src/drain.rs:544-586 | That members share each vocabulary value any of them carries survives an absorption if and only if no wildcard already hides a vocabulary value |
| DrainTree.IdsAfterInsert | crates/ulpf-ai/src/drain.rs:499-530 | Insertion adds the id to one leaf and leaves every other leaf alone |
| DrainTree.InsertNarrow | crates/ulpf-ai/src/drain.rs:499-530 | Insertion keeps the bound on children: maxChildren literals and one wildcard |
| DrainTree.LookupAfterInsert | crates/ulpf-ai/src/drain.rs:427-530 | Right after an insertion the lookup reaches the inserted leaf, unless a saturated level already holds the literal token |
| DrainRuns.EveryRunOk | crates/ulpf-ai/src/drain.rs:292-395 | Cluster map, members, counts and prefix tree stay consistent over every run |
| DrainTheorems.ChooseIsFirstArgmax | crates/ulpf-ai/src/drain.rs:427-496 | The scan returns the first candidate of maximal positive score if that reaches the threshold, and nothing otherwise |
| DrainTheorems.ActionInviolability | crates/ulpf-ai/src/drain.rs:292-603 | With anchors on and the wildcard outside the vocabulary, two lines of one cluster with vocabulary values at a position have the same value there, ignoring case, in every run; members share length and syslog tag |
| DrainValues.TokenSeen | crates/ulpf-ai/src/drain.rs:592-618 | Of `word`, `key=word` and `"key":"word"`, with any quotes, commas and white space around either, the anchor value is the word and the key is the key |
| DrainValues.ConflictIff | crates/ulpf-ai/src/drain.rs:557-577 | Two tokens force their lines apart if and only if their words differ, ignoring case, and one is in the vocabulary or both are assigned to `type` |
| DrainValues.VerdictsApart | crates/ulpf-ai/src/drain.rs:544-603 | In no run does a cluster hold two lines that carry different vocabulary words at one position, in whatever form each is written |
| DrainClasses.OtherClassNeverJoins | crates/ulpf-ai/src/drain.rs:566-577 | A line never joins a cluster whose template shows another `type` at some position |
| DrainClasses.ShownAgree | crates/ulpf-ai/src/drain.rs:566-577 | While every class is shown, members with a class token at a position have the same token there |
| DrainClasses.ClassesShownIff | crates/ulpf-ai/src/drain.rs:566-577 | After a run no class token lies behind a wildcard if and only if every joining line has its template's token wherever either has a class token |
| DrainClasses.ClassesCanMix | crates/ulpf-ai/src/drain.rs:566-577 | `type=x`, then another key in that place, then `type=z` end up in one cluster |
| DrainMatching.ScoreIsShare | crates/ulpf-ai/src/drain.rs:427-586 | With anchors off the score is the share of positions that match; with anchors on another tag or a conflict makes it zero |
| DrainMatching.CandidatesAlike | crates/ulpf-ai/src/drain.rs:427-496 | Lines whose leading tokens are equal or both carry digits are compared with the same clusters |
| DrainMatching.CandidatesExact | crates/ulpf-ai/src/drain.rs:427-496 | The candidates are exactly the clusters filed where the lookup ends |
| DrainMatching.AddLogJoins | crates/ulpf-ai/src/drain.rs:292-395 | If some candidate scores above zero and reaches the threshold, the first of the best takes the line and no other cluster changes |
| DrainMatching.AddLogMints | crates/ulpf-ai/src/drain.rs:292-395 | Otherwise the line mints the next cluster |
| DrainTheorems.TemplatesLeastGeneral | crates/ulpf-ai/src/drain.rs:147-189 | In every run a template position is literal t if and only if all members have t there |
| DrainTheorems.LinesArePartitioned | crates/ulpf-ai/src/drain.rs:292-395 | The clusters partition the non-empty lines of the run and their counts add up to them |
| DrainTheorems.IndexExact | crates/ulpf-ai/src/drain.rs:427-530 | Each cluster id sits in exactly one leaf, once, and each prefix node has at most maxChildren + 1 children |
| DrainTheorems.ReAddIff | crates/ulpf-ai/src/drain.rs:427-530 | Re-adding a line right after it minted a cluster returns that cluster, with similarity 1 and the template unchanged, if and only if no prefix level is saturated while holding the literal token |
| DrainTheorems.ReAddCanMiss | crates/ulpf-ai/src/drain.rs:427-530 | A run that reaches the other case: the re-added line is not answered with its own cluster |
| DrainHidden.HiddenIffSpoiled | crates/ulpf-ai/src/drain.rs:171-189 | In every run a cluster has an anchor behind a wildcard if and only if some line joined it without repeating its template's anchor tokens |
| DrainHidden.AnchorRuleIff | crates/ulpf-ai/src/drain.rs:25-26 | The rule that anchors are never merged into a wildcard holds after a run if and only if every joining line repeats its cluster's anchor tokens verbatim |
| DrainHidden.PinnedIffUnspoiled | crates/ulpf-ai/src/drain.rs:544-586 | In every run the members of each cluster share the vocabulary values they carry if and only if no line joins a cluster that an earlier line spoiled in this way |
| DrainAnchors.OneSpellingPins | crates/ulpf-ai/src/drain.rs:544-603 | A discipline on the input alone that suffices: each vocabulary value spelled one way |
| DrainValues.AllowIsSpelledTwice | crates/ulpf-ai/src/drain.rs:544-603 | ALLOW and allow are two tokens with one value, both in any vocabulary that lists ALLOW |
| DrainAnchors.TwoSpellingsHideAnchor | crates/ulpf-ai/src/drain.rs:171-189 | After two spellings of one value the template position is the wildcard and the value lies behind it; then any ordinary token joins |
| DrainMiners.ComputeSimilarity | crates/ulpf-ai/src/drain.rs:544-586 | The veto loop and the match loop compute the similarity, which is the share of matching positions or zero after one conflict (`SimilarityIsShare`) |
| DrainMatching.SimilarityIsShare | crates/ulpf-ai/src/drain.rs:544-586 | The similarity of equally long token lists is the number of matching positions over the length, or zero if some position conflicts |
| DrainMiners.UpdateTemplate | crates/ulpf-ai/src/drain.rs:171-189 | The in-place rewrite is the merge and reports whether anything changed |
| DrainMiners.DrainMiner.FindBestMatch | crates/ulpf-ai/src/drain.rs:427-496 | Descent and scan return the specified best match |
| DrainMiners.DrainMiner.AddLog | crates/ulpf-ai/src/drain.rs:292-395 | One mining step: the object's new state and result are the specified ones |
| SignatureCache.ShardIsFifoWindow | crates/ulpf-core/src/parser/lru_cache.rs:57-79 | In every run a shard holds exactly the last `capacity` distinct arrivals in arrival order: first in, first out |
| SignatureCache.ShardAnswersLatest | crates/ulpf-core/src/parser/lru_cache.rs:57-79 | A hit answers the format stored last under that key |
| SignatureCache.HitDoesNotRefresh | crates/ulpf-core/src/parser/lru_cache.rs:57-79 | A lookup does not save an entry from eviction, so the cache is not least-recently-used |
| SignatureCache.ShardIsLruIff | crates/ulpf-core/src/parser/lru_cache.rs:57-79 | A shard keeps the exact recency order of an LRU cache after every operation if and only if no operation finds its key anywhere but at the newest end |
| SignatureCache.ShardHoldsLruIff | crates/ulpf-core/src/parser/lru_cache.rs:57-79 | A shard holds exactly the keys of an LRU cache after every operation if and only if every evicting store finds the same key at the head of both lists |
| SignatureCache.StoreEffect | crates/ulpf-core/src/parser/lru_cache.rs:181-203 | Storing a signature answers it next and never changes another signature's format; that one is kept or evicted |
| SignatureCache.NewCacheSharded | crates/ulpf-core/src/parser/lru_cache.rs:103-120 | A new cache starts with every shard empty and in order |
| SignatureCache.StoreKeepsSharded | crates/ulpf-core/src/parser/lru_cache.rs:181-203 | Every signature stays in its own shard and every shard within its capacity |
| SignatureCache.SignatureLruCache.Get | crates/ulpf-core/src/parser/lru_cache.rs:181-194 | Looks in the signature's shard and counts one hit or one miss |
| SignatureCache.SignatureLruCache.Insert | crates/ulpf-core/src/parser/lru_cache.rs:197-203 | Stores in the signature's shard and counts an eviction exactly when one happened |
| Recency.UsedMovesToEnd | crates/ulpf-ai/src/onboarder.rs:878-900 | What least-recently-used means for a use: the key goes to the recent end, the others keep their order |
| Recency.AddedAtEnd | crates/ulpf-ai/src/onboarder.rs:816-841 | And for an addition: the key goes to the recent end, and a new key on a full list pushes out the oldest only |
| Registry.TouchRefines | crates/ulpf-ai/src/onboarder.rs:878-900 | A use moves the key to the most recent end |
| Registry.VictimIsHead | crates/ulpf-ai/src/onboarder.rs:820-831 | The smallest (stamp, key) pair is exactly the head of the recency list |
| Registry.RegisterRefines | crates/ulpf-ai/src/onboarder.rs:816-841 | Registration appends the key and at capacity drops the head |
| Registry.RegistryIsLru | crates/ulpf-ai/src/onboarder.rs:808-900 | In every run the registry refines a true LRU list: stamps pairwise distinct and bounded by the clock, size within max(capacity, 1) |
| Registry.KeysHoldLatest | crates/ulpf-ai/src/onboarder.rs:816-841 | In every run each key holds the parser last registered under it |
| Registry.KeyIdentifies | crates/ulpf-ai/src/onboarder.rs:816-818 | Parsers share a key if and only if vendor, in lower case, and model agree |
| Registry.LexIsDictionary | crates/ulpf-ai/src/onboarder.rs:820-831 | Ties and scans go by dictionary order: a prefix first, otherwise the first difference decides |
| ParserRegistry.DynamicParserRegistry.FindVictim | crates/ulpf-ai/src/onboarder.rs:820-831 | The scan finds the least recently used key |
| ParserRegistry.DynamicParserRegistry.Register | crates/ulpf-ai/src/onboarder.rs:816-841 | Files the parser under its lower-cased vendor and its device model and performs one registration step |
| ParserRegistry.DynamicParserRegistry.ParseKey | crates/ulpf-ai/src/onboarder.rs:878-884 | Answers the line by that key's parser and counts as a use |
| ParserRegistry.DynamicParserRegistry.ParseAnyKeyed | crates/ulpf-ai/src/onboarder.rs:889-900 | Answers the smallest matching key and counts only it as used; nothing if and only if no parser matches |
| Pipeline.BudgetStep | crates/ulpf-ai/src/pipeline.rs:342-373 | A dispatch keeps the gate equal to the number of keys under budget and every count within eight |
| Pipeline.GateIsTransparent | crates/ulpf-ai/src/pipeline.rs:208-221 | With exact gates, skipping the dispatch at a closed gate gives the same answer and the same whole state as dispatching |
| Pipeline.GatedRefinesUngated | crates/ulpf-ai/src/pipeline.rs:202-373 | In every sequential run the gated pipeline equals the ungated one, and the gates stay exact |
| Pipeline.GateNeverMatters | crates/ulpf-ai/src/pipeline.rs:202-373 | The same from the initial state of a new pipeline |
| PipelineRouting.NativeNeverDynamic | crates/ulpf-ai/src/pipeline.rs:202-336 | A line the classifier recognises is never answered by a dynamic parser, in any state |
| PipelineAnswers.HitAnswer | crates/ulpf-ai/src/pipeline.rs:208-221 | A cached format answers with its extractor, and failing that with the line's own |
| PipelineAnswers.RecognisedAnswer | crates/ulpf-ai/src/pipeline.rs:302-316 | Without a cached format a recognised line is answered by its own extractor or kept unparsed, and a success is cached under its signature |
| PipelineAnswers.RoutesAreOpen | crates/ulpf-ai/src/pipeline.rs:229-234 | With exact gates every installed route is open |
| PipelineAnswers.RouteAnswers | crates/ulpf-ai/src/pipeline.rs:229-259 | An open route whose parser matches an unknown line answers with that key and its fields |
| PipelineAnswers.ScanAnswers | crates/ulpf-ai/src/pipeline.rs:319-331 | Otherwise the least key whose parser matches answers with its fields and becomes the signature's route |
| PipelineAnswers.NothingAnswers | crates/ulpf-ai/src/pipeline.rs:319-336 | Without a route and a match the line is kept unparsed |
| PipelineAnswers.WinnerAnswersNext | crates/ulpf-ai/src/pipeline.rs:319-331 | The winner of a scan answers the next unknown line of that signature that its parser matches |
| PipelineAnswers.StaleRouteGoes | crates/ulpf-ai/src/pipeline.rs:247-254 | A route that no longer answers is dropped, or replaced by the scan's winner |
| PipelineAnswers.EveryLineCounted | crates/ulpf-ai/src/pipeline.rs:202-292 | Each call counts one line, and one miner hit exactly when a known line got that far |
| PipelineRouting.RunJustified | crates/ulpf-ai/src/pipeline.rs:302-316 | Every cached format is the classification of some processed line with that signature |
| PipelineRouting.RecognisedLinesLossless | crates/ulpf-core/src/parser/mod.rs:61-154 | In runs where equal signatures imply equal classification every recognised line gets the answer of `parse_lossless`, whatever the cache evicted |
| PipelineRouting.HitLosslessIff | crates/ulpf-ai/src/pipeline.rs:208-221 | A Tier-1 hit answers losslessly if and only if the cached format's extractor rejects the line or finds in it what the line's own extractor finds |
| PipelineRouting.SharedSignatureMisroutes | crates/ulpf-ai/src/pipeline.rs:302-316 | Of two recognised lines sharing a signature the second is answered by the first one's extractor, wrongly when the two extractors differ on it |
| Signatures.ClassifiedCefIff | crates/ulpf-core/src/parser/classifier.rs:38-101 | A line containing `CEF:` is classified as CEF if and only if no pattern of the table stands to the left of its first `CEF:` |
| Signatures.PairsExist | crates/ulpf-core/src/parser/lru_cache.rs:125-143 | Every line starting with `CEF:` and every line starting with `%ASA-CEF:` share the CEF bucket and classify as CEF and as Cisco |
| Signatures.WindowExact | crates/ulpf-core/src/parser/lru_cache.rs:132-136 | The signature window is the longest prefix of at most 96 bytes |
| Signatures.CiscoLineMisrouted | crates/ulpf-ai/src/pipeline.rs:302-316 | Once such a CEF line was promoted, such a Cisco line is answered by the CEF extractor |
| TieredPipelines.TieredPipeline.DispatchTriageExemplar | crates/ulpf-ai/src/pipeline.rs:342-373 | One budgeted dispatch |
| TieredPipelines.TieredPipeline.ParsePinned | crates/ulpf-ai/src/pipeline.rs:302-336 | Native, then registry with promotion, then lossless: state and answer as specified |
| TieredPipelines.TieredPipeline.TryRoute | crates/ulpf-ai/src/pipeline.rs:229-259 | Tier 1b: a route answers, or is dropped when stale, and never serves a recognised line |
| TieredPipelines.TieredPipeline.Process | crates/ulpf-ai/src/pipeline.rs:202-292 | One whole call: state and answer as specified |
| TriageProtocol.GateAccounted | crates/ulpf-ai/src/pipeline.rs:342-373 | In every interleaving no count passes eight, and the gate plus pending openings minus pending closings is the number of keys under budget modulo 2^64 |
| TriageProtocol.GateExactAtRest | crates/ulpf-ai/src/pipeline.rs:342-373 | With no dispatch between the count map and its send the gate is exact |
| TriageProtocol.GateExactIff | crates/ulpf-ai/src/pipeline.rs:342-373 | In any reachable state the gate is exact if and only if pending openings and closings are equal in number |
| TriageProtocol.ClosedGateMissesIff | crates/ulpf-ai/src/pipeline.rs:208-221 | The gate reads zero if and only if pending openings equal keys under budget plus pending closings; so some opening, of whichever key, is pending while a closed gate hides a key |
| TriageProtocol.OtherKeyClosesGate | crates/ulpf-ai/src/pipeline.rs:208-221 | A key under budget with no dispatch under way is hidden by another key whose closer overtook its opener |
| TriageProtocol.GateCanWrap | crates/ulpf-ai/src/pipeline.rs:342-373 | When the closing caller overtakes the opening one the gate reads 2^64 - 1 |
| TriageProtocol.AloneIsDispatch | crates/ulpf-ai/src/pipeline.rs:342-373 | A caller's steps with nobody in between are exactly the dispatch of the sequential model |
| TriageProtocol.DispatchesAccounted | crates/ulpf-ai/src/pipeline.rs:342-373 | The dispatch counter plus dispatches under way is the sum of all counts, tasks dropped at a full channel included |
| TriageProtocol.FlowAccounted | crates/ulpf-ai/src/pipeline.rs:112-178 | Per key: counted = on its way + sent + dropped, sent = queued + received, and onboarding consumes three received exemplars |
| TriageProtocol.OnboardingBound | crates/ulpf-ai/src/pipeline.rs:112-178 | Per key in every interleaving: 3 x onboardings + buffered <= received <= 8, so at most two onboardings, each from at least three samples |
| TriageWorker.ReceiveAndBuffer | crates/ulpf-ai/src/pipeline.rs:119-143 | The worker appends the sample up to eight, goes back to waiting below three and otherwise tries; no other buffer changes |
| TriageWorker.ThreeSamplesTry | crates/ulpf-ai/src/pipeline.rs:137-143 | Three tasks of a key with an empty buffer make it try exactly their samples, in order |
| TriageWorker.AttemptEffect | crates/ulpf-ai/src/pipeline.rs:145-176 | A success onboards once and uses the buffer up; a failure keeps it, and gives it up at eight |
| TriageWorker.TwoOnboardingsReached | crates/ulpf-ai/src/pipeline.rs:112-178 | Some run onboards a key twice, so the bound is exact |
| TriageWorker.SendDelivers | crates/ulpf-ai/src/pipeline.rs:365-372 | A send through a channel with room delivers the task, through a full one loses it |
| RouteProtocol.RoutesAccounted | crates/ulpf-ai/src/pipeline.rs:161-165 | In every interleaving the route gate plus the holder's pending change is the table size; with the lock free it equals it |
| RouteProtocol.ClosedGateMissesIff | crates/ulpf-ai/src/pipeline.rs:229-259 | A reader sees a closed gate over a non-empty table if and only if the first route's inserter has not yet adjusted the gate |
| RouteProtocol.AloneIsSequential | crates/ulpf-ai/src/pipeline.rs:326-330 | Undisturbed, an insertion installs its route and a removal takes it away, as in the sequential model |
| Csv.SplitCsv | crates/ulpf-core/src/parser/extractors/mod.rs:56-86 | The loop cuts at the commas outside quotes and finishes each field, tracking quotes on the fly |
| Csv.FinishCsvField | crates/ulpf-core/src/parser/extractors/mod.rs:91-103 | The seen-a-quote flag makes the finished field depend on the field text alone |
| Csv.ReadWrite | crates/ulpf-core/src/parser/extractors/mod.rs:56-103 | Reading back any row written as section 2 of RFC 4180 allows gives every cell's text, trimmed |
| Csv.RoundTripIff | crates/ulpf-core/src/parser/extractors/mod.rs:56-103 | The round trip is exact if and only if no cell has surrounding white space |
| Text.AsciiWhitespace | crates/ulpf-core/src/parser/extractors/mod.rs:91-103 | Among ASCII characters, trimming takes tabs, line breaks, form feeds and spaces |
| Csv.UnterminatedReads | crates/ulpf-core/src/parser/extractors/mod.rs:88-103 | A field whose quote is never closed is read to the end of the line |
| Cef.SplitCefHeader | crates/ulpf-core/src/parser/extractors/cef.rs:31-53 | The loop cuts at the first seven unescaped pipes, unescapes those fields and leaves the remainder as it stands; seven written fields and an extension come back |
| Cef.UnescapeCef | crates/ulpf-core/src/parser/extractors/cef.rs:57-76 | Fast path and loop both compute the unescaped text |
| Cef.HeaderRoundTrip | crates/ulpf-core/src/parser/extractors/cef.rs:31-76 | Any header fields and any extension, escaped and joined, read back unchanged |
| Cef.UnescapeKeepsIff | crates/ulpf-core/src/parser/extractors/cef.rs:57-76 | A text is unchanged if and only if no backslash is followed by anything |
| Cef.DocumentedIff | crates/ulpf-core/src/parser/extractors/cef.rs:57-76 | Unescaping is as documented, unknown escapes kept, if and only if every escape in the text is one of those the comment names |
| Cef.UnknownEscapeDropped | crates/ulpf-core/src/parser/extractors/cef.rs:57-76 | An escape outside the documented set loses its backslash |
| Purity.MajoritySum | crates/ulpf-ai/src/duel.rs:427-440 | The sum of majority counts is the best score any labelling of clusters reaches |
| Purity.AllCorrectIffPure | crates/ulpf-ai/src/duel.rs:427-440 | The numerator equals the line count if and only if every cluster is pure |
| Purity.SplittingNeverHurts | crates/ulpf-ai/src/duel.rs:427-440 | Refining a clustering never lowers the numerator |
| Purity.GroupingAccuracy | crates/ulpf-ai/src/duel.rs:427-440 | The figure is 0 for no lines, otherwise the best labelling score in percent of all lines, and 100 exactly when every line is clustered and every cluster pure |
| Purity.ActionViolations | crates/ulpf-ai/src/duel.rs:522-540 | Counts exactly the mixed clusters |
| Purity.MixedByWords | crates/ulpf-ai/src/duel.rs:511-540 | A cluster is mixed if and only if it holds a line with one of the seven allow words and one with one of the eight deny words, in any case of letters |

## Left out

- SHA-256 and hexadecimal text: digests are 32-byte values from a parameter.
- Masking, tokenising and syslog-tag extraction of raw lines: the miner starts from tokens and a tag.
- Floating point: similarity, thresholds and percentages are exact `real` values, so rounding is not modelled.
- The Drain prefix tree is a value that the miner object reassigns; node sharing in place is not modelled. `depth >= 2` is required because the code subtracts 2 from an unsigned depth.
- `max_clusters` has no effect in the code and none here; timestamps and anomaly rates of clusters are not modelled.
- Relaxed memory ordering: atomics are sequentially consistent steps. Counters wrap at 2^64 only in `TriageProtocol` and `RouteProtocol`; elsewhere they are unbounded.
- Poisoned locks: a panic while holding a lock is not modelled.
- GatedRefinesUngated: states sequential runs only, because with calls interleaved a reader may see the gate between a count and its update (`GateExactIff` says exactly when).
- RegistryIsLru: bounds the size by max(capacity, 1), because the code registers a parser even at capacity zero.
- The signature hash, the signature buckets other than CEF, the classifier's structural fallback and the vendor extractors are parameters.
- An activity does not carry the parse-error text or the product names of the code's event; a native activity is what its extractor found.
- Register: lower-casing of the vendor is a parameter, because it follows the Unicode tables.
- Event ids, ingest times and the digest field of an activity: they do not influence routing.
- The triage worker's classifier heads and flags: the vendor confidence is a choice of the `Skip` step, parser synthesis a choice of the `Attempt` step.
- `Csv` and `Cef` work on characters where the code works on bytes; the separators are ASCII, so no multi-byte character is ever cut.
- Template matching and F1 in the evaluation tool: easy list comparisons.
- YAML parser definitions: the reader does not undo the writer's quote escaping, so there is no round trip to prove.
- Parquet storage, sockets, the server, the command line, the traffic generator and `BrokerQueue`: input and output, or a stub.
