# VulcanizeDB: gap filling, tries, filters and queues

VulcanizeDB extracts data from Ethereum and Bitcoin nodes into Postgres and IPFS and serves it to subscribers. This
project models the parts of it that carry an argument, and proves the argument. One module each:

- `HeightRuns`: splitting height ranges into bins and run-length encoding heights, with 64-bit wrap-around.
- `GapSearch`: which heights the gap query finds, with the two SQL queries modelled as joins over a table.
- `WorkerPool`, `Resync`, `BackFill`: the dispatcher and its workers as a step relation with program counters, for one
  pass, for a list of ranges, and for passes that share a quit channel; the header table's upsert.
- `Convergence`: repeated passes over a table that nobody else writes come to an end, and with what left over.
- `StorageBackFill`: the storage backfiller's dispatcher, listener and bounded goroutines over two channels and an atomic
  counter.
- `HexPath`, `TrieWalk`: hex-prefix keys, textual paths, decoding trie nodes, and walking a stored trie.
- `Merkle`: Bitcoin's transaction tree.
- `SqlCondition`, `ReceiptQuery`, `ReceiptMeaning`: the live receipt filter, the SQL query that is to do the same, and
  what the query's text means.
- `OrderedWatcher`: the watcher's index and wait queue.
- `Registry`, `RingChannel`: the super node's subscriptions, and its channel used as a ring buffer.
- `LogExtraction`: check counts of headers and what they say about persisted logs.
- `PackedSlot`: values packed in one storage slot.
- `StorageRetry`: the storage watcher and its retry queue.
- `Seqs`: sequences and bags used by the others.

Goroutines are modelled as relations or functions on states, one step a channel operation (a send on an unbuffered
channel and its receive are one step), and results about them hold for every schedule. Operations that run under a lock,
or that only one goroutine calls, are methods of a class, proved against a function on the class's abstract state; the
results about runs are about that function. Database and network calls are parameters that say what was answered and
whether the call worked.

Where code and comments disagree the code is followed:

- The watcher's queue table is created as `queue_data` but used as `queued_data`, and the conflict clause of `QueueData`
  is not valid SQL (db/migrations/00024_create_eth_queued_data_table.sql, pkg/watcher/eth/repository.go:78-83). The
  model is the upsert that is meant.
- A negative end of range is documented as endless, but the comparison then stops the watcher as soon as it has handed on
  a payload, however many it has queued (pkg/watcher/service.go:101, 137, 172).
- `LogExtractor` uses a repository of watched logs that `NewEventWatcher` does not set and of which the repository holds
  only the interface (pkg/eth/datastore/repository.go:43-46). The model is that interface's evident contract: pairs of
  address and topic are recorded, and a config is watched if all its pairs are.

## Model

| member | source | states |
|---|---|---|
| `HeightRuns.FillBin` | libraries/shared/utilities/utils.go:42-45 | the inner loop collects exactly the heights from the bin's start up to the next bin or the end of the range, even where the 64-bit sum has wrapped |
| `HeightRuns.GetBlockHeightBins` | libraries/shared/utilities/utils.go:26-50 | errors for a reversed range and a zero batch size; otherwise the bins of `BlockHeightBins`, including what 64-bit wrap-around does to them |
| `HeightRuns.RefusedIff` | libraries/shared/utilities/utils.go:26-33 | a reversed range is refused whatever the batch size, then a zero batch size, and nothing else |
| `HeightRuns.FullRangeNoBins` | libraries/shared/utilities/utils.go:33-39 | the one range of 2^64 heights gets no bins, because its length wraps to zero |
| `HeightRuns.BinShape` | libraries/shared/utilities/utils.go:33-49 | if no bin boundary wraps there are ceil(length / batch) bins, all but the last are full and none is empty |
| `HeightRuns.BinsCoverIff` | libraries/shared/utilities/utils.go:26-50 | concatenating the bins gives start..end if and only if no bin boundary reaches 2^64 |
| `HeightRuns.EmptyBinIff` | libraries/shared/utilities/utils.go:40-49 | some bin is empty, which makes a worker that receives it panic, if and only if the last boundary wraps and bins were allocated at all |
| `HeightRuns.MissingHeightsToGaps` | libraries/shared/utilities/utils.go:53-77 | the loop computes the runs of the list, except that a one-element list gives no gap |
| `HeightRuns.GapsRoundTripIff` | libraries/shared/utilities/utils.go:53-77 | expanding the gaps gives the list back if and only if it has not exactly one element and nowhere steps from 2^64-1 to 0 |
| `HeightRuns.SortedGapsRoundTrip` | libraries/shared/utilities/utils.go:53-77 | for a sorted list only the singleton is lost |
| `HeightRuns.GapsMaximal` | libraries/shared/utilities/utils.go:53-77 | for a strictly increasing list the gaps are nonempty and separated by a missing height |
| `HeightRuns.MaximalOrdered` | libraries/shared/utilities/utils.go:53-77 | maximal gaps lie wholly one after the other |
| `HeightRuns.MaximalGapsReencode` | libraries/shared/utilities/utils.go:53-77 | encoding the heights of maximal gaps returns the gaps if and only if they hold more or fewer than one height |
| `GapSearch.GroupMeaning` | pkg/super_node/eth/cid_retriever.go:461-465 | the grouped double LEFT JOIN has a group for exactly the heights that are present, not last, and without a successor, however many headers share a height |
| `GapSearch.GapRowsMeaning` | pkg/super_node/eth/cid_retriever.go:461-465 | its rows are exactly the gaps that open after such a height and end before the next present one |
| `GapSearch.RetrieveGapsInData` | pkg/super_node/eth/cid_retriever.go:445-490 | initial gap, then the query's gaps, then the gaps of the under-validated heights; an error on an empty table |
| `GapSearch.AbsentGapsCover` | pkg/super_node/eth/cid_retriever.go:451-479 | the initial gap and the query's gaps cover exactly the heights of [0, last] without a header |
| `GapSearch.AbsentGapsDisjoint` | pkg/super_node/eth/cid_retriever.go:451-479 | no height lies in two of them |
| `GapSearch.AbsentHeightsDistinct` | pkg/super_node/eth/cid_retriever.go:451-479 | so their expansion lists every absent height once |
| `GapSearch.ValidationGapsExact` | pkg/super_node/eth/cid_retriever.go:481-490 | the validation gaps hold exactly the present heights below the level, unless there is just one such row |
| `GapSearch.LevelAnswerRows` | pkg/super_node/eth/cid_retriever.go:481-490 | the validation query lists a height once for each of its rows below the level, so two rows of one height count as two |
| `GapSearch.GapSetExact` | pkg/super_node/eth/cid_retriever.go:445-490 | the absent part holds exactly the heights of [0, last] without a header, the under-validated part exactly the heights below the level unless there is just one such row, and they never overlap |
| `WorkerPool.ReachedInv` | pkg/super_node/resync/service.go:128-184 | in every state any interleaving reaches: bins sent, bins in hand, bins finished and heights processed agree with the workers' program counters |
| `WorkerPool.Drained` | pkg/super_node/resync/service.go:128-154 | when the dispatcher has returned, all workers have exited, each bin was taken by one worker and finished exactly once, and the processed heights are those of all bins with their multiplicity |
| `WorkerPool.NeverStuck` | pkg/super_node/resync/service.go:143-184 | the handshakes cannot deadlock: with at least one worker some step is possible until the dispatcher returns or a worker panics at an empty bin, whether or not publishing and indexing fail |
| `WorkerPool.EndsCrashedIff` | pkg/super_node/resync/service.go:156-160 | a schedule that cannot go on has ended in the panic if some bin is empty, and by returning if none is |
| `WorkerPool.CompletePass` | pkg/super_node/resync/service.go:128-184 | without empty bins some schedule gets through the pass with nothing failing, and some gets through it with nothing indexed |
| `WorkerPool.SchedulesEndReturned` | pkg/super_node/resync/service.go:128-184 | every schedule ends, and those that return are exactly those with the full number of steps, which does not depend on the schedule |
| `WorkerPool.AlwaysReturnsIff` | pkg/super_node/resync/service.go:128-184 | returning is certain if and only if no bin is empty and there is a worker or nothing to do |
| `Resync.PlanRanges` | pkg/super_node/resync/service.go:133-147 | reversed ranges are skipped, a rejected one ends the loop with its error, otherwise the bins of all ranges in order |
| `Resync.PlanFailsIff` | pkg/super_node/resync/service.go:133-147 | the early return, which leaves the workers running, happens if and only if the batch size is zero and some range is not reversed |
| `Resync.PlanSucceeds` | pkg/super_node/resync/service.go:89-96 | with the constructor's defaults it never happens |
| `Resync.PlanCovers` | pkg/super_node/resync/service.go:133-147 | the bins sent are, concatenated, the heights of all ranges in order, and none is empty |
| `Resync.ResyncDrains` | pkg/super_node/resync/service.go:115-184 | when Resync returns nil, its workers are gone, every bin was finished once, and every height of every range was processed once per range that holds it |
| `Resync.ResyncReturnsIff` | pkg/super_node/resync/service.go:89-154 | Resync is certain to return, whatever fails, if and only if the configured batch number is below 2^63 or there is no height to resync: a larger one is a negative number of workers |
| `BackFill.ServiceReachedInv` | pkg/super_node/backfiller.go:116-205 | over any number of passes, all passes but the last have returned and every pool keeps its invariant, although the quit channel is shared |
| `BackFill.NoStrayQuit` | pkg/super_node/backfiller.go:156-160 | a quit signal is never received by a worker of an earlier pass |
| `BackFill.NoWorkerAtRetrieval` | pkg/super_node/backfiller.go:126-160 | whenever the gaps are retrieved no worker of an earlier pass is alive and all its bins were finished exactly once |
| `BackFill.HeaderCids.IndexHeaderCID` | pkg/super_node/eth/indexer.go:91-100 | the upsert inserts a header validated once, or counts one more validation, by (height, hash) |
| `BackFill.UpsertRows` | pkg/super_node/eth/indexer.go:91-100 | on any table with unique keys: the row of that height and hash counts one validation more, or is new with one; no other row, of that height or another, appears, disappears or changes; keys stay unique |
| `BackFill.IndexedRows` | pkg/super_node/eth/indexer.go:91-100 | in every run the table has one row for each height and hash indexed, validated as often as it was indexed |
| `BackFill.UpsertTimes` | pkg/super_node/eth/indexer.go:91-100 | indexing a served header adds one validation at its height, changes no other height, and keeps one header a height |
| `BackFill.IndexAllTimes` | pkg/super_node/eth/indexer.go:91-100 | indexing a list adds to each height its multiplicity in the list, whatever the order |
| `BackFill.PlanPass` | pkg/super_node/backfiller.go:139-155 | the bins of all gaps in order, a rejected gap being skipped |
| `BackFill.RejectedGapSkipped` | pkg/super_node/backfiller.go:143-148 | a rejected gap does not end the pass: the gaps before and after it are planned as if it were not there |
| `BackFill.PassPlanCovers` | pkg/super_node/backfiller.go:139-155 | concatenated they are the heights of the gaps, and none is empty |
| `Convergence.PassIndexes` | pkg/super_node/backfiller.go:126-160 | a pass, on any schedule, re-indexes exactly the heights of its gaps, each as often as it is listed |
| `Convergence.PassEffect` | pkg/super_node/backfiller.go:126-160 | after a pass no height up to the last is absent and every gap height has gained exactly one validation; nothing else changed |
| `Convergence.PassDecreases` | pkg/super_node/backfiller.go:126-160 | a pass with a nonempty gap list strictly decreases (absent heights) + (validations still missing) |
| `Convergence.PassesEnd` | pkg/super_node/backfiller.go:116-165 | so at most that many passes in a row find gaps, however they are scheduled |
| `Convergence.NothingFoundIff` | pkg/super_node/eth/cid_retriever.go:445-490 | the search finds nothing if and only if no height up to the last is absent and at most one row is below the level |
| `Convergence.PassExists` | pkg/super_node/backfiller.go:126-160 | whatever the table, with a worker a pass over it is possible |
| `Convergence.FilledIff` | pkg/super_node/backfiller.go:126-160 | a pass that finds gaps is possible if and only if some height up to the last is absent or two rows are below the level |
| `Convergence.Converges` | pkg/super_node/backfiller.go:116-165 | end to end: however the passes are scheduled, each that finds gaps uses up the measure, and they can go on finding gaps exactly until nothing up to the last height is absent and at most one row is below the level |
| `Convergence.LoneHeaderNeverRevalidated` | libraries/shared/utilities/utils.go:61-77 | in any table without absent heights and with exactly one row below the level no search finds that row, and a pass changes nothing |
| `StorageBackFill.ReachedBound` | libraries/shared/storage/backfiller.go:71-112 | in every interleaving the counter equals the launched and not yet decremented goroutines plus the one being launched |
| `StorageBackFill.WorkerBound` | libraries/shared/storage/backfiller.go:71-112 | with receive, decrement and signal as separate steps at most `defaultMaxBatchNumber` + 1 range workers run |
| `StorageBackFill.StaleSignalReleasesOneMore` | libraries/shared/storage/backfiller.go:97-103 | a stale signal does release that one extra worker, whenever there are two more bins than the limit and one of the first ten can complete |
| `StorageBackFill.LimitHolds` | libraries/shared/storage/backfiller.go:71-112 | with at most one bin more than the limit, or none that can complete among the first ten, it never does |
| `StorageBackFill.LimitHoldsIff` | libraries/shared/storage/backfiller.go:71-112 | so the limit holds on every interleaving if and only if there are at most `defaultMaxBatchNumber` + 1 bins or the first `defaultMaxBatchNumber` are all empty |
| `StorageBackFill.RangeWithinLimitIff` | libraries/shared/storage/backfiller.go:63-112 | for the bins of a range their number alone decides |
| `StorageBackFill.AtomicWorkerBound` | libraries/shared/storage/backfiller.go:71-112 | were the listener's arm atomic, never more than `defaultMaxBatchNumber` would run |
| `StorageBackFill.DoneMeansComplete` | libraries/shared/storage/backfiller.go:63-149 | done is sent at most once, and only when every bin has been fetched and received exactly once, so the heights fetched are those of all bins |
| `StorageBackFill.DoneMeansRange` | libraries/shared/storage/backfiller.go:63-149 | for the bins of start..end these are the heights of the range, each once |
| `StorageBackFill.LostWakeup` | libraries/shared/storage/backfiller.go:82-103 | with more bins than the limit, none of the first ten empty, some interleaving loses every signal and leaves the dispatcher blocked with no step possible and done unsent |
| `StorageBackFill.StuckIsBlocked` | libraries/shared/storage/backfiller.go:78-151 | a schedule that cannot go on, without a panic at an empty bin and without done, has its dispatcher blocked and every launched goroutine's completion received |
| `StorageBackFill.SmallNeverStuck` | libraries/shared/storage/backfiller.go:78-151 | with bins, but no more than the limit, no interleaving is stuck before done has been sent or a goroutine has panicked at an empty bin |
| `StorageBackFill.CanStickIff` | libraries/shared/storage/backfiller.go:78-151 | some interleaving sticks, with neither done nor a panic, if and only if there are no bins, or more than the limit and none of the first ten empty |
| `StorageBackFill.SchedulesEnd` | libraries/shared/storage/backfiller.go:78-151 | no schedule is longer than 12 steps a bin and 7 more |
| `StorageBackFill.SmallEnds` | libraries/shared/storage/backfiller.go:63-151 | with bins, but no more than the limit, every schedule ends: in the panic if some bin is empty, with done sent once if none is |
| `StorageBackFill.AlwaysSendsDoneIff` | libraries/shared/storage/backfiller.go:63-151 | liveness, exactly: every schedule that cannot go on has sent done if and only if there are bins, no more than the limit, and none is empty |
| `StorageBackFill.AlwaysCrashesIff` | libraries/shared/storage/backfiller.go:78-151 | every schedule that cannot go on has panicked if and only if one of the first ten bins is empty |
| `StorageBackFill.RangeSendsDoneIff` | libraries/shared/storage/backfiller.go:63-151 | for a range: done is always sent if and only if no bin boundary wraps and there are no more bins than the limit |
| `HexPath.NibbleToByte` | pkg/ipfs/ipld/trie_node.go:316-325 | the loop lists each byte's high and then its low nibble |
| `HexPath.ExpandedPacked` | pkg/ipfs/ipld/trie_node.go:316-325 | expanding packed nibbles gives them back |
| `HexPath.PackedExpanded` | pkg/ipfs/ipld/trie_node.go:316-325 | packing expanded bytes gives them back |
| `HexPath.DecodeEncode` | pkg/ipfs/ipld/trie_node.go:99-127 | decodeCompactKey inverts the hex-prefix encoding (Appendix C of the Ethereum Yellow Paper) for every nibble sequence and both kinds |
| `HexPath.EncodeDecodeIff` | pkg/ipfs/ipld/trie_node.go:99-127 | exactly the keys whose first byte is 64 or more are rejected; encoding a decoded key gives it back with the nibble next to an even flag cleared, so unchanged if and only if that nibble was zero |
| `HexPath.RuneLenLeast` | pkg/ipfs/ipld/trie_node.go:404-426 | a character counts as the least number of bytes UTF-8 needs for it |
| `HexPath.TakenIndex` | pkg/ipfs/ipld/trie_node.go:404-426 | a character is taken if and only if fewer than i bytes come before it |
| `HexPath.ShiftElement` | pkg/ipfs/ipld/trie_node.go:411-418 | the inner loop: what is taken from one path element and what is left of it, counting bytes of the result as Go does |
| `HexPath.ShiftFromPath` | pkg/ipfs/ipld/trie_node.go:404-426 | the loops compute the first characters until i bytes are there, and the rest only if they are exactly i bytes |
| `HexPath.ShiftConservesIff` | pkg/ipfs/ipld/trie_node.go:404-426 | out + concat(rest) = concat(p) if and only if some prefix of the path has exactly i bytes or everything is taken; rest has no empty element |
| `HexPath.ShiftAsciiAll` | pkg/ipfs/ipld/trie_node.go:404-426 | for single-byte characters out is the first min(i, len) characters and nothing is lost |
| `HexPath.DroppedFlatten` | pkg/ipfs/ipld/trie_node.go:410-423 | the rest, concatenated, is the path without the characters taken, and no element of it is empty |
| `HexPath.DroppedAgain` | pkg/ipfs/ipld/trie_node.go:410-423 | shifting twice leaves the same rest as shifting once by the sum |
| `HexPath.DroppedAligned` | pkg/ipfs/ipld/trie_node.go:410-423 | if the characters taken end with a path element, the rest is the elements after it |
| `HexPath.HexIndexIff` | pkg/ipfs/ipld/trie_node.go:430-444 | getHexIndex of a string is n exactly if the string is n printed as one lowercase hexadecimal digit |
| `TrieWalk.ParseTrieNodeBranch` | pkg/ipfs/ipld/trie_node.go:138-160 | the loop stops at the first entry that is no byte string or has neither 0 nor 32 bytes, and names its position |
| `TrieWalk.DecodeOutcome` | pkg/ipfs/ipld/trie_node.go:51-160 | for every block: which of the errors with which position, the panic, or which kind of node decoding gives, each if and only if the block is of the stated shape |
| `TrieWalk.ChildrenIff` | pkg/ipfs/ipld/trie_node.go:138-160 | a branch decodes if and only if every entry is empty or 32 bytes, and then entry by entry |
| `TrieWalk.MatchNibbles` | pkg/ipfs/ipld/trie_node.go:328-348 | the comparison loops of extensions and leaves, with their three errors in order |
| `TrieWalk.MatchedSpelled` | pkg/ipfs/ipld/trie_node.go:328-379 | on a path that spells a key, a node's nibbles match exactly if they begin the key |
| `TrieWalk.MatchedIff` | pkg/ipfs/ipld/trie_node.go:328-379 | on every path: nibbles match if and only if the path begins with their digits; too few bytes, a character that is no digit, and other digits are the three errors, each if and only if |
| `TrieWalk.ExtensionIff` | pkg/ipfs/ipld/trie_node.go:328-348 | resolving any path at an extension: the link and the rest, or which error |
| `TrieWalk.LeafIff` | pkg/ipfs/ipld/trie_node.go:350-379 | resolving any path at a leaf: the value and the rest, or which error |
| `TrieWalk.BranchIff` | pkg/ipfs/ipld/trie_node.go:382-394 | resolving any path at a branch: the first character picks the child, or is refused if it is missing or no hexadecimal digit |
| `TrieWalk.DecodeLeaf` | pkg/ipfs/ipld/trie_node.go:51-96 | a stored leaf decodes to its nibbles and value, or to a node without elements if the value does not decode |
| `TrieWalk.DecodeExtension` | pkg/ipfs/ipld/trie_node.go:51-96 | a stored extension decodes to its nibbles and the identifier of its child |
| `TrieWalk.DecodeBranch` | pkg/ipfs/ipld/trie_node.go:51-96 | a stored branch decodes to the identifiers of its children |
| `TrieWalk.BranchStep` | pkg/ipfs/ipld/trie_node.go:382-394 | at a branch the key's first nibble picks the child |
| `TrieWalk.WalkFinds` | pkg/ipfs/ipld/trie_node.go:166-394 | resolving along a key's digits, split over path elements in any way, reaches exactly that key's leaf and hands its value the rest of the path (Appendix D of the Ethereum Yellow Paper); for plain-bytes leaves it ends in their error |
| `TrieWalk.WalkMisses` | pkg/ipfs/ipld/trie_node.go:166-394 | resolving along an absent key of the right length ends in the no-such-link error, or in a panic exactly if the leaf it ends in does not decode |
| `TrieWalk.WalkIff` | pkg/ipfs/ipld/trie_node.go:166-394 | the walk agrees with the map, for every leaf decoder: it returns an IPLD value, refuses plain bytes, panics, or finds no link, each if and only if the trie's entry or missing entry for the key says so |
| `TrieWalk.AnyPathIff` | pkg/ipfs/ipld/trie_node.go:166-394 | on every path, whether it spells a key or not: the walk returns a value if and only if the path begins with the digits of a key of the trie that has it, and ends nowhere else with success |
| `TrieWalk.NodesWalkIff` | pkg/ipfs/ipld/trie_node.go:166-394 | in state, transaction and receipt tries it returns a value if and only if the trie has that entry |
| `TrieWalk.LeftAligned` | pkg/ipfs/ipld/trie_node.go:404-426 | when the digits end with a path element the value gets exactly the remaining elements |
| `TrieWalk.UndecodedLeafPanics` | pkg/ipfs/ipld/trie_node.go:71-95 | because the leaf decoder's error is ignored, resolving on such a leaf panics, whatever the path; on other leaves it never does |
| `Merkle.RawData` | pkg/ipfs/ipld/btc_tx_trie.go:45-54 | the 64-byte buffer holds the left digest and then the right one |
| `Merkle.NodeHash` | pkg/ipfs/ipld/btc_tx_trie.go:36-54 | the identifier of an inner node carries the tree's hash at its position |
| `Merkle.CidFormat` | pkg/ipfs/ipld/btc_tx_trie.go:36-54 | identifiers have codec 0xb1 and a multihash of code 0x56, length 32 and the digest |
| `Merkle.MkLayer` | pkg/ipfs/ipld/btc_parser.go:55-67 | the inner loop builds the next layer and appends its nodes |
| `Merkle.MkMerkleTree` | pkg/ipfs/ipld/btc_parser.go:44-73 | the nodes returned are those of the recursive duplicate-last tree, layer by layer |
| `Merkle.LastIsRoot` | pkg/ipfs/ipld/btc_parser.go:44-73 | for two or more transactions the last node's identifier carries the recursive Merkle root |
| `Merkle.LinksLeadBack` | pkg/ipfs/ipld/btc_parser.go:59-65 | both links of every node lead to a transaction or to a node before it |
| `Merkle.EveryTxProved` | pkg/ipfs/ipld/btc_parser.go:44-73 | every transaction has an inclusion proof: its hash, index and siblings recompute the root |
| `Merkle.RootDetermines` | pkg/ipfs/ipld/btc_parser.go:44-73 | the root commits to the list: two different lists of equal length with one root yield a collision of the hash on 64-byte inputs |
| `Merkle.OddRepeats` | pkg/ipfs/ipld/btc_parser.go:52-54 | an odd list of three or more and the list with its last transaction repeated have the same root |
| `Merkle.OutCount` | pkg/ipfs/ipld/btc_parser.go:44-73 | n-1 nodes and one more for each odd layer: between n-1 and n-1+ceil(log2 n) |
| `ReceiptQuery.SlicesShareString` | pkg/super_node/eth/filterer.go:248-257 | 1 if the slices share a string, else 0 |
| `ReceiptQuery.FilterMatch` | pkg/super_node/eth/filterer.go:229-245 | the counter reaches 4 exactly if every slot with wanted topics has one of them |
| `ReceiptQuery.CheckReceipts` | pkg/super_node/eth/filterer.go:196-226 | the early returns amount to: a wanted transaction, or matching topics and, if any address is wanted, a log of one |
| `ReceiptQuery.HasTopics` | pkg/super_node/eth/cid_retriever.go:376-383 | whether any slot, also beyond the fourth, has a topic |
| `ReceiptQuery.AppendTopics` | pkg/super_node/eth/cid_retriever.go:229-244 | the loop over topic slots appends text, arguments and placeholder numbers for the first four |
| `ReceiptQuery.AppendFilter` | pkg/super_node/eth/cid_retriever.go:222-282 | the branches that build the filter's part of the WHERE clause and its arguments; the two queries share this code word for word |
| `ReceiptQuery.RetrieveRctCIDsByHeaderID` | pkg/super_node/eth/cid_retriever.go:210-286 | the whole text and argument list for a header id |
| `ReceiptQuery.RetrieveRctCIDs` | pkg/super_node/eth/cid_retriever.go:290-374 | the whole text and argument list for a block number and hash, either of which may be missing |
| `SqlCondition.ParsePrinted` | pkg/super_node/eth/cid_retriever.go:210-286 | parsing a printed condition, AND binding tighter than OR, gives it back, so the text has one meaning |
| `ReceiptMeaning.QueryParsed` | pkg/super_node/eth/cid_retriever.go:210-286 | the text parses, as the intended condition, unless all wanted topics are beyond the fourth slot |
| `ReceiptMeaning.LateTopicsRejected` | pkg/super_node/eth/cid_retriever.go:229-244 | in that case it contains empty parentheses and is no condition at all |
| `ReceiptMeaning.PlaceholdersCount` | pkg/super_node/eth/cid_retriever.go:210-286 | the placeholders are $1, $2, ... in order, exactly as many as arguments |
| `ReceiptMeaning.QueryMeans` | pkg/super_node/eth/cid_retriever.go:210-286 | with every placeholder bound to its argument and NULL columns unknown, the rows kept are those of the place that the filter wants |
| `ReceiptMeaning.AgreeIff` | pkg/super_node/eth/filterer.go:196-245 | query and live filter agree on a receipt except exactly when no address and no topic is wanted, transactions are matched, some are, and it is not of one of them |
| `OrderedWatcher.Repository.QueueData` | pkg/watcher/eth/repository.go:78-83 | a payload takes the place of a queued one of its height |
| `OrderedWatcher.Repository.GetQueueData` | pkg/watcher/eth/repository.go:90-115 | the row of a height is returned and deleted, with the next height; the delete counter wraps at the vacuum threshold |
| `OrderedWatcher.Service.OnPayload` | pkg/watcher/service.go:123-147 | a payload at the index is handed on and the index moves; any other is queued; one with an error is dropped |
| `OrderedWatcher.Service.OnTick` | pkg/watcher/service.go:164-177 | the payload queued at the index, if there is one, is handed on and the index moves |
| `OrderedWatcher.ReadiedInOrder` | pkg/watcher/service.go:116-184 | in every run the heights handed on are start, start+1, ..., index-1 |
| `OrderedWatcher.HandedOnCount` | pkg/watcher/service.go:116-184 | in every run one payload is handed on for each payload without error at the index and each tick that reads a queued one, and none otherwise |
| `OrderedWatcher.InSequenceAtOnce` | pkg/watcher/service.go:123-147 | payloads that come in the order of their heights are handed on at once, whatever errors and ticks come between, and never queued |
| `OrderedWatcher.NothingLost` | pkg/watcher/service.go:116-184 | every payload received without error is, counted with multiplicity, handed on, queued, overwritten by a later one of its height, or one whose queueing failed |
| `OrderedWatcher.Drains` | pkg/watcher/service.go:116-184 | any arrival order of the distinct heights from start on, with any ticks between, drains to the sorted sequence with the right data within as many further ticks as heights |
| `Registry.Service.OnSubscribe` | pkg/super_node/service.go:335-376 | adds the subscription and its settings under the settings' hash, unless the chain differs or only historical data is wanted |
| `Registry.Service.OnUnsubscribe` | pkg/super_node/service.go:450-462 | removes the id under every type, and the types left without a subscription |
| `Registry.Service.CloseType` | pkg/super_node/service.go:513-521 | removes a type from both maps |
| `Registry.Service.OnClose` | pkg/super_node/service.go:500-509 | empties both maps |
| `Registry.Service.FilterAndServe` | pkg/super_node/service.go:291-331 | closes expired types and those whose filter fails, sends each other type's response to its subscriptions with room; the missing-configuration branch is unreachable |
| `Registry.StepConsistent` | pkg/super_node/service.go:291-331 | every operation keeps the two maps' domains equal, with no type left without a subscription |
| `Registry.ExpiredOnlyIfResubscribed` | pkg/super_node/service.go:291-376 | in every run a type that is there with 0 < end < a height served earlier has been subscribed to again since; serving that height had removed it |
| `Registry.EachAlone` | pkg/super_node/service.go:291-376 | in every run each subscriber is treated as if it were the only one |
| `Registry.StreamInOrder` | pkg/super_node/service.go:291-376 | in every run of the registry, each subscriber's live stream is an in-order subsequence of its filter applied to the payloads since it joined, and all of that if its channel always had room |
| `Registry.ThereIff` | pkg/super_node/service.go:291-521 | in every run a subscriber is there if and only if it has joined and since then neither unsubscribed nor seen the service close, a payload above its ending block, or a failure of its filter |
| `Registry.ReceivesToTheEnd` | pkg/super_node/service.go:291-376 | with room in its channel it receives every response from joining up to and including its ending block |
| `RingChannel.Conserved` | pkg/super_node/service.go:223-230 | in every interleaving the payloads are, in order, those consumed or dropped, then at most `PayloadChanBufferSize` buffered, then possibly one in the producer's hands |
| `RingChannel.RemovedByActions` | pkg/super_node/service.go:223-230 | what left the channel was dropped by the producer's receives and consumed by the workers', one each, in their order |
| `RingChannel.StuckIff` | pkg/super_node/service.go:223-230 | the send after a drop never waits; nothing can happen any more exactly when the producer waits to drop from an empty channel |
| `RingChannel.BlocksForGood` | pkg/super_node/service.go:223-230 | an interleaving that gets there: the workers empty the channel between the producer's two operations |
| `RingChannel.NeverStuckIff` | pkg/super_node/service.go:223-230 | a run never gets there if and only if, each time the producer finds the channel full, it drops from it before the workers have received `PayloadChanBufferSize` payloads |
| `LogExtraction.LogExtractor.UpdateCheckedHeaders` | libraries/shared/logs/extractor.go:138-154 | headers from the starting block on are unchecked and the pairs marked watched only if not all are watched already, each call possibly failing |
| `LogExtraction.ConfigUnchecks` | libraries/shared/logs/extractor.go:138-154 | exactly the headers at or above the config's starting block are unchecked, if one of its pairs is new and the first two calls work |
| `LogExtraction.ConfigWatches` | libraries/shared/logs/extractor.go:138-154 | exactly its pairs become watched, if all three calls work |
| `LogExtraction.LogExtractor.AddTransformerConfig` | libraries/shared/logs/extractor.go:54-70 | addresses and topic are added and the earliest starting block kept, only if that worked |
| `LogExtraction.HoldsAccepted` | libraries/shared/logs/extractor.go:54-70 | in every run the extractor holds exactly the addresses and topics of the configs accepted since the last restart, and starts at the least of their starting blocks |
| `LogExtraction.LogExtractor.ExtractLogs` | libraries/shared/logs/extractor.go:73-117 | which error is returned and how far it got, for every number of calls that work: headers are handled one after the other, and only a failed marking leaves one with its logs persisted but not marked |
| `LogExtraction.CallsCounted` | libraries/shared/logs/extractor.go:89-115 | two calls a header and two more for each header with logs |
| `LogExtraction.ExtractEffect` | libraries/shared/logs/extractor.go:89-115 | an extraction persists the logs of its headers with a held address and a held topic and nothing else, and counts one check for each header handled completely |
| `LogExtraction.NeverAboveCap` | libraries/shared/logs/extractor.go:73-136 | in every run no header is checked more often than the recheck cap |
| `LogExtraction.NeverBelow` | libraries/shared/logs/extractor.go:73-136 | and none below the starting blocks of all configs accepted so far is checked at all |
| `LogExtraction.ConfigComplete` | libraries/shared/logs/extractor.go:138-154 | watching more pairs never leaves a checked header without logs it should have |
| `LogExtraction.ExtractComplete` | libraries/shared/logs/extractor.go:89-115 | neither does an extraction, wherever it stops, if the extractor holds, for each header with check count 0, every pair watched from its block or an earlier one |
| `LogExtraction.KeepsIff` | libraries/shared/logs/extractor.go:73-117 | that condition is exact: without it some chain's logs make the extraction check a header that lacks one |
| `LogExtraction.ExtractRepairs` | libraries/shared/logs/extractor.go:89-115 | extracting a header while its pairs are held completes it, even if it had been checked too early |
| `LogExtraction.CheckedIsComplete` | libraries/shared/logs/extractor.go:54-154 | in every run, with any call failing, a header with check count of at least 1 has all logs of the pairs first watched at or below its block, given that each header is checked for the first time with the condition of `KeepsIff` |
| `LogExtraction.AllExtracted` | libraries/shared/logs/extractor.go:73-117 | an extraction without failures leaves every header at or above the starting block of any config accepted since the last restart checked and complete |
| `LogExtraction.TooEarly` | libraries/shared/logs/extractor.go:73-117 | a run without that condition: a restart leaves a checked header without a watched log, until it is rechecked, which restores it, or unchecked |
| `PackedSlot.DecodePackedSlot` | libraries/shared/storage/utils/decoder.go:58-82 | panics if and only if the positions 0..n-1 are not all present with types that can be packed or do not fit; otherwise each position is decoded from its own bytes, lowest position at the low-order end |
| `PackedSlot.DecodableIff` | libraries/shared/storage/utils/decoder.go:58-93 | it does not panic exactly if the positions have no hole, hold only uint48, uint128 and addresses, and need no more than the slot's bits |
| `PackedSlot.DecodePacked` | libraries/shared/storage/utils/decoder.go:58-93 | decoding a slot packed low-order first, with anything above, gives back every value below 2^48, 2^128 or 2^160, integers as text and addresses as 20 bytes |
| `PackedSlot.ItemsAreTheWord` | libraries/shared/storage/utils/decoder.go:58-82 | the sum of value * 256^offset over the items is the word modulo 256^(total size) |
| `PackedSlot.DecimalNumber` | libraries/shared/storage/utils/decoder.go:49-52 | the decimal text of a number has only digits, no leading zero, and reads back as the number |
| `StorageRetry.StorageWatcher.CreateStorageDiff` | libraries/shared/watcher/storage_watcher.go:116-126 | a new diff gets the next id, one that is there already is reported as a duplicate |
| `StorageRetry.StorageWatcher.ProcessRow` | libraries/shared/watcher/storage_watcher.go:116-142 | duplicates and unwatched diffs are passed over; others are transformed, or queued if that fails; one that could not be persisted is attempted all the same |
| `StorageRetry.StorageWatcher.ProcessQueue` | libraries/shared/watcher/storage_watcher.go:144-167 | each queued diff is retried; done or unwatched ones are deleted if the deletion works |
| `StorageRetry.RunSound` | libraries/shared/watcher/storage_watcher.go:116-167 | in every run the queue refers to persisted diffs and no two of those are alike |
| `StorageRetry.PersistedIff` | libraries/shared/watcher/storage_watcher.go:116-126 | in every run exactly the diffs that came with a working insertion are persisted |
| `StorageRetry.ExactlyOnceOrQueued` | libraries/shared/watcher/storage_watcher.go:116-167 | while database calls work a persisted diff has been transformed exactly once or is queued, never both, or was passed over for being unwatched |
| `StorageRetry.WatchedNotLost` | libraries/shared/watcher/storage_watcher.go:116-167 | of an address watched all along no diff is lost: it is done or queued |
| `StorageRetry.NoUnwatchedQueued` | libraries/shared/watcher/storage_watcher.go:144-160 | after the queue has been processed it holds no unwatched diff |
| `StorageRetry.AtLeastOnceOrQueued` | libraries/shared/watcher/storage_watcher.go:116-167 | whichever calls fail, a persisted diff that was watched when it came has been transformed at least once or is queued, unless queueing it failed or it was discarded as unwatched |
| `StorageRetry.AtMostOnceIff` | libraries/shared/watcher/storage_watcher.go:144-167 | whichever other calls fail, a persisted diff is, under its id, never queued once transformed, and transformed at most once, if and only if each time it is retried successfully deleting it works |
| `StorageRetry.RunsByContent` | libraries/shared/watcher/storage_watcher.go:116-167 | in every run, whichever calls fail: counted by content, a diff is transformed as often as under the id it is persisted with, plus once for each time it came as a row whose insertion failed and was transformed all the same |
| `StorageRetry.BareCounted` | libraries/shared/watcher/storage_watcher.go:116-142 | in every run transformers have worked without a persisted diff exactly as often as a row came whose insertion failed, whose address was watched and whose transformer worked |
| `StorageRetry.AtMostOnceByContent` | libraries/shared/watcher/storage_watcher.go:116-167 | so a diff whose deletions work is transformed at most once beside those unpersisted copies |
| `StorageRetry.RunsAgain` | libraries/shared/watcher/storage_watcher.go:144-160 | a queued diff that is retried successfully is transformed once more, whether or not it had been before |
| `StorageRetry.TransformedTwice` | libraries/shared/watcher/storage_watcher.go:155-167 | a run in which one failed deletion makes a diff run twice |

## Left out

- RetrieveGapsInData: the database's answers are given, in any order the query leaves open; the transaction around the
  queries and other database errors are not modelled.
- GetBlockHeightBins: the allocation of a bin's slice, which can panic for a huge or wrapped batch size.
- Convergence: holds for a fixed last height, one header a height, and passes in which fetching, publishing and
  indexing succeed; the bound is then also one on the heights plus the batch size, which must stay below 2^64.
- WorkerPool, StorageBackFill: what happens after a panic, which ends the program; the contents of payloads; a worker's conversion errors lead to the same steps as success.
- BackFill: `Stop` and closing the quit channel while a pass runs.
- StorageBackFill: fetch errors and the diffs' contents go to channels that are not part of the state, and are taken to
  be received.
- TrieWalk: RLP and Keccak are abstract, a block is what RLP decodes it to; `TrieNode.Tree`, `Links` and `MarshalJSON`;
  what a leaf's value does with the path it is handed; extensions without nibbles and values at branches, which tries
  with keys of one length do not have.
- HexPath: strings are sequences of characters, so path elements that are not valid UTF-8 are not covered.
- Merkle: double SHA-256 is a parameter; the header node and the transactions' own identifiers.
- ReceiptQuery: text is a sequence of tokens; that the hashes given to the live filter and the ids given to the query
  name the same transactions is assumed; RLP encoding of the receipts kept.
- The transaction filters: live it is an OR over source and destination, in SQL an AND, so there is no equivalence.
- OrderedWatcher: each select arm is one step although the code moves the index before handing the data on; the shutdown
  at the end of the range; the index, which the code leaves nil; `backFillOnlyQueuing`, which hands everything on as it comes.
- Registry: `sendHistoricalData` and quit notices; two subscriptions sharing one channel.
- Registry.EachAlone: assumes that different settings have different hashes.
- Registry.StreamInOrder: assumes the same, being about each subscriber among all.
- Registry.ThereIff: assumes the same.
- Registry.ReceivesToTheEnd: assumes the same.
- RingChannel: the other receiver of the converted payloads, whose sends are simply dropped when it is not ready.
- LogExtraction: Postgres fingerprints of nodes; syncing transactions counts only as a call that may fail.
- PackedSlot: the checksummed hexadecimal text of an address, which depends on Keccak.
- StorageRetry.AtLeastOnceOrQueued: a diff that could not be persisted is attempted once and not queued, so it is lost if
  its transformer fails.
- StorageRetry: fetching diffs and the transformers' own work; the LEFT JOIN of the queue always finds its diff.
- Cleaners, block rewards, the header validation window, log chunking, storage key lookup, migrations and configuration:
  they would add only easy members.
