# Kaspa consensus: verified models of its incremental structures

Kaspa nodes keep fast, incrementally updated structures in place of simple definitions: interval
labels and covering sets in place of reachability in a DAG, sparse maps of anticone sizes in place
of counting, accumulated diffs in place of UTXO sets, limb arithmetic in place of numbers, token
lists in place of a schedule. This project models these structures with the code's own steps and
proves that each agrees with its simple definition at every point of every run.

`dafny verify dfyconfig.toml` checks the whole project.

## What is proved

**Reachability** (`Interval`, `Tree`, `SubtreeCount`, `Store`, `Search`, `Reindex`, `Gaps`, `Levels`,
`Reclaim`, `Capacity`, `Insertion`, `Concentrate`, `TreeOps`, `RootMove`, `Dag`, `Inquirer`). The
selected-parent tree is labelled with nested intervals. Propagation, reclaiming slack before and
after the chain, and concentrating on a moved root relabel it in place. `Good` is the interval
invariant (every block placed: children strictly inside, siblings consecutive, intervals not empty),
`Sound` adds that the chain to the reindex root is lean: at most one slack on each side of every
chain block. `Mirrors` ties the store to a DAG: the tree spans it, every covering set is sorted,
disjoint and complete. `AddBlock` and `HintVirtualSelectedParent` keep `Mirrors`, so
`IsDagAncestorOf` is reachability in the DAG after any run of them. Intermediate states of a
reclaim or a move violate `Good`; they are described by `GoodButGap`, `Level`, `Plan` and `Moving`.

**GHOSTDAG** (`Ghostdag`, `Colouring`, `Sorting`, `Greedy`, `GhostdagManager`, `HeaderCommit`, `Window`,
`VirtualParents`, `BoundExample`).
`Coloured` says of every block ever added that its blue set is a k-cluster, that the sparse maps
give exact anticone sizes, that the blue score counts the blue set, that its mergeset is complete and
sorted, and that blue work grows along every edge. `Computed` says that all data are what the plain
definition `Naive` gives, and `Ghostdag` produces such data. They depend on the past of a block only, so
nodes agree on them (`DataAgree`). `CommitHeaders` composes colouring, reachability and window caches over
whole runs from `Initialise`.

**UTXO** (`Utxo`, `UtxoDiffState`, `Transactions`, `UtxoState`, `UtxoChain`, `Bodies`, `VirtualResolve`, `Runs`).
Diffs carry DAA scores; composition, difference and reversal are tied to applying diffs to a base.
Parallel validation is tied to sequential validation. `StateOf` and `Verdict` in `UtxoChain` say by the
rules alone what the UTXO set of a block is (the transactions of every mergeset down the selected
chain, validated one after the other) and whether the block is valid. `VirtualProcessor.Valid` says
that every stored diff leads from the state of the selected parent to that of the block, that the
stored multiset hash is the product over exactly the UTXOs of the state, that decided statuses are
verdicts, that the tips are right, and that the stored set is the state of the virtual block.
`ReceiveHeader`, `ReceiveBody` and `ResolveVirtual` keep it and fail nowhere, `Run` composes them in any
order from genesis, and `DecisionsStand` follows for one node over time. `NodesAgree` is about any two nodes
after any such runs: nothing that they computed is assumed to be equal, only that block hashes stand for
the same headers and bodies with both (`World`). What `CalculateUtxoState` produces is what is stored:
only the comparison with the commitments in header and coinbase is a parameter.

**MuHash** (`Limbs`, `U3072`, `MuHash`). Multiplication modulo 2^(64 n) - 1103717 on n limbs, for any
n from 2 to 2^20 (the source has n = 48), and the multiset hash as a fraction.

**Dependency manager** (`DepsManager`). Every interleaving of receiving, beginning and finishing
tasks keeps one token per pending hash and serves every sender exactly once; some task can always run,
and without new tasks every order of steps comes to an end with everything served.

**Addresses** (`Regroup`, `Checksum`, `Bech32`). The codec round-trips, detects every corruption
within eight consecutive characters, and separates networks.

## Results that differ from what one might expect

- The mergeset search also returns parents that are in the past of the selected parent. `SearchExact`
  states exactly when it does not and `SearchFindsTooMuch` is an example; header validation rejects
  such parents, and `Ghostdag` is stated for lists without them.
- `find_next_reindex_root` is BadQuery for a hint equal to the current root and for depth zero
  (`FindNextReindexRoot`); `commit_header` never asks for either.
- In `pick_virtual_parents` the test that skips a returned block covered by another candidate is
  never true (`NoneCovers`).
- Parents that lead to a red breaking the merge depth bound are filtered once, by the colouring of the chosen
  parents. What is left has a new colouring, in which a red can break the bound again: `BadAfterwards` is
  the exact condition, and `TenBlocksArrive` an input.
- `decode_payload` ignores leftover bits, so an accepted string need not be the encoding of its
  address. `LeftoverIgnored` is an example and `DecodeEncodes` the exact condition.

## Assumptions

- Labels are 64-bit as the source asserts them (`Interval` is a subset type, so no operation on labels
  overflows or underflows). Heights, works, scores, ids and amounts are unbounded. The label space is
  an input: every result about labels that could run out requires (4 * slack + 4) labels per block
  (`Roomy`), which for the 2^64 labels and the slack of 4096 in the source is about 2^50 blocks, and
  concludes that the overflow panic is not reached.
- The bias of the exponential split is an arbitrary choice within the bounds the code asserts; the split
  in halves rounds as 32-bit floating point does.
- k + 1 fits the size type (k < 255); every block has work at least one.
- Parents of a header are an antichain without duplicates.
- The origin and genesis are one block. The body of genesis is a coinbase without outputs.
- Transaction ids determine transactions (`Ids`): they are hashes without collisions. For the agreement of nodes,
  so do block hashes: parents, work, DAA score and, if the Merkle root matches, the body belong to the hash.
- The element of every UTXO has the right number of limbs and is invertible modulo the prime
  (`Hashable`): no UTXO hashes to zero.
- `mod_inverse` is a parameter that inverts what can be inverted.

## Model

| member | source | states |
|---|---|---|
| `Intervals.HalfNear` | consensus/src/processes/reachability/interval.rs:85-89 | the size of the left half as 32-bit floating point rounds it is at least one and at most the whole, exactly the half rounded up below 2^24, and otherwise within half a label and a quarter of a unit in the last place of the half |
| `Intervals.SplitHalf` | consensus/src/processes/reachability/interval.rs:76-89 | a non-empty interval is divided into two adjacent intervals that cover it, the left one having the rounded half of the labels |
| `Intervals.SplitExact` | consensus/src/processes/reachability/interval.rs:94-105 | sizes that add up to the interval give parts of exactly those sizes that tile it in order |
| `Intervals.SplitExponential` | consensus/src/processes/reachability/interval.rs:118-147 | for every choice of bias, the parts tile the interval exactly and each is at least as large as demanded |
| `ReachabilityTree.BeforeMeansLeft` | consensus/src/processes/reachability/tests.rs:186-215 | in a labelled tree a block that precedes another in tree order lies entirely to the left of it |
| `ReachabilityTree.ContainmentIsAncestry` | consensus/src/processes/reachability/inquirer.rs:89-97 | interval containment is tree ancestry, strict containment strict ancestry, and an end point inside an interval already decides it |
| `ReachabilityTree.SubtreeFits` | consensus/src/processes/reachability/reindex.rs:30-38 | a laid out subtree never has more blocks than its interval has labels, so a block too small for its subtree is the one to enlarge |
| `SubtreeCount.Finished` | consensus/src/processes/reachability/reindex.rs:109-153 | when the queue runs empty no block can still wait for a child: the size of the start block, and every size recorded on the way, is its subtree size |
| `ReachabilityStore.Store.Init` | consensus/src/processes/reachability/inquirer.rs:13-19 | the store holds the origin alone, with the whole capacity, an empty covering set, and the origin as reindex root |
| `DescendantSearch.BinarySearchDescendant` | consensus/src/processes/reachability/inquirer.rs:149-177 | on a list ordered by interval the search finds a hash whose interval meets the descendant, the one that contains it where the intervals separate, or else none contains it and the position is the one to insert at |
| `DescendantSearch.NextChainAncestorUnchecked` | consensus/src/processes/reachability/inquirer.rs:133-142 | a child whose interval meets the descendant, BadQuery only if no child contains it; for a strict descendant, needing only the labels on the path to be in place, the child on the way |
| `Reindexing.SplitChildren` | consensus/src/processes/reachability/reindex.rs:476-482 | the position of the pivot among the children, or nothing exactly if it is not one of them |
| `Reindexing.ReindexContext.CountSubtrees` | consensus/src/processes/reachability/reindex.rs:109-153 | terminates from any partly filled cache and leaves a cache in which the block, and whatever else it holds, has its true subtree size |
| `Reindexing.ReindexContext.PushUp` | consensus/src/processes/reachability/reindex.rs:130-149 | the walk up the counters that completes ancestors whose children are all counted keeps the traversal invariant |
| `Reindexing.ReindexContext.LayOutChildren` | consensus/src/processes/reachability/reindex.rs:164-172 | the children of one block tile its capacity in order, each at least as large as its subtree |
| `Reindexing.ReindexContext.PropagateInterval` | consensus/src/processes/reachability/reindex.rs:158-176 | a block with room for its subtree gets its whole subtree laid out inside its interval, whatever the split chooses, and no label outside the subtree changes |
| `Reindexing.ReindexContext.ApplyAndPropagate` | consensus/src/processes/reachability/reindex.rs:369-373 | the block gets the new interval, its subtree is laid out inside it, nothing outside changes |
| `Reindexing.ReindexContext.OffsetSiblingsBefore` | consensus/src/processes/reachability/reindex.rs:328-344 | a gap in front of the current block is closed by moving the siblings before it as far as the allocation block, which takes the gap as extra space; no move underflows |
| `Reindexing.ReindexContext.OffsetSiblingsAfter` | consensus/src/processes/reachability/reindex.rs:346-362 | the same behind the current block, up to the allocation block, which takes the gap |
| `Reindexing.ReindexContext.Trim` | consensus/src/processes/reachability/reindex.rs:364-373 | taking labels from one end of a chain block leaves the tree laid out except for a gap of exactly that width beside the block |
| `Reindexing.ReindexContext.RaiseLevel` | consensus/src/processes/reachability/reindex.rs:259-260 | one level of the walk: the current block gives up its first labels and the level is laid out again, the allocation block larger by the offset if it stands there |
| `Reindexing.ReindexContext.LowerLevel` | consensus/src/processes/reachability/reindex.rs:321-322 | the mirror image: the current block gives up its last labels |
| `Reindexing.ReindexContext.ChooseTop` | consensus/src/processes/reachability/reindex.rs:216-245 | the walk up stops at the lowest chain block at which the slack passed covers the requirement, or at the reindex root, which then has room for the rest and for new slack |
| `Reindexing.ReindexContext.FreeTop` | consensus/src/processes/reachability/reindex.rs:219-243 | the topmost level gives up exactly what the levels below cannot supply |
| `Reindexing.ReindexContext.FreeBelow` | consensus/src/processes/reachability/reindex.rs:251-261 | one step of the walk down: the subtraction does not underflow and the level keeps exactly the slack the walk allocates |
| `ReclaimWalk.WalkReclaimed` | consensus/src/processes/reachability/reindex.rs:251-264 | a walk that arrived at the chosen child has given the allocation block exactly the required extra labels, with the tree laid out and the chain lean |
| `Reindexing.ReindexContext.ReclaimIntervalBefore` | consensus/src/processes/reachability/reindex.rs:204-264 | the allocation block gains exactly the required allocation, the tree is laid out at every level, nothing outside the common ancestor changes, and exactly the allocated slack (the configured slack if the root was reached, else none) is left before every walked chain block |
| `Reindexing.ReindexContext.ReclaimIntervalAfter` | consensus/src/processes/reachability/reindex.rs:266-326 | the same on the other side of the chain |
| `Reindexing.ReindexContext.ReindexIntervalsEarlierThanRoot` | consensus/src/processes/reachability/reindex.rs:182-202 | with room at the reindex root the side of the chain the new block is on is reclaimed and every block, the new one included, is placed |
| `Reindexing.ReindexContext.ReindexIntervals` | consensus/src/processes/reachability/reindex.rs:27-82 | a block appended without an interval is given one: the reindexing never overflows, the whole tree satisfies the interval invariant again and the chain to the reindex root stays lean |
| `Reindexing.ReindexContext.SetParts` | consensus/src/processes/reachability/reindex.rs:410-413 | exact parts are assigned and each sibling subtree is laid out in its part, nothing else touched |
| `Reindexing.ReindexContext.TightenIntervalsBefore` | consensus/src/processes/reachability/reindex.rs:396-416 | the siblings before the chosen child are packed to exactly their subtree sizes, one slack behind the start of the parent, and their total size is returned |
| `Reindexing.ReindexContext.TightenIntervalsAfter` | consensus/src/processes/reachability/reindex.rs:418-438 | the siblings behind the chosen child are packed to exactly their subtree sizes, one slack and one label before the end of the parent, and their total size is returned |
| `Reindexing.ReindexContext.ExpandIntervalToChosen` | consensus/src/processes/reachability/reindex.rs:440-472 | the chosen child gets all labels between the packed siblings; below it labels change only for the final root, whose subtree is then laid out with slack on both sides if it did not fit already |
| `Reindexing.ReindexContext.ConcentrateInterval` | consensus/src/processes/reachability/reindex.rs:376-394 | a child that is not one is DataInconsistency and changes nothing; otherwise the parent is left with exactly one slack on each side, siblings packed, and everything else given to the chosen child |
| `Capacity.ChainCost` | consensus/src/processes/reachability/reindex.rs:54-64 | how many labels the lean chain to the reindex root can at most use up: a bound per chain block and per block beside the chain |
| `Capacity.RoomyRoot` | consensus/src/processes/reachability/reindex.rs:54-64 | in every reachable state with (4 * slack + 4) labels per block the reindex root can be given what it needs, so the overflow branch is never taken |
| `Capacity.RoomyAncestor` | consensus/src/processes/reachability/tree.rs:131-136 | under the same bound every block a root move passes has the slack the concentration takes |
| `Insertion.GrownAnc` | consensus/src/processes/reachability/tree.rs:11-37 | adding a leaf leaves ancestry among the old blocks unchanged and gives the leaf the ancestors of its parent |
| `Insertion.GrownBefore` | consensus/src/processes/reachability/inquirer.rs:60-72 | the relative order of old blocks never changes, which keeps every covering set sorted through all later additions |
| `Insertion.GrownGood` | consensus/src/processes/reachability/tree.rs:18-35 | the new leaf takes the free labels behind the last child of its parent and the tree stays laid out, the leaf excepted if there are none |
| `TreeGrowth.Allocate` | consensus/src/processes/reachability/tree.rs:19-34 | the first half of the remaining labels as floating point rounds it, nothing if none remain |
| `TreeGrowth.AddTreeBlock` | consensus/src/processes/reachability/tree.rs:11-37 | unknown parents and known blocks are refused; otherwise the leaf is in the tree and the interval invariant and the lean chain hold again, reindexed or not |
| `RootMovement.IsChainAncestorOf` | consensus/src/processes/reachability/inquirer.rs:95-97 | true exactly for tree ancestors |
| `RootMovement.NextChainAncestor` | consensus/src/processes/reachability/inquirer.rs:116-128 | the next block of the chain to a strict descendant, BadQuery exactly for every other pair |
| `RootMovement.FindCommonTreeAncestor` | consensus/src/processes/reachability/tree.rs:43-51 | the greatest common tree ancestor |
| `RootMovement.FindNextReindexRoot` | consensus/src/processes/reachability/tree.rs:54-102 | which hints keep the root, which are BadQuery (hint equal to the root, or depth zero), and for all others the pair of common ancestor and new root, the new root being exactly depth below the hint unless it did not move |
| `Concentration.MovingStep` | consensus/src/processes/reachability/tree.rs:131-136 | each concentration carries the state of a move one chain block further although the tree is not laid out in between |
| `Concentration.MovingEnd` | consensus/src/processes/reachability/tree.rs:131-140 | once the move arrives at the new root the tree is laid out and the chain to the new root is lean |
| `RootMovement.TryAdvancingReindexRoot` | consensus/src/processes/reachability/tree.rs:111-141 | an error changes nothing; otherwise the stored root is the one found and the interval invariant and the lean chain hold with it |
| `Inquirer.CoveringDecides` | consensus/src/processes/reachability/inquirer.rs:99-113 | a block is in the past of another exactly if it is a tree ancestor of it or of a member of its covering set that is |
| `Inquirer.IsDagAncestorOf` | consensus/src/processes/reachability/inquirer.rs:102-113 | KeyNotFound for unknown blocks, otherwise exactly whether the first block reaches the second in the DAG |
| `Inquirer.InsertToFutureCoveringSet` | consensus/src/processes/reachability/inquirer.rs:60-72 | unknown blocks are KeyNotFound, an already covered new block is DataInconsistency, and otherwise the set gains the new block at the place that keeps it sorted and disjoint |
| `Inquirer.AddDagBlock` | consensus/src/processes/reachability/inquirer.rs:52-58 | after inserting a new leaf into the covering set of each block of its true mergeset, no insertion fails and the covering sets are complete for the larger DAG |
| `Inquirer.AddBlock` | consensus/src/processes/reachability/inquirer.rs:24-50 | adding a block with its true selected parent and mergeset never fails and the store answers for the larger DAG |
| `Inquirer.HintVirtualSelectedParent` | consensus/src/processes/reachability/inquirer.rs:78-85 | a hint moves labels and root only: the store answers for the same DAG; it succeeds for every known hint other than the root |
| `Inquirer.InitMirrors` | consensus/src/processes/reachability/inquirer.rs:9-19 | the initialised store answers for the DAG that holds only the origin |
| `ReachabilityServices.ReachabilityService.IsDagAncestorOf` | consensus/src/model/services/reachability.rs:44-47 | exactly DAG reachability |
| `ReachabilityServices.ReachabilityService.IsChainAncestorOf` | consensus/src/model/services/reachability.rs:34-37 | exactly ancestry in the reachability tree |
| `GhostdagProtocol.ChainIsTree` | consensus/src/model/services/reachability.rs:34-37 | ancestry in the reachability tree is being on the chain of selected parents, in every state the manager can be in |
| `ReachabilityServices.ReachabilityService.IsDagAncestorOfAny` | consensus/src/model/services/reachability.rs:64-67 | true exactly if some block of the list is reached |
| `ReachabilityServices.ReachabilityService.IsAnyDagAncestor` | consensus/src/model/services/reachability.rs:49-62 | true exactly if some block of the list reaches |
| `Ghostdag.ClusterGrows` | consensus/src/processes/ghostdag/protocol.rs:113-163 | a k-cluster stays one with a new block exactly if the block has at most k of it in its anticone and none of those has k already |
| `Ghostdag.WorkGrowsPast` | consensus/src/processes/ghostdag/ordering.rs:38-42 | blue work strictly grows from every block of the past to the block |
| `Ghostdag.AscendingTopological` | consensus/src/processes/ghostdag/ordering.rs:45-50 | a list sorted by blue work and hash is topological |
| `Colouring.ColouredMeans` | consensus/src/processes/ghostdag/protocol.rs:83-111 | in every coloured DAG each block has a blue set that is a k-cluster in its past, the sparse maps give the exact blue anticone size of every member, and the blue score is the size of the set |
| `Colouring.BlueAdded` | consensus/src/model/stores/ghostdag.rs:151-165 | recording an accepted block with its anticone size and raising the sizes of the affected blues keeps all sizes exact |
| `Colouring.AcceptsWhen` | consensus/src/processes/ghostdag/protocol.rs:113-163 | the naive test over the whole blue set, on the recorded sizes, decides whether the blue set with the candidate is a k-cluster |
| `Colouring.SelectedParentAnticone` | consensus/src/processes/ghostdag/protocol.rs:185-189 | the blue anticone of the selected parent is as large as the number of blues merged beside it |
| `Colouring.FullMeansRed` | consensus/src/processes/ghostdag/protocol.rs:185-189 | once k+1 blues are listed every further candidate must be red, so the shortcut loses nothing |
| `Colouring.WalkRejects` | consensus/src/processes/ghostdag/protocol.rs:143-155 | when the walk finds one anticone blue too many, or one that is at k, the candidate is not acceptable |
| `Colouring.WalkEnd` | consensus/src/processes/ghostdag/protocol.rs:121-135 | when every remaining blue is in the past of the candidate the collected sizes are the whole blue anticone and the candidate is acceptable: the early exit is exact |
| `Colouring.GenesisColoured` | consensus/src/processes/ghostdag/protocol.rs:46-55 | genesis alone is coloured |
| `Colouring.FinishedBlue` | consensus/src/processes/ghostdag/protocol.rs:104-108 | the blue score is the number of blocks in the blue set of the new block |
| `Colouring.ColouringKept` | consensus/src/pipeline/header_processor/processor.rs:311-318 | storing the data of a new block keeps the whole DAG coloured |
| `GhostdagProtocol.SearchExact` | consensus/src/processes/ghostdag/mergeset.rs:10-40 | the search result is the mergeset exactly if no other parent is in the past of the selected parent |
| `GhostdagProtocol.SearchFindsTooMuch` | consensus/src/processes/ghostdag/mergeset.rs:10-40 | a concrete pair of parents, a block and its own parent, for which too much is found |
| `GhostdagProtocol.NextCandidate` | consensus/src/processes/ghostdag/protocol.rs:90-102 | taken in sorted order the next merged block is in the past of no blue listed so far |
| `GhostdagProtocol.MaxDominates` | consensus/src/processes/ghostdag/protocol.rs:57-63 | the parent of most blue work is in the past of no merged block |
| `GhostdagProtocol.GhostdagManager.FindSelectedParent` | consensus/src/processes/ghostdag/protocol.rs:57-63 | the greatest parent by blue work and hash |
| `GhostdagProtocol.GhostdagManager.SortBlocks` | consensus/src/processes/ghostdag/ordering.rs:45-50 | the same blocks, strictly ascending by blue work and hash |
| `GhostdagProtocol.GhostdagManager.SearchParents` | consensus/src/processes/ghostdag/mergeset.rs:16-36 | the parents of one block are sorted into mergeset and past of the selected parent; every step either finds a new block or leaves the search as it was |
| `GhostdagProtocol.GhostdagManager.OrderedMergesetWithoutSelectedParent` | consensus/src/processes/ghostdag/mergeset.rs:10-40 | the mergeset, together with the other parents given, in ascending order; each block once |
| `GhostdagProtocol.GhostdagManager.BlueAnticoneSize` | consensus/src/processes/ghostdag/protocol.rs:167-182 | the size from the nearest map down the selected chain |
| `GhostdagProtocol.GhostdagManager.CompareBlue` | consensus/src/processes/ghostdag/protocol.rs:137-160 | one blue block: skipped, recorded as affected, or reason for red |
| `GhostdagProtocol.GhostdagManager.CheckBlueCandidateWithChainBlock` | consensus/src/processes/ghostdag/protocol.rs:113-163 | blue only if the candidate is acceptable, with the sizes of exactly its blue anticone; red only if it is not; pending with all blues of the chain block dealt with, and never at genesis |
| `GhostdagProtocol.GhostdagManager.CheckBlueCandidate` | consensus/src/processes/ghostdag/protocol.rs:184-219 | accepts exactly the candidates that keep the whole blue set a k-cluster, returning the sizes of exactly the affected blues; terminates at genesis |
| `GhostdagProtocol.GhostdagManager.Ghostdag` | consensus/src/processes/ghostdag/protocol.rs:83-111 | for every list of parents in which none is in the past of the heaviest, the data are exactly what the definition gives: the heaviest parent, the greedy blues of the sorted mergeset by the naive k-cluster test, the rest as reds, the size of the blue set as score, the work of the selected parent and the sum of the blue works, and a plainly counted anticone size for exactly the blues that got a new one in their anticone |
| `GreedyColouring.NaiveUnique` | consensus/src/processes/ghostdag/protocol.rs:83-111 | the definition determines all data of a block, in one view of the DAG |
| `GreedyColouring.NaiveAlike` | consensus/src/processes/ghostdag/protocol.rs:83-111 | what the definition gives depends on the past of the parents only: two views that agree on it give the same data |
| `GreedyColouring.ComputedKept` | consensus/src/pipeline/header_processor/processor.rs:311-318 | storing the data of a new block keeps all stored data what the definition gives |
| `GreedyColouring.DataAgree` | consensus/src/processes/ghostdag/protocol.rs:83-111 | two nodes whose blocks have the same parents and work hold the same data (selected parent, blues, reds, score, work and sizes) for every block that both know, whatever else they know and in whatever order they learned it |
| `GreedyColouring.ParentsAgree` | consensus/src/processes/ghostdag/protocol.rs:83-111 | and so they do for any block on top of the same parents, the virtual block among them |
| `HeaderCommit.MergesetListed` | consensus/src/model/stores/ghostdag.rs:116-122 | blues without the selected parent and reds together list the mergeset, each block once |
| `HeaderCommit.CommitHeader` | consensus/src/pipeline/header_processor/processor.rs:311-371 | colouring, relations and reachability of the new block are entered together; the data are what the definition gives, neither reachability call fails, the tree gains exactly the selected parent edge, and all stores belong to the larger DAG |
| `HeaderCommit.ProcessHeader` | consensus/src/pipeline/header_processor/processor.rs:282-371 | a header is coloured, its two windows are found and cached, and everything is entered: stores and window caches belong to the larger DAG |
| `HeaderCommit.Initialise` | consensus/src/pipeline/header_processor/processor.rs:373-402 | the stores that know only genesis belong to the DAG of genesis |
| `HeaderCommit.CommitHeaders` | consensus/src/pipeline/header_processor/processor.rs:282-371 | over every run of acceptable headers that the label space has room for, and whatever the caches evict, no call fails and at the end all stores, with data as the definition gives them, and both window caches belong to the DAG of the run |
| `BlockWindows.TopUnique` | consensus/src/processes/traversal_manager.rs:42-90 | the greatest blocks of a given number are determined, so cached and uncached windows agree |
| `BlockWindows.TopFull` | consensus/src/processes/traversal_manager.rs:98-108 | once a full heap refuses a block it is unaffected by everything smaller: stopping early is exact |
| `BlockWindows.TopRoom` | consensus/src/processes/traversal_manager.rs:127-139 | a heap with room takes any new block and holds the greatest blocks of the larger set |
| `BlockWindows.TopReplace` | consensus/src/processes/traversal_manager.rs:127-139 | a full heap that swaps its least block for a greater one holds the greatest blocks of the larger set |
| `Sorting.AscendingUnique` | consensus/src/model/stores/ghostdag.rs:68-140 | a sorted list is determined by its blocks |
| `BlockWindows.MergeAscending` | consensus/src/model/stores/ghostdag.rs:68-88 | merging two sorted lists of different blocks gives the sorted list of both |
| `BlockWindows.DescendingMergeset` | consensus/src/model/stores/ghostdag.rs:91-113 | the whole mergeset in descending order |
| `Sorting.SortedSame` | consensus/src/model/stores/ghostdag.rs:68-140 | the consensus order of a mergeset depends on the blue work of its own blocks only |
| `BlockWindows.ConsensusOrderedMergeset` | consensus/src/model/stores/ghostdag.rs:127-140 | selected parent first, then the mergeset, in the one order by blue work and hash, in which no block comes before one of its past |
| `BlockWindows.BoundedSizeBlockHeap.TryPush` | consensus/src/processes/traversal_manager.rs:127-139 | if the block is taken the heap holds the greatest blocks seen; if refused it is unchanged, full, and the block is below all of it |
| `BlockWindows.PastSplits` | consensus/src/processes/traversal_manager.rs:73-87 | the past of a block is its selected parent, its mergeset, and the past of the selected parent, all apart |
| `BlockWindows.BelowSelectedParent` | consensus/src/processes/traversal_manager.rs:80-85 | everything in the past of a block is at most its selected parent in blue-work order |
| `BlockWindows.DagTraversalManager.TryPushMergeset` | consensus/src/processes/traversal_manager.rs:92-110 | either the heap holds the greatest blocks with selected parent and mergeset included, or the selected parent was refused and nothing changed |
| `BlockWindows.DagTraversalManager.WindowFromCache` | consensus/src/processes/traversal_manager.rs:47-68 | from the window of the selected parent and the own mergeset: the greatest blocks of the past without genesis |
| `BlockWindows.DagTraversalManager.WindowByWalk` | consensus/src/processes/traversal_manager.rs:70-90 | by walking the chain with the early break: the same set |
| `BlockWindows.DagTraversalManager.BlockWindow` | consensus/src/processes/traversal_manager.rs:42-90 | exactly the given number of greatest blocks in the past without genesis, or all if there are fewer, on every path |
| `BlockWindows.CacheGrows` | consensus/src/pipeline/header_processor/processor.rs:319-320 | caching the window of a new block keeps the cache right for the larger DAG |
| `BlockWindows.DagTraversalManager.CacheWindows` | consensus/src/pipeline/header_processor/processor.rs:319-320 | entering the two windows of a committed block, and evicting any entries, keeps both caches right for the larger DAG |
| `VirtualParents.CountedDone` | consensus/src/pipeline/virtual_processor/processor.rs:429-458 | what the search counted and the candidate are exactly the blocks the candidate would add to the mergeset |
| `VirtualParents.MergesetIncrease` | consensus/src/pipeline/virtual_processor/processor.rs:429-458 | the exact number of blocks added, or a rejection with a block of the candidate's past outside the past of the chosen parents and the increase over budget |
| `VirtualParents.SwappedPlaces` | consensus/src/pipeline/virtual_processor/processor.rs:388-397 | which candidate the swaps leave at which place: the heavier half of the places keeps its blocks and the rest is filled from the light end |
| `VirtualParents.SelectCandidates` | consensus/src/pipeline/virtual_processor/processor.rs:376-397 | the greatest tips but for the selected parent, three times as many as parents allowed, in descending order with the swaps done exactly if they are at least as many as parents allowed |
| `VirtualParents.MergeSetGrows` | consensus/src/pipeline/virtual_processor/processor.rs:401-412 | accepting a candidate enlarges the mergeset by exactly the counted increase |
| `VirtualParents.PickAccept` | consensus/src/pipeline/virtual_processor/processor.rs:409-412 | moving the first candidate to the parents keeps the antichain and the mergeset count |
| `VirtualParents.PickReplace` | consensus/src/pipeline/virtual_processor/processor.rs:413-421 | replacing a rejected candidate by the returned block and dropping candidates in its future keeps the antichain |
| `VirtualParents.NeverSkipped` | consensus/src/pipeline/virtual_processor/processor.rs:414-417 | no chosen parent and no remaining candidate is in the past of a block below the first candidate |
| `VirtualParents.NoneCovers` | consensus/src/pipeline/virtual_processor/processor.rs:414-417 | so the test that would skip the returned block is never true: the branch is dead |
| `VirtualParents.ChooseParents` | consensus/src/pipeline/virtual_processor/processor.rs:399-425 | terminates, keeps the selected parent and an antichain of tips and blocks below them, counts the mergeset exactly and stays within both limits |
| `VirtualParents.KosherizingBlues` | consensus/src/processes/block_depth.rs:85-95 | exactly the blues whose chain of selected parents holds the merge depth root |
| `VirtualParents.FindBadReds` | consensus/src/pipeline/virtual_processor/processor.rs:472-484 | exactly the reds outside the future of the merge depth root that no such blue has in its past |
| `VirtualParents.SelectedStays` | consensus/src/pipeline/virtual_processor/processor.rs:486-491 | the filter never removes the selected parent |
| `VirtualParents.RemoveBoundedMergeBreakingParents` | consensus/src/pipeline/virtual_processor/processor.rs:460-494 | keeps exactly the parents that have no such red in their past, the selected parent among them, and colours what is left; without such a red nothing changes |
| `VirtualParents.PickVirtualParents` | consensus/src/pipeline/virtual_processor/processor.rs:374-427 | a duplicate-free antichain of tips and blocks below them, within both limits, with the selected parent as its greatest block and the colouring of exactly these parents; of the chosen parents exactly those are kept that reach no red breaking the merge depth bound of the choice |
| `VirtualParents.BadAfterwards` | consensus/src/pipeline/virtual_processor/processor.rs:486-494 | exactly when the parents that are left have a bad red after all: one that was blue before, or was excused before, such that every blue that excused it is no longer below the parents or has turned red, and no newly blue block excuses it |
| `VirtualParents.BoundStays` | consensus/src/pipeline/virtual_processor/processor.rs:486-494 | if no blue turns red and no blue leaves whose chain goes through the merge depth root, the parents that are left keep the bound |
| `BoundExample.BoundBroken` | consensus/src/pipeline/virtual_processor/processor.rs:486-494 | for every node with ten given blocks the filter removes one of three tips, and with it the only block that excused a red, which is then a bad red of the parents that are left |
| `BoundExample.TenBlocksArrive` | consensus/src/pipeline/virtual_processor/processor.rs:460-494 | a node that starts from genesis and commits the ten blocks gets there |
| `UtxoDiffs.AppliedGet` | consensus/core/src/utxo/utxo_view.rs:22-35 | reading through the composed view is reading the set the diff leads to |
| `UtxoDiffs.ComposedLaw` | consensus/core/src/utxo/utxo_diff.rs:80-111 | composing a diff valid over a base with one valid over the result raises no error, is valid over the base and leads to the same set |
| `UtxoDiffs.ComposedNormalised` | consensus/core/src/utxo/utxo_diff.rs:80-111 | composition keeps diffs normalised |
| `UtxoDiffs.ReversedLaw` | consensus/core/src/utxo/utxo_diff.rs:64-70 | the reversed diff is valid over the result and leads back to the base |
| `UtxoDiffs.DifferenceLaw` | consensus/core/src/utxo/utxo_diff.rs:143-215 | for normalised diffs over one base the difference exists and composing it gives the other diff |
| `UtxoDiffs.DifferenceOfComposed` | consensus/core/src/utxo/utxo_diff.rs:143-215 | the difference of a composition is the diff that was composed |
| `UtxoDiffState.IntersectionWithRemainder` | consensus/core/src/utxo/utxo_collection.rs:106-119 | entries common by outpoint and DAA score go to the result, the others to the remainder |
| `UtxoDiffState.Subtraction` | consensus/core/src/utxo/utxo_collection.rs:127-133 | entries not present with the same DAA score are added to the result |
| `UtxoDiffState.IntersectsWithRule` | consensus/core/src/utxo/utxo_collection.rs:67-91 | a common outpoint that breaks the rule, or none if there is none |
| `UtxoDiffState.FindConflict` | consensus/core/src/utxo/utxo_diff.rs:152-187 | an outpoint on which the two diffs cannot be over one base, or none if there is none |
| `UtxoDiffState.DiffFrom` | consensus/core/src/utxo/utxo_diff.rs:143-215 | fails exactly on the listed conflicts and otherwise is the difference |
| `UtxoDiffState.UtxoDiff.WithDiffInPlace` | consensus/core/src/utxo/utxo_diff.rs:80-111 | fails exactly on a double removal or addition, then changing nothing, and otherwise becomes the composition |
| `UtxoDiffState.UtxoDiff.RemoveEntry` | consensus/core/src/utxo/utxo_diff.rs:233-242 | DoubleRemoveCall exactly if the outpoint is already removed and not added with this DAA score; otherwise the composition with one removal |
| `UtxoDiffState.UtxoDiff.AddEntry` | consensus/core/src/utxo/utxo_diff.rs:244-253 | DoubleAddCall exactly if the outpoint is already added and was not removed with this DAA score; otherwise the composition with one addition |
| `Transactions.ValidateTransactionInUtxoContext` | consensus/src/pipeline/virtual_processor/utxo_validation.rs:194-218 | reads the inputs through base and diff and is the validation on the set they lead to; a missing input is a rejection |
| `Transactions.ParallelIsSequential` | consensus/src/pipeline/virtual_processor/utxo_validation.rs:177-191 | without double spends and chaining within the body, validating all transactions against one view accepts the same ones with the same entries and fees as validating one after the other |
| `Transactions.CheckBlockDoubleSpends` | consensus/src/pipeline/body_processor/body_validation_in_isolation.rs:68-76 | passes exactly if no two inputs of the block spend one outpoint, and names one that is spent twice |
| `Transactions.CheckNoChainedTransactions` | consensus/src/pipeline/body_processor/body_validation_in_isolation.rs:78-92 | passes exactly if no input spends an output of the same block, and names one that does |
| `Transactions.CheckDuplicateTransactions` | consensus/src/pipeline/body_processor/body_validation_in_isolation.rs:94-103 | passes exactly if all ids differ, and names one that does not |
| `Transactions.ValidateTransactionsInParallel` | consensus/src/pipeline/virtual_processor/utxo_validation.rs:177-191 | the validation of every transaction but the coinbase against the same view, in order |
| `UtxoStates.AddTransaction` | consensus/core/src/utxo/utxo_diff.rs:217-231 | adding a transaction whose inputs are unspent and whose outputs are new never fails; the diff stays valid and leads to the set with the transaction spent |
| `UtxoStates.SameElements` | consensus/core/src/muhash.rs:12-28 | the same UTXOs hashed in another order are the same elements in another order |
| `UtxoStates.ListingCounts` | consensus/core/src/muhash.rs:12-28 | the listing of a UTXO set holds each of its UTXOs once and nothing else |
| `UtxoStates.BalancedHash` | crypto/muhash/src/lib.rs:59-108 | whatever was added and removed on the way, the quotient of the two products is the product over exactly the UTXOs that are left |
| `UtxoStates.HashUnique` | crypto/muhash/src/lib.rs:99-108 | a UTXO set has one hash: the hash does not depend on how the set came about |
| `UtxoStates.AddTransactionToMultiset` | consensus/core/src/muhash.rs:12-28 | the multiset hash divides out exactly the inputs and multiplies in exactly the outputs: if it stood for the view it stands for the view with the transaction spent |
| `UtxoStates.LedgerFresh` | consensus/src/pipeline/virtual_processor/utxo_validation.rs:59-104 | a transaction with inputs that are still unspent was not accepted before |
| `UtxoStates.LedgerSpend` | consensus/src/pipeline/virtual_processor/utxo_validation.rs:59-104 | accepting a transaction keeps that every entry comes from an accepted transaction and no input of one is unspent |
| `UtxoStates.AcceptedSpendable` | consensus/src/pipeline/virtual_processor/utxo_validation.rs:83-92 | each transaction that parallel validation accepted can still be spent when its turn comes, and its outputs are new |
| `UtxoStates.DiffCoherent` | consensus/src/pipeline/virtual_processor/utxo_validation.rs:59-104 | a diff between two UTXO sets whose entries are outputs of the transactions they name holds such entries only |
| `UtxoStates.UtxoProcessingContext.Accept` | consensus/src/pipeline/virtual_processor/utxo_validation.rs:87-92 | one accepted transaction: adding it cannot fail; diff, multiset hash and accepted ids go on describing one and the same view |
| `UtxoStates.UtxoProcessingContext.AcceptBlock` | consensus/src/pipeline/virtual_processor/utxo_validation.rs:80-98 | one merged block: what parallel validation accepts leads to the view, the ids and the fees of sequential validation |
| `UtxoStates.UtxoProcessingContext.CalculateUtxoState` | consensus/src/pipeline/virtual_processor/utxo_validation.rs:59-104 | over coinbase and all merged blocks nothing fails, the diff is valid and coherent over the view of the selected parent and leads to the view of sequential validation, the multiset hash stands for exactly that view, fees and accepted ids are those of sequential validation, and no coinbase but the one of the selected parent is accepted |
| `UtxoStates.UtxoProcessingContext.UtxoCommitment` | consensus/src/pipeline/virtual_processor/utxo_validation.rs:118-122 | the limbs behind the commitment are the product over exactly the entries of the view |
| `BlockBodies.TipsAntichain` | consensus/src/model/stores/tips.rs:54-61 | the tips are an antichain: what is in the past of a block with a body is the parent of one |
| `BlockBodies.MergedHaveBodies` | consensus/src/pipeline/body_processor/body_validation_in_context.rs:35-58 | a block whose parents have bodies merges only blocks that have one |
| `BlockBodies.TipAdded` | consensus/src/model/stores/tips.rs:54-61 | removing the parents and adding the block leaves exactly the blocks with a body that are no parent of one |
| `BlockBodies.UpdateTips` | consensus/src/model/stores/tips.rs:54-61 | the tips without the parents, and the new tip |
| `BlockBodies.CheckOnlyOneCoinbase` | consensus/src/pipeline/body_processor/body_validation_in_isolation.rs:36-46 | passes exactly if the first transaction is a coinbase and no other is |
| `BlockBodies.CheckTransactionOutputValueRanges` | consensus/src/processes/transaction_validator/tx_validation_in_isolation.rs:124-148 | passes exactly if every output is within its range and so is their sum; names the first output out of range; the checked addition never overflows |
| `BlockBodies.CheckDuplicateTransactionInputs` | consensus/src/processes/transaction_validator/tx_validation_in_isolation.rs:91-99 | passes exactly if no outpoint is spent twice |
| `BlockBodies.ValidateTxInIsolation` | consensus/src/processes/transaction_validator/tx_validation_in_isolation.rs:11-68 | passes exactly if the numbers of inputs and outputs, coinbase or not, values and inputs are all within the rules; NoTxInputs exactly for a transaction without inputs that is no coinbase |
| `BlockBodies.CheckTransactionsInIsolation` | consensus/src/pipeline/body_processor/body_validation_in_isolation.rs:48-55 | passes exactly if every transaction does, and names the first that does not |
| `BlockBodies.ValidateBodyInIsolation` | consensus/src/pipeline/body_processor/body_validation_in_isolation.rs:8-17 | passes exactly if every check does; BadMerkleRoot exactly if there are transactions and the root does not match |
| `BlockBodies.CheckParentBodiesExist` | consensus/src/pipeline/body_processor/body_validation_in_context.rs:35-58 | MissingParents with exactly the parents that have no body, in order, or nothing if all have one |
| `BlockBodies.ValidateBody` | consensus/src/pipeline/body_processor/processor.rs:186-189 | passes exactly if every check does, and exactly when the two errors occur that do not make the block invalid |
| `UtxoChains.CommitKeeps` | consensus/src/pipeline/virtual_processor/processor.rs:360-369 | storing a diff that leads from the set of the selected parent to that of the block, with its multiset hash, keeps all records right |
| `UtxoChains.StatesAgree` | consensus/src/pipeline/virtual_processor/processor.rs:253-292 | nodes that hold the same data, DAA score and body for the blocks both know give such a block the same UTXO set and the same verdict |
| `UtxoChains.VerdictsAgree` | consensus/src/pipeline/virtual_processor/processor.rs:253-354 | such nodes never store a block as valid that the other one disqualified, and hold the same multiset hash |
| `UtxoChains.RecordsCarryOver` | consensus/src/pipeline/body_processor/processor.rs:191-207 | records stay right when a header or a body is added |
| `UtxoChains.DecisionsStand` | consensus/src/pipeline/virtual_processor/processor.rs:253-354 | as more becomes known a valid block stays valid with the same set and multiset hash, and a disqualified block never becomes valid |
| `UtxoChains.ChainBodies` | consensus/src/pipeline/virtual_processor/processor.rs:253-256 | the whole selected chain of a block with a body has bodies |
| `UtxoChains.CoinbaseNew` | consensus/src/pipeline/body_processor/body_validation_in_context.rs:60-79 | the coinbase of a block was not accepted in its past, because its payload holds the blue score |
| `UtxoChains.AllValid` | consensus/src/pipeline/virtual_processor/utxo_validation.rs:141-146 | comparing the number of validated transactions is asking whether every transaction but the coinbase is valid |
| `UtxoChains.VerifiesBy` | consensus/src/pipeline/virtual_processor/utxo_validation.rs:112-149 | the one multiset hash of the calculated state decides whether the commitments match |
| `UtxoChains.LeadsBack` | consensus/src/pipeline/virtual_processor/processor.rs:246-248 | one step down: composing the reversed diff of a chain block raises no error and leads to the set of its parent |
| `UtxoChains.LeadsForward` | consensus/src/pipeline/virtual_processor/processor.rs:257-260 | one step up: composing the diff of a chain block raises no error and leads to its set |
| `UtxoChains.VirtualUndone` | consensus/src/pipeline/virtual_processor/processor.rs:233-234 | the reversed virtual diff leads from the stored set to that of the virtual selected parent |
| `UtxoChains.ChainSetIsState` | consensus/src/pipeline/virtual_processor/processor.rs:253-292 | the stored diffs folded along a chain give the UTXO set that sequential validation gives its last block |
| `UtxoChains.GenesisVirtual` | consensus/src/pipeline/virtual_processor/processor.rs:616-632 | the virtual state of genesis is that of the empty UTXO set |
| `VirtualResolution.VirtualProcessor.ReceiveHeader` | consensus/src/pipeline/header_processor/processor.rs:282-371 | committing a header keeps everything stored right for the larger DAG and loses no decision |
| `VirtualResolution.VirtualProcessor.ReceiveBody` | consensus/src/pipeline/body_processor/processor.rs:155-184 | known statuses are returned; a body is stored exactly if it passes every check, otherwise the block becomes invalid unless the Merkle root or missing parents are the reason; everything stored stays right |
| `VirtualResolution.VirtualProcessor.CommitBody` | consensus/src/pipeline/body_processor/processor.rs:191-207 | body, tips and status are entered together and everything stored stays right |
| `VirtualResolution.BlueScoreGrows` | consensus/src/pipeline/body_processor/body_validation_in_context.rs:60-79 | a block has a greater blue score than its selected parent |
| `VirtualResolution.VirtualProcessor.CalculateState` | consensus/src/pipeline/virtual_processor/processor.rs:266-277 | for a committed selected parent and bodies for all that is merged: the diff leads to the state the rules give, with its multiset hash, accepted ids and fees |
| `VirtualResolution.VirtualProcessor.VerifyExpectedUtxoState` | consensus/src/pipeline/virtual_processor/utxo_validation.rs:112-149 | succeeds exactly if the commitments match the state and every transaction is valid in it |
| `VirtualResolution.VirtualProcessor.WalkDown` | consensus/src/pipeline/virtual_processor/processor.rs:236-251 | ends at a common block of both chains whose UTXO data are stored, with the accumulated diff leading to its set |
| `VirtualResolution.VirtualProcessor.StepUp` | consensus/src/pipeline/virtual_processor/processor.rs:257-291 | a stored diff is composed, a missing one calculated, verified and stored, a failing block or a child of one disqualified; no composition fails and the records stay right |
| `VirtualResolution.VirtualProcessor.WalkUp` | consensus/src/pipeline/virtual_processor/processor.rs:253-292 | at the new tip the accumulated diff leads to its set, or the tip is disqualified |
| `VirtualResolution.VirtualProcessor.CommitUtxoState` | consensus/src/pipeline/virtual_processor/processor.rs:360-369 | diff, multiset hash and status are entered together and everything stored stays right |
| `VirtualResolution.VirtualProcessor.Disqualify` | consensus/src/pipeline/virtual_processor/processor.rs:262-281 | marking a block that does not verify, or whose selected parent does not, keeps everything stored right |
| `VirtualResolution.VirtualProcessor.MoveVirtual` | consensus/src/pipeline/virtual_processor/processor.rs:300-345 | the stored set becomes the one sequential validation gives the virtual block, with its diff, multiset hash and accepted ids |
| `VirtualResolution.VirtualProcessor.ResolveVirtual` | consensus/src/pipeline/virtual_processor/processor.rs:224-354 | the heaviest tip is decided by the verdict of the rules; a valid one becomes the virtual selected parent and the stored set is the one the rules give the virtual block on top of it, a disqualified one leaves set and virtual state unchanged; no earlier decision is lost |
| `VirtualResolution.StoredSetIsFold` | consensus/src/pipeline/virtual_processor/processor.rs:318-336 | the stored UTXO set is the stored diffs of the selected chain applied from genesis on, and then the virtual diff |
| `NodeRuns.Run` | consensus/src/pipeline/virtual_processor/processor.rs:199-222 | over every run of headers, bodies and resolutions in any order that the label space has room for, everything stored belongs to the DAG so far, decisions stand, and what is stored about a block stays what its hash stands for |
| `NodeRuns.RunFromGenesis` | consensus/src/pipeline/virtual_processor/processor.rs:616-642 | so it does for every run from genesis |
| `NodeRuns.HeadersAgree` | consensus/src/pipeline/header_processor/processor.rs:282-371 | any two nodes of one network have the same past and the same GHOSTDAG data for every header that both know, each having computed them in its own order |
| `NodeRuns.NodesAgree` | consensus/src/pipeline/virtual_processor/processor.rs:253-354 | any two nodes of one network, after any runs, agree on the UTXO set and the verdict of every block both have; none stores it as valid while the other disqualified it, and valid blocks have the same multiset hash |
| `NodeRuns.VirtualsAgree` | consensus/src/pipeline/virtual_processor/processor.rs:300-345 | two nodes whose virtual blocks have the same parents and DAA score hold the same UTXO set, with the same data, multiset hash and accepted transactions |
| `Limbs.MulWide` | crypto/muhash/src/u3072.rs:232-235 | the double-width product |
| `Limbs.MulAdd3` | crypto/muhash/src/u3072.rs:257-264 | adds a product to a three-limb number exactly |
| `Limbs.MulNAdd3` | crypto/muhash/src/u3072.rs:241-252 | adds n times a three-limb number to a two-limb number exactly, with no carry lost |
| `Limbs.MulN2` | crypto/muhash/src/u3072.rs:269-277 | multiplies a two-limb number exactly |
| `U3072s.OverflowMeans` | crypto/muhash/src/u3072.rs:49-56 | the limb test is true exactly for numbers not below the modulus |
| `U3072s.FullReduce` | crypto/muhash/src/u3072.rs:78-88 | a number not below the modulus loses it exactly once |
| `U3072s.HighColumn` | crypto/muhash/src/u3072.rs:96-100 | the products that fall beyond the top limb, summed exactly |
| `U3072s.AddLowColumn` | crypto/muhash/src/u3072.rs:103-118 | the products of one column added exactly |
| `U3072s.MulColumns` | crypto/muhash/src/u3072.rs:91-121 | the columns with the high part folded back, as limbs and a carry within a bound that makes both assertions hold |
| `U3072s.ColumnsAre` | crypto/muhash/src/u3072.rs:94-121 | the columns add up to the schoolbook product |
| `U3072s.FoldedProduct` | crypto/muhash/src/u3072.rs:94-121 | the folded columns differ from the product by a multiple of the modulus |
| `U3072s.AddInto` | crypto/muhash/src/u3072.rs:125-132 | a two-limb number added to the limbs, the carry out returned |
| `U3072s.Mul` | crypto/muhash/src/u3072.rs:90-144 | for any two numbers, reduced or not, the result is below the modulus and congruent to the product |
| `MuHashes.Reduced` | crypto/muhash/src/u3072.rs:148-151 | the residue below the modulus |
| `MuHashes.Inverse` | crypto/muhash/src/u3072.rs:147-163 | an inverse of every invertible number, zero for zero |
| `MuHashes.Div` | crypto/muhash/src/u3072.rs:165-181 | the quotient by an invertible number below the modulus, zero for zero |
| `MuHashes.MuHash.AddElement` | crypto/muhash/src/lib.rs:59-62 | the fraction gains the element |
| `MuHashes.MuHash.RemoveElement` | crypto/muhash/src/lib.rs:67-70 | the fraction loses the element |
| `MuHashes.MuHash.Combine` | crypto/muhash/src/lib.rs:87-90 | the fraction gains the elements added and removed by the other |
| `MuHashes.MuHash.Normalize` | crypto/muhash/src/lib.rs:99-102 | the same fraction with denominator one and reduced numerator |
| `MuHashes.MuHash.Serialize` | crypto/muhash/src/lib.rs:105-108 | the residue that times the removed elements gives the added ones |
| `MuHashes.ProductOfMultiset` | crypto/muhash/src/lib.rs:59-90 | products do not depend on the order of the elements |
| `MuHashes.OnlyTheRest` | crypto/muhash/src/lib.rs:59-108 | elements that are added and removed again, each as often, leave the product over the rest, as if never added |
| `MuHashes.SerializedAlike` | crypto/muhash/src/lib.rs:99-108 | any two histories that come down to the same elements (what one added and the other removed, together, is what the other added and the one removed), the removed ones invertible, serialize to the same limbs |
| `DependencyManager.BlockTaskDependencyManager.Register` | consensus/src/pipeline/deps_manager.rs:52-70 | new exactly if the hash was not pending; otherwise senders are appended and a header-only block gives way to one with a body |
| `DependencyManager.BlockTaskDependencyManager.TryBegin` | consensus/src/pipeline/deps_manager.rs:76-88 | begins exactly if no direct parent is pending; otherwise the hash is appended to the dependents of the first pending parent |
| `DependencyManager.BlockTaskDependencyManager.End` | consensus/src/pipeline/deps_manager.rs:94-110 | task and dependents are handed back and exactly this hash stops being pending |
| `DependencyManager.HeaderPipeline.Receive` | consensus/src/pipeline/header_processor/processor.rs:233-254 | a job is queued exactly for a hash that was not pending, and every pending hash still has exactly one token |
| `DependencyManager.HeaderPipeline.Begin` | consensus/src/pipeline/header_processor/processor.rs:256-258 | a queued job becomes a processing one exactly if no direct parent is pending and otherwise waits with one pending parent; tokens and senders are kept |
| `DependencyManager.HeaderPipeline.Finish` | consensus/src/pipeline/header_processor/processor.rs:260-274 | its senders are served once (answered, or handed on with the block), its dependents queued once, and the invariants kept |
| `DependencyManager.Progress` | consensus/src/pipeline/header_processor/processor.rs:256-276 | while anything is pending some task is processing or can begin |
| `DependencyManager.AllServed` | consensus/src/pipeline/deps_manager.rs:94-118 | when nothing is pending every sender ever received has been served exactly once |
| `DependencyManager.HeaderPipeline.Drain` | consensus/src/pipeline/header_processor/processor.rs:256-276 | without new receptions every order of beginning and ending jobs is finite, and ends with nothing pending and every sender served exactly once |
| `Regrouping.Conv8To5` | crypto/addresses/src/bech32.rs:50-74 | the bits of the bytes, padded with zeros, in groups of five |
| `Regrouping.Conv5To8` | crypto/addresses/src/bech32.rs:77-94 | the bits of the symbols in groups of eight, the rest dropped |
| `Regrouping.RoundTrip` | crypto/addresses/src/bech32.rs:50-94 | bytes survive the passage through symbols, for every length |
| `Regrouping.RoundTripBack` | crypto/addresses/src/bech32.rs:50-94 | symbols survive the passage through bytes exactly if fewer than five bits are left over and all of them are zero |
| `Checksums.StepState` | crypto/addresses/src/bech32.rs:19-38 | a step is injective in the remainder |
| `Checksums.Window` | crypto/addresses/src/bech32.rs:14-40 | over at most eight symbols remainders differ exactly as the numbers the symbols spell |
| `Checksums.BurstDetected` | crypto/addresses/src/bech32.rs:14-40 | replacing at most eight consecutive symbols always changes the remainder |
| `Bech32.Polymod` | crypto/addresses/src/bech32.rs:14-40 | the loop computes the remainder of the symbols |
| `Bech32.LettersRead` | crypto/addresses/src/bech32.rs:3-10 | the two character tables are inverse: every symbol string is read back |
| `Bech32.ReadStops` | crypto/addresses/src/bech32.rs:112-124 | reading fails at the first character outside the set, with DecodingError of that character, or with a panic if it lies beyond the table |
| `Bech32.ReadSymbols` | crypto/addresses/src/bech32.rs:112-124 | the symbols of the string, or what stopped the reading |
| `Bech32.EncodePayload` | crypto/addresses/src/bech32.rs:97-108 | writes the string that the symbol and checksum definitions give |
| `Bech32.DecodePayload` | crypto/addresses/src/bech32.rs:110-137 | for every string the outcome that the definitions give, including the inputs on which the source panics |
| `Bech32.EncodeDecodes` | crypto/addresses/src/bech32.rs:97-137 | decoding an encoded address gives the address back, for every version and payload |
| `Bech32.ChecksMeans` | crypto/addresses/src/bech32.rs:125-133 | comparing the checksum with the one read is asking whether all symbols together leave remainder one |
| `Bech32.DecodeMeans` | crypto/addresses/src/bech32.rs:110-137 | a string over the set is BadChecksum exactly if it is no code word, and accepted exactly if it is one of at least ten characters |
| `Bech32.CorruptionDetected` | crypto/addresses/src/bech32.rs:131-133 | a valid address changed anywhere within eight consecutive characters, to other characters of the set, is BadChecksum; a single substitution is the simplest case |
| `Bech32.OtherNetworkRejected` | crypto/addresses/src/bech32.rs:126-133 | an address valid for one network is BadChecksum for every other |
| `Bech32.DecodeEncodes` | crypto/addresses/src/bech32.rs:97-137 | encoding a decoded address gives the string back exactly if its payload symbols are the padded form of their bytes |
| `Bech32.LeftoverIgnored` | crypto/addresses/src/bech32.rs:76-94 | a concrete accepted string that is not the one its address is written as |
| `Bech32.StringRoundTrip` | crypto/addresses/src/lib.rs:93-108 | every address survives being written with its prefix and parsed |
| `Bech32.StringInjective` | crypto/addresses/src/lib.rs:93-97 | different addresses have different strings |

## Left out

- Databases, write batches, the staging store, locks and threads: stores are maps, and a section under a lock is one step.
- DAA score, difficulty and median time: the DAA score of a header, and of the virtual block, is an input.
- The header commitments and the expected coinbase: whether they match the multiset hash, the accepted ids and the fees of the merged blocks is one function parameter (`matches`).
- Merkle root, mass, lock times and subsidy of a body: three flags that come with it (`Checks`).
- BlockBodies.ValidateTxInIsolation: lengths of scripts, gas, payload and version are not part of the model; one of the flags stands for them.
- Validation of headers: runs are over headers that pass it (`Acceptable`); invalid ones do not reach the stores.
- The search for another chain when the heaviest tip is disqualified: the source has it as an open task.
- The merge depth root is a parameter of the virtual-parent selection; its store and the finality point are not modelled.
- Block rewards other than fees, acceptance data, and the sort of accepted ids before their merkle root.
- Script, signature, mass, lock-time and coinbase-maturity checks: one function parameter of transaction validation that sees transaction, entries and DAA score.
- Hash functions, element expansion by ChaCha20, byte serialization of U3072 and `finalize` of the multiset hash: elements and results are limb sequences.
- `deserialize` of the multiset hash and conversions to `Uint3072`.
- `wait_for_idle`, shutdown messages and the scheduling of the body stage behind the header stage of the pipeline.
- The multiset hash of the virtual state is kept as the limbs that serializing it gives.
- Pruning, proofs of pruning, relations above level zero and `ORIGIN` as a block of its own.
- Test-only address prefixes; characters are code points, which for the ASCII range the table covers are the bytes of the source, and anything beyond panics in both.
- RPC, wallet, mempool, networking and the simulator.
- U3072s.Mul: stated for 2 to 2^20 limbs of 64 bits, because the bound on the carry is proved for that range; the source has 48.
- BlockWindows.BoundedSizeBlockHeap.TryPush: the heap is a set with its least element, not an array; how the binary heap orders its array is not modelled.
- GhostdagProtocol.GhostdagManager.SortBlocks: the result is the sorted list; the in-place sorting of the library is not modelled.
- RootMovement.TryAdvancingReindexRoot: the levels of a move are concentrated one by one as in the source; that other readers see none of the states in between is the lock's doing.
