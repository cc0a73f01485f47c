# Verified models of three PARSEC programs

This project models, in Dafny, the algorithms at the core of three programs of the repository, and proves what they are for. The code
that changes state in place is modelled by classes and methods over the same fields; protocols between threads are step relations, and
their theorems hold for every schedule. Two observations about the code come first.

- `release_node_array_after_mining` reads each entry of `thread_finish_status` in a test and again in the assignment behind it. If these
  are two loads and there are three threads or more, a thread can finish in between, and the maximum found becomes smaller than the entry
  of another thread looked at before: node lists are freed while that thread mines one of them. `FpRelease.ReleaseIsSafe` says exactly
  when this cannot happen; `FpRelease.TwoLoadsFail` has the run.
- `partition` (the quicksort of freqmine) needs no element to the left of its segment as a stop for the down-scan. The scan may leave
  the segment, but it stops at index 0, and the exchange made there is undone by the second exchange behind the loop.

## freqmine

FP-growth. A transaction is a list of items in the order of their frequency; the first `num_hot_item` items form a bitmask.

- `Transactions`, `Mining`, `Powerset`: support, what it means to list the frequent itemsets exactly, and the combinatorics of the
  single-path shortcut.
- `FpShape`, `FpInsertion`, `FpLinking`, `FpTrees`, `HotBits`: the prefix tree of `Fnode`s with its first-child / right-sibling links, the
  index of hot nodes by bitmask, the cache `fast_rightsib_table`, and the counters `nodenum` and `new_data_num`. Pointers are indices into
  the sequence of nodes allocated so far.
- `FpArrays`, `FpTransform`, `FpPatterns`: the backwards-filled array of overlapping paths and the lists of entries per item.
- `FpLevels`, `FpSinglePath`, `FpThreads`, `PairedSort`, `FpGrowth`: one level of the recursion: pattern base, new table, conditional tree,
  and the recursion itself.
- `FpDatabase`, `FpScatter`, `FpSegments`: the first scan, the encoding of the blocks by several threads, the parallel counting scatter of
  `database_tiling`, one word at a time in any interleaving, the sharing of the work, and the reading of the segments.
- `FpFirst`: `FP_growth_first`, with its items shared out among threads and its array narrowed on the way down, and `printLen`.
- `FpMiner`: the whole way from the blocks of the data file to the report.
- `FpRelease`, `FpReleased`: the release protocol of the node lists, with outdated reads of the statuses: what must not be freed, and what is.

## dedup

Chunks are numbered by place in the stream, or by the two-level number of `sequence_t`. SHA1 sums are numbers.

- `Chunking`, `RoundTrip`, `Mbuffers`: fragmentation, its independence of buffering, shared views of memory, and the round trip. A segmenter
  stands for `rabinseg`: it returns an offset from 1 to the length and does not look behind the offset it finds.
- `DedupProtocol`, `DedupRuns`: the pthread pipeline as a step relation over the chunks, the table, the queues and the threads.
- `Reorder`: the reorder stage, with its array, its search tree of priority queues, and `next`.
- `Hashtables`: the chained hash table as a collection of pairs, which is a map as long as only absent keys are inserted.
- `Farms`, `FarmRoutes`, `FarmRuns`, `FarmBounds`: the "last" token in the FastFlow pipeline of farms, which chunks go round the compression
  stage, and why every run ends.

## fluidanimate

- `FluidBlocks`, `FluidRebuild`: the cells as chains of blocks from a pool, and the serial `RebuildGrid`.
- `FluidPartition`: the grids of the threads and the border flags.
- `FluidParallel`, `FluidInterleavings`: `RebuildGridMT` as a step relation; every interleaving refines the serial rebuild.

## What is assumed of code outside the model

- The helpers of rabin.c are not part of this model: a segmenter has the two properties above. Compression has a left inverse. SHA1 is
  injective on the chunks of the input.
- Queues, condition variables and mutexes do what their names say. tree.c and heap.c are not part of this model: the search tree is a map, a
  priority queue a sorted list.
- The memory pools of freqmine hand out fresh memory; `freebuf` gives back what has been allocated since the mark. cellpool.cpp is not part
  of this model: a pool hands out blocks that nobody has, with an empty link.
- `parseDataFile` (not part of this model) delivers blocks of item numbers, transactions separated by -1, and the number of transactions
  that every item is in.
- Particles move one cell at most per axis and time step, as the code says at the place of the lock.
- The sequences of FP_growth_first are handed out to the threads one at a time, in descending order, by one counter: that is what
  `schedule(dynamic,1)` does in fp_tree.cpp, and FastFlow's `parallel_for_thid` with step and grain 1 and without stealing in fp_tree_ff.cpp.
- In the pipeline of farms the channels never fill up, and what the lookups say is given: a chunk that is found is one of the same stream
  whose own lookup has found nothing, as DedupProtocol.DeduplicateKeeps has it for the table.
- Integers are unbounded but for the hash function, which is 32 bits wide; positions are real numbers.

## Model

| member | source | states |
|---|---|---|
| FpMiner.MineFile | parsec-ff/pkgs/apps/freqmine/src/fpmax.cpp:129-183 | For every file, every number of threads, every way of giving them the blocks and the items, every schedule of the scatter and every THRESHOLD of at least 1 the report lists each itemset with that support once, with its support, and nothing else; the numbers printed are those of the frequent sets of 1, 2, ... items, and there are no longer ones |
| FpMiner.EncodeFile | parsec-ff/pkgs/apps/freqmine/src/fp_tree.cpp:542-635 | Whichever thread gets a block, each of its transactions gets one record there, which stands for exactly its frequent items; the sizes by bitmask are right |
| FpMiner.TxnsAreAll | parsec-ff/pkgs/apps/freqmine/src/fp_tree.cpp:542-543 | When the blocks are shared out among the threads no transaction is lost and none comes twice |
| FpMiner.TileFile | parsec-ff/pkgs/apps/freqmine/src/fp_tree.cpp:527-753 | The records that the threads leave in the array, read back segment by segment, and those with hot items only, have the supports of the file |
| FpMiner.SortByMask | parsec-ff/pkgs/apps/freqmine/src/fp_tree.cpp:639-753 | Offsets, scatter and reading together: whatever the schedule, what comes back stands for exactly the transactions that were encoded |
| FpMiner.Scan2Order | parsec-ff/pkgs/apps/freqmine/src/fp_tree.cpp:1063-1090 | What scan2_DB reads from the segments, down the sorted list of bitmasks, together with the bitmasks that only hot_node_count knows of, stands for exactly the transactions of the file |
| FpMiner.AnyOrder | parsec-ff/pkgs/apps/freqmine/src/fp_tree.cpp:1062-1063 | The order in which records are inserted does not matter for the supports |
| FpMiner.NoLargerSets | parsec-ff/pkgs/apps/freqmine/src/fp_tree.cpp:779-781 | No frequent set has more items than the table: ITlen needs itemno places |
| FpFirst.MineDatabase | parsec-ff/pkgs/apps/freqmine/src/fp_tree.cpp:1300-1440 | Building the tree and mining it with any number of threads: the report is exactly the frequent itemsets, the numbers printed are their numbers by size |
| FpFirst.GrowFirst | parsec-ff/pkgs/apps/freqmine/src/fp_tree.cpp:1300-1440 | FP_growth_first: whichever thread gets which item, the outputs of all threads together are exactly the frequent itemsets, each once, and the counters of each thread tally with its own output |
| FpFirst.MineRange | parsec-ff/pkgs/apps/freqmine/src/fp_tree.cpp:1357-1439 | One parallel loop: however its positions are shared out, what the threads have found grows by exactly the sets whose last item is at one of them |
| FpFirst.MineShare | parsec-ff/pkgs/apps/freqmine/src/fp_tree.cpp:1358-1438 | One position by one thread, with the arrays, list, counters and output of that thread alone |
| FpFirst.ChangeWidth | parsec-ff/pkgs/apps/freqmine/src/fp_tree.cpp:1336-1355 | Before each loop the mark is the smallest of 0xff, 0xffff and 0xffffffff that no position of the loop reaches, and every list of those positions can still be read |
| FpFirst.NarrowKeeps | parsec-ff/pkgs/apps/freqmine/src/fp_tree.cpp:431-436 | Masking the array to a narrower width leaves the lists of the items that fit as they are: no item changes, none becomes the mark |
| FpFirst.PrintLen | parsec-ff/pkgs/apps/freqmine/src/fpmax.cpp:90-102 | Adding up the counters of all threads gives the number of sets of every size in their outputs; exactly the zeros at the end are not printed |
| Mining.MinedAnyway | parsec-ff/pkgs/apps/freqmine/src/fp_tree.cpp:1376-1377 | Whether a report is exact does not depend on the order of its lines, so the threads may print in any order |
| FpGrowth.Growth.Grow | parsec-ff/pkgs/apps/freqmine/src/fp_tree.cpp:1464-1560 | FP_growth on any conditional tree: every frequent extension of the prefix is emitted once with its support, nothing else, and ITlen grows by the number of emissions of each length |
| FpGrowth.Growth.MineItem | parsec-ff/pkgs/apps/freqmine/src/fp_tree.cpp:1482-1558 | One round for the item at position sequence: the item with the prefix, then exactly its frequent extensions by earlier items; the list is restored |
| FpGrowth.Growth.MineConditional | parsec-ff/pkgs/apps/freqmine/src/fp_tree.cpp:1515-1556 | The conditional tree is built from the pattern base and mined: exactly the extensions by frequent earlier items come out |
| FpGrowth.Growth.MineFew | parsec-ff/pkgs/apps/freqmine/src/fp_tree.cpp:1499-1513 | The shortcuts for no and for one frequent item emit exactly what mining a tree would |
| FpGrowth.Growth.MineSinglePath | parsec-ff/pkgs/apps/freqmine/src/fp_tree.cpp:1531-1546 | A tree with a single path: the subsets of the path and the binomial counts are exactly the frequent sets and their numbers |
| FpGrowth.Growth.PathNames | parsec-ff/pkgs/apps/freqmine/src/fp_tree.cpp:1533-1536 | The names along a single path are those of the whole table, in order |
| FpGrowth.Growth.CountSubsets | parsec-ff/pkgs/apps/freqmine/src/fp_tree.cpp:1537-1542 | The loop `temp = (temp * i2) / i1` adds the binomial coefficient C(n, i1) to every ITlen entry |
| FpGrowth.Growth.PrintSubsets | parsec-ff/pkgs/apps/freqmine/src/fp_tree.cpp:1225-1241 | powerset emits the subsets of the remaining items behind the prefix, each with the support looked up for its last item |
| FpGrowth.TalliedSubsets | parsec-ff/pkgs/apps/freqmine/src/fp_tree.cpp:1537-1542 | The binomial counts are the numbers of subsets printed, size by size |
| Mining.LevelMined | parsec-ff/pkgs/apps/freqmine/src/fp_tree.cpp:1477-1558 | When all items of a level are done, everything frequent has been emitted: infrequent items occur in no frequent set |
| Mining.LevelStep | parsec-ff/pkgs/apps/freqmine/src/fp_tree.cpp:1477-1513 | One item and its extensions extend the emissions of a level without gap or repetition |
| Mining.OneFrequent | parsec-ff/pkgs/apps/freqmine/src/fp_tree.cpp:1501-1507 | With one frequent item left, that item with the prefix is all there is to emit |
| Mining.CountsAreFrequentSets | parsec-ff/pkgs/apps/freqmine/src/fp_tree.cpp:1486-1486 | The number of emissions of length n is the number of frequent sets of n items |
| Powerset.ChooseStep | parsec-ff/pkgs/apps/freqmine/src/fp_tree.cpp:1539-1542 | Each division of the loop is exact: k * C(n, k) == (n - k + 1) * C(n, k - 1) |
| Powerset.SubsetsExact | parsec-ff/pkgs/apps/freqmine/src/fp_tree.cpp:1225-1241 | The subsets printed by powerset are exactly the frequent ones that start with the prefix, each once |
| Powerset.SinglePathMined | parsec-ff/pkgs/apps/freqmine/src/fp_tree.cpp:1243-1246 | generate_all on the whole path mines its level exactly |
| Powerset.SubsetsBySize | parsec-ff/pkgs/apps/freqmine/src/fp_tree.cpp:1537-1544 | powerset prints C(n, i) sets with i of the n items |
| FpSinglePath.SinglePathSupports | parsec-ff/pkgs/apps/freqmine/src/fp_tree.cpp:1225-1233 | On a single path the support of a set is the count of its last item, which is what powerset prints |
| FpSinglePath.ChainItems | parsec-ff/pkgs/apps/freqmine/src/fp_tree.cpp:1533-1535 | The nodes on a single path carry the items 0, 1, 2, ... without gaps |
| FpSinglePath.ChainEnd | parsec-ff/pkgs/apps/freqmine/src/fp_tree.cpp:1533-1539 | The single path has a node for every item: its length is new_item_no |
| FpLevels.ChildLevel | parsec-ff/pkgs/apps/freqmine/src/fp_tree.cpp:324-337 | The filtered items are exactly those that are frequent together with the prefix and the current item, with their supports |
| FpLevels.ChildRepresents | parsec-ff/pkgs/apps/freqmine/src/fp_tree.cpp:343-393 | The conditional tree, over new positions, has the supports of the original database extended by the prefix and the item |
| FpLevels.RelabelledContains | parsec-ff/pkgs/apps/freqmine/src/fp_tree.cpp:371-382 | A set is contained in a relabelled entry exactly when the old set is contained in the entry |
| FpThreads.ThreadArrays.CountPath | parsec-ff/pkgs/apps/freqmine/src/fp_tree.cpp:319-323 | Following a path to the mark adds the entry to the support of exactly its items |
| FpThreads.ThreadArrays.SumSupports | parsec-ff/pkgs/apps/freqmine/src/fp_tree.cpp:309-325 | Afterwards the support of every earlier item within the entries of the current one is known |
| FpThreads.ThreadArrays.ConditionalPatternBase | parsec-ff/pkgs/apps/freqmine/src/fp_tree.cpp:298-341 | Returns the number of items frequent together with the current one and lists them with their supports; the supports are zero again, and infrequent items get position -1 |
| FpThreads.ThreadArrays.FilterOne | parsec-ff/pkgs/apps/freqmine/src/fp_tree.cpp:329-336 | One item kept or dropped; its support is reset |
| FpThreads.ThreadArrays.Scan1 | parsec-ff/pkgs/apps/freqmine/src/fp_tree.cpp:1188-1223 | The table in descending order of support, for every old item its new position or -1, and an index of hot items of at most an eighth of the size of all entries |
| FpThreads.ThreadArrays.ReadEntry | parsec-ff/pkgs/apps/freqmine/src/fp_tree.cpp:368-382 | The bitmask has exactly the hot positions of the entry, origin exactly the others |
| FpThreads.ThreadArrays.FillCount | parsec-ff/pkgs/apps/freqmine/src/fp_tree.cpp:1040-1052 | The marked positions in ascending order; origin is zero again |
| FpThreads.ThreadArrays.ScanEntry | parsec-ff/pkgs/apps/freqmine/src/fp_tree.cpp:364-391 | Bitmask and list together are exactly the new positions of the frequent items of the entry |
| FpThreads.ThreadArrays.Scan2 | parsec-ff/pkgs/apps/freqmine/src/fp_tree.cpp:343-429 | The tree of the relabelled entries, complete with its node and slot counts |
| FpTrees.FpTree.constructor | parsec-ff/pkgs/apps/freqmine/src/fp_tree.cpp:508-525 | The root alone, no other node, empty index and cache |
| FpTrees.FpTree.FindChild | parsec-ff/pkgs/apps/freqmine/src/fp_tree.cpp:962-973 | Finds the child with an item exactly when there is one |
| FpTrees.FpTree.ConsultCache | parsec-ff/pkgs/apps/freqmine/src/fp_tree.cpp:948-957 | The cache entry decides as the search would: a hit is the child, a null entry means that there is no such child |
| FpTrees.FpTree.Descend | parsec-ff/pkgs/apps/freqmine/src/fp_tree.cpp:959-977 | Counts along the existing prefix of the transaction and stops at the first missing node |
| FpTrees.FpTree.FirstNode | parsec-ff/pkgs/apps/freqmine/src/fp_tree.cpp:981-1002 | The first new node is linked as first child or second sibling, is cached where a lookup had missed, and its slots are reserved |
| FpTrees.FpTree.ChainNode | parsec-ff/pkgs/apps/freqmine/src/fp_tree.cpp:1003-1014 | Every further new node is the only child of the one before |
| FpTrees.FpTree.Insert | parsec-ff/pkgs/apps/freqmine/src/fp_tree.cpp:940-1018 | Exactly the nodes on the path of the transaction exist afterwards and count its weight more; the cache agrees with the tree, and nodenum and new_data_num with the nodes |
| FpTrees.FpTree.TouchHot | parsec-ff/pkgs/apps/freqmine/src/fp_tree.cpp:384-387 | The hot node of a bitmask exists; nothing else changes |
| FpTrees.FpTree.AddTransaction | parsec-ff/pkgs/apps/freqmine/src/fp_tree.cpp:383-392 | The counts of all nodes and bitmasks are those of the transactions so far, the new one included |
| FpTrees.FpTree.LinkOne | parsec-ff/pkgs/apps/freqmine/src/fp_tree.cpp:399-423 | A hot node goes below its parent and hands its weight on; masks above i are done |
| FpTrees.FpTree.LinkHotNodes | parsec-ff/pkgs/apps/freqmine/src/fp_tree.cpp:394-428 | The result is the prefix tree of the transactions: one node per prefix, counting the transactions that begin with it; new_data_num is the sum of leaf depths plus one, nodenum is exact, index and cache are empty |
| FpTrees.FpTree.ClearCache | parsec-ff/pkgs/apps/freqmine/src/fp_tree.cpp:425-428 | The backpatch loop resets every entry of the cache |
| FpTrees.FpTree.SinglePath | parsec-ff/pkgs/apps/freqmine/src/fp_tree.cpp:1248-1255 | True exactly when no node has two children |
| FpInsertion.NextAbsent | parsec-ff/pkgs/apps/freqmine/src/fp_tree.cpp:968-969 | If a prefix is missing, so are all longer ones: the rest of a transaction needs new nodes |
| FpInsertion.FastAdd | parsec-ff/pkgs/apps/freqmine/src/fp_tree.cpp:982-986 | A new node keeps the cache exact: an entry is null exactly when that first child is absent |
| FpLinking.SettledIsPrefixWeight | parsec-ff/pkgs/apps/freqmine/src/fp_tree.cpp:402-404 | What the linking loop has handed to bitmask i when it gets there is the weight of the transactions whose hot items begin with those of i |
| FpLinking.LinkingDone | parsec-ff/pkgs/apps/freqmine/src/fp_tree.cpp:399-423 | After the loop the counts of all nodes, hot and not, are prefix weights |
| FpLinking.LinkSlots | parsec-ff/pkgs/apps/freqmine/src/fp_tree.cpp:413-415 | The slots added when a hot node is linked keep new_data_num the sum of leaf depths |
| HotBits.SettleIsPrefix | parsec-ff/pkgs/apps/freqmine/src/fp_tree.cpp:402-403 | Clearing top bits leads from m to i exactly when the items of i are a prefix of those of m |
| HotBits.BelowPow2 | parsec-ff/pkgs/apps/freqmine/src/fp_tree.cpp:398-399 | The bitmasks of items below num_hot_item are exactly those below 1 << num_hot_item |
| FpTransform.Flattening.constructor | parsec-ff/pkgs/apps/freqmine/src/fp_tree.cpp:124-141 | The array has new_data_num + 1 places, the stack holds the first top-level node |
| FpTransform.Flattening.LeafSibling | parsec-ff/pkgs/apps/freqmine/src/fp_tree.cpp:146-156 | A childless sibling shares the path of the branch before it: its entry begins at kept_itemiter, and no slot is written |
| FpTransform.Flattening.WritePrefix | parsec-ff/pkgs/apps/freqmine/src/fp_tree.cpp:158-164 | A new branch starts with the mark, over the leaf slot of the previous one, and the items of its open levels |
| FpTransform.Flattening.PushNode | parsec-ff/pkgs/apps/freqmine/src/fp_tree.cpp:165-177 | One more node on the branch: its item is written, and its entry begins where its ancestors start |
| FpTransform.Flattening.Branch | parsec-ff/pkgs/apps/freqmine/src/fp_tree.cpp:157-180 | A branch down to a leaf; all entries recorded before keep their paths |
| FpTransform.Flattening.Transform | parsec-ff/pkgs/apps/freqmine/src/fp_tree.cpp:115-185 | Every node but the root has exactly one entry, with its count, and following it from `begin` to the mark gives its ancestors; no write leaves the array |
| FpArrays.EntriesKept | parsec-ff/pkgs/apps/freqmine/src/fp_tree.cpp:158-164 | Overwriting the leaf slot of the previous branch changes no recorded path |
| FpArrays.RoomForLeaf | parsec-ff/pkgs/apps/freqmine/src/fp_tree.cpp:129-135 | The slots left cover the leaves still to be visited: itemiter stays inside the array |
| FpArrays.AllVisited | parsec-ff/pkgs/apps/freqmine/src/fp_tree.cpp:142-183 | When the stack is empty every node has been visited |
| FpPatterns.EntriesAreNodes | parsec-ff/pkgs/apps/freqmine/src/fp_tree.cpp:151-154 | The entries of an item are the nodes of that item, each once |
| FpPatterns.DecodeIsConditionalBase | parsec-ff/pkgs/apps/freqmine/src/fp_tree.cpp:298-323 | Reading the entries of an item back gives the ancestors and counts of its nodes; supports read off them are those of the sets with the item added |
| FpPatterns.ReadBackPath | parsec-ff/pkgs/apps/freqmine/src/fp_tree.cpp:319-321 | Reading from `begin` to the mark gives the path that was written |
| FpPatterns.AncestorsAreNotMarks | parsec-ff/pkgs/apps/freqmine/src/fp_tree.cpp:1464-1474 | With marks 0xff and 0xffff for at most 0x100 and 0x10000 items no ancestor looks like the mark |
| FpPatterns.ListsFitExactly | parsec-ff/pkgs/apps/freqmine/src/fp_tree.cpp:131-134 | nodenum[item] is exactly the number of entries written for the item |
| FpPatterns.TreeIsFlattenable | parsec-ff/pkgs/apps/freqmine/src/fp_tree.cpp:115-141 | The tree left by the linking loop, with its counts, is what transform needs |
| Transactions.EntriesSupport | parsec-ff/pkgs/apps/freqmine/src/fp_tree.cpp:309-325 | The weights of the entries of item s that contain Y add up to the support of Y with s |
| PairedSort.SortPairs | parsec-ff/pkgs/apps/freqmine/src/fp_tree.cpp:471-484 | Both arrays end up rearranged by the same permutation, the first one descending; no access is out of bounds |
| PairedSort.Sort | parsec-ff/pkgs/apps/freqmine/src/fp_tree.cpp:471-484 | The same for a segment; what lies outside of it stays |
| PairedSort.Partition | parsec-ff/pkgs/apps/freqmine/src/fp_tree.cpp:448-459 | Returns a split of the segment around the pivot; exchanges reaching outside of the segment are undone |
| PairedSort.Scans | parsec-ff/pkgs/apps/freqmine/src/fp_tree.cpp:451-452 | The up-scan stops at the pivot at the latest, the down-scan at 0 at the latest |
| PairedSort.InsSort | parsec-ff/pkgs/apps/freqmine/src/fp_tree.cpp:461-469 | Insertion sort of a segment, both arrays in step |
| FpDatabase.Scan1Db | parsec-ff/pkgs/apps/freqmine/src/fp_tree.cpp:770-801 | The table has exactly the frequent items, by falling count, and item_order their places, -1 for the others |
| FpDatabase.FirstRepresents | parsec-ff/pkgs/apps/freqmine/src/fp_tree.cpp:597-608 | The encoded transactions have the supports of the original ones |
| FpDatabase.Tile.ReadItem | parsec-ff/pkgs/apps/freqmine/src/fp_tree.cpp:597-608 | A hot item sets its bit, an infrequent one is dropped, another one is marked and counted once |
| FpDatabase.Tile.Close | parsec-ff/pkgs/apps/freqmine/src/fp_tree.cpp:570-594 | At the end of a transaction: record, size and bitmask count are exactly those of the transaction; the marks are taken back |
| FpDatabase.Tile.EncodeBlock | parsec-ff/pkgs/apps/freqmine/src/fp_tree.cpp:563-634 | Every transaction of a block is encoded, from the end of the block to its start |
| FpDatabase.TxnsAreContent | parsec-ff/pkgs/apps/freqmine/src/fp_tree.cpp:560-635 | The transactions of a block are all that lies between its marks: joined by marks, last to first, they are the block |
| FpScatter.TileIsFile | parsec-ff/pkgs/apps/freqmine/src/fp_tree.cpp:581-588 | What the first half of database_tiling leaves for a thread is a file of exactly its records with items that are not hot, and the sizes by bitmask |
| FpScatter.Offsets | parsec-ff/pkgs/apps/freqmine/src/fp_tree.cpp:651-660 | The segments lie one behind the other; sums, ends and the number of non-empty bitmasks are right |
| FpScatter.Iterators | parsec-ff/pkgs/apps/freqmine/src/fp_tree.cpp:718-724 | Every thread gets its own part of each segment, behind those of the threads before |
| FpScatter.AreasDisjoint | parsec-ff/pkgs/apps/freqmine/src/fp_tree.cpp:718-724 | No place of the array belongs to two threads or two bitmasks |
| FpScatter.MergeWork | parsec-ff/pkgs/apps/freqmine/src/fp_tree.cpp:698-712 | The merged ranges are consecutive from 0 to numusefulntype, at most 1025; each but the last has a 512th of the work or more, and none would have without its last bitmask |
| FpScatter.ShareWork | parsec-ff/pkgs/apps/freqmine/src/fp_tree.cpp:697-712 | The list starts with exactly the bitmasks that have records, by falling size, and the ranges cover it |
| FpScatter.RangesCover | parsec-ff/pkgs/apps/freqmine/src/fp_tree.cpp:702-712 | Every place of the list is in a range ... |
| FpScatter.RangesOrdered | parsec-ff/pkgs/apps/freqmine/src/fp_tree.cpp:702-712 | ... and in one only |
| FpScatter.HeadKeeps | parsec-ff/pkgs/apps/freqmine/src/fp_tree.cpp:738-743 | Reading the head of a record: the thread gets the next free places of its own part |
| FpScatter.CopyKeeps | parsec-ff/pkgs/apps/freqmine/src/fp_tree.cpp:744-745 | Copying a word disturbs no other thread and nothing copied before |
| FpScatter.ScatterIsExact | parsec-ff/pkgs/apps/freqmine/src/fp_tree.cpp:726-751 | For every schedule, in the end the segment [ntypeoffsetbase, ntypeoffsetend) of a bitmask holds exactly the records with that bitmask, thread by thread |
| FpScatter.ReadSegment | parsec-ff/pkgs/apps/freqmine/src/fp_tree.cpp:1079-1090 | Reading a segment as scan2_DB does meets exactly the item lists that were put there |
| FpSegments.CopyAll | parsec-ff/pkgs/apps/freqmine/src/fp_tree.cpp:726-751 | The copying loops of all threads, whichever goes next, come to an end, and what they did is a run |
| FpSegments.SegmentRecords | parsec-ff/pkgs/apps/freqmine/src/fp_tree.cpp:1079-1083 | The item lists read from the segment of a bitmask are those of its records, in their order |
| FpSegments.Rearrange | parsec-ff/pkgs/apps/freqmine/src/fp_tree.cpp:714-751 | Scatter and reading: whatever the schedule, going down a list of bitmasks one gets the records of all files with those bitmasks, grouped by them |
| FpScatter.EveryRecordOnce | parsec-ff/pkgs/apps/freqmine/src/fp_tree.cpp:1075-1080 | Going down the sorted list of non-empty bitmasks every record of every file is met exactly once |
| FpRelease.ReleaseIsSafe | parsec-ff/pkgs/apps/freqmine/src/fp_tree_ff.cpp:1256-1277 | No thread ever mines a sequence whose node list has been freed, in any interleaving and with outdated statuses of other threads, if and only if each status is loaded once per round, or there are two threads at most, or there are no more sequences than threads |
| FpRelease.InvStep | parsec-ff/pkgs/apps/freqmine/src/fp_tree_ff.cpp:1256-1277 | With one load per round (or one thread) the freed lists stay above all finish statuses |
| FpRelease.PairStep | parsec-ff/pkgs/apps/freqmine/src/fp_tree_ff.cpp:1256-1277 | With two threads and any number of loads what is still to be mined stays below the freed lists |
| FpRelease.SmallStep | parsec-ff/pkgs/apps/freqmine/src/fp_tree_ff.cpp:1256-1277 | Even with two loads nothing is freed before every thread has finished a sequence |
| FpRelease.TwoLoadsFail | parsec-ff/pkgs/apps/freqmine/src/fp_tree_ff.cpp:1261-1264 | With two loads, three threads or more and more sequences than threads there is a run that frees a list while it is being mined; the sequences are handed out in descending order by one counter |
| FpRelease.ReleasedDescends | parsec-ff/pkgs/apps/freqmine/src/fp_tree_ff.cpp:1266-1275 | released_pos never grows, and the lists freed are those from it on |
| FpReleased.AllReleased | parsec-ff/pkgs/apps/freqmine/src/fp_tree_ff.cpp:1256-1277 | In every run without outdated reads, with one load per round or one thread: when no thread is at work, exactly the lists from the greatest of the sequences on that the threads have had last are freed |
| FpReleased.NothingKept | parsec-ff/pkgs/apps/freqmine/src/fp_tree_ff.cpp:1256-1277 | Without outdated reads, whatever the number of loads, nothing that no thread can read any more is kept |
| FpReleased.OneThreadReleases | parsec-ff/pkgs/apps/freqmine/src/fp_tree_ff.cpp:1256-1277 | With one thread, in every run, exactly the lists from its last sequence on are freed whenever it is idle |
| FpReleased.RoundReleases | parsec-ff/pkgs/apps/freqmine/src/fp_tree_ff.cpp:1256-1277 | A round that no other thread interrupts frees exactly what lies from the greatest status on, if it has not been freed before |
| FpReleased.LoopsApart | parsec-ff/pkgs/apps/freqmine/src/fp_tree_ff.cpp:1338-1361 | Two threads are never busy with sequences of different loops of lowerbound_array |
| FpReleased.OneInside | parsec-ff/pkgs/apps/freqmine/src/fp_tree_ff.cpp:1266-1274 | The critical section has one thread in it at most |
| Reorder.SequenceOrder | parsec-ff/pkgs/kernels/dedup/src/dedupdef.h:93-114 | sequence_lt and sequence_eq are the order and equality of places in the stream |
| Reorder.ReorderStage.Grow | parsec-ff/pkgs/kernels/dedup/src/encoder.c:1256-1262 | The array is doubled at most once per arrival, and grows by zeros |
| Reorder.ReorderStage.Announce | parsec-ff/pkgs/kernels/dedup/src/encoder.c:1263-1267 | The number of fine chunks of a coarse chunk becomes known once; the assertion holds |
| Reorder.ReorderStage.Cache | parsec-ff/pkgs/kernels/dedup/src/encoder.c:1269-1286 | A chunk that is not next goes into the cache; cached chunks are all greater than `next` |
| Reorder.ReorderStage.Write | parsec-ff/pkgs/kernels/dedup/src/encoder.c:1291-1297 | The chunk written is the next in order; `next` moves to its successor |
| Reorder.ReorderStage.TakeNext | parsec-ff/pkgs/kernels/dedup/src/encoder.c:1299-1317 | pos stays the least key of the tree; a chunk is taken from the cache exactly when it is next |
| Reorder.ReorderStage.WriteRun | parsec-ff/pkgs/kernels/dedup/src/encoder.c:1288-1318 | After a run of writes the next chunk is not in the cache |
| Reorder.ReorderStage.Arrive | parsec-ff/pkgs/kernels/dedup/src/encoder.c:1250-1318 | After every arrival exactly the chunks before `next` have been written, in order |
| Reorder.ReorderStage.Flush | parsec-ff/pkgs/kernels/dedup/src/encoder.c:1325-1353 | Gets to the end exactly when, at entry, no chunk is missing before one that has arrived; else it stops at the L2 exit exactly if a chunk of the next anchor is left, at the L1 exit otherwise |
| Reorder.ReorderAll | parsec-ff/pkgs/kernels/dedup/src/encoder.c:1240-1353 | For every arrival order of a complete set whose numbers fit the array every chunk is written once, in lexicographic order, and the flush loop finds an empty cache |
| Reorder.AllWritten | parsec-ff/pkgs/kernels/dedup/src/encoder.c:1325-1353 | With everything received the cache is empty and everything has been written in order |
| Reorder.NotYetAnnounced | parsec-ff/pkgs/kernels/dedup/src/encoder.c:1265-1265 | The assertion that the entry of an anchor is still 0 |
| Reorder.FitsMeansInBounds | parsec-ff/pkgs/kernels/dedup/src/encoder.c:1256-1266 | Exactly when no arrival is looked up outside the array |
| Reorder.ShortStreamsFit | parsec-ff/pkgs/kernels/dedup/src/encoder.c:1229-1262 | Streams of at most twice chunks_per_anchor_max coarse chunks fit in every order |
| Reorder.LongStreamsNeedNotFit | parsec-ff/pkgs/kernels/dedup/src/encoder.c:1256-1266 | Every longer stream has a complete arrival order that does not fit |
| Reorder.EveryOrderFits | parsec-ff/pkgs/kernels/dedup/src/encoder.c:1229-1266 | A stream fits in every arrival order exactly if it has at most twice chunks_per_anchor_max coarse chunks |
| DedupProtocol.DeduplicateKeeps | parsec-ff/pkgs/kernels/dedup/src/encoder.c:499-526 | Looking up and registering a SHA1 sum under the bucket lock: the table keeps exactly the first-come chunk of every sum |
| DedupProtocol.CompressKeeps | parsec-ff/pkgs/kernels/dedup/src/encoder.c:326-402 | Compression makes the data of an original available; the assertion on the state holds |
| DedupProtocol.WriteKeeps | parsec-ff/pkgs/kernels/dedup/src/encoder.c:277-299 | write_chunk_to_file appends data if no earlier chunk has the same SHA1 sum, a fingerprint otherwise, even when the original comes later in the stream than its duplicate |
| DedupProtocol.DataOnce | parsec-ff/pkgs/kernels/dedup/src/encoder.c:288-295 | The data behind every SHA1 sum is written exactly once, before all fingerprints with that sum |
| DedupProtocol.MissMeansUnwritten | parsec-ff/pkgs/kernels/dedup/src/encoder.c:288-294 | Who misses the table is the first with its SHA1 sum, and no record with that sum has been written |
| DedupProtocol.ReorderSkipKeeps | parsec-ff/pkgs/kernels/dedup/src/encoder.c:1242-1249 | Reorder gives up only after all queues in a row have reported termination |
| DedupProtocol.StepKeeps | parsec-ff/pkgs/kernels/dedup/src/encoder.c:413-622 | Every step of every thread keeps the protocol invariant |
| DedupRuns.OutputIsSerial | parsec-ff/pkgs/kernels/dedup/src/encoder.c:277-299 | Schedule independence: in every run the records written are a prefix of the serial stream of the same chunk list: data exactly where a SHA1 sum is new, a fingerprint everywhere else |
| DedupRuns.DataAfterCompression | parsec-ff/pkgs/kernels/dedup/src/encoder.c:395-399 | Compressed data exists, now or formerly, of exactly the originals that are past the compression stage |
| DedupRuns.WaitedForIsUnderWay | parsec-ff/pkgs/kernels/dedup/src/encoder.c:281-286 | The original that Reorder waits for is with, or queued for, a Deduplicate or Compress thread |
| DedupRuns.EnqueueAssertions | parsec-ff/pkgs/kernels/dedup/src/encoder.c:600-615 | No queue gets a chunk after all its producers have terminated it |
| DedupRuns.Progress | parsec-ff/pkgs/kernels/dedup/src/encoder.c:1240-1251 | Until Reorder has ended some step is enabled |
| DedupRuns.RunsAreBounded | parsec-ff/pkgs/kernels/dedup/src/encoder.c:560-615 | No run has more than (q + 1) * (9 * chunks + 3 * threads) + q steps, with q queues |
| DedupRuns.QueuesInCircle | parsec-ff/pkgs/kernels/dedup/src/encoder.c:1244-1247 | In every run Reorder turns to its queues one after the other, in a circle |
| DedupRuns.EndedMeansDone | parsec-ff/pkgs/kernels/dedup/src/encoder.c:1248-1248 | reorder_que reports termination only after every chunk has been enqueued and written, as data or as a fingerprint as it should be |
| DedupRuns.EveryRunCompletes | parsec-ff/pkgs/kernels/dedup/src/encoder.c:1240-1353 | Every maximal run ends with a record for every chunk, in order: data exactly where the SHA1 sum is new |
| DedupRuns.SerialIntegratedPipeline | parsec-ff/pkgs/kernels/dedup/src/encoder.c:874-895 | The serial program, with its hash table, writes data exactly where a SHA1 sum is new, fingerprints for all other chunks |
| Chunking.CutIsConsecutive | parsec-ff/pkgs/kernels/dedup/src/encoder.c:1118-1171 | The pieces are not empty, and one behind the other they are the data |
| Chunking.CutsAtAnchors | parsec-ff/pkgs/kernels/dedup/src/encoder.c:1121-1141 | Every piece but the last ends at the first anchor more than ANCHOR_JUMP bytes behind its start, and behind the start of the last one there is none |
| Chunking.CutStable | parsec-ff/pkgs/kernels/dedup/src/encoder.c:1157-1163 | More data behind a buffer does not change where it has been cut |
| Chunking.FillBuffer | parsec-ff/pkgs/kernels/dedup/src/encoder.c:1066-1097 | However short the reads, the buffer gets the next MAXBUF bytes, or what is left |
| Chunking.SplitBuffer | parsec-ff/pkgs/kernels/dedup/src/encoder.c:1118-1171 | What goes out, followed by the cut of the rest, is the cut of everything; numbers go on without gap |
| Chunking.Fragment | parsec-ff/pkgs/kernels/dedup/src/encoder.c:1026-1172 | For every MAXBUF and pattern of short reads the coarse chunks are the pieces of the whole input between the anchors that are more than ANCHOR_JUMP bytes behind the cut before, numbered 0, 1, 2, ... |
| Chunking.FragmentRefine | parsec-ff/pkgs/kernels/dedup/src/encoder.c:637-760 | A coarse chunk is cut at all its anchors into consecutive fine chunks, numbered from 0, the last one marked |
| RoundTrip.ChunksAreTheInput | parsec-ff/pkgs/kernels/dedup/src/encoder.c:637-760 | The fine chunks, one behind the other, are the input |
| RoundTrip.SequenceIsPlace | parsec-ff/pkgs/kernels/dedup/src/encoder.c:1139-1141 | The two-level numbers put every fine chunk at its place in the input |
| RoundTrip.DecodeSerial | parsec-ff/pkgs/kernels/dedup/src/encoder.c:303-314 | Expanding the serial stream, looking fingerprints up among the data read before, gives back the chunks |
| RoundTrip.EncodeThenDecode | parsec-ff/pkgs/kernels/dedup/src/encoder.c:1373-1425 | What any complete run of the pipeline writes decodes to the input; it has the compressed data of every chunk that is new, and the SHA1 sum of every other one |
| Mbuffers.Mbuffer.Create | parsec-ff/pkgs/kernels/dedup/src/mbuffer.c:99-125 | A new allocation with one view of all of it |
| Mbuffers.Mbuffer.Split | parsec-ff/pkgs/kernels/dedup/src/mbuffer.c:268-299 | Two consecutive views whose bytes together are those of the old one; no other view notices |
| Mbuffers.Mbuffer.Free | parsec-ff/pkgs/kernels/dedup/src/mbuffer.c:187-213 | The memory goes exactly when the last view goes |
| Mbuffers.Mbuffer.Realloc | parsec-ff/pkgs/kernels/dedup/src/mbuffer.c:220-262 | Only the sole view of a whole allocation can be resized; it keeps its bytes |
| Hashtables.Hashtable.constructor | parsec-ff/pkgs/kernels/dedup/src/hashtable.c:69-105 | An empty table; its size is the first prime of the list above the size asked for |
| Hashtables.Hashtable.LockGuardsKey | parsec-ff/pkgs/kernels/dedup/src/hashtable.c:121-128 | An entry with a key lies in the bucket that getlock locks |
| Hashtables.Hashtable.Search | parsec-ff/pkgs/kernels/dedup/src/hashtable.c:227-242 | Returns a value that the table has for the key, and nothing exactly if it has none |
| Hashtables.Hashtable.Insert | parsec-ff/pkgs/kernels/dedup/src/hashtable.c:193-223 | The pair is in the table once more, whether or not the key was there before; without expansion only its own bucket changes; with it the load limit is kept as long as there is a greater prime |
| Hashtables.InsertIsUpdate | parsec-ff/pkgs/kernels/dedup/src/hashtable.c:193-223 | As long as only absent keys are inserted the table is a map, and inserting updates it |
| Hashtables.SearchIsLookup | parsec-ff/pkgs/kernels/dedup/src/hashtable.c:227-284 | While the table is a map searching is looking up, and removing is deleting |
| Hashtables.Hashtable.Expand | parsec-ff/pkgs/kernels/dedup/src/hashtable.c:133-157 | Takes the next prime if there is one, keeps all pairs, and puts each into the bucket of its hash value |
| Hashtables.Hashtable.MoveBucket | parsec-ff/pkgs/kernels/dedup/src/hashtable.c:146-154 | Empties a bucket head by head, whatever the order of its entries |
| Hashtables.Hashtable.Remove | parsec-ff/pkgs/kernels/dedup/src/hashtable.c:253-284 | Takes one pair with the key out and returns its value, and nothing exactly if there is none; only its own bucket changes |
| Farms.ServiceCount | parsec-ff/pkgs/kernels/dedup/src/encoder_ff_pipeoffarms.cpp:514-566 | A worker neither loses nor doubles a chunk |
| Farms.ServiceShape | parsec-ff/pkgs/kernels/dedup/src/encoder_ff_pipeoffarms.cpp:554-565 | A worker passes the token on exactly when it gets it, as the last thing and with empty buffers |
| Farms.EmitKeeps | parsec-ff/pkgs/kernels/dedup/src/encoder_ff_pipeoffarms.cpp:1109-1125 | The emitter gives every buffer to one worker, the token to all, and the farm stays in order |
| Farms.ServeKeeps | parsec-ff/pkgs/kernels/dedup/src/encoder_ff_pipeoffarms.cpp:393-430 | A worker's step keeps the farm in order |
| FarmRoutes.ServiceRoutes | parsec-ff/pkgs/kernels/dedup/src/encoder_ff_pipeoffarms.cpp:514-566 | A worker of Deduplicate puts duplicates into buffers that bypass compression and originals into the others, a worker of Compress passes the former on as they are; buffers are sent when they are full and never hold more |
| FarmRoutes.OriginalsAreCompressed | parsec-ff/pkgs/kernels/dedup/src/encoder_ff_pipeoffarms.cpp:534-551 | Among such buffers an original is in one that has not bypassed compression |
| Farms.CollectKeeps | parsec-ff/pkgs/kernels/dedup/src/encoder_ff_pipeoffarms.cpp:1135-1145 | The collector forwards everything, the token only when it comes for the nw-th time |
| FarmRuns.StepKeeps | parsec-ff/pkgs/kernels/dedup/src/encoder_ff_pipeoffarms.cpp:908-925 | Every step of every node keeps the invariant of the pipeline |
| FarmRuns.AtMostOneToken | parsec-ff/pkgs/kernels/dedup/src/encoder_ff_pipeoffarms.cpp:1137-1143 | In every run a collector sends the token once at most, and as the last thing |
| FarmRuns.DuplicatesBypass | parsec-ff/pkgs/kernels/dedup/src/encoder_ff_pipeoffarms.cpp:534-562 | In every run, in what the last two farms send, a chunk is in a bypass buffer exactly if it is a duplicate |
| FarmRuns.OriginalsComeCompressed | parsec-ff/pkgs/kernels/dedup/src/encoder_ff_pipeoffarms.cpp:534-551 | In every run every original that Reorder has has come out of the compression stage |
| FarmRuns.TokenMeansAll | parsec-ff/pkgs/kernels/dedup/src/encoder_ff_pipeoffarms.cpp:1137-1143 | A farm that has sent the token has sent every chunk of its input, once, and is empty |
| FarmRuns.ReorderHasAll | parsec-ff/pkgs/kernels/dedup/src/encoder_ff_pipeoffarms.cpp:1055-1097 | Reorder counts its nw-th token only after every chunk has arrived, the buffers that bypass compression included, and every original compressed |
| FarmRuns.Progress | parsec-ff/pkgs/kernels/dedup/src/encoder_ff_pipeoffarms.cpp:1055-1058 | No run stops before Reorder has seen its nw-th token, even if Reorder, as the compressed data of an original is not there yet, takes no buffer |
| FarmRuns.WaitedForMoves | parsec-ff/pkgs/kernels/dedup/src/encoder_ff_pipeoffarms.cpp:980-1058 | The chunk whose data Reorder may be waiting for has a step to make before or in the compression stage |
| FarmRuns.MaximalRunsEnd | parsec-ff/pkgs/kernels/dedup/src/encoder_ff_pipeoffarms.cpp:1135-1145 | Every run that cannot go on has forwarded exactly one token from each collector, as the last thing, and every chunk |
| FarmBounds.StepCost | parsec-ff/pkgs/kernels/dedup/src/encoder_ff_pipeoffarms.cpp:1109-1145 | Every step of every node brings the pipeline nearer to its end |
| FarmBounds.RunsAreBounded | parsec-ff/pkgs/kernels/dedup/src/encoder_ff_pipeoffarms.cpp:1109-1145 | No run is longer than a bound that depends on the source, the number of workers and the buffers only |
| FluidBlocks.BlocksStep | parsec-ff/pkgs/apps/fluidanimate/src/serial.cpp:382-387 | A new block is due exactly when the next particle is the first of a block other than the static one |
| FluidBlocks.BlocksIsCeiling | parsec-ff/pkgs/apps/fluidanimate/src/serial.cpp:382-387 | A cell with n particles has max(1, ceil(n / PARTICLES_PER_CELL)) blocks |
| FluidRebuild.FluidGrid.SwapAndClear | parsec-ff/pkgs/apps/fluidanimate/src/serial.cpp:317-330 | The old destination cells become the source cells, the new destination cells are empty |
| FluidRebuild.FluidGrid.Place | parsec-ff/pkgs/apps/fluidanimate/src/serial.cpp:340-399 | One particle goes to the tail of the chain of the cell that it lies in; all other cells and the source stay |
| FluidRebuild.CellIsWhereItLies | parsec-ff/pkgs/apps/fluidanimate/src/serial.cpp:341-348 | On each axis the cell of a particle is the slab that its position is in, the first one in front of the domain, the last one behind it; no other cell is so |
| FluidRebuild.FluidGrid.MoveParticle | parsec-ff/pkgs/apps/fluidanimate/src/serial.cpp:338-409 | A source particle is placed and the source pointer moves on; a block read to its end goes back to the pool unless it is static |
| FluidRebuild.FluidGrid.FinishCell | parsec-ff/pkgs/apps/fluidanimate/src/serial.cpp:412-415 | The last block of a source chain goes back to the pool, unless it is static or has gone before: each extension block once |
| FluidRebuild.FluidGrid.MoveCell | parsec-ff/pkgs/apps/fluidanimate/src/serial.cpp:333-416 | All particles of a source cell are where they belong, in order |
| FluidRebuild.FluidGrid.RebuildGrid | parsec-ff/pkgs/apps/fluidanimate/src/serial.cpp:315-417 | Every cell has exactly the particles that lie in it, in the order of the old cells, in as many blocks as they need with last_cells at the tail; no block is lost or in two places |
| FluidRebuild.Conservation | parsec-ff/pkgs/apps/fluidanimate/src/serial.cpp:333-416 | Over all cells a particle occurs as often as before |
| FluidRebuild.InCellBelongs | parsec-ff/pkgs/apps/fluidanimate/src/serial.cpp:340-348 | Every particle is in the cell that it lies in |
| FluidPartition.Hmgweight | parsec-ff/pkgs/apps/fluidanimate/src/pthreads.cpp:113-131 | The hamming weight and the lowest set bit |
| FluidPartition.PowerOfTwo | parsec-ff/pkgs/apps/fluidanimate/src/pthreads.cpp:139-142 | A hamming weight of one means a power of two |
| FluidPartition.Divisions | parsec-ff/pkgs/apps/fluidanimate/src/pthreads.cpp:138-146 | Exactly for powers of two there is a partition, and XDIVS * ZDIVS is the number of threads |
| FluidPartition.CutGrows | parsec-ff/pkgs/apps/fluidanimate/src/pthreads.cpp:214-223 | The assertions sx < ex and sz < ez |
| FluidPartition.CutIsNearest | parsec-ff/pkgs/apps/fluidanimate/src/pthreads.cpp:214-222 | Every cut is the whole number nearest to its share: at most one half away from n * i / divs |
| FluidPartition.Partition | parsec-ff/pkgs/apps/fluidanimate/src/pthreads.cpp:208-233 | NUM_GRIDS grids, each the equal share of its column and row to the nearest cell |
| FluidPartition.ExactCover | parsec-ff/pkgs/apps/fluidanimate/src/pthreads.cpp:208-233 | The grids cover the cells exactly: a cell is inside one grid, and only cells are |
| FluidPartition.MarkCell | parsec-ff/pkgs/apps/fluidanimate/src/pthreads.cpp:241-271 | The three loops with their breaks mark a cell exactly when a neighbour lies outside the grid |
| FluidPartition.Border | parsec-ff/pkgs/apps/fluidanimate/src/pthreads.cpp:235-271 | After all loops exactly the cells with a neighbour of another thread are marked |
| FluidPartition.InteriorIsPrivate | parsec-ff/pkgs/apps/fluidanimate/src/pthreads.cpp:615-617 | Who reaches a cell that is not on the border from a cell next to it is its owner |
| FluidParallel.Exclusive | parsec-ff/pkgs/apps/fluidanimate/src/pthreads.cpp:616-629 | Between lock and unlock a thread has its destination for itself, also where nothing is locked |
| FluidParallel.EnterKeeps | parsec-ff/pkgs/apps/fluidanimate/src/pthreads.cpp:616-617 | Taking the mutex of a border cell keeps the invariant |
| FluidParallel.ExtendKeeps | parsec-ff/pkgs/apps/fluidanimate/src/pthreads.cpp:618-626 | Linking a new block loses nothing: `cell` is the tail of the chain |
| FluidParallel.CountKeeps | parsec-ff/pkgs/apps/fluidanimate/src/pthreads.cpp:627-627 | The slot that a thread gets is nobody else's |
| FluidParallel.WriteKeeps | parsec-ff/pkgs/apps/fluidanimate/src/pthreads.cpp:631-635 | Writing outside the mutex touches the thread's own slot only |
| FluidInterleavings.StepKeeps | parsec-ff/pkgs/apps/fluidanimate/src/pthreads.cpp:551-652 | Every step of every thread keeps the invariant |
| FluidInterleavings.FinishedIsSerial | parsec-ff/pkgs/apps/fluidanimate/src/pthreads.cpp:551-652 | When all threads are through, every cell is full, in order and has exactly the particles that lie in it; all mutexes are free |
| FluidInterleavings.ParallelIsSerial | parsec-ff/pkgs/apps/fluidanimate/src/pthreads.cpp:551-652 | Every interleaving leaves each cell with the particles that the serial rebuild puts there, which are those that lie in it |
| FluidInterleavings.PartitionConfines | parsec-ff/pkgs/apps/fluidanimate/src/pthreads.cpp:615-617 | If particles move one cell at most per axis, only its owner reaches a cell without a mutex |
| FluidInterleavings.RebuildRefined | parsec-ff/pkgs/apps/fluidanimate/src/pthreads.cpp:551-652 | With the grids and border flags of InitSim the parallel rebuild refines the serial one |
| FluidInterleavings.Progress | parsec-ff/pkgs/apps/fluidanimate/src/pthreads.cpp:616-629 | No deadlock while a particle is left |
| FluidInterleavings.RunsAreShort | parsec-ff/pkgs/apps/fluidanimate/src/pthreads.cpp:561-652 | Every run has at most six steps per particle |

## Left out

- Reading and writing files, command lines, statistics, instrumentation, visualisation, thread affinity, prefetching.
- blackscholes, swaptions, x264, canneal, skepu and the FastFlow runtime itself.
- FpMiner.MineFile: one tree is built from all records, in the order of scan2_DB, and flattened like every other tree. In the program every thread builds and flattens the parts below its own bitmasks, in its own memory, and the hot nodes are there first (fp_tree.cpp:669-695, first_transform_FPTree_into_FPArray); the parts share no node. The supports do not depend on the order in which records are inserted (FpMiner.AnyOrder).
- FpGrowth.Growth.Grow: the report is always made; with `fout == NULL` the program only counts. The memory given back after each item is not modelled, nor are the cache statistics of cal_level_25.
- FpFirst.MineRange: the rounds of one parallel loop are looked at one after the other. Rounds of different threads change nothing that both use; the lists that they read are the matter of FpRelease.ReleaseIsSafe.
- FpFirst.ChangeWidth: the elements of the array are integers. In the program the narrower array takes the place of the wider one in memory; element i is written when the elements up to i have been read, and lies in front of the others.
- FpTrees.FpTree.Insert: index, cache and counters are per tree in the model, per thread in the program, where they are empty between two trees (FpTrees.FpTree.LinkHotNodes).
- FpGrowth.Growth.CountSubsets: the product `temp * i2` is not bounded by the width of int.
- FpDatabase.Tile.EncodeBlock: the buffers of a thread's file are one sequence; their 16-bit words and the change to a new buffer are not modelled. Infrequent items, for which the program sets a bit that it masks out afterwards, are dropped.
- FpRelease.ReleaseIsSafe: reading a list is not a step of its own; a thread may read the list of its sequence as long as it mines it.
- DedupProtocol.StepKeeps: queues never fill up, and a queue may hand out its items in any order. Chunks travel one at a time; the send buffers are part of the thread that fills them. Allocation failures and the exits behind them are left out.
- DedupProtocol.ReorderSkipKeeps: Reorder's buffer of fetched items is left out; it takes one chunk at a time.
- Reorder.ReorderAll: requires that the numbers fit the array, which the code doubles once per arrival; Reorder.FitsMeansInBounds and Reorder.EveryOrderFits say when that is so. Sequence numbers do not wrap around at 32 bits.
- Chunking.Fragment: the coarse chunks are sequences of bytes; that mbuffer_split makes such views is Mbuffers.Mbuffer.Split. Preloading, which fills buffers as reads without shortness do, is a special case.
- Hashtables.Hashtable.Insert: which of several values of one key a search finds is not stated; expansion turns their order around.
- Hashtables.Hashtable.Expand: allocation always succeeds; the second branch with realloc is left out. The load limit is computed with the exact factor 0.65.
- Mbuffers.Mbuffer.Realloc: the check flag, the lock array, mbuffer_clone and mbuffer_copy are left out.
- FarmRuns.Progress: write_chunk_to_file's wait is not a step; Reorder is taken to be able to wait whenever it has a duplicate whose original has not been through compression.
- Farms.ServeKeeps: FragmentRefine's splitting is left out: a coarse chunk is represented by its fine chunks from the start.
- encoder_ff_ofarm.cpp, the ordered farm, and the other FastFlow topologies of dedup.
- FluidPartition.Partition: the cuts are computed with real numbers, without rounding errors.
- FluidParallel.CountKeeps: the walk along the source chains and the return of their blocks are those of the serial program (FluidRebuild.FluidGrid.MoveCell) and touch nothing shared; a thread's particles are a list in the model.
- FluidInterleavings.ParallelIsSerial: the clearing of the cells before the barrier is the initial state.
- FluidInterleavings.ParallelIsSerial: within a cell the order of the particles may differ from the serial one, as it may in the program.
- All other passes of fluidanimate: densities, forces, collisions, and the neighbour lists.
