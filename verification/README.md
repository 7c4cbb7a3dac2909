# Caffeine in Dafny

Caffeine executes LLVM IR symbolically. This project models the parts of it that need neither LLVM
nor Z3, and proves what they are for:

- **The e-graph** (`UnionFind`, `EGraphModel`, `EGraphSteps`, `EGraphRepair`, `EGraphTangles`,
  `EGraphGrowth`, `EGraphClosure`, `EGraph`, `EGraphFresh`, `EGraphSeparate`, `EGraphCases`,
  `EGraphPruning`, `Extractor`, `Freshness`, `GraphAccessors`, `Associativity`, `AssocOperators`):
  union-find with path halving, hash-consing, deferred `rebuild` as congruence closure, pruning of
  constant classes, cost-based extraction and its caches, delayed merges, and the associativity
  rewrite. Values are abstract: a *model* interprets operation data and gives every
  class id a value.
- **Bit-vector expressions at every width** (`Bits`, `Exprs`, `Meanings`, `Simplifier`, `SimplifierSound`,
  `Builder`, `Overflow`, `Rewrites`): a value of width n is a natural below 2^n. The simplifier, the
  multiplication-overflow circuits and the e-graph rules are related to that meaning.
- **Assertion sets** (`SparseVectors`, `AssertionLists`, `Substitution`, `Slicer`): the path condition,
  equality substitution and slicing, as statements about sets of models. An environment assigns a
  value to every symbol; an assertion is an expression of width 1.
- **Memory** (`Allocations`, `BumpAllocators`, `MemHeaps`, `Pointers`): byte-wise reads and writes,
  the bump allocator against the constraints of the symbolic heap, and the resolution of addresses.
- **Concurrency and containers** (`ThreadQueue`, `SetTries`, `SharedArrays`): the work-stealing store
  as a state machine over interleaved steps, the set-trie, and the copy-on-write array.

Objects that the program updates in place are classes here, and its loops are methods with
invariants. The pure pattern matches of the simplifier are functions.

## Where the code does less than it says

- `rebuild` restores congruence only for values that no constant class has, which can be told from the
  graph before the call: `unparent` erases parent entries by key and may erase another class's entry
  (`EGraphPruning.PruningLosesCongruence`, a run of adds and merges).
- `repair` holds a reference to a class while it merges that class's parents, so it must not meet two
  congruent parents of which one is in that class and the other is not. `EGraphTangles.Untangled` says
  so of the graph that `rebuild` is called on. That no class is its own ancestor at the call is not
  enough (`EGraphCases.AcyclicNotEnough`); that congruence makes a class its own parent does no harm
  by itself (`EGraphCases.OwnParentUntangled`).
- `EClass::merge` compares a cached cost with itself and then takes over the other class's expression,
  so a repaired class may keep a cached expression that is not its cheapest
  (`Freshness.MergedCacheNotBest`); all other caches are exact after `rebuild`
  (`Freshness.RebuildRefreshes`).
- The signed overflow circuit misses negative overflow; `Overflow.SignedFlagExactly` gives the exact
  condition and `Overflow.NegativeOverflowMissed` an instance.
- The associativity rules are registered for subtraction of floats, which may not be reordered
  (`AssocOperators.SubtractionUnsafe`); an operator is safe exactly when it is associative and
  commutative (`AssocOperators.CombSafeExactly`).
- The slicer's comment describes a transitive search; the code gathers one level
  (`Slicer.OpenSliceMisses`), and `Slicer.SliceDecides` states when that is enough.
- A request within 8 bytes of the whole address space makes the bump allocator hand out a null or
  wrapping block (`BumpAllocators.BumpAllocator.Allocate`), and the path then has no model
  (`MemHeaps.MemHeap.Allocate`).
- `check_valid` is exact for an access exactly when the access is no wider than the end of the block
  (`Pointers.CheckedExactly`, `Pointers.WideAccessMisjudged`).
- `SharedArray` moved onto itself is emptied (`SharedArrays.SharedArray.MoveFrom`).
- The comment that all other threads are blocked when `done` is set is not true of a thief that has
  already stolen; the protocol is correct nevertheless (`ThreadQueue.ExitOnlyWhenDone`).

## Model

| member | source | states |
|---|---|---|
| `UnionFind.UnionFind.MakeSet` | include/caffeine/ADT/UnionFind.h:13-18 | adds one id that is its own class and leaves the partition of the others as it was |
| `UnionFind.UnionFind.Find` | include/caffeine/ADT/UnionFind.h:46-52 | terminates at the representative of the id's class without changing anything |
| `UnionFind.UnionFind.Update` | include/caffeine/ADT/UnionFind.h:31-44 | path halving finds the representative and never changes the partition |
| `UnionFind.UnionFind.DoUnion` | include/caffeine/ADT/UnionFind.h:57-60 | joins exactly the two classes of the given roots, keeping the first root |
| `UnionFind.HalvingKeeps` | include/caffeine/ADT/UnionFind.h:38-40 | replacing a parent by the grandparent keeps every representative and the forest shape |
| `UnionFind.JoiningKeeps` | include/caffeine/ADT/UnionFind.h:57-60 | hanging one root below another gives the joined partition |
| `EGraphModel.RebuiltFinds` | src/IR/EGraph.cpp:224-299 | with nothing left to repair, the hash table finds every held node's class from its canonical form, unless the value is a constant class's |
| `EGraphModel.RebuiltCongruent` | src/IR/EGraph.cpp:224-299 | with nothing left to repair, held nodes with one canonical form are in one class, unless the value is a constant class's |
| `EGraphModel.CanonJoin` | src/IR/EGraph.cpp:166-172 | joining two classes renames one operand in every canonical form and changes no form without it |
| `EGraphSteps.MergeKeeps` | src/IR/EGraph.cpp:79-110 | merging two classes of equal value keeps every node, hash entry, parent entry and cached expression true, with the merged class waiting for repair |
| `EGraphSteps.MergeKeepsSettled` | src/IR/EGraph.cpp:149-164 | for any interpretation of the parent lists, merging two classes it gives one value keeps the condition that congruent parents with their children's value are in one class, or each in its child's class |
| `EGraphSteps.AddKeeps` | src/IR/EGraph.cpp:174-189 | adding a node under a new id keeps the invariant in the model extended by the node's value |
| `EGraphRepair.PruneKeeps` | src/IR/EGraph.cpp:301-317 | pruning a constant class keeps the invariant, and drops only entries that have the constant's value |
| `EGraphRepair.RehashKeeps` | src/IR/EGraph.cpp:275-280 | moving a parent's hash entry to its canonical form keeps the invariant |
| `EGraphRepair.HoldingMerge` | src/IR/EGraph.cpp:284-293 | a merge of congruent parents during a repair keeps the repaired class, its parent list and the invariant |
| `EGraphRepair.CongruentParents` | src/IR/EGraph.cpp:285-289 | in every model, parents with one canonical form have equal values, so the merge that repair requests is sound |
| `EGraphRepair.ParentsApart` | src/IR/EGraph.cpp:265-289 | of two congruent parents of the class under repair, one is in that class only if they are in one class already, so no merge takes that class away |
| `EGraphRepair.RepairDone` | src/IR/EGraph.cpp:295-298 | after the new parent list and nodes are installed, the class no longer waits for repair |
| `EGraph.EGraph.constructor` | include/caffeine/IR/EGraph.h:168-173 | an empty e-graph is valid in every model |
| `EGraph.EGraph.FindId` | src/IR/EGraph.cpp:129-134 | gives the representative and changes no class, entry or representative |
| `EGraph.EGraph.Canonicalize` | src/IR/EGraph.cpp:166-172 | replaces every operand by its representative |
| `EGraph.EGraph.Merge` | src/IR/EGraph.cpp:149-164 | merging ids of equal value joins exactly their classes, queues the result, and keeps the e-graph valid in the model |
| `EGraph.EGraph.Add` | src/IR/EGraph.cpp:174-189 | returns an id whose value is the node's, either the one already known for the canonical node or a new one, and keeps the e-graph valid with all old values |
| `EGraph.EGraph.CreateClass` | src/IR/EGraph.cpp:319-325 | a new singleton class, entered in the hash table and the worklist |
| `EGraph.EGraph.Unparent` | src/IR/EGraph.cpp:301-317 | leaves the class its constant alone and erases its nodes from their operands' parent lists |
| `EGraph.EGraph.RehashParents` | src/IR/EGraph.cpp:275-280 | after the loop every parent entry of the class leads, by its canonical form, to the parent's class |
| `EGraph.EGraph.MergeParents` | src/IR/EGraph.cpp:282-293 | the second loop merges congruent parents, ends with one entry per canonical form, and each merge removes a class and queues one |
| `EGraph.EGraph.Repair` | src/IR/EGraph.cpp:264-299 | the repaired class stops waiting, every class merged on the way is queued, nothing that EGraphGrowth lists is lost, and the invariant holds in the model M; the settled interpretation S that keeps the class in place need not be M |
| `EGraph.EGraph.RepairAll` | src/IR/EGraph.cpp:231-244 | one pass over the worklist: the invariant holds in M whatever settled interpretation S there is, only classes that were on the worklist change, the parents of every repaired class are on the stack for cache clearing, and classes lost equal entries gained, which bounds the outer loop |
| `EGraph.EGraph.ClearCaches` | src/IR/EGraph.cpp:246-261 | terminates on any graph, drops the caches of the given ids and of all their ancestors, and changes nothing but caches |
| `EGraph.EGraph.Rebuild` | src/IR/EGraph.cpp:224-262 | on every untangled graph and in every model it is sound in: terminates with an empty worklist, keeps every value and equality, merges only what congruence forces, loses no node except from constant classes, and every node held or hashed before is found afterwards unless its value was a constant's; without constants the partition is exactly the finest congruence of the graph before; no class above one that was ever on the worklist, by any number of parent steps, has a cache left, and other classes keep theirs unless all their parents' are dropped too |
| `EGraph.ClearsAbove` | src/IR/EGraph.cpp:238-261 | clearing upward from the pushed parents reaches every class above a repaired one |
| `Freshness.MergeUpToDate` | src/IR/EGraph.cpp:149-164 | after a merge, caches are exact in every class that does not depend on a waiting one |
| `Freshness.AddUpToDate` | src/IR/EGraph.cpp:174-189 | and so they are after an addition |
| `Freshness.RebuildRefreshes` | src/IR/EGraph.cpp:224-262 | after `rebuild`, every class that was not itself repaired has an exact cache or none; the caches are what extraction asks for exactly when those of the repaired classes are |
| `Freshness.UpToDateIsReady` | src/IR/EGraph.cpp:384-402 | with nothing waiting, exact caches are what extraction asks for |
| `Freshness.MergedCacheNotBest` | src/IR/EGraph.cpp:91-109 | from exact caches, one merge leaves a class with a cached symbol although it has a tree without symbols |
| `EGraphClosure.ClosureExactly` | src/IR/EGraph.cpp:224-299 | without constants, a partition that merges only forced ids and has congruent parents in one class is the finest congruence |
| `EGraphClosure.RebuiltClosed` | src/IR/EGraph.cpp:264-299 | parents listed before `rebuild` whose canonical forms are equal afterwards are in one class, unless their value is a constant's |
| `EGraphClosure.RebuiltFindsAll` | src/IR/EGraph.cpp:174-189 | what `add` would have found before `rebuild`, and every node held then, is found afterwards in the class it went to, unless its value is a constant's |
| `EGraphClosure.FreeByLabel` | src/IR/EGraph.cpp:301-317 | in a separating model, a value is a constant's exactly when the finest congruence gives the id the label of a constant class |
| `EGraphClosure.FoundByLabel` | src/IR/EGraph.cpp:264-317 | so a node is found after `rebuild` whenever its label in the graph before is no constant class's label |
| `EGraphSeparate.SeparatingModel` | src/IR/EGraph.cpp:149-189 | every graph that additions and merges build is sound in a model that equates only what congruence forces |
| `EGraphGrowth.MergeGrown` | src/IR/EGraph.cpp:79-110 | a merge loses no node, no listed entry of a value that is no constant's, and no hashed leaf, and changes no constant's value |
| `EGraphGrowth.PruneGrown` | src/IR/EGraph.cpp:301-317 | pruning loses nodes of the constant class only and entries of its value only |
| `EGraphGrowth.ReplaceGrown` | src/IR/EGraph.cpp:295-298 | installing the new parents and nodes loses nothing up to canonical form |
| `EGraphTangles.FinestDecides` | src/IR/EGraph.cpp:264-299 | every graph is untangled exactly when its finest congruence is harmless: congruent parents with their children's label are in one class, or each in its child's class, already |
| `EGraphTangles.FinestIsCongruence` | src/IR/EGraph.cpp:264-299 | every graph has a finest congruence: what all congruences equate |
| `EGraphTangles.StuckIsTangled` | src/IR/EGraph.cpp:284-289 | a graph in which some repair would merge the class it holds is tangled |
| `EGraphTangles.NoAncestorUntangles` | src/IR/EGraph.cpp:264-299 | a graph in which no class is its own ancestor modulo some congruence is untangled |
| `EGraphTangles.TidyAcyclicUntangled` | src/IR/EGraph.cpp:264-299 | where congruence holds already, an acyclic graph is untangled |
| `EGraphTangles.UntangledSettles` | src/IR/EGraph.cpp:265-298 | every untangled graph has a settled interpretation, whatever model it is sound in, and it equates only what congruence forces |
| `EGraphTangles.SettledUntangles` | src/IR/EGraph.cpp:265-298 | and a graph with a settled interpretation is untangled |
| `EGraphCases.SumUntangled` | src/IR/EGraph.cpp:264-299 | the graph of u, v and u + v is untangled and sound in a model where v is 0 and u + v equals u |
| `EGraphCases.AcyclicNotEnough` | src/IR/EGraph.cpp:264-299 | a graph without cycles, built by six additions and two merges, where the merge that repair requests leaves a class stuck between itself and another congruent parent, in either order |
| `EGraphCases.OwnParentUntangled` | src/IR/EGraph.cpp:264-299 | a graph, built by five additions and two merges, in which every congruence makes a class its own parent and which is untangled |
| `EGraphFresh.FreshReached` | src/IR/EGraph.cpp:174-189 | the closed form of a graph of added nodes is what adding them one by one to the empty graph gives |
| `EGraphFresh.FreshRepaired` | src/IR/EGraph.cpp:264-299 | repairing any class of such a graph changes nothing |
| `EGraphPruning.PruningLosesCongruence` | src/IR/EGraph.cpp:264-317 | from the graph of nine additions and four merges, which is untangled and keeps the invariant, the repairs of `rebuild` leave nothing waiting and yet the hash table sends a held node to another class, whichever parent is met first |
| `Extractor.ClassCostLeast` | src/IR/EGraph.cpp:384-438 | the computed class cost is at most the cost of every expression tree the class represents |
| `Extractor.LeastIsBest` | src/IR/EGraph.cpp:424-438 | a tree of least cost has, among all trees of the class, the least number of symbols counted as 2^16 nodes each plus other nodes; so no tree with fewer than 2^16 other nodes has fewer symbols, and none with as many symbols is smaller |
| `Extractor.BestIsSymbolFree` | src/IR/EGraph.cpp:424-438 | if the class has a symbol-free tree of fewer than 2^16 nodes, the best tree is symbol-free and no larger |
| `Extractor.RepresentsValue` | src/IR/EGraph.cpp:467-490 | every expression tree a class represents evaluates to the class's value in every model |
| `Extractor.Extractor.EvalCost` | src/IR/EGraph.cpp:384-417 | on an acyclic e-graph it terminates with the least cost of the class and the index of a node that has it, whatever is already memoized or cached |
| `Extractor.Extractor.EvalNodes` | src/IR/EGraph.cpp:404-412 | the loop finds the least node cost and a node that attains it |
| `Extractor.Extractor.EvalNode` | src/IR/EGraph.cpp:418-423 | the cost of a node is its operation's plus the least costs of its operands |
| `Extractor.Extractor.CacheCost` | src/IR/EGraph.cpp:453-465 | memo and class cache stay exact, and nothing else of the graph changes |
| `Extractor.Extractor.CacheExpr` | src/IR/EGraph.cpp:440-452 | memo and class cache hold optimal trees only, and nothing else of the graph changes |
| `Extractor.Extractor.Extract` | src/IR/EGraph.cpp:467-490 | terminates with a represented tree of least cost, which is a best tree in number of symbols and nodes, and evaluates to the class's value |
| `GraphAccessors.GraphAccessor.MergeLater` | src/IR/EGraphMatching.cpp:98-104 | queues the pair unless the ids are the same, changes no class, and the queue stays one of equal values |
| `GraphAccessors.GraphAccessor.Persist` | src/IR/EGraphMatching.cpp:78-82 | applies the whole queue: the e-graph stays valid, and its partition becomes the finest one above the old that joins every queued pair |
| `Associativity.FoldCat` | src/IR/EMatching/Rewrites/Associativity.cpp:26-36 | for an associative and commutative operator, folding a concatenation combines the folds |
| `Associativity.FoldPermutation` | src/IR/EMatching/Rewrites/Associativity.cpp:49-63 | the fold of such an operator is the same for every permutation of the leaves |
| `Associativity.Rewriter.Flatten` | src/IR/EMatching/Rewrites/Associativity.cpp:26-36 | terminates and pushes leaves whose fold is the value of the class, and the cheapest node of each leaf's class does not have the opcode |
| `Associativity.Rewriter.SortedIds` | src/IR/EMatching/Rewrites/Associativity.cpp:49-75 | a permutation of the stack in which ids of constant classes come first, and ids ascend among the constants and among the others |
| `Associativity.Rewriter.AddComb` | src/IR/EMatching/Rewrites/Associativity.cpp:54-60 | the graph then knows the left comb over the leaves, node by node, under the returned id, which has the fold of the leaves as its value; old classes and values stay |
| `Associativity.Rewriter.Emit` | src/IR/EMatching/Rewrites/Associativity.cpp:49-63 | adds the comb over the sorted leaves without changing any class, queues its merge with the original class, which has the same value, and keeps the e-graph and the queue valid |
| `Associativity.Rewriter.Rewrite` | src/IR/EMatching/Rewrites/Associativity.cpp:37-47 | the whole rule adds the comb over the sorted, fully flattened leaves and queues its merge with the original class; every class and every value stays, and everything queued can be merged soundly |
| `AssocOperators.CombSafeExactly` | src/IR/EMatching/Rewrites/Associativity.cpp:88-95 | flattening, reordering and rebuilding keep the value of every typed tree exactly when the operator is associative and commutative |
| `AssocOperators.IntegerOperatorsSafe` | src/IR/EMatching/Rewrites/Associativity.cpp:89-90 | Add, Mul, And, Or and Xor are safe at every width |
| `AssocOperators.SubtractionUnsafe` | src/IR/EMatching/Rewrites/Associativity.cpp:90-91 | subtraction, registered as FSub, is not |
| `Exprs.EvalDependsOnSymbols` | src/Query/ConstraintSlicer.cpp:66-87 | the value of an expression depends only on the symbols collected from it |
| `Meanings.SignedIs` | src/IR/OperationSimplifier.cpp:34-41 | the signed reading is the one number of the signed range congruent to the value |
| `Meanings.Comparisons` | src/IR/OperationSimplifier.cpp:27-52 | all ten comparisons in terms of equality and the strict orders of the plain and the signed readings |
| `Meanings.SignedOrder` | src/IR/OperationSimplifier.cpp:34-41 | the signed order is the unsigned order of the values with their top bits flipped |
| `Meanings.SignDecides` | src/IR/OperationSimplifier.cpp:34-49 | with one sign bit the two orders agree, and a value with the sign bit is below one without it |
| `Meanings.SExtKeepsValue` | src/IR/OperationSimplifier.cpp:405-407 | sign extension keeps the signed value, and truncation undoes it |
| `Meanings.BitOfSExt` | src/IR/OperationSimplifier.cpp:405-407 | the sign bit fills the new positions |
| `Meanings.AShrDivides` | src/IR/OperationSimplifier.cpp:317-324 | an arithmetic right shift divides the signed value by a power of two, rounding down |
| `Meanings.URemMeans` | src/IR/OperationSimplifier.cpp:170-182 | the remainder is below a divisor that is not 0 and congruent to the dividend |
| `SimplifierSound.AndSound` | src/IR/OperationSimplifier.cpp:197-243 | the re-entrant mask and shift rewrites terminate, keep the value at every width, and duplicate no symbol |
| `SimplifierSound.OrSound` | src/IR/OperationSimplifier.cpp:244-269 | every fold of an or keeps the value, including the merging of masks over one operand |
| `SimplifierSound.XorSound` | src/IR/OperationSimplifier.cpp:270-282 | every fold of an xor keeps the value |
| `SimplifierSound.ShlSound` | src/IR/OperationSimplifier.cpp:283-308 | every fold of a left shift keeps the value for every shift amount, the shift pair that becomes a mask included |
| `SimplifierSound.LShrSound` | src/IR/OperationSimplifier.cpp:309-316 | every fold of a logical right shift keeps the value |
| `SimplifierSound.AShrSound` | src/IR/OperationSimplifier.cpp:317-324 | every fold of an arithmetic right shift keeps the value |
| `SimplifierSound.AddSound` | src/IR/OperationSimplifier.cpp:108-120 | every fold of an addition keeps the value |
| `SimplifierSound.SubSound` | src/IR/OperationSimplifier.cpp:121-134 | every fold of a subtraction keeps the value |
| `SimplifierSound.MulSound` | src/IR/OperationSimplifier.cpp:135-144 | every fold of a multiplication keeps the value |
| `SimplifierSound.NotSound` | src/IR/OperationSimplifier.cpp:361-370 | every fold of a complement keeps the value |
| `SimplifierSound.TruncSound` | src/IR/OperationSimplifier.cpp:371-379 | every fold of a truncation keeps the value |
| `SimplifierSound.ZExtSound` | src/IR/OperationSimplifier.cpp:380-404 | every fold of a zero extension keeps the value, the undone truncation included |
| `SimplifierSound.SExtSound` | src/IR/OperationSimplifier.cpp:405-413 | every fold of a sign extension keeps the value |
| `SimplifierSound.SelectSound` | src/IR/OperationSimplifier.cpp:426-433 | a folded select has the value of the operand that its condition picks |
| `SimplifierSound.ConstantsFold` | src/IR/OperationSimplifier.cpp:108-460 | every operation on constants folds to a constant |
| `SimplifierSound.ICmpSound` | src/IR/OperationSimplifier.cpp:435-460 | every fold of a comparison keeps its truth |
| `Builder.CreateICmp` | src/IR/OperationSimplifier.cpp:27-52 | the built comparison holds exactly when the plain or signed values of the operands compare so, spelled out for all ten |
| `SimplifierSound.BinSound` | src/IR/OperationSimplifier.cpp:108-324 | every binary builder means its operator |
| `SimplifierSound.RefoldSound` | src/IR/OperationSimplifier.cpp:426-460 | rebuilding any node around new operands gives the node's value for those operands and no additional symbol occurrence |
| `Overflow.CreateUMulOverflow` | src/IR/Operation.cpp:195-231 | for every width and all operands, the flag is set exactly when the product is at least 2^n |
| `Overflow.CreateCross` | src/IR/Operation.cpp:218-224 | the loop collects exactly the bit pairs whose weights multiply to the limit or more |
| `Overflow.UnsignedCircuit` | src/IR/Operation.cpp:218-230 | a crossing pair or bit n of the product modulo 2^(n+1) is present exactly when the product is at least 2^n |
| `Overflow.SignedCircuit` | src/IR/Operation.cpp:257-279 | for operands of one sign, the top-bit test or a crossing pair is present exactly when the signed product is at least 2^(n-1) |
| `Overflow.CreateSMulOverflow` | src/IR/Operation.cpp:232-280 | for every width, the flag is set exactly when the operands have one sign and the signed product is at least 2^(n-1) |
| `Overflow.SignedFlagExactly` | src/IR/Operation.cpp:232-280 | the flag is the signed overflow flag exactly when the signs agree or the product is not below -2^(n-1) |
| `Overflow.NegativeOverflowMissed` | src/IR/Operation.cpp:270-279 | at width 3, -4 times 2 overflows and the flag is not set |
| `Builder.ExtractBit` | src/IR/Operation.h:19-24 | the 1-bit result holds exactly when the given bit is set |
| `Rewrites.ShiftsAsMask` | src/IR/EMatching/Rewrites/ShiftElimination.cpp:24-48 | a right shift followed by a left shift is one shift and a mask, for all amounts up to and beyond the width |
| `Rewrites.LShrElim` | src/IR/EMatching/Rewrites/ShiftElimination.cpp:15-49 | the replacement expression has the value of the matched pair of shifts, with at most one shift |
| `Rewrites.ZExtTruncElim` | src/IR/EMatching/Rewrites/ZExtTruncElimination.cpp:11-21 | the replacement has the value of the extended truncation, whatever the three widths, with fewer shifts and casts |
| `Rewrites.TruncZExtElim` | src/IR/EMatching/Rewrites/ZExtTruncElimination.cpp:30-37 | the replacement has the value of the truncated extension, whatever the three widths, with fewer shifts and casts |
| `SparseVectors.LiveErased` | include/caffeine/ADT/SparseVector.h:129-136 | erasing a slot removes exactly its value from the ordered values |
| `SparseVectors.SparseVector.PushBack` | include/caffeine/ADT/SparseVector.h:98-107 | appends at the end whatever holes there are, and keeps the free list a chain of all holes |
| `SparseVectors.SparseVector.Insert` | include/caffeine/ADT/SparseVector.h:112-124 | fills the most recently freed slot, or appends if there is none |
| `SparseVectors.SparseVector.Erase` | include/caffeine/ADT/SparseVector.h:129-136 | turns the slot into the head of the free list and keeps the order of all other values |
| `SparseVectors.SparseVector.Compress` | include/caffeine/ADT/SparseVector.h:146-157 | removes all holes and keeps the values in order |
| `SparseVectors.SparseVector.Next` | include/caffeine/ADT/SparseVector.h:216-222 | stops at the first slot after the given one that holds a value, or at the end |
| `AssertionLists.PartsHold` | src/Model/AssertionList.cpp:41-53 | the parts pushed for a conjunction or a negated disjunction hold together exactly when it holds |
| `AssertionLists.TotalSplit` | src/Model/AssertionList.cpp:37-53 | splitting always lowers the weight of the stack, so the loop ends |
| `AssertionLists.AssertionList.Insert` | src/Model/AssertionList.cpp:30-65 | the conjunction becomes that of the old list and the inserted assertions, without duplicates; old slots are untouched, new ones cannot be split, and no symbol occurrence is added |
| `AssertionLists.AssertionList.Contains` | src/Model/AssertionList.cpp:67-69 | tells exactly whether the assertion is stored |
| `AssertionLists.AssertionList.Erase` | src/Model/AssertionList.cpp:71-74 | removes exactly one assertion from list and lookup set |
| `AssertionLists.AssertionList.MarkSat` | src/Model/AssertionList.cpp:22-25 | keeps the contents in order and makes all of them proven |
| `AssertionLists.AssertionList.Restore` | src/Model/AssertionList.cpp:80-91 | everything stored from the checkpoint on is erased and nothing before it changes |
| `AssertionLists.AssertionList.Scoped` | src/Model/AssertionList.cpp:76-91 | a checkpoint, any number of inserts and a restore give back the same ordered contents, lookup set, mark and split, whatever holes exist |
| `AssertionLists.AssertionList.Proven` | src/Model/AssertionList.cpp:102-109 | visits exactly the assertions before the mark, in order |
| `AssertionLists.AssertionList.Unproven` | src/Model/AssertionList.cpp:93-100 | visits exactly the assertions from the mark on, in order |
| `AssertionLists.AssertionList.SplitContents` | src/Model/AssertionList.cpp:93-109 | the contents are the proven part followed by the unproven part |
| `Substitution.RebuildValue` | src/IR/Transforms/simplify.cpp:33-42 | where the symbol has the constant's value, the rebuilt expression has the old value |
| `Substitution.RebuildSymbols` | include/caffeine/IR/Transforms.inl:9-32 | a rebuilt expression that differs has strictly fewer symbol occurrences |
| `Substitution.RebuildRemoves` | src/IR/Transforms/simplify.cpp:33-42 | after rebuilding, the symbol no longer occurs |
| `Substitution.RebuildLeaves` | include/caffeine/IR/Transforms.inl:9-32 | an expression without the symbol is returned as it is |
| `Substitution.EqualityMatched` | src/IR/Transforms/simplify.cpp:9-24 | an equality of any symbol with any constant is matched, in either order |
| `Substitution.EqualityMeans` | src/IR/Transforms/simplify.cpp:9-24 | a matched assertion holds exactly where the symbol has the constant's value |
| `Substitution.ReplacedOne` | src/IR/Transforms/simplify.cpp:44-48 | erasing an assertion and adding its rebuilt form keeps the models of list and additions together and costs a symbol occurrence |
| `Substitution.ReplaceAll` | src/IR/Transforms/simplify.cpp:26-50 | the equality stays, its symbol is left in no other stored assertion and in no new addition, and the models of list and additions together are the same |
| `Substitution.Scan` | src/IR/Transforms/simplify.cpp:56-63 | every equality from the given slot on is used on all stored assertions, and something is added exactly when one could be used |
| `Substitution.Round` | src/IR/Transforms/simplify.cpp:65-80 | one pass keeps the models, and every addition it leaves has lowered the number of symbol occurrences |
| `Substitution.Simplify` | src/IR/Transforms/simplify.cpp:53-81 | terminates, and the list has exactly the models it had, also with conflicting or chained equalities; an unproven equality's symbol is left in no other assertion that was stored at the call, that of an equality that came up later in none stored before it; symbol occurrences fall if an equality could be used, and otherwise nothing changes |
| `Slicer.ConstraintSlicer.ContainedConstants` | src/Query/ConstraintSlicer.cpp:51-87 | returns exactly the symbols of the expression, from the cache or not, and keeps the cache right |
| `Slicer.ConstraintSlicer.Slice` | src/Query/ConstraintSlicer.cpp:6-49 | the new list has exactly the models of the unproven assertions and the proven ones that share a symbol with one of them or with the extra one |
| `Slicer.SliceIsImplied` | src/Solver/SlicingSolver.cpp:9-13 | the whole implies the slice, so an unsatisfiable slice means an unsatisfiable whole |
| `Slicer.SliceDecides` | src/Solver/SlicingSolver.cpp:9-13 | if no omitted proven assertion shares a symbol with a kept one or the extra one and the proven part is satisfiable, slice and whole are satisfiable together, each with the extra assertion |
| `Slicer.OpenSliceMisses` | src/Query/ConstraintSlicer.cpp:8-19 | without that closure, a satisfiable slice of an unsatisfiable whole |
| `ThreadQueue.StepKeepsInv` | src/Interpreter/Store/ThreadQueueStore.cpp:50-140 | every atomic step of every worker keeps the counters, the conservation of contexts, the emptiness of drained queues, and progress |
| `ThreadQueue.NeverLost` | src/Interpreter/Store/ThreadQueueStore.cpp:50-140 | at every point of every interleaving each added context is handed out, queued or in one thread's hands, counted with multiplicity |
| `ThreadQueue.AllHandedOut` | src/Interpreter/Store/ThreadQueueStore.cpp:77-130 | once all workers have exited, all queues are empty and each context was handed out exactly once |
| `ThreadQueue.NeverSticks` | src/Interpreter/Store/ThreadQueueStore.cpp:89-127 | whenever all workers are in the steal loop and `done` is not set, some queue has something to steal |
| `ThreadQueue.StepProgresses` | src/Interpreter/Store/ThreadQueueStore.cpp:50-130 | every step of every worker, except a new addition or a steal from an empty queue, hands out a context, sets `done` or brings the worker closer to its exit |
| `ThreadQueue.WorkersFinish` | src/Interpreter/Store/ThreadQueueStore.cpp:77-130 | from every point of every interleaving there is a continuation without additions after which all workers have exited and every context added was handed out exactly once |
| `ThreadQueue.NewestOwnedOldestStolen` | src/Interpreter/Store/ThreadQueueStore.cpp:50-68 | after a thread has added contexts, it takes back the last of them first, and a thief takes the one queued longest |
| `ThreadQueue.ExitOnlyWhenDone` | src/Interpreter/Store/ThreadQueueStore.cpp:93-106 | a worker exits only after `done`, with its own queue and those of non-workers empty |
| `SetTries.WithinIsSubset` | include/caffeine/ADT/SetTrie.h:11-25 | for a strictly sorted set and a sorted query, being a subsequence is being a subset |
| `SetTries.CoveredExactly` | include/caffeine/ADT/SetTrie.h:48-59 | a query covers a stored path exactly when it contains an inserted set |
| `SetTries.SetTrie.ContainsSubset` | include/caffeine/ADT/SetTrie.h:54-59 | true exactly when some inserted set is a subset of the sorted query |
| `SetTries.SetTrie.FollowSubset` | include/caffeine/ADT/SetTrie.h:99-116 | true exactly when some set stored below the node is a subsequence of the query |
| `SetTries.SetTrie.Insert` | include/caffeine/ADT/SetTrie.h:76-86 | adds exactly one set to those answered for, also when it is skipped or cuts off longer branches |
| `SetTries.SetTrie.InsertAt` | include/caffeine/ADT/SetTrie.h:130-155 | stores the set below the node in place of exactly the stored sets it is a prefix of, and the asserted endpoint case cannot arise |
| `SetTries.SetTrie.InsertNew` | include/caffeine/ADT/SetTrie.h:118-128 | makes a fresh chain that stores exactly the given elements and changes no other node |
| `Allocations.ByteSplit` | src/Memory/Allocation.cpp:244-250 | the low bytes of a value and its next byte, shifted, make up one byte more of the value |
| `Allocations.OneMoreByte` | src/Memory/Allocation.cpp:127-132 | or-ing a shifted byte into the result gives the little-endian number with one more byte |
| `Allocations.BitOfLoad` | src/Memory/Allocation.cpp:124-132 | bit 8k + j of the number read is bit j of byte k |
| `Allocations.ScalarRoundTrip` | src/Memory/Allocation.cpp:97-146 | reading back the bytes of an integer of any width gives the integer |
| `Allocations.ReadDepends` | src/Memory/Allocation.cpp:147-192 | a read depends only on the bytes in the span of its type, indices taken modulo the address width |
| `Allocations.Allocation.ReadScalar` | src/Memory/Allocation.cpp:97-146 | returns the little-endian number in the bytes, cut to the type's width, or the error of an unreadable allocation |
| `Allocations.Allocation.WriteScalar` | src/Memory/Allocation.cpp:214-251 | stores exactly the bytes of the integer, or fails without change on an unwritable allocation |
| `Allocations.Allocation.Read` | src/Memory/Allocation.cpp:147-192 | reads nested arrays and structs member by member at the layout's offsets |
| `Allocations.Allocation.Write` | src/Memory/Allocation.cpp:262-304 | after writing any nested value at any offset, reading its type there returns it, and no byte outside its span has changed |
| `BumpAllocators.AlignStep` | src/Memory/BumpAllocator.cpp:26-27 | the two wrapping statements round the position up to the alignment, also where it wraps to 0 |
| `BumpAllocators.BumpAllocator.constructor` | src/Memory/MemHeap.cpp:232-236 | the allocator starts at the signed minimum with nothing handed out |
| `BumpAllocators.BumpAllocator.Allocate` | src/Memory/BumpAllocator.cpp:11-38 | succeeds exactly when the aligned position leaves room for the request and its guard bytes, hands out the aligned position and advances by exactly the reserved space; a block is aligned, it is non-null and non-wrapping exactly when request and guard bytes fit in w bits, and then it is in range and after every block ever handed out |
| `BumpAllocators.EnoughRoom` | src/Memory/BumpAllocator.cpp:24-34 | every run of requests whose sizes, guard bytes and alignments fit in the room left is granted throughout and uses no more |
| `BumpAllocators.FreshRoom` | src/Memory/MemHeap.cpp:232-236 | a fresh allocator grants every run of requests that demands at most half the address space |
| `BumpAllocators.BumpAllocator.Deallocate` | src/Memory/BumpAllocator.cpp:40-46 | removes the asserted live address and never makes its space available again |
| `MemHeaps.AlignedAssertion` | src/Memory/MemHeap.cpp:65-68 | holds exactly when the alignment is zero or divides the address |
| `MemHeaps.NoWrapAssertion` | src/Memory/MemHeap.cpp:70-71 | holds exactly when the block does not wrap |
| `MemHeaps.NoOverlapAssertion` | src/Memory/MemHeap.cpp:88-97 | for blocks that do not wrap, holds exactly when they are disjoint |
| `MemHeaps.MemHeap.AllocAddr` | src/Memory/MemHeap.cpp:219-248 | the aligned position of the bump allocator, with its guarantees, exactly while size and alignment are constants and there is room, and a new symbol from then on |
| `MemHeaps.MemHeap.Constrain` | src/Memory/MemHeap.cpp:64-98 | the models of the path that remain are exactly those where the new block is aligned, good and disjoint from every live block |
| `MemHeaps.ConcreteFits` | src/Memory/MemHeap.cpp:64-98 | a concrete block satisfies all added assertions exactly when its request leaves room for the guard bytes in w bits |
| `MemHeaps.MemHeap.Allocate` | src/Memory/MemHeap.cpp:53-101 | the address is concrete exactly as `AllocAddr` says; keeps live blocks good and disjoint in every model of the path; with a concrete address and a fitting request the path keeps all its models, with one that does not fit it has none |
| `MemHeaps.MemHeap.Deallocate` | src/Memory/MemHeap.cpp:103-117 | removes the allocation, releases its address in the allocator or makes the heap symbolic, and on a path with a model the allocator's own assertion holds |
| `Pointers.CheckedExactly` | src/Memory/MemHeap.cpp:147-153 | on a block that does not wrap, the check means containment for every address exactly when the width is at most the end of the block |
| `Pointers.WideAccessMisjudged` | src/Memory/MemHeap.cpp:147-150 | an access wider than the end of the block that is let through |
| `Pointers.CheckValid` | src/Memory/MemHeap.cpp:127-158 | in models of the path where no live block ends before the width, an unresolved access is valid exactly when it is not null and lies in a live block |
| `Pointers.InOneBlock` | src/Memory/MemHeap.cpp:127-158 | an access of at least one byte lies in at most one live block |
| `Pointers.Resolve` | src/Memory/MemHeap.cpp:200-217 | with a solver whose UNSAT can be trusted, every live block the address may lie in is among the results, no block twice and none that the solver refuted, and every result has the original absolute value in every model |
| `Pointers.NotRefutedMayHold` | src/Memory/MemHeap.cpp:212-216 | with a solver that finds every contradiction, each result names a block the address may lie in |
| `Pointers.ValidIsResolved` | src/Memory/MemHeap.cpp:127-218 | a valid access is resolved by one of the results, and all results that resolve it name the same allocation |
| `SharedArrays.Node.Lookup` | include/caffeine/ADT/SharedArray.h:72-86 | the walk down the chain terminates with the byte of the node's contents |
| `SharedArrays.SharedArray.Load` | src/ADT/SharedArray.cpp:94-97 | returns the byte of the plain array this stands for |
| `SharedArrays.SharedArray.Store` | src/ADT/SharedArray.cpp:66-93 | changes exactly one byte of this array's contents and writes no shared node, also when it flattens |
| `SharedArrays.SharedArray.Flatten` | src/ADT/SharedArray.cpp:99-110 | keeps the contents |
| `SharedArrays.SharedArray.CopyFrom` | src/ADT/SharedArray.cpp:26-53 | both arrays have the source's contents, whichever way it is shared, also when they are the same array |
| `SharedArrays.SharedArray.MoveFrom` | src/ADT/SharedArray.cpp:54-64 | the target takes the contents and the source is empty; an array moved onto itself is empty |
| `SharedArrays.Run` | src/ADT/SharedArray.cpp:15-110 | after any sequence of stores, copies, moves and flattens on any number of arrays, each holds what plain independent arrays would hold |

## Left out

- Floating point, `Undef`, unsigned and signed division and the signed remainder: their folds are bogus on zero divisors or foreign.
- Load, store and array operations in the expression language; `Allocations` therefore speaks about the values that offsets and contents have in one model.
- Vectors, pointers and bitcasts in `Allocation::read` and `write`: they are laid out like arrays and integers.
- Allocations.Allocation.Read: does not read vectors or pointers.
- Allocations.Allocation.Write: takes types that fit in the address space, since the bytes of larger ones would overlap.
- `EGraph::add_merge` of a raw node: it registers no parents. The `updated` set and the incremental matcher are bookkeeping.
- Constant propagation before `rebuild`, and Z3: foreign or easy.
- EGraphSteps.MergeKeeps: keeps carried caches value-correct only, because `EClass::merge` reads both costs from one cache.
- Freshness.RebuildRefreshes: takes acyclic e-graphs whose held nodes are all listed with their operands, which the invariant gives for values no constant class has; of the repaired classes' own caches it says nothing, since these need not be exact (`Freshness.MergedCacheNotBest`).
- ThreadQueue.WorkersFinish: says that the workers can finish, and `ThreadQueue.StepProgresses` that only steals from empty queues can delay it; that the random choice of victims is fair is not part of this model.
- Extractor.Extractor.EvalCost: takes an acyclic e-graph and exact caches, and costs are unbounded naturals rather than 64-bit words.
- Extractor.Extractor.Extract: takes an acyclic e-graph and exact caches, as `EvalCost` does.
- The constant folding that `CreateRaw` applies to extracted trees: it is `SimplifierSound.RefoldSound`.
- EGraph.EGraph.Rebuild: takes an untangled graph, a condition on the graph alone that no model enters. It allows every value coincidence and every class that is or becomes its own parent, as long as congruent parents do so together or are in one class; acyclicity at the call does not suffice (`EGraphCases.AcyclicNotEnough`). That `rebuild` goes wrong on every tangled graph is not stated: it depends on the order of the worklist and of the parent tables. Congruence is stated for values no constant class has, and that it can fail for others by `EGraphPruning.PruningLosesCongruence`.
- EGraphSeparate.SeparatingModel: speaks of graphs before their first `rebuild` that prunes or merges; afterwards dropped entries no longer force what they forced.
- Associativity.Rewriter.Rewrite: takes operands of the opcode's nodes to have the node's type, as the builders assert, and asks that the whole e-graph is acyclic with exact caches (`Associativity.Rewriter.Ready`), which the source does not ask.
- Associativity.Rewriter.Flatten: takes an acyclic e-graph with exact caches, as `Rewrite` does.
- Substitution.Simplify: does not say that an equality that came up later has been used on assertions stored after it, because additions made earlier in a pass are not scanned again for a later equality of that pass.
- Slicer.SliceDecides: takes closure as a hypothesis, because the code gathers one level only.
- Pointers.Resolve: says that the blocks are covered, not that the forks built from the results exclude each other.
- Symbols carry their width: `replace_all` compares names alone, and a name is taken to have one type.
- `MkSub` compares operands by structure where the source compares addresses; the value is the same.
- Pointers.CheckValid: says nothing of models in which some live block ends before the width of the access, where the subtraction wraps, nor of resolved pointers.
- MemHeaps.MemHeap.Deallocate: takes a path that has a model; on a path without one two live blocks may have one address.
- Satisfiability of the path after a symbolic allocation, the data of an allocation, `check_starts_allocation` and several heaps.
- Locks and the condition variable of the work-stealing store, which only remove interleavings; `shutdown`; and the iteration over a queue map that no thread has entered yet.
- `remove_node` of the set-trie, which frees nothing; so its node vector has no holes.
- The iterator-range constructor of `SharedArray`, which leaves the size at 0; hashing and comparison.
- `GraphAssertionList`, `OperationCache`, `weak_map` expiry, `BuddyAllocator`, the other context stores, tracing and logging.
