# Verified model of tinyllama.c

tinyllama.c is an inference engine for language models written in C. This project models
the parts of it whose correctness rests on an argument and not on one line of code, and
proves that argument with Dafny. `dafny verify dfyconfig.toml` checks everything.

**Radix tree** (`src/rax.c`). `RaxTree` defines nodes, their shape and the entries of a tree;
a place in a tree is a stack of parents, as in the source's iterator and removal. `RaxContents`
relates places, entries and the finite map. `RaxWalk`, `RaxInsert` and `RaxRemove` hold the
walk, the two splitting algorithms, the cleanup and the recompression, and `Rax` the tree
object with its counters. `RaxSteps`, `RaxSeek` and `RaxIterator` model the iterator,
`RaxRuns` whole runs of updates and whole walks, `RaxTight` when no mergeable chain is left, `RaxOverrun` a run of calls
after which the tree is wrong, `RaxLayout` the bytes of one node.

**Planner and executor** (`src/graph.c`, `src/backend/cpu/cpu_op.c`). `Graph` and `ArenaPlan`
model the static memory planner. `GraphValue` is the reference: the value of every node at
every position, with no memory at all. `ArenaMemory` and `Executor` run the graph over the
planned, aliased slots, caches and state buffers in micro-batches and prove that the logits,
caches and states are the reference values. `RecurNodes` ties the recurrent operators to the
reference, and `MicroBatch` compares whole runs of two sessions.

**Allocator** (`src/asctx.c`). `AllocChunk` has size classes and chunk masks, `AllocState` the
invariant of the address space, `AllocBlocks` the doubly linked block list, `AllocSteps` the
state changes, `AllocRuns` runs on a new set of any size, `AllocAlign` alignment, `AllocSet` the operations.

**Tokenizers** (`src/core.c`, `src/tokenizer.c`, `src/model/qwen25.c`, `src/model/gemma3.c`).
`TokenTable` is the linear-probing table, `Vocabulary` the loaders, `ByteMap` the byte-level
alphabet and its decoder. `Pretokenizer`, `Bpe`, `MergeList` and `BpeRoundTrip` are the byte-pair encoder,
`Spm`, `SpmJoins` and `SpmRoundTrip` the SentencePiece encoder, each with the exact condition under which
decoding gives the text back.

**Sampling, concurrency, memory fitting.** `Sampler` (`src/sampler.c`) proves the bounded
selection exact. `ThreadPool` and `PoolDispatch` (`src/pthreads.c`) and `JobQueue` (`src/server.c`) are step
relations over all interleavings. `AutoContext` (`src/core.c`) is the search for the context size.

**Fast numeric forms** (`src/backend/cpu/cpu_op.c`, `src/backend/cpu/cpu_x86.c`,
`src/quants.c`). `ConvRing`, `MambaConv`, `DeltaRule`, `DeltaRows` and `MambaScan` are the recurrences, on top of `RowRuns`;
`MatMul` and `MatMatMul` the tiled and chunked products, `Bits`, `Quants` and `Dequant` the block kernels against scalar
dequantisation. `DeltaEntries`, `ScanEntries` and `ProductEntries` state what these compute at the positions of the flat
arrays, `Packing` what the blocks hold. Numbers are reals. `Strides`, `FlatSums` and `Common` are shared helpers.

What changes step by step in the source is a method over arrays, fields or a class here, and
is proved against a function that says what it computes. Lengths, offsets and counters are
unbounded integers except where a width matters (masks, key lengths, node sizes, block sizes).

These claims hold only under a condition, which is stated exactly, with an input or a run outside it that fails:
the SentencePiece round trip (`SpmRoundTrip.RoundTripExactly`, `RoundTripUtf8`, `ByteFormLost`, `MarkLost`), the byte-pair
round trip (`BpeRoundTrip.RoundTripIff`, `SpecialBreaks`), the decoding of chunk masks (`MaskDecodes`), the size of the
keeper block (`AllocRuns.KeeperExactly`, `TooSmall`, `TooLarge`), removal from the radix tree (`Rax.Remove`,
`RaxOverrun.Run`), what removal and insertion leave to merge (`RemovalTight`, `FooStays`; `InsertionTight`,
`PieceAbovePlain`), pieces under their own spelling (`Vocabulary.LongPieces`), and the thread pool's promise across
dispatches. The last one depends on what a worker sees of the next dispatch. With its stores as one step, stragglers are harmless exactly while they hold no index below the
new end (`GuaranteedExactly`, `StragglerRuns`), so that ends which do not rise are safe (`NextDispatchExactly`). But the claim
loop takes no mutex and can see the stores one by one; then a worker at the top of its loop is enough to break the
promise, whatever the range (`FineGuaranteedExactly`, `OnlyFirstDispatch`).

Where comments and code disagree the model follows the code: `match_special_token` is documented
as matching `<|...|>` but takes any piece that starts with `<|` (`src/tokenizer.c:22-44`);
`raxRemove` is documented as merging FOO and BAR when FOO goes (`src/rax.c:1109-1118`) but tries only a node of size
one (`src/rax.c:1083`); and `qwen25_decode` is documented as inverting the byte map but also takes two-byte forms that no
byte is spelt with (`src/model/qwen25.c:123-139`).

## Model

| member | source | states |
|---|---|---|
| RaxTree.PlugEntries | src/rax.c:459-500 | A tree with one place opened lists the entries before that place, those of the subtree there, and those after it, and has the nodes around it plus the subtree's: what lets a node be replaced through its parent link without touching the rest. |
| RaxTree.PlugWf | src/rax.c:459-500 | Putting a well-formed subtree whose leaf is a key back under its parents gives a well-formed tree (sorted distinct edges, compressed nodes of at least two bytes, every leaf but the root a key). |
| RaxTree.AtAscending | src/rax.c:1313-1409 | Read depth first, a well-formed tree lists its keys in strictly ascending byte order. |
| RaxTree.LessMeans | src/rax.c:1313-1409 | That order in terms of the first difference: a proper prefix comes first, or the smaller byte. |
| RaxContents.StopDecides | src/rax.c:918-927 | At the node where the walk for a string stops, the string is a key of the whole tree exactly when it was used up there, outside a compressed edge, at a node that is a key; the value is then that node's. |
| RaxContents.PlaceOrder | src/rax.c:1569-1690 | Any string that passes through a place in the tree is greater than all keys before the place and smaller than all keys after it. |
| RaxWalk.MatchChars | src/rax.c:469-473 | The byte loop inside a compressed node returns the longest common run of edge and string. |
| RaxWalk.FindEdge | src/rax.c:474-483 | The edge scan returns the first edge with that byte, or the number of edges when there is none. |
| RaxWalk.LowWalk | src/rax.c:459-500 | The walk ends at a node of the tree whose path is a prefix of the string and where it cannot go on, with the parents on the stack, the count of matched bytes and the offset inside a compressed edge; the place is determined by tree and string. |
| RaxInsert.SplitAtMismatch | src/rax.c:676-782 | Splitting a compressed node at the byte that differs builds exactly the trimmed, split and postfix nodes the six cases call for, and counts the nodes added. |
| RaxInsert.SplitKeeps | src/rax.c:676-782 | Such a split leaves every entry of the whole tree as it was and adds one node for each non-empty part on either side. |
| RaxInsert.CutKeeps | src/rax.c:783-844 | Cutting a compressed node where the string ends (the second algorithm) keeps all entries and adds one node. |
| RaxInsert.AddChild | src/rax.c:256-387 | A child on a new byte goes to its sorted position among the edges, all others keep their order. |
| RaxInsert.AddChildEntries | src/rax.c:256-387 | An added empty child is one more node and no entry. |
| RaxInsert.CompressEntries | src/rax.c:397-428 | Turning a childless node into a compressed one with an empty child keeps its entries and adds one node. |
| RaxInsert.AppendTail | src/rax.c:846-877 | The loop that adds the missing nodes spells out the rest of the string, in pieces a node can hold, changes no entry, counts the nodes it adds, and makes exactly those nodes. |
| RaxInsert.StoreNew | src/rax.c:878-884 | A value stored at a node that was no key adds exactly that key to the map and one to its size. |
| RaxInsert.StoreOver | src/rax.c:537-543 | A value stored at a node that is a key replaces that key's value and nothing else. |
| RaxRemove.RemoveChildEntries | src/rax.c:949-1018 | Unlinking a child that holds no key keeps all entries and takes exactly its nodes away. |
| RaxRemove.FreeBranch | src/rax.c:1047-1075 | The upward cleanup frees the childless node and every plain parent, stops at a key or a branching node, keeps all remaining entries, and its count is the number of nodes that went. |
| RaxRemove.ClimbPlain | src/rax.c:1141-1152 | The climb stops at the topmost node of the chain of plain single-child nodes, without changing the tree. |
| RaxRemove.CountChain | src/rax.c:1154-1166 | The counting scan counts more than one node exactly when a second node of the chain fits with the first; it counts the bytes up to the first node that does not fit, which is the whole chain exactly when the chain fits in a node, and then the node count is the chain's. |
| RaxRemove.MergeChain | src/rax.c:1184-1203 | The rewriting scan writes the bytes of the whole chain, whatever was counted, and frees every node of it; the one node it makes keeps as many bytes as were counted and leads to the end of the chain. |
| RaxRemove.MergedFacts | src/rax.c:1169-1209 | That node is well formed whatever was counted, the node count stays right, its end cannot be merged with it, and it lists what is below the chain on an edge of the bytes counted. |
| RaxRemove.RemoveAt | src/rax.c:1038-1219 | Clean-up and recompression after the key is gone: shape and node count are kept, and all entries as well unless more bytes are written than were counted for the node, which happens exactly when the chain is longer than a node can hold while its first two nodes fit. |
| RaxRemove.OverrunLoses | src/rax.c:1170-1203 | In that case every key below the chain is shortened by the bytes that were not counted, all others stay, and a key longer than a node can hold is no key any more. |
| RaxRemove.ClearSlot | src/rax.c:1034-1036 | Taking the value away from a node removes exactly its key from the map and one from its size. |
| Rax.RecursiveFree | src/rax.c:1223-1238 | Freeing a subtree releases every node once and hands every stored value over once, counted with multiplicity. |
| Rax.Rax.constructor | src/rax.c:203-215 | A new tree is empty, with one node. |
| Rax.Rax.Find | src/rax.c:918-927 | Lookup agrees with the finite map the tree stands for, for every string. |
| Rax.Rax.GenericInsert | src/rax.c:509-884 | Insert and try-insert: the new map, the old value and the return value are those of the finite map; the shape, the key count and the node count stay right; the new tree is determined by the place where the walk stops. |
| Rax.Rax.Remove | src/rax.c:1022-1219 | Remove, for every tree and string: shape, key count and node count stay right and the old value is returned; the map loses exactly that key if and only if the recompression does not write more than it counted, which the place of the key decides, and otherwise a remaining key longer than a node can hold is lost too. |
| Rax.Rax.Free | src/rax.c:1242-1246 | The assertion that no node is left after freeing holds, and each stored value is handed to the callback once. |
| Rax.Rax.NumeleCountsKeys | src/rax.c:1821-1823 | The element counter is the number of keys of the map. |
| RaxRuns.Replay | src/rax.c:904-1219 | Any sequence of inserts, try-inserts and removes leaves a tree that denotes the finite map the calls define; the counter and a lookup of any string agree with it. The run gets to its end if all keys fit in a node, and otherwise stops only at a removal after which the tree does not denote that map. |
| RaxTight.RemovalTight | src/rax.c:1076-1166 | From a tree without two mergeable nodes in a row, removing a key leaves such a pair exactly when the key's node is compressed and beside a plain node, or the recompression is tried on two nodes that do not fit in one. |
| RaxTight.FooStays | src/rax.c:1109-1118 | The example in the source's comment: removing FOO from FOO and FOOBAR attempts no recompression and leaves FOO and BAR as two nodes. |
| RaxTight.InsertionTight | src/rax.c:676-877 | Inserting into such a tree leaves no such pair exactly when the bytes added fit in the new nodes and the split of a compressed key node does not put the rest of its edge above a plain node. |
| RaxTight.PieceAbovePlain | src/rax.c:733-770 | An input on which that split does. |
| RaxOverrun.Run | src/rax.c:1154-1197 | Five calls on a new tree (three inserts of 10, 11 and 2^29 + 10 equal bytes, the first two removed again, the longer one first) after which the tree holds the 11 bytes removed and not the 2^29 + 10 that should be left. |
| RaxOverrun.PastTheNode | src/rax.c:1169-1197 | The bytes written there exceed the allocation, padding and child pointer included. |
| RaxRuns.WalkUp | src/rax.c:1510-1709 | Seeking with "^", ">" or ">=" and stepping forward to the end visits exactly the keys of the map that match, each once with its value, in strictly ascending order. |
| RaxRuns.WalkDown | src/rax.c:1510-1724 | Seeking with "$", "<" or "<=" and stepping backward to the start visits exactly the matching keys, each once with its value, in strict order. |
| RaxRuns.AllAbove | src/rax.c:1510-1691 | From the entry a forward operator lands on, the remaining entries are exactly the matching ones. |
| RaxSteps.NextStep | src/rax.c:1313-1409 | A forward step goes to the next entry in order, or reports the end exactly when none is left and then leaves the position alone; with `noup` it starts from the byte that did not match. |
| RaxSteps.PrevStep | src/rax.c:1433-1504 | A backward step goes to the preceding entry, or reports the start exactly when there is none. |
| RaxSteps.ClimbNext | src/rax.c:1350-1407 | The climb out of finished subtrees enters the first subtree not yet visited, or finds that nothing follows. |
| RaxSteps.SeekGreatest | src/rax.c:1414-1428 | Going down the last children ends at the last entry of the subtree. |
| RaxSeek.StopDivides | src/rax.c:1608-1684 | Where the lookup of a probe stops, the children split into those whose keys are all smaller and those whose keys are all greater than the probe. |
| RaxSeek.LandAfter | src/rax.c:1618-1640 | For ">" and ">=" what follows the splitting point holds the first match, or nothing matches. |
| RaxSeek.LandBefore | src/rax.c:1641-1683 | For "<" and "<=" what precedes the splitting point ends with the last match, or nothing matches. |
| RaxSeek.LandExact | src/rax.c:1569-1575 | A key equal to the probe is the match for "=", ">=" and "<=". |
| RaxIterator.Iterator.constructor | src/rax.c:1258-1269 | A started iterator is at its end until a seek. |
| RaxIterator.Iterator.Seek | src/rax.c:1510-1691 | For any probe and each of "^", "$", ">", ">=", "<", "<=", "=" the iterator lands on the nearest matching key of the ordered map, with key, value and node in step, or at the end exactly when no key matches; other operators are refused. |
| RaxIterator.OperatorMeans | src/rax.c:1510-1545 | What each operator asks for, by its characters: ">" and "<" compare strictly and admit the probe itself with a "=" behind them, "=" asks for it, "^" and "$" match every key, anything else is refused. |
| RaxIterator.OperatorLands | src/rax.c:1510-1691 | The match landed on is the first one, for "<" and "$" the last one. |
| RaxIterator.Iterator.SeekNormalMiss | src/rax.c:1608-1621 | The case of a byte without an edge in a normal node lands as the operator asks. |
| RaxIterator.Iterator.SeekComprMiss | src/rax.c:1622-1655 | The case of a mismatch inside a compressed edge lands as the operator asks. |
| RaxIterator.Iterator.SeekNoMiss | src/rax.c:1656-1684 | The case of a probe that ends at a node, or inside an edge, lands as the operator asks, the "foobar" exception included. |
| RaxIterator.Iterator.Next | src/rax.c:1696-1706 | raxNext moves from entry i to entry i+1, or stays on the entry just sought, and ends after the last one. |
| RaxIterator.Iterator.Prev | src/rax.c:1711-1721 | raxPrev moves from entry i to entry i-1, or stays on the entry just sought, and ends before the first one. |
| RaxIterator.Iterator.OnEntry | src/rax.c:1313-1504 | Standing on entry i, key and value of the iterator are those of entry i, and the stack separates the entries before it from those after it. |
| RaxLayout.Padding | src/rax.c:153-157 | Padding brings header and edge bytes to a whole number of words. |
| RaxLayout.HoldsDecodes | src/rax.c:159-182 | Edge bytes, child pointers and the optional value at the offsets of the layout are what reading the node back gives. |
| RaxLayout.DecodeHolds | src/rax.c:159-182 | Every node of the right length holds what it decodes to, so that decoding is total. |
| RaxLayout.Spread | src/rax.c:310-372 | The four memmove calls bring value, right pointers, left pointers and edge bytes to their new offsets; none overwrites bytes still to be moved. |
| RaxLayout.Gather | src/rax.c:984-1004 | The three memmove calls of the removal do the same in the other direction. |
| RaxLayout.Node.AddChild | src/rax.c:256-387 | On the bytes: the node then decodes to the old one with the new edge and pointer at the sorted position; all other edges, pointers and the value survive. |
| RaxLayout.Node.RemoveChild | src/rax.c:949-1018 | On the bytes: exactly the edge and pointer of that child go; a compressed node becomes an empty normal one that keeps its value. |
| RaxLayout.AddedAscends | src/rax.c:305-308 | The edge bytes stay strictly sorted. |
| RaxLayout.Node.AddThenRemove | src/rax.c:949-1018 | On the bytes: adding a child and removing it again leaves the node as it was. |
| Graph.MarkSinks | src/graph.c:602-605 | The marking loops find exactly the nodes that no other node reads. |
| Graph.ComputeRelease | src/graph.c:620-627 | release[i] is the last node that reads node i, or i itself. |
| Graph.WidthIs | src/graph.c:512-530 | A node has its own width, or that of its first source. |
| Graph.SourceHeld | src/graph.c:620-627 | A source is always released after the node that reads it has run. |
| ArenaPlan.Align16 | src/graph.c:498-498 | The next multiple of 16. |
| ArenaPlan.NeedCovers | src/graph.c:610-617 | A slot's size covers every batch of at most n_ubatch rows (one row for a sink, the token ids for the input), so that the capacity check of the executor cannot fail. |
| ArenaPlan.NeedExact | src/graph.c:610-617 | And it is no larger than that: the next multiple of 16 of four bytes per id, per element of one row for a sink, and per element of n_ubatch rows otherwise. |
| ArenaPlan.FreeLists.Push | src/graph.c:643-651 | A finished slot joins the free list of its own backend, which never overflows. |
| ArenaPlan.FreeLists.BestFit | src/graph.c:653-662 | The scan returns the first of the smallest free chunks that fit, or reports that none fits. |
| ArenaPlan.FreeLists.Take | src/graph.c:663-668 | The chosen chunk leaves the list by swap-remove; every other chunk stays. |
| ArenaPlan.PackedTake | src/graph.c:663-668 | Giving a free chunk to the next node keeps all live slots and free chunks of a backend apart and inside its arena. |
| ArenaPlan.PackedBump | src/graph.c:668-671 | So does fresh space at the end of the arena. |
| ArenaPlan.ReleaseFinished | src/graph.c:641-651 | The release part of a step hands exactly the slots whose last reader has run to their free lists, in the order of the nodes; free chunks plus live slots never outnumber the nodes placed, so that the lists cannot overrun. |
| ArenaPlan.Place | src/graph.c:653-672 | The placement part gives node i the best free chunk, and fresh bytes only when no chunk fits; the slot is apart from those of all live nodes on the same backend and within the arena. |
| ArenaPlan.Sweep | src/graph.c:641-673 | For any lifetimes and sizes: two nodes on one backend whose lifetimes meet get disjoint ranges, every range is aligned and lies within its arena, and offsets and arena sizes are those of releasing and best fit, step by step. |
| ArenaPlan.Plan | src/graph.c:591-705 | The whole planner, for any graph with backward edges: widths, sizes and lifetimes as defined, and the sweep's guarantees for them. |
| ArenaPlan.ChainNeedsTwo | src/graph.c:641-673 | On a chain of nodes with slots of one size the plan uses two places in turn, however long the chain is. |
| GraphValue.ValPrefix | src/graph.c:1277-1327 | In the reference evaluation, which gives every node its own value for every position, later tokens never change the value of an earlier position. |
| GraphValue.StatePrefix | src/graph.c:1277-1327 | Nor do they change the state of a recurrence, whatever its step. |
| GraphValue.SameVal | src/graph.c:1281-1293 | Graphs with the same operators on the same sources mean the same, whatever batch capacity they were built for, and whatever widths and backends they record. |
| GraphValue.SameStateAt | src/graph.c:1281-1293 | So do their recurrent states. |
| GraphValue.WindowStart | src/backend/cpu/cpu_op.c:1008-1013 | The keys from here to the query at p are exactly those that are not later and, with a window, fewer than `win` positions back: p + 1 or `win` of them, whichever is smaller. |
| GraphValue.AttnReads | src/backend/cpu/cpu_op.c:1003-1033 | In the reference, attention at p is the row function of the query row at p and the last key and value rows up to p, as many as that; so that is what the executor leaves in the slot. |
| GraphValue.AttnDepends | src/backend/cpu/cpu_op.c:1008-1013 | It depends on nothing else: two texts that agree on the query at p and on the keys and values at the visible positions give the same row. |
| ArenaMemory.SlotFits | src/graph.c:1201-1202 | In words of its arena, a node's slot has room for all rows it may be asked for. |
| ArenaMemory.SlotsApart | src/graph.c:641-673 | A node that is still to be read and the node that is running occupy different words. |
| ArenaMemory.ReadyFrame | src/graph.c:1195-1219 | Writing anywhere inside the running node's slot leaves the rows of every node still to be read in place. |
| Executor.Session.constructor | src/graph.c:1068-1087 | A built graph, planned and with empty caches, is a session that has processed no token. |
| Executor.Session.Gather | src/graph.c:1195-1219 | The source rows read from the aliased arenas are the reference values of the sources. |
| Executor.Session.RunRow | src/graph.c:1195-1219 | A row operator leaves the reference rows of its node in its slot and all needed slots intact. |
| Executor.Session.WriteThrough | src/backend/cpu/cpu_op.c:988-999 | Keys and values of the batch go to positions pos to pos+n-1 of this layer's cache, and the cache then holds the reference rows of all positions so far; other layers are untouched. |
| Executor.Session.RunAttn | src/backend/cpu/cpu_op.c:964-1033 | Attention over the cache, full or windowed, leaves the reference rows (`GraphValue.AttnReads`) in its slot. |
| Executor.Session.RunRecur | src/backend/cpu/cpu_op.c:746-834 | A recurrence leaves the reference rows in its slot and the reference state in its buffer; other states are untouched. |
| Executor.Session.BindTokens | src/graph.c:1147-1163 | Binding succeeds exactly for batches that the graph has capacity for and makes the token ids the input's rows; a larger batch is refused before anything is written. |
| Executor.Session.RunNode | src/graph.c:1195-1219 | One node of the walk: neither guard fails, its slot holds its reference rows, caches and states have advanced. |
| Executor.Session.Compute | src/graph.c:1126-1251 | One batch over planned, aliased slots gives the logits row that evaluating every node in a buffer of its own gives; it succeeds exactly when the batch is empty, or fits the context and the graph's capacity, and a refused batch changes nothing. |
| Executor.Session.Publish | src/graph.c:1227-1240 | The first min(width, vocabulary) logits are the sink's row. |
| Executor.Session.Execute | src/graph.c:1277-1327 | graph_execute succeeds exactly when tokens are given and fit the context; then caches, states, logits and token count are those of the whole token sequence, whatever the micro-batch size, and a refused call changes nothing. |
| Executor.SameOutcome | src/graph.c:1277-1327 | Micro-batch invariance: two sessions of one computation that have processed the same tokens, with any two micro-batch sizes and any split into calls, agree on every cache row, every recurrent state and the logits the sink fills. |
| MicroBatch.RunCalls | src/graph.c:1277-1327 | Any list of non-empty calls on a new session succeeds exactly when all its tokens fit the context, and leaves the caches, states and logits of the whole token sequence; logits that the sink does not fill stay as they were. |
| MicroBatch.AnyChunks | src/graph.c:1277-1327 | From creation to the end: two sessions with any two micro-batch sizes and context sizes, driven through any two lists of non-empty calls with the same tokens that fit them, end with equal caches, states and logits, every logit included. |
| AllocChunk.LeftmostIsHighest | src/asctx.c:7-24 | Every one of the 256 entries of the literal table is the position of the highest set bit. |
| AllocChunk.HighestBit | src/asctx.c:7-24 | That position p satisfies 2^p <= b < 2^(p+1). |
| AllocChunk.Leftmost32Pos | src/asctx.c:27-32 | The position of the highest set bit of any non-zero 32-bit word. |
| AllocChunk.FreeIndex | src/asctx.c:39-53 | The class of a size is the smallest power of two from 8 up that holds it, and is one of the eleven lists for every size up to the chunk limit. |
| AllocChunk.ClassSizes | src/asctx.h:10-36 | The eleven classes hold 8, 16, 32 and so on up to 8192 bytes. |
| AllocChunk.ClassUnique | src/asctx.c:39-53 | A size has one class. |
| AllocChunk.MaskDecodes | src/asctx.c:55-70 | A chunk mask gives back its size and is never read as external; it gives back its block offset if and only if the chunk starts less than 2^30 bytes into its block. |
| AllocBlocks.PushFront | src/asctx.c:123-130 | A new block in front keeps the list doubly linked. |
| AllocBlocks.InsertSecond | src/asctx.c:151-160 | A block inserted behind the first one keeps the list doubly linked. |
| AllocBlocks.Unlink | src/asctx.c:239-245 | Unlinking any block but the first keeps the list doubly linked. |
| AllocBlocks.Move | src/asctx.c:208-216 | A block that realloc moves is linked at its new address. |
| AllocSteps.LiveApart | src/asctx.c:165-192 | Two chunks in use never share a byte, nor does one reach into the other's header. |
| AllocSteps.LiveInside | src/asctx.c:64-70 | A chunk in use lies inside the block its header leads to, outside all other blocks and outside the context header. |
| AllocAlign.LiveAligned | src/asctx.h:33-35 | Every pointer in use is a multiple of eight. |
| AllocAlign.CarveAligned | src/asctx.c:98-104 | Cutting a chunk off a block keeps blocks, chunks and free space aligned. |
| AllocSteps.CarveGood | src/asctx.c:98-104 | Cutting a chunk off a block's free space keeps the whole invariant. |
| AllocSteps.PopGood | src/asctx.c:175-181 | So does taking one off a free list, whose chunks are dead and of exactly that class. |
| AllocSteps.PushGood | src/asctx.c:246-252 | So does putting one back on the list of its class. |
| AllocSteps.FrontGood | src/asctx.c:120-130 | So does a new block in front. |
| AllocSteps.SecondGood | src/asctx.c:135-163 | So does an external block behind the first. |
| AllocSteps.DropGood | src/asctx.c:239-245 | So does giving an external block back; it is never the first of the list. |
| AllocSteps.RelocateGood | src/asctx.c:200-219 | So does moving an external block with its chunk. |
| AllocRuns.KeeperHasRoom | src/asctx.c:72-96 | The keeper block has room for its own header exactly when more than 32 bytes are asked for. |
| AllocRuns.UsableRuns | src/asctx.c:165-192 | Any run of small calls that a usable set serves from its keeper keeps the whole invariant; the free size does not wrap. |
| AllocRuns.TooSmall | src/asctx.c:188-191 | With 32 bytes or less asked for, the free size wraps, and the first chunk lies behind the end of the block. |
| AllocRuns.TooLarge | src/asctx.c:64-70 | With more than 2^30 + 16 bytes asked for, a run of calls for eight bytes whose last chunk starts 2^30 bytes into the block and is led elsewhere. |
| AllocRuns.KeeperExactly | src/asctx.c:72-104 | For every 32-bit size: all chunks that calls take from the keeper of a new set lie in it and are led back to it, in every run, if and only if more than 32 and at most 2^30 + 16 bytes are asked for. |
| AllocSet.Set.constructor | src/asctx.c:72-96 | For every 32-bit size: one empty keeper block and nothing in use, and the set satisfies its invariant exactly for those sizes. |
| AllocSet.Set.Alloc | src/asctx.c:165-192 | The pointer returned was not in use, is a multiple of eight, has room for the size asked for, and everything else in use stays as it was. A small chunk is the front of its free list; only if that is empty it comes from the first block, and only if that has no room from a new first block; a call that the keeper serves is one step of the runs above. |
| AllocSet.Set.AllocLarge | src/asctx.c:135-163 | A large chunk gets a block of its own; the first block stays first. |
| AllocSet.Set.NewBlock | src/asctx.c:106-133 | The block goes in front and holds the chunk; it has the size that was next, or that of the chunk if more is needed; the next size doubles up to 8 MB. |
| AllocSet.Set.Free | src/asctx.c:235-253 | Exactly that pointer is no longer in use: a small chunk is then at the front of the list of its class, a large one is gone with its block. |
| AllocSet.Set.Realloc | src/asctx.c:194-233 | The contents come along up to the smaller of both sizes, no other chunk in use loses a byte, and the new pointer holds the new size and is a multiple of eight; a small chunk that already holds the size stays where it is, and a large one moves with its block. |
| AllocSet.Set.FreeThenAlloc | src/asctx.c:165-253 | A small chunk given back is the next one that a request of its class gets, and no block changes. |
| AllocSet.Set.Reset | src/asctx.c:255-279 | Nothing is in use and only the empty keeper is left, first in the list. |
| TokenTable.NextPow2 | src/utils.c:16-20 | The smallest power of two that is at least n. |
| TokenTable.Hole | src/core.c:270-274 | Fewer keys than slots leave an empty slot, so that a probe loop ends. |
| TokenTable.Table.Locate | src/core.c:285-301 | The probe loop finds the key's slot, or the first empty slot of its probe chain when the key is absent. |
| TokenTable.Table.Get | src/core.c:305-320 | Lookup agrees with the map of all keys put, absent keys included. |
| TokenTable.Table.Put | src/core.c:285-302 | A put changes that key of the map and no other. |
| TokenTable.Fill | src/core.c:270-302 | Any sequence of puts with at most `expected` distinct keys never fills the table, and the table maps each key to the last value put. |
| ByteMap.Utf8 | src/core.c:920-928 | The encoding of section 3 of RFC 3629: the shortest form, with proper lead and continuation bytes, whose payload bits are the code point. |
| ByteMap.ShiftedClosed | src/core.c:911-917 | The counting loop in closed form: how many bytes below b have no code point of their own. |
| ByteMap.DecEnc | src/model/qwen25.c:119-158 | The decoder gives back every byte from its piece, whatever follows. |
| ByteMap.DecEncAll | src/model/qwen25.c:119-158 | It gives back any text from the concatenated pieces of its bytes. |
| ByteMap.DecIsIdentity | src/model/qwen25.c:129-155 | A piece decodes to itself if and only if no two-byte form occurs in it. |
| ByteMap.TwoByteForm | src/model/qwen25.c:130-145 | The nested tests give byte b whenever the two bytes are the piece of b; conversely the bytes are the piece of the result exactly when they are not C2 80 to C2 A0 or C2 AD, which the decoder also takes although no byte is spelt so. |
| ByteMap.Decode | src/model/qwen25.c:119-158 | The decoding loop writes the decoded text, cut at the buffer, with a NUL when there is room, and touches nothing behind. |
| Vocabulary.MergeResult | src/core.c:650-665 | The merged token of two tokens is a piece that spells the two pieces one after the other. |
| Vocabulary.TableOfSound | src/core.c:706-711 | Every piece is found, under the last index that holds it. |
| Vocabulary.BpeTable | src/core.c:897-932 | Each byte's entry is the token of its mapped code point, or none. |
| Vocabulary.LoadBpe | src/core.c:810-932 | From the strings of the file: the loaded tables are sound, every id names its piece, and every byte token spells its byte. |
| Vocabulary.LoadSpm | src/core.c:693-751 | The same for the byte-fallback table, with and without token types. |
| Vocabulary.LongPieces | src/core.c:219-227 | A string of the file is found under its own spelling exactly up to 255 bytes; a longer one takes the place of its first length-modulo-256 bytes. |
| Vocabulary.SpeltByte | src/core.c:667-686 | A piece has a byte value exactly if it is "<0x", two hexadecimal digits in either case and ">", and the digits are those of the value. |
| Vocabulary.ByteTokens | src/core.c:740-750 | The token of a byte is the last piece that spells it and, where the file gives types, has type 6. |
| MergeList.RankListed | src/core.c:629-647 | From the strings of the file: a pair of tokens has a rank exactly if the merge list has the line of its first piece, a space and its second piece (at most 255 bytes), and the rank is the number of the last such line. |
| MergeList.JointListed | src/core.c:649-665 | Its merged token is the last piece spelt like both, and there is none exactly if no such piece of at most 255 bytes is in the file. |
| Pretokenizer.MatchSpecial | src/tokenizer.c:25-44 | The longest piece of at most 64 bytes that opens the text, when it starts like a special token, and its id. |
| Pretokenizer.Longest | src/tokenizer.c:32-38 | No longer length within the bound gives a piece. |
| Pretokenizer.SpecialLongest | src/tokenizer.c:25-44 | Any piece of two to 64 bytes that opens a text which starts like a special token is no longer than the one taken. |
| Pretokenizer.ChunkShape | src/tokenizer.c:104-160 | A chunk is a contraction; or else, where two whitespace bytes or a last one come next, all of that whitespace; or else the maximal run of one category behind at most one whitespace byte. |
| Pretokenizer.CategoryChars | src/tokenizer.c:13-20 | The categories in terms of characters: letters and all bytes above 127, digits, the six whitespace characters, and the rest. |
| Pretokenizer.Contractions | src/tokenizer.c:102-120 | Exactly 's, 't, 'm, 'd, 're, 've and 'll count, each with its own length. |
| Pretokenizer.SegmentsPartition | src/tokenizer.c:92-161 | The pre-tokenizer makes progress, and its segments partition the text. |
| Pretokenizer.NextChunk | src/tokenizer.c:102-160 | The scanning code finds the end of exactly that chunk. |
| Bpe.FindBest | src/tokenizer.c:60-68 | The scan finds the leftmost pair of least merge rank, or reports that no pair has a rank. |
| Bpe.MergeAll | src/tokenizer.c:59-76 | Compacting the symbols in place merges best pairs until none is left. |
| Bpe.EncodeChunk | src/tokenizer.c:48-81 | A chunk's tokens are appended as far as they fit. |
| Bpe.TokenizeBpe | src/tokenizer.c:87-167 | The result is exactly the tokens of the text's segments in order, cut at both caps. |
| MergeList.MergesFirst | src/tokenizer.c:58-76 | Of all neighbouring tokens that are a line of the merge list, those of the first line are merged, leftmost first, into the last piece spelt like both; what follows is the result of the loop. |
| MergeList.StopsThere | src/tokenizer.c:69-71 | Where no two neighbours are a line, or no piece is spelt like the first pair that is one, the loop stops. |
| MergeList.ChunkStops | src/tokenizer.c:48-81 | So a finished chunk has no two neighbouring tokens that are a line of the list, or the first pair that is one has no token of its own. |
| MergeList.TwoBytes | src/tokenizer.c:48-81 | Two bytes whose pieces are a line, and whose joint spelling is a piece, become that one token. |
| BpeRoundTrip.MergeKeeps | src/core.c:650-665 | A merge keeps the text that the symbols read as. |
| BpeRoundTrip.MergedKeeps | src/tokenizer.c:59-76 | So does the whole merge loop, whatever the ranks. |
| BpeRoundTrip.ChunkText | src/tokenizer.c:48-81 | A chunk decodes to its first 512 bytes that have a token. |
| BpeRoundTrip.WholeText | src/tokenizer.c:87-167 | Before the caps, decoding gives the text if and only if no segment loses anything. |
| BpeRoundTrip.RoundTripIff | src/tokenizer.c:87-167 | The returned tokens decode to the text if and only if no segment loses anything and the tokens fit both caps. |
| BpeRoundTrip.RoundTrip | src/tokenizer.c:87-167 | Any text whose segments have at most 512 bytes, no longer than the caps, comes back when every byte has a token and no special piece holds a two-byte form, whatever the merge list says. |
| BpeRoundTrip.AsciiSpecialsRoundTrip | src/tokenizer.c:87-167 | The same with what can be read off a vocabulary: a token for every byte, and only ASCII in pieces that open like a special token. |
| BpeRoundTrip.SpecialBreaks | src/tokenizer.c:92-100 | A special piece with a two-byte form in it does not come back. |
| Spm.Normalize | src/tokenizer.c:192-205 | Normalised text is between once and three times as long: the buffer of 3n+3 bytes is large enough. |
| SpmRoundTrip.NormalizeSpaces | src/tokenizer.c:192-205 | Every space becomes the UTF-8 form of U+2581, and nothing else changes. |
| Spm.ListSpells | src/tokenizer.c:207-223 | At any moment the linked list, followed from a live symbol, spells the rest of the normalised text, with increasing indices. |
| Spm.UnlinkJoins | src/tokenizer.c:245-249 | Relinking joins the two pieces of the chosen pair and changes no other piece. |
| Spm.FindBest | src/tokenizer.c:228-243 | The scan finds the leftmost pair of highest score among the pairs of joint length at most 255 that are pieces, or reports that there is none. |
| Spm.JoinLoop | src/tokenizer.c:227-250 | The relinking loop computes the repeated joining of best pairs. |
| Spm.JoinAllFacts | src/tokenizer.c:227-250 | It keeps the text and ends with no adjacent pair that could be joined. |
| SpmJoins.JoinsHighest | src/tokenizer.c:227-250 | From the strings and scores of the file: of all neighbouring pieces that together are a string, the pair whose last such string has the highest score is joined, leftmost first. |
| SpmJoins.JoinsNone | src/tokenizer.c:227-250 | The loop leaves the list alone exactly if no two neighbours are a string, and there are none at its end. |
| SpmJoins.PieceEmits | src/tokenizer.c:252-265 | A piece gives the last string that reads so, or else a token for each of its bytes that has one. |
| Spm.SplitText | src/tokenizer.c:207-223 | The list starts as the characters of the text. |
| Spm.Emit | src/tokenizer.c:252-265 | Following the links emits a token per known piece and a byte token per byte otherwise, as far as they fit. |
| Spm.TokenizeSpm | src/tokenizer.c:187-269 | The result is exactly the tokens of the final pieces in order, cut at the cap; without scores it is that of the byte-pair encoder. |
| SpmRoundTrip.Decode | src/model/gemma3.c:148-172 | The decoder writes the decoded piece, cut at the buffer, and touches nothing behind. |
| SpmRoundTrip.UnmarkNormalize | src/model/gemma3.c:161-169 | Decoding undoes normalising for text without U+2581. |
| SpmRoundTrip.SplitNormalize | src/tokenizer.c:192-223 | Splitting the normalised text gives the normalised characters. |
| SpmRoundTrip.JoinAllNormed | src/tokenizer.c:227-250 | Joining never splits a character of the text. |
| SpmRoundTrip.Utf8WellSplit | src/tokenizer.c:170-176 | Valid UTF-8 is cut at its characters by the lead-byte test. |
| SpmRoundTrip.RoundTripIff | src/tokenizer.c:187-269 | The returned tokens decode to the text, with the space put in front, if and only if they fit and every final piece decodes to itself. |
| SpmRoundTrip.RoundTripUtf8 | src/tokenizer.c:187-269 | With all byte tokens and U+2581 in the vocabulary, valid UTF-8 without U+2581 comes back if and only if no final piece is spelt like a byte token. |
| SpmRoundTrip.RoundTrip | src/tokenizer.c:187-269 | A text without a stretch that looks like "<0xHH>" always comes back. |
| SpmRoundTrip.MarkInSplit | src/tokenizer.c:170-223 | In valid UTF-8 a U+2581 is a character of its own after splitting. |
| SpmRoundTrip.MarkLost | src/model/gemma3.c:161-169 | Valid UTF-8 with a U+2581 never comes back, whatever the cap: what the tokens decode to is shorter than the text. |
| SpmRoundTrip.RoundTripExactly | src/tokenizer.c:187-269 | Any valid UTF-8 comes back if and only if it has no U+2581, the tokens fit and every final piece decodes to itself. |
| SpmRoundTrip.ByteFormLost | src/model/gemma3.c:151-159 | The text "<0x41>" comes back as the letter A when the vocabulary has it and its beginnings as pieces. |
| Sampler.SelectTop | src/sampler.c:45-77 | min(cap, n) entries with distinct indices, each with its own value, as a min-heap whose root no unselected value exceeds. |
| Sampler.SiftUp | src/sampler.c:54-59 | Sifting a new last entry up restores the heap and permutes it. |
| Sampler.SiftDown | src/sampler.c:63-72 | Sifting a new root down restores the heap and permutes it. |
| Sampler.RootIsLeast | src/sampler.c:45-77 | The root of a heap is its least entry. |
| Sampler.SortDesc | src/sampler.c:79-90 | A descending permutation. |
| Sampler.DescUnique | src/sampler.c:79-90 | Values have one descending arrangement, so that any correct sort gives the same probabilities. |
| Sampler.SelectedIsPrefix | src/sampler.c:176-188 | The selected entries, sorted, carry the first values of the fully sorted vocabulary. |
| Sampler.CutoffResolved | src/sampler.c:223-226 | Once min-p and top-p cut inside a prefix of the sorted list, the rest of the list cannot change the cut. |
| Sampler.MinPLoop | src/sampler.c:199-210 | The min-p loop counts the leading entries that reach the threshold, and never gives none. |
| Sampler.MinPKeeps | src/sampler.c:199-210 | Of a descending list min-p keeps exactly the entries of at least min_p times the first one, and all of them when it is off or not even the first one reaches that. |
| Sampler.CutoffMeans | src/sampler.c:212-221 | Of those top-p keeps the shortest prefix whose sum reaches top_p, unless it is off. |
| Sampler.TopPLoop | src/sampler.c:212-221 | The top-p loop finds the shortest non-empty prefix whose sum reaches top_p, or keeps all entries when none does. |
| Sampler.NucleusShortest | src/sampler.c:212-221 | The running sum stops at a length exactly when that prefix is the shortest. |
| Sampler.SmallestSet | src/sampler.c:212-212 | In a descending list it is the smallest set as well: no fewer entries, wherever they are, have a sum that reaches top_p. |
| Sampler.Candidates | src/sampler.c:176-232 | The cap-quadrupling loop ends; with top_k = 0 its cutoff and probabilities are those of the filters applied to the whole sorted vocabulary, with top_k > 0 those of the top k; indices are distinct and carry their own values. |
| ThreadPool.StepInv | src/pthreads.c:26-63 | Every step of any worker or of the caller keeps the invariant of a dispatch. |
| ThreadPool.DispatchInv | src/pthreads.c:128-139 | A dispatch from an idle pool in which no worker holds an index below the new end establishes the invariant. |
| ThreadPool.IdleAfter | src/pthreads.c:141-147 | When the caller has returned nothing runs, and an index still held by a worker is at or beyond the old end. |
| PoolDispatch.EachIndexOnce | src/pthreads.c:125-147 | With the stores of the dispatch seen as one step, from any idle pool whose stragglers hold no index below the new end, under every interleaving: no index outside [start,end) runs, none twice, none with an old function or argument; when the caller has returned each has run and completed exactly once and current is at least end. |
| PoolDispatch.GuaranteedExactly | src/pthreads.c:26-63 | For every idle pool: that guarantee holds for all runs if and only if no worker holds an index below the new end. |
| PoolDispatch.StragglerRuns | src/pthreads.c:46-57 | Otherwise a run in which that worker runs the index it holds, outside the range or once more than it should. |
| PoolDispatch.FallingEnds | src/pthreads.c:125-147 | In any sequence of dispatches whose ends do not rise, every one keeps its promise, stragglers or not. |
| PoolDispatch.SecondDispatchExactly | src/pthreads.c:125-147 | What a caller can check: after the first dispatch, up to end, the next one is safe whatever happened if and only if its end is not greater (not greater by more than one for a single worker). |
| PoolDispatch.NextDispatchExactly | src/pthreads.c:125-147 | After any history of dispatches that were each safe to make, the last up to end, the next one is safe whatever happened if and only if its end is not greater, with any number of workers. |
| PoolDispatch.FallingIsHistory | src/pthreads.c:125-147 | Dispatches whose ends do not rise are such a history. |
| PoolDispatch.FineGuaranteedExactly | src/pthreads.c:128-139 | With the stores seen one by one, as the claim loop takes no mutex: the guarantee holds for all runs if and only if every worker waits for the mutex or holds an index at or beyond the new end. |
| PoolDispatch.EarlyClaim | src/pthreads.c:128-139 | Otherwise a run in which a worker calls before function and argument are stored. |
| PoolDispatch.OnlyFirstDispatch | src/pthreads.c:125-147 | So a created pool keeps its promise for the first dispatch, and after it a state is reachable from which no later dispatch does, whatever its range. |
| PoolDispatch.NothingAfterReturn | src/pthreads.c:125-147 | After the return, no straggler starts or completes an index before the next dispatch. |
| PoolDispatch.CurrentBound | src/pthreads.c:43-57 | In every run current exceeds the end by at most the reports made plus one per worker. |
| PoolDispatch.CurrentUnbounded | src/pthreads.c:43-57 | A run in which it passes any given number while the caller has not woken up. |
| JobQueue.StepInv | src/server.c:381-454 | Every submit, wait, dequeue, completion, exit and shutdown keeps the pool's invariant. |
| JobQueue.FirstInFirstOut | src/server.c:381-420 | After any run the jobs dequeued are the first ones accepted, in the order of acceptance. |
| JobQueue.AtMostOnce | src/server.c:397-420 | No job is handled more often than it was accepted. |
| JobQueue.DrainedOnExit | src/server.c:442-454 | When all workers have left, every accepted job has been handled exactly once. |
| JobQueue.WorkerPool.constructor | src/server.c:422-440 | An empty ring and idle workers are a start state. |
| JobQueue.WorkerPool.SubmitJob | src/server.c:381-395 | On the ring: refused exactly when stopping or full, else enqueued; a step of the protocol, with tail = head + count mod 256. |
| JobQueue.WorkerPool.Fetch | src/server.c:403-415 | On the ring: wait when empty and running, leave when empty and stopped, else the oldest job. |
| JobQueue.WorkerPool.RequestStop | src/server.c:442-447 | A shutdown step. |
| AutoContext.LayersFitAt | src/core.c:1708-1743 | The fitting loop returns the largest number of leading layers within the budget, less one when only the output tensor does not fit (`AutoContext.FitMeans` says of which bytes). |
| AutoContext.CacheBuild | src/graph.c:748-776 | A session lays out one key and one value array of context times heads times head width four-byte floats for every layer with attention, one after the other; the arena is their sum. |
| AutoContext.KvIsTwoArrays | src/core.c:1720-1722 | The bytes charged per attention layer are those of its two arrays in every slot. |
| AutoContext.UsedIsResident | src/core.c:1713-1737 | What the loop adds up for n layers is the embedding, their weights, the cache arrays of all slots and their shares of an arena of 36 rows of floats per token and slot. |
| AutoContext.FitMeans | src/core.c:1708-1743 | That sum is within the budget for the number of layers returned and beyond it for one more, the output tensor included with the last. |
| AutoContext.AllFitExactly | src/core.c:1708-1743 | All layers fit if and only if all weights, the caches of all slots and the arena are within the budget. |
| AutoContext.AllFitMeans | src/core.c:1708-1743 | All layers fit if and only if everything together is within the budget. |
| AutoContext.FitFalls | src/core.c:1708-1743 | A larger context, or a larger arena, never lets more layers fit. |
| AutoContext.ClampKeepsFit | src/core.c:1961-1961 | The session's clamped micro-batch never makes the fit fail for the same free memory. |
| AutoContext.LargestContext | src/core.c:1803-1813 | The binary search finds the largest context at which all layers fit. |
| AutoContext.AutoContextSize | src/core.c:1778-1824 | The automatic size is within the model's limit; when any context fits it is the largest fitting one rounded down to 256, and a session of that size keeps all weights, its caches in every slot and its arena within the budget. |
| ConvRing.CausalStep | src/backend/cpu/cpu_op.c:405-442 | One step, in place or not, gives the convolution of the last inputs and leaves the raw input, not the output, as the newest row of the ring. |
| ConvRing.SsmConv | src/backend/cpu/cpu_op.c:746-764 | A batch of rows gives their convolutions and the ring after all of them. |
| ConvRing.SplitRows | src/backend/cpu/cpu_op.c:746-764 | Any split of the rows into two calls gives the same outputs and the same ring. |
| ScanEntries.ConvEntries | src/backend/cpu/cpu_op.c:405-442 | Output c of row p is the sum over the taps k of input c of the row taps - 1 - k rows back times weight c * taps + k; the rows before the first are those in the ring. |
| ScanEntries.RingEntries | src/backend/cpu/cpu_op.c:430-442 | Afterwards the ring holds the last taps - 1 inputs, oldest first. |
| RowRuns.SplitSame | src/backend/cpu/cpu_op.c:766-962 | For any operator that advances a state row by row with a determined step, any split of the rows into two calls gives the same rows and the same state. |
| RecurNodes.BatchIsRun | src/graph.c:1195-1219 | When a node's step is what its operator does to one row, one call on a batch leaves the reference rows and the reference state. |
| RecurNodes.FollowingFollows | src/graph.c:1195-1219 | For every operator whose step is determined there is such a model. |
| RecurNodes.DeltaNode | src/backend/cpu/cpu_op.c:766-834 | So for op_ssm_delta, reading the rows of its three sources. |
| RecurNodes.ScanNode | src/backend/cpu/cpu_op.c:891-962 | So for op_mamba2_scan, reading the rows of its two sources. |
| RecurNodes.ConvNode | src/backend/cpu/cpu_op.c:746-889 | So for op_ssm_conv and op_mamba2_conv, with the ring as state. |
| RecurNodes.SsmConvNode | src/backend/cpu/cpu_op.c:746-764 | For op_ssm_conv the reference rows are the plain convolutions of its source's rows. |
| RecurNodes.ConvDeterministic | src/backend/cpu/cpu_op.c:746-889 | The convolution's step is determined by ring and row. |
| MambaConv.Mamba2Conv | src/backend/cpu/cpu_op.c:836-889 | Row p is the activation of bias plus convolution over the slice of the projection row, and the ring holds the last raw slices. |
| MambaConv.SplitConv | src/backend/cpu/cpu_op.c:864-885 | Any split of the rows into two calls gives the same outputs and the same ring. |
| ScanEntries.ActiveEntries | src/backend/cpu/cpu_op.c:864-878 | That sum with the bias of the channel, activated. |
| MambaScan.Channel | src/backend/cpu/cpu_op.c:939-949 | The fused loop of a channel decays its vector, takes the row in, and reads the new vector out. |
| MambaScan.ScanRow | src/backend/cpu/cpu_op.c:932-954 | One row advances and reads out every channel with the vectors of its group, and no channel touches another. |
| MambaScan.Mamba2Scan | src/backend/cpu/cpu_op.c:891-962 | The rows and the final state are the run of the single steps. |
| MambaScan.SplitScan | src/backend/cpu/cpu_op.c:924-959 | Any split of the rows into two calls gives the same rows and the same state. |
| ScanEntries.InputEntries | src/backend/cpu/cpu_op.c:904-931 | Where the row's inputs are in the flat sources: x, B and C in the convolved row; z, what was convolved, and dt in the projection. |
| ScanEntries.InputAt | src/backend/cpu/cpu_op.c:924-926 | Row r of a call is row base + r of the sources. |
| ScanEntries.ScanEntry | src/backend/cpu/cpu_op.c:932-954 | Every entry of the state and the output after a row, as a formula in the flat arrays: head h reads the B and C of group h / heads per group. |
| DeltaRule.GatedDeltaStep | src/backend/cpu/cpu_op.c:457-506 | Every value head's matrix is the decayed one corrected by the outer product, its readout is that of the corrected matrix, query and key heads are reused round robin, and no head touches another. |
| DeltaEntries.HeadEntries | src/backend/cpu/cpu_op.c:457-506 | Every entry of state and output after the step, as a formula in the flat arrays; value head h reads query and key head h mod n_k_heads. |
| DeltaEntries.StepTiles | src/backend/cpu/cpu_op.c:440-456 | The step on n_k_heads query and key heads is the step with as many of them as value heads on the blocks of queries and keys repeated whole. |
| DeltaRows.SsmDelta | src/backend/cpu/cpu_op.c:766-834 | The rows and the final state are the run of the single steps: gates, normalised and scaled queries, every head's step, output norm. |
| DeltaEntries.InputEntries | src/backend/cpu/cpu_op.c:799-818 | Where the row's inputs are in the flat sources: queries, keys and values one after the other in the fused row. |
| DeltaEntries.InputAt | src/backend/cpu/cpu_op.c:799-804 | Row r of a call is row base + r of the sources. |
| DeltaEntries.StepEntries | src/backend/cpu/cpu_op.c:799-830 | One row entry by entry: each head decays by its gate, is corrected with the normalised key, and is read with the normalised and scaled query, before the output norm. |
| DeltaRows.RowsDeterministic | src/backend/cpu/cpu_op.c:799-830 | A row and the state before it determine the row given and the state after it. |
| DeltaRows.SplitDelta | src/backend/cpu/cpu_op.c:799-830 | Any split of the rows into two calls gives the same rows and the same state. |
| DeltaRule.RecallCorrected | src/backend/cpu/cpu_op.c:473-500 | Asked for the same key again, the corrected memory answers its decayed answer plus the correction times the key's squared norm. |
| DeltaRule.RecallMixes | src/backend/cpu/cpu_op.c:473-500 | For a key of norm one the answer is the decayed one and the new value mixed in shares 1-beta and beta. |
| MatMul.MatMat | src/backend/cpu/cpu_x86.c:1620-1673 | The tiled product, for any shape and lane width, tails included, is the sum over k of A[i][k] B[k][j] in every entry. |
| ProductEntries.ProductEntry | src/backend/cpu/cpu_x86.c:1620-1673 | C[r * n + c] is the sum over t of A[r * k + t] times B[t * n + c]. |
| MatMul.FourRows | src/backend/cpu/cpu_x86.c:1623-1654 | The four-row block stores the right entries of its columns and keeps those stored before. |
| MatMatMul.DotIsOutSum | src/backend/cpu/cpu_op.c:243-252 | A row of the loaded weights times a column of the transposed input is the inner product of the weight row and the input row. |
| MatMatMul.Chunk | src/backend/cpu/cpu_op.c:212-230 | One chunk writes exactly its output rows, for both orientations of the weight. |
| MatMatMul.MatMatMul | src/backend/cpu/cpu_op.c:253-328 | In whatever order the chunks run, Y[b][r] is the sum over c of W[r][c] X[b][c] in every entry. |
| ProductEntries.BatchEntry | src/backend/cpu/cpu_op.c:253-328 | Y[b * rows + r] is the sum over c of X[b * cols + c] times weight element r * cols + c, or c * rows + r when the weight is stored transposed. |
| MatMatMul.SerialSchedule | src/backend/cpu/cpu_op.c:318-324 | The serial loop runs every chunk. |
| Quants.SimpleLaneIs | src/backend/cpu/cpu_x86.c:208-358 | The lanes of the Q8_0 to Q5_1 kernels are the scalar elements. |
| Bits.Joined | src/backend/cpu/cpu_x86.c:410-410 | Or-ing bits below and above a line is adding them. |
| Bits.Mask127 | src/backend/cpu/cpu_x86.c:403-403 | A mask of ones is a remainder. |
| Quants.SixSame | src/backend/cpu/cpu_x86.c:399-411 | The six bits that the Q6_K kernel takes with shifts, masks and or are those of the scalar element (src/quants.c:450-464). |
| Quants.ThreeSame | src/backend/cpu/cpu_x86.c:534-543 | The same for the three bits of Q3_K (src/quants.c:505-513). |
| Quants.TwoSame | src/backend/cpu/cpu_x86.c:583-590 | The same for the two signed bits of Q2_K, through the 32-bit wrap, the unsigned byte and the signed reading (src/quants.c:525-526). |
| Quants.Q6Same | src/backend/cpu/cpu_x86.c:389-435 | The lanes of the Q6_K kernel, with its own bit extraction, are the scalar elements (src/quants.c:437). |
| Quants.Q5Same | src/backend/cpu/cpu_x86.c:476-515 | The same for Q5_K (src/quants.c:468). |
| Quants.Q4Same | src/backend/cpu/cpu_x86.c:440-472 | The same for Q4_K (src/quants.c:485). |
| Quants.Q3Same | src/backend/cpu/cpu_x86.c:519-566 | The same for Q3_K (src/quants.c:500). |
| Quants.Q2Same | src/backend/cpu/cpu_x86.c:570-598 | The same for Q2_K (src/quants.c:517). |
| Quants.Q8Same | src/backend/cpu/cpu_x86.c:365-385 | The same for Q8_K (src/quants.c:429). |
| Quants.LaneIsElement | src/backend/cpu/cpu_x86.c:208-598 | Every lane of every kernel is the element it stands for. |
| Packing.ScalesUnpack | src/quants.c:285-318 | Packing round trip: the twelve bytes that hold eight six-bit scales and eight minima unpack to them, for every sub-block. |
| Packing.ScalesPack | src/quants.c:285-318 | And any twelve bytes hold the scales and minima they unpack to. |
| Packing.Q4Packed | src/quants.c:485-498 | A Q4_K block that holds given scales, minima and quants in its layout dequantises to d * scale * q - dmin * minimum. |
| Packing.Q5Packed | src/quants.c:468-483 | So does a Q5_K block, with the fifth bits of the quants apart. |
| Packing.Q6Packed | src/quants.c:437-466 | A Q6_K block gives d * scale * (q - 32) for quants of six bits held in two places. |
| Packing.Q3Packed | src/quants.c:500-515 | A Q3_K block gives d * (scale - 32) * (q - 4), its sixteen scales and its quants each held in two places. |
| Packing.Q2Packed | src/quants.c:517-528 | A Q2_K block gives d * scale * (p - 4 * sign) - min, where the sign of quant o is a bit of the two-bit number o / 2: signs and quants overlap in the same bytes. |
| Packing.Q4Simple | src/quants.c:389-404 | Q4_0 and Q4_1 blocks give (q - 8) * d and q * d + m for the nibbles they hold. |
| Packing.Q5Simple | src/quants.c:406-425 | Q5_0 and Q5_1 blocks give (q - 16) * d and q * d + m for five-bit quants. |
| Packing.WholeBytes | src/quants.c:368-435 | Q8_0, Q8_1 and Q8_K blocks give their signed bytes times their scales. |
| Dequant.Batch | src/backend/cpu/cpu_x86.c:741-820 | For any range of elements, whole blocks and cut ones alike, the batch is elementwise scalar dequantisation, and nothing behind it is written. |
| Packing.ElementOfTensor | src/core.c:52-75 | Element i of a tensor is element i mod n of block i / n, and blocks follow one another, each as long as its parts. |

## Left out

- Rax.Rax.Remove: when more is written than the allocation holds, what becomes of the memory behind it is not modelled; the tree claimed is what the node itself then says.
- RaxIterator.Iterator.Seek: the tree is not changed while the iterator is in use, and the iterator's static buffers and their growth are not modelled.
- Executor.Session.Execute: the graph has its only input first, its only sink last, attention and recurrences are not sinks and own their cache layer or state buffer, as the graph builders arrange.
- Executor.SameOutcome: compares the logits that the sink fills, as sessions may have started with different ones; `MicroBatch.AnyChunks` compares all of them.
- MicroBatch.AnyChunks: the graphs of the two sessions have the same nodes; a copy node between backends that only one of them has is outside it.
- AllocSet.Set.Alloc: and the other operations are claimed for sets that satisfy the invariant; `AllocRuns.KeeperExactly` says what happens in the others.
- Sampler.Candidates: when growing the candidate array fails the loop stops early, and then only the filters over the candidates found are claimed.
- Sampler.SortDesc: above 64 entries the source calls the C library's qsort, represented by the same contract.
- PoolDispatch.FineGuaranteedExactly: stores become visible in program order and whole; reordering by compiler or processor is not modelled, nor thread start-up and shutdown.
- PoolDispatch.CurrentUnbounded: the pool's counters are unbounded integers here; an int of the source wraps when a worker claims and reports 2^31 times while the caller sleeps.
- SpmRoundTrip.RoundTripExactly: is about valid UTF-8; `RoundTripIff` also covers other text that is cut into whole characters and has no U+2581.
- MatMatMul.MatMatMul: the early returns for mismatched dimensions are not modelled, and concurrent chunks are represented by any order of whole chunks.
- AutoContext.AutoContextSize: the arena is the estimate's 36 rows per token, not the size the planner comes to.
- AutoContext.CacheBuild: lays out the caches of one backend, and takes the layers with attention to be those with a key projection, as the estimate does.
- JobQueue.WorkerPool.Handled: ghost bookkeeping for the return of the request handler, which is not modelled.
- Radix tree nodes are values rewritten through a stack of parents, not heap cells with parent links: sharing of a node by two parents and dangling links are not expressed. `RaxLayout` models the bytes of one node; its header bit-fields are fields, and node addresses are given.
- Out-of-memory paths everywhere, node callbacks, raxRandomWalk, raxCompare, raxShow and raxTouch.
- The row functions of the graph operators (embedding, norms, products, activations, positional rotation) are uninterpreted functions of their source rows, and the attention weights an uninterpreted function of query, keys and values; the switch of node_out_dim is reduced to "own width" or "width of a source".
- assign_backends, graph_layer_boundary, graph_warmup and the insertion of copy nodes: nodes carry a backend tag, and copies are row operators.
- DeltaRows.SsmDelta: and MambaScan.Mamba2Scan leave the elementary functions and the norms of a row open (softplus, exponential, sigmoid, normalisation), and their early returns for mismatched sizes are not modelled.
- Executor.Session.RunRecur: takes the step of a recurrence as given; `RecurNodes` says what it is for each of the four operators, over reals.
- The head-major layout inside a cache row and the loop over heads; a cache holds one key row and one value row per layer and position.
- The multi-latent attention cache, and the CUDA and Metal backends.
- The allocator's headers are records in maps keyed by address, and masks are built by integer arithmetic; the addresses that malloc and realloc return are parameters, required to be unused space that starts at a multiple of eight.
- GGUF parsing, chat templates, beginning-of-sequence and other named tokens, and the hash function, which is any function of the key.
- Scores and probabilities are reals: no NaN, no rounding, no overflow. Penalties, softmax, random numbers and the final draw are not modelled.
- Sockets, HTTP, JSON, logging, option parsing and terminal editing.
- engine_auto_ctx_size with an explicit layer count or on Metal; byte counts do not wrap.
- The IQ quantisation types, the plain conversion types, the dot-product and matrix-vector kernels, and the ARM kernels.
