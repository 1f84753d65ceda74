# Verified models of the engine

Dafny models of the parts of this repository with the most state and the most branching, and
proofs of what they promise. `dafny verify dfyconfig.toml` checks everything. One module per
file; methods follow the loops and in-place updates of the source and are proved against
functions and predicates, about which the theorems are proved.

**Tensor memory planner** (`ggml-alloc.c`). `FreeBlocks` and `AllocRuns` specify the free lists
and the choice of a block, `Tallocr` is the allocator with its arrays. `GraphPlan` says when a
plan is safe and proves that execution in planned memory then computes what the graph means;
`GraphOutputs` says exactly what can still be read afterwards. `PlannerMemory`, `PlannerCounts`
and `PlannerSafety` hold the planner's invariant (who owns which bytes, what the counters say
about liveness, what must survive a node), `PlannerSpec` is the planner as a function on values,
`Gallocr` the planner itself, which follows that function, and `Reserve` carries a reserved plan
over to later graphs. `PlannerRuns` and `PlannerTail` plan two graphs step by step. A view of a view does not occur in the source (view sources
are resolved), so a graph's views point at roots; views that alias, views that write into their
root and views that only mark a dependency are told apart. Execution lets a node leave anything in
the memory it writes while it still reads its sources: only the source it works in place on, and
for a node that writes through a view what lies in the viewed tensor, is read before that.

**Grammar-constrained decoding** (`whisper.cpp`). `Utf8` decodes text that may be cut anywhere.
`Grammar` gives rules, stacks and what they derive; `GrammarLang` relates stack operations to
languages; `GrammarStep` is expansion, acceptance and start; `GrammarReject` is the batched
rejector. The theorems take as evidence a set of nullable rules and a rank on rules that falls
along leftmost references; `GrammarRank` shows that it exists exactly for the grammars without
left recursion.

**KV cache and beam search**. `KvCache` has the shared cells with their tag sets, `BeamRun` says
when the cells of a tag carry a history, and `BeamSearch` follows whole runs. The contents of a
cell are a term over its token, its position and the contents attended to, so equality of terms
means equality of whatever the network computes.

**Numeric algorithms**. `Fft` uses exact tables that satisfy the addition
theorems (`Fft.QuarterTurns` is an instance). `Dtw` covers
cost table, way back and token times. `VadScan` and `VadSegments` are the voice-activity
segmenter, `VadCover` says when it loses speech, `VadLength` and `VadBound` how long its segments get;
`VadTimeMap` is the table from processed back to original time.

**Decoder control**. `Timestamps` has the logit masks and the decoder state, `AudioWindow` the
prompt and the main loop, `Segments` the cutting of a window's tokens into segments, `WrapSegment`
the cutting of long segments.

**Ring buffer** (`ring_buffer.h`). `RingBuffer` refines a bounded sequence.

Properties that turned out to hold only under a condition are proved together with the exact
condition and an input that fails:

- In-place reuse frees the tail of the parent from the node's unrounded size. The free list stays
  sound exactly when that size is a multiple of the alignment (`PlannerMemory.TailKeepsValidIff`),
  which the planner's graphs are required to satisfy for pairs that can be reused
  (`PlannerSafety.Plannable`); `PlannerTail.TailOverlaps` is a graph for which the planner otherwise
  hands out the same bytes twice.
- Outputs are never overwritten: when the planner is done a tensor still owns its memory exactly when
  it is an output, the root of a view that nobody reads, or never read (`Gallocr.Gallocr.AllocGraph`),
  and what is owned has its value at the end (`GraphPlan.KeptIsTrue`). An output view that a node
  reads keeps nothing by itself: under a given plan it survives exactly when no node writes over it
  (`GraphOutputs.KeptUnderPlanIff`), safety alone is enough exactly when no node may
  (`GraphOutputs.AlwaysTrueIff`), and there is a graph whose output the planner gives away
  (`PlannerRuns.PlannerLosesOutput`).
- The size check before a reserved plan is used again ignores leafs that no node reads. It protects
  the plan exactly when those lie above everything they must not overlap
  (`Reserve.CheckProtectsIff`, `Reserve.UnreadLeafsAreNotChecked`).
- Continuation bytes are checked only when a character is resumed, so a cut through an invalid
  character can show (`Utf8.CutIsInvisibleIff`, `Utf8.CutShows`).
- Alignment is optimal everywhere exactly when no cell sees its diagonal and token neighbours tie
  below its frame neighbour (`Dtw.CheapestIffNoTie`, `Dtw.TieCosts`), and in one cell exactly when some
  cheapest path to it meets no such tie (`Dtw.EntryCheapestIff`).
- The masks cover all special ids exactly for vocabularies of at most a hundred languages
  (`Timestamps.SpecialsCoverIff`), and a timestamp pair can be broken exactly when some special id is
  not masked (`Timestamps.PairsKeptIff`).
- The history count is negative exactly when a prompt is carried that fills the budget: one kept
  from an earlier call, or a new one with a budget of one token (`AudioWindow.RoomIff`,
  `AudioWindow.KeptPromptOverruns`).
- All speech is in some segment, at a cut or in a burst exactly when the voice threshold is at least
  0.01 or no pause can close a segment (`VadCover.LosesNothingIff`, `VadCover.HalfPercentLoses`).
- The scan bounds the length of a segment (`VadLength.RawIsBounded`), and merging keeps a bound
  exactly when no chain of short gaps spans more (`VadLength.MergedWithinIff`,
  `VadLength.FourWindows`); gaps left by a cut for length are short, so with windows below 200 ms the
  maximal length bounds no final segment (`VadLength.NoFinalBound`). Which parameters bound them is
  `VadBound.FinalBoundIff`.
- The times of a window's segments run forwards exactly when the first segment does not end before it
  starts, as its start is read off a token that need not be a timestamp (`Segments.TimesInOrderIff`).
- Wrapping a segment keeps the no-speech probability exactly when it is zero or nothing is cut
  (`WrapSegment.WrapKeepsProbabilityIff`, `WrapSegment.ProbabilityIsLost`).

## Model

| member | source | states |
|---|---|---|
| `FreeBlocks.AlignUpIsLeastMultiple` | dependencies/whisper/ggml/src/ggml-alloc.c:55-59 | `aligned_offset` gives the least multiple of the alignment that is not below the size |
| `FreeBlocks.InsertShape` | dependencies/whisper/ggml/src/ggml-alloc.c:144-151 | Shifting the later blocks up by one slot and writing the new one is insertion at the address-ordered position |
| `FreeBlocks.TakeFrees` | dependencies/whisper/ggml/src/ggml-alloc.c:263-271 | Handing out the front of a block removes exactly the bytes handed out from the free set and keeps the list sorted, non-empty and fully merged |
| `FreeBlocks.ReleaseFrees` | dependencies/whisper/ggml/src/ggml-alloc.c:326-358 | Giving back a range that is not free adds exactly its bytes to the free set and leaves the list fully merged, whichever of the four branches the scan takes |
| `FreeBlocks.ReleaseIsMerge` | dependencies/whisper/ggml/src/ggml-alloc.c:326-358 | Each branch of the release replaces its one or two touching neighbours (or none) by one block covering exactly neighbours and range |
| `FreeBlocks.NotFreeIsAside` | dependencies/whisper/ggml/src/ggml-alloc.c:326-343 | A range none of whose bytes is free lies wholly between blocks |
| `FreeBlocks.TakeKeepsValid` | dependencies/whisper/ggml/src/ggml-alloc.c:263-306 | A chunk stays valid when aligned bytes are taken: blocks merged, aligned, inside the chunk, everything above `max_size` free |
| `FreeBlocks.GiveBackKeepsValid` | dependencies/whisper/ggml/src/ggml-alloc.c:314-361 | A chunk stays valid when an aligned taken range is given back, and exactly that range becomes free |
| `AllocRuns.BestNext` | dependencies/whisper/ggml/src/ggml-alloc.c:230-248 | Going on to the next chunk, a strictly better last block takes over and any other leaves the best so far the best of all seen |
| `AllocRuns.AllocTakesRange` | dependencies/whisper/ggml/src/ggml-alloc.c:204-311 | An allocation returns an aligned range that was free in its chunk, takes exactly it, stays below `max_size`, and touches no other chunk |
| `AllocRuns.FreeGivesRange` | dependencies/whisper/ggml/src/ggml-alloc.c:314-361 | Freeing a taken range frees exactly it, in its chunk alone |
| `AllocRuns.AllocKeepsPartition` | dependencies/whisper/ggml/src/ggml-alloc.c:204-311 | Free blocks and live ranges still partition every chunk after an allocation, and the new range meets no live one |
| `AllocRuns.FreeKeepsPartition` | dependencies/whisper/ggml/src/ggml-alloc.c:314-361 | The partition survives freeing any live range |
| `AllocRuns.ShrinkKeepsPartition` | dependencies/whisper/ggml/src/ggml-alloc.c:609-626 | It survives when a live range is cut to an aligned size and its tail is freed, as in-place reuse does |
| `AllocRuns.PartitionForever` | dependencies/whisper/ggml/src/ggml-alloc.c:204-361 | Over every run of allocations, frees and tail frees from the empty allocator: free blocks are merged, and every byte of a chunk is free or in exactly one live range that ends at or below `max_size` |
| `Tallocr.TallocrChunk.FindInsertPos` | dependencies/whisper/ggml/src/ggml-alloc.c:140-143 | The scan stops at the insertion position |
| `Tallocr.TallocrChunk.InsertBlock` | dependencies/whisper/ggml/src/ggml-alloc.c:137-152 | In-place insertion is insertion on the list; it fails exactly when all 256 slots are in use |
| `Tallocr.TallocrChunk.RemoveBlock` | dependencies/whisper/ggml/src/ggml-alloc.c:154-160 | In-place removal is removal from the list, reading one slot past the live part |
| `Tallocr.TallocrChunk.TakeBlock` | dependencies/whisper/ggml/src/ggml-alloc.c:263-306 | Shrinks the block or removes it when it is used up, and raises `max_size` to the end of the range |
| `Tallocr.TallocrChunk.MergeAfter` | dependencies/whisper/ggml/src/ggml-alloc.c:330-341 | The branch for a block that ends at the range: grow it, and swallow the next one if it touches |
| `Tallocr.TallocrChunk.MergeBefore` | dependencies/whisper/ggml/src/ggml-alloc.c:343-355 | The branch for a block that starts at the end of the range |
| `Tallocr.TallocrChunk.FreeRange` | dependencies/whisper/ggml/src/ggml-alloc.c:326-358 | The scan over the array releases the range on the list; it fails exactly when a separate block is needed and no slot is left |
| `Tallocr.DynTallocr.FindBestFit` | dependencies/whisper/ggml/src/ggml-alloc.c:213-226 | Finds the choice of the nested loop: the tightest non-last block of the last chunk that has one |
| `Tallocr.DynTallocr.FindInChunk` | dependencies/whisper/ggml/src/ggml-alloc.c:216-225 | Within one chunk: the tightest fitting non-last block, the later on ties; `best_fit_size` starts over per chunk |
| `Tallocr.DynTallocr.FindLastBlock` | dependencies/whisper/ggml/src/ggml-alloc.c:228-249 | Otherwise the last block with the best reuse of reserved memory: no growth before growth, least waste or growth first, earlier chunk on ties |
| `Tallocr.DynTallocr.AddChunk` | dependencies/whisper/ggml/src/ggml-alloc.c:162-180 | A fresh chunk is one free block; none is added beyond sixteen |
| `Tallocr.DynTallocr.Alloc` | dependencies/whisper/ggml/src/ggml-alloc.c:204-311 | One allocation is one step of the specification and returns a range that was free; it fails if and only if all chunks are in use and no block of any of them is large enough |
| `Tallocr.DynTallocr.Free` | dependencies/whisper/ggml/src/ggml-alloc.c:314-361 | One release is one step of the specification on the chunk it names |
| `Tallocr.DynTallocr.Reset` | dependencies/whisper/ggml/src/ggml-alloc.c:363-375 | Forgets all chunks |
| `GraphPlan.RunAgrees` | dependencies/whisper/ggml/src/ggml-alloc.c:716-821 | Refinement over the whole run: with a safe plan, execution in the planned addresses keeps the pure value of every tensor that is still needed. While a node still reads, the memory it writes may hold anything; only the source it takes over, or what a view it writes through lies in, is read before that |
| `GraphPlan.SourcesAreTrue` | dependencies/whisper/ggml/src/ggml-alloc.c:716-821 | Every source a node reads from planned memory, directly or through a view, has the value the graph means |
| `GraphPlan.BusyKeepsSource` | dependencies/whisper/ggml/src/ggml-alloc.c:776-819 | While a node is at work every source it does not take over is still as it was, read for the last time or not |
| `GraphPlan.OneTakenOver` | dependencies/whisper/ggml/src/ggml-alloc.c:636-684 | A node takes over one source at most |
| `GraphPlan.KeptIsTrue` | dependencies/whisper/ggml/include/ggml-alloc.h:42-44 | At the end every tensor that is there to stay (an output, the root of a view nobody reads, or one that is never read) holds its pure value in planned memory, and so does every view of it |
| `GraphPlan.OutputsAreTrue` | dependencies/whisper/ggml/include/ggml-alloc.h:42-44 | So does every output; one that is a view, if no node reads it |
| `GraphPlan.InputsCanBeSet` | dependencies/whisper/ggml/include/ggml-alloc.h:42-44 | All inputs and leafs can be written one after the other before the run: none overwrites another |
| `GraphPlan.NodeMissesTensor` | dependencies/whisper/ggml/src/ggml-alloc.c:716-821 | What a node writes lies outside every tensor that must survive it |
| `GraphPlan.LiveApart` | dependencies/whisper/ggml/src/ggml-alloc.c:716-821 | Two tensors that are both there and still needed never overlap |
| `GraphOutputs.KeptUnderPlanIff` | dependencies/whisper/ggml/include/ggml-alloc.h:42-44 | For any safe plan: a tensor can be read after the run, whatever the operations and inputs, if and only if no node writes over its bytes once they are there |
| `GraphOutputs.AlwaysTrueIff` | dependencies/whisper/ggml/include/ggml-alloc.h:42-44 | When safety alone is enough: a tensor can be read after the run under every safe plan if and only if no node, once nothing keeps its root, may write planned memory: elsewhere than what it reads, or in place on the root as far as the tensor |
| `GraphOutputs.KeptOrReadLast` | dependencies/whisper/ggml/include/ggml-alloc.h:42-44 | It is for whatever is there to stay, and for what the last node reads unless that node works in place |
| `GraphOutputs.ReadViewIsOverwritten` | dependencies/whisper/ggml/include/ggml-alloc.h:42-44 | The failing case: an output view that a node reads, and a later node that may be given the memory behind it |
| `PlannerRuns.ViewIsPlanned` | dependencies/whisper/ggml/src/ggml-alloc.c:716-821 | Planning that graph, step by step, from an empty allocator: the last node is given the address of the first, which the output is a view of |
| `PlannerRuns.PlannerLosesOutput` | dependencies/whisper/ggml/include/ggml-alloc.h:42-44 | So the planner's own plan, which is safe, loses an output |
| `PlannerMemory.FreshKeepsMemory` | dependencies/whisper/ggml/src/ggml-alloc.c:687-692 | A freshly allocated range overlaps no tensor in memory |
| `PlannerMemory.FreeKeepsMemory` | dependencies/whisper/ggml/src/ggml-alloc.c:696-710 | Freeing a tensor leaves all other tensors in memory intact |
| `PlannerMemory.ReuseKeepsMemory` | dependencies/whisper/ggml/src/ggml-alloc.c:676-683 | A node that takes over its parent, giving back the tail when it is smaller, still overlaps nothing else |
| `PlannerMemory.TailKeepsValidIff` | dependencies/whisper/ggml/src/ggml-alloc.c:609-626 | In-place reuse gives the tail of the parent back from the node's unrounded size: the free list stays merged and aligned if and only if that size is a multiple of the alignment |
| `PlannerMemory.AlignedTail` | dependencies/whisper/ggml/src/ggml-alloc.c:609-626 | For an aligned size the tail now and the node later give back exactly the bytes of the parent |
| `PlannerMemory.UnalignedTail` | dependencies/whisper/ggml/src/ggml-alloc.c:609-626 | For any other size the tail becomes a block of its own at an unaligned offset, and its first byte is given back again with the node |
| `PlannerTail.TailOverlaps` | dependencies/whisper/ggml/src/ggml-alloc.c:716-821 | The failing graph, with alignment 32: an in-place node of 40 bytes on a tensor of 64, and two more tensors, planned from an empty allocator. The last two are both there to stay, at bytes 40 to 72 and 64 to 96, so the plan is not safe |
| `PlannerMemory.TailIsTaken` | dependencies/whisper/ggml/src/ggml-alloc.c:618-625 | The tail given back is aligned and was taken in full |
| `PlannerCounts.ZeroCountsMeanDone` | dependencies/whisper/ggml/src/ggml-alloc.c:803-817 | When the view counter is zero, no view of the tensor has a read to come, and none is there for the application alone |
| `PlannerCounts.FinishedIsNotNeeded` | dependencies/whisper/ggml/src/ggml-alloc.c:803-817 | When child and view counters are zero, no node from here on reads the tensor or a view of it, nor is it kept for an unread view |
| `PlannerCounts.FinishedCounts` | dependencies/whisper/ggml/src/ggml-alloc.c:803-817 | And the other way round: once the last of them has been read the counters are zero |
| `PlannerCounts.OpenViewsLess` | dependencies/whisper/ggml/src/ggml-alloc.c:804-810 | The last read of a view lowers its root's count of open views by one |
| `PlannerSafety.ConsumedIsLastRead` | dependencies/whisper/ggml/src/ggml-alloc.c:661-683 | The parent an in-place node takes over has this node as its only remaining reader |
| `PlannerSafety.NodeIsSafe` | dependencies/whisper/ggml/src/ggml-alloc.c:766-776 | When a node is planned, its range is apart from every present tensor needed later |
| `PlannerSafety.SourceIsSafe` | dependencies/whisper/ggml/src/ggml-alloc.c:766-776 | It is apart from everything it reads, for the last time or not, but for a single source it works in place on |
| `PlannerSafety.PlaceGivesMid` | dependencies/whisper/ggml/src/ggml-alloc.c:766-776 | Placing a node keeps the planner's invariant |
| `PlannerSafety.CountKeepsMid` | dependencies/whisper/ggml/src/ggml-alloc.c:797-810 | Lowering one reader's count keeps it |
| `PlannerSafety.DropKeepsMid` | dependencies/whisper/ggml/src/ggml-alloc.c:803-817 | Freeing a tensor whose counts are zero keeps it |
| `PlannerSafety.SetUpStarts` | dependencies/whisper/ggml/src/ggml-alloc.c:721-759 | The counting passes establish it |
| `PlannerSafety.RecordsAreSafe` | dependencies/whisper/ggml/src/ggml-alloc.c:716-821 | The finished records are a safe plan: inputs and leafs apart, every node apart from what is needed after it and from its own sources, or in place on one read for the last time |
| `PlannerSafety.OwnedAtEnd` | dependencies/whisper/ggml/src/ggml-alloc.c:696-821 | After the last node a tensor still owns its range exactly when it is an output, the root of a view nobody reads, or never read |
| `PlannerSpec.ChoiceIsUnique` | dependencies/whisper/ggml/src/ggml-alloc.c:204-260 | The rules for the choice of a block leave one choice at most, so the planner is a function |
| `Gallocr.Gallocr.FreeExtraSpace` | dependencies/whisper/ggml/src/ggml-alloc.c:609-626 | Gives back exactly the tail of the parent; fails only on a parent that is too small or a full free list |
| `Gallocr.Gallocr.FindReusable` | dependencies/whisper/ggml/src/ggml-alloc.c:637-685 | Finds the first source that may be taken over, and proves the branch for view parents dead |
| `Gallocr.Gallocr.AllocateNode` | dependencies/whisper/ggml/src/ggml-alloc.c:628-694 | A tensor in need of memory takes over its first reusable parent if it is an in-place operation and has one, and a fresh range otherwise |
| `Gallocr.Gallocr.FreeNode` | dependencies/whisper/ggml/src/ggml-alloc.c:696-710 | Frees the range unless the tensor is an output |
| `Gallocr.Gallocr.PlanNode` | dependencies/whisper/ggml/src/ggml-alloc.c:762-820 | One iteration of the main loop is one turn of the specification and keeps the invariant: parents, node, then the counters and the tensors that die |
| `Gallocr.Gallocr.UpdateParents` | dependencies/whisper/ggml/src/ggml-alloc.c:791-819 | The counter loop over the sources keeps the invariant |
| `Gallocr.Gallocr.AllocateLeafs` | dependencies/whisper/ggml/src/ggml-alloc.c:721-726 | All leafs are given memory first |
| `Gallocr.Gallocr.CountAll` | dependencies/whisper/ggml/src/ggml-alloc.c:728-759 | The counting loop counts children and views exactly and places the inputs |
| `Gallocr.Gallocr.AllocGraph` | dependencies/whisper/ggml/src/ggml-alloc.c:716-821 | Plans any graph of the supported kind, as the specification does on values: on success the records are a safe plan inside the buffers and a tensor still owns its range exactly when it is there to stay; on failure an allocator is full or an in-place node would grow its parent |
| `Gallocr.Gallocr.ReserveN` | dependencies/whisper/ggml/src/ggml-alloc.c:823-899 | Plans a graph from reset allocators and records what later graphs need |
| `Gallocr.Gallocr.RecordNodes` | dependencies/whisper/ggml/src/ggml-alloc.c:847-880 | The records of nodes and sources are those of the plan |
| `Gallocr.Gallocr.NeedsRealloc` | dependencies/whisper/ggml/src/ggml-alloc.c:983-1024 | True exactly when counts differ or a node or a source does not fit its record |
| `Reserve.CheckedIsShrunk` | dependencies/whisper/ggml/src/ggml-alloc.c:971-1024 | Whatever passes the check is not larger than reserved, for every node and everything read |
| `Reserve.ReservedPlanIsSafe` | dependencies/whisper/ggml/src/ggml-alloc.c:1026-1072 | A plan reserved on one graph is safe for every graph of the same shape that passes the check, whatever its smaller sizes, provided leafs that no node reads did not grow |
| `Reserve.CheckProtectsIff` | dependencies/whisper/ggml/src/ggml-alloc.c:971-1072 | The size check protects a reserved plan against every graph of the same shape if and only if each leaf that no node reads lies, in its chunk, above everything it must not overlap |
| `Reserve.UnreadLeafsAreNotChecked` | dependencies/whisper/ggml/src/ggml-alloc.c:983-1024 | The proviso is needed: a graph whose unread leaf grew passes the check and overlaps |
| `Utf8.DecodeUtf8` | dependencies/whisper/src/whisper.cpp:5476-5530 | The decoding loops compute the specification |
| `Utf8.DecodeExactly` | dependencies/whisper/src/whisper.cpp:5476-5530 | For every text and carried state, the one after an invalid token included: the code points of the byte machine when resumed bytes are continuations and every lead byte is one, the invalid marker otherwise |
| `Utf8.CutIsInvisibleIff` | dependencies/whisper/src/whisper.cpp:5486-5496 | Cutting a text that decodes changes nothing if and only if the bytes after the cut that finish the cut character are continuation bytes |
| `Utf8.CutShows` | dependencies/whisper/src/whisper.cpp:5486-5525 | A cut that shows: `C3 41` decodes to a code point in one piece and is invalid in two |
| `Utf8.DecodeInvertsEncode` | dependencies/whisper/src/whisper.cpp:5476-5530 | Decoding inverts encoding (section 3 of RFC 3629) for every sequence of code points other than NUL |
| `Utf8.StreamDecodes` | dependencies/whisper/src/whisper.cpp:5875-5881 | Valid text in pieces cut at any byte decodes to the code points of the whole, the partial state carried along |
| `Grammar.MatchCharLoop` | dependencies/whisper/src/whisper.cpp:5543-5565 | The matching loop finds whether a class has the code point and where the class ends |
| `Grammar.ScanEndIgnoresChar` | dependencies/whisper/src/whisper.cpp:5543-5565 | Where a class ends does not depend on the code point |
| `GrammarLang.LangRef` | dependencies/whisper/src/whisper.cpp:5619-5664 | A sequence that starts with a reference derives exactly the words that split into one of the rule and one of the rest |
| `GrammarLang.ExpandLang` | dependencies/whisper/src/whisper.cpp:5632-5658 | A stack with a reference on top accepts exactly what its expansions by the rule's alternates accept together |
| `GrammarLang.CharLang` | dependencies/whisper/src/whisper.cpp:5683-5699 | A stack with a class on top accepts exactly the words whose first code point is in the class and whose rest the stack past the class accepts |
| `GrammarStep.Advance` | dependencies/whisper/src/whisper.cpp:5619-5664 | Terminates for every grammar with rank evidence, with at least one stack, each empty or with a class on top |
| `GrammarStep.AdvanceLang` | dependencies/whisper/src/whisper.cpp:5619-5664 | Advancing preserves the language |
| `GrammarStep.AcceptIsDerivative` | dependencies/whisper/src/whisper.cpp:5676-5702 | Accepting a code point is the language derivative |
| `GrammarStep.Init` | dependencies/whisper/src/whisper.cpp:5776-5814 | At least one initial stack, each empty or with a class on top |
| `GrammarStep.InitLang` | dependencies/whisper/src/whisper.cpp:5776-5814 | The initial stacks accept exactly the start rule's language |
| `GrammarStep.AcceptAllIsDerivative` | dependencies/whisper/src/whisper.cpp:5878-5880 | The same over any text |
| `GrammarStep.GrammarDecides` | dependencies/whisper/src/whisper.cpp:5776-5814 | After any text, what may follow is exactly what completes it to a word, and end of text is allowed exactly when it is one |
| `GrammarRank.RankedIffNoLeftRecursion` | dependencies/whisper/src/whisper.cpp:5619-5664 | The evidence exists if and only if no rule reaches itself over leftmost references, references to rules that derive the empty word skipped |
| `GrammarRank.GrammarDecidesAll` | dependencies/whisper/src/whisper.cpp:5776-5814 | So for every grammar without left recursion: after any text, what may follow is exactly what completes it to a word, and end of text is allowed exactly when it is one |
| `GrammarReject.PartialMatchMeans` | dependencies/whisper/src/whisper.cpp:5570-5614 | A partial character matches a class if and only if some completion is in it, and a negated class if and only if every completion is outside |
| `GrammarReject.RejectCandidatesCount` | dependencies/whisper/src/whisper.cpp:5704-5774 | Batched rejection equals one-by-one simulation: a candidate is among the rejects exactly as often as among the candidates if accepting its code points one by one leaves only stacks that turn its tail down, and not at all otherwise |
| `GrammarReject.RejectForStackCount` | dependencies/whisper/src/whisper.cpp:5709-5758 | The same for one stack |
| `GrammarReject.WholeCandidates` | dependencies/whisper/src/whisper.cpp:5704-5774 | Without a partial tail, that is: exactly if no stack is left |
| `GrammarReject.KeptPartialCompletes` | dependencies/whisper/src/whisper.cpp:5570-5614 | A kept candidate with a partial tail has a completion the grammar accepts |
| `GrammarReject.RejectorForeseesAcceptor` | dependencies/whisper/src/whisper.cpp:5816-5882 | A token on a character boundary is rejected exactly when accepting it would leave the grammar without stacks |
| `KvCache.RmKeepsOk` | dependencies/whisper/src/whisper.cpp:1091-1119 | Removing a sequence keeps: a cell is free exactly when it has no tags |
| `KvCache.CpKeepsOk` | dependencies/whisper/src/whisper.cpp:1121-1137 | Copying a sequence keeps it |
| `KvCache.FillKeepsOk` | dependencies/whisper/src/whisper.cpp:1059-1065 | Entering a batch into free cells keeps it |
| `KvCache.MaskIsExact` | dependencies/whisper/src/whisper.cpp:2876-2930 | Looking only at the padded used part of the cache hides nothing: the mask admits exactly the cells of the entry's sequence up to its position |
| `KvCache.Cache.Clear` | dependencies/whisper/src/whisper.cpp:1081-1089 | Frees all cells |
| `KvCache.Cache.FindSlot` | dependencies/whisper/src/whisper.cpp:1019-1068 | Terminates from every head; succeeds if and only if some run of that many consecutive free cells exists, then fills exactly such a run at the head, and otherwise changes no cell |
| `KvCache.Cache.SearchSlot` | dependencies/whisper/src/whisper.cpp:1030-1057 | The search alone: found, the head is at a free run; not found, there is none |
| `KvCache.Cache.CellMax` | dependencies/whisper/src/whisper.cpp:1071-1079 | One more than the last used cell |
| `KvCache.Cache.SeqRm` | dependencies/whisper/src/whisper.cpp:1091-1119 | The loop removes the sequence from every cell of the range |
| `KvCache.Cache.SeqCp` | dependencies/whisper/src/whisper.cpp:1121-1137 | The loop copies the sequence's cells of the range |
| `KvCache.Cache.BuildMask` | dependencies/whisper/src/whisper.cpp:2920-2937 | The mask array is open exactly where the mask predicate admits, and closed in the rows that pad the batch |
| `BeamRun.PromptCarries` | dependencies/whisper/src/whisper.cpp:7142-7149 | After the prompt batch the cells carry the prompt's history: one cell per position holding what a private cache would |
| `BeamRun.StepCarries` | dependencies/whisper/src/whisper.cpp:7431-7461 | A batch with one token per decoder extends each decoder's history by its token |
| `BeamRun.FillKeepsOthers` | dependencies/whisper/src/whisper.cpp:7431-7461 | Decoders that are not in the batch keep their history |
| `BeamSearch.ShuffleInPlace` | dependencies/whisper/src/whisper.cpp:7279-7317 | The loops over decoders perform the shuffle |
| `BeamSearch.ShuffleAssigns` | dependencies/whisper/src/whisper.cpp:7279-7317 | Copy to temporary tags, remove, copy back, remove: a simultaneous assignment of histories that leaves finished decoders alone and no temporary tag behind |
| `BeamSearch.StartHolds` | dependencies/whisper/src/whisper.cpp:7142-7178 | After prompt and copies every decoder carries the prompt |
| `BeamSearch.NextKeepsInv` | dependencies/whisper/src/whisper.cpp:7184-7461 | One iteration, greedy or beam, keeps the invariant |
| `BeamSearch.CacheAgreesForever` | dependencies/whisper/src/whisper.cpp:7142-7461 | Over every run: the shared cache restricted to a decoder is the private cache of that decoder's prompt and tokens |
| `BeamSearch.MaskAdmitsHistory` | dependencies/whisper/src/whisper.cpp:2908-2930 | In every reachable state the mask of an active decoder admits exactly one cell for each earlier position, and nothing else |
| `Fft.DftInto` | dependencies/whisper/src/whisper.cpp:3038-3054 | The naive loops compute the bins of the discrete Fourier transform and write nothing else |
| `Fft.SplitSum` | dependencies/whisper/src/whisper.cpp:3073-3085 | The transform's sum splits into the sums over even and odd samples |
| `Fft.Butterfly` | dependencies/whisper/src/whisper.cpp:3087-3101 | Both halves of the spectrum from the two half-length transforms |
| `Fft.FftInto` | dependencies/whisper/src/whisper.cpp:3060-3102 | For every length that divides the tables the recursive transform computes exactly the bins the naive one does; it overwrites of the input only the scratch behind the samples and stays within `2N` input and `8N` output slots |
| `Fft.FftHalf` | dependencies/whisper/src/whisper.cpp:3073-3085 | One half: moved behind the input, transformed there, the other half's spectrum intact |
| `Fft.Combine` | dependencies/whisper/src/whisper.cpp:3087-3101 | The combining loop never overwrites a half-spectrum it still reads |
| `Dtw.FillTables` | dependencies/whisper/src/whisper.cpp:8682-8715 | The table loops fill costs and traces |
| `Dtw.MoveStaysInside` | dependencies/whisper/src/whisper.cpp:8729-8745 | The way back leaves the inside of the table only from the first cell, into the corner |
| `Dtw.Backtrace` | dependencies/whisper/src/whisper.cpp:8717-8745 | Ends, meets the border only in the corner, fits into `N + M - 1` rows, and writes the path the table encodes |
| `Dtw.TracedIsPath` | dependencies/whisper/src/whisper.cpp:8677-8761 | The result is a monotone path from the first cell to the last, each step advancing by at most one, and its summed cost is the table's last entry |
| `Dtw.CheapestIffNoTie` | dependencies/whisper/src/whisper.cpp:8694-8712 | Every entry is the least cost of a path to its cell if and only if no cell sees its diagonal and token neighbours tie below its frame neighbour |
| `Dtw.EntryCheapestIff` | dependencies/whisper/src/whisper.cpp:8694-8712 | One entry by itself, the returned one for instance, is the least cost of a path to its cell if and only if some cheapest path meets no such tie |
| `Dtw.TieCosts` | dependencies/whisper/src/whisper.cpp:8706-8709 | The failing case: a two by two matrix where the path returned costs 1 and the diagonal nothing |
| `Dtw.DtwAndBacktrace` | dependencies/whisper/src/whisper.cpp:8677-8761 | The two rows of the result list exactly the matches of that path |
| `Dtw.StampsOrdered` | dependencies/whisper/src/whisper.cpp:8924-8932 | One time per token after the first, never decreasing |
| `Dtw.StampIsFirstFrame` | dependencies/whisper/src/whisper.cpp:8927-8932 | Each token's time is that of the first frame the path matches it to |
| `Dtw.PlaceTimestamps` | dependencies/whisper/src/whisper.cpp:8923-8950 | Each text token gets its time in order, and nothing else changes |
| `VadScan.Configure` | dependencies/whisper/src/whisper.cpp:5195-5232 | The derived thresholds; the lower one is not above the upper one exactly when the threshold is at least 0.01 |
| `VadScan.Scan` | dependencies/whisper/src/whisper.cpp:5239-5323 | The loop over the windows computes the scan of the specification, for all configurations |
| `VadScan.ScanIsRight` | dependencies/whisper/src/whisper.cpp:5239-5323 | For all configurations and probabilities the raw segments are ordered, disjoint and inside the audio; each starts at speech and ends in silence, at the maximal length or with the audio; what is dropped is a short burst |
| `VadScan.CaughtOrLost` | dependencies/whisper/src/whisper.cpp:5239-5323 | For all configurations every speech window is in a segment, at a cut or in a dropped burst, unless it counts as silence as well and a segment or burst ends there |
| `VadCover.LosesNothingIff` | dependencies/whisper/src/whisper.cpp:5195-5323 | For every probability sequence all speech is in a segment, at a cut or in a burst, if and only if the threshold is at least 0.01 or the lengths leave no window in which a pause could close a segment |
| `VadCover.HalfPercentLoses` | dependencies/whisper/src/whisper.cpp:5195-5323 | The failing case: a threshold of 0.005 with common settings loses speech |
| `VadLength.RawIsBounded` | dependencies/whisper/src/whisper.cpp:5269-5290 | A raw segment exceeds the maximal length by at most the window in which it is noticed |
| `VadSegments.Merge` | dependencies/whisper/src/whisper.cpp:5325-5344 | The erasing loop merges |
| `VadSegments.MergedIsRight` | dependencies/whisper/src/whisper.cpp:5325-5344 | Merged segments stay ordered and are at least 200 ms apart |
| `VadSegments.MergedCovers` | dependencies/whisper/src/whisper.cpp:5325-5344 | They cover exactly the raw segments and the gaps shorter than that |
| `VadLength.MergedWithinIff` | dependencies/whisper/src/whisper.cpp:5325-5344 | Merging keeps a bound on the length if and only if no chain of gaps below 200 ms spans more |
| `VadLength.MergingKeepsBoundIff` | dependencies/whisper/src/whisper.cpp:5269-5344 | So the merged segments keep the bound of the raw ones exactly when no such chain of them spans more |
| `VadLength.NoFinalBound` | dependencies/whisper/src/whisper.cpp:5188-5422 | The maximal length bounds no final segment: with windows below 200 ms, and a threshold that can be reached, any bound is exceeded by continuous speech |
| `VadBound.FinalBoundIff` | dependencies/whisper/src/whisper.cpp:5188-5422 | In terms of the parameters: final segments are bounded in length over all probabilities if and only if no probability reaches the threshold, or windows are at least 200 ms and one of these holds: no window counts as speech and as silence, none is silent, a pause of one window ends a segment, or the maximal length is below five windows |
| `VadBound.RawGaps` | dependencies/whisper/src/whisper.cpp:5239-5323 | Raw segments are a window apart, or touch where a window of both kinds was the place of a cut; below five windows of maximal length never twice in a row |
| `VadBound.EndlessExceeds` | dependencies/whisper/src/whisper.cpp:5239-5355 | Otherwise segments that touch one after the other are merged into one longer than any bound, however wide the windows |
| `VadLength.FourWindows` | dependencies/whisper/src/whisper.cpp:5285-5344 | The failing case: continuous speech cut at once, with the next segment 512 samples on and merged again |
| `VadSegments.DropShort` | dependencies/whisper/src/whisper.cpp:5346-5355 | The erasing loop filters |
| `VadSegments.KeptIsRight` | dependencies/whisper/src/whisper.cpp:5346-5355 | Exactly the segments that are long enough stay, in order |
| `VadSegments.PaddedIsRight` | dependencies/whisper/src/whisper.cpp:5370-5403 | Padding keeps order and bounds; a segment only grows, by no more than the padding on either side |
| `VadSegments.CaughtIsAccounted` | dependencies/whisper/src/whisper.cpp:5325-5403 | What the scan catches is in a final segment, at a cut, in a dropped burst or in a merged segment too short to stay |
| `VadSegments.PadAndConvert` | dependencies/whisper/src/whisper.cpp:5370-5411 | The in-place loop pads each segment as specified and converts it |
| `VadSegments.TimesAreExact` | dependencies/whisper/src/whisper.cpp:4451-4457 | A centisecond is 160 samples; the other way rounds to the nearest, half up |
| `VadSegments.RoundTrip` | dependencies/whisper/src/whisper.cpp:4451-4457 | Centiseconds to samples and back is the identity |
| `VadSegments.SegmentsFromProbs` | dependencies/whisper/src/whisper.cpp:5188-5422 | The whole segmenter, for all parameters: ordered, disjoint, inside the audio, in samples and in centiseconds, and speech unaccounted for only in windows that count as silence as well |
| `VadTimeMap.AddInnerPoints` | dependencies/whisper/src/whisper.cpp:6714-6735 | The intermediate points, and that the guard against points beyond the segment never fires |
| `VadTimeMap.BuildTable` | dependencies/whisper/src/whisper.cpp:6686-6763 | The loop collects the points of all segments |
| `VadTimeMap.PointsMonotone` | dependencies/whisper/src/whisper.cpp:6686-6763 | For ordered segments the points are monotone, whichever segments are skipped |
| `VadTimeMap.TableIsRight` | dependencies/whisper/src/whisper.cpp:6765-6779 | Under any tie-breaking of the sort: strictly increasing processed times, original times that never decrease, no time lost, no entry made up |
| `VadTimeMap.ExactAtPoints` | dependencies/whisper/src/whisper.cpp:7917-7936 | The map is exact at the points of the table |
| `VadTimeMap.PointsMapToPoints` | dependencies/whisper/src/whisper.cpp:6765-6779 | Every point's processed time is taken to its original time or to that of a point with the same processed time |
| `VadTimeMap.StaysInside` | dependencies/whisper/src/whisper.cpp:7917-7923 | It stays between the first and the last original time |
| `VadTimeMap.MapIsMonotone` | dependencies/whisper/src/whisper.cpp:7912-7951 | It never runs backwards |
| `VadTimeMap.SegmentsToTime` | dependencies/whisper/src/whisper.cpp:6686-6779 | All of it, from segments to mapped times |
| `Timestamps.VocabOf` | dependencies/whisper/src/whisper.cpp:1624-1639 | The special ids for a vocabulary size leave room for 1501 timestamps |
| `Timestamps.SpecialsCoverIff` | dependencies/whisper/src/whisper.cpp:6188-6217 | The masks leave no id between end of text and the timestamps if and only if there are at most a hundred languages |
| `Timestamps.ProcessLogits` | dependencies/whisper/src/whisper.cpp:6178-6327 | The masking loops mask exactly what the mask predicate says, on top of what the caller masks |
| `Timestamps.Decoder.Update` | dependencies/whisper/src/whisper.cpp:7324-7406 | The decoder update is the specified transition |
| `Timestamps.NeverBackInTime` | dependencies/whisper/src/whisper.cpp:7343-7349 | The failure for going back in time is unreachable |
| `Timestamps.TokenKeepsInv` | dependencies/whisper/src/whisper.cpp:7324-7406 | One allowed token keeps shape and state of a hypothesis, whichever way the update goes, and a result within its tokens |
| `Timestamps.TimestampsForever` | dependencies/whisper/src/whisper.cpp:6255-6295 | Over every run, greedy or beam, and every vocabulary: never three timestamps in a row, timestamps never decrease, results lie within their tokens; and with all special ids masked a timestamp after text is followed by one or by end of text |
| `Timestamps.PairsKeptIff` | dependencies/whisper/src/whisper.cpp:6188-6295 | After text and a timestamp no allowed token breaks the pair if and only if all special ids are masked |
| `AudioWindow.RoomIff` | dependencies/whisper/src/whisper.cpp:6899-6944 | In terms of what a caller knows: the count of context tokens to take is negative exactly when a prompt is carried that fills the budget, one kept from an earlier call or a new one with a budget of one |
| `AudioWindow.KeptPromptOverruns` | dependencies/whisper/src/whisper.cpp:7098-7107 | The failing case with a larger budget: a prompt carried over from a call with the default budget to one with a budget of ten |
| `AudioWindow.PositionsFit` | dependencies/whisper/src/whisper.cpp:7088-7112 | Every decoded position is below the text context |
| `AudioWindow.Context.Prepare` | dependencies/whisper/src/whisper.cpp:6899-6944 | From every state: the initial prompt is carried unless an earlier call left one, or put in front of the rolling context |
| `AudioWindow.Context.BuildPrompt` | dependencies/whisper/src/whisper.cpp:7088-7112 | The prompt is the specified history and the initial tokens |
| `AudioWindow.Context.Remember` | dependencies/whisper/src/whisper.cpp:7590-7601 | The rolling context after a window |
| `AudioWindow.WindowMoves` | dependencies/whisper/src/whisper.cpp:7725-7734 | The window advances by 20 to 30000 ms, after success, failure and single-timestamp endings alike |
| `AudioWindow.RunGivesOutcome` | dependencies/whisper/src/whisper.cpp:7510-7601 | Every hypothesis a run of the decoders can end with is a result the main loop goes on from, cut to its result length or not |
| `AudioWindow.Transcribe` | dependencies/whisper/src/whisper.cpp:6997-7738 | The main loop ends, whatever the decoders end with in each window: its window strictly advancing, and less than 100 ms before the end unless interrupted |
| `Segments.Emit` | dependencies/whisper/src/whisper.cpp:7603-7704 | The loop over the tokens, with its inner loop over timestamps in a row, emits the specified segments |
| `Segments.EmitConserves` | dependencies/whisper/src/whisper.cpp:7603-7704 | Without special tokens in the text, the segments together show exactly the text of the window, and every token with text is in exactly one of them, in order |
| `Segments.TimesInOrderIff` | dependencies/whisper/src/whisper.cpp:7605-7671 | Start and end times run forwards over all segments of a window if and only if the first segment does not end before it starts |
| `Segments.WindowInOrder` | dependencies/whisper/src/whisper.cpp:7605-7671 | For every hypothesis the decoders can end with whose first token is a timestamp: segments in order, inside what the window moves on |
| `WrapSegment.Results.Wrap` | dependencies/whisper/src/whisper.cpp:6042-6093 | The restarting loop ends with the specified pieces and returns their number |
| `WrapSegment.WrapConserves` | dependencies/whisper/src/whisper.cpp:6042-6093 | The pieces' tokens are the segment's tokens, their texts its non-special text |
| `WrapSegment.WrapKeepsTimes` | dependencies/whisper/src/whisper.cpp:6059-6083 | Consecutive pieces share a boundary time that is a token time, the ends are kept, only the last piece keeps the speaker turn |
| `WrapSegment.WrapResetsProbability` | dependencies/whisper/src/whisper.cpp:6059-6083 | The first piece keeps the no-speech probability, all others have zero |
| `WrapSegment.WrapKeepsProbabilityIff` | dependencies/whisper/src/whisper.cpp:6059-6083 | All pieces have the segment's no-speech probability if and only if that is zero or nothing is cut |
| `WrapSegment.ProbabilityIsLost` | dependencies/whisper/src/whisper.cpp:6059-6083 | The failing case: two tokens in two pieces, the second without the probability |
| `WrapSegment.PiecesAreShort` | dependencies/whisper/src/whisper.cpp:6050-6088 | Without splitting on words a piece beyond the limit has a single text token, its first |
| `WrapSegment.PiecesStartWords` | dependencies/whisper/src/whisper.cpp:6023-6027 | With it every new piece begins with a space |
| `RingBuffer.KeepsTheLatest` | include/containers/impl/ring_buffer.h:472-493 | After any pushes the buffer holds exactly the latest elements |
| `RingBuffer.RingBuffer.EmplaceBackWithUnusedCapacity` | include/containers/impl/ring_buffer.h:409-431 | Appends when there is room, whether `_last` is at the end or wrapped |
| `RingBuffer.RingBuffer.EmplaceBackOverwrite` | include/containers/impl/ring_buffer.h:433-455 | Drops the oldest element and appends when full |
| `RingBuffer.RingBuffer.PushBack` | include/containers/impl/ring_buffer.h:472-493 | Push is the bounded append |
| `RingBuffer.RingBuffer.TryPopFront` | include/containers/impl/ring_buffer.h:242-256 | Pop removes and returns the oldest element, or nothing |
| `RingBuffer.RingBuffer.PeekFront` | include/containers/impl/ring_buffer.h:263-282 | Peek returns it |
| `RingBuffer.RingBuffer.At` | include/containers/impl/ring_buffer.h:301-303 | Indexing counts from the oldest element |
| `RingBuffer.RingBuffer.Put` | include/containers/impl/ring_buffer.h:290-292 | Writing through the index replaces that element alone |
| `RingBuffer.RingBuffer.Clear` | include/containers/impl/ring_buffer.h:308-316 | Clear empties |
| `RingBuffer.RingBuffer.CommitWrite` | include/containers/impl/ring_buffer.h:375-378 | Commits the next slots as the newest elements |
| `RingBuffer.RingBuffer.CommitRead` | include/containers/impl/ring_buffer.h:391-395 | Drops the oldest elements |
| `RingBuffer.RingBuffer.FillFromRing` | include/containers/impl/ring_buffer.h:535-571 | Copies out the contents in order, in the straight and the wrapped layout |

## Left out

- Model loading, backends, graph construction, GPU paths, bindings, converters, logging, timings and language tables: input and output, foreign calls or plain data.
- Floating point: logits are masked or not, sampling is any choice among tokens of positive probability, transforms, costs and probabilities are exact reals.
- Machine integers are unbounded; where the source names a limit (`SIZE_MAX/2`, `INT_MAX`, `INT32_MAX`, 256 free blocks, 16 chunks, 8 decoders) the model has it.
- `Gallocr.Gallocr.AllocGraph`: graphs are topologically ordered, views are nodes over roots that are not views and one without an operation is read by nobody, inputs and leafs have no operation, sizes are positive; one allocator per buffer id, where the source lets several ids of one buffer type share an allocator.
- `Gallocr.Gallocr.ReserveN`: the backend buffers themselves are not part of this model; `InBuffers` says every range ends at or below the recorded `max_size` they are made from. Hash sets are sequences of records.
- `GraphPlan.RunAgrees`: the graph's meaning is execution in order with one cell for every tensor that is no view; that the order of copies and in-place operations is the one the author of a graph had in mind is not part of this model.
- `GraphPlan.OutputsAreTrue`: an output view that a node reads is not covered, because the promise is false for it; `GraphOutputs.KeptUnderPlanIff` says under which plans it survives and `PlannerRuns.PlannerLosesOutput` that the planner can pick another.
- `PlannerSpec.PlannedGraph`: only managed tensors are ever marked allocated, so the source's branch that reuses a view parent is not in it (`Gallocr.Gallocr.FindReusable` proves that branch dead).
- `Utf8.DecodeInvertsEncode`: text with a NUL ends there in the source and is left out; surrogate code points are treated like others.
- `Grammar.MatchCharLoop`: grammar elements are named by rule and index instead of by address, so copies of a grammar share them.
- `GrammarReject.RejectCandidatesCount`: candidates without zero code points, as the source's own terminator requires; rejects are compared as multisets, not in order.
- `GrammarReject.RejectorForeseesAcceptor`: the source lowers the logit of a reject by a penalty; how large it is does not matter here.
- `BeamSearch.NextKeepsInv`: iterations that find no slot end the run in the source and in the model; sampling threads work on distinct decoders and are taken one after the other. Ranking of candidates is any choice.
- `Dtw.PlaceTimestamps`: the tokens of consecutive segments form one array; stepping past the last token of the last segment is not modelled.
- `VadScan.Scan`: durations are non-negative. `VadTimeMap.BuildTable`: copying of samples is left out; the result of the sort is a parameter.
- `Timestamps.ProcessLogits`: a filter callback, the regular expression, non-speech suppression and the grammar only mask further tokens, and the comparison of summed timestamp probability with text is a parameter.
- `AudioWindow.Transcribe`: the decoders' results, aborts and encoder failures come as an oracle per window; of the temperatures tried for a window only the last counts, `BuildPrompt` holds for each. At least one temperature is tried. The oracle's results are hypotheses a run of the decoders can end with (`RunGivesOutcome`), and the count of context tokens to take is not negative (`RoomIff`).
- `AudioWindow.PositionsFit`: the prompt itself fits for text contexts of at least seven tokens.
- `Segments.EmitConserves`: with special tokens in the text, those of the timestamps skipped behind the first of a row are not shown by the source either.
- `WrapSegment.PiecesAreShort`: says nothing with splitting on words, where a long run without a space stays whole.
- `RingBuffer.RingBuffer.PushBack`: overwriting is on and the capacity fixed; growth, assignment, move and the span getters are left out, elements need no destructor.
- Token-level timestamps by energy, the segment callback order, audio capture, resampling, spin locks and the other containers: easy, incomplete or bound to the system.
