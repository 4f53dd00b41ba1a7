# gridss core in Dafny

A Dafny model of four pieces of the gridss structural-variant caller, with
proofs of what each promises.

- **PathNodeIterator** (modules `PathNodes`, `PathStep`, `PathEffect`,
  `PathInvariant`, `PathProcess`, `PathAdd`, `PathEmit`, `PathIterator`).
  This is the streaming positional compactor of the de Bruijn graph. It reads
  k-mer nodes sorted by start position and writes path nodes: maximal
  unbranched runs of k-mers, each shifted one position from the one before,
  with edges between the runs.
  - The iterator's state is one immutable value. It holds the unread input,
    an arena of per-node records (`pn`, `mergeTarget`, `processed`, `prev`),
    the path nodes by id, the k-mer index, the active and completed queues,
    and the horizon `lastProcessPosition`.
  - A path node is named by the arena index of its first record.
  - `ValidAt`/`Valid` is the invariant every operation keeps. The Java
    `assert`s of the class are proved from it.
- **StructuralVariationCallBuilder** (modules `Evidence`, `Aggregation`,
  `CallBuilder`, `CallId`).
  - `addEvidence` validates and files evidence.
  - The two evidence sort orders.
  - The breakpoint override in `make`.
  - The reference counts.
  - The `sumOrMax`, element-wise sum/max and string concatenation
    aggregates.
  - The textual call ID, with a decoder proving that the ID names the
    parent's breakend(s).
- **KrakenClassification** (module `Kraken`). The constructor parses one line
  of Kraken 2 output, with Java's `String.split` semantics: trailing empty
  pieces are dropped. Lines as Kraken 2 writes them are proved to parse back
  into their parts.
- **SAMRecordMateCoordinateComparator** (module `MateComparator`). It orders
  records by mate position: RNEXT/PNEXT, section 1.4 of the SAM format
  specification. The comparator contract is proved: reflexive,
  antisymmetric in sign, transitive. These hold whenever the inherited
  coordinate order has them.
- Shared: `Wrappers` (Option/Result) and `JavaText`. `JavaText` covers
  `Integer.toString`, `Integer.parseInt`, `String.split`, `String.join`,
  `String.compareTo` and 32-bit wrap-around.

Collaborators whose source is not part of this model are parameters of the
model:

- `KmerEncodingHelper.nextStates`/`prevStates` are functions in `Config`.
- `BreakendSummary.overlaps` is a function argument.
- The sequence dictionary is a function from contig index to name.
- The log-likelihood models (`PhredLogLikelihoodRatioModel.llr` of an
  assembly, a soft clip or a read pair) are functions to `real`.
- The inherited `SAMRecordCoordinateComparator.fileOrderCompare` is a
  comparator argument.

## Model

| member | source | states |
|---|---|---|
| PathNodes.Initial | src/main/java/au/edu/wehi/idsv/debruijn/positional/PathNodeIterator.java:30-39 | a fresh iterator has the whole input unread, no records, an empty index and empty queues, and horizon Integer.MIN_VALUE |
| PathNodes.MinIndex | src/main/java/au/edu/wehi/idsv/debruijn/positional/PathNodeIterator.java:53-64 | the element a priority queue polls has the least key of the queue |
| PathNodes.RemoveAt | src/main/java/au/edu/wehi/idsv/debruijn/positional/PathNodeIterator.java:78 | polling removes exactly one occurrence of the polled element and adds nothing |
| PathNodes.RemoveFirst | src/main/java/au/edu/wehi/idsv/debruijn/positional/PathNodeIterator.java:87 | List.remove(Object) drops one occurrence of the element when present and changes nothing otherwise |
| PathNodes.IndexAdd | src/main/java/au/edu/wehi/idsv/debruijn/positional/PathNodeIterator.java:226-231 | the list of the node's k-mer (created when absent) gains the new record at its end; every other list is unchanged |
| PathNodes.Within | src/main/java/au/edu/wehi/idsv/debruijn/positional/PathNodeIterator.java:98-102 | exactly the records of a list whose intervals overlap the closed interval |
| PathNodes.Adjacent | src/main/java/au/edu/wehi/idsv/debruijn/positional/PathNodeIterator.java:93-120 | exactly the records indexed under one of the given k-mers whose intervals overlap the closed interval |
| PathNodes.NextKmersExact | src/main/java/au/edu/wehi/idsv/debruijn/positional/PathNodeIterator.java:93-106 | nextKmers returns exactly the indexed records with a successor k-mer whose interval overlaps [start+1, end+1] |
| PathNodes.PrevKmersExact | src/main/java/au/edu/wehi/idsv/debruijn/positional/PathNodeIterator.java:107-120 | prevKmers returns exactly the indexed records with a predecessor k-mer whose interval overlaps [start-1, end-1] |
| PathNodes.PrevNextAdjacent | src/main/java/au/edu/wehi/idsv/debruijn/positional/PathNodeIterator.java:93-120 | with mutually inverse k-mer transitions, b precedes a exactly when a follows b |
| PathStep.AddAggregateNode | src/main/java/au/edu/wehi/idsv/debruijn/positional/PathNodeIterator.java:220-232 | a node wider than maxSupportWidth is refused with an error; any other node gets one fresh record, one active-queue entry and one entry in the index list of its own k-mer, and nothing else changes |
| PathStep.Pending | src/main/java/au/edu/wehi/idsv/debruijn/positional/PathNodeIterator.java:170-177 | the predecessors moved to the completed queue are exactly those that proposed a merge |
| PathStep.ConfirmOrRevoke | src/main/java/au/edu/wehi/idsv/debruijn/positional/PathNodeIterator.java:157-179 | confirming or revoking keeps the record links intact and leaves the arena size, active queue and input alone |
| PathStep.AddEdge | src/main/java/au/edu/wehi/idsv/debruijn/positional/PathNodeIterator.java:186 | addEdge makes `to` a successor of `from` and `from` a predecessor of `to`, and changes no other edge or run |
| PathStep.AddEdges | src/main/java/au/edu/wehi/idsv/debruijn/positional/PathNodeIterator.java:184-197 | adding a sequence of edges adds exactly those edges in both directions and changes no run |
| PathStep.SuccessorEdges | src/main/java/au/edu/wehi/idsv/debruijn/positional/PathNodeIterator.java:184-188 | one edge from the new path node to the path node of each successor that has one |
| PathStep.PredecessorEdges | src/main/java/au/edu/wehi/idsv/debruijn/positional/PathNodeIterator.java:189-197 | one edge from the path node of each predecessor that has one to the new path node, except from the new path node itself |
| PathStep.NewPathNode | src/main/java/au/edu/wehi/idsv/debruijn/positional/PathNodeIterator.java:181-199 | the unmerged record gets a path node named after itself, and the record links stay intact |
| PathStep.ActiveHead | src/main/java/au/edu/wehi/idsv/debruijn/positional/PathNodeIterator.java:53-58 | the active queue polls a record with the least start position |
| PathStep.JoinStep | src/main/java/au/edu/wehi/idsv/debruijn/positional/PathNodeIterator.java:149-199 | after the first half of process(GraphNode) the record always has a path node |
| PathStep.ProcessNode | src/main/java/au/edu/wehi/idsv/debruijn/positional/PathNodeIterator.java:148-219 | process(GraphNode) keeps the record links intact and touches neither the active queue nor the input |
| PathStep.Chain | src/main/java/au/edu/wehi/idsv/debruijn/positional/PathNodeIterator.java:84 | following prev links from a record ends at that record and only visits earlier records |
| PathEffect.ConfirmOrRevokeEffect | src/main/java/au/edu/wehi/idsv/debruijn/positional/PathNodeIterator.java:157-179 | a confirmed merge appends gn to its one predecessor's run, gives gn that path node and sets prev; otherwise gn is untouched; with zero or several predecessors the proposers are completed; no other record changes |
| PathEffect.NewPathNodeEffect | src/main/java/au/edu/wehi/idsv/debruijn/positional/PathNodeIterator.java:181-182 | a new path node holds gn alone, and only gn's record and the new path node change |
| PathEffect.NewPathNodeEdges | src/main/java/au/edu/wehi/idsv/debruijn/positional/PathNodeIterator.java:183-197 | the new path node has an edge to each successor's path node and from each predecessor's, no predecessor edge twice, and no other edge changes |
| PathEffect.SelfEdgePresent | src/main/java/au/edu/wehi/idsv/debruijn/positional/PathNodeIterator.java:190-194 | the assertion of the self-intersection case: a predecessor already in gn's path node leaves that path node with an edge to itself |
| PathEffect.ProposeOrCompleteEffect | src/main/java/au/edu/wehi/idsv/debruijn/positional/PathNodeIterator.java:201-218 | gn proposes a merge with its only successor exactly when the merge conditions hold, and its path node is completed exactly when it does not |
| PathEffect.JoinStepMerges | src/main/java/au/edu/wehi/idsv/debruijn/positional/PathNodeIterator.java:149-168 | a confirmed merge leaves gn processed and joined to its predecessor's path node |
| PathEffect.RevokeStep | src/main/java/au/edu/wehi/idsv/debruijn/positional/PathNodeIterator.java:149-179 | without a confirmed merge, only gn's processed flag and the completed queue change |
| PathEffect.JoinStepStarts | src/main/java/au/edu/wehi/idsv/debruijn/positional/PathNodeIterator.java:169-199 | without a confirmed merge, gn starts a path node of its own |
| PathEffect.ProcessNodeEffect | src/main/java/au/edu/wehi/idsv/debruijn/positional/PathNodeIterator.java:148-219 | the whole effect of process(GraphNode) on an unprocessed record, stated from the state before the call |
| PathInvariant.MergeFacts | src/main/java/au/edu/wehi/idsv/debruijn/positional/PathNodeIterator.java:157-163 | the four assertions of a confirmed merge: the predecessor has a path node, starts and ends one position earlier, has gn's reference flag, and its run has room |
| PathInvariant.RevokedTargets | src/main/java/au/edu/wehi/idsv/debruijn/positional/PathNodeIterator.java:169-171 | the assertion that a predecessor's pending merge target is gn |
| PathInvariant.ProposedUnprocessed | src/main/java/au/edu/wehi/idsv/debruijn/positional/PathNodeIterator.java:211-212 | the assertion that the successor gn proposes to merge with has no path node yet (it is unprocessed) |
| PathInvariant.UnprocessedIndexed | src/main/java/au/edu/wehi/idsv/debruijn/positional/PathNodeIterator.java:225-231 | an unprocessed record is still in the index |
| PathInvariant.PendingIsPredecessor | src/main/java/au/edu/wehi/idsv/debruijn/positional/PathNodeIterator.java:201-212 | a record that proposed a merge with gn is among gn's predecessors |
| PathInvariant.ProposerConfirmedOrReleased | src/main/java/au/edu/wehi/idsv/debruijn/positional/PathNodeIterator.java:157-179 | every proposal to gn is either confirmed or its proposer is completed: no proposal is lost |
| PathProcess.HeadFacts | src/main/java/au/edu/wehi/idsv/debruijn/positional/PathNodeIterator.java:139-149 | the polled active head is unprocessed (the assertion in process(GraphNode)) and starts no later than any unprocessed record |
| PathProcess.ProcessHeadValid | src/main/java/au/edu/wehi/idsv/debruijn/positional/PathNodeIterator.java:139-141 | one turn of process(int)'s loop keeps the invariant |
| PathAdd.ReadNodeValid | src/main/java/au/edu/wehi/idsv/debruijn/positional/PathNodeIterator.java:220-232 | reading a node fails exactly when it is too wide, and otherwise keeps the invariant |
| PathAdd.HorizonRaised | src/main/java/au/edu/wehi/idsv/debruijn/positional/PathNodeIterator.java:137-142 | raising the horizon keeps the invariant while the unread input stays maxSupportWidth + 2 past it |
| PathAdd.InitialValid | src/main/java/au/edu/wehi/idsv/debruijn/positional/PathNodeIterator.java:33-39 | a fresh iterator over sorted, bounded input satisfies the invariant |
| PathEmit.ConstructedHead | src/main/java/au/edu/wehi/idsv/debruijn/positional/PathNodeIterator.java:59-64 | the completed queue polls a record whose path node has the least first-k-mer start |
| PathEmit.Emit | src/main/java/au/edu/wehi/idsv/debruijn/positional/PathNodeIterator.java:76-92 | polling an empty completed queue fails with the NullPointerException of dereferencing the null poll, and only then; on success the result is the polled record's path node |
| PathEmit.UnlistExact | src/main/java/au/edu/wehi/idsv/debruijn/positional/PathNodeIterator.java:85-90 | removing one record from its k-mer's list removes exactly that entry and drops a list that empties |
| PathEmit.RemoveExact | src/main/java/au/edu/wehi/idsv/debruijn/positional/PathNodeIterator.java:83-92 | removeFromGraph never meets a missing list (the assertion) and removes exactly the chain's records from the index |
| PathEmit.ChainOfRun | src/main/java/au/edu/wehi/idsv/debruijn/positional/PathNodeIterator.java:84 | following prev links from a run's j-th record visits exactly the run's first j + 1 records |
| PathEmit.EmitIndexed | src/main/java/au/edu/wehi/idsv/debruijn/positional/PathNodeIterator.java:76-92 | emission removes exactly the emitted run's records from the index; the run is contiguous, ends at the polled record and is at most maxPathLength long |
| PathEmit.EmitGraph | src/main/java/au/edu/wehi/idsv/debruijn/positional/PathNodeIterator.java:76-92 | emission keeps the graph part of the invariant |
| PathIterator.Drain | src/main/java/au/edu/wehi/idsv/debruijn/positional/PathNodeIterator.java:139-141 | the loop stops only when the active queue is empty or its head does not end before the horizon |
| PathIterator.Process | src/main/java/au/edu/wehi/idsv/debruijn/positional/PathNodeIterator.java:136-143 | process(int) records the horizon `earliest - maxSupportWidth - 2`, computed in Java int arithmetic |
| PathIterator.DrainValid | src/main/java/au/edu/wehi/idsv/debruijn/positional/PathNodeIterator.java:139-141 | draining to a horizon keeps the invariant at that horizon |
| PathIterator.ProcessValid | src/main/java/au/edu/wehi/idsv/debruijn/positional/PathNodeIterator.java:136-143 | process(int) keeps the invariant when its horizon does not fall back and stays maxSupportWidth + 2 below the unread input |
| PathIterator.HorizonOfStart | src/main/java/au/edu/wehi/idsv/debruijn/positional/PathNodeIterator.java:137 | the horizon of a bounded start position does not wrap |
| PathIterator.HorizonOfMax | src/main/java/au/edu/wehi/idsv/debruijn/positional/PathNodeIterator.java:129 | the horizon of the final flush (Integer.MAX_VALUE) does not wrap |
| PathIterator.FlushValid | src/main/java/au/edu/wehi/idsv/debruijn/positional/PathNodeIterator.java:128-130 | the final flush keeps the invariant and processes every record |
| PathIterator.ReadValid | src/main/java/au/edu/wehi/idsv/debruijn/positional/PathNodeIterator.java:122-126 | one turn of ensureBuffer's loop fails exactly on a too-wide node and otherwise keeps the invariant |
| PathIterator.EnsureBuffer | src/main/java/au/edu/wehi/idsv/debruijn/positional/PathNodeIterator.java:121-131 | ensureBuffer fails only on a too-wide input node; on success either the input is used up and flushed, or the head of the completed queue has fully defined edges |
| PathIterator.EnsureBufferValid | src/main/java/au/edu/wehi/idsv/debruijn/positional/PathNodeIterator.java:121-131 | ensureBuffer keeps the invariant, and once the input is used up nothing is left active |
| PathIterator.HasNext | src/main/java/au/edu/wehi/idsv/debruijn/positional/PathNodeIterator.java:65-74 | hasNext fails only on a too-wide node and keeps the invariant |
| PathIterator.Next | src/main/java/au/edu/wehi/idsv/debruijn/positional/PathNodeIterator.java:75-82 | next fails only on a too-wide node or, past the end, with the NullPointerException of `gn.pn` on the null poll, and returns an existing path node, keeping the invariant |
| PathIterator.ReadAfterHorizon | src/main/java/au/edu/wehi/idsv/debruijn/positional/PathNodeIterator.java:124 | the assertion in ensureBuffer: the next input node starts at or after the last horizon |
| PathIterator.EdgesFullyDefinedExact | src/main/java/au/edu/wehi/idsv/debruijn/positional/PathNodeIterator.java:144-147 | for a completed record, edgesFullyDefined is exactly `end < lastProcessPosition - maxSupportWidth - 2`, with no wrap-around |
| PathIterator.DoneEmpty | src/main/java/au/edu/wehi/idsv/debruijn/positional/PathNodeIterator.java:70-71 | with nothing active or completed, the k-mer index is empty |
| PathIterator.HasNextComplete | src/main/java/au/edu/wehi/idsv/debruijn/positional/PathNodeIterator.java:65-74 | hasNext is true exactly when a path node is completed; when false, the input is used up and the active queue and the index are empty (the assertions) |
| PathIterator.NextEmitsRun | src/main/java/au/edu/wehi/idsv/debruijn/positional/PathNodeIterator.java:75-92 | next returns the path node of the completed record whose path node starts first; its run is contiguous, ends at that record and is at most maxPathLength long (the assertion); exactly its records leave the index |
| CallBuilder.AddEvidence | src/au/edu/wehi/idsv/StructuralVariationCallBuilder.java:29-44 | null is a NullPointerException and an unknown kind a RuntimeException; otherwise the evidence is filed by kind, and it is rejected afterwards exactly when it does not overlap the parent |
| CallBuilder.AddAllFiles | src/au/edu/wehi/idsv/StructuralVariationCallBuilder.java:29-44 | adding a run of evidence succeeds exactly when every item is known and overlaps the parent, and then each list grows by the items of its kind, in order |
| CallBuilder.SoftClipByBestDesc | src/au/edu/wehi/idsv/StructuralVariationCallBuilder.java:255-262 | the soft clip order is "realigned first", whatever the llr function is |
| CallBuilder.AssemblyByBestDesc | src/au/edu/wehi/idsv/StructuralVariationCallBuilder.java:263-270 | the assembly order is "breakpoint first", whatever the llr function is |
| CallBuilder.SortedSoftClips | src/au/edu/wehi/idsv/StructuralVariationCallBuilder.java:255-262 | the sorted soft clips are the realigned ones, then the others, each in arrival order, and a permutation of the list |
| CallBuilder.SortedAssemblies | src/au/edu/wehi/idsv/StructuralVariationCallBuilder.java:263-270 | the sorted assemblies are the breakpoint ones, then the others, each in arrival order, and a permutation of the list |
| CallBuilder.OverrideChoice | src/au/edu/wehi/idsv/StructuralVariationCallBuilder.java:49-55 | make reports the first breakpoint assembly if any; else the first realigned soft clip with its untemplated sequence; else the parent's own breakpoint |
| CallBuilder.MakeIdNamesParent | src/au/edu/wehi/idsv/StructuralVariationCallBuilder.java:231-254 | the call ID decodes to the parent's breakend(s), even when the breakpoint was overridden |
| CallBuilder.MakeKeepsParentAttributes | src/au/edu/wehi/idsv/StructuralVariationCallBuilder.java:56-62 | the call's attributes are the parent's plus the aggregated ones plus the four log-likelihood ratios setLlr writes, and any other attribute keeps the parent's value |
| CallBuilder.MakeLlr | src/au/edu/wehi/idsv/StructuralVariationCallBuilder.java:66-85 | each ratio starts from the parent's own (0 when absent); the assembly ratio adds every assembly's and, as written, every read pair's; the soft clip ratio adds every soft clip's; the read pair ratio stays the parent's; LOG_LIKELIHOOD_RATIO and the phred score get their sum |
| CallBuilder.MakeReferenceCounts | src/au/edu/wehi/idsv/StructuralVariationCallBuilder.java:221-230 | the counts given to referenceReads and referenceSpanningPairs come out as [normal, tumour] |
| CallBuilder.MakeFromEvidenceOnly | src/au/edu/wehi/idsv/StructuralVariationCallBuilder.java:20-23 | a builder only given evidence writes -1 for every reference count and counts exactly the read pairs and soft clips it was given |
| CallBuilder.MakeCounts | src/au/edu/wehi/idsv/StructuralVariationCallBuilder.java:56-58 | make writes the reference counts the builder holds as [normal, tumour] and the number of read pairs and soft clips it holds |
| CallBuilder.MakeCountsDiscordantPairs | src/au/edu/wehi/idsv/StructuralVariationCallBuilder.java:137-141 | READPAIR_MAPPED_READPAIR counts the discordant pairs of each slot; the tumour slot exists exactly when every pair comes from a SAM source |
| CallBuilder.MakeFlagsRealignedSoftClips | src/au/edu/wehi/idsv/StructuralVariationCallBuilder.java:167-171 | SOFTCLIP_MAPPED is, per slot, 1 exactly when some soft clip of that slot is realigned, else 0 |
| CallBuilder.MakeRemoteMapqOfConcordantPairs | src/au/edu/wehi/idsv/StructuralVariationCallBuilder.java:152-163 | with no discordant pair, both read-pair remote mapq attributes are all zeros |
| CallBuilder.MakeRemoteMapqOfUnrealignedSoftClips | src/au/edu/wehi/idsv/StructuralVariationCallBuilder.java:172-183 | with no realigned soft clip, both soft-clip remote mapq attributes are all zeros |
| CallBuilder.MakeAssemblyIntAttribute | src/au/edu/wehi/idsv/StructuralVariationCallBuilder.java:116-130 | an integer assembly attribute is as long as the longest list among the assemblies and the parent, and each index folds the values that reach it, with max or a sum as the attribute says |
| CallBuilder.MakeMaxIncludesParent | src/au/edu/wehi/idsv/StructuralVariationCallBuilder.java:116-121 | a max assembly attribute is at least the parent's own value at each of the parent's indexes |
| CallBuilder.MakeConcatOrder | src/au/edu/wehi/idsv/StructuralVariationCallBuilder.java:116-133 | a string assembly attribute lists the breakpoint assemblies' values, then the other assemblies', each in arrival order, then the parent's |
| Aggregation.SumOrMax | src/au/edu/wehi/idsv/StructuralVariationCallBuilder.java:195-220 | sumOrMax gives [normal, tumour]: each value folds from 0 into the tumour slot exactly when its source is a tumour SAM source; one non-SAM source collapses the result to the normal slot |
| Aggregation.AccumulateMax | src/au/edu/wehi/idsv/StructuralVariationCallBuilder.java:209-210 | a max fold from 0 is the largest value, or 0 when no value is larger |
| Aggregation.AccumulateIndicator | src/au/edu/wehi/idsv/StructuralVariationCallBuilder.java:137-141 | folding a 0/1 indicator counts the matching items of a slot with a sum, and is 1 exactly when one exists with max |
| Aggregation.SumOrMaxZero | src/au/edu/wehi/idsv/StructuralVariationCallBuilder.java:152-163 | a value that is 0 for every item folds to all zeros |
| Aggregation.IntAttributeSumOrMax | src/au/edu/wehi/idsv/StructuralVariationCallBuilder.java:86-105 | the result is as long as the longest list, and each index is the sum or max, from 0, over the lists that reach it |
| Aggregation.PadToLength | src/au/edu/wehi/idsv/StructuralVariationCallBuilder.java:94 | padding with zeros to the next list's length keeps each column's fold |
| Aggregation.FoldInto | src/au/edu/wehi/idsv/StructuralVariationCallBuilder.java:95-101 | folding one list into the padded result position by position |
| Aggregation.ConcatMembership | src/au/edu/wehi/idsv/StructuralVariationCallBuilder.java:112 | a string is in the concatenation exactly when it is in one of the lists |
| Aggregation.TrueFirst | src/au/edu/wehi/idsv/StructuralVariationCallBuilder.java:258 | compareTrueFirst: true orders before false, and equal flags tie |
| Aggregation.SortPermutes | src/au/edu/wehi/idsv/StructuralVariationCallBuilder.java:46-47 | Collections.sort only reorders |
| Aggregation.SortTrueFirst | src/au/edu/wehi/idsv/StructuralVariationCallBuilder.java:46-47 | a stable sort by "key true first" keeps the elements with true keys first and the rest after, each group in its original order |
| CallId.DecodeGetId | src/au/edu/wehi/idsv/StructuralVariationCallBuilder.java:231-254 | the ID decodes back to the breakend(s) it was built from, when no contig name contains ':' |
| CallId.GetIdInjective | src/au/edu/wehi/idsv/StructuralVariationCallBuilder.java:231-254 | calls with the same ID name the same locations |
| CallId.TakeEndText | src/au/edu/wehi/idsv/StructuralVariationCallBuilder.java:237-240 | the "-end" part appears only when end differs from start, and it reads back as the end |
| Kraken.Parse | src/main/java/au/edu/wehi/idsv/kraken/KrakenClassification.java:17-33 | toKrakenOutput returns the line; isClassified iff the first field is "C"; the id is field 2; taxonomy and lengths are parsed ints; "a\|" gives a second length of 0; fewer than 4 fields, or a bad number, is an exception |
| Kraken.ReadOneHits | src/main/java/au/edu/wehi/idsv/kraken/KrakenClassification.java:44-48 | the read-one entries are exactly a ReadOne of each non-empty token, in order |
| Kraken.NonEmptyCounts | src/main/java/au/edu/wehi/idsv/kraken/KrakenClassification.java:45-46 | the tokens kept are every non-empty token, as often as it occurs, and never the empty one |
| Kraken.ReadTwoHits | src/main/java/au/edu/wehi/idsv/kraken/KrakenClassification.java:50-52 | the read-two entries are every token, empty or not, in order |
| Kraken.ParseKmerClassifications | src/main/java/au/edu/wehi/idsv/kraken/KrakenClassification.java:41-55 | read-one entries come before read-two entries, are never empty, and no entry holds a blank; a field made only of separators is an exception |
| Kraken.SecondLength | src/main/java/au/edu/wehi/idsv/kraken/KrakenClassification.java:31 | the second length is 0 when missing or empty; otherwise it is Integer.parseInt's value of that text, or its NumberFormatException on that text |
| Kraken.ParseSingleReadLine | src/main/java/au/edu/wehi/idsv/kraken/KrakenClassification.java:19-55 | a single-read line as Kraken 2 writes it parses back into its flag, id, taxon, length and hit tokens |
| Kraken.ParsePairedReadLine | src/main/java/au/edu/wehi/idsv/kraken/KrakenClassification.java:19-55 | a read-pair line parses back into its parts; the read-two list starts with an entry for the empty token after " \|:\| " |
| Kraken.EmptySecondLength | src/main/java/au/edu/wehi/idsv/kraken/KrakenClassification.java:29-31 | the lengths "98\|" give a second length of 0 |
| MateComparator.CompareInts | src/au/edu/wehi/socrates/util/SAMRecordMateCoordinateComparator.java:29-33 | compareInts is exactly -1, 0 or 1 for less, equal, greater |
| MateComparator.FileOrderCompare | src/au/edu/wehi/socrates/util/SAMRecordMateCoordinateComparator.java:38-52 | an unmapped mate sorts after every mapped one, and two unmapped mates tie; otherwise the sign follows mate reference, then mate start |
| MateComparator.FileOrderCompareReflexive | src/au/edu/wehi/socrates/util/SAMRecordMateCoordinateComparator.java:35-52 | fileOrderCompare(a, a) == 0 |
| MateComparator.FileOrderCompareAntisymmetric | src/au/edu/wehi/socrates/util/SAMRecordMateCoordinateComparator.java:35-52 | sign(fileOrderCompare(a, b)) == -sign(fileOrderCompare(b, a)) |
| MateComparator.FileOrderCompareTransitive | src/au/edu/wehi/socrates/util/SAMRecordMateCoordinateComparator.java:38-52 | fileOrderCompare is transitive |
| MateComparator.Compare | src/au/edu/wehi/socrates/util/SAMRecordMateCoordinateComparator.java:13-27 | compare is mate order when that is non-zero, then the inherited order; it is 0 exactly when all six comparisons tie |
| MateComparator.FirstNonZero | src/au/edu/wehi/socrates/util/SAMRecordMateCoordinateComparator.java:14-26 | the chain's result is the first non-zero comparison, and 0 only when all tie |
| MateComparator.CompareReflexive | src/au/edu/wehi/socrates/util/SAMRecordMateCoordinateComparator.java:13-27 | compare(a, a) == 0 when the inherited order agrees |
| MateComparator.CompareAntisymmetric | src/au/edu/wehi/socrates/util/SAMRecordMateCoordinateComparator.java:13-27 | compare changes sign when its arguments swap, when the inherited order does |
| MateComparator.CompareTransitive | src/au/edu/wehi/socrates/util/SAMRecordMateCoordinateComparator.java:13-27 | compare is transitive when the inherited order satisfies the Comparator contract |
| JavaText.Wrap32 | src/main/java/au/edu/wehi/idsv/debruijn/positional/PathNodeIterator.java:137 | Java int arithmetic: the result is in range, congruent modulo 2^32, and exact when no overflow happens |
| JavaText.ParseShowInt | src/au/edu/wehi/idsv/StructuralVariationCallBuilder.java:236 | Integer.parseInt reads back what StringBuilder.append(int) writes |
| JavaText.ParseInt | src/main/java/au/edu/wehi/idsv/kraken/KrakenClassification.java:27 | Integer.parseInt gives a value exactly when the text is an optional sign and at least one digit whose signed value fits 32 bits; the value is the sign times the digits' decimal value |
| JavaText.JoinSplitAll | src/main/java/au/edu/wehi/idsv/kraken/KrakenClassification.java:21 | splitting keeps every character: joining the pieces restores the text |
| JavaText.JavaSplitPrefix | src/main/java/au/edu/wehi/idsv/kraken/KrakenClassification.java:21 | String.split keeps a prefix of the pieces and drops only trailing empty ones |
| JavaText.JavaSplitJoin | src/main/java/au/edu/wehi/idsv/kraken/KrakenClassification.java:21 | String.split of a join whose last piece is non-empty gives the pieces back |
| JavaText.CompareStringsZero | src/au/edu/wehi/socrates/util/SAMRecordMateCoordinateComparator.java:19 | String.compareTo is 0 exactly on equal strings |
| JavaText.CompareStringsAntisymmetric | src/au/edu/wehi/socrates/util/SAMRecordMateCoordinateComparator.java:19 | String.compareTo negates when its arguments swap |
| JavaText.CompareStringsTransitive | src/au/edu/wehi/socrates/util/SAMRecordMateCoordinateComparator.java:19 | String.compareTo is transitive |

## Left out

- CallBuilder.MakeLlr: Java `double` arithmetic is modelled with exact reals, so rounding is not modelled. The Phred models are function parameters. phredScore's conversion of the total into QUAL is not part of this model; the call keeps the total it was given.
- IdsvSamFileMetrics and RealignedSAMRecordAssemblyEvidence are left out: the first is metrics-file I/O and floating point, the second a wrapper over classes that are not part of this model.
- KmerEncodingHelper, IntervalUtil, KmerNode, KmerPathNode and KrakenKmerClassification are not part of this model:
  - k-mer transitions are functions in `Config`;
  - node width is an abstract field;
  - a path node is its run of records plus edge sets;
  - hit tokens are kept as text;
  - a path node's end position is taken as its last record's end.
- PathNodes.MinIndex: PriorityQueue tie order is unspecified. The model polls the first of the equal-least records, so nothing is proved about tie order.
- PathStep.AddEdges: edges are sets, so adding an edge twice is not distinguishable from adding it once.
- PathIterator.EnsureBuffer: the input is a finite sequence and the iterator's remove() (UnsupportedOperationException) is not modelled.
- PathIterator.Process: the invariant confines positions to NodeBounded, so that horizons and the final flush never wrap around. The contract covers wrap-around only through Wrap32 and does not cover inputs near Integer.MIN_VALUE or MAX_VALUE.
- PathIterator.NextEmitsRun: it states the run's shape, the length bound and the index cleanup. It does not prove that a path node's edges are complete when emitted, which the source argues from the horizon.
- PathInvariant.MergeFacts: Java `assert`s are proved from the invariant `Valid`, not modelled as runtime failures. The invariant assumes mutually inverse, duplicate-free k-mer transitions, maxSupportWidth >= 0, maxPathLength >= 1, and input sorted by start.
- Aggregation.SumOrMax: Integer sums are unbounded, with no 32-bit wrap-around; the same holds for Aggregation.IntAttributeSumOrMax.
- MateComparator.FileOrderCompare: the reference and start subtractions are unbounded. They agree with Java as long as indices and positions are non-negative, as SAM requires.
- CallBuilder.AddEvidence: `BreakendSummary.overlaps` is a parameter, and a null list element is `None`.
- CallBuilder.MakeIdNamesParent: the ID is only decoded when no contig name contains ':'. The sequence dictionary is a function parameter, so a missing contig is not modelled.
- htsjdk VariantContext building is not modelled: attributes are a map from key to value. How getAttributeAsIntList, getAttributeAsStringList and getAttributeAsDouble read a value of another type is a guess, not htsjdk's code: a wrong-typed value reads as the empty list, or as the default for a double; an integer reads as that number for a double.
- JavaText.ParseInt: only the ASCII digits 0-9 are digits. Java's Character.digit also accepts other Unicode decimal digits, which the model rejects.
- JavaText.CompareStrings: characters compare by their Unicode scalar value. Java compares UTF-16 code units, so the two orders differ for characters beyond U+FFFF.
- Tests of StructuralVariationCallBuilderTest that target another builder version (per-subset evidence counts, summed SOFTCLIP_MAPPED) are not followed; the model follows the builder's code.
