# Verified models of the release, evidence and fixture tooling

Dafny models of the algorithms in the repository's `scripts/` and `tools/` directories, each with proofs of what
the scripts promise. Pure code is modelled by functions and lemmas. Loops are methods with invariants, proved equal to
a function or against a direct statement of the result. The two things that change in place, the object store of the
publishers and the release directory, are classes.

`dafny verify dfyconfig.toml` checks the whole project.

## Parts

| modules | source | subject |
|---|---|---|
| `SmapsMapping`, `SmapsParser` | `scripts/capture_process_memory.py` | identities of a mapping, and the parser against the text its result prints to |
| `SmapsSegments`, `SmapsDiff` | same | exact intervals, split and merge segments, class byte deltas of two address spaces |
| `SmapsReceipt` | same | sort-then-neighbour validation of a comparison receipt |
| `ProcessTree` | same | the breadth-first walk under budgets over a `/proc` that may answer differently on every read |
| `CaptureReceipt` | same | the shared byte budget of a capture, the ledger join, and the receipt over a walked tree |
| `LazyDemand`, `LazyDemandRuns`, `LazyDemandLaws` | `tools/gen_lazy_input_m1_fixtures.py` | the demand machine over hook rounds |
| `Publication`, `PublicationRuns`, `PublicationSafety`, `PublicationRecovery`, `PublicationProgram` | `scripts/publish_environment_channel.py`, `scripts/publish_tools_release.py` | two publishers over one object store, each of which may die between any two writes |
| `DecimalDifference`, `JsonData`, `ConfidenceReceipt` | `tools/comfy_confidence.py` | exact subtraction, the explicit-stack validator, the create and verify pair |
| `ToolsClosure` | `scripts/build_tools_release.py` | the dependency closure |
| `TaintFixpoint` | `tools/dump_comfy_nodes.py` | the name fixpoint |
| `GraphemeRanges` | `tools/gen_grapheme_tables.py` | range coalescing for the property values of section 3 of UAX #29 |
| `ReleaseFiles`, `ReleaseDirectory`, `ReleaseProgram`, `ReleaseLaws` | `scripts/build_release.py` | the self-consistent release directory and its extension |
| `FactoryRatchet` | `scripts/check_extension_factories.py` | the greedy match and the allowlist guard |
| `RealSums`, `SsimWindows`, `AttentionMetrics`, `AttentionLaws` | `scripts/compare_attention_quality.py` | the accumulated quality metrics |
| `Wrappers`, `Sorting`, `Integers`, `Numerals` | | what the scripts use of Python: results, `sorted`, integers and numerals |

## Idealisations

- Hashes: in the publication model a digest is the content it was taken from, so it is injective by construction and
  no manifest can list its own digest. In the confidence receipts the hash is any function, and the one law that needs
  it supposes that it has no collision. In the release directory a digest is any text of hexadecimal digits, and
  injectivity is not used.
- Floating-point numbers are exact reals. The square root of the cosine is any function that gives exact positive
  roots.
- `/proc` is an oracle with numbered reads. The walk is proved against every oracle, and completeness on a snapshot.
- The object store and the release directory are maps. A publisher's crash point is the number of writes that still
  succeed, so every statement about a run covers a stop between any two writes.
- Publishers run one after the other. The read of a channel and its later write are not one atomic step in the
  scripts, so nothing is said of interleaved publishers.
- Parsed values stand for JSON and TOML texts, classified lines for the regular expressions of the smaps parser, and
  reduced assignments for Python syntax trees. `Lexed` states what an expression guarantees of its groups.
- Python's `True` and `False` are the integers 1 and 0 in the allowlist, as they are to `isinstance(_, int)`.

## Where the code does less than it seems to promise

Each is proved with a concrete input or with the exact condition.

- A producer can be listed both as executed and as reused (`SharedProducerIsListedTwice`). Over a given list of inputs
  the two lists are disjoint for every hook exactly when no producer feeds one lazy link cold and another warm or
  incidentally (`ListsAreDisjointExactly`).
- A tools publication that dies after its first archive and before its manifest, in a new directory, can never be run
  again: the directory has no manifest, the collision check refuses it, and no later run of either publisher changes
  that (`InterruptedMirrorIsRefused`). Stopped anywhere else it can be run again and ends as one uninterrupted run
  (`InterruptedMirrorResumesExactly`). The engine publisher writes its manifest first and always resumes
  (`InterruptedRunResumes`).
- Extending a release by nothing changes its files exactly when the release is not in the form the script prints:
  unsorted or annotated rows, another JSON layout, or another order of checksum lines (`ExtendByNothing`; `UnsortedReleaseChanges` is such a
  release). After one extension it is in that form (`ExtendedIsStable`).
- `merge_ranges` can keep a reversed range (`ReversedRangeSurvives`). Its output is canonical exactly when every reversed
  range of the input is absorbed by another one: one that starts before it and reaches it, or, for a range that is
  reversed by one, one that starts with it and runs upwards (`CanonicalExactly`).
- A recorded observation may be a JSON integer for the validator, but never for the verification, which compares types
  (`WholeObservationIsRefused`).
- `parse_smaps` does not look for overlap, on which the segments of `diff_smaps` rely: its result is disjoint exactly
  when the header lines are (`ParsedIsDisjointExactly`). The validator of a recorded receipt does check it.
- For the decimals behind numeric JSON, the computed precision cannot be one digit smaller (`OneDigitFewerFails`).

## Model

| member | source | states |
|---|---|---|
| SmapsMapping.IntervalIdInjective | scripts/capture_process_memory.py:88-89 | an interval id determines both ends, whatever their signs |
| SmapsMapping.MappingIdInjective | scripts/capture_process_memory.py:92-100 | a mapping id determines the interval and all identity fields; the pathname may hold any character, also the separator |
| SmapsParser.AcceptedExactly | scripts/capture_process_memory.py:984-1031 | the check of recorded evidence passes a mapping at a non-negative address exactly when its header line parses to that very mapping, ids and class included, and no field has negative bytes |
| SmapsMapping.AcceptedIdentities | scripts/capture_process_memory.py:88-100 | two accepted mappings share an interval id exactly when they share both ends, and a mapping id exactly when they also share every identity field |
| SmapsParser.ParseSmaps | scripts/capture_process_memory.py:144-199 | succeeds exactly on well-formed texts within the limits; what it returns prints back to the kept lines, and every mapping passes the receipt's validator |
| SmapsParser.ParsedIsDisjointExactly | scripts/capture_process_memory.py:144-199 | parsed mappings are pairwise disjoint, as the segments need them, exactly when the intervals of the header lines are |
| SmapsSegments.ComputeSegments | scripts/capture_process_memory.py:389-413 | the loop over neighbouring boundaries gives the specified segments |
| SmapsSegments.SegmentsPartition | scripts/capture_process_memory.py:389-413 | on disjoint spaces segments are strictly ordered and disjoint, name the exact holder of each of their addresses on either side, and cover the union of both spaces and nothing else |
| SmapsSegments.SegmentsConserveLength | scripts/capture_process_memory.py:389-413 | the segments of a mapping add up to its size |
| SmapsDiff.FieldDeltas | scripts/capture_process_memory.py:319-335 | after minus before for exactly the names with a size on either side, in ascending order |
| SmapsDiff.DiffIntervals | scripts/capture_process_memory.py:367-388 | one row for each interval id of either side, in ascending order, with the right state, summaries and deltas |
| SmapsDiff.ReusedMeansChangedIdentity | scripts/capture_process_memory.py:375-381 | an interval is reused exactly when some identity field changed and stable exactly when none did |
| SmapsDiff.ClassTotals | scripts/capture_process_memory.py:350-364 | per class and name the exact sum of recorded bytes, present exactly when some mapping records it |
| SmapsDiff.ClassDeltas | scripts/capture_process_memory.py:414-424 | one row per class of either side, one entry per recorded name, each the difference of the two totals |
| SmapsDiff.ClassDeltasConserve | scripts/capture_process_memory.py:414-424 | summed over the classes, the deltas of a field are its total bytes after minus before |
| SmapsDiff.DiffSmaps | scripts/capture_process_memory.py:367-424 | intervals, segments and class deltas are exact together on two disjoint spaces |
| SmapsReceipt.SortPairwise | scripts/capture_process_memory.py:1084-1086 | sorting does not change whether mappings are pairwise apart |
| SmapsReceipt.CheckSorted | scripts/capture_process_memory.py:1087-1099 | comparing sorted neighbours with duplicate checks accepts exactly pairwise-apart mappings within the field limit |
| SmapsReceipt.ValidateMappings | scripts/capture_process_memory.py:1081-1099 | accepts one process's mappings exactly when each is well formed, they are pairwise disjoint and the field limit holds |
| SmapsReceipt.ValidateProcess | scripts/capture_process_memory.py:1066-1103 | accepts one process exactly when it is sound and the running totals stay within the limits |
| SmapsReceipt.ValidateProcesses | scripts/capture_process_memory.py:1047-1103 | accepts exactly the receipts with distinct positive pids, sound address spaces and totals within the limits |
| ProcessTree.ReadTokens | scripts/capture_process_memory.py:743-749 | fails exactly when some token is no positive integer |
| ProcessTree.ReadChildren | scripts/capture_process_memory.py:730-750 | keeps the byte budget against any `/proc`; on a snapshot it reads all children, or the budget is really exceeded |
| ProcessTree.Enqueue | scripts/capture_process_memory.py:751-760 | against any `/proc`: every child that was not queued is asked once, in order; it is appended with its parent and the start time that was read, or noted when the read fails |
| ProcessTree.VisitProcess | scripts/capture_process_memory.py:722-750 | what one visit yields or why it stops, with the budgets for tasks and bytes kept |
| ProcessTree.AdvanceIsCalm | scripts/capture_process_memory.py:707-760 | one turn of the walk keeps depths, levels and paths right on a snapshot |
| ProcessTree.ExhaustedIsComplete | scripts/capture_process_memory.py:707-761 | when the queue is empty, exactly the reachable processes were found, each at its distance |
| ProcessTree.DiscoverProcessTree | scripts/capture_process_memory.py:697-761 | terminates against any `/proc` with at most 256 distinct pids, each after its recorded parent, whose children read named it, and never meets a pid it has seen; on a snapshot it finds exactly the reachable pids, each at its distance and under a parent that lists it one step closer to the root, or a limit is really exceeded |
| CaptureReceipt.CaptureAll | scripts/capture_process_memory.py:789-805 | every process is read within what the ones before it left; the total never exceeds 16 MiB |
| CaptureReceipt.BudgetIsKept | scripts/capture_process_memory.py:631-637 | the raw texts of a receipt total at most 16 MiB, whatever `/proc` answers |
| CaptureReceipt.AllCapturedExactly | scripts/capture_process_memory.py:631-637 | of processes with sound answers all are captured exactly when their texts fit the budget together and each rollup fits its own limit |
| CaptureReceipt.JoinLedger | scripts/capture_process_memory.py:845-865 | the loop over ledger rows gives the specified join |
| CaptureReceipt.JoinIsCleanExactly | scripts/capture_process_memory.py:845-865 | the join reports nothing exactly when all rows are well formed and each row of the phase has its own captured process |
| CaptureReceipt.CheckCgroup | scripts/capture_process_memory.py:809-843 | no error exactly when the root was captured, all captured processes share its cgroup and that cgroup read stable |
| CaptureReceipt.CaptureReceipt | scripts/capture_process_memory.py:764-901 | valid exactly when the walk, the captures, the cgroup and the ledger are complete; the byte total is kept |
| CaptureReceipt.CaptureDescendants | scripts/capture_process_memory.py:764-901 | the walk and then the captures: against any `/proc` at most 256 records, ascending strictly by pid; on a snapshot a valid receipt holds exactly the processes below the root, each proven and with its true start time |
| CaptureReceipt.ValidReceiptJoinsEveryRank | scripts/capture_process_memory.py:845-887 | in a valid receipt every ranked pid was captured with conserved totals and exactly one ledger row of the phase, which is the one attached |
| LazyDemand.VisibleInputs | tools/gen_lazy_input_m1_fixtures.py:313-326 | the loop over the inputs gives the specified view |
| LazyDemand.SettleProducers | tools/gen_lazy_input_m1_fixtures.py:423-441 | the loop over the newly demanded inputs gives the specified state |
| LazyDemand.RunRound | tools/gen_lazy_input_m1_fixtures.py:385-443 | one hook round gives the specified state |
| LazyDemand.RunOracle | tools/gen_lazy_input_m1_fixtures.py:350-454 | the program computes the oracle function |
| LazyDemandRuns.VisibleShows | tools/gen_lazy_input_m1_fixtures.py:313-326 | a view shows every bound input and hides exactly the values of undemanded lazy links |
| LazyDemandRuns.SelectSelects | tools/gen_lazy_input_m1_fixtures.py:329-347 | a selection holds exactly the wanted declared ids, once each, in declaration order |
| LazyDemandRuns.AfterKeeps | tools/gen_lazy_input_m1_fixtures.py:385-443 | after any number of rounds the demand is the disjoint union of the rounds' new inputs, only lazy links are demanded, and each view is the view of the demand before it |
| LazyDemandRuns.AfterUses | tools/gen_lazy_input_m1_fixtures.py:423-441 | executed and reused producers are distinct and feed demanded inputs; in an unfinished run they are all of them |
| LazyDemandRuns.HookRoundsAreBounded | tools/gen_lazy_input_m1_fixtures.py:385-443 | at most one more hook round than there are lazy links |
| LazyDemandRuns.EveryRunIsLawful | tools/gen_lazy_input_m1_fixtures.py:350-454 | every answer: demanded inputs in declaration order, only lazy links, disjoint new inputs, exact views, waiting rounds within the number of lazy links, producers listed once and only for demanded inputs |
| LazyDemandRuns.RefusedRunStopsShort | tools/gen_lazy_input_m1_fixtures.py:385-443 | a run that ends in a failed hook or a refused request demanded, executed and replayed exactly what the run without that round and the later ones does, and showed one more view |
| LazyDemandRuns.ProducerInBothLists | tools/gen_lazy_input_m1_fixtures.py:423-441 | in a run that executes a producer is in both lists exactly when it feeds a cold and a cached demanded input |
| LazyDemandRuns.ListsAreDisjointExactly | tools/gen_lazy_input_m1_fixtures.py:350-454 | for given inputs with distinct ids: in every run, finished, failed or cancelled, executed and reused producers are disjoint, if and only if no producer feeds one lazy link cold and another warm or incidentally |
| LazyDemandRuns.SharedProducerIsListedTwice | tools/gen_lazy_input_m1_fixtures.py:423-441 | a concrete case with one producer in both lists |
| LazyDemandLaws.ScheduleIsInvisible | tools/gen_lazy_input_m1_fixtures.py:350-454 | cases that differ in schedule, cache and cold, warm or incidental states have equal outcome, errors, views, events and demand, and the same set of producers put to use |
| LazyDemandLaws.NormalizeIgnoresOrder | tools/gen_lazy_input_m1_fixtures.py:329-347 | a request is accepted and normalized alike in any order and with repetitions |
| LazyDemandLaws.RequestOrderIsInvisible | tools/gen_lazy_input_m1_fixtures.py:350-454 | reordering the items of requests changes nothing in an answer but possibly which refusal is named |
| PublicationProgram.ObjectStore.constructor | scripts/publish_environment_channel.py:34-48 | a store with some writes left |
| PublicationProgram.ObjectStore.Upload | scripts/publish_environment_channel.py:124-166 | one write: it happens whole, or the process is dead and nothing is written |
| PublicationProgram.Inventory | scripts/publish_environment_channel.py:51-75 | the identity of exactly the directories with a manifest, or refusal when one is invalid or misplaced |
| PublicationProgram.CheckCollision | scripts/publish_environment_channel.py:78-92 | passes exactly when every directory with the same short digest is identified by a manifest of this identity |
| PublicationProgram.WriteIndex | scripts/publish_environment_channel.py:95-121 | one index row for exactly the complete directories |
| PublicationProgram.UploadRows | scripts/publish_environment_channel.py:232-241 | writes the missing keys in row order and overwrites nothing |
| PublicationProgram.ReadBack | scripts/publish_environment_channel.py:242-249 | passes exactly when every row was stored with its size and digest |
| PublicationProgram.RunEnginePublisher | scripts/publish_environment_channel.py:232-322 | the program ends in the specified store and status for every crash point |
| PublicationProgram.UploadFiles | scripts/publish_tools_release.py:129-137 | writes every file in order, also over an earlier copy |
| PublicationProgram.RunToolsPublisher | scripts/publish_tools_release.py:129-188 | the program ends in the specified store and status for every crash point |
| PublicationRuns.UploadFills | scripts/publish_environment_channel.py:232-241 | what a possibly interrupted upload leaves: the first rows are filled and nothing else changed |
| PublicationRuns.PartialDirectoryIsRecognised | scripts/publish_environment_channel.py:78-92 | a directory left by an interrupted upload of the same release is no collision, because the manifest is its first row |
| PublicationRuns.InterruptedRunResumes | scripts/publish_environment_channel.py:232-322 | an engine publication that died anywhere and is run again ends exactly as one uninterrupted run |
| PublicationSafety.EngineRunIsSafe | scripts/publish_environment_channel.py:232-322 | an engine run keeps the main channel sound, leaves its tools part alone, moves the engine only forward and changes no stored object |
| PublicationSafety.ToolsRunIsSafe | scripts/publish_tools_release.py:129-188 | a tools run keeps the main channel sound, leaves its engine part alone, moves the tools only forward and changes no engine object |
| PublicationSafety.HistoryIsSound | scripts/publish_environment_channel.py:232-322 | over every serialised history with crashes the main channel only names publications that are stored and verified |
| PublicationSafety.HistoryProgresses | scripts/publish_environment_channel.py:263-319 | between any two points of a history each commit stays or moves to a strict descendant, and no engine object is changed or lost |
| PublicationSafety.ListedStaysListed | scripts/publish_environment_channel.py:95-121 | an engine directory complete enough to be listed stays listed with the same row |
| PublicationRecovery.RunKeepsStuck | scripts/publish_tools_release.py:129-188 | a directory with objects and no manifest keeps none through every run of either publisher |
| PublicationRecovery.InterruptedMirrorIsRefused | scripts/publish_tools_release.py:129-137 | a tools run that stopped among the archives of a new directory is refused when run again after any later history of both publishers |
| PublicationRecovery.InterruptedMirrorResumesExactly | scripts/publish_tools_release.py:129-188 | a tools run that died ends, when run again, exactly as one uninterrupted run if and only if it did not stop among the archives of a new directory |
| DecimalDifference.PrecisionSuffices | tools/comfy_confidence.py:610-626 | the exact difference is a multiple of ten to the minimum exponent with at most the computed number of digits, so nothing is rounded |
| DecimalDifference.DifferenceIsExact | tools/comfy_confidence.py:610-626 | the inexact trap never fires, and what is returned is the exact distance |
| DecimalDifference.OneDigitFewerFails | tools/comfy_confidence.py:610-626 | for every digit count there are operands for which one digit fewer would lose something |
| DecimalDifference.DifferenceIsSymmetric | tools/comfy_confidence.py:610-626 | the operands can be swapped |
| JsonData.ValidateJson | tools/comfy_confidence.py:138-166 | the explicit-stack loop terminates and accepts exactly the trees with allowed nodes, depth at most 32 and size within the item limit |
| JsonData.ExactReflexive | tools/comfy_confidence.py:590-603 | every proper value equals itself |
| JsonData.ExactSymmetric | tools/comfy_confidence.py:590-603 | the comparison is symmetric although it looks keys up one way only |
| JsonData.ExactTransitive | tools/comfy_confidence.py:590-603 | the comparison is transitive, decimals compared by value included |
| ConfidenceReceipt.ValidateComparison | tools/comfy_confidence.py:237-280 | accepts exactly the comparisons whose tier, comparator and tolerances belong together |
| ConfidenceReceipt.CheckTolerances | tools/comfy_confidence.py:339-343 | passes exactly when every metric is within its threshold |
| ConfidenceReceipt.ComparisonIsRecorded | tools/comfy_confidence.py:298-343 | whatever a comparison observes is valid as observations, and its verdict is the recomputed one |
| ConfidenceReceipt.ComparisonFailsOnArtifactsOnly | tools/comfy_confidence.py:629-703 | a comparison fails exactly when an artifact is unreadable, not floating, or its distance is no float |
| ConfidenceReceipt.MetricsAreCoherent | tools/comfy_confidence.py:679-703 | mean error lies between zero and maximum, the mismatch is a fraction, and all are zero exactly for equal arrays |
| ConfidenceReceipt.ValidateReceipt | tools/comfy_confidence.py:346-383 | accepts exactly the valid receipts |
| ConfidenceReceipt.CreateReceipt | tools/comfy_confidence.py:706-739 | for its arguments it returns the one receipt that carries the descriptors and observations of the artifacts as they are, whenever that receipt is valid, and nothing else |
| ConfidenceReceipt.VerifyReceipt | tools/comfy_confidence.py:742-763 | accepts exactly the receipts that creation would return over the present artifacts |
| ConfidenceReceipt.ReceiptPinsArtifacts | tools/comfy_confidence.py:742-763 | for a hash without collisions: a receipt accepted over one file tree is accepted over another exactly when both artifacts have the same bytes there, in two files |
| ConfidenceReceipt.WholeObservationIsRefused | tools/comfy_confidence.py:742-763 | a receipt with an observation written as an integer is never accepted, and creation returns none |
| ToolsClosure.ClosureNames | scripts/build_tools_release.py:38-67 | the worklist terminates on cyclic locks and visits exactly the names reachable from the supervisor, in any pop order |
| ToolsClosure.Selected | scripts/build_tools_release.py:38-69 | exactly the packages of the lock whose names are in the closure, in the order of the parameter |
| ToolsClosure.SameClosure | scripts/build_tools_release.py:38-67 | locks that agree on the first one's closure have the same closure |
| ToolsClosure.SelectionSeesTheClosure | scripts/build_tools_release.py:38-69 | two selections are equal exactly when the locks agree on every package of the closure |
| ToolsClosure.InputsChanged | scripts/build_tools_release.py:19-69 | tools are rebuilt exactly when a direct input changed or the lock was touched and differs inside the old closure |
| TaintFixpoint.ListedNames | tools/dump_comfy_nodes.py:104-116 | the passes stop with exactly the names a listing reaches, after at most one more pass than there are target names |
| TaintFixpoint.DirectoryFileInputs | tools/dump_comfy_nodes.py:86-129 | the reported keys are exactly those whose choices carry a listing |
| TaintFixpoint.OrderDoesNotMatter | tools/dump_comfy_nodes.py:104-116 | derivations do not depend on the order or repetition of assignments |
| TaintFixpoint.DerivedIsLeastClosed | tools/dump_comfy_nodes.py:104-116 | the derived names are the least set closed under the assignment rule |
| GraphemeRanges.MergeRanges | tools/gen_grapheme_tables.py:73-80 | the result has gaps, denotes the same code points, and is canonical exactly when every reversed range of the input is absorbed |
| GraphemeRanges.CanonicalExactly | tools/gen_grapheme_tables.py:73-80 | the same condition, said of the specified list |
| GraphemeRanges.CanonicalIsUnique | tools/gen_grapheme_tables.py:73-80 | a set of code points has one canonical list |
| GraphemeRanges.MergeDecidesEquality | tools/gen_grapheme_tables.py:73-80 | two inputs whose reversed ranges are absorbed give equal tables exactly when they denote the same set |
| GraphemeRanges.ReversedRangeSurvives | tools/gen_grapheme_tables.py:73-80 | a reversed range denotes nothing and stays in the table |
| GraphemeRanges.RemoveSurrogates | tools/gen_grapheme_tables.py:83-93 | denotes set difference with D800 to DFFF |
| GraphemeRanges.CoverCategory | tools/gen_grapheme_tables.py:133-141 | walks a table until the first code point covered before |
| GraphemeRanges.CheckDisjoint | tools/gen_grapheme_tables.py:133-141 | stops exactly when two different categories share a code point, and names such a point |
| ReleaseFiles.PrintedSumsReadBack | scripts/build_release.py:542-545 | the checksum text splits and reads back to the lines that were printed |
| ReleaseFiles.SumsMatchExactly | scripts/build_release.py:565-569 | comparing length and dictionary accepts exactly the lists that hold each expected line once and no other, in any order |
| ReleaseFiles.CompatibleOfPermutation | scripts/build_release.py:515-528 | whether names can stand side by side does not depend on their order |
| ReleaseDirectory.RowsErrorExactly | scripts/build_release.py:554-564 | the row loop passes exactly when names are well formed, apart when case is ignored and not reserved, and every file has its size and digest |
| ReleaseDirectory.StageErrorExactly | scripts/build_release.py:515-527 | candidates are accepted exactly when their names fit beside the taken ones and none is a wheel |
| ReleaseDirectory.SumsAgreeExactly | scripts/build_release.py:565-569 | the checksum comparison, said of the lines |
| ReleaseDirectory.ExtendSucceedsExactly | scripts/build_release.py:548-574 | extension goes through exactly on self-consistent releases with payloads that fit |
| ReleaseProgram.Release.constructor | scripts/build_release.py:550-551 | a release directory with its files |
| ReleaseProgram.Release.StagePayloads | scripts/build_release.py:514-532 | a rejected list changes nothing; an accepted one is copied and the artifact list is sorted |
| ReleaseProgram.Release.WriteManifest | scripts/build_release.py:535-545 | writes the described manifest, then the checksums that include it |
| ReleaseProgram.Release.CheckRows | scripts/build_release.py:554-564 | stops at the first bad row with its reason |
| ReleaseProgram.Release.Extend | scripts/build_release.py:548-574 | fails with the specified reason and untouched files, or leaves the specified directory |
| ReleaseLaws.WrittenIsConsistent | scripts/build_release.py:535-545 | writing the two lists makes a directory self-consistent, whatever they held before |
| ReleaseLaws.ExtendKeepsConsistency | scripts/build_release.py:548-574 | a self-consistent release is extended to a self-consistent release |
| ReleaseLaws.ExtendListsExactly | scripts/build_release.py:514-545 | the new manifest lists the old artifacts and the candidates, sorted, and keeps its other keys |
| ReleaseLaws.ExtendKeepsBytes | scripts/build_release.py:529-532 | original artifacts keep their bytes, candidates are stored with theirs, no other file appears |
| ReleaseLaws.ExtendByNothing | scripts/build_release.py:548-574 | extending by nothing leaves every file alone exactly when the release is canonical |
| ReleaseLaws.UnsortedReleaseChanges | scripts/build_release.py:548-574 | a self-consistent release that the call changes |
| ReleaseLaws.StagedIsCanonical | scripts/build_release.py:514-545 | what a build or an extension writes is canonical |
| ReleaseLaws.ExtendedIsStable | scripts/build_release.py:548-574 | an extended release is left alone by extending it by nothing |
| ReleaseLaws.ExtendInTurn | scripts/build_release.py:548-574 | extending by two lists in turn is accepted with, and gives the same directory as, extending by both at once |
| FactoryRatchet.AttachOwningIssues | scripts/check_extension_factories.py:160-180 | the two loops give the specified owned and unowned sites |
| FactoryRatchet.OwnsAsManyAsOffered | scripts/check_extension_factories.py:160-180 | per site, min(scanned, validly allowed) occurrences are owned, with the first offered issues in order and each once |
| FactoryRatchet.NothingUnownedExactlyWhenOffered | scripts/check_extension_factories.py:237-250 | nothing is reported exactly when every site has at least as many issues as occurrences |
| FactoryRatchet.ListMatchesItself | scripts/check_extension_factories.py:160-180 | matching the scanned sites with their own list gives the list back |
| FactoryRatchet.RunGuard | scripts/check_extension_factories.py:202-301 | exit code and file afterwards are the specified ones |
| FactoryRatchet.PlainRunPassesExactly | scripts/check_extension_factories.py:273-301 | a plain run passes exactly when the file lists the scanned sites and nothing else and every ceiling lies between count and count plus slack |
| FactoryRatchet.NoCeilingRises | scripts/check_extension_factories.py:251-271 | a refused or plain run leaves the file alone, and a write raises no ceiling |
| FactoryRatchet.WhatIsWritten | scripts/check_extension_factories.py:265-270 | a write leaves the scanned sites and each ceiling at its count |
| FactoryRatchet.WriteThenCheckPasses | scripts/check_extension_factories.py:251-281 | after a write an unchanged tree passes the plain run against the same baseline |
| FactoryRatchet.WriteIsIdempotent | scripts/check_extension_factories.py:251-271 | writing again over an unchanged tree writes the same file |
| FactoryRatchet.CeilingsOnlyFall | scripts/check_extension_factories.py:183-301 | over any history of runs on any trees every ceiling only falls |
| RealSums.CauchySchwarz | scripts/compare_attention_quality.py:308-313 | the square of the dot product is at most the product of the sums of squares |
| SsimWindows.WindowValueBounds | scripts/compare_attention_quality.py:327-339 | a window's value lies in [-1, 1] and is 1 exactly on equal windows |
| SsimWindows.WindowsCover | scripts/compare_attention_quality.py:325-326 | every element of a frame lies in a compared window |
| SsimWindows.ValuesOfEqual | scripts/compare_attention_quality.py:316-340 | every value of a frame lies in [-1, 1], and all are 1 exactly on equal frames |
| AttentionMetrics.Accumulate | scripts/compare_attention_quality.py:355-375 | the frame loop stops at the first bad frame or its totals are those of the whole arrays |
| AttentionMetrics.ArrayMetrics | scripts/compare_attention_quality.py:343-386 | fails with the specified error or reports the metrics of the arrays as wholes |
| AttentionMetrics.SsimIsCounted | scripts/compare_attention_quality.py:340-340 | sixty-four elements stand behind each value |
| AttentionLaws.CosineBounds | scripts/compare_attention_quality.py:308-313 | the cosine lies in [-1, 1] |
| AttentionLaws.CosineIsOneExactly | scripts/compare_attention_quality.py:308-313 | for arrays that are not all zero the cosine is 1 exactly when one is a positive multiple of the other |
| AttentionLaws.EqualArraysHaveCosineOne | scripts/compare_attention_quality.py:308-313 | equal arrays have cosine 1, all zeros or not |
| AttentionLaws.MetricsAreSound | scripts/compare_attention_quality.py:343-386 | every report: cosine and SSIM in [-1, 1], mean error at most maximum, maximum within the ranges, error 0 and SSIM 1 exactly for equal arrays |

## Left out

- Subprocesses, git, HTTP, S3, archives and file reads: inputs or store steps stand for them. The retries of `upload` and `acquire` are not modelled; one write either happens or the process dies.
- `dinkster_supervisor`, `dinkster_registry`, `dinkster_workers`, `dinkster_schema` and `dinkster_engine` are not part of this model. `validate_manifest` is the predicate `admits`, and the write of the channel is one store write.
- Interleaved publishers: runs are serialised.
- Text formats: JSON and TOML texts, the regular expressions, SHA-256 and BLAKE3. A `children` file is its length and tokens.
- Floating-point rounding, NumPy memory layout, the exponent range of decimal contexts and the computation of square roots.
- Mapping fields the scripts do not read, and entries of `smaps` beyond interval, identity and sized fields.
- Reading a candidate payload can fail while payloads are copied; candidates are readable here, so a half-copied directory is not covered.
- Case-insensitive file systems: the directory distinguishes names by case, as the checks of the script do beyond `casefold`. `casefold` is modelled on the ASCII names that the name pattern admits.
- The agreement of `_exact_json` with Python's equality.
- The scan of the source tree in `check_extension_factories.py` and the git lookup of the baseline: the scanned sites and the baseline file are inputs.
- The canonical JSON by which `build_tools_release.py` sorts packages: the order is a parameter.
- The golden generators that only run other software, the registry builders that are data, `tools/compare_nodes.py`, argument parsing and printing.
- GraphemeRanges.MergeDecidesEquality: inputs with a reversed range that nothing absorbs are not covered, because the code keeps such a range and the table is then not canonical (`GraphemeRanges.CanonicalExactly`).
- CaptureReceipt.CheckCgroup: the cgroup files are not modelled; one reading with its stability is an input.
- CaptureReceipt.CaptureReceipt: the cgroup reading is an input here too; the walk is joined to it by `CaptureReceipt.CaptureDescendants`.
- PublicationProgram.WriteIndex: an index is its set of rows, without their order and without the label, version and build-date columns.
- LazyDemandLaws.RequestOrderIsInvisible: the named refusal may change with the order, because the code reports the first refused item.
- LazyDemandRuns.EveryRunIsLawful: distinct input ids are supposed, as the fixtures have them; with repeated ids the last declaration wins.
- AttentionMetrics.ArrayMetrics: exact reals, so rounding of the accumulated sums is not captured.
