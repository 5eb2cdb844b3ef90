# A verified model of the plan pipeline

The repository optimizes physical query plans.  A plan is flattened into a
graph of nodes with ids, a language model proposes JSON patches for that graph,
patched plans are validated and measured, the good ones seed the next round,
and an optimized plan is finally transferred to another scale factor of the
same data.  This project models that pipeline in Dafny and proves what the
parts promise each other.

* `Json`, `Decimal`, `JsonPatch`, `JsonPatchSpec`, `JsonPatchItems`,
  `JsonPatchLaws`: documents with ordered members, the pointer and patch engine
  of `plan_scaler.py`, an independent semantics on unordered values (RFC 6901,
  RFC 6902), the proof that the engine computes it, what it does at list elements
  and object members in terms of the printed pointer, and the laws of patches.
* `Graphs`, `Traversal`, `CycleCheck`: finite graphs, the post-order walk, and
  the white/gray/black cycle check.
* `PlanCodec`, `PlanCodecOutput`, `PlanCodecRoundTrip`: flattening a plan tree
  with shared subplans, what the flattened document holds, parsing and rebuilding
  it.
* `PlanStructure`, `PlanReferences`, `PlanOrder`, `ScanMatching`,
  `ScanSignatures`, `ScanPairing`, `ScanRebinding`, `ScanBindings`, `Renumbering`,
  `FreshIds`, `PlanRewrite`, `PlanMeaning`, `PlanTransfer*`: the transfer to
  another scale factor.  The meaning of a node is its operator tree unfolded to
  any depth, with scans known by signature.
* `SampleTree`, `BaseSelection`, `SampleEvaluation`, `WorkPool`, `SampleRuns`,
  `Evolution`, `Ranking`, `ResumeReplay`, `ResumeLoss`, `ResumeSchedule`, `ResumeRisk`,
  `ResumeProvenance`, `ResumeWitness`, `ResumeMisattribution`: the evolutionary
  search.  A measurement carries
  the patch list it was taken on, so that "what was measured" can be stated.
* `ResultComparison`, `StartGate`, `GenerateOnce`: the comparison of result
  sets in arrival order, the start gate, and the generate-once protocol.
* `Quotas`, `QueryValidation`, `GenerationLoop`: apportionment and the query
  generation loop.
* `Sorting`, `StableSorting`, `Basics`: sorted lists of integers, stable
  sorting by a key, result types.

Code that updates state step by step is a method or a class whose contract
equates the new state with a specification function; the theorems are lemmas
about these functions.  Everything outside (model responses, outcomes of
evaluations, completion orders, clock readings, random choices, crash points)
is an arbitrary parameter or an arbitrary choice, so each theorem holds for all
of them.

## Results that are not what one might expect

* Transfer rewrites nothing below a non-integer `input`, `left` or `right`,
  although the validators look there (`PlanRewrite.HiddenReferenceIsMissed`,
  with the exact condition in `PlanRewrite.RewriteIsRenameIff`).
* A reference that is dangling at the source is accepted when its id happens to
  be a target scan id, or a fresh id that the transfer gives to a node whose id
  collides with a target scan id
  (`PlanTransferMeaning.DanglingReferenceIsCaptured`); in the second case the
  captured reference can close a cycle in the transferred plan
  (`PlanTransferMeaning.CapturedByNewNode`).  The exact condition, on the plan
  and the two tables, is in `PlanTransferMeaning.PlainTransferSucceedsIff`; the
  documentation promises an error for unresolvable references.
* An operator that lists its inputs loses them in the codec when it has one or
  two (`PlanCodecRoundTrip.TwoInputUnionIsLost`); the round trip holds exactly
  for the plans without such a node.
* Removing and re-adding an object member restores the document as a JSON value
  but not its member order (`JsonPatchLaws.RemoveThenAddMovesKeyToTheEnd`, with
  the exact condition in `JsonPatchLaws.RemoveThenAddKeepsOrder`); `add`
  followed by `remove` restores the document exactly on a free place.
* `move` into the value's own child is not rejected, against section 4.4 of
  RFC 6902.  It succeeds exactly for a list element whose successor accepts the
  value, which then ends up inside that successor
  (`JsonPatchLaws.MoveIntoOwnChildIs`).
* `best_1` treats a metric of exactly 0 as missing
  (`BaseSelection.BestIsLeastIff`).
* A crash between the evaluated file of a step and its accumulation loses the
  step, and so does asking for fewer steps and then for more again; exactly when
  is in `ResumeLoss.RunIsConsistentIff`, `ResumeLoss.ShrunkIsConsistentIff` and
  `ResumeLoss.RunsAreReplayableIff`, and for any sequence of resumed runs in
  `ResumeSchedule.StateIsFoldIff`.
* A measurement can end up attached to patches that it was not taken on.  A later
  rebuild can do that, after a crash
  (`ResumeMisattribution.LostStepMisattributes`) or without one
  (`ResumeMisattribution.ShrinkingMisattributes`); so can a resumed run that
  evaluates the sampled file of an earlier run, which outlives the steps it was
  sampled from (`ResumeMisattribution.ReusedFileMisattributes`).  Such a file can
  even leave a node that is its own parent, where the walk over the ancestors does
  not end (`ResumeMisattribution.ReusedFileIsItsOwnParent`).  The step counts and
  crash points alone tell when: exactly if, after some run, the state holds a step
  that was sampled from a state that is not how this one began
  (`ResumeMisattribution.RunsAreSafeIff`).
* The verdict on a candidate is independent of the arrival order exactly for
  comparisons that exchange (`ResultComparison.OrderIndependentIff`); symmetric
  and transitive ones do.
* A visible data folder can hold some of the files only, when generation returns
  with some of them, as the conversion of the JOB data does for missing tables
  (`GenerateOnce.PartialFolderIsVisible`); it is complete in all runs exactly if
  generation never does (`GenerateOnce.FolderIsCompleteIff`).
* Without POSIX locks a process can generate all data and still throw
  (`GenerateOnce.UnlockedProcessCanThrow`); generated data always finds its
  place free exactly if there are locks, or nothing is generated
  (`GenerateOnce.GenerationIsNeverWastedIff`).
* A generation step asks for what remains exactly when the oversampling cap is
  at least 1 or a single query remains
  (`GenerationLoop.RequestCoversRemainingIff`).
* A saved query of a complexity outside the distribution counts towards the early
  return, which then leaves targets unmet
  (`GenerationLoop.StrangerCompletesTooEarly`, with the exact condition in
  `GenerationLoop.SavedMeetTargetIff` and the contract of
  `GenerationLoop.ResumeAndRun`).

## Model

| member | source | states |
|---|---|---|
| Json.SameJsonIff | src/sampling/plan_scaler.py:10-11 | two documents have the same value, as which patches, signatures and meanings are compared, if and only if they are equal up to the order of members |
| JsonPatch.PointerGet | src/sampling/plan_scaler.py:54-74 | the walking loop reads the value that the tokens of the pointer select, or reports the first step that fails |
| JsonPatch.ApplyJsonPatch | src/sampling/plan_scaler.py:146-185 | the loop over operations applies them left to right and stops at the first error |
| JsonPatchSpec.ApplyRefines | src/sampling/plan_scaler.py:77-185 | the engine on ordered documents computes the reference semantics on JSON values, errors included, and keeps member names distinct |
| JsonPatchItems.SplitFailsIff | src/sampling/plan_scaler.py:18-23 | a pointer is refused exactly when it is neither empty nor starts with a slash |
| JsonPatchItems.GetItem | src/sampling/plan_scaler.py:54-74 | below any path, every element of a list is read under its printed index, from 0 on, and no other index reads anything |
| JsonPatchItems.AddItem | src/sampling/plan_scaler.py:77-97 | `add` at a printed index inserts before that element, up to one past the end, and fails beyond |
| JsonPatchItems.RemoveItem | src/sampling/plan_scaler.py:100-120 | `remove` at a printed index takes out that element, and fails exactly where there is none |
| JsonPatchItems.ReplaceItem | src/sampling/plan_scaler.py:123-143 | `replace` at a printed index overwrites that element, and fails exactly where there is none |
| JsonPatchItems.AppendItem | src/sampling/plan_scaler.py:77-97 | `add` at `-` appends; `get`, `remove` and `replace` find nothing there |
| JsonPatchItems.NoItem | src/sampling/plan_scaler.py:64-72 | a token that is empty or holds anything but digits names no element of a list |
| JsonPatchItems.LeadingZeroItem | src/sampling/plan_scaler.py:64-72 | leading zeros in an index do not matter |
| JsonPatchItems.EditMember | src/sampling/plan_scaler.py:54-143 | at an object member `add` sets it, and the others need it to be there |
| JsonPatchItems.ReplaceThenGet | src/sampling/plan_scaler.py:123-143 | what `replace` puts at a path that exists is read there |
| JsonPatchItems.OperationsByName | src/sampling/plan_scaler.py:146-185 | what the six operations do, by the names they are written with |
| JsonPatchItems.TestOperation | src/sampling/plan_scaler.py:178-183 | `test` leaves the document as it is and succeeds exactly when the values are equal, numbers and Booleans by their numeric value |
| JsonPatchLaws.SplitInvertsPrint | src/sampling/plan_scaler.py:14-23 | splitting a pointer inverts escaped printing for every list of tokens |
| JsonPatchLaws.RemoveThenAdd | src/sampling/plan_scaler.py:77-120 | adding the removed value back at the same path restores the document |
| JsonPatchLaws.EngineRemoveThenAdd | src/sampling/plan_scaler.py:77-120 | the same for the engine, up to member order |
| JsonPatchLaws.RemoveThenAddKeepsOrder | src/sampling/plan_scaler.py:77-120 | the member order is restored as well if and only if the path does not end at a member with others after it |
| JsonPatchLaws.AddThenRemove | src/sampling/plan_scaler.py:77-120 | removing what was just added restores the document if and only if the place was free |
| JsonPatchLaws.ReplaceIsRemoveAdd | src/sampling/plan_scaler.py:123-143 | `replace` is `remove` then `add`, errors included (section 4.3 of RFC 6902) |
| JsonPatchLaws.DeleteIffLookup | src/sampling/plan_scaler.py:54-120 | `remove` succeeds exactly on the paths that `get` reads |
| JsonPatchLaws.MoveAndBack | src/sampling/plan_scaler.py:166-171 | moving a value to a free place and back restores the document |
| JsonPatchLaws.MoveIntoOwnChildIs | src/sampling/plan_scaler.py:100-171 | moving a value into its own child, at any depth: exactly when the engine accepts it (a list element whose successor accepts the value), with the resulting document or the error |
| JsonPatchLaws.MoveOpIntoOwnChildIs | src/sampling/plan_scaler.py:166-171 | the same for the `move` operation with a `path` below its `from` |
| JsonPatchLaws.MoveIntoOwnMemberFails | src/sampling/plan_scaler.py:166-171 | an object member cannot be moved into its own child |
| JsonPatchLaws.MoveIntoOwnItemMovesIntoTheNext | src/sampling/plan_scaler.py:166-171 | an element of any list whose successor is a list moves to any index of that successor |
| JsonPatchLaws.ApplyConcat | src/sampling/plan_scaler.py:146-185 | applying a concatenation of patches is applying one after the other |
| Traversal.DepthFirst.Dfs | src/sampling/plan_scaler.py:362-374 | the recursive walk extends `visited` and `order` as the functional walk does |
| Traversal.PostOrderIsPermutation | src/sampling/plan_scaler.py:362-383 | started from all nodes, the walk lists every node and every child without an entry, exactly once |
| Traversal.ChildrenFirstIffAcyclic | src/sampling/plan_scaler.py:362-383 | the order puts children first if and only if the graph has no cycle |
| CycleCheck.CycleDetector.DetectFrom | datafusion_patched/src/physical_plan.rs:90-129 | gray ids are a path to the current node, black ones are finished children first, and an error means that there is a cycle |
| CycleCheck.ValidateExecutionPlanGraph | datafusion_patched/src/physical_plan.rs:60-88 | the check accepts exactly the graphs without a directed cycle, whatever the iteration order, self-loops and child ids without an entry included |
| PlanCodec.CollectNodes | datafusion_patched/src/physical_plan.rs:399-470 | the first passes record every visited node with its cleared form and the ids of its children, shared subplans by address |
| PlanCodec.Flatten | datafusion_patched/src/physical_plan.rs:399-504 | the loops produce the flattened document of the plan |
| PlanCodecOutput.FlattenedHolds | datafusion_patched/src/physical_plan.rs:472-504 | the table list holds exactly the scans and the structure exactly the other operators, each once, under its position in visit order, with its configuration and the positions of its inputs, both in this order |
| PlanCodecOutput.FlattenedPlaces | datafusion_patched/src/physical_plan.rs:424-494 | the operator at a position has a table entry exactly if it is a `parquetScan`, and a structure member exactly if it is not |
| PlanCodecOutput.VisitOrder | datafusion_patched/src/physical_plan.rs:409-446 | a node is visited before its inputs, and these one after the other, each with everything below it |
| PlanCodecOutput.IdsAre64Bit | datafusion_patched/src/physical_plan.rs:582-675 | the ids that are read back are those below 2^64 |
| PlanCodecRoundTrip.NumberedInVisitOrder | datafusion_patched/src/physical_plan.rs:399-470 | in a tree without sharing child ids exceed the parent id, and every node but 0 has a parent |
| PlanCodecRoundTrip.EmptiedIs | datafusion_patched/src/physical_plan.rs:507-532 | clearing a serialized operator leaves its own configuration and empties exactly its child members |
| PlanCodecRoundTrip.PopulatedIs | datafusion_patched/src/physical_plan.rs:534-562 | the child ids are written into the members that the child count selects, if the operator has them |
| PlanCodecRoundTrip.ExtractedIs | datafusion_patched/src/physical_plan.rs:645-675 | the child ids read from a node are those written to it if it fits its arity, and none otherwise |
| PlanCodecRoundTrip.FlattenedIsAcyclic | datafusion_patched/src/physical_plan.rs:574-627 | the child map of a flattened plan has no cycle, and the plan's root is nobody's child |
| PlanCodecRoundTrip.FlattenedLoads | datafusion_patched/src/physical_plan.rs:574-642 | a flattened plan parses into its nodes, passes the cycle check, and 0 is found as its root |
| PlanCodecRoundTrip.NoRootOnlyWhenEmpty | datafusion_patched/src/physical_plan.rs:628-641 | "Could not find root node" is reported for an acyclic document if and only if it has no nodes |
| PlanCodec.Rebuild | datafusion_patched/src/physical_plan.rs:574-642 | the loading steps give the functional result, errors in the same order |
| PlanCodecRoundTrip.RoundTripIffArityFits | datafusion_patched/src/physical_plan.rs:399-776 | reading back a flattened plan gives the plan, shared subplans included, if and only if every node fits its arity |
| PlanCodecRoundTrip.TwoInputUnionIsLost | datafusion_patched/src/physical_plan.rs:538-558 | a union with two inputs does not survive the round trip |
| PlanStructure.TopoOrderFromRoots | src/sampling/plan_scaler.py:333-383 | the traversal walks from the roots, then from every id |
| PlanStructure.TopoOrderIsPermutation | src/sampling/plan_scaler.py:333-383 | the traversal lists every node id exactly once |
| PlanStructure.TopoOrderIffAcyclic | src/sampling/plan_scaler.py:333-383 | it puts children first if and only if the plan's direct references form no cycle |
| PlanReferences.ScalarReference | src/sampling/plan_scaler.py:191-209 | an integer member is a reference exactly under `input`, `left` and `right` |
| PlanReferences.ListReference | src/sampling/plan_scaler.py:191-209 | a list of integers is one of references exactly under `inputs` and `children` |
| PlanReferences.ReferenceForms | src/sampling/plan_scaler.py:195-209 | a numeral is the id it denotes and a Boolean counts as 0 or 1; null, a real and any other string are no ids |
| PlanReferences.NodesAre | src/sampling/plan_scaler.py:333-340 | the node of an id is the one under the last numeral of this id |
| PlanReferences.OperatorRefs | src/sampling/plan_scaler.py:303-323 | the references found in an operator as the codec writes it, with a configuration that holds none, are exactly the ids of its inputs |
| PlanReferences.OperatorChildren | src/sampling/plan_scaler.py:333-359 | the children that the traversal follows are these ids in order, where all of them are nodes |
| PlanOrder.RootsAre | src/sampling/plan_scaler.py:326-330 | the roots are the ids that nothing refers to, by increasing id, or the least id if there is none; in an acyclic plan there is one |
| PlanOrder.StartsAre | src/sampling/plan_scaler.py:361-380 | the traversal starts from the roots and then from every id, by increasing id |
| ScanMatching.BuildScanSignatureMap | src/sampling/plan_scaler.py:218-270 | the loop maps every scan id to its signature, the last entry of an id winning, or reports a malformed entry |
| ScanSignatures.SignatureOfScan | src/sampling/plan_scaler.py:229-259 | the signature of a scan, from its members as JSON values, and the error of a scan that cannot be read |
| ScanSignatures.SameSignatureIff | src/sampling/plan_scaler.py:229-259 | two scans have equal signatures if and only if their schema columns, projections, constraints and predicates are equal as JSON values, absent ones read as null |
| ScanSignatures.OtherSignature | src/sampling/plan_scaler.py:229-235 | the signature of any other node is the node as a JSON value |
| ScanSignatures.OtherMembersAreIgnored | src/sampling/plan_scaler.py:229-259 | a difference in any other member, such as the file groups or the statistics, never changes the signature |
| ScanSignatures.TableSignatures | src/sampling/plan_scaler.py:218-270 | the signatures of a table list, and of a dict with such a list under `entries`, are those of its nodes by id, a later entry replacing an earlier one of the same id |
| ScanSignatures.NextItem | src/sampling/plan_scaler.py:218-270 | after readable items of a table, an item without an id or a node is skipped, an id that is no integer is an error of the table, and a scan that cannot be read is an error |
| ScanSignatures.OtherTables | src/sampling/plan_scaler.py:218-226 | no table list counts as an empty one, and anything else is refused |
| ScanPairing.BuildScanIdMapping | src/sampling/plan_scaler.py:273-300 | grouping, sorting and pairing give the mapping that sends the k-th source id of a signature to its k-th target id, whatever the order of the dicts |
| ScanSignatures.PairedByRank | src/sampling/plan_scaler.py:273-297 | a scan is paired with the target scan of its signature that has as many scans of this signature with smaller ids before it |
| ScanMatching.MappingPreserves | src/sampling/plan_scaler.py:273-300 | the mapping covers all source scans, is injective and keeps signatures |
| ScanMatching.MatchableIffInjection | src/sampling/plan_scaler.py:290-300 | a mapping is found if and only if some injection keeps signatures |
| ScanMatching.PartnerMonotone | src/sampling/plan_scaler.py:297-299 | within one signature the pairing keeps the order of ids |
| ScanRebinding.RebindKeeps | src/sampling/plan_scaler.py:480-528 | rebinding keeps keys and other nodes, and replaces a scan by one of equal signature |
| ScanBindings.ReboundIsTarget | src/sampling/plan_scaler.py:507-528 | a rebound scan is, as a JSON value, the scan node of the target entry |
| ScanBindings.BoundByRank | src/sampling/plan_scaler.py:496-528 | that entry is the one of the same signature and the same rank by id |
| ScanBindings.BoundApart | src/sampling/plan_scaler.py:496-528 | two embedded scans are rebound to two different entries |
| ScanBindings.RebindSucceedsIff | src/sampling/plan_scaler.py:480-528 | rebinding succeeds if and only if every embedded scan is readable and the target has at least as many scans of its signature as the plan |
| ScanRebinding.RanksDiffer | src/sampling/plan_scaler.py:499-526 | two embedded scans of one signature are never bound to the same entry |
| Renumbering.FindNextFree | src/sampling/plan_scaler.py:408-412 | the loop finds the least free id from the start on |
| Renumbering.AssignNewNodeIds | src/sampling/plan_scaler.py:386-423 | the assignment loop over the traversal computes the renumbering |
| Renumbering.RenumberAvoids | src/sampling/plan_scaler.py:386-423 | the renumbering covers all node ids, is injective and avoids every reserved id |
| Renumbering.RenumberIdentityIff | src/sampling/plan_scaler.py:386-423 | every node keeps its id if and only if no node id is reserved |
| FreshIds.RenumberedIds | src/sampling/plan_scaler.py:386-423 | the new ids are the node ids that are not reserved, and as many of the least naturals that are neither node ids nor reserved as node ids are reserved |
| FreshIds.FreshAreLeast | src/sampling/plan_scaler.py:408-412 | the fresh ids are that many naturals that are not in use, and every other natural not in use is greater |
| PlanOrder.NewIdsInOrder | src/sampling/plan_scaler.py:386-423 | which node gets which id: in the order of the traversal, each keeps its own unless it is reserved or given away already, and then gets the least natural that is neither |
| PlanRewrite.RewriteIsRenameIff | src/sampling/plan_scaler.py:440-463 | the rewriter renames every reference that the finders see if and only if the hidden ones need no change |
| PlanRewrite.HiddenReferenceIsMissed | src/sampling/plan_scaler.py:440-463 | a reference below a non-integer `input` is left alone |
| PlanRewrite.RewrittenRefs | src/sampling/plan_scaler.py:440-463 | the references after the rewrite are the images of the visible ones and the hidden ones unchanged |
| PlanReferences.OperatorRewritten | src/sampling/plan_scaler.py:426-477 | rewriting such an operator renames exactly its inputs |
| PlanTransfer.RewritePlanReferences | src/sampling/plan_scaler.py:426-477 | the loop rewrites node by node under new keys, and rejects keys that are not found |
| PlanTransferTheorems.RewriteFromIs | src/sampling/plan_scaler.py:426-477 | it succeeds exactly on canonical keys of known nodes, and no two nodes get the same key |
| PlanTransferTheorems.RewrittenNode | src/sampling/plan_scaler.py:465-477 | every node is found, rewritten, under its new id |
| PlanTransferTheorems.RewrittenIds | src/sampling/plan_scaler.py:465-477 | there are no other nodes |
| PlanTransferTheorems.ResolveIffAcceptable | src/sampling/plan_scaler.py:543-572 | the reference check accepts the rewritten plan if and only if each reference is an internal id, a source scan id, or already a new internal or target scan id |
| PlanTransfer.TransferPlan | src/sampling/plan_scaler.py:577-741 | the steps of the transfer, with the stage of the first error, compute the functional transfer |
| PlanTransferMeaning.MalformedIsRefused | src/sampling/plan_scaler.py:531-540 | a plan that is no object, or has a member whose key is no numeral or whose node has not exactly one operator, is refused before anything else |
| PlanMeaning.UnfoldingTellsMembers | src/sampling/plan_scaler.py:577-653 | operators with equal unfoldings have the same members in the same order, with equally unfolded values |
| PlanMeaning.UnfoldingOfMembers | src/sampling/plan_scaler.py:577-653 | an integer member unfolds to what it refers to under `input`, `left` and `right`, and stands for itself under any other key |
| PlanMeaning.UnfoldingTellsScans | src/sampling/plan_scaler.py:577-653 | equal unfoldings of references mean that both are scans of one signature, both are the same unresolved id, or neither is |
| PlanTransferMeaning.TransferSucceedsIff | src/sampling/plan_scaler.py:577-741 | exactly when a transfer returns a plan |
| PlanTransferMeaning.RaisesIffNoInjection | src/sampling/plan_scaler.py:655-741 | for readable tables and a tidy plan a transfer raises if and only if no injection of the source scans into the target scans keeps signatures |
| PlanTransferMeaning.PlainTransferSucceedsIff | src/sampling/plan_scaler.py:655-741 | a plan without embedded scans is transferred if and only if the scans can be matched and every reference is a node id, a source scan id, a target scan id or one of the fresh ids (a hidden reference: not a source scan id) |
| PlanTransferMeaning.DanglingReferenceIsCaptured | src/sampling/plan_scaler.py:577-652 | for a filter on an id that resolves to nothing at the source, and any target scan, `transfer_plan` returns a plan if and only if the id is the target scan id or the fresh id of the renumbered node |
| PlanTransferMeaning.CapturedByNewNode | src/sampling/plan_scaler.py:386-423 | an acyclic plan with a dangling reference that is no id of either table is transferred to a plan with a cycle, because the renumbered node takes that id |
| PlanTransferSource.TransferPreservesMeaning | src/sampling/plan_scaler.py:577-741 | ids are sent injectively, and from every node and scan of the source plan the operator tree unfolded to any depth is the one from its image in the transferred plan |
| PlanTransferSource.TransferPreservesAcyclicity | src/sampling/plan_scaler.py:577-741 | the transferred plan is acyclic if and only if the source plan is |
| PlanTransferIdentity.EmptyTransferIsIdentityIff | src/sampling/plan_scaler.py:577-741 | transferring a plan to its own tables with an empty patch returns it unchanged if and only if no node id is a scan id |
| SampleTree.GetUpstreamPatches | src/sampling/sample_plans.py:36-71 | the loop collects the patches from the root to the node, those of invalid ancestors left out |
| SampleTree.GetUpstreamEvaluationStats | src/sampling/sample_plans.py:73-87 | the loop returns the measurement of the nearest valid node on the way to the root |
| SampleTree.NearestValidUpstream | src/sampling/sample_plans.py:58-87 | a node and its nearest valid ancestor have the same upstream patches |
| SampleTree.SampleState.constructor | src/sampling/prepare_sampling.py:40-50 | the prepared tree has the original plan only, and satisfies the invariant |
| SampleTree.SampleState.NewSampleId | src/sampling/accumulate_samples.py:38-46 | one more than the largest id is the next position of the tree |
| SampleTree.SampleState.Accumulate | src/sampling/accumulate_samples.py:48-84 | the new samples are appended with consecutive ids, flags of old nodes are cleared, nothing else changes, and the invariant is kept |
| SampleTree.GrownLeaves | src/sampling/accumulate_samples.py:75-84 | after a step `is_leaf` holds exactly for the nodes without children |
| SampleTree.GrownLast | src/sampling/accumulate_samples.py:75-84 | after a step that adds samples `is_last` holds exactly for them |
| SampleTree.WalksAreStable | src/sampling/accumulate_samples.py:75-84 | later growth changes neither the upstream patches nor the nearest valid ancestor of an old node |
| SampleTree.GrownProvenance | src/sampling/accumulate_samples.py:50-84 | growth keeps the provenance of all measurements, inherited ones included |
| BaseSelection.GetBasePlansForSampling | src/sampling/sample_plans.py:89-176 | the selected nodes, in order, each with its upstream patches and the measurement of its nearest valid ancestor |
| Evolution.AllAreSelected | src/sampling/sample_plans.py:142-176 | without a ranking, all eligible nodes are taken, in the order of the tree |
| Evolution.BestAreSelected | src/sampling/sample_plans.py:126-170 | with one, as many eligible nodes as asked for, none of them worse than one that is left out, the best first |
| BaseSelection.BestIsLeastIff | src/sampling/sample_plans.py:126-136 | `best_1` takes a candidate with the least metric if and only if no metric of exactly 0 is overlooked |
| StableSorting.SortOrders | src/sampling/sample_plans.py:134 | the result is ordered by the key and has the same elements |
| StableSorting.SortIsStable | src/sampling/sample_plans.py:134 | candidates with equal keys keep their order |
| WorkPool.Pool.WaitAndHarvest | src/sampling/evaluate_sampled_plans.py:114-125 | any non-empty set of finished futures is harvested, each once, and the bound on futures in flight is kept |
| WorkPool.Pool.Submit | src/sampling/evaluate_sampled_plans.py:164-179 | a submission waits for room, so at most twice the number of workers are in flight, and settles exactly one more key |
| WorkPool.Pool.Drain | src/sampling/evaluate_sampled_plans.py:181-184 | in the end each submitted future was harvested exactly once and every key has a result or an error, not both |
| SampleEvaluation.Dispatch | src/sampling/evaluate_sampled_plans.py:132-175 | an evaluation is submitted for a valid sample exactly if its patches are not empty and apply |
| SampleEvaluation.EvaluateSampledPlans | src/sampling/evaluate_sampled_plans.py:107-199 | for every submission order, pool size and completion order each sample gets its one verdict |
| Evolution.JudgedIs | src/sampling/evaluate_sampled_plans.py:72-112 | a sample is judged valid exactly if it was valid and its patches are empty, or apply and are measured; its statistics are then those of its nearest valid ancestor, or the readings of this measurement with the patches that were measured |
| SampleRuns.SamplePlans | src/sampling/sample_plans.py:244-268 | the loops attach every generation result to its base |
| SampleRuns.JudgedBelongs | src/sampling/evaluate_sampled_plans.py:132-157 | whatever a sample's evaluation says, what is stored for it was measured on its upstream patches |
| SampleRuns.RunsKeepProvenance | src/sampling/orchestrator.py:171-220 | in every tree of an uninterrupted run stored measurements were taken on the base plan with the node's upstream patches, and these patches apply |
| SampleRuns.RunsOnlyAdd | src/sampling/orchestrator.py:171-220 | later steps change nothing of an earlier node but its flags |
| SampleRuns.PlanCount | src/sampling/orchestrator.py:69-107 | after k steps of n samples there are 1 + k * n plans, exactly the last n of them marked `is_last`, for all three strategies |
| Evolution.StepNode | src/sampling/orchestrator.py:171-220 | a node that a step adds is one of the generated samples of a selected base plan, with the parent, the patches and the verdict of this sample |
| Evolution.OriginalParents | src/sampling/orchestrator.py:69-107 | with `best_of`, and in the first step of `pst_evol`, all samples are taken from the original plan |
| Evolution.EvolvingParents | src/sampling/orchestrator.py:86-96 | with `pst_evol`, from step 2 on every node of the last step gets exactly one child, and no other node gets any |
| Evolution.BestParent | src/sampling/orchestrator.py:97-106 | with `bol_evol`, all nodes that a step adds are children of one node: the first of those of the last step with the least metric, where 0 and none count as infinite |
| Evolution.RootIsOriginal | src/sampling/prepare_sampling.py:40-50 | every tree of a run starts with the original plan and its own measurement |
| SampleRuns.MeasuredPlanExtendsShownPlan | src/sampling/sample_plans.py:229-242 | the measured plan is the plan that the model was shown with the sampled patches applied |
| Ranking.ProcessSamplingResults | src/dbplanbench.py:636-682 | the three reported lists have the requested length, hold the first ranked candidates and are padded with nothing |
| Ranking.ReportedWasMeasured | src/dbplanbench.py:649-673 | the patch list reported at any rank is the one that its statistics were measured on, and it applies |
| Ranking.RunsReportWhatWasMeasured | src/dbplanbench.py:649-673 | the same in every uninterrupted run, after any number of steps |
| Ranking.ReportedAreBest | src/dbplanbench.py:636-660 | every valid, measured sample is ranked, and none that is left out beats a reported one |
| Ranking.WinnerImproves | src/dbplanbench.py:640-673 | the first reported improvement factor is at least 1 |
| Ranking.ImprovementIs | src/dbplanbench.py:665-673 | an improvement is reported exactly when the original plan has a reading and the reported candidate a positive one, and times that reading it is the reading of the original plan |
| Ranking.ReportLength | src/dbplanbench.py:636-682 | the original plan and every valid sample with a reading are reported as far as there is room, and the rest is padding |
| Ranking.ReportedIs | src/dbplanbench.py:640-668 | at each of these ranks stand the patches and the statistics of one of them |
| Ranking.RanksAscend | src/dbplanbench.py:660-668 | the reported readings ascend, and a candidate without one comes last |
| ResumeReplay.SamplingDir.RunSamplingSteps | src/sampling/orchestrator.py:151-220 | the rebuild and the step loop, with the reuse of existing sampled and evaluated files on resume, cut off at any point between files, leave the directory that the functional run gives |
| ResumeReplay.FirstRunNeedsNoResume | src/sampling/orchestrator.py:151-220 | on an empty directory a run without `resume` is the resumed run |
| ResumeReplay.ResumeIsFold | src/sampling/orchestrator.py:151-220 | a resumed run with at least the completed number of steps, cut off neither before an accumulation nor in a rebuild, ends with the fold of the accumulation over all completed steps, apart from the top-up of `best_of` |
| ResumeReplay.RebuildIsFold | src/sampling/orchestrator.py:158-169 | a rebuild replays exactly the steps asked for, or as many as it had replayed when it was cut off, whatever the state file held |
| ResumeReplay.RunsAreReplayable | src/sampling/orchestrator.py:151-220 | after any sequence of runs with nondecreasing step counts and no crash before an accumulation the state is the fold over all completed steps |
| ResumeLoss.RunIsConsistentIff | src/sampling/orchestrator.py:151-220 | a resumed run with at least the completed number of steps leaves the fold over all completed steps if and only if it is cut off neither between a file with samples and its accumulation, nor, while it rebuilds a missing state file, before a file with samples |
| ResumeLoss.ShrunkIsConsistentIff | src/sampling/orchestrator.py:151-169 | a run with fewer steps leaves it if and only if the files that it did not replay are empty |
| ResumeLoss.RunsAreReplayableIff | src/sampling/orchestrator.py:151-220 | after any sequence of runs with nondecreasing step counts the state is the fold over all completed steps if and only if no run was cut off that way |
| ResumeLoss.CrashLosesStep | src/sampling/orchestrator.py:158-210 | such a crash, at any step or in a rebuild, loses the samples for good: no later runs with nondecreasing step counts bring them back |
| ResumeLoss.ShrinkingLosesSteps | src/sampling/orchestrator.py:151-169 | asking for any smaller number of steps leaves the other steps out, also when the rebuild is cut off, and later runs that ask for all of them do not bring them back |
| ResumeSchedule.RunsAreLive | src/sampling/orchestrator.py:151-220 | after any sequence of resumed runs, with any step counts and crashes, apart from the top-up of `best_of`, the schedule alone tells which steps have files, which of them the state lacks, and from which state each step was sampled, reused sampled files included |
| ResumeSchedule.StateIsFoldIff | src/sampling/orchestrator.py:151-220 | after any sequence of resumed runs, apart from the top-up of `best_of`, the state is the fold over all completed steps if and only if the steps that the schedule leaves out hold no samples |
| ResumeProvenance.SamplerIsTruthful | src/sampling/orchestrator.py:171-210 | what is sampled from a sound state fits that state however it is evaluated, in the same run or in a later one, whatever the model and the evaluations answer |
| ResumeProvenance.ResumedRunsKeepProvenance | src/sampling/orchestrator.py:151-220 | after any sequence of resumed runs with nondecreasing step counts, wherever they crash and also where they reuse sampled files, all stored measurements have their provenance and all upstream patches apply, apart from the top-up of `best_of` |
| ResumeProvenance.BenignRunsStayInLine | src/sampling/orchestrator.py:151-220 | without a crash before an accumulation every file was sampled and measured on the fold over the files before it |
| ResumeProvenance.UnmixedRunsKeepProvenance | src/sampling/orchestrator.py:151-220 | after any sequence of resumed runs, apart from the top-up of `best_of`, all stored measurements have their provenance, unless samples of the state were taken from a state that is not, in samples, how this one began |
| ResumeProvenance.SafeRunsKeepProvenance | src/sampling/orchestrator.py:151-220 | the same from the schedule alone: if every step that the state holds was sampled from a state that is how this one began |
| ResumeProvenance.ResumedRunsReportWhatWasMeasured | src/dbplanbench.py:649-673 | after any sequence of resumed runs with such a schedule, apart from the top-up of `best_of`, each reported patch list is the one its statistics were measured on, and it applies |
| ResumeMisattribution.RunsAreSafeIff | src/sampling/orchestrator.py:151-220 | for any sequence of resumed runs, with any step counts and crashes, apart from the top-up of `best_of`: after every run all measurements have their provenance, whatever the model and the evaluations answer, if and only if after no run the state holds a step that was sampled from a state that is not how this one began |
| ResumeMisattribution.EndIsSafeIff | src/sampling/orchestrator.py:151-220 | where no step is sampled from a state whose ancestor walks do not return: after the last run all measurements have their provenance, whatever the answers, if and only if this holds of the last state |
| ResumeMisattribution.RiskyRunsMisattribute | src/sampling/orchestrator.py:151-220 | for every other schedule and every plan there are answers for which the sampler's own steps, with one strategy throughout, leave a measurement attached to patches it was not taken on |
| ResumeMisattribution.LostStepMisattributes | src/sampling/orchestrator.py:151-210 | a crash before an accumulation, a resume and a rebuild do that to a state that had full provenance |
| ResumeMisattribution.ShrinkingMisattributes | src/sampling/orchestrator.py:151-169 | so does asking for fewer steps, for more, and for fewer again, without any crash |
| ResumeMisattribution.ReusedFileMisattributes | src/sampling/orchestrator.py:180-210 | so does evaluating a sampled file of an earlier run after a rebuild to fewer steps |
| ResumeMisattribution.ReusedFileIsItsOwnParent | src/sampling/orchestrator.py:180-210 | such a file, sampled from a step that the rebuild leaves out, becomes a node that is its own parent |
| ResultComparison.Checker.Accept | src/modal_controller/utils.py:143-199 | one arrival, with a baseline and a primary candidate never held together |
| ResultComparison.Checker.Validate | src/modal_controller/utils.py:143-201 | the loop stops at the first error |
| ResultComparison.VerdictIs | src/modal_controller/utils.py:104-199 | for any comparison the verdict compares every other execution with the first candidate to arrive |
| ResultComparison.AcceptedIffAllAgree | src/modal_controller/utils.py:88-201 | for a symmetric and transitive comparison and every arrival order the candidate is accepted if and only if all executions succeed and all results are equivalent |
| ResultComparison.OrderIndependentIff | src/modal_controller/utils.py:88-201 | acceptance is independent of the arrival order for all inputs if and only if the comparison exchanges |
| StartGate.Gate.Pass | src/modal_controller/utils.py:260-272 | the scheduled start is the time of the call or the wait time after the previous start, whichever is later, plus the jitter, and the caller sleeps exactly until then |
| StartGate.StartsAreSpaced | src/modal_controller/utils.py:260-269 | starts i < j are at least (j - i) / 4 seconds apart |
| StartGate.AtMostFourPerSecond | src/modal_controller/utils.py:260-269 | no half-open second holds more than four scheduled starts |
| GenerateOnce.FolderIsRenamedOnce | src/dbplanbench_utils.py:86-157 | for any number of processes, interleaving and crash points at most one rename succeeds, and a normal return implies a visible folder |
| GenerateOnce.FolderWasGenerated | src/dbplanbench_utils.py:141-155 | a visible folder was there from the start, or is what some generation returned |
| GenerateOnce.FolderIsStable | src/dbplanbench_utils.py:124-151 | once visible, the folder never changes |
| GenerateOnce.FolderIsCompleteIff | src/modal_controller/generate_benchmark_data.py:146-209 | a visible folder is complete in every run if and only if generation never returns with some of the files only |
| GenerateOnce.LockedGenerationIsNeverWasted | src/dbplanbench_utils.py:134-155 | with locks one process at a time generates, and it finds no folder when it renames |
| GenerateOnce.UnlockedProcessCanThrow | src/dbplanbench_utils.py:93-99 | without locks a process can generate everything and still throw |
| GenerateOnce.GenerationIsNeverWastedIff | src/dbplanbench_utils.py:86-157 | in every run of any number of processes whoever has generated data finds no folder in place, if and only if there are locks or the dataset cannot be generated |
| Quotas.AllocateTargets | src/query_gen/orchestrator.py:62-86 | floors, then one more for the largest fractions, with the errors for a bad total or bad weights |
| Quotas.AllocationIsFair | src/query_gen/orchestrator.py:62-86 | the counts sum to the total, each is its exact quota rounded down or up, and a key without weight gets nothing |
| Quotas.LargestFractionsFirst | src/query_gen/orchestrator.py:78-85 | whoever is rounded up has at least the fraction of whoever is rounded down |
| Quotas.EarlierTieFirst | src/query_gen/orchestrator.py:78-85 | of two equal fractions the earlier key is rounded up first |
| Quotas.AllocationFailsIff | src/query_gen/orchestrator.py:66-73 | each of the three errors exactly when: a total that is not positive, then a negative weight, then no weight above 0 |
| Quotas.AllocationIsProportional | src/query_gen/orchestrator.py:75-85 | each count is the share of its weight in the total, rounded down or up |
| QueryValidation.MergeResults | src/query_gen/query_validator.py:306-339 | an id is valid exactly when its result is the first successful one of a query not seen before, and `seen` grows by the successful queries |
| QueryValidation.SeenIsOrderIndependent | src/query_gen/query_validator.py:306-339 | what was seen does not depend on the order of completion |
| QueryValidation.ValidEntriesAreNew | src/query_gen/orchestrator.py:306-324 | the valid queries of a step are pairwise distinct and were not seen before |
| QueryValidation.ValidEntriesAre | src/query_gen/orchestrator.py:306-324 | a generated item is a valid entry, after the valid ones generated before it, if and only if its check was the first to succeed for a query that was not seen |
| QueryValidation.OnlyGeneratedAreValid | src/query_gen/orchestrator.py:306-324 | nothing else is a valid entry |
| GenerationLoop.RequestCoversRemainingIff | src/query_gen/orchestrator.py:256-259 | a step asks for at least what remains of every complexity if and only if the cap is at least 1 or one query remains |
| GenerationLoop.RequestSize | src/query_gen/orchestrator.py:256-258 | the size of a request: what remains, times 1.5 for every step but the first, as far as the cap allows, rounded down, and at least 1 |
| GenerationLoop.ResumeAndRun | src/query_gen/orchestrator.py:132-194 | saved queries are refused exactly when some complexity exceeds its target, returned as they are exactly when there are at least as many as requested in all, and otherwise extended by new queries until the targets are met; distinct saved queries stay distinct, and the early return meets the targets exactly when as many as requested are of known complexities |
| GenerationLoop.SavedMeetTargetIff | src/query_gen/orchestrator.py:168-194 | the early return meets the targets if and only if as many saved queries as requested are of complexities in the distribution |
| GenerationLoop.StrangerCompletesTooEarly | src/query_gen/orchestrator.py:168-194 | one saved query of an unknown complexity ends a request for one query without it |
| GenerationLoop.GenerationRun.AcceptAll | src/query_gen/orchestrator.py:362-382 | of every complexity as many valid entries as possible are accepted, all of them where the target is still not met, with aligned metadata |
| GenerationLoop.GenerationRun.RunStep | src/query_gen/orchestrator.py:252-408 | one iteration keeps remaining + accepted = target and accepted queries pairwise distinct; every accepted query passed validation in this iteration, under its recorded complexity |
| GenerationLoop.GenerationRun.Run | src/query_gen/orchestrator.py:252-408 | the loop ends within `max_steps`, every accepted query was generated and passed validation in one of its steps, a normal exit meets the target of every complexity, an error exit leaves some target unmet, and it reports no progress exactly if the last step accepted nothing |
| GenerationLoop.MetDistributionIsComplete | src/query_gen/orchestrator.py:62-86 | when every target is met there are exactly as many queries as requested |

## Left out

- Nested dicts and lists changed in place: `JsonPatch` edits a document as a value and returns the changed one, so aliasing between parts of a Python document is not modelled; neither are the snapshots that check that inputs were not mutated.
- The grouping dicts of `_rebind_parquet_scans_in_structure`: `ScanRebinding.Rebind` pairs a scan with the entry at its rank among the scans of its signature, as a function on the list of nodes.
- Digits outside ASCII, signs, blanks and underscores that Python's `int` and `isdigit` or Rust's `parse` accept.
- `json.dumps` with sorted keys: two signatures are taken to be equal exactly when the dumped documents are equal as JSON values.
- Numbers: JSON reals, weights, metrics and clock readings are exact reals; floating-point rounding, NaN and infinities in documents are not modelled.
- Error messages: an error is the stage or kind that raised it.
- The protobuf form of operators, the compaction of statistics and schemas, `display` and the Python bindings in `physical_plan.rs`: an operator is a name, a configuration and its inputs, and serializing it is taken to be faithful.
- PlanCodecRoundTrip.RoundTripIffArityFits: requires that equal addresses mean equal subplans and fewer than 2^64 nodes, as the source relies on.
- The `jsonpatch` library that applies sampled patches: the engine of `plan_scaler.py` stands for it, and nothing is said about computing a diff.
- SampleTree.GetUpstreamEvaluationStats: the error for an invalid root and the failing lookup of a missing parent are not modelled, because every tree starts with a valid root and new samples point to nodes of the tree.
- Several queries in one state file: `SampleTree` is the tree of one query; a query that occurs twice in one step file is not modelled.
- Runs without `resume` over an existing directory, which `optimize_queries` refuses: the theorems about sequences of runs are about resumed ones, from an empty directory.
- A crash while a file is being written: runs are cut off between files.
- The top-up of `best_of` with `resume` and one step, which can take one step more than was asked for; progress logs and the improvement statistics after a step.
- Outcome counts in `_process_sampling_results`: they are not a partition, because a message can count twice.
- ResultComparison.AcceptedIffAllAgree: `compare_result_sets` is an arbitrary relation; its sorting and rounding are not modelled.
- Remote and local execution, retries, storage, model calls, prompts and file formats: their results are parameters.
- GenerationLoop.ResumeAndRun: takes the two saved lists to be of equal length, as the loop writes them.
- GenerationLoop.GenerationRun.Run: complexities are named by their position in the distribution, and what the generator returns is arbitrary apart from distinct ids and known complexities.
- `_percentile`, `compute_metric_stats`, `evaluate_plan_n_runs`, and the run-level plumbing of `dbplanbench.py`.
