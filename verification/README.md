# Verified models of the graph core

Everything an account holds is a graph of immutable nodes. A node is `data` and an ordered list of rows `[left, right]`; it is named by a hash of its content, its *cid*. On top of the graph sit a three-way merge, linear grants of resources, an evaluator that publishes many changes at once, leases on work, and servers that save one account concurrently. This project models those parts in Dafny and proves what they keep.

The models follow the source branch by branch. Code that works in place is a method with the source's loops, proved equal to a function; the laws are lemmas about that function, over all inputs, all runs or all reachable states.

## The parts

**Merge** (`shared/sync/merge.ts`). `Graph` and `Merge` are the merge as functions on contents: plain nodes, mutable refs, typed values, branch choices, proposals and conflicts. It ends on every graph, by the heights of the two sides, also across the two steps that first make a side taller. `Store`, `ChoiceStore` and `MergeStore` run the same steps over a store in place: the table stays closed, only grows, holds the result and every choice raised. `Order` is the sibling order. `MergeLaws`, `ValueLaws` and `BranchLaws` say what becomes of rows, values and branches; `Conflicts` which inputs conflict, told from the inputs; `Lossless` when a merge loses nothing at any depth, and exactly when a ref does; `Reported`, over `Beneath`, which of the choices a merge reports stand in its result; `MergeWitnesses` and `RefWitnesses` hold the inputs at which the merge does less than its description says. `Resolve` puts a picked version back. `Convergence` defines what both edits applied to a tree mean, without reference to the merge; `ConvergenceLaws` proves that the merge of disjoint edits is exactly that, and `MergeTheorems` that both directions of a merge agree and that a merge run backwards undoes a publication.

**Canonical text and cids** (`shared/dag-implementation/cid.ts`). `Canonical` proves that the text a node is hashed from determines its rows in order and its data up to member order, with one exception that is stated exactly.

**Host values and fields** (`shared/sync/node-values.ts`, `shared/sync/fields.ts`). `NodeValues`, `NodeValueLaws` and `NodeValueStore` encode values as typed rows and decode them; `Fields` treats a typed row as a lens.

**Evaluation** (`shared/sync/evaluation.ts`). `ExecutionOrder` and its laws order the steps; `Evaluation` runs them over a host that may fail at every call, and recovers an interrupted run; `Restoring` ties the way it takes a publication back to the merge that does so, and says when that merge does not.

**Allocation** (`shared/sync/arguments.ts`, `shared/sync/ref-compiler.ts`). `Allocation` is the allocate handler and the consumption planner, `Operands` what the ref compiler hands it: the bank and the grants with refs replaced by values and without what grants came from. `AllocationLaws` is what one invocation keeps, `AllocationRuns` what every run keeps, including many invocations planned at once, and `Lineage` where grants came from.

**Leases, locks and saving** (`shared/sync/events.ts`, `backend/sync/`, `backend/util.ts`). `Claims` and `ClaimLaws` are work leases; `Locks` and `LockLaws` the promise queues of accounts and the nesting of several; `Saving` the compare-and-swap of an account's root after its nodes are inserted.

**Organizing** (`shared/sync/organize.ts`, `backend/voice/organize.ts`). `Organize` and its laws make a model's answer into a bounded forest and build its rows.

`Options`, `Json`, `Text` and `Sequences` hold what the others share.

## What the models assume

- The hash is symbolic in `Graph`: a cid is the term built from the content it names, so different contents have different cids and no node is below itself. That includes contents whose data differ only in a member named `__proto__`, which `Canonical` shows share one cid. `Canonical` treats the hash of a text as an injective function whose values are 64 hex digits.
- `Graph.Host` holds what the code reads that the graph does not determine: the text of a cid (it orders alternatives and names fields), the identity drawn for a node wrapped as a ref, the text of a proposal's name row, and whether a choice edge counts as a row in the branches its reader has selected. `NodeValues.Editor` holds the URI encoding of a name, the digest of a long path, and a reader's selected branch.
- Calls that can fail, and edits by others while a call is awaited, are nondeterministic: the contracts of `Evaluation.Driver` say all that is known of them. A save that fails may or may not have been stored.
- Whether the value of a ref in a bank satisfies its row's pattern is part of the bank in `Allocation.Right`; all rows of a grant but its lineage are taken to compile to themselves.
- Identities drawn at random (`newId`, nonces, lease ids) are required to be new where they are used.
- Amounts and times are real or integer numbers without rounding; strings are sequences of Unicode scalar values.

## Where the code and its description differ

- The comment on `orderedKeys` (`shared/sync/merge.ts:293`) puts a key found only in theirs, with nothing placed before it, at the front. The code puts it right before the next key theirs shares with ours, and at the end when there is none; `Order.OrderedKeysLaw` states the code's rule.
- The header of `shared/sync/merge.ts` says nothing is dropped silently. `Lossless.MergeLosesNothing` says under which conditions on its inputs that is so at every depth. Where they do not hold:
  - A node whose rows share a key is merged by its last row of that key: `ValueLaws.EveryRowStands` gives the exact condition, `MergeWitnesses.RowIsLost` a case.
  - A data field both sides changed keeps theirs' value at the top node, in the value of a ref, and in the data of a ref at any depth: `ValueLaws.FieldChanges`, `Lossless.RefDataKept`, `MergeWitnesses.FieldIsLost`.
  - When an own field of a ref was given two versions that split, the ref keeps ours' rows whole (`shared/sync/merge.ts:160`): all else theirs changed or added among them is gone and nothing is reported. `Lossless.RefBooksKept` gives the exact condition, `RefWitnesses.RowsOfTheirsAreLost` a case.
  - When the values of two refs at the top split, ours' value is kept whole (`shared/sync/merge.ts:157`), with the same effect. The same goes for row identities that `shared/sync/branches.ts:35` merges. `Lossless.RefValueKept` gives the exact condition, `RefWitnesses.ValueOfTheirsIsLost` a case.
  - Of a ref's edges only its value, its history and its bookkeeping go on; of two options with one name only the first; and a request to merge a branch is lost when ours has an option of its name that holds nothing. The conditions name these three too.
- The list of choices a merge reports (`shared/sync/merge.ts:287`) can hold choices of a part that was then given up for a conflict: `MergeWitnesses.ReportedIsGone`. A reported choice is new in the result exactly when it was raised in a part that was kept: `Reported.ReportedStands`. Every conflict new in the result is reported, as long as the branched rows of ours have a version for their main branch: `Reported.NewConflictIsReported`; without one, such a row meets a conflict as a plain node and takes its mark unreported: `MergeWitnesses.MarkIsNotReported`.
- Normalisation assigns members one by one, so a member named `__proto__` never becomes a member of the normalised object: two nodes that differ only in such members have one cid. `Canonical.SameText` and `Canonical.AmbiguousText` state this exactly.
- An issued grant is read by the first amount, unit and resource among its rows, and its pattern's rows come first. An output whose pattern says another amount than it declares is checked by the one and held as the other: `AllocationLaws.OneOutputConserves` gives the exact condition, `AllocationLaws.ShadowedAmount` a case; the planner's own patterns always meet it.
- A transfer conserves the bank's total exactly when each grant it consumes is held by one row: `AllocationLaws.AllocateConserves`. A grant two rows hold is taken out of both: `AllocationLaws.TwiceHeldIsLost`. The handler itself never makes a second row for a grant.
- The comment in `shared/sync/arguments.ts:231` says no part of a grant is stripped by the compiler. Its lineage is (`shared/sync/ref-compiler.ts:145`), and the handler writes the compiled bank back, so at every publication the grants that stay lose it: `Operands.CompiledAgain` says which values compile to themselves, `Lineage.LineageLeadsBack` exactly when a held grant still leads to one issued without inputs, `Lineage.LineageFails` a run after which it does not. A handle holds the grant with its lineage, so it stops answering too, though its comment (`shared/sync/arguments.ts:270`) says it does until the grant is consumed: `Lineage.HandleAnswers`.
- The type test of a plan item accepts the names every object inherits (`constructor`, `toString`, …) besides the two library types: `OrganizeLaws.KindIsNamed`, `OrganizeLaws.KindIsInherited`.
- A save takes a store's nodes, awaits the database several times, and reads the store's root last (`backend/sync/storeVersion.ts:5`). A store edited meanwhile makes a root visible whose nodes were never stored: `Saving.LateEditIsVisible`. `Saving.VisibleExactly` says exactly which runs keep the visible root stored, `Saving.SteadyIsVisible` that those do in which no store is so edited.
- The evaluator takes a publication it could not save back by a merge (`shared/sync/evaluation.ts:376-380`). When others edited what was published meanwhile, that merge can keep some of it, or refuse; then the exception leaves the evaluation with everything still live and nothing aborted: `Evaluation.EvaluateNode` gives each ending, `Restoring.RestoringRefuses` and `Restoring.PlainRootRefuses` when the merge refuses, `Restoring.RestoringIsRefused` a case. A root that is a ref is never refused but may keep what was published: `Restoring.RefRootKeepsPublished`.
- A lease on a path of more than 64 names is granted but not read back: `ClaimLaws.GrantedIsLive`, `ClaimLaws.DeepClaimIsLost`. Inviting is not held back by leases: `ClaimLaws.LeasesHoldBack` says what is.

## Model

| member | source | states |
|---|---|---|
| Store.FosStore.PutNode | shared/dag-implementation/store.ts:28-38 | Content is inserted exactly when its edges resolve; the table stays closed and gains at most that node; a refused insert changes nothing. |
| Store.StoreOf | shared/dag-implementation/store.ts:16-25 | Loading succeeds exactly when every node is filed under its own cid, every edge resolves and the root is there; the store then holds exactly the given nodes. |
| Store.ReachedIsIn | shared/dag-implementation/store.ts:23 | Whatever any path of edges reaches from a node of a closed table is in the table. |
| Order.FindSlot | shared/sync/merge.ts:304-313 | The backward and forward searches of one step find the specified slot. |
| Order.OrderKeys | shared/sync/merge.ts:299-319 | The loop over both key lists computes the specified union order. |
| Order.OrderedKeysLaw | shared/sync/merge.ts:293-319 | Every key of the three lists once; ours kept in order; each key only theirs has right after its predecessor in theirs; a run that opens theirs right before the first shared key, or after all of ours; what only base has last. |
| Order.BothOrdersSurvive | shared/sync/merge.ts:11-15 | Ours is always a subsequence of the union; theirs is one too exactly when both sides list their shared keys in the same relative order. |
| Merge.MergeNode | shared/sync/merge.ts:65-180 | Ends on every graph, by the heights of the two sides, also where a side is first lifted into a choice or wrapped as a ref; two versions of one identity merge to that identity. |
| Merge.OptionReads | shared/sync/graph.ts:957-1004 | An option written into a choice reads back as it was, with its row, base and request to merge; only an empty name becomes unknown. |
| Merge.LiftedBelow | shared/sync/merge.ts:83-95 | Lifting a plain node into the other side's default branch leaves less to merge than there was, though the lifted node is taller. |
| Merge.ValuesBelow | shared/sync/merge.ts:122-136 | The values of two sides, one of them a ref, are together lower than the sides, also when the other side is first wrapped as a ref. |
| Merge.BooksBelow | shared/sync/merge.ts:159-160 | The bookkeeping of two sides, taken as nodes, is no higher than the sides. |
| MergeStore.MergeDataInto | shared/sync/merge.ts:186-207 | Field by field, in whatever order fields come, computes the specified merged data or the conflict. |
| MergeStore.IndexRows | shared/sync/merge.ts:241-245 | A key stands where it first occurs, for the last row carrying it. |
| MergeStore.MergeChildrenInto | shared/sync/merge.ts:233-291 | The loop over keys computes the specified rows, logs the choices raised in order, and everything it returns is in the store, which stays closed and only grows. |
| MergeStore.MergeNodeInto | shared/sync/merge.ts:65-180 | On any closed store holding its three nodes the merge never meets a missing node, computes the specified outcome, and its result is in the store. |
| MergeStore.MergeRefsInto | shared/sync/merge.ts:122-172 | The same for refs: values, bookkeeping and history. |
| MergeStore.MergeBranchesInto | shared/sync/merge.ts:97-120 | The same for two branched nodes. |
| MergeStore.MergeNodesInto | shared/sync/merge.ts:51-63 | The entry point: a result with its new choices, all in the store, exactly when the merge of the top nodes is neither a conflict nor an exception. |
| ChoiceStore.StoreChoice | shared/sync/graph.ts:957-979 | A choice and every node it is made of are put bottom up; its alternatives are in the order of their cids. |
| ChoiceStore.StoreBranches | shared/sync/graph.ts:805-811 | Branches are the conflict node without its mark and with its default; both are put. |
| MergeLaws.NothingIsLost | shared/sync/merge.ts:251-290 | Of row lists that do not conflict: a row either side has leaves nothing only when both deleted it, or one deleted it and the other left it alone; otherwise some merged row accounts for both versions: the one that changed, the newer proposal, their merge, or a choice offering both. |
| MergeLaws.NothingIsMadeUp | shared/sync/merge.ts:251-290 | Every merged row accounts for the versions under some key of the three nodes. |
| MergeLaws.ChoiceReads | shared/sync/merge.ts:281-288 | A raised choice reads back as both versions under their sides' labels, a missing one as a deletion, with the version they started from. |
| MergeLaws.OptionsReadBack | shared/sync/graph.ts:957-1004 | Sorting alternatives by cid loses and invents none. |
| ValueLaws.FieldChanges | shared/sync/merge.ts:193-205 | A field changed on one side is as that side left it; ours' change is lost exactly when theirs changed the field differently and conflicts are not allowed (the top node, a ref's value, a ref's own data); theirs' change never is. |
| Conflicts.NodeConflicts | shared/sync/merge.ts:65-180 | For every pair of versions, of any kind and at any depth, a merge that does not fail is a conflict exactly when the versions split, which is told from them without merging. |
| Conflicts.PlainNodesConflict | shared/sync/merge.ts:174-279 | Two changed versions of a plain node conflict exactly when the node is no top node or ref value and both sides changed one field of its data, or both changed one of its own field rows and its versions split; no other row makes them conflict. |
| Lossless.MergeLosesNothing | shared/sync/merge.ts:4-10 | Where rows have keys and branches names of their own, no data field that may not conflict was changed on both sides, no own field of a ref was given two versions that split, and the top ref's values do not split, the merge accounts for both versions at every depth: each change is there, or a choice offers it. |
| Lossless.RefDataKept | shared/sync/merge.ts:170 | A merged ref's data accounts for both sides exactly when no field of it was changed on both, at any depth. |
| Lossless.RefValueKept | shared/sync/merge.ts:153-158 | An untyped ref holds the merge of both values exactly when they do not split; when they do, the ref is the top one and holds ours' whole. |
| Lossless.RefBooksKept | shared/sync/merge.ts:159-171 | Among a merged ref's rows is what became of every row of both refs' bookkeeping exactly when no own field of the ref was given two versions that split, at any depth. |
| Lossless.SplitBooksAreOurs | shared/sync/merge.ts:160 | Otherwise the ref's rows are ours' alone. |
| RefWitnesses.RowsOfTheirsAreLost | shared/sync/merge.ts:159-160 | Both sides gave a ref's own field a value and theirs added a row: the result is ours' version unchanged and nothing is reported. |
| RefWitnesses.ValueOfTheirsIsLost | shared/sync/merge.ts:154-157 | The same in the value of the top ref: ours' value is kept whole, theirs' row is in no part of the result but history, and nothing is reported. |
| ValueLaws.EveryRowStands | shared/sync/merge.ts:241-245 | Every row of a node takes part in its merge exactly when no two of them share a key. |
| MergeWitnesses.FieldIsLost | shared/sync/merge.ts:193-205 | Merging count 1 and count 2 over count 0 at the top gives theirs and reports nothing. |
| MergeWitnesses.RowIsLost | shared/sync/merge.ts:241-245 | Of two rows with one identity that neither side touched, the first is nowhere in the result. |
| Reported.ReportedStands | shared/sync/merge.ts:251-290 | What is raised in a part that was kept, which is told from the three nodes by where they split, is reported and is a row somewhere in the result; a choice in none of the three nodes is one exactly when it was raised so. |
| Reported.NewConflictIsReported | shared/sync/merge.ts:281-289 | Every conflict row anywhere in the result that is in none of the three nodes is reported. |
| MergeWitnesses.ReportedIsGone | shared/sync/merge.ts:257-279 | A row of an inner node becomes a reported choice, then a field of the node conflicts, and the choice is nowhere in the result. |
| MergeWitnesses.MarkIsNotReported | shared/sync/merge.ts:83-96 | Branches without a main version and a conflict merge to a node with the conflict mark that nothing reports. |
| ValueLaws.NoValueIsLost | shared/sync/graph.ts:117-137 | Every value supplied for a typed ref by either side or the base, alone or among earlier branches, is an alternative of the branches they become. |
| ValueLaws.SameChoice | shared/sync/merge.ts:281-288 | Two devices that merge the same conflict, each as its own ours, raise the very same choice node. |
| BranchLaws.NoBranchIsLost | shared/sync/merge.ts:97-119 | Of every name either branched side has a version for, the merged node has one option: the only version, or the merge of both with the request to merge of the side that changed it. |
| BranchLaws.PlainMeetsBranches | shared/sync/merge.ts:83-95 | A plain node beside a branched one is merged with the default branch and leaves every other branch as it is. |
| BranchLaws.HistoryIsKept | shared/sync/merge.ts:161-169 | A new value names exactly both versions as its parents; a merge without one keeps exactly the parents of both sides. |
| Resolve.ResolveChoiceIn | shared/sync/merge.ts:330-357 | The first row with the choice's identity, when it is a choice, is replaced by the picked version or removed; other rows and their order stay; a pick that is no option fails. |
| Resolve.EitherVersionReturns | shared/sync/merge.ts:281-357 | Of every row, proposals too, that a merge of children kept as a choice, some pick restores ours and some pick theirs in the choice's place among the merged rows, or removes the row where that side had deleted it, unless another key is named as the choice is. |
| Convergence.PatchSwap | shared/sync/merge.ts:4-9 | Both edits applied to a tree do not depend on which is named first. |
| ConvergenceLaws.DisjointEditsPatch | shared/sync/merge.ts:65-180 | When at most one side changed each field, row and typed value, at any depth, through plain nodes, refs and the bookkeeping of refs, the merge is both edits applied to the base tree, and raises no choice. |
| MergeTheorems.DisjointEditsConverge | shared/sync/merge.ts:51-63 | Such edits merge to the same tree whichever side merges, with nothing left to decide. |
| MergeTheorems.MergeIsInversePatch | shared/sync/evaluation.ts:375-380 | Merging the node before a publication into the current one, on the published one, gives back exactly the earlier node if nobody else edited; otherwise everything published is undone and every concurrent edit stays, since publishing again gives the current tree. |
| MergeTheorems.PatchRedo | shared/sync/evaluation.ts:375-380 | On trees: undoing a publication and applying it again restores the current tree. |
| Restoring.RestoredIsMerged | shared/sync/evaluation.ts:375-380 | Wherever in a tree the parts of a replica are kept, when publication and concurrent edits changed different ones, the restoring merge takes back the published parts and keeps the others, as the evaluation's model of it does. |
| Restoring.RestoringRefuses | shared/sync/evaluation.ts:376-380 | The restoring merge refuses exactly when the current root and the one before publication split on the published one. |
| Restoring.PlainRootRefuses | shared/sync/evaluation.ts:376-380 | Of a plain root: exactly when one of its own fields was published and edited since, and the versions split. |
| Restoring.RefRootKeepsPublished | shared/sync/merge.ts:153-158 | A root that is a ref is never refused; where the values split the current one stays, with what was published. |
| Restoring.RestoringIsRefused | shared/sync/evaluation.ts:376-380 | A field of the root published and edited since makes the restoring merge refuse. |
| Canonical.JsonUnique | shared/dag-implementation/cid.ts:43-61 | A value's text, as far as it goes, determines the value and what follows it. |
| Canonical.SameText | shared/dag-implementation/cid.ts:43-61 | Two nodes are hashed from one text exactly when their rows are equal in order and their data up to member order, leaving out members named `__proto__`. |
| Canonical.NormalIsPlain | shared/dag-implementation/cid.ts:43-53 | Normalising changes a value exactly when some member of it is named `__proto__`. |
| Canonical.UnambiguousText | shared/dag-implementation/cid.ts:96-98 | Among nodes without such members, one text means one node. |
| Canonical.AmbiguousText | shared/dag-implementation/cid.ts:43-53 | Every node with such a member shares its text with a different node. |
| Canonical.CidRoundTrip | shared/dag-implementation/cid.ts:63-78 | A text parses as a cid exactly when it is a version and a digest formatted, and parses to those. |
| Canonical.CidNamesContent | shared/dag-implementation/cid.ts:85-103 | A node's cid is of the current version, carries the digest of its text, and verifies exactly the nodes of the same text. |
| NodeValues.FieldIdentity | shared/sync/node-values.ts:69-74 | With an editor identity every field gets one, never empty; without one and without an earlier field, none. |
| NodeValueLaws.RoundTrip | shared/sync/node-values.ts:22-139 | Every value accepted is read back as it was, with or without editor identities and over any earlier version; the reader's limits on depth and open nodes and its cycle guard are never met. |
| NodeValueLaws.BuiltReads | shared/sync/node-values.ts:89-139 | The same inside any enclosing nodes, while the reader has room. |
| NodeValueLaws.SameCid | shared/sync/node-values.ts:46-82 | Without identities two values have one cid exactly when they are equal up to member order and undefined parts. |
| NodeValueLaws.CleanBuildsSame | shared/sync/node-values.ts:60-64 | Leaving out undefined members and making undefined items null changes no node. |
| NodeValueStore.ConstructNodeValue | shared/sync/node-values.ts:22-86 | Over a store, field by field: fails exactly where the specified construction does, else puts it, with the table closed and grown; an earlier version counts only when the store holds it. |
| NodeValueStore.ReadGraphValue | shared/sync/node-values.ts:89-139 | The loop over rows reads the specified value, and nothing for a node the store lacks. |
| Fields.PutThenGet | shared/sync/fields.ts:182-198 | A field holds what was put into it. |
| Fields.PutLeavesTheRest | shared/sync/fields.ts:193-198 | Putting a value into one field leaves other fields, child rows and the order of rows as they were. |
| Fields.ConstructedFields | shared/sync/fields.ts:150-158 | A new row's field holds what was supplied, else its type's own value, else nothing. |
| Fields.LeafRoundTrip | shared/sync/fields.ts:51-68 | The leaf put into a field is read from it exactly when no earlier row of the field holds another text or number. |
| ExecutionOrder.GraphOf | shared/sync/evaluation.ts:200-213 | References give every step a list of other existing steps. |
| ExecutionOrder.Placement.Enter | shared/sync/evaluation.ts:214-220 | Depth-first placing with its two sets, in place, ends and computes the specified order whatever the references. |
| ExecutionOrder.ExecutionOrder | shared/sync/evaluation.ts:200-223 | The whole order, from the last step to the first. |
| ExecutionOrderLaws.OrderIsComplete | shared/sync/evaluation.ts:196-223 | Every step exactly once, each after the steps it refers to, except those that refer back to it, also when references are cyclic. |
| ExecutionOrderLaws.RunsAfterDependencies | shared/sync/evaluation.ts:196-223 | Every step runs after all it refers to exactly when no steps refer to each other in a circle. |
| ExecutionOrderLaws.UnrelatedRunBackwards | shared/sync/evaluation.ts:214-222 | Without references steps run last to first. |
| ExecutionOrderLaws.StepsOfANode | shared/sync/evaluation.ts:165-194 | At most 1,000 steps, at most 64 levels down, each listed before the steps below it. |
| ExecutionOrderLaws.ChildrenRunFirst | shared/sync/evaluation.ts:165-223 | Without references the rows below a step run before it. |
| Evaluation.OpenAll | shared/sync/evaluation.ts:333-336 | Steps are opened first to last up to the first failure; every opening tried is recorded as begun. |
| Evaluation.RunPrimitive | shared/sync/evaluation.ts:282-302 | What a handler answers becomes submissions of this evaluation and nothing else. |
| Evaluation.RunOne | shared/sync/evaluation.ts:338-350 | The attempt is journaled before the handler is called and its outcome after; a step without exactly one executor changes nothing. |
| Evaluation.RunAll | shared/sync/evaluation.ts:337-353 | The steps run are some of the execution order, in order; the journal lists exactly those; answers stay submissions. |
| Evaluation.CommitAll | shared/sync/evaluation.ts:354-358 | Every step is committed, last to first, or the first failure stops it. |
| Evaluation.Publish | shared/sync/evaluation.ts:359-374 | The live replica changes only when submissions, done marks and journal are complete on a copy, and then to exactly that. |
| Evaluation.AbortAll | shared/sync/evaluation.ts:385-392 | Exactly the steps begun are aborted, in reverse; each that will not abort gets a task. |
| Evaluation.WindUp | shared/sync/evaluation.ts:381-395 | Submissions are dropped, exactly the steps begun aborted in reverse, and the ending journaled; recovery is needed exactly when some abort failed. |
| Evaluation.Rollback | shared/sync/evaluation.ts:375-395 | What was published is taken back as far as the restoring merge does: wholly, in part, or, when it refuses, not at all, and then nothing else is done. |
| Evaluation.EvaluateNode | shared/sync/evaluation.ts:304-397 | All or nothing in memory, for every pattern of failures: a returned record is committed with everything opened, committed, live and done, or awaits review with nothing live, or was rolled back with exactly the steps begun aborted in reverse; unless committed nothing is live or done, except as far as the merge restoring a publication that was not saved kept it, and all of it, with nothing aborted, when that merge refused; every handler call follows a stored journal entry for it. |
| Evaluation.RecoverEvaluation | shared/sync/evaluation.ts:399-411 | Refused exactly while the run may still be going on; every effect not reverted gets a task; the node may be evaluated again exactly when those tasks are done. |
| Allocation.AllocatePrimitive | shared/sync/arguments.ts:398-446 | The handler's checks and loops compute the specified verdict, grants, emptied handles and next bank. |
| Allocation.CheckInvocation | shared/sync/arguments.ts:402-429 | An invocation passes exactly the specified checks. |
| AllocationLaws.IssuedAsDeclared | shared/sync/arguments.ts:230-243 | An issued grant is held as what its output declared exactly when the output's pattern says nothing else. |
| AllocationLaws.PlannedConforms | shared/sync/arguments.ts:353-362 | The planner's patterns say nothing else. |
| AllocationLaws.PlannedIsAccepted | shared/sync/arguments.ts:382-391 | Of a positive grant a resolving bank holds, the planner admits exactly the uses whose whole invocation is accepted, amounts up to the tolerance over it among them. |
| Operands.CompileBank | shared/sync/ref-compiler.ts:134-161 | The compiler's loop over a bank's rows: refs become their values, lineage rows go, and an open or ill-fitting ref leaves the bank unresolved. |
| Operands.RunInvocation | shared/sync/evaluation.ts:282-286 | Operands are compiled, then the handler runs on them: the specified verdict. |
| Operands.CompiledAgain | shared/sync/ref-compiler.ts:143-161 | A value compiles to itself exactly when it names nothing it came from; a second time changes nothing. |
| AllocationLaws.HoldersAfter | shared/sync/arguments.ts:432-444 | After an accepted invocation a consumed grant is held by no row but issued ones, every other by as many as before and what was issued. |
| AllocationLaws.AllocateConserves | shared/sync/arguments.ts:424-446 | An invocation changes nothing of other resources, and the bank's total of its own by what it issues less what it consumes exactly when each consumed grant is held by one row, else by less. |
| AllocationLaws.TransferConserves | shared/sync/arguments.ts:426-429 | A transfer of grants held once each conserves every total to within the tolerance. |
| AllocationLaws.OneOutputConserves | shared/sync/arguments.ts:417-437 | For one output the bank's total changes as declared exactly when the pattern says nothing else than the declaration. |
| AllocationLaws.ShadowedAmount | shared/sync/arguments.ts:417-437 | An accepted credit of 1 whose pattern says 100 does not add 1. |
| AllocationLaws.TwiceHeldIsLost | shared/sync/arguments.ts:443-444 | A planned use of a whole grant that two rows hold is accepted and leaves the bank with less. |
| AllocationLaws.ConsumedIsGone | shared/sync/arguments.ts:443-444 | After an accepted invocation with fresh nonces no row holds a consumed grant in any form, and no invocation naming it passes. |
| AllocationRuns.RunConserves | shared/sync/arguments.ts:393-446 | Over any run a bank holds what it held, plus credits less debits, to within the tolerance for each transfer. |
| AllocationRuns.UsedOnce | shared/sync/arguments.ts:404-415 | Over any run of compiled invocations each grant is consumed at most once, is never held again in any form, and no later invocation naming it passes. |
| AllocationRuns.StepIsLinear | shared/sync/arguments.ts:432-444 | Every invocation keeps each grant held by at most one row, and no consumed one by any. |
| Lineage.OriginLeadsBack | shared/sync/arguments.ts:226-235 | In every run of a new bank each held grant was issued in place of consumed ones, and these in turn, back to one issued without inputs. |
| Lineage.LineageLeadsBack | shared/sync/arguments.ts:226-235 | What a held grant itself says leads to one issued without inputs exactly when it is one, or it was issued by the last published invocation in place of one. |
| Lineage.HandleAnswers | shared/sync/arguments.ts:270-297 | After any run a handle answers for its grant exactly when the grant was not consumed and either names nothing it came from or no invocation was published. |
| Lineage.LineageFails | shared/sync/arguments.ts:230-235 | After an issue, a use and another use, the first use's grant is held without its lineage, unconsumed, and its handle does not answer. |
| AllocationRuns.PublishedSerially | shared/sync/transactions.ts:90-106 | However invocations are planned at once, published over the bank they were planned on, or abandoned, the bank is what running the published ones in turn makes it. |
| AllocationRuns.OneOfTwo | shared/sync/transactions.ts:93-96 | Of two invocations planned over the same bank only one can be published. |
| Claims.Host.ApplyChanges | shared/sync/events.ts:473-520 | Changes are applied one by one to the live root; the first that fails leaves those before it. |
| Claims.Host.Dispatch | shared/sync/events.ts:223-550 | An event goes through only when leases allow it, and stores exactly the specified next leases. |
| Claims.Host.DispatchEvent | shared/sync/events.ts:218-222 | An event that fails leaves the root as it was, however far it got. |
| ClaimLaws.ClaimsAreExclusive | shared/sync/events.ts:296-334 | In every state any events reach as time passes, live leases do not overlap, a session holds at most one at an attachment, and there are at most 256. |
| ClaimLaws.EventKeepsExclusive | shared/sync/events.ts:544-548 | Claiming, renewing, releasing and submitting keep that. |
| ClaimLaws.OperationsStayClear | shared/sync/events.ts:408-470 | No operation on the graph but inviting succeeds on a path overlapping a live lease other than its own. |
| ClaimLaws.ScopedStaysClear | shared/sync/events.ts:270-287 | Work under a lease stays clear of every other lease at any depth below its path. |
| ClaimLaws.OverlapIsSymmetric | shared/sync/work-claims.ts:26-29 | Overlap does not depend on which lease is named first. |
| ClaimLaws.GrantedIsLive | shared/sync/work-claims.ts:11-22 | A granted lease counts exactly when its path is one the store reads back. |
| ClaimLaws.DeepClaimIsLost | shared/sync/work-claims.ts:11-22 | A lease on 30 names below an attachment of 40 is granted and not there afterwards. |
| ClaimLaws.LeasesHoldBack | shared/sync/events.ts:329-470 | Of what goes through when no one else has leases, leases hold back exactly claims on overlapping paths or past the limit, and completing, answering, branching, deciding and submitting on overlapping paths outside one's own lease. |
| Locks.UserQueues.Join | backend/sync/accountStore.ts:47-51 | A caller waits for the last promise of its account's entry, if there is one, and becomes the last. |
| Locks.UserQueues.Forget | backend/sync/accountStore.ts:51-53 | An entry is deleted only while it is still the settled promise's own. |
| Locks.LockOrderSorted | backend/sync/sharing.ts:27-28 | Accounts are taken once each, in order. |
| LockLaws.OneAtATime | backend/sync/accountStore.ts:40-55 | In every reachable state at most one caller holds an account. |
| LockLaws.WorkIsCovered | backend/sync/sharing.ts:27-31 | A caller at work holds every account it named. |
| LockLaws.StartsInTurn | backend/sync/accountStore.ts:47-55 | Callers of an account start in order of arrival, each after all before it settled, well or not, also past deleted entries. |
| LockLaws.NoDeadlock | backend/sync/sharing.ts:27-31 | In every reachable state with an unfinished caller some caller can go on. |
| Saving.LoadedRoots.SaveRootVersion | backend/sync/storeVersion.ts:1-8 | Saves exactly when the visible root is the one remembered, or the fallback; only then the row moves and the new root is remembered. |
| Saving.StepSound | backend/util.ts:154-209 | Loading, editing at any time, inserting nodes, inserting links, advancing and stopping keep stored and linked nodes closed, what each save took stored, and advances in one chain. |
| Saving.VisibleExactly | backend/util.ts:154-209 | Over any run the visible root stays stored and linked exactly when each advance moves to a root that is so by then. |
| Saving.SteadyIsVisible | backend/util.ts:200-209 | It does in every run, whatever servers do and wherever they stop, in which no store moves during a save to a root the save took no nodes for. |
| Saving.VisibleIsStored | backend/util.ts:154-209 | Whenever it is, every node reachable from it is stored and readable. |
| Saving.LateEditIsVisible | backend/sync/storeVersion.ts:4-8 | A store edited between taking its nodes and reading its root makes a root visible that is not stored. |
| Saving.NothingIsOverwritten | backend/sync/storeVersion.ts:3-8 | Advances form one chain, each made from the root its store had last saved or was loaded at, and a store's next one goes through exactly when the visible root is still that one. |
| Organize.Unused | shared/sync/organize.ts:151-152 | The renaming loop ends, with a name nothing has. |
| Organize.ParseOrganizePlan | shared/sync/organize.ts:129-158 | The loop computes the specified plan from any answer; it fails exactly on text that is not JSON; the title is short. |
| OrganizeLaws.PlanIsBounded | shared/sync/organize.ts:136-155 | At most 100 items; refs differ from each other and from known ids; each parent is the target, known or earlier; new rows nest less than six deep; texts are bounded. |
| OrganizeLaws.NothingIsDropped | shared/sync/organize.ts:138-155 | The plan holds the texts of the answer's items in order, as many as the limit allows. |
| OrganizeLaws.KindIsNamed | shared/sync/organize.ts:144-145 | Every item of a plan is of one of the two types a plan may name exactly when no value taken for it names a property every object has. |
| OrganizeLaws.KindIsInherited | shared/sync/organize.ts:144-145 | An answer's item of type `constructor` keeps that type. |
| OrganizeLaws.EachItemOnce | backend/voice/organize.ts:61-65 | Without an outline, building ends and puts each item exactly once. |
| OrganizeLaws.RowsInPlace | backend/voice/organize.ts:61-65 | Each row is inside its parent's, with its own text and type, rows of one parent in plan order. |
| OrganizeLaws.OutlineRowsAreLeftOut | backend/voice/organize.ts:61-65 | With an outline the items built are exactly those not inside one of its rows. |

## Left out

- DisjointEditsPatch: branched nodes that both sides changed, and a plain node on one side beside a ref on the other under one row, are outside its hypothesis; the laws on branches and `Lossless` speak of both.
- DisjointEditsConverge: the same.
- MergeIsInversePatch: the same.
- NewConflictIsReported: supposes that branched rows of ours have a version for their main branch. That is enough but not the weakest condition: only such a row that meets a conflict of theirs takes its mark unreported, as in `MergeWitnesses.MarkIsNotReported`.
- ReportedStands: its second half supposes the same.
- RefBooksKept: that a row is not accounted for supposes that ours' rows have keys of their own and that no choice among them has the identity of another key's choice; `Lossless.SplitBooksAreOurs` supposes nothing.
- MergeLosesNothing: of a branched node it speaks of the options; the merge takes the default of the version both started from, whatever both selected since (`shared/sync/merge.ts:119`), and writes nothing besides options.
- StoreOf: the version prefix of a cid is checked in `Canonical`, not again on loading.
- Rollback: that others edited what was published is known only by what the restoring merge does; a part it kept is some part of what was published.
- RestoredIsMerged: the case in which publication and later edits changed different parts; `Restoring` says beside it when the merge refuses.
- EvaluateNode: the same; it speaks of memory, and after a failed save the disk may hold what was tried to be saved; what `check` looks at (time, instructions, child rows, unfilled refs) is one nondeterministic answer.
- Dispatch: permissions, masks, revisions and whether a row is outstanding are one input.
- ParseOrganizePlan: taking JSON out of a text and a title out of its line are parameters.
- CompileBank: the compiler's limits, denied reads, cycles, choices and refs inside patterns, and bank rows that are a peer's settings.
- A merge with conflicts on both orders of its sides: only the choice raised is proved the same, since order of rows, the top node's fields and tied proposals follow ours or theirs.
- Row selection in `shared/sync/graph.ts` beyond the edge kinds the merge asks for: a choice edge's standing as a row is an input.
- Allocation: time windows, issuers and locations of grants, and grants minted by a host outside the handler.
- Events: reading, searching and listing outstanding work.
- StepSound: two saves of one store at once; each store has one save under way.
- VisibleIsStored: the same.
- Locks and saving: the text of errors, notification hooks and the queries behind each atomic step.
- Fields: names of fields and the records keyed by them, titles and bodies, and rebuilding a row as another type.
- Organizing: outlines sent to the model, the prompt, metering, and the retry of an answer that is not JSON.
- Lone surrogates in strings, negative zero, and values that are not finite numbers.
