# Layertwine: verified model

Layertwine keeps edits as chains of line deltas, passes them through a layered approval
pipeline (agent, approval, feature, staged; manual, staged) and records the result in a graph
of checkpoints. This project models those three parts in Dafny 4.11 and proves what they
guarantee. `dafny verify dfyconfig.toml` checks everything.

Where the Rust code changes things step by step, the model is a method or a class with the
same fields and branches, proved equal to a specification function; the theorems are lemmas
about those functions and about whole runs of them.

## What is modelled

**Diff, patch and merge** (`Texts`, `LineDiffs`, `Diff`, `Headers`, `Patch`, `Refusals`, `Origins`,
`Changes`, `Runs`, `Merge`, `MergeLaws`, `Joins`, `Overlaps`, `Chains`). Texts are strings, cut
into newline-terminated pieces for diffing and into lines for patching. The external diff is any
function that returns a valid grouped edit script (`Diff.Differ`); every law holds for all such
functions.

- Diff, then patch, is the identity on lines; a chain of deltas gives back the last text byte
  for byte exactly when its final newline agrees with the base's. No differ's diff between two
  texts with different lines is also the diff back.
- Each hunk stands on the new side where it stands on the old side, moved by the growth of the
  hunks before it, and each op behind what the ops before it consume and produce. A diff is
  refused exactly for its first hunk that does not fit, and for which reason is stated.
- The three-way merge loop is total. Each conflict it reports points at its own block in the
  output, and one is reported exactly when the two sides change one base line differently.
- Where no change reaches into a later one of the other side, a merge, conflicts or not, is the
  base with one increasing list of changes replayed: two changes at one line become one, which
  covers what either covers. The conflicts are the clashing pairs, in order, one for each.
- A clean merge is patch commutation: the base with the union of both sides' changes, which is
  also ours followed by their changes moved by ours' growth, whichever side comes first.
- The three early returns of `merge_texts` give what the loop would give.

**The pipeline** (`Objects`, `World`, `Store`, `Pipeline`, `Permanence`, `Heads`, `Provenance`,
`Discards`, `Answers`, `Discipline`, `Gate`, `Exact`, `Delivery`, `ManualMerge`, `Teams`,
`Features`). Insert-only stores of file nodes, deltas and snapshots under content identifiers, and
a table of partitions with a pointer and a history. A run is any sequence of the twelve actions of `Pipeline.Action`, from the empty store,
over any files, empty and unterminated ones included.

- Every stored snapshot of every run reconstructs without error, and its text never changes.
- Every stored snapshot tells where it came from: a file, an edit of its one parent, or a merge
  into its first parent, with the text, the source and the conflict flag of that step.
- Discarding an edit puts the agent back where it was; a discard is refused exactly when nothing
  was written over the file. Every operation returns the pointer it leaves, an approval with the
  conflicts of its three-way merge, and it is stated exactly when each is refused.
- Refinement: the partition table evolves by itself. What the three stores hold never decides
  where a pointer goes (`Heads.RowsAreEnough`).
- Noninterference: erasing all steps of an agent that is never approved leaves every other
  partition, its history and the text of each entry as it was.
- An approval is pending exactly when a pointer-moving submission has been followed by no
  rejection and no pointer-moving approval. No agent delta is ever added to staged.
- Approvals, features and staged are all over one file, and none started from a chain that holds
  an agent's delta.
- At any point of any run an edit reads back as submitted, and an approved edit arrives in
  staged as the three-way merge, under conditions that are exact; so does any feature.
- After any run, two agents' edits, clashing or not, meet in one feature and arrive in staged as
  the merge of their merge. Where they keep apart, both are replayed; so are two features, in
  either order.

**Checkpoints** (`Checkpoints`, `Graph`, `Paths`, `Search`, `Dag`, `Tables`, `Repository`,
`Histories`, `Reload`, `Walks`, `Commits`, `Branching`, `CheckpointRepos`, `Loading`, `Gc`,
`Removal`). The graph object with its generation-pruned searches, the repository object that
writes through to the tables, loading, the history walks and garbage collection.

- The two pruned searches are right for all pairs exactly when generations rise along every
  edge; while they do, an edge is accepted exactly when the graph stays acyclic.
- In every run the edges are the checkpoints' parent relation, the graph is acyclic, the pruned
  ancestor test is true reachability, and generations are longest parent paths. Repeated
  commits of one identifier are included.
- Loading the tables after any run yields the same graph, generations, checkpoints, branches
  and current branch.
- A new branch stands at the head that was current, or at the checkpoint given: switching to it
  returns that head and lists its log. A merge joins the histories of its two parents. Memory and
  tables still agree after any run and any removals behind it.
- A search along parents visits in the order of least index paths: shorter first, then the
  order in which parents are recorded. Logs list ancestors nearest first, and a commit puts the
  new checkpoint before the old log.
- A merge base is a common ancestor nearest to the second argument; a collection removes exactly
  what nothing protected reaches.

## Where the code does less than it says

The lemmas named give a concrete input, the exact condition under which the property holds, or both.

- `get_deltas` takes each row out of its map once, so a delta identifier that occurs twice in a
  chain is applied once. Editing a file from one text to another, back, and forth again loses
  the last edit (`Exact.EditIsLost`; exact condition in `Exact.EditsReadBackInRuns`).
- A text's final newline follows the base file's, and a lone newline is lost: over the empty
  file that initialisation writes, a first edit loses its final newline (`Texts.RenderOfLines`,
  `Chains.ChainRoundTrip`, `Delivery.FirstEditIsDelivered`; exact condition in
  `Exact.EditsReadBackInRuns`).
- An approval that finds nothing to merge leaves the agent listed as pending. An agent
  that delivers into a new feature gets there by adding two newlines to an unterminated text, and
  in no other way (`Delivery.BlankTailStaysPending`; exact condition in `Delivery.EditIsDelivered`); a second
  agent does by making the edit the first one made (`Teams.SameEditStaysPending`; exact condition
  in `Teams.TwoAgentsMeet`).
- `discard_agent_edit` is documented to abandon the agent's modifications. It takes back the last
  delta of the chain, whoever wrote it: an agent that has edited nothing is taken behind the staged
  text it started from (`Discards.DiscardWithoutEdit`; exactly when in `Discards.DiscardIff`).
- The conflict flag that a commit checks is that of the last merge into staged. Two agents'
  clash is flagged on the feature; staging it over an unmoved staged partition raises no flag
  (`Teams.ClashIsNotFlagged`; exact flags in `Teams.TwoAgentsMeet` and `Features.FeatureIsStaged`).
- The merge is documented to report a conflict where both sides change one area differently.
  Changes that overlap and start at different lines are both written, without a report, and lines
  one side has deleted can come back (`Overlaps.OverlapLosesConflict`; what happens in
  `Overlaps.OverlapIsUnreported`, and what is reported exactly in `MergeLaws.ConflictIffClash`).
- Merging manual into staged is documented as a merge over staged's first history entry that
  does not overwrite changes from other paths. The code takes staged itself for the base, so
  the manual text wins: an approved and staged edit is dropped by merging an untouched manual
  partition (`ManualMerge.ManualDropsStagedEdit`; exact condition in
  `ManualMerge.ManualReplacesStaged`).
- `add_edge` does not renumber descendants. After an edge to a node that has children, the
  ancestor test can deny an edge and the cycle check can admit a cycle
  (`Dag.StaleGenerationAdmitsCycle`; exact condition in `Dag.StaysExactIff`).
- `get_ancestry_chain` is documented as topological; merging a branch into the checkpoint it
  started from puts a parent after its child (`Walks.MergeChainIsNotTopological`; exact
  condition in `Walks.ChainTopologicalIff`).
- `collect_garbage` never removes anything from a repository grown from its root while a branch
  is left (`Gc.NothingIsGarbage`).

## Model

| member | source | states |
|---|---|---|
| `Texts.LinesAreStrippedTokens` | `src/engine/diff.rs:30-47` | The pieces the differ counts, stripped of line ends, are the lines the patcher counts |
| `Texts.JoinOfLines` | `src/engine/merge.rs:24-45` | Joining a text's lines gives the text without its final newline |
| `Texts.LinesOfRender` | `src/engine/merge.rs:24-45` | Cutting a rendered list of lines gives it back exactly when it is faithful; otherwise one empty last line is lost |
| `Texts.RenderOfLines` | `src/engine/merge.rs:24-45` | A text survives cutting and rendering if and only if its final newline agrees with the requested one and it is not a lone newline |
| `Diff.BuildOp` | `src/engine/diff.rs:53-101` | The op built from a range has that range's lengths and the new side's stripped lines |
| `Diff.BuildHunk` | `src/engine/diff.rs:49-122` | The hunk of a group: it starts where the group starts, spans it on both sides, and holds one op for each range in order |
| `Diff.DiffToLineDiff` | `src/engine/diff.rs:42-125` | The diff is one hunk for each group of the edit script, in order |
| `Diff.OpsCount` | `src/engine/diff.rs:103-121` | The old and new lengths of a hunk's ops add up to the span of its group |
| `Diff.DiffRoundTrip` | `src/engine/diff.rs:42-125` | For every edit-script function and all texts, the diff applies to the old lines without error and yields the new ones |
| `Diff.EmptyDiffIffSame` | `src/engine/diff.rs:42-125` | A diff is empty exactly when both texts are the same string |
| `Diff.DiffWellFormed` | `src/engine/diff.rs:49-122` | Hunk headers equal the sums of their ops, no op keeps an empty range, and hunks are in order with at least one line between them |
| `Headers.DiffNumbered` | `src/engine/diff.rs:49-122` | For every differ and all texts, each hunk's new start is its old start moved by the growth of the hunks before it, and the starts of each op are those of its hunk plus what the ops before it consume and produce |
| `Headers.DiffMirrors` | `src/engine/diff.rs:49-101` | The diff has a hunk for each group of the script and in it an op for each range, in order, of the same kind and lengths |
| `Origins.DiffBackDiffers` | `src/engine/diff.rs:42-125` | For every differ, two texts with different lines never have the same diff there and back |
| `Patch.ApplyHunkOps` | `src/engine/merge.rs:68-104` | The op loop over one hunk, with each bounds check and its error |
| `Patch.ApplyLineDiff` | `src/engine/merge.rs:53-119` | The hunk loop, with the overlap and range errors and the untouched lines between and after hunks |
| `Patch.ApplyLonger` | `src/engine/merge.rs:53-119` | A diff that applies to some lines applies to the same lines with more behind them and leaves those alone |
| `Refusals.ApplyOkIff` | `src/engine/merge.rs:53-119` | For all lines and diffs, a diff applies if and only if every hunk starts behind the one before it, ends within the lines and keeps nothing beyond them; otherwise the error is that of the first hunk that does not |
| `Chains.ApplyDeltas` | `src/engine/merge.rs:23-46` | The fold over a delta chain, rendered with the base's final newline |
| `Chains.FoldConcat` | `src/engine/merge.rs:30-37` | Applying a concatenation of chains is applying one after the other, errors included |
| `Chains.ChainRoundTrip` | `src/engine/merge.rs:23-46` | A chain of successive diffs never errs and returns the last text byte for byte if and only if its final newline agrees with the base's |
| `Refusals.ChainFailsFirst` | `src/engine/merge.rs:23-46` | A chain fails with the error of its first diff that does not apply; the empty chain gives the content back |
| `Changes.FlushChange` | `src/engine/merge.rs:349-365` | The collected change is appended, if any, and the three accumulators are reset |
| `Changes.ScanHunk` | `src/engine/merge.rs:376-433` | The changes of one hunk: adjacent deletions, insertions and replacements make one change |
| `Changes.ExtractChanges` | `src/engine/merge.rs:370-437` | The changes of all hunks, in order |
| `Changes.ReplayIsPatch` | `src/engine/merge.rs:370-437` | For any coherent diff that applies, replaying the extracted changes over the base equals applying the diff |
| `Changes.SideReplays` | `src/engine/merge.rs:196-215` | The changes of a diffed side lie inside the base, never touch one another, and replay to that side's lines |
| `Runs.ChangesAreRuns` | `src/engine/merge.rs:370-437` | For every differ and all texts, the changes of a side are exactly those that the longest runs of non-keeping ops in its hunks make: none is dropped, cut or joined |
| `Merge.AppendUnchanged` | `src/engine/merge.rs:438-445` | Appends exactly the base lines between two positions, cut at the end of the base |
| `Merge.AppendChange` | `src/engine/merge.rs:447-451` | Appends exactly the change's lines |
| `Merge.MergeSameStart` | `src/engine/merge.rs:250-315` | Two changes at one base line: taken once when they agree, else a conflict with both sides and ours kept |
| `Merge.MergeLoop` | `src/engine/merge.rs:217-327` | The two-pointer loop terminates on all inputs and computes the merge specification |
| `Merge.MergeTexts` | `src/engine/merge.rs:159-338` | The three early returns, the loop, and the final newline |
| `MergeLaws.ConflictsWellPlaced` | `src/engine/merge.rs:217-320` | With no precondition: each conflict indexes exactly its ours block, the blocks are ordered and disjoint, and each conflict comes from two differing changes at one base line |
| `MergeLaws.ConflictIffClash` | `src/engine/merge.rs:250-315` | A conflict is reported if and only if the two sides hold differing changes at one base line |
| `Joins.JoinedMerge` | `src/engine/merge.rs:217-338` | Where no change reaches into a later one of the other side, the merged lines are the base with the one joined list replayed, in which a pair at one line covers the longer of the two and writes ours, or the longer of two insertions that agree |
| `Joins.ConflictsAreClashes` | `src/engine/merge.rs:250-315` | With no precondition: the conflicts are the clashing pairs of the two sides, one for each, in base order, each with its base lines and both sides' lines |
| `Joins.ConflictStarts` | `src/engine/merge.rs:250-315` | Each conflict starts where the joined changes before it move the base line of its pair |
| `Overlaps.OverlapIsUnreported` | `src/engine/merge.rs:217-320` | Where one side's change starts inside the other's, no conflict is reported in either order: both are written, and the base goes on behind the inner one |
| `Overlaps.OverlapLosesConflict` | `src/engine/merge.rs:153-159` | A family of inputs with a differ: ours replaces three lines, theirs the middle one; the result holds both and the last line again, without a conflict |
| `MergeLaws.CleanMergeIsUnion` | `src/engine/merge.rs:217-338` | A clean merge reports no conflict and its lines are the base with the union of both sides' changes replayed |
| `MergeLaws.CleanMergeIsRebase` | `src/engine/merge.rs:217-338` | A clean merge is ours followed by their other changes, moved by the net growth of ours' earlier changes |
| `MergeLaws.CleanMergeCommutes` | `src/engine/merge.rs:159-338` | Swapping the sides of a clean merge changes neither lines nor text, and there is no conflict |
| `MergeLaws.LoopOnEasyInputs` | `src/engine/merge.rs:162-194` | On equal sides, or with one side unchanged, the general loop reports no conflict and gives the side that changed |
| `MergeLaws.MergeIsLoop` | `src/engine/merge.rs:159-338` | Early return or not, conflicts and lines are the loop's, up to one empty last line that rendering can lose |
| `MergeLaws.EarlyReturnText` | `src/engine/merge.rs:162-194` | An early return's text is the loop's rendering unless it is a lone newline |
| `Store.LayerStore.StoreDelta` | `src/storage/sqlite/delta.rs:53-81` | Insert or ignore: the first row of an identifier stays |
| `Store.LayerStore.StoreSnapshot` | `src/storage/sqlite/snapshot.rs:72-106` | Insert or ignore: the first row of an identifier stays |
| `Store.LayerStore.GetDeltas` | `src/storage/sqlite/delta.rs:93-129` | Rows in the order asked for, unknown identifiers skipped, each row given once |
| `Store.LayerStore.AddPartition` | `src/storage/sqlite/partition.rs:12-45` | A new partition points at its snapshot, with that as its history; a second one of the name is refused |
| `Store.LayerStore.MovePointer` | `src/storage/sqlite/partition.rs:251-285` | The pointer moves and the history grows by one entry |
| `Store.LayerStore.ResetToBaseline` | `src/storage/sqlite/partition.rs:126-157` | Pointer and history go back to the first entry |
| `Store.LayerStore.Ensure` | `src/layered/integrated.rs:27-51` | An existing partition is kept, a missing one is created at the given snapshot |
| `Store.LayerStore.Reconstruct` | `src/layered/transition.rs:304-319` | The stored content with the snapshot's deltas applied, or the error met |
| `Store.LayerStore.ApplyAgentEdit` | `src/layered/agent.rs:51-125` | File node, delta, snapshot and pointer after an agent edit, with all error cases |
| `Store.LayerStore.ApplyManualEdit` | `src/layered/manual.rs:50-114` | The same for a manual edit |
| `Store.LayerStore.DiscardAgentEdit` | `src/layered/agent.rs:215-239` | The agent's pointer moves to the first parent of its current snapshot, as a new history entry, or the error |
| `Store.LayerStore.MoveAgentToApproval` | `src/layered/agent.rs:132-212` | A submission: the merge of agent and approval over the baseline is recorded in the approval |
| `Store.LayerStore.RejectApproval` | `src/layered/approval.rs:76-97` | A rejection resets the approval to its baseline |
| `Store.LayerStore.PendingApprovals` | `src/layered/approval.rs:63-74` | Exactly the agents whose approval holds more than its baseline |
| `Store.LayerStore.MergeAgentToFeature` | `src/layered/integrated.rs:92-188` | An approval: feature created at its baseline if missing, merge recorded there, approval reset |
| `Store.LayerStore.MergeFeatureToStaged` | `src/layered/staged.rs:88-175` | A feature merged into staged over the feature's baseline, with a manual source |
| `Store.LayerStore.MergeFeaturesToStaged` | `src/layered/staged.rs:182-208` | Features in turn, conflicts accumulated, stopping at the first error |
| `Store.LayerStore.MergeManualToStaged` | `src/layered/manual.rs:125-197` | The manual partition merged into staged |
| `Pipeline.PickIsFresh` | `src/storage/sqlite/delta.rs:93-129` | What a read applies: the diffs of a chain with repeats of an identifier dropped |
| `Pipeline.ReadIsText` | `src/layered/transition.rs:304-319` | In a complete store a snapshot's text is a function of its identifier alone |
| `Pipeline.ExtendedText` | `src/core/snapshot.rs:113-134` | What a chain reads after it is extended: unchanged for a repeated delta, else exactly the target's lines and what was hidden before |
| `Pipeline.EditReadsBack` | `src/layered/manual.rs:50-114` | Extending any readable chain reads back byte for byte if and only if the delta is new and the text survives: it ends as the base file does, or, over a chain that hides a blank line, that line becomes its final newline |
| `Pipeline.StepGood` | `src/layered/transition.rs:304-319` | Each action keeps every chain complete and readable, and only adds rows and history |
| `Pipeline.EverySnapshotReads` | `src/layered/transition.rs:304-319` | After any run every stored snapshot reconstructs without error, and everything a partition ever pointed to is stored |
| `Pipeline.SnapshotsArePermanent` | `src/storage/sqlite/snapshot.rs:72-106` | Whatever follows, a stored snapshot stays and its text never changes |
| `Pipeline.HistoriesAreKept` | `src/storage/sqlite/partition.rs:251-285` | The pointer is the last history entry, the first entry never changes, and outside approvals history only grows |
| `Permanence.RowsNeverChange` | `src/storage/sqlite/snapshot.rs:72-106` | From any tables, damaged ones too, no run changes or removes a row of files, deltas or snapshots |
| `Permanence.PickSkips` | `src/storage/sqlite/delta.rs:93-129` | From any table, an identifier without a row, or asked for before, changes nothing about what a read gives |
| `Permanence.PickInOrder` | `src/storage/sqlite/delta.rs:93-129` | Identifiers asked for once and stored give their rows in the order asked for |
| `Provenance.StepTold` | `src/core/snapshot.rs:167-203` | Each action keeps it that every snapshot tells where it came from and that every delta is filed under a stored text |
| `Provenance.EverySnapshotTells` | `src/core/snapshot.rs:94-203` | After any run a stored snapshot without a layer is a file's first; one of an agent or manual edits its one parent; every other one merges into its first parent, with the text, source and conflict flag of that merge; all it refers to is stored |
| `Discards.DiscardIff` | `src/layered/agent.rs:215-239` | In any run a discard is refused exactly without the agent or with nothing written over the file; otherwise the pointer goes to the stored chain without its last delta and nothing else changes |
| `Discards.DiscardUndoesEdit` | `src/layered/agent.rs:215-239` | After any run, an edit that changes the text and then a discard: the discard succeeds, the pointer is the old one, its history is longer by the edit and by that pointer, and it reads as before |
| `Discards.DiscardWithoutEdit` | `src/layered/agent.rs:214-239` | After any run in which staged has moved on from its file, a new agent's discard takes it behind where it started |
| `Answers.EditReturns` | `src/layered/agent.rs:51-125` | In any run an edit returns the pointer it leaves and is refused exactly when the partition is missing |
| `Answers.SubmissionReturns` | `src/layered/agent.rs:132-212` | In any run a submission leaves the approval at the snapshot returned, with the conflicts of its merge over the approval's first text; refused exactly when a partition is missing |
| `Answers.RejectionReturns` | `src/layered/approval.rs:76-97` | In any run a rejection returns the approval's first entry, goes back to it and touches nothing else; refused exactly when there is no approval |
| `Answers.ApprovalReturns` | `src/layered/integrated.rs:92-188` | In any run an approval returns where the feature then stands and the conflicts of merging approval and feature over the feature's first text: none if and only if the two sides do not clash |
| `Answers.StagingReturns` | `src/layered/staged.rs:182-208` | In any run staging features returns where staged then stands; refused for an empty list, and otherwise exactly when staged or a named feature is missing |
| `Answers.FeaturesInTwoGoes` | `src/layered/staged.rs:182-208` | From any tables, staging two lists of features is staging their concatenation: conflicts add up in order, the first failure ends it |
| `Answers.FeaturesOfOne` | `src/layered/staged.rs:182-208` | Staging a list of one feature is merging that feature |
| `Answers.ManualReturns` | `src/layered/manual.rs:125-197` | In any run staging manual returns where staged then stands, and its merge over staged itself has no conflict; refused exactly when a partition is missing |
| `Answers.StartsAtStaged` | `src/layered/api.rs:168-180` | In any run a new agent, approval or feature starts where staged stands, and an existing one stays |
| `Heads.RowsAreEnough` | `src/storage/sqlite/partition.rs:251-285` | Over any run the partition table is a function of the partition table alone: each pointer is computed from identifiers, whatever files, deltas and snapshots are stored |
| `Discipline.StepFrame` | `src/storage/sqlite/partition.rs:251-285` | In a sound state no action changes a partition outside its own layer and instance |
| `Discipline.PendingIffOpen` | `src/layered/approval.rs:63-97` | After any run an agent is listed as pending exactly when its last pointer-moving submission was followed by no rejection and no pointer-moving approval |
| `Discipline.StagedIsNeverWrittenByAgents` | `src/layered/staged.rs:146-169` | In any run every delta of a staged snapshot beyond the baseline has a source other than an agent |
| `Discipline.BaselinesAreUnowned` | `src/layered/approval.rs:17-40` | After any run every approval and feature started from a chain without an agent's delta, they and staged are over one file, and staged holds no agent's delta |
| `Gate.UnapprovedWorkIsInvisible` | `src/layered/integrated.rs:92-188` | In any run in which an agent is never approved, erasing its edits, submissions, discards and rejections leaves every other partition's pointer, history and texts identical |
| `Exact.EditExact` | `src/layered/agent.rs:51-125` | From any sound state, over any file, an edit succeeds, and its head reads back as the submitted text if and only if that text was there, or its delta is new to the chain and the text survives |
| `Exact.EditsReadBackInRuns` | `src/layered/agent.rs:51-125` | The same at any point of any run, with no condition on the run |
| `Exact.OrdinaryRunsShow` | `src/engine/merge.rs:23-46` | In runs over newline-terminated files without a lone newline no snapshot hides a line, so a text survives exactly when it is empty or newline-terminated and not a lone newline |
| `Exact.EditIsLost` | `src/storage/sqlite/delta.rs:123-127` | For every differ, over any file but a lone newline, toggling between its text and another that survives loses the third edit |
| `Delivery.EditIsDelivered` | `src/layered/staged.rs:88-175` | Edit, submission, approval into a new feature and staging, after any run, over any files and for any text: the exact text of staged and its conflict flag; the agent stays pending exactly when an unterminated file's shown text is resubmitted with two more newlines |
| `Delivery.DeliveredIff` | `src/layered/staged.rs:88-175` | After any run, over a base that hides no line, for a text whose last line shows: the agent is not pending; staged reads as the three-way merge if and only if it did before, or the staged delta is new and the merge survives; it is flagged exactly when that merge conflicts, or was flagged and nothing was written |
| `Delivery.FirstEditIsDelivered` | `src/layered/staged.rs:88-175` | From an empty store, over any file but a lone newline, the empty one included: the first edit, submitted, approved and staged, is what staged reads, with the file's own ending, without a conflict flag, and nothing stays pending |
| `Delivery.BlankTailStaysPending` | `src/layered/approval.rs:60-66` | From an empty store, over every unterminated file: an edit that adds two newlines leaves the agent pending after its approval |
| `Delivery.DisjointIsUnion` | `src/layered/staged.rs:88-175` | For all texts: if staged moved by changes apart from the edit's, the merge reports no conflict and is the base with both sides' changes replayed, or a lone newline |
| `ManualMerge.ManualReplacesStaged` | `src/layered/manual.rs:117-197` | After any run merging manual makes staged read exactly as the manual text if and only if it did already, or something is written by a delta new to the staged chain and the text survives |
| `ManualMerge.ManualDropsStagedEdit` | `src/layered/manual.rs:117-197` | From an empty store, for every edit: once it is approved and staged, merging the untouched manual partition puts the old text back |
| `Teams.TwoAgentsMeet` | `src/layered/integrated.rs:92-188` | After any run, for two agents over one baseline that hides no line, any two edits and staged anywhere: the feature reads as the merge of both edits; staged reads as its merge into staged if and only if it did before, or the staged delta is new and the merge survives; both flags; the first agent is not pending, the second exactly when it changed something and the feature read so already |
| `Teams.SecondApprovalReturns` | `src/layered/integrated.rs:92-188` | After any run, the second of two approvals over one base returns the conflicts of merging the two edits |
| `Teams.UnmovedIsNotFlagged` | `src/layered/staged.rs:213-241` | Over an unmoved, unflagged staged partition the clash of two agents is flagged on the feature and never on staged |
| `Teams.ClashIsNotFlagged` | `src/layered/staged.rs:213-241` | Texts and a differ for which two agents replace one line, each in its own way, from an empty store: the feature is flagged and staged is not |
| `Teams.ApartEditsMeet` | `src/layered/staged.rs:88-175` | After any run, over an unmoved staged partition, edits that keep apart: staged reads as the base with both replayed if and only if it did before or the staged delta is new |
| `Teams.FirstEditsMeet` | `src/layered/staged.rs:88-175` | From an empty store such edits are both replayed, outright |
| `Teams.SameEditStaysPending` | `src/layered/approval.rs:60-66` | From an empty store two agents make the same edit: the second stays pending after its approval |
| `Features.FeatureIsStaged` | `src/layered/staged.rs:88-175` | After any run, any feature, staged anywhere: staging it gives the three-way merge if and only if it was there, or the delta is new and the merge survives; and the exact conflict flag |
| `Features.FeaturesInTurn` | `src/layered/staged.rs:177-208` | After any run, two features over one baseline with changes apart, over an unmoved staged partition, the first one's delta new: staged in turn they read as the baseline with both replayed if and only if the first gave that already or the second one's delta is new; no flag is raised |
| `Features.FeaturesInEitherOrder` | `src/layered/staged.rs:177-208` | While no delta repeats, either order gives the same text |
| `Graph.RisingIsAcyclic` | `src/checkpoint/dag.rs:66-69` | A graph whose generations strictly rise along edges has no cycle |
| `Graph.AddEdgeAcyclic` | `src/checkpoint/dag.rs:41-48` | An edge whose end cannot reach its start closes no cycle |
| `Graph.AddEdgeCyclic` | `src/checkpoint/dag.rs:41-48` | An edge whose end reaches its start closes one |
| `Search.OrderIsByLeastPath` | `src/checkpoint/repo.rs:661-685` | A breadth-first search along parents lists exactly what is reachable, once each, by strictly increasing least index path, shorter paths first |
| `Search.OrderIsByDistance` | `src/checkpoint/repo.rs:661-685` | So nothing nearer comes after something further |
| `Dag.CheckpointDag.AddNode` | `src/checkpoint/dag.rs:33-36` | Adds a node without children and generation 0, or changes nothing |
| `Dag.CheckpointDag.AddEdge` | `src/checkpoint/dag.rs:41-48` | Refuses exactly when the cycle check says so, else adds the edge and raises the child's generation |
| `Dag.CheckpointDag.AddEdgeUnchecked` | `src/checkpoint/dag.rs:53-64` | Both nodes, the edge, and the child's generation as the larger of its own and one above the parent's |
| `Dag.CheckpointDag.WouldCreateCycle` | `src/checkpoint/dag.rs:70-102` | The pruned search: same node, or a lower generation and a path back |
| `Dag.CheckpointDag.Ancestors` | `src/checkpoint/dag.rs:118-142` | The search order along parents without its start |
| `Dag.CheckpointDag.IsAncestor` | `src/checkpoint/dag.rs:149-185` | The pruned search forward: same node, or not excluded by generations and reachable |
| `Dag.CheckpointDag.MergeBase` | `src/checkpoint/dag.rs:190-224` | The first node met from the second argument that the first one reaches |
| `Dag.CheckpointDag.RemoveNode` | `src/checkpoint/dag.rs:245-252` | The node, its generation and all edges to it are gone, nothing else |
| `Dag.CycleCheckIsExact` | `src/checkpoint/dag.rs:66-102` | While generations rise, the pruned cycle check answers true reachability |
| `Dag.AncestorIsExact` | `src/checkpoint/dag.rs:144-185` | While generations rise, the pruned ancestor test answers true reachability |
| `Dag.AcceptedIffAcyclic` | `src/checkpoint/dag.rs:38-48` | While generations rise, an edge is accepted if and only if the graph with it is acyclic |
| `Dag.ExactIffOrdered` | `src/checkpoint/dag.rs:66-102` | Where every edge joins two different numbered nodes, the ancestor test answers reachability for all pairs if and only if generations rise along every edge, and the cycle check likewise |
| `Dag.OrderKeptIff` | `src/checkpoint/dag.rs:53-64` | Generations still rise after an accepted edge if and only if every child of its end is above the end's new generation |
| `Dag.StaysExactIff` | `src/checkpoint/dag.rs:41-64` | So after an accepted edge both tests are still right for all pairs if and only if that holds |
| `Dag.LeafKeepsOrder` | `src/checkpoint/dag.rs:53-64` | An edge to a node without children is accepted and keeps the order |
| `Dag.StaleGenerationAdmitsCycle` | `src/checkpoint/dag.rs:59-63` | Four accepted edges after which the graph has a cycle and an edge is denied by the ancestor test |
| `Dag.MergeBaseIsNearest` | `src/checkpoint/dag.rs:187-224` | For any finite parent function: none exactly when no common ancestor exists, else a common one nearest to the second argument |
| `Tables.CheckpointStore.StoreCheckpoint` | `src/storage/sqlite/checkpoint.rs:9-39` | Insert or ignore: the first row of an identifier stays |
| `Tables.CheckpointStore.UpdateBranchHead` | `src/storage/sqlite/checkpoint.rs:197-205` | Moves the head of an existing row only |
| `Tables.CheckpointStore.ListBranches` | `src/storage/sqlite/checkpoint.rs:207-233` | Every row once, in order of name |
| `Tables.CheckpointStore.StoreDagEdge` | `src/storage/sqlite/dag.rs:120-141` | The edge and the child's generation are written; the parent gets 0 unless it has one |
| `Tables.CheckpointStore.DeleteDagNode` | `src/storage/sqlite/dag.rs:143-154` | All edges at the node and its generation go, nothing else |
| `Tables.CheckpointStore.LoadDag` | `src/storage/sqlite/dag.rs:156-204` | The edge table as an adjacency map with an entry for each end, and the generation table |
| `CheckpointRepos.CheckpointRepo.constructor` | `src/checkpoint/repo.rs:124-158` | A new repository: root checkpoint, branch main, one node of generation 0 |
| `CheckpointRepos.CheckpointRepo.Commit` | `src/checkpoint/repo.rs:389-438` | Refuses an empty list, an unknown head and an unchanged list; else memory and tables as specified |
| `CheckpointRepos.CheckpointRepo.CommitAllowEmpty` | `src/checkpoint/repo.rs:457-486` | The same without the refusals |
| `CheckpointRepos.CheckpointRepo.MergeBranches` | `src/checkpoint/repo.rs:604-645` | A checkpoint on both heads; both edges are tried and written with the final generation |
| `CheckpointRepos.CheckpointRepo.CreateBranch` | `src/checkpoint/repo.rs:507-521` | A branch at the current head, unless the name is taken |
| `CheckpointRepos.CheckpointRepo.CreateBranchFrom` | `src/checkpoint/repo.rs:525-544` | A branch at a loaded checkpoint, unless the name is taken |
| `CheckpointRepos.CheckpointRepo.SwitchBranch` | `src/checkpoint/repo.rs:548-560` | The first branch of the name becomes current, in memory and in the table |
| `CheckpointRepos.CheckpointRepo.RemoveCheckpoint` | `src/checkpoint/repo.rs:705-724` | Map and graph lose the checkpoint; its rows go only if the checkpoint's row was there |
| `CheckpointRepos.CheckpointRepo.LogFrom` | `src/checkpoint/repo.rs:661-685` | The first so many loaded checkpoints of the search order |
| `CheckpointRepos.CheckpointRepo.GetAncestorsTo` | `src/checkpoint/repo.rs:742-773` | The loaded part of the search up to the target, or an error |
| `CheckpointRepos.CheckpointRepo.GetAncestryChain` | `src/checkpoint/repo.rs:821-846` | The search kept in two lists, reversed, is the reversed search order |
| `Loading.RestoreDag` | `src/checkpoint/repo.rs:193-215` | The graph of the edge table, with the stored generation for each node that has one, and the length of some walk to each other node |
| `Loading.BuildDag` | `src/checkpoint/repo.rs:271-284` | The graph that results from inserting all checkpoints in some order, each with its edges: the parent relation, where each generation is the length of some walk to the checkpoint and 0 only where no edge ends |
| `Loading.Load` | `src/checkpoint/repo.rs:171-260` | Opening a store: root and main for an empty one, then graph and current branch from the tables |
| `Histories.StepSound` | `src/checkpoint/repo.rs:389-645` | Every operation keeps: parents loaded, one root, edges exactly the parent relation, generations one above the highest parent, tables mirroring memory |
| `Histories.EdgesOfNew` | `src/checkpoint/repo.rs:604-628` | All parent edges of a new checkpoint are accepted and it lands one above its highest parent |
| `Reload.EveryRunKeepsGraph` | `src/checkpoint/repo.rs:389-645` | After every run the edges are the parent relation, the graph is acyclic, the pruned ancestor test is reachability, and generations are longest paths from a root |
| `Reload.GenerationIsLongest` | `src/checkpoint/dag.rs:19-20` | A generation is the length of the longest walk to the checkpoint, and one of that length starts at a root |
| `Reload.LoadIsExact` | `src/checkpoint/repo.rs:171-260` | Loading what a sound repository has written yields that repository, up to the order of branches |
| `Reload.ReloadIsExact` | `src/checkpoint/repo.rs:171-260` | After any run from an empty store loading yields the same graph, generations, checkpoints, branches and current branch, and the result is sound again |
| `Reload.OpensOn` | `src/checkpoint/repo.rs:241-248` | A store opens on the branch whose name is recorded, on main when none is, and on the first one listed when there is no such branch |
| `Walks.LogIs` | `src/checkpoint/repo.rs:657-685` | The log holds distinct loaded ancestors nearest first, as many as asked for or all; shorter logs are prefixes |
| `Walks.HistoryIsComplete` | `src/checkpoint/repo.rs:657-685` | No loaded ancestor is missing from the whole log |
| `Walks.AncestorsToIff` | `src/checkpoint/repo.rs:738-773` | Succeeds if and only if the target is a loaded ancestor of the head; then the result is the part of the log that ends with it |
| `Walks.ChainHolds` | `src/checkpoint/repo.rs:816-846` | The chain holds exactly what the checkpoint reaches, once each, the checkpoint last |
| `Walks.ChainTopologicalIff` | `src/checkpoint/repo.rs:816-846` | The chain is topological if and only if, for everything reachable and each of its parents, the least index path to the parent is above the least index path to the child |
| `Walks.LinearIsTopological` | `src/checkpoint/repo.rs:816-846` | So it is on acyclic histories without merges |
| `Walks.MergeChainIsNotTopological` | `src/checkpoint/repo.rs:818-820` | Five operations on a new repository after which the chain of the head is not topological |
| `Commits.CommitExtendsLog` | `src/checkpoint/repo.rs:457-486` | A new checkpoint moves the current branch only; its whole log is the new checkpoint and then the old log, and the log from every older checkpoint stays |
| `Branching.InitialIs` | `src/checkpoint/repo.rs:124-158` | A new repository is sound and holds one checkpoint of the given snapshots, without parents, on main |
| `Branching.BranchOpensAtHead` | `src/checkpoint/repo.rs:507-521` | In any sound repository a branch created and switched to returns the head that was current, with the same log; all other branches and the current one stay; refused exactly for a name that is taken |
| `Branching.BranchOpensAt` | `src/checkpoint/repo.rs:525-544` | The same at the checkpoint given; refused for an unknown one first |
| `Branching.SwitchIff` | `src/checkpoint/repo.rs:548-560` | A switch succeeds exactly for the branches there are, returns the head and changes only which branch is current |
| `Branching.CommitIff` | `src/checkpoint/repo.rs:389-438` | A commit is refused exactly for no snapshots or for the head's own; otherwise the current branch moves to a checkpoint with that content on the old head |
| `Branching.CommitTwice` | `src/checkpoint/repo.rs:389-438` | A commit right after one of the same snapshots is always refused |
| `Branching.MergeIff` | `src/checkpoint/repo.rs:604-645` | A merge is refused exactly for no snapshots or an unknown branch; otherwise the current branch moves to a checkpoint on its own head and the other one, in this order |
| `Branching.MergeJoinsHistories` | `src/checkpoint/repo.rs:604-645` | Back from a new merge one reaches the merge, what the current head reached and what the other head reached |
| `Branching.RowsNeverChange` | `src/storage/sqlite/checkpoint.rs:9-39` | From any state no run changes or removes the row of a checkpoint |
| `Branching.BranchRows` | `src/storage/sqlite/checkpoint.rs:159-205` | From any state, a commit or merge moves the row of a branch that has one and adds none; a new branch replaces a row left over under its name |
| `Gc.DepthSearch` | `src/git_sync/gc.rs:160-193` | Where the parent relation has no cycle the memoised search terminates, returns the length of the longest walk up the parents, and leaves only such lengths in the memo |
| `Gc.CalculateMaxDepth` | `src/git_sync/gc.rs:141-154` | The length of the longest walk up from any node of the graph |
| `Gc.CollectProtected` | `src/git_sync/gc.rs:39-71` | Exactly the branch heads with all they reach, and the anchored checkpoints |
| `Gc.MarkReachable` | `src/git_sync/gc.rs:74-91` | Exactly what the protected checkpoints reach forward |
| `Gc.CollectGarbage` | `src/git_sync/gc.rs:100-135` | Removes exactly the loaded nodes that nothing protected reaches; the counts, the depth and the trigger are exact |
| `Gc.RemoveAllIs` | `src/git_sync/gc.rs:115-132` | What a sweep leaves of the map and the graph, and that branches stay |
| `Gc.ProtectedSurvive` | `src/git_sync/gc.rs:34-38` | A loaded checkpoint of the graph stays if and only if a protected one reaches it forward; so no head, no ancestor of a head and no anchored checkpoint is removed |
| `Gc.DepthIsGeneration` | `src/git_sync/gc.rs:137-140` | In a grown repository the parent relation has no cycle, and the longest walk up from a checkpoint has its generation for length |
| `Gc.NothingIsGarbage` | `src/git_sync/gc.rs:93-135` | A repository grown from its root holds no garbage while a branch is left |
| `Gc.CollectionIsIdle` | `src/git_sync/gc.rs:93-135` | After any run a collection removes nothing |
| `Gc.MeasuredDepthIsLongest` | `src/git_sync/gc.rs:156-193` | After any run the depth search ends, and what it measures is the kept generation and the longest walk from a root |
| `Removal.RemoveIff` | `src/checkpoint/repo.rs:705-724` | Where memory and tables agree, a removal succeeds exactly for the checkpoints there are, takes the checkpoint, its generation and its edges from both, and leaves the two in agreement |
| `Removal.RunThenRemove` | `src/checkpoint/repo.rs:705-724` | Memory and tables agree after any run and any removals behind it |
| `Removal.CountIsPlaces` | `src/git_sync/gc.rs:115-132` | A collection reports as many removed snapshots as the removed checkpoints hold |
| `Removal.CollectedIff` | `src/git_sync/gc.rs:34-91` | A collection removes a checkpoint exactly when it is in the graph and nothing from which it is reached is bound to a commit or in the history of a branch |
| `Removal.DepthIsHighest` | `src/git_sync/gc.rs:137-154` | After any run the depth measured is the highest generation |

## Left out

- Texts with carriage returns: the two line cutters treat them differently.
- Integer widths: line numbers, counts and generations are unbounded, not `u32` and `u64`.
- The `similar` crate: any function that returns valid grouped edit scripts stands for it.
- Hash collisions: a content identifier is modelled as the hashed content itself, also where the code hashes fields without separators.
- Timestamps, inline snapshot content, snapshot sources, compression, UTF-8 repair, SQL, JSON and database errors: partition identifiers are their layer and instance, tables are maps.
- Loading.Load: with an empty branch list the code looks up the all-zero identifier; no content has it in the model, so the graph is rebuilt, as in the code when the lookup finds nothing.
- Loading.BuildDag: the order of insertion is that of a hash map, so the order is left open and with it which walk a generation measures.
- Loading.RestoreDag: for the same reason, which walk the generation of a node without a stored one measures.
- Repository.Run: does not contain branch removal, checkpoint removal, anchors set after a commit, attaching a store later, transactions, `sync_all` or `rebuild_dag`.
- Store.LayerStore.MoveAgentToApproval: returns the snapshot only, because the code drops the conflicts it computed.
- Store.LayerStore.MergeManualToStaged: returns the snapshot only, for the same reason.
- Delivery.EditIsDelivered: one agent whose approval is untouched, and a feature not there yet; staging any feature is in `Features.FeatureIsStaged`.
- Teams.TwoAgentsMeet: both approvals are untouched, over a baseline that hides no line, and the feature is not there before the first approval.
- Gc.DepthSearch: asks for a parent relation without cycles; on a cyclic one the search does not end.
- Overlapping changes that start at different lines: what the loop does with one on each side is proved, but no law for many of them.
- Rollbacks, resets, the dispatch of forward transitions, backup and restore, the unified layer, naming of feature branches: pointer moves that only append to history.
- The Git bridge, the API, the command line, configuration, the time index, the snapshot cache, conflict-marker and unified-diff rendering: input, output and display.
