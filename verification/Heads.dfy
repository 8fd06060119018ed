/** The pipeline without its stores. Identifiers are content, so where every action moves a
    partition's pointer is a function of the partition table alone. */
module Heads {
  import opened Texts
  import opened LineDiffs
  import opened Results
  import opened Diff
  import opened Merge
  import opened Objects
  import opened World
  import opened Pipeline

  // ---- rows are functions of their identifiers ---------------------------

  function RowOf(id: SnapshotId): Snapshot {
    Snapshot(id, id.file, id.deltas, id.parents, id.layer, id.hasConflicts)
  }

  lemma RowIs(w: Tables, id: SnapshotId)
    requires WellKeyed(w) && id in w.snapshots
    ensures w.snapshots[id] == RowOf(id)
  {
  }

  function PureRows(ids: seq<DeltaId>): map<DeltaId, Delta> {
    map id | id in ids :: Delta(id, id.file, id.diff, id.source)
  }

  /** The file node of a merge delta, from the identifiers alone. */
  function PureFile(incoming: SnapshotId, fallback: SnapshotId): FileNode {
    var ds := Pick(PureRows(incoming.deltas), incoming.deltas);
    if |ds| > 0 then ds[|ds| - 1].file else fallback.file
  }

  lemma MergeFileIs(w: Tables, incoming: SnapshotId, fallback: SnapshotId)
    requires WellKeyed(w) && Complete(w, incoming)
    ensures MergeFile(w, RowOf(incoming), RowOf(fallback)) == PureFile(incoming, fallback)
  {
    forall id | id in incoming.deltas
      ensures id in w.deltas && w.deltas[id] == Delta(id, id.file, id.diff, id.source)
    {
      assert w.deltas[id].ComputeId() == id;
    }
    PickSame(w.deltas, PureRows(incoming.deltas), incoming.deltas);
  }

  // ---- writes ------------------------------------------------------------

  /** What both edits and merges do to the tables in the end. */
  function Commit(w: Tables, d: Delta, s: Snapshot, p: PartitionType): Tables {
    UpdatePointer(PutSnapshot(PutDelta(w, d), s), p, s.id).after
  }

  lemma RecordIs(differ: Differ, w: Tables, p: PartitionType, parents: seq<Snapshot>, file: FileNode,
                 before: Text, merged: MergeOutput, source: Source)
    requires |parents| > 0
    ensures var diff := DiffTexts(differ, before, merged.text);
      var d := NewDelta(file, diff, source);
      var s := MergeSnapshot(parents, d.id, p, merged.conflicts != []);
      Record(differ, w, p, parents, file, before, merged, source) ==
        if diff == LineDiff([]) then Outcome(w, Ok(MergeResult(parents[0].id, merged.conflicts)))
        else Outcome(Commit(w, d, s, p), Ok(MergeResult(s.id, merged.conflicts)))
  {
  }

  // ---- tables of partitions ------------------------------------------------------

  type Rows = map<PartitionType, Partition>

  /** The text a chain reads as. */
  function Reading(id: SnapshotId): Text {
    if TextOf(id).Ok? then Read(id) else ""
  }

  /** The empty last line that the chain holds and its text does not show. */
  function Hidden(id: SnapshotId): seq<Line> {
    if TextOf(id).Ok? && LinesOf(id).Ok? then Lost(id) else []
  }

  function MoveTo(rows: Rows, p: PartitionType, head: SnapshotId): Rows
    requires p in rows
  {
    if head == rows[p].current then rows
    else rows[p := Partition(head, rows[p].history + [head])]
  }

  // ---- where each action points next -----------------------------------------

  function EditHead(differ: Differ, p: PartitionType, source: Source, id: SnapshotId, path: string, content: Text)
    : SnapshotId
  {
    if content == Reading(id) then id
    else FromParent(RowOf(id), EditDelta(differ, path, Reading(id), content, source).id, p).id
  }

  /** The first parent, or the merge snapshot that changes its text. */
  function MergeHead(differ: Differ, p: PartitionType, source: Source, file: FileNode, parents: seq<Snapshot>,
                     merged: MergeOutput): SnapshotId
    requires |parents| > 0
  {
    var id := parents[0].id;
    if merged.text == Reading(id) then id
    else
      var d := DeltaId(file, DiffTexts(differ, Reading(id), merged.text), source);
      MergeSnapshot(parents, d, p, merged.conflicts != []).id
  }

  function SubmitHead(differ: Differ, agent: AgentId, base: SnapshotId, dst: SnapshotId, src: SnapshotId): SnapshotId {
    if src == dst then dst
    else MergeHead(differ, Approval(agent), AgentSource(agent), PureFile(src, src), [RowOf(dst), RowOf(src)],
                   MergeOf(differ, Reading(base), Reading(dst), Reading(src)))
  }

  function ApproveHead(differ: Differ, agent: AgentId, feature: string, base: SnapshotId, src: SnapshotId,
                       dst: SnapshotId): SnapshotId
  {
    if src == dst then dst
    else MergeHead(differ, Integrated(feature), AgentSource(agent), PureFile(src, dst),
                   [RowOf(dst), RowOf(src), RowOf(base)],
                   MergeOf(differ, Reading(base), Reading(src), Reading(dst)))
  }

  /** Into staged, from a feature over its baseline or from manual over staged itself. */
  function StageHead(differ: Differ, base: SnapshotId, dst: SnapshotId, src: SnapshotId): SnapshotId {
    if src == dst then dst
    else MergeHead(differ, Staged, ManualSource, PureFile(src, dst), [RowOf(dst), RowOf(src)],
                   MergeOf(differ, Reading(base), Reading(dst), Reading(src)))
  }

  function FirstHead(path: string, content: Text): SnapshotId {
    var node := NewFileNode(path, content);
    InitialSnapshot(node, NewDelta(node, LineDiff([]), ManualSource).id).id
  }

  function EnsureRow(rows: Rows, p: PartitionType, head: SnapshotId): Rows {
    if p in rows then rows else rows[p := Partition(head, [head])]
  }

  function EnsureFromStaged(rows: Rows, p: PartitionType): Rows {
    if Staged in rows then EnsureRow(rows, p, rows[Staged].current) else rows
  }

  function EditRow(differ: Differ, rows: Rows, p: PartitionType, source: Source, path: string, content: Text): Rows {
    if p !in rows then rows
    else MoveTo(rows, p, EditHead(differ, p, source, rows[p].current, path, content))
  }

  function SubmitRow(differ: Differ, rows: Rows, agent: AgentId): Rows {
    if Agent(agent) !in rows || Approval(agent) !in rows || rows[Approval(agent)].history == [] then rows
    else
      var row := rows[Approval(agent)];
      MoveTo(rows, Approval(agent), SubmitHead(differ, agent, row.history[0], row.current, rows[Agent(agent)].current))
  }

  function RejectRow(rows: Rows, agent: AgentId): Rows {
    var p := Approval(agent);
    if p !in rows || rows[p].history == [] then rows
    else rows[p := Partition(rows[p].history[0], [rows[p].history[0]])]
  }

  function DiscardRow(rows: Rows, agent: AgentId): Rows {
    var p := Agent(agent);
    if p !in rows || rows[p].current.parents == [] then rows
    else
      var head := rows[p].current.parents[0];
      rows[p := Partition(head, rows[p].history + [head])]
  }

  function ApproveRow(differ: Differ, rows: Rows, agent: AgentId, feature: string): Rows {
    if Approval(agent) !in rows || rows[Approval(agent)].history == [] then rows
    else ApproveIntoRow(differ, EnsureRow(rows, Integrated(feature), rows[Approval(agent)].history[0]), agent, feature)
  }

  function ApproveIntoRow(differ: Differ, rows: Rows, agent: AgentId, feature: string): Rows
    requires Approval(agent) in rows && Integrated(feature) in rows
  {
    var into := rows[Integrated(feature)];
    if into.history == [] then rows
    else
      var head := ApproveHead(differ, agent, feature, into.history[0], rows[Approval(agent)].current, into.current);
      if head == into.current then rows
      else RejectRow(MoveTo(rows, Integrated(feature), head), agent)
  }

  function StageRow(differ: Differ, rows: Rows, feature: string): Rows {
    if Integrated(feature) !in rows || Staged !in rows || rows[Integrated(feature)].history == [] then rows
    else
      var from := rows[Integrated(feature)];
      MoveTo(rows, Staged, StageHead(differ, from.history[0], rows[Staged].current, from.current))
  }

  /** Features in turn, up to the first that fails. */
  function StageRows(differ: Differ, rows: Rows, features: seq<string>): Rows
    decreases |features|
  {
    if features == [] || Integrated(features[0]) !in rows || Staged !in rows then rows
    else StageRows(differ, StageRow(differ, rows, features[0]), features[1..])
  }

  function ManualRow(differ: Differ, rows: Rows): Rows {
    if Manual !in rows || Staged !in rows then rows
    else MoveTo(rows, Staged, StageHead(differ, rows[Staged].current, rows[Staged].current, rows[Manual].current))
  }

  function RowStep(differ: Differ, rows: Rows, a: Action): Rows {
    match a
    case Init(path, content) =>
      EnsureRow(EnsureRow(rows, Manual, FirstHead(path, content)), Staged, FirstHead(path, content))
    case JoinAgent(agent) => EnsureFromStaged(rows, Agent(agent))
    case OpenApproval(agent) => EnsureFromStaged(rows, Approval(agent))
    case CreateFeature(feature) => EnsureFromStaged(rows, Integrated(feature))
    case EditManual(path, content) => EditRow(differ, rows, Manual, ManualSource, path, content)
    case EditAgent(agent, path, content) => EditRow(differ, rows, Agent(agent), AgentSource(agent), path, content)
    case SubmitAgent(agent) => SubmitRow(differ, rows, agent)
    case DiscardEdit(agent) => DiscardRow(rows, agent)
    case RejectAgent(agent) => RejectRow(rows, agent)
    case ApproveAgent(agent, feature) => ApproveRow(differ, rows, agent, feature)
    case StageFeatures(features) => StageRows(differ, rows, features)
    case StageManual => ManualRow(differ, rows)
  }

  function RowRun(differ: Differ, rows: Rows, run: seq<Action>): Rows
    decreases |run|
  {
    if run == [] then rows else RowRun(differ, RowStep(differ, rows, run[0]), run[1..])
  }

  // ---- the stores add nothing ---------------------------------------------------

  lemma EditRowIs(differ: Differ, w: Tables, p: PartitionType, source: Source, path: string, content: Text)
    requires Good(w)
    ensures EditPartition(differ, w, p, source, path, content).after.partitions
         == EditRow(differ, w.partitions, p, source, path, content)
  {
    if p in w.partitions {
      var id := w.partitions[p].current;
      EditIs(differ, w, p, source, path, content);
      EmptyDiffIffSame(differ, Reading(id), content);
      RowIs(w, id);
      if content != Reading(id) {
        assert |EditHead(differ, p, source, id, path, content).deltas| == |id.deltas| + 1;
      }
    }
  }

  lemma RecordRowIs(differ: Differ, w: Tables, p: PartitionType, parents: seq<Snapshot>, file: FileNode,
                    merged: MergeOutput, source: Source)
    requires p in w.partitions && |parents| > 0 && parents[0] == RowOf(w.partitions[p].current)
    ensures Record(differ, w, p, parents, file, Reading(parents[0].id), merged, source).after.partitions
         == MoveTo(w.partitions, p, MergeHead(differ, p, source, file, parents, merged))
  {
    var id := parents[0].id;
    RecordIs(differ, w, p, parents, file, Reading(id), merged, source);
    EmptyDiffIffSame(differ, Reading(id), merged.text);
    if merged.text != Reading(id) {
      assert |MergeHead(differ, p, source, file, parents, merged).deltas| == |id.deltas| + 1;
    }
  }

  lemma SubmitRowIs(differ: Differ, w: Tables, agent: AgentId)
    requires Good(w)
    ensures Submit(differ, w, agent).after.partitions == SubmitRow(differ, w.partitions, agent)
  {
    var from, to := Agent(agent), Approval(agent);
    if from in w.partitions && to in w.partitions {
      SoundRow(w, to);
      if w.partitions[from].current != w.partitions[to].current {
        SubmitMoves(differ, w, agent);
      }
    }
  }

  lemma SubmitMoves(differ: Differ, w: Tables, agent: AgentId)
    requires Good(w) && Agent(agent) in w.partitions && Approval(agent) in w.partitions
    requires w.partitions[Agent(agent)].current != w.partitions[Approval(agent)].current
    ensures Submit(differ, w, agent).after.partitions == SubmitRow(differ, w.partitions, agent)
  {
    SubmitIs(differ, w, agent);
    var src, dst := w.partitions[Agent(agent)].current, w.partitions[Approval(agent)].current;
    RowIs(w, src);
    RowIs(w, dst);
    MergeFileIs(w, src, src);
    RecordRowIs(differ, w, Approval(agent), [RowOf(dst), RowOf(src)], PureFile(src, src),
                MergeIds(differ, w.partitions[Approval(agent)].history[0], dst, src), AgentSource(agent));
  }

  lemma ApproveRowIs(differ: Differ, w: Tables, agent: AgentId, feature: string)
    requires Good(w)
    ensures Approve(differ, w, agent, feature).after.partitions == ApproveRow(differ, w.partitions, agent, feature)
  {
    if Approval(agent) in w.partitions {
      ApproveIs(differ, w, agent, feature);
      ApproveIntoRowIs(differ, EnsurePartition(w, Integrated(feature), w.partitions[Approval(agent)].history[0]),
                       agent, feature);
    }
  }

  lemma ApproveIntoRowIs(differ: Differ, w: Tables, agent: AgentId, feature: string)
    requires Good(w) && Approval(agent) in w.partitions && Integrated(feature) in w.partitions
    requires w.partitions[Approval(agent)].current in w.snapshots
    ensures ApproveInto(differ, w, agent, feature).after.partitions
         == ApproveIntoRow(differ, w.partitions, agent, feature)
  {
    SoundRow(w, Integrated(feature));
    if w.partitions[Approval(agent)].current != w.partitions[Integrated(feature)].current {
      ApproveIntoMoves(differ, w, agent, feature);
    }
  }

  lemma ApproveIntoMoves(differ: Differ, w: Tables, agent: AgentId, feature: string)
    requires Good(w) && Approval(agent) in w.partitions && Integrated(feature) in w.partitions
    requires w.partitions[Approval(agent)].current in w.snapshots
    requires w.partitions[Approval(agent)].current != w.partitions[Integrated(feature)].current
    ensures ApproveInto(differ, w, agent, feature).after.partitions
         == ApproveIntoRow(differ, w.partitions, agent, feature)
  {
    ApproveIntoIs(differ, w, agent, feature);
    var src, dst := w.partitions[Approval(agent)].current, w.partitions[Integrated(feature)].current;
    var base := w.partitions[Integrated(feature)].history[0];
    RowIs(w, src);
    RowIs(w, dst);
    RowIs(w, base);
    MergeFileIs(w, src, dst);
    ApproveRecordRowIs(differ, w, agent, feature, [RowOf(dst), RowOf(src), RowOf(base)], PureFile(src, dst),
                       MergeIds(differ, base, src, dst));
  }

  lemma ApproveRecordRowIs(differ: Differ, w: Tables, agent: AgentId, feature: string, parents: seq<Snapshot>,
                           file: FileNode, merged: MergeOutput)
    requires Integrated(feature) in w.partitions && |parents| > 0
    requires parents[0] == RowOf(w.partitions[Integrated(feature)].current)
    ensures var head := MergeHead(differ, Integrated(feature), AgentSource(agent), file, parents, merged);
      ApproveRecord(differ, w, agent, feature, parents, file, Reading(parents[0].id), merged).after.partitions ==
        if head == parents[0].id then w.partitions
        else RejectRow(MoveTo(w.partitions, Integrated(feature), head), agent)
  {
    RecordRowIs(differ, w, Integrated(feature), parents, file, merged, AgentSource(agent));
    EmptyDiffIffSame(differ, Reading(parents[0].id), merged.text);
    if merged.text != Reading(parents[0].id) {
      assert |MergeHead(differ, Integrated(feature), AgentSource(agent), file, parents, merged).deltas|
          == |parents[0].id.deltas| + 1;
    }
  }

  lemma StageRowIs(differ: Differ, w: Tables, feature: string)
    requires Good(w)
    ensures MergeFeature(differ, w, feature).after.partitions == StageRow(differ, w.partitions, feature)
    ensures MergeFeature(differ, w, feature).result.Ok? <==>
        Integrated(feature) in w.partitions && Staged in w.partitions
  {
    var from := Integrated(feature);
    if from in w.partitions && Staged in w.partitions {
      SoundRow(w, from);
      SoundRow(w, Staged);
      if w.partitions[from].current != w.partitions[Staged].current {
        FeatureMoves(differ, w, feature);
      }
    }
  }

  lemma FeatureMoves(differ: Differ, w: Tables, feature: string)
    requires Good(w) && Integrated(feature) in w.partitions && Staged in w.partitions
    requires w.partitions[Integrated(feature)].current != w.partitions[Staged].current
    requires w.partitions[Integrated(feature)].history != []
    requires w.partitions[Integrated(feature)].history[0] in w.snapshots
    requires w.partitions[Integrated(feature)].current in w.snapshots && w.partitions[Staged].current in w.snapshots
    ensures MergeFeature(differ, w, feature).after.partitions == StageRow(differ, w.partitions, feature)
    ensures MergeFeature(differ, w, feature).result.Ok?
  {
    MergeFeatureIs(differ, w, feature);
    StageMoves(differ, w, w.partitions[Integrated(feature)].history[0], w.partitions[Integrated(feature)].current);
  }

  lemma StageMoves(differ: Differ, w: Tables, base: SnapshotId, src: SnapshotId)
    requires Good(w) && Staged in w.partitions && src in w.snapshots && base in w.snapshots
    requires w.partitions[Staged].current in w.snapshots && src != w.partitions[Staged].current
    ensures var dst := w.partitions[Staged].current;
      && Complete(w, dst) && Complete(w, src) && Complete(w, base)
      && Record(differ, w, Staged, [w.snapshots[dst], w.snapshots[src]],
                MergeFile(w, w.snapshots[src], w.snapshots[dst]),
                Read(dst), MergeIds(differ, base, dst, src), ManualSource).after.partitions
         == MoveTo(w.partitions, Staged, StageHead(differ, base, dst, src))
  {
    var dst := w.partitions[Staged].current;
    assert Complete(w, dst) && Complete(w, src) && Complete(w, base);
    RowIs(w, src);
    RowIs(w, dst);
    MergeFileIs(w, src, dst);
    RecordRowIs(differ, w, Staged, [RowOf(dst), RowOf(src)], PureFile(src, dst), MergeIds(differ, base, dst, src),
                ManualSource);
  }

  lemma {:induction false} StageRowsIs(differ: Differ, w: Tables, features: seq<string>)
    requires Good(w)
    ensures MergeFeatures(differ, w, features).after.partitions == StageRows(differ, w.partitions, features)
    decreases |features|
  {
    if features != [] {
      StageRowIs(differ, w, features[0]);
      MergeFeaturesIs(differ, w, features);
      MergeFeatureGood(differ, w, features[0]);
      var r := MergeFeature(differ, w, features[0]);
      if r.result.Ok? && |features| > 1 {
        StageRowsIs(differ, r.after, features[1..]);
      }
    }
  }

  lemma ManualRowIs(differ: Differ, w: Tables)
    requires Good(w)
    ensures MergeManual(differ, w).after.partitions == ManualRow(differ, w.partitions)
  {
    if Manual in w.partitions && Staged in w.partitions
        && w.partitions[Manual].current != w.partitions[Staged].current {
      MergeManualIs(differ, w);
      StageMoves(differ, w, w.partitions[Staged].current, w.partitions[Manual].current);
    }
  }

  lemma DiscardRowIs(w: Tables, agent: AgentId)
    requires Good(w)
    ensures Discard(w, agent).after.partitions == DiscardRow(w.partitions, agent)
  {
    if Agent(agent) in w.partitions {
      SoundRow(w, Agent(agent));
      RowIs(w, w.partitions[Agent(agent)].current);
    }
  }

  lemma InitRowIs(w: Tables, path: string, content: Text)
    ensures Initialise(w, path, content).partitions
         == EnsureRow(EnsureRow(w.partitions, Manual, FirstHead(path, content)), Staged, FirstHead(path, content))
  {
  }

  lemma RowStepIs(differ: Differ, w: Tables, a: Action)
    requires Good(w)
    ensures Step(differ, w, a).partitions == RowStep(differ, w.partitions, a)
  {
    match a
    case EditManual(path, content) => EditRowIs(differ, w, Manual, ManualSource, path, content);
    case EditAgent(agent, path, content) => EditRowIs(differ, w, Agent(agent), AgentSource(agent), path, content);
    case SubmitAgent(agent) => SubmitRowIs(differ, w, agent);
    case DiscardEdit(agent) => DiscardRowIs(w, agent);
    case ApproveAgent(agent, feature) => ApproveRowIs(differ, w, agent, feature);
    case StageFeatures(features) => StageRowsIs(differ, w, features);
    case StageManual => ManualRowIs(differ, w);
    case Init(path, content) => InitRowIs(w, path, content);
    case _ =>
  }

  /** Refinement: over any run the partition table evolves by itself. What the stores of
      files, deltas and snapshots hold never decides where a pointer goes. */
  lemma {:induction false} RowsAreEnough(differ: Differ, w: Tables, run: seq<Action>)
    requires Good(w)
    ensures Run(differ, w, run).partitions == RowRun(differ, w.partitions, run)
    decreases |run|
  {
    if run != [] {
      RowStepIs(differ, w, run[0]);
      StepGood(differ, w, run[0]);
      RowsAreEnough(differ, Step(differ, w, run[0]), run[1..]);
    }
  }

  // ---- what the new heads read --------------------------------------------------

  /** The text of a chain after `content` was written over it: unchanged when it reads so
      already or the delta is there already, else the lines with the hidden one behind. */
  function After(differ: Differ, id: SnapshotId, file: FileNode, source: Source, content: Text): Text {
    if content == Reading(id) || DeltaId(file, DiffTexts(differ, Reading(id), content), source) in id.deltas
    then Reading(id)
    else Render(Lines(content) + Hidden(id), EndsNl(Content(id)))
  }

  predicate Readable(id: SnapshotId) {
    id.deltas != [] && TextOf(id).Ok?
  }

  /** `id'` is `id` or extends it by one delta, and reads as `text`. */
  predicate Carries(id: SnapshotId, id': SnapshotId, d: DeltaId, text: Text) {
    && Readable(id') && id'.file == id.file && Reading(id') == text
    && (id' != id ==> id'.deltas == id.deltas + [d])
  }

  lemma ExtensionReads(differ: Differ, id: SnapshotId, id': SnapshotId, file: FileNode, source: Source, content: Text)
    requires Readable(id) && content != Reading(id) && id'.file == id.file
    requires id'.deltas == id.deltas + [DeltaId(file, DiffTexts(differ, Reading(id), content), source)]
    ensures Readable(id') && Reading(id') == After(differ, id, file, source, content)
  {
    var d := DeltaId(file, DiffTexts(differ, Reading(id), content), source);
    ExtendedText(differ, id, id', d, content);
  }

  lemma EditReads(differ: Differ, p: PartitionType, source: Source, id: SnapshotId, path: string, content: Text)
    requires Readable(id)
    ensures Carries(id, EditHead(differ, p, source, id, path, content),
                    EditDelta(differ, path, Reading(id), content, source).id,
                    After(differ, id, NewFileNode(path, Reading(id)), source, content))
    ensures EditHead(differ, p, source, id, path, content) == id <==> content == Reading(id)
  {
    if content != Reading(id) {
      var head := EditHead(differ, p, source, id, path, content);
      ExtensionReads(differ, id, head, NewFileNode(path, Reading(id)), source, content);
      assert |head.deltas| == |id.deltas| + 1;
    }
  }

  lemma MergeReads(differ: Differ, p: PartitionType, source: Source, file: FileNode, parents: seq<Snapshot>,
                   merged: MergeOutput)
    requires |parents| > 0 && parents[0] == RowOf(parents[0].id) && Readable(parents[0].id)
    ensures var id := parents[0].id;
      var head := MergeHead(differ, p, source, file, parents, merged);
      && Carries(id, head, DeltaId(file, DiffTexts(differ, Reading(id), merged.text), source),
                 After(differ, id, file, source, merged.text))
      && (head == id <==> merged.text == Reading(id))
  {
    var id := parents[0].id;
    if merged.text != Reading(id) {
      var head := MergeHead(differ, p, source, file, parents, merged);
      ExtensionReads(differ, id, head, file, source, merged.text);
      assert |head.deltas| == |id.deltas| + 1;
    }
  }

  /** A text written over a chain is what the chain then reads, if and only if it was so
      already, or the delta is new and the text survives. */
  lemma AfterIs(differ: Differ, id: SnapshotId, file: FileNode, source: Source, content: Text)
    requires Readable(id)
    ensures LinesOf(id).Ok?
    ensures After(differ, id, file, source, content) == content <==>
      || content == Reading(id)
      || (DeltaId(file, DiffTexts(differ, Reading(id), content), source) !in id.deltas && Survives(id, content))
  {
    TextLines(id);
    SurvivesIff(id, content);
  }

  lemma {:induction false} PickLast(rows: map<DeltaId, Delta>, ids: seq<DeltaId>, d: DeltaId)
    requires d in rows && d !in ids
    ensures Pick(rows, ids + [d]) == Pick(rows, ids) + [rows[d]]
    decreases |ids|
  {
    if ids == [] {
      assert ids + [d] == [d] && [d][1..] == [];
    } else {
      assert (ids + [d])[1..] == ids[1..] + [d];
      assert ids[0] in ids && forall x :: x in ids[1..] ==> x in ids;
      if ids[0] in rows {
        PickLast(rows - {ids[0]}, ids[1..], d);
      } else {
        PickLast(rows, ids[1..], d);
      }
    }
  }

  /** A merge of a chain that ends in a new delta is filed under that delta's file. */
  lemma FiledUnder(incoming: SnapshotId, fallback: SnapshotId, ids: seq<DeltaId>, d: DeltaId)
    requires incoming.deltas == ids + [d] && d !in ids
    ensures PureFile(incoming, fallback) == d.file
  {
    assert d in incoming.deltas;
    PickLast(PureRows(incoming.deltas), ids, d);
  }

  // ---- runs of rows ----------------------------------------------------------

  lemma RowRunFour(differ: Differ, rows: Rows, run: seq<Action>)
    requires |run| == 4
    ensures RowRun(differ, rows, run)
         == RowStep(differ, RowStep(differ, RowStep(differ, RowStep(differ, rows, run[0]), run[1]), run[2]), run[3])
  {
    var r1 := RowStep(differ, rows, run[0]);
    var r2 := RowStep(differ, r1, run[1]);
    var r3 := RowStep(differ, r2, run[2]);
    var run1, run2, run3 := run[1..], run[2..], run[3..];
    assert run1[1..] == run2 && run2[1..] == run3 && run3[1..] == [];
    assert RowRun(differ, r1, run1) == RowRun(differ, r2, run2);
    assert RowRun(differ, r2, run2) == RowRun(differ, r3, run3);
    assert RowRun(differ, r3, run3) == RowRun(differ, RowStep(differ, r3, run[3]), []);
  }

  lemma RowsOfRun(differ: Differ, run: seq<Action>, more: seq<Action>)
    ensures Run(differ, EMPTY, run + more).partitions == RowRun(differ, Run(differ, EMPTY, run).partitions, more)
    ensures Good(Run(differ, EMPTY, run)) && Good(Run(differ, EMPTY, run + more))
  {
    assert Good(EMPTY);
    RunConcat(differ, EMPTY, run, more);
    RunGood(differ, EMPTY, run);
    RunGood(differ, EMPTY, run + more);
    RowsAreEnough(differ, Run(differ, EMPTY, run), more);
  }

  /** Runs from the empty store are runs of rows from the empty table. */
  lemma RowsFromEmpty(differ: Differ, run: seq<Action>)
    ensures Run(differ, EMPTY, run).partitions == RowRun(differ, map[], run)
  {
    assert Good(EMPTY);
    RowsAreEnough(differ, EMPTY, run);
  }

  /** What a partition points to reads as its identifier says. */
  lemma StoredReads(w: Tables, p: PartitionType)
    requires Good(w) && p in w.partitions
    ensures var id := w.partitions[p].current;
      Readable(id) && id in w.snapshots && ReconstructText(w, w.snapshots[id]) == Ok(Reading(id))
  {
    SoundRow(w, p);
  }

  // ---- chains that show all their lines --------------------------------------

  /** The chain holds no line that its text does not show. */
  predicate Shows(id: SnapshotId) {
    Readable(id) && LinesOf(id) == Ok(Lines(Reading(id)))
  }

  lemma ReadingIsRendered(id: SnapshotId)
    requires Readable(id)
    ensures LinesOf(id).Ok? && Reading(id) == Render(LinesOf(id).value, EndsNl(Content(id)))
    ensures Shows(id) ==> Hidden(id) == [] && Renderable(Reading(id), EndsNl(Content(id)))
  {
    TextLines(id);
    RenderOfLines(Reading(id), EndsNl(Content(id)));
  }

  lemma RenderedIs(ls: seq<Line>, nl: bool)
    requires Faithful(ls, nl)
    ensures Lines(Render(ls, nl)) == ls && Renderable(Render(ls, nl), nl)
  {
    LinesOfRender(ls, nl);
    RenderOfLines(Render(ls, nl), nl);
  }

  /** The first snapshot of a file reads as the file and hides nothing, unless the file is a
      lone newline. */
  lemma FirstHeadShows(file: string, text: Text)
    requires text != "\n"
    ensures Shows(FirstHead(file, text)) && Reading(FirstHead(file, text)) == text
    ensures Content(FirstHead(file, text)) == text
  {
    InitialText(FirstHead(file, text));
  }

  /** An edit over a chain that shows its lines, by a text that survives. */
  lemma EditShows(differ: Differ, p: PartitionType, source: Source, id: SnapshotId, path: string, content: Text)
    requires Shows(id) && content != Reading(id) && Renderable(content, EndsNl(Content(id)))
    ensures var head := EditHead(differ, p, source, id, path, content);
      var d := EditDelta(differ, path, Reading(id), content, source).id;
      && head.file == id.file && head.deltas == id.deltas + [d] && Shows(head)
      && Reading(head) == if d in id.deltas then Reading(id) else content
  {
    var d := EditDelta(differ, path, Reading(id), content, source).id;
    ExtendedText(differ, id, EditHead(differ, p, source, id, path, content), d, content);
    ReadingIsRendered(id);
    RenderOfLines(content, EndsNl(Content(id)));
    RenderableIsFaithful(content, EndsNl(Content(id)));
    assert Lines(content) + [] == Lines(content);
  }
}
