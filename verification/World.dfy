/** The store as a value: four tables, and what each operation of the layered pipeline does
    to them (src/storage/sqlite, src/layered). The class in Store.dfy implements these. */
module World {
  import opened Texts
  import opened LineDiffs
  import opened Results
  import opened Patch
  import opened Diff
  import opened Merge
  import opened Chains
  import opened Objects

  datatype Error =
    | NotFound
    | Storage
    | Engine(cause: PatchError)
    | StateMachine
    | General

  datatype Tables = Tables(
    files: map<FileNode, Text>,
    deltas: map<DeltaId, Delta>,
    snapshots: map<SnapshotId, Snapshot>,
    partitions: map<PartitionType, Partition>)

  /** What an operation leaves behind and what it returns. */
  datatype Outcome<+T> = Outcome(after: Tables, result: Result<T, Error>)

  // ---- tables ----------------------------------------------------------

  /** `INSERT OR IGNORE` */
  function KeepFirst<K, V>(rows: map<K, V>, key: K, row: V): map<K, V> {
    if key in rows then rows else rows[key := row]
  }

  function PutFile(w: Tables, node: FileNode, content: Text): Tables {
    w.(files := KeepFirst(w.files, node, content))
  }

  function PutDelta(w: Tables, d: Delta): Tables {
    w.(deltas := KeepFirst(w.deltas, d.id, d))
  }

  function PutSnapshot(w: Tables, s: Snapshot): Tables {
    w.(snapshots := KeepFirst(w.snapshots, s.id, s))
  }

  /** `get_deltas`: results in the order of the ids; a row leaves the map when it is used,
      and ids without a row are skipped. */
  function Pick(rows: map<DeltaId, Delta>, ids: seq<DeltaId>): seq<Delta> {
    if ids == [] then []
    else if ids[0] in rows then [rows[ids[0]]] + Pick(rows - {ids[0]}, ids[1..])
    else Pick(rows, ids[1..])
  }

  /** What a read selects depends only on the rows of the identifiers asked for. */
  lemma {:induction false} PickSame(rows: map<DeltaId, Delta>, others: map<DeltaId, Delta>, ids: seq<DeltaId>)
    requires forall id :: id in ids ==> (id in rows <==> id in others)
    requires forall id :: id in ids && id in rows ==> rows[id] == others[id]
    ensures Pick(rows, ids) == Pick(others, ids)
    decreases |ids|
  {
    if ids != [] {
      assert forall id :: id in ids[1..] ==> id in ids;
      assert ids[0] in ids;
      if ids[0] in rows {
        PickSame(rows - {ids[0]}, others - {ids[0]}, ids[1..]);
      } else {
        PickSame(rows, others, ids[1..]);
      }
    }
  }

  function DiffsOf(ds: seq<Delta>): seq<LineDiff> {
    if ds == [] then [] else [ds[0].diff] + DiffsOf(ds[1..])
  }

  /** `create_partition`: the primary key refuses a second row. */
  function CreatePartition(w: Tables, p: PartitionType, s: SnapshotId): Outcome<()> {
    if p in w.partitions then Outcome(w, Err(Storage))
    else Outcome(w.(partitions := w.partitions[p := Partition(s, [s])]), Ok(()))
  }

  /** `update_pointer`: the foreign key of the history table refuses an unknown partition. */
  function UpdatePointer(w: Tables, p: PartitionType, s: SnapshotId): Outcome<()> {
    if p !in w.partitions then Outcome(w, Err(Storage))
    else Outcome(w.(partitions := w.partitions[p := Partition(s, w.partitions[p].history + [s])]), Ok(()))
  }

  /** `reset_partition_to_baseline`: pointer to the first history entry, the rest deleted. */
  function ResetPartition(w: Tables, p: PartitionType): Outcome<()> {
    if p !in w.partitions || w.partitions[p].history == [] then Outcome(w, Err(Storage))
    else
      var first := w.partitions[p].history[0];
      Outcome(w.(partitions := w.partitions[p := Partition(first, [first])]), Ok(()))
  }

  /** The `ensure_*_partition` functions: get or create. */
  function EnsurePartition(w: Tables, p: PartitionType, s: SnapshotId): Tables {
    if p in w.partitions then w else CreatePartition(w, p, s).after
  }

  /** `reconstruct_text` */
  function ReconstructText(w: Tables, s: Snapshot): Result<Text, Error> {
    if s.file !in w.files then Err(Storage)
    else
      match ApplyDiffs(w.files[s.file], DiffsOf(Pick(w.deltas, s.deltas)))
      case Ok(t) => Ok(t)
      case Err(e) => Err(Engine(e))
  }

  // ---- edits -----------------------------------------------------------

  /** The delta an edit of `before` into `content` stores. */
  function EditDelta(differ: Differ, path: string, before: Text, content: Text, source: Source): Delta {
    NewDelta(NewFileNode(path, before), DiffTexts(differ, before, content), source)
  }

  /** `apply_agent_edit` and `apply_manual_edit` do the same to their own partition. */
  function EditPartition(differ: Differ, w: Tables, p: PartitionType, source: Source, path: string, content: Text)
    : Outcome<SnapshotId>
  {
    if p !in w.partitions then Outcome(w, Err(NotFound))
    else
      var current := w.partitions[p].current;
      if current !in w.snapshots then Outcome(w, Err(Storage))
      else
        var s := w.snapshots[current];
        match ReconstructText(w, s)
        case Err(e) => Outcome(w, Err(e))
        case Ok(before) =>
          if DiffTexts(differ, before, content) == LineDiff([]) then Outcome(w, Ok(current))
          else
            var d := EditDelta(differ, path, before, content, source);
            var s' := FromParent(s, d.id, p);
            var w' := PutSnapshot(PutDelta(PutFile(w, d.file, before), d), s');
            Outcome(UpdatePointer(w', p, s'.id).after, Ok(s'.id))
  }

  function AgentEdit(differ: Differ, w: Tables, agent: AgentId, path: string, content: Text): Outcome<SnapshotId> {
    EditPartition(differ, w, Agent(agent), AgentSource(agent), path, content)
  }

  function ManualEdit(differ: Differ, w: Tables, path: string, content: Text): Outcome<SnapshotId> {
    EditPartition(differ, w, Manual, ManualSource, path, content)
  }

  /** `discard_agent_edit`: back to the first parent, as a new history entry. */
  function Discard(w: Tables, agent: AgentId): Outcome<()> {
    var p := Agent(agent);
    if p !in w.partitions then Outcome(w, Err(NotFound))
    else
      var current := w.partitions[p].current;
      if current !in w.snapshots then Outcome(w, Err(Storage))
      else
        var s := w.snapshots[current];
        if s.parents == [] then Outcome(w, Err(StateMachine))
        else UpdatePointer(w, p, s.parents[0])
  }

  // ---- merges ----------------------------------------------------------

  datatype MergeResult = MergeResult(snapshotId: SnapshotId, conflicts: seq<Conflict>)

  /** The three texts of a merge, reconstructed in the order the source does. */
  datatype Texts3 = Texts3(base: Text, first: Text, second: Text)

  function Reconstruct3(w: Tables, base: Snapshot, first: Snapshot, second: Snapshot): Result<Texts3, Error> {
    var b :- ReconstructText(w, base);
    var f :- ReconstructText(w, first);
    var s :- ReconstructText(w, second);
    Ok(Texts3(b, f, s))
  }

  /** File node a merge delta is filed under: that of the incoming chain's last delta. */
  function MergeFile(w: Tables, incoming: Snapshot, fallback: Snapshot): FileNode {
    var ds := Pick(w.deltas, incoming.deltas);
    if |ds| > 0 then ds[|ds| - 1].file else fallback.file
  }

  /** The common end of every merge: if the merged text differs from the destination's,
      store the delta and the merge snapshot and move the destination's pointer. */
  function Record(differ: Differ, w: Tables, p: PartitionType, parents: seq<Snapshot>, file: FileNode,
                  before: Text, merged: MergeOutput, source: Source): Outcome<MergeResult>
    requires |parents| > 0
  {
    var diff := DiffTexts(differ, before, merged.text);
    if diff == LineDiff([]) then Outcome(w, Ok(MergeResult(parents[0].id, merged.conflicts)))
    else
      var d := NewDelta(file, diff, source);
      var s := MergeSnapshot(parents, d.id, p, merged.conflicts != []);
      var w' := PutSnapshot(PutDelta(w, d), s);
      Outcome(UpdatePointer(w', p, s.id).after, Ok(MergeResult(s.id, merged.conflicts)))
  }

  /** `move_agent_to_approval`: base is the approval baseline, ours the approval text. */
  function Submit(differ: Differ, w: Tables, agent: AgentId): Outcome<MergeResult> {
    var from, to := Agent(agent), Approval(agent);
    if from !in w.partitions || to !in w.partitions then Outcome(w, Err(NotFound))
    else
      var src, dst := w.partitions[from], w.partitions[to];
      if src.current == dst.current then Outcome(w, Ok(MergeResult(dst.current, [])))
      else if src.current !in w.snapshots || dst.current !in w.snapshots then Outcome(w, Err(Storage))
      else if dst.history == [] then Outcome(w, Err(StateMachine))
      else if dst.history[0] !in w.snapshots then Outcome(w, Err(Storage))
      else
        var incoming, target := w.snapshots[src.current], w.snapshots[dst.current];
        match Reconstruct3(w, w.snapshots[dst.history[0]], target, incoming)
        case Err(e) => Outcome(w, Err(e))
        case Ok(t) =>
          Record(differ, w, to, [target, incoming], MergeFile(w, incoming, incoming),
                 t.first, MergeOf(differ, t.base, t.first, t.second), AgentSource(agent))
  }

  /** `reject_approval` */
  function Reject(w: Tables, agent: AgentId): Outcome<SnapshotId> {
    var p := Approval(agent);
    if p !in w.partitions then Outcome(w, Err(NotFound))
    else if w.partitions[p].history == [] then Outcome(w, Err(StateMachine))
    else Outcome(ResetPartition(w, p).after, Ok(w.partitions[p].history[0]))
  }

  /** How `list_pending_approvals` recognises a pending approval. */
  predicate Pending(w: Tables, agent: AgentId) {
    Approval(agent) in w.partitions && |w.partitions[Approval(agent)].history| > 1
  }

  /** `merge_agent_to_feature`: base is the feature's baseline, ours the approval text and
      theirs the feature text; a recorded merge resets the approval. */
  function Approve(differ: Differ, w: Tables, agent: AgentId, feature: string): Outcome<MergeResult> {
    var from, to := Approval(agent), Integrated(feature);
    if from !in w.partitions then Outcome(w, Err(NotFound))
    else
      var src := w.partitions[from];
      if src.current !in w.snapshots then Outcome(w, Err(Storage))
      else if src.history == [] then Outcome(w, Err(StateMachine))
      else ApproveInto(differ, EnsurePartition(w, to, src.history[0]), agent, feature)
  }

  /** The rest of `merge_agent_to_feature`, once the feature partition exists. */
  function ApproveInto(differ: Differ, w: Tables, agent: AgentId, feature: string): Outcome<MergeResult>
    requires Approval(agent) in w.partitions && Integrated(feature) in w.partitions
    requires w.partitions[Approval(agent)].current in w.snapshots
  {
    var src, dst := w.partitions[Approval(agent)], w.partitions[Integrated(feature)];
    if dst.current == src.current then Outcome(w, Ok(MergeResult(dst.current, [])))
    else if dst.history == [] || dst.history[0] !in w.snapshots || dst.current !in w.snapshots then
      Outcome(w, Err(Storage))
    else
      var base, incoming, target := w.snapshots[dst.history[0]], w.snapshots[src.current], w.snapshots[dst.current];
      match Reconstruct3(w, base, incoming, target)
      case Err(e) => Outcome(w, Err(e))
      case Ok(t) =>
        ApproveRecord(differ, w, agent, feature, [target, incoming, base], MergeFile(w, incoming, target),
                      t.second, MergeOf(differ, t.base, t.first, t.second))
  }

  /** The merge into the feature; if it stored anything, the approval is reset. */
  function ApproveRecord(differ: Differ, w: Tables, agent: AgentId, feature: string, parents: seq<Snapshot>,
                         file: FileNode, before: Text, merged: MergeOutput): Outcome<MergeResult>
    requires |parents| > 0
  {
    var r := Record(differ, w, Integrated(feature), parents, file, before, merged, AgentSource(agent));
    if DiffTexts(differ, before, merged.text) == LineDiff([]) then r
    else Outcome(Reject(r.after, agent).after, r.result)
  }

  /** `merge_feature_to_staged`: base is the feature's baseline, ours the staged text. */
  function MergeFeature(differ: Differ, w: Tables, feature: string): Outcome<MergeResult> {
    var from, to := Integrated(feature), Staged;
    if from !in w.partitions then Outcome(w, Err(NotFound))
    else
      var src := w.partitions[from];
      if src.history == [] then Outcome(w, Err(StateMachine))
      else if src.history[0] !in w.snapshots || src.current !in w.snapshots then Outcome(w, Err(Storage))
      else if to !in w.partitions then Outcome(w, Err(NotFound))
      else
        var dst := w.partitions[to];
        if dst.current == src.current then Outcome(w, Ok(MergeResult(dst.current, [])))
        else if dst.current !in w.snapshots then Outcome(w, Err(Storage))
        else
          var base, incoming, target := w.snapshots[src.history[0]], w.snapshots[src.current], w.snapshots[dst.current];
          match Reconstruct3(w, base, target, incoming)
          case Err(e) => Outcome(w, Err(e))
          case Ok(t) =>
            Record(differ, w, to, [target, incoming], MergeFile(w, incoming, target),
                   t.first, MergeOf(differ, t.base, t.first, t.second), ManualSource)
  }

  /** `merge_features_to_staged`: one feature after the other; the first failure ends it. */
  function MergeFeatures(differ: Differ, w: Tables, features: seq<string>): Outcome<MergeResult>
    decreases |features|
  {
    if features == [] then Outcome(w, Err(General))
    else
      var r := MergeFeature(differ, w, features[0]);
      if r.result.Err? || |features| == 1 then r
      else
        var rest := MergeFeatures(differ, r.after, features[1..]);
        match rest.result
        case Err(e) => rest
        case Ok(m) => Outcome(rest.after, Ok(MergeResult(m.snapshotId, r.result.value.conflicts + m.conflicts)))
  }

  /** `merge_manual_to_staged`: base and ours are both the staged text. */
  function MergeManual(differ: Differ, w: Tables): Outcome<MergeResult> {
    if Manual !in w.partitions || Staged !in w.partitions then Outcome(w, Err(NotFound))
    else
      var src, dst := w.partitions[Manual], w.partitions[Staged];
      if src.current == dst.current then Outcome(w, Ok(MergeResult(dst.current, [])))
      else if src.current !in w.snapshots || dst.current !in w.snapshots then Outcome(w, Err(Storage))
      else
        var incoming, target := w.snapshots[src.current], w.snapshots[dst.current];
        match Reconstruct3(w, target, target, incoming)
        case Err(e) => Outcome(w, Err(e))
        case Ok(t) =>
          Record(differ, w, Staged, [target, incoming], MergeFile(w, incoming, target),
                 t.first, MergeOf(differ, t.base, t.first, t.second), ManualSource)
  }
}
