/** The store as an object: every operation updates the tables in place, and is proved to
    do to them exactly what its function in World.dfy says. */
module Store {
  import opened Texts
  import opened LineDiffs
  import opened Results
  import opened Diff
  import opened Merge
  import opened Chains
  import opened Objects
  import opened World

  /** What the operations that do not report conflicts return. */
  function IdOnly(r: Result<MergeResult, Error>): Result<SnapshotId, Error> {
    match r
    case Ok(m) => Ok(m.snapshotId)
    case Err(e) => Err(e)
  }

  class LayerStore {
    const differ: Differ
    var files: map<FileNode, Text>
    var deltas: map<DeltaId, Delta>
    var snapshots: map<SnapshotId, Snapshot>
    var partitions: map<PartitionType, Partition>

    function View(): Tables
      reads this
    {
      Tables(files, deltas, snapshots, partitions)
    }

    constructor (differ: Differ)
      ensures this.differ == differ
      ensures View() == Tables(map[], map[], map[], map[])
    {
      this.differ := differ;
      files, deltas, snapshots, partitions := map[], map[], map[], map[];
    }

    // ---- rows ----------------------------------------------------------

    method StoreFileNode(node: FileNode, content: Text)
      modifies this
      ensures View() == PutFile(old(View()), node, content)
    {
      if node !in files {
        files := files[node := content];
      }
    }

    method StoreDelta(d: Delta)
      modifies this
      ensures View() == PutDelta(old(View()), d)
    {
      if d.id !in deltas {
        deltas := deltas[d.id := d];
      }
    }

    method StoreSnapshot(s: Snapshot)
      modifies this
      ensures View() == PutSnapshot(old(View()), s)
    {
      if s.id !in snapshots {
        snapshots := snapshots[s.id := s];
      }
    }

    /** Rows are collected into a map, then taken out of it in the order of the ids. */
    method GetDeltas(ids: seq<DeltaId>) returns (result: seq<Delta>)
      ensures result == Pick(deltas, ids)
    {
      result := [];
      var deltaMap := map id | id in ids && id in deltas :: deltas[id];
      PickSame(deltas, deltaMap, ids);
      assert ids[0..] == ids;
      for k := 0 to |ids|
        invariant result + Pick(deltaMap, ids[k..]) == Pick(deltas, ids)
      {
        assert ids[k..][1..] == ids[k + 1..];
        if ids[k] in deltaMap {
          result := result + [deltaMap[ids[k]]];
          deltaMap := deltaMap - {ids[k]};
        }
      }
    }

    method AddPartition(p: PartitionType, s: SnapshotId) returns (r: Result<(), Error>)
      modifies this
      ensures Outcome(View(), r) == CreatePartition(old(View()), p, s)
    {
      if p in partitions {
        return Err(Storage);
      }
      partitions := partitions[p := Partition(s, [s])];
      return Ok(());
    }

    method MovePointer(p: PartitionType, s: SnapshotId) returns (r: Result<(), Error>)
      modifies this
      ensures Outcome(View(), r) == UpdatePointer(old(View()), p, s)
    {
      if p !in partitions {
        return Err(Storage);
      }
      var row := partitions[p];
      partitions := partitions[p := Partition(s, row.history + [s])];
      return Ok(());
    }

    method ResetToBaseline(p: PartitionType) returns (r: Result<(), Error>)
      modifies this
      ensures Outcome(View(), r) == ResetPartition(old(View()), p)
    {
      if p !in partitions || partitions[p].history == [] {
        return Err(Storage);
      }
      var first := partitions[p].history[0];
      partitions := partitions[p := Partition(first, [first])];
      return Ok(());
    }

    method Ensure(p: PartitionType, s: SnapshotId) returns (row: Partition)
      modifies this
      ensures View() == EnsurePartition(old(View()), p, s)
      ensures p in partitions && row == partitions[p]
    {
      if p !in partitions {
        var created := AddPartition(p, s);
      }
      row := partitions[p];
    }

    method Reconstruct(s: Snapshot) returns (r: Result<Text, Error>)
      ensures r == ReconstructText(View(), s)
    {
      if s.file !in files {
        return Err(Storage);
      }
      var chain := GetDeltas(s.deltas);
      var diffs: seq<LineDiff> := [];
      assert chain[0..] == chain;
      for k := 0 to |chain|
        invariant diffs + DiffsOf(chain[k..]) == DiffsOf(chain)
      {
        assert chain[k..][1..] == chain[k + 1..];
        diffs := diffs + [chain[k].diff];
      }
      assert chain[|chain|..] == [] && diffs == DiffsOf(chain);
      var applied := ApplyDeltas(files[s.file], diffs);
      match applied {
        case Ok(t) => return Ok(t);
        case Err(e) => return Err(Engine(e));
      }
    }

    // ---- edits ---------------------------------------------------------

    method ApplyAgentEdit(agent: AgentId, path: string, newContent: Text) returns (r: Result<SnapshotId, Error>)
      modifies this
      ensures Outcome(View(), r) == AgentEdit(differ, old(View()), agent, path, newContent)
    {
      var pid := Agent(agent);
      if pid !in partitions {
        return Err(NotFound);
      }
      var current := partitions[pid].current;
      if current !in snapshots {
        return Err(Storage);
      }
      var currentSnapshot := snapshots[current];
      var oldContent := Reconstruct(currentSnapshot);
      if oldContent.Err? {
        return Err(oldContent.error);
      }
      var lineDiff := DiffToLineDiff(differ, oldContent.value, newContent);
      if |lineDiff.hunks| == 0 {
        return Ok(current);
      }
      var fileNode := NewFileNode(path, oldContent.value);
      var delta := NewDelta(fileNode, lineDiff, AgentSource(agent));
      StoreFileNode(fileNode, oldContent.value);
      StoreDelta(delta);
      var newSnapshot := FromParent(currentSnapshot, delta.id, pid);
      StoreSnapshot(newSnapshot);
      var moved := MovePointer(pid, newSnapshot.id);
      return Ok(newSnapshot.id);
    }

    method ApplyManualEdit(path: string, newContent: Text) returns (r: Result<SnapshotId, Error>)
      modifies this
      ensures Outcome(View(), r) == ManualEdit(differ, old(View()), path, newContent)
    {
      var pid := Manual;
      if pid !in partitions {
        return Err(NotFound);
      }
      var current := partitions[pid].current;
      if current !in snapshots {
        return Err(Storage);
      }
      var currentSnapshot := snapshots[current];
      var oldContent := Reconstruct(currentSnapshot);
      if oldContent.Err? {
        return Err(oldContent.error);
      }
      var lineDiff := DiffToLineDiff(differ, oldContent.value, newContent);
      if |lineDiff.hunks| == 0 {
        return Ok(current);
      }
      var fileNode := NewFileNode(path, oldContent.value);
      var delta := NewDelta(fileNode, lineDiff, ManualSource);
      StoreFileNode(fileNode, oldContent.value);
      StoreDelta(delta);
      var newSnapshot := FromParent(currentSnapshot, delta.id, pid);
      StoreSnapshot(newSnapshot);
      var moved := MovePointer(pid, newSnapshot.id);
      return Ok(newSnapshot.id);
    }

    method DiscardAgentEdit(agent: AgentId) returns (r: Result<(), Error>)
      modifies this
      ensures Outcome(View(), r) == Discard(old(View()), agent)
    {
      var pid := Agent(agent);
      if pid !in partitions {
        return Err(NotFound);
      }
      if partitions[pid].current !in snapshots {
        return Err(Storage);
      }
      var currentSnapshot := snapshots[partitions[pid].current];
      if |currentSnapshot.parents| == 0 {
        return Err(StateMachine);
      }
      r := MovePointer(pid, currentSnapshot.parents[0]);
    }

    // ---- merges --------------------------------------------------------

    method ThreeTexts(base: Snapshot, first: Snapshot, second: Snapshot) returns (r: Result<Texts3, Error>)
      ensures r == Reconstruct3(View(), base, first, second)
    {
      var b := Reconstruct(base);
      if b.Err? { return Err(b.error); }
      var f := Reconstruct(first);
      if f.Err? { return Err(f.error); }
      var s := Reconstruct(second);
      if s.Err? { return Err(s.error); }
      return Ok(Texts3(b.value, f.value, s.value));
    }

    /** The common end of the four merges; `changed` tells whether anything was stored. */
    method RecordMerge(p: PartitionType, parents: seq<Snapshot>, incoming: Snapshot, fallback: Snapshot,
                       before: Text, text: Text, conflicts: seq<Conflict>, source: Source)
      returns (r: MergeResult, changed: bool)
      requires |parents| > 0
      modifies this
      ensures Outcome(View(), Ok(r)) ==
        Record(differ, old(View()), p, parents, MergeFile(old(View()), incoming, fallback),
               before, MergeOutput(text, conflicts), source)
      ensures changed == (DiffTexts(differ, before, text) != LineDiff([]))
    {
      var mergeDiff := DiffToLineDiff(differ, before, text);
      if |mergeDiff.hunks| == 0 {
        return MergeResult(parents[0].id, conflicts), false;
      }
      var chain := GetDeltas(incoming.deltas);
      var mergeFile := if |chain| > 0 then chain[|chain| - 1].file else fallback.file;
      var mergeDelta := NewDelta(mergeFile, mergeDiff, source);
      StoreDelta(mergeDelta);
      var newSnapshot := MergeSnapshot(parents, mergeDelta.id, p, conflicts != []);
      StoreSnapshot(newSnapshot);
      var moved := MovePointer(p, newSnapshot.id);
      return MergeResult(newSnapshot.id, conflicts), true;
    }

    method MoveAgentToApproval(agent: AgentId) returns (r: Result<SnapshotId, Error>)
      modifies this
      ensures View() == Submit(differ, old(View()), agent).after
      ensures r == IdOnly(Submit(differ, old(View()), agent).result)
    {
      var agentPid, approvalPid := Agent(agent), Approval(agent);
      if agentPid !in partitions || approvalPid !in partitions {
        return Err(NotFound);
      }
      var agentPart, approvalPart := partitions[agentPid], partitions[approvalPid];
      if agentPart.current == approvalPart.current {
        return Ok(approvalPart.current);
      }
      if agentPart.current !in snapshots || approvalPart.current !in snapshots {
        return Err(Storage);
      }
      if |approvalPart.history| == 0 {
        return Err(StateMachine);
      }
      if approvalPart.history[0] !in snapshots {
        return Err(Storage);
      }
      var agentSnapshot, approvalSnapshot := snapshots[agentPart.current], snapshots[approvalPart.current];
      var t := ThreeTexts(snapshots[approvalPart.history[0]], approvalSnapshot, agentSnapshot);
      if t.Err? {
        return Err(t.error);
      }
      var text, conflicts := MergeTexts(differ, t.value.base, t.value.first, t.value.second);
      var m, changed := RecordMerge(approvalPid, [approvalSnapshot, agentSnapshot], agentSnapshot, agentSnapshot,
                                    t.value.first, text, conflicts, AgentSource(agent));
      return Ok(m.snapshotId);
    }

    method RejectApproval(agent: AgentId) returns (r: Result<SnapshotId, Error>)
      modifies this
      ensures Outcome(View(), r) == Reject(old(View()), agent)
    {
      var pid := Approval(agent);
      if pid !in partitions {
        return Err(NotFound);
      }
      if |partitions[pid].history| == 0 {
        return Err(StateMachine);
      }
      var baseSnapshot := partitions[pid].history[0];
      var reset := ResetToBaseline(pid);
      return Ok(baseSnapshot);
    }

    method MergeAgentToFeature(agent: AgentId, feature: string) returns (r: Result<MergeResult, Error>)
      modifies this
      ensures Outcome(View(), r) == Approve(differ, old(View()), agent, feature)
    {
      var approvalPid, integratedPid := Approval(agent), Integrated(feature);
      if approvalPid !in partitions {
        return Err(NotFound);
      }
      var approvalPart := partitions[approvalPid];
      if approvalPart.current !in snapshots {
        return Err(Storage);
      }
      var approvalSnapshot := snapshots[approvalPart.current];
      if |approvalPart.history| == 0 {
        return Err(StateMachine);
      }
      var integratedPart := Ensure(integratedPid, approvalPart.history[0]);
      if integratedPart.current == approvalPart.current {
        return Ok(MergeResult(integratedPart.current, []));
      }
      if |integratedPart.history| == 0 || integratedPart.history[0] !in snapshots
         || integratedPart.current !in snapshots {
        return Err(Storage);
      }
      var baselineSnapshot := snapshots[integratedPart.history[0]];
      var integratedSnapshot := snapshots[integratedPart.current];
      var t := ThreeTexts(baselineSnapshot, approvalSnapshot, integratedSnapshot);
      if t.Err? {
        return Err(t.error);
      }
      var text, conflicts := MergeTexts(differ, t.value.base, t.value.first, t.value.second);
      var m, changed := RecordMerge(integratedPid, [integratedSnapshot, approvalSnapshot, baselineSnapshot],
                                    approvalSnapshot, integratedSnapshot, t.value.second, text, conflicts,
                                    AgentSource(agent));
      if changed {
        var rejected := RejectApproval(agent);
      }
      return Ok(m);
    }

    method MergeFeatureToStaged(feature: string) returns (r: Result<MergeResult, Error>)
      modifies this
      ensures Outcome(View(), r) == MergeFeature(differ, old(View()), feature)
    {
      var integratedPid, stagedPid := Integrated(feature), Staged;
      if integratedPid !in partitions {
        return Err(NotFound);
      }
      var featurePart := partitions[integratedPid];
      if |featurePart.history| == 0 {
        return Err(StateMachine);
      }
      if featurePart.history[0] !in snapshots || featurePart.current !in snapshots {
        return Err(Storage);
      }
      var baselineSnapshot, featureSnapshot := snapshots[featurePart.history[0]], snapshots[featurePart.current];
      if stagedPid !in partitions {
        return Err(NotFound);
      }
      var stagedPart := partitions[stagedPid];
      if stagedPart.current == featurePart.current {
        return Ok(MergeResult(stagedPart.current, []));
      }
      if stagedPart.current !in snapshots {
        return Err(Storage);
      }
      var stagedSnapshot := snapshots[stagedPart.current];
      var t := ThreeTexts(baselineSnapshot, stagedSnapshot, featureSnapshot);
      if t.Err? {
        return Err(t.error);
      }
      var text, conflicts := MergeTexts(differ, t.value.base, t.value.first, t.value.second);
      var m, changed := RecordMerge(stagedPid, [stagedSnapshot, featureSnapshot], featureSnapshot, stagedSnapshot,
                                    t.value.first, text, conflicts, ManualSource);
      return Ok(m);
    }

    method MergeFeaturesToStaged(features: seq<string>) returns (r: Result<MergeResult, Error>)
      modifies this
      ensures Outcome(View(), r) == MergeFeatures(differ, old(View()), features)
    {
      if |features| == 0 {
        return Err(General);
      }
      var allConflicts: seq<Conflict> := [];
      var last: Option<SnapshotId> := None;
      assert features[0..] == features;
      ghost var goal := MergeFeatures(differ, old(View()), features);
      AfterNothing(goal);
      for k := 0 to |features|
        invariant last.Some? <==> k > 0
        invariant k < |features| ==>
          AfterEarlier(allConflicts, MergeFeatures(differ, View(), features[k..])) == goal
        invariant k == |features| ==> goal == Outcome(View(), Ok(MergeResult(last.value, allConflicts)))
      {
        assert features[k..][1..] == features[k + 1..];
        ghost var before, earlier := View(), allConflicts;
        var one := MergeFeatureToStaged(features[k]);
        if one.Err? {
          return one;
        }
        allConflicts := allConflicts + one.value.conflicts;
        last := Some(one.value.snapshotId);
        if k + 1 < |features| {
          AfterEarlierTwice(earlier, one.value.conflicts, MergeFeatures(differ, View(), features[k + 1..]));
          assert MergeFeatures(differ, before, features[k..])
              == AfterEarlier(one.value.conflicts, MergeFeatures(differ, View(), features[k + 1..]));
        }
      }
      return Ok(MergeResult(last.value, allConflicts));
    }

    method MergeManualToStaged() returns (r: Result<SnapshotId, Error>)
      modifies this
      ensures View() == MergeManual(differ, old(View())).after
      ensures r == IdOnly(MergeManual(differ, old(View())).result)
    {
      var manualPid, stagedPid := Manual, Staged;
      if manualPid !in partitions || stagedPid !in partitions {
        return Err(NotFound);
      }
      var manualPart, stagedPart := partitions[manualPid], partitions[stagedPid];
      if manualPart.current == stagedPart.current {
        return Ok(stagedPart.current);
      }
      if manualPart.current !in snapshots || stagedPart.current !in snapshots {
        return Err(Storage);
      }
      var manualSnapshot, stagedSnapshot := snapshots[manualPart.current], snapshots[stagedPart.current];
      var t := ThreeTexts(stagedSnapshot, stagedSnapshot, manualSnapshot);
      if t.Err? {
        return Err(t.error);
      }
      var text, conflicts := MergeTexts(differ, t.value.base, t.value.first, t.value.second);
      var m, changed := RecordMerge(stagedPid, [stagedSnapshot, manualSnapshot], manualSnapshot, stagedSnapshot,
                                    t.value.first, text, conflicts, ManualSource);
      return Ok(m.snapshotId);
    }

    /** `list_pending_approvals`, as the agents whose approval holds more than its baseline. */
    function PendingApprovals(): (agents: set<AgentId>)
      reads this
      ensures forall a :: a in agents <==> Pending(View(), a)
    {
      set p | p in partitions && p.Approval? && |partitions[p].history| > 1 :: p.agent
    }
  }

  /** Conflicts of the features merged before, in front of those of a later merge. */
  function AfterEarlier(earlier: seq<Conflict>, o: Outcome<MergeResult>): Outcome<MergeResult> {
    match o.result
    case Err(e) => o
    case Ok(m) => Outcome(o.after, Ok(MergeResult(m.snapshotId, earlier + m.conflicts)))
  }

  lemma AfterNothing(o: Outcome<MergeResult>)
    ensures AfterEarlier([], o) == o
  {
    if o.result.Ok? {
      assert [] + o.result.value.conflicts == o.result.value.conflicts;
    }
  }

  lemma AfterEarlierTwice(a: seq<Conflict>, b: seq<Conflict>, o: Outcome<MergeResult>)
    ensures AfterEarlier(a, AfterEarlier(b, o)) == AfterEarlier(a + b, o)
  {
    if o.result.Ok? {
      assert a + (b + o.result.value.conflicts) == a + b + o.result.value.conflicts;
    }
  }
}
