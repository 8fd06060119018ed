/** What every stored snapshot tells about itself: which snapshots it came from, which text it
    was meant to write over them, for whom, and whether that merge had conflicts. */
module Provenance {
  import opened Texts
  import opened LineDiffs
  import opened Diff
  import opened Merge
  import opened Objects
  import opened World
  import opened Pipeline
  import opened Heads

  /** The chain is the first parent's and one delta that writes `text` over it. */
  predicate Writes(differ: Differ, id: SnapshotId, file: FileNode, source: Source, text: Text) {
    && id.parents != [] && id.file == id.parents[0].file && text != Reading(id.parents[0])
    && id.deltas
       == id.parents[0].deltas + [DeltaId(file, DiffTexts(differ, Reading(id.parents[0]), text), source)]
  }

  predicate WritesMerge(differ: Differ, id: SnapshotId, file: FileNode, source: Source, base: SnapshotId,
                        ours: SnapshotId, theirs: SnapshotId)
  {
    var merged := MergeOf(differ, Reading(base), Reading(ours), Reading(theirs));
    Writes(differ, id, file, source, merged.text) && (id.hasConflicts <==> merged.conflicts != [])
  }

  /** Made from a file alone. */
  predicate Made(id: SnapshotId) {
    id.parents == [] && !id.hasConflicts && id.deltas == [DeltaId(id.file, LineDiff([]), ManualSource)]
  }

  /** An edit of its one parent, filed under the text edited. */
  ghost predicate Edited(differ: Differ, id: SnapshotId, source: Source) {
    && |id.parents| == 1 && !id.hasConflicts
    && exists path, text :: Writes(differ, id, NewFileNode(path, Reading(id.parents[0])), source, text)
  }

  /** A merge into the first parent of the second, over some base. */
  ghost predicate MergedInto(differ: Differ, id: SnapshotId, source: Source) {
    |id.parents| == 2
    && exists base, file :: WritesMerge(differ, id, file, source, base, id.parents[0], id.parents[1])
  }

  /** A merge into the first parent of the second, over the third; the incoming text is ours. */
  ghost predicate ApprovedInto(differ: Differ, id: SnapshotId, source: Source) {
    |id.parents| == 3
    && exists file :: WritesMerge(differ, id, file, source, id.parents[2], id.parents[1], id.parents[0])
  }

  ghost predicate Told(differ: Differ, id: SnapshotId) {
    match id.layer
    case None => Made(id)
    case Some(Manual) => Edited(differ, id, ManualSource)
    case Some(Agent(agent)) => Edited(differ, id, AgentSource(agent))
    case Some(Approval(agent)) => MergedInto(differ, id, AgentSource(agent))
    case Some(Integrated(_)) => exists agent :: ApprovedInto(differ, id, AgentSource(agent))
    case Some(Staged) => MergedInto(differ, id, ManualSource)
    case Some(Unified) => false
  }

  /** Every delta is filed under a stored text. */
  ghost predicate Filed(w: Tables) {
    forall d :: d in w.deltas ==> d.file in w.files
  }

  ghost predicate AllTold(differ: Differ, w: Tables) {
    Filed(w) && forall id :: id in w.snapshots ==> Told(differ, id)
  }

  // ---- every action ----------------------------------------------------------------

  /** No snapshot is added but `id`, and no delta but one that is filed. */
  ghost predicate AddsOnly(w: Tables, w': Tables, id: SnapshotId) {
    && (forall x :: x in w'.snapshots ==> x in w.snapshots || x == id)
    && w.files.Keys <= w'.files.Keys
    && (forall d :: d in w'.deltas ==> d in w.deltas || d.file in w'.files)
  }

  lemma AddedTold(differ: Differ, w: Tables, w': Tables, id: SnapshotId)
    requires AllTold(differ, w) && AddsOnly(w, w', id) && Told(differ, id)
    ensures AllTold(differ, w')
  {
  }

  lemma EditTold(differ: Differ, w: Tables, p: PartitionType, source: Source, path: string, content: Text)
    requires Good(w) && AllTold(differ, w)
    requires (p == Manual && source == ManualSource) || (p.Agent? && source == AgentSource(p.agent))
    ensures AllTold(differ, EditPartition(differ, w, p, source, path, content).after)
  {
    if p in w.partitions {
      var id := w.partitions[p].current;
      EditAdds(differ, w, p, source, path, content);
      if content != Reading(id) {
        EditHeadTold(differ, p, source, id, path, content);
        AddedTold(differ, w, EditPartition(differ, w, p, source, path, content).after,
                  EditHead(differ, p, source, id, path, content));
      }
    }
  }

  lemma EditAdds(differ: Differ, w: Tables, p: PartitionType, source: Source, path: string, content: Text)
    requires Good(w) && p in w.partitions
    ensures var id, w' := w.partitions[p].current, EditPartition(differ, w, p, source, path, content).after;
      if content == Reading(id) then w' == w else AddsOnly(w, w', EditHead(differ, p, source, id, path, content))
  {
    var id := w.partitions[p].current;
    EditIs(differ, w, p, source, path, content);
    EmptyDiffIffSame(differ, Reading(id), content);
    RowIs(w, id);
    if content != Reading(id) {
      var d := EditDelta(differ, path, Reading(id), content, source);
      WriteAdds(PutFile(w, d.file, Reading(id)), d, FromParent(w.snapshots[id], d.id, p), p);
    }
  }

  lemma WriteAdds(w: Tables, d: Delta, s: Snapshot, p: PartitionType)
    requires d.id.file in w.files
    ensures AddsOnly(w, UpdatePointer(PutSnapshot(PutDelta(w, d), s), p, s.id).after, s.id)
  {
  }

  lemma EditHeadTold(differ: Differ, p: PartitionType, source: Source, id: SnapshotId, path: string, content: Text)
    requires (p == Manual && source == ManualSource) || (p.Agent? && source == AgentSource(p.agent))
    requires content != Reading(id)
    ensures Told(differ, EditHead(differ, p, source, id, path, content))
  {
    assert Writes(differ, EditHead(differ, p, source, id, path, content), NewFileNode(path, Reading(id)), source,
                  content);
  }

  /** A merge adds the merge snapshot, if anything. */
  lemma RecordAdds(differ: Differ, w: Tables, p: PartitionType, parents: seq<Snapshot>, file: FileNode, before: Text,
                   merged: MergeOutput, source: Source, id: SnapshotId)
    requires |parents| > 0 && AllTold(differ, w)
    requires id == MergeSnapshot(parents, DeltaId(file, DiffTexts(differ, before, merged.text), source), p,
                                 merged.conflicts != []).id
    requires merged.text != before ==> Told(differ, id)
    requires file in w.files
    ensures AllTold(differ, Record(differ, w, p, parents, file, before, merged, source).after)
  {
    RecordIs(differ, w, p, parents, file, before, merged, source);
    EmptyDiffIffSame(differ, before, merged.text);
    if merged.text != before {
      var d := NewDelta(file, DiffTexts(differ, before, merged.text), source);
      WriteAdds(w, d, MergeSnapshot(parents, d.id, p, merged.conflicts != []), p);
      AddedTold(differ, w, Record(differ, w, p, parents, file, before, merged, source).after, id);
    }
  }

  lemma PairIds(a: SnapshotId, b: SnapshotId)
    ensures IdsOf([RowOf(a), RowOf(b)]) == [a, b]
  {
    assert [RowOf(a), RowOf(b)][1..] == [RowOf(b)];
    assert IdsOf([RowOf(b)]) == [b] + IdsOf([RowOf(b)][1..]);
  }

  lemma {:induction false} PickStored(rows: map<DeltaId, Delta>, ids: seq<DeltaId>)
    ensures forall x :: x in Pick(rows, ids) ==> exists id :: id in rows && rows[id] == x
    decreases |ids|
  {
    if ids != [] {
      PickStored(if ids[0] in rows then rows - {ids[0]} else rows, ids[1..]);
    }
  }

  lemma MergeFileStored(w: Tables, incoming: SnapshotId, fallback: SnapshotId)
    requires WellKeyed(w) && Filed(w) && fallback.file in w.files
    ensures MergeFile(w, RowOf(incoming), RowOf(fallback)) in w.files
  {
    var ds := Pick(w.deltas, incoming.deltas);
    PickStored(w.deltas, incoming.deltas);
    if ds != [] {
      assert ds[|ds| - 1] in ds;
    }
  }

  /** A merge of two, into an approval or into staged. */
  lemma PairTold(differ: Differ, w: Tables, p: PartitionType, base: SnapshotId, dst: SnapshotId, src: SnapshotId,
                 file: FileNode, source: Source)
    requires AllTold(differ, w) && file in w.files
    requires (p == Staged && source == ManualSource) || (p.Approval? && source == AgentSource(p.agent))
    ensures AllTold(differ, Record(differ, w, p, [RowOf(dst), RowOf(src)], file, Reading(dst),
                                   MergeOf(differ, Reading(base), Reading(dst), Reading(src)), source).after)
  {
    var merged := MergeOf(differ, Reading(base), Reading(dst), Reading(src));
    var parents := [RowOf(dst), RowOf(src)];
    var d := DeltaId(file, DiffTexts(differ, Reading(dst), merged.text), source);
    var id := MergeSnapshot(parents, d, p, merged.conflicts != []).id;
    PairIds(dst, src);
    if merged.text != Reading(dst) {
      assert WritesMerge(differ, id, file, source, base, id.parents[0], id.parents[1]);
      assert Told(differ, id);
    }
    RecordAdds(differ, w, p, parents, file, Reading(dst), merged, source, id);
  }

  lemma SubmitTold(differ: Differ, w: Tables, agent: AgentId)
    requires Good(w) && AllTold(differ, w)
    ensures AllTold(differ, Submit(differ, w, agent).after)
  {
    var from, to := Agent(agent), Approval(agent);
    if from in w.partitions && to in w.partitions && w.partitions[from].current != w.partitions[to].current {
      SubmitIs(differ, w, agent);
      var src, dst := w.partitions[from].current, w.partitions[to].current;
      RowIs(w, src);
      RowIs(w, dst);
      MergeFileStored(w, src, src);
      PairTold(differ, w, to, w.partitions[to].history[0], dst, src, MergeFile(w, RowOf(src), RowOf(src)),
               AgentSource(agent));
    }
  }

  lemma StageTold(differ: Differ, w: Tables, base: SnapshotId, src: SnapshotId)
    requires Good(w) && AllTold(differ, w) && Staged in w.partitions
    requires src in w.snapshots && base in w.snapshots && w.partitions[Staged].current in w.snapshots
    requires Complete(w, src) && Complete(w, base) && Complete(w, w.partitions[Staged].current)
    ensures var dst := w.partitions[Staged].current;
      AllTold(differ, Record(differ, w, Staged, [w.snapshots[dst], w.snapshots[src]],
                             MergeFile(w, w.snapshots[src], w.snapshots[dst]), Read(dst),
                             MergeIds(differ, base, dst, src), ManualSource).after)
  {
    var dst := w.partitions[Staged].current;
    RowIs(w, src);
    RowIs(w, dst);
    MergeFileStored(w, src, dst);
    PairTold(differ, w, Staged, base, dst, src, MergeFile(w, RowOf(src), RowOf(dst)), ManualSource);
  }

  lemma FeatureTold(differ: Differ, w: Tables, feature: string)
    requires Good(w) && AllTold(differ, w)
    ensures AllTold(differ, MergeFeature(differ, w, feature).after)
  {
    var from := Integrated(feature);
    if from in w.partitions && Staged in w.partitions && w.partitions[from].current != w.partitions[Staged].current {
      MergeFeatureIs(differ, w, feature);
      SoundRow(w, from);
      StageTold(differ, w, w.partitions[from].history[0], w.partitions[from].current);
    } else {
      MergeFeatureStays(differ, w, feature);
    }
  }

  lemma {:induction false} FeaturesTold(differ: Differ, w: Tables, features: seq<string>)
    requires Good(w) && AllTold(differ, w)
    ensures AllTold(differ, MergeFeatures(differ, w, features).after)
    decreases |features|
  {
    if features != [] {
      FeatureTold(differ, w, features[0]);
      MergeFeatureGood(differ, w, features[0]);
      MergeFeaturesIs(differ, w, features);
      var r := MergeFeature(differ, w, features[0]);
      if r.result.Ok? && |features| > 1 {
        FeaturesTold(differ, r.after, features[1..]);
      }
    }
  }

  lemma ManualTold(differ: Differ, w: Tables)
    requires Good(w) && AllTold(differ, w)
    ensures AllTold(differ, MergeManual(differ, w).after)
  {
    if Manual in w.partitions && Staged in w.partitions
        && w.partitions[Manual].current != w.partitions[Staged].current {
      MergeManualIs(differ, w);
      StageTold(differ, w, w.partitions[Staged].current, w.partitions[Manual].current);
    }
  }

  lemma TripleIds(a: SnapshotId, b: SnapshotId, c: SnapshotId)
    ensures IdsOf([RowOf(a), RowOf(b), RowOf(c)]) == [a, b, c]
  {
    assert [RowOf(a), RowOf(b), RowOf(c)][1..] == [RowOf(b), RowOf(c)];
    PairIds(b, c);
  }

  lemma ApproveTold(differ: Differ, w: Tables, agent: AgentId, feature: string)
    requires Good(w) && AllTold(differ, w)
    ensures AllTold(differ, Approve(differ, w, agent, feature).after)
  {
    if Approval(agent) in w.partitions {
      ApproveIs(differ, w, agent, feature);
      ApproveIntoTold(differ, EnsurePartition(w, Integrated(feature), w.partitions[Approval(agent)].history[0]),
                      agent, feature);
    }
  }

  lemma ApproveIntoTold(differ: Differ, w: Tables, agent: AgentId, feature: string)
    requires Good(w) && AllTold(differ, w)
    requires Approval(agent) in w.partitions && Integrated(feature) in w.partitions
    requires w.partitions[Approval(agent)].current in w.snapshots
    ensures AllTold(differ, ApproveInto(differ, w, agent, feature).after)
  {
    if w.partitions[Approval(agent)].current != w.partitions[Integrated(feature)].current {
      ApproveIntoIs(differ, w, agent, feature);
      var src, dst := w.partitions[Approval(agent)].current, w.partitions[Integrated(feature)].current;
      var base := w.partitions[Integrated(feature)].history[0];
      RowIs(w, src);
      RowIs(w, dst);
      RowIs(w, base);
      MergeFileStored(w, src, dst);
      TripleTold(differ, w, agent, feature, base, src, dst, MergeFile(w, RowOf(src), RowOf(dst)));
    }
  }

  lemma TripleTold(differ: Differ, w: Tables, agent: AgentId, feature: string, base: SnapshotId, src: SnapshotId,
                   dst: SnapshotId, file: FileNode)
    requires AllTold(differ, w) && file in w.files
    ensures AllTold(differ, ApproveRecord(differ, w, agent, feature, [RowOf(dst), RowOf(src), RowOf(base)], file,
                                          Reading(dst),
                                          MergeOf(differ, Reading(base), Reading(src), Reading(dst))).after)
  {
    var merged := MergeOf(differ, Reading(base), Reading(src), Reading(dst));
    var parents := [RowOf(dst), RowOf(src), RowOf(base)];
    var d := DeltaId(file, DiffTexts(differ, Reading(dst), merged.text), AgentSource(agent));
    var id := MergeSnapshot(parents, d, Integrated(feature), merged.conflicts != []).id;
    TripleIds(dst, src, base);
    if merged.text != Reading(dst) {
      assert WritesMerge(differ, id, file, AgentSource(agent), id.parents[2], id.parents[1], id.parents[0]);
      assert ApprovedInto(differ, id, AgentSource(agent));
      assert Told(differ, id);
    }
    RecordAdds(differ, w, Integrated(feature), parents, file, Reading(dst), merged, AgentSource(agent), id);
  }

  lemma InitTold(differ: Differ, w: Tables, path: string, content: Text)
    requires AllTold(differ, w)
    ensures AllTold(differ, Initialise(w, path, content))
  {
    assert Told(differ, FirstHead(path, content));
    AddedTold(differ, w, Initialise(w, path, content), FirstHead(path, content));
  }

  lemma StepTold(differ: Differ, w: Tables, a: Action)
    requires Good(w) && AllTold(differ, w)
    ensures AllTold(differ, Step(differ, w, a))
  {
    match a
    case Init(path, content) => InitTold(differ, w, path, content);
    case EditManual(path, content) => EditTold(differ, w, Manual, ManualSource, path, content);
    case EditAgent(agent, path, content) => EditTold(differ, w, Agent(agent), AgentSource(agent), path, content);
    case SubmitAgent(agent) => SubmitTold(differ, w, agent);
    case ApproveAgent(agent, feature) => ApproveTold(differ, w, agent, feature);
    case StageFeatures(features) => FeaturesTold(differ, w, features);
    case StageManual => ManualTold(differ, w);
    case _ =>
      QuietStep(differ, w, a);
      NothingTold(differ, w, Step(differ, w, a));
  }

  /** The other actions only move pointers. */
  lemma QuietStep(differ: Differ, w: Tables, a: Action)
    requires a.JoinAgent? || a.OpenApproval? || a.CreateFeature? || a.DiscardEdit? || a.RejectAgent?
    ensures Step(differ, w, a) == w.(partitions := Step(differ, w, a).partitions)
  {
  }

  lemma NothingTold(differ: Differ, w: Tables, w': Tables)
    requires AllTold(differ, w)
    requires w'.snapshots == w.snapshots && w'.deltas == w.deltas && w'.files == w.files
    ensures AllTold(differ, w')
  {
  }

  lemma {:induction false} RunTold(differ: Differ, w: Tables, run: seq<Action>)
    requires Good(w) && AllTold(differ, w)
    ensures AllTold(differ, Run(differ, w, run))
    decreases |run|
  {
    if run != [] {
      StepTold(differ, w, run[0]);
      StepGood(differ, w, run[0]);
      RunTold(differ, Step(differ, w, run[0]), run[1..]);
    }
  }

  /** After every run every stored snapshot tells truly where it came from: a file, an edit of
      its one parent, or a merge into its first parent, with the conflict flag of that merge. All
      it refers to is stored, down to the texts its deltas are filed under. */
  lemma EverySnapshotTells(differ: Differ, run: seq<Action>, id: SnapshotId)
    requires id in Run(differ, EMPTY, run).snapshots
    ensures Told(differ, id)
    ensures var w := Run(differ, EMPTY, run);
      && (forall p :: p in id.parents ==> p in w.snapshots)
      && (forall d :: d in id.deltas ==> d in w.deltas && d.file in w.files)
  {
    assert Good(EMPTY);
    RunGood(differ, EMPTY, run);
    RunTold(differ, EMPTY, run);
    assert Complete(Run(differ, EMPTY, run), id);
  }
}
