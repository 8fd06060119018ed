/** Rows are written once: from any tables whatever, sound or not, no action ever changes or
    removes a row of the files, the deltas or the snapshots (`INSERT OR IGNORE`,
    src/storage/sqlite). */
module Permanence {
  import opened Texts
  import opened Diff
  import opened Merge
  import opened Objects
  import opened World
  import opened Pipeline

  predicate Within<K, V(==)>(rows: map<K, V>, rows': map<K, V>) {
    forall k :: k in rows ==> k in rows' && rows'[k] == rows[k]
  }

  ghost predicate KeepsRows(w: Tables, w': Tables) {
    Within(w.files, w'.files) && Within(w.deltas, w'.deltas) && Within(w.snapshots, w'.snapshots)
  }

  lemma WritesKeep(w: Tables, file: FileNode, content: Text, d: Delta, s: Snapshot, p: PartitionType)
    ensures KeepsRows(w, UpdatePointer(PutSnapshot(PutDelta(w, d), s), p, s.id).after)
    ensures KeepsRows(w, UpdatePointer(PutSnapshot(PutDelta(PutFile(w, file, content), d), s), p, s.id).after)
  {
  }

  lemma EditKeeps(differ: Differ, w: Tables, p: PartitionType, source: Source, path: string, content: Text)
    ensures KeepsRows(w, EditPartition(differ, w, p, source, path, content).after)
  {
    if p in w.partitions && w.partitions[p].current in w.snapshots {
      var s := w.snapshots[w.partitions[p].current];
      var r := ReconstructText(w, s);
      if r.Ok? {
        var d := EditDelta(differ, path, r.value, content, source);
        WritesKeep(w, d.file, r.value, d, FromParent(s, d.id, p), p);
      }
    }
  }

  lemma RecordKeeps(differ: Differ, w: Tables, p: PartitionType, parents: seq<Snapshot>, file: FileNode,
                    before: Text, merged: MergeOutput, source: Source)
    requires |parents| > 0
    ensures KeepsRows(w, Record(differ, w, p, parents, file, before, merged, source).after)
  {
    var d := NewDelta(file, DiffTexts(differ, before, merged.text), source);
    WritesKeep(w, file, before, d, MergeSnapshot(parents, d.id, p, merged.conflicts != []), p);
  }

  /** Whatever three texts a merge into two parents works on. */
  lemma PairKeeps(differ: Differ, w: Tables, p: PartitionType, target: Snapshot, incoming: Snapshot, base: Snapshot,
                  fallback: Snapshot, source: Source)
    ensures var t := Reconstruct3(w, base, target, incoming);
      t.Ok? ==> KeepsRows(w, Record(differ, w, p, [target, incoming], MergeFile(w, incoming, fallback), t.value.first,
                                    MergeOf(differ, t.value.base, t.value.first, t.value.second), source).after)
  {
    var t := Reconstruct3(w, base, target, incoming);
    if t.Ok? {
      RecordKeeps(differ, w, p, [target, incoming], MergeFile(w, incoming, fallback), t.value.first,
                  MergeOf(differ, t.value.base, t.value.first, t.value.second), source);
    }
  }

  lemma SubmitKeeps(differ: Differ, w: Tables, agent: AgentId)
    ensures KeepsRows(w, Submit(differ, w, agent).after)
  {
    if Agent(agent) in w.partitions && Approval(agent) in w.partitions {
      var src, dst := w.partitions[Agent(agent)], w.partitions[Approval(agent)];
      if src.current in w.snapshots && dst.current in w.snapshots && dst.history != []
          && dst.history[0] in w.snapshots {
        PairKeeps(differ, w, Approval(agent), w.snapshots[dst.current], w.snapshots[src.current],
                  w.snapshots[dst.history[0]], w.snapshots[src.current], AgentSource(agent));
      }
    }
  }

  lemma FeatureKeeps(differ: Differ, w: Tables, feature: string)
    ensures KeepsRows(w, MergeFeature(differ, w, feature).after)
  {
    if Integrated(feature) in w.partitions && Staged in w.partitions {
      var src, dst := w.partitions[Integrated(feature)], w.partitions[Staged];
      if src.history != [] && src.history[0] in w.snapshots && src.current in w.snapshots
          && dst.current in w.snapshots {
        PairKeeps(differ, w, Staged, w.snapshots[dst.current], w.snapshots[src.current],
                  w.snapshots[src.history[0]], w.snapshots[dst.current], ManualSource);
      }
    }
  }

  lemma KeepsTwice(u: Tables, v: Tables, w: Tables)
    requires KeepsRows(u, v) && KeepsRows(v, w)
    ensures KeepsRows(u, w)
  {
  }

  lemma {:induction false} FeaturesKeep(differ: Differ, w: Tables, features: seq<string>)
    ensures KeepsRows(w, MergeFeatures(differ, w, features).after)
    decreases |features|
  {
    if features != [] {
      var r := MergeFeature(differ, w, features[0]);
      MergeFeaturesIs(differ, w, features);
      FeatureKeeps(differ, w, features[0]);
      if r.result.Ok? && |features| > 1 {
        FeaturesKeep(differ, r.after, features[1..]);
        KeepsTwice(w, r.after, MergeFeatures(differ, r.after, features[1..]).after);
      }
    }
  }

  lemma ManualKeeps(differ: Differ, w: Tables)
    ensures KeepsRows(w, MergeManual(differ, w).after)
  {
    if Manual in w.partitions && Staged in w.partitions {
      var src, dst := w.partitions[Manual], w.partitions[Staged];
      if src.current in w.snapshots && dst.current in w.snapshots {
        PairKeeps(differ, w, Staged, w.snapshots[dst.current], w.snapshots[src.current],
                  w.snapshots[dst.current], w.snapshots[dst.current], ManualSource);
      }
    }
  }

  lemma ApproveKeeps(differ: Differ, w: Tables, agent: AgentId, feature: string)
    ensures KeepsRows(w, Approve(differ, w, agent, feature).after)
  {
    if Approval(agent) in w.partitions {
      var src := w.partitions[Approval(agent)];
      if src.current in w.snapshots && src.history != [] {
        ApproveIntoKeeps(differ, EnsurePartition(w, Integrated(feature), src.history[0]), agent, feature);
      }
    }
  }

  lemma ApproveIntoKeeps(differ: Differ, w: Tables, agent: AgentId, feature: string)
    requires Approval(agent) in w.partitions && Integrated(feature) in w.partitions
    requires w.partitions[Approval(agent)].current in w.snapshots
    ensures KeepsRows(w, ApproveInto(differ, w, agent, feature).after)
  {
    var src, dst := w.partitions[Approval(agent)], w.partitions[Integrated(feature)];
    if dst.history != [] && dst.history[0] in w.snapshots && dst.current in w.snapshots {
      var base, incoming, target := w.snapshots[dst.history[0]], w.snapshots[src.current], w.snapshots[dst.current];
      var t := Reconstruct3(w, base, incoming, target);
      if t.Ok? {
        RecordKeeps(differ, w, Integrated(feature), [target, incoming, base], MergeFile(w, incoming, target),
                    t.value.second, MergeOf(differ, t.value.base, t.value.first, t.value.second),
                    AgentSource(agent));
      }
    }
  }

  lemma InitKeeps(w: Tables, path: string, content: Text)
    ensures KeepsRows(w, Initialise(w, path, content))
  {
  }

  lemma StepKeeps(differ: Differ, w: Tables, a: Action)
    ensures KeepsRows(w, Step(differ, w, a))
  {
    match a
    case Init(path, content) => InitKeeps(w, path, content);
    case EditManual(path, content) => EditKeeps(differ, w, Manual, ManualSource, path, content);
    case EditAgent(agent, path, content) => EditKeeps(differ, w, Agent(agent), AgentSource(agent), path, content);
    case SubmitAgent(agent) => SubmitKeeps(differ, w, agent);
    case ApproveAgent(agent, feature) => ApproveKeeps(differ, w, agent, feature);
    case StageFeatures(features) => FeaturesKeep(differ, w, features);
    case StageManual => ManualKeeps(differ, w);
    case _ =>
  }

  /** Over any run from any tables, damaged ones too, every row stays as it was first written. */
  lemma {:induction false} RowsNeverChange(differ: Differ, w: Tables, run: seq<Action>)
    ensures KeepsRows(w, Run(differ, w, run))
    decreases |run|
  {
    if run != [] {
      StepKeeps(differ, w, run[0]);
      RowsNeverChange(differ, Step(differ, w, run[0]), run[1..]);
      KeepsTwice(w, Step(differ, w, run[0]), Run(differ, Step(differ, w, run[0]), run[1..]));
    }
  }

  // ---- reading rows ------------------------------------------------------------------------

  /** From any table: an identifier without a row, or asked for before, changes nothing about
      what a read gives. */
  lemma {:induction false} PickSkips(rows: map<DeltaId, Delta>, a: seq<DeltaId>, id: DeltaId, b: seq<DeltaId>)
    requires id !in rows || id in a
    ensures Pick(rows, a + [id] + b) == Pick(rows, a + b)
    decreases |a|
  {
    if a == [] {
      assert a + [id] + b == [id] + b && ([id] + b)[1..] == b && a + b == b;
    } else {
      assert (a + [id] + b)[1..] == a[1..] + [id] + b && (a + b)[1..] == a[1..] + b;
      assert id in a ==> id == a[0] || id in a[1..];
      PickSkips(if a[0] in rows then rows - {a[0]} else rows, a[1..], id, b);
    }
  }

  /** What is asked for once and there is given in the order asked for. */
  lemma {:induction false} PickInOrder(rows: map<DeltaId, Delta>, ids: seq<DeltaId>)
    requires forall i, j :: 0 <= i < j < |ids| ==> ids[i] != ids[j]
    requires forall id :: id in ids ==> id in rows
    ensures |Pick(rows, ids)| == |ids| && forall k :: 0 <= k < |ids| ==> Pick(rows, ids)[k] == rows[ids[k]]
    decreases |ids|
  {
    if ids != [] {
      assert forall id :: id in ids[1..] ==> id in ids;
      PickInOrder(rows - {ids[0]}, ids[1..]);
    }
  }
}
