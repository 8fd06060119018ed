/** When an edit reads back byte for byte, over whole runs. */
module Exact {
  import opened Texts
  import opened LineDiffs
  import opened Results
  import opened Diff
  import opened Merge
  import opened Objects
  import opened World
  import opened Pipeline
  import opened Heads

  /** A chain over a newline-terminated file whose text shows all its lines. */
  ghost predicate Shown(id: SnapshotId) {
    && id.deltas != []
    && EndsNl(Content(id))
    && TextOf(id).Ok?
    && LinesOf(id) == Ok(Lines(Read(id)))
  }

  ghost predicate AllShown(w: Tables) {
    forall id :: id in w.snapshots ==> Shown(id)
  }

  /** Steps that hand over newline-terminated files and no lone newline. */
  predicate Ordinary(a: Action) {
    match a
    case Init(_, content) => EndsNl(content) && content != "\n"
    case EditManual(_, content) => content != "\n"
    case EditAgent(_, _, content) => content != "\n"
    case _ => true
  }

  lemma BlankLines(s: Text)
    requires Lines(s) == [""]
    ensures s == "\n"
  {
    JoinOfLines(s);
    LinesEmpty(s);
    if EndsNl(s) {
      assert s == s[..|s| - 1] + "\n";
    }
  }

  lemma ShownIsRenderable(id: SnapshotId)
    requires Shown(id)
    ensures Renderable(Read(id), true)
  {
  }

  lemma ShownExtends(differ: Differ, id: SnapshotId, id': SnapshotId, d: DeltaId, content: Text)
    requires Shown(id) && Extends(differ, id, id', d, content) && content != "\n"
    ensures Shown(id')
  {
    ExtendedText(differ, id, id', d, content);
    if d !in id.deltas {
      assert Lines(content) + [] == Lines(content);
      if Lines(content) == [""] {
        BlankLines(content);
      }
      LinesOfRender(Lines(content), true);
    }
  }

  /** Merging texts that are empty or newline-terminated gives such a text. */
  lemma MergeIsRenderable(differ: Differ, base: Text, ours: Text, theirs: Text)
    requires Renderable(base, true) && Renderable(ours, true) && Renderable(theirs, true)
    ensures Renderable(MergeOf(differ, base, ours, theirs).text, true)
  {
    RenderEnds(LoopLines(differ, base, ours, theirs));
  }

  // ---- every step keeps it ------------------------------------------------

  lemma CommitShown(w: Tables, d: Delta, s: Snapshot, p: PartitionType)
    requires AllShown(w) && Shown(s.id)
    ensures AllShown(Commit(w, d, s, p))
  {
  }

  lemma EditShown(differ: Differ, w: Tables, p: PartitionType, source: Source, path: string, content: Text)
    requires Good(w) && AllShown(w) && content != "\n"
    ensures AllShown(EditPartition(differ, w, p, source, path, content).after)
  {
    if p in w.partitions {
      EditIs(differ, w, p, source, path, content);
      var id := w.partitions[p].current;
      RowIs(w, id);
      var d := EditDelta(differ, path, Read(id), content, source);
      var s' := FromParent(RowOf(id), d.id, p);
      ShownExtends(differ, id, s'.id, d.id, content);
      CommitShown(PutFile(w, d.file, Read(id)), d, s', p);
    }
  }

  lemma RecordShown(differ: Differ, w: Tables, p: PartitionType, parents: seq<Snapshot>, file: FileNode,
                    merged: MergeOutput, source: Source)
    requires AllShown(w) && |parents| > 0 && parents[0] == RowOf(parents[0].id) && Shown(parents[0].id)
    requires merged.text != "\n"
    ensures AllShown(Record(differ, w, p, parents, file, Read(parents[0].id), merged, source).after)
  {
    var id := parents[0].id;
    RecordIs(differ, w, p, parents, file, Read(id), merged, source);
    var d := NewDelta(file, DiffTexts(differ, Read(id), merged.text), source);
    var s' := MergeSnapshot(parents, d.id, p, merged.conflicts != []);
    ShownExtends(differ, id, s'.id, d.id, merged.text);
    CommitShown(w, d, s', p);
  }

  lemma MergeIdsNotBlank(differ: Differ, base: SnapshotId, ours: SnapshotId, theirs: SnapshotId)
    requires Shown(base) && Shown(ours) && Shown(theirs)
    ensures MergeIds(differ, base, ours, theirs).text != "\n"
  {
    ShownIsRenderable(base);
    ShownIsRenderable(ours);
    ShownIsRenderable(theirs);
    MergeIsRenderable(differ, Read(base), Read(ours), Read(theirs));
  }

  lemma SubmitShown(differ: Differ, w: Tables, agent: AgentId)
    requires Good(w) && AllShown(w)
    ensures AllShown(Submit(differ, w, agent).after)
  {
    var from, to := Agent(agent), Approval(agent);
    if from in w.partitions && to in w.partitions && w.partitions[from].current != w.partitions[to].current {
      SubmitIs(differ, w, agent);
      SoundRow(w, to);
      var src, dst, base := w.partitions[from].current, w.partitions[to].current, w.partitions[to].history[0];
      RowIs(w, dst);
      MergeIdsNotBlank(differ, base, dst, src);
      RecordShown(differ, w, to, [w.snapshots[dst], w.snapshots[src]], MergeFile(w, w.snapshots[src], w.snapshots[src]),
                  MergeIds(differ, base, dst, src), AgentSource(agent));
    }
  }

  lemma ApproveShown(differ: Differ, w: Tables, agent: AgentId, feature: string)
    requires Good(w) && AllShown(w)
    ensures AllShown(Approve(differ, w, agent, feature).after)
  {
    if Approval(agent) in w.partitions {
      ApproveIs(differ, w, agent, feature);
      ApproveIntoShown(differ, EnsurePartition(w, Integrated(feature), w.partitions[Approval(agent)].history[0]),
                       agent, feature);
    }
  }

  lemma ApproveIntoShown(differ: Differ, w: Tables, agent: AgentId, feature: string)
    requires Good(w) && AllShown(w)
    requires Approval(agent) in w.partitions && Integrated(feature) in w.partitions
    requires w.partitions[Approval(agent)].current in w.snapshots
    ensures AllShown(ApproveInto(differ, w, agent, feature).after)
  {
    var from, to := Approval(agent), Integrated(feature);
    if w.partitions[from].current != w.partitions[to].current {
      ApproveIntoIs(differ, w, agent, feature);
      ApproveThreeShown(differ, w, agent, feature, w.partitions[to].history[0], w.partitions[from].current,
                        w.partitions[to].current);
    }
  }

  lemma ApproveThreeShown(differ: Differ, w: Tables, agent: AgentId, feature: string, base: SnapshotId, src: SnapshotId,
                          dst: SnapshotId)
    requires Good(w) && AllShown(w) && base in w.snapshots && src in w.snapshots && dst in w.snapshots
    requires TextOf(base).Ok? && TextOf(src).Ok? && TextOf(dst).Ok?
    ensures AllShown(ApproveRecord(differ, w, agent, feature, [w.snapshots[dst], w.snapshots[src], w.snapshots[base]],
                                   MergeFile(w, w.snapshots[src], w.snapshots[dst]), Read(dst),
                                   MergeIds(differ, base, src, dst)).after)
  {
    RowIs(w, dst);
    MergeIdsNotBlank(differ, base, src, dst);
    RecordShown(differ, w, Integrated(feature), [w.snapshots[dst], w.snapshots[src], w.snapshots[base]],
                MergeFile(w, w.snapshots[src], w.snapshots[dst]), MergeIds(differ, base, src, dst), AgentSource(agent));
  }

  lemma MergeFeatureShown(differ: Differ, w: Tables, feature: string)
    requires Good(w) && AllShown(w)
    ensures AllShown(MergeFeature(differ, w, feature).after)
  {
    var from, to := Integrated(feature), Staged;
    if from in w.partitions && to in w.partitions && w.partitions[from].current != w.partitions[to].current {
      MergeFeatureIs(differ, w, feature);
      SoundRow(w, from);
      var src, dst, base := w.partitions[from].current, w.partitions[to].current, w.partitions[from].history[0];
      RowIs(w, dst);
      MergeIdsNotBlank(differ, base, dst, src);
      RecordShown(differ, w, to, [w.snapshots[dst], w.snapshots[src]], MergeFile(w, w.snapshots[src], w.snapshots[dst]),
                  MergeIds(differ, base, dst, src), ManualSource);
    }
  }

  lemma {:induction false} MergeFeaturesShown(differ: Differ, w: Tables, features: seq<string>)
    requires Good(w) && AllShown(w)
    ensures AllShown(MergeFeatures(differ, w, features).after)
    decreases |features|
  {
    if features != [] {
      MergeFeaturesIs(differ, w, features);
      MergeFeatureShown(differ, w, features[0]);
      MergeFeatureGood(differ, w, features[0]);
      var r := MergeFeature(differ, w, features[0]);
      if r.result.Ok? && |features| > 1 {
        MergeFeaturesShown(differ, r.after, features[1..]);
      }
    }
  }

  lemma MergeManualShown(differ: Differ, w: Tables)
    requires Good(w) && AllShown(w)
    ensures AllShown(MergeManual(differ, w).after)
  {
    if Manual in w.partitions && Staged in w.partitions
        && w.partitions[Manual].current != w.partitions[Staged].current {
      MergeManualIs(differ, w);
      var src, dst := w.partitions[Manual].current, w.partitions[Staged].current;
      RowIs(w, dst);
      MergeIdsNotBlank(differ, dst, dst, src);
      RecordShown(differ, w, Staged, [w.snapshots[dst], w.snapshots[src]],
                  MergeFile(w, w.snapshots[src], w.snapshots[dst]), MergeIds(differ, dst, dst, src), ManualSource);
    }
  }

  lemma InitialiseShown(w: Tables, path: string, content: Text)
    requires AllShown(w) && EndsNl(content) && content != "\n"
    ensures AllShown(Initialise(w, path, content))
  {
    var node := NewFileNode(path, content);
    InitialText(InitialSnapshot(node, NewDelta(node, LineDiff([]), ManualSource).id).id);
  }

  lemma StepShown(differ: Differ, w: Tables, a: Action)
    requires Good(w) && AllShown(w) && Ordinary(a)
    ensures AllShown(Step(differ, w, a))
  {
    match a
    case Init(path, content) => InitialiseShown(w, path, content);
    case EditManual(path, content) => EditShown(differ, w, Manual, ManualSource, path, content);
    case EditAgent(agent, path, content) => EditShown(differ, w, Agent(agent), AgentSource(agent), path, content);
    case SubmitAgent(agent) => SubmitShown(differ, w, agent);
    case ApproveAgent(agent, feature) => ApproveShown(differ, w, agent, feature);
    case StageFeatures(features) => MergeFeaturesShown(differ, w, features);
    case StageManual => MergeManualShown(differ, w);
    case _ => QuietStep(differ, w, a);
  }

  /** Opening partitions, discarding and rejecting store no snapshot. */
  lemma QuietStep(differ: Differ, w: Tables, a: Action)
    requires a.JoinAgent? || a.OpenApproval? || a.CreateFeature? || a.DiscardEdit? || a.RejectAgent?
    ensures Step(differ, w, a).snapshots == w.snapshots
  {
  }

  lemma {:induction false} RunShown(differ: Differ, w: Tables, run: seq<Action>)
    requires Good(w) && AllShown(w)
    requires forall a :: a in run ==> Ordinary(a)
    ensures Good(Run(differ, w, run)) && AllShown(Run(differ, w, run))
    decreases |run|
  {
    if run != [] {
      assert run[0] in run && forall a :: a in run[1..] ==> a in run;
      StepGood(differ, w, run[0]);
      StepShown(differ, w, run[0]);
      RunShown(differ, Step(differ, w, run[0]), run[1..]);
    }
  }

  // ---- the edit theorem ----------------------------------------------------

  /** An edit from any sound state. */
  lemma EditExact(differ: Differ, w: Tables, p: PartitionType, source: Source, path: string, content: Text)
    requires Good(w) && p in w.partitions
    ensures var id := w.partitions[p].current;
      var r := EditPartition(differ, w, p, source, path, content);
      && id in w.snapshots && TextOf(id).Ok? && LinesOf(id).Ok?
      && r.result.Ok? && r.result.value in r.after.snapshots
      && r.after.partitions[p].current == r.result.value
      && (ReconstructText(r.after, r.after.snapshots[r.result.value]) == Ok(content) <==>
          || content == Read(id)
          || (EditDelta(differ, path, Read(id), content, source).id !in id.deltas && Survives(id, content)))
  {
    EditIs(differ, w, p, source, path, content);
    var id := w.partitions[p].current;
    var r := EditPartition(differ, w, p, source, path, content);
    EmptyDiffIffSame(differ, Read(id), content);
    EditGood(differ, w, p, source, path, content);
    TextLines(id);
    if content == Read(id) {
      ReadIsText(w, id);
    } else {
      RowIs(w, id);
      var d := EditDelta(differ, path, Read(id), content, source);
      var s' := FromParent(RowOf(id), d.id, p);
      assert Complete(r.after, s'.id);
      ReadIsText(r.after, s'.id);
      EditReadsBack(differ, id, s'.id, d.id, content);
    }
  }

  /** In every run, over every file: an edit's head reads back as exactly the submitted text
      if and only if that text was there already, or its delta is not in the head's chain yet
      and the text survives being written over it. */
  lemma EditsReadBackInRuns(differ: Differ, run: seq<Action>, p: PartitionType, source: Source, path: string,
                            content: Text)
    requires p in Run(differ, EMPTY, run).partitions
    ensures var w := Run(differ, EMPTY, run);
      var id := w.partitions[p].current;
      var r := EditPartition(differ, w, p, source, path, content);
      && id in w.snapshots && TextOf(id).Ok? && LinesOf(id).Ok?
      && r.result.Ok? && r.result.value in r.after.snapshots
      && r.after.partitions[p].current == r.result.value
      && (ReconstructText(r.after, r.after.snapshots[r.result.value]) == Ok(content) <==>
          || content == Read(id)
          || (EditDelta(differ, path, Read(id), content, source).id !in id.deltas && Survives(id, content)))
  {
    RunGood(differ, EMPTY, run);
    EditExact(differ, Run(differ, EMPTY, run), p, source, path, content);
  }

  /** In a run over newline-terminated files, without a lone newline as a text, no snapshot
      hides a line: there a text survives exactly when it is empty or ends with a newline and
      is not a lone one. */
  lemma OrdinaryRunsShow(differ: Differ, run: seq<Action>, id: SnapshotId, content: Text)
    requires forall a :: a in run ==> Ordinary(a)
    requires id in Run(differ, EMPTY, run).snapshots
    ensures TextOf(id).Ok? && LinesOf(id) == Ok(Lines(Read(id))) && Renderable(Read(id), true)
    ensures Survives(id, content) <==> Renderable(content, true)
  {
    assert Good(EMPTY) && AllShown(EMPTY);
    RunShown(differ, EMPTY, run);
    assert Shown(id);
    ShownIsRenderable(id);
  }

  // ---- the same edit twice --------------------------------------------------

  /** The identifiers of the first delta and of the two edits differ. */
  lemma ToggledDeltas(differ: Differ, file: string, path: string, a: Text, b: Text)
    requires a != b
    ensures var d0 := NewDelta(NewFileNode(file, a), LineDiff([]), ManualSource).id;
      var d1 := EditDelta(differ, path, a, b, ManualSource).id;
      var d2 := EditDelta(differ, path, b, a, ManualSource).id;
      d1 != d0 && d2 != d0 && d2 != d1
  {
    EmptyDiffIffSame(differ, a, b);
    EmptyDiffIffSame(differ, b, a);
  }

  function ManualHead(differ: Differ, id: SnapshotId, path: string, content: Text): SnapshotId {
    EditHead(differ, Manual, ManualSource, id, path, content)
  }

  /** To `b`, back to `a`, to `b` again: the third delta repeats the first. */
  lemma Toggled(differ: Differ, file: string, path: string, a: Text, b: Text)
    requires a != b && a != "\n" && Renderable(b, EndsNl(a))
    ensures var h1 := ManualHead(differ, FirstHead(file, a), path, b);
      Reading(ManualHead(differ, ManualHead(differ, h1, path, a), path, b)) == a
  {
    var h0, d0 := FirstHead(file, a), NewDelta(NewFileNode(file, a), LineDiff([]), ManualSource).id;
    var d1, d2 := EditDelta(differ, path, a, b, ManualSource).id, EditDelta(differ, path, b, a, ManualSource).id;
    FirstHeadShows(file, a);
    ToggledDeltas(differ, file, path, a, b);
    EditShows(differ, Manual, ManualSource, h0, path, b);
    var h1 := ManualHead(differ, h0, path, b);
    assert h1.deltas == [d0] + [d1];
    EditShows(differ, Manual, ManualSource, h1, path, a);
    var h2 := ManualHead(differ, h1, path, a);
    assert h2.deltas == [d0] + [d1] + [d2] && h2.deltas[1] == d1;
    EditShows(differ, Manual, ManualSource, h2, path, b);
  }

  lemma ManualRows(differ: Differ, rows: Rows, path: string, content: Text)
    requires Manual in rows
    ensures var rows' := RowStep(differ, rows, EditManual(path, content));
      Manual in rows' && rows'[Manual].current == ManualHead(differ, rows[Manual].current, path, content)
  {
  }

  lemma ToggledRows(differ: Differ, file: string, path: string, a: Text, b: Text)
    ensures var run := [Init(file, a), EditManual(path, b), EditManual(path, a), EditManual(path, b)];
      var rows := RowRun(differ, map[], run);
      var h1 := ManualHead(differ, FirstHead(file, a), path, b);
      Manual in rows && rows[Manual].current == ManualHead(differ, ManualHead(differ, h1, path, a), path, b)
  {
    var run := [Init(file, a), EditManual(path, b), EditManual(path, a), EditManual(path, b)];
    RowRunFour(differ, map[], run);
    var r1 := RowStep(differ, map[], run[0]);
    ManualRows(differ, r1, path, b);
    var r2 := RowStep(differ, r1, run[1]);
    ManualRows(differ, r2, path, a);
    ManualRows(differ, RowStep(differ, r2, run[2]), path, b);
  }

  /** Why the condition is there. For every differ, over any file but a lone newline, and for
      any other text that survives over it: edit the file to that text, back to the first,
      and to the other again. The third delta has the identifier of the first, reading the
      chain drops it, and the head still reads as the first text: the edit is lost. */
  lemma EditIsLost(differ: Differ, file: string, path: string, a: Text, b: Text)
    requires a != b && a != "\n" && Renderable(b, EndsNl(a))
    ensures var run := [Init(file, a), EditManual(path, b), EditManual(path, a), EditManual(path, b)];
      var w := Run(differ, EMPTY, run);
      && Manual in w.partitions && w.partitions[Manual].current in w.snapshots
      && ReconstructText(w, w.snapshots[w.partitions[Manual].current]) == Ok(a)
  {
    var run := [Init(file, a), EditManual(path, b), EditManual(path, a), EditManual(path, b)];
    Toggled(differ, file, path, a, b);
    ToggledRows(differ, file, path, a, b);
    RowsFromEmpty(differ, run);
    assert Good(EMPTY);
    RunGood(differ, EMPTY, run);
    StoredReads(Run(differ, EMPTY, run), Manual);
  }
}
