/** Runs of the layered pipeline, and what every run keeps. */
module Pipeline {
  import opened Texts
  import opened LineDiffs
  import opened Results
  import opened Patch
  import opened Diff
  import opened Merge
  import opened Chains
  import opened Objects
  import opened World

  // ---- runs ------------------------------------------------------------

  datatype Action =
    | Init(path: string, content: Text)
    | JoinAgent(agent: AgentId)
    | OpenApproval(agent: AgentId)
    | CreateFeature(feature: string)
    | EditManual(path: string, content: Text)
    | EditAgent(agent: AgentId, path: string, content: Text)
    | SubmitAgent(agent: AgentId)
    | DiscardEdit(agent: AgentId)
    | RejectAgent(agent: AgentId)
    | ApproveAgent(agent: AgentId, feature: string)
    | StageFeatures(features: seq<string>)
    | StageManual

  /** Service initialisation: a file, an empty delta, an initial snapshot, and the manual
      and staged partitions on it. */
  function Initialise(w: Tables, path: string, content: Text): Tables {
    var node := NewFileNode(path, content);
    var d := NewDelta(node, LineDiff([]), ManualSource);
    var s := InitialSnapshot(node, d.id);
    var w' := PutSnapshot(PutDelta(PutFile(w, node, content), d), s);
    EnsurePartition(EnsurePartition(w', Manual, s.id), Staged, s.id)
  }

  /** New partitions start from what is staged, as the service makes them. */
  function FromStaged(w: Tables, p: PartitionType): Tables {
    if Staged in w.partitions then EnsurePartition(w, p, w.partitions[Staged].current) else w
  }

  function Step(differ: Differ, w: Tables, a: Action): Tables {
    match a
    case Init(path, content) => Initialise(w, path, content)
    case JoinAgent(agent) => FromStaged(w, Agent(agent))
    case OpenApproval(agent) => FromStaged(w, Approval(agent))
    case CreateFeature(feature) => FromStaged(w, Integrated(feature))
    case EditManual(path, content) => ManualEdit(differ, w, path, content).after
    case EditAgent(agent, path, content) => AgentEdit(differ, w, agent, path, content).after
    case SubmitAgent(agent) => Submit(differ, w, agent).after
    case DiscardEdit(agent) => Discard(w, agent).after
    case RejectAgent(agent) => Reject(w, agent).after
    case ApproveAgent(agent, feature) => Approve(differ, w, agent, feature).after
    case StageFeatures(features) => MergeFeatures(differ, w, features).after
    case StageManual => MergeManual(differ, w).after
  }

  function Run(differ: Differ, w: Tables, run: seq<Action>): Tables
    decreases |run|
  {
    if run == [] then w else Run(differ, Step(differ, w, run[0]), run[1..])
  }

  const EMPTY: Tables := Tables(map[], map[], map[], map[])

  // ---- the text an identifier stands for ---------------------------------

  /** First occurrences, in order, of ids not seen before. */
  function Fresh(ids: seq<DeltaId>, seen: set<DeltaId>): seq<LineDiff> {
    if ids == [] then []
    else if ids[0] in seen then Fresh(ids[1..], seen)
    else [ids[0].diff] + Fresh(ids[1..], seen + {ids[0]})
  }

  /** The diffs a chain of ids really applies: a repeated id counts once. */
  function ChainDiffs(ids: seq<DeltaId>): seq<LineDiff> {
    Fresh(ids, {})
  }

  function Content(id: SnapshotId): Text {
    id.file.baseHash.content
  }

  function TextOf(id: SnapshotId): Result<Text, PatchError> {
    ApplyDiffs(Content(id), ChainDiffs(id.deltas))
  }

  function LinesOf(id: SnapshotId): Patched {
    FoldLines(Lines(Content(id)), ChainDiffs(id.deltas))
  }

  lemma {:induction false} FreshSnoc(ids: seq<DeltaId>, seen: set<DeltaId>, d: DeltaId)
    ensures Fresh(ids + [d], seen) == Fresh(ids, seen) + if d in ids || d in seen then [] else [d.diff]
  {
    if ids == [] {
      assert ids + [d] == [d];
    } else {
      assert (ids + [d])[1..] == ids[1..] + [d];
      FreshSnoc(ids[1..], if ids[0] in seen then seen else seen + {ids[0]}, d);
      assert d in ids <==> d == ids[0] || d in ids[1..];
    }
  }

  // ---- the invariant -----------------------------------------------------

  /** Every row sits under the identifier of its own content. */
  ghost predicate WellKeyed(w: Tables) {
    && (forall n :: n in w.files ==> w.files[n] == n.baseHash.content)
    && (forall id :: id in w.deltas ==> w.deltas[id].id == id && w.deltas[id].ComputeId() == id)
    && (forall id :: id in w.snapshots ==> w.snapshots[id].id == id && w.snapshots[id].ComputeId() == id)
  }

  /** All that a snapshot refers to is stored, and it can be read. */
  ghost predicate Complete(w: Tables, id: SnapshotId) {
    && id.file in w.files
    && id.deltas != []
    && (forall d :: d in id.deltas ==> d in w.deltas)
    && (forall p :: p in id.parents ==> p in w.snapshots)
    && TextOf(id).Ok?
  }

  /** The pointer is the last history entry and all entries are stored snapshots. */
  ghost predicate Sound(w: Tables, p: Partition) {
    && p.history != []
    && p.current == p.history[|p.history| - 1]
    && (forall id :: id in p.history ==> id in w.snapshots)
  }

  ghost predicate Good(w: Tables) {
    && WellKeyed(w)
    && (forall id :: id in w.snapshots ==> Complete(w, id))
    && (forall p :: p in w.partitions ==> Sound(w, w.partitions[p]))
  }

  /** The first entry stays, and outside the approvals nothing is ever taken away. */
  predicate KeepsHistory(p: PartitionType, h: seq<SnapshotId>, h': seq<SnapshotId>) {
    h != [] ==> h' != [] && h'[0] == h[0] && (!p.Approval? ==> h <= h')
  }

  /** Rows are only ever added. */
  ghost predicate Grows(w: Tables, w': Tables) {
    && w.files.Keys <= w'.files.Keys
    && w.deltas.Keys <= w'.deltas.Keys
    && w.snapshots.Keys <= w'.snapshots.Keys
    && (forall p :: p in w.partitions ==>
          p in w'.partitions && KeepsHistory(p, w.partitions[p].history, w'.partitions[p].history))
  }

  // ---- reading is a function of the identifier ----------------------------

  lemma {:induction false} PickIsFresh(rows: map<DeltaId, Delta>, seen: set<DeltaId>, ids: seq<DeltaId>)
    requires forall id :: id in rows ==> rows[id].ComputeId() == id
    requires forall id :: id in ids ==> id in rows
    ensures DiffsOf(Pick(rows - seen, ids)) == Fresh(ids, seen)
    decreases |ids|
  {
    if ids != [] {
      var d, rest := ids[0], ids[1..];
      assert d in ids && forall id :: id in rest ==> id in ids;
      if d in seen {
        PickIsFresh(rows, seen, rest);
      } else {
        PickIsFresh(rows, seen + {d}, rest);
        assert rows - seen - {d} == rows - (seen + {d});
        var picked := Pick(rows - (seen + {d}), rest);
        assert ([rows[d]] + picked)[1..] == picked;
      }
    }
  }

  lemma ReadIsText(w: Tables, id: SnapshotId)
    requires WellKeyed(w) && id in w.snapshots && Complete(w, id)
    ensures ReconstructText(w, w.snapshots[id]) == Ok(TextOf(id).value)
  {
    PickIsFresh(w.deltas, {}, id.deltas);
    assert w.deltas - {} == w.deltas;
  }

  // ---- extending a chain -------------------------------------------------

  lemma FreshNonEmpty(ids: seq<DeltaId>)
    requires ids != []
    ensures ChainDiffs(ids) != []
  {
  }

  /** The empty line a chain may hold that its text no longer shows. */
  function Lost(id: SnapshotId): seq<Line>
    requires TextOf(id).Ok? && LinesOf(id).Ok?
  {
    if LinesOf(id).value == Lines(TextOf(id).value) then [] else [""]
  }

  lemma TextLines(id: SnapshotId)
    requires id.deltas != [] && TextOf(id).Ok?
    ensures LinesOf(id).Ok?
    ensures TextOf(id).value == Render(LinesOf(id).value, EndsNl(Content(id)))
    ensures LinesOf(id).value == Lines(TextOf(id).value) + Lost(id)
    ensures Lost(id) == [] <==> Faithful(LinesOf(id).value, EndsNl(Content(id)))
  {
    FreshNonEmpty(id.deltas);
    LinesOfRender(LinesOf(id).value, EndsNl(Content(id)));
  }

  /** `id'` is the chain of `id` with the delta of an edit to `content` at its end. */
  ghost predicate Extends(differ: Differ, id: SnapshotId, id': SnapshotId, d: DeltaId, content: Text) {
    && id.deltas != []
    && TextOf(id).Ok?
    && d.diff == DiffTexts(differ, TextOf(id).value, content)
    && id'.file == id.file
    && id'.deltas == id.deltas + [d]
  }

  /** What a chain reads after it is extended. A delta already in the chain is dropped when
      the chain is read, and the text stays what it was; any other delta makes the lines
      exactly the target's, plus the empty line lost before, if any. */
  lemma ExtendedText(differ: Differ, id: SnapshotId, id': SnapshotId, d: DeltaId, content: Text)
    requires Extends(differ, id, id', d, content)
    ensures id'.deltas != [] && TextOf(id').Ok? && LinesOf(id').Ok? && LinesOf(id).Ok?
    ensures d in id.deltas ==> TextOf(id') == TextOf(id) && LinesOf(id') == LinesOf(id)
    ensures d !in id.deltas ==>
      && LinesOf(id').value == Lines(content) + Lost(id)
      && TextOf(id').value == Render(Lines(content) + Lost(id), EndsNl(Content(id)))
  {
    FreshSnoc(id.deltas, {}, d);
    TextLines(id);
    if d in id.deltas {
      assert ChainDiffs(id'.deltas) == ChainDiffs(id.deltas);
    } else {
      var text := TextOf(id).value;
      FoldSnoc(Lines(Content(id)), ChainDiffs(id.deltas), d.diff);
      DiffRoundTrip(differ, text, content);
      ApplyLonger(Lines(text), Lost(id), 0, d.diff.hunks);
      FreshNonEmpty(id'.deltas);
    }
  }

  /** Whether a text, written over a chain, is read back: the chain's text must render it with
      the base file's final newline. Where the head hides an empty last line, that line shows
      again, and only texts that end with it come back. */
  predicate Survives(id: SnapshotId, content: Text)
    requires TextOf(id).Ok? && LinesOf(id).Ok?
  {
    if LinesOf(id).value == Lines(TextOf(id).value)
    then Renderable(content, EndsNl(Content(id)))
    else content == "" || (EndsNl(content) && !EndsNl(Content(id)))
  }

  lemma SurvivesIff(id: SnapshotId, content: Text)
    requires TextOf(id).Ok? && LinesOf(id).Ok?
    ensures Render(Lines(content) + Lost(id), EndsNl(Content(id))) == content <==> Survives(id, content)
  {
    assert Lines(content) + [] == Lines(content);
    RenderOfLines(content, EndsNl(Content(id)));
    RenderWithBlank(content, EndsNl(Content(id)));
  }

  /** An edit is read back byte for byte exactly when its delta is not in the chain already
      and the text survives being written over it. */
  lemma EditReadsBack(differ: Differ, id: SnapshotId, id': SnapshotId, d: DeltaId, content: Text)
    requires Extends(differ, id, id', d, content) && TextOf(id).value != content
    ensures LinesOf(id).Ok?
    ensures TextOf(id') == Ok(content) <==> d !in id.deltas && Survives(id, content)
  {
    ExtendedText(differ, id, id', d, content);
    SurvivesIff(id, content);
  }

  // ---- every operation keeps the invariant --------------------------------

  /** Adding well-keyed rows keeps everything, if the new snapshots are complete. */
  lemma AddedRowsGood(w: Tables, w': Tables)
    requires Good(w) && WellKeyed(w') && Grows(w, w') && w'.partitions == w.partitions
    requires forall id :: id in w'.snapshots && id !in w.snapshots ==> Complete(w', id)
    ensures Good(w')
  {
  }

  lemma PutFileGood(w: Tables, path: string, content: Text)
    requires Good(w)
    ensures Good(PutFile(w, NewFileNode(path, content), content))
  {
    AddedRowsGood(w, PutFile(w, NewFileNode(path, content), content));
  }

  lemma PutDeltaGood(w: Tables, file: FileNode, diff: LineDiff, source: Source)
    requires Good(w)
    ensures Good(PutDelta(w, NewDelta(file, diff, source)))
  {
    AddedRowsGood(w, PutDelta(w, NewDelta(file, diff, source)));
  }

  lemma CompleteGrows(w: Tables, w': Tables, id: SnapshotId)
    requires Complete(w, id) && Grows(w, w')
    ensures Complete(w', id)
  {
  }

  lemma PutSnapshotGood(w: Tables, s: Snapshot)
    requires Good(w) && s.id == s.ComputeId() && Complete(w, s.id)
    ensures Good(PutSnapshot(w, s))
  {
    var w' := PutSnapshot(w, s);
    CompleteGrows(w, w', s.id);
    AddedRowsGood(w, w');
  }

  /** Replacing one partition row by a sound one. */
  lemma SetPartitionGood(w: Tables, p: PartitionType, row: Partition)
    requires Good(w) && Sound(w, row)
    ensures Good(w.(partitions := w.partitions[p := row]))
  {
  }

  lemma UpdatePointerGood(w: Tables, p: PartitionType, s: SnapshotId)
    requires Good(w) && s in w.snapshots
    ensures Good(UpdatePointer(w, p, s).after) && Grows(w, UpdatePointer(w, p, s).after)
  {
    if p in w.partitions {
      var row := Partition(s, w.partitions[p].history + [s]);
      assert Sound(w, row) by {
        assert Sound(w, w.partitions[p]);
      }
      SetPartitionGood(w, p, row);
    }
    PointerGrows(w, p, s);
  }

  lemma PointerGrows(w: Tables, p: PartitionType, s: SnapshotId)
    ensures Grows(w, UpdatePointer(w, p, s).after)
  {
  }

  lemma ResetGood(w: Tables, p: PartitionType)
    requires Good(w) && p.Approval?
    ensures Good(ResetPartition(w, p).after) && Grows(w, ResetPartition(w, p).after)
  {
    if p in w.partitions {
      assert Sound(w, w.partitions[p]);
      var first := w.partitions[p].history[0];
      assert first in w.partitions[p].history;
      SetPartitionGood(w, p, Partition(first, [first]));
    }
  }

  lemma EnsureGood(w: Tables, p: PartitionType, s: SnapshotId)
    requires Good(w) && s in w.snapshots
    ensures Good(EnsurePartition(w, p, s)) && Grows(w, EnsurePartition(w, p, s))
  {
    EnsureGrows(w, p, s);
    if p !in w.partitions {
      SetPartitionGood(w, p, Partition(s, [s]));
    }
  }

  lemma EnsureGrows(w: Tables, p: PartitionType, s: SnapshotId)
    ensures Grows(w, EnsurePartition(w, p, s))
  {
  }

  /** Storing the snapshot that extends a stored one. */
  lemma StoreExtendedGood(differ: Differ, w: Tables, id: SnapshotId, d: Delta, s': Snapshot, content: Text)
    requires Good(w) && id in w.snapshots
    requires d.id == d.ComputeId() && s'.id == s'.ComputeId()
    requires Extends(differ, id, s'.id, d.id, content)
    requires forall p :: p in s'.parents ==> p in w.snapshots
    ensures Good(PutSnapshot(PutDelta(w, d), s')) && Grows(w, PutSnapshot(PutDelta(w, d), s'))
  {
    assert d == NewDelta(d.file, d.diff, d.source);
    PutDeltaGood(w, d.file, d.diff, d.source);
    assert Complete(w, id);
    ExtendedComplete(differ, w, id, d, s'.id, content);
    PutSnapshotGood(PutDelta(w, d), s');
  }

  lemma ExtendedComplete(differ: Differ, w: Tables, id: SnapshotId, d: Delta, id': SnapshotId, content: Text)
    requires Complete(w, id) && Extends(differ, id, id', d.id, content)
    requires forall p :: p in id'.parents ==> p in w.snapshots
    ensures Complete(PutDelta(w, d), id')
  {
    ExtendedText(differ, id, id', d.id, content);
  }

  lemma RecordPairGood(differ: Differ, w: Tables, p: PartitionType, dst: SnapshotId, src: SnapshotId, file: FileNode,
                       merged: MergeOutput, source: Source)
    requires Good(w) && dst in w.snapshots && src in w.snapshots && TextOf(dst).Ok?
    ensures var w' := Record(differ, w, p, [w.snapshots[dst], w.snapshots[src]], file, Read(dst), merged, source).after;
      Good(w') && Grows(w, w')
  {
    RecordGood(differ, w, p, [w.snapshots[dst], w.snapshots[src]], file, Read(dst), merged, source);
  }

  /** The text a stored snapshot reads as. */
  function Read(id: SnapshotId): Text
    requires TextOf(id).Ok?
  {
    TextOf(id).value
  }

  /** What an operation reads from a sound partition. */
  lemma SoundRow(w: Tables, p: PartitionType)
    requires Good(w) && p in w.partitions
    ensures var row := w.partitions[p];
      && row.history != []
      && row.current in w.snapshots && row.history[0] in w.snapshots
      && Complete(w, row.current) && Complete(w, row.history[0])
      && ReconstructText(w, w.snapshots[row.current]) == Ok(TextOf(row.current).value)
      && ReconstructText(w, w.snapshots[row.history[0]]) == Ok(TextOf(row.history[0]).value)
  {
    var row := w.partitions[p];
    assert Sound(w, row);
    assert row.current in row.history && row.history[0] in row.history;
    ReadIsText(w, row.current);
    ReadIsText(w, row.history[0]);
  }

  /** What an edit does from a good state: nothing when the partition does not exist or the
      text is already there, and otherwise the three writes and the pointer. */
  lemma EditIs(differ: Differ, w: Tables, p: PartitionType, source: Source, path: string, content: Text)
    requires Good(w) && p in w.partitions
    ensures var id := w.partitions[p].current;
      && id in w.snapshots && Complete(w, id) && w.snapshots[id].id == id
      && var before := TextOf(id).value;
      && var d := EditDelta(differ, path, before, content, source);
      && var s' := FromParent(w.snapshots[id], d.id, p);
      && EditPartition(differ, w, p, source, path, content) ==
         if d.diff == LineDiff([]) then Outcome(w, Ok(id))
         else Outcome(UpdatePointer(PutSnapshot(PutDelta(PutFile(w, d.file, before), d), s'), p, s'.id).after,
                      Ok(s'.id))
  {
    SoundRow(w, p);
  }

  lemma EditGood(differ: Differ, w: Tables, p: PartitionType, source: Source, path: string, content: Text)
    requires Good(w)
    ensures Good(EditPartition(differ, w, p, source, path, content).after)
    ensures Grows(w, EditPartition(differ, w, p, source, path, content).after)
  {
    if p in w.partitions {
      EditIs(differ, w, p, source, path, content);
      WrittenGood(differ, w, p, w.partitions[p].current, source, path, content);
    }
  }

  lemma WrittenGood(differ: Differ, w: Tables, p: PartitionType, id: SnapshotId, source: Source, path: string,
                    content: Text)
    requires Good(w) && id in w.snapshots && Complete(w, id) && w.snapshots[id].id == id
    ensures var before := TextOf(id).value;
      var d := EditDelta(differ, path, before, content, source);
      var s' := FromParent(w.snapshots[id], d.id, p);
      var w' := UpdatePointer(PutSnapshot(PutDelta(PutFile(w, d.file, before), d), s'), p, s'.id).after;
      Good(w') && Grows(w, w')
  {
    var before := TextOf(id).value;
    var d := EditDelta(differ, path, before, content, source);
    var s' := FromParent(w.snapshots[id], d.id, p);
    PutFileGood(w, path, before);
    var w1 := PutFile(w, d.file, before);
    StoreExtendedGood(differ, w1, id, d, s', content);
    UpdatePointerGood(PutSnapshot(PutDelta(w1, d), s'), p, s'.id);
  }

  lemma DiscardGood(w: Tables, agent: AgentId)
    requires Good(w)
    ensures Good(Discard(w, agent).after) && Grows(w, Discard(w, agent).after)
  {
    var p := Agent(agent);
    if p in w.partitions {
      var row := w.partitions[p];
      assert Sound(w, row);
      assert row.current in row.history;
      assert Complete(w, row.current);
      var s := w.snapshots[row.current];
      if s.parents != [] {
        assert s.parents[0] in s.id.parents;
        UpdatePointerGood(w, p, s.parents[0]);
      }
    }
  }

  lemma {:induction false} IdsStored(w: Tables, ss: seq<Snapshot>)
    requires forall s :: s in ss ==> s.id in w.snapshots
    ensures forall id :: id in IdsOf(ss) ==> id in w.snapshots
  {
    if ss != [] {
      assert ss[0] in ss;
      IdsStored(w, ss[1..]);
    }
  }

  /** A merge into a stored destination, whatever the merged text. */
  lemma RecordGood(differ: Differ, w: Tables, p: PartitionType, parents: seq<Snapshot>, file: FileNode,
                   before: Text, merged: MergeOutput, source: Source)
    requires Good(w) && |parents| > 0
    requires forall s :: s in parents ==> s.id in w.snapshots && w.snapshots[s.id] == s
    requires TextOf(parents[0].id) == Ok(before)
    ensures var w' := Record(differ, w, p, parents, file, before, merged, source).after;
      Good(w') && Grows(w, w')
  {
    var diff := DiffTexts(differ, before, merged.text);
    if diff != LineDiff([]) {
      var target := parents[0];
      assert target in parents && Complete(w, target.id);
      var d := NewDelta(file, diff, source);
      var s' := MergeSnapshot(parents, d.id, p, merged.conflicts != []);
      IdsStored(w, parents);
      StoreExtendedGood(differ, w, target.id, d, s', merged.text);
      UpdatePointerGood(PutSnapshot(PutDelta(w, d), s'), p, s'.id);
    }
  }

  function MergeIds(differ: Differ, base: SnapshotId, ours: SnapshotId, theirs: SnapshotId): MergeOutput
    requires TextOf(base).Ok? && TextOf(ours).Ok? && TextOf(theirs).Ok?
  {
    MergeOf(differ, Read(base), Read(ours), Read(theirs))
  }

  /** A submission from a good state is a merge into the approval, on the texts the
      partitions point to. */
  lemma SubmitIs(differ: Differ, w: Tables, agent: AgentId)
    requires Good(w) && Agent(agent) in w.partitions && Approval(agent) in w.partitions
    requires w.partitions[Agent(agent)].current != w.partitions[Approval(agent)].current
    ensures var src, dst := w.partitions[Agent(agent)], w.partitions[Approval(agent)];
      && dst.history != []
      && Complete(w, src.current) && Complete(w, dst.current) && Complete(w, dst.history[0])
      && src.current in w.snapshots && dst.current in w.snapshots
      && Submit(differ, w, agent) ==
         Record(differ, w, Approval(agent), [w.snapshots[dst.current], w.snapshots[src.current]],
                MergeFile(w, w.snapshots[src.current], w.snapshots[src.current]), Read(dst.current),
                MergeIds(differ, dst.history[0], dst.current, src.current), AgentSource(agent))
  {
    SoundRow(w, Agent(agent));
    SoundRow(w, Approval(agent));
  }

  lemma SubmitGood(differ: Differ, w: Tables, agent: AgentId)
    requires Good(w)
    ensures Good(Submit(differ, w, agent).after) && Grows(w, Submit(differ, w, agent).after)
  {
    var from, to := Agent(agent), Approval(agent);
    if from in w.partitions && to in w.partitions {
      var src, dst := w.partitions[from], w.partitions[to];
      if src.current != dst.current {
        SubmitIs(differ, w, agent);
        RecordPairGood(differ, w, to, dst.current, src.current,
                       MergeFile(w, w.snapshots[src.current], w.snapshots[src.current]),
                       MergeIds(differ, dst.history[0], dst.current, src.current), AgentSource(agent));
      }
    }
  }

  lemma EnsureLeaves(w: Tables, p: PartitionType, s: SnapshotId, q: PartitionType)
    requires q != p && q in w.partitions
    ensures var w' := EnsurePartition(w, p, s);
      && p in w'.partitions && q in w'.partitions && w'.partitions[q] == w.partitions[q]
      && w'.snapshots == w.snapshots
  {
  }

  /** An approval first makes sure of the feature, on the approval's own baseline. */
  lemma ApproveIs(differ: Differ, w: Tables, agent: AgentId, feature: string)
    requires Good(w) && Approval(agent) in w.partitions
    ensures var row := w.partitions[Approval(agent)];
      && row.history != []
      && var w1 := EnsurePartition(w, Integrated(feature), row.history[0]);
      && Good(w1) && Grows(w, w1)
      && Approval(agent) in w1.partitions && Integrated(feature) in w1.partitions
      && w1.partitions[Approval(agent)] == row && row.current in w1.snapshots
      && Approve(differ, w, agent, feature) == ApproveInto(differ, w1, agent, feature)
  {
    var row := w.partitions[Approval(agent)];
    assert row.history != [] && row.current in w.snapshots && row.history[0] in w.snapshots by {
      SoundRow(w, Approval(agent));
    }
    var w1 := EnsurePartition(w, Integrated(feature), row.history[0]);
    EnsureLeaves(w, Integrated(feature), row.history[0], Approval(agent));
    assert Good(w1) && Grows(w, w1) by {
      EnsureGood(w, Integrated(feature), row.history[0]);
    }
  }

  lemma ApproveGood(differ: Differ, w: Tables, agent: AgentId, feature: string)
    requires Good(w)
    ensures Good(Approve(differ, w, agent, feature).after) && Grows(w, Approve(differ, w, agent, feature).after)
  {
    if Approval(agent) in w.partitions {
      ApproveIs(differ, w, agent, feature);
      var w1 := EnsurePartition(w, Integrated(feature), w.partitions[Approval(agent)].history[0]);
      ApproveIntoGood(differ, w1, agent, feature);
      GrowsOn(w, w1, ApproveInto(differ, w1, agent, feature).after);
    }
  }

  /** An approval is a merge into the feature, followed by a reset of the approval if the
      merge changed anything. */
  lemma ApproveIntoIs(differ: Differ, w: Tables, agent: AgentId, feature: string)
    requires Good(w) && Approval(agent) in w.partitions && Integrated(feature) in w.partitions
    requires w.partitions[Approval(agent)].current in w.snapshots
    requires w.partitions[Approval(agent)].current != w.partitions[Integrated(feature)].current
    ensures var src, dst := w.partitions[Approval(agent)], w.partitions[Integrated(feature)];
      && dst.history != []
      && Complete(w, src.current) && Complete(w, dst.current) && Complete(w, dst.history[0])
      && src.current in w.snapshots && dst.current in w.snapshots && dst.history[0] in w.snapshots
      && var base, incoming, target := w.snapshots[dst.history[0]], w.snapshots[src.current], w.snapshots[dst.current];
      && var merged := MergeIds(differ, dst.history[0], src.current, dst.current);
      && ApproveInto(differ, w, agent, feature) ==
         ApproveRecord(differ, w, agent, feature, [target, incoming, base], MergeFile(w, incoming, target),
                       Read(dst.current), merged)
  {
    SoundRow(w, Approval(agent));
    SoundRow(w, Integrated(feature));
  }

  lemma ApproveIntoGood(differ: Differ, w: Tables, agent: AgentId, feature: string)
    requires Good(w)
    requires Approval(agent) in w.partitions && Integrated(feature) in w.partitions
    requires w.partitions[Approval(agent)].current in w.snapshots
    ensures Good(ApproveInto(differ, w, agent, feature).after) && Grows(w, ApproveInto(differ, w, agent, feature).after)
  {
    if w.partitions[Approval(agent)].current != w.partitions[Integrated(feature)].current {
      ApproveIntoIs(differ, w, agent, feature);
      var src, dst := w.partitions[Approval(agent)], w.partitions[Integrated(feature)];
      ApproveThreeGood(differ, w, agent, feature, dst.history[0], src.current, dst.current);
    }
  }

  lemma ApproveThreeGood(differ: Differ, w: Tables, agent: AgentId, feature: string, base: SnapshotId, src: SnapshotId,
                         dst: SnapshotId)
    requires Good(w) && base in w.snapshots && src in w.snapshots && dst in w.snapshots
    requires TextOf(base).Ok? && TextOf(src).Ok? && TextOf(dst).Ok?
    ensures var after := ApproveRecord(differ, w, agent, feature,
                                       [w.snapshots[dst], w.snapshots[src], w.snapshots[base]],
                                       MergeFile(w, w.snapshots[src], w.snapshots[dst]), Read(dst),
                                       MergeIds(differ, base, src, dst)).after;
      Good(after) && Grows(w, after)
  {
    ApproveRecordGood(differ, w, agent, feature, [w.snapshots[dst], w.snapshots[src], w.snapshots[base]],
                      MergeFile(w, w.snapshots[src], w.snapshots[dst]), MergeIds(differ, base, src, dst));
  }

  lemma ApproveRecordGood(differ: Differ, w: Tables, agent: AgentId, feature: string, parents: seq<Snapshot>,
                          file: FileNode, merged: MergeOutput)
    requires Good(w) && |parents| > 0
    requires forall s :: s in parents ==> s.id in w.snapshots && w.snapshots[s.id] == s
    requires TextOf(parents[0].id).Ok?
    ensures Good(ApproveRecord(differ, w, agent, feature, parents, file, Read(parents[0].id), merged).after)
    ensures Grows(w, ApproveRecord(differ, w, agent, feature, parents, file, Read(parents[0].id), merged).after)
  {
    RecordGood(differ, w, Integrated(feature), parents, file, Read(parents[0].id), merged, AgentSource(agent));
    ResetAfter(w, Record(differ, w, Integrated(feature), parents, file, Read(parents[0].id), merged,
                         AgentSource(agent)).after, agent);
  }

  lemma ResetAfter(w: Tables, w': Tables, agent: AgentId)
    requires Good(w') && Grows(w, w')
    ensures Good(Reject(w', agent).after) && Grows(w, Reject(w', agent).after)
  {
    ResetGood(w', Approval(agent));
  }

  lemma MergeFeatureIs(differ: Differ, w: Tables, feature: string)
    requires Good(w) && Integrated(feature) in w.partitions && Staged in w.partitions
    requires w.partitions[Integrated(feature)].current != w.partitions[Staged].current
    ensures var src, dst := w.partitions[Integrated(feature)], w.partitions[Staged];
      && src.history != []
      && Complete(w, src.current) && Complete(w, dst.current) && Complete(w, src.history[0])
      && src.current in w.snapshots && dst.current in w.snapshots
      && MergeFeature(differ, w, feature) ==
         Record(differ, w, Staged, [w.snapshots[dst.current], w.snapshots[src.current]],
                MergeFile(w, w.snapshots[src.current], w.snapshots[dst.current]), Read(dst.current),
                MergeIds(differ, src.history[0], dst.current, src.current), ManualSource)
  {
    SoundRow(w, Integrated(feature));
    SoundRow(w, Staged);
  }

  lemma MergeFeatureGood(differ: Differ, w: Tables, feature: string)
    requires Good(w)
    ensures Good(MergeFeature(differ, w, feature).after) && Grows(w, MergeFeature(differ, w, feature).after)
  {
    var from, to := Integrated(feature), Staged;
    if from in w.partitions && to in w.partitions && w.partitions[from].current != w.partitions[to].current {
      MergeFeatureMoves(differ, w, feature);
    } else {
      MergeFeatureStays(differ, w, feature);
      GrowsSelf(w);
    }
  }

  lemma MergeFeatureStays(differ: Differ, w: Tables, feature: string)
    requires Good(w)
    requires Integrated(feature) in w.partitions && Staged in w.partitions ==>
      w.partitions[Integrated(feature)].current == w.partitions[Staged].current
    ensures MergeFeature(differ, w, feature).after == w
  {
    if Integrated(feature) in w.partitions {
      SoundRow(w, Integrated(feature));
    }
  }

  lemma GrowsSelf(w: Tables)
    ensures Grows(w, w)
  {
  }

  lemma MergeFeatureMoves(differ: Differ, w: Tables, feature: string)
    requires Good(w) && Integrated(feature) in w.partitions && Staged in w.partitions
    requires w.partitions[Integrated(feature)].current != w.partitions[Staged].current
    ensures Good(MergeFeature(differ, w, feature).after) && Grows(w, MergeFeature(differ, w, feature).after)
  {
    MergeFeatureIs(differ, w, feature);
    var src, dst := w.partitions[Integrated(feature)], w.partitions[Staged];
    RecordPairGood(differ, w, Staged, dst.current, src.current,
                   MergeFile(w, w.snapshots[src.current], w.snapshots[dst.current]),
                   MergeIds(differ, src.history[0], dst.current, src.current), ManualSource);
  }

  /** The tables after merging several features: one after the other, up to the first
      failure. */
  lemma MergeFeaturesIs(differ: Differ, w: Tables, features: seq<string>)
    requires features != []
    ensures var r := MergeFeature(differ, w, features[0]);
      MergeFeatures(differ, w, features).after ==
        if r.result.Err? || |features| == 1 then r.after else MergeFeatures(differ, r.after, features[1..]).after
  {
  }

  lemma {:induction false} MergeFeaturesGood(differ: Differ, w: Tables, features: seq<string>)
    requires Good(w)
    ensures Good(MergeFeatures(differ, w, features).after) && Grows(w, MergeFeatures(differ, w, features).after)
    decreases |features|
  {
    if features != [] {
      MergeFeatureGood(differ, w, features[0]);
      MergeFeaturesIs(differ, w, features);
      var r := MergeFeature(differ, w, features[0]);
      if r.result.Ok? && |features| > 1 {
        MergeFeaturesGood(differ, r.after, features[1..]);
      }
    }
  }

  lemma MergeManualIs(differ: Differ, w: Tables)
    requires Good(w) && Manual in w.partitions && Staged in w.partitions
    requires w.partitions[Manual].current != w.partitions[Staged].current
    ensures var src, dst := w.partitions[Manual], w.partitions[Staged];
      && Complete(w, src.current) && Complete(w, dst.current)
      && src.current in w.snapshots && dst.current in w.snapshots
      && MergeManual(differ, w) ==
         Record(differ, w, Staged, [w.snapshots[dst.current], w.snapshots[src.current]],
                MergeFile(w, w.snapshots[src.current], w.snapshots[dst.current]), Read(dst.current),
                MergeIds(differ, dst.current, dst.current, src.current), ManualSource)
  {
    SoundRow(w, Manual);
    SoundRow(w, Staged);
  }

  lemma MergeManualGood(differ: Differ, w: Tables)
    requires Good(w)
    ensures Good(MergeManual(differ, w).after) && Grows(w, MergeManual(differ, w).after)
  {
    if Manual in w.partitions && Staged in w.partitions {
      var src, dst := w.partitions[Manual], w.partitions[Staged];
      if src.current != dst.current {
        MergeManualIs(differ, w);
        RecordPairGood(differ, w, Staged, dst.current, src.current,
                       MergeFile(w, w.snapshots[src.current], w.snapshots[dst.current]),
                       MergeIds(differ, dst.current, dst.current, src.current), ManualSource);
      }
    }
  }

  lemma InitialiseGood(w: Tables, path: string, content: Text)
    requires Good(w)
    ensures Good(Initialise(w, path, content)) && Grows(w, Initialise(w, path, content))
  {
    var node := NewFileNode(path, content);
    var d := NewDelta(node, LineDiff([]), ManualSource);
    var s := InitialSnapshot(node, d.id);
    InitialRows(w, path, content);
    var w3 := PutSnapshot(PutDelta(PutFile(w, node, content), d), s);
    EnsureGood(w3, Manual, s.id);
    var w4 := EnsurePartition(w3, Manual, s.id);
    EnsureGood(w4, Staged, s.id);
    GrowsOn(w, w3, w4);
    GrowsOn(w, w4, EnsurePartition(w4, Staged, s.id));
  }

  lemma GrowsOn(u: Tables, v: Tables, w: Tables)
    requires Good(u) && Grows(u, v) && Grows(v, w)
    ensures Grows(u, w)
  {
  }

  lemma InitialRows(w: Tables, path: string, content: Text)
    requires Good(w)
    ensures var node := NewFileNode(path, content);
      var d := NewDelta(node, LineDiff([]), ManualSource);
      var s := InitialSnapshot(node, d.id);
      var w' := PutSnapshot(PutDelta(PutFile(w, node, content), d), s);
      Good(w') && Grows(w, w') && s.id in w'.snapshots
  {
    var node := NewFileNode(path, content);
    var d := NewDelta(node, LineDiff([]), ManualSource);
    var s := InitialSnapshot(node, d.id);
    PutFileGood(w, path, content);
    var w1 := PutFile(w, node, content);
    PutDeltaGood(w1, node, LineDiff([]), ManualSource);
    var w2 := PutDelta(w1, d);
    InitialText(s.id);
    assert Complete(w2, s.id);
    PutSnapshotGood(w2, s);
  }

  /** An initial snapshot reads as its file, except that a lone newline is lost. */
  lemma InitialText(id: SnapshotId)
    requires |id.deltas| == 1 && id.deltas[0].diff == LineDiff([])
    ensures LinesOf(id) == Ok(Lines(Content(id)))
    ensures TextOf(id).Ok? && (TextOf(id) == Ok(Content(id)) <==> Content(id) != "\n")
  {
    var lines := Lines(Content(id));
    assert Fresh(id.deltas[1..], {} + {id.deltas[0]}) == [];
    assert ChainDiffs(id.deltas) == [LineDiff([])];
    assert Apply(lines, LineDiff([])) == Ok(lines[0..]) && lines[0..] == lines;
    assert FoldLines(lines, [LineDiff([])][1..]) == Ok(lines);
    RenderOfLines(Content(id), EndsNl(Content(id)));
  }

  lemma StepGood(differ: Differ, w: Tables, a: Action)
    requires Good(w)
    ensures Good(Step(differ, w, a)) && Grows(w, Step(differ, w, a))
  {
    match a
    case Init(path, content) => InitialiseGood(w, path, content);
    case JoinAgent(agent) => FromStagedGood(w, Agent(agent));
    case OpenApproval(agent) => FromStagedGood(w, Approval(agent));
    case CreateFeature(feature) => FromStagedGood(w, Integrated(feature));
    case EditManual(path, content) => EditGood(differ, w, Manual, ManualSource, path, content);
    case EditAgent(agent, path, content) => EditGood(differ, w, Agent(agent), AgentSource(agent), path, content);
    case SubmitAgent(agent) => SubmitGood(differ, w, agent);
    case DiscardEdit(agent) => DiscardGood(w, agent);
    case RejectAgent(agent) => ResetGood(w, Approval(agent));
    case ApproveAgent(agent, feature) => ApproveGood(differ, w, agent, feature);
    case StageFeatures(features) => MergeFeaturesGood(differ, w, features);
    case StageManual => MergeManualGood(differ, w);
  }

  lemma FromStagedGood(w: Tables, p: PartitionType)
    requires Good(w)
    ensures Good(FromStaged(w, p)) && Grows(w, FromStaged(w, p))
  {
    if Staged in w.partitions {
      SoundRow(w, Staged);
      EnsureGood(w, p, w.partitions[Staged].current);
    }
  }

  lemma {:induction false} RunGood(differ: Differ, w: Tables, run: seq<Action>)
    requires Good(w)
    ensures Good(Run(differ, w, run)) && Grows(w, Run(differ, w, run))
    decreases |run|
  {
    if run != [] {
      StepGood(differ, w, run[0]);
      RunGood(differ, Step(differ, w, run[0]), run[1..]);
    }
  }

  // ---- the run theorems ----------------------------------------------------

  /** After any run from the empty store, every stored snapshot reconstructs without error,
      and everything a partition ever pointed to is stored. */
  lemma EverySnapshotReads(differ: Differ, run: seq<Action>)
    ensures var w := Run(differ, EMPTY, run);
      && (forall id :: id in w.snapshots ==> ReconstructText(w, w.snapshots[id]).Ok?)
      && (forall p, id :: p in w.partitions && id in w.partitions[p].history ==> id in w.snapshots)
  {
    assert Good(EMPTY);
    RunGood(differ, EMPTY, run);
    var w := Run(differ, EMPTY, run);
    forall id | id in w.snapshots
      ensures ReconstructText(w, w.snapshots[id]).Ok?
    {
      assert Complete(w, id);
      ReadIsText(w, id);
    }
    forall p, id | p in w.partitions && id in w.partitions[p].history
      ensures id in w.snapshots
    {
      assert Sound(w, w.partitions[p]);
    }
  }

  lemma {:induction false} RunConcat(differ: Differ, w: Tables, a: seq<Action>, b: seq<Action>)
    ensures Run(differ, w, a + b) == Run(differ, Run(differ, w, a), b)
    decreases |a|
  {
    if a == [] {
      assert a + b == b;
    } else {
      assert (a + b)[1..] == a[1..] + b;
      RunConcat(differ, Step(differ, w, a[0]), a[1..], b);
    }
  }

  lemma RunSnoc(differ: Differ, w: Tables, run: seq<Action>, a: Action)
    ensures Run(differ, w, run + [a]) == Step(differ, Run(differ, w, run), a)
  {
    RunConcat(differ, w, run, [a]);
    var next := Step(differ, Run(differ, w, run), a);
    assert [a][1..] == [] && Run(differ, next, []) == next;
  }

  /** Partition discipline: in any run a partition's pointer is its last history entry, its
      first entry never changes, and outside the approvals history is append-only. */
  lemma HistoriesAreKept(differ: Differ, run: seq<Action>, later: seq<Action>, p: PartitionType)
    requires p in Run(differ, EMPTY, run).partitions
    ensures p in Run(differ, EMPTY, run + later).partitions
    ensures var row, row' := Run(differ, EMPTY, run).partitions[p], Run(differ, EMPTY, run + later).partitions[p];
      && row.history != [] && row.current == row.history[|row.history| - 1]
      && row'.history != [] && row'.history[0] == row.history[0]
      && (!p.Approval? ==> row.history <= row'.history)
  {
    assert Good(EMPTY);
    RunGood(differ, EMPTY, run);
    var w := Run(differ, EMPTY, run);
    RunConcat(differ, EMPTY, run, later);
    RunGood(differ, w, later);
    assert Sound(w, w.partitions[p]);
    assert KeepsHistory(p, w.partitions[p].history, Run(differ, w, later).partitions[p].history);
  }

  /** Permanence: whatever happens after a snapshot is stored, it stays stored and its text
      never changes. */
  lemma SnapshotsArePermanent(differ: Differ, run: seq<Action>, later: seq<Action>, id: SnapshotId)
    requires id in Run(differ, EMPTY, run).snapshots
    ensures var w, w' := Run(differ, EMPTY, run), Run(differ, EMPTY, run + later);
      && id in w'.snapshots
      && w'.snapshots[id] == w.snapshots[id]
      && ReconstructText(w', w'.snapshots[id]) == ReconstructText(w, w.snapshots[id])
  {
    assert Good(EMPTY);
    RunGood(differ, EMPTY, run);
    var w := Run(differ, EMPTY, run);
    RunConcat(differ, EMPTY, run, later);
    RunGood(differ, w, later);
    SameRow(w, Run(differ, w, later), id);
  }

  /** A row that survives is the same row and reads the same. */
  lemma SameRow(w: Tables, w': Tables, id: SnapshotId)
    requires Good(w) && Good(w') && id in w.snapshots && id in w'.snapshots
    ensures w'.snapshots[id] == w.snapshots[id]
    ensures ReconstructText(w', w'.snapshots[id]) == ReconstructText(w, w.snapshots[id])
  {
    assert Complete(w, id) && Complete(w', id);
    SameKeyedRow(w, w', id);
  }

  lemma SameKeyedRow(w: Tables, w': Tables, id: SnapshotId)
    requires WellKeyed(w) && WellKeyed(w') && id in w.snapshots && id in w'.snapshots
    requires Complete(w, id) && Complete(w', id)
    ensures w'.snapshots[id] == w.snapshots[id]
    ensures ReconstructText(w', w'.snapshots[id]) == ReconstructText(w, w.snapshots[id])
  {
    ReadIsText(w, id);
    ReadIsText(w', id);
  }
}
