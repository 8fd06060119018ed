/** What merging the manual partition does to staged: base and ours are both the staged text,
    so theirs wins (src/layered/manual.rs). */
module ManualMerge {
  import opened Texts
  import opened LineDiffs
  import opened Results
  import opened Diff
  import opened Merge
  import opened MergeLaws
  import opened Objects
  import opened World
  import opened Pipeline
  import opened Heads
  import opened Origins
  import opened Delivery

  /** The text written to staged: the manual text, ended like either side. */
  function Written(staged: Text, manual: Text): Text {
    Terminated(manual, EndsNl(staged) || EndsNl(manual))
  }

  lemma ManualWins(differ: Differ, staged: Text, manual: Text)
    ensures MergeOf(differ, staged, staged, manual) == MergeOutput(Written(staged, manual), [])
  {
  }

  lemma ManualMoves(differ: Differ, rows: Rows)
    requires Manual in rows && Staged in rows
    ensures var rows' := RowRun(differ, rows, [StageManual]);
      && Staged in rows'
      && rows'[Staged].current == StageHead(differ, rows[Staged].current, rows[Staged].current, rows[Manual].current)
  {
    var run := [StageManual];
    assert run[1..] == [];
    assert RowRun(differ, rows, run) == RowRun(differ, RowStep(differ, rows, StageManual), []);
  }

  /** Writing the manual text over the staged chain shows that text exactly when it was there
      already, or something is written, by a delta that is new, and the text survives. */
  lemma WrittenReads(differ: Differ, staged: SnapshotId, file: FileNode, manual: Text)
    requires Readable(staged)
    ensures LinesOf(staged).Ok?
    ensures var text := Written(Reading(staged), manual);
      After(differ, staged, file, ManualSource, text) == manual <==>
        || manual == Reading(staged)
        || (&& text != Reading(staged)
            && DeltaId(file, DiffTexts(differ, Reading(staged), text), ManualSource) !in staged.deltas
            && Survives(staged, manual))
  {
    TextLines(staged);
    SurvivesIff(staged, manual);
    LinesOfTerminated(manual, EndsNl(Reading(staged)) || EndsNl(manual));
  }

  /** After any run, merging manual reports no conflict and drops whatever else was staged:
      staged then reads exactly as the manual text if and only if it did before, or a delta
      new to its chain is written and the text survives. */
  lemma ManualReplacesStaged(differ: Differ, run: seq<Action>)
    requires Manual in Run(differ, EMPTY, run).partitions && Staged in Run(differ, EMPTY, run).partitions
    ensures var rows := Run(differ, EMPTY, run).partitions;
      var manual, staged := rows[Manual].current, rows[Staged].current;
      var text := Written(Reading(staged), Reading(manual));
      var file := PureFile(manual, staged);
      var w := Run(differ, EMPTY, run + [StageManual]);
      && Readable(staged) && LinesOf(staged).Ok?
      && Staged in w.partitions && w.partitions[Staged].current in w.snapshots
      && (ReconstructText(w, w.snapshots[w.partitions[Staged].current]) == Ok(Reading(manual)) <==>
          || Reading(manual) == Reading(staged)
          || (&& text != Reading(staged)
              && DeltaId(file, DiffTexts(differ, Reading(staged), text), ManualSource) !in staged.deltas
              && Survives(staged, Reading(manual))))
  {
    var w0, w := Run(differ, EMPTY, run), Run(differ, EMPTY, run + [StageManual]);
    var manual, staged := w0.partitions[Manual].current, w0.partitions[Staged].current;
    RowsOfRun(differ, run, [StageManual]);
    ManualMoves(differ, w0.partitions);
    StoredReads(w0, Manual);
    StoredReads(w0, Staged);
    StoredReads(w, Staged);
    StageReads(differ, staged, staged, manual);
    ManualWins(differ, Reading(staged), Reading(manual));
    WrittenReads(differ, staged, PureFile(manual, staged), Reading(manual));
  }

  // ---- an approved edit dropped ------------------------------------------------

  /** Where the four steps leave manual and staged: manual untouched. */
  lemma ManualUntouched(differ: Differ, rows: Rows, agent: AgentId, feature: string, path: string, content: Text)
    requires Manual in rows
    ensures var rows' := RowRun(differ, rows, Deliver(agent, feature, path, content));
      Manual in rows' && rows'[Manual] == rows[Manual]
  {
    RowRunFour(differ, rows, Deliver(agent, feature, path, content));
    var r1 := RowStep(differ, rows, EditAgent(agent, path, content));
    var r2 := RowStep(differ, r1, SubmitAgent(agent));
    var r3 := RowStep(differ, r2, ApproveAgent(agent, feature));
    Discipline.RowFrame(differ, rows, EditAgent(agent, path, content), Manual);
    Discipline.RowFrame(differ, r1, SubmitAgent(agent), Manual);
    Discipline.RowFrame(differ, r2, ApproveAgent(agent, feature), Manual);
    Discipline.RowFrame(differ, r3, StageFeatures([feature]), Manual);
  }

  /** The staged head after a first edit that changes the text: the base chain and one delta. */
  lemma StagedChain(differ: Differ, base: SnapshotId, from: SnapshotId, text: Text)
    requires Shows(base) && Reading(from) == text != Reading(base)
    requires Renderable(text, EndsNl(Content(base)))
    requires DeltaId(PureFile(from, base), DiffTexts(differ, Reading(base), text), ManualSource) !in base.deltas
    ensures var head := StageHead(differ, base, base, from);
      && head.deltas == base.deltas
          + [DeltaId(PureFile(from, base), DiffTexts(differ, Reading(base), text), ManualSource)]
      && head.file == base.file && Shows(head) && Reading(head) == text
  {
    ReadingIsRendered(base);
    EarlyMerge(differ, Reading(base), text, EndsNl(Content(base)));
    var head := StageHead(differ, base, base, from);
    var d := DeltaId(PureFile(from, base), DiffTexts(differ, Reading(base), text), ManualSource);
    ExtendedText(differ, base, head, d, text);
    assert Lines(text) + [] == Lines(text);
    RenderOfLines(text, EndsNl(Content(base)));
    RenderableIsFaithful(text, EndsNl(Content(base)));
  }

  /** From an empty store, for any edit: once it is staged, as `FirstEditIsDelivered` says,
      merging the manual partition, which nobody has touched, puts the old text back. */
  lemma ManualDropsStagedEdit(differ: Differ, file: string, text: Text, agent: AgentId, feature: string,
                              path: string, content: Text)
    requires text != "\n" && Faithful(Lines(content), EndsNl(text))
    ensures var run := SetUp(file, text, agent) + Deliver(agent, feature, path, content);
      var w := Run(differ, EMPTY, run + [StageManual]);
      && Staged in w.partitions && w.partitions[Staged].current in w.snapshots
      && ReconstructText(w, w.snapshots[w.partitions[Staged].current]) == Ok(text)
  {
    var run := SetUp(file, text, agent) + Deliver(agent, feature, path, content);
    FirstHeadShows(file, text);
    ManualStays(differ, file, text, agent, feature, path, content);
    if Lines(content) == Lines(text) {
      RenderOfLines(text, EndsNl(text));
      FirstEditIsDelivered(differ, file, text, agent, feature, path, content);
      SameGoesBack(differ, run, text);
    } else {
      RenderedIs(Lines(content), EndsNl(text));
      StagedState(differ, file, text, agent, feature, path, content);
      EditGoesBack(differ, run, FirstHead(file, text), text, Render(Lines(content), EndsNl(text)));
    }
  }

  /** Both read the same: nothing changes. */
  lemma SameGoesBack(differ: Differ, run: seq<Action>, text: Text)
    requires var w := Run(differ, EMPTY, run);
      && Manual in w.partitions && Reading(w.partitions[Manual].current) == text
      && Staged in w.partitions && w.partitions[Staged].current in w.snapshots
      && ReconstructText(w, w.snapshots[w.partitions[Staged].current]) == Ok(text)
    ensures var w := Run(differ, EMPTY, run + [StageManual]);
      && Staged in w.partitions && w.partitions[Staged].current in w.snapshots
      && ReconstructText(w, w.snapshots[w.partitions[Staged].current]) == Ok(text)
  {
    RowsOfRun(differ, run, []);
    StoredReads(Run(differ, EMPTY, run), Staged);
    ManualReplacesStaged(differ, run);
  }

  /** Manual at the first snapshot, staged one edit further. */
  lemma EditGoesBack(differ: Differ, run: seq<Action>, base: SnapshotId, text: Text, written: Text)
    requires var rows := Run(differ, EMPTY, run).partitions;
      && Manual in rows && rows[Manual].current == base
      && Staged in rows && Edited(differ, base, rows[Staged].current, text, written)
    requires Renderable(written, EndsNl(text)) && text != "\n" && Reading(base) == text && Content(base) == text
    requires Lines(written) != Lines(text)
    ensures var w := Run(differ, EMPTY, run + [StageManual]);
      && Staged in w.partitions && w.partitions[Staged].current in w.snapshots
      && ReconstructText(w, w.snapshots[w.partitions[Staged].current]) == Ok(text)
  {
    BackAgain(differ, base, Run(differ, EMPTY, run).partitions[Staged].current, text, written);
    ManualReplacesStaged(differ, run);
  }

  /** What manual writes over the staged edit is a new delta. */
  lemma BackAgain(differ: Differ, base: SnapshotId, staged: SnapshotId, text: Text, written: Text)
    requires Edited(differ, base, staged, text, written)
    requires Renderable(written, EndsNl(text)) && text != "\n" && Reading(base) == text && Content(base) == text
    requires Lines(written) != Lines(text)
    ensures LinesOf(staged).Ok? && Survives(staged, text) && Written(written, text) == text != written
    ensures DeltaId(PureFile(base, staged), DiffTexts(differ, written, text), ManualSource) !in staged.deltas
  {
    ReadingIsRendered(staged);
    DiffBackDiffers(differ, text, written);
    EmptyDiffIffSame(differ, written, text);
    NotOfTwo(staged.deltas, DeltaId(PureFile(base, staged), DiffTexts(differ, written, text), ManualSource));
  }

  lemma NotOfTwo(ids: seq<DeltaId>, d: DeltaId)
    requires |ids| == 2 && d.diff != ids[0].diff && d.diff != ids[1].diff
    ensures d !in ids
  {
  }

  /** `staged` is the first snapshot of a file with one edit merged in. */
  ghost predicate Edited(differ: Differ, base: SnapshotId, staged: SnapshotId, text: Text, written: Text) {
    && Shows(staged) && Reading(staged) == written && staged.file == base.file
    && |staged.deltas| == 2 && staged.deltas[0].diff == LineDiff([])
    && staged.deltas[1].diff == DiffTexts(differ, text, written)
  }

  lemma EditedHead(differ: Differ, file: string, text: Text, agent: AgentId, feature: string, path: string,
                   content: Text)
    requires text != "\n" && Faithful(Lines(content), EndsNl(text)) && Lines(content) != Lines(text)
    ensures var base := FirstHead(file, text);
      Edited(differ, base,
             StageHead(differ, base, base, FeatureHead(differ, agent, feature, path, base, base, content)),
             text, Render(Lines(content), EndsNl(text)))
  {
    var base, written := FirstHead(file, text), Render(Lines(content), EndsNl(text));
    FirstHeadShows(file, text);
    RenderedIs(Lines(content), EndsNl(text));
    SettledIs(base, content);
    FeatureReads(differ, agent, feature, path, base, content);
    EmptyDiffIffSame(differ, text, written);
    StagedChain(differ, base, FeatureHead(differ, agent, feature, path, base, base, content), written);
  }

  lemma ManualStays(differ: Differ, file: string, text: Text, agent: AgentId, feature: string, path: string,
                    content: Text)
    ensures var run := SetUp(file, text, agent) + Deliver(agent, feature, path, content);
      var rows := Run(differ, EMPTY, run).partitions;
      Manual in rows && rows[Manual].current == FirstHead(file, text)
  {
    var rows0 := Run(differ, EMPTY, SetUp(file, text, agent)).partitions;
    RowsOfRun(differ, SetUp(file, text, agent), Deliver(agent, feature, path, content));
    RowsFromEmpty(differ, SetUp(file, text, agent));
    SetUpRowRun(differ, file, text, agent);
    ManualUntouched(differ, rows0, agent, feature, path, content);
  }

  lemma StagedState(differ: Differ, file: string, text: Text, agent: AgentId, feature: string, path: string,
                    content: Text)
    requires text != "\n" && Faithful(Lines(content), EndsNl(text)) && Lines(content) != Lines(text)
    ensures var run := SetUp(file, text, agent) + Deliver(agent, feature, path, content);
      var rows := Run(differ, EMPTY, run).partitions;
      && Staged in rows
      && Edited(differ, FirstHead(file, text), rows[Staged].current, text, Render(Lines(content), EndsNl(text)))
  {
    var rows0, base := Run(differ, EMPTY, SetUp(file, text, agent)).partitions, FirstHead(file, text);
    RowsOfRun(differ, SetUp(file, text, agent), Deliver(agent, feature, path, content));
    SetUpIs(differ, file, text, agent, feature);
    DeliveredRows(differ, rows0, agent, feature, base, base, path, content);
    EditedHead(differ, file, text, agent, feature, path, content);
  }
}
