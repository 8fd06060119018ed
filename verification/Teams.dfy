/** Two agents on one feature: both edits submitted over one baseline, approved one after the
    other, and the feature staged. */
module Teams {
  import opened Texts
  import opened Results
  import opened Diff
  import opened Changes
  import opened Merge
  import opened MergeLaws
  import opened Overlaps
  import opened Objects
  import opened World
  import opened Pipeline
  import opened Heads
  import opened Discipline
  import opened Delivery
  import opened Answers

  datatype Edit = Edit(agent: AgentId, content: Text)

  /** The agent and its untouched approval stand at the base. */
  predicate AtBase(rows: Rows, agent: AgentId, base: SnapshotId) {
    && Agent(agent) in rows && rows[Agent(agent)].current == base
    && Approval(agent) in rows && rows[Approval(agent)] == Partition(base, [base])
  }

  function Work(path: string, e: Edit): seq<Action> {
    [EditAgent(e.agent, path, e.content), SubmitAgent(e.agent)]
  }

  function Meet(path: string, feature: string, first: Edit, second: Edit): seq<Action> {
    Work(path, first) + Work(path, second)
    + [ApproveAgent(first.agent, feature), ApproveAgent(second.agent, feature), StageFeatures([feature])]
  }

  // ---- where the steps point -------------------------------------------------------

  function FirstInto(differ: Differ, feature: string, path: string, base: SnapshotId, e: Edit): SnapshotId {
    FeatureHead(differ, e.agent, feature, path, base, base, e.content)
  }

  /** The second approval meets the first one's text in the feature. */
  function SecondInto(differ: Differ, feature: string, path: string, base: SnapshotId, first: Edit,
                      second: Edit): SnapshotId {
    FeatureHead(differ, second.agent, feature, path, base, FirstInto(differ, feature, path, base, first),
                second.content)
  }

  lemma {:induction false} RowRunConcat(differ: Differ, rows: Rows, a: seq<Action>, b: seq<Action>)
    ensures RowRun(differ, rows, a + b) == RowRun(differ, RowRun(differ, rows, a), b)
    decreases |a|
  {
    if a == [] {
      assert a + b == b;
    } else {
      assert (a + b)[1..] == a[1..] + b;
      RowRunConcat(differ, RowStep(differ, rows, a[0]), a[1..], b);
    }
  }

  lemma RowRunTwo(differ: Differ, rows: Rows, run: seq<Action>)
    requires |run| == 2
    ensures RowRun(differ, rows, run) == RowStep(differ, RowStep(differ, rows, run[0]), run[1])
  {
    var rest := run[1..];
    assert rest[1..] == [];
    assert RowRun(differ, RowStep(differ, rows, run[0]), rest)
         == RowRun(differ, RowStep(differ, RowStep(differ, rows, run[0]), run[1]), []);
  }

  lemma WorkRows(differ: Differ, rows: Rows, path: string, base: SnapshotId, e: Edit)
    requires AtBase(rows, e.agent, base)
    ensures var rows' := RowRun(differ, rows, Work(path, e));
      && Approval(e.agent) in rows'
      && rows'[Approval(e.agent)] == Submitted(base, ApprovalHead(differ, e.agent, path, base, e.content))
  {
    RowRunTwo(differ, rows, Work(path, e));
    SubmittedRows(differ, rows, e.agent, base, path, e.content);
  }

  lemma WorkFrame(differ: Differ, rows: Rows, path: string, e: Edit, q: PartitionType)
    requires q != Agent(e.agent) && q != Approval(e.agent)
    ensures Gate.SameAt(rows, RowRun(differ, rows, Work(path, e)), q)
  {
    RowRunTwo(differ, rows, Work(path, e));
    SubmittedFrame(differ, rows, e.agent, path, e.content, q);
  }

  /** After both have worked: the approvals stand at `one` and `two`. */
  ghost predicate BothSubmitted(rows: Rows, first: AgentId, second: AgentId, feature: string, base: SnapshotId,
                                staged: SnapshotId, one: SnapshotId, two: SnapshotId)
  {
    && Approval(first) in rows && rows[Approval(first)] == Submitted(base, one)
    && Approval(second) in rows && rows[Approval(second)] == Submitted(base, two)
    && Staged in rows && rows[Staged].current == staged && Integrated(feature) !in rows
  }

  lemma BothWork(differ: Differ, rows: Rows, path: string, feature: string, base: SnapshotId, staged: SnapshotId,
                 first: Edit, second: Edit)
    requires first.agent != second.agent && AtBase(rows, first.agent, base) && AtBase(rows, second.agent, base)
    requires Staged in rows && rows[Staged].current == staged && Integrated(feature) !in rows
    ensures BothSubmitted(RowRun(differ, RowRun(differ, rows, Work(path, first)), Work(path, second)),
                          first.agent, second.agent, feature, base, staged,
                          ApprovalHead(differ, first.agent, path, base, first.content),
                          ApprovalHead(differ, second.agent, path, base, second.content))
  {
    var rows2 := RowRun(differ, rows, Work(path, first));
    WorkRows(differ, rows, path, base, first);
    WorkFrame(differ, rows, path, first, Agent(second.agent));
    WorkFrame(differ, rows, path, first, Approval(second.agent));
    WorkFrame(differ, rows, path, first, Staged);
    WorkFrame(differ, rows, path, first, Integrated(feature));
    WorkRows(differ, rows2, path, base, second);
    WorkFrame(differ, rows2, path, second, Approval(first.agent));
    WorkFrame(differ, rows2, path, second, Staged);
    WorkFrame(differ, rows2, path, second, Integrated(feature));
  }

  /** After the first approval: the feature stands at `head`. */
  ghost predicate FirstApproved(rows: Rows, first: AgentId, second: AgentId, feature: string, base: SnapshotId,
                                staged: SnapshotId, head: SnapshotId, two: SnapshotId, pending: bool)
  {
    && Integrated(feature) in rows && rows[Integrated(feature)] == Submitted(base, head)
    && Approval(second) in rows && rows[Approval(second)] == Submitted(base, two)
    && Staged in rows && rows[Staged].current == staged
    && PendingRow(rows, first) == pending
  }

  lemma ApproveFrames(differ: Differ, rows: Rows, agent: AgentId, other: AgentId, feature: string)
    requires agent != other
    ensures var next := RowStep(differ, rows, ApproveAgent(agent, feature));
      Gate.SameAt(rows, next, Staged) && Gate.SameAt(rows, next, Approval(other))
  {
    RowFrame(differ, rows, ApproveAgent(agent, feature), Staged);
    RowFrame(differ, rows, ApproveAgent(agent, feature), Approval(other));
  }

  lemma ApproveFirst(differ: Differ, rows: Rows, first: AgentId, second: AgentId, feature: string, base: SnapshotId,
                     staged: SnapshotId, one: SnapshotId, two: SnapshotId)
    requires first != second && BothSubmitted(rows, first, second, feature, base, staged, one, two)
    ensures var head := ApproveHead(differ, first, feature, base, one, base);
      FirstApproved(RowStep(differ, rows, ApproveAgent(first, feature)), first, second, feature, base, staged, head,
                    two, one != base && head == base)
  {
    var head := ApproveHead(differ, first, feature, base, one, base);
    ApprovedRows(differ, rows, first, feature, base, one, Partition(base, [base]));
    ApproveFrames(differ, rows, first, second, feature);
    assert [base] + [head] == [base, head];
    FirstIs(rows, RowStep(differ, rows, ApproveAgent(first, feature)), first, second, feature, base, staged, head, two,
            one != base && head == base);
  }

  lemma FirstIs(rows: Rows, next: Rows, first: AgentId, second: AgentId, feature: string, base: SnapshotId,
                staged: SnapshotId, head: SnapshotId, two: SnapshotId, pending: bool)
    requires Gate.SameAt(rows, next, Staged) && Gate.SameAt(rows, next, Approval(second))
    requires Approval(second) in rows && rows[Approval(second)] == Submitted(base, two)
    requires Staged in rows && rows[Staged].current == staged
    requires Integrated(feature) in next && PendingRow(next, first) == pending
    requires next[Integrated(feature)] == Submitted(base, head)
    ensures FirstApproved(next, first, second, feature, base, staged, head, two, pending)
  {
  }

  /** At the end: where staged and the feature point, and who is pending. */
  ghost predicate Met(rows: Rows, first: AgentId, second: AgentId, feature: string, head: SnapshotId,
                      staged: SnapshotId, pending1: bool, pending2: bool)
  {
    && Staged in rows && rows[Staged].current == staged
    && Integrated(feature) in rows && rows[Integrated(feature)].current == head
    && PendingRow(rows, first) == pending1 && PendingRow(rows, second) == pending2
  }

  lemma ApproveSecond(differ: Differ, rows: Rows, first: AgentId, second: AgentId, feature: string, base: SnapshotId,
                      staged: SnapshotId, into: SnapshotId, two: SnapshotId, pending: bool)
    requires first != second && FirstApproved(rows, first, second, feature, base, staged, into, two, pending)
    ensures var head := ApproveHead(differ, second, feature, base, two, into);
      Met(RowStep(differ, RowStep(differ, rows, ApproveAgent(second, feature)), StageFeatures([feature])),
          first, second, feature, head, StageHead(differ, base, staged, head), pending, two != base && head == into)
  {
    ApprovedAndStaged(differ, rows, second, feature, base, two, Submitted(base, into));
    OthersPending(differ, rows, first, second, feature);
  }

  lemma OthersPending(differ: Differ, rows: Rows, first: AgentId, second: AgentId, feature: string)
    requires first != second
    ensures PendingRow(RowStep(differ, RowStep(differ, rows, ApproveAgent(second, feature)),
                               StageFeatures([feature])), first)
        == PendingRow(rows, first)
  {
    PendingStep(differ, rows, ApproveAgent(second, feature), first);
    PendingStep(differ, RowStep(differ, rows, ApproveAgent(second, feature)), StageFeatures([feature]), first);
  }

  lemma MeetRows(differ: Differ, rows: Rows, path: string, feature: string, base: SnapshotId, staged: SnapshotId,
                 first: Edit, second: Edit)
    requires first.agent != second.agent && AtBase(rows, first.agent, base) && AtBase(rows, second.agent, base)
    requires Staged in rows && rows[Staged].current == staged && Integrated(feature) !in rows
    ensures var one := ApprovalHead(differ, first.agent, path, base, first.content);
      var two := ApprovalHead(differ, second.agent, path, base, second.content);
      var into := FirstInto(differ, feature, path, base, first);
      var head := SecondInto(differ, feature, path, base, first, second);
      Met(RowRun(differ, rows, Meet(path, feature, first, second)), first.agent, second.agent, feature, head,
          StageHead(differ, base, staged, head), one != base && into == base, two != base && head == into)
  {
    var last := [ApproveAgent(first.agent, feature), ApproveAgent(second.agent, feature), StageFeatures([feature])];
    var rows2 := RowRun(differ, rows, Work(path, first));
    var rows4 := RowRun(differ, rows2, Work(path, second));
    RowRunConcat(differ, rows, Work(path, first) + Work(path, second), last);
    RowRunConcat(differ, rows, Work(path, first), Work(path, second));
    RowRunThree(differ, rows4, last);
    var one := ApprovalHead(differ, first.agent, path, base, first.content);
    var two := ApprovalHead(differ, second.agent, path, base, second.content);
    var into := FirstInto(differ, feature, path, base, first);
    BothWork(differ, rows, path, feature, base, staged, first, second);
    ApproveFirst(differ, rows4, first.agent, second.agent, feature, base, staged, one, two);
    ApproveSecond(differ, RowStep(differ, rows4, ApproveAgent(first.agent, feature)), first.agent, second.agent,
                  feature, base, staged, into, two, one != base && into == base);
  }

  // ---- what the feature reads --------------------------------------------------------

  /** The first edit arrives in the feature, which then hides nothing. */
  lemma FirstArrives(differ: Differ, feature: string, path: string, base: SnapshotId, e: Edit)
    requires Shows(base) && Unowned(base) && Faithful(Lines(e.content), EndsNl(Content(base)))
    ensures var head := FirstInto(differ, feature, path, base, e);
      var text := Render(Lines(e.content), EndsNl(Content(base)));
      && Shows(head) && Reading(head) == text && head.file == base.file
      && (head == base <==> text == Reading(base))
      && (head != base ==> head.deltas == base.deltas + [EditDelta(differ, path, Reading(base), text,
                                                                   AgentSource(e.agent)).id])
    ensures var src := ApprovalHead(differ, e.agent, path, base, e.content);
      var text := Render(Lines(e.content), EndsNl(Content(base)));
      && Reading(src) == text && (src == base <==> text == Reading(base))
      && (src != base ==> src.deltas == base.deltas + [EditDelta(differ, path, Reading(base), text,
                                                                 AgentSource(e.agent)).id])
  {
    var text := Render(Lines(e.content), EndsNl(Content(base)));
    SettledIs(base, e.content);
    ApprovalReads(differ, e.agent, path, base, e.content);
    FeatureReads(differ, e.agent, feature, path, base, e.content);
    var head := FirstInto(differ, feature, path, base, e);
    if head != base {
      ShowsAfter(differ, base, head, NewFileNode(path, Reading(base)), AgentSource(e.agent), text);
    }
  }

  lemma OthersKept(differ: Differ, feature: string, path: string, base: SnapshotId, e: Edit, other: AgentId)
    requires Shows(base) && Unowned(base) && Faithful(Lines(e.content), EndsNl(Content(base))) && other != e.agent
    ensures NoDeltaOf(other, FirstInto(differ, feature, path, base, e))
  {
    FirstArrives(differ, feature, path, base, e);
  }

  /** A chain that shows its lines still does after a text that keeps its own is written. */
  lemma ShowsAfter(differ: Differ, id: SnapshotId, id': SnapshotId, file: FileNode, source: Source, content: Text)
    requires Shows(id) && id'.file == id.file && Faithful(Lines(content), EndsNl(Content(id)))
    requires var d := DeltaId(file, DiffTexts(differ, Reading(id), content), source);
      id'.deltas == id.deltas + [d] && d !in id.deltas
    ensures Shows(id') && Reading(id') == Render(Lines(content), EndsNl(Content(id)))
  {
    var d := DeltaId(file, DiffTexts(differ, Reading(id), content), source);
    ExtendedText(differ, id, id', d, content);
    assert Lines(content) + [] == Lines(content);
    RenderedIs(Lines(content), EndsNl(Content(id)));
  }

  /** The merge of both edits, as the feature reads it after the second approval. */
  function Both(differ: Differ, base: SnapshotId, first: Edit, second: Edit): Text {
    Render(Lines(MergeOfBoth(differ, base, first, second).text), EndsNl(Content(base)))
  }

  function MergeOfBoth(differ: Differ, base: SnapshotId, first: Edit, second: Edit): MergeOutput {
    var nl := EndsNl(Content(base));
    MergeOf(differ, Reading(base), Render(Lines(second.content), nl), Render(Lines(first.content), nl))
  }

  /** The two approved edits: over a base that shows its lines, by texts that keep theirs. */
  predicate BothFaithful(base: SnapshotId, first: Edit, second: Edit) {
    && first.agent != second.agent && Shows(base) && Unowned(base)
    && Faithful(Lines(first.content), EndsNl(Content(base)))
    && Faithful(Lines(second.content), EndsNl(Content(base)))
  }

  /** An approval into a feature that has moved from the baseline or not, and hides nothing. */
  lemma SecondWrites(differ: Differ, feature: string, base: SnapshotId, into: SnapshotId, src: SnapshotId,
                     agent: AgentId)
    requires Shows(into) && NoDeltaOf(agent, into) && (src == into ==> into == base)
    ensures var head := ApproveHead(differ, agent, feature, base, src, into);
      var merged := MergeOf(differ, Reading(base), Reading(src), Reading(into));
      && Readable(head) && head.file == into.file && Reading(head) == Render(Lines(merged.text), EndsNl(Content(into)))
      && (head == into <==> merged.text == Reading(into))
      && (head != into ==> Wrote(into, head, PureFile(src, into), agent, merged))
  {
    var merged := MergeOf(differ, Reading(base), Reading(src), Reading(into));
    ReadingIsRendered(into);
    RenderOfLines(Reading(into), EndsNl(Content(into)));
    assert Lines(merged.text) + [] == Lines(merged.text);
    if src != into {
      MergeReads(differ, Integrated(feature), AgentSource(agent), PureFile(src, into),
                 [RowOf(into), RowOf(src), RowOf(base)], merged);
    }
  }

  /** `head` extends `into` by an agent's delta of that file, flagged as the merge says. */
  predicate Wrote(into: SnapshotId, head: SnapshotId, file: FileNode, agent: AgentId, merged: MergeOutput) {
    && |head.deltas| == |into.deltas| + 1 && head.deltas[..|into.deltas|] == into.deltas
    && head.deltas[|into.deltas|].file == file && head.deltas[|into.deltas|].source == AgentSource(agent)
    && head.hasConflicts == (merged.conflicts != [])
  }

  /** The two heads coincide only at the base, where neither edit changed anything. */
  lemma SameHeads(differ: Differ, feature: string, path: string, base: SnapshotId, first: Edit, second: Edit)
    requires FirstInto(differ, feature, path, base, first)
         == ApprovalHead(differ, second.agent, path, base, second.content)
    ensures FirstInto(differ, feature, path, base, first) == base
  {
  }

  /** What the feature reads after the second approval, whether it moved, and its flag. */
  lemma SecondReads(differ: Differ, feature: string, path: string, base: SnapshotId, first: Edit, second: Edit)
    requires BothFaithful(base, first, second)
    ensures var one := Render(Lines(first.content), EndsNl(Content(base)));
      var merged := MergeOfBoth(differ, base, first, second);
      var into := FirstInto(differ, feature, path, base, first);
      var src := ApprovalHead(differ, second.agent, path, base, second.content);
      var head := SecondInto(differ, feature, path, base, first, second);
      && Readable(head) && head.file == base.file && Reading(head) == Both(differ, base, first, second)
      && (head == into <==> merged.text == one)
      && (head != into ==> Wrote(into, head, PureFile(src, into), second.agent, merged))
  {
    FirstArrives(differ, feature, path, base, first);
    FirstArrives(differ, feature, path, base, second);
    var into := FirstInto(differ, feature, path, base, first);
    var src := ApprovalHead(differ, second.agent, path, base, second.content);
    if src == into {
      SameHeads(differ, feature, path, base, first, second);
    }
    OthersKept(differ, feature, path, base, first, second.agent);
    SecondWrites(differ, feature, base, into, src, second.agent);
  }

  // ---- what staged reads -------------------------------------------------------------

  /** A chain that ends in a delta new to it is filed under that delta's file. */
  lemma FiledLast(base: SnapshotId, id: SnapshotId, fallback: SnapshotId, d: DeltaId)
    requires id.deltas == base.deltas + [d] && d.source.AgentSource? && NoDeltaOf(d.source.agent, base)
    ensures PureFile(id, fallback) == d.file && !Unowned(id)
  {
    FiledUnder(id, fallback, base.deltas, d);
    assert d in id.deltas;
  }

  lemma FirstFile(differ: Differ, feature: string, path: string, base: SnapshotId, fallback: SnapshotId, e: Edit)
    requires Shows(base) && Unowned(base) && Faithful(Lines(e.content), EndsNl(Content(base)))
    requires FirstInto(differ, feature, path, base, e) != base
    ensures var head := FirstInto(differ, feature, path, base, e);
      PureFile(head, fallback) == NewFileNode(path, Reading(base)) && !Unowned(head)
  {
    var text := Render(Lines(e.content), EndsNl(Content(base)));
    FirstArrives(differ, feature, path, base, e);
    FiledLast(base, FirstInto(differ, feature, path, base, e), fallback,
              EditDelta(differ, path, Reading(base), text, AgentSource(e.agent)).id);
  }

  lemma SecondFile(differ: Differ, feature: string, path: string, base: SnapshotId, fallback: SnapshotId, first: Edit,
                   second: Edit)
    requires BothFaithful(base, first, second)
    requires SecondInto(differ, feature, path, base, first, second) != FirstInto(differ, feature, path, base, first)
    ensures var head := SecondInto(differ, feature, path, base, first, second);
      PureFile(head, fallback) == NewFileNode(path, Reading(base)) && !Unowned(head)
  {
    SecondReads(differ, feature, path, base, first, second);
    SubmittedFile(differ, feature, path, base, first, second);
    OthersKept(differ, feature, path, base, first, second.agent);
    WroteFile(FirstInto(differ, feature, path, base, first), SecondInto(differ, feature, path, base, first, second),
              NewFileNode(path, Reading(base)), second.agent, MergeOfBoth(differ, base, first, second), fallback);
  }

  /** A feature that has moved is staged under the edited file, as the agents' deltas are. */
  lemma MeetFile(differ: Differ, feature: string, path: string, base: SnapshotId, staged: SnapshotId, first: Edit,
                 second: Edit)
    requires BothFaithful(base, first, second)
    requires SecondInto(differ, feature, path, base, first, second) != base
    ensures var head := SecondInto(differ, feature, path, base, first, second);
      PureFile(head, staged) == NewFileNode(path, Reading(base)) && !Unowned(head)
  {
    if SecondInto(differ, feature, path, base, first, second) == FirstInto(differ, feature, path, base, first) {
      FirstFile(differ, feature, path, base, staged, first);
    } else {
      SecondFile(differ, feature, path, base, staged, first, second);
    }
  }

  lemma WroteFile(into: SnapshotId, head: SnapshotId, file: FileNode, agent: AgentId, merged: MergeOutput,
                  fallback: SnapshotId)
    requires Wrote(into, head, file, agent, merged) && NoDeltaOf(agent, into)
    ensures PureFile(head, fallback) == file && !Unowned(head)
  {
    var d := head.deltas[|into.deltas|];
    assert head.deltas == into.deltas + [d];
    FiledLast(into, head, fallback, d);
  }

  /** Where the second approval writes, its agent has submitted something. */
  lemma SubmittedFile(differ: Differ, feature: string, path: string, base: SnapshotId, first: Edit, second: Edit)
    requires BothFaithful(base, first, second)
    requires SecondInto(differ, feature, path, base, first, second) != FirstInto(differ, feature, path, base, first)
    ensures PureFile(ApprovalHead(differ, second.agent, path, base, second.content),
                     FirstInto(differ, feature, path, base, first)) == NewFileNode(path, Reading(base))
  {
    var into := FirstInto(differ, feature, path, base, first);
    var src := ApprovalHead(differ, second.agent, path, base, second.content);
    var two := Render(Lines(second.content), EndsNl(Content(base)));
    FirstArrives(differ, feature, path, base, first);
    FirstArrives(differ, feature, path, base, second);
    if src == base {
      SettledIs(base, first.content);
      ReadingIsRendered(base);
      EarlyMerge(differ, Reading(base), Reading(into), EndsNl(Content(base)));
      SecondReads(differ, feature, path, base, first, second);
    } else {
      FiledLast(base, src, into, EditDelta(differ, path, Reading(base), two, AgentSource(second.agent)).id);
    }
  }

  /** Staging the feature over any staged chain of the same file. */
  lemma MeetStaged(differ: Differ, feature: string, path: string, base: SnapshotId, staged: SnapshotId, first: Edit,
                   second: Edit)
    requires BothFaithful(base, first, second) && Readable(staged) && Unowned(staged) && base.file == staged.file
    ensures var head := StageHead(differ, base, staged, SecondInto(differ, feature, path, base, first, second));
      var merged := MergeOf(differ, Reading(base), Reading(staged), Both(differ, base, first, second));
      && Reading(head) == After(differ, staged, NewFileNode(path, Reading(base)), ManualSource, merged.text)
      && head.hasConflicts == (if merged.text == Reading(staged) then staged.hasConflicts else merged.conflicts != [])
  {
    var from := SecondInto(differ, feature, path, base, first, second);
    SecondReads(differ, feature, path, base, first, second);
    StageReads(differ, base, staged, from);
    if from == base {
      NothingMerged(differ, base, staged);
    } else {
      MeetFile(differ, feature, path, base, staged, first, second);
    }
  }

  // ---- two agents, after any run -------------------------------------------------------

  /** Both agents' approvals are untouched over one baseline, staged anywhere, the feature new. */
  predicate BothAtBase(rows: Rows, first: AgentId, second: AgentId, feature: string, base: SnapshotId,
                       staged: SnapshotId)
  {
    && first != second && AtBase(rows, first, base) && AtBase(rows, second, base)
    && Staged in rows && rows[Staged].current == staged && Integrated(feature) !in rows
  }

  /** After any run, over a base that shows its lines, for any two edits whose last lines the
      file's ending does not hide, clashing or not: once both are submitted, approved into one
      feature and staged, the feature reads as the merge of both, and staged as the three-way
      merge of base, staged and that if and only if it did already, or the staged delta is new
      and the merge survives. The first agent is not pending. The second one is, exactly when
      it changed something and the feature read so already. */
  lemma TwoAgentsMeet(differ: Differ, run: seq<Action>, feature: string, path: string, base: SnapshotId,
                      staged: SnapshotId, first: Edit, second: Edit)
    requires BothAtBase(Run(differ, EMPTY, run).partitions, first.agent, second.agent, feature, base, staged)
    requires Shows(base) && Faithful(Lines(first.content), EndsNl(Content(base)))
    requires Faithful(Lines(second.content), EndsNl(Content(base)))
    ensures Readable(staged) && LinesOf(staged).Ok?
    ensures var w := Run(differ, EMPTY, run + Meet(path, feature, first, second));
      var one := Render(Lines(first.content), EndsNl(Content(base)));
      var two := Render(Lines(second.content), EndsNl(Content(base)));
      var both := MergeOfBoth(differ, base, first, second);
      var merged := MergeOf(differ, Reading(base), Reading(staged), Both(differ, base, first, second));
      && Staged in w.partitions && w.partitions[Staged].current in w.snapshots
      && (ReconstructText(w, w.snapshots[w.partitions[Staged].current]) == Ok(merged.text) <==>
          || merged.text == Reading(staged)
          || (&& DeltaId(NewFileNode(path, Reading(base)), DiffTexts(differ, Reading(staged), merged.text),
                         ManualSource) !in staged.deltas
              && Survives(staged, merged.text)))
      && (w.partitions[Staged].current.hasConflicts <==>
            if merged.text == Reading(staged) then staged.hasConflicts else merged.conflicts != [])
      && Integrated(feature) in w.partitions && w.partitions[Integrated(feature)].current in w.snapshots
      && ReconstructText(w, w.snapshots[w.partitions[Integrated(feature)].current])
         == Ok(Both(differ, base, first, second))
      && (both.text != one ==> (w.partitions[Integrated(feature)].current.hasConflicts <==> both.conflicts != []))
      && !World.Pending(w, first.agent)
      && (World.Pending(w, second.agent) <==> two != Reading(base) && both.text == one)
  {
    var w0, w := Run(differ, EMPTY, run), Run(differ, EMPTY, run + Meet(path, feature, first, second));
    ReadyIs(differ, run, first.agent, base, staged);
    RowsOfRun(differ, run, Meet(path, feature, first, second));
    MeetRows(differ, w0.partitions, path, feature, base, staged, first, second);
    StoredReads(w, Staged);
    StoredReads(w, Integrated(feature));
    FirstArrives(differ, feature, path, base, first);
    FirstArrives(differ, feature, path, base, second);
    SecondReads(differ, feature, path, base, first, second);
    MeetStaged(differ, feature, path, base, staged, first, second);
    AfterIs(differ, staged, NewFileNode(path, Reading(base)), ManualSource,
            MergeOf(differ, Reading(base), Reading(staged), Both(differ, base, first, second)).text);
  }

  /** The run up to the second approval. */
  function UpToSecond(path: string, feature: string, first: Edit, second: Edit): seq<Action> {
    Work(path, first) + Work(path, second) + [ApproveAgent(first.agent, feature)]
  }

  lemma RowRunOne(differ: Differ, rows: Rows, a: Action)
    ensures RowRun(differ, rows, [a]) == RowStep(differ, rows, a)
  {
    assert [a][1..] == [];
  }

  lemma UpToSecondRows(differ: Differ, rows: Rows, path: string, feature: string, base: SnapshotId,
                       staged: SnapshotId, first: Edit, second: Edit)
    requires BothAtBase(rows, first.agent, second.agent, feature, base, staged)
    ensures var next := RowRun(differ, rows, UpToSecond(path, feature, first, second));
      && Approval(second.agent) in next && Integrated(feature) in next
      && next[Approval(second.agent)] == Submitted(base, ApprovalHead(differ, second.agent, path, base, second.content))
      && next[Integrated(feature)] == Submitted(base, FirstInto(differ, feature, path, base, first))
  {
    var rows2 := RowRun(differ, rows, Work(path, first));
    var rows4 := RowRun(differ, rows2, Work(path, second));
    RowRunConcat(differ, rows, Work(path, first) + Work(path, second), [ApproveAgent(first.agent, feature)]);
    RowRunConcat(differ, rows, Work(path, first), Work(path, second));
    RowRunOne(differ, rows4, ApproveAgent(first.agent, feature));
    BothWork(differ, rows, path, feature, base, staged, first, second);
    ApproveFirst(differ, rows4, first.agent, second.agent, feature, base, staged,
                 ApprovalHead(differ, first.agent, path, base, first.content),
                 ApprovalHead(differ, second.agent, path, base, second.content));
  }

  /** The second approval returns where the feature then stands and the conflicts of merging the
      two edits: none if and only if they do not clash. */
  lemma SecondApprovalReturns(differ: Differ, run: seq<Action>, feature: string, path: string, base: SnapshotId,
                              staged: SnapshotId, first: Edit, second: Edit)
    requires BothAtBase(Run(differ, EMPTY, run).partitions, first.agent, second.agent, feature, base, staged)
    requires Shows(base) && Faithful(Lines(first.content), EndsNl(Content(base)))
    requires Faithful(Lines(second.content), EndsNl(Content(base)))
    ensures var w := Run(differ, EMPTY, run + UpToSecond(path, feature, first, second));
      Answers.Answers(Approve(differ, w, second.agent, feature), Integrated(feature),
                      MergeOfBoth(differ, base, first, second).conflicts)
  {
    var before := run + UpToSecond(path, feature, first, second);
    ReadyIs(differ, run, first.agent, base, staged);
    RowsOfRun(differ, run, UpToSecond(path, feature, first, second));
    UpToSecondRows(differ, Run(differ, EMPTY, run).partitions, path, feature, base, staged, first, second);
    FirstArrives(differ, feature, path, base, first);
    FirstArrives(differ, feature, path, base, second);
    ApprovalReturns(differ, before, second.agent, feature);
  }

  /** Staged has not moved: it takes the feature's text without a flag, whether the two edits
      clash or not. A clash is flagged on the feature alone. */
  lemma UnmovedIsNotFlagged(differ: Differ, run: seq<Action>, feature: string, path: string, base: SnapshotId,
                            first: Edit, second: Edit)
    requires BothAtBase(Run(differ, EMPTY, run).partitions, first.agent, second.agent, feature, base, base)
    requires Shows(base) && !base.hasConflicts
    requires Faithful(Lines(first.content), EndsNl(Content(base)))
    requires Faithful(Lines(second.content), EndsNl(Content(base)))
    requires MergeOfBoth(differ, base, first, second).text != Render(Lines(first.content), EndsNl(Content(base)))
    ensures var w := Run(differ, EMPTY, run + Meet(path, feature, first, second));
      && Integrated(feature) in w.partitions && Staged in w.partitions
      && (w.partitions[Integrated(feature)].current.hasConflicts <==>
            MergeOfBoth(differ, base, first, second).conflicts != [])
      && !w.partitions[Staged].current.hasConflicts
  {
    TwoAgentsMeet(differ, run, feature, path, base, base, first, second);
    UnmovedMerge(differ, base, Both(differ, base, first, second));
  }

  lemma UnmovedMerge(differ: Differ, base: SnapshotId, text: Text)
    requires Shows(base)
    ensures MergeOf(differ, Reading(base), Reading(base), text).conflicts == []
    ensures Renderable(text, EndsNl(Content(base))) ==>
        MergeOf(differ, Reading(base), Reading(base), text).text == text
  {
    ReadingIsRendered(base);
  }

  // ---- edits that keep apart -------------------------------------------------------------

  /** Two edits change a text apart from each other; `u` is the union of their changes, and
      what it makes of the text keeps its lines. */
  ghost predicate KeepApart(differ: Differ, text: Text, nl: bool, first: Edit, second: Edit, u: seq<Change>) {
    var one, two := Render(Lines(first.content), nl), Render(Lines(second.content), nl);
    && Faithful(Lines(first.content), nl) && Faithful(Lines(second.content), nl)
    && Clean(SideChanges(differ, text, two), SideChanges(differ, text, one))
    && IsUnion(SideChanges(differ, text, two), SideChanges(differ, text, one), u)
    && Sorted(0, u, |Lines(text)|) && Faithful(Replay(Lines(text), u), nl)
  }

  /** Edits that keep apart merge to the base with both replayed. */
  lemma UnionText(differ: Differ, base: SnapshotId, first: Edit, second: Edit, u: seq<Change>)
    requires Shows(base) && KeepApart(differ, Reading(base), EndsNl(Content(base)), first, second, u)
    ensures MergeOfBoth(differ, base, first, second).conflicts == []
    ensures Both(differ, base, first, second) == Render(Replay(Lines(Reading(base)), u), EndsNl(Content(base)))
  {
    var nl := EndsNl(Content(base));
    var one, two := Render(Lines(first.content), nl), Render(Lines(second.content), nl);
    ReadingIsRendered(base);
    SettledIs(base, first.content);
    SettledIs(base, second.content);
    CleanMergeIsUnion(differ, Reading(base), two, one, u);
    MergeIsLoop(differ, Reading(base), two, one);
  }

  /** So, after any run, over an unmoved staged partition: staged reads as the base with both
      edits replayed if and only if it did already or the staged delta is new. */
  lemma ApartEditsMeet(differ: Differ, run: seq<Action>, feature: string, path: string, base: SnapshotId,
                       first: Edit, second: Edit, u: seq<Change>)
    requires BothAtBase(Run(differ, EMPTY, run).partitions, first.agent, second.agent, feature, base, base)
    requires Shows(base) && KeepApart(differ, Reading(base), EndsNl(Content(base)), first, second, u)
    ensures var w := Run(differ, EMPTY, run + Meet(path, feature, first, second));
      var union := Render(Replay(Lines(Reading(base)), u), EndsNl(Content(base)));
      && Staged in w.partitions && w.partitions[Staged].current in w.snapshots
      && (ReconstructText(w, w.snapshots[w.partitions[Staged].current]) == Ok(union) <==>
          || union == Reading(base)
          || DeltaId(NewFileNode(path, Reading(base)), DiffTexts(differ, Reading(base), union), ManualSource)
             !in base.deltas)
  {
    var nl := EndsNl(Content(base));
    TwoAgentsMeet(differ, run, feature, path, base, base, first, second);
    UnionText(differ, base, first, second, u);
    RenderedIs(Replay(Lines(Reading(base)), u), nl);
    UnmovedMerge(differ, base, Both(differ, base, first, second));
  }

  // ---- from an empty store -------------------------------------------------------------

  function SetUpTwo(file: string, text: Text, first: AgentId, second: AgentId): seq<Action> {
    SetUp(file, text, first) + [JoinAgent(second), OpenApproval(second)]
  }

  lemma SetUpTwoRun(differ: Differ, file: string, text: Text, first: AgentId, second: AgentId, feature: string)
    requires first != second
    ensures BothAtBase(RowRun(differ, map[], SetUpTwo(file, text, first, second)), first, second, feature,
                       FirstHead(file, text), FirstHead(file, text))
  {
    RowRunConcat(differ, map[], SetUp(file, text, first), [JoinAgent(second), OpenApproval(second)]);
    SetUpRowRun(differ, file, text, first);
    RowRunTwo(differ, RowRun(differ, map[], SetUp(file, text, first)), [JoinAgent(second), OpenApproval(second)]);
  }

  lemma SetUpTwoRows(differ: Differ, file: string, text: Text, first: AgentId, second: AgentId, feature: string)
    requires first != second
    ensures BothAtBase(Run(differ, EMPTY, SetUpTwo(file, text, first, second)).partitions, first, second, feature,
                       FirstHead(file, text), FirstHead(file, text))
  {
    SetUpTwoRun(differ, file, text, first, second, feature);
    RowsFromEmpty(differ, SetUpTwo(file, text, first, second));
  }

  /** From an empty store, over any file but a lone newline: two agents edit it by changes that
      keep apart, and staged then reads as the file with both edits replayed. */
  lemma FirstEditsMeet(differ: Differ, file: string, text: Text, feature: string, path: string, first: Edit,
                       second: Edit, u: seq<Change>)
    requires first.agent != second.agent && text != "\n"
    requires KeepApart(differ, text, EndsNl(text), first, second, u)
    ensures var run := SetUpTwo(file, text, first.agent, second.agent) + Meet(path, feature, first, second);
      var w := Run(differ, EMPTY, run);
      && Staged in w.partitions && w.partitions[Staged].current in w.snapshots
      && ReconstructText(w, w.snapshots[w.partitions[Staged].current])
         == Ok(Render(Replay(Lines(text), u), EndsNl(text)))
  {
    FirstHeadShows(file, text);
    SetUpTwoRows(differ, file, text, first.agent, second.agent, feature);
    ApartEditsMeet(differ, SetUpTwo(file, text, first.agent, second.agent), feature, path, FirstHead(file, text),
                   first, second, u);
    EmptyDiffIffSame(differ, text, Render(Replay(Lines(text), u), EndsNl(text)));
  }

  /** Two agents that make the same edit: the second approval finds nothing to merge, and the
      second agent is listed as pending after it was approved. */
  lemma SameEditStaysPending(differ: Differ, file: string, text: Text, feature: string, path: string, first: Edit,
                             second: Edit)
    requires first.agent != second.agent && text != "\n"
    requires Lines(first.content) == Lines(second.content) != Lines(text)
    requires Faithful(Lines(first.content), EndsNl(text))
    ensures var run := SetUpTwo(file, text, first.agent, second.agent) + Meet(path, feature, first, second);
      World.Pending(Run(differ, EMPTY, run), second.agent)
  {
    var base, nl := FirstHead(file, text), EndsNl(text);
    FirstHeadShows(file, text);
    SetUpTwoRows(differ, file, text, first.agent, second.agent, feature);
    TwoAgentsMeet(differ, SetUpTwo(file, text, first.agent, second.agent), feature, path, base, base, first, second);
    SettledIs(base, first.content);
    ReadingIsRendered(base);
  }

  lemma ClashOnHeads(differ: Differ, file: string, feature: string, path: string, text: Text, p: AgentId, q: AgentId,
                     one: Text, two: Text)
    requires p != q && EndsNl(text) && text != "\n" && Clashes(differ, text, two, one)
    requires EndsNl(one) && one != "\n" && EndsNl(two) && two != "\n"
    ensures var run := SetUpTwo(file, text, p, q) + Meet(path, feature, Edit(p, one), Edit(q, two));
      var w := Run(differ, EMPTY, run);
      && Integrated(feature) in w.partitions && w.partitions[Integrated(feature)].current.hasConflicts
      && Staged in w.partitions && !w.partitions[Staged].current.hasConflicts
    ensures var run := SetUpTwo(file, text, p, q) + UpToSecond(path, feature, Edit(p, one), Edit(q, two));
      var r := Approve(differ, Run(differ, EMPTY, run), q, feature).result;
      r.Ok? && r.value.conflicts != []
  {
    FirstHeadShows(file, text);
    SetUpTwoRows(differ, file, text, p, q, feature);
    RenderOfLines(one, true);
    RenderOfLines(two, true);
    RenderableIsFaithful(one, true);
    RenderableIsFaithful(two, true);
    UnmovedIsNotFlagged(differ, SetUpTwo(file, text, p, q), feature, path, FirstHead(file, text), Edit(p, one),
                        Edit(q, two));
    SecondApprovalReturns(differ, SetUpTwo(file, text, p, q), feature, path, FirstHead(file, text),
                          FirstHead(file, text), Edit(p, one), Edit(q, two));
  }

  /** There are a differ and texts for which two agents replace the middle of three lines, each
      in its own way: the second approval returns a conflict and the feature is flagged, and
      staged is not. */
  lemma ClashIsNotFlagged(file: string, feature: string, path: string, p: AgentId, q: AgentId)
    returns (text: Text, one: Text, two: Text)
    requires p != q
    ensures MiddleClash(text, two, one)
    ensures var run := SetUpTwo(file, text, p, q) + Meet(path, feature, Edit(p, one), Edit(q, two));
      var w := Run(MIDDLE_DIFFER, EMPTY, run);
      && Integrated(feature) in w.partitions && w.partitions[Integrated(feature)].current.hasConflicts
      && Staged in w.partitions && !w.partitions[Staged].current.hasConflicts
    ensures var run := SetUpTwo(file, text, p, q) + UpToSecond(path, feature, Edit(p, one), Edit(q, two));
      var r := Approve(MIDDLE_DIFFER, Run(MIDDLE_DIFFER, EMPTY, run), q, feature).result;
      r.Ok? && r.value.conflicts != []
  {
    text, two, one := MiddleClashes('a', 'b', 'c', 'y', 'x');
    NotALoneNewline(text);
    NotALoneNewline(one);
    NotALoneNewline(two);
    ClashOnHeads(MIDDLE_DIFFER, file, feature, path, text, p, q, one, two);
  }

  lemma NotALoneNewline(s: Text)
    requires |Lines(s)| == 3
    ensures s != "\n"
  {
  }
}
