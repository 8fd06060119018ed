/** End to end: agents' edits, submitted, approved into a feature and staged. */
module Delivery {
  import opened Texts
  import opened Results
  import opened Diff
  import opened Changes
  import opened Merge
  import opened MergeLaws
  import opened Objects
  import opened World
  import opened Pipeline
  import opened Heads
  import opened Discipline

  function Deliver(agent: AgentId, feature: string, path: string, content: Text): seq<Action> {
    [EditAgent(agent, path, content), SubmitAgent(agent), ApproveAgent(agent, feature), StageFeatures([feature])]
  }

  /** Agent and approval stand at one baseline, staged anywhere, the feature is new. */
  predicate Ready(rows: Rows, agent: AgentId, feature: string, base: SnapshotId, staged: SnapshotId) {
    && Agent(agent) in rows && rows[Agent(agent)].current == base
    && Approval(agent) in rows && rows[Approval(agent)] == Partition(base, [base])
    && Staged in rows && rows[Staged].current == staged
    && Integrated(feature) !in rows
  }

  // ---- where the four steps point ------------------------------------------------

  function AgentHead(differ: Differ, agent: AgentId, path: string, base: SnapshotId, content: Text): SnapshotId {
    EditHead(differ, Agent(agent), AgentSource(agent), base, path, content)
  }

  function ApprovalHead(differ: Differ, agent: AgentId, path: string, base: SnapshotId, content: Text): SnapshotId {
    SubmitHead(differ, agent, base, base, AgentHead(differ, agent, path, base, content))
  }

  /** The feature, when it stood at `dst` over the baseline. */
  function FeatureHead(differ: Differ, agent: AgentId, feature: string, path: string, base: SnapshotId, dst: SnapshotId,
                       content: Text): SnapshotId
  {
    ApproveHead(differ, agent, feature, base, ApprovalHead(differ, agent, path, base, content), dst)
  }

  /** Edit and submission. */
  lemma SubmittedRows(differ: Differ, rows: Rows, agent: AgentId, base: SnapshotId, path: string, content: Text)
    requires Agent(agent) in rows && rows[Agent(agent)].current == base
    requires Approval(agent) in rows && rows[Approval(agent)] == Partition(base, [base])
    ensures var rows2 := RowStep(differ, RowStep(differ, rows, EditAgent(agent, path, content)), SubmitAgent(agent));
      && Approval(agent) in rows2
      && rows2[Approval(agent)] == Submitted(base, ApprovalHead(differ, agent, path, base, content))
  {
    var rows1 := RowStep(differ, rows, EditAgent(agent, path, content));
    RowFrame(differ, rows, EditAgent(agent, path, content), Approval(agent));
    assert Agent(agent) in rows1 && rows1[Agent(agent)].current == AgentHead(differ, agent, path, base, content);
    SubmittedRow(differ, rows1, agent, base, AgentHead(differ, agent, path, base, content));
  }

  lemma SubmittedRow(differ: Differ, rows: Rows, agent: AgentId, base: SnapshotId, from: SnapshotId)
    requires Agent(agent) in rows && rows[Agent(agent)].current == from
    requires Approval(agent) in rows && rows[Approval(agent)] == Partition(base, [base])
    ensures var rows2 := RowStep(differ, rows, SubmitAgent(agent));
      Approval(agent) in rows2 && rows2[Approval(agent)] == Submitted(base, SubmitHead(differ, agent, base, base, from))
  {
    assert [base] + [SubmitHead(differ, agent, base, base, from)]
         == [base, SubmitHead(differ, agent, base, base, from)];
  }

  /** An approval over a baseline that was submitted to once. */
  function Submitted(base: SnapshotId, head: SnapshotId): Partition {
    if head == base then Partition(base, [base]) else Partition(head, [base, head])
  }

  lemma EnsuredRow(rows: Rows, p: PartitionType, base: SnapshotId, into: Partition)
    requires into == if p in rows then rows[p] else Partition(base, [base])
    ensures var next := EnsureRow(rows, p, base);
      p in next && next[p] == into && forall q :: q != p ==> Gate.SameAt(rows, next, q)
  {
  }

  /** Approval into a feature that stands at `into` or does not exist. */
  lemma ApprovedRows(differ: Differ, rows: Rows, agent: AgentId, feature: string, base: SnapshotId, src: SnapshotId,
                     into: Partition)
    requires Approval(agent) in rows && rows[Approval(agent)] == Submitted(base, src)
    requires into == if Integrated(feature) in rows then rows[Integrated(feature)] else Partition(base, [base])
    requires into.history != [] && into.history[0] == base
    ensures var rows3 := RowStep(differ, rows, ApproveAgent(agent, feature));
      var head := ApproveHead(differ, agent, feature, base, src, into.current);
      && Integrated(feature) in rows3
      && rows3[Integrated(feature)] == (if head == into.current then into else Partition(head, into.history + [head]))
      && (PendingRow(rows3, agent) <==> src != base && head == into.current)
  {
    var ensured := EnsureRow(rows, Integrated(feature), base);
    EnsuredRow(rows, Integrated(feature), base, into);
    assert RowStep(differ, rows, ApproveAgent(agent, feature)) == ApproveIntoRow(differ, ensured, agent, feature) by {
      assert rows[Approval(agent)].history[0] == base;
    }
    ApprovedInto(differ, ensured, agent, feature, base, src, into);
  }

  lemma ApprovedInto(differ: Differ, rows: Rows, agent: AgentId, feature: string, base: SnapshotId, src: SnapshotId,
                     into: Partition)
    requires Approval(agent) in rows && rows[Approval(agent)] == Submitted(base, src)
    requires Integrated(feature) in rows && rows[Integrated(feature)] == into
    requires into.history != [] && into.history[0] == base
    ensures var rows3 := ApproveIntoRow(differ, rows, agent, feature);
      var head := ApproveHead(differ, agent, feature, base, src, into.current);
      && Integrated(feature) in rows3
      && rows3[Integrated(feature)] == (if head == into.current then into else Partition(head, into.history + [head]))
      && (PendingRow(rows3, agent) <==> src != base && head == into.current)
  {
  }

  lemma StagedRows(differ: Differ, rows: Rows, feature: string, base: SnapshotId)
    requires Integrated(feature) in rows && Staged in rows
    requires rows[Integrated(feature)].history != [] && rows[Integrated(feature)].history[0] == base
    ensures var rows4 := RowStep(differ, rows, StageFeatures([feature]));
      && Staged in rows4
      && rows4[Staged].current == StageHead(differ, base, rows[Staged].current, rows[Integrated(feature)].current)
  {
    assert [feature][1..] == [];
    var next := StageRow(differ, rows, feature);
    assert StageRows(differ, rows, [feature]) == StageRows(differ, next, []) == next;
  }

  /** The feature stands at `head` over the baseline, staged at `staged`; whether the
      approval is pending. */
  ghost predicate Holds(rows: Rows, agent: AgentId, feature: string, base: SnapshotId, head: SnapshotId,
                        staged: SnapshotId, pending: bool)
  {
    && Staged in rows && rows[Staged].current == staged
    && Integrated(feature) in rows && rows[Integrated(feature)].current == head
    && rows[Integrated(feature)].history != [] && rows[Integrated(feature)].history[0] == base
    && PendingRow(rows, agent) == pending
  }

  lemma ApprovedHolds(differ: Differ, rows: Rows, agent: AgentId, feature: string, base: SnapshotId, src: SnapshotId,
                      into: Partition)
    requires Approval(agent) in rows && rows[Approval(agent)] == Submitted(base, src)
    requires into == if Integrated(feature) in rows then rows[Integrated(feature)] else Partition(base, [base])
    requires into.history != [] && into.history[0] == base && Staged in rows
    ensures var head := ApproveHead(differ, agent, feature, base, src, into.current);
      Holds(RowStep(differ, rows, ApproveAgent(agent, feature)), agent, feature, base, head, rows[Staged].current,
            src != base && head == into.current)
  {
    var rows3 := RowStep(differ, rows, ApproveAgent(agent, feature));
    assert Staged in rows3 && rows3[Staged].current == rows[Staged].current by {
      RowFrame(differ, rows, ApproveAgent(agent, feature), Staged);
    }
    ApprovedRows(differ, rows, agent, feature, base, src, into);
  }

  lemma StagedFrom(differ: Differ, rows: Rows, agent: AgentId, feature: string, base: SnapshotId, head: SnapshotId,
                   staged: SnapshotId, pending: bool)
    requires Holds(rows, agent, feature, base, head, staged, pending)
    ensures var rows4 := RowStep(differ, rows, StageFeatures([feature]));
      && Staged in rows4 && rows4[Staged].current == StageHead(differ, base, staged, head)
      && Integrated(feature) in rows4 && rows4[Integrated(feature)].current == head
      && PendingRow(rows4, agent) == pending
  {
    StagedRows(differ, rows, feature, base);
    RowFrame(differ, rows, StageFeatures([feature]), Approval(agent));
    RowFrame(differ, rows, StageFeatures([feature]), Integrated(feature));
  }

  /** The last two steps. */
  lemma ApprovedAndStaged(differ: Differ, rows: Rows, agent: AgentId, feature: string, base: SnapshotId,
                          src: SnapshotId, into: Partition)
    requires Approval(agent) in rows && rows[Approval(agent)] == Submitted(base, src) && Staged in rows
    requires into == if Integrated(feature) in rows then rows[Integrated(feature)] else Partition(base, [base])
    requires into.history != [] && into.history[0] == base
    ensures var rows4 := RowStep(differ, RowStep(differ, rows, ApproveAgent(agent, feature)), StageFeatures([feature]));
      var head := ApproveHead(differ, agent, feature, base, src, into.current);
      && Staged in rows4 && rows4[Staged].current == StageHead(differ, base, rows[Staged].current, head)
      && Integrated(feature) in rows4 && rows4[Integrated(feature)].current == head
      && (PendingRow(rows4, agent) <==> src != base && head == into.current)
  {
    var head := ApproveHead(differ, agent, feature, base, src, into.current);
    ApprovedHolds(differ, rows, agent, feature, base, src, into);
    StagedFrom(differ, RowStep(differ, rows, ApproveAgent(agent, feature)), agent, feature, base, head,
               rows[Staged].current, src != base && head == into.current);
  }

  lemma DeliveredRows(differ: Differ, rows: Rows, agent: AgentId, feature: string, base: SnapshotId, staged: SnapshotId,
                      path: string, content: Text)
    requires Ready(rows, agent, feature, base, staged)
    ensures var rows4 := RowRun(differ, rows, Deliver(agent, feature, path, content));
      var src := ApprovalHead(differ, agent, path, base, content);
      var head := FeatureHead(differ, agent, feature, path, base, base, content);
      && Staged in rows4 && rows4[Staged].current == StageHead(differ, base, staged, head)
      && (PendingRow(rows4, agent) <==> src != base && head == base)
  {
    RowRunFour(differ, rows, Deliver(agent, feature, path, content));
    var src := ApprovalHead(differ, agent, path, base, content);
    var rows1 := RowStep(differ, rows, EditAgent(agent, path, content));
    var rows2 := RowStep(differ, rows1, SubmitAgent(agent));
    SubmittedRows(differ, rows, agent, base, path, content);
    SubmittedFrame(differ, rows, agent, path, content, Staged);
    SubmittedFrame(differ, rows, agent, path, content, Integrated(feature));
    ApprovedAndStaged(differ, rows2, agent, feature, base, src, Partition(base, [base]));
  }

  lemma SubmittedFrame(differ: Differ, rows: Rows, agent: AgentId, path: string, content: Text, q: PartitionType)
    requires q != Agent(agent) && q != Approval(agent)
    ensures Gate.SameAt(rows, RowStep(differ, RowStep(differ, rows, EditAgent(agent, path, content)),
                                      SubmitAgent(agent)), q)
  {
    RowFrame(differ, rows, EditAgent(agent, path, content), q);
    RowFrame(differ, RowStep(differ, rows, EditAgent(agent, path, content)), SubmitAgent(agent), q);
  }

  // ---- writing over a chain ------------------------------------------------------------

  /** What a chain reads once a text has been written over it by a new delta: the text's lines
      with the hidden one behind, ended as the file is. */
  function Rewritten(id: SnapshotId, content: Text): Text {
    Render(Lines(content) + Hidden(id), EndsNl(Content(id)))
  }

  /** What is left after submission, approval into a new feature and staging: each of the
      three writes what the one before has left. */
  function Settled(id: SnapshotId, content: Text): Text {
    Rewritten(id, Rewritten(id, Rewritten(id, content)))
  }

  predicate NoDeltaOf(agent: AgentId, id: SnapshotId) {
    forall d :: d in id.deltas ==> d.source != AgentSource(agent)
  }

  lemma OwnText(id: SnapshotId)
    requires Readable(id)
    ensures Rewritten(id, Reading(id)) == Reading(id)
    ensures Hidden(id) == [] || Hidden(id) == [""]
    ensures Hidden(id) == [] <==> Shows(id)
  {
    TextLines(id);
  }

  /** An agent writes over a chain without deltas of its own. */
  lemma AfterOwn(differ: Differ, id: SnapshotId, file: FileNode, agent: AgentId, content: Text)
    requires Readable(id) && NoDeltaOf(agent, id)
    ensures After(differ, id, file, AgentSource(agent), content) == Rewritten(id, content)
  {
    OwnText(id);
  }

  /** A rewritten text needs no final newline that the other side could lend it. */
  lemma RewrittenEnds(id: SnapshotId, content: Text)
    requires Readable(id)
    ensures var text := Rewritten(id, content);
      text == "" || EndsNl(text) || !EndsNl(Reading(id))
  {
    OwnText(id);
    ReadingIsRendered(id);
    if !EndsNl(Content(id)) && Hidden(id) == [""] {
      BlankEnds(Lines(content));
    }
  }

  lemma BlankEnds(ls: seq<Line>)
    ensures Render(ls + [""], false) == "" || EndsNl(Render(ls + [""], false))
  {
    if ls == [] {
      JoinEmpty([""]);
      assert ls + [""] == [""];
    } else {
      JoinSnocBlank(ls);
    }
  }

  /** One side unchanged: the rewritten side wins, byte for byte. */
  lemma OneSided(differ: Differ, id: SnapshotId, content: Text)
    requires Readable(id)
    ensures var base, text := Reading(id), Rewritten(id, content);
      && MergeOf(differ, base, base, text) == MergeOutput(text, [])
      && MergeOf(differ, base, text, base) == MergeOutput(text, [])
  {
    RewrittenEnds(id, content);
  }

  /** Over an unterminated file, where no line is hidden, each writing loses a final newline.
      Elsewhere nothing but the chain's own text is written as that text. */
  lemma WrittenTwice(id: SnapshotId, content: Text)
    requires Readable(id)
    ensures var text := Rewritten(id, content);
      if !EndsNl(Content(id)) && Shows(id) then Rewritten(id, text) == Chopped(text) && text == Chopped(content)
      else Rewritten(id, text) == Reading(id) ==> text == Reading(id)
  {
    OwnText(id);
    ReadingIsRendered(id);
    var nl, text := EndsNl(Content(id)), Rewritten(id, content);
    if Shows(id) {
      assert Lines(content) + [] == Lines(content) && Lines(text) + [] == Lines(text);
      JoinOfLines(content);
      JoinOfLines(text);
      if nl {
        RenderEnds(Lines(content));
        RenderOfLines(text, true);
      }
    } else {
      BlankTwice(Reading(id), content, nl);
    }
  }

  lemma BlankTwice(base: Text, content: Text, nl: bool)
    requires base == Render(Lines(base) + [""], nl)
    ensures var text := Render(Lines(content) + [""], nl);
      Render(Lines(text) + [""], nl) == base ==> text == base
  {
    var text := Render(Lines(content) + [""], nl);
    RenderWithBlank(text, nl);
    RenderWithBlank(base, nl);
    if nl {
      JoinEmpty(Lines(text) + [""]);
      LinesEmpty(text);
    } else {
      BlankEnds(Lines(content));
    }
  }

  /** The edit is left pending: the submission has changed the text, and what it left is, written
      again, the text of before. */
  lemma SwallowedIff(id: SnapshotId, content: Text)
    requires Readable(id)
    ensures var text := Rewritten(id, content);
      text != Reading(id) && Rewritten(id, text) == Reading(id) <==>
        !EndsNl(Content(id)) && Shows(id) && content == Reading(id) + "\n\n"
  {
    OwnText(id);
    ReadingIsRendered(id);
    WrittenTwice(id, content);
    if !EndsNl(Content(id)) && Shows(id) {
      ChoppedTwice(Reading(id), content);
    }
  }

  lemma ChoppedTwice(base: Text, content: Text)
    requires !EndsNl(base)
    ensures Chopped(content) != base && Chopped(Chopped(content)) == base <==> content == base + "\n\n"
  {
    if content == base + "\n\n" {
      assert content[..|content| - 1] == base + "\n";
      assert (base + "\n")[..|base|] == base;
    }
    if Chopped(content) != base && Chopped(Chopped(content)) == base {
      var once := Chopped(content);
      assert once == once[..|once| - 1] + "\n" == base + "\n";
      assert content == content[..|content| - 1] + "\n" == base + "\n" + "\n";
    }
  }

  // ---- what the heads read ---------------------------------------------------------------

  /** The submission; it is filed like the edit. */
  lemma ApprovalReads(differ: Differ, agent: AgentId, path: string, base: SnapshotId, content: Text)
    requires Readable(base) && NoDeltaOf(agent, base)
    ensures var head := ApprovalHead(differ, agent, path, base, content);
      var text := Rewritten(base, content);
      && Carries(base, head, EditDelta(differ, path, Reading(base), text, AgentSource(agent)).id, Rewritten(base, text))
      && (head == base <==> text == Reading(base))
  {
    var from, text := AgentHead(differ, agent, path, base, content), Rewritten(base, content);
    var file := NewFileNode(path, Reading(base));
    EditReads(differ, Agent(agent), AgentSource(agent), base, path, content);
    AfterOwn(differ, base, file, agent, content);
    AfterOwn(differ, base, file, agent, text);
    OneSided(differ, base, content);
    OwnText(base);
    if from != base {
      FiledUnder(from, from, base.deltas, EditDelta(differ, path, Reading(base), content, AgentSource(agent)).id);
      MergeReads(differ, Approval(agent), AgentSource(agent), file, [RowOf(base), RowOf(from)],
                 MergeOf(differ, Reading(base), Reading(base), text));
    }
  }

  /** The approval into a feature that stands at the baseline. */
  lemma FeatureReads(differ: Differ, agent: AgentId, feature: string, path: string, base: SnapshotId, content: Text)
    requires Readable(base) && NoDeltaOf(agent, base)
    ensures var head := FeatureHead(differ, agent, feature, path, base, base, content);
      var text := Rewritten(base, Rewritten(base, content));
      && Carries(base, head, EditDelta(differ, path, Reading(base), text, AgentSource(agent)).id,
                 Settled(base, content))
      && (head == base <==> text == Reading(base))
  {
    var from, once := ApprovalHead(differ, agent, path, base, content), Rewritten(base, content);
    var file, text := NewFileNode(path, Reading(base)), Rewritten(base, once);
    ApprovalReads(differ, agent, path, base, content);
    AfterOwn(differ, base, file, agent, text);
    OneSided(differ, base, once);
    OwnText(base);
    if from != base {
      FiledUnder(from, base, base.deltas, EditDelta(differ, path, Reading(base), once, AgentSource(agent)).id);
      MergeReads(differ, Integrated(feature), AgentSource(agent), file, [RowOf(base), RowOf(from), RowOf(base)],
                 MergeOf(differ, Reading(base), text, Reading(base)));
    }
  }

  lemma StageReads(differ: Differ, base: SnapshotId, dst: SnapshotId, src: SnapshotId)
    requires Readable(dst)
    ensures var merged := MergeOf(differ, Reading(base), Reading(dst), Reading(src));
      var head := StageHead(differ, base, dst, src);
      && Readable(head) && head.file == dst.file
      && Reading(head) == (if src == dst then Reading(dst)
                           else After(differ, dst, PureFile(src, dst), ManualSource, merged.text))
      && head.hasConflicts == (if src == dst || merged.text == Reading(dst) then dst.hasConflicts
                               else merged.conflicts != [])
  {
    if src != dst {
      MergeReads(differ, Staged, ManualSource, PureFile(src, dst), [RowOf(dst), RowOf(src)],
                 MergeOf(differ, Reading(base), Reading(dst), Reading(src)));
    }
  }

  // ---- the theorem for all runs --------------------------------------------------------

  /** What is known of the state before: from the invariants over runs. */
  lemma ReadyIs(differ: Differ, run: seq<Action>, agent: AgentId, base: SnapshotId, staged: SnapshotId)
    requires var rows := Run(differ, EMPTY, run).partitions;
      && Approval(agent) in rows && rows[Approval(agent)] == Partition(base, [base])
      && Staged in rows && rows[Staged].current == staged
    ensures Readable(base) && Readable(staged) && LinesOf(staged).Ok?
    ensures Unowned(base) && Unowned(staged) && base.file == staged.file
  {
    var w := Run(differ, EMPTY, run);
    assert Good(w) by {
      RowsOfRun(differ, run, []);
    }
    StoredReads(w, Approval(agent));
    StoredReads(w, Staged);
    TextLines(staged);
    BaselinesAreUnowned(differ, run, Approval(agent));
  }

  /** The file that staging the edit is filed under. */
  function StageFile(path: string, base: SnapshotId, staged: SnapshotId, content: Text): FileNode {
    if Rewritten(base, Rewritten(base, content)) == Reading(base) then PureFile(base, staged)
    else NewFileNode(path, Reading(base))
  }

  /** Staging a feature that carries an agent's delta, or the baseline itself. */
  lemma StagedReads(differ: Differ, agent: AgentId, feature: string, path: string, base: SnapshotId,
                    staged: SnapshotId, content: Text)
    requires Readable(base) && Readable(staged) && Unowned(base) && Unowned(staged)
    ensures var head := StageHead(differ, base, staged, FeatureHead(differ, agent, feature, path, base, base, content));
      var merged := MergeOf(differ, Reading(base), Reading(staged), Settled(base, content));
      && Reading(head) == After(differ, staged, StageFile(path, base, staged, content), ManualSource, merged.text)
      && head.hasConflicts == (if merged.text == Reading(staged) then staged.hasConflicts else merged.conflicts != [])
  {
    var from := FeatureHead(differ, agent, feature, path, base, base, content);
    var text := Rewritten(base, Rewritten(base, content));
    FeatureReads(differ, agent, feature, path, base, content);
    StageReads(differ, base, staged, from);
    OwnText(base);
    if from != base {
      var d := EditDelta(differ, path, Reading(base), text, AgentSource(agent)).id;
      FiledUnder(from, staged, base.deltas, d);
      assert d in from.deltas && from != staged;
    } else if from == staged {
      OneSided(differ, base, Reading(base));
    }
  }

  /** After any run, over any files, and for any text: what an agent's edit leaves in staged
      once it is submitted, approved into a new feature and staged, and whether the staged
      snapshot is flagged. The agent stays pending in one case only: over an unterminated file,
      when the edit adds two newlines to a baseline that hides none. */
  lemma EditIsDelivered(differ: Differ, run: seq<Action>, agent: AgentId, feature: string, base: SnapshotId,
                        staged: SnapshotId, path: string, content: Text)
    requires Ready(Run(differ, EMPTY, run).partitions, agent, feature, base, staged)
    ensures var w := Run(differ, EMPTY, run + Deliver(agent, feature, path, content));
      var merged := MergeOf(differ, Reading(base), Reading(staged), Settled(base, content));
      && Staged in w.partitions && w.partitions[Staged].current in w.snapshots
      && ReconstructText(w, w.snapshots[w.partitions[Staged].current])
         == Ok(After(differ, staged, StageFile(path, base, staged, content), ManualSource, merged.text))
      && (w.partitions[Staged].current.hasConflicts <==>
            if merged.text == Reading(staged) then staged.hasConflicts else merged.conflicts != [])
      && (World.Pending(w, agent) <==>
            !EndsNl(Content(base)) && Shows(base) && content == Reading(base) + "\n\n")
  {
    var w0, w := Run(differ, EMPTY, run), Run(differ, EMPTY, run + Deliver(agent, feature, path, content));
    ReadyIs(differ, run, agent, base, staged);
    RowsOfRun(differ, run, Deliver(agent, feature, path, content));
    DeliveredRows(differ, w0.partitions, agent, feature, base, staged, path, content);
    StoredReads(w, Staged);
    ApprovalReads(differ, agent, path, base, content);
    FeatureReads(differ, agent, feature, path, base, content);
    StagedReads(differ, agent, feature, path, base, staged, content);
    SwallowedIff(base, content);
  }

  // ---- where the base shows all its lines --------------------------------------------

  /** One side unchanged, and texts that end alike: the other side wins, byte for byte. */
  lemma EarlyMerge(differ: Differ, base: Text, text: Text, nl: bool)
    requires Renderable(base, nl) && Renderable(text, nl)
    ensures MergeOf(differ, base, base, text) == MergeOutput(text, [])
    ensures MergeOf(differ, base, text, base) == MergeOutput(text, [])
  {
  }

  /** A text that keeps its lines over a base that shows all of its own settles at once. */
  lemma SettledIs(base: SnapshotId, content: Text)
    requires Shows(base) && Faithful(Lines(content), EndsNl(Content(base)))
    ensures var text := Render(Lines(content), EndsNl(Content(base)));
      && Rewritten(base, content) == text && Rewritten(base, text) == text && Settled(base, content) == text
      && Lines(text) == Lines(content) && Renderable(text, EndsNl(Content(base)))
  {
    ReadingIsRendered(base);
    RenderedIs(Lines(content), EndsNl(Content(base)));
    assert Lines(content) + [] == Lines(content);
  }

  /** Nothing to merge: staged over the same file stays as it is. */
  lemma NothingMerged(differ: Differ, base: SnapshotId, staged: SnapshotId)
    requires Shows(base) && Readable(staged) && base.file == staged.file
    ensures MergeOf(differ, Reading(base), Reading(staged), Reading(base)).text == Reading(staged)
  {
    ReadingIsRendered(base);
    ReadingIsRendered(staged);
  }

  /** After any run, over a base that shows all its lines, for any text whose last line the
      file's ending does not hide: the agent is no longer pending, and staged reads as the
      three-way merge of base, staged and edit if and only if it did already, or the staged
      delta is new to the chain and the merge survives being written to staged. */
  lemma DeliveredIff(differ: Differ, run: seq<Action>, agent: AgentId, feature: string, base: SnapshotId,
                     staged: SnapshotId, path: string, content: Text)
    requires Ready(Run(differ, EMPTY, run).partitions, agent, feature, base, staged)
    requires Shows(base) && Faithful(Lines(content), EndsNl(Content(base)))
    ensures Readable(staged) && LinesOf(staged).Ok?
    ensures var w := Run(differ, EMPTY, run + Deliver(agent, feature, path, content));
      var text := Render(Lines(content), EndsNl(Content(base)));
      var merged := MergeOf(differ, Reading(base), Reading(staged), text);
      && !World.Pending(w, agent)
      && Staged in w.partitions && w.partitions[Staged].current in w.snapshots
      && (ReconstructText(w, w.snapshots[w.partitions[Staged].current]) == Ok(merged.text) <==>
          || merged.text == Reading(staged)
          || (&& DeltaId(NewFileNode(path, Reading(base)), DiffTexts(differ, Reading(staged), merged.text),
                         ManualSource) !in staged.deltas
              && Survives(staged, merged.text)))
      && (w.partitions[Staged].current.hasConflicts <==>
            if merged.text == Reading(staged) then staged.hasConflicts else merged.conflicts != [])
  {
    var text := Render(Lines(content), EndsNl(Content(base)));
    ReadyIs(differ, run, agent, base, staged);
    EditIsDelivered(differ, run, agent, feature, base, staged, path, content);
    SettledIs(base, content);
    SwallowedIff(base, content);
    AfterIs(differ, staged, NewFileNode(path, Reading(base)), ManualSource,
            MergeOf(differ, Reading(base), Reading(staged), text).text);
    if text == Reading(base) {
      NothingMerged(differ, base, staged);
    }
  }

  /** If staged moved by changes apart from the edit's, the merge reports no conflict and is
      the base with both sides' changes replayed, up to a lone newline. */
  lemma DisjointIsUnion(differ: Differ, base: Text, staged: Text, content: Text, u: seq<Change>)
    requires Clean(SideChanges(differ, base, staged), SideChanges(differ, base, content))
    requires IsUnion(SideChanges(differ, base, staged), SideChanges(differ, base, content), u)
    ensures Sorted(0, u, |Lines(base)|)
    ensures var merged := MergeOf(differ, base, staged, content);
      && merged.conflicts == []
      && (merged.text == Render(Replay(Lines(base), u), AnyNl(base, staged, content)) || merged.text == "\n")
  {
    CleanMergeIsUnion(differ, base, staged, content, u);
    MergeIsLoop(differ, base, staged, content);
    if staged == content || base == content || base == staged {
      EarlyReturnText(differ, base, staged, content);
    }
  }

  // ---- from an empty store ---------------------------------------------------

  function SetUp(file: string, text: Text, agent: AgentId): seq<Action> {
    [Init(file, text), JoinAgent(agent), OpenApproval(agent)]
  }

  lemma SetUpRows(differ: Differ, file: string, text: Text, agent: AgentId)
    ensures var run := SetUp(file, text, agent);
      var row := Partition(FirstHead(file, text), [FirstHead(file, text)]);
      RowStep(differ, RowStep(differ, RowStep(differ, map[], run[0]), run[1]), run[2])
      == map[Manual := row, Staged := row, Agent(agent) := row, Approval(agent) := row]
  {
    var run := SetUp(file, text, agent);
    var row := Partition(FirstHead(file, text), [FirstHead(file, text)]);
    assert RowStep(differ, map[], run[0]) == map[Manual := row, Staged := row];
  }

  lemma RowRunThree(differ: Differ, rows: Rows, run: seq<Action>)
    requires |run| == 3
    ensures RowRun(differ, rows, run) == RowStep(differ, RowStep(differ, RowStep(differ, rows, run[0]), run[1]), run[2])
  {
    var r1 := RowStep(differ, rows, run[0]);
    var r2 := RowStep(differ, r1, run[1]);
    var run1, run2 := run[1..], run[2..];
    assert run1[1..] == run2 && run2[1..] == [];
    assert RowRun(differ, r1, run1) == RowRun(differ, r2, run2);
    assert RowRun(differ, r2, run2) == RowRun(differ, RowStep(differ, r2, run[2]), []);
  }

  lemma SetUpRowRun(differ: Differ, file: string, text: Text, agent: AgentId)
    ensures var row := Partition(FirstHead(file, text), [FirstHead(file, text)]);
      RowRun(differ, map[], SetUp(file, text, agent))
      == map[Manual := row, Staged := row, Agent(agent) := row, Approval(agent) := row]
  {
    RowRunThree(differ, map[], SetUp(file, text, agent));
    SetUpRows(differ, file, text, agent);
  }

  lemma SetUpIs(differ: Differ, file: string, text: Text, agent: AgentId, feature: string)
    ensures Ready(Run(differ, EMPTY, SetUp(file, text, agent)).partitions, agent, feature,
                  FirstHead(file, text), FirstHead(file, text))
  {
    RowsFromEmpty(differ, SetUp(file, text, agent));
    SetUpRowRun(differ, file, text, agent);
  }

  /** From an empty store, over any file but a lone newline, the empty one included: the first
      edit, submitted, approved and staged, is what staged reads, with the file's own ending,
      without a conflict flag, and nothing stays pending. */
  lemma FirstEditIsDelivered(differ: Differ, file: string, text: Text, agent: AgentId, feature: string,
                             path: string, content: Text)
    requires text != "\n" && Faithful(Lines(content), EndsNl(text))
    ensures var w := Run(differ, EMPTY, SetUp(file, text, agent) + Deliver(agent, feature, path, content));
      && !World.Pending(w, agent)
      && Staged in w.partitions && w.partitions[Staged].current in w.snapshots
      && ReconstructText(w, w.snapshots[w.partitions[Staged].current]) == Ok(Render(Lines(content), EndsNl(text)))
      && !w.partitions[Staged].current.hasConflicts
  {
    var base := FirstHead(file, text);
    var written := Render(Lines(content), EndsNl(text));
    FirstHeadShows(file, text);
    SetUpIs(differ, file, text, agent, feature);
    DeliveredIff(differ, SetUp(file, text, agent), agent, feature, base, base, path, content);
    ReadingIsRendered(base);
    RenderedIs(Lines(content), EndsNl(text));
    EarlyMerge(differ, text, written, EndsNl(text));
    EmptyDiffIffSame(differ, text, written);
  }

  /** The case, over any unterminated file, the empty one that initialisation writes among
      them: the submission moves the approval, the approval loses the last newline again and
      finds nothing to merge, and the agent is listed as pending after it was approved. */
  lemma BlankTailStaysPending(differ: Differ, file: string, text: Text, agent: AgentId, feature: string, path: string)
    requires !EndsNl(text)
    ensures World.Pending(Run(differ, EMPTY, SetUp(file, text, agent) + Deliver(agent, feature, path, text + "\n\n")),
                          agent)
  {
    var base := FirstHead(file, text);
    SetUpIs(differ, file, text, agent, feature);
    FirstHeadShows(file, text);
    EditIsDelivered(differ, SetUp(file, text, agent), agent, feature, base, base, path, text + "\n\n");
  }
}
