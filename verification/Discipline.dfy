/** Which partitions a step may write, what counts as pending, and who writes to staged. */
module Discipline {
  import opened Diff
  import opened Objects
  import opened World
  import opened Pipeline
  import opened Heads
  import opened Gate

  // ---- frames ------------------------------------------------------------

  /** The partitions a step may create or change. */
  function Writes(a: Action): set<PartitionType> {
    match a
    case Init(_, _) => {Manual, Staged}
    case JoinAgent(agent) => {Agent(agent)}
    case OpenApproval(agent) => {Approval(agent)}
    case CreateFeature(feature) => {Integrated(feature)}
    case EditManual(_, _) => {Manual}
    case EditAgent(agent, _, _) => {Agent(agent)}
    case SubmitAgent(agent) => {Approval(agent)}
    case DiscardEdit(agent) => {Agent(agent)}
    case RejectAgent(agent) => {Approval(agent)}
    case ApproveAgent(agent, feature) => {Approval(agent), Integrated(feature)}
    case StageFeatures(_) => {Staged}
    case StageManual => {Staged}
  }

  lemma {:induction false} StageFrame(differ: Differ, rows: Rows, features: seq<string>, q: PartitionType)
    requires q != Staged
    ensures SameAt(rows, StageRows(differ, rows, features), q)
    decreases |features|
  {
    if features != [] && Integrated(features[0]) in rows && Staged in rows {
      StageFrame(differ, StageRow(differ, rows, features[0]), features[1..], q);
    }
  }

  lemma RowFrame(differ: Differ, rows: Rows, a: Action, q: PartitionType)
    requires q !in Writes(a)
    ensures SameAt(rows, RowStep(differ, rows, a), q)
  {
    if a.StageFeatures? {
      StageFrame(differ, rows, a.features, q);
    }
  }

  /** No step writes a partition outside its own layer and instance. */
  lemma StepFrame(differ: Differ, w: Tables, a: Action, q: PartitionType)
    requires Good(w) && q !in Writes(a)
    ensures SameAt(w.partitions, Step(differ, w, a).partitions, q)
  {
    RowStepIs(differ, w, a);
    RowFrame(differ, w.partitions, a, q);
  }

  // ---- pending -----------------------------------------------------------

  predicate PendingRow(rows: Rows, agent: AgentId) {
    Approval(agent) in rows && |rows[Approval(agent)].history| > 1
  }

  function HistoryLength(rows: Rows, p: PartitionType): nat {
    if p in rows then |rows[p].history| else 1
  }

  /** A step that moved the pointer of `p` (creating it is not moving it). */
  predicate Advances(differ: Differ, rows: Rows, a: Action, p: PartitionType) {
    HistoryLength(RowStep(differ, rows, a), p) > HistoryLength(rows, p)
  }

  /** Submitted and not dealt with since, read off the run alone: set by a submission that
      moves the approval's pointer, cleared by a rejection and by an approval that moves
      the feature's pointer. */
  predicate Open(differ: Differ, rows: Rows, run: seq<Action>, agent: AgentId, flag: bool)
    decreases |run|
  {
    if run == [] then flag
    else
      var a := run[0];
      var next :=
        if a.SubmitAgent? && a.agent == agent then flag || Advances(differ, rows, a, Approval(agent))
        else if a.RejectAgent? && a.agent == agent then false
        else if a.ApproveAgent? && a.agent == agent then flag && !Advances(differ, rows, a, Integrated(a.feature))
        else flag;
      Open(differ, RowStep(differ, rows, a), run[1..], agent, next)
  }

  lemma PendingStep(differ: Differ, rows: Rows, a: Action, agent: AgentId)
    ensures var rows' := RowStep(differ, rows, a);
      PendingRow(rows', agent) <==>
        if a.SubmitAgent? && a.agent == agent then PendingRow(rows, agent) || Advances(differ, rows, a, Approval(agent))
        else if a.RejectAgent? && a.agent == agent then false
        else if a.ApproveAgent? && a.agent == agent
             then PendingRow(rows, agent) && !Advances(differ, rows, a, Integrated(a.feature))
        else PendingRow(rows, agent)
  {
    if Approval(agent) !in Writes(a) {
      RowFrame(differ, rows, a, Approval(agent));
    }
  }

  lemma {:induction false} PendingRun(differ: Differ, rows: Rows, run: seq<Action>, agent: AgentId)
    ensures PendingRow(RowRun(differ, rows, run), agent) <==> Open(differ, rows, run, agent, PendingRow(rows, agent))
    decreases |run|
  {
    if run != [] {
      PendingStep(differ, rows, run[0], agent);
      PendingRun(differ, RowStep(differ, rows, run[0]), run[1..], agent);
    }
  }

  /** After any run an approval is listed as pending exactly when the agent's last
      pointer-moving submission has been followed by no rejection and no approval that
      moved the feature. */
  lemma PendingIffOpen(differ: Differ, run: seq<Action>, agent: AgentId)
    ensures Pending(Run(differ, EMPTY, run), agent) <==> Open(differ, map[], run, agent, false)
  {
    assert Good(EMPTY);
    RowsAreEnough(differ, EMPTY, run);
    PendingRun(differ, map[], run, agent);
  }

  // ---- staged ------------------------------------------------------------

  /** The chain of `first`, continued by deltas no agent is the source of. */
  predicate ByHand(first: SnapshotId, id: SnapshotId) {
    && first.deltas <= id.deltas
    && forall d :: d in id.deltas[|first.deltas|..] ==> !d.source.AgentSource?
  }

  /** The staged row points to its last entry, and its whole history is by hand. */
  ghost predicate StagedByHand(rows: Rows) {
    Staged in rows ==>
      var row := rows[Staged];
      && row.history != [] && row.history[|row.history| - 1] == row.current
      && forall id :: id in row.history ==> ByHand(row.history[0], id)
  }

  lemma MoveByHand(differ: Differ, rows: Rows, base: SnapshotId, src: SnapshotId)
    requires StagedByHand(rows) && Staged in rows
    ensures StagedByHand(MoveTo(rows, Staged, StageHead(differ, base, rows[Staged].current, src)))
  {
    var row := rows[Staged];
    var head := StageHead(differ, base, row.current, src);
    if head != row.current {
      var d := head.deltas[|row.current.deltas|];
      assert head.deltas == row.current.deltas + [d] && d.source == ManualSource;
      assert row.current in row.history && ByHand(row.history[0], row.current);
      var n := |row.history[0].deltas|;
      assert head.deltas[n..] == row.current.deltas[n..] + [d];
    }
  }

  lemma {:induction false} StageByHand(differ: Differ, rows: Rows, features: seq<string>)
    requires StagedByHand(rows)
    ensures StagedByHand(StageRows(differ, rows, features))
    decreases |features|
  {
    if features != [] && Integrated(features[0]) in rows && Staged in rows {
      var from := rows[Integrated(features[0])];
      if from.history != [] {
        MoveByHand(differ, rows, from.history[0], from.current);
      }
      StageByHand(differ, StageRow(differ, rows, features[0]), features[1..]);
    }
  }

  lemma ManualByHand(differ: Differ, rows: Rows)
    requires StagedByHand(rows)
    ensures StagedByHand(ManualRow(differ, rows))
  {
    if Manual in rows && Staged in rows {
      MoveByHand(differ, rows, rows[Staged].current, rows[Manual].current);
    }
  }

  lemma StepByHand(differ: Differ, rows: Rows, a: Action)
    requires StagedByHand(rows)
    ensures StagedByHand(RowStep(differ, rows, a))
  {
    if a.StageFeatures? {
      StageByHand(differ, rows, a.features);
    } else if a.StageManual? {
      ManualByHand(differ, rows);
    } else if !a.Init? {
      RowFrame(differ, rows, a, Staged);
    }
  }

  lemma {:induction false} RunByHand(differ: Differ, rows: Rows, run: seq<Action>)
    requires StagedByHand(rows)
    ensures StagedByHand(RowRun(differ, rows, run))
    decreases |run|
  {
    if run != [] {
      StepByHand(differ, rows, run[0]);
      RunByHand(differ, RowStep(differ, rows, run[0]), run[1..]);
    }
  }

  /** Agents never write to staged: in any run every delta that any staged snapshot holds
      beyond the staged baseline has a source other than an agent. */
  lemma StagedIsNeverWrittenByAgents(differ: Differ, run: seq<Action>, id: SnapshotId)
    requires Staged in Run(differ, EMPTY, run).partitions
    requires id in Run(differ, EMPTY, run).partitions[Staged].history
    ensures ByHand(Run(differ, EMPTY, run).partitions[Staged].history[0], id)
  {
    assert Good(EMPTY);
    RowsAreEnough(differ, EMPTY, run);
    RunByHand(differ, map[], run);
  }

  // ---- baselines ---------------------------------------------------------

  /** No delta of the chain has an agent for its source. */
  predicate Unowned(id: SnapshotId) {
    forall d :: d in id.deltas ==> !d.source.AgentSource?
  }

  /** Approvals, features and staged: what is merged in the end. */
  predicate IsTarget(p: PartitionType) {
    p.Approval? || p.Integrated? || p.Staged?
  }

  /** The partition started from an unowned chain, and is over the file. */
  predicate StartedAt(row: Partition, file: FileNode) {
    row.history != [] && Unowned(row.history[0]) && row.history[0].file == file && row.current.file == file
  }

  /** All merged partitions are over the file of staged and started from unowned chains, and
      staged itself still is unowned. */
  ghost predicate Based(rows: Rows) {
    && (Staged in rows ==> Unowned(rows[Staged].current))
    && (forall p {:trigger IsTarget(p)} :: IsTarget(p) && p in rows ==>
          Staged in rows && StartedAt(rows[p], rows[Staged].current.file))
  }

  lemma MoveBased(rows: Rows, p: PartitionType, head: SnapshotId)
    requires Based(rows) && IsTarget(p) && p in rows && head.file == rows[p].current.file
    requires p.Staged? ==> Unowned(head)
    ensures Based(MoveTo(rows, p, head))
  {
    var next := MoveTo(rows, p, head);
    assert IsTarget(Staged);
    forall q | IsTarget(q) && q in next
      ensures Staged in next && StartedAt(next[q], next[Staged].current.file)
    {
    }
  }

  lemma EnsureBased(rows: Rows, p: PartitionType, head: SnapshotId)
    requires Based(rows) && Unowned(head) && !p.Staged?
    requires IsTarget(p) ==> Staged in rows && head.file == rows[Staged].current.file
    ensures Based(EnsureRow(rows, p, head))
  {
  }

  lemma StageHeadIs(differ: Differ, base: SnapshotId, dst: SnapshotId, src: SnapshotId)
    requires Unowned(dst)
    ensures StageHead(differ, base, dst, src).file == dst.file && Unowned(StageHead(differ, base, dst, src))
  {
    var head := StageHead(differ, base, dst, src);
    if head != dst {
      var d := head.deltas[|dst.deltas|];
      assert head.deltas == dst.deltas + [d] && d.source == ManualSource;
    }
  }

  lemma {:induction false} StageBased(differ: Differ, rows: Rows, features: seq<string>)
    requires Based(rows)
    ensures Based(StageRows(differ, rows, features))
    decreases |features|
  {
    if features != [] && Integrated(features[0]) in rows && Staged in rows {
      var from := rows[Integrated(features[0])];
      if from.history != [] {
        StageHeadIs(differ, from.history[0], rows[Staged].current, from.current);
        assert IsTarget(Staged);
        MoveBased(rows, Staged, StageHead(differ, from.history[0], rows[Staged].current, from.current));
      }
      StageBased(differ, StageRow(differ, rows, features[0]), features[1..]);
    }
  }

  lemma ManualBased(differ: Differ, rows: Rows)
    requires Based(rows)
    ensures Based(ManualRow(differ, rows))
  {
    if Manual in rows && Staged in rows {
      StageHeadIs(differ, rows[Staged].current, rows[Staged].current, rows[Manual].current);
      assert IsTarget(Staged);
      MoveBased(rows, Staged, StageHead(differ, rows[Staged].current, rows[Staged].current, rows[Manual].current));
    }
  }

  lemma SubmitBased(differ: Differ, rows: Rows, agent: AgentId)
    requires Based(rows)
    ensures Based(SubmitRow(differ, rows, agent))
  {
    var p := Approval(agent);
    if Agent(agent) in rows && p in rows && rows[p].history != [] {
      assert IsTarget(p);
      MoveBased(rows, p, SubmitHead(differ, agent, rows[p].history[0], rows[p].current, rows[Agent(agent)].current));
    }
  }

  lemma RejectBased(rows: Rows, agent: AgentId)
    requires Based(rows)
    ensures Based(RejectRow(rows, agent))
  {
    assert IsTarget(Approval(agent)) && IsTarget(Staged);
    var next := RejectRow(rows, agent);
    forall q | IsTarget(q) && q in next
      ensures Staged in next && StartedAt(next[q], next[Staged].current.file)
    {
    }
  }

  lemma ApproveBased(differ: Differ, rows: Rows, agent: AgentId, feature: string)
    requires Based(rows)
    ensures Based(ApproveRow(differ, rows, agent, feature))
  {
    var p, q := Approval(agent), Integrated(feature);
    assert IsTarget(p);
    if p in rows && rows[p].history != [] {
      EnsureBased(rows, q, rows[p].history[0]);
      ApproveIntoBased(differ, EnsureRow(rows, q, rows[p].history[0]), agent, feature);
    }
  }

  lemma ApproveIntoBased(differ: Differ, rows: Rows, agent: AgentId, feature: string)
    requires Based(rows) && Approval(agent) in rows && Integrated(feature) in rows
    ensures Based(ApproveIntoRow(differ, rows, agent, feature))
  {
    var q := Integrated(feature);
    assert IsTarget(q);
    if rows[q].history != [] {
      var head := ApproveHead(differ, agent, feature, rows[q].history[0], rows[Approval(agent)].current,
                              rows[q].current);
      MoveBased(rows, q, head);
      RejectBased(MoveTo(rows, q, head), agent);
    }
  }

  lemma InitBased(rows: Rows, head: SnapshotId)
    requires Based(rows) && Unowned(head)
    ensures Based(EnsureRow(EnsureRow(rows, Manual, head), Staged, head))
  {
  }

  lemma StepBased(differ: Differ, rows: Rows, a: Action)
    requires Based(rows)
    ensures Based(RowStep(differ, rows, a))
  {
    match a
    case Init(path, content) => InitBased(rows, FirstHead(path, content));
    case JoinAgent(agent) => FromStagedBased(rows, Agent(agent));
    case OpenApproval(agent) => FromStagedBased(rows, Approval(agent));
    case CreateFeature(feature) => FromStagedBased(rows, Integrated(feature));
    case SubmitAgent(agent) => SubmitBased(differ, rows, agent);
    case RejectAgent(agent) => RejectBased(rows, agent);
    case ApproveAgent(agent, feature) => ApproveBased(differ, rows, agent, feature);
    case StageFeatures(features) => StageBased(differ, rows, features);
    case StageManual => ManualBased(differ, rows);
    case _ =>
  }

  lemma FromStagedBased(rows: Rows, p: PartitionType)
    requires Based(rows) && !p.Staged?
    ensures Based(EnsureFromStaged(rows, p))
  {
    if Staged in rows {
      EnsureBased(rows, p, rows[Staged].current);
    }
  }

  lemma {:induction false} RunBased(differ: Differ, rows: Rows, run: seq<Action>)
    requires Based(rows)
    ensures Based(RowRun(differ, rows, run))
    decreases |run|
  {
    if run != [] {
      StepBased(differ, rows, run[0]);
      RunBased(differ, RowStep(differ, rows, run[0]), run[1..]);
    }
  }

  /** After any run: approvals and features started from chains without an agent's delta, and
      they and staged are all over one file. Staged itself holds no agent's delta. */
  lemma BaselinesAreUnowned(differ: Differ, run: seq<Action>, p: PartitionType)
    requires (p.Approval? || p.Integrated? || p.Staged?) && p in Run(differ, EMPTY, run).partitions
    ensures var rows := Run(differ, EMPTY, run).partitions;
      && Staged in rows && Unowned(rows[Staged].current)
      && rows[p].history != [] && Unowned(rows[p].history[0])
      && rows[p].history[0].file == rows[p].current.file == rows[Staged].current.file
  {
    RowsFromEmpty(differ, run);
    RunBased(differ, map[], run);
    assert IsTarget(p);
  }
}
