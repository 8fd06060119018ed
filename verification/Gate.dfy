/** The approval gate as noninterference: an agent that is never approved might as well not
    have worked, as far as anyone else can tell. */
module Gate {
  import opened Diff
  import opened Objects
  import opened World
  import opened Pipeline
  import opened Heads

  /** The four things an agent does on its own account. */
  predicate OwnStep(agent: AgentId, a: Action) {
    (a.EditAgent? || a.SubmitAgent? || a.DiscardEdit? || a.RejectAgent?) && a.agent == agent
  }

  predicate Approves(agent: AgentId, a: Action) {
    a.ApproveAgent? && a.agent == agent
  }

  /** The run without the agent's own steps. */
  function Erase(agent: AgentId, run: seq<Action>): seq<Action> {
    if run == [] then []
    else if OwnStep(agent, run[0]) then Erase(agent, run[1..])
    else [run[0]] + Erase(agent, run[1..])
  }

  predicate Own(agent: AgentId, p: PartitionType) {
    p == Agent(agent) || p == Approval(agent)
  }

  predicate SameAt(r: Rows, s: Rows, p: PartitionType) {
    (p in r <==> p in s) && (p in r ==> r[p] == s[p])
  }

  /** The same partitions, apart from the agent's two. */
  ghost predicate Twins(agent: AgentId, r: Rows, s: Rows) {
    forall p {:trigger SameAt(r, s, p)} :: !Own(agent, p) ==> SameAt(r, s, p)
  }

  lemma OwnStepAlone(differ: Differ, agent: AgentId, r: Rows, s: Rows, a: Action)
    requires Twins(agent, r, s) && OwnStep(agent, a)
    ensures Twins(agent, RowStep(differ, r, a), s)
  {
    forall p | !Own(agent, p)
      ensures SameAt(RowStep(differ, r, a), s, p)
    {
      assert SameAt(r, s, p);
    }
  }

  lemma {:induction false} StageTwins(differ: Differ, agent: AgentId, r: Rows, s: Rows, features: seq<string>)
    requires Twins(agent, r, s)
    ensures Twins(agent, StageRows(differ, r, features), StageRows(differ, s, features))
    decreases |features|
  {
    if features != [] {
      assert SameAt(r, s, Integrated(features[0])) && SameAt(r, s, Staged);
      if Integrated(features[0]) in r && Staged in r {
        var r', s' := StageRow(differ, r, features[0]), StageRow(differ, s, features[0]);
        forall p | !Own(agent, p)
          ensures SameAt(r', s', p)
        {
          assert SameAt(r, s, p);
        }
        StageTwins(differ, agent, r', s', features[1..]);
      }
    }
  }

  lemma ApproveTwins(differ: Differ, agent: AgentId, r: Rows, s: Rows, other: AgentId, feature: string)
    requires Twins(agent, r, s) && other != agent
    ensures Twins(agent, ApproveRow(differ, r, other, feature), ApproveRow(differ, s, other, feature))
  {
    assert SameAt(r, s, Approval(other)) && SameAt(r, s, Integrated(feature));
    forall p | !Own(agent, p)
      ensures SameAt(ApproveRow(differ, r, other, feature), ApproveRow(differ, s, other, feature), p)
    {
      assert SameAt(r, s, p);
      ApproveSame(differ, r, s, other, feature, p);
    }
  }

  lemma ApproveSame(differ: Differ, r: Rows, s: Rows, agent: AgentId, feature: string, p: PartitionType)
    requires SameAt(r, s, p) && SameAt(r, s, Approval(agent)) && SameAt(r, s, Integrated(feature))
    ensures SameAt(ApproveRow(differ, r, agent, feature), ApproveRow(differ, s, agent, feature), p)
  {
    if Approval(agent) in r && r[Approval(agent)].history != [] {
      var first := r[Approval(agent)].history[0];
      ApproveIntoSame(differ, EnsureRow(r, Integrated(feature), first), EnsureRow(s, Integrated(feature), first),
                      agent, feature, p);
    }
  }

  lemma ApproveIntoSame(differ: Differ, r: Rows, s: Rows, agent: AgentId, feature: string, p: PartitionType)
    requires Approval(agent) in r && Approval(agent) in s && Integrated(feature) in r && Integrated(feature) in s
    requires SameAt(r, s, p) && SameAt(r, s, Approval(agent)) && SameAt(r, s, Integrated(feature))
    ensures SameAt(ApproveIntoRow(differ, r, agent, feature), ApproveIntoRow(differ, s, agent, feature), p)
  {
  }

  /** What others do reads only what others may see. */
  lemma OtherStepTwins(differ: Differ, agent: AgentId, r: Rows, s: Rows, a: Action)
    requires Twins(agent, r, s) && !OwnStep(agent, a) && !Approves(agent, a)
    ensures Twins(agent, RowStep(differ, r, a), RowStep(differ, s, a))
  {
    match a
    case StageFeatures(features) => StageTwins(differ, agent, r, s, features);
    case ApproveAgent(other, feature) => ApproveTwins(differ, agent, r, s, other, feature);
    case _ =>
      forall p | !Own(agent, p)
        ensures SameAt(RowStep(differ, r, a), RowStep(differ, s, a), p)
      {
        OtherStepAt(differ, agent, r, s, a, p);
      }
  }

  lemma SubmitSame(differ: Differ, r: Rows, s: Rows, agent: AgentId, p: PartitionType)
    requires SameAt(r, s, p) && SameAt(r, s, Agent(agent)) && SameAt(r, s, Approval(agent))
    ensures SameAt(SubmitRow(differ, r, agent), SubmitRow(differ, s, agent), p)
  {
  }

  lemma OtherStepAt(differ: Differ, agent: AgentId, r: Rows, s: Rows, a: Action, p: PartitionType)
    requires Twins(agent, r, s) && !OwnStep(agent, a) && !a.ApproveAgent? && !a.StageFeatures? && !Own(agent, p)
    ensures SameAt(RowStep(differ, r, a), RowStep(differ, s, a), p)
  {
    assert SameAt(r, s, p) && SameAt(r, s, Staged) && SameAt(r, s, Manual);
    match a
    case SubmitAgent(other) =>
      assert SameAt(r, s, Agent(other)) && SameAt(r, s, Approval(other));
      SubmitSame(differ, r, s, other, p);
    case EditAgent(other, _, _) => assert SameAt(r, s, Agent(other));
    case DiscardEdit(other) => assert SameAt(r, s, Agent(other));
    case RejectAgent(other) => assert SameAt(r, s, Approval(other));
    case _ =>
  }

  lemma {:induction false} RunTwins(differ: Differ, agent: AgentId, r: Rows, s: Rows, run: seq<Action>)
    requires Twins(agent, r, s)
    requires forall a :: a in run ==> !Approves(agent, a)
    ensures Twins(agent, RowRun(differ, r, run), RowRun(differ, s, Erase(agent, run)))
    decreases |run|
  {
    if run != [] {
      assert run[0] in run && forall a :: a in run[1..] ==> a in run;
      if OwnStep(agent, run[0]) {
        OwnStepAlone(differ, agent, r, s, run[0]);
        RunTwins(differ, agent, RowStep(differ, r, run[0]), s, run[1..]);
      } else {
        OtherStepTwins(differ, agent, r, s, run[0]);
        RunTwins(differ, agent, RowStep(differ, r, run[0]), RowStep(differ, s, run[0]), run[1..]);
        assert ([run[0]] + Erase(agent, run[1..]))[1..] == Erase(agent, run[1..]);
      }
    }
  }

  /** In any run in which the agent is never approved, erasing all its edits, submissions,
      discards and rejections leaves every other partition, with its pointer, its whole
      history and the text of every entry, exactly as it was. */
  lemma UnapprovedWorkIsInvisible(differ: Differ, agent: AgentId, run: seq<Action>, p: PartitionType)
    requires forall a :: a in run ==> !Approves(agent, a)
    requires !Own(agent, p)
    ensures var w, v := Run(differ, EMPTY, run), Run(differ, EMPTY, Erase(agent, run));
      && (p in w.partitions <==> p in v.partitions)
      && (p in w.partitions ==>
            && w.partitions[p] == v.partitions[p]
            && forall id :: id in w.partitions[p].history ==>
                 id in w.snapshots && id in v.snapshots
                 && ReconstructText(w, w.snapshots[id]) == ReconstructText(v, v.snapshots[id]))
  {
    var w, v := Run(differ, EMPTY, run), Run(differ, EMPTY, Erase(agent, run));
    RunGood(differ, EMPTY, run);
    RunGood(differ, EMPTY, Erase(agent, run));
    RowsAreEnough(differ, EMPTY, run);
    RowsAreEnough(differ, EMPTY, Erase(agent, run));
    RunTwins(differ, agent, map[], map[], run);
    assert SameAt(w.partitions, v.partitions, p);
    if p in w.partitions {
      forall id | id in w.partitions[p].history
        ensures id in w.snapshots && id in v.snapshots
        ensures ReconstructText(w, w.snapshots[id]) == ReconstructText(v, v.snapshots[id])
      {
        assert Sound(w, w.partitions[p]) && Sound(v, v.partitions[p]);
        SameRow(w, v, id);
      }
    }
  }
}
