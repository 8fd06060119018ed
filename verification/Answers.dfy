/** What the operations of the pipeline return: the identifier and the conflicts, and when they
    refuse (src/layered). */
module Answers {
  import opened Texts
  import opened Results
  import opened Diff
  import opened Changes
  import opened Merge
  import opened MergeLaws
  import opened Objects
  import opened World
  import opened Store
  import opened Pipeline
  import opened Heads

  /** The conflicts of merging two chains over a third. */
  function ConflictsOf(differ: Differ, base: SnapshotId, ours: SnapshotId, theirs: SnapshotId): seq<Conflict> {
    MergeOf(differ, Reading(base), Reading(ours), Reading(theirs)).conflicts
  }

  /** They are none if and only if no two changes at one line disagree. */
  lemma ConflictsOfIff(differ: Differ, base: SnapshotId, ours: SnapshotId, theirs: SnapshotId)
    ensures ConflictsOf(differ, base, ours, theirs) == [] <==>
      !SomeClash(SideChanges(differ, Reading(base), Reading(ours)), SideChanges(differ, Reading(base), Reading(theirs)))
    ensures ours == theirs ==> ConflictsOf(differ, base, ours, theirs) == []
  {
    MergeIsLoop(differ, Reading(base), Reading(ours), Reading(theirs));
    ConflictIffClash(differ, Reading(base), Reading(ours), Reading(theirs));
  }

  /** The answer names the pointer that is there afterwards, and gives these conflicts. */
  predicate Answers(o: Outcome<MergeResult>, p: PartitionType, conflicts: seq<Conflict>) {
    p in o.after.partitions && o.result == Ok(MergeResult(o.after.partitions[p].current, conflicts))
  }

  lemma RecordAnswers(differ: Differ, w: Tables, p: PartitionType, parents: seq<Snapshot>, file: FileNode,
                      before: Text, merged: MergeOutput, source: Source)
    requires |parents| > 0 && p in w.partitions && w.partitions[p].current == parents[0].id
    ensures Answers(Record(differ, w, p, parents, file, before, merged, source), p, merged.conflicts)
  {
  }

  // ---- edits --------------------------------------------------------------------------

  lemma EditAnswers(differ: Differ, w: Tables, p: PartitionType, source: Source, path: string, content: Text)
    requires Good(w)
    ensures var o := EditPartition(differ, w, p, source, path, content);
      if p in w.partitions then p in o.after.partitions && o.result == Ok(o.after.partitions[p].current)
      else o == Outcome(w, Err(NotFound))
  {
    if p in w.partitions {
      EditIs(differ, w, p, source, path, content);
    }
  }

  /** In every run an edit returns the pointer it leaves, and is refused exactly when the
      partition does not exist. */
  lemma EditReturns(differ: Differ, run: seq<Action>, p: PartitionType, source: Source, path: string, content: Text)
    ensures var w := Run(differ, EMPTY, run);
      var o := EditPartition(differ, w, p, source, path, content);
      if p in w.partitions then p in o.after.partitions && o.result == Ok(o.after.partitions[p].current)
      else o == Outcome(w, Err(NotFound))
  {
    GoodRun(differ, run);
    EditAnswers(differ, Run(differ, EMPTY, run), p, source, path, content);
  }

  lemma GoodRun(differ: Differ, run: seq<Action>)
    ensures Good(Run(differ, EMPTY, run))
  {
    assert Good(EMPTY);
    RunGood(differ, EMPTY, run);
  }

  // ---- submissions and rejections -------------------------------------------------------

  lemma SubmitAnswers(differ: Differ, w: Tables, agent: AgentId)
    requires Good(w) && Agent(agent) in w.partitions && Approval(agent) in w.partitions
    ensures var from, to := w.partitions[Agent(agent)], w.partitions[Approval(agent)];
      && to.history != []
      && Answers(Submit(differ, w, agent), Approval(agent),
                 ConflictsOf(differ, to.history[0], to.current, from.current))
  {
    var from, to := w.partitions[Agent(agent)], w.partitions[Approval(agent)];
    SoundRow(w, Approval(agent));
    if from.current == to.current {
      ConflictsOfIff(differ, to.history[0], to.current, from.current);
    } else {
      SubmitIs(differ, w, agent);
      RowIs(w, to.current);
      RecordAnswers(differ, w, Approval(agent), [w.snapshots[to.current], w.snapshots[from.current]],
                    MergeFile(w, w.snapshots[from.current], w.snapshots[from.current]), Read(to.current),
                    MergeIds(differ, to.history[0], to.current, from.current), AgentSource(agent));
    }
  }

  /** In every run a submission returns where the approval then stands, with the conflicts of
      merging the agent's text into the approval's over the approval's first text; it is refused
      exactly when one of the two partitions does not exist. */
  lemma SubmissionReturns(differ: Differ, run: seq<Action>, agent: AgentId)
    ensures var w := Run(differ, EMPTY, run);
      var o := Submit(differ, w, agent);
      if Agent(agent) !in w.partitions || Approval(agent) !in w.partitions then o == Outcome(w, Err(NotFound))
      else
        var from, to := w.partitions[Agent(agent)], w.partitions[Approval(agent)];
        to.history != []
        && Answers(o, Approval(agent), ConflictsOf(differ, to.history[0], to.current, from.current))
  {
    GoodRun(differ, run);
    var w := Run(differ, EMPTY, run);
    if Agent(agent) in w.partitions && Approval(agent) in w.partitions {
      SubmitAnswers(differ, w, agent);
    }
  }

  /** In every run a rejection puts the approval back to its first entry, returns that entry and
      touches nothing else; it is refused exactly when there is no such approval. */
  lemma RejectionReturns(differ: Differ, run: seq<Action>, agent: AgentId)
    ensures var w, p := Run(differ, EMPTY, run), Approval(agent);
      if p !in w.partitions then Reject(w, agent) == Outcome(w, Err(NotFound))
      else
        w.partitions[p].history != []
        && var first := w.partitions[p].history[0];
        && first in w.snapshots
        && Reject(w, agent) == Outcome(w.(partitions := w.partitions[p := Partition(first, [first])]), Ok(first))
  {
    GoodRun(differ, run);
    if Approval(agent) in Run(differ, EMPTY, run).partitions {
      SoundRow(Run(differ, EMPTY, run), Approval(agent));
    }
  }

  // ---- approvals ------------------------------------------------------------------------

  /** The feature's row an approval merges into: the one there is, or a new one on the
      approval's own first entry. */
  function Target(w: Tables, agent: AgentId, feature: string): Partition
    requires Approval(agent) in w.partitions && w.partitions[Approval(agent)].history != []
  {
    if Integrated(feature) in w.partitions then w.partitions[Integrated(feature)]
    else
      var first := w.partitions[Approval(agent)].history[0];
      Partition(first, [first])
  }

  lemma ApproveIntoAnswers(differ: Differ, w: Tables, agent: AgentId, feature: string)
    requires Good(w) && Approval(agent) in w.partitions && Integrated(feature) in w.partitions
    requires w.partitions[Approval(agent)].current in w.snapshots
    ensures var from, into := w.partitions[Approval(agent)], w.partitions[Integrated(feature)];
      && into.history != []
      && Answers(ApproveInto(differ, w, agent, feature), Integrated(feature),
                 ConflictsOf(differ, into.history[0], from.current, into.current))
  {
    var from, into := w.partitions[Approval(agent)], w.partitions[Integrated(feature)];
    SoundRow(w, Integrated(feature));
    if from.current == into.current {
      ConflictsOfIff(differ, into.history[0], from.current, into.current);
    } else {
      ApproveIntoIs(differ, w, agent, feature);
      RowIs(w, into.current);
      var base, incoming, target := w.snapshots[into.history[0]], w.snapshots[from.current], w.snapshots[into.current];
      ApproveRecordAnswers(differ, w, agent, feature, [target, incoming, base], MergeFile(w, incoming, target),
                           Read(into.current), MergeIds(differ, into.history[0], from.current, into.current));
    }
  }

  lemma ApproveRecordAnswers(differ: Differ, w: Tables, agent: AgentId, feature: string, parents: seq<Snapshot>,
                             file: FileNode, before: Text, merged: MergeOutput)
    requires |parents| > 0 && Integrated(feature) in w.partitions
    requires w.partitions[Integrated(feature)].current == parents[0].id
    ensures Answers(ApproveRecord(differ, w, agent, feature, parents, file, before, merged), Integrated(feature),
                    merged.conflicts)
  {
    RecordAnswers(differ, w, Integrated(feature), parents, file, before, merged, AgentSource(agent));
    RejectLeaves(Record(differ, w, Integrated(feature), parents, file, before, merged, AgentSource(agent)).after,
                 agent, Integrated(feature));
  }

  lemma RejectLeaves(w: Tables, agent: AgentId, p: PartitionType)
    requires p in w.partitions && p != Approval(agent)
    ensures p in Reject(w, agent).after.partitions && Reject(w, agent).after.partitions[p] == w.partitions[p]
  {
  }

  /** In every run an approval returns where the feature then stands, with the conflicts of the
      three-way merge of the approval's and the feature's texts over the feature's first text;
      so it returns none if and only if no two changes of the two sides clash. It is refused
      exactly when there is no such approval. */
  lemma ApprovalReturns(differ: Differ, run: seq<Action>, agent: AgentId, feature: string)
    ensures var w := Run(differ, EMPTY, run);
      var o := Approve(differ, w, agent, feature);
      if Approval(agent) !in w.partitions then o == Outcome(w, Err(NotFound))
      else
        w.partitions[Approval(agent)].history != []
        && var from, into := w.partitions[Approval(agent)].current, Target(w, agent, feature);
        && into.history != []
        && Answers(o, Integrated(feature), ConflictsOf(differ, into.history[0], from, into.current))
        && (o.result.value.conflicts == [] <==>
              !SomeClash(SideChanges(differ, Reading(into.history[0]), Reading(from)),
                         SideChanges(differ, Reading(into.history[0]), Reading(into.current))))
  {
    GoodRun(differ, run);
    var w := Run(differ, EMPTY, run);
    if Approval(agent) in w.partitions {
      ApproveIs(differ, w, agent, feature);
      var from, into := w.partitions[Approval(agent)], Target(w, agent, feature);
      ApproveIntoAnswers(differ, EnsurePartition(w, Integrated(feature), from.history[0]), agent, feature);
      ConflictsOfIff(differ, into.history[0], from.current, into.current);
    }
  }

  // ---- staging ----------------------------------------------------------------------------

  lemma FeatureAnswers(differ: Differ, w: Tables, feature: string)
    requires Good(w)
    ensures var o := MergeFeature(differ, w, feature);
      if Integrated(feature) !in w.partitions || Staged !in w.partitions then o == Outcome(w, Err(NotFound))
      else
        var from, to := w.partitions[Integrated(feature)], w.partitions[Staged];
        from.history != []
        && Answers(o, Staged, ConflictsOf(differ, from.history[0], to.current, from.current))
  {
    if Integrated(feature) in w.partitions {
      SoundRow(w, Integrated(feature));
      if Staged in w.partitions {
        FeatureMerges(differ, w, feature);
      }
    }
  }

  lemma FeatureMerges(differ: Differ, w: Tables, feature: string)
    requires Good(w) && Integrated(feature) in w.partitions && Staged in w.partitions
    ensures var from, to := w.partitions[Integrated(feature)], w.partitions[Staged];
      && from.history != []
      && Answers(MergeFeature(differ, w, feature), Staged,
                 ConflictsOf(differ, from.history[0], to.current, from.current))
  {
    var from, to := w.partitions[Integrated(feature)], w.partitions[Staged];
    SoundRow(w, Integrated(feature));
    if from.current == to.current {
      ConflictsOfIff(differ, from.history[0], to.current, from.current);
    } else {
      MergeFeatureIs(differ, w, feature);
      RowIs(w, to.current);
      RecordAnswers(differ, w, Staged, [w.snapshots[to.current], w.snapshots[from.current]],
                    MergeFile(w, w.snapshots[from.current], w.snapshots[to.current]), Read(to.current),
                    MergeIds(differ, from.history[0], to.current, from.current), ManualSource);
    }
  }

  /** In every run the manual text is staged with the conflicts of its merge over the staged text
      itself: none. */
  lemma ManualReturns(differ: Differ, run: seq<Action>)
    ensures var w := Run(differ, EMPTY, run);
      if Manual !in w.partitions || Staged !in w.partitions then MergeManual(differ, w) == Outcome(w, Err(NotFound))
      else Answers(MergeManual(differ, w), Staged, [])
  {
    GoodRun(differ, run);
    var w := Run(differ, EMPTY, run);
    if Manual in w.partitions && Staged in w.partitions {
      var from, to := w.partitions[Manual].current, w.partitions[Staged].current;
      if from != to {
        MergeManualIs(differ, w);
        RowIs(w, to);
        RecordAnswers(differ, w, Staged, [w.snapshots[to], w.snapshots[from]],
                      MergeFile(w, w.snapshots[from], w.snapshots[to]), Read(to), MergeIds(differ, to, to, from),
                      ManualSource);
      }
    }
  }

  /** Staging features in two goes is staging them in one: the conflicts add up in order, and the
      second go's answer or refusal is the answer. */
  lemma {:induction false} FeaturesInTwoGoes(differ: Differ, w: Tables, a: seq<string>, b: seq<string>)
    requires a != [] && b != []
    ensures var first := MergeFeatures(differ, w, a);
      MergeFeatures(differ, w, a + b) ==
        match first.result
        case Err(_) => first
        case Ok(m) => AfterEarlier(m.conflicts, MergeFeatures(differ, first.after, b))
    decreases |a|
  {
    var r := MergeFeature(differ, w, a[0]);
    assert (a + b)[1..] == a[1..] + b;
    if |a| == 1 {
      assert a[1..] + b == b;
    } else if r.result.Ok? {
      FeaturesInTwoGoes(differ, r.after, a[1..], b);
      var mid := MergeFeatures(differ, r.after, a[1..]);
      if mid.result.Ok? {
        AfterEarlierTwice(r.result.value.conflicts, mid.result.value.conflicts, MergeFeatures(differ, mid.after, b));
      }
    }
  }

  /** One feature alone. */
  lemma FeaturesOfOne(differ: Differ, w: Tables, feature: string)
    ensures MergeFeatures(differ, w, [feature]) == MergeFeature(differ, w, feature)
  {
  }

  ghost predicate CanStage(there: set<PartitionType>, features: seq<string>) {
    Staged in there && forall f :: f in features ==> Integrated(f) in there
  }

  predicate StagingAnswer(o: Outcome<MergeResult>, can: bool) {
    if can then o.result.Ok? && Staged in o.after.partitions
                && o.result.value.snapshotId == o.after.partitions[Staged].current
    else o.result == Err(NotFound)
  }

  /** In every run the staging of features returns where staged then stands; it is refused as a
      request when no feature is named, and otherwise exactly when staged or a feature named does
      not exist. */
  lemma StagingReturns(differ: Differ, run: seq<Action>, features: seq<string>)
    ensures var w := Run(differ, EMPTY, run);
      var o := MergeFeatures(differ, w, features);
      if features == [] then o == Outcome(w, Err(General))
      else StagingAnswer(o, CanStage(w.partitions.Keys, features))
  {
    GoodRun(differ, run);
    if features != [] {
      FeaturesAnswer(differ, Run(differ, EMPTY, run), features);
    }
  }

  lemma {:induction false} FeaturesAnswer(differ: Differ, w: Tables, features: seq<string>)
    requires Good(w) && features != []
    ensures StagingAnswer(MergeFeatures(differ, w, features), CanStage(w.partitions.Keys, features))
    decreases |features|
  {
    var r := MergeFeature(differ, w, features[0]);
    FeatureAnswers(differ, w, features[0]);
    assert features == [features[0]] + features[1..];
    if r.result.Ok? && |features| > 1 {
      FeatureKeepsPartitions(differ, w, features[0]);
      assert Good(r.after) by {
        MergeFeatureGood(differ, w, features[0]);
      }
      FeaturesAnswer(differ, r.after, features[1..]);
      FeaturesOfMore(differ, w, features);
    } else {
      FeaturesEnd(differ, w, features);
    }
  }

  lemma FeaturesOfMore(differ: Differ, w: Tables, features: seq<string>)
    requires |features| > 1 && MergeFeature(differ, w, features[0]).result.Ok?
    ensures var r := MergeFeature(differ, w, features[0]);
      MergeFeatures(differ, w, features)
      == AfterEarlier(r.result.value.conflicts, MergeFeatures(differ, r.after, features[1..]))
  {
  }

  lemma FeaturesEnd(differ: Differ, w: Tables, features: seq<string>)
    requires features != [] && (|features| == 1 || MergeFeature(differ, w, features[0]).result.Err?)
    ensures MergeFeatures(differ, w, features) == MergeFeature(differ, w, features[0])
  {
  }

  lemma FeatureKeepsPartitions(differ: Differ, w: Tables, feature: string)
    requires Good(w)
    ensures MergeFeature(differ, w, feature).after.partitions.Keys == w.partitions.Keys
  {
    StageRowIs(differ, w, feature);
  }

  // ---- new partitions -----------------------------------------------------------------------

  predicate Opens(a: Action, p: PartitionType) {
    || (a.JoinAgent? && p == Agent(a.agent))
    || (a.OpenApproval? && p == Approval(a.agent))
    || (a.CreateFeature? && p == Integrated(a.feature))
  }

  /** In every run a new agent, approval or feature starts where staged stands, with that one
      entry; a partition that is there stays, and so does everything else. */
  lemma StartsAtStaged(differ: Differ, run: seq<Action>, a: Action, p: PartitionType)
    requires Opens(a, p)
    ensures var w := Run(differ, EMPTY, run);
      Run(differ, EMPTY, run + [a]) ==
        if p in w.partitions || Staged !in w.partitions then w
        else
          var head := w.partitions[Staged].current;
          w.(partitions := w.partitions[p := Partition(head, [head])])
  {
    RunSnoc(differ, EMPTY, run, a);
  }
}
