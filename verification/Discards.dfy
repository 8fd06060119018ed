/** Discarding an agent's edit (`discard_agent_edit`, src/layered/agent.rs): when it is refused
    and what it takes back. */
module Discards {
  import opened Texts
  import opened Results
  import opened Diff
  import opened Objects
  import opened World
  import opened Pipeline
  import opened Heads
  import opened Provenance

  /** A stored snapshot with parents is its first parent and one delta; one without holds a
      single delta. */
  lemma ChainOfParent(differ: Differ, run: seq<Action>, id: SnapshotId)
    requires id in Run(differ, EMPTY, run).snapshots
    ensures id.parents == [] <==> |id.deltas| == 1
    ensures id.parents != [] ==>
      && id.parents[0] in Run(differ, EMPTY, run).snapshots && id.file == id.parents[0].file
      && id.deltas != [] && id.parents[0].deltas == id.deltas[..|id.deltas| - 1]
  {
    EverySnapshotTells(differ, run, id);
    if id.parents != [] {
      RunGood(differ, EMPTY, run);
      assert Complete(Run(differ, EMPTY, run), id.parents[0]);
      ToldDelta(differ, id);
    }
  }

  lemma ToldDelta(differ: Differ, id: SnapshotId)
    requires Told(differ, id) && id.parents != []
    ensures id.file == id.parents[0].file && |id.deltas| > 0
    ensures id.parents[0].deltas == id.deltas[..|id.deltas| - 1]
  {
  }

  /** The pointer moves and nothing else does. */
  function Moved(w: Tables, p: PartitionType, head: SnapshotId): Tables
    requires p in w.partitions
  {
    w.(partitions := w.partitions[p := Partition(head, w.partitions[p].history + [head])])
  }

  /** In every run a discard is refused exactly when there is no such agent, or when nothing was
      written over the file the agent's chain starts from. Otherwise the agent's pointer goes to
      the chain without its last delta, as one more history entry, and nothing else changes. */
  lemma DiscardIff(differ: Differ, run: seq<Action>, agent: AgentId)
    ensures var w, p := Run(differ, EMPTY, run), Agent(agent);
      if p !in w.partitions then Discard(w, agent) == Outcome(w, Err(NotFound))
      else
        var head := w.partitions[p].current;
        if |head.deltas| == 1 then Discard(w, agent) == Outcome(w, Err(StateMachine))
        else exists back :: DiscardedTo(w, p, head, back) && Discard(w, agent) == Outcome(Moved(w, p, back), Ok(()))
  {
    var w, p := Run(differ, EMPTY, run), Agent(agent);
    assert Good(EMPTY);
    RunGood(differ, EMPTY, run);
    if p in w.partitions {
      var head := w.partitions[p].current;
      SoundRow(w, p);
      RowIs(w, head);
      ChainOfParent(differ, run, head);
      if |head.deltas| != 1 {
        assert DiscardedTo(w, p, head, head.parents[0]);
      }
    }
  }

  /** `back` is stored and is the chain of `head` without its last delta. */
  ghost predicate DiscardedTo(w: Tables, p: PartitionType, head: SnapshotId, back: SnapshotId) {
    && p in w.partitions && back in w.snapshots && back in head.parents && back.file == head.file
    && |head.deltas| > 1 && back.deltas == head.deltas[..|head.deltas| - 1]
  }

  /** In every run: if an edit changes what the agent reads, then discarding it succeeds and puts
      the agent back where it was, with the edit and the way back on record; the agent reads as
      before and everyone else's partition is untouched. */
  lemma DiscardUndoesEdit(differ: Differ, run: seq<Action>, agent: AgentId, path: string, content: Text)
    requires Agent(agent) in Run(differ, EMPTY, run).partitions
    requires content != Reading(Run(differ, EMPTY, run).partitions[Agent(agent)].current)
    ensures var w, p := Run(differ, EMPTY, run), Agent(agent);
      var edited := Run(differ, EMPTY, run + [EditAgent(agent, path, content)]);
      var undone := Run(differ, EMPTY, run + [EditAgent(agent, path, content)] + [DiscardEdit(agent)]);
      var id := w.partitions[p].current;
      && p in edited.partitions && Discard(edited, agent).result == Ok(())
      && var head := edited.partitions[p].current;
      && head != id && head in edited.snapshots
      && undone.partitions == w.partitions[p := Partition(id, w.partitions[p].history + [head, id])]
      && id in w.snapshots && id in undone.snapshots
      && ReconstructText(undone, undone.snapshots[id]) == ReconstructText(w, w.snapshots[id])
  {
    var w, p := Run(differ, EMPTY, run), Agent(agent);
    var edit := EditAgent(agent, path, content);
    var edited, undone := Run(differ, EMPTY, run + [edit]), Run(differ, EMPTY, run + [edit] + [DiscardEdit(agent)]);
    var id := w.partitions[p].current;
    var head := EditHead(differ, p, AgentSource(agent), id, path, content);
    EditedRow(differ, run, agent, path, content);
    DiscardedRow(differ, run + [edit], agent);
    assert head.parents == [id];
    assert w.partitions[p].history + [head] + [id] == w.partitions[p].history + [head, id];
    SnapshotsArePermanent(differ, run, [edit] + [DiscardEdit(agent)], id);
    assert run + ([edit] + [DiscardEdit(agent)]) == run + [edit] + [DiscardEdit(agent)];
  }

  lemma EditedRow(differ: Differ, run: seq<Action>, agent: AgentId, path: string, content: Text)
    requires Agent(agent) in Run(differ, EMPTY, run).partitions
    requires content != Reading(Run(differ, EMPTY, run).partitions[Agent(agent)].current)
    ensures var w, p := Run(differ, EMPTY, run), Agent(agent);
      var edited, id := Run(differ, EMPTY, run + [EditAgent(agent, path, content)]), w.partitions[p].current;
      var head := EditHead(differ, p, AgentSource(agent), id, path, content);
      && id in w.snapshots && head != id && head in edited.snapshots
      && edited.partitions == w.partitions[p := Partition(head, w.partitions[p].history + [head])]
  {
    assert Good(EMPTY);
    RunGood(differ, EMPTY, run);
    RunSnoc(differ, EMPTY, run, EditAgent(agent, path, content));
    RunGood(differ, EMPTY, run + [EditAgent(agent, path, content)]);
    RowStepIs(differ, Run(differ, EMPTY, run), EditAgent(agent, path, content));
    EditedStep(differ, Run(differ, EMPTY, run), Run(differ, EMPTY, run + [EditAgent(agent, path, content)]),
               agent, path, content);
  }

  lemma EditedStep(differ: Differ, w: Tables, edited: Tables, agent: AgentId, path: string, content: Text)
    requires Good(w) && Good(edited)
    requires Agent(agent) in w.partitions && content != Reading(w.partitions[Agent(agent)].current)
    requires edited.partitions == RowStep(differ, w.partitions, EditAgent(agent, path, content))
    ensures var p := Agent(agent);
      var id := w.partitions[p].current;
      var head := EditHead(differ, p, AgentSource(agent), id, path, content);
      && id in w.snapshots && head != id && head in edited.snapshots
      && edited.partitions == w.partitions[p := Partition(head, w.partitions[p].history + [head])]
  {
    EditedRows(differ, w.partitions, agent, path, content);
    SoundRow(w, Agent(agent));
    SoundRow(edited, Agent(agent));
  }

  lemma EditedRows(differ: Differ, rows: Rows, agent: AgentId, path: string, content: Text)
    requires Agent(agent) in rows && content != Reading(rows[Agent(agent)].current)
    ensures var p := Agent(agent);
      var head := EditHead(differ, p, AgentSource(agent), rows[p].current, path, content);
      && head != rows[p].current
      && RowStep(differ, rows, EditAgent(agent, path, content)) == rows[p := Partition(head, rows[p].history + [head])]
  {
    var id := rows[Agent(agent)].current;
    assert |EditHead(differ, Agent(agent), AgentSource(agent), id, path, content).deltas| == |id.deltas| + 1;
  }

  lemma DiscardedRow(differ: Differ, run: seq<Action>, agent: AgentId)
    requires Agent(agent) in Run(differ, EMPTY, run).partitions
    requires Run(differ, EMPTY, run).partitions[Agent(agent)].current.parents != []
    ensures var w, p := Run(differ, EMPTY, run), Agent(agent);
      var back := w.partitions[p].current.parents[0];
      && Discard(w, agent).result == Ok(())
      && Run(differ, EMPTY, run + [DiscardEdit(agent)]).partitions
         == w.partitions[p := Partition(back, w.partitions[p].history + [back])]
  {
    assert Good(EMPTY);
    RunGood(differ, EMPTY, run);
    RunSnoc(differ, EMPTY, run, DiscardEdit(agent));
    StepDiscards(differ, Run(differ, EMPTY, run), agent);
    DiscardedStep(Run(differ, EMPTY, run), agent);
  }

  lemma StepDiscards(differ: Differ, w: Tables, agent: AgentId)
    ensures Step(differ, w, DiscardEdit(agent)) == Discard(w, agent).after
  {
  }

  lemma DiscardedStep(w: Tables, agent: AgentId)
    requires Good(w) && Agent(agent) in w.partitions && w.partitions[Agent(agent)].current.parents != []
    ensures Discard(w, agent) == Outcome(Moved(w, Agent(agent), w.partitions[Agent(agent)].current.parents[0]), Ok(()))
  {
    SoundRow(w, Agent(agent));
    RowIs(w, w.partitions[Agent(agent)].current);
  }

  /** An agent that has edited nothing can discard too: where staged has moved on from its file,
      a new agent's discard takes it back behind where it started. */
  lemma DiscardWithoutEdit(differ: Differ, run: seq<Action>, agent: AgentId)
    requires var w := Run(differ, EMPTY, run);
      Agent(agent) !in w.partitions && Staged in w.partitions && |w.partitions[Staged].current.deltas| > 1
    ensures var start := Run(differ, EMPTY, run).partitions[Staged].current;
      var w := Run(differ, EMPTY, run + [JoinAgent(agent)] + [DiscardEdit(agent)]);
      && Agent(agent) in w.partitions
      && var row := w.partitions[Agent(agent)];
      && row.history == [start, row.current]
      && row.current.file == start.file && row.current.deltas == start.deltas[..|start.deltas| - 1]
  {
    var w, join := Run(differ, EMPTY, run), JoinAgent(agent);
    var start, joined := w.partitions[Staged].current, Run(differ, EMPTY, run + [join]);
    RunSnoc(differ, EMPTY, run, join);
    assert joined.partitions[Agent(agent)] == Partition(start, [start]);
    DiscardIff(differ, run + [join], agent);
    RunSnoc(differ, EMPTY, run + [join], DiscardEdit(agent));
    StepDiscards(differ, joined, agent);
    var back :| DiscardedTo(joined, Agent(agent), start, back)
      && Discard(joined, agent) == Outcome(Moved(joined, Agent(agent), back), Ok(()));
    assert [start] + [back] == [start, back];
  }
}
