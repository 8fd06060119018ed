/** The checkpoint repository object: branches, graph and checkpoints in memory, written
    through to the store when there is one (src/checkpoint/repo.rs). */
module CheckpointRepos {
  import opened Results
  import opened Checkpoints
  import opened Search
  import opened Tables
  import opened Repository
  import opened Walks
  import Dag

  lemma TriedOne(d: Dag.State, p: Id, c: Id)
    ensures EdgesTried(d, [p], c) == EdgeTried(d, p, c)
  {
  }

  lemma TriedTwo(d: Dag.State, p: Id, q: Id, c: Id)
    ensures EdgesTried(d, [p, q], c) == EdgeTried(EdgeTried(d, p, c), q, c)
  {
    assert [p, q][..1] == [p];
    TriedOne(d, p, c);
  }

  lemma PutOne(db: Db, p: Id, c: Id, gen: nat)
    ensures PutEdges(db, [p], c, gen) == PutEdge(db, p, c, gen)
  {
  }

  lemma PutTwo(db: Db, p: Id, q: Id, c: Id, gen: nat)
    ensures PutEdges(db, [p, q], c, gen) == PutEdge(PutEdge(db, p, c, gen), q, c, gen)
  {
    assert [p, q][1..] == [q];
    PutOne(PutEdge(db, p, c, gen), q, c, gen);
  }

  class CheckpointRepo {
    var branches: seq<Branch>
    var currentBranch: nat
    const dag: Dag.CheckpointDag
    var checkpoints: map<Id, Checkpoint>
    const storage: CheckpointStore?

    ghost predicate Valid()
      reads this
    {
      currentBranch < |branches| && Keyed(checkpoints)
    }

    ghost function View(): State
      reads this, dag, storage
    {
      State(Repo(branches, currentBranch, dag.View(), checkpoints),
            if storage == null then None else Some(storage.View()))
    }

    constructor (initialSnapshots: seq<Snap>)
      ensures fresh(dag) && storage == null
      ensures View() == State(Initial(initialSnapshots), None) && Valid()
    {
      var root := RootCheckpoint(initialSnapshots);
      var graph := new Dag.CheckpointDag();
      graph.AddNode(root.id);
      branches, currentBranch := [Branch("main", root.id)], 0;
      dag, checkpoints, storage := graph, map[root.id := root], null;
    }

    constructor Assemble(bs: seq<Branch>, current: nat, graph: Dag.CheckpointDag, cps: map<Id, Checkpoint>,
                         store: CheckpointStore)
      ensures branches == bs && currentBranch == current && dag == graph && checkpoints == cps && storage == store
    {
      branches, currentBranch, dag, checkpoints, storage := bs, current, graph, cps, store;
    }

    // ---- commits -----------------------------------------------------------

    method Commit(snapshots: seq<Snap>, message: string, author: string) returns (r: Result<Id, Error>)
      requires Valid()
      modifies this, dag, storage
      ensures (View(), r) == Repository.Commit(old(View()), snapshots, message, author)
      ensures Valid()
    {
      if snapshots == [] {
        return Err(NoSnapshots);
      }
      var head := branches[currentBranch].head;
      if head !in checkpoints {
        return Err(UnknownCheckpoint(head));
      }
      if checkpoints[head].snapshots == snapshots {
        return Err(NoChanges);
      }
      var cp := NewCheckpoint(snapshots, [head], author, message);
      AddOnOne(cp, head);
      return Ok(cp.id);
    }

    method CommitAllowEmpty(snapshots: seq<Snap>, message: string, author: string) returns (r: Result<Id, Error>)
      requires Valid()
      modifies this, dag, storage
      ensures (View(), r) == Repository.CommitAllowEmpty(old(View()), snapshots, message, author)
      ensures Valid()
    {
      var head := branches[currentBranch].head;
      var cp := NewCheckpoint(snapshots, [head], author, message);
      AddOnOne(cp, head);
      return Ok(cp.id);
    }

    /** Graph, branch head, rows and checkpoint map, for a checkpoint with one parent. */
    method AddOnOne(cp: Checkpoint, head: Id)
      requires Valid() && cp.parents == [head] && head == branches[currentBranch].head
      modifies this, dag, storage
      ensures View() == Extend(old(View()), cp) && Valid()
    {
      ghost var d := Dag.WithNode(dag.View(), cp.id);
      dag.AddNode(cp.id);
      var added := dag.AddEdge(head, cp.id);
      TriedOne(d, head, cp.id);
      branches := branches[currentBranch := Branch(branches[currentBranch].name, cp.id)];
      if storage != null {
        storage.StoreCheckpoint(cp);
        if cp.id in dag.generation {
          PutOne(storage.View(), head, cp.id, dag.generation[cp.id]);
          storage.StoreDagEdge(head, cp.id, dag.generation[cp.id]);
        }
        storage.UpdateBranchHead(branches[currentBranch].name, cp.id);
      }
      checkpoints := checkpoints[cp.id := cp];
    }

    method MergeBranches(source: string, snapshots: seq<Snap>, message: string, author: string)
      returns (r: Result<Id, Error>)
      requires Valid()
      modifies this, dag, storage
      ensures (View(), r) == Repository.MergeBranches(old(View()), source, snapshots, message, author)
      ensures Valid()
    {
      if snapshots == [] {
        return Err(NoSnapshots);
      }
      var found := FindBranch(branches, source);
      if found.None? {
        return Err(UnknownBranch(source));
      }
      var sourceHead := branches[found.value].head;
      var currentHead := branches[currentBranch].head;
      var cp := NewCheckpoint(snapshots, [currentHead, sourceHead], author, message);
      AddOnTwo(cp, currentHead, sourceHead);
      return Ok(cp.id);
    }

    method AddOnTwo(cp: Checkpoint, first: Id, second: Id)
      requires Valid() && cp.parents == [first, second]
      modifies this, dag, storage
      ensures View() == Extend(old(View()), cp) && Valid()
    {
      ghost var d := Dag.WithNode(dag.View(), cp.id);
      dag.AddNode(cp.id);
      var added := dag.AddEdge(first, cp.id);
      added := dag.AddEdge(second, cp.id);
      TriedTwo(d, first, second, cp.id);
      branches := branches[currentBranch := Branch(branches[currentBranch].name, cp.id)];
      if storage != null {
        storage.StoreCheckpoint(cp);
        if cp.id in dag.generation {
          PutTwo(storage.View(), first, second, cp.id, dag.generation[cp.id]);
          storage.StoreDagEdge(first, cp.id, dag.generation[cp.id]);
          storage.StoreDagEdge(second, cp.id, dag.generation[cp.id]);
        }
        storage.UpdateBranchHead(branches[currentBranch].name, cp.id);
      }
      checkpoints := checkpoints[cp.id := cp];
    }

    // ---- branches ------------------------------------------------------------

    method CreateBranch(name: string) returns (r: Result<(), Error>)
      requires Valid()
      modifies this, storage
      ensures (View(), r) == Repository.CreateBranch(old(View()), name) && Valid()
    {
      if FindBranch(branches, name).Some? {
        return Err(BranchExists(name));
      }
      var branch := Branch(name, branches[currentBranch].head);
      if storage != null {
        storage.StoreBranch(branch);
      }
      branches := branches + [branch];
      return Ok(());
    }

    method CreateBranchFrom(name: string, at: Id) returns (r: Result<(), Error>)
      requires Valid()
      modifies this, storage
      ensures (View(), r) == Repository.CreateBranchFrom(old(View()), name, at) && Valid()
    {
      if at !in checkpoints {
        return Err(UnknownCheckpoint(at));
      }
      if FindBranch(branches, name).Some? {
        return Err(BranchExists(name));
      }
      var branch := Branch(name, at);
      if storage != null {
        storage.StoreBranch(branch);
      }
      branches := branches + [branch];
      return Ok(());
    }

    method SwitchBranch(name: string) returns (r: Result<Id, Error>)
      requires Valid()
      modifies this, storage
      ensures (View(), r) == Repository.SwitchBranch(old(View()), name) && Valid()
    {
      var found := FindBranch(branches, name);
      if found.None? {
        return Err(UnknownBranch(name));
      }
      currentBranch := found.value;
      if storage != null {
        storage.StoreCurrentBranch(name);
      }
      return Ok(branches[currentBranch].head);
    }

    method RemoveCheckpoint(id: Id) returns (r: Result<(), Error>)
      modifies this, dag, storage
      ensures (View(), r) == Repository.RemoveCheckpoint(old(View()), id)
      ensures branches == old(branches) && currentBranch == old(currentBranch)
    {
      if id !in checkpoints {
        return Err(UnknownCheckpoint(id));
      }
      checkpoints := checkpoints - {id};
      dag.RemoveNode(id);
      if storage != null {
        var found := storage.DeleteCheckpoint(id);
        if !found {
          assert storage.View() == old(storage.View());
          return Err(UnknownCheckpoint(id));
        }
        storage.DeleteDagNode(id);
      }
      return Ok(());
    }

    // ---- walks -----------------------------------------------------------------

    method LogFrom(start: Id, count: nat) returns (log: seq<Checkpoint>)
      ensures log == Log(checkpoints, start, count)
    {
      var parents := ParentMap(checkpoints);
      var visited, queue := {}, [start];
      ghost var order: seq<Id> := [];
      log := [];
      while queue != []
        invariant visited == Seen(order) && Bfs(parents, queue, order) == Order(parents, start)
        invariant log == Pick(checkpoints, order) && |log| <= count
        decreases parents.Keys - visited, |queue|
      {
        var id := queue[0];
        if |log| >= count {
          PickedSoFar(checkpoints, start, queue, order);
          LogIsPart(checkpoints, start, count, log);
          return;
        }
        if id in visited {
          queue := queue[1..];
          continue;
        }
        queue := Dag.VisitParents(parents, visited, queue, order);
        PickSnoc(checkpoints, order, id);
        visited, order := visited + {id}, order + [id];
        if id in checkpoints {
          log := log + [checkpoints[id]];
        }
      }
      LogIsPart(checkpoints, start, count, log);
    }

    method GetAncestorsTo(target: Id) returns (r: Result<seq<Checkpoint>, Error>)
      requires Valid()
      ensures r == AncestorsTo(checkpoints, branches[currentBranch].head, target)
    {
      var head := branches[currentBranch].head;
      var parents := ParentMap(checkpoints);
      var visited, queue := {}, [head];
      ghost var order: seq<Id>, met := [], false;
      var result: seq<Checkpoint> := [];
      while queue != []
        invariant visited == Seen(order) && Bfs(parents, queue, order) == Order(parents, head)
        invariant result == Pick(checkpoints, order) && !met
        invariant target in checkpoints ==> target !in order
        decreases parents.Keys - visited, |queue|
      {
        var id := queue[0];
        if id in visited {
          queue := queue[1..];
          continue;
        }
        PickSnoc(checkpoints, order, id);
        if id in checkpoints {
          result := result + [checkpoints[id]];
          if id == target {
            met := true;
            MeetsTarget(checkpoints, head, target, queue, order);
            break;
          }
        }
        queue := Dag.VisitParents(parents, visited, queue, order);
        visited, order := visited + {id}, order + [id];
      }
      if !met {
        MissesTarget(checkpoints, head, target);
      }
      if result == [] || result[|result| - 1].id != target {
        return Err(UnknownCheckpoint(target));
      }
      return Ok(result);
    }

    method GetAncestryChain(id: Id) returns (chain: seq<Id>)
      ensures chain == Chain(checkpoints, id)
    {
      var parents := ParentMap(checkpoints);
      var result: seq<Id>, visited: set<Id> := [], {};
      var current: seq<Id>, next: seq<Id> := [id], [];
      while current != []
        invariant visited == Seen(result) && next == []
        invariant Bfs(parents, current, result) == Order(parents, id)
        decreases parents.Keys - visited, |current|
      {
        ghost var left := parents.Keys - visited;
        assert current + next == current;
        while current != []
          invariant visited == Seen(result)
          invariant Bfs(parents, current + next, result) == Order(parents, id)
          invariant parents.Keys - visited <= left && (next != [] ==> parents.Keys - visited < left)
          decreases |current|
        {
          var cid := current[0];
          Queued(parents, current, next, result);
          current := current[1..];
          if cid in visited {
            continue;
          }
          Shrinks(parents, cid, result);
          visited, result := visited + {cid}, result + [cid];
          next := Dag.PushParents(ParentsOf(parents, cid), visited, next, result);
        }
        assert [] + next == next;
        current, next := next, [];
      }
      return Reversed(result);
    }
  }

  /** A queue kept in two halves is the queue of the search. */
  lemma Queued(m: Parents, current: seq<Id>, next: seq<Id>, order: seq<Id>)
    requires current != []
    ensures current[0] in order ==> Bfs(m, current + next, order) == Bfs(m, current[1..] + next, order)
    ensures current[0] !in order ==>
      var order' := order + [current[0]];
      Bfs(m, current + next, order)
      == Bfs(m, current[1..] + (next + Unvisited(ParentsOf(m, current[0]), order')), order')
  {
    assert (current + next)[1..] == current[1..] + next;
    var pushed := Unvisited(ParentsOf(m, current[0]), order + [current[0]]);
    assert current[1..] + next + pushed == current[1..] + (next + pushed);
  }

  lemma PickedSoFar(cps: map<Id, Checkpoint>, start: Id, queue: seq<Id>, order: seq<Id>)
    requires Bfs(ParentMap(cps), queue, order) == Order(ParentMap(cps), start)
    ensures Pick(cps, order) <= History(cps, start)
  {
    var all := Order(ParentMap(cps), start);
    BfsExtends(ParentMap(cps), queue, order);
    PickPrefix(cps, all, |order|);
    assert all[..|order|] == order;
  }

  lemma LogIsPart(cps: map<Id, Checkpoint>, start: Id, count: nat, log: seq<Checkpoint>)
    requires log <= History(cps, start) && |log| <= count && (|log| == count || log == History(cps, start))
    ensures log == Log(cps, start, count)
  {
  }

  lemma {:induction false} IndexOfIs(ids: seq<Id>, x: Id, k: nat)
    requires k < |ids| && ids[k] == x && x !in ids[..k]
    ensures x in ids && IndexOf(ids, x) == k
  {
    if k > 0 {
      assert ids[..k][0] == ids[0];
      assert ids[1..][..k - 1] == ids[..k][1..];
      IndexOfIs(ids[1..], x, k - 1);
    }
  }

  lemma MeetsTarget(cps: map<Id, Checkpoint>, head: Id, target: Id, queue: seq<Id>, order: seq<Id>)
    requires Bfs(ParentMap(cps), queue, order) == Order(ParentMap(cps), head)
    requires queue != [] && queue[0] == target && target in cps && target !in order
    ensures AncestorsTo(cps, head, target) == Ok(Pick(cps, order + [target]))
  {
    var m, all := ParentMap(cps), Order(ParentMap(cps), head);
    BfsExtends(m, queue[1..] + Unvisited(ParentsOf(m, target), order + [target]), order + [target]);
    assert order + [target] <= all;
    assert all[..|order|] == order && all[|order|] == target;
    IndexOfIs(all, target, |order|);
    assert all[..|order| + 1] == order + [target];
  }

  lemma MissesTarget(cps: map<Id, Checkpoint>, head: Id, target: Id)
    requires Keyed(cps) && (target in cps ==> target !in Order(ParentMap(cps), head))
    ensures AncestorsTo(cps, head, target) == Err(UnknownCheckpoint(target))
    ensures var all := History(cps, head); all == [] || all[|all| - 1].id != target
  {
    var all := History(cps, head);
    if all != [] {
      var a := PickAt(cps, Order(ParentMap(cps), head), |all| - 1);
      assert Order(ParentMap(cps), head)[a] in Order(ParentMap(cps), head);
    }
  }
}
