/** What a commit does to the histories that the repository lists, and how branch switches
    undo each other (src/checkpoint/repo.rs). */
module Commits {
  import opened Checkpoints
  import opened Search
  import opened Repository
  import opened Histories
  import opened Walks

  /** The parent functions differ at `id` only, and nothing has `id` for a parent. */
  ghost predicate AddsLeaf(m: Parents, more: Parents, id: Id) {
    && (forall x :: x != id ==> ParentsOf(more, x) == ParentsOf(m, x))
    && (forall x :: id !in ParentsOf(m, x))
    && id !in m && more.Keys == m.Keys + {id}
  }

  lemma {:induction false} UnvisitedBehind(ids: seq<Id>, id: Id, order: seq<Id>)
    requires id !in ids
    ensures Unvisited(ids, [id] + order) == Unvisited(ids, order)
  {
    if ids != [] {
      assert ids[0] in [id] + order <==> ids[0] in order;
      UnvisitedBehind(ids[1..], id, order);
    }
  }

  /** One step of a search. */
  lemma BfsSkips(m: Parents, queue: seq<Id>, order: seq<Id>)
    requires queue != [] && queue[0] in order
    ensures Bfs(m, queue, order) == Bfs(m, queue[1..], order)
  {
  }

  lemma BfsVisits(m: Parents, queue: seq<Id>, order: seq<Id>, next: seq<Id>, rest: seq<Id>)
    requires queue != [] && queue[0] !in order && next == order + [queue[0]]
    requires rest == queue[1..] + Unvisited(ParentsOf(m, queue[0]), next)
    ensures Bfs(m, queue, order) == Bfs(m, rest, next)
  {
  }

  /** A search that never queues the leaf is the search without it. */
  lemma {:induction false} BfsWithoutLeaf(m: Parents, more: Parents, id: Id, queue: seq<Id>, order: seq<Id>)
    requires AddsLeaf(m, more, id) && id !in queue
    ensures Bfs(more, queue, order) == Bfs(m, queue, order)
    decreases |m.Keys - Seen(order)|, |queue|
  {
    if queue != [] {
      if queue[0] in order {
        BfsSkips(m, queue, order);
        BfsSkips(more, queue, order);
        BfsWithoutLeaf(m, more, id, queue[1..], order);
      } else {
        var x, next := queue[0], order + [queue[0]];
        var rest := queue[1..] + Unvisited(ParentsOf(m, x), next);
        Shrinks(m, x, order);
        UnvisitedIs(ParentsOf(m, x), next);
        BfsVisits(m, queue, order, next, rest);
        BfsVisits(more, queue, order, next, rest);
        BfsWithoutLeaf(m, more, id, rest, next);
      }
    }
  }

  /** The search `b` is the search `a` behind one more visited node. */
  ghost predicate Behind(id: Id, a: seq<Id>, b: seq<Id>) {
    b == [id] + a
  }

  /** The same with the leaf visited first. */
  lemma {:induction false} BfsBehindLeaf(m: Parents, more: Parents, id: Id, queue: seq<Id>, order: seq<Id>,
                                         longer: seq<Id>)
    requires AddsLeaf(m, more, id) && id !in queue && Behind(id, order, longer)
    ensures Behind(id, Bfs(m, queue, order), Bfs(more, queue, longer))
    decreases |m.Keys - Seen(order)|, |queue|
  {
    if queue != [] {
      var x := queue[0];
      assert x in longer <==> x in order;
      if x in order {
        BfsSkips(m, queue, order);
        BfsSkips(more, queue, longer);
        BfsBehindLeaf(m, more, id, queue[1..], order, longer);
      } else {
        var next, longerNext := order + [x], longer + [x];
        assert Behind(id, next, longerNext);
        var rest := queue[1..] + Unvisited(ParentsOf(m, x), next);
        Shrinks(m, x, order);
        UnvisitedIs(ParentsOf(m, x), next);
        UnvisitedBehind(ParentsOf(m, x), id, next);
        BfsVisits(m, queue, order, next, rest);
        BfsVisits(more, queue, longer, longerNext, rest);
        BfsBehindLeaf(m, more, id, rest, next, longerNext);
      }
    }
  }

  lemma {:induction false} PickWithoutLeaf(cps: map<Id, Checkpoint>, cp: Checkpoint, ids: seq<Id>)
    requires cp.id !in ids
    ensures Pick(cps[cp.id := cp], ids) == Pick(cps, ids)
    decreases |ids|
  {
    if ids != [] {
      PickWithoutLeaf(cps, cp, ids[..|ids| - 1]);
    }
  }

  lemma {:induction false} PickBehindLeaf(cps: map<Id, Checkpoint>, cp: Checkpoint, ids: seq<Id>)
    requires cp.id !in ids
    ensures Pick(cps[cp.id := cp], [cp.id] + ids) == [cp] + Pick(cps, ids)
    decreases |ids|
  {
    var more := cps[cp.id := cp];
    if ids == [] {
      assert Pick(more, []) == [] && [] + [cp.id] == [cp.id] && [cp.id] + [] == [cp.id];
      PickSnoc(more, [], cp.id);
    } else {
      var init, last := ids[..|ids| - 1], ids[|ids| - 1];
      assert [cp.id] + ids == [cp.id] + init + [last];
      PickBehindLeaf(cps, cp, init);
      PickSnoc(more, [cp.id] + init, last);
    }
  }

  lemma NewIsLeaf(cps: map<Id, Checkpoint>, cp: Checkpoint)
    requires Honest(cps) && Closed(cps) && cp.id !in cps
    ensures AddsLeaf(ParentMap(cps), ParentMap(cps[cp.id := cp]), cp.id)
  {
    forall x
      ensures cp.id !in ParentsOf(ParentMap(cps), x)
    {
      if x in cps {
        assert ParentsIn(cps, x);
      }
    }
  }

  lemma LeafUnvisited(cps: map<Id, Checkpoint>, cp: Checkpoint, start: Id)
    requires Honest(cps) && Closed(cps) && cp.id !in cps && start in cps
    ensures cp.id !in Order(ParentMap(cps), start)
  {
    OrderIsByDistance(ParentMap(cps), start);
    if cp.id in Order(ParentMap(cps), start) {
      var n: nat :| Graph.Walk(Up(cps), start, cp.id, n);
      forall x, y | x in cps && y in Graph.Succ(Up(cps), x)
        ensures y in cps
      {
        SuccIsParent(ParentMap(cps), x, y);
        assert ParentsIn(cps, x);
      }
      Graph.ClosedHolds(Up(cps), cps.Keys, start, cp.id, n);
    }
  }

  /** A new checkpoint leaves every log from an older one as it was. */
  lemma OldHistoryKept(cps: map<Id, Checkpoint>, cp: Checkpoint, start: Id)
    requires Honest(cps) && Closed(cps) && cp.id !in cps && start in cps
    ensures History(cps[cp.id := cp], start) == History(cps, start)
  {
    NewIsLeaf(cps, cp);
    BfsWithoutLeaf(ParentMap(cps), ParentMap(cps[cp.id := cp]), cp.id, [start], []);
    LeafUnvisited(cps, cp, start);
    PickWithoutLeaf(cps, cp, Order(ParentMap(cps), start));
  }

  /** A new checkpoint on one parent is listed before that parent's whole log. */
  lemma NewHistoryIs(cps: map<Id, Checkpoint>, cp: Checkpoint, head: Id)
    requires Honest(cps) && Closed(cps) && cp.id !in cps && head in cps && cp.parents == [head]
    ensures History(cps[cp.id := cp], cp.id) == [cp] + History(cps, head)
  {
    var m, more := ParentMap(cps), ParentMap(cps[cp.id := cp]);
    NewIsLeaf(cps, cp);
    assert Unvisited([head], [cp.id]) == [head] by {
      assert [head][1..] == [] && Unvisited([], [cp.id]) == [];
    }
    assert [cp.id][1..] + [head] == [head] && [] + [cp.id] == [cp.id] && [cp.id] + [] == [cp.id];
    assert Order(more, cp.id) == Bfs(more, [head], [cp.id]);
    BfsBehindLeaf(m, more, cp.id, [head], [], [cp.id]);
    LeafUnvisited(cps, cp, head);
    PickBehindLeaf(cps, cp, Order(m, head));
  }

  /** In any sound repository a commit of a new checkpoint moves the current branch, and only
      it, to the new checkpoint; its log is the new checkpoint and then the old log; every
      other log stays. */
  lemma CommitExtendsLog(s: State, snapshots: seq<Snap>, message: string, author: string)
    requires Sound(s)
    requires NewCheckpoint(snapshots, [Current(s.repo).head], author, message).id !in s.repo.checkpoints
    ensures var head := Current(s.repo).head;
      var cp := NewCheckpoint(snapshots, [head], author, message);
      var t := CommitAllowEmpty(s, snapshots, message, author).0;
      && t.repo.branches == s.repo.branches[s.repo.current := Branch(Current(s.repo).name, cp.id)]
      && History(t.repo.checkpoints, cp.id) == [cp] + History(s.repo.checkpoints, head)
      && forall start :: start in s.repo.checkpoints ==>
           History(t.repo.checkpoints, start) == History(s.repo.checkpoints, start)
  {
    var cps, head := s.repo.checkpoints, Current(s.repo).head;
    var cp := NewCheckpoint(snapshots, [head], author, message);
    assert Current(s.repo) in s.repo.branches;
    NewHistoryIs(cps, cp, head);
    forall start | start in cps
      ensures History(cps[cp.id := cp], start) == History(cps, start)
    {
      OldHistoryKept(cps, cp, start);
    }
  }
}
