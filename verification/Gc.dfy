/** Garbage collection of checkpoints: protect, mark forward, sweep, and the depth that
    triggers repacking (src/git_sync/gc.rs). */
module Gc {
  import opened Checkpoints
  import opened Graph
  import opened Search
  import opened Repository
  import opened Walks
  import opened CheckpointRepos
  import Dag
  import Histories
  import Reload

  datatype Stats = Stats(removedCheckpoints: nat, removedSnapshots: nat, freedBytes: nat, triggered: bool,
                         maxDepth: nat)

  // ---- what is kept ------------------------------------------------------------

  /** Branch heads with their ancestors, and checkpoints bound to a git commit. */
  ghost predicate Protected(r: Repo, x: Id) {
    || (exists b :: b in r.branches && Reach(Up(r.checkpoints), b.head, x))
    || (x in r.dag.nodes && x in r.checkpoints && r.checkpoints[x].gitAnchor.Some?)
  }

  /** What a protected checkpoint reaches forward. */
  ghost predicate Kept(r: Repo, x: Id) {
    exists p :: Protected(r, p) && Reach(r.dag.nodes, p, x)
  }

  ghost predicate Garbage(r: Repo, x: Id) {
    x in r.dag.nodes && x in r.checkpoints && !Kept(r, x)
  }

  function RemoveAll(s: State, gone: seq<Id>): State
    decreases |gone|
  {
    if gone == [] then s else RemoveCheckpoint(RemoveAll(s, gone[..|gone| - 1]), gone[|gone| - 1]).0
  }

  function SnapshotCount(cps: map<Id, Checkpoint>, gone: seq<Id>): nat
    requires forall x :: x in gone ==> x in cps
    decreases |gone|
  {
    if gone == [] then 0
    else
      assert gone[|gone| - 1] in gone && forall x :: x in gone[..|gone| - 1] ==> x in gone;
      SnapshotCount(cps, gone[..|gone| - 1]) + |cps[gone[|gone| - 1]].snapshots|
  }

  // ---- depth -------------------------------------------------------------------

  /** `n` is the length of the longest walk from `id` up its parents. */
  ghost predicate Deepest(g: Graph, id: Id, n: nat) {
    && (exists root :: Walk(g, id, root, n))
    && (forall x, k: nat :: Walk(g, id, x, k) ==> k <= n)
  }

  /** The same over a list of starting points; 0 when there are none. */
  ghost predicate DeepestOf(g: Graph, ids: seq<Id>, n: nat) {
    && (forall id, x, k: nat :: id in ids && Walk(g, id, x, k) ==> k <= n)
    && (if ids == [] then n == 0 else exists id, root :: id in ids && Walk(g, id, root, n))
  }

  lemma DeepestSnoc(g: Graph, ids: seq<Id>, n: nat, id: Id, d: nat)
    requires DeepestOf(g, ids, n) && Deepest(g, id, d)
    ensures DeepestOf(g, ids + [id], Dag.Max(n, d))
  {
    var all := ids + [id];
    assert forall x :: x in all <==> x in ids || x == id;
    if ids == [] || n < d {
      var root :| Walk(g, id, root, d);
      assert id in all && Walk(g, id, root, Dag.Max(n, d));
    } else {
      var at, root :| at in ids && Walk(g, at, root, n);
      assert at in all && Walk(g, at, root, Dag.Max(n, d));
    }
  }

  lemma WalkUp(cps: map<Id, Checkpoint>, id: Id, p: Id, x: Id, k: nat)
    requires id in cps && p in cps[id].parents && Walk(Up(cps), p, x, k)
    ensures Walk(Up(cps), id, x, k + 1)
  {
    SuccIsParent(ParentMap(cps), id, p);
    assert Walk(Up(cps), id, id, 0);
    WalkStep(Up(cps), id, id, p, 0);
    WalkConcat(Up(cps), id, p, x, 1, k);
  }

  /** A longer walk starts with a step to a parent. */
  lemma WalkFromParent(cps: map<Id, Checkpoint>, id: Id, x: Id, k: nat) returns (p: Id)
    requires Walk(Up(cps), id, x, k) && k > 0
    ensures id in cps && p in cps[id].parents && Walk(Up(cps), p, x, k - 1)
  {
    p := WalkSplit(Up(cps), id, x, 1, k);
    var z :| Walk(Up(cps), id, z, 0) && p in Succ(Up(cps), z);
    SuccIsParent(ParentMap(cps), id, p);
  }

  lemma NoParents(cps: map<Id, Checkpoint>, id: Id)
    requires id in cps ==> cps[id].parents == []
    ensures Deepest(Up(cps), id, 0)
  {
    assert Walk(Up(cps), id, id, 0);
    forall x, k: nat | Walk(Up(cps), id, x, k)
      ensures k <= 0
    {
      if k > 0 {
        var p := WalkFromParent(cps, id, x, k);
      }
    }
  }

  lemma OneDeeper(cps: map<Id, Checkpoint>, id: Id, n: nat)
    requires id in cps && cps[id].parents != [] && DeepestOf(Up(cps), cps[id].parents, n)
    ensures Deepest(Up(cps), id, n + 1)
  {
    var at, root :| at in cps[id].parents && Walk(Up(cps), at, root, n);
    WalkUp(cps, id, at, root, n);
    forall x, k: nat | Walk(Up(cps), id, x, k)
      ensures k <= n + 1
    {
      if k > 0 {
        var p := WalkFromParent(cps, id, x, k);
      }
    }
  }

  /** Where the parent relation has no cycle, a parent has fewer ancestors. */
  lemma FewerAbove(cps: map<Id, Checkpoint>, id: Id, p: Id)
    requires Acyclic(Up(cps)) && id in cps && p in cps[id].parents
    ensures Ancestors(cps, p) < Ancestors(cps, id)
  {
    ReachSelf(Up(cps), id);
    assert !Reach(Up(cps), p, id) by {
      if Reach(Up(cps), p, id) {
        var k: nat :| Walk(Up(cps), p, id, k);
        WalkUp(cps, id, p, id, k);
      }
    }
    forall x | x in Ancestors(cps, p)
      ensures x in Ancestors(cps, id)
    {
      var k: nat :| Walk(Up(cps), p, x, k);
      WalkUp(cps, id, p, x, k);
      assert Reach(Up(cps), id, x);
    }
    assert id in Ancestors(cps, id) && id !in Ancestors(cps, p);
  }

  ghost predicate Memo(cps: map<Id, Checkpoint>, memo: map<Id, nat>) {
    forall id :: id in memo ==> Deepest(Up(cps), id, memo[id])
  }

  /** The memoised search; the map is handed on from call to call. */
  method DepthSearch(cps: map<Id, Checkpoint>, id: Id, memo: map<Id, nat>) returns (depth: nat, known: map<Id, nat>)
    requires Acyclic(Up(cps)) && Memo(cps, memo)
    ensures Deepest(Up(cps), id, depth) && Memo(cps, known)
    decreases Ancestors(cps, id)
  {
    known := memo;
    if id in known {
      return known[id], known;
    }
    if id !in cps {
      NoParents(cps, id);
      return 0, known;
    }
    var parents := cps[id].parents;
    if parents == [] {
      NoParents(cps, id);
      known := known[id := 0];
      return 0, known;
    }
    var deepest := 0;
    var i := 0;
    while i < |parents|
      invariant 0 <= i <= |parents| && Memo(cps, known)
      invariant DeepestOf(Up(cps), parents[..i], deepest)
    {
      var d;
      FewerAbove(cps, id, parents[i]);
      d, known := DepthSearch(cps, parents[i], known);
      DeepestSnoc(Up(cps), parents[..i], deepest, parents[i], d);
      assert parents[..i] + [parents[i]] == parents[..i + 1];
      if d > deepest {
        deepest := d;
      }
      i := i + 1;
    }
    assert parents[..i] == parents;
    OneDeeper(cps, id, deepest);
    depth := deepest + 1;
    known := known[id := depth];
  }

  /** The largest depth among the nodes of the graph. */
  ghost predicate MaxDepth(r: Repo, n: nat) {
    && (forall id, x, k: nat :: id in r.dag.nodes && Walk(Up(r.checkpoints), id, x, k) ==> k <= n)
    && (n > 0 ==> exists id, x :: id in r.dag.nodes && Walk(Up(r.checkpoints), id, x, n))
  }

  method CalculateMaxDepth(repo: CheckpointRepo) returns (deepest: nat)
    requires Acyclic(Up(repo.checkpoints))
    ensures MaxDepth(repo.View().repo, deepest)
  {
    deepest := 0;
    var rest := repo.dag.nodes.Keys;
    ghost var up := Up(repo.checkpoints);
    while rest != {}
      invariant rest <= repo.dag.nodes.Keys
      invariant forall id, x, k: nat :: id in repo.dag.nodes && id !in rest && Walk(up, id, x, k) ==> k <= deepest
      invariant deepest > 0 ==> exists id, x :: id in repo.dag.nodes && Walk(up, id, x, deepest)
      decreases rest
    {
      var id :| id in rest;
      rest := rest - {id};
      var depth, _ := DepthSearch(repo.checkpoints, id, map[]);
      if depth > deepest {
        deepest := depth;
      }
    }
  }

  // ---- protect and mark ----------------------------------------------------------

  function Heads(bs: seq<Branch>): set<Id> {
    set b | b in bs :: b.head
  }

  method PushUnseen(parents: seq<Id>, visited: set<Id>, queue: seq<Id>) returns (q: seq<Id>)
    ensures queue <= q
    ensures forall z :: z in q[|queue|..] <==> z in parents && z !in visited
  {
    q := queue;
    for i := 0 to |parents|
      invariant queue <= q
      invariant forall z :: z in q[|queue|..] <==> z in parents[..i] && z !in visited
    {
      assert parents[..i + 1] == parents[..i] + [parents[i]];
      if parents[i] !in visited {
        assert (q + [parents[i]])[|queue|..] == q[|queue|..] + [parents[i]];
        q := q + [parents[i]];
      }
    }
    assert parents[..|parents|] == parents;
  }

  lemma SweepMore(g: Graph, starts: set<Id>, head: Id, visited: set<Id>)
    requires Sweeping(g, starts, [], visited)
    ensures Sweeping(g, starts + {head}, [head], visited)
  {
    ReachSelf(g, head);
    assert From(g, starts + {head}, head);
    forall x | x in visited
      ensures From(g, starts + {head}, x)
    {
      var s :| s in starts && Reach(g, s, x);
      assert s in starts + {head};
    }
  }

  /** The search of one branch, in the set that all branches share. */
  method ProtectBranch(cps: map<Id, Checkpoint>, head: Id, before: set<Id>, ghost starts: set<Id>)
    returns (found: set<Id>)
    requires Sweeping(Up(cps), starts, [], before)
    ensures Sweeping(Up(cps), starts + {head}, [], found)
  {
    found := before;
    var queue := [head];
    SweepMore(Up(cps), starts, head, before);
    while queue != []
      invariant Sweeping(Up(cps), starts + {head}, queue, found)
      decreases cps.Keys - found, |queue|
    {
      var id := queue[0];
      if id in found {
        SweepSkips(Up(cps), starts + {head}, queue, found);
        queue := queue[1..];
        continue;
      }
      ghost var was, seen := queue, found;
      found, queue := found + {id}, queue[1..];
      if id in cps {
        queue := PushUnseen(cps[id].parents, found, queue);
      }
      ghost var pushed := queue[|was| - 1..];
      assert queue == was[1..] + pushed;
      SweepVisits(Up(cps), starts + {head}, was, seen, pushed);
    }
  }

  method CollectProtected(repo: CheckpointRepo) returns (protected: set<Id>)
    ensures forall x :: x in protected <==> Protected(repo.View().repo, x)
  {
    var cps := repo.checkpoints;
    protected := {};
    var i := 0;
    while i < |repo.branches|
      invariant 0 <= i <= |repo.branches|
      invariant Sweeping(Up(cps), Heads(repo.branches[..i]), [], protected)
    {
      protected := ProtectBranch(cps, repo.branches[i].head, protected, Heads(repo.branches[..i]));
      HeadsSnoc(repo.branches, i);
      i := i + 1;
    }
    assert repo.branches[..i] == repo.branches;
    SweepEnds(Up(cps), Heads(repo.branches), protected);
    FromHeads(Up(cps), repo.branches);
    ghost var reached := protected;
    var rest := repo.dag.nodes.Keys;
    while rest != {}
      invariant rest <= repo.dag.nodes.Keys
      invariant forall x :: x in protected <==>
        x in reached || (x in repo.dag.nodes && x !in rest && x in cps && cps[x].gitAnchor.Some?)
      decreases rest
    {
      var id :| id in rest;
      rest := rest - {id};
      if id in cps && cps[id].gitAnchor.Some? {
        protected := protected + {id};
      }
    }
  }

  lemma HeadsSnoc(bs: seq<Branch>, i: nat)
    requires i < |bs|
    ensures Heads(bs[..i + 1]) == Heads(bs[..i]) + {bs[i].head}
  {
  }

  lemma FromHeads(g: Graph, bs: seq<Branch>)
    ensures forall x :: From(g, Heads(bs), x) <==> exists b :: b in bs && Reach(g, b.head, x)
  {
  }

  /** Everything found is reached, and what a node outside the queue points to is found. */
  ghost predicate Marking(g: Graph, starts: set<Id>, queue: seq<Id>, found: set<Id>) {
    && starts <= found && (forall x :: x in queue ==> x in found)
    && (forall x :: x in found ==> From(g, starts, x))
    && (forall x, z :: x in found && x !in queue && z in Succ(g, x) ==> z in found)
  }

  lemma MarkEnds(g: Graph, starts: set<Id>, found: set<Id>)
    requires Marking(g, starts, [], found)
    ensures forall x :: x in found <==> From(g, starts, x)
  {
    forall x | From(g, starts, x)
      ensures x in found
    {
      var s :| s in starts && Reach(g, s, x);
      var n: nat :| Walk(g, s, x, n);
      ClosedHolds(g, found, s, x, n);
    }
  }

  /** The children not found yet are found and queued. */
  method MarkChildren(children: set<Id>, before: set<Id>, queue: seq<Id>) returns (found: set<Id>, q: seq<Id>)
    ensures found == before + children
    ensures forall x :: x in q <==> x in queue || (x in children && x !in before)
    ensures children <= before ==> q == queue
  {
    found, q := before, queue;
    var rest := children;
    while rest != {}
      invariant rest <= children && found == before + (children - rest)
      invariant forall x :: x in q <==> x in queue || (x in children && x !in rest && x !in before)
      invariant children <= before ==> q == queue
      decreases rest
    {
      var child :| child in rest;
      rest := rest - {child};
      if child !in found {
        found, q := found + {child}, q + [child];
      }
    }
  }

  lemma Marks(g: Graph, starts: set<Id>, queue: seq<Id>, found: set<Id>, more: set<Id>, q: seq<Id>)
    requires Marking(g, starts, queue, found) && queue != []
    requires more == found + Succ(g, queue[0])
    requires forall x :: x in q <==> x in queue[1..] || (x in Succ(g, queue[0]) && x !in found)
    ensures Marking(g, starts, q, more)
  {
    MarksReached(g, starts, queue, found);
    MarksClosed(g, queue, found, q);
    forall x | x in q
      ensures x in more
    {
      assert x in queue[1..] ==> x in queue;
    }
  }

  lemma MarksReached(g: Graph, starts: set<Id>, queue: seq<Id>, found: set<Id>)
    requires Marking(g, starts, queue, found) && queue != []
    ensures forall x :: x in found + Succ(g, queue[0]) ==> From(g, starts, x)
  {
    assert queue[0] in queue;
    var s :| s in starts && Reach(g, s, queue[0]);
    forall x | x in Succ(g, queue[0])
      ensures From(g, starts, x)
    {
      ReachEdge(g, s, queue[0], x);
    }
  }

  lemma MarksClosed(g: Graph, queue: seq<Id>, found: set<Id>, q: seq<Id>)
    requires queue != [] && forall x, z :: x in found && x !in queue && z in Succ(g, x) ==> z in found
    requires forall x :: x in q <==> x in queue[1..] || (x in Succ(g, queue[0]) && x !in found)
    ensures forall x, z :: x in found + Succ(g, queue[0]) && x !in q && z in Succ(g, x) ==>
        z in found + Succ(g, queue[0])
  {
  }

  function Everything(g: Graph): set<Id> {
    set x, y | x in g && y in g[x] :: y
  }

  lemma LessLeft(g: Graph, x: Id, found: set<Id>)
    ensures if Succ(g, x) <= found then Everything(g) - (found + Succ(g, x)) == Everything(g) - found
            else Everything(g) - (found + Succ(g, x)) < Everything(g) - found
  {
  }

  method MarkReachable(dag: Dag.CheckpointDag, protected: set<Id>) returns (found: set<Id>)
    ensures forall x :: x in found <==> From(dag.View().nodes, protected, x)
  {
    ghost var g := dag.nodes;
    found := protected;
    var queue := [];
    var rest := protected;
    while rest != {}
      invariant rest <= protected && forall x :: x in queue <==> x in protected && x !in rest
      decreases rest
    {
      var p :| p in rest;
      rest, queue := rest - {p}, queue + [p];
    }
    forall x | x in protected
      ensures From(g, protected, x)
    {
      ReachSelf(g, x);
    }
    while queue != []
      invariant Marking(g, protected, queue, found)
      decreases Everything(g) - found, |queue|
    {
      var current := queue[0];
      var children := if current in dag.nodes then dag.nodes[current] else {};
      ghost var was, seen := queue, found;
      found, queue := MarkChildren(children, found, queue[1..]);
      Marks(g, protected, was, seen, found, queue);
      LessLeft(g, was[0], seen);
    }
    MarkEnds(g, protected, found);
  }

  // ---- sweep ---------------------------------------------------------------------

  /** Protect, mark, measure, sweep. Nodes without a loaded checkpoint stay in the graph: the
      removal fails on them and the failure is dropped. */
  method CollectGarbage(repo: CheckpointRepo) returns (stats: Stats, ghost gone: seq<Id>)
    requires Acyclic(Up(repo.checkpoints))
    modifies repo, repo.dag, repo.storage
    ensures Distinct(gone) && forall x :: x in gone <==> Garbage(old(repo.View()).repo, x)
    ensures repo.View() == RemoveAll(old(repo.View()), gone)
    ensures stats.removedCheckpoints == |gone| && stats.freedBytes == 0
    ensures (forall x :: x in gone ==> x in old(repo.checkpoints))
         && stats.removedSnapshots == SnapshotCount(old(repo.checkpoints), gone)
    ensures MaxDepth(old(repo.View()).repo, stats.maxDepth) && (stats.triggered <==> stats.maxDepth > 100)
  {
    ghost var s := repo.View();
    var protected := CollectProtected(repo);
    var keep := MarkReachable(repo.dag, protected);
    KeptIs(s.repo, protected, keep);
    var deepest := CalculateMaxDepth(repo);
    var removed, snapshots;
    removed, snapshots, gone := Sweep(repo, keep);
    stats := Stats(removed, snapshots, 0, deepest > 100, deepest);
  }

  method Sweep(repo: CheckpointRepo, keep: set<Id>) returns (removed: nat, snapshots: nat, ghost gone: seq<Id>)
    modifies repo, repo.dag, repo.storage
    ensures Distinct(gone)
    ensures forall x :: x in gone <==> x in old(repo.dag.nodes) && x in old(repo.checkpoints) && x !in keep
    ensures repo.View() == RemoveAll(old(repo.View()), gone)
    ensures removed == |gone| && (forall x :: x in gone ==> x in old(repo.checkpoints))
    ensures snapshots == SnapshotCount(old(repo.checkpoints), gone)
  {
    ghost var s := repo.View();
    removed, snapshots, gone := 0, 0, [];
    var rest := repo.dag.nodes.Keys;
    while rest != {}
      invariant rest <= s.repo.dag.nodes.Keys && repo.View() == RemoveAll(s, gone)
      invariant repo.checkpoints == s.repo.checkpoints - Seen(gone)
      invariant Swept(s.repo, keep, rest, gone)
      invariant removed == |gone| && snapshots == SnapshotCount(s.repo.checkpoints, gone)
      decreases rest
    {
      var id :| id in rest;
      SweptMore(s.repo, keep, rest, gone, id);
      rest := rest - {id};
      if id in keep {
        continue;
      }
      if id in repo.checkpoints {
        GoneMore(s, gone, id);
        snapshots := snapshots + |repo.checkpoints[id].snapshots|;
        removed := removed + 1;
        gone := gone + [id];
      }
      var dropped := repo.RemoveCheckpoint(id);
    }
  }

  ghost predicate Swept(r: Repo, keep: set<Id>, rest: set<Id>, gone: seq<Id>) {
    && Distinct(gone) && (forall x :: x in gone ==> x in r.checkpoints)
    && (forall x :: x in gone <==> x in r.dag.nodes && x in r.checkpoints && x !in keep && x !in rest)
  }

  lemma SweptMore(r: Repo, keep: set<Id>, rest: set<Id>, gone: seq<Id>, id: Id)
    requires Swept(r, keep, rest, gone) && id in rest && rest <= r.dag.nodes.Keys
    ensures id !in gone
    ensures if id in keep || id !in r.checkpoints then Swept(r, keep, rest - {id}, gone)
            else Swept(r, keep, rest - {id}, gone + [id])
  {
  }

  lemma KeptIs(r: Repo, protected: set<Id>, keep: set<Id>)
    requires forall x :: x in protected <==> Protected(r, x)
    requires forall x :: x in keep <==> From(r.dag.nodes, protected, x)
    ensures forall x :: x in keep <==> Kept(r, x)
  {
  }

  lemma GoneMore(s: State, gone: seq<Id>, id: Id)
    requires id in s.repo.checkpoints && id !in gone && Distinct(gone)
    requires forall x :: x in gone ==> x in s.repo.checkpoints
    ensures Distinct(gone + [id])
    ensures forall x :: x in gone + [id] <==> x in gone || x == id
    ensures s.repo.checkpoints - Seen(gone + [id]) == s.repo.checkpoints - Seen(gone) - {id}
    ensures id in s.repo.checkpoints - Seen(gone)
    ensures RemoveAll(s, gone + [id]) == RemoveCheckpoint(RemoveAll(s, gone), id).0
    ensures SnapshotCount(s.repo.checkpoints, gone + [id])
         == SnapshotCount(s.repo.checkpoints, gone) + |s.repo.checkpoints[id].snapshots|
  {
  }

  // ---- what a collection leaves ------------------------------------------------------

  /** A graph without some of its nodes and the edges to them. */
  function Trimmed(d: Dag.State, gone: set<Id>): Dag.State {
    Dag.State(map k | k in d.nodes && k !in gone :: d.nodes[k] - gone, d.generation - gone)
  }

  lemma TrimmedMore(d: Dag.State, gone: set<Id>, id: Id)
    ensures Dag.Without(Trimmed(d, gone), id) == Trimmed(d, gone + {id})
  {
    var e, t := Dag.Without(Trimmed(d, gone), id), Trimmed(d, gone + {id});
    forall k | k in t.nodes
      ensures e.nodes[k] == t.nodes[k]
    {
      assert d.nodes[k] - gone - {id} == d.nodes[k] - (gone + {id});
    }
    assert e.nodes == t.nodes;
    assert e.generation == t.generation;
  }

  /** A collection removes exactly the given checkpoints, from the map and from the graph. */
  lemma {:induction false} RemoveAllIs(s: State, gone: seq<Id>)
    requires Distinct(gone) && forall x :: x in gone ==> x in s.repo.checkpoints
    ensures RemoveAll(s, gone).repo
         == s.repo.(checkpoints := s.repo.checkpoints - Seen(gone), dag := Trimmed(s.repo.dag, Seen(gone)))
    decreases |gone|
  {
    if gone == [] {
      NothingTrimmed(s.repo);
    } else {
      var init, last := gone[..|gone| - 1], gone[|gone| - 1];
      assert gone == init + [last] && last !in init;
      assert forall x :: x in gone <==> x in init || x == last;
      RemoveAllIs(s, init);
      assert Seen(gone) == Seen(init) + {last};
      TrimmedMore(s.repo.dag, Seen(init), last);
      assert s.repo.checkpoints - Seen(init) - {last} == s.repo.checkpoints - Seen(gone);
    }
  }

  lemma NothingTrimmed(r: Repo)
    ensures Seen([]) == {} && r.checkpoints - {} == r.checkpoints && Trimmed(r.dag, {}) == r.dag
  {
    assert forall k :: k in r.dag.nodes ==> r.dag.nodes[k] - {} == r.dag.nodes[k];
    assert Trimmed(r.dag, {}).nodes == r.dag.nodes;
    assert Trimmed(r.dag, {}).generation == r.dag.generation;
  }

  /** A loaded checkpoint of the graph stays exactly when it is kept; so no branch head, no
      ancestor of one and no anchored checkpoint is ever removed. */
  lemma ProtectedSurvive(s: State, gone: seq<Id>, x: Id)
    requires Distinct(gone) && forall y :: y in gone <==> Garbage(s.repo, y)
    requires x in s.repo.checkpoints
    ensures x in RemoveAll(s, gone).repo.checkpoints <==> x !in s.repo.dag.nodes || Kept(s.repo, x)
    ensures Protected(s.repo, x) ==> x in RemoveAll(s, gone).repo.checkpoints
  {
    RemoveAllIs(s, gone);
    if Protected(s.repo, x) {
      ReachSelf(s.repo.dag.nodes, x);
    }
  }

  ghost predicate Converse(g: Graph, h: Graph) {
    forall a, b :: b in Succ(g, a) <==> a in Succ(h, b)
  }

  lemma {:induction false} WalkBack(g: Graph, h: Graph, a: Id, b: Id, n: nat)
    requires Converse(g, h) && Walk(g, a, b, n)
    ensures Walk(h, b, a, n)
    decreases n
  {
    if n > 0 {
      var z :| Walk(g, a, z, n - 1) && b in Succ(g, z);
      WalkBack(g, h, a, z, n - 1);
      assert Walk(h, b, b, 0);
      WalkStep(h, b, b, z, 0);
      WalkConcat(h, b, z, a, 1, n - 1);
    }
  }

  lemma GrownConverse(cps: map<Id, Checkpoint>, d: Dag.State)
    requires Histories.Grown(cps, d)
    ensures Converse(d.nodes, Up(cps)) && Converse(Up(cps), d.nodes)
  {
    forall a, b
      ensures b in Succ(d.nodes, a) <==> a in Succ(Up(cps), b)
    {
      Histories.SuccIsChild(cps, a, b);
      SuccIsParent(ParentMap(cps), b, a);
    }
  }

  /** A walk down the graph is a walk up the parents, read backwards. */
  lemma UpIsDown(cps: map<Id, Checkpoint>, d: Dag.State, a: Id, b: Id, n: nat)
    requires Histories.Grown(cps, d)
    ensures Walk(d.nodes, a, b, n) <==> Walk(Up(cps), b, a, n)
  {
    GrownConverse(cps, d);
    if Walk(d.nodes, a, b, n) {
      WalkBack(d.nodes, Up(cps), a, b, n);
    }
    if Walk(Up(cps), b, a, n) {
      WalkBack(Up(cps), d.nodes, b, a, n);
    }
  }

  /** In every grown repository the search ends, and its depth is the generation kept. */
  lemma DepthIsGeneration(cps: map<Id, Checkpoint>, d: Dag.State, id: Id)
    requires Histories.Grown(cps, d) && id in cps
    ensures Acyclic(Up(cps))
    ensures id in d.generation && forall n: nat :: Deepest(Up(cps), id, n) <==> n == d.generation[id]
  {
    GrownUpAcyclic(cps, d);
    Reload.GenerationIsLongest(cps, d, id);
    var root :| Walk(d.nodes, root, id, d.generation[id]);
    UpIsDown(cps, d, root, id, d.generation[id]);
    forall x, k: nat | Walk(Up(cps), id, x, k)
      ensures k <= d.generation[id]
    {
      UpIsDown(cps, d, x, id, k);
    }
  }

  lemma GrownUpAcyclic(cps: map<Id, Checkpoint>, d: Dag.State)
    requires Histories.Grown(cps, d)
    ensures Acyclic(Up(cps))
  {
    Reload.GrownRises(cps, d);
    RisingIsAcyclic(d.nodes, d.generation);
    forall x, k: nat | k > 0
      ensures !Walk(Up(cps), x, x, k)
    {
      UpIsDown(cps, d, x, x, k);
    }
  }

  /** A repository grown from its root holds no garbage while one branch is left: the root is
      an ancestor of that branch's head and reaches everything. */
  lemma NothingIsGarbage(r: Repo, x: Id)
    requires Histories.Grown(r.checkpoints, r.dag)
    requires r.branches != [] && r.branches[0].head in r.checkpoints
    ensures !Garbage(r, x)
  {
    if x in r.checkpoints {
      var head := r.branches[0].head;
      var root := Reload.RootWalk(r.checkpoints, r.dag, head);
      UpIsDown(r.checkpoints, r.dag, root, head, r.dag.generation[head]);
      assert Protected(r, root) by {
        assert r.branches[0] in r.branches && Reach(Up(r.checkpoints), head, root);
      }
      var base := Reload.RootWalk(r.checkpoints, r.dag, x);
      assert base == root;
      assert Reach(r.dag.nodes, root, x);
    }
  }

  /** So after every run a collection removes nothing. */
  lemma CollectionIsIdle(s: State, actions: seq<Action>, gone: seq<Id>)
    requires Reload.Started(s) && Seated(s)
    requires forall x :: x in gone <==> Garbage(Run(s, actions).repo, x)
    ensures gone == [] && RemoveAll(Run(s, actions), gone) == Run(s, actions)
  {
    Reload.StartedSound(s);
    Histories.RunSound(s, actions);
    var r := Run(s, actions).repo;
    assert r.branches[0] in r.branches;
    if gone != [] {
      NothingIsGarbage(r, gone[0]);
    }
  }

  /** After every run the search ends on every checkpoint, and the depth that it measures is the
      generation kept by the graph, and so the longest path from a root. */
  lemma MeasuredDepthIsLongest(s: State, actions: seq<Action>, id: Id, depth: nat)
    requires Reload.Started(s) && Seated(s) && id in Run(s, actions).repo.checkpoints
    ensures var r := Run(s, actions).repo;
      && Acyclic(Up(r.checkpoints))
      && id in r.dag.generation
      && (Deepest(Up(r.checkpoints), id, depth) <==> depth == r.dag.generation[id])
      && (Deepest(Up(r.checkpoints), id, depth) ==> Reload.Longest(r.dag.nodes, id, depth))
  {
    Reload.StartedSound(s);
    Histories.RunSound(s, actions);
    var r := Run(s, actions).repo;
    DepthIsGeneration(r.checkpoints, r.dag, id);
    Reload.GenerationIsLongest(r.checkpoints, r.dag, id);
  }
}
