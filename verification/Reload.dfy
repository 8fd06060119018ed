/** Theorems over whole runs of the repository: what the graph is, what generations are, and
    that loading the tables yields the repository that wrote them. */
module Reload {
  import opened Results
  import opened Checkpoints
  import opened Graph
  import opened Tables
  import opened Repository
  import opened Histories
  import Dag

  /** Where runs start: a new repository without a store, or an empty store opened. */
  ghost predicate Started(s: State) {
    (exists snapshots :: s == State(Initial(snapshots), None)) || Loaded(NO_ROWS, [], s)
  }

  lemma StartedSound(s: State)
    requires Started(s)
    ensures Sound(s)
  {
    if Loaded(NO_ROWS, [], s) {
      InitialGrown([]);
      BootIs(s);
    } else {
      var snapshots :| s == State(Initial(snapshots), None);
      InitialGrown(snapshots);
    }
  }

  /** An empty store opens as the new repository without snapshots. */
  lemma BootIs(s: State)
    requires Loaded(NO_ROWS, [], s)
    ensures s.repo == Initial([]) && s.db.Some? && Mirror(s.repo, s.db.value)
  {
    var r := Initial([]);
    var root := RootCheckpoint([]).id;
    InitialGrown([]);
    assert s.repo.checkpoints == map[root := RootCheckpoint([])];
    assert s.repo.branches == [Branch("main", root)];
    RebuiltAlone(s.repo.checkpoints, s.repo.dag, r.dag, root);
    var db := s.db.value;
    assert db.branches == map["main" := root] && Branch("main", root) in s.repo.branches;
    assert s.repo.checkpoints.Keys == {root};
  }

  /** Rebuilding from a single root gives the one graph there is over it. */
  lemma RebuiltAlone(cps: map<Id, Checkpoint>, d: Dag.State, e: Dag.State, root: Id)
    requires cps.Keys == {root} && ParentEdges(cps) == {} && Grown(cps, e) && Rebuilt(cps, d)
    ensures d == e
  {
    assert cps.Keys + Ends({}) == {root};
    assert root in cps && Level(e.generation, root);
    assert Measured(d.nodes, d.generation, root);
    assert d.generation == e.generation;
  }

  // ---- the graph -----------------------------------------------------------------

  lemma GrownRises(cps: map<Id, Checkpoint>, d: Dag.State)
    requires Grown(cps, d)
    ensures Dag.Ordered(d)
  {
    forall a, b
      ensures Rises(d.nodes, d.generation, a, b)
    {
      if b in Succ(d.nodes, a) {
        SuccIsChild(cps, a, b);
        assert Level(d.generation, b);
      }
    }
  }

  /** `n` is the length of the longest walk to `id`, and one of that length starts at a root. */
  ghost predicate Longest(g: Graph, id: Id, n: nat) {
    && (exists root :: IsRoot(root) && Walk(g, root, id, n))
    && (forall a, k: nat :: Walk(g, a, id, k) ==> k <= n)
  }

  lemma {:induction false} RootWalk(cps: map<Id, Checkpoint>, d: Dag.State, id: Id) returns (root: Id)
    requires Grown(cps, d) && id in cps
    ensures id in d.generation && root in cps && IsRoot(root) && Walk(d.nodes, root, id, d.generation[id])
    decreases if id in d.generation then d.generation[id] else 0
  {
    assert Level(d.generation, id);
    if id.parents == [] {
      root := id;
    } else {
      var p :| p in id.parents && p in d.generation && d.generation[id] == d.generation[p] + 1;
      root := RootWalk(cps, d, p);
      SuccIsChild(cps, p, id);
      WalkStep(d.nodes, root, p, id, d.generation[p]);
    }
  }

  lemma GenerationIsLongest(cps: map<Id, Checkpoint>, d: Dag.State, id: Id)
    requires Grown(cps, d) && id in cps
    ensures id in d.generation && Longest(d.nodes, id, d.generation[id])
  {
    var root := RootWalk(cps, d, id);
    GrownRises(cps, d);
    forall a, k: nat | Walk(d.nodes, a, id, k)
      ensures k <= d.generation[id]
    {
      if k > 0 {
        RisingWalk(d.nodes, d.generation, a, id, k);
      }
    }
  }

  /** What the graph of a repository is. */
  ghost predicate GraphLaws(r: Repo) {
    && (forall a, b :: b in Succ(r.dag.nodes, a) <==> b in r.checkpoints && a in r.checkpoints[b].parents)
    && Dag.Ordered(r.dag) && Acyclic(r.dag.nodes)
    && (forall a, b :: Dag.Ancestor(r.dag, a, b) <==> Reach(r.dag.nodes, a, b))
    && (forall id :: id in r.checkpoints ==>
          id in r.dag.generation && Longest(r.dag.nodes, id, r.dag.generation[id]))
  }

  /** After every run the edges are the checkpoints' parent relation, the graph is acyclic, the
      pruned ancestor test is true reachability, and generations are longest paths. */
  lemma EveryRunKeepsGraph(s: State, actions: seq<Action>)
    requires Started(s) && Seated(s)
    ensures GraphLaws(Run(s, actions).repo)
  {
    StartedSound(s);
    RunSound(s, actions);
    SoundGraph(Run(s, actions).repo);
  }

  lemma SoundGraph(r: Repo)
    requires Grown(r.checkpoints, r.dag)
    ensures GraphLaws(r)
  {
    GrownRises(r.checkpoints, r.dag);
    RisingIsAcyclic(r.dag.nodes, r.dag.generation);
    forall a, b
      ensures b in Succ(r.dag.nodes, a) <==> b in r.checkpoints && a in r.checkpoints[b].parents
    {
      SuccIsChild(r.checkpoints, a, b);
    }
    forall a, b
      ensures Dag.Ancestor(r.dag, a, b) <==> Reach(r.dag.nodes, a, b)
    {
      Dag.AncestorIsExact(r.dag, a, b);
    }
    forall id | id in r.checkpoints
      ensures id in r.dag.generation && Longest(r.dag.nodes, id, r.dag.generation[id])
    {
      GenerationIsLongest(r.checkpoints, r.dag, id);
    }
  }

  // ---- memory and tables -----------------------------------------------------------

  /** The same repository, up to the order in which branches are listed. */
  ghost predicate SameRepo(r: Repo, t: Repo) {
    && t.dag == r.dag && t.checkpoints == r.checkpoints
    && (forall b :: b in t.branches <==> b in r.branches)
    && r.current < |r.branches| && t.current < |t.branches|
    && Current(t) == Current(r)
  }

  lemma ListsSame(xs: seq<Branch>, ys: seq<Branch>, table: map<string, Id>)
    requires Lists(xs, table) && Lists(ys, table)
    ensures forall b :: b in xs <==> b in ys
  {
  }

  /** The first listed branch has its head among the checkpoints. */
  lemma FirstHead(r: Repo, db: Db, rows: seq<Branch>)
    requires Headed(r) && Lists(r.branches, db.branches) && Lists(rows, db.branches)
    ensures rows != [] && rows[0].head in r.checkpoints
  {
    ListsSame(rows, r.branches, db.branches);
    assert Current(r) in r.branches && Current(r) in rows;
    assert rows[0] in rows;
  }

  lemma RestoredExact(cps: map<Id, Checkpoint>, e: Dag.State, db: Db, d: Dag.State)
    requires Grown(cps, e) && db.edges == ParentEdges(cps) && Ends(db.edges) == cps.Keys
    requires db.generations == e.generation && Restored(db, d)
    ensures d == e
  {
    assert d.generation == e.generation;
  }

  lemma LoadedGraph(r: Repo, db: Db, rows: seq<Branch>, t: State)
    requires Sound(State(r, Some(db))) && Lists(rows, db.branches) && Loaded(db, rows, t)
    ensures t.repo.dag == r.dag
  {
    FirstHead(r, db, rows);
    if db.edges == {} {
      var root :| r.checkpoints.Keys == {root};
      RebuiltAlone(r.checkpoints, t.repo.dag, r.dag, root);
    } else {
      RestoredExact(r.checkpoints, r.dag, db, t.repo.dag);
    }
  }

  /** The recorded name finds the current branch in any listing. */
  lemma CurrentListed(r: Repo, db: Db, rows: seq<Branch>)
    requires Headed(r) && Mirror(r, db) && Lists(rows, db.branches)
    ensures Position(rows, Current(r).name) < |rows| && rows[Position(rows, Current(r).name)] == Current(r)
  {
    assert Current(r) in r.branches;
    ListsSame(rows, r.branches, db.branches);
    assert Current(r) in rows;
    var i := FindBranch(rows, Current(r).name).value;
    assert rows[i] in rows;
  }

  lemma LoadedSame(r: Repo, db: Db, rows: seq<Branch>, t: State)
    requires Sound(State(r, Some(db))) && Lists(rows, db.branches) && Loaded(db, rows, t)
    requires db.checkpoints != map[]
    ensures SameRepo(r, t.repo) && t.db == Some(db) && t.repo.branches == rows
  {
    LoadedGraph(r, db, rows, t);
    ListsSame(rows, r.branches, db.branches);
    CurrentListed(r, db, rows);
  }

  /** The order of branches does not matter. */
  lemma SameSound(r: Repo, db: Db, t: State)
    requires Sound(State(r, Some(db))) && SameRepo(r, t.repo)
    requires t.db == Some(db) && Lists(t.repo.branches, db.branches)
    ensures Sound(t)
  {
  }

  /** Loading what a sound repository has written yields that repository. */
  lemma LoadIsExact(r: Repo, db: Db, rows: seq<Branch>, t: State)
    requires Sound(State(r, Some(db))) && Lists(rows, db.branches) && Loaded(db, rows, t)
    ensures SameRepo(r, t.repo) && t.db == Some(db) && Sound(t)
  {
    assert Current(r) in r.branches && db.checkpoints != map[];
    LoadedSame(r, db, rows, t);
    SameSound(r, db, t);
  }

  /** After any run from an empty store, loading yields the same graph, generations,
      checkpoints, branches and current branch, and later runs go on from there. */
  lemma ReloadIsExact(s: State, actions: seq<Action>, rows: seq<Branch>, t: State)
    requires Loaded(NO_ROWS, [], s) && Seated(s)
    requires Run(s, actions).db.Some? && Lists(rows, Run(s, actions).db.value.branches)
    requires Loaded(Run(s, actions).db.value, rows, t)
    ensures SameRepo(Run(s, actions).repo, t.repo) && t.db == Run(s, actions).db && Sound(t)
  {
    StartedSound(s);
    RunSound(s, actions);
    var w := Run(s, actions);
    LoadIsExact(w.repo, w.db.value, rows, t);
  }

  /** A store opens on the branch whose name is recorded, on `main` when none is, and on the first
      one listed when there is no branch of that name. */
  lemma OpensOn(before: Db, rows: seq<Branch>, s: State)
    requires Loaded(before, rows, s) && s.repo.branches != []
    ensures Seated(s)
    ensures var name := if Booted(before).current.Some? then Booted(before).current.value else "main";
      if exists b :: b in s.repo.branches && b.name == name then Current(s.repo).name == name
      else Current(s.repo) == s.repo.branches[0]
  {
    var name := if Booted(before).current.Some? then Booted(before).current.value else "main";
    var found := FindBranch(s.repo.branches, name);
    if found.Some? {
      assert s.repo.branches[found.value] in s.repo.branches;
    }
  }
}
