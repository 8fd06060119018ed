/** Opening a store: the repository object rebuilt from its tables (src/checkpoint/repo.rs). */
module Loading {
  import opened Checkpoints
  import opened Graph
  import opened Search
  import opened Tables
  import opened Repository
  import opened CheckpointRepos
  import Dag

  /** A graph object that so far holds these nodes and edges. */
  ghost predicate Holds(d: Dag.State, vs: set<Id>, es: set<(Id, Id)>) {
    Ends(es) <= vs && d.nodes == GraphFrom(vs, es) && d.generation.Keys == vs && AllMeasured(d.nodes, d.generation)
  }

  lemma NodeHeld(d: Dag.State, vs: set<Id>, es: set<(Id, Id)>, x: Id)
    requires Holds(d, vs, es)
    ensures Holds(Dag.WithNode(d, x), vs + {x}, es)
  {
    var e := Dag.WithNode(d, x);
    if x !in vs {
      NoChildren(vs, es, x);
      assert Walk(e.nodes, x, x, 0);
    }
    assert e.nodes == GraphFrom(vs + {x}, es);
    forall y | y in e.nodes
      ensures Measured(e.nodes, e.generation, y)
    {
      NodeMeasured(d, vs, es, x, y);
    }
  }

  lemma NodeMeasured(d: Dag.State, vs: set<Id>, es: set<(Id, Id)>, x: Id, y: Id)
    requires Holds(d, vs, es) && y in vs + {x}
    ensures var e := Dag.WithNode(d, x); Measured(e.nodes, e.generation, y)
  {
    var e := Dag.WithNode(d, x);
    assert forall a :: Succ(e.nodes, a) == Succ(d.nodes, a);
    if y in vs {
      assert Measured(d.nodes, d.generation, y);
      var a :| Walk(d.nodes, a, y, d.generation[y]);
      SameWalk(d.nodes, e.nodes, a, y, d.generation[y]);
    } else {
      assert Walk(e.nodes, y, y, 0);
    }
  }

  lemma {:induction false} SameWalk(g: Graph, h: Graph, a: Id, b: Id, n: nat)
    requires Walk(g, a, b, n) && forall x :: Succ(g, x) == Succ(h, x)
    ensures Walk(h, a, b, n)
    decreases n
  {
    if n > 0 {
      var z :| Walk(g, a, z, n - 1) && b in Succ(g, z);
      SameWalk(g, h, a, z, n - 1);
    }
  }

  lemma EdgeHeld(d: Dag.State, vs: set<Id>, es: set<(Id, Id)>, p: Id, c: Id)
    requires Holds(d, vs, es)
    ensures Holds(Dag.Linked(d, p, c), vs + {p, c}, es + {(p, c)})
  {
    var e := Dag.Linked(d, p, c);
    GraphFromMore(vs, es, p, c);
    assert e.generation.Keys == vs + {p, c};
    forall y | y in e.nodes
      ensures Measured(e.nodes, e.generation, y)
    {
      EdgeMeasured(d, vs, es, p, c, y);
    }
  }

  /** Before the edge: a walk of the length of the generation, whether `y` is there or not. */
  lemma WalkTo(d: Dag.State, vs: set<Id>, es: set<(Id, Id)>, y: Id) returns (a: Id)
    requires Holds(d, vs, es)
    ensures Walk(d.nodes, a, y, Dag.Generation(d, y))
    ensures Dag.Generation(d, y) == 0 ==> forall x :: y !in Succ(d.nodes, x)
  {
    if y in vs {
      assert Measured(d.nodes, d.generation, y);
      a :| Walk(d.nodes, a, y, d.generation[y]);
    } else {
      a := y;
      assert forall x :: Succ(d.nodes, x) <= Ends(es);
    }
  }

  lemma WalkAfter(g: Graph, p: Id, c: Id, a: Id, y: Id, n: nat, b: Id, m: nat, k: nat)
    requires Walk(g, a, y, n) && Walk(g, b, p, m) && (k == n || (y == c && k == m + 1))
    ensures exists x :: Walk(AddEdge(g, p, c), x, y, k)
  {
    if k == n {
      WalkGrows(g, p, c, a, y, n);
    } else {
      WalkGrows(g, p, c, b, p, m);
      AddEdgeSucc(g, p, c, p);
      WalkStep(AddEdge(g, p, c), b, p, c, m);
    }
  }

  lemma NothingInto(g: Graph, p: Id, c: Id, y: Id)
    requires y != c && forall x :: y !in Succ(g, x)
    ensures forall x :: y !in Succ(AddEdge(g, p, c), x)
  {
    forall x
      ensures y !in Succ(AddEdge(g, p, c), x)
    {
      AddEdgeSucc(g, p, c, x);
    }
  }

  lemma EdgeMeasured(d: Dag.State, vs: set<Id>, es: set<(Id, Id)>, p: Id, c: Id, y: Id)
    requires Holds(d, vs, es) && y in vs + {p, c}
    ensures Measured(AddEdge(d.nodes, p, c), Dag.Linked(d, p, c).generation, y)
  {
    var g, k := d.nodes, Dag.Linked(d, p, c).generation[y];
    var a := WalkTo(d, vs, es, y);
    var b := WalkTo(d, vs, es, p);
    WalkAfter(g, p, c, a, y, Dag.Generation(d, y), b, Dag.Generation(d, p), k);
    if k == 0 {
      NothingInto(g, p, c, y);
    }
  }

  function Out(p: Id, children: set<Id>): set<(Id, Id)> {
    set c | c in children :: (p, c)
  }

  lemma OutMore(vs: set<Id>, es: set<(Id, Id)>, p: Id, done: set<Id>, c: Id)
    requires p in vs
    ensures es + Out(p, done) + {(p, c)} == es + Out(p, done + {c})
    ensures vs + done + {p, c} == vs + (done + {c})
  {
    assert Out(p, done + {c}) == Out(p, done) + {(p, c)};
  }

  method AddChildren(dag: Dag.CheckpointDag, p: Id, children: set<Id>, ghost vs: set<Id>, ghost es: set<(Id, Id)>)
    requires Holds(dag.View(), vs, es) && p in vs
    modifies dag
    ensures Holds(dag.View(), vs + children, es + Out(p, children))
  {
    var rest := children;
    ghost var done: set<Id> := {};
    assert vs + {} == vs && es + Out(p, {}) == es;
    while rest != {}
      invariant rest + done == children && rest !! done
      invariant Holds(dag.View(), vs + done, es + Out(p, done))
      decreases rest
    {
      var c :| c in rest;
      EdgeHeld(dag.View(), vs + done, es + Out(p, done), p, c);
      OutMore(vs, es, p, done, c);
      dag.AddEdgeUnchecked(p, c);
      rest, done := rest - {c}, done + {c};
    }
    assert done == children;
  }

  /** The edges that start outside a set of nodes. */
  function Elsewhere(es: set<(Id, Id)>, rest: set<Id>): set<(Id, Id)> {
    set e | e in es && e.0 !in rest
  }

  lemma ElsewhereMore(es: set<(Id, Id)>, rest: set<Id>, n: Id)
    requires n in rest
    ensures Elsewhere(es, rest) + Out(n, Children(es, n)) == Elsewhere(es, rest - {n})
    ensures Children(es, n) <= Ends(es)
  {
  }

  /** Nodes and edges from the loaded maps, then their generations. */
  method RestoreDag(store: CheckpointStore) returns (dag: Dag.CheckpointDag)
    ensures fresh(dag) && Restored(store.View(), dag.View())
  {
    var nodes, gens := store.LoadDag();
    dag := new Dag.CheckpointDag();
    var rest := nodes.Keys;
    ghost var vs: set<Id> := {};
    while rest != {}
      invariant fresh(dag) && rest <= nodes.Keys && nodes.Keys - rest <= vs <= nodes.Keys
      invariant Holds(dag.View(), vs, Elsewhere(store.edges, rest))
      decreases rest
    {
      var n :| n in rest;
      ghost var es := Elsewhere(store.edges, rest);
      NodeHeld(dag.View(), vs, es, n);
      dag.AddNode(n);
      AddChildren(dag, n, nodes[n], vs + {n}, es);
      ElsewhereMore(store.edges, rest, n);
      vs := vs + {n} + nodes[n];
      rest := rest - {n};
    }
    assert Elsewhere(store.edges, {}) == store.edges;
    ghost var plain := dag.View();
    var left := gens.Keys;
    while left != {}
      invariant fresh(dag) && left <= gens.Keys
      invariant dag.View().nodes == plain.nodes && dag.View().generation.Keys == plain.nodes.Keys
      invariant forall id :: id in plain.nodes ==>
          dag.View().generation[id] == if id in gens && id !in left then gens[id] else plain.generation[id]
      decreases left
    {
      var id :| id in left;
      left := left - {id};
      var known := dag.HasNode(id);
      if known {
        dag.SetGeneration(id, gens[id]);
      }
    }
  }

  function Into(parents: seq<Id>, id: Id): set<(Id, Id)> {
    set p | p in parents :: (p, id)
  }

  lemma IntoMore(vs: set<Id>, es: set<(Id, Id)>, parents: seq<Id>, id: Id, i: nat)
    requires i < |parents| && id in vs
    ensures es + Into(parents[..i], id) + {(parents[i], id)} == es + Into(parents[..i + 1], id)
    ensures vs + Seen(parents[..i]) + {parents[i], id} == vs + Seen(parents[..i + 1])
  {
    assert parents[..i + 1] == parents[..i] + [parents[i]];
    assert forall q :: q in parents[..i + 1] <==> q in parents[..i] || q == parents[i];
    assert Into(parents[..i + 1], id) == Into(parents[..i], id) + {(parents[i], id)};
  }

  /** The edges from all parents, in order. */
  function LinkParents(d: Dag.State, parents: seq<Id>, c: Id): Dag.State
    decreases |parents|
  {
    if parents == [] then d
    else Dag.Linked(LinkParents(d, parents[..|parents| - 1], c), parents[|parents| - 1], c)
  }

  /** The graph of checkpoints that are inserted in the given order. */
  function Inserted(cps: map<Id, Checkpoint>, order: seq<Id>): Dag.State
    requires Seen(order) <= cps.Keys
    decreases |order|
  {
    if order == [] then Dag.NO_NODES
    else
      var init, id := order[..|order| - 1], order[|order| - 1];
      assert id in Seen(order) && Seen(init) <= Seen(order);
      LinkParents(Dag.WithNode(Inserted(cps, init), id), cps[id].parents, id)
  }

  lemma InsertedSnoc(cps: map<Id, Checkpoint>, order: seq<Id>, id: Id)
    requires Distinct(order) && Seen(order) <= cps.Keys && id in cps && id !in order
    ensures Distinct(order + [id]) && Seen(order + [id]) == Seen(order) + {id}
    ensures Inserted(cps, order + [id]) == LinkParents(Dag.WithNode(Inserted(cps, order), id), cps[id].parents, id)
  {
    assert (order + [id])[..|order|] == order;
  }

  method AddParents(dag: Dag.CheckpointDag, id: Id, parents: seq<Id>, ghost vs: set<Id>, ghost es: set<(Id, Id)>)
    requires Holds(dag.View(), vs, es) && id in vs
    modifies dag
    ensures dag.View() == LinkParents(old(dag.View()), parents, id)
    ensures Holds(dag.View(), vs + Seen(parents), es + Into(parents, id))
  {
    var i := 0;
    assert vs + Seen([]) == vs && es + Into([], id) == es;
    while i < |parents|
      invariant 0 <= i <= |parents|
      invariant dag.View() == LinkParents(old(dag.View()), parents[..i], id)
      invariant Holds(dag.View(), vs + Seen(parents[..i]), es + Into(parents[..i], id))
    {
      assert parents[..i + 1][..i] == parents[..i];
      EdgeHeld(dag.View(), vs + Seen(parents[..i]), es + Into(parents[..i], id), parents[i], id);
      IntoMore(vs, es, parents, id, i);
      dag.AddEdgeUnchecked(parents[i], id);
      i := i + 1;
    }
    assert parents[..i] == parents;
  }

  /** A graph object that holds the parent relation of the checkpoints added so far. */
  ghost predicate Building(d: Dag.State, done: map<Id, Checkpoint>) {
    Holds(d, done.Keys + Ends(ParentEdges(done)), ParentEdges(done))
  }

  method AddCheckpoint(dag: Dag.CheckpointDag, id: Id, cp: Checkpoint, ghost done: map<Id, Checkpoint>)
    requires Building(dag.View(), done) && id !in done
    modifies dag
    ensures dag.View() == LinkParents(Dag.WithNode(old(dag.View()), id), cp.parents, id)
    ensures Building(dag.View(), done[id := cp])
  {
    ghost var vs, es := done.Keys + Ends(ParentEdges(done)), ParentEdges(done);
    NodeHeld(dag.View(), vs, es, id);
    dag.AddNode(id);
    AddParents(dag, id, cp.parents, vs + {id}, es);
    DoneMore(done, id, cp);
  }

  /** The fallback for stores without graph rows; the map is listed in some order. */
  method BuildDag(cps: map<Id, Checkpoint>) returns (dag: Dag.CheckpointDag, ghost order: seq<Id>)
    ensures fresh(dag) && Rebuilt(cps, dag.View())
    ensures Distinct(order) && Seen(order) == cps.Keys && dag.View() == Inserted(cps, order)
  {
    dag := new Dag.CheckpointDag();
    var rest := cps.Keys;
    order := [];
    NothingBuilt();
    assert cps - rest == map[];
    while rest != {}
      invariant fresh(dag) && rest <= cps.Keys && Building(dag.View(), cps - rest)
      invariant Distinct(order) && Seen(order) == cps.Keys - rest && dag.View() == Inserted(cps, order)
      decreases rest
    {
      var id :| id in rest;
      OneMore(cps, rest, id);
      InsertedSnoc(cps, order, id);
      AddCheckpoint(dag, id, cps[id], cps - rest);
      rest, order := rest - {id}, order + [id];
    }
    assert cps - {} == cps;
  }

  lemma OneMore(cps: map<Id, Checkpoint>, rest: set<Id>, id: Id)
    requires id in rest && rest <= cps.Keys
    ensures id !in cps - rest && (cps - rest)[id := cps[id]] == cps - (rest - {id})
  {
  }

  lemma NothingBuilt()
    ensures Building(Dag.NO_NODES, map[])
  {
  }

  lemma DoneMore(done: map<Id, Checkpoint>, id: Id, cp: Checkpoint)
    requires id !in done
    ensures var more := done[id := cp];
      && ParentEdges(more) == ParentEdges(done) + Into(cp.parents, id)
      && more.Keys + Ends(ParentEdges(more)) == done.Keys + Ends(ParentEdges(done)) + {id} + Seen(cp.parents)
  {
    var more, added := done[id := cp], Into(cp.parents, id);
    forall e
      ensures e in ParentEdges(more) <==> e in ParentEdges(done) || e in added
    {
      if e in ParentEdges(done) {
        assert e.1 in more && e.0 in more[e.1].parents;
      }
      if e in added {
        assert e.1 in more && e.0 in more[e.1].parents;
      }
    }
    EndsOfBoth(ParentEdges(done), added);
    assert forall x :: x in Ends(added) ==> x == id || x in cp.parents;
    forall x | x in cp.parents
      ensures x in Ends(added)
    {
      assert (x, id) in added && (x, id).0 == x;
    }
  }

  lemma EndsOfBoth(a: set<(Id, Id)>, b: set<(Id, Id)>)
    ensures Ends(a + b) == Ends(a) + Ends(b)
  {
  }

  /** An empty store is given its root and `main`; then graph and current branch are read. */
  method Load(store: CheckpointStore) returns (repo: CheckpointRepo, ghost rows: seq<Branch>)
    modifies store
    ensures fresh(repo) && fresh(repo.dag) && repo.storage == store
    ensures Lists(rows, old(store.branches)) && ByName(rows)
    ensures Loaded(old(store.View()), rows, repo.View())
  {
    var branches := store.ListBranches();
    rows := branches;
    if store.checkpoints == map[] {
      var root := RootCheckpoint([]);
      store.StoreCheckpoint(root);
      store.StoreBranch(Branch("main", root.id));
      branches := branches + [Branch("main", root.id)];
      store.StoreCurrentBranch("main");
    }
    assert store.View() == Booted(old(store.View())) && branches == BootedRows(old(store.View()), rows);
    var persisted := false;
    if branches != [] {
      persisted := store.DagHasNode(branches[0].head);
    }
    var graph;
    if persisted {
      graph := RestoreDag(store);
    } else {
      ghost var order;
      graph, order := BuildDag(store.checkpoints);
    }
    var name := if store.current.Some? then store.current.value else "main";
    repo := new CheckpointRepo.Assemble(branches, Position(branches, name), graph, store.checkpoints, store);
  }
}
