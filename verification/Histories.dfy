/** What every run of the repository keeps: the graph is the parent relation, generations are
    longest paths, and the tables mirror the memory. */
module Histories {
  import opened Results
  import opened Checkpoints
  import opened Graph
  import opened Tables
  import opened Repository
  import Dag

  // ---- the invariant -----------------------------------------------------------

  /** A checkpoint's fields are the content its identifier was made from. */
  ghost predicate Honest(cps: map<Id, Checkpoint>) {
    forall id :: id in cps ==>
      cps[id] == NewCheckpoint(id.snapshots, id.parents, id.author, id.message).(gitAnchor := cps[id].gitAnchor)
  }

  ghost predicate ParentsIn(cps: map<Id, Checkpoint>, id: Id) {
    forall p :: p in id.parents ==> p in cps
  }

  ghost predicate Closed(cps: map<Id, Checkpoint>) {
    forall id {:trigger ParentsIn(cps, id)} :: id in cps ==> ParentsIn(cps, id)
  }

  predicate IsRoot(id: Id) {
    id.parents == []
  }

  ghost predicate OneRoot(cps: map<Id, Checkpoint>) {
    forall a, b {:trigger IsRoot(a), IsRoot(b)} :: a in cps && b in cps && IsRoot(a) && IsRoot(b) ==> a == b
  }

  /** One above the highest parent, or 0. */
  ghost predicate Level(gen: map<Id, nat>, id: Id) {
    && id in gen
    && (id.parents == [] ==> gen[id] == 0)
    && (forall p :: p in id.parents ==> p in gen && gen[p] < gen[id])
    && (id.parents != [] ==> exists p :: p in id.parents && p in gen && gen[id] == gen[p] + 1)
  }

  ghost predicate Leveled(cps: map<Id, Checkpoint>, gen: map<Id, nat>) {
    gen.Keys == cps.Keys && forall id {:trigger Level(gen, id)} :: id in cps ==> Level(gen, id)
  }

  /** The graph is exactly the checkpoints' parent relation, with levels for generations. */
  ghost predicate Grown(cps: map<Id, Checkpoint>, d: Dag.State) {
    && Honest(cps) && Closed(cps) && OneRoot(cps)
    && d.nodes == GraphFrom(cps.Keys, ParentEdges(cps))
    && Leveled(cps, d.generation)
  }

  ghost predicate Headed(r: Repo) {
    && r.current < |r.branches|
    && (forall i, j :: 0 <= i < j < |r.branches| ==> r.branches[i].name != r.branches[j].name)
    && (forall b :: b in r.branches ==> b.head in r.checkpoints)
  }

  ghost predicate Plain(cps: map<Id, Checkpoint>) {
    forall id :: id in cps ==> cps[id].gitAnchor.None?
  }

  /** The tables hold the memory. Generations are written with the first edge. */
  ghost predicate Mirror(r: Repo, db: Db) {
    && r.current < |r.branches|
    && db.checkpoints == r.checkpoints
    && Lists(r.branches, db.branches)
    && db.current == Some(Current(r).name)
    && db.edges == ParentEdges(r.checkpoints)
    && (db.edges == {} ==> db.generations == map[] && exists root :: r.checkpoints.Keys == {root})
    && (db.edges != {} ==> db.generations == r.dag.generation && Ends(db.edges) == r.checkpoints.Keys)
  }

  ghost predicate Sound(s: State) {
    && Headed(s.repo) && Grown(s.repo.checkpoints, s.repo.dag) && Plain(s.repo.checkpoints)
    && (s.db.Some? ==> Mirror(s.repo, s.db.value))
  }

  // ---- growing the graph ---------------------------------------------------------

  lemma EdgeIsParent(cps: map<Id, Checkpoint>, a: Id, b: Id)
    requires Honest(cps)
    ensures (a, b) in ParentEdges(cps) <==> b in cps && a in b.parents
  {
  }

  lemma EndsAreLoaded(cps: map<Id, Checkpoint>)
    requires Honest(cps) && Closed(cps)
    ensures Ends(ParentEdges(cps)) <= cps.Keys
  {
    forall e | e in ParentEdges(cps)
      ensures e.0 in cps && e.1 in cps
    {
      EdgeIsParent(cps, e.0, e.1);
      assert ParentsIn(cps, e.1);
    }
  }

  lemma SuccIsChild(cps: map<Id, Checkpoint>, a: Id, b: Id)
    requires Honest(cps) && Closed(cps)
    ensures b in Succ(GraphFrom(cps.Keys, ParentEdges(cps)), a) <==> b in cps && a in b.parents
  {
    EdgeIsParent(cps, a, b);
    if b in cps && a in b.parents {
      assert ParentsIn(cps, b);
      assert (a, b) in ParentEdges(cps);
    }
  }

  /** Offering an edge that is there changes nothing. */
  lemma TriedAgain(d: Dag.State, p: Id, c: Id)
    requires p in d.nodes && c in d.nodes && c in d.nodes[p]
    requires p in d.generation && c in d.generation && d.generation[p] < d.generation[c]
    ensures EdgeTried(d, p, c) == d
  {
    assert Succ(d.nodes, p) + {c} == d.nodes[p];
    assert AddEdge(d.nodes, p, c) == d.nodes;
    assert Dag.Max(d.generation[c], d.generation[p] + 1) == d.generation[c];
    assert Dag.Linked(d, p, c).generation == d.generation;
  }

  lemma {:induction false} AllTriedAgain(cps: map<Id, Checkpoint>, d: Dag.State, parents: seq<Id>, c: Id)
    requires Grown(cps, d) && c in cps && forall p :: p in parents ==> p in c.parents
    ensures EdgesTried(d, parents, c) == d
    decreases |parents|
  {
    if parents != [] {
      var p := parents[|parents| - 1];
      AllTriedAgain(cps, d, parents[..|parents| - 1], c);
      assert p in parents && Level(d.generation, c);
      SuccIsChild(cps, p, c);
      TriedAgain(d, p, c);
    }
  }

  function To(parents: seq<Id>, c: Id): set<(Id, Id)> {
    set p | p in parents :: (p, c)
  }

  lemma ToSnoc(parents: seq<Id>, p: Id, c: Id)
    ensures To(parents + [p], c) == To(parents, c) + {(p, c)}
  {
  }

  /** One above the highest of the given nodes. */
  function Height(gen: map<Id, nat>, parents: seq<Id>): nat
    decreases |parents|
  {
    if parents == [] then 0
    else
      var p := parents[|parents| - 1];
      Dag.Max(Height(gen, parents[..|parents| - 1]), (if p in gen then gen[p] else 0) + 1)
  }

  lemma {:induction false} HeightIs(gen: map<Id, nat>, parents: seq<Id>)
    requires forall p :: p in parents ==> p in gen
    ensures forall p :: p in parents ==> gen[p] < Height(gen, parents)
    ensures parents != [] ==> exists p :: p in parents && p in gen && Height(gen, parents) == gen[p] + 1
    decreases |parents|
  {
    if parents != [] {
      var init, p := parents[..|parents| - 1], parents[|parents| - 1];
      HeightIs(gen, init);
      assert forall q :: q in parents <==> q in init || q == p;
      assert p in parents && p in gen;
      assert Height(gen, parents) == Dag.Max(Height(gen, init), gen[p] + 1);
      if Height(gen, parents) != gen[p] + 1 {
        assert init != [];
        var q :| q in init && q in gen && Height(gen, init) == gen[q] + 1;
        assert q in parents;
      }
    }
  }

  lemma LeafReachesItself(g: Graph, c: Id, p: Id)
    requires Succ(g, c) == {} && Reach(g, c, p)
    ensures p == c
  {
    var n: nat :| Walk(g, c, p, n);
    ClosedHolds(g, {c}, c, p, n);
  }

  /** A new checkpoint's edges are all accepted; it lands one above its highest parent. */
  lemma {:induction false} EdgesOfNew(vs: set<Id>, es: set<(Id, Id)>, d: Dag.State, parents: seq<Id>, c: Id)
    requires Ends(es) <= vs && c !in vs && d.nodes == GraphFrom(vs, es) && d.generation.Keys == vs
    requires forall p :: p in parents ==> p in vs
    ensures EdgesTried(Dag.WithNode(d, c), parents, c)
         == Dag.State(GraphFrom(vs + {c}, es + To(parents, c)), d.generation[c := Height(d.generation, parents)])
    ensures Ends(es + To(parents, c)) <= vs + {c}
    decreases |parents|
  {
    if parents == [] {
      LoneNode(vs, es, d, c);
    } else {
      var init, p := parents[..|parents| - 1], parents[|parents| - 1];
      assert parents == init + [p] && p in parents;
      EdgesOfNew(vs, es, d, init, c);
      NewEdge(vs, es, d.generation, init, p, c, Height(d.generation, init));
      TriedSnoc(Dag.WithNode(d, c), d.generation, init, p, c);
    }
  }

  lemma TriedSnoc(d: Dag.State, gen: map<Id, nat>, init: seq<Id>, p: Id, c: Id)
    requires p in gen && forall q :: q in init ==> q in gen
    ensures EdgesTried(d, init + [p], c) == EdgeTried(EdgesTried(d, init, c), p, c)
    ensures forall q :: q in init + [p] ==> q in gen
    ensures Height(gen, init + [p]) == Dag.Max(Height(gen, init), gen[p] + 1)
  {
    assert (init + [p])[..|init|] == init;
  }

  lemma LoneNode(vs: set<Id>, es: set<(Id, Id)>, d: Dag.State, c: Id)
    requires Ends(es) <= vs && c !in vs && d.nodes == GraphFrom(vs, es) && d.generation.Keys == vs
    ensures es + To([], c) == es
    ensures Dag.WithNode(d, c) == Dag.State(GraphFrom(vs + {c}, es), d.generation[c := 0])
  {
    NoChildren(vs, es, c);
    assert Dag.WithNode(d, c).nodes == GraphFrom(vs + {c}, es);
  }

  lemma NewEdge(vs: set<Id>, es: set<(Id, Id)>, gen: map<Id, nat>, init: seq<Id>, p: Id, c: Id, h: nat)
    requires Ends(es + To(init, c)) <= vs + {c} && Ends(es) <= vs && c !in vs && gen.Keys == vs
    requires p in vs && forall q :: q in init ==> q in vs
    ensures EdgeTried(Dag.State(GraphFrom(vs + {c}, es + To(init, c)), gen[c := h]), p, c)
         == Dag.State(GraphFrom(vs + {c}, es + To(init + [p], c)), gen[c := Dag.Max(h, gen[p] + 1)])
    ensures Ends(es + To(init + [p], c)) <= vs + {c}
  {
    var d := Dag.State(GraphFrom(vs + {c}, es + To(init, c)), gen[c := h]);
    ToSnoc(init, p, c);
    assert es + To(init + [p], c) == es + To(init, c) + {(p, c)};
    assert vs + {c} + {p, c} == vs + {c};
    GraphFromMore(vs + {c}, es + To(init, c), p, c);
    NewEdgeAccepted(vs, es, d, init, p, c);
    assert Dag.Linked(d, p, c).generation == gen[c := Dag.Max(h, gen[p] + 1)];
  }

  lemma NewEdgeAccepted(vs: set<Id>, es: set<(Id, Id)>, d: Dag.State, init: seq<Id>, p: Id, c: Id)
    requires Ends(es) <= vs && c !in vs && p in vs && forall q :: q in init ==> q in vs
    requires d.nodes == GraphFrom(vs + {c}, es + To(init, c))
    ensures !Dag.WouldCycle(d, p, c)
  {
    assert Succ(d.nodes, c) == {} by {
      NoChildren(vs, es, c);
    }
    if Reach(d.nodes, c, p) {
      LeafReachesItself(d.nodes, c, p);
    }
  }

  lemma ParentEdgesMore(cps: map<Id, Checkpoint>, cp: Checkpoint)
    requires cp.id in cps ==> cps[cp.id].parents == cp.parents
    ensures ParentEdges(cps[cp.id := cp]) == ParentEdges(cps) + To(cp.parents, cp.id)
  {
  }

  // ---- one more checkpoint -----------------------------------------------------

  /** A checkpoint as `Checkpoint::new` makes it, on top of loaded ones. */
  ghost predicate OnTop(cps: map<Id, Checkpoint>, cp: Checkpoint) {
    && cp == NewCheckpoint(cp.id.snapshots, cp.id.parents, cp.id.author, cp.id.message)
    && cp.id.parents != []
    && ParentsIn(cps, cp.id)
  }

  /** Committing what is there already leaves the graph as it is. */
  lemma AgainGrown(cps: map<Id, Checkpoint>, d: Dag.State, cp: Checkpoint)
    requires Grown(cps, d) && OnTop(cps, cp) && cp.id in cps
    ensures EdgesTried(Dag.WithNode(d, cp.id), cp.parents, cp.id) == d
    ensures Grown(cps[cp.id := cp], d)
  {
    var more := cps[cp.id := cp];
    assert Dag.WithNode(d, cp.id) == d;
    AllTriedAgain(cps, d, cp.parents, cp.id);
    assert more.Keys == cps.Keys;
    assert ParentEdges(more) == ParentEdges(cps) by {
      AgainEdges(cps, cp);
    }
    assert Closed(more) by {
      forall id | id in more
        ensures ParentsIn(more, id)
      {
        assert ParentsIn(cps, id);
      }
    }
  }

  lemma AgainEdges(cps: map<Id, Checkpoint>, cp: Checkpoint)
    requires cp.id in cps && cps[cp.id].parents == cp.parents
    ensures ParentEdges(cps[cp.id := cp]) == ParentEdges(cps)
  {
  }

  lemma NewGrown(cps: map<Id, Checkpoint>, d: Dag.State, cp: Checkpoint)
    requires Grown(cps, d) && OnTop(cps, cp) && cp.id !in cps
    ensures EdgesTried(Dag.WithNode(d, cp.id), cp.parents, cp.id).generation
         == d.generation[cp.id := Height(d.generation, cp.parents)]
    ensures Grown(cps[cp.id := cp], EdgesTried(Dag.WithNode(d, cp.id), cp.parents, cp.id))
  {
    NewNodes(cps, d, cp);
    NewPredicates(cps, cp);
    NewLeveled(cps, d.generation, cp);
  }

  lemma NewNodes(cps: map<Id, Checkpoint>, d: Dag.State, cp: Checkpoint)
    requires Honest(cps) && Closed(cps) && OnTop(cps, cp) && cp.id !in cps
    requires d.nodes == GraphFrom(cps.Keys, ParentEdges(cps)) && d.generation.Keys == cps.Keys
    ensures var e, more := EdgesTried(Dag.WithNode(d, cp.id), cp.parents, cp.id), cps[cp.id := cp];
      && e.nodes == GraphFrom(more.Keys, ParentEdges(more))
      && e.generation == d.generation[cp.id := Height(d.generation, cp.parents)]
  {
    EndsAreLoaded(cps);
    EdgesOfNew(cps.Keys, ParentEdges(cps), d, cp.parents, cp.id);
    ParentEdgesMore(cps, cp);
    assert cps[cp.id := cp].Keys == cps.Keys + {cp.id};
  }

  lemma NewPredicates(cps: map<Id, Checkpoint>, cp: Checkpoint)
    requires Honest(cps) && Closed(cps) && OneRoot(cps) && OnTop(cps, cp) && cp.id !in cps
    ensures Honest(cps[cp.id := cp]) && Closed(cps[cp.id := cp]) && OneRoot(cps[cp.id := cp])
  {
    var more := cps[cp.id := cp];
    forall id | id in more
      ensures ParentsIn(more, id)
    {
      if id != cp.id {
        assert ParentsIn(cps, id);
      }
    }
  }

  lemma NewLeveled(cps: map<Id, Checkpoint>, gen: map<Id, nat>, cp: Checkpoint)
    requires Leveled(cps, gen) && OnTop(cps, cp) && cp.id !in cps
    ensures Leveled(cps[cp.id := cp], gen[cp.id := Height(gen, cp.parents)])
  {
    var id, h := cp.id, Height(gen, cp.parents);
    var more, gens := cps[id := cp], gen[id := h];
    HeightIs(gen, cp.parents);
    forall x | x in more
      ensures Level(gens, x)
    {
      if x == id {
        NewLevel(cps, gen, id, h);
      } else {
        OldLevel(cps, gen, id, h, x);
      }
    }
  }

  lemma NewLevel(cps: map<Id, Checkpoint>, gen: map<Id, nat>, id: Id, h: nat)
    requires gen.Keys == cps.Keys && id !in cps && id.parents != []
    requires forall p :: p in id.parents ==> p in gen && gen[p] < h
    requires exists p :: p in id.parents && p in gen && h == gen[p] + 1
    ensures Level(gen[id := h], id)
  {
  }

  lemma OldLevel(cps: map<Id, Checkpoint>, gen: map<Id, nat>, id: Id, h: nat, x: Id)
    requires gen.Keys == cps.Keys && id !in cps && x in cps && Level(gen, x)
    ensures Level(gen[id := h], x)
  {
  }

  /** Only the committed checkpoint's generation may change, and it is known afterwards. */
  lemma GrowGrown(r: Repo, cp: Checkpoint)
    requires r.current < |r.branches| && Grown(r.checkpoints, r.dag) && OnTop(r.checkpoints, cp)
    ensures Grown(Grow(r, cp).checkpoints, Grow(r, cp).dag)
    ensures cp.id in Grow(r, cp).dag.generation
    ensures Grow(r, cp).dag.generation == r.dag.generation[cp.id := Grow(r, cp).dag.generation[cp.id]]
  {
    if cp.id in r.checkpoints {
      AgainGrown(r.checkpoints, r.dag, cp);
      assert r.dag.generation == r.dag.generation[cp.id := r.dag.generation[cp.id]];
    } else {
      NewGrown(r.checkpoints, r.dag, cp);
    }
  }

  lemma GrowHeaded(r: Repo, cp: Checkpoint)
    requires Headed(r)
    ensures Headed(Grow(r, cp))
  {
  }

  // ---- written through -----------------------------------------------------------

  lemma {:induction false} PutEdgesIs(db: Db, parents: seq<Id>, c: Id, gen: nat)
    ensures var e := PutEdges(db, parents, c, gen);
      && e == db.(edges := e.edges, generations := e.generations)
      && e.edges == db.edges + To(parents, c)
      && (parents != [] ==>
            && (forall x :: x in e.generations <==> x in db.generations || x == c || x in parents)
            && (forall x :: x in e.generations ==>
                  e.generations[x] == if x == c then gen else if x in db.generations then db.generations[x] else 0))
    decreases |parents|
  {
    if parents == [] {
      assert To(parents, c) == {};
    } else {
      var p, rest := parents[0], parents[1..];
      PutEdgesIs(PutEdge(db, p, c, gen), rest, c, gen);
      assert parents == [p] + rest;
      assert forall x :: x in parents <==> x == p || x in rest;
      assert To(parents, c) == {(p, c)} + To(rest, c);
    }
  }

  lemma EndsTo(es: set<(Id, Id)>, parents: seq<Id>, c: Id)
    requires parents != []
    ensures forall x :: x in Ends(es + To(parents, c)) <==> x in Ends(es) || x == c || x in parents
  {
    var more := es + To(parents, c);
    assert (parents[0], c) in more;
    forall x
      ensures x in Ends(more) <==> x in Ends(es) || x == c || x in parents
    {
      if x in Ends(es) {
        var e :| e in es && (e.0 == x || e.1 == x);
        assert e in more;
      }
      if x in parents {
        assert (x, c) in more && (x, c).0 == x;
      }
      assert x == c ==> (parents[0], c).1 == x;
    }
  }

  /** The first edge of a store is written over a single root of generation 0. */
  lemma FirstRoot(cps: map<Id, Checkpoint>, gen: map<Id, nat>, cp: Checkpoint, root: Id)
    requires Leveled(cps, gen) && OnTop(cps, cp) && cps.Keys == {root}
    ensures gen == map[root := 0] && cp.id != root
    ensures forall p :: p in cp.id.parents ==> p == root
  {
    assert root in cps && Level(gen, root);
    var p := cp.id.parents[0];
    assert p in cp.id.parents && p == root;
  }

  /** The rows written for a new edge are the generations in memory: either all were there, or
      only the root's is missing and is 0. */
  lemma WrittenGenerations(db: Db, before: map<Id, nat>, parents: seq<Id>, c: Id, gen: nat, root: Id)
    requires parents != [] && forall p :: p in parents ==> p in before
    requires db.generations == before
          || (db.generations == map[] && before == map[root := 0] && c != root
               && forall p :: p in parents ==> p == root)
    ensures PutEdges(db, parents, c, gen).generations == before[c := gen]
  {
    PutEdgesIs(db, parents, c, gen);
    var after := PutEdges(db, parents, c, gen).generations;
    assert parents[0] in parents;
    assert forall x :: x in after <==> x in before[c := gen];
  }

  lemma WrittenEdges(es: set<(Id, Id)>, keys: set<Id>, parents: seq<Id>, c: Id, root: Id)
    requires parents != [] && forall p :: p in parents ==> p in keys
    requires Ends(es) == keys || (es == {} && keys == {root})
    ensures Ends(es + To(parents, c)) == keys + {c} && es + To(parents, c) != {}
  {
    EndsTo(es, parents, c);
    assert parents[0] in parents && (parents[0], c) in To(parents, c);
    assert forall x :: x in Ends(es + To(parents, c)) <==> x in keys + {c};
  }

  lemma RecordGenerations(cps: map<Id, Checkpoint>, before: map<Id, nat>, db: Db, cp: Checkpoint, gen: nat,
                          name: string)
    requires Leveled(cps, before) && OnTop(cps, cp)
    requires db.edges == {} ==> db.generations == map[] && exists root :: cps.Keys == {root}
    requires db.edges != {} ==> db.generations == before
    ensures Record(db, cp, gen, name).generations == before[cp.id := gen]
  {
    if db.edges == {} {
      var root :| cps.Keys == {root};
      FirstRoot(cps, before, cp, root);
      WrittenGenerations(KeepCheckpoint(db, cp), before, cp.parents, cp.id, gen, root);
    } else {
      WrittenGenerations(KeepCheckpoint(db, cp), before, cp.parents, cp.id, gen, cp.id);
    }
  }

  lemma RecordEdges(cps: map<Id, Checkpoint>, db: Db, cp: Checkpoint, gen: nat, name: string)
    requires Honest(cps) && OnTop(cps, cp) && db.edges == ParentEdges(cps)
    requires db.edges == {} ==> exists root :: cps.Keys == {root}
    requires db.edges != {} ==> Ends(db.edges) == cps.Keys
    ensures Record(db, cp, gen, name).edges == ParentEdges(cps[cp.id := cp])
    ensures Record(db, cp, gen, name).edges != {}
    ensures Ends(Record(db, cp, gen, name).edges) == cps.Keys + {cp.id}
  {
    PutEdgesIs(KeepCheckpoint(db, cp), cp.parents, cp.id, gen);
    ParentEdgesMore(cps, cp);
    if db.edges == {} {
      var root :| cps.Keys == {root};
      WrittenEdges(db.edges, cps.Keys, cp.parents, cp.id, root);
    } else {
      WrittenEdges(db.edges, cps.Keys, cp.parents, cp.id, cp.id);
    }
  }

  /** Moving the head of one branch, in the list and in the table. */
  lemma ListsMoved(bs: seq<Branch>, table: map<string, Id>, i: nat, head: Id)
    requires Lists(bs, table) && i < |bs|
    ensures bs[i].name in table
    ensures Lists(bs[i := Branch(bs[i].name, head)], table[bs[i].name := head])
  {
    var name := bs[i].name;
    var moved, table' := bs[i := Branch(name, head)], table[name := head];
    assert bs[i] in bs;
    forall b | b in moved
      ensures b.name in table' && table'[b.name] == b.head
    {
      var j :| 0 <= j < |moved| && moved[j] == b;
      if j != i {
        assert bs[j] in bs && bs[j].name != name;
      }
    }
    forall n | n in table'
      ensures Branch(n, table'[n]) in moved
    {
      if n == name {
        assert moved[i] == Branch(n, head);
      } else {
        var j :| 0 <= j < |bs| && bs[j] == Branch(n, table[n]);
        assert moved[j] == bs[j];
      }
    }
  }

  lemma ListsAdded(bs: seq<Branch>, table: map<string, Id>, b: Branch)
    requires Lists(bs, table) && forall x :: x in bs ==> x.name != b.name
    ensures Lists(bs + [b], table[b.name := b.head])
  {
  }

  lemma RecordMirrors(r: Repo, db: Db, cp: Checkpoint, d: Dag.State, gen: nat)
    requires Headed(r) && Honest(r.checkpoints) && Leveled(r.checkpoints, r.dag.generation) && Plain(r.checkpoints)
    requires OnTop(r.checkpoints, cp) && Mirror(r, db) && d.generation == r.dag.generation[cp.id := gen]
    ensures Mirror(Repo(r.branches[r.current := Branch(Current(r).name, cp.id)], r.current, d,
                        r.checkpoints[cp.id := cp]),
                   Record(db, cp, gen, Current(r).name))
  {
    RecordGenerations(r.checkpoints, r.dag.generation, db, cp, gen, Current(r).name);
    RecordEdges(r.checkpoints, db, cp, gen, Current(r).name);
    RecordRest(r, db, cp, gen);
    MirrorIs(r, cp, d, Record(db, cp, gen, Current(r).name), gen);
  }

  lemma MirrorIs(r: Repo, cp: Checkpoint, d: Dag.State, e: Db, gen: nat)
    requires r.current < |r.branches|
    requires e.checkpoints == r.checkpoints[cp.id := cp] && e.current == Some(Current(r).name)
    requires Lists(r.branches[r.current := Branch(Current(r).name, cp.id)], e.branches)
    requires e.edges == ParentEdges(r.checkpoints[cp.id := cp]) && e.edges != {}
    requires Ends(e.edges) == r.checkpoints.Keys + {cp.id} && e.generations == d.generation
    ensures Mirror(Repo(r.branches[r.current := Branch(Current(r).name, cp.id)], r.current, d,
                        r.checkpoints[cp.id := cp]), e)
  {
  }

  lemma RecordRest(r: Repo, db: Db, cp: Checkpoint, gen: nat)
    requires Headed(r) && Honest(r.checkpoints) && Plain(r.checkpoints)
    requires OnTop(r.checkpoints, cp) && Mirror(r, db)
    ensures var e := Record(db, cp, gen, Current(r).name);
      && e.checkpoints == r.checkpoints[cp.id := cp] && e.current == db.current
      && Lists(r.branches[r.current := Branch(Current(r).name, cp.id)], e.branches)
  {
    PutEdgesIs(KeepCheckpoint(db, cp), cp.parents, cp.id, gen);
    ListsMoved(r.branches, db.branches, r.current, cp.id);
    KeptRows(r.checkpoints, cp);
  }

  /** Keeping the first row and replacing the entry come to the same. */
  lemma KeptRows(cps: map<Id, Checkpoint>, cp: Checkpoint)
    requires Honest(cps) && Plain(cps) && OnTop(cps, cp)
    ensures (if cp.id in cps then cps else cps[cp.id := cp]) == cps[cp.id := cp]
  {
  }

  lemma GrowMirrors(r: Repo, db: Db, cp: Checkpoint)
    requires Headed(r) && Grown(r.checkpoints, r.dag) && Plain(r.checkpoints) && Mirror(r, db)
    requires OnTop(r.checkpoints, cp)
    ensures Mirror(Grow(r, cp), Record(db, cp, Dag.Generation(Grow(r, cp).dag, cp.id), Current(r).name))
  {
    GrowGrown(r, cp);
    var d := Grow(r, cp).dag;
    RecordMirrors(r, db, cp, d, d.generation[cp.id]);
  }

  lemma ExtendSound(s: State, cp: Checkpoint)
    requires Sound(s) && OnTop(s.repo.checkpoints, cp)
    ensures Sound(Extend(s, cp))
  {
    GrowGrown(s.repo, cp);
    GrowHeaded(s.repo, cp);
    if s.db.Some? {
      GrowMirrors(s.repo, s.db.value, cp);
    }
  }

  // ---- every operation, every run --------------------------------------------------

  lemma AddBranchSound(s: State, b: Branch)
    requires Sound(s) && b.head in s.repo.checkpoints
    requires FindBranch(s.repo.branches, b.name).None?
    ensures Sound(AddBranch(s, b))
  {
    var bs := s.repo.branches;
    assert forall x :: x in bs + [b] <==> x in bs || x == b;
    assert forall i :: 0 <= i < |bs| ==> bs[i] in bs;
    if s.db.Some? {
      ListsAdded(bs, s.db.value.branches, b);
    }
  }

  /** A commit on top of the current head and perhaps of another branch's. */
  lemma OnHeads(s: State, cp: Checkpoint, i: nat)
    requires Sound(s) && i < |s.repo.branches|
    requires cp == NewCheckpoint(cp.snapshots, cp.parents, cp.author, cp.message)
    requires cp.parents == [Current(s.repo).head] || cp.parents == [Current(s.repo).head, s.repo.branches[i].head]
    ensures Sound(Extend(s, cp))
  {
    assert s.repo.branches[i] in s.repo.branches && Current(s.repo) in s.repo.branches;
    assert OnTop(s.repo.checkpoints, cp);
    ExtendSound(s, cp);
  }

  lemma StepSound(s: State, a: Action)
    requires Sound(s)
    ensures Sound(Step(s, a))
  {
    match a
    case ACommit(snapshots, message, author) => CommitSound(s, snapshots, message, author);
    case ACommitAllowEmpty(snapshots, message, author) => CommitSound(s, snapshots, message, author);
    case AMerge(source, snapshots, message, author) => MergeSound(s, source, snapshots, message, author);
    case ABranch(name) => BranchSound(s, name, Current(s.repo).head);
    case ABranchFrom(name, at) => BranchSound(s, name, at);
    case ASwitch(name) => SwitchSound(s, name);
  }

  /** A backend stays attached. */
  lemma StepStored(s: State, a: Action)
    requires Seated(s)
    ensures Step(s, a).db.Some? == s.db.Some?
  {
  }

  lemma CommitSound(s: State, snapshots: seq<Snap>, message: string, author: string)
    requires Sound(s)
    ensures Sound(CommitAllowEmpty(s, snapshots, message, author).0)
  {
    OnHeads(s, NewCheckpoint(snapshots, [Current(s.repo).head], author, message), 0);
  }

  lemma MergeSound(s: State, source: string, snapshots: seq<Snap>, message: string, author: string)
    requires Sound(s)
    ensures Sound(MergeBranches(s, source, snapshots, message, author).0)
  {
    var found := FindBranch(s.repo.branches, source);
    if found.Some? {
      var parents := [Current(s.repo).head, s.repo.branches[found.value].head];
      OnHeads(s, NewCheckpoint(snapshots, parents, author, message), found.value);
    }
  }

  lemma BranchSound(s: State, name: string, at: Id)
    requires Sound(s)
    ensures Sound(CreateBranch(s, name).0) && Sound(CreateBranchFrom(s, name, at).0)
  {
    if FindBranch(s.repo.branches, name).None? {
      assert Current(s.repo) in s.repo.branches;
      AddBranchSound(s, Branch(name, Current(s.repo).head));
      if at in s.repo.checkpoints {
        AddBranchSound(s, Branch(name, at));
      }
    }
  }

  lemma SwitchSound(s: State, name: string)
    requires Sound(s)
    ensures Sound(SwitchBranch(s, name).0)
  {
  }

  lemma {:induction false} RunSound(s: State, actions: seq<Action>)
    requires Sound(s)
    ensures Sound(Run(s, actions))
    ensures Run(s, actions).db.Some? == s.db.Some?
    decreases |actions|
  {
    if actions != [] {
      StepSound(s, actions[0]);
      StepStored(s, actions[0]);
      RunSound(Step(s, actions[0]), actions[1..]);
    }
  }

  lemma InitialGrown(snapshots: seq<Snap>)
    ensures var r := Initial(snapshots);
      Headed(r) && Grown(r.checkpoints, r.dag) && Plain(r.checkpoints) && ParentEdges(r.checkpoints) == {}
  {
    var r := Initial(snapshots);
    var root := RootCheckpoint(snapshots).id;
    assert r.checkpoints.Keys == {root};
    assert ParentEdges(r.checkpoints) == {} && Children({}, root) == {};
    assert r.dag.nodes == GraphFrom({root}, {});
    assert r.dag.generation == map[root := 0];
    assert ParentsIn(r.checkpoints, root) && Level(r.dag.generation, root);
  }
}
