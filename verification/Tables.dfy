/** The checkpoint tables of the store: checkpoints, branches, graph edges, generations and
    the current branch (src/storage/sqlite/checkpoint.rs, src/storage/sqlite/dag.rs). */
module Tables {
  import opened Results
  import opened Checkpoints
  import opened Graph
  import Dag

  datatype Db = Db(checkpoints: map<Id, Checkpoint>, branches: map<string, Id>, edges: set<(Id, Id)>,
                   generations: map<Id, nat>, current: Option<string>)

  const NO_ROWS: Db := Db(map[], map[], {}, map[], None)

  /** `INSERT OR IGNORE INTO checkpoints` */
  function KeepCheckpoint(db: Db, cp: Checkpoint): Db {
    if cp.id in db.checkpoints then db else db.(checkpoints := db.checkpoints[cp.id := cp])
  }

  /** `INSERT OR REPLACE INTO branches` */
  function PutBranch(db: Db, b: Branch): Db {
    db.(branches := db.branches[b.name := b.head])
  }

  /** `UPDATE branches SET head` */
  function MoveHead(db: Db, name: string, head: Id): Db {
    if name in db.branches then db.(branches := db.branches[name := head]) else db
  }

  /** The edge and the child's generation are written; the parent gets generation 0 unless it
      has one. */
  function PutEdge(db: Db, p: Id, c: Id, gen: nat): Db {
    var generations := db.generations[c := gen];
    db.(edges := db.edges + {(p, c)},
        generations := if p in generations then generations else generations[p := 0])
  }

  function PutEdges(db: Db, parents: seq<Id>, c: Id, gen: nat): Db
    decreases |parents|
  {
    if parents == [] then db else PutEdges(PutEdge(db, parents[0], c, gen), parents[1..], c, gen)
  }

  function DropNode(db: Db, id: Id): Db {
    db.(edges := (set e | e in db.edges && e.0 != id && e.1 != id), generations := db.generations - {id})
  }

  // ---- graphs from edges -----------------------------------------------------

  function Children(es: set<(Id, Id)>, p: Id): set<Id> {
    set e | e in es && e.0 == p :: e.1
  }

  function Ends(es: set<(Id, Id)>): set<Id> {
    (set e | e in es :: e.0) + (set e | e in es :: e.1)
  }

  function GraphFrom(vs: set<Id>, es: set<(Id, Id)>): Graph {
    map x | x in vs :: Children(es, x)
  }

  lemma ChildrenMore(es: set<(Id, Id)>, p: Id, c: Id, x: Id)
    ensures Children(es + {(p, c)}, x) == Children(es, x) + if x == p then {c} else {}
  {
  }

  lemma NoChildren(vs: set<Id>, es: set<(Id, Id)>, x: Id)
    requires Ends(es) <= vs && x !in vs
    ensures Children(es, x) == {}
  {
  }

  lemma EndsMore(es: set<(Id, Id)>, p: Id, c: Id)
    ensures Ends(es + {(p, c)}) == Ends(es) + {p, c}
  {
  }

  /** One more edge in the table is one more edge in the graph. */
  lemma GraphFromMore(vs: set<Id>, es: set<(Id, Id)>, p: Id, c: Id)
    requires Ends(es) <= vs
    ensures AddEdge(GraphFrom(vs, es), p, c) == GraphFrom(vs + {p, c}, es + {(p, c)})
    ensures Ends(es + {(p, c)}) <= vs + {p, c}
  {
    EndsMore(es, p, c);
    forall x | x in vs + {p, c}
      ensures AddEdge(GraphFrom(vs, es), p, c)[x] == Children(es + {(p, c)}, x)
    {
      ChildrenMore(es, p, c, x);
      if x !in vs {
        NoChildren(vs, es, x);
      }
    }
    assert AddEdge(GraphFrom(vs, es), p, c) == GraphFrom(vs + {p, c}, es + {(p, c)});
  }

  /** The graph of the edge table with the stored generations; a node without a stored one has
      the length of some walk to it. */
  ghost predicate Restored(db: Db, d: Dag.State) {
    && d.nodes == GraphFrom(Ends(db.edges), db.edges)
    && d.generation.Keys == d.nodes.Keys
    && forall id :: id in d.nodes ==>
         if id in db.generations then d.generation[id] == db.generations[id]
         else Measured(d.nodes, d.generation, id)
  }

  class CheckpointStore {
    var checkpoints: map<Id, Checkpoint>
    var branches: map<string, Id>
    var edges: set<(Id, Id)>
    var generations: map<Id, nat>
    var current: Option<string>

    function View(): Db
      reads this
    {
      Db(checkpoints, branches, edges, generations, current)
    }

    constructor ()
      ensures View() == NO_ROWS
    {
      checkpoints, branches, edges, generations, current := map[], map[], {}, map[], None;
    }

    method StoreCheckpoint(cp: Checkpoint)
      modifies this
      ensures View() == KeepCheckpoint(old(View()), cp)
    {
      if cp.id !in checkpoints {
        checkpoints := checkpoints[cp.id := cp];
      }
    }

    method DeleteCheckpoint(id: Id) returns (found: bool)
      modifies this
      ensures found <==> id in old(checkpoints)
      ensures View() == old(View()).(checkpoints := old(checkpoints) - {id})
    {
      found := id in checkpoints;
      checkpoints := checkpoints - {id};
    }

    method StoreBranch(b: Branch)
      modifies this
      ensures View() == PutBranch(old(View()), b)
    {
      branches := branches[b.name := b.head];
    }

    method UpdateBranchHead(name: string, head: Id)
      modifies this
      ensures View() == MoveHead(old(View()), name, head)
    {
      if name in branches {
        branches := branches[name := head];
      }
    }

    method StoreCurrentBranch(name: string)
      modifies this
      ensures View() == old(View()).(current := Some(name))
    {
      current := Some(name);
    }

    /** The rows of the branch table in order of name. */
    method ListBranches() returns (rows: seq<Branch>)
      ensures Lists(rows, branches) && ByName(rows)
    {
      rows := [];
      var rest := branches.Keys;
      while rest != {}
        invariant rest <= branches.Keys && ByName(rows)
        invariant forall b :: b in rows ==> b.name in branches && b.head == branches[b.name]
        invariant forall b, n :: b in rows && n in rest ==> Before(b.name, n)
        invariant forall n :: n in branches && n !in rest ==> Branch(n, branches[n]) in rows
        decreases rest
      {
        var n := FirstName(rest);
        rest := rest - {n};
        rows := rows + [Branch(n, branches[n])];
      }
      ByNameDistinct(rows);
    }

    method StoreDagEdge(p: Id, c: Id, gen: nat)
      modifies this
      ensures View() == PutEdge(old(View()), p, c, gen)
    {
      edges := edges + {(p, c)};
      generations := generations[c := gen];
      if p !in generations {
        generations := generations[p := 0];
      }
    }

    method DeleteDagNode(id: Id)
      modifies this
      ensures View() == DropNode(old(View()), id)
    {
      edges := set e | e in edges && e.0 != id && e.1 != id;
      generations := generations - {id};
    }

    method DagHasNode(id: Id) returns (yes: bool)
      ensures yes <==> id in generations
    {
      return id in generations;
    }

    /** The edge table as an adjacency map, and a copy of the generation table. */
    method LoadDag() returns (nodes: map<Id, set<Id>>, gens: map<Id, nat>)
      ensures nodes == GraphFrom(Ends(edges), edges)
      ensures gens == generations
    {
      nodes, gens := map[], map[];
      var rest := edges;
      ghost var done: set<(Id, Id)> := {};
      while rest != {}
        invariant rest !! done && rest + done == edges
        invariant nodes == GraphFrom(Ends(done), done)
        decreases rest
      {
        var e :| e in rest;
        rest := rest - {e};
        EndsMore(done, e.0, e.1);
        GraphFromMore(Ends(done), done, e.0, e.1);
        nodes := nodes[e.0 := (if e.0 in nodes then nodes[e.0] else {}) + {e.1}];
        if e.1 !in nodes {
          nodes := nodes[e.1 := {}];
        }
        done := done + {e};
        assert e == (e.0, e.1);
      }
      assert done == edges;
      var left := generations.Keys;
      while left != {}
        invariant left <= generations.Keys
        invariant gens == generations - left
        decreases left
      {
        var id :| id in left;
        left := left - {id};
        gens := gens[id := generations[id]];
      }
    }
  }

  /** A listing of a branch table: each row once. */
  ghost predicate Lists(rows: seq<Branch>, table: map<string, Id>) {
    && (forall i, j :: 0 <= i < j < |rows| ==> rows[i].name != rows[j].name)
    && (forall b :: b in rows ==> b.name in table && table[b.name] == b.head)
    && (forall n :: n in table ==> Branch(n, table[n]) in rows)
  }

  // ---- order by name ---------------------------------------------------------------

  /** Names compare by character, a proper prefix first. */
  predicate Before(a: string, b: string) {
    b != [] && (a == [] || a[0] < b[0] || (a[0] == b[0] && Before(a[1..], b[1..])))
  }

  lemma {:induction false} BeforeIsStrict(a: string)
    ensures !Before(a, a)
  {
    if a != [] {
      BeforeIsStrict(a[1..]);
    }
  }

  lemma {:induction false} BeforeTransitive(a: string, b: string, c: string)
    requires Before(a, b) && Before(b, c)
    ensures Before(a, c)
  {
    if a != [] && a[0] == b[0] && b[0] == c[0] {
      BeforeTransitive(a[1..], b[1..], c[1..]);
    }
  }

  lemma {:induction false} BeforeIsTotal(a: string, b: string)
    ensures a == b || Before(a, b) || Before(b, a)
  {
    if a != [] && b != [] && a[0] == b[0] {
      BeforeIsTotal(a[1..], b[1..]);
      assert a == [a[0]] + a[1..] && b == [b[0]] + b[1..];
    }
  }

  ghost predicate ByName(rows: seq<Branch>) {
    forall i, j :: 0 <= i < j < |rows| ==> Before(rows[i].name, rows[j].name)
  }

  lemma ByNameDistinct(rows: seq<Branch>)
    requires ByName(rows)
    ensures forall i, j :: 0 <= i < j < |rows| ==> rows[i].name != rows[j].name
  {
    forall i, j | 0 <= i < j < |rows|
      ensures rows[i].name != rows[j].name
    {
      BeforeIsStrict(rows[i].name);
    }
  }

  method FirstName(names: set<string>) returns (first: string)
    requires names != {}
    ensures first in names && forall n :: n in names ==> n == first || Before(first, n)
  {
    first :| first in names;
    var rest := names - {first};
    while rest != {}
      invariant rest <= names && first in names
      invariant forall n :: n in names && n !in rest ==> n == first || Before(first, n)
      decreases rest
    {
      var n :| n in rest;
      rest := rest - {n};
      if Before(n, first) {
        FirstIsLess(n, first, names - rest);
        first := n;
      } else {
        BeforeIsTotal(n, first);
      }
    }
  }

  lemma FirstIsLess(n: string, first: string, names: set<string>)
    requires Before(n, first) && forall m :: m in names ==> m == n || m == first || Before(first, m)
    ensures forall m :: m in names ==> m == n || Before(n, m)
  {
    forall m | m in names && m != n
      ensures Before(n, m)
    {
      if m != first {
        BeforeTransitive(n, first, m);
      }
    }
  }
}
