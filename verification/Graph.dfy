/** Walks in a finite graph, and generation numbers that rise along its edges. */
module Graph {
  import opened Checkpoints

  type Graph = map<Id, set<Id>>

  function Succ(g: Graph, a: Id): set<Id> {
    if a in g then g[a] else {}
  }

  /** There is a walk of n edges from a to b. */
  ghost predicate Walk(g: Graph, a: Id, b: Id, n: nat)
    decreases n
  {
    if n == 0 then a == b
    else exists z :: Walk(g, a, z, n - 1) && b in Succ(g, z)
  }

  ghost predicate Reach(g: Graph, a: Id, b: Id) {
    exists n: nat :: Walk(g, a, b, n)
  }

  ghost predicate Acyclic(g: Graph) {
    forall a, n: nat :: n > 0 ==> !Walk(g, a, a, n)
  }

  // ---- walks -------------------------------------------------------------

  lemma WalkStep(g: Graph, a: Id, z: Id, b: Id, n: nat)
    requires Walk(g, a, z, n) && b in Succ(g, z)
    ensures Walk(g, a, b, n + 1)
  {
  }

  lemma {:induction false} WalkConcat(g: Graph, a: Id, b: Id, c: Id, m: nat, n: nat)
    requires Walk(g, a, b, m) && Walk(g, b, c, n)
    ensures Walk(g, a, c, m + n)
    decreases n
  {
    if n > 0 {
      var z :| Walk(g, b, z, n - 1) && c in Succ(g, z);
      WalkConcat(g, a, b, z, m, n - 1);
      WalkStep(g, a, z, c, m + n - 1);
    }
  }

  lemma ReachSelf(g: Graph, a: Id)
    ensures Reach(g, a, a)
  {
    assert Walk(g, a, a, 0);
  }

  lemma ReachEdge(g: Graph, a: Id, z: Id, b: Id)
    requires Reach(g, a, z) && b in Succ(g, z)
    ensures Reach(g, a, b)
  {
    var n: nat :| Walk(g, a, z, n);
    WalkStep(g, a, z, b, n);
  }

  lemma ReachTransitive(g: Graph, a: Id, b: Id, c: Id)
    requires Reach(g, a, b) && Reach(g, b, c)
    ensures Reach(g, a, c)
  {
    var m: nat :| Walk(g, a, b, m);
    var n: nat :| Walk(g, b, c, n);
    WalkConcat(g, a, b, c, m, n);
  }

  /** A set that holds `a` and all successors of its members holds all that a reaches. */
  lemma {:induction false} ClosedHolds(g: Graph, s: set<Id>, a: Id, b: Id, n: nat)
    requires a in s && (forall x, y :: x in s && y in Succ(g, x) ==> y in s)
    requires Walk(g, a, b, n)
    ensures b in s
    decreases n
  {
    if n > 0 {
      var z :| Walk(g, a, z, n - 1) && b in Succ(g, z);
      ClosedHolds(g, s, a, z, n - 1);
    }
  }

  // ---- generations -------------------------------------------------------

  /** Every edge strictly raises the generation. */
  ghost predicate Rising(g: Graph, gen: map<Id, nat>) {
    forall a, b :: Rises(g, gen, a, b)
  }

  predicate Rises(g: Graph, gen: map<Id, nat>, a: Id, b: Id) {
    b in Succ(g, a) ==> a in gen && b in gen && gen[a] < gen[b]
  }

  lemma EdgeRises(g: Graph, gen: map<Id, nat>, a: Id, b: Id)
    requires Rising(g, gen) && b in Succ(g, a)
    ensures a in gen && b in gen && gen[a] < gen[b]
  {
    assert Rises(g, gen, a, b);
  }

  lemma {:induction false} RisingWalk(g: Graph, gen: map<Id, nat>, a: Id, b: Id, n: nat)
    requires Rising(g, gen) && Walk(g, a, b, n) && n > 0
    ensures a in gen && b in gen && gen[a] + n <= gen[b]
    decreases n
  {
    var z :| Walk(g, a, z, n - 1) && b in Succ(g, z);
    EdgeRises(g, gen, z, b);
    if n == 1 {
      assert Walk(g, a, z, 0) && z == a;
    } else {
      RisingWalk(g, gen, a, z, n - 1);
    }
  }

  lemma RisingIsAcyclic(g: Graph, gen: map<Id, nat>)
    requires Rising(g, gen)
    ensures Acyclic(g)
  {
    forall a, n: nat | n > 0
      ensures !Walk(g, a, a, n)
    {
      if Walk(g, a, a, n) {
        RisingWalk(g, gen, a, a, n);
      }
    }
  }

  /** A reachable node other than the start has a larger generation. */
  lemma RisingReach(g: Graph, gen: map<Id, nat>, a: Id, b: Id)
    requires Rising(g, gen) && Reach(g, a, b) && a != b
    ensures a in gen && b in gen && gen[a] < gen[b]
  {
    var n: nat :| Walk(g, a, b, n);
    RisingWalk(g, gen, a, b, n);
  }

  // ---- one more edge -----------------------------------------------------

  function AddEdge(g: Graph, p: Id, c: Id): Graph {
    g[p := Succ(g, p) + {c}][c := if c == p then Succ(g, p) + {c} else Succ(g, c)]
  }

  lemma AddEdgeSucc(g: Graph, p: Id, c: Id, a: Id)
    ensures Succ(AddEdge(g, p, c), a) == Succ(g, a) + if a == p then {c} else {}
  {
  }

  /** A walk in the larger graph is one in the smaller, or passes through `p` on the way and
      reaches it without the new edge. */
  lemma {:induction false} WalkAvoidsOrVisits(g: Graph, p: Id, c: Id, a: Id, b: Id, n: nat)
    requires Walk(AddEdge(g, p, c), a, b, n)
    ensures Walk(g, a, b, n) || Reach(g, a, p)
    decreases n
  {
    if n > 0 {
      var g' := AddEdge(g, p, c);
      var z :| Walk(g', a, z, n - 1) && b in Succ(g', z);
      WalkAvoidsOrVisits(g, p, c, a, z, n - 1);
      AddEdgeSucc(g, p, c, z);
      if Walk(g, a, z, n - 1) && b in Succ(g, z) {
        WalkStep(g, a, z, b, n - 1);
      }
    }
  }

  /** Likewise from the other end: the last part of the walk starts at `c`. */
  lemma {:induction false} WalkAvoidsOrLeaves(g: Graph, p: Id, c: Id, a: Id, b: Id, n: nat)
    requires Walk(AddEdge(g, p, c), a, b, n)
    ensures Walk(g, a, b, n) || Reach(g, c, b)
    decreases n
  {
    if n > 0 {
      var g' := AddEdge(g, p, c);
      var z :| Walk(g', a, z, n - 1) && b in Succ(g', z);
      WalkAvoidsOrLeaves(g, p, c, a, z, n - 1);
      AddEdgeSucc(g, p, c, z);
      if b in Succ(g, z) {
        if Walk(g, a, z, n - 1) {
          WalkStep(g, a, z, b, n - 1);
        } else {
          ReachEdge(g, c, z, b);
        }
      } else {
        ReachSelf(g, c);
      }
    }
  }

  /** An edge whose end cannot reach its start closes no cycle. */
  lemma AddEdgeAcyclic(g: Graph, p: Id, c: Id)
    requires Acyclic(g) && !Reach(g, c, p)
    ensures Acyclic(AddEdge(g, p, c))
  {
    var g' := AddEdge(g, p, c);
    forall a, n: nat | n > 0
      ensures !Walk(g', a, a, n)
    {
      if Walk(g', a, a, n) {
        WalkAvoidsOrVisits(g, p, c, a, a, n);
        WalkAvoidsOrLeaves(g, p, c, a, a, n);
        ReachTransitive(g, c, a, p);
      }
    }
  }

  /** An edge whose end reaches its start closes one. */
  lemma AddEdgeCyclic(g: Graph, p: Id, c: Id)
    requires Reach(g, c, p)
    ensures !Acyclic(AddEdge(g, p, c))
  {
    var g' := AddEdge(g, p, c);
    var n: nat :| Walk(g, c, p, n);
    WalkGrows(g, p, c, c, p, n);
    AddEdgeSucc(g, p, c, p);
    WalkStep(g', c, p, c, n);
  }

  lemma {:induction false} WalkGrows(g: Graph, p: Id, c: Id, a: Id, b: Id, n: nat)
    requires Walk(g, a, b, n)
    ensures Walk(AddEdge(g, p, c), a, b, n)
    decreases n
  {
    if n > 0 {
      var z :| Walk(g, a, z, n - 1) && b in Succ(g, z);
      WalkGrows(g, p, c, a, z, n - 1);
      AddEdgeSucc(g, p, c, z);
      WalkStep(AddEdge(g, p, c), a, z, b, n - 1);
    }
  }

  // ---- generations from insertion ------------------------------------------

  /** The generation of a node is the length of some walk to it, and not 0 where an edge ends. */
  ghost predicate Measured(g: Graph, gen: map<Id, nat>, x: Id) {
    && x in gen && (exists a :: Walk(g, a, x, gen[x]))
    && (gen[x] == 0 ==> forall a :: x !in Succ(g, a))
  }

  ghost predicate AllMeasured(g: Graph, gen: map<Id, nat>) {
    forall x :: x in g ==> Measured(g, gen, x)
  }
}
