/** The checkpoint graph with its generation numbers (src/checkpoint/dag.rs). */
module Dag {
  import opened Results
  import opened Checkpoints
  import opened Graph
  import opened Search

  /** `nodes` maps a checkpoint to its children. */
  datatype State = State(nodes: Graph, generation: map<Id, nat>)

  const NO_NODES: State := State(map[], map[])

  function Generation(d: State, id: Id): nat {
    if id in d.generation then d.generation[id] else 0
  }

  function Max(a: nat, b: nat): nat {
    if a < b then b else a
  }

  /** `add_node` */
  function WithNode(d: State, id: Id): State {
    State(d.nodes[id := Succ(d.nodes, id)], d.generation[id := Generation(d, id)])
  }

  /** `add_edge_unchecked` */
  function Linked(d: State, p: Id, c: Id): State {
    State(AddEdge(d.nodes, p, c),
          d.generation[p := Generation(d, p)][c := Max(Generation(d, c), Generation(d, p) + 1)])
  }

  /** What `would_create_cycle` answers: a search pruned by generations. */
  ghost predicate WouldCycle(d: State, p: Id, c: Id) {
    p == c || (Generation(d, c) < Generation(d, p) && Reach(d.nodes, c, p))
  }

  /** What `is_ancestor` answers. */
  ghost predicate Ancestor(d: State, a: Id, b: Id) {
    || a == b
    || (!(a in d.generation && b in d.generation && d.generation[a] >= d.generation[b])
        && Reach(d.nodes, a, b))
  }

  /** `remove_node` */
  function Without(d: State, id: Id): State {
    State(map k | k in d.nodes && k != id :: d.nodes[k] - {id}, d.generation - {id})
  }

  ghost predicate Ordered(d: State) {
    Rising(d.nodes, d.generation)
  }

  // ---- pruning is exact while generations rise -------------------------------

  lemma CycleCheckIsExact(d: State, p: Id, c: Id)
    requires Ordered(d)
    ensures WouldCycle(d, p, c) <==> Reach(d.nodes, c, p)
  {
    ReachSelf(d.nodes, p);
    if Reach(d.nodes, c, p) && p != c {
      RisingReach(d.nodes, d.generation, c, p);
    }
  }

  lemma AncestorIsExact(d: State, a: Id, b: Id)
    requires Ordered(d)
    ensures Ancestor(d, a, b) <==> Reach(d.nodes, a, b)
  {
    ReachSelf(d.nodes, a);
    if Reach(d.nodes, a, b) && a != b {
      RisingReach(d.nodes, d.generation, a, b);
    }
  }

  /** An edge is accepted exactly when the graph stays acyclic. */
  lemma AcceptedIffAcyclic(d: State, p: Id, c: Id)
    requires Ordered(d)
    ensures !WouldCycle(d, p, c) <==> Acyclic(Linked(d, p, c).nodes)
  {
    CycleCheckIsExact(d, p, c);
    RisingIsAcyclic(d.nodes, d.generation);
    if Reach(d.nodes, c, p) {
      AddEdgeCyclic(d.nodes, p, c);
    } else {
      AddEdgeAcyclic(d.nodes, p, c);
    }
  }

  /** Every child of `c` lies above the generation that `c` gets from an edge `p -> c`. */
  ghost predicate ChildrenAbove(d: State, p: Id, c: Id) {
    forall x :: x in Succ(d.nodes, c) ==> Linked(d, p, c).generation[c] < Generation(d, x)
  }

  /** Generations still rise after an accepted edge exactly when every child of the edge's end
      is already above the end's new generation: descendants are not renumbered. */
  lemma OrderKeptIff(d: State, p: Id, c: Id)
    requires Ordered(d) && !WouldCycle(d, p, c)
    ensures Ordered(Linked(d, p, c)) <==> ChildrenAbove(d, p, c)
  {
    if ChildrenAbove(d, p, c) {
      LinkedRises(d, p, c);
    }
    if Ordered(Linked(d, p, c)) {
      forall x | x in Succ(d.nodes, c)
        ensures Linked(d, p, c).generation[c] < Generation(d, x)
      {
        RaisedChild(d, p, c, x);
      }
    }
  }

  lemma LinkedRises(d: State, p: Id, c: Id)
    requires Ordered(d) && !WouldCycle(d, p, c) && ChildrenAbove(d, p, c)
    ensures Ordered(Linked(d, p, c))
  {
    var e := Linked(d, p, c);
    NoEdgeBack(d, p, c);
    forall a, b
      ensures Rises(e.nodes, e.generation, a, b)
    {
      AddEdgeSucc(d.nodes, p, c, a);
      if b in Succ(d.nodes, a) {
        EdgeRises(d.nodes, d.generation, a, b);
      }
    }
  }

  lemma RaisedChild(d: State, p: Id, c: Id, x: Id)
    requires Ordered(d) && !WouldCycle(d, p, c) && Ordered(Linked(d, p, c)) && x in Succ(d.nodes, c)
    ensures Linked(d, p, c).generation[c] < Generation(d, x)
  {
    var e := Linked(d, p, c);
    NoEdgeBack(d, p, c);
    AddEdgeSucc(d.nodes, p, c, c);
    EdgeRises(d.nodes, d.generation, c, x);
    EdgeRises(e.nodes, e.generation, c, x);
  }

  lemma NoEdgeBack(d: State, p: Id, c: Id)
    requires Ordered(d) && !WouldCycle(d, p, c)
    ensures p !in Succ(d.nodes, c) && c !in Succ(d.nodes, c)
  {
    if p in Succ(d.nodes, c) {
      ReachSelf(d.nodes, c);
      ReachEdge(d.nodes, c, c, p);
      CycleCheckIsExact(d, p, c);
    }
    if c in Succ(d.nodes, c) {
      EdgeRises(d.nodes, d.generation, c, c);
    }
  }

  ghost predicate AncestorExact(d: State) {
    forall a, b :: Ancestor(d, a, b) <==> Reach(d.nodes, a, b)
  }

  ghost predicate CycleCheckExact(d: State) {
    forall p, c :: WouldCycle(d, p, c) <==> Reach(d.nodes, c, p)
  }

  /** Every edge joins two different nodes that have generations. */
  ghost predicate Numbered(d: State) {
    forall a, b :: JoinsTwo(d, a, b)
  }

  predicate JoinsTwo(d: State, a: Id, b: Id) {
    b in Succ(d.nodes, a) ==> a != b && a in d.generation && b in d.generation
  }

  /** Rising generations are not only enough for the two pruned tests but necessary: where
      they do not rise along some edge, both tests are wrong about its ends. */
  lemma ExactIffOrdered(d: State)
    requires Numbered(d)
    ensures AncestorExact(d) <==> Ordered(d)
    ensures CycleCheckExact(d) <==> Ordered(d)
  {
    if Ordered(d) {
      forall a, b
        ensures Ancestor(d, a, b) <==> Reach(d.nodes, a, b)
        ensures WouldCycle(d, b, a) <==> Reach(d.nodes, a, b)
      {
        AncestorIsExact(d, a, b);
        CycleCheckIsExact(d, b, a);
      }
    } else {
      var a, b :| !Rises(d.nodes, d.generation, a, b);
      ReachSelf(d.nodes, a);
      ReachEdge(d.nodes, a, a, b);
      assert JoinsTwo(d, a, b) && !Ancestor(d, a, b) && !WouldCycle(d, b, a);
    }
  }

  /** So an accepted edge keeps the two tests exact for all pairs if and only if every child
      of its end is above the end's new generation. */
  lemma StaysExactIff(d: State, p: Id, c: Id)
    requires Ordered(d) && !WouldCycle(d, p, c)
    ensures AncestorExact(Linked(d, p, c)) <==> ChildrenAbove(d, p, c)
    ensures CycleCheckExact(Linked(d, p, c)) <==> ChildrenAbove(d, p, c)
  {
    var e := Linked(d, p, c);
    forall a, b
      ensures JoinsTwo(e, a, b)
    {
      AddEdgeSucc(d.nodes, p, c, a);
      if b in Succ(d.nodes, a) {
        EdgeRises(d.nodes, d.generation, a, b);
      }
    }
    ExactIffOrdered(e);
    OrderKeptIff(d, p, c);
  }

  /** An edge to a node without children always keeps the order. */
  lemma LeafKeepsOrder(d: State, p: Id, c: Id)
    requires Ordered(d) && p != c && Succ(d.nodes, c) == {}
    ensures !WouldCycle(d, p, c) && Ordered(Linked(d, p, c))
  {
    if Reach(d.nodes, c, p) {
      RisingReach(d.nodes, d.generation, c, p);
      var n: nat :| Walk(d.nodes, c, p, n);
      ClosedHolds(d.nodes, {c}, c, p, n);
    }
    OrderKeptIff(d, p, c);
  }

  /** Four edges added through the checked entry point: the third raises `b` above its child
      `c`, and the fourth closes a cycle that the check does not see. */
  lemma StaleGenerationAdmitsCycle(a: Id, x: Id, b: Id, c: Id)
    requires a != x && a != b && a != c && x != b && x != c && b != c
    ensures
      var d1 := Linked(NO_NODES, b, c);
      var d2 := Linked(d1, a, x);
      var d3 := Linked(d2, x, b);
      && !WouldCycle(NO_NODES, b, c) && !WouldCycle(d1, a, x) && !WouldCycle(d2, x, b)
      && !Ancestor(d3, b, c) && Reach(d3.nodes, b, c)
      && !WouldCycle(d3, c, b) && !Acyclic(Linked(d3, c, b).nodes)
  {
    var d1 := Linked(NO_NODES, b, c);
    var d2 := Linked(d1, a, x);
    var d3 := Linked(d2, x, b);
    assert d2.generation == map[b := 0, c := 1, a := 0, x := 1];
    assert Succ(d2.nodes, b) == {c} && Succ(d2.nodes, c) == {};
    assert !WouldCycle(d2, x, b) by {
      if Reach(d2.nodes, b, x) {
        var n: nat :| Walk(d2.nodes, b, x, n);
        ClosedHolds(d2.nodes, {b, c}, b, x, n);
      }
    }
    assert d3.generation[b] == 2 && d3.generation[c] == 1;
    AddEdgeSucc(d2.nodes, x, b, b);
    ReachSelf(d3.nodes, b);
    ReachEdge(d3.nodes, b, b, c);
    AddEdgeCyclic(d3.nodes, c, b);
  }

  // ---- nearest common ancestor -------------------------------------------------

  function FirstIn(s: seq<Id>, wanted: set<Id>): Option<Id> {
    if s == [] then None
    else if s[0] in wanted then Some(s[0])
    else FirstIn(s[1..], wanted)
  }

  lemma {:induction false} FirstInIs(s: seq<Id>, wanted: set<Id>, k: nat)
    requires k <= |s| && forall i :: 0 <= i < k ==> s[i] !in wanted
    ensures k < |s| && s[k] in wanted ==> FirstIn(s, wanted) == Some(s[k])
    ensures k == |s| ==> FirstIn(s, wanted) == None
    decreases k
  {
    if k > 0 {
      FirstInIs(s[1..], wanted, k - 1);
    }
  }

  lemma {:induction false} FirstInFinds(s: seq<Id>, wanted: set<Id>) returns (k: nat)
    ensures k <= |s| && (forall i :: 0 <= i < k ==> s[i] !in wanted)
    ensures FirstIn(s, wanted) == if k < |s| then Some(s[k]) else None
    ensures k < |s| ==> s[k] in wanted
  {
    if s == [] || s[0] in wanted {
      k := 0;
    } else {
      var j := FirstInFinds(s[1..], wanted);
      k := j + 1;
    }
  }

  /** `merge_base`: the first node met from `b` that `a` reaches. */
  function MergeBaseOf(m: Parents, a: Id, b: Id): Option<Id> {
    FirstIn(Order(m, b), Seen(Order(m, a)))
  }

  lemma FoundAt(m: Parents, queue: seq<Id>, order: seq<Id>, wanted: set<Id>)
    requires queue != [] && queue[0] in wanted && forall x :: x in order ==> x !in wanted
    ensures FirstIn(Bfs(m, queue, order), wanted) == Some(queue[0])
  {
    var next := order + [queue[0]];
    BfsExtends(m, queue[1..] + Unvisited(ParentsOf(m, queue[0]), next), next);
    var all := Bfs(m, queue, order);
    assert next <= all && all[|order|] == queue[0];
    forall i | 0 <= i < |order|
      ensures all[i] !in wanted
    {
      assert all[i] == order[i];
    }
    FirstInIs(all, wanted, |order|);
  }

  ghost predicate Common(m: Parents, a: Id, b: Id, x: Id) {
    Reach(AsGraph(m), a, x) && Reach(AsGraph(m), b, x)
  }

  /** The merge base is a common ancestor nearest to `b`, and exists when any common one does. */
  lemma MergeBaseIsNearest(m: Parents, a: Id, b: Id)
    ensures MergeBaseOf(m, a, b).None? <==> forall x :: !Common(m, a, b, x)
    ensures MergeBaseOf(m, a, b).Some? ==>
      var c := MergeBaseOf(m, a, b).value;
      && Common(m, a, b, c)
      && forall x, n: nat :: Common(m, a, b, x) && Walk(AsGraph(m), b, x, n) ==> Within(AsGraph(m), b, c, n)
  {
    var g := AsGraph(m);
    var order := Order(m, b);
    OrderIsByDistance(m, a);
    OrderIsByDistance(m, b);
    var k := FirstInFinds(order, Seen(Order(m, a)));
    forall x, n: nat | Common(m, a, b, x) && Walk(g, b, x, n)
      ensures k < |order| && Within(g, b, order[k], n)
    {
      assert x in order && x in Seen(Order(m, a));
      var j :| 0 <= j < |order| && order[j] == x;
      assert k <= j;
    }
    forall x | Common(m, a, b, x)
      ensures k < |order|
    {
      var n: nat :| Walk(g, b, x, n);
    }
    if k < |order| {
      assert order[k] in order;
    }
  }

  // ---- the object ----------------------------------------------------------------

  /** The parents not visited yet go to the back of the queue, in order. */
  method PushParents(parents: seq<Id>, visited: set<Id>, queue: seq<Id>, ghost order: seq<Id>) returns (q: seq<Id>)
    requires visited == Seen(order)
    ensures q == queue + Unvisited(parents, order)
  {
    q := queue;
    var i := 0;
    while i < |parents|
      invariant 0 <= i <= |parents|
      invariant q == queue + Unvisited(parents[..i], order)
    {
      UnvisitedSnoc(parents[..i], parents[i], order);
      assert parents[..i + 1] == parents[..i] + [parents[i]];
      if parents[i] !in visited {
        q := q + [parents[i]];
      }
      i := i + 1;
    }
    assert parents[..i] == parents;
  }

  /** The children not visited yet go to the back of the queue, in whatever order the set
      yields them. */
  method PushChildren(children: set<Id>, visited: set<Id>, queue: seq<Id>) returns (q: seq<Id>)
    ensures queue <= q
    ensures forall z :: z in q[|queue|..] <==> z in children && z !in visited
  {
    q := queue;
    var rest := children;
    while rest != {}
      invariant rest <= children && queue <= q
      invariant forall z :: z in q[|queue|..] <==> z in children && z !in rest && z !in visited
      decreases rest
    {
      var child :| child in rest;
      rest := rest - {child};
      if child !in visited {
        assert (q + [child])[|queue|..] == q[|queue|..] + [child];
        q := q + [child];
      }
    }
  }

  /** The same, giving up as soon as `stop` is met. */
  method PushChildrenUnless(children: set<Id>, visited: set<Id>, queue: seq<Id>, stop: Id)
    returns (q: seq<Id>, met: bool)
    ensures met <==> stop in children
    ensures queue <= q
    ensures !met ==> forall z :: z in q[|queue|..] <==> z in children && z !in visited
  {
    q, met := queue, false;
    var rest := children;
    while rest != {}
      invariant rest <= children && queue <= q
      invariant stop in children ==> stop in rest
      invariant forall z :: z in q[|queue|..] <==> z in children && z !in rest && z !in visited
      decreases rest
    {
      var child :| child in rest;
      rest := rest - {child};
      if child == stop {
        met := true;
        return;
      }
      if child !in visited {
        assert (q + [child])[|queue|..] == q[|queue|..] + [child];
        q := q + [child];
      }
    }
  }

  lemma LinkNodes(n: Graph, p: Id, c: Id)
    ensures var n1 := n[p := Succ(n, p)]; var n2 := n1[c := Succ(n1, c)];
      n2[p := n2[p] + {c}] == AddEdge(n, p, c)
  {
  }

  lemma LinkGeneration(d: State, p: Id, c: Id)
    ensures var g1 := d.generation[p := Generation(d, p)];
      var g2 := g1[c := if c in g1 then g1[c] else 0];
      g2[c := Max(g2[c], g1[p] + 1)] == Linked(d, p, c).generation
  {
  }

  /** One step of a forward search: the head of the queue is visited. */
  method VisitChildren(g: Graph, visited: set<Id>, queue: seq<Id>, ghost starts: set<Id>) returns (q: seq<Id>)
    requires Sweeping(g, starts, queue, visited) && queue != [] && queue[0] !in visited
    ensures Sweeping(g, starts, q, visited + {queue[0]})
    ensures queue[0] in g ==> g.Keys - (visited + {queue[0]}) < g.Keys - visited
    ensures queue[0] !in g ==> g.Keys - (visited + {queue[0]}) == g.Keys - visited && q == queue[1..]
  {
    q := queue[1..];
    if queue[0] in g {
      q := PushChildren(g[queue[0]], visited + {queue[0]}, q);
    }
    ghost var pushed := q[|queue| - 1..];
    assert q == queue[1..] + pushed;
    SweepVisits(g, starts, queue, visited, pushed);
  }

  /** The same, unless a child is the node looked for. */
  method VisitChildrenUnless(g: Graph, visited: set<Id>, queue: seq<Id>, stop: Id, ghost starts: set<Id>)
    returns (q: seq<Id>, met: bool)
    requires Sweeping(g, starts, queue, visited) && queue != [] && queue[0] !in visited
    ensures met <==> stop in Succ(g, queue[0])
    ensures !met ==> Sweeping(g, starts, q, visited + {queue[0]})
    ensures queue[0] in g ==> g.Keys - (visited + {queue[0]}) < g.Keys - visited
    ensures queue[0] !in g ==> g.Keys - (visited + {queue[0]}) == g.Keys - visited && q == queue[1..]
  {
    q, met := queue[1..], false;
    if queue[0] in g {
      q, met := PushChildrenUnless(g[queue[0]], visited + {queue[0]}, q, stop);
      if met {
        return;
      }
    }
    ghost var pushed := q[|queue| - 1..];
    assert q == queue[1..] + pushed;
    SweepVisits(g, starts, queue, visited, pushed);
  }

  /** One step of a search along parents: the head of the queue is visited. */
  method VisitParents(parents: Parents, visited: set<Id>, queue: seq<Id>, ghost order: seq<Id>) returns (q: seq<Id>)
    requires visited == Seen(order) && queue != [] && queue[0] !in visited
    ensures visited + {queue[0]} == Seen(order + [queue[0]])
    ensures Bfs(parents, q, order + [queue[0]]) == Bfs(parents, queue, order)
    ensures queue[0] in parents ==> parents.Keys - (visited + {queue[0]}) < parents.Keys - visited
    ensures queue[0] !in parents ==>
      parents.Keys - (visited + {queue[0]}) == parents.Keys - visited && q == queue[1..]
  {
    Shrinks(parents, queue[0], order);
    q := PushParents(ParentsOf(parents, queue[0]), visited + {queue[0]}, queue[1..], order + [queue[0]]);
    if queue[0] !in parents {
      assert q == queue[1..];
    }
  }

  class CheckpointDag {
    var nodes: map<Id, set<Id>>
    var generation: map<Id, nat>

    function View(): State
      reads this
    {
      State(nodes, generation)
    }

    constructor ()
      ensures View() == NO_NODES
    {
      nodes, generation := map[], map[];
    }

    method AddNode(id: Id)
      modifies this
      ensures View() == WithNode(old(View()), id)
    {
      NodeEntry(id);
      GenerationEntry(id);
    }

    /** `nodes.entry(id).or_default()` */
    method NodeEntry(id: Id)
      modifies this`nodes
      ensures nodes == old(nodes)[id := Succ(old(nodes), id)]
    {
      if id !in nodes {
        nodes := nodes[id := {}];
      }
    }

    /** `generation.entry(id).or_insert(0)` */
    method GenerationEntry(id: Id)
      modifies this`generation
      ensures generation == old(generation)[id := Generation(old(View()), id)]
    {
      if id !in generation {
        generation := generation[id := 0];
      }
    }

    method AddEdge(parent: Id, child: Id) returns (added: bool)
      modifies this
      ensures added <==> !WouldCycle(old(View()), parent, child)
      ensures View() == if added then Linked(old(View()), parent, child) else old(View())
    {
      var cycle := WouldCreateCycle(parent, child);
      if cycle {
        return false;
      }
      AddEdgeUnchecked(parent, child);
      return true;
    }

    method AddEdgeUnchecked(parent: Id, child: Id)
      modifies this
      ensures View() == Linked(old(View()), parent, child)
    {
      ghost var before := View();
      NodeEntry(parent);
      NodeEntry(child);
      nodes := nodes[parent := nodes[parent] + {child}];
      LinkNodes(before.nodes, parent, child);
      GenerationEntry(parent);
      var parentGen := generation[parent];
      GenerationEntry(child);
      generation := generation[child := Max(generation[child], parentGen + 1)];
      LinkGeneration(before, parent, child);
    }

    method WouldCreateCycle(parent: Id, child: Id) returns (cycle: bool)
      ensures cycle <==> WouldCycle(View(), parent, child)
    {
      if parent == child {
        return true;
      }
      var childGen := Generation(View(), child);
      var parentGen := Generation(View(), parent);
      if childGen >= parentGen {
        return false;
      }
      var visited, queue := {}, [child];
      SweepStarts(nodes, child);
      while queue != []
        invariant Sweeping(nodes, {child}, queue, visited) && parent !in visited
        decreases nodes.Keys - visited, |queue|
      {
        var current := queue[0];
        if current == parent {
          return true;
        }
        if current in visited {
          SweepSkips(nodes, {child}, queue, visited);
          queue := queue[1..];
          continue;
        }
        queue := VisitChildren(nodes, visited, queue, {child});
        visited := visited + {current};
      }
      SweepEnds(nodes, {child}, visited);
      assert !From(nodes, {child}, parent);
      assert child in {child};
      return false;
    }

    method IsAncestor(ancestor: Id, descendant: Id) returns (yes: bool)
      ensures yes <==> Ancestor(View(), ancestor, descendant)
    {
      if ancestor == descendant {
        return true;
      }
      if ancestor in generation && descendant in generation && generation[ancestor] >= generation[descendant] {
        return false;
      }
      var visited, queue := {}, [ancestor];
      SweepStarts(nodes, ancestor);
      while queue != []
        invariant Sweeping(nodes, {ancestor}, queue, visited)
        invariant forall x :: x in visited ==> descendant !in Succ(nodes, x)
        decreases nodes.Keys - visited, |queue|
      {
        var current := queue[0];
        if current in visited {
          SweepSkips(nodes, {ancestor}, queue, visited);
          queue := queue[1..];
          continue;
        }
        var met;
        queue, met := VisitChildrenUnless(nodes, visited, queue, descendant, {ancestor});
        if met {
          assert From(nodes, {ancestor}, current);
          ReachEdge(nodes, ancestor, current, descendant);
          return true;
        }
        visited := visited + {current};
      }
      SweepEnds(nodes, {ancestor}, visited);
      if Reach(nodes, ancestor, descendant) {
        MissedOnlyIfUnreached(nodes, ancestor, descendant, visited);
      }
      return false;
    }

    /** `ancestors`: the search order without its start. */
    method Ancestors(id: Id, parents: Parents) returns (result: seq<Id>)
      ensures [id] + result == Order(parents, id)
    {
      result := [];
      var visited, queue := {}, [id];
      ghost var order := [];
      while queue != []
        invariant visited == Seen(order) && Bfs(parents, queue, order) == Order(parents, id)
        invariant order == [] ==> result == [] && queue == [id]
        invariant order != [] ==> order == [id] + result
        decreases parents.Keys - visited, |queue|
      {
        var current := queue[0];
        if current in visited {
          queue := queue[1..];
          continue;
        }
        queue := VisitParents(parents, visited, queue, order);
        visited, order := visited + {current}, order + [current];
        if current != id {
          result := result + [current];
        }
      }
    }

    method MergeBase(id1: Id, id2: Id, parents: Parents) returns (found: Option<Id>)
      ensures found == MergeBaseOf(parents, id1, id2)
    {
      var above := Ancestors(id1, parents);
      var ancestors1 := (set x | x in above) + {id1};
      assert ancestors1 == Seen(Order(parents, id1));
      var visited, queue := {}, [id2];
      ghost var order := [];
      while queue != []
        invariant visited == Seen(order) && Bfs(parents, queue, order) == Order(parents, id2)
        invariant forall x :: x in order ==> x !in ancestors1
        decreases parents.Keys - visited, |queue|
      {
        var current := queue[0];
        if current in ancestors1 {
          FoundAt(parents, queue, order, ancestors1);
          return Some(current);
        }
        if current in visited {
          queue := queue[1..];
          continue;
        }
        queue := VisitParents(parents, visited, queue, order);
        visited, order := visited + {current}, order + [current];
      }
      FirstInIs(order, ancestors1, |order|);
      return None;
    }

    method HasNode(id: Id) returns (yes: bool)
      ensures yes <==> id in View().nodes
    {
      return id in nodes;
    }

    method SetGeneration(id: Id, gen: nat)
      modifies this
      ensures View() == old(View()).(generation := old(generation)[id := gen])
    {
      generation := generation[id := gen];
    }

    method RemoveNode(id: Id)
      modifies this
      ensures View() == Without(old(View()), id)
    {
      nodes, generation := nodes - {id}, generation - {id};
      var rest := nodes.Keys;
      while rest != {}
        invariant rest <= nodes.Keys == old(nodes).Keys - {id}
        invariant generation == old(generation) - {id}
        invariant forall k :: k in nodes ==>
          nodes[k] == if k in rest then old(nodes)[k] else old(nodes)[k] - {id}
        decreases rest
      {
        var k :| k in rest;
        rest := rest - {k};
        nodes := nodes[k := nodes[k] - {id}];
      }
      assert nodes == Without(old(View()), id).nodes;
    }
  }

  /** A reachable node other than the start has a predecessor that the start reaches. */
  lemma MissedOnlyIfUnreached(g: Graph, start: Id, x: Id, visited: set<Id>)
    requires start != x && Reach(g, start, x)
    requires forall y :: y in visited <==> From(g, {start}, y)
    ensures exists y :: y in visited && x in Succ(g, y)
  {
    var n: nat :| Walk(g, start, x, n);
    var z :| Walk(g, start, z, n - 1) && x in Succ(g, z);
    assert Reach(g, start, z) && start in {start};
    assert From(g, {start}, z);
  }
}
