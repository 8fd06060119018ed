/** Breadth-first search along parents: the order in which every history walk of the
    repository visits checkpoints, and what that order guarantees. */
module Search {
  import opened Results
  import opened Checkpoints
  import opened Graph
  import opened Paths

  /** A finite parent function; nodes without an entry have no parents. */
  type Parents = map<Id, seq<Id>>

  function ParentsOf(m: Parents, id: Id): seq<Id> {
    if id in m then m[id] else []
  }

  function AsGraph(m: Parents): Graph {
    map id | id in m :: set p | p in m[id]
  }

  lemma SuccIsParent(m: Parents, a: Id, b: Id)
    ensures b in Succ(AsGraph(m), a) <==> b in ParentsOf(m, a)
  {
  }

  /** The parents that are pushed: those not visited yet, in order. */
  function Unvisited(ids: seq<Id>, order: seq<Id>): seq<Id> {
    if ids == [] then []
    else (if ids[0] in order then [] else [ids[0]]) + Unvisited(ids[1..], order)
  }

  lemma {:induction false} UnvisitedIs(ids: seq<Id>, order: seq<Id>)
    ensures forall x :: x in Unvisited(ids, order) <==> x in ids && x !in order
  {
    if ids != [] {
      UnvisitedIs(ids[1..], order);
      assert forall x :: x in ids <==> x == ids[0] || x in ids[1..];
    }
  }

  lemma {:induction false} UnvisitedSnoc(ids: seq<Id>, x: Id, order: seq<Id>)
    ensures Unvisited(ids + [x], order) == Unvisited(ids, order) + if x in order then [] else [x]
  {
    if ids == [] {
      assert [] + [x] == [x] && [x][1..] == [];
    } else {
      assert (ids + [x])[1..] == ids[1..] + [x];
      UnvisitedSnoc(ids[1..], x, order);
    }
  }

  function Seen(order: seq<Id>): set<Id> {
    set x | x in order
  }

  /** The rest of a search: pop, skip what was visited, else visit and push. */
  function Bfs(m: Parents, queue: seq<Id>, order: seq<Id>): seq<Id>
    decreases |m.Keys - Seen(order)|, |queue|
  {
    if queue == [] then order
    else if queue[0] in order then Bfs(m, queue[1..], order)
    else
      var order' := order + [queue[0]];
      Shrinks(m, queue[0], order);
      Bfs(m, queue[1..] + Unvisited(ParentsOf(m, queue[0]), order'), order')
  }

  lemma Shrinks(m: Parents, x: Id, order: seq<Id>)
    requires x !in order
    ensures Seen(order + [x]) == Seen(order) + {x}
    ensures x in m ==> |m.Keys - Seen(order + [x])| < |m.Keys - Seen(order)|
    ensures x !in m ==> m.Keys - Seen(order + [x]) == m.Keys - Seen(order) && ParentsOf(m, x) == []
  {
    if x in m {
      assert m.Keys - Seen(order) == m.Keys - Seen(order + [x]) + {x};
    }
  }

  /** The order in which a search from `start` visits. */
  function Order(m: Parents, start: Id): seq<Id> {
    Bfs(m, [start], [])
  }

  lemma {:induction false} BfsExtends(m: Parents, queue: seq<Id>, order: seq<Id>)
    ensures order <= Bfs(m, queue, order)
    decreases |m.Keys - Seen(order)|, |queue|
  {
    if queue != [] {
      if queue[0] in order {
        BfsExtends(m, queue[1..], order);
      } else {
        var order' := order + [queue[0]];
        Shrinks(m, queue[0], order);
        BfsExtends(m, queue[1..] + Unvisited(ParentsOf(m, queue[0]), order'), order');
      }
    }
  }

  // ---- paths -----------------------------------------------------------------

  ghost predicate Distinct(s: seq<Id>) {
    forall i, j :: 0 <= i < j < |s| ==> s[i] != s[j]
  }

  /** Where an index path leads: at each step the parent with that index is taken. */
  function Follow(m: Parents, start: Id, p: Path): Option<Id>
    decreases |p|
  {
    if p == [] then Some(start)
    else
      match Follow(m, start, p[..|p| - 1])
      case None => None
      case Some(x) => if p[|p| - 1] < |ParentsOf(m, x)| then Some(ParentsOf(m, x)[p[|p| - 1]]) else None
  }

  lemma FollowSnoc(m: Parents, start: Id, p: Path, x: Id, k: nat)
    requires Follow(m, start, p) == Some(x) && k < |ParentsOf(m, x)|
    ensures Follow(m, start, p + [k]) == Some(ParentsOf(m, x)[k])
  {
    assert (p + [k])[..|p|] == p;
  }

  lemma {:induction false} PathIsWalk(m: Parents, start: Id, p: Path, x: Id)
    requires Follow(m, start, p) == Some(x)
    ensures Walk(AsGraph(m), start, x, |p|)
    decreases |p|
  {
    if p != [] {
      var z := Follow(m, start, p[..|p| - 1]).value;
      PathIsWalk(m, start, p[..|p| - 1], z);
      assert x in ParentsOf(m, z);
      WalkStep(AsGraph(m), start, z, x, |p| - 1);
    }
  }

  lemma {:induction false} WalkHasPath(m: Parents, start: Id, x: Id, n: nat) returns (p: Path)
    requires Walk(AsGraph(m), start, x, n)
    ensures |p| == n && Follow(m, start, p) == Some(x)
    decreases n
  {
    if n == 0 {
      p := [];
    } else {
      var z :| Walk(AsGraph(m), start, z, n - 1) && x in Succ(AsGraph(m), z);
      var q := WalkHasPath(m, start, z, n - 1);
      var k :| 0 <= k < |ParentsOf(m, z)| && ParentsOf(m, z)[k] == x;
      FollowSnoc(m, start, q, z, k);
      p := q + [k];
    }
  }

  // ---- the paths a search takes ------------------------------------------------

  ghost predicate Increasing(ps: seq<Path>) {
    forall i, j :: 0 <= i < j < |ps| ==> Below(ps[i], ps[j])
  }

  /** Each node with a path that leads to it. */
  ghost predicate Followed(m: Parents, start: Id, nodes: seq<Id>, ps: seq<Path>) {
    |nodes| == |ps| && forall i :: 0 <= i < |nodes| ==> Follow(m, start, ps[i]) == Some(nodes[i])
  }

  /** `x` stands in the list with a path that is at most `p`. */
  ghost predicate At(nodes: seq<Id>, ps: seq<Path>, x: Id, p: Path) {
    exists i :: 0 <= i < |nodes| && i < |ps| && nodes[i] == x && AtMost(ps[i], p)
  }

  /** Each parent of a listed node is listed or queued, at most one step further on. */
  ghost predicate Covers(m: Parents, queue: seq<Id>, qs: seq<Path>, order: seq<Id>, ps: seq<Path>) {
    forall i, k :: 0 <= i < |order| && i < |ps| && 0 <= k < |ParentsOf(m, order[i])| ==>
      var z := ParentsOf(m, order[i])[k];
      At(order, ps, z, ps[i] + [k]) || At(queue, qs, z, ps[i] + [k])
  }

  /** The path was pushed for a node visited already. */
  ghost predicate Pushed(q: Path, ps: seq<Path>) {
    q != [] ==> ps != [] && AtMost(q[..|q| - 1], ps[|ps| - 1])
  }

  /** Visited nodes carry the paths they were reached by, queued ones theirs; paths increase
      through the visited and on through the queue. */
  ghost predicate Searching(m: Parents, start: Id, queue: seq<Id>, qs: seq<Path>, order: seq<Id>, ps: seq<Path>) {
    && Followed(m, start, queue, qs) && Followed(m, start, order, ps)
    && Distinct(order) && Increasing(ps + qs)
    && (forall j :: 0 <= j < |qs| ==> Pushed(qs[j], ps))
    && (At(order, ps, start, []) || At(queue, qs, start, []))
    && Covers(m, queue, qs, order, ps)
  }

  lemma AtMore(nodes: seq<Id>, ps: seq<Path>, more: seq<Id>, morePs: seq<Path>, x: Id, p: Path)
    requires |nodes| == |ps| && |more| == |morePs|
    ensures At(nodes, ps, x, p) ==> At(nodes + more, ps + morePs, x, p)
    ensures At(more, morePs, x, p) ==> At(nodes + more, ps + morePs, x, p)
  {
    if At(nodes, ps, x, p) {
      var i :| 0 <= i < |nodes| && nodes[i] == x && AtMost(ps[i], p);
      assert (nodes + more)[i] == x && (ps + morePs)[i] == ps[i];
    }
    if At(more, morePs, x, p) {
      var i :| 0 <= i < |more| && more[i] == x && AtMost(morePs[i], p);
      assert (nodes + more)[|nodes| + i] == x && (ps + morePs)[|nodes| + i] == morePs[i];
    }
  }

  /** Dropping the head of the queue loses nothing but the head. */
  lemma AtTail(queue: seq<Id>, qs: seq<Path>, x: Id, p: Path)
    requires |queue| == |qs| > 0 && At(queue, qs, x, p)
    ensures (x == queue[0] && AtMost(qs[0], p)) || At(queue[1..], qs[1..], x, p)
  {
    var i :| 0 <= i < |queue| && queue[i] == x && AtMost(qs[i], p);
    if i > 0 {
      assert queue[1..][i - 1] == x && qs[1..][i - 1] == qs[i];
    }
  }

  lemma IncreasingParts(ps: seq<Path>, qs: seq<Path>)
    ensures Increasing(ps + qs) <==>
      Increasing(ps) && Increasing(qs) && forall i, j :: 0 <= i < |ps| && 0 <= j < |qs| ==> Below(ps[i], qs[j])
  {
    var all := ps + qs;
    assert forall i :: 0 <= i < |ps| ==> all[i] == ps[i];
    assert forall j :: 0 <= j < |qs| ==> all[|ps| + j] == qs[j];
    if Increasing(all) {
      forall i, j | 0 <= i < j < |qs|
        ensures Below(qs[i], qs[j])
      {
        assert Below(all[|ps| + i], all[|ps| + j]);
      }
      forall i, j | 0 <= i < |ps| && 0 <= j < |qs|
        ensures Below(ps[i], qs[j])
      {
        assert Below(all[i], all[|ps| + j]);
      }
    }
  }

  // ---- skipping ------------------------------------------------------------------

  /** The head was visited before, by an earlier path. */
  lemma SkipStep(m: Parents, start: Id, queue: seq<Id>, qs: seq<Path>, order: seq<Id>, ps: seq<Path>)
    requires Searching(m, start, queue, qs, order, ps) && |queue| > 0 && queue[0] in order
    ensures Searching(m, start, queue[1..], qs[1..], order, ps)
  {
    IncreasingParts(ps, qs);
    IncreasingParts(ps, qs[1..]);
    SkipAt(queue, qs, order, ps, start, []);
    forall i, k | 0 <= i < |order| && 0 <= k < |ParentsOf(m, order[i])|
      ensures var z := ParentsOf(m, order[i])[k];
        At(order, ps, z, ps[i] + [k]) || At(queue[1..], qs[1..], z, ps[i] + [k])
    {
      SkipAt(queue, qs, order, ps, ParentsOf(m, order[i])[k], ps[i] + [k]);
    }
  }

  lemma SkipAt(queue: seq<Id>, qs: seq<Path>, order: seq<Id>, ps: seq<Path>, x: Id, p: Path)
    requires |queue| == |qs| > 0 && |order| == |ps| && queue[0] in order
    requires forall i :: 0 <= i < |ps| ==> Below(ps[i], qs[0])
    requires At(order, ps, x, p) || At(queue, qs, x, p)
    ensures At(order, ps, x, p) || At(queue[1..], qs[1..], x, p)
  {
    if !At(order, ps, x, p) {
      AtTail(queue, qs, x, p);
      var h :| 0 <= h < |order| && order[h] == queue[0];
      if x == queue[0] && AtMost(qs[0], p) {
        AtMostTransitive(ps[h], qs[0], p);
      }
    }
  }

  // ---- visiting ------------------------------------------------------------------

  /** The indices of the parents that are pushed. */
  function Indices(ids: seq<Id>, order: seq<Id>, from: nat): seq<nat> {
    if ids == [] then []
    else (if ids[0] in order then [] else [from]) + Indices(ids[1..], order, from + 1)
  }

  lemma {:induction false} IndicesAre(ids: seq<Id>, order: seq<Id>, from: nat)
    ensures var ks := Indices(ids, order, from);
      && |ks| == |Unvisited(ids, order)|
      && (forall i :: 0 <= i < |ks| ==>
            from <= ks[i] < from + |ids| && ids[ks[i] - from] == Unvisited(ids, order)[i])
      && (forall i, j :: 0 <= i < j < |ks| ==> ks[i] < ks[j])
  {
    if ids != [] {
      IndicesAre(ids[1..], order, from + 1);
    }
  }

  lemma {:induction false} IndexOfPushed(ids: seq<Id>, order: seq<Id>, from: nat, k: nat) returns (i: nat)
    requires k < |ids| && ids[k] !in order
    ensures i < |Indices(ids, order, from)| && Indices(ids, order, from)[i] == from + k
  {
    if k == 0 {
      i := 0;
    } else {
      var h := IndexOfPushed(ids[1..], order, from + 1, k - 1);
      i := if ids[0] in order then h else h + 1;
    }
  }

  function Extended(p: Path, ks: seq<nat>): seq<Path> {
    seq(|ks|, i requires 0 <= i < |ks| => p + [ks[i]])
  }

  /** Entries stay findable when the head moves from the queue to the visited list. */
  lemma AtMoves(queue: seq<Id>, qs: seq<Path>, order: seq<Id>, ps: seq<Path>, pushed: seq<Id>, pp: seq<Path>, x: Id,
                p: Path)
    requires |queue| == |qs| > 0 && |order| == |ps| && |pushed| == |pp|
    requires At(order, ps, x, p) || At(queue, qs, x, p)
    ensures At(order + [queue[0]], ps + [qs[0]], x, p) || At(queue[1..] + pushed, qs[1..] + pp, x, p)
  {
    if At(order, ps, x, p) {
      AtMore(order, ps, [queue[0]], [qs[0]], x, p);
    } else {
      AtTail(queue, qs, x, p);
      if At(queue[1..], qs[1..], x, p) {
        AtMore(queue[1..], qs[1..], pushed, pp, x, p);
      } else {
        assert At([queue[0]], [qs[0]], x, p) by {
          assert [queue[0]][0] == x && [qs[0]][0] == qs[0];
        }
        AtMore(order, ps, [queue[0]], [qs[0]], x, p);
      }
    }
  }

  /** The head is visited by its path, and its unvisited parents are queued one step on. */
  lemma VisitStep(m: Parents, start: Id, queue: seq<Id>, qs: seq<Path>, order: seq<Id>, ps: seq<Path>)
    requires Searching(m, start, queue, qs, order, ps) && |queue| > 0 && queue[0] !in order
    ensures var ids, order' := ParentsOf(m, queue[0]), order + [queue[0]];
      Searching(m, start, queue[1..] + Unvisited(ids, order'), qs[1..] + Extended(qs[0], Indices(ids, order', 0)),
                order', ps + [qs[0]])
  {
    var ids, order' := ParentsOf(m, queue[0]), order + [queue[0]];
    var pushed, pp := Unvisited(ids, order'), Extended(qs[0], Indices(ids, order', 0));
    IndicesAre(ids, order', 0);
    VisitFollows(m, start, queue, qs, order, ps);
    VisitIncreases(qs, ps, Indices(ids, order', 0));
    VisitPushed(qs, ps, Indices(ids, order', 0));
    AtMoves(queue, qs, order, ps, pushed, pp, start, []);
    VisitCovers(m, queue, qs, order, ps);
  }

  lemma VisitFollows(m: Parents, start: Id, queue: seq<Id>, qs: seq<Path>, order: seq<Id>, ps: seq<Path>)
    requires Followed(m, start, queue, qs) && Followed(m, start, order, ps) && |queue| > 0
    ensures var ids, order' := ParentsOf(m, queue[0]), order + [queue[0]];
      && Followed(m, start, queue[1..] + Unvisited(ids, order'), qs[1..] + Extended(qs[0], Indices(ids, order', 0)))
      && Followed(m, start, order', ps + [qs[0]])
  {
    var ids, order' := ParentsOf(m, queue[0]), order + [queue[0]];
    var ks, pushed := Indices(ids, order', 0), Unvisited(ids, order');
    IndicesAre(ids, order', 0);
    forall i | 0 <= i < |ks|
      ensures Follow(m, start, Extended(qs[0], ks)[i]) == Some(pushed[i])
    {
      FollowSnoc(m, start, qs[0], queue[0], ks[i]);
    }
  }

  lemma VisitIncreases(qs: seq<Path>, ps: seq<Path>, ks: seq<nat>)
    requires |qs| > 0 && Increasing(ps + qs) && forall i, j :: 0 <= i < j < |ks| ==> ks[i] < ks[j]
    requires forall j :: 0 <= j < |qs| ==> Pushed(qs[j], ps)
    ensures Increasing((ps + [qs[0]]) + (qs[1..] + Extended(qs[0], ks)))
  {
    var pp := Extended(qs[0], ks);
    assert (ps + [qs[0]]) + (qs[1..] + pp) == (ps + qs) + pp;
    IncreasingParts(ps, qs);
    forall i, j | 0 <= i < j < |pp|
      ensures Below(pp[i], pp[j])
    {
      BelowSnoc(qs[0], qs[0], ks[i], ks[j]);
    }
    forall i, j | 0 <= i < |ps + qs| && 0 <= j < |pp|
      ensures Below((ps + qs)[i], pp[j])
    {
      var p := (ps + qs)[i];
      if i < |ps| {
        BelowTransitive(p, qs[0], pp[j]);
      } else if p != [] {
        PushedIsBelow(p, ps, qs[0], ks[j]);
      }
    }
    IncreasingParts(ps + qs, pp);
  }

  /** A queued path lies below every path pushed later. */
  lemma PushedIsBelow(q: Path, ps: seq<Path>, p: Path, k: nat)
    requires q != [] && Pushed(q, ps) && forall i :: 0 <= i < |ps| ==> Below(ps[i], p)
    ensures Below(q, p + [k])
  {
    AtMostTransitive(q[..|q| - 1], ps[|ps| - 1], p);
    BelowSnoc(q[..|q| - 1], p, q[|q| - 1], k);
    assert q == q[..|q| - 1] + [q[|q| - 1]];
  }

  lemma VisitPushed(qs: seq<Path>, ps: seq<Path>, ks: seq<nat>)
    requires |qs| > 0 && Increasing(ps + qs) && forall j :: 0 <= j < |qs| ==> Pushed(qs[j], ps)
    ensures forall j :: 0 <= j < |qs[1..] + Extended(qs[0], ks)| ==>
      Pushed((qs[1..] + Extended(qs[0], ks))[j], ps + [qs[0]])
  {
    var pp := Extended(qs[0], ks);
    IncreasingParts(ps, qs);
    forall j | 0 <= j < |qs[1..] + pp|
      ensures Pushed((qs[1..] + pp)[j], ps + [qs[0]])
    {
      if j < |qs| - 1 {
        var q := qs[j + 1];
        if q != [] {
          AtMostTransitive(q[..|q| - 1], ps[|ps| - 1], qs[0]);
        }
      } else {
        var k := ks[j - (|qs| - 1)];
        assert (qs[1..] + pp)[j] == qs[0] + [k] && (qs[0] + [k])[..|qs[0]|] == qs[0];
      }
    }
  }

  lemma VisitCovers(m: Parents, queue: seq<Id>, qs: seq<Path>, order: seq<Id>, ps: seq<Path>)
    requires |queue| == |qs| > 0 && |order| == |ps| && Increasing(ps + qs) && Covers(m, queue, qs, order, ps)
    ensures var ids, order' := ParentsOf(m, queue[0]), order + [queue[0]];
      Covers(m, queue[1..] + Unvisited(ids, order'), qs[1..] + Extended(qs[0], Indices(ids, order', 0)),
             order', ps + [qs[0]])
  {
    var ids, order' := ParentsOf(m, queue[0]), order + [queue[0]];
    var pushed, pp, ps' := Unvisited(ids, order'), Extended(qs[0], Indices(ids, order', 0)), ps + [qs[0]];
    IndicesAre(ids, order', 0);
    IncreasingParts(ps, qs);
    forall i, k | 0 <= i < |order'| && 0 <= k < |ParentsOf(m, order'[i])|
      ensures var z := ParentsOf(m, order'[i])[k];
        At(order', ps', z, ps'[i] + [k]) || At(queue[1..] + pushed, qs[1..] + pp, z, ps'[i] + [k])
    {
      var z := ParentsOf(m, order'[i])[k];
      if i < |order| {
        assert order'[i] == order[i] && ps'[i] == ps[i];
        AtMoves(queue, qs, order, ps, pushed, pp, z, ps[i] + [k]);
      } else {
        VisitedParent(m, queue, qs, order, ps, k);
      }
    }
  }

  /** A parent of the node being visited. */
  lemma VisitedParent(m: Parents, queue: seq<Id>, qs: seq<Path>, order: seq<Id>, ps: seq<Path>, k: nat)
    requires |queue| == |qs| > 0 && |order| == |ps| && k < |ParentsOf(m, queue[0])|
    requires forall i :: 0 <= i < |ps| ==> Below(ps[i], qs[0])
    ensures var ids, order' := ParentsOf(m, queue[0]), order + [queue[0]];
      || At(order', ps + [qs[0]], ids[k], qs[0] + [k])
      || At(queue[1..] + Unvisited(ids, order'), qs[1..] + Extended(qs[0], Indices(ids, order', 0)), ids[k],
            qs[0] + [k])
  {
    var ids, order' := ParentsOf(m, queue[0]), order + [queue[0]];
    var ps' := ps + [qs[0]];
    if ids[k] in order' {
      var h :| 0 <= h < |order'| && order'[h] == ids[k];
      assert AtMost(ps'[h], qs[0]) && Below(qs[0], qs[0] + [k]);
      AtMostTransitive(ps'[h], qs[0], qs[0] + [k]);
    } else {
      var ks, pushed := Indices(ids, order', 0), Unvisited(ids, order');
      IndicesAre(ids, order', 0);
      var i := IndexOfPushed(ids, order', 0, k);
      assert pushed[i] == ids[k] && Extended(qs[0], ks)[i] == qs[0] + [k];
      assert At(pushed, Extended(qs[0], ks), ids[k], qs[0] + [k]);
      AtMore(queue[1..], qs[1..], pushed, Extended(qs[0], ks), ids[k], qs[0] + [k]);
    }
  }

  lemma {:induction false} BfsPaths(m: Parents, start: Id, queue: seq<Id>, qs: seq<Path>, order: seq<Id>, ps: seq<Path>)
    returns (paths: seq<Path>)
    requires Searching(m, start, queue, qs, order, ps)
    ensures Searching(m, start, [], [], Bfs(m, queue, order), paths)
    decreases |m.Keys - Seen(order)|, |queue|
  {
    if queue == [] {
      assert qs == [];
      paths := ps;
    } else if queue[0] in order {
      SkipStep(m, start, queue, qs, order, ps);
      paths := BfsPaths(m, start, queue[1..], qs[1..], order, ps);
    } else {
      var ids, order' := ParentsOf(m, queue[0]), order + [queue[0]];
      Shrinks(m, queue[0], order);
      VisitStep(m, start, queue, qs, order, ps);
      paths := BfsPaths(m, start, queue[1..] + Unvisited(ids, order'),
                        qs[1..] + Extended(qs[0], Indices(ids, order', 0)), order', ps + [qs[0]]);
    }
  }

  // ---- the theorem -----------------------------------------------------------------

  /** No path to `x` is below `p`. */
  ghost predicate Least(m: Parents, start: Id, x: Id, p: Path) {
    Follow(m, start, p) == Some(x) && forall q :: Follow(m, start, q) == Some(x) ==> AtMost(p, q)
  }

  /** In a finished search every path is met by one at most as large. */
  /** A finished search lists all parents of what it lists, each met by its path. */
  ghost predicate Finished(m: Parents, start: Id, order: seq<Id>, ps: seq<Path>) {
    |order| == |ps| && At(order, ps, start, []) && Covers(m, [], [], order, ps)
  }

  lemma {:induction false} EveryPathIsMet(m: Parents, start: Id, order: seq<Id>, ps: seq<Path>, x: Id, p: Path)
    requires Finished(m, start, order, ps) && Follow(m, start, p) == Some(x)
    ensures At(order, ps, x, p)
    decreases |p|
  {
    if p != [] {
      var init, k := p[..|p| - 1], p[|p| - 1];
      var z := Follow(m, start, init).value;
      EveryPathIsMet(m, start, order, ps, z, init);
      assert p == init + [k];
      ParentIsMet(m, start, order, ps, z, init, k);
    }
  }

  lemma ParentIsMet(m: Parents, start: Id, order: seq<Id>, ps: seq<Path>, z: Id, init: Path, k: nat)
    requires Finished(m, start, order, ps) && At(order, ps, z, init) && k < |ParentsOf(m, z)|
    ensures At(order, ps, ParentsOf(m, z)[k], init + [k])
  {
    var i :| 0 <= i < |order| && i < |ps| && order[i] == z && AtMost(ps[i], init);
    ParentIsListed(m, start, order, ps, i, k);
    MetBefore(order, ps, ParentsOf(m, z)[k], ps[i], init, k);
  }

  lemma ParentIsListed(m: Parents, start: Id, order: seq<Id>, ps: seq<Path>, i: nat, k: nat)
    requires Finished(m, start, order, ps) && i < |order| && k < |ParentsOf(m, order[i])|
    ensures At(order, ps, ParentsOf(m, order[i])[k], ps[i] + [k])
  {
  }

  /** What is met by a path is met by every extension of a higher one. */
  lemma MetBefore(order: seq<Id>, ps: seq<Path>, x: Id, q: Path, init: Path, k: nat)
    requires At(order, ps, x, q + [k]) && AtMost(q, init)
    ensures At(order, ps, x, init + [k])
  {
    var j :| 0 <= j < |order| && j < |ps| && order[j] == x && AtMost(ps[j], q + [k]);
    AtMostSnoc(q, init, k);
    AtMostTransitive(ps[j], q + [k], init + [k]);
  }

  /** A search lists each node it reaches once, in the order of the least index paths that
      lead to the nodes. */
  lemma OrderIsByLeastPath(m: Parents, start: Id) returns (ps: seq<Path>)
    ensures Distinct(Order(m, start)) && |ps| == |Order(m, start)| && Increasing(ps)
    ensures forall i :: 0 <= i < |ps| ==> Least(m, start, Order(m, start)[i], ps[i])
    ensures forall x :: x in Order(m, start) <==> Reach(AsGraph(m), start, x)
  {
    var order := Order(m, start);
    assert At([start], [[]], start, []) by {
      assert [start][0] == start && AtMost([[]][0], []);
    }
    ps := BfsPaths(m, start, [start], [[]], [], []);
    assert ps + [] == ps;
    forall i | 0 <= i < |order|
      ensures Least(m, start, order[i], ps[i])
    {
      forall q | Follow(m, start, q) == Some(order[i])
        ensures AtMost(ps[i], q)
      {
        EveryPathIsMet(m, start, order, ps, order[i], q);
        var j :| 0 <= j < |order| && order[j] == order[i] && AtMost(ps[j], q);
        assert j == i;
      }
    }
    forall x
      ensures x in order <==> Reach(AsGraph(m), start, x)
    {
      if x in order {
        var i :| 0 <= i < |order| && order[i] == x;
        PathIsWalk(m, start, ps[i], x);
      }
      if Reach(AsGraph(m), start, x) {
        var n: nat :| Walk(AsGraph(m), start, x, n);
        var p := WalkHasPath(m, start, x, n);
        EveryPathIsMet(m, start, order, ps, x, p);
      }
    }
  }

  /** A walk of at most n edges. */
  ghost predicate Within(g: Graph, a: Id, b: Id, n: nat) {
    exists k: nat :: k <= n && Walk(g, a, b, k)
  }

  /** A search visits exactly what the start reaches, once each, in order of shortest
      distance: nothing that comes later is nearer than what came before. */
  ghost predicate ByDistance(g: Graph, start: Id, order: seq<Id>) {
    && Distinct(order)
    && (forall x :: x in order <==> Reach(g, start, x))
    && (forall i, j, n: nat :: 0 <= i < j < |order| && Walk(g, start, order[j], n) ==>
          Within(g, start, order[i], n))
  }

  lemma OrderIsByDistance(m: Parents, start: Id)
    ensures ByDistance(AsGraph(m), start, Order(m, start))
  {
    var order := Order(m, start);
    var ps := OrderIsByLeastPath(m, start);
    forall i, j, n: nat | 0 <= i < j < |order| && Walk(AsGraph(m), start, order[j], n)
      ensures Within(AsGraph(m), start, order[i], n)
    {
      var p := WalkHasPath(m, start, order[j], n);
      assert Below(ps[i], ps[j]) && AtMost(ps[j], p);
      PathIsWalk(m, start, ps[i], order[i]);
    }
  }

  // ---- searches that only collect --------------------------------------------

  ghost predicate From(g: Graph, starts: set<Id>, x: Id) {
    exists s :: s in starts && Reach(g, s, x)
  }

  /** A search with a queue and a visited set: nothing is found that the starts do not reach,
      and what a visited node points to is visited or queued. */
  ghost predicate Sweeping(g: Graph, starts: set<Id>, queue: seq<Id>, visited: set<Id>) {
    && (forall s :: s in starts ==> s in visited || s in queue)
    && (forall x :: x in visited || x in queue ==> From(g, starts, x))
    && (forall x, z :: x in visited && z in Succ(g, x) ==> z in visited || z in queue)
  }

  lemma SweepStarts(g: Graph, start: Id)
    ensures Sweeping(g, {start}, [start], {})
  {
    ReachSelf(g, start);
    assert From(g, {start}, start);
  }

  lemma SweepSkips(g: Graph, starts: set<Id>, queue: seq<Id>, visited: set<Id>)
    requires Sweeping(g, starts, queue, visited) && queue != [] && queue[0] in visited
    ensures Sweeping(g, starts, queue[1..], visited)
  {
  }

  lemma SweepVisits(g: Graph, starts: set<Id>, queue: seq<Id>, visited: set<Id>, pushed: seq<Id>)
    requires Sweeping(g, starts, queue, visited) && queue != []
    requires forall z :: z in pushed <==> z in Succ(g, queue[0]) && z !in visited + {queue[0]}
    ensures Sweeping(g, starts, queue[1..] + pushed, visited + {queue[0]})
  {
    assert forall x :: x in queue <==> x == queue[0] || x in queue[1..];
    forall z | z in pushed
      ensures From(g, starts, z)
    {
      var s :| s in starts && Reach(g, s, queue[0]);
      ReachEdge(g, s, queue[0], z);
    }
  }

  /** A search that has run dry has found exactly what its starts reach. */
  lemma SweepEnds(g: Graph, starts: set<Id>, visited: set<Id>)
    requires Sweeping(g, starts, [], visited)
    ensures forall x :: x in visited <==> From(g, starts, x)
  {
    forall x | From(g, starts, x)
      ensures x in visited
    {
      var s :| s in starts && Reach(g, s, x);
      var n: nat :| Walk(g, s, x, n);
      ClosedHolds(g, visited, s, x, n);
    }
  }
}
