/** What the history walks of the repository list: the log, the ancestors up to a target and
    the ancestry chain (src/checkpoint/repo.rs). */
module Walks {
  import opened Results
  import opened Checkpoints
  import opened Graph
  import opened Paths
  import opened Search
  import opened Repository

  function ParentMap(cps: map<Id, Checkpoint>): Parents {
    map id | id in cps :: cps[id].parents
  }

  /** Each checkpoint is stored under its own identifier. */
  ghost predicate Keyed(cps: map<Id, Checkpoint>) {
    forall id :: id in cps ==> cps[id].id == id
  }

  /** The loaded ones among the visited. */
  function Pick(cps: map<Id, Checkpoint>, ids: seq<Id>): seq<Checkpoint>
    decreases |ids|
  {
    if ids == [] then []
    else
      var init, last := ids[..|ids| - 1], ids[|ids| - 1];
      Pick(cps, init) + if last in cps then [cps[last]] else []
  }

  lemma PickSnoc(cps: map<Id, Checkpoint>, ids: seq<Id>, x: Id)
    ensures Pick(cps, ids + [x]) == Pick(cps, ids) + if x in cps then [cps[x]] else []
  {
  }

  /** The whole log from a checkpoint. */
  function History(cps: map<Id, Checkpoint>, start: Id): seq<Checkpoint> {
    Pick(cps, Order(ParentMap(cps), start))
  }

  /** `log_from` */
  function Log(cps: map<Id, Checkpoint>, start: Id, count: nat): seq<Checkpoint> {
    var all := History(cps, start);
    if count < |all| then all[..count] else all
  }

  function IndexOf(ids: seq<Id>, x: Id): (i: nat)
    requires x in ids
    ensures i < |ids| && ids[i] == x
  {
    if ids[0] == x then 0 else IndexOf(ids[1..], x) + 1
  }

  /** `get_ancestors_to` */
  function AncestorsTo(cps: map<Id, Checkpoint>, head: Id, target: Id): Result<seq<Checkpoint>, Error> {
    var order := Order(ParentMap(cps), head);
    if target in cps && target in order
    then Ok(Pick(cps, order[..IndexOf(order, target) + 1]))
    else Err(UnknownCheckpoint(target))
  }

  function Reversed(ids: seq<Id>): seq<Id> {
    if ids == [] then [] else Reversed(ids[1..]) + [ids[0]]
  }

  /** `get_ancestry_chain` */
  function Chain(cps: map<Id, Checkpoint>, id: Id): seq<Id> {
    Reversed(Order(ParentMap(cps), id))
  }

  /** The parent relation as a graph. */
  function Up(cps: map<Id, Checkpoint>): Graph {
    AsGraph(ParentMap(cps))
  }

  // ---- the loaded part of a visit ------------------------------------------------

  lemma {:induction false} PickHas(cps: map<Id, Checkpoint>, ids: seq<Id>, id: Id)
    requires id in cps && id in ids
    ensures cps[id] in Pick(cps, ids)
    decreases |ids|
  {
    var init, last := ids[..|ids| - 1], ids[|ids| - 1];
    assert ids == init + [last];
    if id != last {
      PickHas(cps, init, id);
    }
  }

  lemma {:induction false} PickPrefix(cps: map<Id, Checkpoint>, ids: seq<Id>, n: nat)
    requires n <= |ids|
    ensures Pick(cps, ids[..n]) <= Pick(cps, ids)
    decreases |ids|
  {
    if n < |ids| {
      var init := ids[..|ids| - 1];
      assert init[..n] == ids[..n];
      PickPrefix(cps, init, n);
    } else {
      assert ids[..n] == ids;
    }
  }

  /** Where the i-th loaded one was visited. */
  lemma {:induction false} PickAt(cps: map<Id, Checkpoint>, ids: seq<Id>, i: nat) returns (a: nat)
    requires i < |Pick(cps, ids)|
    ensures a < |ids| && ids[a] in cps && Pick(cps, ids)[i] == cps[ids[a]]
    ensures |Pick(cps, ids[..a])| == i
    decreases |ids|
  {
    var init, last := ids[..|ids| - 1], ids[|ids| - 1];
    if i < |Pick(cps, init)| {
      a := PickAt(cps, init, i);
      assert init[..a] == ids[..a];
    } else {
      a := |ids| - 1;
    }
  }

  lemma PickPair(cps: map<Id, Checkpoint>, ids: seq<Id>, i: nat, j: nat) returns (a: nat, b: nat)
    requires i < j < |Pick(cps, ids)|
    ensures a < b < |ids| && ids[a] in cps && ids[b] in cps
    ensures Pick(cps, ids)[i] == cps[ids[a]] && Pick(cps, ids)[j] == cps[ids[b]]
  {
    a := PickAt(cps, ids, i);
    b := PickAt(cps, ids, j);
    PickGrows(cps, ids, b, a);
  }

  lemma PickGrows(cps: map<Id, Checkpoint>, ids: seq<Id>, b: nat, a: nat)
    requires b <= |ids| && a <= |ids|
    ensures b <= a ==> |Pick(cps, ids[..b])| <= |Pick(cps, ids[..a])|
  {
    if b <= a {
      PickPrefix(cps, ids[..a], b);
      assert ids[..a][..b] == ids[..b];
    }
  }

  lemma SizeSnoc(cps: map<Id, Checkpoint>, ids: seq<Id>, x: Id)
    requires x !in ids
    ensures |set y | y in cps && y in ids + [x]| == |set y | y in cps && y in ids| + if x in cps then 1 else 0
  {
    var before := set y | y in cps && y in ids;
    assert (set y | y in cps && y in ids + [x]) == before + if x in cps then {x} else {};
    assert x !in before;
  }

  lemma {:induction false} PickSize(cps: map<Id, Checkpoint>, ids: seq<Id>)
    requires Distinct(ids)
    ensures |Pick(cps, ids)| == |set x | x in cps && x in ids|
    decreases |ids|
  {
    if ids == [] {
      assert (set x | x in cps && x in ids) == {};
    } else {
      var init, last := ids[..|ids| - 1], ids[|ids| - 1];
      PickSize(cps, init);
      assert ids == init + [last];
      SizeSnoc(cps, init, last);
    }
  }

  // ---- the log ---------------------------------------------------------------------

  /** A log of distinct loaded ancestors, nearest first. */
  ghost predicate NearestFirst(cps: map<Id, Checkpoint>, start: Id, log: seq<Checkpoint>) {
    && (forall i :: 0 <= i < |log| ==>
          log[i].id in cps && log[i] == cps[log[i].id] && Reach(Up(cps), start, log[i].id))
    && (forall i, j :: 0 <= i < j < |log| ==> log[i].id != log[j].id)
    && (forall i, j, n: nat :: 0 <= i < j < |log| && Walk(Up(cps), start, log[j].id, n) ==>
          Within(Up(cps), start, log[i].id, n))
  }

  ghost function Ancestors(cps: map<Id, Checkpoint>, start: Id): set<Id> {
    set x | x in cps && Reach(Up(cps), start, x)
  }

  lemma HistoryNearestFirst(cps: map<Id, Checkpoint>, start: Id)
    requires Keyed(cps)
    ensures NearestFirst(cps, start, History(cps, start))
  {
    var order, log := Order(ParentMap(cps), start), History(cps, start);
    OrderIsByDistance(ParentMap(cps), start);
    forall i | 0 <= i < |log|
      ensures log[i].id in cps && log[i] == cps[log[i].id] && Reach(Up(cps), start, log[i].id)
    {
      var a := PickAt(cps, order, i);
      assert order[a] in order;
    }
    forall i, j | 0 <= i < j < |log|
      ensures log[i].id != log[j].id
      ensures forall n: nat :: Walk(Up(cps), start, log[j].id, n) ==> Within(Up(cps), start, log[i].id, n)
    {
      var a, b := PickPair(cps, order, i, j);
    }
  }

  /** The log holds distinct loaded ancestors, nearest first, as many as asked for or all of
      them; a shorter log is a prefix of a longer one. */
  lemma LogIs(cps: map<Id, Checkpoint>, start: Id, n: nat)
    requires Keyed(cps)
    ensures NearestFirst(cps, start, Log(cps, start, n))
    ensures |Log(cps, start, n)| == if n < |Ancestors(cps, start)| then n else |Ancestors(cps, start)|
    ensures forall m: nat :: n <= m ==> Log(cps, start, n) <= Log(cps, start, m)
  {
    HistoryNearestFirst(cps, start);
    OrderIsByDistance(ParentMap(cps), start);
    PickSize(cps, Order(ParentMap(cps), start));
    assert Ancestors(cps, start) == set x | x in cps && x in Order(ParentMap(cps), start);
  }

  /** Nothing loaded and reachable is missing from the whole log. */
  lemma HistoryIsComplete(cps: map<Id, Checkpoint>, start: Id, x: Id)
    requires x in Ancestors(cps, start)
    ensures cps[x] in History(cps, start)
  {
    OrderIsByDistance(ParentMap(cps), start);
    PickHas(cps, Order(ParentMap(cps), start), x);
  }

  /** The walk to a target succeeds exactly for loaded ancestors of the head; it is then the
      part of the log that ends with the target. */
  lemma AncestorsToIff(cps: map<Id, Checkpoint>, head: Id, target: Id)
    requires Keyed(cps)
    ensures AncestorsTo(cps, head, target).Ok? <==> target in Ancestors(cps, head)
    ensures AncestorsTo(cps, head, target).Ok? ==>
      var log := AncestorsTo(cps, head, target).value;
      log != [] && log[|log| - 1].id == target && log <= History(cps, head)
  {
    var order := Order(ParentMap(cps), head);
    OrderIsByDistance(ParentMap(cps), head);
    if target in cps && target in order {
      PickUpTo(cps, order, IndexOf(order, target));
    }
  }

  lemma PickUpTo(cps: map<Id, Checkpoint>, ids: seq<Id>, k: nat)
    requires k < |ids| && ids[k] in cps
    ensures var part := Pick(cps, ids[..k + 1]);
      part <= Pick(cps, ids) && part != [] && part[|part| - 1] == cps[ids[k]]
  {
    PickPrefix(cps, ids, k + 1);
    assert ids[..k + 1] == ids[..k] + [ids[k]];
    PickSnoc(cps, ids[..k], ids[k]);
  }

  // ---- the ancestry chain ------------------------------------------------------------

  lemma {:induction false} ReversedAt(ids: seq<Id>, k: nat)
    requires k < |ids|
    ensures |Reversed(ids)| == |ids| && Reversed(ids)[|ids| - 1 - k] == ids[k]
  {
    if |ids| > 1 {
      ReversedAt(ids[1..], if k > 0 then k - 1 else 0);
    }
  }

  lemma BfsNotEmpty(m: Parents, start: Id)
    ensures Order(m, start) != [] && Order(m, start)[0] == start
  {
    BfsExtends(m, [] + Unvisited(ParentsOf(m, start), [start]), [start]);
    assert [start][1..] == [] && [] + [start] == [start];
    assert [start] <= Order(m, start);
  }

  /** The chain holds what the checkpoint reaches, once each, the checkpoint last. */
  lemma ChainHolds(cps: map<Id, Checkpoint>, id: Id)
    ensures Distinct(Chain(cps, id))
    ensures forall x :: x in Chain(cps, id) <==> Reach(Up(cps), id, x)
    ensures Chain(cps, id) != [] && Chain(cps, id)[|Chain(cps, id)| - 1] == id
  {
    var order, chain := Order(ParentMap(cps), id), Chain(cps, id);
    OrderIsByDistance(ParentMap(cps), id);
    BfsNotEmpty(ParentMap(cps), id);
    forall k | 0 <= k < |order|
      ensures |chain| == |order| && chain[|order| - 1 - k] == order[k]
    {
      ReversedAt(order, k);
    }
    assert |chain| == |order| && chain[|order| - 1] == order[0];
    assert forall k :: 0 <= k < |order| ==> chain[k] == order[|order| - 1 - k] by {
      forall k | 0 <= k < |order|
        ensures chain[k] == order[|order| - 1 - k]
      {
        ReversedAt(order, |order| - 1 - k);
      }
    }
    forall x
      ensures x in chain <==> x in order
    {
      if x in chain {
        var k :| 0 <= k < |chain| && chain[k] == x;
        assert order[|order| - 1 - k] == x;
      }
    }
  }

  /** Every parent stands before its child. */
  ghost predicate Topological(cps: map<Id, Checkpoint>, chain: seq<Id>) {
    forall i, j :: 0 <= i < |chain| && 0 <= j < |chain| && chain[j] in Succ(Up(cps), chain[i]) ==> j < i
  }

  /** Every child is listed before its parents. */
  ghost predicate ChildrenFirst(cps: map<Id, Checkpoint>, order: seq<Id>) {
    forall i, j :: 0 <= i < |order| && 0 <= j < |order| && order[j] in Succ(Up(cps), order[i]) ==> i < j
  }

  /** A chain is the search reversed. */
  lemma ReversedIsTopological(cps: map<Id, Checkpoint>, id: Id)
    ensures Topological(cps, Chain(cps, id)) <==> ChildrenFirst(cps, Order(ParentMap(cps), id))
  {
    var order, chain := Order(ParentMap(cps), id), Chain(cps, id);
    var n := |order|;
    BfsNotEmpty(ParentMap(cps), id);
    ReversedAt(order, 0);
    forall k | 0 <= k < n
      ensures chain[k] == order[n - 1 - k] && order[k] == chain[n - 1 - k]
    {
      ReversedAt(order, k);
      ReversedAt(order, n - 1 - k);
    }
    if Topological(cps, chain) {
      forall i, j | 0 <= i < n && 0 <= j < n && order[j] in Succ(Up(cps), order[i])
        ensures i < j
      {
        assert chain[n - 1 - j] in Succ(Up(cps), chain[n - 1 - i]);
      }
    }
    if ChildrenFirst(cps, order) {
      forall i, j | 0 <= i < n && 0 <= j < n && chain[j] in Succ(Up(cps), chain[i])
        ensures j < i
      {
        assert order[n - 1 - j] in Succ(Up(cps), order[n - 1 - i]);
      }
    }
  }

  /** For every reachable checkpoint and each of its parents, the least index path to the
      checkpoint is below the least index path to the parent. */
  ghost predicate ParentsLater(m: Parents, id: Id) {
    forall x, p, a, b :: Least(m, id, x, a) && Least(m, id, p, b) && p in ParentsOf(m, x) ==> Below(a, b)
  }

  lemma OneLeast(m: Parents, id: Id, x: Id, a: Path, b: Path)
    requires Least(m, id, x, a) && Least(m, id, x, b)
    ensures a == b
  {
    if a != b {
      BelowIsStrict(a);
      BelowTransitive(a, b, a);
    }
  }

  /** The chain is topological if and only if every parent's least index path lies above its
      child's: shorter paths first, then the order in which parents are recorded. */
  lemma ChainTopologicalIff(cps: map<Id, Checkpoint>, id: Id)
    ensures Topological(cps, Chain(cps, id)) <==> ParentsLater(ParentMap(cps), id)
  {
    var m, order := ParentMap(cps), Order(ParentMap(cps), id);
    var ps := OrderIsByLeastPath(m, id);
    ReversedIsTopological(cps, id);
    if ChildrenFirst(cps, order) {
      forall x, p, a, b | Least(m, id, x, a) && Least(m, id, p, b) && p in ParentsOf(m, x)
        ensures Below(a, b)
      {
        var i := LeastAt(m, id, x, a, ps);
        var j := LeastAt(m, id, p, b, ps);
        SuccIsParent(m, x, p);
        assert order[j] in Succ(Up(cps), order[i]);
      }
    }
    if ParentsLater(m, id) {
      forall i, j | 0 <= i < |order| && 0 <= j < |order| && order[j] in Succ(Up(cps), order[i])
        ensures i < j
      {
        SuccIsParent(m, order[i], order[j]);
        assert Below(ps[i], ps[j]);
        BelowIsStrict(ps[i]);
        if j < i {
          BelowTransitive(ps[i], ps[j], ps[i]);
        }
      }
    }
  }

  /** Where a reachable node stands in the search, and by which path. */
  lemma LeastAt(m: Parents, id: Id, x: Id, a: Path, ps: seq<Path>) returns (i: nat)
    requires |ps| == |Order(m, id)| && forall k :: 0 <= k < |ps| ==> Least(m, id, Order(m, id)[k], ps[k])
    requires Least(m, id, x, a) && forall y :: y in Order(m, id) <==> Reach(AsGraph(m), id, y)
    ensures i < |ps| && Order(m, id)[i] == x && ps[i] == a
  {
    PathIsWalk(m, id, a, x);
    assert x in Order(m, id);
    i :| 0 <= i < |Order(m, id)| && Order(m, id)[i] == x;
    OneLeast(m, id, x, ps[i], a);
  }

  // ---- histories without merges ---------------------------------------------------------

  ghost predicate Linear(g: Graph) {
    forall x, p, q :: p in Succ(g, x) && q in Succ(g, x) ==> p == q
  }

  lemma {:induction false} OneWalk(g: Graph, a: Id, x: Id, y: Id, n: nat)
    requires Linear(g) && Walk(g, a, x, n) && Walk(g, a, y, n)
    ensures x == y
    decreases n
  {
    if n > 0 {
      var u :| Walk(g, a, u, n - 1) && x in Succ(g, u);
      var v :| Walk(g, a, v, n - 1) && y in Succ(g, v);
      OneWalk(g, a, u, v, n - 1);
    }
  }

  /** A longer walk goes through the end of every shorter one. */
  lemma {:induction false} WalkSplit(g: Graph, a: Id, x: Id, n: nat, m: nat) returns (y: Id)
    requires n <= m && Walk(g, a, x, m)
    ensures Walk(g, a, y, n) && Walk(g, y, x, m - n)
    decreases m
  {
    if n == m {
      y := x;
    } else {
      var z :| Walk(g, a, z, m - 1) && x in Succ(g, z);
      y := WalkSplit(g, a, z, n, m - 1);
      WalkStep(g, y, z, x, m - 1 - n);
    }
  }

  lemma OneDistance(g: Graph, a: Id, x: Id, n: nat, m: nat)
    requires Linear(g) && Acyclic(g) && n <= m && Walk(g, a, x, n) && Walk(g, a, x, m)
    ensures n == m
  {
    var y := WalkSplit(g, a, x, n, m);
    OneWalk(g, a, x, y, n);
  }

  lemma LinearParentLater(m: Parents, id: Id, x: Id, p: Id, a: Path, b: Path)
    requires Linear(AsGraph(m)) && Acyclic(AsGraph(m))
    requires Least(m, id, x, a) && Least(m, id, p, b) && p in ParentsOf(m, x)
    ensures Below(a, b)
  {
    var k: nat :| k < |ParentsOf(m, x)| && ParentsOf(m, x)[k] == p;
    FollowSnoc(m, id, a, x, k);
    PathIsWalk(m, id, b, p);
    PathIsWalk(m, id, a + [k], p);
    assert AtMost(b, a + [k]) && |b| <= |a| + 1;
    OneDistance(AsGraph(m), id, p, |b|, |a| + 1);
  }

  /** On histories without merges the chain runs from the root to the checkpoint. */
  lemma LinearIsTopological(cps: map<Id, Checkpoint>, id: Id)
    requires Linear(Up(cps)) && Acyclic(Up(cps))
    ensures Topological(cps, Chain(cps, id))
  {
    forall x, p, a, b | Least(ParentMap(cps), id, x, a) && Least(ParentMap(cps), id, p, b)
        && p in ParentsOf(ParentMap(cps), x)
      ensures Below(a, b)
    {
      LinearParentLater(ParentMap(cps), id, x, p, a, b);
    }
    ChainTopologicalIff(cps, id);
  }

  // ---- a merge that is listed out of order -------------------------------------------------

  /** A checkpoint on a branch, merged into the root it was made on: the search meets the root
      before the branch's checkpoint, whose parent the root is. */
  lemma MergeIntoParentOrder(m: Parents, root: Id, side: Id, merge: Id)
    requires m == map[root := [], side := [root], merge := [root, side]]
    requires root != side && root != merge && side != merge
    ensures Order(m, merge) == [merge, root, side]
  {
    assert Unvisited([root, side], [merge]) == [root, side] by {
      assert [root, side][1..] == [side] && [side][1..] == [];
      assert Unvisited([side], [merge]) == [side] + Unvisited([], [merge]) == [side];
      assert [root] + [side] == [root, side];
    }
    assert [merge][1..] + [root, side] == [root, side] && [] + [merge] == [merge];
    assert Order(m, merge) == Bfs(m, [root, side], [merge]);
    assert [root, side][1..] + Unvisited([], [merge, root]) == [side];
    assert [merge] + [root] == [merge, root];
    assert Bfs(m, [root, side], [merge]) == Bfs(m, [side], [merge, root]);
    assert Unvisited([root], [merge, root, side]) == [] by {
      assert [root][1..] == [];
    }
    assert [side][1..] + [] == [] && [merge, root] + [side] == [merge, root, side];
    assert Bfs(m, [side], [merge, root]) == Bfs(m, [], [merge, root, side]);
  }

  function MergeIntoParent(snap: Snap): seq<Action> {
    [ABranch("side"), ASwitch("side"), ACommit([snap], "work", "user"), ASwitch("main"),
     AMerge("side", [snap], "merge", "user")]
  }

  /** The repository that those five operations make of a new one. */
  lemma MergeIntoParentIs(snap: Snap)
    ensures var root := RootCheckpoint([]);
      var side := NewCheckpoint([snap], [root.id], "user", "work");
      var merge := NewCheckpoint([snap], [root.id, side.id], "user", "merge");
      var r := Run(State(Initial([]), None), MergeIntoParent(snap)).repo;
      r.checkpoints == map[root.id := root, side.id := side, merge.id := merge] && Current(r).head == merge.id
  {
    var root := RootCheckpoint([]);
    var side := NewCheckpoint([snap], [root.id], "user", "work");
    var merge := NewCheckpoint([snap], [root.id, side.id], "user", "merge");
    var actions := MergeIntoParent(snap);
    var s0 := State(Initial([]), None);
    var s1 := Step(s0, actions[0]);
    assert s1.repo.branches == [Branch("main", root.id), Branch("side", root.id)];
    var s2 := Step(s1, actions[1]);
    assert s2.repo.current == 1 && s2.repo.branches == s1.repo.branches;
    var s3 := Step(s2, actions[2]);
    assert s3.repo.branches == [Branch("main", root.id), Branch("side", side.id)];
    assert s3.repo.checkpoints == map[root.id := root, side.id := side];
    var s4 := Step(s3, actions[3]);
    assert s4.repo.current == 0 && s4.repo.branches == s3.repo.branches;
    var s5 := Step(s4, actions[4]);
    assert s5.repo.checkpoints == map[root.id := root, side.id := side, merge.id := merge];
    RunFive(s0, actions);
  }

  lemma RunFive(s: State, actions: seq<Action>)
    requires Seated(s) && |actions| == 5
    ensures Run(s, actions)
         == Step(Step(Step(Step(Step(s, actions[0]), actions[1]), actions[2]), actions[3]), actions[4])
  {
    var a1, a2, a3, a4 := actions[1..], actions[2..], actions[3..], actions[4..];
    assert a1[1..] == a2 && a2[1..] == a3 && a3[1..] == a4 && a4[1..] == [];
    var s1 := Step(s, actions[0]);
    var s2 := Step(s1, a1[0]);
    var s3 := Step(s2, a2[0]);
    var s4 := Step(s3, a3[0]);
    assert Run(s4, a4) == Run(Step(s4, a4[0]), []);
    assert Run(s3, a3) == Run(s4, a4);
    assert Run(s2, a2) == Run(s3, a3);
    assert Run(s1, a1) == Run(s2, a2);
  }

  /** The chain is documented as root first, but merges can put a parent after its child. */
  lemma MergeChainIsNotTopological(snap: Snap)
    ensures var r := Run(State(Initial([]), None), MergeIntoParent(snap)).repo;
      !Topological(r.checkpoints, Chain(r.checkpoints, Current(r).head))
  {
    MergeIntoParentIs(snap);
    var root := RootCheckpoint([]);
    var side := NewCheckpoint([snap], [root.id], "user", "work");
    var merge := NewCheckpoint([snap], [root.id, side.id], "user", "merge");
    var cps := map[root.id := root, side.id := side, merge.id := merge];
    assert ParentMap(cps) == map[root.id := [], side.id := [root.id], merge.id := [root.id, side.id]];
    MergeIntoParentOrder(ParentMap(cps), root.id, side.id, merge.id);
    var order := Order(ParentMap(cps), merge.id);
    SuccIsParent(ParentMap(cps), side.id, root.id);
    assert order[1] in Succ(Up(cps), order[2]);
    assert !ChildrenFirst(cps, order);
    ReversedIsTopological(cps, merge.id);
  }
}
