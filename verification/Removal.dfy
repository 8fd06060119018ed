/** Removing checkpoints (`remove_checkpoint`, src/checkpoint/repo.rs): what goes, in memory and
    in the tables, and that the two still agree. */
module Removal {
  import opened Results
  import opened Checkpoints
  import opened Graph
  import opened Search
  import opened Tables
  import opened Repository
  import opened Histories
  import opened Walks
  import opened Gc
  import Dag
  import Reload

  /** The tables hold the memory: the same checkpoints, the graph's edges, its generations (none
      before the first edge), and each branch by name. */
  ghost predicate Agree(r: Repo, db: Db) {
    && db.checkpoints == r.checkpoints
    && (forall a, b :: b in Succ(r.dag.nodes, a) <==> (a, b) in db.edges)
    && (db.generations == r.dag.generation || (db.edges == {} && db.generations == map[]))
    && Lists(r.branches, db.branches)
    && r.current < |r.branches| && db.current == Some(Current(r).name)
  }

  lemma SoundAgrees(s: State)
    requires Sound(s) && s.db.Some?
    ensures Agree(s.repo, s.db.value)
  {
    forall a, b
      ensures b in Succ(s.repo.dag.nodes, a) <==> (a, b) in s.db.value.edges
    {
      SuccIsChild(s.repo.checkpoints, a, b);
      EdgeIsParent(s.repo.checkpoints, a, b);
    }
  }

  lemma EdgesWithout(d: Dag.State, edges: set<(Id, Id)>, id: Id)
    requires forall a, b :: b in Succ(d.nodes, a) <==> (a, b) in edges
    ensures forall a, b :: b in Succ(Dag.Without(d, id).nodes, a) <==>
      (a, b) in (set e | e in edges && e.0 != id && e.1 != id)
  {
    forall a, b
      ensures b in Succ(Dag.Without(d, id).nodes, a) <==> (a, b) in (set e | e in edges && e.0 != id && e.1 != id)
    {
      assert (a, b).0 == a && (a, b).1 == b;
      assert b in Succ(d.nodes, a) <==> (a, b) in edges;
    }
  }

  /** What a removal leaves of everything. */
  ghost predicate Removed(r: Repo, t: Repo, id: Id) {
    && t.branches == r.branches && t.current == r.current
    && t.checkpoints == r.checkpoints - {id} && t.dag.generation == r.dag.generation - {id}
    && (forall a, b :: b in Succ(t.dag.nodes, a) <==> b in Succ(r.dag.nodes, a) && a != id && b != id)
  }

  /** Where memory and tables agree, a removal succeeds exactly for the checkpoints there are.
      It takes the checkpoint, its generation and the edges at it from both, keeps everything
      else, and leaves the two in agreement. */
  lemma RemoveIff(r: Repo, db: Db, id: Id)
    requires Agree(r, db)
    ensures var (t, answer) := RemoveCheckpoint(State(r, Some(db)), id);
      if id !in r.checkpoints then (t, answer) == (State(r, Some(db)), Err(UnknownCheckpoint(id)))
      else answer == Ok(()) && Removed(r, t.repo, id) && t.db.Some? && Agree(t.repo, t.db.value)
  {
    EdgesWithout(r.dag, db.edges, id);
  }

  /** So memory and tables agree after any run and any removals behind it. */
  lemma {:induction false} RemovalsAgree(s: State, gone: seq<Id>)
    requires s.db.Some? && Agree(s.repo, s.db.value)
    ensures var t := RemoveAll(s, gone);
      t.db.Some? && Agree(t.repo, t.db.value)
    decreases |gone|
  {
    if gone != [] {
      var before := RemoveAll(s, gone[..|gone| - 1]);
      RemovalsAgree(s, gone[..|gone| - 1]);
      RemoveIff(before.repo, before.db.value, gone[|gone| - 1]);
    }
  }

  lemma RunThenRemove(s: State, actions: seq<Action>, gone: seq<Id>)
    requires Sound(s) && s.db.Some?
    ensures var t := RemoveAll(Run(s, actions), gone);
      t.db.Some? && Agree(t.repo, t.db.value)
  {
    RunSound(s, actions);
    SoundAgrees(Run(s, actions));
    RemovalsAgree(Run(s, actions), gone);
  }

  // ---- what is counted ----------------------------------------------------------------

  /** The places of snapshots in the given checkpoints. */
  function Places(cps: map<Id, Checkpoint>, ids: set<Id>): set<(Id, int)>
    requires forall x :: x in ids ==> x in cps
  {
    set x, i | x in ids && 0 <= i < |cps[x].snapshots| :: (x, i)
  }

  lemma {:induction false} PlacesOfOne(id: Id, n: nat)
    ensures |set i | 0 <= i < n :: (id, i)| == n
  {
    if n > 0 {
      PlacesOfOne(id, n - 1);
      assert (set i | 0 <= i < n :: (id, i)) == (set i | 0 <= i < n - 1 :: (id, i)) + {(id, n - 1)};
    }
  }

  /** A collection reports as many snapshots as the removed checkpoints hold. */
  lemma {:induction false} CountIsPlaces(cps: map<Id, Checkpoint>, gone: seq<Id>)
    requires Distinct(gone) && forall x :: x in gone ==> x in cps
    ensures forall x :: x in Seen(gone) ==> x in cps
    ensures SnapshotCount(cps, gone) == |Places(cps, Seen(gone))|
    decreases |gone|
  {
    if gone == [] {
      assert Places(cps, Seen(gone)) == {};
    } else {
      var init, last := gone[..|gone| - 1], gone[|gone| - 1];
      assert gone == init + [last] && last !in init;
      CountIsPlaces(cps, init);
      PlacesOfOne(last, |cps[last].snapshots|);
      assert Seen(gone) == Seen(init) + {last};
      PlacesMore(cps, Seen(init), last);
    }
  }

  lemma PlacesMore(cps: map<Id, Checkpoint>, ids: set<Id>, id: Id)
    requires id in cps && id !in ids && forall x :: x in ids ==> x in cps
    ensures var here := set i | 0 <= i < |cps[id].snapshots| :: (id, i);
      Places(cps, ids + {id}) == Places(cps, ids) + here && Places(cps, ids) !! here
  {
  }

  // ---- what a collection spares ----------------------------------------------------------

  ghost predicate OnBranch(r: Repo, p: Id) {
    exists b :: b in r.branches && Reach(Up(r.checkpoints), b.head, p)
  }

  predicate Anchored(r: Repo, p: Id) {
    p in r.dag.nodes && p in r.checkpoints && r.checkpoints[p].gitAnchor.Some?
  }

  /** A collection removes a checkpoint exactly when it is in the graph, and nothing from which it
      is reached is bound to a git commit or in the history of a branch. */
  lemma CollectedIff(s: State, gone: seq<Id>, x: Id)
    requires Distinct(gone) && forall y :: y in gone <==> Garbage(s.repo, y)
    requires x in s.repo.checkpoints
    ensures x !in RemoveAll(s, gone).repo.checkpoints <==>
      && x in s.repo.dag.nodes
      && forall p :: Reach(s.repo.dag.nodes, p, x) ==> !Anchored(s.repo, p) && !OnBranch(s.repo, p)
  {
    ProtectedSurvive(s, gone, x);
    forall p
      ensures Protected(s.repo, p) <==> Anchored(s.repo, p) || OnBranch(s.repo, p)
    {
    }
  }

  /** After any run the depth that a collection measures is the highest generation. */
  lemma DepthIsHighest(s: State, actions: seq<Action>, n: nat)
    requires Reload.Started(s) && Seated(s) && MaxDepth(Run(s, actions).repo, n)
    ensures var gen := Run(s, actions).repo.dag.generation;
      (forall id :: id in gen ==> gen[id] <= n) && (exists id :: id in gen && gen[id] == n)
  {
    Reload.StartedSound(s);
    RunSound(s, actions);
    HighestOf(Run(s, actions).repo, n);
  }

  lemma HighestOf(r: Repo, n: nat)
    requires Headed(r) && Grown(r.checkpoints, r.dag) && MaxDepth(r, n)
    ensures var gen := r.dag.generation;
      (forall id :: id in gen ==> gen[id] <= n) && (exists id :: id in gen && gen[id] == n)
  {
    var gen := r.dag.generation;
    forall id | id in gen
      ensures Deepest(Up(r.checkpoints), id, gen[id]) && gen[id] <= n
    {
      DepthIsGeneration(r.checkpoints, r.dag, id);
      assert Deepest(Up(r.checkpoints), id, gen[id]);
      var root :| Walk(Up(r.checkpoints), id, root, gen[id]);
    }
    if n > 0 {
      var id, x :| id in r.dag.nodes && Walk(Up(r.checkpoints), id, x, n);
      assert id in gen && gen[id] == n;
    } else {
      assert Current(r) in r.branches;
      assert Current(r).head in gen && gen[Current(r).head] == n;
    }
  }
}
