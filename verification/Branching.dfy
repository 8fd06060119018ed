/** Where branches stand: what creating, switching, committing and merging do to them and to the
    histories behind them (src/checkpoint/repo.rs). */
module Branching {
  import opened Results
  import opened Checkpoints
  import opened Graph
  import opened Search
  import opened Tables
  import opened Repository
  import opened Histories
  import opened Walks
  import opened Commits
  import Dag

  ghost predicate Named(r: Repo, name: string) {
    exists b :: b in r.branches && b.name == name
  }

  lemma FoundIsNamed(r: Repo, name: string)
    ensures FindBranch(r.branches, name).Some? <==> Named(r, name)
  {
    if FindBranch(r.branches, name).Some? {
      assert r.branches[FindBranch(r.branches, name).value] in r.branches;
    }
  }

  /** Names are unique, so a search finds the branch of that name. */
  lemma FoundIs(bs: seq<Branch>, b: Branch)
    requires b in bs && forall i, j :: 0 <= i < j < |bs| ==> bs[i].name != bs[j].name
    ensures FindBranch(bs, b.name).Some? && bs[FindBranch(bs, b.name).value] == b
  {
    var k :| 0 <= k < |bs| && bs[k] == b;
  }

  // ---- beginning ------------------------------------------------------------------------

  ghost predicate Holds(t: State, id: Id, parents: seq<Id>, snapshots: seq<Snap>, author: string, message: string) {
    && id in t.repo.checkpoints
    && var cp := t.repo.checkpoints[id];
    && cp.parents == parents && cp.snapshots == snapshots && cp.author == author && cp.message == message
    && cp.id == id && cp.gitAnchor.None?
  }

  /** A new repository holds one checkpoint: the given snapshots, no parents, on branch main. */
  lemma InitialIs(snapshots: seq<Snap>)
    ensures var s := State(Initial(snapshots), None);
      && Sound(s) && s.repo.branches == [Branch("main", Current(s.repo).head)]
      && s.repo.checkpoints.Keys == {Current(s.repo).head}
      && Holds(s, Current(s.repo).head, [], snapshots, "system", "root checkpoint")
  {
    InitialGrown(snapshots);
  }

  // ---- switching -----------------------------------------------------------------------

  /** In every sound repository a switch succeeds exactly for the branches there are. It returns
      the branch's head, makes it the current one, records its name and changes nothing else. */
  lemma SwitchIff(s: State, name: string)
    requires Sound(s)
    ensures var (t, r) := SwitchBranch(s, name);
      if !Named(s.repo, name) then (t, r) == (s, Err(UnknownBranch(name)))
      else
        && r.Ok? && Branch(name, r.value) in s.repo.branches
        && t.repo == s.repo.(current := t.repo.current)
        && t.repo.current < |t.repo.branches| && Current(t.repo) == Branch(name, r.value)
        && t.db == match s.db { case None => None case Some(db) => Some(db.(current := Some(name))) }
  {
    FoundIsNamed(s.repo, name);
    if Named(s.repo, name) {
      var i := FindBranch(s.repo.branches, name).value;
      assert s.repo.branches[i] in s.repo.branches;
      assert s.repo.branches[i] == Branch(name, s.repo.branches[i].head);
    }
  }

  // ---- creating ------------------------------------------------------------------------

  /** `t` is `s` with one more branch, in memory and in the tables. */
  ghost predicate HasOneMore(s: State, t: State, b: Branch) {
    && t.repo == s.repo.(branches := s.repo.branches + [b])
    && t.repo.current < |s.repo.branches| && s.repo.current < |s.repo.branches| && Current(t.repo) == Current(s.repo)
    && t.db == match s.db { case None => None case Some(db) => Some(db.(branches := db.branches[b.name := b.head])) }
  }

  lemma NewIsFound(s: State, t: State, b: Branch)
    requires Sound(s) && !Named(s.repo, b.name) && HasOneMore(s, t, b) && b.head in s.repo.checkpoints
    ensures Sound(t) && Named(t.repo, b.name)
    ensures SwitchBranch(t, b.name).1 == Ok(b.head)
  {
    FoundIsNamed(s.repo, b.name);
    AddBranchSound(s, b);
    assert t == AddBranch(s, b);
    assert t.repo.branches[|s.repo.branches|] == b;
    FoundIs(t.repo.branches, b);
  }

  /** Create, then switch: what every use of a new branch sees. */
  ghost predicate OpensAt(s: State, t: State, name: string, head: Id) {
    && HasOneMore(s, t, Branch(name, head))
    && var (u, r) := SwitchBranch(t, name);
    && r == Ok(head) && u.repo.current < |u.repo.branches| && Current(u.repo) == Branch(name, head)
    && u.repo.branches == t.repo.branches
    && forall n: nat :: Log(u.repo.checkpoints, head, n) == Log(s.repo.checkpoints, head, n)
  }

  lemma Opened(s: State, t: State, name: string, head: Id)
    requires Sound(s) && !Named(s.repo, name) && head in s.repo.checkpoints
    requires HasOneMore(s, t, Branch(name, head))
    ensures OpensAt(s, t, name, head)
  {
    NewIsFound(s, t, Branch(name, head));
    SwitchIff(t, name);
  }

  /** In every sound repository a new branch stands at the head that is current: switching to it
      returns that head, and every log from there is as before. The current branch and all the
      others stay. It is refused exactly when the name is taken. */
  lemma BranchOpensAtHead(s: State, name: string)
    requires Sound(s)
    ensures var (t, r) := CreateBranch(s, name);
      if Named(s.repo, name) then (t, r) == (s, Err(BranchExists(name)))
      else r == Ok(()) && OpensAt(s, t, name, Current(s.repo).head)
  {
    FoundIsNamed(s.repo, name);
    if !Named(s.repo, name) {
      assert Current(s.repo) in s.repo.branches;
      Opened(s, CreateBranch(s, name).0, name, Current(s.repo).head);
    }
  }

  /** The same at a given checkpoint; refused for an unknown one first, then for a taken name. */
  lemma BranchOpensAt(s: State, name: string, at: Id)
    requires Sound(s)
    ensures var (t, r) := CreateBranchFrom(s, name, at);
      if at !in s.repo.checkpoints then (t, r) == (s, Err(UnknownCheckpoint(at)))
      else if Named(s.repo, name) then (t, r) == (s, Err(BranchExists(name)))
      else r == Ok(()) && OpensAt(s, t, name, at)
  {
    FoundIsNamed(s.repo, name);
    if at in s.repo.checkpoints && !Named(s.repo, name) {
      Opened(s, CreateBranchFrom(s, name, at).0, name, at);
    }
  }

  // ---- committing ------------------------------------------------------------------------

  /** The current branch stands at the new checkpoint `id`; all the others stay. */
  ghost predicate Advances(s: State, t: State, id: Id) {
    && s.repo.current < |s.repo.branches|
    && t.repo.branches == s.repo.branches[s.repo.current := Branch(Current(s.repo).name, id)]
    && t.repo.current == s.repo.current
    && (forall x :: x in t.repo.checkpoints <==> x in s.repo.checkpoints || x == id)
    && (forall x :: x in s.repo.checkpoints && x != id ==> t.repo.checkpoints[x] == s.repo.checkpoints[x])
  }

  /** In every sound repository a commit is refused exactly for no snapshots or for those of the
      current head, and changes nothing then; otherwise the current branch moves to a checkpoint
      with the old head for its one parent and the given content. */
  lemma CommitIff(s: State, snapshots: seq<Snap>, message: string, author: string)
    requires Sound(s)
    ensures var (t, r) := Commit(s, snapshots, message, author);
      var head := Current(s.repo).head;
      && head in s.repo.checkpoints
      && if snapshots == [] then (t, r) == (s, Err(NoSnapshots))
         else if s.repo.checkpoints[head].snapshots == snapshots then (t, r) == (s, Err(NoChanges))
         else r.Ok? && Advances(s, t, r.value) && Holds(t, r.value, [head], snapshots, author, message)
  {
    assert Current(s.repo) in s.repo.branches;
  }

  /** So a commit right after a commit of the same snapshots is always refused. */
  lemma CommitTwice(s: State, snapshots: seq<Snap>, message: string, author: string, message': string,
                    author': string)
    requires Sound(s) && snapshots != []
    ensures var t := Commit(s, snapshots, message, author).0;
      Commit(t, snapshots, message', author') == (t, Err(NoChanges))
  {
    CommitIff(s, snapshots, message, author);
    var t := Commit(s, snapshots, message, author).0;
    StepSound(s, ACommit(snapshots, message, author));
    assert t == Step(s, ACommit(snapshots, message, author));
    CommitIff(t, snapshots, message', author');
  }

  // ---- merging ----------------------------------------------------------------------------

  /** What a merge of branch `source`, standing at `other`, makes. */
  ghost predicate Merges(s: State, t: State, r: Result<Id, Error>, source: string, other: Id, snapshots: seq<Snap>,
                         message: string, author: string)
    requires Seated(s)
  {
    && Branch(source, other) in s.repo.branches && r.Ok? && Advances(s, t, r.value)
    && Holds(t, r.value, [Current(s.repo).head, other], snapshots, author, message)
  }

  /** In every sound repository a merge is refused exactly for no snapshots or for an unknown
      branch, and changes nothing then; otherwise the current branch moves to a checkpoint with
      the current head and the other branch's head for its parents, in this order. */
  lemma MergeIff(s: State, source: string, snapshots: seq<Snap>, message: string, author: string)
    requires Sound(s)
    ensures var (t, r) := MergeBranches(s, source, snapshots, message, author);
      if snapshots == [] then (t, r) == (s, Err(NoSnapshots))
      else if !Named(s.repo, source) then (t, r) == (s, Err(UnknownBranch(source)))
      else exists other :: Merges(s, t, r, source, other, snapshots, message, author)
  {
    FoundIsNamed(s.repo, source);
    if snapshots != [] && Named(s.repo, source) {
      var b := s.repo.branches[FindBranch(s.repo.branches, source).value];
      assert b in s.repo.branches && b == Branch(source, b.head);
      var cp := NewCheckpoint(snapshots, [Current(s.repo).head, b.head], author, message);
      var (t, r) := MergeBranches(s, source, snapshots, message, author);
      assert (t, r) == (Extend(s, cp), Ok(cp.id));
      assert Advances(s, t, r.value);
      assert Merges(s, t, r, source, b.head, snapshots, message, author);
    }
  }

  /** Walks that do not start at a leaf do not see it. */
  lemma {:induction false} WalkWithLeaf(cps: map<Id, Checkpoint>, more: map<Id, Checkpoint>, id: Id, a: Id, x: Id,
                                        n: nat)
    requires AddsLeaf(ParentMap(cps), ParentMap(more), id) && a != id
    ensures Walk(Up(more), a, x, n) <==> Walk(Up(cps), a, x, n)
    ensures Walk(Up(cps), a, x, n) ==> x != id
    decreases n
  {
    if n > 0 {
      forall z
        ensures Walk(Up(more), a, z, n - 1) <==> Walk(Up(cps), a, z, n - 1)
        ensures Walk(Up(cps), a, z, n - 1) ==> z != id
        ensures z != id ==> (x in Succ(Up(more), z) <==> x in Succ(Up(cps), z))
        ensures x in Succ(Up(cps), z) ==> x != id
      {
        WalkWithLeaf(cps, more, id, a, z, n - 1);
        SuccIsParent(ParentMap(more), z, x);
        SuccIsParent(ParentMap(cps), z, x);
      }
    }
  }

  lemma FirstParent(cps: map<Id, Checkpoint>, cp: Checkpoint, x: Id) returns (p: Id)
    requires cp.id in cps && cps[cp.id] == cp && Reach(Up(cps), cp.id, x) && x != cp.id
    ensures p in cp.parents && Reach(Up(cps), p, x)
  {
    var n: nat :| Walk(Up(cps), cp.id, x, n);
    p := WalkSplit(Up(cps), cp.id, x, 1, n);
    var z :| Walk(Up(cps), cp.id, z, 0) && p in Succ(Up(cps), z);
    SuccIsParent(ParentMap(cps), cp.id, p);
  }

  lemma ThroughParent(cps: map<Id, Checkpoint>, cp: Checkpoint, p: Id, x: Id)
    requires cp.id in cps && cps[cp.id] == cp && p in cp.parents && Reach(Up(cps), p, x)
    ensures Reach(Up(cps), cp.id, x)
  {
    SuccIsParent(ParentMap(cps), cp.id, p);
    ReachSelf(Up(cps), cp.id);
    ReachEdge(Up(cps), cp.id, cp.id, p);
    ReachTransitive(Up(cps), cp.id, p, x);
  }

  /** What reaches back from a new checkpoint: itself and all that its parents reached. */
  lemma NewReaches(cps: map<Id, Checkpoint>, cp: Checkpoint, x: Id)
    requires Honest(cps) && Closed(cps) && OnTop(cps, cp) && cp.id !in cps
    ensures x in Ancestors(cps[cp.id := cp], cp.id)
       <==> x == cp.id || exists p :: p in cp.parents && x in Ancestors(cps, p)
  {
    var more := cps[cp.id := cp];
    ReachSelf(Up(more), cp.id);
    if x in Ancestors(more, cp.id) && x != cp.id {
      var p := FirstParent(more, cp, x);
      ParentReaches(cps, cp, p, x);
      assert x in Ancestors(cps, p);
    }
    if p :| p in cp.parents && x in Ancestors(cps, p) {
      ParentReaches(cps, cp, p, x);
      ThroughParent(more, cp, p, x);
    }
  }

  lemma ParentReaches(cps: map<Id, Checkpoint>, cp: Checkpoint, p: Id, x: Id)
    requires Honest(cps) && Closed(cps) && OnTop(cps, cp) && cp.id !in cps && p in cp.parents
    ensures Reach(Up(cps[cp.id := cp]), p, x) <==> Reach(Up(cps), p, x)
    ensures Reach(Up(cps), p, x) ==> x != cp.id
  {
    NewIsLeaf(cps, cp);
    if Reach(Up(cps[cp.id := cp]), p, x) {
      var n: nat :| Walk(Up(cps[cp.id := cp]), p, x, n);
      WalkWithLeaf(cps, cps[cp.id := cp], cp.id, p, x, n);
    }
    if Reach(Up(cps), p, x) {
      var n: nat :| Walk(Up(cps), p, x, n);
      WalkWithLeaf(cps, cps[cp.id := cp], cp.id, p, x, n);
    }
  }

  /** In every sound repository a merge joins the two histories: back from a new merge one
      reaches the merge, what the current head reached and what the other head reached. */
  lemma MergeJoinsHistories(s: State, source: string, other: Id, snapshots: seq<Snap>, message: string,
                            author: string)
    requires Sound(s) && snapshots != [] && Branch(source, other) in s.repo.branches
    requires NewCheckpoint(snapshots, [Current(s.repo).head, other], author, message).id !in s.repo.checkpoints
    ensures var (t, r) := MergeBranches(s, source, snapshots, message, author);
      var cps, head := s.repo.checkpoints, Current(s.repo).head;
      && r.Ok? && Current(t.repo) == Branch(Current(s.repo).name, r.value)
      && Ancestors(t.repo.checkpoints, r.value) == {r.value} + Ancestors(cps, head) + Ancestors(cps, other)
  {
    var cps, head := s.repo.checkpoints, Current(s.repo).head;
    var cp := NewCheckpoint(snapshots, [head, other], author, message);
    FoundIs(s.repo.branches, Branch(source, other));
    assert MergeBranches(s, source, snapshots, message, author) == (Extend(s, cp), Ok(cp.id));
    assert Current(s.repo) in s.repo.branches;
    PairReaches(cps, cp, head, other);
  }

  lemma PairReaches(cps: map<Id, Checkpoint>, cp: Checkpoint, head: Id, other: Id)
    requires Honest(cps) && Closed(cps) && head in cps && other in cps && cp.id !in cps
    requires cp == NewCheckpoint(cp.snapshots, [head, other], cp.author, cp.message)
    ensures Ancestors(cps[cp.id := cp], cp.id) == {cp.id} + Ancestors(cps, head) + Ancestors(cps, other)
  {
    forall x
      ensures x in Ancestors(cps[cp.id := cp], cp.id) <==> x in {cp.id} + Ancestors(cps, head) + Ancestors(cps, other)
    {
      NewReaches(cps, cp, x);
      assert head in cp.parents && other in cp.parents;
    }
  }

  // ---- rows ---------------------------------------------------------------------------------

  /** Every row of a checkpoint is still there as it was. */
  ghost predicate KeepsRows(s: State, t: State) {
    s.db.Some? ==> t.db.Some? && forall id :: id in s.db.value.checkpoints ==>
      id in t.db.value.checkpoints && t.db.value.checkpoints[id] == s.db.value.checkpoints[id]
  }

  lemma StepKeepsRows(s: State, a: Action)
    requires Seated(s)
    ensures KeepsRows(s, Step(s, a))
  {
    match a
    case AMerge(source, snapshots, message, author) =>
      var found := FindBranch(s.repo.branches, source);
      if found.Some? {
        ExtendKeepsRows(s, NewCheckpoint(snapshots, [Current(s.repo).head, s.repo.branches[found.value].head],
                                         author, message));
      }
    case ACommit(snapshots, message, author) =>
      ExtendKeepsRows(s, NewCheckpoint(snapshots, [Current(s.repo).head], author, message));
    case ACommitAllowEmpty(snapshots, message, author) =>
      ExtendKeepsRows(s, NewCheckpoint(snapshots, [Current(s.repo).head], author, message));
    case _ =>
  }

  lemma ExtendKeepsRows(s: State, cp: Checkpoint)
    requires Seated(s)
    ensures KeepsRows(s, Extend(s, cp))
  {
    if s.db.Some? {
      PutEdgesIs(KeepCheckpoint(s.db.value, cp), cp.parents, cp.id,
                 Dag.Generation(Grow(s.repo, cp).dag, cp.id));
    }
  }

  /** Over any run from any state, sound or not, the row of a checkpoint stays as it was first
      written. */
  lemma {:induction false} RowsNeverChange(s: State, actions: seq<Action>)
    requires Seated(s)
    ensures KeepsRows(s, Run(s, actions))
    decreases |actions|
  {
    if actions != [] {
      StepKeepsRows(s, actions[0]);
      RowsNeverChange(Step(s, actions[0]), actions[1..]);
    }
  }

  /** From any state: a commit or merge moves the row of a branch that has one and adds none, and a
      new branch replaces a row left over under its name. */
  lemma BranchRows(s: State, cp: Checkpoint, name: string)
    requires Seated(s) && s.db.Some? && !Named(s.repo, name)
    ensures var rows, head := s.db.value.branches, Current(s.repo);
      && Extend(s, cp).db.Some? && CreateBranch(s, name).0.db.Some?
      && Extend(s, cp).db.value.branches == (if head.name in rows then rows[head.name := cp.id] else rows)
      && CreateBranch(s, name).0.db.value.branches == rows[name := head.head]
  {
    FoundIsNamed(s.repo, name);
    PutEdgesIs(KeepCheckpoint(s.db.value, cp), cp.parents, cp.id, Dag.Generation(Grow(s.repo, cp).dag, cp.id));
  }
}
