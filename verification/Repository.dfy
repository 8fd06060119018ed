/** The checkpoint repository as a state machine over its memory and its tables
    (src/checkpoint/repo.rs). */
module Repository {
  import opened Results
  import opened Checkpoints
  import opened Graph
  import opened Tables
  import Dag

  datatype Error =
    | NoSnapshots
    | NoChanges
    | UnknownCheckpoint(id: Id)
    | UnknownBranch(name: string)
    | BranchExists(name: string)

  datatype Repo = Repo(branches: seq<Branch>, current: nat, dag: Dag.State, checkpoints: map<Id, Checkpoint>)

  /** A repository and, when a backend is attached, its tables. */
  datatype State = State(repo: Repo, db: Option<Db>)

  function RootCheckpoint(snapshots: seq<Snap>): Checkpoint {
    NewCheckpoint(snapshots, [], "system", "root checkpoint")
  }

  /** `CheckpointRepo::new` */
  function Initial(snapshots: seq<Snap>): Repo {
    var root := RootCheckpoint(snapshots);
    Repo([Branch("main", root.id)], 0, Dag.WithNode(Dag.NO_NODES, root.id), map[root.id := root])
  }

  /** The index of the current branch is one of a branch. */
  predicate Seated(s: State) {
    s.repo.current < |s.repo.branches|
  }

  function Current(r: Repo): Branch
    requires r.current < |r.branches|
  {
    r.branches[r.current]
  }

  function FindBranch(bs: seq<Branch>, name: string): (found: Option<nat>)
    ensures found.Some? ==> found.value < |bs| && bs[found.value].name == name
    ensures found.None? ==> forall b :: b in bs ==> b.name != name
  {
    if bs == [] then None
    else if bs[0].name == name then Some(0)
    else match FindBranch(bs[1..], name)
      case Some(i) => Some(i + 1)
      case None => None
  }

  // ---- a new checkpoint ------------------------------------------------------

  ghost function EdgeTried(d: Dag.State, p: Id, c: Id): Dag.State {
    if Dag.WouldCycle(d, p, c) then d else Dag.Linked(d, p, c)
  }

  ghost function EdgesTried(d: Dag.State, parents: seq<Id>, c: Id): Dag.State
    decreases |parents|
  {
    if parents == [] then d
    else EdgeTried(EdgesTried(d, parents[..|parents| - 1], c), parents[|parents| - 1], c)
  }

  /** Node, edges and branch head move in memory. */
  ghost function Grow(r: Repo, cp: Checkpoint): Repo
    requires r.current < |r.branches|
  {
    Repo(r.branches[r.current := Branch(Current(r).name, cp.id)], r.current,
         EdgesTried(Dag.WithNode(r.dag, cp.id), cp.parents, cp.id), r.checkpoints[cp.id := cp])
  }

  /** Checkpoint, edges and branch head are written through. */
  function Record(db: Db, cp: Checkpoint, gen: nat, branch: string): Db {
    MoveHead(PutEdges(KeepCheckpoint(db, cp), cp.parents, cp.id, gen), branch, cp.id)
  }

  ghost function Extend(s: State, cp: Checkpoint): State
    requires Seated(s)
  {
    var r := Grow(s.repo, cp);
    var gen := Dag.Generation(r.dag, cp.id);
    State(r, if s.db.None? then None else Some(Record(s.db.value, cp, gen, Current(s.repo).name)))
  }

  // ---- operations ------------------------------------------------------------

  ghost function Commit(s: State, snapshots: seq<Snap>, message: string, author: string): (State, Result<Id, Error>)
    requires Seated(s)
  {
    var head := Current(s.repo).head;
    if snapshots == [] then (s, Err(NoSnapshots))
    else if head !in s.repo.checkpoints then (s, Err(UnknownCheckpoint(head)))
    else if s.repo.checkpoints[head].snapshots == snapshots then (s, Err(NoChanges))
    else CommitAllowEmpty(s, snapshots, message, author)
  }

  ghost function CommitAllowEmpty(s: State, snapshots: seq<Snap>, message: string, author: string)
    : (State, Result<Id, Error>)
    requires Seated(s)
  {
    var cp := NewCheckpoint(snapshots, [Current(s.repo).head], author, message);
    (Extend(s, cp), Ok(cp.id))
  }

  ghost function MergeBranches(s: State, source: string, snapshots: seq<Snap>, message: string, author: string)
    : (State, Result<Id, Error>)
    requires Seated(s)
  {
    if snapshots == [] then (s, Err(NoSnapshots))
    else match FindBranch(s.repo.branches, source)
      case None => (s, Err(UnknownBranch(source)))
      case Some(i) =>
        var cp := NewCheckpoint(snapshots, [Current(s.repo).head, s.repo.branches[i].head], author, message);
        (Extend(s, cp), Ok(cp.id))
  }

  function AddBranch(s: State, b: Branch): State {
    State(s.repo.(branches := s.repo.branches + [b]),
          if s.db.None? then None else Some(PutBranch(s.db.value, b)))
  }

  function CreateBranch(s: State, name: string): (State, Result<(), Error>)
    requires Seated(s)
  {
    if FindBranch(s.repo.branches, name).Some? then (s, Err(BranchExists(name)))
    else (AddBranch(s, Branch(name, Current(s.repo).head)), Ok(()))
  }

  function CreateBranchFrom(s: State, name: string, at: Id): (State, Result<(), Error>)
    requires Seated(s)
  {
    if at !in s.repo.checkpoints then (s, Err(UnknownCheckpoint(at)))
    else if FindBranch(s.repo.branches, name).Some? then (s, Err(BranchExists(name)))
    else (AddBranch(s, Branch(name, at)), Ok(()))
  }

  function SwitchBranch(s: State, name: string): (State, Result<Id, Error>)
    requires Seated(s)
  {
    match FindBranch(s.repo.branches, name)
    case None => (s, Err(UnknownBranch(name)))
    case Some(i) =>
      (State(s.repo.(current := i), if s.db.None? then None else Some(s.db.value.(current := Some(name)))),
       Ok(s.repo.branches[i].head))
  }

  /** Memory is cleared first; the rows go only if the checkpoint's row was there. */
  function RemoveCheckpoint(s: State, id: Id): (State, Result<(), Error>) {
    if id !in s.repo.checkpoints then (s, Err(UnknownCheckpoint(id)))
    else
      var r := s.repo.(checkpoints := s.repo.checkpoints - {id}, dag := Dag.Without(s.repo.dag, id));
      match s.db
      case None => (State(r, None), Ok(()))
      case Some(db) =>
        if id in db.checkpoints
        then (State(r, Some(DropNode(db.(checkpoints := db.checkpoints - {id}), id))), Ok(()))
        else (State(r, Some(db)), Err(UnknownCheckpoint(id)))
  }

  // ---- runs --------------------------------------------------------------------

  datatype Action =
    | ACommit(snapshots: seq<Snap>, message: string, author: string)
    | ACommitAllowEmpty(snapshots: seq<Snap>, message: string, author: string)
    | AMerge(source: string, snapshots: seq<Snap>, message: string, author: string)
    | ABranch(name: string)
    | ABranchFrom(name: string, at: Id)
    | ASwitch(name: string)

  ghost function Step(s: State, a: Action): (t: State)
    requires Seated(s)
    ensures Seated(t)
  {
    match a
    case ACommit(snapshots, message, author) => Commit(s, snapshots, message, author).0
    case ACommitAllowEmpty(snapshots, message, author) => CommitAllowEmpty(s, snapshots, message, author).0
    case AMerge(source, snapshots, message, author) => MergeBranches(s, source, snapshots, message, author).0
    case ABranch(name) => CreateBranch(s, name).0
    case ABranchFrom(name, at) => CreateBranchFrom(s, name, at).0
    case ASwitch(name) => SwitchBranch(s, name).0
  }

  ghost function Run(s: State, actions: seq<Action>): (t: State)
    requires Seated(s)
    ensures Seated(t)
    decreases |actions|
  {
    if actions == [] then s else Run(Step(s, actions[0]), actions[1..])
  }

  // ---- loading -----------------------------------------------------------------

  /** An empty store gets the root checkpoint and the branch `main`. */
  function Booted(db: Db): Db {
    if db.checkpoints != map[] then db
    else
      var root := RootCheckpoint([]);
      PutBranch(KeepCheckpoint(db, root), Branch("main", root.id)).(current := Some("main"))
  }

  function BootedRows(db: Db, rows: seq<Branch>): seq<Branch> {
    if db.checkpoints != map[] then rows else rows + [Branch("main", RootCheckpoint([]).id)]
  }

  /** The pairs parent, child that the checkpoints record. */
  function ParentEdges(cps: map<Id, Checkpoint>): set<(Id, Id)> {
    set c, p | c in cps && p in cps[c].parents :: (p, c)
  }

  /** Rebuilding from checkpoints: the parent relation, where a generation is the length of
      some walk to the checkpoint; of which one depends on the order of insertion. */
  ghost predicate Rebuilt(cps: map<Id, Checkpoint>, d: Dag.State) {
    && d.nodes == GraphFrom(cps.Keys + Ends(ParentEdges(cps)), ParentEdges(cps))
    && d.generation.Keys == d.nodes.Keys && AllMeasured(d.nodes, d.generation)
  }

  function Position(bs: seq<Branch>, name: string): nat {
    match FindBranch(bs, name)
    case Some(i) => i
    case None => 0
  }

  /** `s` is what loading yields, `rows` being the listing of the branch table. */
  ghost predicate Loaded(before: Db, rows: seq<Branch>, s: State) {
    var db := Booted(before);
    && s.db == Some(db)
    && s.repo.branches == BootedRows(before, rows)
    && s.repo.checkpoints == db.checkpoints
    && s.repo.current == Position(s.repo.branches, if db.current.Some? then db.current.value else "main")
    && if s.repo.branches != [] && s.repo.branches[0].head in db.generations
       then Restored(db, s.repo.dag)
       else Rebuilt(db.checkpoints, s.repo.dag)
  }
}
