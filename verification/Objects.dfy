/** The immutable objects of the store and the mutable partitions (src/core).

    An identifier is a hash of content. It is modelled as the content hashed, so equal
    identifiers mean equal content and nothing else is assumed about hashing. Timestamps
    are not hashed and not modelled. */
module Objects {
  import opened Texts
  import opened LineDiffs
  import opened Results

  type AgentId = string

  datatype ContentHash = ContentHash(content: Text)

  datatype FileNode = FileNode(path: string, baseHash: ContentHash)

  function NewFileNode(path: string, content: Text): FileNode {
    FileNode(path, ContentHash(content))
  }

  datatype Source = ManualSource | AgentSource(agent: AgentId) | BackupSource

  datatype DeltaId = DeltaId(file: FileNode, diff: LineDiff, source: Source)

  datatype Delta = Delta(id: DeltaId, file: FileNode, diff: LineDiff, source: Source)
  {
    function ComputeId(): DeltaId { DeltaId(file, diff, source) }
  }

  /** `Delta::new` */
  function NewDelta(file: FileNode, diff: LineDiff, source: Source): Delta {
    Delta(DeltaId(file, diff, source), file, diff, source)
  }

  /** Partitions are addressed by their layer and instance; the source hashes these into
      UUIDs. */
  datatype PartitionType =
    | Manual
    | Agent(agent: AgentId)
    | Approval(agent: AgentId)
    | Integrated(name: string)
    | Unified
    | Staged

  datatype SnapshotId = SnapshotId(file: FileNode, deltas: seq<DeltaId>, parents: seq<SnapshotId>,
                                   layer: Option<PartitionType>, hasConflicts: bool)

  datatype Snapshot = Snapshot(id: SnapshotId, file: FileNode, deltas: seq<DeltaId>, parents: seq<SnapshotId>,
                               layer: Option<PartitionType>, hasConflicts: bool)
  {
    function ComputeId(): SnapshotId { SnapshotId(file, deltas, parents, layer, hasConflicts) }
  }

  function NewSnapshot(file: FileNode, deltas: seq<DeltaId>, parents: seq<SnapshotId>,
                       layer: Option<PartitionType>, hasConflicts: bool): Snapshot
  {
    Snapshot(SnapshotId(file, deltas, parents, layer, hasConflicts), file, deltas, parents, layer, hasConflicts)
  }

  /** `Snapshot::new_initial` */
  function InitialSnapshot(file: FileNode, delta: DeltaId): Snapshot {
    NewSnapshot(file, [delta], [], None, false)
  }

  /** `Snapshot::from_parent` */
  function FromParent(parent: Snapshot, delta: DeltaId, layer: PartitionType): Snapshot {
    NewSnapshot(parent.file, parent.deltas + [delta], [parent.id], Some(layer), false)
  }

  function IdsOf(snapshots: seq<Snapshot>): seq<SnapshotId> {
    if snapshots == [] then [] else [snapshots[0].id] + IdsOf(snapshots[1..])
  }

  /** `Snapshot::merge`: the first parent is the destination whose chain is extended. */
  function MergeSnapshot(parents: seq<Snapshot>, delta: DeltaId, layer: PartitionType, hasConflicts: bool): Snapshot
    requires |parents| > 0
  {
    NewSnapshot(parents[0].file, parents[0].deltas + [delta], IdsOf(parents), Some(layer), hasConflicts)
  }

  datatype Partition = Partition(current: SnapshotId, history: seq<SnapshotId>)
}
