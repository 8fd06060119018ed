/** Checkpoints and branches (src/checkpoint/types.rs, src/checkpoint/branch.rs).

    A checkpoint identifier is a hash of parents, snapshots, author and message; it is
    modelled as that content. Creation time and git anchor are not hashed. */
module Checkpoints {
  import opened Results
  import Objects

  type Snap = Objects.SnapshotId

  datatype Id = Id(parents: seq<Id>, snapshots: seq<Snap>, author: string, message: string)

  datatype Checkpoint = Checkpoint(id: Id, parents: seq<Id>, snapshots: seq<Snap>, author: string, message: string,
                                   gitAnchor: Option<string>)

  /** `Checkpoint::new` */
  function NewCheckpoint(snapshots: seq<Snap>, parents: seq<Id>, author: string, message: string): Checkpoint {
    Checkpoint(Id(parents, snapshots, author, message), parents, snapshots, author, message, None)
  }

  datatype Branch = Branch(name: string, head: Id)
}
