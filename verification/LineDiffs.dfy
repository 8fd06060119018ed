/** Line diffs as stored: hunks of operations over lines (src/core/types.rs). */
module LineDiffs {
  import opened Texts

  datatype DiffOp =
    | Equal(count: nat)
    | Delete(oldStart: nat, count: nat)
    | Insert(newStart: nat, lines: seq<Line>)
    | Replace(oldStart: nat, oldCount: nat, newStart: nat, lines: seq<Line>)
  {
    /** Old lines the operation consumes. */
    function OldLen(): nat {
      match this
      case Equal(c) => c
      case Delete(_, c) => c
      case Insert(_, _) => 0
      case Replace(_, c, _, _) => c
    }

    /** New lines the operation produces. */
    function NewLen(): nat {
      match this
      case Equal(c) => c
      case Delete(_, _) => 0
      case Insert(_, ls) => |ls|
      case Replace(_, _, _, ls) => |ls|
    }
  }

  function OldSum(ops: seq<DiffOp>): nat {
    if ops == [] then 0 else ops[0].OldLen() + OldSum(ops[1..])
  }

  function NewSum(ops: seq<DiffOp>): nat {
    if ops == [] then 0 else ops[0].NewLen() + NewSum(ops[1..])
  }

  /** Line numbers in the header are 1-based. */
  datatype Hunk = Hunk(oldStart: nat, oldLen: nat, newStart: nat, newLen: nat, ops: seq<DiffOp>)
  {
    /** `old_start.saturating_sub(1)` */
    function Start(): nat {
      if oldStart == 0 then 0 else oldStart - 1
    }

    function End(): nat {
      Start() + oldLen
    }

    /** The header counts what the operations consume and produce. */
    predicate Coherent() {
      oldLen == OldSum(ops) && newLen == NewSum(ops)
    }
  }

  datatype LineDiff = LineDiff(hunks: seq<Hunk>)

  predicate Coherent(hunks: seq<Hunk>) {
    forall h :: h in hunks ==> h.Coherent()
  }
}
