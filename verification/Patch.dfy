/** Applying a line diff to lines (`apply_line_diff`, src/engine/merge.rs). */
module Patch {
  import opened Texts
  import opened LineDiffs
  import opened Results

  /** The two checks of the source, and the slice panic it runs into when a hunk's
      operations keep more lines than there are. */
  datatype PatchError = OverlappingHunk | HunkOutOfRange | SliceOutOfBounds

  type Patched = Result<seq<Line>, PatchError>

  function Prepend(xs: seq<Line>, r: Patched): Patched {
    match r
    case Ok(ys) => Ok(xs + ys)
    case Err(e) => Err(e)
  }

  lemma PrependNothing(r: Patched)
    ensures Prepend([], r) == r
  {
    if r.Ok? {
      assert [] + r.value == r.value;
    }
  }

  lemma PrependTwice(xs: seq<Line>, ys: seq<Line>, r: Patched)
    ensures Prepend(xs, Prepend(ys, r)) == Prepend(xs + ys, r)
  {
    if r.Ok? {
      assert xs + (ys + r.value) == xs + ys + r.value;
    }
  }

  // ---- specification ---------------------------------------------------

  /** New lines a hunk's operations produce, reading old lines from `pos` on. */
  function ApplyOps(lines: seq<Line>, pos: nat, ops: seq<DiffOp>): Patched
    decreases |ops|
  {
    if ops == [] then Ok([])
    else
      match ops[0]
      case Equal(c) =>
        if pos + c > |lines| then Err(SliceOutOfBounds)
        else Prepend(lines[pos..pos + c], ApplyOps(lines, pos + c, ops[1..]))
      case Delete(_, c) => ApplyOps(lines, pos + c, ops[1..])
      case Insert(_, ls) => Prepend(ls, ApplyOps(lines, pos, ops[1..]))
      case Replace(_, c, _, ls) => Prepend(ls, ApplyOps(lines, pos + c, ops[1..]))
  }

  /** New lines produced by the hunks from old position `pos` to the end. */
  function ApplyHunks(lines: seq<Line>, pos: nat, hunks: seq<Hunk>): Patched
    requires pos <= |lines|
    decreases |hunks|
  {
    if hunks == [] then Ok(lines[pos..])
    else
      var h := hunks[0];
      if h.Start() < pos then Err(OverlappingHunk)
      else if h.End() > |lines| then Err(HunkOutOfRange)
      else
        match ApplyOps(lines, h.Start(), h.ops)
        case Err(e) => Err(e)
        case Ok(mid) => Prepend(lines[pos..h.Start()] + mid, ApplyHunks(lines, h.End(), hunks[1..]))
  }

  function Apply(lines: seq<Line>, diff: LineDiff): Patched {
    ApplyHunks(lines, 0, diff.hunks)
  }

  // ---- the two loops of the source -------------------------------------

  method ApplyHunkOps(lines: seq<Line>, start: nat, ops: seq<DiffOp>, soFar: seq<Line>)
    returns (r: Patched)
    ensures r == Prepend(soFar, ApplyOps(lines, start, ops))
  {
    var result := soFar;
    var hunkPos := start;
    assert ops[0..] == ops;
    for k := 0 to |ops|
      invariant Prepend(result, ApplyOps(lines, hunkPos, ops[k..]))
             == Prepend(soFar, ApplyOps(lines, start, ops))
    {
      assert ops[k..][1..] == ops[k + 1..];
      ghost var rest := ops[k + 1..];
      match ops[k] {
        case Equal(c) =>
          if hunkPos + c > |lines| {
            return Err(SliceOutOfBounds);
          }
          PrependTwice(result, lines[hunkPos..hunkPos + c], ApplyOps(lines, hunkPos + c, rest));
          result := result + lines[hunkPos..hunkPos + c];
          hunkPos := hunkPos + c;
        case Delete(_, c) =>
          hunkPos := hunkPos + c;
        case Insert(_, newLines) =>
          PrependTwice(result, newLines, ApplyOps(lines, hunkPos, rest));
          result := result + newLines;
        case Replace(_, c, _, newLines) =>
          PrependTwice(result, newLines, ApplyOps(lines, hunkPos + c, rest));
          hunkPos := hunkPos + c;
          result := result + newLines;
      }
    }
    assert ops[|ops|..] == [] && result + [] == result;
    return Ok(result);
  }

  method ApplyLineDiff(lines: seq<Line>, diff: LineDiff) returns (r: Patched)
    ensures r == Apply(lines, diff)
  {
    var result: seq<Line> := [];
    var oldPos: nat := 0;
    assert diff.hunks[0..] == diff.hunks;
    assert Prepend([], Apply(lines, diff)) == Apply(lines, diff) by {
      PrependNothing(Apply(lines, diff));
    }
    for k := 0 to |diff.hunks|
      invariant oldPos <= |lines|
      invariant Prepend(result, ApplyHunks(lines, oldPos, diff.hunks[k..])) == Apply(lines, diff)
    {
      var hunk := diff.hunks[k];
      assert diff.hunks[k..][1..] == diff.hunks[k + 1..];
      var hunkStart := hunk.Start();
      var hunkEnd := hunkStart + hunk.oldLen;
      if hunkStart < oldPos {
        return Err(OverlappingHunk);
      }
      if hunkEnd > |lines| {
        return Err(HunkOutOfRange);
      }
      ghost var before := result;
      if hunkStart > oldPos {
        result := result + lines[oldPos..hunkStart];
      }
      assert result == before + lines[oldPos..hunkStart];
      var applied := ApplyHunkOps(lines, hunkStart, hunk.ops, result);
      if applied.Err? {
        return applied;
      }
      ghost var mid := ApplyOps(lines, hunkStart, hunk.ops).value;
      PrependTwice(before, lines[oldPos..hunkStart] + mid, ApplyHunks(lines, hunkEnd, diff.hunks[k + 1..]));
      assert applied.value == before + (lines[oldPos..hunkStart] + mid);
      result := applied.value;
      oldPos := hunkEnd;
    }
    ghost var before := result;
    if oldPos < |lines| {
      result := result + lines[oldPos..];
    }
    assert diff.hunks[|diff.hunks|..] == [] && result == before + lines[oldPos..];
    return Ok(result);
  }

  // ---- laws ------------------------------------------------------------

  lemma {:induction false} ApplyOpsLonger(lines: seq<Line>, tail: seq<Line>, pos: nat, ops: seq<DiffOp>)
    requires ApplyOps(lines, pos, ops).Ok?
    ensures ApplyOps(lines + tail, pos, ops) == ApplyOps(lines, pos, ops)
    decreases |ops|
  {
    if ops != [] {
      match ops[0]
      case Equal(c) =>
        assert (lines + tail)[pos..pos + c] == lines[pos..pos + c];
        ApplyOpsLonger(lines, tail, pos + c, ops[1..]);
      case Delete(_, c) => ApplyOpsLonger(lines, tail, pos + c, ops[1..]);
      case Insert(_, ls) => ApplyOpsLonger(lines, tail, pos, ops[1..]);
      case Replace(_, c, _, ls) => ApplyOpsLonger(lines, tail, pos + c, ops[1..]);
    }
  }

  /** A diff that applies to some lines applies to the same lines with more after them,
      and leaves the additional ones alone. */
  lemma {:induction false} ApplyLonger(lines: seq<Line>, tail: seq<Line>, pos: nat, hunks: seq<Hunk>)
    requires pos <= |lines| && ApplyHunks(lines, pos, hunks).Ok?
    ensures ApplyHunks(lines + tail, pos, hunks) == Ok(ApplyHunks(lines, pos, hunks).value + tail)
    decreases |hunks|
  {
    if hunks == [] {
      assert (lines + tail)[pos..] == lines[pos..] + tail;
    } else {
      var h := hunks[0];
      ApplyOpsLonger(lines, tail, h.Start(), h.ops);
      ApplyLonger(lines, tail, h.End(), hunks[1..]);
      assert (lines + tail)[pos..h.Start()] == lines[pos..h.Start()];
      var front := lines[pos..h.Start()] + ApplyOps(lines, h.Start(), h.ops).value;
      var rest := ApplyHunks(lines, h.End(), hunks[1..]).value;
      assert front + (rest + tail) == front + rest + tail;
    }
  }

  // ---- lengths -----------------------------------------------------------

  lemma {:induction false} OpsLength(lines: seq<Line>, pos: nat, ops: seq<DiffOp>)
    requires ApplyOps(lines, pos, ops).Ok?
    ensures |ApplyOps(lines, pos, ops).value| == NewSum(ops)
    decreases |ops|
  {
    if ops != [] {
      OpsLength(lines, pos + ops[0].OldLen(), ops[1..]);
    }
  }

  /** By how many lines a diff lengthens what it applies to. */
  function Growth(hunks: seq<Hunk>): int {
    if hunks == [] then 0 else hunks[0].newLen - hunks[0].oldLen + Growth(hunks[1..])
  }

  lemma {:induction false} HunksLength(lines: seq<Line>, pos: nat, hunks: seq<Hunk>)
    requires pos <= |lines| && Coherent(hunks) && ApplyHunks(lines, pos, hunks).Ok?
    ensures |ApplyHunks(lines, pos, hunks).value| == |lines| - pos + Growth(hunks)
    decreases |hunks|
  {
    if hunks != [] {
      var h := hunks[0];
      assert h in hunks && forall x :: x in hunks[1..] ==> x in hunks;
      OpsLength(lines, h.Start(), h.ops);
      HunksLength(lines, h.End(), hunks[1..]);
    }
  }
}
