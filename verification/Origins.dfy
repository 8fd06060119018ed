/** Where the lines of a patched text come from. A diff fixes that whatever it is applied to,
    so no diff takes one list of lines to another and that one back to the first. */
module Origins {
  import opened Texts
  import opened LineDiffs
  import opened Results
  import opened Patch
  import opened Diff

  /** An output line: added by the diff, or kept from an old position. */
  datatype Origin = Added(line: Line) | Kept(index: nat)

  function AddedAll(ls: seq<Line>): (ps: seq<Origin>)
    ensures |ps| == |ls| && forall k :: 0 <= k < |ps| ==> ps[k] == Added(ls[k])
  {
    seq(|ls|, k requires 0 <= k < |ls| => Added(ls[k]))
  }

  function KeptAll(from: nat, count: nat): (ps: seq<Origin>)
    ensures |ps| == count && forall k :: 0 <= k < count ==> ps[k] == Kept(from + k)
  {
    seq(count, k requires 0 <= k < count => Kept(from + k))
  }

  /** What the operations of a hunk produce from old position `pos` on. */
  function OpsOrigins(pos: nat, ops: seq<DiffOp>): seq<Origin>
    decreases |ops|
  {
    if ops == [] then []
    else
      match ops[0]
      case Equal(c) => KeptAll(pos, c) + OpsOrigins(pos + c, ops[1..])
      case Delete(_, c) => OpsOrigins(pos + c, ops[1..])
      case Insert(_, ls) => AddedAll(ls) + OpsOrigins(pos, ops[1..])
      case Replace(_, c, _, ls) => AddedAll(ls) + OpsOrigins(pos + c, ops[1..])
  }

  /** What hunks that fit produce from `n` lines, from old position `pos` on. */
  function HunksOrigins(n: nat, pos: nat, hunks: seq<Hunk>): seq<Origin>
    requires pos <= n
    decreases |hunks|
  {
    if hunks == [] then KeptAll(pos, n - pos)
    else
      var h := hunks[0];
      if h.Start() < pos || h.End() > n then []
      else KeptAll(pos, h.Start() - pos) + OpsOrigins(h.Start(), h.ops) + HunksOrigins(n, h.End(), hunks[1..])
  }

  // ---- the lines they stand for --------------------------------------------------

  /** The output lines come from these origins in `lines`. */
  ghost predicate Fills(lines: seq<Line>, ps: seq<Origin>, out: seq<Line>) {
    |out| == |ps| && forall k :: 0 <= k < |ps| ==> FillsAt(lines, ps[k], out[k])
  }

  predicate FillsAt(lines: seq<Line>, p: Origin, l: Line) {
    match p
    case Added(w) => l == w
    case Kept(i) => i < |lines| && l == lines[i]
  }

  lemma FillsBoth(lines: seq<Line>, ps: seq<Origin>, out: seq<Line>, qs: seq<Origin>, more: seq<Line>)
    requires Fills(lines, ps, out) && Fills(lines, qs, more)
    ensures Fills(lines, ps + qs, out + more)
  {
  }

  lemma {:induction false} OpsFill(lines: seq<Line>, pos: nat, ops: seq<DiffOp>)
    requires ApplyOps(lines, pos, ops).Ok?
    ensures Fills(lines, OpsOrigins(pos, ops), ApplyOps(lines, pos, ops).value)
    decreases |ops|
  {
    if ops != [] {
      var rest := ops[1..];
      match ops[0]
      case Equal(c) =>
        OpsFill(lines, pos + c, rest);
        FillsBoth(lines, KeptAll(pos, c), lines[pos..pos + c], OpsOrigins(pos + c, rest),
                  ApplyOps(lines, pos + c, rest).value);
      case Delete(_, c) => OpsFill(lines, pos + c, rest);
      case Insert(_, ls) =>
        OpsFill(lines, pos, rest);
        FillsBoth(lines, AddedAll(ls), ls, OpsOrigins(pos, rest), ApplyOps(lines, pos, rest).value);
      case Replace(_, c, _, ls) =>
        OpsFill(lines, pos + c, rest);
        FillsBoth(lines, AddedAll(ls), ls, OpsOrigins(pos + c, rest), ApplyOps(lines, pos + c, rest).value);
    }
  }

  lemma {:induction false} HunksFill(lines: seq<Line>, pos: nat, hunks: seq<Hunk>)
    requires pos <= |lines| && ApplyHunks(lines, pos, hunks).Ok?
    ensures Fills(lines, HunksOrigins(|lines|, pos, hunks), ApplyHunks(lines, pos, hunks).value)
    decreases |hunks|
  {
    if hunks == [] {
    } else {
      var h, rest := hunks[0], hunks[1..];
      OpsFill(lines, h.Start(), h.ops);
      HunksFill(lines, h.End(), rest);
      var kept, mid := KeptAll(pos, h.Start() - pos), ApplyOps(lines, h.Start(), h.ops).value;
      FillsBoth(lines, kept, lines[pos..h.Start()], OpsOrigins(h.Start(), h.ops), mid);
      FillsBoth(lines, kept + OpsOrigins(h.Start(), h.ops), lines[pos..h.Start()] + mid,
                HunksOrigins(|lines|, h.End(), rest), ApplyHunks(lines, h.End(), rest).value);
    }
  }

  // ---- kept positions rise ---------------------------------------------------------

  /** Kept positions lie between the bounds and rise. */
  ghost predicate RisingIn(ps: seq<Origin>, lo: nat, hi: nat) {
    && (forall k :: 0 <= k < |ps| && ps[k].Kept? ==> lo <= ps[k].index < hi)
    && (forall j, k :: 0 <= j < k < |ps| && ps[j].Kept? && ps[k].Kept? ==> ps[j].index < ps[k].index)
  }

  lemma RisingBoth(ps: seq<Origin>, qs: seq<Origin>, lo: nat, mid: nat, hi: nat)
    requires RisingIn(ps, lo, mid) && RisingIn(qs, mid, hi) && lo <= mid <= hi
    ensures RisingIn(ps + qs, lo, hi)
  {
  }

  lemma {:induction false} OpsRise(pos: nat, ops: seq<DiffOp>)
    ensures RisingIn(OpsOrigins(pos, ops), pos, pos + OldSum(ops))
    decreases |ops|
  {
    if ops != [] {
      var c, rest := ops[0].OldLen(), ops[1..];
      OpsRise(pos + c, rest);
      var first := match ops[0] case Equal(_) => KeptAll(pos, c) case Delete(_, _) => []
                                case Insert(_, ls) => AddedAll(ls) case Replace(_, _, _, ls) => AddedAll(ls);
      RisingBoth(first, OpsOrigins(pos + c, rest), pos, pos + c, pos + OldSum(ops));
      assert ops[0].Delete? ==> [] + OpsOrigins(pos + c, rest) == OpsOrigins(pos + c, rest);
    }
  }

  lemma {:induction false} HunksRise(n: nat, pos: nat, hunks: seq<Hunk>)
    requires pos <= n && Coherent(hunks)
    ensures RisingIn(HunksOrigins(n, pos, hunks), pos, n)
    decreases |hunks|
  {
    if hunks != [] {
      var h, rest := hunks[0], hunks[1..];
      assert h in hunks && forall x :: x in rest ==> x in hunks;
      if pos <= h.Start() && h.End() <= n {
        OpsRise(h.Start(), h.ops);
        HunksRise(n, h.End(), rest);
        RisingBoth(KeptAll(pos, h.Start() - pos), OpsOrigins(h.Start(), h.ops), pos, h.Start(), h.End());
        RisingBoth(KeptAll(pos, h.Start() - pos) + OpsOrigins(h.Start(), h.ops), HunksOrigins(n, h.End(), rest),
                   pos, h.End(), n);
      }
    }
  }

  // ---- there and back ----------------------------------------------------------------

  /** Following a kept line to its old position and on from there only ever leads further the
      same way, so it ends at a line the diff has added, or at itself. */
  lemma {:induction false} BackAt(a: seq<Line>, b: seq<Line>, ps: seq<Origin>, k: nat)
    requires Fills(a, ps, b) && Fills(b, ps, a) && RisingIn(ps, 0, |ps|) && k < |ps|
    ensures a[k] == b[k]
    decreases if ps[k].Kept? && ps[k].index > k then |ps| - k else k
  {
    assert FillsAt(a, ps[k], b[k]) && FillsAt(b, ps[k], a[k]);
    if ps[k].Kept? && ps[k].index != k {
      var i := ps[k].index;
      if i < k {
        assert ps[i].Kept? ==> ps[i].index < i;
      } else {
        assert ps[i].Kept? ==> ps[i].index > i;
        if ps[i].Added? {
          assert FillsAt(a, ps[i], b[i]) && FillsAt(b, ps[i], a[i]);
          return;
        }
      }
      BackAt(a, b, ps, i);
    }
  }

  /** For every differ: the diff between two texts with different lines is not the diff back. */
  lemma DiffBackDiffers(differ: Differ, before: Text, after: Text)
    requires Lines(before) != Lines(after)
    ensures DiffTexts(differ, before, after) != DiffTexts(differ, after, before)
  {
    if DiffTexts(differ, before, after) == DiffTexts(differ, after, before) {
      var a, b, hunks := Lines(before), Lines(after), DiffTexts(differ, before, after).hunks;
      DiffRoundTrip(differ, before, after);
      DiffRoundTrip(differ, after, before);
      DiffWellFormed(differ, before, after);
      ThereAndBack(a, b, hunks);
    }
  }

  /** No coherent diff takes `a` to `b` and `b` to `a` unless they are the same. */
  lemma ThereAndBack(a: seq<Line>, b: seq<Line>, hunks: seq<Hunk>)
    requires Coherent(hunks) && ApplyHunks(a, 0, hunks) == Ok(b) && ApplyHunks(b, 0, hunks) == Ok(a)
    ensures a == b
  {
    HunksLength(a, 0, hunks);
    HunksLength(b, 0, hunks);
    var ps := HunksOrigins(|a|, 0, hunks);
    HunksFill(a, 0, hunks);
    HunksFill(b, 0, hunks);
    HunksRise(|a|, 0, hunks);
    forall k | 0 <= k < |a|
      ensures a[k] == b[k]
    {
      BackAt(a, b, ps, k);
    }
  }
}
