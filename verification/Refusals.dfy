/** When a diff is refused, and for which hunk and reason (`apply_line_diff`,
    src/engine/merge.rs). */
module Refusals {
  import opened Texts
  import opened LineDiffs
  import opened Results
  import opened Patch
  import opened Chains

  /** Where the hunks before `k` have consumed the lines up to. */
  function Consumed(pos: nat, hunks: seq<Hunk>, k: nat): nat
    requires k <= |hunks|
  {
    if k == 0 then pos else hunks[k - 1].End()
  }

  /** No kept range of the hunk reaches behind the last line. */
  predicate KeepsWithin(n: nat, start: nat, ops: seq<DiffOp>) {
    forall j :: 0 <= j < |ops| && ops[j].Equal? ==> start + OldSum(ops[..j]) + ops[j].count <= n
  }

  predicate Fits(n: nat, pos: nat, hunks: seq<Hunk>, k: nat)
    requires k < |hunks|
  {
    Consumed(pos, hunks, k) <= hunks[k].Start() && hunks[k].End() <= n && KeepsWithin(n, hunks[k].Start(), hunks[k].ops)
  }

  predicate FirstMisfit(n: nat, hunks: seq<Hunk>, k: nat)
    requires k < |hunks|
  {
    !Fits(n, 0, hunks, k) && forall j :: 0 <= j < k ==> Fits(n, 0, hunks, j)
  }

  /** The reason for which a hunk that does not fit is refused. */
  function Reason(n: nat, pos: nat, hunks: seq<Hunk>, k: nat): PatchError
    requires k < |hunks|
  {
    if hunks[k].Start() < Consumed(pos, hunks, k) then OverlappingHunk
    else if hunks[k].End() > n then HunkOutOfRange
    else SliceOutOfBounds
  }

  lemma KeepsWithinTail(n: nat, start: nat, op: DiffOp, rest: seq<DiffOp>)
    ensures KeepsWithin(n, start, [op] + rest)
       <==> (op.Equal? ==> start + op.count <= n) && KeepsWithin(n, start + op.OldLen(), rest)
  {
    var ops := [op] + rest;
    forall j | 0 <= j < |rest|
      ensures rest[j] == ops[j + 1] && OldSum(ops[..j + 1]) == op.OldLen() + OldSum(rest[..j])
    {
      assert ops[..j + 1][1..] == rest[..j];
    }
    if KeepsWithin(n, start, ops) {
      assert op.Equal? ==> ops[0].Equal?;
      forall j | 0 <= j < |rest| && rest[j].Equal?
        ensures start + op.OldLen() + OldSum(rest[..j]) + rest[j].count <= n
      {
        assert ops[j + 1].Equal?;
      }
    }
    if (op.Equal? ==> start + op.count <= n) && KeepsWithin(n, start + op.OldLen(), rest) {
      forall j | 0 <= j < |ops| && ops[j].Equal?
        ensures start + OldSum(ops[..j]) + ops[j].count <= n
      {
        if j > 0 {
          assert rest[j - 1].Equal?;
        }
      }
    }
  }

  lemma {:induction false} OpsFail(lines: seq<Line>, pos: nat, ops: seq<DiffOp>)
    ensures ApplyOps(lines, pos, ops).Ok? <==> KeepsWithin(|lines|, pos, ops)
    ensures ApplyOps(lines, pos, ops).Err? ==> ApplyOps(lines, pos, ops) == Err(SliceOutOfBounds)
    decreases |ops|
  {
    if ops != [] {
      assert ops == [ops[0]] + ops[1..];
      KeepsWithinTail(|lines|, pos, ops[0], ops[1..]);
      OpsFail(lines, pos + ops[0].OldLen(), ops[1..]);
    }
  }

  lemma HunkAfter(n: nat, pos: nat, hunks: seq<Hunk>, k: nat)
    requires 0 < k < |hunks|
    ensures Fits(n, pos, hunks, k) <==> Fits(n, hunks[0].End(), hunks[1..], k - 1)
    ensures Reason(n, pos, hunks, k) == Reason(n, hunks[0].End(), hunks[1..], k - 1)
  {
    assert hunks[1..][k - 1] == hunks[k];
  }

  lemma {:induction false} HunksFail(lines: seq<Line>, pos: nat, hunks: seq<Hunk>, k: nat)
    requires pos <= |lines| && k <= |hunks| && forall j :: 0 <= j < k ==> Fits(|lines|, pos, hunks, j)
    requires k < |hunks| ==> !Fits(|lines|, pos, hunks, k)
    ensures if k == |hunks| then ApplyHunks(lines, pos, hunks).Ok?
            else ApplyHunks(lines, pos, hunks) == Err(Reason(|lines|, pos, hunks, k))
    decreases |hunks|
  {
    if hunks != [] {
      var h := hunks[0];
      OpsFail(lines, h.Start(), h.ops);
      if k > 0 {
        assert Fits(|lines|, pos, hunks, 0);
        forall j | 0 <= j < k - 1
          ensures Fits(|lines|, h.End(), hunks[1..], j)
        {
          HunkAfter(|lines|, pos, hunks, j + 1);
        }
        if k < |hunks| {
          HunkAfter(|lines|, pos, hunks, k);
        }
        HunksFail(lines, h.End(), hunks[1..], k - 1);
      }
    }
  }

  /** For all lines and all diffs, well formed or not: a diff applies if and only if every hunk
      starts where the one before it ends or later, ends within the lines, and keeps nothing
      behind them. If not, the first hunk that does not is the one refused, for the first of
      these reasons. */
  lemma ApplyOkIff(lines: seq<Line>, diff: LineDiff)
    ensures Apply(lines, diff).Ok? <==> forall k :: 0 <= k < |diff.hunks| ==> Fits(|lines|, 0, diff.hunks, k)
    ensures forall k :: 0 <= k < |diff.hunks| && FirstMisfit(|lines|, diff.hunks, k) ==>
      Apply(lines, diff) == Err(Reason(|lines|, 0, diff.hunks, k))
  {
    var hunks := diff.hunks;
    forall k | 0 <= k < |hunks| && FirstMisfit(|lines|, hunks, k)
      ensures Apply(lines, diff) == Err(Reason(|lines|, 0, hunks, k))
    {
      HunksFail(lines, 0, hunks, k);
    }
    var first := FirstUnfit(|lines|, hunks, 0);
    HunksFail(lines, 0, hunks, first);
  }

  lemma {:induction false} FirstUnfit(n: nat, hunks: seq<Hunk>, from: nat) returns (k: nat)
    requires from <= |hunks| && forall j :: 0 <= j < from ==> Fits(n, 0, hunks, j)
    ensures k <= |hunks| && (forall j :: 0 <= j < k ==> Fits(n, 0, hunks, j))
    ensures k < |hunks| ==> !Fits(n, 0, hunks, k)
    decreases |hunks| - from
  {
    if from == |hunks| || !Fits(n, 0, hunks, from) {
      k := from;
    } else {
      k := FirstUnfit(n, hunks, from + 1);
    }
  }

  /** A chain of diffs fails with the error of its first diff that does not apply. */
  lemma ChainFailsFirst(content: Text, before: seq<LineDiff>, d: LineDiff, after: seq<LineDiff>)
    requires FoldLines(Lines(content), before).Ok?
    ensures var lines := FoldLines(Lines(content), before).value;
      Apply(lines, d).Err? ==> ApplyDiffs(content, before + [d] + after) == Err(Apply(lines, d).error)
    ensures ApplyDiffs(content, []) == Ok(content)
  {
    FoldSnoc(Lines(content), before, d);
    FoldConcat(Lines(content), before + [d], after);
  }
}
