/** Which changes a side holds (`extract_changes_from_line_diff`, src/engine/merge.rs): one for
    each longest run of operations that keep nothing. */
module Runs {
  import opened Texts
  import opened LineDiffs
  import opened Diff
  import opened Changes
  import opened Seqs

  /** The operations from `i` to `j` keep nothing, and on both sides of them is a kept range or
      the end of the hunk. */
  predicate IsRun(ops: seq<DiffOp>, i: nat, j: nat) {
    && i < j <= |ops| && (forall k :: i <= k < j ==> !ops[k].Equal?)
    && (i == 0 || ops[i - 1].Equal?) && (j == |ops| || ops[j].Equal?)
  }

  function Written(ops: seq<DiffOp>): seq<Line> {
    if ops == [] then [] else Inserted(ops[0]) + Written(ops[1..])
  }

  /** The change that the run makes: it covers what the run consumes and writes what it writes. */
  predicate RunMakes(cursor: nat, ops: seq<DiffOp>, c: Change, i: nat, j: nat) {
    IsRun(ops, i, j) && c == Change(cursor + OldSum(ops[..i]), OldSum(ops[i..j]), Written(ops[i..j]))
  }

  ghost predicate SomeRunMakes(cursor: nat, ops: seq<DiffOp>, c: Change) {
    exists i: nat, j: nat :: RunMakes(cursor, ops, c, i, j)
  }

  /** A scan that starts in a run collects it whole. */
  lemma {:induction false} ScanRun(cursor: nat, ops: seq<DiffOp>, n: nat, p: Pending)
    requires n <= |ops| && (p.Open? || n > 0)
    requires (forall k :: 0 <= k < n ==> !ops[k].Equal?) && (n == |ops| || ops[n].Equal?)
    ensures var start := PendingStart(p, cursor);
      var len := if p.Idle? then 0 else p.change.len;
      ScanOps(cursor, ops, p)
      == [Change(start, len + OldSum(ops[..n]), Collected(p) + Written(ops[..n]))]
         + ScanOps(cursor + OldSum(ops[..n]), ops[n..], Idle)
    decreases n
  {
    if n == 0 {
      ScanEnd(cursor, ops, p);
      assert ops[..0] == [] && ops[0..] == ops && Collected(p) + [] == Collected(p);
    } else {
      var op, tail := ops[0], ops[1..];
      var p' := Grow(p, cursor, op.OldLen(), Inserted(op));
      ScanStep(cursor, ops, p);
      ScanRun(cursor + op.OldLen(), tail, n - 1, p');
      assert ops[n..] == tail[n - 1..];
      FirstOfRun(ops, n);
      Assoc(Collected(p), Inserted(op), Written(tail[..n - 1]));
    }
  }

  lemma FirstOfRun(ops: seq<DiffOp>, n: nat)
    requires 0 < n <= |ops|
    ensures OldSum(ops[..n]) == ops[0].OldLen() + OldSum(ops[1..][..n - 1])
    ensures Written(ops[..n]) == Inserted(ops[0]) + Written(ops[1..][..n - 1])
  {
    assert ops[..n][1..] == ops[1..][..n - 1];
  }

  lemma ScanEnd(cursor: nat, ops: seq<DiffOp>, p: Pending)
    requires p.Open? && (ops == [] || ops[0].Equal?)
    ensures ScanOps(cursor, ops, p) == [p.change] + ScanOps(cursor, ops, Idle)
  {
    if ops != [] {
      var rest := ScanOps(cursor + ops[0].count, ops[1..], Idle);
      assert [] + rest == rest;
    }
  }

  lemma ScanStep(cursor: nat, ops: seq<DiffOp>, p: Pending)
    requires ops != [] && !ops[0].Equal?
    ensures ScanOps(cursor, ops, p)
         == ScanOps(cursor + ops[0].OldLen(), ops[1..], Grow(p, cursor, ops[0].OldLen(), Inserted(ops[0])))
    ensures Collected(Grow(p, cursor, ops[0].OldLen(), Inserted(ops[0]))) == Collected(p) + Inserted(ops[0])
  {
  }

  lemma {:induction false} OldSumSplit(ops: seq<DiffOp>, m: nat, i: nat)
    requires m + i <= |ops|
    ensures OldSum(ops[..m + i]) == OldSum(ops[..m]) + OldSum(ops[m..][..i])
    decreases m
  {
    if m == 0 {
      assert ops[0..] == ops && ops[..0] == [];
    } else {
      OldSumSplit(ops[1..], m - 1, i);
      assert ops[..m + i][1..] == ops[1..][..m - 1 + i] && ops[..m][1..] == ops[1..][..m - 1];
      assert ops[1..][m - 1..] == ops[m..];
    }
  }

  /** Runs behind a kept range are runs of what is left. */
  lemma RunsBehind(cursor: nat, ops: seq<DiffOp>, m: nat, c: Change, i: nat, j: nat)
    requires m <= |ops| && i <= j <= |ops| - m && (i == 0 ==> m > 0 && ops[m - 1].Equal?)
    ensures RunMakes(cursor + OldSum(ops[..m]), ops[m..], c, i, j) <==> RunMakes(cursor, ops, c, m + i, m + j)
  {
    OldSumSplit(ops, m, i);
    assert ops[m..][i..j] == ops[m + i..m + j];
    assert IsRun(ops[m..], i, j) <==> IsRun(ops, m + i, m + j) by {
      RunBehind(ops, m, i, j);
    }
  }

  lemma RunBehind(ops: seq<DiffOp>, m: nat, i: nat, j: nat)
    requires m <= |ops| && i <= j <= |ops| - m && (i == 0 ==> m > 0 && ops[m - 1].Equal?)
    ensures IsRun(ops[m..], i, j) <==> IsRun(ops, m + i, m + j)
  {
    var rest := ops[m..];
    assert forall k :: 0 <= k < |rest| ==> rest[k] == ops[m + k];
    if IsRun(rest, i, j) {
      forall k | m + i <= k < m + j
        ensures !ops[k].Equal?
      {
        assert ops[k] == rest[k - m];
      }
    }
  }

  /** The same for some run, in both directions. */
  lemma FoundBehind(cursor: nat, ops: seq<DiffOp>, m: nat, c: Change, i: nat, j: nat)
    requires RunMakes(cursor, ops, c, i, j) && m <= i && i > 0
    ensures SomeRunMakes(cursor + OldSum(ops[..m]), ops[m..], c)
  {
    RunsBehind(cursor, ops, m, c, i - m, j - m);
  }

  lemma FoundBefore(cursor: nat, ops: seq<DiffOp>, m: nat, c: Change, i: nat, j: nat)
    requires m <= |ops| && RunMakes(cursor + OldSum(ops[..m]), ops[m..], c, i, j)
    requires i == 0 ==> m > 0 && ops[m - 1].Equal?
    ensures SomeRunMakes(cursor, ops, c)
  {
    RunsBehind(cursor, ops, m, c, i, j);
  }

  function RunLength(ops: seq<DiffOp>): (n: nat)
    ensures n <= |ops| && (forall k :: 0 <= k < n ==> !ops[k].Equal?) && (n == |ops| || ops[n].Equal?)
  {
    if ops == [] || ops[0].Equal? then 0 else RunLength(ops[1..]) + 1
  }

  /** The scan of a hunk finds exactly the changes that its runs make. */
  lemma {:induction false} ScanIsRuns(cursor: nat, ops: seq<DiffOp>, c: Change)
    ensures c in ScanOps(cursor, ops, Idle) <==> SomeRunMakes(cursor, ops, c)
    decreases |ops|
  {
    if ops != [] {
      if ops[0].Equal? {
        ScanIsRuns(cursor + ops[0].count, ops[1..], c);
        KeptFirst(cursor, ops, c);
      } else {
        var n := RunLength(ops);
        ScanRun(cursor, ops, n, Idle);
        assert [] + Written(ops[..n]) == Written(ops[..n]);
        ScanIsRuns(cursor + OldSum(ops[..n]), ops[n..], c);
        RunFirst(cursor, ops, n, c);
      }
    }
  }

  lemma FirstSum(ops: seq<DiffOp>)
    requires ops != []
    ensures OldSum(ops[..1]) == ops[0].OldLen()
  {
    assert ops[..1][1..] == [];
  }

  lemma KeptFirst(cursor: nat, ops: seq<DiffOp>, c: Change)
    requires ops != [] && ops[0].Equal?
    ensures SomeRunMakes(cursor, ops, c) <==> SomeRunMakes(cursor + ops[0].count, ops[1..], c)
  {
    var next := cursor + OldSum(ops[..1]);
    FirstSum(ops);
    if i: nat, j: nat :| RunMakes(cursor, ops, c, i, j) {
      FoundBehind(cursor, ops, 1, c, i, j);
    }
    if SomeRunMakes(next, ops[1..], c) {
      var i: nat, j: nat :| RunMakes(next, ops[1..], c, i, j);
      FoundBefore(cursor, ops, 1, c, i, j);
    }
  }

  lemma RunFirst(cursor: nat, ops: seq<DiffOp>, n: nat, c: Change)
    requires 0 < n <= |ops| && (forall k :: 0 <= k < n ==> !ops[k].Equal?) && (n == |ops| || ops[n].Equal?)
    ensures SomeRunMakes(cursor, ops, c) <==>
      || c == Change(cursor, OldSum(ops[..n]), Written(ops[..n]))
      || SomeRunMakes(cursor + OldSum(ops[..n]), ops[n..], c)
  {
    var next := cursor + OldSum(ops[..n]);
    var whole := Change(cursor, OldSum(ops[..n]), Written(ops[..n]));
    assert RunMakes(cursor, ops, whole, 0, n) by {
      assert IsRun(ops, 0, n);
      assert OldSum(ops[..0]) == 0;
      assert ops[0..n] == ops[..n];
    }
    if i: nat, j: nat :| RunMakes(cursor, ops, c, i, j) {
      if i == 0 {
        assert j == n;
      } else {
        FoundBehind(cursor, ops, n, c, i, j);
      }
    }
    if i: nat, j: nat :| RunMakes(next, ops[n..], c, i, j) {
      FoundBefore(cursor, ops, n, c, i, j);
    }
  }

  lemma {:induction false} ChangesAreScanned(hunks: seq<Hunk>, c: Change)
    ensures c in ChangesOf(hunks) <==> exists h :: h in hunks && c in ScanOps(h.Start(), h.ops, Idle)
  {
    if hunks != [] {
      ChangesAreScanned(hunks[1..], c);
      assert forall h :: h in hunks <==> h == hunks[0] || h in hunks[1..];
    }
  }

  /** For every differ and all texts: the changes of a side are exactly those that the longest
      runs of its diff make, hunk by hunk; none is dropped, cut or joined. */
  lemma ChangesAreRuns(differ: Differ, base: Text, side: Text, c: Change)
    ensures c in SideChanges(differ, base, side) <==>
      exists h :: h in DiffTexts(differ, base, side).hunks && SomeRunMakes(h.Start(), h.ops, c)
  {
    var hunks := DiffTexts(differ, base, side).hunks;
    ChangesAreScanned(hunks, c);
    forall h: Hunk
      ensures c in ScanOps(h.Start(), h.ops, Idle) <==> SomeRunMakes(h.Start(), h.ops, c)
    {
      ScanIsRuns(h.Start(), h.ops, c);
    }
  }
}
