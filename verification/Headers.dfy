/** The line numbers a diff shows: where each hunk and each operation stands on both sides
    (src/engine/diff.rs, printed by src/cli/output.rs). */
module Headers {
  import opened Texts
  import opened LineDiffs
  import opened Patch
  import opened Diff

  /** The first hunk is moved by `shift`, every later one also by the growth of those before. */
  predicate HunksNumbered(hunks: seq<Hunk>, shift: int) {
    forall k :: 0 <= k < |hunks| ==>
      hunks[k].oldStart >= 1 && hunks[k].newStart == hunks[k].oldStart + shift + Growth(hunks[..k])
  }

  /** An operation stands behind the lines that the operations before it consume and produce. */
  predicate Numbered(op: DiffOp, oldLine: nat, newLine: nat) {
    match op
    case Equal(_) => true
    case Delete(oldStart, _) => oldStart == oldLine
    case Insert(newStart, _) => newStart == newLine
    case Replace(oldStart, _, newStart, _) => oldStart == oldLine && newStart == newLine
  }

  predicate OpsNumbered(ops: seq<DiffOp>, oldLine: nat, newLine: nat) {
    forall k :: 0 <= k < |ops| ==> Numbered(ops[k], oldLine + OldSum(ops[..k]), newLine + NewSum(ops[..k]))
  }

  lemma OpsNumberedCons(op: DiffOp, rest: seq<DiffOp>, oldLine: nat, newLine: nat)
    requires Numbered(op, oldLine, newLine) && OpsNumbered(rest, oldLine + op.OldLen(), newLine + op.NewLen())
    ensures OpsNumbered([op] + rest, oldLine, newLine)
  {
    var ops := [op] + rest;
    forall k | 0 <= k < |ops|
      ensures Numbered(ops[k], oldLine + OldSum(ops[..k]), newLine + NewSum(ops[..k]))
    {
      if k > 0 {
        assert ops[..k][1..] == rest[..k - 1] && ops[k] == rest[k - 1];
      }
    }
  }

  lemma {:induction false} GroupNumbered(a: seq<Token>, b: seq<Token>, g: seq<OpRange>)
    requires ValidGroup(a, b, g)
    ensures OpsNumbered(OpsOf(a, b, g), g[0].oldStart + 1, g[0].newStart + 1)
  {
    var op := g[0];
    if op.tag == TagEqual {
      assert |a[op.oldStart..op.oldEnd]| == |b[op.newStart..op.newEnd]|;
    }
    if |g| > 1 {
      GroupNumbered(a, b, g[1..]);
      OpsNumberedCons(OpOf(op, b), OpsOf(a, b, g[1..]), op.oldStart + 1, op.newStart + 1);
    } else {
      OpsNumberedCons(OpOf(op, b), [], op.oldStart + 1, op.newStart + 1);
    }
  }

  lemma HunksNumberedCons(h: Hunk, rest: seq<Hunk>, shift: int)
    requires h.oldStart >= 1 && h.newStart == h.oldStart + shift
    requires HunksNumbered(rest, shift + h.newLen - h.oldLen)
    ensures HunksNumbered([h] + rest, shift)
  {
    var hunks := [h] + rest;
    forall k | 0 <= k < |hunks|
      ensures hunks[k].oldStart >= 1 && hunks[k].newStart == hunks[k].oldStart + shift + Growth(hunks[..k])
    {
      if k > 0 {
        assert hunks[..k][1..] == rest[..k - 1] && hunks[k] == rest[k - 1];
      }
    }
  }

  lemma {:induction false} ScriptNumbered(a: seq<Token>, b: seq<Token>, i: nat, j: nat, groups: seq<seq<OpRange>>)
    requires ScriptFrom(a, b, i, j, groups)
    ensures HunksNumbered(HunksOf(a, b, i, j, groups), j - i)
    ensures forall h :: h in HunksOf(a, b, i, j, groups) ==> OpsNumbered(h.ops, h.oldStart, h.newStart)
    decreases |groups|
  {
    if groups != [] {
      var g := groups[0];
      GroupGrows(a, b, g);
      GroupNumbered(a, b, g);
      assert |a[i..g[0].oldStart]| == |b[j..g[0].newStart]|;
      ScriptNumbered(a, b, Last(g).oldEnd, Last(g).newEnd, groups[1..]);
      HunksNumberedCons(HunkOf(a, b, g), HunksOf(a, b, Last(g).oldEnd, Last(g).newEnd, groups[1..]), j - i);
    }
  }

  /** For every differ and all texts: each hunk stands on the new side where it stands on the
      old side, moved by the growth of the hunks before it; within a hunk each operation stands
      behind what the operations before it consume and produce. Line numbers count from 1. */
  lemma DiffNumbered(differ: Differ, before: Text, after: Text)
    ensures var hunks := DiffTexts(differ, before, after).hunks;
      && HunksNumbered(hunks, 0)
      && forall h :: h in hunks ==> OpsNumbered(h.ops, h.oldStart, h.newStart)
  {
    if before != after {
      var a, b := Tokens(before), Tokens(after);
      assert ValidScript(a, b, differ(a, b));
      ScriptNumbered(a, b, 0, 0, differ(a, b));
    }
  }

  // ---- one operation for each of the differ's ------------------------------------------

  predicate SameKind(op: DiffOp, tag: Tag) {
    match tag
    case TagEqual => op.Equal?
    case TagDelete => op.Delete?
    case TagInsert => op.Insert?
    case TagReplace => op.Replace?
  }

  /** The operations are the group's, one for one, each of the same kind and with the lengths of
      its ranges. */
  predicate Mirrors(ops: seq<DiffOp>, g: seq<OpRange>) {
    |ops| == |g| && forall k :: 0 <= k < |g| ==>
      && SameKind(ops[k], g[k].tag)
      && ops[k].OldLen() == g[k].oldEnd - g[k].oldStart
      && ops[k].NewLen() == g[k].newEnd - g[k].newStart
  }

  lemma {:induction false} GroupMirrored(a: seq<Token>, b: seq<Token>, g: seq<OpRange>)
    requires ValidGroup(a, b, g)
    ensures Mirrors(OpsOf(a, b, g), g)
  {
    var op := g[0];
    if op.tag == TagEqual {
      assert |a[op.oldStart..op.oldEnd]| == |b[op.newStart..op.newEnd]|;
    }
    if |g| > 1 {
      GroupMirrored(a, b, g[1..]);
    }
  }

  lemma {:induction false} ScriptMirrored(a: seq<Token>, b: seq<Token>, i: nat, j: nat, groups: seq<seq<OpRange>>)
    requires ScriptFrom(a, b, i, j, groups)
    ensures var hunks := HunksOf(a, b, i, j, groups);
      |hunks| == |groups| && forall k :: 0 <= k < |groups| ==> Mirrors(hunks[k].ops, groups[k])
    decreases |groups|
  {
    if groups != [] {
      var g := groups[0];
      GroupMirrored(a, b, g);
      ScriptMirrored(a, b, Last(g).oldEnd, Last(g).newEnd, groups[1..]);
    }
  }

  /** The diff of two texts has a hunk for each group of the differ's script and in it an
      operation for each of the group's, in order. */
  lemma DiffMirrors(differ: Differ, before: Text, after: Text)
    requires before != after
    ensures var hunks, script := DiffTexts(differ, before, after).hunks, differ(Tokens(before), Tokens(after));
      |hunks| == |script| && forall k :: 0 <= k < |script| ==> Mirrors(hunks[k].ops, script[k])
  {
    var a, b := Tokens(before), Tokens(after);
    assert ValidScript(a, b, differ(a, b));
    ScriptMirrored(a, b, 0, 0, differ(a, b));
  }
}
