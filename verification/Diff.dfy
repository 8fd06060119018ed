/** From the differ's grouped edit script to a line diff (src/engine/diff.rs). */
module Diff {
  import opened Texts
  import opened LineDiffs
  import opened Results
  import opened Patch
  import opened Seqs

  // ---- what the external differ hands over -----------------------------

  datatype Tag = TagEqual | TagDelete | TagInsert | TagReplace

  /** One operation, as half-open ranges of the old and the new tokens. */
  datatype OpRange = OpRange(tag: Tag, oldStart: nat, oldEnd: nat, newStart: nat, newEnd: nat)

  predicate ValidOp(a: seq<Token>, b: seq<Token>, op: OpRange) {
    && op.oldStart <= op.oldEnd <= |a|
    && op.newStart <= op.newEnd <= |b|
    && match op.tag
       case TagEqual => op.oldStart < op.oldEnd && a[op.oldStart..op.oldEnd] == b[op.newStart..op.newEnd]
       case TagDelete => op.newStart == op.newEnd
       case TagInsert => op.oldStart == op.oldEnd
       case TagReplace => true
  }

  predicate Follows(op: OpRange, next: OpRange) {
    op.oldEnd == next.oldStart && op.newEnd == next.newStart
  }

  predicate ValidGroup(a: seq<Token>, b: seq<Token>, g: seq<OpRange>) {
    && |g| > 0
    && ValidOp(a, b, g[0])
    && (|g| > 1 ==> Follows(g[0], g[1]) && ValidGroup(a, b, g[1..]))
  }

  function Last<T>(s: seq<T>): T
    requires |s| > 0
  {
    s[|s| - 1]
  }

  /** Groups covering everything from old position i and new position j on: what lies
      before, between and after the groups is equal on both sides, and two groups never
      touch. */
  predicate ScriptFrom(a: seq<Token>, b: seq<Token>, i: nat, j: nat, groups: seq<seq<OpRange>>)
    decreases |groups|
  {
    && i <= |a|
    && j <= |b|
    && if groups == [] then a[i..] == b[j..]
       else
         var g := groups[0];
         && ValidGroup(a, b, g)
         && i <= g[0].oldStart
         && j <= g[0].newStart
         && a[i..g[0].oldStart] == b[j..g[0].newStart]
         && (|groups| > 1 && |groups[1]| > 0 ==> Last(g).oldEnd < groups[1][0].oldStart)
         && ScriptFrom(a, b, Last(g).oldEnd, Last(g).newEnd, groups[1..])
  }

  predicate ValidScript(a: seq<Token>, b: seq<Token>, groups: seq<seq<OpRange>>) {
    ScriptFrom(a, b, 0, 0, groups)
  }

  /** A legal differ: everything is replaced. It shows that the contract can be met. */
  function ReplaceAll(a: seq<Token>, b: seq<Token>): (groups: seq<seq<OpRange>>)
    ensures ValidScript(a, b, groups)
  {
    var g := [OpRange(TagReplace, 0, |a|, 0, |b|)];
    assert ScriptFrom(a, b, |a|, |b|, [g][1..]);
    [g]
  }

  /** Any function that returns valid edit scripts. Every result holds for all of them. */
  type Differ = d: (seq<Token>, seq<Token>) -> seq<seq<OpRange>>
    | forall a, b :: ValidScript(a, b, d(a, b))
    witness (a, b) => ReplaceAll(a, b)

  // ---- specification ---------------------------------------------------

  function OpOf(op: OpRange, b: seq<Token>): DiffOp
    requires op.oldStart <= op.oldEnd
    requires op.newStart <= op.newEnd <= |b|
  {
    match op.tag
    case TagEqual => Equal(op.oldEnd - op.oldStart)
    case TagDelete => Delete(op.oldStart + 1, op.oldEnd - op.oldStart)
    case TagInsert => Insert(op.newStart + 1, StripAll(b[op.newStart..op.newEnd]))
    case TagReplace =>
      Replace(op.oldStart + 1, op.oldEnd - op.oldStart, op.newStart + 1, StripAll(b[op.newStart..op.newEnd]))
  }

  function OpsOf(a: seq<Token>, b: seq<Token>, g: seq<OpRange>): seq<DiffOp>
    requires ValidGroup(a, b, g)
  {
    [OpOf(g[0], b)] + if |g| == 1 then [] else OpsOf(a, b, g[1..])
  }

  lemma {:induction false} GroupGrows(a: seq<Token>, b: seq<Token>, g: seq<OpRange>)
    requires ValidGroup(a, b, g)
    ensures g[0].oldStart <= Last(g).oldEnd <= |a|
    ensures g[0].newStart <= Last(g).newEnd <= |b|
  {
    if |g| > 1 {
      GroupGrows(a, b, g[1..]);
    }
  }

  function HunkOf(a: seq<Token>, b: seq<Token>, g: seq<OpRange>): Hunk
    requires ValidGroup(a, b, g)
  {
    GroupGrows(a, b, g);
    Hunk(g[0].oldStart + 1, Last(g).oldEnd - g[0].oldStart,
         g[0].newStart + 1, Last(g).newEnd - g[0].newStart,
         OpsOf(a, b, g))
  }

  function HunksOf(a: seq<Token>, b: seq<Token>, i: nat, j: nat, groups: seq<seq<OpRange>>): seq<Hunk>
    requires ScriptFrom(a, b, i, j, groups)
    decreases |groups|
  {
    if groups == [] then []
    else
      var g := groups[0];
      [HunkOf(a, b, g)] + HunksOf(a, b, Last(g).oldEnd, Last(g).newEnd, groups[1..])
  }

  /** `diff_to_line_diff` */
  function DiffTexts(differ: Differ, before: Text, after: Text): LineDiff {
    if before == after then LineDiff([])
    else
      var a, b := Tokens(before), Tokens(after);
      LineDiff(HunksOf(a, b, 0, 0, differ(a, b)))
  }

  // ---- the loops of the source -----------------------------------------

  method StrippedLines(values: seq<Token>) returns (lines: seq<Line>)
    ensures lines == StripAll(values)
  {
    lines := [];
    for k := 0 to |values|
      invariant lines == StripAll(values[..k])
    {
      assert values[..k + 1][..k] == values[..k];
      lines := lines + [StripNewline(values[k])];
    }
    assert values[..|values|] == values;
  }

  lemma {:induction false} OpsAt(a: seq<Token>, b: seq<Token>, g: seq<OpRange>)
    requires ValidGroup(a, b, g)
    ensures |OpsOf(a, b, g)| == |g|
    ensures forall k :: 0 <= k < |g| ==> ValidOp(a, b, g[k]) && OpsOf(a, b, g)[k] == OpOf(g[k], b)
  {
    if |g| > 1 {
      OpsAt(a, b, g[1..]);
    }
  }

  method BuildOp(op: OpRange, b: seq<Token>) returns (myOp: DiffOp)
    requires op.oldStart <= op.oldEnd
    requires op.newStart <= op.newEnd <= |b|
    ensures myOp == OpOf(op, b)
  {
    match op.tag {
      case TagEqual =>
        return Equal(op.oldEnd - op.oldStart);
      case TagDelete =>
        return Delete(op.oldStart + 1, op.oldEnd - op.oldStart);
      case TagInsert =>
        var lines := StrippedLines(b[op.newStart..op.newEnd]);
        return Insert(op.newStart + 1, lines);
      case TagReplace =>
        var lines := StrippedLines(b[op.newStart..op.newEnd]);
        return Replace(op.oldStart + 1, op.oldEnd - op.oldStart, op.newStart + 1, lines);
    }
  }

  method BuildHunk(ghost a: seq<Token>, b: seq<Token>, ops: seq<OpRange>) returns (hunk: Hunk)
    requires ValidGroup(a, b, ops)
    ensures hunk == HunkOf(a, b, ops)
  {
    var first, last := ops[0], ops[|ops| - 1];
    var myOps: seq<DiffOp> := [];
    OpsAt(a, b, ops);
    for k := 0 to |ops|
      invariant myOps == OpsOf(a, b, ops)[..k]
    {
      var next := BuildOp(ops[k], b);
      myOps := myOps + [next];
    }
    GroupGrows(a, b, ops);
    return Hunk(first.oldStart + 1, last.oldEnd - first.oldStart,
                first.newStart + 1, last.newEnd - first.newStart, myOps);
  }

  /** One more group: its hunk moves from the rest to what is done. */
  lemma ScriptStep(a: seq<Token>, b: seq<Token>, i: nat, j: nat, groups: seq<seq<OpRange>>, k: nat, done: seq<Hunk>)
    requires k < |groups| && ScriptFrom(a, b, i, j, groups[k..])
    ensures ValidGroup(a, b, groups[k])
    ensures ScriptFrom(a, b, Last(groups[k]).oldEnd, Last(groups[k]).newEnd, groups[k + 1..])
    ensures done + HunksOf(a, b, i, j, groups[k..])
         == done + [HunkOf(a, b, groups[k])]
            + HunksOf(a, b, Last(groups[k]).oldEnd, Last(groups[k]).newEnd, groups[k + 1..])
  {
    assert groups[k..][0] == groups[k] && groups[k..][1..] == groups[k + 1..];
  }

  method DiffToLineDiff(differ: Differ, before: Text, after: Text) returns (diff: LineDiff)
    ensures diff == DiffTexts(differ, before, after)
  {
    if before == after {
      return LineDiff([]);
    }
    var a, b := Tokens(before), Tokens(after);
    var grouped := differ(a, b);
    assert ValidScript(a, b, grouped);
    var hunks: seq<Hunk> := [];
    ghost var i: nat, j: nat := 0, 0;
    assert grouped[0..] == grouped;
    for k := 0 to |grouped|
      invariant ScriptFrom(a, b, i, j, grouped[k..])
      invariant HunksOf(a, b, 0, 0, grouped) == hunks + HunksOf(a, b, i, j, grouped[k..])
    {
      ScriptStep(a, b, i, j, grouped, k, hunks);
      var hunk := BuildHunk(a, b, grouped[k]);
      i, j := Last(grouped[k]).oldEnd, Last(grouped[k]).newEnd;
      hunks := hunks + [hunk];
    }
    return LineDiff(hunks);
  }

  // ---- round trip ------------------------------------------------------

  lemma StripSlices(a: seq<Token>, i: nat, k: nat)
    requires i <= k <= |a|
    ensures StripAll(a[i..k]) == StripAll(a)[i..k]
  {
  }

  lemma OpRoundTrip(a: seq<Token>, b: seq<Token>, op: OpRange, rest: seq<DiffOp>)
    requires ValidOp(a, b, op)
    ensures ApplyOps(StripAll(a), op.oldStart, [OpOf(op, b)] + rest)
         == Prepend(StripAll(b)[op.newStart..op.newEnd], ApplyOps(StripAll(a), op.oldEnd, rest))
  {
    StripSlices(a, op.oldStart, op.oldEnd);
    StripSlices(b, op.newStart, op.newEnd);
    assert ([OpOf(op, b)] + rest)[1..] == rest;
    PrependNothing(ApplyOps(StripAll(a), op.oldEnd, rest));
  }

  lemma {:induction false} OpsRoundTrip(a: seq<Token>, b: seq<Token>, g: seq<OpRange>)
    requires ValidGroup(a, b, g)
    ensures g[0].newStart <= Last(g).newEnd <= |b|
    ensures ApplyOps(StripAll(a), g[0].oldStart, OpsOf(a, b, g))
         == Ok(StripAll(b)[g[0].newStart..Last(g).newEnd])
  {
    GroupGrows(a, b, g);
    var op := g[0];
    var produced := StripAll(b)[op.newStart..op.newEnd];
    if |g| == 1 {
      OpRoundTrip(a, b, op, []);
      assert produced + [] == produced;
    } else {
      OpRoundTrip(a, b, op, OpsOf(a, b, g[1..]));
      OpsRoundTrip(a, b, g[1..]);
      GroupGrows(a, b, g[1..]);
      assert produced + StripAll(b)[op.newEnd..Last(g).newEnd] == StripAll(b)[op.newStart..Last(g).newEnd];
    }
  }

  lemma EqualGap(a: seq<Token>, b: seq<Token>, i: nat, i': nat, j: nat, j': nat)
    requires i <= i' <= |a| && j <= j' <= |b| && a[i..i'] == b[j..j']
    ensures StripAll(a)[i..i'] == StripAll(b)[j..j']
  {
    StripSlices(a, i, i');
    StripSlices(b, j, j');
  }

  lemma HunkStep(A: seq<Line>, B: seq<Line>, i: nat, i': nat, j: nat, mid: nat, j': nat, h: Hunk, rest: seq<Hunk>)
    requires i <= h.Start() && h.End() == i' <= |A| && j <= mid <= j' <= |B|
    requires A[i..h.Start()] == B[j..mid]
    requires ApplyOps(A, h.Start(), h.ops) == Ok(B[mid..j'])
    requires ApplyHunks(A, i', rest) == Ok(B[j'..])
    ensures ApplyHunks(A, i, [h] + rest) == Ok(B[j..])
  {
    Tail(h, rest);
    Split(B, j, mid, j');
    SplitDrop(B, j, j');
  }

  lemma {:induction false} HunksRoundTrip(a: seq<Token>, b: seq<Token>, i: nat, j: nat, groups: seq<seq<OpRange>>)
    requires ScriptFrom(a, b, i, j, groups)
    ensures ApplyHunks(StripAll(a), i, HunksOf(a, b, i, j, groups)) == Ok(StripAll(b)[j..])
    decreases |groups|
  {
    var A, B := StripAll(a), StripAll(b);
    if groups == [] {
      assert A[i..] == A[i..|a|] && B[j..] == B[j..|b|];
      assert a[i..] == a[i..|a|] && b[j..] == b[j..|b|];
      EqualGap(a, b, i, |a|, j, |b|);
    } else {
      HunksRoundTrip(a, b, Last(groups[0]).oldEnd, Last(groups[0]).newEnd, groups[1..]);
      GroupRoundTrip(a, b, i, j, groups);
    }
  }

  lemma GroupRoundTrip(a: seq<Token>, b: seq<Token>, i: nat, j: nat, groups: seq<seq<OpRange>>)
    requires ScriptFrom(a, b, i, j, groups) && groups != []
    requires var i', j' := Last(groups[0]).oldEnd, Last(groups[0]).newEnd;
      ApplyHunks(StripAll(a), i', HunksOf(a, b, i', j', groups[1..])) == Ok(StripAll(b)[j'..])
    ensures ApplyHunks(StripAll(a), i, HunksOf(a, b, i, j, groups)) == Ok(StripAll(b)[j..])
  {
    var g := groups[0];
    GroupGrows(a, b, g);
    OpsRoundTrip(a, b, g);
    EqualGap(a, b, i, g[0].oldStart, j, g[0].newStart);
    var i', j' := Last(g).oldEnd, Last(g).newEnd;
    HunkStep(StripAll(a), StripAll(b), i, i', j, g[0].newStart, j', HunkOf(a, b, g),
             HunksOf(a, b, i', j', groups[1..]));
  }

  /** Diff then patch is the identity on lines: for every differ and every pair of texts
      the diff applies to the old lines without error and yields the new lines. */
  lemma DiffRoundTrip(differ: Differ, before: Text, after: Text)
    ensures Apply(Lines(before), DiffTexts(differ, before, after)) == Ok(Lines(after))
  {
    if before != after {
      var a, b := Tokens(before), Tokens(after);
      assert ValidScript(a, b, differ(a, b));
      HunksRoundTrip(a, b, 0, 0, differ(a, b));
      LinesAreStrippedTokens(before);
      LinesAreStrippedTokens(after);
      assert StripAll(b)[0..] == StripAll(b);
    }
  }

  function Concat(ts: seq<Token>): string {
    if ts == [] then "" else ts[0] + Concat(ts[1..])
  }

  lemma {:induction false} ConcatTokens(s: Text)
    ensures Concat(Tokens(s)) == s
  {
    if s != "" {
      var k := FirstNl(s);
      if k < |s| {
        var t, rest := s[..k + 1], s[k + 1..];
        ConcatTokens(rest);
        assert Tokens(s) == [t] + Tokens(rest);
        Tail(t, Tokens(rest));
        assert s == t + rest;
      } else {
        assert Tokens(s) == [s];
        assert s + "" == s;
      }
    }
  }

  /** A diff is empty exactly when the two texts are the same string. */
  lemma EmptyDiffIffSame(differ: Differ, before: Text, after: Text)
    ensures DiffTexts(differ, before, after) == LineDiff([]) <==> before == after
  {
    if before != after {
      var a, b := Tokens(before), Tokens(after);
      assert ValidScript(a, b, differ(a, b));
      if differ(a, b) == [] {
        assert a[0..] == a && b[0..] == b;
        ConcatTokens(before);
        ConcatTokens(after);
      }
    }
  }

  // ---- headers ---------------------------------------------------------

  lemma {:induction false} OpsCount(a: seq<Token>, b: seq<Token>, g: seq<OpRange>)
    requires ValidGroup(a, b, g)
    ensures OldSum(OpsOf(a, b, g)) == Last(g).oldEnd - g[0].oldStart
    ensures NewSum(OpsOf(a, b, g)) == Last(g).newEnd - g[0].newStart
  {
    var ops := OpsOf(a, b, g);
    var op := g[0];
    if op.tag == TagEqual {
      assert |a[op.oldStart..op.oldEnd]| == |b[op.newStart..op.newEnd]|;
    }
    if |g| == 1 {
      assert ops[1..] == [];
    } else {
      assert ops[1..] == OpsOf(a, b, g[1..]);
      OpsCount(a, b, g[1..]);
    }
  }

  /** No operation of the hunk keeps zero lines. */
  predicate NoEmptyEqual(ops: seq<DiffOp>) {
    forall op :: op in ops ==> op != Equal(0)
  }

  lemma {:induction false} OpsNoEmptyEqual(a: seq<Token>, b: seq<Token>, g: seq<OpRange>)
    requires ValidGroup(a, b, g)
    ensures NoEmptyEqual(OpsOf(a, b, g))
  {
    if |g| > 1 {
      OpsNoEmptyEqual(a, b, g[1..]);
    }
  }

  /** Hunk headers equal the sums of their operations; hunks are in order, keep no
      empty range, and leave at least one line between each other. */
  predicate WellFormed(hunks: seq<Hunk>) {
    && (forall h :: h in hunks ==> h.Coherent() && NoEmptyEqual(h.ops))
    && (forall k :: 0 <= k < |hunks| - 1 ==> hunks[k].End() < hunks[k + 1].Start())
  }

  lemma {:induction false} HunksWellFormed(a: seq<Token>, b: seq<Token>, i: nat, j: nat, groups: seq<seq<OpRange>>)
    requires ScriptFrom(a, b, i, j, groups)
    ensures WellFormed(HunksOf(a, b, i, j, groups))
    ensures groups != [] ==>
      |HunksOf(a, b, i, j, groups)| > 0 && HunksOf(a, b, i, j, groups)[0].Start() == groups[0][0].oldStart
    decreases |groups|
  {
    if groups != [] {
      var g := groups[0];
      GroupGrows(a, b, g);
      OpsCount(a, b, g);
      OpsNoEmptyEqual(a, b, g);
      var rest := HunksOf(a, b, Last(g).oldEnd, Last(g).newEnd, groups[1..]);
      HunksWellFormed(a, b, Last(g).oldEnd, Last(g).newEnd, groups[1..]);
      var hunks := HunksOf(a, b, i, j, groups);
      assert hunks[0].End() == Last(g).oldEnd;
      forall k | 0 <= k < |hunks| - 1
        ensures hunks[k].End() < hunks[k + 1].Start()
      {
        if k > 0 {
          assert hunks[k] == rest[k - 1] && hunks[k + 1] == rest[k];
        } else {
          assert groups[1..] != [];
          assert hunks[1] == rest[0];
        }
      }
    }
  }

  lemma DiffWellFormed(differ: Differ, before: Text, after: Text)
    ensures WellFormed(DiffTexts(differ, before, after).hunks)
  {
    if before != after {
      var a, b := Tokens(before), Tokens(after);
      assert ValidScript(a, b, differ(a, b));
      HunksWellFormed(a, b, 0, 0, differ(a, b));
    }
  }
}
