/** Changes that overlap without starting at one line: the merge loop reports nothing
    (src/engine/merge.rs). */
module Overlaps {
  import opened Texts
  import opened LineDiffs
  import opened Diff
  import opened Changes
  import opened Merge

  /** One change starts inside the other: both are written one after the other, without a
      conflict, and what the first one deletes behind the second one's end comes back. */
  lemma OverlapIsSilent(base: seq<Line>, outer: Change, inner: Change)
    requires outer.start < inner.start < outer.End() <= |base| && inner.End() <= |base|
    ensures InBounds([outer], |base|) && InBounds([inner], |base|)
    ensures MergeChanges(base, [outer], [inner]) == MergeChanges(base, [inner], [outer])
    ensures MergeChanges(base, [outer], [inner]).conflicts == []
    ensures MergedLines(base, [outer], [inner])
         == base[..outer.start] + outer.lines + inner.lines + base[inner.End()..]
  {
    var s := Merged([], [], 0);
    var next := Take(base, s, outer);
    assert next == Merged(base[..outer.start] + outer.lines, [], outer.End());
    assert [outer][1..] == [] && [inner][1..] == [];
    assert MergeFrom(base, [outer], [inner], s) == MergeFrom(base, [], [inner], next);
    assert MergeFrom(base, [], [inner], next) == MergeFrom(base, [], [], Take(base, next, inner));
    assert MergeFrom(base, [inner], [outer], s) == MergeFrom(base, [inner], [], next);
    assert MergeFrom(base, [inner], [], next) == MergeFrom(base, [], [], Take(base, next, inner));
  }

  /** The same for texts: whatever the differ, two sides of one change each, overlapping so,
      merge without a report, in either order. */
  lemma OverlapIsUnreported(differ: Differ, base: Text, ours: Text, theirs: Text, outer: Change, inner: Change)
    requires SideChanges(differ, base, ours) == [outer] && SideChanges(differ, base, theirs) == [inner]
    requires outer.start < inner.start < outer.End()
    ensures outer.End() <= |Lines(base)| && inner.End() <= |Lines(base)|
    ensures MergeOf(differ, base, ours, theirs).conflicts == [] && MergeOf(differ, base, theirs, ours).conflicts == []
    ensures LoopLines(differ, base, ours, theirs)
         == Lines(base)[..outer.start] + outer.lines + inner.lines + Lines(base)[inner.End()..]
  {
    SideInBounds(differ, base, ours);
    SideInBounds(differ, base, theirs);
    assert outer in [outer] && inner in [inner];
    OverlapIsSilent(Lines(base), outer, inner);
  }

  // ---- an input ------------------------------------------------------------------

  /** A differ that sees a change of the middle one of three pieces, and replaces everything
      otherwise. */
  function ReplaceMiddle(a: seq<Token>, b: seq<Token>): (groups: seq<seq<OpRange>>)
    ensures ValidScript(a, b, groups)
  {
    if |a| == 3 && |b| == 3 && a[0] == b[0] && a[2] == b[2] then
      var g := [OpRange(TagReplace, 1, 2, 1, 2)];
      assert ScriptFrom(a, b, 2, 2, [g][1..]);
      [g]
    else ReplaceAll(a, b)
  }

  const MIDDLE_DIFFER: Differ := ReplaceMiddle

  predicate Plain(x: char) {
    x != '\n' && x != '\r'
  }

  /** A line of one character in front of a text. */
  function Put(x: char, rest: Text): Text
    requires Plain(x)
  {
    [x, '\n'] + rest
  }

  lemma PutIs(x: char, rest: Text)
    requires Plain(x)
    ensures Tokens(Put(x, rest)) == [[x, '\n']] + Tokens(rest) && Lines(Put(x, rest)) == [[x]] + Lines(rest)
    ensures Put(x, rest) != ""
  {
    var s := Put(x, rest);
    FirstNlIs(s, 1);
    CutToken(s, 1);
    assert s[..2] == [x, '\n'] && s[2..] == rest && s[..1] == [x];
  }

  /** A text of three lines of one character each. */
  ghost predicate IsThree(s: Text, x: char, y: char, z: char) {
    && Tokens(s) == [[x, '\n'], [y, '\n'], [z, '\n']] && Lines(s) == [[x], [y], [z]]
    && EndsNl(s) && s != "\n"
  }

  ghost predicate IsOne(s: Text, x: char) {
    |Tokens(s)| == 1 && Lines(s) == [[x]] && EndsNl(s)
  }

  lemma OneText(x: char) returns (s: Text)
    requires Plain(x)
    ensures IsOne(s, x)
  {
    s := Put(x, "");
    PutIs(x, "");
  }

  lemma ThreeTexts(x: char, y: char, z: char) returns (s: Text)
    requires Plain(x) && Plain(y) && Plain(z)
    ensures IsThree(s, x, y, z)
  {
    var r1 := Put(z, "");
    var r2 := Put(y, r1);
    s := Put(x, r2);
    PutIs(z, "");
    PutIs(y, r1);
    PutIs(x, r2);
    assert Lines(s) == [[x]] + ([[y]] + ([[z]] + []));
    assert Tokens(s) == [[x, '\n']] + ([[y, '\n']] + ([[z, '\n']] + []));
  }

  /** A script of one replacement is one change. */
  lemma OneReplacement(a: seq<Token>, b: seq<Token>, op: OpRange)
    requires ValidScript(a, b, [[op]]) && op.tag == TagReplace
    ensures op.newEnd <= |b| && op.newStart <= op.newEnd && op.oldStart <= op.oldEnd
    ensures ChangesOf(HunksOf(a, b, 0, 0, [[op]]))
         == [Change(op.oldStart, op.oldEnd - op.oldStart, StripAll(b[op.newStart..op.newEnd]))]
  {
    var g := [op];
    assert [g][1..] == [];
    var h := HunkOf(a, b, g);
    assert HunksOf(a, b, 0, 0, [g]) == [h] + HunksOf(a, b, Last(g).oldEnd, Last(g).newEnd, []);
    assert [h] + [] == [h] && h.ops == [OpOf(op, b)];
    ScanOne(op.oldStart, OpOf(op, b));
    assert ChangesOf([h]) == ScanOps(h.Start(), h.ops, Idle) + ChangesOf([]) by {
      assert [h][1..] == [];
    }
  }

  lemma ScanOne(cursor: nat, op: DiffOp)
    requires op.Replace?
    ensures ScanOps(cursor, [op], Idle) == [Change(cursor, op.oldCount, op.lines)]
  {
    assert [op][1..] == [];
    assert [] + op.lines == op.lines;
    var p := Grow(Idle, cursor, op.oldCount, op.lines);
    assert ScanOps(cursor, [op], Idle) == ScanOps(cursor + op.oldCount, [], p) == Flush(p);
  }

  lemma ReplaceAllIs(base: Text, side: Text)
    requires base != side && |Tokens(side)| != 3
    ensures SideChanges(MIDDLE_DIFFER, base, side) == [Change(0, |Tokens(base)|, Lines(side))]
  {
    var a, b := Tokens(base), Tokens(side);
    var op := OpRange(TagReplace, 0, |a|, 0, |b|);
    assert MIDDLE_DIFFER(a, b) == ReplaceMiddle(a, b) == [[op]];
    OneReplacement(a, b, op);
    assert b[0..|b|] == b;
    LinesAreStrippedTokens(side);
  }

  lemma MiddleIs(base: Text, side: Text)
    requires base != side && |Tokens(base)| == 3 && |Tokens(side)| == 3 && |Lines(side)| == 3
    requires Tokens(base)[0] == Tokens(side)[0] && Tokens(base)[2] == Tokens(side)[2]
    ensures SideChanges(MIDDLE_DIFFER, base, side) == [Change(1, 1, [Lines(side)[1]])]
  {
    var a, b := Tokens(base), Tokens(side);
    var op := OpRange(TagReplace, 1, 2, 1, 2);
    assert MIDDLE_DIFFER(a, b) == ReplaceMiddle(a, b) == [[op]];
    OneReplacement(a, b, op);
    assert b[1..2] == [b[1]] && StripAll([b[1]]) == [StripNewline(b[1])];
    LinesAreStrippedTokens(side);
  }

  /** No conflict is reported, and the text is the first line of ours, the second of theirs and
      the third of the base. */
  ghost predicate WritesBoth(base: Text, ours: Text, theirs: Text) {
    && |Lines(base)| == |Lines(theirs)| == 3 && |Lines(ours)| == 1
    && var merged := MergeOf(MIDDLE_DIFFER, base, ours, theirs);
    && merged.conflicts == []
    && merged.text == Render([Lines(ours)[0], Lines(theirs)[1], Lines(base)[2]], true)
  }

  /** Three texts for which ours replaces all three lines and theirs the middle one. No conflict
      is reported, both are written, and the last line, which ours has deleted, is back. */
  lemma OverlapLosesConflict(a: char, b: char, c: char, x: char, y: char)
    returns (base: Text, ours: Text, theirs: Text)
    requires Plain(a) && Plain(b) && Plain(c) && Plain(x) && Plain(y) && b != y
    ensures IsThree(base, a, b, c) && IsOne(ours, x) && IsThree(theirs, a, y, c)
    ensures WritesBoth(base, ours, theirs)
  {
    base := ThreeTexts(a, b, c);
    ours := OneText(x);
    theirs := ThreeTexts(a, y, c);
    MergedExample(base, ours, theirs);
  }

  lemma MergedExample(base: Text, ours: Text, theirs: Text)
    requires |Tokens(base)| == |Tokens(theirs)| == 3 && |Tokens(ours)| == 1 && EndsNl(base)
    requires Tokens(base)[0] == Tokens(theirs)[0] && Tokens(base)[1] != Tokens(theirs)[1]
    requires Tokens(base)[2] == Tokens(theirs)[2]
    requires |Lines(base)| == |Lines(theirs)| == 3 && |Lines(ours)| == 1
    ensures WritesBoth(base, ours, theirs)
  {
    var x, y := Lines(ours)[0], Lines(theirs)[1];
    assert Lines(ours) == [x];
    ReplaceAllIs(base, ours);
    MiddleIs(base, theirs);
    OverlapIsUnreported(MIDDLE_DIFFER, base, ours, theirs, Change(0, 3, [x]), Change(1, 1, [y]));
    assert [] + [x] + [y] + Lines(base)[2..] == [x, y, Lines(base)[2]];
  }

  // ---- an input that does clash ----------------------------------------------------

  lemma SameLines(base: seq<Line>, oc: Change, tc: Change)
    requires oc.start == tc.start && oc.len == tc.len > 0 && oc.End() <= |base| && oc.lines != tc.lines
    ensures InBounds([oc], |base|) && InBounds([tc], |base|)
    ensures MergeChanges(base, [oc], [tc]).conflicts != []
    ensures MergedLines(base, [oc], [tc]) == base[..oc.start] + oc.lines + base[oc.End()..]
  {
    var s := Merged([], [], 0);
    assert [oc][1..] == [] && [tc][1..] == [];
    assert MergeFrom(base, [oc], [tc], s) == MergeFrom(base, [], [], MergePair(base, s, oc, tc));
    assert [] + base[0..oc.start] == base[..oc.start];
  }

  /** A conflict is reported, and the merge is not theirs. */
  predicate Clashes(differ: Differ, base: Text, ours: Text, theirs: Text) {
    var merged := MergeOf(differ, base, ours, theirs);
    merged.conflicts != [] && merged.text != theirs
  }

  /** Both sides replace the middle one of three lines, each in its own way. */
  ghost predicate MiddleClash(base: Text, ours: Text, theirs: Text) {
    && |Lines(base)| == |Lines(ours)| == |Lines(theirs)| == 3
    && Lines(ours) == Lines(base)[1 := Lines(ours)[1]] && Lines(theirs) == Lines(base)[1 := Lines(theirs)[1]]
    && EndsNl(base) && EndsNl(ours) && EndsNl(theirs) && Clashes(MIDDLE_DIFFER, base, ours, theirs)
  }

  lemma MiddleClashes(a: char, b: char, c: char, x: char, y: char) returns (base: Text, ours: Text, theirs: Text)
    requires Plain(a) && Plain(b) && Plain(c) && Plain(x) && Plain(y) && x != y && x != b && y != b
    ensures MiddleClash(base, ours, theirs)
  {
    base := ThreeTexts(a, b, c);
    ours := ThreeTexts(a, x, c);
    theirs := ThreeTexts(a, y, c);
    ClashExample(base, ours, theirs, [x], [y]);
    Replaced(Lines(base), Lines(ours), a, b, c, x);
    Replaced(Lines(base), Lines(theirs), a, b, c, y);
  }

  lemma Replaced(base: seq<Line>, side: seq<Line>, a: char, b: char, c: char, x: char)
    requires Plain(a) && Plain(b) && Plain(c) && Plain(x)
    requires base == [[a], [b], [c]] && side == [[a], [x], [c]]
    ensures side == base[1 := side[1]]
  {
  }

  lemma ClashExample(base: Text, ours: Text, theirs: Text, x: Line, y: Line)
    requires |Tokens(base)| == |Tokens(ours)| == |Tokens(theirs)| == 3 && EndsNl(base)
    requires Tokens(base)[0] == Tokens(ours)[0] == Tokens(theirs)[0]
    requires Tokens(base)[2] == Tokens(ours)[2] == Tokens(theirs)[2]
    requires base != ours && base != theirs && ours != theirs && x != y && x != ""
    requires |Lines(base)| == |Lines(ours)| == |Lines(theirs)| == 3 && Lines(ours)[1] == x && Lines(theirs)[1] == y
    ensures var merged := MergeOf(MIDDLE_DIFFER, base, ours, theirs);
      && merged.conflicts != [] && Lines(merged.text) == Lines(base)[..1] + [x] + Lines(base)[2..]
      && merged.text != theirs
  {
    MiddleIs(base, ours);
    MiddleIs(base, theirs);
    SideInBounds(MIDDLE_DIFFER, base, ours);
    SideInBounds(MIDDLE_DIFFER, base, theirs);
    SameLines(Lines(base), Change(1, 1, [x]), Change(1, 1, [y]));
    LinesOfRender(Lines(base)[..1] + [x] + Lines(base)[2..], true);
  }
}
