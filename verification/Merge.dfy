/** Three-way text merge (`merge_texts`, src/engine/merge.rs). */
module Merge {
  import opened Texts
  import opened Diff
  import opened Changes

  /** `startLine` is a 0-based index into the merged lines. */
  datatype Conflict = Conflict(startLine: nat, base: seq<Line>, ours: seq<Line>, theirs: seq<Line>)

  // ---- specification ---------------------------------------------------

  /** The loop's accumulators; `pos` is how far the base has been consumed. */
  datatype Merged = Merged(out: seq<Line>, conflicts: seq<Conflict>, pos: nat)

  predicate InBounds(cs: seq<Change>, n: nat) {
    forall c :: c in cs ==> c.End() <= n
  }

  /** `append_unchanged` */
  function Unchanged(base: seq<Line>, from: nat, to: nat): seq<Line>
    requires from <= |base|
  {
    if to > from then base[from..if to < |base| then to else |base|] else []
  }

  function Emit(base: seq<Line>, s: Merged, start: nat, lines: seq<Line>, pos: nat): Merged
    requires s.pos <= |base|
  {
    Merged(s.out + Unchanged(base, s.pos, start) + lines, s.conflicts, pos)
  }

  function Take(base: seq<Line>, s: Merged, c: Change): Merged
    requires s.pos <= |base|
  {
    Emit(base, s, c.start, c.lines, c.End())
  }

  /** Ours is written and the conflict recorded. */
  function Clash(base: seq<Line>, s: Merged, oc: Change, tc: Change): Merged
    requires s.pos <= |base| && oc.End() <= |base|
  {
    var before := s.out + Unchanged(base, s.pos, oc.start);
    Merged(before + oc.lines,
           s.conflicts + [Conflict(|before|, base[oc.start..oc.End()], oc.lines, tc.lines)],
           if oc.End() > tc.End() then oc.End() else tc.End())
  }

  /** Two changes that start at the same base line. */
  function MergePair(base: seq<Line>, s: Merged, oc: Change, tc: Change): Merged
    requires s.pos <= |base| && oc.End() <= |base|
  {
    if oc.len == tc.len && oc.lines == tc.lines then Take(base, s, oc)
    else if oc.len == 0 && tc.len == 0 then
      if oc.lines <= tc.lines then Emit(base, s, oc.start, tc.lines, oc.start)
      else if tc.lines <= oc.lines then Emit(base, s, oc.start, oc.lines, oc.start)
      else Clash(base, s, oc, tc)
    else Clash(base, s, oc, tc)
  }

  function MergeFrom(base: seq<Line>, os: seq<Change>, ts: seq<Change>, s: Merged): (r: Merged)
    requires InBounds(os, |base|) && InBounds(ts, |base|) && s.pos <= |base|
    ensures r.pos <= |base|
    decreases |os| + |ts|
  {
    if os == [] && ts == [] then s
    else if os == [] then MergeFrom(base, os, ts[1..], Take(base, s, ts[0]))
    else if ts == [] then MergeFrom(base, os[1..], ts, Take(base, s, os[0]))
    else if os[0].start < ts[0].start then MergeFrom(base, os[1..], ts, Take(base, s, os[0]))
    else if ts[0].start < os[0].start then MergeFrom(base, os, ts[1..], Take(base, s, ts[0]))
    else MergeFrom(base, os[1..], ts[1..], MergePair(base, s, os[0], ts[0]))
  }

  function MergeChanges(base: seq<Line>, os: seq<Change>, ts: seq<Change>): Merged
    requires InBounds(os, |base|) && InBounds(ts, |base|)
  {
    MergeFrom(base, os, ts, Merged([], [], 0))
  }

  /** The merged lines, with the unconsumed rest of the base. */
  function MergedLines(base: seq<Line>, os: seq<Change>, ts: seq<Change>): seq<Line>
    requires InBounds(os, |base|) && InBounds(ts, |base|)
  {
    var m := MergeChanges(base, os, ts);
    m.out + base[m.pos..]
  }

  lemma SideInBounds(differ: Differ, base: Text, side: Text)
    ensures InBounds(SideChanges(differ, base, side), |Lines(base)|)
  {
    SideReplays(differ, base, side);
    SortedBounds(0, SideChanges(differ, base, side), |Lines(base)|);
  }

  /** The lines and conflicts of the general loop, whatever the texts. */
  function LoopLines(differ: Differ, base: Text, ours: Text, theirs: Text): seq<Line> {
    SideInBounds(differ, base, ours);
    SideInBounds(differ, base, theirs);
    MergedLines(Lines(base), SideChanges(differ, base, ours), SideChanges(differ, base, theirs))
  }

  function LoopConflicts(differ: Differ, base: Text, ours: Text, theirs: Text): seq<Conflict> {
    SideInBounds(differ, base, ours);
    SideInBounds(differ, base, theirs);
    MergeChanges(Lines(base), SideChanges(differ, base, ours), SideChanges(differ, base, theirs)).conflicts
  }

  function Terminated(s: Text, nl: bool): Text {
    if nl && s != "" && !EndsNl(s) then s + "\n" else s
  }

  predicate AnyNl(base: Text, ours: Text, theirs: Text) {
    EndsNl(base) || EndsNl(ours) || EndsNl(theirs)
  }

  datatype MergeOutput = MergeOutput(text: Text, conflicts: seq<Conflict>)

  /** `merge_texts`, with its three early returns. */
  function MergeOf(differ: Differ, base: Text, ours: Text, theirs: Text): MergeOutput {
    var nl := AnyNl(base, ours, theirs);
    if ours == theirs then MergeOutput(Terminated(ours, nl), [])
    else if base == theirs then MergeOutput(Terminated(ours, nl), [])
    else if base == ours then MergeOutput(Terminated(theirs, nl), [])
    else MergeOutput(Render(LoopLines(differ, base, ours, theirs), nl), LoopConflicts(differ, base, ours, theirs))
  }

  // ---- the loop of the source ------------------------------------------

  method AppendUnchanged(result: seq<Line>, base: seq<Line>, from: nat, to: nat) returns (result': seq<Line>)
    requires from <= |base|
    ensures result' == result + Unchanged(base, from, to)
  {
    result' := result;
    if to > from {
      var end := if to < |base| then to else |base|;
      for k := from to end
        invariant result' == result + base[from..k]
      {
        assert base[from..k + 1] == base[from..k] + [base[k]];
        result' := result' + [base[k]];
      }
    }
  }

  method AppendChange(result: seq<Line>, change: Change) returns (result': seq<Line>)
    ensures result' == result + change.lines
  {
    result' := result;
    for k := 0 to |change.lines|
      invariant result' == result + change.lines[..k]
    {
      assert change.lines[..k + 1] == change.lines[..k] + [change.lines[k]];
      result' := result' + [change.lines[k]];
    }
    assert change.lines[..|change.lines|] == change.lines;
  }

  method TakeChange(base: seq<Line>, result: seq<Line>, basePos: nat, c: Change, ghost conflicts: seq<Conflict>)
    returns (result': seq<Line>, basePos': nat)
    requires basePos <= |base|
    ensures Merged(result', conflicts, basePos') == Take(base, Merged(result, conflicts, basePos), c)
  {
    var r := AppendUnchanged(result, base, basePos, c.start);
    result' := AppendChange(r, c);
    basePos' := c.start + c.len;
  }

  method MergeSameStart(base: seq<Line>, result: seq<Line>, conflicts: seq<Conflict>, basePos: nat, oc: Change,
                        tc: Change)
    returns (result': seq<Line>, conflicts': seq<Conflict>, basePos': nat)
    requires basePos <= |base| && oc.End() <= |base|
    ensures Merged(result', conflicts', basePos') == MergePair(base, Merged(result, conflicts, basePos), oc, tc)
  {
    var ocEnd, tcEnd := oc.start + oc.len, tc.start + tc.len;
    var r := AppendUnchanged(result, base, basePos, oc.start);
    if oc.len == tc.len && oc.lines == tc.lines {
      result' := AppendChange(r, oc);
      return result', conflicts, ocEnd;
    }
    if oc.len == 0 && tc.len == 0 {
      if oc.lines <= tc.lines {
        result' := AppendChange(r, tc);
        return result', conflicts, oc.start;
      } else if tc.lines <= oc.lines {
        result' := AppendChange(r, oc);
        return result', conflicts, oc.start;
      }
    }
    var conflictStartLine := |r|;
    result' := AppendChange(r, oc);
    basePos' := if ocEnd > tcEnd then ocEnd else tcEnd;
    conflicts' := conflicts + [Conflict(conflictStartLine, base[oc.start..oc.start + oc.len], oc.lines, tc.lines)];
  }

  method MergeLoop(base: seq<Line>, os: seq<Change>, ts: seq<Change>)
    returns (result: seq<Line>, conflicts: seq<Conflict>)
    requires InBounds(os, |base|) && InBounds(ts, |base|)
    ensures result == MergedLines(base, os, ts)
    ensures conflicts == MergeChanges(base, os, ts).conflicts
  {
    result, conflicts := [], [];
    var basePos: nat, ourIdx, theirIdx := 0, 0, 0;
    assert os[0..] == os && ts[0..] == ts;
    while ourIdx < |os| || theirIdx < |ts|
      invariant ourIdx <= |os| && theirIdx <= |ts| && basePos <= |base|
      invariant MergeFrom(base, os[ourIdx..], ts[theirIdx..], Merged(result, conflicts, basePos))
             == MergeChanges(base, os, ts)
      decreases |os| - ourIdx + (|ts| - theirIdx)
    {
      ghost var o, t := os[ourIdx..], ts[theirIdx..];
      assert ourIdx < |os| ==> o[1..] == os[ourIdx + 1..];
      assert theirIdx < |ts| ==> t[1..] == ts[theirIdx + 1..];
      if ourIdx == |os| || (theirIdx < |ts| && ts[theirIdx].start < os[ourIdx].start) {
        result, basePos := TakeChange(base, result, basePos, ts[theirIdx], conflicts);
        theirIdx := theirIdx + 1;
      } else if theirIdx == |ts| || os[ourIdx].start < ts[theirIdx].start {
        result, basePos := TakeChange(base, result, basePos, os[ourIdx], conflicts);
        ourIdx := ourIdx + 1;
      } else {
        result, conflicts, basePos := MergeSameStart(base, result, conflicts, basePos, os[ourIdx], ts[theirIdx]);
        ourIdx := ourIdx + 1;
        theirIdx := theirIdx + 1;
      }
    }
    assert os[ourIdx..] == [] && ts[theirIdx..] == [];
    ghost var end := MergeChanges(base, os, ts);
    assert end == Merged(result, conflicts, basePos);
    ghost var merged := result;
    if basePos < |base| {
      result := result + base[basePos..];
    }
    assert result == merged + base[basePos..];
  }

  method MergeTexts(differ: Differ, base: Text, ours: Text, theirs: Text)
    returns (text: Text, conflicts: seq<Conflict>)
    ensures MergeOutput(text, conflicts) == MergeOf(differ, base, ours, theirs)
  {
    var hasTrailingNewline := EndsNl(base) || EndsNl(ours) || EndsNl(theirs);
    if ours == theirs || base == theirs {
      if hasTrailingNewline && ours != "" && !EndsNl(ours) {
        return ours + "\n", [];
      }
      return ours, [];
    }
    if base == ours {
      if hasTrailingNewline && theirs != "" && !EndsNl(theirs) {
        return theirs + "\n", [];
      }
      return theirs, [];
    }
    var diffOurs := DiffToLineDiff(differ, base, ours);
    var diffTheirs := DiffToLineDiff(differ, base, theirs);
    var baseLines := Lines(base);
    var ourChanges := ExtractChanges(diffOurs);
    var theirChanges := ExtractChanges(diffTheirs);
    SideInBounds(differ, base, ours);
    SideInBounds(differ, base, theirs);
    var result: seq<Line>;
    result, conflicts := MergeLoop(baseLines, ourChanges, theirChanges);
    var joined := Join(result);
    if hasTrailingNewline && joined != "" {
      return joined + "\n", conflicts;
    }
    return joined, conflicts;
  }
}
