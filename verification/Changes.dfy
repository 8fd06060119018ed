/** Change ranges over base lines (`extract_changes_from_line_diff`, src/engine/merge.rs),
    and what it means to replay them. */
module Changes {
  import opened Texts
  import opened LineDiffs
  import opened Results
  import opened Patch
  import opened Diff
  import opened Seqs

  /** Base lines [start, start + len) become `lines`. */
  datatype Change = Change(start: nat, len: nat, lines: seq<Line>)
  {
    function End(): nat { start + len }

    /** Net growth. */
    function Growth(): int { |lines| - len }
  }

  // ---- specification of the scan ---------------------------------------

  /** The three accumulators of the scan: nothing collected, or a change being built. */
  datatype Pending = Idle | Open(change: Change)

  function Flush(p: Pending): seq<Change> {
    if p.Idle? then [] else [p.change]
  }

  function Grow(p: Pending, cursor: nat, len: nat, lines: seq<Line>): Pending {
    var c := if p.Idle? then Change(cursor, 0, []) else p.change;
    Open(Change(c.start, c.len + len, c.lines + lines))
  }

  function ScanOps(cursor: nat, ops: seq<DiffOp>, p: Pending): seq<Change>
    decreases |ops|
  {
    if ops == [] then Flush(p)
    else
      match ops[0]
      case Equal(c) => Flush(p) + ScanOps(cursor + c, ops[1..], Idle)
      case Insert(_, ls) => ScanOps(cursor, ops[1..], Grow(p, cursor, 0, ls))
      case Delete(_, c) => ScanOps(cursor + c, ops[1..], Grow(p, cursor, c, []))
      case Replace(_, c, _, ls) => ScanOps(cursor + c, ops[1..], Grow(p, cursor, c, ls))
  }

  function ChangesOf(hunks: seq<Hunk>): seq<Change> {
    if hunks == [] then []
    else ScanOps(hunks[0].Start(), hunks[0].ops, Idle) + ChangesOf(hunks[1..])
  }

  // ---- the loop of the source ------------------------------------------

  /** `flush_change`: push what was collected and reset the accumulators. */
  method FlushChange(changes: seq<Change>, start: Option<nat>, len: nat, lines: seq<Line>)
    returns (changes': seq<Change>, start': Option<nat>, len': nat, lines': seq<Line>)
    requires start.None? ==> len == 0 && lines == []
    ensures start' == None && len' == 0 && lines' == []
    ensures changes' == changes + if start.None? then [] else [Change(start.value, len, lines)]
  {
    if start.Some? {
      return changes + [Change(start.value, len, lines)], None, 0, [];
    }
    return changes, None, 0, [];
  }

  function AsPending(start: Option<nat>, len: nat, lines: seq<Line>): Pending {
    if start.None? then Idle else Open(Change(start.value, len, lines))
  }

  lemma {:induction false} ScanWithoutChange(cursor: nat, ops: seq<DiffOp>)
    requires forall op :: op in ops ==> op.Equal?
    ensures ScanOps(cursor, ops, Idle) == []
    decreases |ops|
  {
    if ops != [] {
      assert ops[0] in ops;
      ScanWithoutChange(cursor + ops[0].count, ops[1..]);
    }
  }

  method ScanHunk(hunk: Hunk, soFar: seq<Change>) returns (changes: seq<Change>)
    ensures changes == soFar + ScanOps(hunk.Start(), hunk.ops, Idle)
  {
    if forall op :: op in hunk.ops ==> op.Equal? {
      ScanWithoutChange(hunk.Start(), hunk.ops);
      return soFar;
    }
    changes := soFar;
    var baseOffset := hunk.Start();
    var oldCursor: nat := 0;
    var start: Option<nat> := None;
    var len: nat := 0;
    var lines: seq<Line> := [];
    assert hunk.ops[0..] == hunk.ops;
    for k := 0 to |hunk.ops|
      invariant start.None? ==> len == 0 && lines == []
      invariant changes + ScanOps(baseOffset + oldCursor, hunk.ops[k..], AsPending(start, len, lines))
             == soFar + ScanOps(baseOffset, hunk.ops, Idle)
    {
      ghost var rest := hunk.ops[k + 1..];
      assert hunk.ops[k..][1..] == rest;
      ghost var p := AsPending(start, len, lines);
      ghost var cursor := baseOffset + oldCursor;
      match hunk.ops[k] {
        case Equal(c) =>
          assert changes + (Flush(p) + ScanOps(cursor + c, rest, Idle))
              == changes + Flush(p) + ScanOps(cursor + c, rest, Idle);
          changes, start, len, lines := FlushChange(changes, start, len, lines);
          oldCursor := oldCursor + c;
        case Insert(_, newLines) =>
          if start.None? {
            start := Some(baseOffset + oldCursor);
          }
          lines := lines + newLines;
          assert AsPending(start, len, lines) == Grow(p, cursor, 0, newLines);
        case Delete(_, c) =>
          if start.None? {
            start := Some(baseOffset + oldCursor);
          }
          len := len + c;
          oldCursor := oldCursor + c;
          assert lines + [] == lines;
          assert AsPending(start, len, lines) == Grow(p, cursor, c, []);
        case Replace(_, c, _, newLines) =>
          if start.None? {
            start := Some(baseOffset + oldCursor);
          }
          len := len + c;
          lines := lines + newLines;
          oldCursor := oldCursor + c;
          assert AsPending(start, len, lines) == Grow(p, cursor, c, newLines);
      }
    }
    changes, start, len, lines := FlushChange(changes, start, len, lines);
  }

  method ExtractChanges(diff: LineDiff) returns (changes: seq<Change>)
    ensures changes == ChangesOf(diff.hunks)
  {
    changes := [];
    assert diff.hunks[0..] == diff.hunks;
    for k := 0 to |diff.hunks|
      invariant changes + ChangesOf(diff.hunks[k..]) == ChangesOf(diff.hunks)
    {
      assert diff.hunks[k..][1..] == diff.hunks[k + 1..];
      changes := ScanHunk(diff.hunks[k], changes);
    }
  }

  // ---- replaying changes -----------------------------------------------

  /** Changes in order, inside [pos, n]. */
  predicate Sorted(pos: nat, cs: seq<Change>, n: nat)
    decreases |cs|
  {
    if cs == [] then pos <= n
    else pos <= cs[0].start && Sorted(cs[0].End(), cs[1..], n)
  }

  /** Two neighbouring changes keep at least one base line between them. */
  predicate Gapped(cs: seq<Change>) {
    forall k :: 0 <= k < |cs| - 1 ==> cs[k].End() < cs[k + 1].start
  }

  lemma {:induction false} SortedBounds(pos: nat, cs: seq<Change>, n: nat)
    requires Sorted(pos, cs, n)
    ensures pos <= n
    ensures forall c :: c in cs ==> pos <= c.start && c.End() <= n
    decreases |cs|
  {
    if cs != [] {
      SortedBounds(cs[0].End(), cs[1..], n);
    }
  }

  /** The base from `pos` on, with the changes carried out. */
  function ReplayFrom(base: seq<Line>, pos: nat, cs: seq<Change>): seq<Line>
    requires Sorted(pos, cs, |base|)
    decreases |cs|
  {
    SortedBounds(pos, cs, |base|);
    if cs == [] then base[pos..]
    else base[pos..cs[0].start] + cs[0].lines + ReplayFrom(base, cs[0].End(), cs[1..])
  }

  function Replay(base: seq<Line>, cs: seq<Change>): seq<Line>
    requires Sorted(0, cs, |base|)
  {
    ReplayFrom(base, 0, cs)
  }

  lemma ReplaySkip(base: seq<Line>, pos: nat, mid: nat, cs: seq<Change>)
    requires pos <= mid && Sorted(mid, cs, |base|)
    ensures Sorted(pos, cs, |base|)
    ensures mid <= |base|
    ensures ReplayFrom(base, pos, cs) == base[pos..mid] + ReplayFrom(base, mid, cs)
  {
    SortedBounds(mid, cs, |base|);
    if cs == [] {
      SplitDrop(base, pos, mid);
    } else {
      var c := cs[0];
      Split(base, pos, mid, c.start);
      Assoc(base[pos..mid], base[mid..c.start], c.lines);
      Assoc(base[pos..mid], base[mid..c.start] + c.lines, ReplayFrom(base, c.End(), cs[1..]));
    }
  }

  // ---- replaying the extracted changes is applying the diff --------------

  /** Where the next change of a scan would be cut off from what came before. */
  function PendingStart(p: Pending, cursor: nat): nat {
    if p.Idle? then cursor else p.change.start
  }

  predicate PendingAt(p: Pending, cursor: nat) {
    p.Open? ==> p.change.End() == cursor
  }

  lemma ReplayPending(base: seq<Line>, pos: nat, p: Pending, cursor: nat, rest: seq<Change>)
    requires PendingAt(p, cursor) && pos <= PendingStart(p, cursor)
    requires Sorted(cursor, rest, |base|)
    ensures PendingStart(p, cursor) <= cursor <= |base|
    ensures Sorted(pos, Flush(p) + rest, |base|)
    ensures ReplayFrom(base, pos, Flush(p) + rest)
         == base[pos..PendingStart(p, cursor)] + Collected(p) + ReplayFrom(base, cursor, rest)
  {
    SortedBounds(cursor, rest, |base|);
    if p.Idle? {
      assert Flush(p) + rest == rest;
      ReplaySkip(base, pos, cursor, rest);
    } else {
      assert (Flush(p) + rest)[1..] == rest;
    }
  }

  function Inserted(op: DiffOp): seq<Line> {
    if op.Insert? || op.Replace? then op.lines else []
  }

  function Collected(p: Pending): seq<Line> {
    if p.Idle? then [] else p.change.lines
  }

  lemma EqualStep(base: seq<Line>, cursor: nat, ops: seq<DiffOp>, p: Pending)
    requires ops != [] && ops[0].Equal? && ApplyOps(base, cursor, ops).Ok?
    ensures var c, tail := ops[0].count, ops[1..];
      && cursor + c <= |base|
      && ScanOps(cursor, ops, p) == Flush(p) + ScanOps(cursor + c, tail, Idle)
      && ApplyOps(base, cursor + c, tail).Ok?
      && ApplyOps(base, cursor, ops).value == base[cursor..cursor + c] + ApplyOps(base, cursor + c, tail).value
      && cursor + OldSum(ops) == cursor + c + OldSum(tail)
  {
  }

  lemma NonEqualStep(base: seq<Line>, cursor: nat, ops: seq<DiffOp>, p: Pending)
    requires ops != [] && !ops[0].Equal? && ApplyOps(base, cursor, ops).Ok?
    requires PendingAt(p, cursor)
    ensures var op, tail := ops[0], ops[1..];
      && var p', cursor' := Grow(p, cursor, op.OldLen(), Inserted(op)), cursor + op.OldLen();
      && ScanOps(cursor, ops, p) == ScanOps(cursor', tail, p')
      && ApplyOps(base, cursor', tail).Ok?
      && ApplyOps(base, cursor, ops).value == Inserted(op) + ApplyOps(base, cursor', tail).value
      && PendingAt(p', cursor') && PendingStart(p', cursor') == PendingStart(p, cursor)
      && Collected(p') == Collected(p) + Inserted(op)
      && cursor + OldSum(ops) == cursor' + OldSum(tail)
  {
  }

  /** A scan started at `cursor`, replayed from `pos`: the untouched base, what was already
      collected, what the operations produce, and the changes after them. */
  ghost predicate Replays(base: seq<Line>, pos: nat, cursor: nat, scanned: seq<Change>, p: Pending,
                          produced: seq<Line>, end: nat, rest: seq<Change>) {
    && pos <= PendingStart(p, cursor) <= end <= |base|
    && Sorted(end, rest, |base|)
    && Sorted(pos, scanned + rest, |base|)
    && ReplayFrom(base, pos, scanned + rest)
       == base[pos..PendingStart(p, cursor)] + Collected(p) + produced + ReplayFrom(base, end, rest)
  }

  lemma ReplayNone(base: seq<Line>, pos: nat, cursor: nat, p: Pending, rest: seq<Change>)
    requires PendingAt(p, cursor) && pos <= PendingStart(p, cursor)
    requires Sorted(cursor, rest, |base|)
    ensures Replays(base, pos, cursor, Flush(p), p, [], cursor, rest)
  {
    ReplayPending(base, pos, p, cursor, rest);
    var lead := base[pos..PendingStart(p, cursor)] + Collected(p);
    assert lead + [] == lead;
  }

  lemma {:induction false} ReplayOps(base: seq<Line>, pos: nat, cursor: nat, ops: seq<DiffOp>, p: Pending,
                                     rest: seq<Change>)
    requires ApplyOps(base, cursor, ops).Ok?
    requires PendingAt(p, cursor) && pos <= PendingStart(p, cursor)
    requires Sorted(cursor + OldSum(ops), rest, |base|)
    ensures Replays(base, pos, cursor, ScanOps(cursor, ops, p), p,
                    ApplyOps(base, cursor, ops).value, cursor + OldSum(ops), rest)
    decreases |ops|, 1
  {
    if ops == [] {
      ReplayNone(base, pos, cursor, p, rest);
    } else if ops[0].Equal? {
      ReplayEqualOp(base, pos, cursor, ops, p, rest);
    } else {
      ReplayNonEqualOp(base, pos, cursor, ops, p, rest);
    }
  }

  lemma {:induction false} ReplayEqualOp(base: seq<Line>, pos: nat, cursor: nat, ops: seq<DiffOp>, p: Pending,
                                         rest: seq<Change>)
    requires ops != [] && ops[0].Equal? && ApplyOps(base, cursor, ops).Ok?
    requires PendingAt(p, cursor) && pos <= PendingStart(p, cursor)
    requires Sorted(cursor + OldSum(ops), rest, |base|)
    ensures Replays(base, pos, cursor, ScanOps(cursor, ops, p), p,
                    ApplyOps(base, cursor, ops).value, cursor + OldSum(ops), rest)
    decreases |ops|, 0
  {
    var scanned, produced, end := ScanOps(cursor, ops, p), ApplyOps(base, cursor, ops).value, cursor + OldSum(ops);
    var c, tail := ops[0].count, ops[1..];
    EqualStep(base, cursor, ops, p);
    var scanned', produced' := ScanOps(cursor + c, tail, Idle), ApplyOps(base, cursor + c, tail).value;
    assert Replays(base, cursor, cursor + c, scanned', Idle, produced', end, rest) by {
      ReplayOps(base, cursor, cursor + c, tail, Idle, rest);
    }
    ReplayEqual(base, pos, cursor, c, p, scanned', produced', end, rest);
    assert Replays(base, pos, cursor, scanned, p, produced, end, rest);
  }

  lemma {:induction false} ReplayNonEqualOp(base: seq<Line>, pos: nat, cursor: nat, ops: seq<DiffOp>, p: Pending,
                                            rest: seq<Change>)
    requires ops != [] && !ops[0].Equal? && ApplyOps(base, cursor, ops).Ok?
    requires PendingAt(p, cursor) && pos <= PendingStart(p, cursor)
    requires Sorted(cursor + OldSum(ops), rest, |base|)
    ensures Replays(base, pos, cursor, ScanOps(cursor, ops, p), p,
                    ApplyOps(base, cursor, ops).value, cursor + OldSum(ops), rest)
    decreases |ops|, 0
  {
    var scanned, produced, end := ScanOps(cursor, ops, p), ApplyOps(base, cursor, ops).value, cursor + OldSum(ops);
    var op, tail := ops[0], ops[1..];
    var p' := Grow(p, cursor, op.OldLen(), Inserted(op));
    NonEqualStep(base, cursor, ops, p);
    ReplayOps(base, pos, cursor + op.OldLen(), tail, p', rest);
    ReplayNonEqual(base, pos, cursor, cursor + op.OldLen(), p, p', Inserted(op), scanned,
                   ApplyOps(base, cursor + op.OldLen(), tail).value, end, rest);
    assert Replays(base, pos, cursor, scanned, p, produced, end, rest);
  }

  lemma ReplayNonEqual(base: seq<Line>, pos: nat, cursor: nat, cursor': nat, p: Pending, p': Pending,
                       inserted: seq<Line>, scanned: seq<Change>, produced: seq<Line>, end: nat, rest: seq<Change>)
    requires PendingStart(p', cursor') == PendingStart(p, cursor)
    requires Collected(p') == Collected(p) + inserted
    requires Replays(base, pos, cursor', scanned, p', produced, end, rest)
    ensures Replays(base, pos, cursor, scanned, p, inserted + produced, end, rest)
  {
  }

  lemma ReplayEqual(base: seq<Line>, pos: nat, cursor: nat, c: nat, p: Pending,
                    scanned: seq<Change>, produced: seq<Line>, end: nat, rest: seq<Change>)
    requires PendingAt(p, cursor) && pos <= PendingStart(p, cursor)
    requires cursor + c <= |base|
    requires Replays(base, cursor, cursor + c, scanned, Idle, produced, end, rest)
    ensures Replays(base, pos, cursor, Flush(p) + scanned, p, base[cursor..cursor + c] + produced, end, rest)
  {
    ReplayPending(base, pos, p, cursor, scanned + rest);
    assert Flush(p) + scanned + rest == Flush(p) + (scanned + rest);
    var lead := base[pos..PendingStart(p, cursor)] + Collected(p);
    var kept := base[cursor..cursor + c];
    var after := ReplayFrom(base, end, rest);
    assert kept + [] == kept;
    assert lead + (kept + produced + after) == lead + (kept + produced) + after;
  }

  /** The bridge between the two readings of a diff: for any coherent diff that applies,
      replaying the extracted changes over the base gives the same lines. */
  lemma {:induction false} ReplayIsPatch(base: seq<Line>, pos: nat, hunks: seq<Hunk>)
    requires pos <= |base| && ApplyHunks(base, pos, hunks).Ok? && Coherent(hunks)
    ensures Sorted(pos, ChangesOf(hunks), |base|)
    ensures ReplayFrom(base, pos, ChangesOf(hunks)) == ApplyHunks(base, pos, hunks).value
    decreases |hunks|
  {
    if hunks != [] {
      var h := hunks[0];
      assert h in hunks;
      ReplayIsPatch(base, h.End(), hunks[1..]);
      ReplayOps(base, pos, h.Start(), h.ops, Idle, ChangesOf(hunks[1..]));
      assert base[pos..h.Start()] + [] == base[pos..h.Start()];
    }
  }

  // ---- extracted changes never touch -----------------------------------

  lemma GappedConcat(a: seq<Change>, b: seq<Change>)
    requires Gapped(a) && Gapped(b)
    requires a != [] && b != [] ==> a[|a| - 1].End() < b[0].start
    ensures Gapped(a + b)
  {
  }

  /** A gapped list that fills [lo, hi] at most. */
  predicate GappedIn(cs: seq<Change>, lo: nat, hi: nat) {
    Gapped(cs) && (forall c :: c in cs ==> lo <= c.start && c.End() <= hi)
  }

  lemma {:induction false} ScanGapped(cursor: nat, ops: seq<DiffOp>, p: Pending)
    requires NoEmptyEqual(ops) && PendingAt(p, cursor)
    ensures GappedIn(ScanOps(cursor, ops, p), PendingStart(p, cursor), cursor + OldSum(ops))
    decreases |ops|
  {
    if ops != [] {
      var op, tail := ops[0], ops[1..];
      assert forall o :: o in tail ==> o in ops;
      var cursor' := cursor + op.OldLen();
      if op.Equal? {
        assert op in ops && op.count > 0;
        ScanGapped(cursor', tail, Idle);
        GappedConcat(Flush(p), ScanOps(cursor', tail, Idle));
      } else {
        var p' := Grow(p, cursor, op.OldLen(), Inserted(op));
        assert PendingAt(p', cursor') && PendingStart(p', cursor') == PendingStart(p, cursor);
        ScanGapped(cursor', tail, p');
        assert ScanOps(cursor, ops, p) == ScanOps(cursor', tail, p');
      }
    }
  }

  lemma {:induction false} ChangesGapped(hunks: seq<Hunk>)
    requires WellFormed(hunks)
    ensures Gapped(ChangesOf(hunks))
    ensures hunks != [] ==> forall c :: c in ChangesOf(hunks) ==> hunks[0].Start() <= c.start
  {
    if hunks != [] {
      var h, rest := hunks[0], hunks[1..];
      assert h in hunks;
      forall k | 0 <= k < |rest| - 1
        ensures rest[k].End() < rest[k + 1].Start()
      {
        assert rest[k] == hunks[k + 1] && rest[k + 1] == hunks[k + 2];
      }
      ChangesGapped(rest);
      ScanGapped(h.Start(), h.ops, Idle);
      var a, b := ScanOps(h.Start(), h.ops, Idle), ChangesOf(rest);
      if rest != [] {
        assert hunks[0].End() < hunks[1].Start();
      }
      GappedConcat(a, b);
    }
  }

  /** What one side did to the base. */
  function SideChanges(differ: Differ, base: Text, side: Text): seq<Change> {
    ChangesOf(DiffTexts(differ, base, side).hunks)
  }

  /** The changes extracted from a diff lie inside the base, never touch each other, and
      replayed over the base give the other text's lines. */
  lemma SideReplays(differ: Differ, base: Text, side: Text)
    ensures Sorted(0, SideChanges(differ, base, side), |Lines(base)|)
    ensures Gapped(SideChanges(differ, base, side))
    ensures Replay(Lines(base), SideChanges(differ, base, side)) == Lines(side)
  {
    var hunks := DiffTexts(differ, base, side).hunks;
    DiffRoundTrip(differ, base, side);
    DiffWellFormed(differ, base, side);
    ReplayIsPatch(Lines(base), 0, hunks);
    ChangesGapped(hunks);
  }
}
