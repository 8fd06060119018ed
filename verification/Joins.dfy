/** Merges with conflicts: what the loop writes where changes of the two sides start at one base
    line, and which conflicts it lists (src/engine/merge.rs). */
module Joins {
  import opened Texts
  import opened Diff
  import opened Changes
  import opened Merge
  import opened MergeLaws
  import opened Seqs

  /** No change reaches behind the start of a later one of the other side. */
  predicate Aligned(os: seq<Change>, ts: seq<Change>) {
    forall oc, tc :: oc in os && tc in ts ==>
      (oc.start < tc.start ==> oc.End() <= tc.start) && (tc.start < oc.start ==> tc.End() <= oc.start)
  }

  /** Two changes at one line as one: it covers what either covers and writes ours, unless
      theirs is an insertion that goes on where ours ends. */
  function Combined(oc: Change, tc: Change): Change {
    Change(oc.start, if oc.len > tc.len then oc.len else tc.len,
           if oc.len == 0 && tc.len == 0 && oc.lines <= tc.lines then tc.lines else oc.lines)
  }

  /** `u` lists in base order one change for each line at which a change starts: the change
      itself where one side has one, the two combined where both have. */
  ghost predicate IsJoin(os: seq<Change>, ts: seq<Change>, u: seq<Change>) {
    Increasing(u) && forall c :: c in u <==> Joined(os, ts, c)
  }

  ghost predicate Joined(os: seq<Change>, ts: seq<Change>, c: Change) {
    || (c in os && forall tc :: tc in ts ==> tc.start != c.start)
    || (c in ts && forall oc :: oc in os ==> oc.start != c.start)
    || (exists oc, tc :: oc in os && tc in ts && oc.start == tc.start && c == Combined(oc, tc))
  }

  // ---- the list ---------------------------------------------------------------------

  function JoinedList(os: seq<Change>, ts: seq<Change>): seq<Change>
    decreases |os| + |ts|
  {
    if os == [] && ts == [] then []
    else if os == [] || (ts != [] && ts[0].start < os[0].start) then [ts[0]] + JoinedList(os, ts[1..])
    else if ts == [] || os[0].start < ts[0].start then [os[0]] + JoinedList(os[1..], ts)
    else [Combined(os[0], ts[0])] + JoinedList(os[1..], ts[1..])
  }

  lemma {:induction false} JoinIs(os: seq<Change>, ts: seq<Change>)
    requires Increasing(os) && Increasing(ts)
    ensures IsJoin(os, ts, JoinedList(os, ts))
    decreases |os| + |ts|
  {
    if os != [] {
      IncreasingTail(os);
    }
    if ts != [] {
      IncreasingTail(ts);
    }
    if os == [] && ts == [] {
    } else if os == [] || (ts != [] && ts[0].start < os[0].start) {
      JoinIs(os, ts[1..]);
      JoinTheirs(os, ts, JoinedList(os, ts[1..]));
    } else if ts == [] || os[0].start < ts[0].start {
      JoinIs(os[1..], ts);
      JoinOurs(os, ts, JoinedList(os[1..], ts));
    } else {
      JoinIs(os[1..], ts[1..]);
      JoinPair(os, ts, JoinedList(os[1..], ts[1..]));
    }
  }

  lemma StartsAfter(os: seq<Change>, ts: seq<Change>, c: Change, n: nat)
    requires Joined(os, ts, c) && (forall x :: x in os || x in ts ==> n < x.start)
    ensures n < c.start
  {
  }

  lemma JoinOurs(os: seq<Change>, ts: seq<Change>, u: seq<Change>)
    requires os != [] && Increasing(os) && (forall tc :: tc in ts ==> os[0].start < tc.start)
    requires IsJoin(os[1..], ts, u)
    ensures IsJoin(os, ts, [os[0]] + u)
  {
    var c0 := os[0];
    IncreasingTail(os);
    assert forall c :: c in os <==> c == c0 || c in os[1..];
    forall c | c in u
      ensures c0.start < c.start
    {
      StartsAfter(os[1..], ts, c, c0.start);
    }
    forall c
      ensures c in [c0] + u <==> Joined(os, ts, c)
    {
    }
  }

  lemma JoinTheirs(os: seq<Change>, ts: seq<Change>, u: seq<Change>)
    requires ts != [] && Increasing(ts) && (forall oc :: oc in os ==> ts[0].start < oc.start)
    requires IsJoin(os, ts[1..], u)
    ensures IsJoin(os, ts, [ts[0]] + u)
  {
    var c0 := ts[0];
    IncreasingTail(ts);
    assert forall c :: c in ts <==> c == c0 || c in ts[1..];
    forall c | c in u
      ensures c0.start < c.start
    {
      StartsAfter(os, ts[1..], c, c0.start);
    }
    forall c
      ensures c in [c0] + u <==> Joined(os, ts, c)
    {
    }
  }

  lemma JoinPair(os: seq<Change>, ts: seq<Change>, u: seq<Change>)
    requires os != [] && ts != [] && Increasing(os) && Increasing(ts) && os[0].start == ts[0].start
    requires IsJoin(os[1..], ts[1..], u)
    ensures IsJoin(os, ts, [Combined(os[0], ts[0])] + u)
  {
    var c0 := Combined(os[0], ts[0]);
    IncreasingTail(os);
    IncreasingTail(ts);
    assert forall c :: c in os <==> c == os[0] || c in os[1..];
    assert forall c :: c in ts <==> c == ts[0] || c in ts[1..];
    forall c | c in u
      ensures c0.start < c.start
    {
      StartsAfter(os[1..], ts[1..], c, c0.start);
    }
    forall c
      ensures c in [c0] + u <==> Joined(os, ts, c)
    {
      JoinedPair(os, ts, c);
    }
  }

  lemma JoinedPair(os: seq<Change>, ts: seq<Change>, c: Change)
    requires os != [] && ts != [] && os[0].start == ts[0].start
    requires forall x :: x in os[1..] || x in ts[1..] ==> os[0].start < x.start
    requires forall x :: x in os <==> x == os[0] || x in os[1..]
    requires forall x :: x in ts <==> x == ts[0] || x in ts[1..]
    ensures Joined(os, ts, c) <==> c == Combined(os[0], ts[0]) || Joined(os[1..], ts[1..], c)
  {
    if c == Combined(os[0], ts[0]) {
      assert os[0] in os && ts[0] in ts;
    }
  }

  // ---- the loop writes it ------------------------------------------------------------

  lemma AlignedTails(os: seq<Change>, ts: seq<Change>)
    requires Aligned(os, ts)
    ensures os != [] ==> Aligned(os[1..], ts)
    ensures ts != [] ==> Aligned(os, ts[1..])
    ensures os != [] && ts != [] ==> Aligned(os[1..], ts[1..])
  {
  }

  lemma SortedFrom(pos: nat, pos': nat, cs: seq<Change>, n: nat)
    requires Sorted(pos, cs, n) && (cs == [] ==> pos' <= n) && (cs != [] ==> pos' <= cs[0].start)
    ensures Sorted(pos', cs, n)
  {
  }

  /** What is behind a pair starts behind both. */
  lemma PairTails(os: seq<Change>, ts: seq<Change>, pos: nat, n: nat)
    requires Sorted(pos, os, n) && Sorted(pos, ts, n) && Increasing(os) && Increasing(ts) && Aligned(os, ts)
    requires os != [] && ts != [] && os[0].start == ts[0].start
    ensures Sorted(Combined(os[0], ts[0]).End(), os[1..], n) && Sorted(Combined(os[0], ts[0]).End(), ts[1..], n)
  {
    var end := Combined(os[0], ts[0]).End();
    SortedBounds(pos, os, n);
    SortedBounds(pos, ts, n);
    assert os[0] in os && ts[0] in ts;
    if |os| > 1 {
      assert os[1] in os && os[0].start < os[1].start;
    }
    if |ts| > 1 {
      assert ts[1] in ts && ts[0].start < ts[1].start;
    }
    SortedFrom(os[0].End(), end, os[1..], n);
    SortedFrom(ts[0].End(), end, ts[1..], n);
  }

  lemma PairIs(base: seq<Line>, s: Merged, oc: Change, tc: Change)
    requires s.pos <= oc.start == tc.start && oc.End() <= |base| && tc.End() <= |base|
    ensures MergePair(base, s, oc, tc).out == Take(base, s, Combined(oc, tc)).out
    ensures MergePair(base, s, oc, tc).pos == Combined(oc, tc).End()
  {
  }

  lemma TailOfOne(pos: nat, cs: seq<Change>, other: seq<Change>, n: nat)
    requires cs != [] && Sorted(pos, cs, n) && Sorted(pos, other, n)
    requires other != [] ==> cs[0].End() <= other[0].start
    ensures Sorted(cs[0].End(), other, n) && Sorted(cs[0].End(), cs[1..], n)
  {
    SortedBounds(cs[0].End(), cs[1..], n);
    SortedFrom(pos, cs[0].End(), other, n);
  }

  lemma {:induction false} JoinMergeFrom(base: seq<Line>, os: seq<Change>, ts: seq<Change>, s: Merged)
    requires Sorted(s.pos, os, |base|) && Sorted(s.pos, ts, |base|)
    requires Increasing(os) && Increasing(ts) && Aligned(os, ts)
    ensures InBounds(os, |base|) && InBounds(ts, |base|) && s.pos <= |base|
    ensures Sorted(s.pos, JoinedList(os, ts), |base|)
    ensures MergeFrom(base, os, ts, s).out + base[MergeFrom(base, os, ts, s).pos..]
         == s.out + ReplayFrom(base, s.pos, JoinedList(os, ts))
    decreases |os| + |ts|
  {
    SortedBounds(s.pos, os, |base|);
    SortedBounds(s.pos, ts, |base|);
    AlignedTails(os, ts);
    if os != [] {
      IncreasingTail(os);
    }
    if ts != [] {
      IncreasingTail(ts);
    }
    if os == [] && ts == [] {
    } else if os == [] || (ts != [] && ts[0].start < os[0].start) {
      TailOfOne(s.pos, ts, os, |base|);
      JoinMergeFrom(base, os, ts[1..], Take(base, s, ts[0]));
      TakeReplays(base, s, ts[0], JoinedList(os, ts[1..]));
    } else if ts == [] || os[0].start < ts[0].start {
      TailOfOne(s.pos, os, ts, |base|);
      JoinMergeFrom(base, os[1..], ts, Take(base, s, os[0]));
      TakeReplays(base, s, os[0], JoinedList(os[1..], ts));
    } else {
      PairTails(os, ts, s.pos, |base|);
      PairIs(base, s, os[0], ts[0]);
      JoinMergeFrom(base, os[1..], ts[1..], MergePair(base, s, os[0], ts[0]));
      TakeReplays(base, s, Combined(os[0], ts[0]), JoinedList(os[1..], ts[1..]));
    }
  }

  /** Conflicts or not: where no change reaches into a later one of the other side, the merge is
      the base with the joined changes replayed; behind a conflict it goes on behind the longer
      of the two changes. */
  lemma JoinedMerge(differ: Differ, base: Text, ours: Text, theirs: Text, u: seq<Change>)
    requires Aligned(SideChanges(differ, base, ours), SideChanges(differ, base, theirs))
    requires IsJoin(SideChanges(differ, base, ours), SideChanges(differ, base, theirs), u)
    ensures Sorted(0, u, |Lines(base)|)
    ensures LoopLines(differ, base, ours, theirs) == Replay(Lines(base), u)
  {
    var B, os, ts := Lines(base), SideChanges(differ, base, ours), SideChanges(differ, base, theirs);
    SideReplays(differ, base, ours);
    SideReplays(differ, base, theirs);
    GappedIncreasing(0, os, |B|);
    GappedIncreasing(0, ts, |B|);
    JoinIs(os, ts);
    IncreasingUnique(u, JoinedList(os, ts));
    JoinMergeFrom(B, os, ts, Merged([], [], 0));
    assert [] + ReplayFrom(B, 0, u) == ReplayFrom(B, 0, u);
  }

  // ---- the conflicts ------------------------------------------------------------------

  /** The clashing pairs of two sides, in base order. */
  ghost predicate ListsClashes(os: seq<Change>, ts: seq<Change>, pairs: seq<(Change, Change)>) {
    && (forall i, j :: 0 <= i < j < |pairs| ==> pairs[i].0.start < pairs[j].0.start)
    && (forall p :: p in pairs <==> p.0 in os && p.1 in ts && ClashPair(p.0, p.1))
  }

  ghost predicate AreFrom(base: seq<Line>, cs: seq<Conflict>, pairs: seq<(Change, Change)>) {
    |cs| == |pairs| && forall k :: 0 <= k < |cs| ==> ComesFrom(base, cs[k], pairs[k].0, pairs[k].1)
  }

  lemma ClashesPast(os: seq<Change>, ts: seq<Change>, pairs: seq<(Change, Change)>)
    requires ts != [] && Increasing(ts) && (forall oc :: oc in os ==> ts[0].start < oc.start)
    requires ListsClashes(os, ts[1..], pairs)
    ensures ListsClashes(os, ts, pairs)
  {
    assert forall tc :: tc in ts <==> tc == ts[0] || tc in ts[1..];
  }

  lemma ClashesBehind(os: seq<Change>, ts: seq<Change>, pairs: seq<(Change, Change)>)
    requires os != [] && Increasing(os) && (forall tc :: tc in ts ==> os[0].start < tc.start)
    requires ListsClashes(os[1..], ts, pairs)
    ensures ListsClashes(os, ts, pairs)
  {
    assert forall oc :: oc in os <==> oc == os[0] || oc in os[1..];
  }

  lemma ClashesPair(os: seq<Change>, ts: seq<Change>, pairs: seq<(Change, Change)>)
    requires os != [] && ts != [] && Increasing(os) && Increasing(ts) && os[0].start == ts[0].start
    requires ListsClashes(os[1..], ts[1..], pairs)
    ensures ListsClashes(os, ts, if Agree(os[0], ts[0]) then pairs else [(os[0], ts[0])] + pairs)
  {
    IncreasingTail(os);
    IncreasingTail(ts);
    assert forall oc :: oc in os <==> oc == os[0] || oc in os[1..];
    assert forall tc :: tc in ts <==> tc == ts[0] || tc in ts[1..];
    forall p | p in pairs
      ensures os[0].start < p.0.start
    {
      assert p.0 in os[1..];
    }
  }

  /** The conflicts the loop adds to those it has so far. */
  ghost predicate AddsClashes(base: seq<Line>, os: seq<Change>, ts: seq<Change>, before: seq<Conflict>,
                              after: seq<Conflict>, cs: seq<Conflict>, pairs: seq<(Change, Change)>) {
    after == before + cs && ListsClashes(os, ts, pairs) && AreFrom(base, cs, pairs)
  }

  lemma {:induction false} ConflictsFrom(base: seq<Line>, os: seq<Change>, ts: seq<Change>, s: Merged)
    returns (cs: seq<Conflict>, pairs: seq<(Change, Change)>)
    requires InBounds(os, |base|) && InBounds(ts, |base|) && s.pos <= |base| && Placed(s.out, s.conflicts)
    requires Increasing(os) && Increasing(ts)
    ensures AddsClashes(base, os, ts, s.conflicts, MergeFrom(base, os, ts, s).conflicts, cs, pairs)
    decreases |os| + |ts|
  {
    if os != [] {
      IncreasingTail(os);
    }
    if ts != [] {
      IncreasingTail(ts);
    }
    if os == [] && ts == [] {
      cs, pairs := [], [];
    } else if os == [] || (ts != [] && ts[0].start < os[0].start) {
      PlacedEmit(base, s, ts[0].start, ts[0].lines, ts[0].End());
      cs, pairs := ConflictsFrom(base, os, ts[1..], Take(base, s, ts[0]));
      ClashesPast(os, ts, pairs);
    } else if ts == [] || os[0].start < ts[0].start {
      PlacedEmit(base, s, os[0].start, os[0].lines, os[0].End());
      cs, pairs := ConflictsFrom(base, os[1..], ts, Take(base, s, os[0]));
      ClashesBehind(os, ts, pairs);
    } else {
      PlacedPair(base, s, os[0], ts[0]);
      var next := MergePair(base, s, os[0], ts[0]);
      cs, pairs := ConflictsFrom(base, os[1..], ts[1..], next);
      ClashesPair(os, ts, pairs);
      cs, pairs := PairClashes(base, os[0], ts[0], s.conflicts, next.conflicts, cs, pairs);
    }
  }

  lemma PairClashes(base: seq<Line>, oc: Change, tc: Change, before: seq<Conflict>, next: seq<Conflict>,
                    more: seq<Conflict>, rest: seq<(Change, Change)>)
    returns (cs: seq<Conflict>, pairs: seq<(Change, Change)>)
    requires Agree(oc, tc) ==> next == before
    requires !Agree(oc, tc) ==> exists c :: next == before + [c] && ComesFrom(base, c, oc, tc)
    requires AreFrom(base, more, rest)
    ensures next + more == before + cs && AreFrom(base, cs, pairs)
    ensures pairs == if Agree(oc, tc) then rest else [(oc, tc)] + rest
  {
    cs, pairs := more, rest;
    if !Agree(oc, tc) {
      var c :| next == before + [c] && ComesFrom(base, c, oc, tc);
      cs, pairs := [c] + more, [(oc, tc)] + rest;
      assert before + [c] + more == before + ([c] + more);
      OneMoreFrom(base, more, rest, c, (oc, tc));
    }
  }

  lemma OneMoreFrom(base: seq<Line>, cs: seq<Conflict>, pairs: seq<(Change, Change)>, c: Conflict, p: (Change, Change))
    requires AreFrom(base, cs, pairs) && ComesFrom(base, c, p.0, p.1)
    ensures AreFrom(base, [c] + cs, [p] + pairs)
  {
  }

  /** For all texts: the conflicts are exactly the clashing pairs of the two sides, one for each,
      in base order, each with the base lines and both sides' lines of its pair. */
  lemma ConflictsAreClashes(differ: Differ, base: Text, ours: Text, theirs: Text) returns (pairs: seq<(Change, Change)>)
    ensures ListsClashes(SideChanges(differ, base, ours), SideChanges(differ, base, theirs), pairs)
    ensures AreFrom(Lines(base), LoopConflicts(differ, base, ours, theirs), pairs)
  {
    SideInBounds(differ, base, ours);
    SideInBounds(differ, base, theirs);
    var B, os, ts := Lines(base), SideChanges(differ, base, ours), SideChanges(differ, base, theirs);
    SideReplays(differ, base, ours);
    SideReplays(differ, base, theirs);
    GappedIncreasing(0, os, |B|);
    GappedIncreasing(0, ts, |B|);
    var cs;
    cs, pairs := ConflictsFrom(B, os, ts, Merged([], [], 0));
    assert [] + cs == cs;
  }

  // ---- where the conflicts are --------------------------------------------------------

  /** By how many lines the changes before base line `n` move it. */
  function Shift(u: seq<Change>, n: nat): int {
    if u == [] || n <= u[0].start then 0 else |u[0].lines| - u[0].len + Shift(u[1..], n)
  }

  /** Each conflict starts where the joined changes before its pair move the pair's line. */
  ghost predicate StartAt(cs: seq<Conflict>, pairs: seq<(Change, Change)>, grown: int, u: seq<Change>) {
    |cs| == |pairs| && forall k :: 0 <= k < |cs| ==>
      cs[k].startLine == pairs[k].0.start + grown + Shift(u, pairs[k].0.start)
  }

  ghost predicate Behind(pairs: seq<(Change, Change)>, n: nat) {
    forall k :: 0 <= k < |pairs| ==> n < pairs[k].0.start
  }

  lemma ClashesBehindStart(os: seq<Change>, ts: seq<Change>, pairs: seq<(Change, Change)>, n: nat)
    requires ListsClashes(os, ts, pairs) && forall oc :: oc in os ==> n < oc.start
    ensures Behind(pairs, n)
  {
    forall k | 0 <= k < |pairs|
      ensures n < pairs[k].0.start
    {
      assert pairs[k] in pairs;
    }
  }

  lemma StartsPast(cs: seq<Conflict>, pairs: seq<(Change, Change)>, grown: int, c: Change, u: seq<Change>)
    requires StartAt(cs, pairs, grown + |c.lines| - c.len, u) && Behind(pairs, c.start)
    ensures StartAt(cs, pairs, grown, [c] + u)
  {
    Tail(c, u);
  }

  lemma StartsMore(cs: seq<Conflict>, pairs: seq<(Change, Change)>, grown: int, c0: Change, u: seq<Change>,
                   c: Conflict, p: (Change, Change))
    requires StartAt(cs, pairs, grown, [c0] + u) && c0.start == p.0.start && c.startLine == p.0.start + grown
    ensures StartAt([c] + cs, [p] + pairs, grown, [c0] + u)
  {
  }

  lemma TakeGrows(base: seq<Line>, s: Merged, c: Change)
    requires s.pos <= c.start && c.End() <= |base|
    ensures |Take(base, s, c).out| - Take(base, s, c).pos == |s.out| - s.pos + |c.lines| - c.len
    ensures Take(base, s, c).conflicts == s.conflicts
  {
  }

  predicate AddsAt(before: seq<Conflict>, after: seq<Conflict>, n: int) {
    |after| == |before| + 1 && after[..|before|] == before && after[|before|].startLine == n
  }

  lemma PairStarts(base: seq<Line>, s: Merged, oc: Change, tc: Change)
    requires s.pos <= oc.start == tc.start && oc.End() <= |base| && tc.End() <= |base|
    ensures var next, both := MergePair(base, s, oc, tc), Combined(oc, tc);
      && next.pos == both.End()
      && |next.out| - next.pos == |s.out| - s.pos + |both.lines| - both.len
      && (Agree(oc, tc) ==> next.conflicts == s.conflicts)
      && (!Agree(oc, tc) ==> AddsAt(s.conflicts, next.conflicts, oc.start + (|s.out| - s.pos)))
  {
    PairIs(base, s, oc, tc);
    TakeGrows(base, s, Combined(oc, tc));
  }

  /** The conflicts `cs` behind `before` are those of `pairs`, at their places. */
  ghost predicate PlacesClashes(os: seq<Change>, ts: seq<Change>, before: seq<Conflict>, after: seq<Conflict>,
                                grown: int, u: seq<Change>, cs: seq<Conflict>, pairs: seq<(Change, Change)>) {
    after == before + cs && ListsClashes(os, ts, pairs) && StartAt(cs, pairs, grown, u)
  }

  /** What the merge of two aligned sides asks of them. */
  ghost predicate Ready(base: seq<Line>, os: seq<Change>, ts: seq<Change>, pos: nat) {
    && Sorted(pos, os, |base|) && Sorted(pos, ts, |base|)
    && Increasing(os) && Increasing(ts) && Aligned(os, ts)
  }

  lemma ReadyBounds(base: seq<Line>, os: seq<Change>, ts: seq<Change>, pos: nat)
    requires Ready(base, os, ts, pos)
    ensures InBounds(os, |base|) && InBounds(ts, |base|) && pos <= |base|
    ensures os != [] ==> pos <= os[0].start
    ensures ts != [] ==> pos <= ts[0].start
  {
    SortedBounds(pos, os, |base|);
    SortedBounds(pos, ts, |base|);
  }

  lemma ReadyPastTheirs(base: seq<Line>, os: seq<Change>, ts: seq<Change>, pos: nat)
    requires Ready(base, os, ts, pos) && ts != [] && (os != [] ==> ts[0].start < os[0].start)
    ensures Ready(base, os, ts[1..], ts[0].End()) && (forall oc :: oc in os ==> ts[0].start < oc.start)
  {
    AlignedTails(os, ts);
    IncreasingTail(ts);
    if os != [] {
      IncreasingTail(os);
      assert os[0] in os && ts[0] in ts;
    }
    TailOfOne(pos, ts, os, |base|);
  }

  lemma ReadyPastOurs(base: seq<Line>, os: seq<Change>, ts: seq<Change>, pos: nat)
    requires Ready(base, os, ts, pos) && os != [] && (ts != [] ==> os[0].start < ts[0].start)
    ensures Ready(base, os[1..], ts, os[0].End()) && (forall tc :: tc in ts ==> os[0].start < tc.start)
  {
    AlignedTails(os, ts);
    IncreasingTail(os);
    if ts != [] {
      IncreasingTail(ts);
      assert os[0] in os && ts[0] in ts;
    }
    TailOfOne(pos, os, ts, |base|);
  }

  lemma ReadyPastPair(base: seq<Line>, os: seq<Change>, ts: seq<Change>, pos: nat)
    requires Ready(base, os, ts, pos) && os != [] && ts != [] && os[0].start == ts[0].start
    ensures Ready(base, os[1..], ts[1..], Combined(os[0], ts[0]).End())
  {
    AlignedTails(os, ts);
    IncreasingTail(os);
    IncreasingTail(ts);
    PairTails(os, ts, pos, |base|);
  }

  lemma {:induction false} StartsFrom(base: seq<Line>, os: seq<Change>, ts: seq<Change>, s: Merged)
    returns (cs: seq<Conflict>, pairs: seq<(Change, Change)>)
    requires Ready(base, os, ts, s.pos)
    ensures InBounds(os, |base|) && InBounds(ts, |base|) && s.pos <= |base|
    ensures PlacesClashes(os, ts, s.conflicts, MergeFrom(base, os, ts, s).conflicts, |s.out| - s.pos,
                          JoinedList(os, ts), cs, pairs)
    decreases |os| + |ts|, 1
  {
    ReadyBounds(base, os, ts, s.pos);
    if os == [] && ts == [] {
      cs, pairs := [], [];
    } else if os == [] || (ts != [] && ts[0].start < os[0].start) {
      cs, pairs := StartsPastTheirs(base, os, ts, s);
    } else if ts == [] || os[0].start < ts[0].start {
      cs, pairs := StartsPastOurs(base, os, ts, s);
    } else {
      cs, pairs := StartsPastPair(base, os, ts, s);
    }
  }

  lemma {:induction false} StartsPastTheirs(base: seq<Line>, os: seq<Change>, ts: seq<Change>, s: Merged)
    returns (cs: seq<Conflict>, pairs: seq<(Change, Change)>)
    requires Ready(base, os, ts, s.pos) && ts != [] && (os != [] ==> ts[0].start < os[0].start)
    ensures InBounds(os, |base|) && InBounds(ts, |base|) && s.pos <= |base|
    ensures PlacesClashes(os, ts, s.conflicts, MergeFrom(base, os, ts, s).conflicts, |s.out| - s.pos,
                          JoinedList(os, ts), cs, pairs)
    decreases |os| + |ts|, 0
  {
    ReadyBounds(base, os, ts, s.pos);
    ReadyPastTheirs(base, os, ts, s.pos);
    TakeGrows(base, s, ts[0]);
    var u := JoinedList(os, ts[1..]);
    cs, pairs := StartsFrom(base, os, ts[1..], Take(base, s, ts[0]));
    ClashesBehindStart(os, ts[1..], pairs, ts[0].start);
    StartsPast(cs, pairs, |s.out| - s.pos, ts[0], u);
    ClashesPast(os, ts, pairs);
  }

  lemma {:induction false} StartsPastOurs(base: seq<Line>, os: seq<Change>, ts: seq<Change>, s: Merged)
    returns (cs: seq<Conflict>, pairs: seq<(Change, Change)>)
    requires Ready(base, os, ts, s.pos) && os != [] && (ts != [] ==> os[0].start < ts[0].start)
    ensures InBounds(os, |base|) && InBounds(ts, |base|) && s.pos <= |base|
    ensures PlacesClashes(os, ts, s.conflicts, MergeFrom(base, os, ts, s).conflicts, |s.out| - s.pos,
                          JoinedList(os, ts), cs, pairs)
    decreases |os| + |ts|, 0
  {
    ReadyBounds(base, os, ts, s.pos);
    ReadyPastOurs(base, os, ts, s.pos);
    TakeGrows(base, s, os[0]);
    IncreasingTail(os);
    var u := JoinedList(os[1..], ts);
    cs, pairs := StartsFrom(base, os[1..], ts, Take(base, s, os[0]));
    ClashesBehindStart(os[1..], ts, pairs, os[0].start);
    StartsPast(cs, pairs, |s.out| - s.pos, os[0], u);
    ClashesBehind(os, ts, pairs);
  }

  lemma {:induction false} StartsPastPair(base: seq<Line>, os: seq<Change>, ts: seq<Change>, s: Merged)
    returns (cs: seq<Conflict>, pairs: seq<(Change, Change)>)
    requires Ready(base, os, ts, s.pos) && os != [] && ts != [] && os[0].start == ts[0].start
    ensures InBounds(os, |base|) && InBounds(ts, |base|) && s.pos <= |base|
    ensures PlacesClashes(os, ts, s.conflicts, MergeFrom(base, os, ts, s).conflicts, |s.out| - s.pos,
                          JoinedList(os, ts), cs, pairs)
    decreases |os| + |ts|, 0
  {
    ReadyBounds(base, os, ts, s.pos);
    ReadyPastPair(base, os, ts, s.pos);
    IncreasingTail(os);
    PairStarts(base, s, os[0], ts[0]);
    var next, both, grown := MergePair(base, s, os[0], ts[0]), Combined(os[0], ts[0]), |s.out| - s.pos;
    var more, rest := StartsFrom(base, os[1..], ts[1..], next);
    ClashesBehindStart(os[1..], ts[1..], rest, both.start);
    ClashesPair(os, ts, rest);
    cs, pairs := PairPlaces(Agree(os[0], ts[0]), s.conflicts, next.conflicts, grown, both,
                            JoinedList(os[1..], ts[1..]), more, rest, (os[0], ts[0]));
  }

  lemma PairPlaces(agree: bool, before: seq<Conflict>, next: seq<Conflict>, grown: int, both: Change, u: seq<Change>,
                   more: seq<Conflict>, rest: seq<(Change, Change)>, p: (Change, Change))
    returns (cs: seq<Conflict>, pairs: seq<(Change, Change)>)
    requires if agree then next == before else AddsAt(before, next, both.start + grown)
    requires StartAt(more, rest, grown + |both.lines| - both.len, u) && Behind(rest, both.start)
    requires both.start == p.0.start
    ensures next + more == before + cs && StartAt(cs, pairs, grown, [both] + u)
    ensures pairs == if agree then rest else [p] + rest
  {
    StartsPast(more, rest, grown, both, u);
    cs, pairs := more, rest;
    if !agree {
      var c := next[|before|];
      assert next == before + [c];
      cs, pairs := [c] + more, [p] + rest;
      assert before + [c] + more == before + ([c] + more);
      StartsMore(more, rest, grown, both, u, c, p);
    }
  }

  /** Where no change reaches into a later one of the other side, each conflict starts at the
      line to which the joined changes before it move the base line of its pair. */
  lemma ConflictStarts(differ: Differ, base: Text, ours: Text, theirs: Text, u: seq<Change>)
    returns (pairs: seq<(Change, Change)>)
    requires Aligned(SideChanges(differ, base, ours), SideChanges(differ, base, theirs))
    requires IsJoin(SideChanges(differ, base, ours), SideChanges(differ, base, theirs), u)
    ensures ListsClashes(SideChanges(differ, base, ours), SideChanges(differ, base, theirs), pairs)
    ensures StartAt(LoopConflicts(differ, base, ours, theirs), pairs, 0, u)
  {
    var B, os, ts := Lines(base), SideChanges(differ, base, ours), SideChanges(differ, base, theirs);
    SideReplays(differ, base, ours);
    SideReplays(differ, base, theirs);
    GappedIncreasing(0, os, |B|);
    GappedIncreasing(0, ts, |B|);
    JoinIs(os, ts);
    IncreasingUnique(u, JoinedList(os, ts));
    var cs;
    cs, pairs := StartsFrom(B, os, ts, Merged([], [], 0));
    assert [] + cs == cs;
  }
}
