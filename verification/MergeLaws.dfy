/** What the three-way merge guarantees. */
module MergeLaws {
  import opened Texts
  import opened Diff
  import opened Changes
  import opened Merge
  import opened Seqs

  // ---- conflicts: where they point and where they come from ---------------

  predicate PointsAtOurs(out: seq<Line>, c: Conflict) {
    c.startLine + |c.ours| <= |out| && out[c.startLine..c.startLine + |c.ours|] == c.ours
  }

  /** Every conflict indexes its own block; blocks are in order and disjoint. */
  predicate Placed(out: seq<Line>, cs: seq<Conflict>) {
    && (forall c :: c in cs ==> PointsAtOurs(out, c))
    && (forall k :: 0 <= k < |cs| - 1 ==> cs[k].startLine + |cs[k].ours| <= cs[k + 1].startLine)
  }

  /** Two changes at one base line that the merge can reconcile: the same change, or two
      insertions one of which begins with the other. */
  predicate Agree(oc: Change, tc: Change) {
    || (oc.len == tc.len && oc.lines == tc.lines)
    || (oc.len == 0 && tc.len == 0 && (oc.lines <= tc.lines || tc.lines <= oc.lines))
  }

  predicate ClashPair(oc: Change, tc: Change) {
    oc.start == tc.start && !Agree(oc, tc)
  }

  predicate ComesFrom(base: seq<Line>, c: Conflict, oc: Change, tc: Change) {
    && ClashPair(oc, tc)
    && oc.End() <= |base|
    && c.base == base[oc.start..oc.End()]
    && c.ours == oc.lines
    && c.theirs == tc.lines
  }

  predicate FromSides(base: seq<Line>, c: Conflict, os: seq<Change>, ts: seq<Change>) {
    exists oc, tc :: oc in os && tc in ts && ComesFrom(base, c, oc, tc)
  }

  lemma PlacedExtends(out: seq<Line>, more: seq<Line>, cs: seq<Conflict>)
    requires Placed(out, cs)
    ensures Placed(out + more, cs)
  {
  }

  lemma PlacedClash(base: seq<Line>, s: Merged, oc: Change, tc: Change)
    requires Placed(s.out, s.conflicts) && s.pos <= |base| && oc.End() <= |base|
    ensures Placed(Clash(base, s, oc, tc).out, Clash(base, s, oc, tc).conflicts)
  {
    var before := s.out + Unchanged(base, s.pos, oc.start);
    PlacedExtends(s.out, Unchanged(base, s.pos, oc.start), s.conflicts);
    PlacedExtends(before, oc.lines, s.conflicts);
    var out := before + oc.lines;
    var c := Conflict(|before|, base[oc.start..oc.End()], oc.lines, tc.lines);
    assert PointsAtOurs(out, c);
    var cs := s.conflicts + [c];
    if |s.conflicts| > 0 {
      assert s.conflicts[|s.conflicts| - 1] in s.conflicts;
      assert PointsAtOurs(s.out, s.conflicts[|s.conflicts| - 1]);
    }
  }

  lemma PlacedEmit(base: seq<Line>, s: Merged, start: nat, lines: seq<Line>, pos: nat)
    requires Placed(s.out, s.conflicts) && s.pos <= |base|
    ensures Placed(Emit(base, s, start, lines, pos).out, s.conflicts)
  {
  }

  /** One more conflict than before at most, and it comes from the two changes. */
  lemma PlacedPair(base: seq<Line>, s: Merged, oc: Change, tc: Change)
    requires Placed(s.out, s.conflicts) && s.pos <= |base| && oc.End() <= |base| && oc.start == tc.start
    ensures var r := MergePair(base, s, oc, tc);
      && Placed(r.out, r.conflicts)
      && (Agree(oc, tc) ==> r.conflicts == s.conflicts)
      && (!Agree(oc, tc) ==> exists c :: r.conflicts == s.conflicts + [c] && ComesFrom(base, c, oc, tc))
  {
    if Agree(oc, tc) {
      PlacedEmit(base, s, oc.start, oc.lines, oc.End());
      PlacedEmit(base, s, oc.start, tc.lines, oc.start);
      PlacedEmit(base, s, oc.start, oc.lines, oc.start);
    } else {
      PlacedClash(base, s, oc, tc);
      var r := MergePair(base, s, oc, tc);
      var c := r.conflicts[|s.conflicts|];
      assert r.conflicts == s.conflicts + [c] && ComesFrom(base, c, oc, tc);
    }
  }

  lemma {:induction false} MergePlaced(base: seq<Line>, os: seq<Change>, ts: seq<Change>, s: Merged)
    requires InBounds(os, |base|) && InBounds(ts, |base|) && s.pos <= |base|
    requires Placed(s.out, s.conflicts)
    ensures var r := MergeFrom(base, os, ts, s);
      && Placed(r.out, r.conflicts)
      && (forall c :: c in r.conflicts ==> c in s.conflicts || FromSides(base, c, os, ts))
    decreases |os| + |ts|
  {
    if os == [] && ts == [] {
    } else if os == [] || (ts != [] && ts[0].start < os[0].start) {
      PlacedEmit(base, s, ts[0].start, ts[0].lines, ts[0].End());
      MergePlaced(base, os, ts[1..], Take(base, s, ts[0]));
    } else if ts == [] || os[0].start < ts[0].start {
      PlacedEmit(base, s, os[0].start, os[0].lines, os[0].End());
      MergePlaced(base, os[1..], ts, Take(base, s, os[0]));
    } else {
      PlacedPair(base, s, os[0], ts[0]);
      assert os[0] in os && ts[0] in ts;
      MergePlaced(base, os[1..], ts[1..], MergePair(base, s, os[0], ts[0]));
    }
  }

  /** For every base and every two texts, with no condition at all: each reported conflict
      indexes exactly its `ours` block in the merged lines, the blocks are ordered and
      disjoint, and each comes from two differing changes at one base line. */
  lemma ConflictsWellPlaced(differ: Differ, base: Text, ours: Text, theirs: Text)
    ensures Placed(LoopLines(differ, base, ours, theirs), LoopConflicts(differ, base, ours, theirs))
    ensures forall c :: c in LoopConflicts(differ, base, ours, theirs) ==>
      FromSides(Lines(base), c, SideChanges(differ, base, ours), SideChanges(differ, base, theirs))
  {
    SideInBounds(differ, base, ours);
    SideInBounds(differ, base, theirs);
    var B, os, ts := Lines(base), SideChanges(differ, base, ours), SideChanges(differ, base, theirs);
    MergePlaced(B, os, ts, Merged([], [], 0));
    var m := MergeChanges(B, os, ts);
    PlacedExtends(m.out, B[m.pos..], m.conflicts);
  }

  // ---- conflicts: exactly when -------------------------------------------

  predicate Increasing(cs: seq<Change>) {
    forall i, j :: 0 <= i < j < |cs| ==> cs[i].start < cs[j].start
  }

  lemma GappedTail(cs: seq<Change>)
    requires Gapped(cs) && cs != []
    ensures Gapped(cs[1..])
  {
  }

  lemma {:induction false} GappedIncreasing(pos: nat, cs: seq<Change>, n: nat)
    requires Sorted(pos, cs, n) && Gapped(cs)
    ensures Increasing(cs)
    decreases |cs|
  {
    if cs != [] {
      var rest := cs[1..];
      GappedTail(cs);
      GappedIncreasing(cs[0].End(), rest, n);
      SortedBounds(cs[0].End(), rest, n);
      forall i, j | 0 <= i < j < |cs|
        ensures cs[i].start < cs[j].start
      {
        assert cs[j] == rest[j - 1];
        if i > 0 {
          assert cs[i] == rest[i - 1];
        } else if j > 1 {
          assert cs[1] == rest[0] && rest[0].start < rest[j - 1].start;
        }
      }
    }
  }

  lemma IncreasingTail(cs: seq<Change>)
    requires Increasing(cs) && cs != []
    ensures Increasing(cs[1..])
    ensures forall c :: c in cs[1..] ==> cs[0].start < c.start
  {
  }

  ghost predicate SomeClash(os: seq<Change>, ts: seq<Change>) {
    exists oc, tc :: oc in os && tc in ts && ClashPair(oc, tc)
  }

  lemma {:induction false} ConflictsIff(base: seq<Line>, os: seq<Change>, ts: seq<Change>, s: Merged)
    requires InBounds(os, |base|) && InBounds(ts, |base|) && s.pos <= |base|
    requires Placed(s.out, s.conflicts)
    requires Increasing(os) && Increasing(ts)
    ensures |MergeFrom(base, os, ts, s).conflicts| >= |s.conflicts|
    ensures |MergeFrom(base, os, ts, s).conflicts| > |s.conflicts| <==> SomeClash(os, ts)
    decreases |os| + |ts|
  {
    if os != [] {
      IncreasingTail(os);
      assert forall oc :: oc in os ==> oc == os[0] || oc in os[1..];
    }
    if ts != [] {
      IncreasingTail(ts);
      assert forall tc :: tc in ts ==> tc == ts[0] || tc in ts[1..];
    }
    if os == [] && ts == [] {
    } else if os == [] || (ts != [] && ts[0].start < os[0].start) {
      PlacedEmit(base, s, ts[0].start, ts[0].lines, ts[0].End());
      ConflictsIff(base, os, ts[1..], Take(base, s, ts[0]));
    } else if ts == [] || os[0].start < ts[0].start {
      PlacedEmit(base, s, os[0].start, os[0].lines, os[0].End());
      ConflictsIff(base, os[1..], ts, Take(base, s, os[0]));
    } else {
      PlacedPair(base, s, os[0], ts[0]);
      assert os[0] in os && ts[0] in ts;
      ConflictsIff(base, os[1..], ts[1..], MergePair(base, s, os[0], ts[0]));
    }
  }

  /** The loop reports a conflict if and only if the two sides hold two changes at the
      same base line that do not agree. */
  lemma ConflictIffClash(differ: Differ, base: Text, ours: Text, theirs: Text)
    ensures LoopConflicts(differ, base, ours, theirs) != []
      <==> SomeClash(SideChanges(differ, base, ours), SideChanges(differ, base, theirs))
  {
    SideInBounds(differ, base, ours);
    SideInBounds(differ, base, theirs);
    SideReplays(differ, base, ours);
    SideReplays(differ, base, theirs);
    var B, os, ts := Lines(base), SideChanges(differ, base, ours), SideChanges(differ, base, theirs);
    GappedIncreasing(0, os, |B|);
    GappedIncreasing(0, ts, |B|);
    ConflictsIff(B, os, ts, Merged([], [], 0));
  }

  // ---- clean merges ------------------------------------------------------

  /** Identical, or one ends before the other starts (and they start apart). */
  predicate Apart(oc: Change, tc: Change) {
    || oc == tc
    || (oc.start < tc.start && oc.End() <= tc.start)
    || (tc.start < oc.start && tc.End() <= oc.start)
  }

  predicate Clean(os: seq<Change>, ts: seq<Change>) {
    forall oc, tc :: oc in os && tc in ts ==> Apart(oc, tc)
  }

  /** The union of both sides' changes, in base order, shared ones once. */
  function Union(os: seq<Change>, ts: seq<Change>): seq<Change>
    decreases |os| + |ts|
  {
    if os == [] then ts
    else if ts == [] then os
    else if os[0].start < ts[0].start then [os[0]] + Union(os[1..], ts)
    else if ts[0].start < os[0].start then [ts[0]] + Union(os, ts[1..])
    else [os[0]] + Union(os[1..], ts[1..])
  }

  lemma TakeReplays(base: seq<Line>, s: Merged, c: Change, rest: seq<Change>)
    requires s.pos <= c.start && Sorted(c.End(), rest, |base|)
    ensures Sorted(s.pos, [c] + rest, |base|)
    ensures s.pos <= c.End() <= |base|
    ensures Take(base, s, c).out + ReplayFrom(base, c.End(), rest) == s.out + ReplayFrom(base, s.pos, [c] + rest)
  {
    SortedBounds(c.End(), rest, |base|);
    assert ([c] + rest)[1..] == rest;
    var kept, after := base[s.pos..c.start], ReplayFrom(base, c.End(), rest);
    assert s.out + kept + c.lines + after == s.out + (kept + c.lines + after);
  }

  lemma CleanTails(os: seq<Change>, ts: seq<Change>)
    requires Clean(os, ts)
    ensures os != [] ==> Clean(os[1..], ts)
    ensures ts != [] ==> Clean(os, ts[1..])
    ensures os != [] && ts != [] ==> Clean(os[1..], ts[1..]) && Apart(os[0], ts[0])
  {
  }

  lemma {:induction false} CleanMergeFrom(base: seq<Line>, os: seq<Change>, ts: seq<Change>, s: Merged)
    requires Sorted(s.pos, os, |base|) && Sorted(s.pos, ts, |base|) && Clean(os, ts)
    ensures InBounds(os, |base|) && InBounds(ts, |base|) && s.pos <= |base|
    ensures Sorted(s.pos, Union(os, ts), |base|)
    ensures MergeFrom(base, os, ts, s).conflicts == s.conflicts
    ensures MergeFrom(base, os, ts, s).out + base[MergeFrom(base, os, ts, s).pos..]
         == s.out + ReplayFrom(base, s.pos, Union(os, ts))
    decreases |os| + |ts|
  {
    SortedBounds(s.pos, os, |base|);
    SortedBounds(s.pos, ts, |base|);
    CleanTails(os, ts);
    if os == [] && ts == [] {
    } else if os == [] || (ts != [] && ts[0].start < os[0].start) {
      CleanMergeFrom(base, os, ts[1..], Take(base, s, ts[0]));
      TakeReplays(base, s, ts[0], Union(os, ts[1..]));
      assert os == [] ==> Union(os, ts) == [ts[0]] + Union(os, ts[1..]);
    } else if ts == [] || os[0].start < ts[0].start {
      CleanMergeFrom(base, os[1..], ts, Take(base, s, os[0]));
      TakeReplays(base, s, os[0], Union(os[1..], ts));
      assert ts == [] ==> Union(os, ts) == [os[0]] + Union(os[1..], ts);
    } else {
      CleanMergeFrom(base, os[1..], ts[1..], Take(base, s, os[0]));
      TakeReplays(base, s, os[0], Union(os[1..], ts[1..]));
    }
  }

  // ---- the union is the only sorted list of all the changes ----------------

  /** `u` lists, in strictly increasing base order, exactly the changes of both sides. */
  ghost predicate IsUnion(os: seq<Change>, ts: seq<Change>, u: seq<Change>) {
    Increasing(u) && forall c :: c in u <==> c in os || c in ts
  }

  lemma {:induction false} UnionIs(os: seq<Change>, ts: seq<Change>)
    requires Increasing(os) && Increasing(ts) && Clean(os, ts)
    ensures IsUnion(os, ts, Union(os, ts))
    decreases |os| + |ts|
  {
    if os != [] && ts != [] {
      IncreasingTail(os);
      IncreasingTail(ts);
      CleanTails(os, ts);
      if os[0].start < ts[0].start {
        UnionIs(os[1..], ts);
        UnionCons(os[0], os[1..], ts, Union(os[1..], ts));
      } else if ts[0].start < os[0].start {
        UnionIs(os, ts[1..]);
        UnionCons(ts[0], os, ts[1..], Union(os, ts[1..]));
      } else {
        UnionIs(os[1..], ts[1..]);
        UnionCons(os[0], os[1..], ts[1..], Union(os[1..], ts[1..]));
      }
      assert forall c :: c in os <==> c == os[0] || c in os[1..];
      assert forall c :: c in ts <==> c == ts[0] || c in ts[1..];
    }
  }

  lemma UnionCons(c: Change, os: seq<Change>, ts: seq<Change>, u: seq<Change>)
    requires IsUnion(os, ts, u)
    requires forall x :: x in os || x in ts ==> c.start < x.start
    ensures Increasing([c] + u)
    ensures forall x :: x in [c] + u <==> x == c || x in os || x in ts
  {
  }

  lemma SameHead(u: seq<Change>, v: seq<Change>)
    requires Increasing(u) && Increasing(v) && u != [] && v != []
    requires u[0] in v && v[0] in u
    ensures u[0] == v[0]
  {
  }

  lemma SomeMember(v: seq<Change>)
    requires v != []
    ensures exists c :: c in v
  {
    assert v[0] in v;
  }

  lemma {:induction false} IncreasingUnique(u: seq<Change>, v: seq<Change>)
    requires Increasing(u) && Increasing(v)
    requires forall c :: c in u <==> c in v
    ensures u == v
  {
    if u == [] {
      if v != [] {
        SomeMember(v);
      }
    } else {
      assert u[0] in v;
      assert v[0] in u;
      SameHead(u, v);
      IncreasingTail(u);
      IncreasingTail(v);
      forall c
        ensures c in u[1..] <==> c in v[1..]
      {
        assert c in u <==> c == u[0] || c in u[1..];
        assert c in v <==> c == v[0] || c in v[1..];
      }
      IncreasingUnique(u[1..], v[1..]);
      assert u == [u[0]] + u[1..] && v == [v[0]] + v[1..];
    }
  }

  /** A clean merge is the base with the union of both sides' changes replayed: no
      conflict, and the lines are those of the one increasing list holding exactly the
      changes of the two sides. */
  lemma CleanMergeIsUnion(differ: Differ, base: Text, ours: Text, theirs: Text, u: seq<Change>)
    requires Clean(SideChanges(differ, base, ours), SideChanges(differ, base, theirs))
    requires IsUnion(SideChanges(differ, base, ours), SideChanges(differ, base, theirs), u)
    ensures LoopConflicts(differ, base, ours, theirs) == []
    ensures Sorted(0, u, |Lines(base)|)
    ensures LoopLines(differ, base, ours, theirs) == Replay(Lines(base), u)
  {
    SideReplays(differ, base, ours);
    SideReplays(differ, base, theirs);
    SideInBounds(differ, base, ours);
    SideInBounds(differ, base, theirs);
    var B, os, ts := Lines(base), SideChanges(differ, base, ours), SideChanges(differ, base, theirs);
    GappedIncreasing(0, os, |B|);
    GappedIncreasing(0, ts, |B|);
    UnionIs(os, ts);
    IncreasingUnique(u, Union(os, ts));
    CleanMergeFrom(B, os, ts, Merged([], [], 0));
    assert [] + ReplayFrom(B, 0, u) == ReplayFrom(B, 0, u);
  }

  lemma CleanSymmetric(os: seq<Change>, ts: seq<Change>)
    requires Clean(os, ts)
    ensures Clean(ts, os)
  {
  }

  // ---- ours first, then theirs where it now belongs -------------------------

  /** Net growth of the changes that start before base line `p`. */
  function GrowthBefore(os: seq<Change>, p: nat): int {
    if os == [] then 0
    else (if os[0].start < p then os[0].Growth() else 0) + GrowthBefore(os[1..], p)
  }

  lemma {:induction false} GrowthBeforeNone(os: seq<Change>, p: nat)
    requires forall oc :: oc in os ==> p <= oc.start
    ensures GrowthBefore(os, p) == 0
  {
    if os != [] {
      assert os[0] in os;
      GrowthBeforeNone(os[1..], p);
    }
  }

  /** Where a change of theirs lies once ours is in place; `shift` is the growth already
      passed. */
  function NewStart(os: seq<Change>, c: Change, shift: int): int {
    c.start + shift + GrowthBefore(os, c.start)
  }

  predicate Movable(os: seq<Change>, ts: seq<Change>, shift: int) {
    forall c :: c in ts && c !in os ==> NewStart(os, c, shift) >= 0
  }

  /** Their changes that ours has not made already, each moved by the net growth of ours'
      earlier changes. */
  function Rebased(os: seq<Change>, ts: seq<Change>, shift: int): seq<Change>
    requires Movable(os, ts, shift)
  {
    if ts == [] then []
    else
      assert Movable(os, ts[1..], shift);
      if ts[0] in os then Rebased(os, ts[1..], shift)
      else
        [Change(NewStart(os, ts[0], shift), ts[0].len, ts[0].lines)] + Rebased(os, ts[1..], shift)
  }

  /** Passing a change of ours that lies before all of theirs adds its growth to the shift. */
  lemma {:induction false} RebasePast(os: seq<Change>, ts: seq<Change>, shift: int)
    requires os != [] && forall c :: c in ts ==> os[0].start < c.start
    requires Movable(os[1..], ts, shift + os[0].Growth())
    ensures Movable(os, ts, shift)
    ensures Rebased(os, ts, shift) == Rebased(os[1..], ts, shift + os[0].Growth())
  {
    forall c | c in ts
      ensures c in os <==> c in os[1..]
      ensures NewStart(os, c, shift) == NewStart(os[1..], c, shift + os[0].Growth())
    {
      assert c in os <==> c == os[0] || c in os[1..];
    }
    if ts != [] {
      assert Movable(os[1..], ts[1..], shift + os[0].Growth());
      RebasePast(os, ts[1..], shift);
    }
  }

  /** The next change of theirs, when it comes before everything left of ours. */
  lemma RebaseNext(os: seq<Change>, ts: seq<Change>, shift: int)
    requires ts != [] && forall c :: c in os ==> ts[0].start < c.start
    requires Movable(os, ts[1..], shift) && ts[0].start + shift >= 0
    ensures Movable(os, ts, shift)
    ensures Rebased(os, ts, shift)
         == [Change(ts[0].start + shift, ts[0].len, ts[0].lines)] + Rebased(os, ts[1..], shift)
  {
    GrowthBeforeNone(os, ts[0].start);
    assert forall c :: c in ts ==> c == ts[0] || c in ts[1..];
  }

  /** A shared change disappears from theirs. */
  lemma RebaseShared(os: seq<Change>, ts: seq<Change>, shift: int)
    requires ts != [] && ts[0] in os && Movable(os, ts[1..], shift)
    ensures Movable(os, ts, shift)
    ensures Rebased(os, ts, shift) == Rebased(os, ts[1..], shift)
  {
  }

  /** What one step of ours does to the two positions. */
  lemma OursStep(base: seq<Line>, base': seq<Line>, pos: nat, pos': nat, c: Change, rest: seq<Change>)
    requires pos <= c.start && Sorted(c.End(), rest, |base|)
    requires Sorted(pos, [c] + rest, |base|)
    requires pos' <= |base'| && base'[pos'..] == ReplayFrom(base, pos, [c] + rest)
    ensures var next := pos' + (c.start - pos) + |c.lines|;
      && next <= |base'|
      && c.start <= |base|
      && base'[next..] == ReplayFrom(base, c.End(), rest)
      && base'[pos'..next] == base[pos..c.start] + c.lines
  {
    SortedBounds(c.End(), rest, |base|);
    assert ([c] + rest)[1..] == rest;
    var lead, after := base[pos..c.start] + c.lines, ReplayFrom(base, c.End(), rest);
    var tail' := base'[pos'..];
    assert tail' == lead + after;
    assert tail'[..|lead|] == lead && tail'[|lead|..] == after;
    DropTake(base', pos', |lead|);
    DropDrop(base', pos', |lead|);
  }

  /** Replaying `union` over the base reads the same as replaying theirs, rebased, over what
      ours made of it. */
  ghost predicate SameReplay(base: seq<Line>, base': seq<Line>, pos: nat, pos': nat,
                             union: seq<Change>, os: seq<Change>, ts: seq<Change>) {
    && Sorted(pos, union, |base|)
    && Movable(os, ts, pos' - pos)
    && Sorted(pos', Rebased(os, ts, pos' - pos), |base'|)
    && ReplayFrom(base', pos', Rebased(os, ts, pos' - pos)) == ReplayFrom(base, pos, union)
  }

  lemma AllAfter(c: Change, os: seq<Change>)
    requires Increasing(os) && (os != [] ==> c.start < os[0].start)
    ensures forall x :: x in os ==> c.start < x.start
  {
  }

  lemma {:induction false} RebaseReplay(base: seq<Line>, base': seq<Line>, pos: nat, pos': nat, os: seq<Change>,
                                        ts: seq<Change>)
    requires Sorted(pos, os, |base|) && Sorted(pos, ts, |base|) && Clean(os, ts)
    requires Increasing(os) && Increasing(ts)
    requires pos' <= |base'| && base'[pos'..] == ReplayFrom(base, pos, os)
    ensures SameReplay(base, base', pos, pos', Union(os, ts), os, ts)
    decreases |os| + |ts|
  {
    CleanTails(os, ts);
    if os != [] { IncreasingTail(os); }
    if ts != [] { IncreasingTail(ts); }
    if ts == [] {
      assert Union(os, ts) == os;
    } else if os == [] || ts[0].start < os[0].start {
      AllAfter(ts[0], os);
      assert ts[0] in ts && ts[0].End() <= |base| by {
        SortedBounds(pos, ts, |base|);
      }
      RebaseTheirs(base, base', pos, pos', os, ts);
    } else if os[0].start < ts[0].start {
      assert Sorted(os[0].End(), ts, |base|);
      RebaseOurs(base, base', pos, pos', os, ts, ts);
    } else {
      assert os[0] == ts[0] && os[0] in os;
      RebaseOurs(base, base', pos, pos', os, ts, ts[1..]);
      assert Movable(os, ts[1..], pos' - pos);
      RebaseShared(os, ts, pos' - pos);
    }
  }

  /** A change of ours (shared or not) comes next; `ts'` is what theirs still has after it. */
  lemma {:induction false} RebaseOurs(base: seq<Line>, base': seq<Line>, pos: nat, pos': nat,
                                      os: seq<Change>, ts: seq<Change>, ts': seq<Change>)
    requires os != [] && ts != [] && Sorted(pos, os, |base|)
    requires pos' <= |base'| && base'[pos'..] == ReplayFrom(base, pos, os)
    requires (os[0].start < ts[0].start && ts' == ts) || (os[0] == ts[0] && ts' == ts[1..])
    requires Sorted(os[0].End(), ts', |base|)
    requires Clean(os[1..], ts') && Increasing(os[1..]) && Increasing(ts')
    requires forall c :: c in ts' ==> os[0].start < c.start
    ensures SameReplay(base, base', pos, pos', Union(os, ts), os, ts')
    decreases |os| + |ts|, 0
  {
    var o := os[0];
    assert os == [o] + os[1..];
    OursStep(base, base', pos, pos', o, os[1..]);
    var next := pos' + (o.start - pos) + |o.lines|;
    RebaseReplay(base, base', o.End(), next, os[1..], ts');
    assert next - o.End() == pos' - pos + o.Growth();
    RebasePast(os, ts', pos' - pos);
    OursEmit(base, base', pos, pos', next, o, Union(os[1..], ts'), Rebased(os, ts', pos' - pos));
    assert Union(os, ts) == [o] + Union(os[1..], ts');
  }

  lemma OursEmit(base: seq<Line>, base': seq<Line>, pos: nat, pos': nat, next: nat, o: Change,
                 rest: seq<Change>, rest': seq<Change>)
    requires pos <= o.start <= |base| && Sorted(o.End(), rest, |base|)
    requires pos' <= next <= |base'| && Sorted(next, rest', |base'|)
    requires base'[pos'..next] == base[pos..o.start] + o.lines
    requires ReplayFrom(base', next, rest') == ReplayFrom(base, o.End(), rest)
    ensures Sorted(pos, [o] + rest, |base|) && Sorted(pos', rest', |base'|)
    ensures ReplayFrom(base', pos', rest') == ReplayFrom(base, pos, [o] + rest)
  {
    ReplaySkip(base', pos', next, rest');
    Tail(o, rest);
  }

  lemma {:induction false} RebaseTheirs(base: seq<Line>, base': seq<Line>, pos: nat, pos': nat,
                                        os: seq<Change>, ts: seq<Change>)
    requires ts != [] && (os == [] || ts[0].start < os[0].start)
    requires Sorted(pos, os, |base|) && Sorted(pos, ts, |base|)
    requires Sorted(ts[0].End(), os, |base|) && ts[0].End() <= |base|
    requires Clean(os, ts[1..]) && Increasing(os) && Increasing(ts[1..])
    requires forall c :: c in os ==> ts[0].start < c.start
    requires pos' <= |base'| && base'[pos'..] == ReplayFrom(base, pos, os)
    ensures SameReplay(base, base', pos, pos', Union(os, ts), os, ts)
    decreases |os| + |ts|, 0
  {
    var c, shift := ts[0], pos' - pos;
    TheirsStep(base, base', pos, pos', c, os);
    RebaseReplay(base, base', c.End(), c.End() + shift, os, ts[1..]);
    TheirsGlue(base, base', pos, pos', os, ts, Union(os, ts[1..]));
    assert Union(os, ts) == [c] + Union(os, ts[1..]);
  }

  lemma TheirsGlue(base: seq<Line>, base': seq<Line>, pos: nat, pos': nat, os: seq<Change>, ts: seq<Change>,
                   rest: seq<Change>)
    requires ts != [] && pos <= ts[0].start && ts[0].End() <= |base|
    requires forall c :: c in os ==> ts[0].start < c.start
    requires 0 <= ts[0].start + (pos' - pos) <= ts[0].End() + (pos' - pos) <= |base'|
    requires base'[pos'..ts[0].start + (pos' - pos)] == base[pos..ts[0].start]
    requires SameReplay(base, base', ts[0].End(), ts[0].End() + (pos' - pos), rest, os, ts[1..])
    ensures SameReplay(base, base', pos, pos', [ts[0]] + rest, os, ts)
  {
    var shift := pos' - pos;
    RebaseNext(os, ts, shift);
    SameStep(base, base', pos, pos', ts[0], rest, Rebased(os, ts[1..], shift));
  }

  /** One change carried out at corresponding places of two bases. */
  lemma SameStep(base: seq<Line>, base': seq<Line>, pos: nat, pos': nat, c: Change, rest: seq<Change>,
                 rest': seq<Change>)
    requires pos <= c.start && Sorted(c.End(), rest, |base|)
    requires pos' <= c.start + (pos' - pos) && Sorted(c.End() + (pos' - pos), rest', |base'|)
    requires c.start <= |base| && c.start + (pos' - pos) <= |base'|
    requires base'[pos'..c.start + (pos' - pos)] == base[pos..c.start]
    requires ReplayFrom(base', c.End() + (pos' - pos), rest') == ReplayFrom(base, c.End(), rest)
    ensures var moved := Change(c.start + (pos' - pos), c.len, c.lines);
      && Sorted(pos, [c] + rest, |base|)
      && Sorted(pos', [moved] + rest', |base'|)
      && ReplayFrom(base', pos', [moved] + rest') == ReplayFrom(base, pos, [c] + rest)
  {
    var moved := Change(c.start + (pos' - pos), c.len, c.lines);
    assert ([moved] + rest')[1..] == rest';
    assert ([c] + rest)[1..] == rest;
  }

  /** Up to a change of theirs that lies before all of ours, both bases read the same. */
  lemma TheirsStep(base: seq<Line>, base': seq<Line>, pos: nat, pos': nat, c: Change, os: seq<Change>)
    requires pos <= c.start && Sorted(c.End(), os, |base|)
    requires Sorted(pos, os, |base|)
    requires pos' <= |base'| && base'[pos'..] == ReplayFrom(base, pos, os)
    ensures c.End() <= |base|
    ensures var shift := pos' - pos;
      && 0 <= c.start + shift
      && c.End() + shift <= |base'|
      && base'[pos'..c.start + shift] == base[pos..c.start]
      && base'[c.End() + shift..] == ReplayFrom(base, c.End(), os)
  {
    SortedBounds(c.End(), os, |base|);
    ReplaySkip(base, pos, c.End(), os);
    var shift := pos' - pos;
    var lead, after := base[pos..c.End()], ReplayFrom(base, c.End(), os);
    var tail' := base'[pos'..];
    assert tail' == lead + after;
    var n := c.start - pos;
    assert tail'[..n] == lead[..n] == base[pos..c.start];
    assert tail'[|lead|..] == after;
    DropTake(base', pos', n);
    DropDrop(base', pos', |lead|);
  }

  /** Patch commutation: a clean merge is ours, followed by their remaining changes at the
      places ours has moved them to. */
  lemma CleanMergeIsRebase(differ: Differ, base: Text, ours: Text, theirs: Text)
    requires Clean(SideChanges(differ, base, ours), SideChanges(differ, base, theirs))
    ensures var os, ts := SideChanges(differ, base, ours), SideChanges(differ, base, theirs);
      && Movable(os, ts, 0)
      && Sorted(0, Rebased(os, ts, 0), |Lines(ours)|)
      && LoopLines(differ, base, ours, theirs) == Replay(Lines(ours), Rebased(os, ts, 0))
  {
    SideReplays(differ, base, ours);
    SideReplays(differ, base, theirs);
    var os, ts := SideChanges(differ, base, ours), SideChanges(differ, base, theirs);
    RebaseClean(Lines(base), Lines(ours), os, ts);
    CleanMergeIsUnion(differ, base, ours, theirs, Union(os, ts));
  }

  lemma RebaseClean(base: seq<Line>, ours: seq<Line>, os: seq<Change>, ts: seq<Change>)
    requires Sorted(0, os, |base|) && Gapped(os) && Sorted(0, ts, |base|) && Gapped(ts) && Clean(os, ts)
    requires Replay(base, os) == ours
    ensures IsUnion(os, ts, Union(os, ts)) && Sorted(0, Union(os, ts), |base|)
    ensures Movable(os, ts, 0) && Sorted(0, Rebased(os, ts, 0), |ours|)
    ensures Replay(ours, Rebased(os, ts, 0)) == Replay(base, Union(os, ts))
  {
    GappedIncreasing(0, os, |base|);
    GappedIncreasing(0, ts, |base|);
    RebaseAll(base, ours, os, ts);
    UnionIs(os, ts);
  }

  lemma RebaseAll(base: seq<Line>, ours: seq<Line>, os: seq<Change>, ts: seq<Change>)
    requires Sorted(0, os, |base|) && Increasing(os) && Sorted(0, ts, |base|) && Increasing(ts) && Clean(os, ts)
    requires Replay(base, os) == ours
    ensures SameReplay(base, ours, 0, 0, Union(os, ts), os, ts)
  {
    assert ours[0..] == ours;
    RebaseReplay(base, ours, 0, 0, os, ts);
  }

  // ---- the early returns -------------------------------------------------

  lemma LinesOfTerminated(s: Text, nl: bool)
    ensures Lines(Terminated(s, nl)) == Lines(s)
  {
    if nl && s != "" && !EndsNl(s) {
      JoinOfLines(s);
      LinesEmpty(s);
      LinesOfJoinNl(Lines(s));
    }
  }

  lemma {:induction false} CleanWithSelf(pos: nat, cs: seq<Change>, n: nat)
    requires Sorted(pos, cs, n) && Gapped(cs)
    ensures Clean(cs, cs)
    decreases |cs|
  {
    if cs != [] {
      var rest := cs[1..];
      GappedTail(cs);
      CleanWithSelf(cs[0].End(), rest, n);
      SortedBounds(cs[0].End(), rest, n);
      GappedIncreasing(pos, cs, n);
      IncreasingTail(cs);
      forall x, y | x in cs && y in cs
        ensures Apart(x, y)
      {
        assert x == cs[0] || x in rest;
        assert y == cs[0] || y in rest;
      }
    }
  }

  /** The general loop on equal sides, or with one side unchanged, reports no conflict and
      gives the side that changed. */
  lemma LoopOnEasyInputs(differ: Differ, base: Text, ours: Text, theirs: Text)
    requires ours == theirs || base == theirs || base == ours
    ensures LoopConflicts(differ, base, ours, theirs) == []
    ensures LoopLines(differ, base, ours, theirs) == Lines(if base == ours then theirs else ours)
  {
    var side := if base == ours then theirs else ours;
    var os, ts := SideChanges(differ, base, ours), SideChanges(differ, base, theirs);
    var B, cs := Lines(base), SideChanges(differ, base, side);
    SideReplays(differ, base, side);
    GappedIncreasing(0, cs, |B|);
    if ours == theirs {
      CleanWithSelf(0, cs, |B|);
    } else {
      assert os == [] || ts == [];
    }
    assert IsUnion(os, ts, cs);
    CleanMergeIsUnion(differ, base, ours, theirs, cs);
  }

  /** Early return or not, `merge_texts` reports the loop's conflicts, and the lines of its
      text are the loop's lines, up to the one empty final line that rendering can lose. */
  lemma MergeIsLoop(differ: Differ, base: Text, ours: Text, theirs: Text)
    ensures MergeOf(differ, base, ours, theirs).conflicts == LoopConflicts(differ, base, ours, theirs)
    ensures var lines := LoopLines(differ, base, ours, theirs);
      var got := Lines(MergeOf(differ, base, ours, theirs).text);
      if ours == theirs || base == theirs || base == ours || Faithful(lines, AnyNl(base, ours, theirs))
      then got == lines
      else lines == got + [""]
  {
    if ours == theirs || base == theirs || base == ours {
      LoopOnEasyInputs(differ, base, ours, theirs);
      LinesOfTerminated(ours, AnyNl(base, ours, theirs));
      LinesOfTerminated(theirs, AnyNl(base, ours, theirs));
    } else {
      LinesOfRender(LoopLines(differ, base, ours, theirs), AnyNl(base, ours, theirs));
    }
  }

  /** As texts, an early return differs from the loop's rendering on a lone newline only. */
  lemma EarlyReturnText(differ: Differ, base: Text, ours: Text, theirs: Text)
    requires ours == theirs || base == theirs || base == ours
    ensures MergeOf(differ, base, ours, theirs).text
         == Render(LoopLines(differ, base, ours, theirs), AnyNl(base, ours, theirs))
      <==> MergeOf(differ, base, ours, theirs).text != "\n"
  {
    LoopOnEasyInputs(differ, base, ours, theirs);
    var nl := AnyNl(base, ours, theirs);
    var side := if base == ours then theirs else ours;
    LinesOfTerminated(side, nl);
    RenderOfLines(Terminated(side, nl), nl);
  }

  /** Swapping the sides of a clean merge changes nothing. */
  lemma CleanMergeCommutes(differ: Differ, base: Text, ours: Text, theirs: Text)
    requires Clean(SideChanges(differ, base, ours), SideChanges(differ, base, theirs))
    ensures LoopLines(differ, base, ours, theirs) == LoopLines(differ, base, theirs, ours)
    ensures MergeOf(differ, base, ours, theirs) == MergeOf(differ, base, theirs, ours)
    ensures MergeOf(differ, base, ours, theirs).conflicts == []
  {
    var B, os, ts := Lines(base), SideChanges(differ, base, ours), SideChanges(differ, base, theirs);
    SideReplays(differ, base, ours);
    SideReplays(differ, base, theirs);
    GappedIncreasing(0, os, |B|);
    GappedIncreasing(0, ts, |B|);
    CleanSymmetric(os, ts);
    UnionIs(os, ts);
    var u := Union(os, ts);
    assert IsUnion(ts, os, u);
    CleanMergeIsUnion(differ, base, ours, theirs, u);
    CleanMergeIsUnion(differ, base, theirs, ours, u);
    MergeIsLoop(differ, base, ours, theirs);
    MergeIsLoop(differ, base, theirs, ours);
  }
}
