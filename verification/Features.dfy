/** Staging features one after the other (src/layered/staged.rs). */
module Features {
  import opened Texts
  import opened Results
  import opened Diff
  import opened Changes
  import opened Merge
  import opened MergeLaws
  import opened Objects
  import opened World
  import opened Pipeline
  import opened Heads
  import opened Discipline
  import opened Delivery
  import opened Teams

  // ---- one feature --------------------------------------------------------------------

  /** The delta that staging a feature's text writes. */
  function StageDelta(differ: Differ, head: SnapshotId, staged: SnapshotId, text: Text): DeltaId {
    DeltaId(PureFile(head, staged), DiffTexts(differ, Reading(staged), text), ManualSource)
  }

  /** What is read after staging `head` over its baseline, and the flag. */
  lemma StagedTextIff(differ: Differ, base: SnapshotId, staged: SnapshotId, head: SnapshotId)
    requires Readable(staged) && Readable(base) && base.file == staged.file
    ensures LinesOf(staged).Ok?
    ensures var merged := MergeOf(differ, Reading(base), Reading(staged), Reading(head));
      var next := StageHead(differ, base, staged, head);
      && Readable(next) && next.file == staged.file
      && (Reading(next) == merged.text <==>
          || merged.text == Reading(staged)
          || (StageDelta(differ, head, staged, merged.text) !in staged.deltas && Survives(staged, merged.text)))
      && next.hasConflicts == (if head == staged || merged.text == Reading(staged) then staged.hasConflicts
                               else merged.conflicts != [])
  {
    StageReads(differ, base, staged, head);
    AfterIs(differ, staged, PureFile(head, staged), ManualSource,
            MergeOf(differ, Reading(base), Reading(staged), Reading(head)).text);
    if head == staged {
      SameText(differ, base, staged);
    }
  }

  /** Staging what is staged already: a newline that the baseline would lend does not survive. */
  lemma SameText(differ: Differ, base: SnapshotId, staged: SnapshotId)
    requires Readable(staged) && Readable(base) && base.file == staged.file
    ensures LinesOf(staged).Ok?
    ensures var text := MergeOf(differ, Reading(base), Reading(staged), Reading(staged)).text;
      text == Reading(staged) || !Survives(staged, text)
  {
    OwnText(staged);
    ReadingIsRendered(staged);
    RewrittenEnds(staged, Reading(staged));
    if EndsNl(Content(staged)) {
      RenderEnds(LinesOf(staged).value);
    } else if !Shows(staged) {
      BlankEnds(Lines(Reading(staged)));
    }
  }

  lemma StageRun(differ: Differ, rows: Rows, features: seq<string>)
    ensures RowRun(differ, rows, [StageFeatures(features)]) == StageRows(differ, rows, features)
  {
    var run := [StageFeatures(features)];
    assert run[1..] == [];
    assert RowRun(differ, rows, run) == RowRun(differ, RowStep(differ, rows, StageFeatures(features)), []);
  }

  /** A feature over a baseline. */
  predicate Standing(rows: Rows, feature: string, base: SnapshotId, head: SnapshotId) {
    && Integrated(feature) in rows && rows[Integrated(feature)].history != []
    && rows[Integrated(feature)].history[0] == base && rows[Integrated(feature)].current == head
  }

  /** Baselines, heads and staged are readable and over one file. */
  lemma StandingIs(differ: Differ, run: seq<Action>, feature: string, base: SnapshotId, staged: SnapshotId,
                   head: SnapshotId)
    requires var rows := Run(differ, EMPTY, run).partitions;
      Standing(rows, feature, base, head) && Staged in rows && rows[Staged].current == staged
    ensures Readable(base) && Readable(staged) && Readable(head)
    ensures head.file == base.file == staged.file
  {
    var w := Run(differ, EMPTY, run);
    assert Good(w) by {
      RowsOfRun(differ, run, []);
    }
    StoredReads(w, Staged);
    StoredReads(w, Integrated(feature));
    BaselineReads(w, Integrated(feature));
    BaselinesAreUnowned(differ, run, Integrated(feature));
  }

  lemma BaselineReads(w: Tables, p: PartitionType)
    requires Good(w) && p in w.partitions && w.partitions[p].history != []
    ensures Readable(w.partitions[p].history[0])
  {
    var id := w.partitions[p].history[0];
    assert Pipeline.Sound(w, w.partitions[p]) && id in w.partitions[p].history;
    assert Complete(w, id);
  }

  lemma OneStaged(differ: Differ, rows: Rows, f: string, base: SnapshotId, staged: SnapshotId, head: SnapshotId)
    requires Standing(rows, f, base, head) && Staged in rows && rows[Staged].current == staged
    ensures var next := RowRun(differ, rows, [StageFeatures([f])]);
      Staged in next && next[Staged].current == StageHead(differ, base, staged, head)
  {
    StageRun(differ, rows, [f]);
    assert [f][1..] == [];
    assert StageRows(differ, rows, [f]) == StageRows(differ, StageRow(differ, rows, f), []);
  }

  /** After any run, for any feature, moved or not, and wherever staged is: staging it makes
      staged read as the three-way merge of baseline, staged and feature if and only if it did
      before, or the delta is new to the staged chain and the merge survives. The flag is the
      last merge's. */
  lemma FeatureIsStaged(differ: Differ, run: seq<Action>, feature: string, base: SnapshotId, staged: SnapshotId,
                        head: SnapshotId)
    requires var rows := Run(differ, EMPTY, run).partitions;
      Standing(rows, feature, base, head) && Staged in rows && rows[Staged].current == staged
    ensures Readable(staged) && LinesOf(staged).Ok?
    ensures var w := Run(differ, EMPTY, run + [StageFeatures([feature])]);
      var merged := MergeOf(differ, Reading(base), Reading(staged), Reading(head));
      && Staged in w.partitions && w.partitions[Staged].current in w.snapshots
      && (ReconstructText(w, w.snapshots[w.partitions[Staged].current]) == Ok(merged.text) <==>
          || merged.text == Reading(staged)
          || (StageDelta(differ, head, staged, merged.text) !in staged.deltas && Survives(staged, merged.text)))
      && w.partitions[Staged].current.hasConflicts
         == (if head == staged || merged.text == Reading(staged) then staged.hasConflicts else merged.conflicts != [])
  {
    var w := Run(differ, EMPTY, run + [StageFeatures([feature])]);
    RowsOfRun(differ, run, [StageFeatures([feature])]);
    OneStaged(differ, Run(differ, EMPTY, run).partitions, feature, base, staged, head);
    StandingIs(differ, run, feature, base, staged, head);
    StagedTextIff(differ, base, staged, head);
    StoredReads(w, Staged);
  }

  // ---- two features, in turn --------------------------------------------------------------

  lemma TwoStaged(differ: Differ, rows: Rows, f: string, g: string, base: SnapshotId, hf: SnapshotId, hg: SnapshotId)
    requires Standing(rows, f, base, hf) && Standing(rows, g, base, hg)
    requires Staged in rows && rows[Staged].current == base
    ensures var next := RowRun(differ, rows, [StageFeatures([f, g])]);
      && Staged in next
      && next[Staged].current == StageHead(differ, base, StageHead(differ, base, base, hf), hg)
  {
    StageRun(differ, rows, [f, g]);
    var next := StageRow(differ, rows, f);
    assert [f, g][1..] == [g] && [g][1..] == [];
    assert StageRows(differ, rows, [f, g]) == StageRows(differ, next, [g]);
    assert StageRows(differ, next, [g]) == StageRows(differ, StageRow(differ, next, g), []);
  }

  /** The two texts change the baseline apart from each other, `u` being the union. */
  ghost predicate TextsApart(differ: Differ, base: Text, nl: bool, one: Text, two: Text, u: seq<Change>) {
    && Clean(SideChanges(differ, base, one), SideChanges(differ, base, two))
    && IsUnion(SideChanges(differ, base, one), SideChanges(differ, base, two), u)
    && Sorted(0, u, |Lines(base)|) && Faithful(Replay(Lines(base), u), nl)
  }

  /** Staging the feature at the baseline writes a delta new to it, or changes nothing. */
  predicate FreshFirst(differ: Differ, base: SnapshotId, head: SnapshotId) {
    Reading(head) == Reading(base) || StageDelta(differ, head, base, Reading(head)) !in base.deltas
  }

  lemma ApartLines(differ: Differ, base: Text, nl: bool, one: Text, two: Text, u: seq<Change>)
    requires TextsApart(differ, base, nl, one, two, u)
    ensures LoopConflicts(differ, base, one, two) == [] && LoopLines(differ, base, one, two) == Replay(Lines(base), u)
  {
    CleanMergeIsUnion(differ, base, one, two, u);
  }

  /** Texts that end alike, merged early or by the loop. */
  lemma SameEnds(differ: Differ, base: Text, nl: bool, one: Text, two: Text)
    requires Renderable(base, nl) && Renderable(one, nl) && Renderable(two, nl)
    ensures var text := MergeOf(differ, base, one, two).text;
      Renderable(text, nl) || text == Render(LoopLines(differ, base, one, two), nl)
  {
  }

  lemma ApartMerge(differ: Differ, base: Text, nl: bool, one: Text, two: Text, u: seq<Change>)
    requires TextsApart(differ, base, nl, one, two, u)
    requires Renderable(base, nl) && Renderable(one, nl) && Renderable(two, nl)
    ensures MergeOf(differ, base, one, two) == MergeOutput(Render(Replay(Lines(base), u), nl), [])
    ensures Renderable(Render(Replay(Lines(base), u), nl), nl)
  {
    var text := MergeOf(differ, base, one, two).text;
    ApartLines(differ, base, nl, one, two, u);
    SameEnds(differ, base, nl, one, two);
    RenderedIs(Replay(Lines(base), u), nl);
    MergeIsLoop(differ, base, one, two);
    if Renderable(text, nl) {
      RenderOfLines(text, nl);
    }
  }

  lemma ApartSwapped(differ: Differ, base: Text, nl: bool, one: Text, two: Text, u: seq<Change>)
    requires TextsApart(differ, base, nl, one, two, u)
    ensures TextsApart(differ, base, nl, two, one, u)
  {
    CleanSymmetric(SideChanges(differ, base, one), SideChanges(differ, base, two));
  }

  /** After the first feature staged shows its text. */
  lemma FirstTurn(differ: Differ, base: SnapshotId, head: SnapshotId)
    requires Shows(base) && Shows(head) && head.file == base.file && FreshFirst(differ, base, head)
    ensures var next := StageHead(differ, base, base, head);
      && Shows(next) && next.file == base.file && Reading(next) == Reading(head)
      && (next.hasConflicts ==> base.hasConflicts)
  {
    var text, nl := Reading(head), EndsNl(Content(base));
    ReadingIsRendered(base);
    ReadingIsRendered(head);
    EarlyMerge(differ, Reading(base), text, nl);
    if head != base && text != Reading(base) {
      RenderableIsFaithful(text, nl);
      RenderOfLines(text, nl);
      ShowsAfter(differ, base, StageHead(differ, base, base, head), PureFile(head, base), ManualSource, text);
    }
  }

  /** After the second one it reads as the union exactly when that was there or is new. */
  lemma SecondTurn(differ: Differ, base: SnapshotId, staged: SnapshotId, head: SnapshotId, u: seq<Change>)
    requires Shows(base) && Shows(staged) && Shows(head) && staged.file == base.file && head.file == base.file
    requires TextsApart(differ, Reading(base), EndsNl(Content(base)), Reading(staged), Reading(head), u)
    ensures var union := Render(Replay(Lines(Reading(base)), u), EndsNl(Content(base)));
      var next := StageHead(differ, base, staged, head);
      && (Reading(next) == union <==>
            union == Reading(staged) || StageDelta(differ, head, staged, union) !in staged.deltas)
      && (next.hasConflicts ==> staged.hasConflicts)
  {
    var nl := EndsNl(Content(base));
    ReadingIsRendered(base);
    ReadingIsRendered(staged);
    ReadingIsRendered(head);
    ApartMerge(differ, Reading(base), nl, Reading(staged), Reading(head), u);
    StagedTextIff(differ, base, staged, head);
  }

  /** After any run, for two features over one baseline where staged has not moved, whose texts
      change it apart from each other: once they are staged one after the other, staged reads
      as the baseline with both replayed if and only if it did after the first, or the second
      one's delta is new. No flag is raised. The first one's delta must be new, or it would be
      dropped. */
  lemma FeaturesInTurn(differ: Differ, run: seq<Action>, f: string, g: string, base: SnapshotId, hf: SnapshotId,
                       hg: SnapshotId, u: seq<Change>)
    requires BothStanding(Run(differ, EMPTY, run).partitions, f, g, base, hf, hg)
    requires Shows(base) && Shows(hf) && Shows(hg) && FreshFirst(differ, base, hf)
    requires TextsApart(differ, Reading(base), EndsNl(Content(base)), Reading(hf), Reading(hg), u)
    ensures var w := Run(differ, EMPTY, run + [StageFeatures([f, g])]);
      var union := Render(Replay(Lines(Reading(base)), u), EndsNl(Content(base)));
      var next := StageHead(differ, base, base, hf);
      && Staged in w.partitions && w.partitions[Staged].current in w.snapshots
      && (ReconstructText(w, w.snapshots[w.partitions[Staged].current]) == Ok(union) <==>
            union == Reading(hf) || StageDelta(differ, hg, next, union) !in next.deltas)
      && (w.partitions[Staged].current.hasConflicts ==> base.hasConflicts)
  {
    var w := Run(differ, EMPTY, run + [StageFeatures([f, g])]);
    RowsOfRun(differ, run, [StageFeatures([f, g])]);
    TwoStaged(differ, Run(differ, EMPTY, run).partitions, f, g, base, hf, hg);
    StandingIs(differ, run, f, base, base, hf);
    StandingIs(differ, run, g, base, base, hg);
    FirstTurn(differ, base, hf);
    SecondTurn(differ, base, StageHead(differ, base, base, hf), hg, u);
    StoredReads(w, Staged);
  }

  predicate BothStanding(rows: Rows, f: string, g: string, base: SnapshotId, hf: SnapshotId, hg: SnapshotId) {
    && Standing(rows, f, base, hf) && Standing(rows, g, base, hg)
    && Staged in rows && rows[Staged].current == base
  }

  /** The second delta is new where the first has left staged, or changes nothing. */
  predicate FreshSecond(differ: Differ, base: SnapshotId, hf: SnapshotId, hg: SnapshotId, union: Text) {
    var next := StageHead(differ, base, base, hf);
    union == Reading(hf) || StageDelta(differ, hg, next, union) !in next.deltas
  }

  /** So, while no delta repeats, the order does not matter: either way staged reads as the
      baseline with both features' changes replayed. */
  lemma FeaturesInEitherOrder(differ: Differ, run: seq<Action>, f: string, g: string, base: SnapshotId,
                              hf: SnapshotId, hg: SnapshotId, u: seq<Change>)
    requires BothStanding(Run(differ, EMPTY, run).partitions, f, g, base, hf, hg)
    requires Shows(base) && Shows(hf) && Shows(hg) && FreshFirst(differ, base, hf) && FreshFirst(differ, base, hg)
    requires TextsApart(differ, Reading(base), EndsNl(Content(base)), Reading(hf), Reading(hg), u)
    requires var union := Render(Replay(Lines(Reading(base)), u), EndsNl(Content(base)));
      FreshSecond(differ, base, hf, hg, union) && FreshSecond(differ, base, hg, hf, union)
    ensures var v := Run(differ, EMPTY, run + [StageFeatures([f, g])]);
      var w := Run(differ, EMPTY, run + [StageFeatures([g, f])]);
      var union := Render(Replay(Lines(Reading(base)), u), EndsNl(Content(base)));
      && Staged in v.partitions && v.partitions[Staged].current in v.snapshots
      && Staged in w.partitions && w.partitions[Staged].current in w.snapshots
      && ReconstructText(v, v.snapshots[v.partitions[Staged].current]) == Ok(union)
      && ReconstructText(w, w.snapshots[w.partitions[Staged].current]) == Ok(union)
  {
    FeaturesInTurn(differ, run, f, g, base, hf, hg, u);
    ApartSwapped(differ, Reading(base), EndsNl(Content(base)), Reading(hf), Reading(hg), u);
    FeaturesInTurn(differ, run, g, f, base, hg, hf, u);
  }
}
