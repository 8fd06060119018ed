/** Folding a chain of diffs over a file's content (`apply_deltas`, src/engine/merge.rs). */
module Chains {
  import opened Texts
  import opened LineDiffs
  import opened Results
  import opened Patch
  import opened Diff
  import opened Seqs

  function FoldLines(lines: seq<Line>, diffs: seq<LineDiff>): Patched
    decreases |diffs|
  {
    if diffs == [] then Ok(lines)
    else
      match Apply(lines, diffs[0])
      case Err(e) => Err(e)
      case Ok(next) => FoldLines(next, diffs[1..])
  }

  function ApplyDiffs(content: Text, diffs: seq<LineDiff>): Result<Text, PatchError> {
    if diffs == [] then Ok(content)
    else
      match FoldLines(Lines(content), diffs)
      case Err(e) => Err(e)
      case Ok(lines) => Ok(Render(lines, EndsNl(content)))
  }

  method ApplyDeltas(content: Text, diffs: seq<LineDiff>) returns (r: Result<Text, PatchError>)
    ensures r == ApplyDiffs(content, diffs)
  {
    if |diffs| == 0 {
      return Ok(content);
    }
    var hasTrailingNewline := EndsNl(content);
    var lines := Lines(content);
    assert diffs[0..] == diffs;
    for k := 0 to |diffs|
      invariant FoldLines(lines, diffs[k..]) == FoldLines(Lines(content), diffs)
    {
      assert diffs[k..][1..] == diffs[k + 1..];
      var next := ApplyLineDiff(lines, diffs[k]);
      if next.Err? {
        return Err(next.error);
      }
      lines := next.value;
    }
    var result := Join(lines);
    if hasTrailingNewline && result != "" {
      return Ok(result + "\n");
    }
    return Ok(result);
  }

  // ---- laws ------------------------------------------------------------

  /** Line-level application composes over chain concatenation. */
  lemma {:induction false} FoldConcat(lines: seq<Line>, a: seq<LineDiff>, b: seq<LineDiff>)
    ensures FoldLines(lines, a + b)
         == match FoldLines(lines, a) case Err(e) => Err(e) case Ok(mid) => FoldLines(mid, b)
    decreases |a|
  {
    if a == [] {
      assert a + b == b;
    } else {
      assert (a + b)[1..] == a[1..] + b;
      match Apply(lines, a[0])
      case Err(e) =>
      case Ok(next) => FoldConcat(next, a[1..], b);
    }
  }

  /** One more diff at the end of a chain. */
  lemma FoldSnoc(lines: seq<Line>, diffs: seq<LineDiff>, d: LineDiff)
    requires FoldLines(lines, diffs).Ok?
    ensures FoldLines(lines, diffs + [d]) == Apply(FoldLines(lines, diffs).value, d)
  {
    FoldConcat(lines, diffs, [d]);
    var mid := FoldLines(lines, diffs).value;
    match Apply(mid, d)
    case Err(e) =>
    case Ok(next) => assert FoldLines(next, [d][1..]) == Ok(next);
  }

  /** The diffs between successive texts. */
  function ChainOf(differ: Differ, texts: seq<Text>): seq<LineDiff>
    requires texts != []
  {
    if |texts| == 1 then []
    else [DiffTexts(differ, texts[0], texts[1])] + ChainOf(differ, texts[1..])
  }

  lemma {:induction false} FoldChain(differ: Differ, texts: seq<Text>)
    requires texts != []
    ensures FoldLines(Lines(texts[0]), ChainOf(differ, texts)) == Ok(Lines(texts[|texts| - 1]))
  {
    if |texts| > 1 {
      DiffRoundTrip(differ, texts[0], texts[1]);
      FoldChain(differ, texts[1..]);
      Tail(DiffTexts(differ, texts[0], texts[1]), ChainOf(differ, texts[1..]));
    }
  }

  /** A chain of successive diffs never errs, and gives back the last text byte for byte
      exactly when that text's final newline agrees with the base's. */
  lemma ChainRoundTrip(differ: Differ, texts: seq<Text>)
    requires |texts| > 1
    ensures var base, last := texts[0], texts[|texts| - 1];
      var r := ApplyDiffs(base, ChainOf(differ, texts));
      && r.Ok?
      && Lines(r.value) + (if Faithful(Lines(last), EndsNl(base)) then [] else [""]) == Lines(last)
      && (r == Ok(last) <==> Renderable(last, EndsNl(base)))
  {
    var base, last := texts[0], texts[|texts| - 1];
    assert ApplyDiffs(base, ChainOf(differ, texts)) == Ok(Render(Lines(last), EndsNl(base))) by {
      FoldChain(differ, texts);
    }
    LinesOfRender(Lines(last), EndsNl(base));
    RenderOfLines(last, EndsNl(base));
  }
}
