/** Text as the engine sees it: strings, the lines `str::lines` cuts them into, the
    newline-carrying tokens the differ compares, and the join that rebuilds a string.
    Texts hold no carriage return (README.md says what that leaves out). */
module Texts {

  predicate IsText(s: string) {
    '\r' !in s
  }

  type Text = s: string | IsText(s)

  predicate IsLine(s: string) {
    '\n' !in s && '\r' !in s
  }

  type Line = s: string | IsLine(s)

  predicate EndsNl(s: string) {
    |s| > 0 && s[|s| - 1] == '\n'
  }

  /** A line, with or without its newline. */
  predicate IsToken(s: string) {
    IsLine(if EndsNl(s) then s[..|s| - 1] else s)
  }

  type Token = s: string | IsToken(s)

  // ---- cutting ---------------------------------------------------------

  /** Position of the first newline, or the length when there is none. */
  function FirstNl(s: string): (k: nat)
    ensures k <= |s|
    ensures '\n' !in s[..k]
    ensures k < |s| ==> s[k] == '\n'
  {
    if s == "" || s[0] == '\n' then 0
    else
      var r := FirstNl(s[1..]);
      assert s[..1 + r] == [s[0]] + s[1..][..r];
      1 + r
  }

  /** What the differ compares: pieces that keep their newline. */
  function Tokens(s: Text): seq<Token> {
    if s == "" then []
    else
      var k := FirstNl(s);
      if k == |s| then
        assert s[..k] == s;
        [s]
      else
        assert s[..k + 1][..k] == s[..k];
        [s[..k + 1]] + Tokens(s[k + 1..])
  }

  /** `str::lines`: pieces without their newline, no empty piece after a final newline. */
  function Lines(s: Text): seq<Line> {
    if s == "" then []
    else
      var k := FirstNl(s);
      [s[..k]] + if k == |s| then [] else Lines(s[k + 1..])
  }

  function TrimEnd(s: string): string {
    if |s| > 0 && (s[|s| - 1] == '\n' || s[|s| - 1] == '\r') then TrimEnd(s[..|s| - 1]) else s
  }

  /** `strip_newline` of the diff engine. */
  function StripNewline(t: Token): (l: Line)
    ensures l == if EndsNl(t) then t[..|t| - 1] else t
  {
    assert EndsNl(t) ==> TrimEnd(t[..|t| - 1]) == t[..|t| - 1];
    TrimEnd(t)
  }

  function StripAll(ts: seq<Token>): (ls: seq<Line>)
    ensures |ls| == |ts|
    ensures forall i :: 0 <= i < |ts| ==> ls[i] == StripNewline(ts[i])
  {
    seq(|ts|, i requires 0 <= i < |ts| => StripNewline(ts[i]))
  }

  // ---- joining ---------------------------------------------------------

  function Join(ls: seq<Line>): Text {
    if |ls| == 0 then ""
    else if |ls| == 1 then ls[0]
    else ls[0] + "\n" + Join(ls[1..])
  }

  /** `lines.join("\n")`, with a final newline unless the result is empty. */
  function Render(ls: seq<Line>, trailing: bool): Text {
    var s := Join(ls);
    if trailing && s != "" then s + "\n" else s
  }

  // ---- laws ------------------------------------------------------------

  /** The differ's tokens and the patcher's lines count the same pieces. */
  lemma {:induction false} LinesAreStrippedTokens(s: Text)
    ensures StripAll(Tokens(s)) == Lines(s)
  {
    if s != "" {
      var k := FirstNl(s);
      if k < |s| {
        CutToken(s, k);
        LinesAreStrippedTokens(s[k + 1..]);
        StripAllCons(s[..k + 1], Tokens(s[k + 1..]));
      } else {
        LastToken(s);
        StripAllCons(s, []);
      }
    }
  }

  /** One step of both cutters. */
  lemma CutToken(s: Text, k: nat)
    requires k == FirstNl(s) < |s|
    ensures Tokens(s) == [s[..k + 1]] + Tokens(s[k + 1..])
    ensures Lines(s) == [s[..k]] + Lines(s[k + 1..])
    ensures StripNewline(s[..k + 1]) == s[..k]
  {
    StripFirst(s, k);
  }

  lemma StripFirst(s: Text, k: nat)
    requires k < |s| && s[k] == '\n' && IsToken(s[..k + 1])
    ensures StripNewline(s[..k + 1]) == s[..k]
  {
    assert s[..k + 1][..k] == s[..k];
  }

  lemma LastToken(s: Text)
    requires s != "" && FirstNl(s) == |s|
    ensures Tokens(s) == [s] + [] && Lines(s) == [s] + [] && StripNewline(s) == s
  {
    assert s[..|s|] == s && !EndsNl(s);
  }

  lemma StripAllCons(t: Token, ts: seq<Token>)
    ensures StripAll([t] + ts) == [StripNewline(t)] + StripAll(ts)
  {
  }

  lemma {:induction false} FirstNlIs(s: string, k: nat)
    requires k <= |s| && '\n' !in s[..k]
    requires k < |s| ==> s[k] == '\n'
    ensures FirstNl(s) == k
  {
  }

  lemma JoinCons(l: Line, ls: seq<Line>)
    ensures Join([l] + ls) == if ls == [] then l else l + "\n" + Join(ls)
  {
  }

  /** What joining the lines of a text gives back: all of it but the final newline. */
  function Chopped(s: Text): Text {
    if EndsNl(s) then s[..|s| - 1] else s
  }

  lemma ChoppedCons(l: Line, rest: Text)
    ensures Chopped(l + "\n" + rest) == if rest == "" then l else l + "\n" + Chopped(rest)
  {
  }

  lemma LinesEmpty(s: Text)
    ensures Lines(s) == [] <==> s == ""
  {
  }

  lemma {:induction false} JoinOfLines(s: Text)
    ensures Join(Lines(s)) == Chopped(s)
  {
    if s != "" {
      var k := FirstNl(s);
      if k == |s| {
        assert s[..k] == s && !EndsNl(s);
        assert Lines(s) == [s];
      } else {
        var rest := s[k + 1..];
        assert s == s[..k] + "\n" + rest;
        JoinOfLines(rest);
        JoinCons(s[..k], Lines(rest));
        ChoppedCons(s[..k], rest);
        LinesEmpty(rest);
      }
    }
  }

  /** Cutting off a first line cuts off its token. */
  lemma CutFirst(l: Line, rest: Text)
    ensures Lines(l + "\n" + rest) == [l] + Lines(rest)
  {
    var s := l + "\n" + rest;
    assert s[..|l|] == l && s[|l| + 1..] == rest;
    FirstNlIs(s, |l|);
  }

  lemma CutOnly(l: Line)
    requires l != ""
    ensures Lines(l) == [l]
  {
    assert l[..|l|] == l;
    FirstNlIs(l, |l|);
  }

  lemma {:induction false} LinesOfJoinNl(ls: seq<Line>)
    requires |ls| > 0
    ensures Lines(Join(ls) + "\n") == ls
  {
    if |ls| == 1 {
      CutFirst(ls[0], "");
      assert ls[0] + "\n" + "" == ls[0] + "\n" && Join(ls) == ls[0] && [ls[0]] + [] == ls;
    } else {
      LinesOfJoinNl(ls[1..]);
      JoinedNlAfter(ls[0], ls[1..]);
      assert ls == [ls[0]] + ls[1..];
    }
  }

  lemma JoinedNlAfter(l: Line, rest: seq<Line>)
    requires rest != [] && Lines(Join(rest) + "\n") == rest
    ensures Lines(Join([l] + rest) + "\n") == [l] + rest
  {
    JoinCons(l, rest);
    CutFirst(l, Join(rest) + "\n");
    assert l + "\n" + (Join(rest) + "\n") == Join([l] + rest) + "\n";
  }

  /** Joined lines come back as the same lines, except that a final empty one is lost. */
  lemma {:induction false} LinesOfJoin(ls: seq<Line>)
    ensures Lines(Join(ls)) == WithoutBlank(ls)
  {
    if |ls| == 1 {
      if ls[0] != "" {
        CutOnly(ls[0]);
      }
      assert Join(ls) == ls[0];
    } else if ls != [] {
      var l, rest := ls[0], ls[1..];
      LinesOfJoin(rest);
      JoinedAfter(l, rest);
      assert ls == [l] + rest;
    }
  }

  function WithoutBlank(ls: seq<Line>): seq<Line> {
    if |ls| > 0 && ls[|ls| - 1] == "" then ls[..|ls| - 1] else ls
  }

  lemma JoinedAfter(l: Line, rest: seq<Line>)
    requires rest != [] && Lines(Join(rest)) == WithoutBlank(rest)
    ensures Lines(Join([l] + rest)) == WithoutBlank([l] + rest)
  {
    JoinCons(l, rest);
    CutFirst(l, Join(rest));
    assert [l] + WithoutBlank(rest) == WithoutBlank([l] + rest);
  }

  /** Lines that survive being rendered and cut again. */
  predicate Faithful(ls: seq<Line>, trailing: bool) {
    if trailing then ls != [""] else ls == [] || ls[|ls| - 1] != ""
  }

  lemma JoinEmpty(ls: seq<Line>)
    ensures Join(ls) == "" <==> ls == [] || ls == [""]
  {
  }

  /** Rendering then cutting is the identity on exactly the faithful lines; on all
      others it loses one final empty line and nothing else. */
  lemma LinesOfRender(ls: seq<Line>, trailing: bool)
    ensures Lines(Render(ls, trailing)) == ls <==> Faithful(ls, trailing)
    ensures !Faithful(ls, trailing) ==> ls == Lines(Render(ls, trailing)) + [""]
  {
    JoinEmpty(ls);
    if ls != [] {
      var n := |ls| - 1;
      assert ls == ls[..n] + [ls[n]];
      if trailing && Join(ls) != "" {
        LinesOfJoinNl(ls);
      } else {
        LinesOfJoin(ls);
      }
    }
  }

  /** A text comes back from its own lines exactly when it is empty or its final
      newline agrees with the one being rendered, a lone newline excepted. */
  predicate Renderable(s: Text, trailing: bool) {
    s == "" || (EndsNl(s) == trailing && s != "\n")
  }

  lemma RenderOfLines(s: Text, trailing: bool)
    ensures Render(Lines(s), trailing) == s <==> Renderable(s, trailing)
  {
    JoinOfLines(s);
    if EndsNl(s) {
      assert s == s[..|s| - 1] + "\n";
    }
  }

  lemma RenderableIsFaithful(s: Text, trailing: bool)
    requires Renderable(s, trailing)
    ensures Faithful(Lines(s), trailing)
  {
    RenderOfLines(s, trailing);
    LinesOfRender(Lines(s), trailing);
  }

  lemma RenderEnds(ls: seq<Line>)
    ensures Renderable(Render(ls, true), true)
  {
  }

  lemma {:induction false} JoinSnocBlank(ls: seq<Line>)
    requires ls != []
    ensures Join(ls + [""]) == Join(ls) + "\n"
  {
    if |ls| == 1 {
      assert ls + [""] == [ls[0], ""] && [ls[0], ""][1..] == [""];
    } else {
      assert (ls + [""])[1..] == ls[1..] + [""];
      JoinSnocBlank(ls[1..]);
      assert Join(ls + [""]) == ls[0] + "\n" + Join(ls[1..] + [""]);
    }
  }

  /** A text comes back from its lines with an empty one behind them when it is empty, or
      ends with a newline and no other is added. */
  lemma RenderWithBlank(s: Text, trailing: bool)
    ensures Render(Lines(s) + [""], trailing) == s <==> s == "" || (EndsNl(s) && !trailing)
  {
    JoinOfLines(s);
    if Lines(s) == [] {
      JoinEmpty(Lines(s) + [""]);
      LinesEmpty(s);
    } else {
      JoinSnocBlank(Lines(s));
      LinesEmpty(s);
      if EndsNl(s) {
        assert s == s[..|s| - 1] + "\n";
      }
    }
  }
}
