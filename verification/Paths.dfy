/** Index paths: which parent is taken at each step. Shorter paths come first, and among
    paths of one length the first difference decides. */
module Paths {
  type Path = seq<nat>

  predicate Below(a: Path, b: Path)
    decreases |a|
  {
    || |a| < |b|
    || (|a| == |b| > 0
        && var i, j := a[..|a| - 1], b[..|b| - 1];
           Below(i, j) || (i == j && a[|a| - 1] < b[|b| - 1]))
  }

  predicate AtMost(a: Path, b: Path) {
    a == b || Below(a, b)
  }

  lemma {:induction false} BelowIsStrict(a: Path)
    ensures !Below(a, a)
    decreases |a|
  {
    if |a| > 0 {
      BelowIsStrict(a[..|a| - 1]);
    }
  }

  lemma {:induction false} BelowTransitive(a: Path, b: Path, c: Path)
    requires Below(a, b) && Below(b, c)
    ensures Below(a, c)
    decreases |a|
  {
    if |a| == |b| == |c| {
      var i, j, k := a[..|a| - 1], b[..|b| - 1], c[..|c| - 1];
      if Below(i, j) && Below(j, k) {
        BelowTransitive(i, j, k);
      }
    }
  }

  lemma {:induction false} BelowIsTotal(a: Path, b: Path)
    ensures a == b || Below(a, b) || Below(b, a)
    decreases |a|
  {
    if |a| == |b| > 0 {
      BelowIsTotal(a[..|a| - 1], b[..|b| - 1]);
      assert a == a[..|a| - 1] + [a[|a| - 1]] && b == b[..|b| - 1] + [b[|b| - 1]];
    }
  }

  lemma AtMostTransitive(a: Path, b: Path, c: Path)
    requires AtMost(a, b) && AtMost(b, c)
    ensures AtMost(a, c)
    ensures Below(a, b) || Below(b, c) ==> Below(a, c)
  {
    if Below(a, b) && Below(b, c) {
      BelowTransitive(a, b, c);
    }
  }

  /** Extending keeps the order, whatever is appended to the two. */
  lemma BelowSnoc(a: Path, b: Path, i: nat, j: nat)
    requires Below(a, b) || (a == b && i < j)
    ensures Below(a + [i], b + [j])
  {
    assert (a + [i])[..|a|] == a && (b + [j])[..|b|] == b;
  }

  lemma AtMostSnoc(a: Path, b: Path, k: nat)
    requires AtMost(a, b)
    ensures AtMost(a + [k], b + [k])
  {
    if a != b {
      BelowSnoc(a, b, k, k);
    }
  }
}
