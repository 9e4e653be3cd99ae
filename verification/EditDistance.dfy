/** The edit distance and what it means: the cheapest script of single-character edits. */
module EditDistance {
  import opened Numbers

  /** The plain recursive distance between the prefixes `a[..i]` and `b[..j]`. */
  function Dist(a: string, b: string, i: nat, j: nat): nat
    requires i <= |a| && j <= |b|
    decreases i + j
  {
    if i == 0 then j
    else if j == 0 then i
    else
      var diagonal := Dist(a, b, i - 1, j - 1) + (if a[i - 1] == b[j - 1] then 0 else 1);
      Min(diagonal, Min(Dist(a, b, i - 1, j) + 1, Dist(a, b, i, j - 1) + 1))
  }

  function Distance(a: string, b: string): nat {
    Dist(a, b, |a|, |b|)
  }

  /** What a caller that only cares about distances up to `cap` can observe. */
  function Capped(x: int, cap: nat): int {
    Min(x, cap + 1)
  }

  // ---- What the distance means: the cheapest script of single-character edits ----

  datatype Edit = Keep | Replace | Insert | Delete

  function Cost(script: seq<Edit>): nat {
    if script == [] then 0
    else Cost(script[..|script| - 1]) + (if script[|script| - 1].Keep? then 0 else 1)
  }

  /** `script`, read left to right, rewrites `a[..i]` into `b[..j]`. */
  predicate Rewrites(script: seq<Edit>, a: string, b: string, i: nat, j: nat)
    requires i <= |a| && j <= |b|
    decreases |script|
  {
    if script == [] then i == 0 && j == 0
    else
      var front := script[..|script| - 1];
      match script[|script| - 1]
      case Keep => i > 0 && j > 0 && a[i - 1] == b[j - 1] && Rewrites(front, a, b, i - 1, j - 1)
      case Replace => i > 0 && j > 0 && Rewrites(front, a, b, i - 1, j - 1)
      case Insert => j > 0 && Rewrites(front, a, b, i, j - 1)
      case Delete => i > 0 && Rewrites(front, a, b, i - 1, j)
  }

  lemma {:induction false} NoScriptIsCheaper(script: seq<Edit>, a: string, b: string, i: nat, j: nat)
    requires i <= |a| && j <= |b| && Rewrites(script, a, b, i, j)
    ensures Dist(a, b, i, j) <= Cost(script)
    decreases |script|
  {
    if script != [] {
      var front := script[..|script| - 1];
      match script[|script| - 1]
      case Keep => NoScriptIsCheaper(front, a, b, i - 1, j - 1);
      case Replace => NoScriptIsCheaper(front, a, b, i - 1, j - 1);
      case Insert => NoScriptIsCheaper(front, a, b, i, j - 1); UpOrLeft(a, b, i, j);
      case Delete => NoScriptIsCheaper(front, a, b, i - 1, j); UpOrLeft(a, b, i, j);
    }
  }

  lemma {:induction false} CheapestScript(a: string, b: string, i: nat, j: nat) returns (script: seq<Edit>)
    requires i <= |a| && j <= |b|
    ensures Rewrites(script, a, b, i, j) && Cost(script) == Dist(a, b, i, j)
    decreases i + j
  {
    if i == 0 && j == 0 {
      script := [];
    } else {
      var front, last;
      if i == 0 || (j > 0 && Dist(a, b, i, j) == Dist(a, b, i, j - 1) + 1) {
        front := CheapestScript(a, b, i, j - 1);
        last := Insert;
      } else if j == 0 || Dist(a, b, i, j) == Dist(a, b, i - 1, j) + 1 {
        front := CheapestScript(a, b, i - 1, j);
        last := Delete;
      } else {
        front := CheapestScript(a, b, i - 1, j - 1);
        last := if a[i - 1] == b[j - 1] then Keep else Replace;
      }
      script := front + [last];
      assert script[..|script| - 1] == front;
    }
  }

  /** The distance is exactly the cost of the cheapest script. */
  lemma DistanceIsCheapestRewrite(a: string, b: string)
    ensures forall script :: Rewrites(script, a, b, |a|, |b|) ==> Distance(a, b) <= Cost(script)
    ensures exists script :: Rewrites(script, a, b, |a|, |b|) && Cost(script) == Distance(a, b)
  {
    forall script | Rewrites(script, a, b, |a|, |b|) ensures Distance(a, b) <= Cost(script) {
      NoScriptIsCheaper(script, a, b, |a|, |b|);
    }
    var best := CheapestScript(a, b, |a|, |b|);
  }

  // ---- Facts about the table the band relies on ----

  /** Neighbouring cells differ by at most one in the direction of a single edit. */
  lemma {:induction false} UpOrLeft(a: string, b: string, i: nat, j: nat)
    requires i <= |a| && j <= |b|
    ensures i > 0 ==> Dist(a, b, i, j) <= Dist(a, b, i - 1, j) + 1
    ensures j > 0 ==> Dist(a, b, i, j) <= Dist(a, b, i, j - 1) + 1
  {
  }

  /** A cell is at least its distance from the diagonal. */
  lemma {:induction false} OffDiagonal(a: string, b: string, i: nat, j: nat)
    requires i <= |a| && j <= |b|
    ensures Dist(a, b, i, j) >= i - j && Dist(a, b, i, j) >= j - i
    decreases i + j
  {
    if i > 0 && j > 0 {
      OffDiagonal(a, b, i - 1, j - 1);
      OffDiagonal(a, b, i - 1, j);
      OffDiagonal(a, b, i, j - 1);
    }
  }

  /** Column 1 never exceeds column 0, so a row minimum may skip column 0. */
  lemma {:induction false} ColumnOne(a: string, b: string, i: nat)
    requires 1 <= i <= |a| && |b| >= 1
    ensures Dist(a, b, i, 1) <= i
  {
    assert Dist(a, b, i - 1, 0) == i - 1;
  }

  /** Once a whole row exceeds a bound, every later row does. */
  lemma {:induction false} RowBound(a: string, b: string, row: nat, bound: int, i: nat, j: nat)
    requires row <= i <= |a| && j <= |b|
    requires forall c: nat :: c <= |b| ==> Dist(a, b, row, c) > bound
    ensures Dist(a, b, i, j) > bound
    decreases i + j
  {
    if i > row {
      if j == 0 {
        assert Dist(a, b, row, 0) == row;
      } else {
        RowBound(a, b, row, bound, i - 1, j - 1);
        RowBound(a, b, row, bound, i - 1, j);
        RowBound(a, b, row, bound, i, j - 1);
      }
    }
  }

  lemma {:induction false} ZeroOnlyIfEqual(a: string, b: string, i: nat, j: nat)
    requires i <= |a| && j <= |b|
    ensures Dist(a, b, i, j) == 0 <==> a[..i] == b[..j]
    decreases i + j
  {
    OffDiagonal(a, b, i, j);
    if i == j && i > 0 {
      ZeroOnlyIfEqual(a, b, i - 1, j - 1);
      assert a[..i] == a[..i - 1] + [a[i - 1]] && b[..j] == b[..j - 1] + [b[j - 1]];
    }
  }

  lemma DistanceZero(a: string, b: string)
    ensures Distance(a, b) == 0 <==> a == b
  {
    ZeroOnlyIfEqual(a, b, |a|, |b|);
    assert a[..|a|] == a && b[..|b|] == b;
  }
}
