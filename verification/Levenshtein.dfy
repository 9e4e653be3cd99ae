/** The banded, early-abandoning computation of the edit distance. */
module Levenshtein {
  import opened Numbers
  import opened EditDistance

  /** Row `i` of the table as the band holds it: exact up to the cap from column `lo` to column `hi`. */
  ghost predicate Holds(row: seq<int>, a: string, b: string, cap: nat, i: nat, lo: int, hi: int)
  {
    && i <= |a| && |row| == |b| + 1
    && 0 <= lo && hi <= |b|
    && forall c: nat {:trigger row[c]} :: lo <= c <= hi ==> Capped(row[c], cap) == Capped(Dist(a, b, i, c), cap)
  }

  /** Computes columns `lo` to `hi` of row `i` into `cur`, whatever stale cells it holds; returns their minimum. */
  method FillBand(prev: array<int>, cur: array<int>, a: string, b: string, cap: nat, i: nat, lo: nat, hi: nat)
      returns (best: int)
    requires prev != cur && prev.Length == cur.Length == |b| + 1
    requires 1 <= i <= |a| && |b| >= 1
    requires lo == Max(1, i - cap) && hi == Min(|b|, i + cap) && lo <= hi
    requires Holds(prev[..], a, b, cap, i - 1, lo - 1, hi)
    modifies cur
    ensures Holds(cur[..], a, b, cap, i, lo - 1, hi)
    ensures best > cap ==> forall c :: lo <= c <= hi ==> cur[c] > cap
  {
    cur[0] := i;
    if lo > 1 {
      cur[lo - 1] := cap + 1;
    }
    OffDiagonal(a, b, i, lo - 1);
    best := cap + 1;
    for j := lo to hi + 1
      invariant Holds(cur[..], a, b, cap, i, lo - 1, j - 1)
      invariant best > cap ==> forall c :: lo <= c < j ==> cur[c] > cap
    {
      var e := if a[i - 1] == b[j - 1] then prev[j - 1] else prev[j - 1] + 1;
      if prev[j] + 1 < e {
        e := prev[j] + 1;
      }
      if cur[j - 1] + 1 < e {
        e := cur[j - 1] + 1;
      }
      NextCell(prev[..], cur[..], a, b, cap, i, j, e);
      cur[j] := e;
      if e < best {
        best := e;
      }
    }
  }

  /** One row after the next: the band filled, and the cell right of it closed off for the row below. */
  method NextRow(prev: array<int>, cur: array<int>, a: string, b: string, cap: nat, i: nat) returns (best: int)
    requires prev != cur && prev.Length == cur.Length == |b| + 1
    requires 1 <= i <= |a| && |b| >= 1 && |a| - |b| <= cap && |b| - |a| <= cap
    requires Holds(prev[..], a, b, cap, i - 1, Max(0, i - 1 - cap), Min(|b|, i + cap))
    modifies cur
    ensures best > cap ==> Distance(a, b) > cap
    ensures best <= cap ==> Holds(cur[..], a, b, cap, i, Max(0, i - cap), Min(|b|, i + 1 + cap))
  {
    var lo := Max(1, i - cap);
    var hi := Min(|b|, i + cap);
    best := FillBand(prev, cur, a, b, cap, i, lo, hi);
    if best > cap {
      AbandonIsSound(cur[..], a, b, cap, i, lo, hi);
      return;
    }
    CloseBand(cur[..], a, b, cap, i, lo, hi);
    if hi < |b| {
      cur[hi + 1] := cap + 1;
    }
  }

  /** The table, row by row in two buffers that swap, computed only inside the band. */
  method BandedDistance(a: string, b: string, cap: nat) returns (d: int)
    requires |a| >= 1 && |b| >= 1 && |a| - |b| <= cap && |b| - |a| <= cap
    ensures d == Capped(Distance(a, b), cap)
  {
    var la, lb := |a|, |b|;
    var prev := new int[lb + 1](k => k);
    var cur := new int[lb + 1](k => 0);
    assert Holds(prev[..], a, b, cap, 0, 0, lb);
    for i := 1 to la + 1
      invariant prev != cur && prev.Length == cur.Length == lb + 1
      invariant fresh(prev) && fresh(cur)
      invariant Holds(prev[..], a, b, cap, i - 1, Max(0, i - 1 - cap), Min(lb, i + cap))
    {
      var best := NextRow(prev, cur, a, b, cap, i);
      if best > cap {
        return cap + 1;
      }
      prev, cur := cur, prev;
    }
    assert Capped(prev[..][lb], cap) == Capped(Dist(a, b, la, lb), cap);
    d := if prev[lb] <= cap then prev[lb] else cap + 1;
  }

  /** Distance of `a` and `b`, or `cap + 1` for anything further apart than `cap`. */
  method Levenshtein(a: string, b: string, cap: nat) returns (d: int)
    ensures d == Capped(Distance(a, b), cap)
  {
    if a == b {
      DistanceZero(a, b);
      return 0;
    }
    var la, lb := |a|, |b|;
    OffDiagonal(a, b, la, lb);
    if la - lb > cap || lb - la > cap {
      return cap + 1;
    }
    if la == 0 {
      return if lb <= cap then lb else cap + 1;
    }
    if lb == 0 {
      return if la <= cap then la else cap + 1;
    }
    d := BandedDistance(a, b, cap);
  }

  /** One table cell, computed from band-held neighbours, is exact up to the cap. */
  lemma NextCell(above: seq<int>, left: seq<int>, a: string, b: string, cap: nat, i: nat, j: nat, e: int)
    requires 1 <= i <= |a| && 1 <= j <= |b|
    requires Holds(above, a, b, cap, i - 1, j - 1, j) && Holds(left, a, b, cap, i, j - 1, j - 1)
    requires e == Min(above[j - 1] + (if a[i - 1] == b[j - 1] then 0 else 1), Min(above[j] + 1, left[j - 1] + 1))
    ensures Holds(left[j := e], a, b, cap, i, j, j)
  {
    HeldAt(above, a, b, cap, i - 1, j - 1, j, j - 1);
    HeldAt(above, a, b, cap, i - 1, j - 1, j, j);
    HeldAt(left, a, b, cap, i, j - 1, j - 1, j - 1);
    CellIs(above[j - 1], above[j], left[j - 1], a, b, cap, i, j);
  }

  lemma HeldAt(row: seq<int>, a: string, b: string, cap: nat, i: nat, lo: int, hi: int, c: nat)
    requires Holds(row, a, b, cap, i, lo, hi) && lo <= c <= hi
    ensures Capped(row[c], cap) == Capped(Dist(a, b, i, c), cap)
  {
  }

  lemma CellIs(x: int, y: int, z: int, a: string, b: string, cap: nat, i: nat, j: nat)
    requires 1 <= i <= |a| && 1 <= j <= |b|
    requires Capped(x, cap) == Capped(Dist(a, b, i - 1, j - 1), cap)
    requires Capped(y, cap) == Capped(Dist(a, b, i - 1, j), cap) && Capped(z, cap) == Capped(Dist(a, b, i, j - 1), cap)
    ensures Capped(Min(x + (if a[i - 1] == b[j - 1] then 0 else 1), Min(y + 1, z + 1)), cap) ==
              Capped(Dist(a, b, i, j), cap)
  {
    CappedStep(cap, x, y, z, if a[i - 1] == b[j - 1] then 0 else 1,
               Dist(a, b, i - 1, j - 1), Dist(a, b, i - 1, j), Dist(a, b, i, j - 1));
  }

  /** Capping commutes with the step of the recurrence. */
  lemma CappedStep(cap: nat, x: int, y: int, z: int, same: int, dx: int, dy: int, dz: int)
    requires Capped(x, cap) == Capped(dx, cap) && Capped(y, cap) == Capped(dy, cap) && Capped(z, cap) == Capped(dz, cap)
    requires same == 0 || same == 1
    ensures Capped(Min(x + same, Min(y + 1, z + 1)), cap) == Capped(Min(dx + same, Min(dy + 1, dz + 1)), cap)
  {
  }

  /** Writing `cap + 1` just right of the band leaves what the next row reads. */
  lemma CloseBand(row: seq<int>, a: string, b: string, cap: nat, i: nat, lo: int, hi: int)
    requires 1 <= i <= |a| && |b| >= 1
    requires lo == Max(1, i - cap) && hi == Min(|b|, i + cap)
    requires Holds(row, a, b, cap, i, lo - 1, hi)
    ensures Holds(if hi < |b| then row[hi + 1 := cap + 1] else row,
                  a, b, cap, i, Max(0, i - cap), Min(|b|, i + 1 + cap))
  {
    if hi < |b| {
      OffDiagonal(a, b, i, hi + 1);
    }
  }

  /** A row whose band exceeds the cap exceeds it everywhere, column 0 included. */
  lemma AbandonIsSound(row: seq<int>, a: string, b: string, cap: nat, i: nat, lo: int, hi: int)
    requires 1 <= i <= |a| && |b| >= 1
    requires lo == Max(1, i - cap) && hi == Min(|b|, i + cap)
    requires Holds(row, a, b, cap, i, lo - 1, hi)
    requires forall c :: lo <= c <= hi ==> row[c] > cap
    ensures Distance(a, b) > cap
  {
    forall c: nat | c <= |b| ensures Dist(a, b, i, c) > cap {
      OffDiagonal(a, b, i, c);
      if c == 0 {
        ColumnOne(a, b, i);
        OffDiagonal(a, b, i, 1);
        if lo == 1 && hi >= 1 {
          assert Capped(row[1], cap) == Capped(Dist(a, b, i, 1), cap);
        }
      } else if lo <= c <= hi {
        assert Capped(row[c], cap) == Capped(Dist(a, b, i, c), cap);
      }
    }
    RowBound(a, b, i, cap, |a|, |b|);
  }
}
