/** What the executor keeps back and whom it hands over, in numbers: floors, idleness and ties. */
module DonorLaws {
  import opened Common
  import opened DidRing
  import opened Projection
  import opened Refusals
  import opened Sorting
  import opened Planner
  import opened Reallocate

  // ---- What a donor keeps ----

  /** What a pool must keep: overflow its own minimum, an area the least that covers its need as the guard has it. */
  predicate Reserve(rules: Rules, k: PoolKey, floor: int) {
    match k
    case OverflowPool => floor == rules.overflowMin
    case Area(npa) =>
      var need := if npa in rules.need then rules.need[npa] else 0;
      && floor >= need + 2 && floor as real >= 1.25 * need as real
      && (floor == need + 2 || (floor - 1) as real < 1.25 * need as real)
  }

  lemma ReserveIs(rules: Rules, k: PoolKey, floor: int)
    ensures Reserve(rules, k, floor) <==> floor == Floor(rules, k)
  {
    if k.Area? {
      RetentionsAgree(if k.npa in rules.need then rules.need[k.npa] else 0);
    }
  }

  /** No plan, however wrong, takes a pool below what it must keep: it then ends with no fewer than it had. */
  lemma NoPoolIsDrained(rules: Rules, books: Books, moves: seq<Move>, k: PoolKey, floor: int)
    requires Reserve(rules, k, floor)
    ensures var before, after := |Held(books.pools, k)|, |Held(MoveAll(rules, books, moves).pools, k)|;
            after >= before || after >= floor
  {
    ReserveIs(rules, k, floor);
    GuardHolds(rules, books, moves, k);
  }

  /** A move is carried out exactly if its source has that many and keeps what it must; else one more is blocked. */
  lemma CarriedOutIff(rules: Rules, books: Books, m: Move, floor: int)
    requires Reserve(rules, m.src, floor)
    ensures var have, after := |Held(books.pools, m.src)|, MoveOnce(rules, books, m);
            if have >= m.n && have - m.n >= floor
            then after.blocked == books.blocked && after.moved == books.moved + m.n
            else after.blocked == books.blocked + 1 && after.moved == books.moved
                 && forall k :: multiset(Held(after.pools, k)) == multiset(Held(books.pools, k))
  {
    ReserveIs(rules, m.src, floor);
    var have := Held(books.pools, m.src);
    RankedSplits(rules, have, |have|);
    MoveSizes(rules, books, m, m.src);
    var ranked := Idlest(rules, have);
    assert ranked[|ranked|..] == [] && [] + ranked == ranked && ranked[..|ranked|] == ranked;
  }

  // ---- Who goes ----

  predicate Decimal(d: Did) {
    forall i :: 0 <= i < |d| ==> '0' <= d[i] <= '9'
  }

  /** Lower at the first digit where they differ. */
  ghost predicate LowerNumber(x: Did, y: Did) {
    exists k :: 0 <= k < |x| && k < |y| && x[..k] == y[..k] && x[k] < y[k]
  }

  lemma LowerByLast(x: Did, y: Did)
    requires |x| == |y| > 0
    ensures var n := |x| - 1;
            LowerNumber(x, y) <==> LowerNumber(x[..n], y[..n]) || (x[..n] == y[..n] && x[n] < y[n])
  {
    var n := |x| - 1;
    if k :| 0 <= k < |x| && k < |y| && x[..k] == y[..k] && x[k] < y[k] {
      if k < n {
        assert x[..n][..k] == x[..k] && y[..n][..k] == y[..k];
        assert LowerNumber(x[..n], y[..n]);
      }
    }
    if LowerNumber(x[..n], y[..n]) {
      var k :| 0 <= k < n && x[..n][..k] == y[..n][..k] && x[..n][k] < y[..n][k];
      assert x[..k] == x[..n][..k] && y[..k] == y[..n][..k];
    }
  }

  lemma Tenfold(a: int, u: int, b: int, v: int)
    requires 0 <= u < 10 && 0 <= v < 10
    ensures 10 * a + u < 10 * b + v <==> a < b || (a == b && u < v)
    ensures 10 * a + u == 10 * b + v <==> a == b && u == v
  {
  }

  lemma NumberByLast(d: Did) returns (u: nat)
    requires d != "" && Decimal(d)
    ensures u < 10 && u == d[|d| - 1] as int - 48 && DidNumber(d) == 10 * DidNumber(d[..|d| - 1]) + u
  {
    u := d[|d| - 1] as int - 48;
  }

  lemma EqualByLast(x: Did, y: Did)
    requires |x| == |y| > 0
    ensures x == y <==> x[..|x| - 1] == y[..|y| - 1] && x[|x| - 1] == y[|y| - 1]
  {
    assert x == x[..|x| - 1] + [x[|x| - 1]] && y == y[..|y| - 1] + [y[|y| - 1]];
  }

  /** Numbers of one length compare as they are dialled. */
  lemma {:induction false} NumbersCompare(x: Did, y: Did)
    requires |x| == |y| && Decimal(x) && Decimal(y)
    ensures DidNumber(x) < DidNumber(y) <==> LowerNumber(x, y)
    ensures DidNumber(x) == DidNumber(y) <==> x == y
    decreases |x|
  {
    if x != "" {
      var n := |x| - 1;
      NumbersCompare(x[..n], y[..n]);
      LowerByLast(x, y);
      EqualByLast(x, y);
      var u := NumberByLast(x);
      var v := NumberByLast(y);
      Tenfold(DidNumber(x[..n]), u, DidNumber(y[..n]), v);
    }
  }

  /** Of a donor's numbers those handed over have been used less than those kept, or as little and come first. */
  lemma IdlestGoFirst(rules: Rules, dids: seq<Did>, n: nat, x: Did, y: Did)
    requires n <= |dids| == |Idlest(rules, dids)|
    requires x in Idlest(rules, dids)[..n] && y in Idlest(rules, dids)[n..]
    requires |x| == |y| && Decimal(x) && Decimal(y)
    ensures Used(rules.used, x) < Used(rules.used, y)
            || (Used(rules.used, x) == Used(rules.used, y) && (x == y || LowerNumber(x, y)))
  {
    var le := IdleOrder(rules.used);
    SortOrders(dids, le);
    NumbersCompare(x, y);
    assert le(x, y);
  }
}
