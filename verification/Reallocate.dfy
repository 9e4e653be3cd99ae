/** Executing a reallocation plan: numbers change pools, the donor guard is re-checked move by move. */
module Reallocate {
  import opened DidRing
  import opened Projection
  import opened Refusals
  import opened Sorting
  import opened Planner

  type Pools = map<PoolKey, seq<Did>>

  datatype Move = Move(src: PoolKey, dst: PoolKey, n: nat)

  datatype Books = Books(pools: Pools, moved: nat, blocked: nat)

  /** What the executor reads once and never changes: usage per number, need per NPA, overflow's floor. */
  datatype Rules = Rules(used: map<Did, nat>, need: map<Npa, int>, overflowMin: nat)

  function Held(pools: Pools, k: PoolKey): seq<Did> {
    if k in pools then pools[k] else []
  }

  function Trunc(x: real): int {
    if x >= 0.0 then x.Floor else -((-x).Floor)
  }

  /** The executor's own retention rule, computed by truncation and a correction. */
  function RcRetain(need: int): int {
    var a := need + 2;
    var t := Trunc(need as real * 1.25);
    var b := if t as real < need as real * 1.25 then t + 1 else t;
    if a > b then a else b
  }

  /** Planner and executor keep the same number back, for every need. */
  lemma RetentionsAgree(need: int)
    ensures RcRetain(need) == DonorRetain(need)
  {
  }

  function Floor(rules: Rules, src: PoolKey): int {
    match src
    case OverflowPool => rules.overflowMin
    case Area(npa) => RcRetain(if npa in rules.need then rules.need[npa] else 0)
  }

  function DidNumber(d: Did): nat {
    if d == "" then 0
    else 10 * DidNumber(d[..|d| - 1]) + (if '0' <= d[|d| - 1] <= '9' then d[|d| - 1] as int - '0' as int else 0)
  }

  /** Least used first, then by number. */
  function IdleOrder(used: map<Did, nat>): (Did, Did) -> bool {
    (x: Did, y: Did) =>
      Used(used, x) < Used(used, y) || (Used(used, x) == Used(used, y) && DidNumber(x) <= DidNumber(y))
  }

  function Idlest(rules: Rules, dids: seq<Did>): seq<Did> {
    Sort(dids, IdleOrder(rules.used))
  }

  /** One source of one plan row: guarded, then its idlest numbers change pools. */
  function MoveOnce(rules: Rules, books: Books, m: Move): Books {
    var have := Held(books.pools, m.src);
    if |have| - m.n < Floor(rules, m.src) then books.(blocked := books.blocked + 1)
    else
      var ranked := Idlest(rules, have);
      var n := if m.n < |ranked| then m.n else |ranked|;
      var kept := books.pools[m.src := ranked[n..]];
      if n < m.n then Books(kept[m.src := kept[m.src] + ranked[..n]], books.moved, books.blocked + 1)
      else Books(kept[m.dst := Held(kept, m.dst) + ranked[..n]], books.moved + n, books.blocked)
  }

  function MoveAll(rules: Rules, books: Books, moves: seq<Move>): Books
    decreases |moves|
  {
    if moves == [] then books else MoveAll(rules, MoveOnce(rules, books, moves[0]), moves[1..])
  }

  function MovesInto(npa: Npa, from: seq<Share>): (moves: seq<Move>)
    ensures |moves| == |from| && forall j :: 0 <= j < |from| ==> moves[j] == Move(from[j].source, Area(npa), from[j].n)
  {
    seq(|from|, j requires 0 <= j < |from| => Move(from[j].source, Area(npa), from[j].n))
  }

  /** The moves of one plan row; rows that bring nothing in are skipped. */
  function RowMoves(e: Entry): seq<Move> {
    if e.realloc > 0 then MovesInto(e.npa, e.from) else []
  }

  function PlanMoves(rows: seq<Entry>): seq<Move> {
    if rows == [] then [] else RowMoves(rows[0]) + PlanMoves(rows[1..])
  }

  lemma {:induction false} MoveAllJoins(rules: Rules, books: Books, a: seq<Move>, b: seq<Move>)
    ensures MoveAll(rules, books, a + b) == MoveAll(rules, MoveAll(rules, books, a), b)
    decreases |a|
  {
    if a == [] {
      assert a + b == b;
    } else {
      MoveAllJoins(rules, MoveOnce(rules, books, a[0]), a[1..], b);
      assert (a + b)[1..] == a[1..] + b;
    }
  }

  /** The pool table a `reallocate` run rewrites in place. */
  class Reallocation {
    const rules: Rules
    var pools: Pools
    var taken: seq<Did>
    var moved: nat
    var blocked: nat

    constructor (rules: Rules, pools: Pools)
      ensures this.rules == rules && this.pools == pools && moved == 0 && blocked == 0
    {
      this.rules, this.pools, taken, moved, blocked := rules, pools, [], 0, 0;
    }

    ghost function State(): Books
      reads this
    {
      Books(pools, moved, blocked)
    }

    /** Sets `taken` to the donor's idlest numbers, at most `want`, and keeps the rest in its pool. */
    method Take(donor: PoolKey, want: nat)
      modifies this`pools, this`taken
      ensures var ranked := Idlest(rules, old(Held(pools, donor)));
              var n := if want < |ranked| then want else |ranked|;
              taken == ranked[..n] && pools == old(pools)[donor := ranked[n..]]
    {
      var ranked := Idlest(rules, Held(pools, donor));
      var got, keep := 0, [];
      taken := [];
      for x := 0 to |ranked|
        invariant got == if want < x then want else x
        invariant taken == ranked[..got] && keep == ranked[got..x]
        invariant pools == old(pools)
      {
        if got < want {
          taken := taken + [ranked[x]];
          got := got + 1;
        } else {
          keep := keep + [ranked[x]];
        }
      }
      assert keep == ranked[got..];
      pools := pools[donor := keep];
    }

    method MovePair(src: PoolKey, dst: PoolKey, cnt: nat)
      modifies this
      ensures State() == MoveOnce(rules, old(State()), Move(src, dst, cnt))
    {
      var have := |Held(pools, src)|;
      if have - cnt < Floor(rules, src) {
        blocked := blocked + 1;
        return;
      }
      Take(src, cnt);
      if |taken| < cnt {
        blocked := blocked + 1;
        pools := pools[src := Held(pools, src) + taken];
        return;
      }
      pools := pools[dst := Held(pools, dst) + taken];
      moved := moved + |taken|;
    }

    method Run(rows: seq<Entry>)
      modifies this
      ensures State() == MoveAll(rules, old(State()), PlanMoves(rows))
    {
      for k := 0 to |rows|
        invariant MoveAll(rules, State(), PlanMoves(rows[k..])) == MoveAll(rules, old(State()), PlanMoves(rows))
      {
        var e := rows[k];
        assert rows[k..][1..] == rows[k + 1..];
        ghost var all := RowMoves(e);
        MoveAllJoins(rules, State(), all, PlanMoves(rows[k + 1..]));
        if e.realloc > 0 {
          ghost var before := State();
          for j := 0 to |e.from|
            invariant MoveAll(rules, State(), all[j..]) == MoveAll(rules, before, all)
          {
            assert all[j..][1..] == all[j + 1..];
            MovePair(e.from[j].source, Area(e.npa), e.from[j].n);
          }
        }
      }
    }
  }

  // ---- What any run keeps, whatever the plan ----

  /** How often a number is held under the given keys. */
  function Copies(keys: seq<PoolKey>, pools: Pools, d: Did): nat {
    if keys == [] then 0 else multiset(Held(pools, keys[0]))[d] + Copies(keys[1..], pools, d)
  }

  predicate DistinctKeys(keys: seq<PoolKey>) {
    forall i, j :: 0 <= i < j < |keys| ==> keys[i] != keys[j]
  }

  lemma {:induction false} CopiesUpdate(keys: seq<PoolKey>, pools: Pools, k: PoolKey, v: seq<Did>, d: Did)
    requires DistinctKeys(keys)
    ensures k in keys ==>
              Copies(keys, pools[k := v], d) + multiset(Held(pools, k))[d] == Copies(keys, pools, d) + multiset(v)[d]
    ensures k !in keys ==> Copies(keys, pools[k := v], d) == Copies(keys, pools, d)
    decreases |keys|
  {
    if keys != [] {
      CopiesUpdate(keys[1..], pools, k, v, d);
      if keys[0] == k {
        assert forall i :: 1 <= i < |keys| ==> keys[i] != k;
        assert k !in keys[1..];
      }
    }
  }

  lemma RankedSplits(rules: Rules, dids: seq<Did>, n: nat)
    requires n <= |dids|
    ensures |Idlest(rules, dids)| == |dids|
    ensures multiset(Idlest(rules, dids)[..n]) + multiset(Idlest(rules, dids)[n..]) == multiset(dids)
  {
    SortPermutes(dids, IdleOrder(rules.used));
    var ranked := Idlest(rules, dids);
    assert ranked == ranked[..n] + ranked[n..];
  }

  /** A move hands over the donor's idlest numbers: none it keeps has been used less. */
  lemma IdlestMove(rules: Rules, dids: seq<Did>, n: nat)
    requires n <= |dids|
    ensures |Idlest(rules, dids)| == |dids|
    ensures forall x, y :: x in Idlest(rules, dids)[..n] && y in Idlest(rules, dids)[n..] ==>
              Used(rules.used, x) <= Used(rules.used, y)
  {
    RankedSplits(rules, dids, n);
    SortOrders(dids, IdleOrder(rules.used));
  }

  lemma HandingOverKeepsNumbers(pools: Pools, src: PoolKey, dst: PoolKey, ranked: seq<Did>, n: nat,
                                keys: seq<PoolKey>, d: Did)
    requires DistinctKeys(keys) && src in keys && dst in keys && n <= |ranked|
    requires multiset(ranked) == multiset(Held(pools, src))
    ensures var kept := pools[src := ranked[n..]];
            Copies(keys, kept[dst := Held(kept, dst) + ranked[..n]], d) == Copies(keys, pools, d)
  {
    var kept := pools[src := ranked[n..]];
    assert ranked == ranked[..n] + ranked[n..];
    CopiesUpdate(keys, pools, src, ranked[n..], d);
    CopiesUpdate(keys, kept, dst, Held(kept, dst) + ranked[..n], d);
  }

  lemma MoveKeepsNumbers(rules: Rules, books: Books, m: Move, keys: seq<PoolKey>, d: Did)
    requires DistinctKeys(keys) && m.src in keys && m.dst in keys
    ensures Copies(keys, MoveOnce(rules, books, m).pools, d) == Copies(keys, books.pools, d)
  {
    var have := Held(books.pools, m.src);
    var ranked := Idlest(rules, have);
    SortPermutes(have, IdleOrder(rules.used));
    var n := if m.n < |ranked| then m.n else |ranked|;
    HandingOverKeepsNumbers(books.pools, m.src, m.dst, ranked, n, keys, d);
    HandingOverKeepsNumbers(books.pools, m.src, m.src, ranked, n, keys, d);
  }

  predicate KnownMoves(keys: seq<PoolKey>, moves: seq<Move>) {
    forall m :: m in moves ==> m.src in keys && m.dst in keys
  }

  /** No plan, however wrong, creates, loses or duplicates a number. */
  lemma {:induction false} RunKeepsNumbers(rules: Rules, books: Books, moves: seq<Move>, keys: seq<PoolKey>, d: Did)
    requires DistinctKeys(keys) && KnownMoves(keys, moves)
    ensures Copies(keys, MoveAll(rules, books, moves).pools, d) == Copies(keys, books.pools, d)
    decreases |moves|
  {
    if moves != [] {
      MoveKeepsNumbers(rules, books, moves[0], keys, d);
      RunKeepsNumbers(rules, MoveOnce(rules, books, moves[0]), moves[1..], keys, d);
    }
  }

  lemma MoveSizes(rules: Rules, books: Books, m: Move, k: PoolKey)
    ensures var have, after := Held(books.pools, m.src), MoveOnce(rules, books, m);
            if |have| - m.n < Floor(rules, m.src) || m.n > |have| then
              |Held(after.pools, k)| == |Held(books.pools, k)| && after.blocked == books.blocked + 1
            else
              after.blocked == books.blocked && after.moved == books.moved + m.n
              && |Held(after.pools, k)| ==
                 |Held(books.pools, k)| - (if k == m.src then m.n else 0) + if k == m.dst then m.n else 0
  {
    SortPermutes(Held(books.pools, m.src), IdleOrder(rules.used));
  }

  /** No plan, however wrong, takes a pool below its retention floor. */
  lemma {:induction false} GuardHolds(rules: Rules, books: Books, moves: seq<Move>, k: PoolKey)
    ensures var before, after := |Held(books.pools, k)|, |Held(MoveAll(rules, books, moves).pools, k)|;
            after >= before || after >= Floor(rules, k)
    decreases |moves|
  {
    if moves != [] {
      MoveSizes(rules, books, moves[0], k);
      GuardHolds(rules, MoveOnce(rules, books, moves[0]), moves[1..], k);
    }
  }

  // ---- A plan that respects the floors is executed in full ----

  function Out(moves: seq<Move>, k: PoolKey): nat {
    if moves == [] then 0 else (if moves[0].src == k then moves[0].n else 0) + Out(moves[1..], k)
  }

  function In(moves: seq<Move>, k: PoolKey): nat {
    if moves == [] then 0 else (if moves[0].dst == k then moves[0].n else 0) + In(moves[1..], k)
  }

  /** Each source can spare all it is asked for, over the whole run. */
  ghost predicate Affordable(rules: Rules, pools: Pools, moves: seq<Move>) {
    forall m :: m in moves ==>
      |Held(pools, m.src)| - Out(moves, m.src) >= Floor(rules, m.src) && |Held(pools, m.src)| >= Out(moves, m.src)
  }

  /** In any order, an affordable list of moves trips no guard and moves exactly what it says. */
  lemma {:induction false} AffordableRuns(rules: Rules, books: Books, moves: seq<Move>)
    requires Affordable(rules, books.pools, moves)
    ensures var after := MoveAll(rules, books, moves);
            && after.blocked == books.blocked
            && forall k :: |Held(after.pools, k)| == |Held(books.pools, k)| - Out(moves, k) + In(moves, k)
    decreases |moves|
  {
    if moves != [] {
      var m, next := moves[0], MoveOnce(rules, books, moves[0]);
      assert m in moves;
      forall k
        ensures |Held(next.pools, k)| ==
                |Held(books.pools, k)| - (if k == m.src then m.n else 0) + if k == m.dst then m.n else 0
      {
        MoveSizes(rules, books, m, k);
      }
      MoveSizes(rules, books, m, m.src);
      forall q | q in moves[1..]
        ensures |Held(next.pools, q.src)| - Out(moves[1..], q.src) >= Floor(rules, q.src)
        ensures |Held(next.pools, q.src)| >= Out(moves[1..], q.src)
      {
        assert q in moves;
      }
      AffordableRuns(rules, next, moves[1..]);
    }
  }
}
