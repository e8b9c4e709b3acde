/** ORDER BY ... LIMIT: the first rows of a set in a strict total order. */
module Ordering {

  /** The order is strict and total on the set. */
  ghost predicate Orders<T(!new)>(before: (T, T) -> bool, s: set<T>) {
    && (forall a, b | a in s && b in s :: a == b || before(a, b) || before(b, a))
    && (forall a, b | a in s && b in s :: !(before(a, b) && before(b, a)))
    && (forall a, b, c | a in s && b in s && c in s && before(a, b) && before(b, c) :: before(a, c))
  }

  ghost predicate Ascending<T>(before: (T, T) -> bool, rows: seq<T>) {
    forall i, j | 0 <= i < j < |rows| :: before(rows[i], rows[j])
  }

  function RowSet<T>(rows: seq<T>): set<T> {
    set b | b in rows
  }

  /** `page` is the first `limit` of `candidates` in the order. */
  ghost predicate Leading<T>(before: (T, T) -> bool, candidates: set<T>, page: set<T>, limit: nat) {
    && page <= candidates && |page| <= limit && (|page| < limit ==> page == candidates)
    && forall p, c | p in page && c in candidates && before(c, p) :: c in page
  }

  lemma {:induction false} SubsetSize<T>(a: set<T>, b: set<T>)
    requires a <= b
    ensures |a| <= |b|
  {
    if a != {} {
      var x :| x in a;
      SubsetSize(a - {x}, b - {x});
    }
  }

  lemma {:induction false} RowSetSize<T>(rows: seq<T>)
    ensures |RowSet(rows)| <= |rows|
  {
    if rows != [] {
      var n := |rows| - 1;
      RowSetSize(rows[..n]);
      assert RowSet(rows) == RowSet(rows[..n]) + {rows[n]};
    }
  }

  method First<T(==, !new)>(before: (T, T) -> bool, candidates: set<T>) returns (first: T)
    requires candidates != {} && Orders(before, candidates)
    ensures first in candidates && forall c | c in candidates && c != first :: before(first, c)
  {
    first :| first in candidates;
    var remaining := candidates - {first};
    while remaining != {}
      invariant remaining <= candidates && first in candidates - remaining
      invariant forall c | c in candidates - remaining && c != first :: before(first, c)
      decreases remaining
    {
      var b :| b in remaining;
      if before(b, first) {
        first := b;
      }
      remaining := remaining - {b};
    }
  }

  /** A row that follows all others keeps the rows ordered and distinct. */
  lemma RowsExtend<T>(before: (T, T) -> bool, rows: seq<T>, next: T)
    requires Ascending(before, rows) && |rows| == |RowSet(rows)| && next !in RowSet(rows)
    requires forall p | p in RowSet(rows) :: before(p, next)
    ensures RowSet(rows + [next]) == RowSet(rows) + {next}
    ensures Ascending(before, rows + [next]) && |rows + [next]| == |RowSet(rows + [next])|
  {
    assert RowSet(rows + [next]) == RowSet(rows) + {next};
  }

  /** Taking the first rows in order gives the leading page. */
  lemma TakenAreLeading<T(!new)>(before: (T, T) -> bool, candidates: set<T>, page: set<T>, remaining: set<T>,
      limit: nat)
    requires Orders(before, candidates)
    requires page + remaining == candidates && |page| <= limit && (|page| < limit ==> remaining == {})
    requires forall p, c | p in page && c in remaining :: before(p, c)
    ensures Leading(before, candidates, page, limit)
  {
  }

  /** The rows of an ORDER BY ... LIMIT query, in its order. */
  method OrderedRows<T(==, !new)>(before: (T, T) -> bool, candidates: set<T>, limit: nat) returns (rows: seq<T>)
    requires Orders(before, candidates)
    ensures Ascending(before, rows) && |rows| == |RowSet(rows)|
    ensures Leading(before, candidates, RowSet(rows), limit)
  {
    rows := [];
    var remaining := candidates;
    assert RowSet<T>([]) == {} && Ascending(before, []);
    hide RowSet, Ascending, Leading;
    while |rows| < limit && remaining != {}
      invariant RowSet(rows) + remaining == candidates && RowSet(rows) !! remaining
      invariant |rows| == |RowSet(rows)| <= limit && Ascending(before, rows)
      invariant forall p, c | p in RowSet(rows) && c in remaining :: before(p, c)
      decreases remaining
    {
      var next := First(before, remaining);
      RowsExtend(before, rows, next);
      rows := rows + [next];
      remaining := remaining - {next};
    }
    TakenAreLeading(before, candidates, RowSet(rows), remaining, limit);
  }

  /** What sorts before a row stands before it. */
  lemma StandsBefore<T(!new)>(before: (T, T) -> bool, rows: seq<T>, i: nat, q: T)
    requires Orders(before, RowSet(rows)) && Ascending(before, rows)
    requires i < |rows| && q in rows && before(q, rows[i])
    ensures q in rows[..i]
  {
    var k :| 0 <= k < |rows| && rows[k] == q;
    assert rows[i] in RowSet(rows) && q in RowSet(rows);
    assert k < i;
  }

  /** A limit that admits every row cuts nothing off. */
  lemma AllOfThem<T>(before: (T, T) -> bool, candidates: set<T>, page: set<T>)
    requires Leading(before, candidates, page, |candidates|)
    ensures page == candidates
  {
    if page != candidates {
      var b :| b in candidates && b !in page;
      SubsetSize(page + {b}, candidates);
    }
  }
}
