/**
 * Ordering the rows by gain/loss percentage.  The source sorts with the
 * table library's default algorithm, which is not stable, so the order of
 * rows with equal percentages is not determined: the planner accepts any
 * sorted permutation of its input, and `SortByPct` is one way to build one.
 */
module Sorting {
  import opened Holdings

  /** Non-decreasing in gain/loss percentage. */
  predicate SortedByPct(rows: seq<Holding>) {
    forall i, j :: 0 <= i < j < |rows| ==> rows[i].gainLossPct <= rows[j].gainLossPct
  }

  /** Strictly increasing in gain/loss percentage: no two rows tie. */
  predicate StrictlySortedByPct(rows: seq<Holding>) {
    forall i, j :: 0 <= i < j < |rows| ==> rows[i].gainLossPct < rows[j].gainLossPct
  }

  /** `order` is a possible outcome of sorting `rows` ascending by percentage. */
  predicate SortedPermutation(order: seq<Holding>, rows: seq<Holding>) {
    multiset(order) == multiset(rows) && SortedByPct(order)
  }

  /** Puts `h` into a sorted sequence in front of the first row with a percentage at least its own. */
  function Insert(h: Holding, rows: seq<Holding>): (r: seq<Holding>)
    requires SortedByPct(rows)
    ensures SortedByPct(r)
    ensures multiset(r) == multiset(rows) + multiset{h}
    ensures |r| == |rows| + 1
  {
    if |rows| == 0 || h.gainLossPct <= rows[0].gainLossPct then
      [h] + rows
    else
      var rest := Insert(h, rows[1..]);
      InsertBehindHead(h, rows, rest);
      [rows[0]] + rest
  }

  /** A row placed in front of a sorted sequence of rows no smaller than it keeps the whole sorted. */
  lemma InsertBehindHead(h: Holding, rows: seq<Holding>, rest: seq<Holding>)
    requires SortedByPct(rows) && |rows| > 0 && rows[0].gainLossPct < h.gainLossPct
    requires SortedByPct(rest) && multiset(rest) == multiset(rows[1..]) + multiset{h}
    ensures SortedByPct([rows[0]] + rest)
    ensures multiset([rows[0]] + rest) == multiset(rows) + multiset{h}
  {
    assert rows == [rows[0]] + rows[1..];
    forall k | 0 <= k < |rest|
      ensures rows[0].gainLossPct <= rest[k].gainLossPct
    {
      assert rest[k] in multiset(rest);
      if rest[k] != h {
        assert rest[k] in multiset(rows[1..]);
        assert rest[k] in rows[1..];
      }
    }
  }

  /** Sorts ascending by gain/loss percentage. */
  function SortByPct(rows: seq<Holding>): (r: seq<Holding>)
    ensures SortedPermutation(r, rows)
  {
    if |rows| == 0 then []
    else
      assert rows == [rows[0]] + rows[1..];
      Insert(rows[0], SortByPct(rows[1..]))
  }

  /** Finds a position of a row known to occur in `rows`. */
  lemma IndexOf(h: Holding, rows: seq<Holding>) returns (m: nat)
    requires h in multiset(rows)
    ensures m < |rows| && rows[m] == h
  {
    assert h in rows;
    m :| 0 <= m < |rows| && rows[m] == h;
  }

  /**
   * When no two rows share a percentage the sorted order is unique, so every
   * sorting algorithm, stable or not, produces the same sequence.
   */
  lemma {:induction false} SortedPermutationUnique(a: seq<Holding>, b: seq<Holding>)
    requires multiset(a) == multiset(b)
    requires StrictlySortedByPct(a)
    requires SortedByPct(b)
    ensures a == b
  {
    if |a| == 0 {
      assert |b| == |multiset(b)| == 0;
    } else {
      assert a[0] in multiset(a);
      var k := IndexOf(a[0], b);
      assert |b| == |multiset(b)| > 0;
      assert b[0] in multiset(b);
      var m := IndexOf(b[0], a);
      assert a[m].gainLossPct <= a[0].gainLossPct by {
        assert b[0].gainLossPct <= b[k].gainLossPct;
      }
      assert m == 0;
      assert a == [a[0]] + a[1..];
      assert b == [b[0]] + b[1..];
      assert multiset(a[1..]) == multiset(b[1..]) by {
        assert a[0] == b[0];
        assert multiset(a) == multiset{a[0]} + multiset(a[1..]);
        assert multiset(b) == multiset{b[0]} + multiset(b[1..]);
        assert multiset(a[1..]) == multiset(a) - multiset{a[0]};
        assert multiset(b[1..]) == multiset(b) - multiset{b[0]};
      }
      SortedPermutationUnique(a[1..], b[1..]);
    }
  }
}
