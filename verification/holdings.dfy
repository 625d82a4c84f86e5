/**
 * One row of the unrealized gains/losses report and the column sums the
 * planner takes over rows.  Amounts are exact reals: the model does not
 * reproduce floating-point rounding.
 */
module Holdings {

  /** A position: its identifiers and the three numeric columns after clean-up. */
  datatype Holding = Holding(
    symbol: string,
    name: string,
    marketValue: real,
    gainLossAbs: real,
    gainLossPct: real)

  /** The numeric columns the planner adds up. */
  datatype Column = MarketValue | GainLossAbs

  function Amount(h: Holding, c: Column): real {
    match c
    case MarketValue => h.marketValue
    case GainLossAbs => h.gainLossAbs
  }

  /** The sum of one column over a sequence of rows; zero for no rows. */
  function Sum(rows: seq<Holding>, c: Column): real {
    if |rows| == 0 then 0.0 else Amount(rows[0], c) + Sum(rows[1..], c)
  }

  /** Total market value of the holdings. */
  function Total(rows: seq<Holding>): real {
    Sum(rows, MarketValue)
  }

  /** A column sum splits over a concatenation. */
  lemma {:induction false} SumAppend(a: seq<Holding>, b: seq<Holding>, c: Column)
    ensures Sum(a + b, c) == Sum(a, c) + Sum(b, c)
  {
    if |a| == 0 {
      assert a + b == b;
    } else {
      assert (a + b)[1..] == a[1..] + b;
      SumAppend(a[1..], b, c);
    }
  }

  /** Extending a prefix by one row adds that row's amount. */
  lemma PrefixSumStep(rows: seq<Holding>, i: nat, c: Column)
    requires i < |rows|
    ensures Sum(rows[..i + 1], c) == Sum(rows[..i], c) + Amount(rows[i], c)
  {
    assert rows[..i + 1] == rows[..i] + [rows[i]];
    SumAppend(rows[..i], [rows[i]], c);
  }

  /** Taking row `k` out of a sequence takes exactly one copy of it out of the multiset. */
  lemma RemoveAtMultiset(b: seq<Holding>, k: nat)
    requires k < |b|
    ensures multiset(b[..k] + b[k + 1..]) == multiset(b) - multiset{b[k]}
  {
    assert b == b[..k] + [b[k]] + b[k + 1..];
  }

  /** The first row of `a` sits somewhere in a permutation `b`; removing both leaves permutations. */
  lemma MatchFirst(a: seq<Holding>, b: seq<Holding>) returns (k: nat)
    requires |a| > 0 && multiset(a) == multiset(b)
    ensures k < |b| && b[k] == a[0]
    ensures multiset(a[1..]) == multiset(b[..k] + b[k + 1..])
  {
    assert a[0] in multiset(a);
    assert a[0] in b;
    k :| 0 <= k < |b| && b[k] == a[0];
    RemoveAtMultiset(b, k);
    assert a == [a[0]] + a[1..];
    assert multiset(a) == multiset{a[0]} + multiset(a[1..]);
  }

  /** A column sum depends only on the multiset of rows, not on their order. */
  lemma {:induction false} SumPermutation(a: seq<Holding>, b: seq<Holding>, c: Column)
    requires multiset(a) == multiset(b)
    ensures Sum(a, c) == Sum(b, c)
  {
    if |a| == 0 {
      assert |b| == |multiset(b)| == 0;
    } else {
      var k := MatchFirst(a, b);
      SumPermutation(a[1..], b[..k] + b[k + 1..], c);
      SumRemoveAt(b, k, c);
    }
  }

  /** Taking row `k` out of a sequence takes its amount out of the sum. */
  lemma SumRemoveAt(b: seq<Holding>, k: nat, c: Column)
    requires k < |b|
    ensures Sum(b, c) == Sum(b[..k] + b[k + 1..], c) + Amount(b[k], c)
  {
    assert b == b[..k] + [b[k]] + b[k + 1..];
    SumAppend(b[..k] + [b[k]], b[k + 1..], c);
    SumAppend(b[..k], [b[k]], c);
    SumAppend(b[..k], b[k + 1..], c);
  }

  /** The total market value is the same in every order of the rows. */
  lemma TotalPermutationInvariant(a: seq<Holding>, b: seq<Holding>)
    requires multiset(a) == multiset(b)
    ensures Total(a) == Total(b)
  {
    SumPermutation(a, b, MarketValue);
  }

  /** Rows whose amounts are all negative have a negative sum, unless there are none. */
  lemma {:induction false} SumOfNegatives(rows: seq<Holding>, c: Column)
    requires |rows| > 0
    requires forall i :: 0 <= i < |rows| ==> Amount(rows[i], c) < 0.0
    ensures Sum(rows, c) < 0.0
  {
    if |rows| > 1 {
      SumOfNegatives(rows[1..], c);
    }
  }

  /** Rows whose amounts are all non-negative have a non-negative sum. */
  lemma {:induction false} SumOfNonNegatives(rows: seq<Holding>, c: Column)
    requires forall i :: 0 <= i < |rows| ==> Amount(rows[i], c) >= 0.0
    ensures Sum(rows, c) >= 0.0
  {
    if |rows| > 0 {
      SumOfNonNegatives(rows[1..], c);
    }
  }
}
