/**
 * The harvest planner: after sorting by gain/loss percentage, a row is marked
 * for sale exactly when the running sum of gain/loss dollars up to and
 * including it is negative.  The rows are then split into a sell group and a
 * keep group, each group is summarised (count, market value, percentage of
 * the total), and the realized gain/loss of the sell group is reported.
 */
module Harvest {
  import opened Results
  import opened Holdings
  import opened Sorting

  /** A row together with its sell flag. */
  datatype Tagged = Tagged(holding: Holding, sell: bool)

  /** The running sum of gain/loss dollars over positions 0..i of `order`. */
  function CumGainLoss(order: seq<Holding>, i: nat): real
    requires i < |order|
  {
    Sum(order[..i + 1], GainLossAbs)
  }

  /** The loss part of an amount: the amount itself when negative, otherwise zero. */
  function LossPart(x: real): real {
    if x < 0.0 then x else 0.0
  }

  /** The rows of a tagged sequence, flags dropped. */
  function Rows(t: seq<Tagged>): (rows: seq<Holding>)
    ensures |rows| == |t|
    ensures forall i :: 0 <= i < |t| ==> rows[i] == t[i].holding
  {
    if |t| == 0 then [] else [t[0].holding] + Rows(t[1..])
  }

  /** A prefix of `rows` extended by one row, seen from the second row on. */
  lemma PrefixShift(rows: seq<Holding>, i: nat)
    requires i + 1 < |rows|
    ensures Sum(rows[..i + 2], GainLossAbs) == rows[0].gainLossAbs + Sum(rows[1..][..i + 1], GainLossAbs)
  {
    assert rows[..i + 2][1..] == rows[1..][..i + 1];
  }

  /** Every prefix sum of `rows` is the first row's amount plus a prefix sum of the remaining rows. */
  lemma PrefixSumsShift(rows: seq<Holding>)
    requires |rows| > 0
    ensures Sum(rows[..1], GainLossAbs) == rows[0].gainLossAbs
    ensures forall i :: 0 < i < |rows| ==>
      Sum(rows[..i + 1], GainLossAbs) == rows[0].gainLossAbs + Sum(rows[1..][..i], GainLossAbs)
  {
    forall i | 0 < i < |rows|
      ensures Sum(rows[..i + 1], GainLossAbs) == rows[0].gainLossAbs + Sum(rows[1..][..i], GainLossAbs)
    {
      PrefixShift(rows, i - 1);
    }
    assert rows[..1][1..] == [];
  }

  /**
   * The cumulative-sum scan: `before` is the running sum of the rows already
   * scanned, and each row is flagged when the running sum including it is
   * negative.
   */
  function TagFrom(rows: seq<Holding>, before: real): (t: seq<Tagged>)
    ensures |t| == |rows|
    ensures forall i :: 0 <= i < |t| ==> t[i].holding == rows[i]
    ensures forall i {:trigger t[i]} :: 0 <= i < |t| ==>
      (t[i].sell <==> before + Sum(rows[..i + 1], GainLossAbs) < 0.0)
  {
    if |rows| == 0 then []
    else
      var running := before + rows[0].gainLossAbs;
      var rest := TagFrom(rows[1..], running);
      PrefixSumsShift(rows);
      [Tagged(rows[0], running < 0.0)] + rest
  }

  /** Flags the rows of a sorted order for sale: row i is sold iff the running sum through i is negative. */
  function Tag(order: seq<Holding>): (t: seq<Tagged>)
    ensures Rows(t) == order
    ensures forall i :: 0 <= i < |t| ==> (t[i].sell <==> CumGainLoss(order, i) < 0.0)
  {
    var t := TagFrom(order, 0.0);
    assert Rows(t) == order;
    t
  }

  /** The row of `x` if it carries flag `sell`, otherwise nothing. */
  function Pick(x: Tagged, sell: bool): seq<Holding> {
    if x.sell == sell then [x.holding] else []
  }

  /** The rows carrying flag `sell`, in their order in `t`. */
  function Group(t: seq<Tagged>, sell: bool): (g: seq<Holding>)
    ensures |g| <= |t|
  {
    if |t| == 0 then [] else Pick(t[0], sell) + Group(t[1..], sell)
  }

  /** The rows to sell, in sorted order. */
  function SellGroup(order: seq<Holding>): seq<Holding> {
    Group(Tag(order), true)
  }

  /** The rows to keep, in sorted order. */
  function KeepGroup(order: seq<Holding>): seq<Holding> {
    Group(Tag(order), false)
  }

  /** The realized gain/loss: gain/loss dollars summed over the sell group. */
  function Realized(order: seq<Holding>): real {
    Sum(SellGroup(order), GainLossAbs)
  }

  /** Grouping distributes over concatenation: it keeps the order of the rows. */
  lemma {:induction false} GroupAppend(a: seq<Tagged>, b: seq<Tagged>, sell: bool)
    ensures Group(a + b, sell) == Group(a, sell) + Group(b, sell)
  {
    if |a| == 0 {
      assert a + b == b;
    } else {
      var ab := a + b;
      assert ab[0] == a[0];
      assert ab[1..] == a[1..] + b;
      GroupAppend(a[1..], b, sell);
      calc {
        Group(ab, sell);
        Pick(a[0], sell) + Group(a[1..] + b, sell);
        Pick(a[0], sell) + (Group(a[1..], sell) + Group(b, sell));
        (Pick(a[0], sell) + Group(a[1..], sell)) + Group(b, sell);
      }
    }
  }

  /** A group is empty exactly when no row carries its flag. */
  lemma {:induction false} GroupEmptyIff(t: seq<Tagged>, sell: bool)
    ensures Group(t, sell) == [] <==> forall i :: 0 <= i < |t| ==> t[i].sell != sell
  {
    if |t| > 0 {
      GroupEmptyIff(t[1..], sell);
      assert forall i :: 0 < i < |t| ==> t[1..][i - 1] == t[i];
    }
  }

  /** The two groups split the rows: counts, column sums and multisets add up. */
  lemma GroupsPartition(t: seq<Tagged>, c: Column)
    ensures |Group(t, true)| + |Group(t, false)| == |t|
    ensures Sum(Group(t, true), c) + Sum(Group(t, false), c) == Sum(Rows(t), c)
    ensures multiset(Group(t, true)) + multiset(Group(t, false)) == multiset(Rows(t))
  {
    GroupsSplitMultiset(t);
    GroupsSplitSum(t, c);
    GroupsCount(t);
  }

  /** The sizes of the two groups add up to the number of rows. */
  lemma {:induction false} GroupsCount(t: seq<Tagged>)
    ensures |Group(t, true)| + |Group(t, false)| == |t|
  {
    if |t| > 0 {
      GroupsCount(t[1..]);
      assert |Pick(t[0], true)| + |Pick(t[0], false)| == 1;
    }
  }

  /** Both picks of one row together hold exactly that row. */
  lemma PickBoth(x: Tagged)
    ensures multiset(Pick(x, true)) + multiset(Pick(x, false)) == multiset{x.holding}
  {
  }

  /** The multisets of the two groups add up to the multiset of the rows. */
  lemma {:induction false} GroupsSplitMultiset(t: seq<Tagged>)
    ensures multiset(Group(t, true)) + multiset(Group(t, false)) == multiset(Rows(t))
  {
    if |t| > 0 {
      GroupsSplitMultiset(t[1..]);
      PickBoth(t[0]);
      assert multiset(Group(t, true)) == multiset(Pick(t[0], true)) + multiset(Group(t[1..], true));
      assert multiset(Group(t, false)) == multiset(Pick(t[0], false)) + multiset(Group(t[1..], false));
    }
  }

  /** The column sums of the two groups add up to the column sum of the rows. */
  lemma {:induction false} GroupsSplitSum(t: seq<Tagged>, c: Column)
    ensures Sum(Group(t, true), c) + Sum(Group(t, false), c) == Sum(Rows(t), c)
  {
    if |t| > 0 {
      GroupsSplitSum(t[1..], c);
      var x := t[0];
      SumAppend([x.holding], Rows(t[1..]), c);
      SumAppend(Pick(x, true), Group(t[1..], true), c);
      SumAppend(Pick(x, false), Group(t[1..], false), c);
      assert Sum(Pick(x, true), c) + Sum(Pick(x, false), c) == Sum([x.holding], c) by {
        assert [x.holding][1..] == [];
      }
    }
  }

  /** The first row of the sorted order is sold exactly when it is itself a loss. */
  lemma FirstSoldIffLoss(order: seq<Holding>)
    requires |order| > 0
    ensures Tag(order)[0].sell <==> order[0].gainLossAbs < 0.0
  {
    assert order[..1][1..] == [];
  }

  /** Nothing is sold exactly when no running sum is negative. */
  lemma SellGroupEmptyIff(order: seq<Holding>)
    ensures SellGroup(order) == [] <==>
      forall i :: 0 <= i < |order| ==> CumGainLoss(order, i) >= 0.0
  {
    var t := Tag(order);
    GroupEmptyIff(t, true);
    assert forall i :: 0 <= i < |order| ==> (t[i].sell <==> CumGainLoss(order, i) < 0.0);
  }

  /** Sell and keep together hold every row: counts, market value and multiset are conserved. */
  lemma SellKeepConservation(records: seq<Holding>, order: seq<Holding>)
    requires SortedPermutation(order, records)
    ensures |SellGroup(order)| + |KeepGroup(order)| == |records|
    ensures Sum(SellGroup(order), MarketValue) + Sum(KeepGroup(order), MarketValue) == Total(records)
    ensures multiset(SellGroup(order)) + multiset(KeepGroup(order)) == multiset(records)
  {
    GroupsPartition(Tag(order), MarketValue);
    TotalPermutationInvariant(order, records);
    assert |order| == |multiset(order)| == |records|;
  }

  /**
   * Bound on the realized amount of a scan that starts from running sum
   * `before`: it never exceeds the loss part of the final running sum minus
   * the loss part of the starting one.
   */
  lemma {:induction false} RealizedFromBound(rows: seq<Holding>, before: real)
    ensures Sum(Group(TagFrom(rows, before), true), GainLossAbs)
      <= LossPart(before + Sum(rows, GainLossAbs)) - LossPart(before)
  {
    if |rows| > 0 {
      var running := before + rows[0].gainLossAbs;
      RealizedFromBound(rows[1..], running);
      ScanStep(rows, before);
    }
  }

  /** One step of the scan: the first row is sold iff the running sum including it is negative. */
  lemma ScanStep(rows: seq<Holding>, before: real)
    requires |rows| > 0
    ensures var running := before + rows[0].gainLossAbs;
      var rest := Group(TagFrom(rows[1..], running), true);
      Sum(Group(TagFrom(rows, before), true), GainLossAbs)
        == (if running < 0.0 then rows[0].gainLossAbs else 0.0) + Sum(rest, GainLossAbs)
      && (Group(TagFrom(rows, before), true) == [] <==> running >= 0.0 && rest == [])
      && Sum(rows, GainLossAbs) == rows[0].gainLossAbs + Sum(rows[1..], GainLossAbs)
  {
    var running := before + rows[0].gainLossAbs;
    var t := TagFrom(rows, before);
    assert t[1..] == TagFrom(rows[1..], running);
    assert rows[..1][1..] == [];
    assert t[0].sell <==> running < 0.0;
    var rest := Group(t[1..], true);
    if running < 0.0 {
      assert Group(t, true) == [rows[0]] + rest;
      SumAppend([rows[0]], rest, GainLossAbs);
    } else {
      assert Group(t, true) == rest;
    }
  }

  /** A scan that sells something realizes strictly less than minus the loss part of its start. */
  lemma {:induction false} RealizedFromStrict(rows: seq<Holding>, before: real)
    requires Group(TagFrom(rows, before), true) != []
    ensures Sum(Group(TagFrom(rows, before), true), GainLossAbs) < -LossPart(before)
  {
    var running := before + rows[0].gainLossAbs;
    ScanStep(rows, before);
    var rest := Group(TagFrom(rows[1..], running), true);
    if rest != [] {
      RealizedFromStrict(rows[1..], running);
    }
    if running < 0.0 {
      RealizedFromBound(rows[1..], running);
    }
  }

  /**
   * The realized figure is a loss: never positive, strictly negative when
   * something is sold, and at least as large a loss as the net gain/loss of
   * all rows.
   */
  lemma RealizedIsLoss(order: seq<Holding>)
    ensures Realized(order) <= 0.0
    ensures Realized(order) <= Sum(order, GainLossAbs)
    ensures SellGroup(order) != [] ==> Realized(order) < 0.0
  {
    SellGroupIsScan(order);
    ScanFromZeroBound(order);
    if SellGroup(order) != [] {
      RealizedFromStrict(order, 0.0);
    }
  }

  /** The scan started from zero realizes at most zero and at most the net gain/loss. */
  lemma ScanFromZeroBound(order: seq<Holding>)
    ensures Sum(Group(TagFrom(order, 0.0), true), GainLossAbs) <= 0.0
    ensures Sum(Group(TagFrom(order, 0.0), true), GainLossAbs) <= Sum(order, GainLossAbs)
  {
    RealizedFromBound(order, 0.0);
    LossPartBounds(0.0 + Sum(order, GainLossAbs));
  }

  /** The loss part of an amount is at most zero and at most the amount. */
  lemma LossPartBounds(x: real)
    ensures LossPart(x) <= 0.0 && LossPart(x) <= x
    ensures LossPart(0.0) == 0.0
  {
  }

  /** The sell group is the sell group of the scan started from zero. */
  lemma SellGroupIsScan(order: seq<Holding>)
    ensures SellGroup(order) == Group(TagFrom(order, 0.0), true)
  {
  }

  /** Gain/loss dollars and percentage have the same sign, as they do for a real position. */
  predicate SignsAgree(h: Holding) {
    h.gainLossAbs < 0.0 <==> h.gainLossPct < 0.0
  }

  /** Every sold row is preceded only by sold rows. */
  predicate SoldPrefix(t: seq<Tagged>) {
    forall i, j :: 0 <= i < j < |t| && t[j].sell ==> t[i].sell
  }

  /** When the sold rows form a prefix, the sell group is exactly that prefix. */
  lemma {:induction false} PrefixGroup(t: seq<Tagged>)
    requires SoldPrefix(t)
    ensures Group(t, true) == Rows(t)[..|Group(t, true)|]
    ensures forall i :: 0 <= i < |t| ==> (t[i].sell <==> i < |Group(t, true)|)
  {
    if |t| > 0 {
      if t[0].sell {
        assert SoldPrefix(t[1..]);
        PrefixGroup(t[1..]);
        assert Rows(t) == [t[0].holding] + Rows(t[1..]);
        assert forall i :: 0 < i < |t| ==> t[1..][i - 1] == t[i];
      } else {
        GroupEmptyIff(t, true);
      }
    }
  }

  /** With agreeing signs, the running sum through a sold row is negative at every earlier row too. */
  lemma EarlierRunningSumNegative(order: seq<Holding>, i: nat, j: nat)
    requires SortedByPct(order)
    requires forall k :: 0 <= k < |order| ==> SignsAgree(order[k])
    requires i < j < |order|
    requires CumGainLoss(order, j) < 0.0
    ensures CumGainLoss(order, i) < 0.0
  {
    if order[i].gainLossAbs < 0.0 {
      var p := order[..i + 1];
      assert forall k :: 0 <= k < |p| ==> Amount(p[k], GainLossAbs) < 0.0 by {
        forall k | 0 <= k < |p|
          ensures Amount(p[k], GainLossAbs) < 0.0
        {
          assert order[k].gainLossPct <= order[i].gainLossPct;
        }
      }
      SumOfNegatives(p, GainLossAbs);
    } else {
      var q := order[i + 1..j + 1];
      assert forall k :: 0 <= k < |q| ==> Amount(q[k], GainLossAbs) >= 0.0 by {
        forall k | 0 <= k < |q|
          ensures Amount(q[k], GainLossAbs) >= 0.0
        {
          assert q[k] == order[i + 1 + k];
          assert order[i].gainLossPct <= order[i + 1 + k].gainLossPct;
        }
      }
      SumOfNonNegatives(q, GainLossAbs);
      assert order[..j + 1] == order[..i + 1] + q;
      SumAppend(order[..i + 1], q, GainLossAbs);
    }
  }

  /**
   * When every row's dollar and percentage figures agree in sign, selling
   * stops at the first row where the running sum is no longer negative: the
   * sell group is a prefix of the sorted order and the realized figure is
   * the running sum at its last row, which is negative.
   */
  lemma SellGroupIsPrefix(order: seq<Holding>)
    requires SortedByPct(order)
    requires forall k :: 0 <= k < |order| ==> SignsAgree(order[k])
    ensures SellGroup(order) == order[..|SellGroup(order)|]
    ensures forall i :: 0 <= i < |order| ==> (Tag(order)[i].sell <==> i < |SellGroup(order)|)
    ensures |SellGroup(order)| > 0 ==>
      Realized(order) == CumGainLoss(order, |SellGroup(order)| - 1) < 0.0
  {
    var t := Tag(order);
    forall i, j | 0 <= i < j < |t| && t[j].sell
      ensures t[i].sell
    {
      EarlierRunningSumNegative(order, i, j);
    }
    PrefixGroup(t);
    if |SellGroup(order)| > 0 {
      RealizedAtPrefix(order);
    }
  }

  /**
   * Whenever the sold rows come first, whatever the signs, the realized
   * figure is the running sum at the last sold row, and it is negative.
   */
  lemma RealizedAtPrefix(order: seq<Holding>)
    requires SoldPrefix(Tag(order)) && SellGroup(order) != []
    ensures Realized(order) == CumGainLoss(order, |SellGroup(order)| - 1) < 0.0
  {
    PrefixGroup(Tag(order));
  }

  /** One line of the sell/keep table: the group's flag, row count, market value and share of the total. */
  datatype GroupRow = GroupRow(sell: bool, count: nat, sum: real, pct: Option<real>)

  /** `100 * part / total`; the source divides without a guard, so a zero total has no percentage. */
  function Percent(part: real, total: real): (p: Option<real>)
    ensures p.Some? <==> total != 0.0
  {
    if total == 0.0 then None else Some(100.0 * part / total)
  }

  /** The summary line of one group. */
  function SummaryRow(g: seq<Holding>, sell: bool, total: real): GroupRow {
    GroupRow(sell, |g|, Sum(g, MarketValue), Percent(Sum(g, MarketValue), total))
  }

  /** One summary line per group that has rows; group keys come out ordered, keep (false) before sell (true). */
  function SummarizeGroups(keep: seq<Holding>, sell: seq<Holding>, total: real): (rows: seq<GroupRow>)
    ensures forall k :: 0 <= k < |rows| ==> rows[k].count > 0
    ensures forall k, l :: 0 <= k < l < |rows| ==> !rows[k].sell && rows[l].sell
    ensures sell != [] <==> exists k :: 0 <= k < |rows| && rows[k].sell
    ensures keep != [] <==> exists k :: 0 <= k < |rows| && !rows[k].sell
    ensures forall k :: 0 <= k < |rows| ==>
      var g := if rows[k].sell then sell else keep;
      rows[k].count == |g| && rows[k].sum == Sum(g, MarketValue)
      && rows[k].pct == Percent(Sum(g, MarketValue), total)
  {
    if keep != [] && sell != [] then
      var rows := [SummaryRow(keep, false, total), SummaryRow(sell, true, total)];
      assert !rows[0].sell && rows[1].sell;
      rows
    else if keep != [] then
      var rows := [SummaryRow(keep, false, total)];
      assert !rows[0].sell;
      rows
    else if sell != [] then
      var rows := [SummaryRow(sell, true, total)];
      assert rows[0].sell;
      rows
    else []
  }

  /** The sell/keep table of a tagged sequence. */
  function Summarize(t: seq<Tagged>, total: real): seq<GroupRow> {
    SummarizeGroups(Group(t, false), Group(t, true), total)
  }

  function RowCounts(rows: seq<GroupRow>): nat {
    if |rows| == 0 then 0 else rows[0].count + RowCounts(rows[1..])
  }

  function RowSums(rows: seq<GroupRow>): real {
    if |rows| == 0 then 0.0 else rows[0].sum + RowSums(rows[1..])
  }

  /** The percentages of the summary lines added up; a missing percentage adds nothing. */
  function RowPercents(rows: seq<GroupRow>): real {
    if |rows| == 0 then 0.0
    else (if rows[0].pct.Some? then rows[0].pct.value else 0.0) + RowPercents(rows[1..])
  }

  /** Percentages of two parts of a non-zero total add up to 100. */
  lemma PercentsAddUp(a: real, b: real, total: real)
    requires total != 0.0 && a + b == total
    ensures Percent(a, total).value + Percent(b, total).value == 100.0
  {
    assert Percent(a, total).value == 100.0 * a / total;
    assert Percent(b, total).value == 100.0 * b / total;
    assert 100.0 * a / total + 100.0 * b / total == (100.0 * a + 100.0 * b) / total;
    assert 100.0 * a + 100.0 * b == 100.0 * total;
    assert 100.0 * total / total == 100.0;
  }

  /**
   * The summary conserves the input: the counts add up to the number of
   * rows, the sums to the total market value, and, for a non-zero total, the
   * percentages to 100.
   */
  lemma SummaryConservation(t: seq<Tagged>)
    ensures RowCounts(Summarize(t, Sum(Rows(t), MarketValue))) == |t|
    ensures RowSums(Summarize(t, Sum(Rows(t), MarketValue))) == Sum(Rows(t), MarketValue)
    ensures Sum(Rows(t), MarketValue) != 0.0 ==>
      RowPercents(Summarize(t, Sum(Rows(t), MarketValue))) == 100.0
  {
    GroupsSplitSum(t, MarketValue);
    GroupsCount(t);
    GroupsSummaryConservation(Group(t, false), Group(t, true), Sum(Rows(t), MarketValue));
  }

  /** The table of two groups that share the total between them accounts for all of it. */
  lemma GroupsSummaryConservation(keep: seq<Holding>, sell: seq<Holding>, total: real)
    requires total == Sum(keep, MarketValue) + Sum(sell, MarketValue)
    ensures RowCounts(SummarizeGroups(keep, sell, total)) == |keep| + |sell|
    ensures RowSums(SummarizeGroups(keep, sell, total)) == total
    ensures total != 0.0 ==> RowPercents(SummarizeGroups(keep, sell, total)) == 100.0
  {
    if keep != [] && sell != [] {
      assert SummarizeGroups(keep, sell, total) == [SummaryRow(keep, false, total), SummaryRow(sell, true, total)];
      TwoGroupSummary(keep, sell, total);
    } else if keep != [] {
      assert SummarizeGroups(keep, sell, total) == [SummaryRow(keep, false, total)];
      OneGroupSummary(keep, false, total);
    } else if sell != [] {
      assert SummarizeGroups(keep, sell, total) == [SummaryRow(sell, true, total)];
      OneGroupSummary(sell, true, total);
    } else {
      assert SummarizeGroups(keep, sell, total) == [];
    }
  }

  /** The line of a group that holds all of the money. */
  lemma OneGroupSummary(g: seq<Holding>, sell: bool, total: real)
    requires total == Sum(g, MarketValue)
    ensures RowCounts([SummaryRow(g, sell, total)]) == |g|
    ensures RowSums([SummaryRow(g, sell, total)]) == total
    ensures total != 0.0 ==> RowPercents([SummaryRow(g, sell, total)]) == 100.0
  {
    OneRowTotals(SummaryRow(g, sell, total));
    if total != 0.0 {
      PercentsAddUp(total, 0.0, total);
    }
  }

  /** The lines of two groups that share the money between them. */
  lemma TwoGroupSummary(keep: seq<Holding>, sell: seq<Holding>, total: real)
    ensures RowCounts([SummaryRow(keep, false, total), SummaryRow(sell, true, total)]) == |keep| + |sell|
    ensures RowSums([SummaryRow(keep, false, total), SummaryRow(sell, true, total)])
      == Sum(keep, MarketValue) + Sum(sell, MarketValue)
    ensures total != 0.0 && total == Sum(keep, MarketValue) + Sum(sell, MarketValue) ==>
      RowPercents([SummaryRow(keep, false, total), SummaryRow(sell, true, total)]) == 100.0
  {
    var rk := SummaryRow(keep, false, total);
    var rs := SummaryRow(sell, true, total);
    TwoRowTotals(rk, rs);
    if total != 0.0 && total == rk.sum + rs.sum {
      PercentsAddUp(rk.sum, rs.sum, total);
    }
  }

  lemma OneRowTotals(r: GroupRow)
    ensures RowCounts([r]) == r.count && RowSums([r]) == r.sum
    ensures RowPercents([r]) == if r.pct.Some? then r.pct.value else 0.0
  {
    assert [r][1..] == [];
  }

  lemma TwoRowTotals(r1: GroupRow, r2: GroupRow)
    ensures RowCounts([r1, r2]) == r1.count + r2.count
    ensures RowSums([r1, r2]) == r1.sum + r2.sum
    ensures r1.pct.Some? && r2.pct.Some? ==> RowPercents([r1, r2]) == r1.pct.value + r2.pct.value
  {
    assert [r1, r2][1..] == [r2];
    OneRowTotals(r2);
  }

  /** The report the command prints. */
  datatype Report = Report(
    total: real,
    stockCount: nat,
    summary: seq<GroupRow>,
    realized: real,
    toSell: seq<Holding>)

  /** Asking for the sell group when nothing is to be sold raises a lookup error. */
  datatype PlanError = NoStocksToSell

  /**
   * The whole computation for one possible sorted order of the records; the
   * order of rows with equal percentages is not fixed by the source.
   */
  function PlanWith(records: seq<Holding>, order: seq<Holding>): (r: Result<Report, PlanError>)
    requires SortedPermutation(order, records)
    ensures r.Err? <==> forall i :: 0 <= i < |order| ==> CumGainLoss(order, i) >= 0.0
    ensures r.Ok? ==> r.value.stockCount == |records| && 0 < |r.value.toSell| <= |records|
    ensures r.Ok? ==> multiset(r.value.toSell) <= multiset(records)
    ensures r.Ok? ==> r.value.realized < 0.0
    ensures r.Ok? ==> (r.value.total == Total(records)
      && r.value.toSell == SellGroup(order) && r.value.realized == Realized(order))
    ensures r.Ok? ==> r.value.summary == SummarizeGroups(KeepGroup(order), SellGroup(order), r.value.total)
  {
    var t := Tag(order);
    var total := Total(records);
    var toSell := Group(t, true);
    SellGroupEmptyIff(order);
    if toSell == [] then Err(NoStocksToSell)
    else
      SellKeepConservation(records, order);
      RealizedIsLoss(order);
      Ok(Report(total, |records|, Summarize(t, total), Sum(toSell, GainLossAbs), toSell))
  }

  /** The report's summary lines account for every record, all of the money and 100 percent. */
  lemma PlanConservation(records: seq<Holding>, order: seq<Holding>)
    requires SortedPermutation(order, records)
    ensures PlanWith(records, order).Ok? ==>
      var rep := PlanWith(records, order).value;
      RowCounts(rep.summary) == rep.stockCount
      && RowSums(rep.summary) == rep.total == Total(records)
      && (rep.total != 0.0 ==> RowPercents(rep.summary) == 100.0)
  {
    var t := Tag(order);
    TotalPermutationInvariant(order, records);
    assert |order| == |multiset(order)| == |records|;
    GroupsPartition(t, MarketValue);
    SummaryConservation(t);
  }

  /**
   * A portfolio with a net loss always has something to sell, whatever the
   * order of ties: the last running sum is the net gain/loss of all rows,
   * and the realized loss is at least that large.
   */
  lemma NetLossHarvests(records: seq<Holding>, order: seq<Holding>)
    requires SortedPermutation(order, records)
    requires Sum(records, GainLossAbs) < 0.0
    ensures PlanWith(records, order).Ok?
    ensures PlanWith(records, order).value.realized <= Sum(records, GainLossAbs)
  {
    SumPermutation(order, records, GainLossAbs);
    assert |order| == |multiset(order)| == |records|;
    assert order[..|order|] == order;
    assert CumGainLoss(order, |order| - 1) < 0.0;
    RealizedIsLoss(order);
  }

  /** A portfolio without a single losing row has nothing to sell. */
  lemma NoLosersNothingToSell(records: seq<Holding>, order: seq<Holding>)
    requires SortedPermutation(order, records)
    requires forall k :: 0 <= k < |records| ==> records[k].gainLossAbs >= 0.0
    ensures PlanWith(records, order) == Err(NoStocksToSell)
  {
    forall i | 0 <= i < |order|
      ensures CumGainLoss(order, i) >= 0.0
    {
      var p := order[..i + 1];
      forall k | 0 <= k < |p|
        ensures Amount(p[k], GainLossAbs) >= 0.0
      {
        assert p[k] in multiset(records) by {
          assert p[k] == order[k];
          assert order[k] in multiset(order);
        }
        assert p[k] in records;
      }
      SumOfNonNegatives(p, GainLossAbs);
    }
  }

  /** When no two records share a percentage, every sorting algorithm leads to the same report. */
  lemma PlanDeterministicWithoutTies(records: seq<Holding>, order1: seq<Holding>, order2: seq<Holding>)
    requires SortedPermutation(order1, records) && SortedPermutation(order2, records)
    requires StrictlySortedByPct(order1)
    ensures PlanWith(records, order1) == PlanWith(records, order2)
  {
    SortedPermutationUnique(order1, order2);
  }
}
