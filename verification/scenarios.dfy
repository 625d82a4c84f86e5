/**
 * Worked examples of the planner on small portfolios, including the two
 * behaviours a reader of the code might not expect: the order of rows with
 * equal percentages changes the plan, and a row can be sold after a row
 * that is kept.
 */
module Scenarios {
  import opened Results
  import opened Holdings
  import opened Sorting
  import opened Harvest

  function Row(symbol: string, pct: real, abs: real, value: real): Holding {
    Holding(symbol, symbol, value, abs, pct)
  }

  /** The running sums of a three-row order, spelled out. */
  lemma PrefixSums3(order: seq<Holding>)
    requires |order| == 3
    ensures CumGainLoss(order, 0) == order[0].gainLossAbs
    ensures CumGainLoss(order, 1) == order[0].gainLossAbs + order[1].gainLossAbs
    ensures CumGainLoss(order, 2) == order[0].gainLossAbs + order[1].gainLossAbs + order[2].gainLossAbs
  {
    PrefixSumStep(order, 0, GainLossAbs);
    PrefixSumStep(order, 1, GainLossAbs);
    PrefixSumStep(order, 2, GainLossAbs);
  }

  /** The column sums of a three-row sequence, spelled out. */
  lemma Sums3(rows: seq<Holding>)
    requires |rows| == 3
    ensures Sum(rows, MarketValue) == rows[0].marketValue + rows[1].marketValue + rows[2].marketValue
    ensures Sum(rows, GainLossAbs) == rows[0].gainLossAbs + rows[1].gainLossAbs + rows[2].gainLossAbs
  {
    assert rows[..3] == rows;
    PrefixSumStep(rows, 0, MarketValue);
    PrefixSumStep(rows, 1, MarketValue);
    PrefixSumStep(rows, 2, MarketValue);
    PrefixSumStep(rows, 0, GainLossAbs);
    PrefixSumStep(rows, 1, GainLossAbs);
    PrefixSumStep(rows, 2, GainLossAbs);
  }

  /** A group of one tagged row. */
  lemma GroupOne(x: Tagged, sell: bool)
    ensures Group([x], sell) == if x.sell == sell then [x.holding] else []
  {
    assert [x][1..] == [];
  }

  /** The groups of three tagged rows, spelled out. */
  lemma Group3(x: Tagged, y: Tagged, z: Tagged, sell: bool)
    ensures Group([x, y, z], sell)
      == Group([x], sell) + Group([y], sell) + Group([z], sell)
  {
    assert [x, y, z] == [x] + [y] + [z];
    GroupAppend([x] + [y], [z], sell);
    GroupAppend([x], [y], sell);
  }

  /** Three rows whose running sums stay negative: everything is sold. */
  lemma AllSold()
    ensures var a := Row("A", -10.0, -50.0, 100.0);
      var b := Row("B", -5.0, -20.0, 200.0);
      var c := Row("C", 8.0, 40.0, 300.0);
      PlanWith([a, b, c], [a, b, c])
        == Ok(Report(600.0, 3, [GroupRow(true, 3, 600.0, Some(100.0))], -30.0, [a, b, c]))
  {
    var a := Row("A", -10.0, -50.0, 100.0);
    var b := Row("B", -5.0, -20.0, 200.0);
    var c := Row("C", 8.0, 40.0, 300.0);
    var order := [a, b, c];
    var t := Tag(order);
    PrefixSums3(order);
    assert t == [Tagged(a, true), Tagged(b, true), Tagged(c, true)];
    Group3(Tagged(a, true), Tagged(b, true), Tagged(c, true), true);
    Group3(Tagged(a, true), Tagged(b, true), Tagged(c, true), false);
    GroupOne(Tagged(a, true), true);
    GroupOne(Tagged(b, true), true);
    GroupOne(Tagged(c, true), true);
    GroupOne(Tagged(a, true), false);
    GroupOne(Tagged(b, true), false);
    GroupOne(Tagged(c, true), false);
    assert Group(t, true) == order;
    assert Group(t, false) == [];
    Sums3(order);
    assert Total(order) == 600.0;
    assert Percent(600.0, 600.0) == Some(100.0);
    assert Summarize(t, 600.0) == [GroupRow(true, 3, 600.0, Some(100.0))];
  }

  /** A group of two tagged rows, spelled out. */
  lemma Group2(x: Tagged, y: Tagged, sell: bool)
    ensures Group([x, y], sell) == Group([x], sell) + Group([y], sell)
  {
    assert [x, y] == [x] + [y];
    GroupAppend([x], [y], sell);
  }

  /** The running sums and column sums of a two-row order, spelled out. */
  lemma Sums2(rows: seq<Holding>)
    requires |rows| == 2
    ensures CumGainLoss(rows, 0) == rows[0].gainLossAbs
    ensures CumGainLoss(rows, 1) == rows[0].gainLossAbs + rows[1].gainLossAbs
    ensures Sum(rows, MarketValue) == rows[0].marketValue + rows[1].marketValue
    ensures Sum(rows, GainLossAbs) == rows[0].gainLossAbs + rows[1].gainLossAbs
  {
    assert rows[..2] == rows;
    PrefixSumStep(rows, 0, MarketValue);
    PrefixSumStep(rows, 1, MarketValue);
    PrefixSumStep(rows, 0, GainLossAbs);
    PrefixSumStep(rows, 1, GainLossAbs);
  }

  /** The report of a plan that sells something, in terms of the planner's parts. */
  lemma PlanParts(records: seq<Holding>, order: seq<Holding>)
    requires SortedPermutation(order, records)
    requires SellGroup(order) != []
    ensures PlanWith(records, order)
      == Ok(Report(Total(records), |records|, Summarize(Tag(order), Total(records)),
                   Realized(order), SellGroup(order)))
  {
    SellGroupEmptyIff(order);
  }

  /** The tags and groups of the loser-then-winner portfolio. */
  lemma LoserThenWinnerGroups(a: Holding, b: Holding)
    requires a == Row("A", -10.0, -50.0, 100.0) && b == Row("B", 20.0, 90.0, 200.0)
    ensures Tag([a, b]) == [Tagged(a, true), Tagged(b, false)]
    ensures SellGroup([a, b]) == [a] && KeepGroup([a, b]) == [b]
  {
    Sums2([a, b]);
    Group2(Tagged(a, true), Tagged(b, false), true);
    Group2(Tagged(a, true), Tagged(b, false), false);
    GroupOne(Tagged(a, true), true);
    GroupOne(Tagged(b, false), true);
    GroupOne(Tagged(a, true), false);
    GroupOne(Tagged(b, false), false);
  }

  /** A loser followed by a larger winner: only the loser is sold. */
  lemma LoserThenWinner()
    ensures var a := Row("A", -10.0, -50.0, 100.0);
      var b := Row("B", 20.0, 90.0, 200.0);
      PlanWith([a, b], [a, b])
        == Ok(Report(300.0, 2,
                     [GroupRow(false, 1, 200.0, Some(200.0 / 3.0)), GroupRow(true, 1, 100.0, Some(100.0 / 3.0))],
                     -50.0, [a]))
  {
    var a := Row("A", -10.0, -50.0, 100.0);
    var b := Row("B", 20.0, 90.0, 200.0);
    LoserThenWinnerGroups(a, b);
    Sums2([a, b]);
    OneRowSums(a);
    OneRowSums(b);
    assert Percent(200.0, 300.0) == Some(200.0 / 3.0);
    assert Percent(100.0, 300.0) == Some(100.0 / 3.0);
    assert Summarize(Tag([a, b]), 300.0)
      == [GroupRow(false, 1, 200.0, Some(200.0 / 3.0)), GroupRow(true, 1, 100.0, Some(100.0 / 3.0))];
    PlanParts([a, b], [a, b]);
  }

  /** The column sums of a single row. */
  lemma OneRowSums(h: Holding)
    ensures Sum([h], MarketValue) == h.marketValue && Sum([h], GainLossAbs) == h.gainLossAbs
  {
    assert [h][1..] == [];
  }

  /**
   * A portfolio of gains only has nothing to sell; the source then fails
   * when it asks for the sell group.
   */
  lemma NothingToSell()
    ensures var a := Row("A", 5.0, 10.0, 100.0);
      PlanWith([a], [a]) == Err(NoStocksToSell)
  {
    var a := Row("A", 5.0, 10.0, 100.0);
    assert [a][..1] == [a];
    OneRowSums(a);
    assert CumGainLoss([a], 0) == 10.0;
  }

  /**
   * Two rows with the same percentage: the sorted order is not unique, and
   * the two possible orders give different sell groups and different
   * realized losses.
   */
  lemma TieOrderChangesPlan(x: Holding, y: Holding)
    requires x.gainLossPct == y.gainLossPct
    requires x.gainLossAbs == 5.0 && y.gainLossAbs == -10.0
    ensures SortedPermutation([x, y], [x, y]) && SortedPermutation([y, x], [x, y])
    ensures SellGroup([x, y]) == [y] && Realized([x, y]) == -10.0
    ensures SellGroup([y, x]) == [y, x] && Realized([y, x]) == -5.0
  {
    BothOrdersSorted(x, y);
    TieFirstOrder(x, y);
    TieSecondOrder(x, y);
  }

  /**
   * The order of ties matters for ordinary rows too: with every row's dollar
   * and percentage figures agreeing in sign, the two ways of ordering a tie
   * sell different rows.
   */
  lemma TieOrderAgreeingSigns(a: Holding, x: Holding, y: Holding)
    requires a.gainLossPct == -1.0 && a.gainLossAbs == -10.0
    requires x.gainLossPct == 3.0 && x.gainLossAbs == 5.0
    requires y.gainLossPct == 3.0 && y.gainLossAbs == 8.0
    ensures SignsAgree(a) && SignsAgree(x) && SignsAgree(y)
    ensures SortedPermutation([a, x, y], [a, x, y]) && SortedPermutation([a, y, x], [a, x, y])
    ensures SellGroup([a, x, y]) == [a, x] && Realized([a, x, y]) == -5.0
    ensures SellGroup([a, y, x]) == [a, y] && Realized([a, y, x]) == -2.0
  {
    TieOrdersSorted(a, x, y);
    TieLowerFirst(a, x, y);
    TieLowerFirst(a, y, x);
  }

  /** A row below two rows with equal percentages is sorted ahead of them in either order of the tie. */
  lemma TieOrdersSorted(a: Holding, x: Holding, y: Holding)
    requires a.gainLossPct <= x.gainLossPct == y.gainLossPct
    ensures SortedPermutation([a, x, y], [a, x, y]) && SortedPermutation([a, y, x], [a, x, y])
  {
    Sorted3(a, x, y);
    Sorted3(a, y, x);
    SwapLastTwo(a, x, y);
  }

  /** Three rows in non-decreasing percentage order are sorted. */
  lemma Sorted3(p: Holding, q: Holding, r: Holding)
    requires p.gainLossPct <= q.gainLossPct <= r.gainLossPct
    ensures SortedByPct([p, q, r])
  {
    forall i, j | 0 <= i < j < 3
      ensures [p, q, r][i].gainLossPct <= [p, q, r][j].gainLossPct
    {
    }
  }

  /** Swapping the last two of three rows keeps the multiset. */
  lemma SwapLastTwo(a: Holding, x: Holding, y: Holding)
    ensures multiset([a, y, x]) == multiset([a, x, y])
  {
    assert [a, y, x] == [a] + [y] + [x];
    assert [a, x, y] == [a] + [x] + [y];
  }

  /**
   * A loser of 10 followed by two winners: the first winner is sold with it
   * when it gains less than 10, and the second is kept when the two together
   * gain more than 10.
   */
  lemma TieLowerFirst(a: Holding, u: Holding, v: Holding)
    requires a.gainLossAbs == -10.0
    requires 0.0 < u.gainLossAbs < 10.0 && u.gainLossAbs + v.gainLossAbs >= 10.0
    ensures SellGroup([a, u, v]) == [a, u] && Realized([a, u, v]) == -10.0 + u.gainLossAbs
  {
    var t := Tag([a, u, v]);
    PrefixSums3([a, u, v]);
    assert t == [Tagged(a, true), Tagged(u, true), Tagged(v, false)];
    Group3(Tagged(a, true), Tagged(u, true), Tagged(v, false), true);
    GroupOne(Tagged(a, true), true);
    GroupOne(Tagged(u, true), true);
    GroupOne(Tagged(v, false), true);
    Sums2([a, u]);
  }

  /** Two rows with equal percentages are sorted in either order. */
  lemma BothOrdersSorted(x: Holding, y: Holding)
    requires x.gainLossPct == y.gainLossPct
    ensures SortedPermutation([x, y], [x, y]) && SortedPermutation([y, x], [x, y])
  {
    assert multiset([y, x]) == multiset([x, y]);
  }

  /** The tie broken in input order: only the loser is sold. */
  lemma TieFirstOrder(x: Holding, y: Holding)
    requires x.gainLossAbs == 5.0 && y.gainLossAbs == -10.0
    ensures SellGroup([x, y]) == [y] && Realized([x, y]) == -10.0
  {
    Sums2([x, y]);
    assert Tag([x, y]) == [Tagged(x, false), Tagged(y, true)];
    Group2(Tagged(x, false), Tagged(y, true), true);
    GroupOne(Tagged(x, false), true);
    GroupOne(Tagged(y, true), true);
    OneRowSums(y);
  }

  /** The tie broken the other way: both rows are sold. */
  lemma TieSecondOrder(x: Holding, y: Holding)
    requires x.gainLossAbs == 5.0 && y.gainLossAbs == -10.0
    ensures SellGroup([y, x]) == [y, x] && Realized([y, x]) == -5.0
  {
    Sums2([y, x]);
    assert Tag([y, x]) == [Tagged(y, true), Tagged(x, true)];
    Group2(Tagged(y, true), Tagged(x, true), true);
    GroupOne(Tagged(y, true), true);
    GroupOne(Tagged(x, true), true);
  }

  /**
   * When a row's dollar and percentage figures disagree in sign, a row can
   * be sold after a row that is kept: the sell group is then not a prefix
   * of the sorted order.
   */
  lemma SoldAfterKept()
    ensures var p := Row("P", -10.0, -50.0, 100.0);
      var q := Row("Q", 5.0, 60.0, 100.0);
      var r := Row("R", 6.0, -20.0, 100.0);
      SortedByPct([p, q, r]) && !SignsAgree(r)
      && Tag([p, q, r]) == [Tagged(p, true), Tagged(q, false), Tagged(r, true)]
      && SellGroup([p, q, r]) == [p, r]
      && Realized([p, q, r]) == -70.0
  {
    var p := Row("P", -10.0, -50.0, 100.0);
    var q := Row("Q", 5.0, 60.0, 100.0);
    var r := Row("R", 6.0, -20.0, 100.0);
    SoldAfterKeptTags(p, q, r);
    SoldAfterKeptGroup(p, q, r);
  }

  /** The running sums -50, +10, -10 tag the rows sell, keep, sell. */
  lemma SoldAfterKeptTags(p: Holding, q: Holding, r: Holding)
    requires p.gainLossAbs == -50.0 && q.gainLossAbs == 60.0 && r.gainLossAbs == -20.0
    ensures Tag([p, q, r]) == [Tagged(p, true), Tagged(q, false), Tagged(r, true)]
  {
    PrefixSums3([p, q, r]);
  }

  /** The sell group of sell, keep, sell skips the kept row. */
  lemma SoldAfterKeptGroup(p: Holding, q: Holding, r: Holding)
    requires p.gainLossAbs == -50.0 && q.gainLossAbs == 60.0 && r.gainLossAbs == -20.0
    requires Tag([p, q, r]) == [Tagged(p, true), Tagged(q, false), Tagged(r, true)]
    ensures SellGroup([p, q, r]) == [p, r]
    ensures Realized([p, q, r]) == -70.0
  {
    Group3(Tagged(p, true), Tagged(q, false), Tagged(r, true), true);
    GroupOne(Tagged(p, true), true);
    GroupOne(Tagged(q, false), true);
    GroupOne(Tagged(r, true), true);
    Sums2([p, r]);
  }
}
