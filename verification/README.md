# Tax-loss harvest planner

A Dafny model of the computational core of the `investing` console script.
The script reads a brokerage "unrealized gains/losses" export and plans a
tax-loss harvest:

1. each currency or percentage cell is cleaned by removing every `$` and `%`
   before it is parsed as a number;
2. the total market value of all holdings is computed;
3. the holdings are sorted ascending by gain/loss percentage (worst first);
4. a holding is marked **sell** exactly when the running sum of gain/loss
   dollars, up to and including it, is negative;
5. the holdings are split into a sell group and a keep group, and each group
   is summarised by its count, its market value and its percentage of the
   total;
6. the realized gain/loss is the sum of gain/loss dollars over the sell group,
   and the sell group is listed.

Modules:

- `Results` (`results.dfy`): `Option` and `Result`.
- `Strip` (`strip.dfy`): the cell clean-up of `to_numeric`.
- `Holdings` (`holdings.dfy`): the holding record, column sums, the total, and
  the fact that a sum does not depend on the order of the rows.
- `Sorting` (`sorting.dfy`): "sorted by percentage", "sorted permutation", an
  insertion sort that produces one, and uniqueness of the sorted order when
  no two percentages are equal.
- `Harvest` (`harvest.dfy`): the running-sum tagging, the groups, the summary
  table, the realized figure and the whole report (`PlanWith`).
- `Scenarios` (`scenarios.dfy`): worked portfolios.

Amounts are exact `real`s. The source sorts with the table library's default
algorithm, which is not stable, so the order of rows that share a percentage
is not determined. `Harvest.PlanWith(records, order)` therefore takes the
sorted order as a parameter and accepts any sorted permutation of the
records. `Sorting.SortByPct` builds one such order. Every property of the
planner is proved for all admissible orders.

Some of the code's behaviour is easy to get wrong when reading it, and the
model follows the code, not the behaviour a reader might assume (the
approximations it does make, exact reals and a single value for a missing
percentage, are listed under "## Left out"):

- **Tie order.** A stable sort would make the plan a function of the input
  file. The default sort is not stable, and the order of a tie changes the
  plan (`Scenarios.TieOrderChangesPlan`), even when every row's dollar and
  percentage figures agree in sign (`Scenarios.TieOrderAgreeingSigns`). The
  plan is unique only when all percentages differ
  (`Harvest.PlanDeterministicWithoutTies`).
- **Nothing to sell.** One might expect an empty sell group to report a
  realized figure of zero. The code asks the grouping for the `True` group,
  and that lookup raises when the group is missing. The model returns
  `Err(NoStocksToSell)` in that case.
- **Zero total.** The percentage division has no guard, and floating-point
  division by zero gives not-a-number or infinity. The model has no such
  value, so the percentage is `None` when the total is zero.
- **Selling stops at the first gain.** The comment at cli.py:45 says records
  are sold "until we start to accrue a gain". The code instead tags every row
  whose running sum is negative, so a row can be sold after a row that is kept
  (`Scenarios.SoldAfterKept`). This needs a row whose dollar and percentage
  figures disagree in sign. Real positions have agreeing signs, but the
  exported percentage is rounded to two decimals: a small loss on a large
  position shows as `0.00%` or `-0.00%`, which is not below zero, so rounding
  alone can break the agreement on real data. When the signs do agree, the
  sell group is a prefix of the sorted order, just as the comment says
  (`Harvest.SellGroupIsPrefix`); whenever the sold rows come first, the
  realized figure is the running sum at the last sold row
  (`Harvest.RealizedAtPrefix`).

The `$` pattern in cli.py:19 is a regular expression (`r'\$'`). Table
libraries of that period treat the pattern of `str.replace` as a regular
expression by default, so the step removes the literal `$` character. The
model follows that reading.

## Model

| member | source | states |
|---|---|---|
| Strip.RemoveAll | investing/cli.py:19 | one replacement leaves no occurrence of the removed character, never lengthens the text, and introduces no new characters |
| Strip.CleanCell | investing/cli.py:19 | the cleaned cell contains no `$` and no `%`, is no longer than the input, and holds only characters of the input |
| Strip.CleanColumn | investing/cli.py:19 | every cleaned cell of the column is free of `$` and `%` and no longer than the original cell, and the column keeps its length |
| Strip.CleanColumnIdempotent | investing/cli.py:19 | cleaning an already cleaned column changes nothing |
| Strip.CleanCellSingle | investing/cli.py:19 | a single character is dropped exactly when it is `$` or `%` and otherwise kept |
| Strip.CleanCellAppend | investing/cli.py:19 | cleaning distributes over concatenation, so the kept characters stay in their original order |
| Strip.CleanCellKeepsOthers | investing/cli.py:19 | every character other than `$` and `%` occurs as often after cleaning as before |
| Strip.CleanCellFixedIff | investing/cli.py:19 | a cell is left unchanged exactly when it contains neither `$` nor `%` |
| Strip.CleanCellIdempotent | investing/cli.py:19 | cleaning twice gives the same result as cleaning once |
| Strip.CleanCellOrderIrrelevant | investing/cli.py:19 | removing `%` first and `$` second gives the same result as the source's order |
| Strip.GroupedAmountKeepsComma | investing/cli.py:19 | the grouping comma is not removed: `$1,234.56` becomes `1,234.56` |
| Holdings.SumPermutation | investing/cli.py:43 | a column sum depends only on the multiset of rows, not on their order |
| Holdings.TotalPermutationInvariant | investing/cli.py:43 | the total market value is the same for every permutation of the rows |
| Sorting.Insert | investing/cli.py:46 | inserting into a sorted sequence keeps it sorted by percentage and adds exactly the inserted row to its multiset |
| Sorting.SortByPct | investing/cli.py:46 | the result is non-decreasing in gain/loss percentage and is a permutation of the input |
| Sorting.SortedPermutationUnique | investing/cli.py:46 | when no two percentages are equal, any two sorted permutations of the same rows are identical |
| Harvest.TagFrom | investing/cli.py:47 | the scan keeps every row in place and flags row i exactly when the starting sum plus the gain/loss dollars of rows 0..i is negative |
| Harvest.Tag | investing/cli.py:47 | row i of the sorted order is tagged sell exactly when the prefix sum of gain/loss dollars over positions 0..i is negative |
| Harvest.FirstSoldIffLoss | investing/cli.py:47 | the first sorted row is sold exactly when its own gain/loss dollars are negative |
| Harvest.GroupAppend | investing/cli.py:48-49 | grouping distributes over concatenation, so each group keeps the sorted order of its rows |
| Harvest.GroupEmptyIff | investing/cli.py:48-49 | a group is empty exactly when no row carries its flag |
| Harvest.GroupsCount | investing/cli.py:48 | the sizes of the sell and keep groups add up to the number of rows |
| Harvest.GroupsSplitSum | investing/cli.py:48 | the column sums of the sell and keep groups add up to the column sum of all rows |
| Harvest.GroupsPartition | investing/cli.py:48 | the sell and keep groups together hold every row: counts, column sums and multisets add up |
| Harvest.SellGroupEmptyIff | investing/cli.py:47-49 | the sell group is empty exactly when no running sum is negative |
| Harvest.SellKeepConservation | investing/cli.py:43-54 | count(sell) + count(keep) equals the number of records; their market values add up to the total; together they are a permutation of the records |
| Harvest.RealizedFromBound | investing/cli.py:47 | a scan that starts from a running sum realizes no more than the loss part of its final running sum minus the loss part of its start |
| Harvest.RealizedFromStrict | investing/cli.py:47 | a scan that sells at least one row realizes strictly less than minus the loss part of its start |
| Harvest.RealizedIsLoss | investing/cli.py:62-63 | the realized figure is never positive, is negative whenever something is sold, and is no larger than the net gain/loss of all rows |
| Harvest.PrefixGroup | investing/cli.py:48-49 | when the sold rows come first, the sell group is exactly that prefix |
| Harvest.EarlierRunningSumNegative | investing/cli.py:45-47 | with agreeing signs, a negative running sum at a row implies a negative running sum at every earlier row |
| Harvest.SellGroupIsPrefix | investing/cli.py:45-47 | with agreeing signs, the sell group is a prefix of the sorted order and the realized figure equals the running sum at its last row, which is negative |
| Harvest.RealizedAtPrefix | investing/cli.py:45-63 | whenever the sold rows come first, whatever the signs, the realized figure is the running sum at the last sold row, and it is negative |
| Harvest.Percent | investing/cli.py:55 | a percentage exists exactly when the total is non-zero; a zero total has none |
| Harvest.SummarizeGroups | investing/cli.py:52-56 | the table has a line for a group exactly when the group has rows, keep before sell; each line reports its own group's row count (positive), market-value sum and percentage of the total |
| Harvest.PercentsAddUp | investing/cli.py:55 | the percentages of two parts of a non-zero total add up to 100 |
| Harvest.GroupsSummaryConservation | investing/cli.py:52-56 | for two groups that share a total, the table's counts add up to the group sizes, its sums to the total, and for a non-zero total its percentages to 100, whichever groups are empty |
| Harvest.SummaryConservation | investing/cli.py:48-56 | the sell/keep table of the tagged rows has counts adding up to the number of rows, sums adding up to their market value, and, for a non-zero total, percentages adding up to 100 |
| Harvest.PlanWith | investing/cli.py:43-63 | the report fails exactly when no running sum is negative; otherwise it counts every record, reports the total market value, lists as the rows to sell exactly the sell group (a non-empty sub-multiset of the records), and reports as realized the sum over that group, which is negative; its table is the sell/keep summary of the keep and sell groups against that total |
| Harvest.PlanConservation | investing/cli.py:43-63 | the report's table accounts for every record, the whole total, and 100 percent when the total is non-zero |
| Harvest.NetLossHarvests | investing/cli.py:43-63 | a portfolio with a net loss always has something to sell, and the realized loss is at least the net loss |
| Harvest.NoLosersNothingToSell | investing/cli.py:47-49 | a portfolio without any losing row has nothing to sell, so the sell-group lookup fails |
| Harvest.PlanDeterministicWithoutTies | investing/cli.py:46-63 | when no two percentages are equal, every sorted order gives the same report |
| Scenarios.AllSold | investing/cli.py:43-63 | rows with gain/loss -50, -20, +40 have running sums -50, -70, -30: all are sold, realized -30, total 600, one table line at 100 percent |
| Scenarios.LoserThenWinner | investing/cli.py:43-63 | rows with gain/loss -50, +90 have running sums -50, +40: only the first is sold, realized -50 |
| Scenarios.NothingToSell | investing/cli.py:47-49 | a single gaining row leaves the sell group empty and the plan fails |
| Scenarios.TieOrderChangesPlan | investing/cli.py:46-47 | two rows with equal percentages sorted either way give different sell groups (-10 against -5 realized) |
| Scenarios.TieOrderAgreeingSigns | investing/cli.py:46-47 | rows with gain/loss -10 (-1%), +5 (3%) and +8 (3%) all agree in sign, yet the two orders of the tie sell different rows (-5 against -2 realized) |
| Scenarios.BothOrdersSorted | investing/cli.py:46 | two rows with equal percentages are a sorted permutation in either order |
| Scenarios.SoldAfterKept | investing/cli.py:45-47 | with disagreeing signs, a row can be sold after a kept row, so the sell group is not a prefix |

## Left out

- Reading the CSV export and writing `stocks.csv`, including the deletion of
  the working and daily-change columns (cli.py:31, cli.py:70-75): file I/O.
- Locale setup and currency formatting of the cells and the report
  (cli.py:27-28, cli.py:39-40, cli.py:54), and the `{:,.2f}%` format of the
  percentages (cli.py:55): presentation built on the platform's locale tables.
- The `click` command surface and the printed report (cli.py:22-24,
  cli.py:59-67): the report's values are the fields of `Harvest.Report`, and
  printing is not modelled.
- Parsing the cleaned text as a number (cli.py:19, `pd.to_numeric`) and
  floating-point arithmetic: amounts are exact reals, so rounding is not
  modelled. This can change which rows are sold: for gain/loss -0.1, -0.2,
  +0.3 the floating-point running sum ends just below zero and sells the third
  row, while the exact sum is zero and keeps it. A cleaned cell that still holds a grouping comma would be refused
  by that parser; the model only shows that the comma survives the clean-up.
- Missing values: the table library skips missing cells in `count` and `sum`;
  the model has no missing cells.
- Harvest.Percent: not-a-number and infinity from a division by a zero total
  are both modelled as `None`, so the two are not told apart.
- Sorting.SortByPct: an insertion sort, not the table library's algorithm.
  The planner itself accepts every sorted permutation, so no property depends
  on this choice.
