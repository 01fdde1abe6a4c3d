/** The totals shown for the table: a customer's summary
    (`calculateCustomerSummary`, which recounts the purchase text), the
    overall total row (`renderSummaryRow`, which uses the stored purchase
    count), the saved report's summary (`calculateReportSummary`) and the
    grouping of consecutive rows by customer (`getGroupedData`). */
module Aggregation {
  import opened JsText
  import opened Ordered
  import opened RangeExpansion
  import opened Amounts
  import opened Table

  datatype Summary = Summary(
    totalPurchase: int,
    totalUnsold: int,
    totalSold: int,
    totalWinningTickets: int,
    totalPWT: int,
    totalVC: int,
    totalSVC: int)

  const Zero := Summary(0, 0, 0, 0, 0, 0, 0)

  function Plus(a: Summary, b: Summary): Summary {
    Summary(a.totalPurchase + b.totalPurchase, a.totalUnsold + b.totalUnsold, a.totalSold + b.totalSold,
            a.totalWinningTickets + b.totalWinningTickets, a.totalPWT + b.totalPWT,
            a.totalVC + b.totalVC, a.totalSVC + b.totalSVC)
  }

  /** What one row adds to a total, given the purchase figure used for it. */
  function RowTotals(row: Row, purchase: int): Summary {
    var sem := ParseIntOrZero(row.sem);
    Summary(purchase, |row.unsoldNumbers| * sem, |row.soldNumbers| * sem, |row.winningTickets|,
            SumAmounts(row.pwtBreakdown), SumAmounts(row.vcBreakdown), SumAmounts(row.svcBreakdown))
  }

  /** A customer's summary: the purchase is recounted from the text. */
  function CustomerRowTotals(row: Row): Summary {
    RowTotals(row, TicketCount(row.purchaseRanges) * ParseIntOrZero(row.sem))
  }

  /** The overall total row: the purchase is the stored count. */
  function RenderRowTotals(row: Row): Summary {
    RowTotals(row, row.purchaseCount)
  }

  /** The sum of what each element adds. */
  function Total<T>(xs: seq<T>, f: T -> Summary): Summary {
    if xs == [] then Zero else Plus(Total(xs[..|xs| - 1], f), f(xs[|xs| - 1]))
  }

  function CustomerSummary(rows: seq<Row>): Summary {
    Total(rows, CustomerRowTotals)
  }

  function RenderTotals(rows: seq<Row>): Summary {
    Total(rows, RenderRowTotals)
  }

  /** The sum of the parsed amounts of the items, added one at a time. */
  method SumBreakdown(items: seq<string>) returns (total: int)
    ensures total == SumAmounts(items)
  {
    total := 0;
    for i := 0 to |items|
      invariant total == SumAmounts(items[..i])
    {
      assert items[..i + 1][..i] == items[..i];
      total := total + ParseAmount(items[i]);
    }
    assert items[..|items|] == items;
  }

  /** The loop body shared by the two totals. */
  method AddRow(acc: Summary, row: Row, purchase: int) returns (r: Summary)
    ensures r == Plus(acc, RowTotals(row, purchase))
  {
    var semValue := ParseIntOrZero(row.sem);
    var pwt := SumBreakdown(row.pwtBreakdown);
    var vc := SumBreakdown(row.vcBreakdown);
    var svc := SumBreakdown(row.svcBreakdown);
    r := Summary(acc.totalPurchase + purchase,
                 acc.totalUnsold + |row.unsoldNumbers| * semValue,
                 acc.totalSold + |row.soldNumbers| * semValue,
                 acc.totalWinningTickets + |row.winningTickets|,
                 acc.totalPWT + pwt, acc.totalVC + vc, acc.totalSVC + svc);
  }

  /** `calculateCustomerSummary`. */
  method CalculateCustomerSummary(rows: seq<Row>) returns (summary: Summary)
    ensures summary == CustomerSummary(rows)
  {
    summary := Zero;
    for i := 0 to |rows|
      invariant summary == CustomerSummary(rows[..i])
    {
      assert rows[..i + 1][..i] == rows[..i];
      var numberOfTickets := RecountTickets(rows[i].purchaseRanges);
      summary := AddRow(summary, rows[i], numberOfTickets * ParseIntOrZero(rows[i].sem));
    }
    assert rows[..|rows|] == rows;
  }

  /** The totals loop of `renderSummaryRow`. */
  method RenderSummaryTotals(tableData: seq<Row>) returns (totals: Summary)
    ensures totals == RenderTotals(tableData)
  {
    totals := Zero;
    for i := 0 to |tableData|
      invariant totals == RenderTotals(tableData[..i])
    {
      assert tableData[..i + 1][..i] == tableData[..i];
      totals := AddRow(totals, tableData[i], tableData[i].purchaseCount);
    }
    assert tableData[..|tableData|] == tableData;
  }

  // ---------------------------------------------------------------- the saved report's summary

  datatype ReportSummary = ReportSummary(
    totalPWT: int,
    totalVC: int,
    totalSVC: int,
    totalSoldCount: int,
    totalPurchaseCount: int)

  function ReportTotals(rows: seq<Row>): ReportSummary {
    if rows == [] then ReportSummary(0, 0, 0, 0, 0)
    else
      var s := ReportTotals(rows[..|rows| - 1]);
      var row := rows[|rows| - 1];
      ReportSummary(s.totalPWT + SumAmounts(row.pwtBreakdown), s.totalVC + SumAmounts(row.vcBreakdown),
                    s.totalSVC + SumAmounts(row.svcBreakdown), s.totalSoldCount + |row.soldNumbers|,
                    s.totalPurchaseCount + row.purchaseCount)
  }

  /** `calculateReportSummary`; absent report data gives all zeros. */
  method CalculateReportSummary(fullReportData: Option<seq<Row>>) returns (summary: ReportSummary)
    ensures fullReportData.None? ==> summary == ReportSummary(0, 0, 0, 0, 0)
    ensures fullReportData.Some? ==> summary == ReportTotals(fullReportData.value)
  {
    summary := ReportSummary(0, 0, 0, 0, 0);
    if fullReportData.None? {
      return;
    }
    var rows := fullReportData.value;
    for i := 0 to |rows|
      invariant summary == ReportTotals(rows[..i])
    {
      assert rows[..i + 1][..i] == rows[..i];
      var row := rows[i];
      var pwt := SumBreakdown(row.pwtBreakdown);
      var vc := SumBreakdown(row.vcBreakdown);
      var svc := SumBreakdown(row.svcBreakdown);
      summary := ReportSummary(summary.totalPWT + pwt, summary.totalVC + vc, summary.totalSVC + svc,
                               summary.totalSoldCount + |row.soldNumbers|,
                               summary.totalPurchaseCount + row.purchaseCount);
    }
    assert rows[..|rows|] == rows;
  }

  // ---------------------------------------------------------------- grouping

  function RowName(row: Row): string {
    row.name
  }

  /** The maximal runs of consecutive elements with the same key. */
  function GroupRuns<T>(xs: seq<T>, key: T -> string): (runs: seq<seq<T>>)
    ensures xs == [] <==> runs == []
    ensures forall i :: 0 <= i < |runs| ==> runs[i] != []
  {
    if xs == [] then []
    else
      var r := GroupRuns(xs[..|xs| - 1], key);
      var x := xs[|xs| - 1];
      if r != [] && key(r[|r| - 1][0]) == key(x) then r[..|r| - 1] + [r[|r| - 1] + [x]]
      else r + [[x]]
  }

  datatype Group = Group(customerName: string, rows: seq<Row>, summary: Summary)

  /** A run closed as a group; the runs `GroupRuns` produces are never empty. */
  function GroupOf(run: seq<Row>): Group {
    Group(if run == [] then "" else run[0].name, run, CustomerSummary(run))
  }

  /** Each run closed as its group, in order. */
  function Groups(runs: seq<seq<Row>>): (gs: seq<Group>)
    ensures |gs| == |runs| && forall i :: 0 <= i < |runs| ==> gs[i] == GroupOf(runs[i])
  {
    if runs == [] then [] else Groups(runs[..|runs| - 1]) + [GroupOf(runs[|runs| - 1])]
  }

  function GroupedData(tableData: seq<Row>): seq<Group> {
    Groups(GroupRuns(tableData, RowName))
  }

  /** `getGroupedData`: the rows are split into runs of one customer name,
      and each run is closed with its customer summary. */
  method GetGroupedData(tableData: seq<Row>) returns (groupedData: seq<Group>)
    ensures groupedData == GroupedData(tableData)
  {
    var runs := SplitRuns(tableData, RowName);
    groupedData := [];
    for j := 0 to |runs|
      invariant groupedData == Groups(runs[..j])
    {
      var run := runs[j];
      groupedData := PushGroup(groupedData, runs[..j], run[0].name, run);
      SliceSnoc(runs, j);
    }
    SliceAll(runs);
  }

  /** Appends the group of a finished run: the customer, its rows and their summary. */
  method PushGroup(groupedData: seq<Group>, ghost done: seq<seq<Row>>, customerName: string, rows: seq<Row>)
    returns (r: seq<Group>)
    requires groupedData == Groups(done)
    requires rows != [] && rows[0].name == customerName
    ensures r == Groups(done + [rows])
  {
    var summary := CalculateCustomerSummary(rows);
    GroupsSnoc(done, rows);
    r := groupedData + [Group(customerName, rows, summary)];
  }

  /** The `for` loop of `getGroupedData` that tracks the current customer's
      name and rows and starts a new run when the name changes. */
  method SplitRuns<T>(tableData: seq<T>, key: T -> string) returns (runs: seq<seq<T>>)
    ensures runs == GroupRuns(tableData, key)
  {
    runs := [];
    if |tableData| == 0 {
      return;
    }
    var currentCustomerName := key(tableData[0]);
    var currentCustomerRows: seq<T> := [];
    for i := 0 to |tableData|
      invariant i == 0 ==> runs == [] && currentCustomerRows == [] && currentCustomerName == key(tableData[0])
      invariant i > 0 ==> GroupRuns(tableData[..i], key) == runs + [currentCustomerRows]
      invariant i > 0 ==> currentCustomerRows != [] && key(currentCustomerRows[0]) == currentCustomerName
    {
      var row := tableData[i];
      RunsStep(tableData, i, key, runs, currentCustomerRows);
      if key(row) != currentCustomerName {
        runs := runs + [currentCustomerRows];
        currentCustomerName := key(row);
        currentCustomerRows := [];
        assert currentCustomerRows + [row] == [row];
      }
      currentCustomerRows := currentCustomerRows + [row];
    }
    assert tableData[..|tableData|] == tableData;
    runs := runs + [currentCustomerRows];
  }

  /** One more element either extends the last run or opens a new one. */
  lemma {:induction false} GroupStep<T>(rows: seq<T>, i: nat, key: T -> string)
    requires i < |rows|
    ensures var r := GroupRuns(rows[..i], key);
            GroupRuns(rows[..i + 1], key) ==
              if r != [] && key(r[|r| - 1][0]) == key(rows[i]) then r[..|r| - 1] + [r[|r| - 1] + [rows[i]]]
              else r + [[rows[i]]]
  {
    assert rows[..i + 1][..i] == rows[..i];
  }

  /** The loop's view of `GroupStep`: the finished runs and the open one. */
  lemma {:induction false} RunsStep<T>(rows: seq<T>, i: nat, key: T -> string, done: seq<seq<T>>, cur: seq<T>)
    requires i < |rows|
    requires i == 0 ==> done == [] && cur == []
    requires i > 0 ==> GroupRuns(rows[..i], key) == done + [cur] && cur != []
    ensures i == 0 ==> GroupRuns(rows[..i + 1], key) == done + [cur + [rows[i]]]
    ensures i > 0 && key(rows[i]) == key(cur[0]) ==> GroupRuns(rows[..i + 1], key) == done + [cur + [rows[i]]]
    ensures i > 0 && key(rows[i]) != key(cur[0]) ==> GroupRuns(rows[..i + 1], key) == (done + [cur]) + [[rows[i]]]
  {
    GroupStep(rows, i, key);
    if i > 0 {
      var r := done + [cur];
      assert r[..|r| - 1] == done;
    } else {
      assert GroupRuns(rows[..i], key) == [] by {
        assert rows[..i] == [];
      }
      assert cur + [rows[i]] == [rows[i]];
      assert done + [cur + [rows[i]]] == [[rows[i]]];
    }
  }

  lemma {:induction false} GroupsSnoc(runs: seq<seq<Row>>, run: seq<Row>)
    ensures Groups(runs + [run]) == Groups(runs) + [GroupOf(run)]
  {
    assert (runs + [run])[..|runs|] == runs;
  }

  /** The groups, put back together, are the table. */
  lemma {:induction false} GroupRunsConcat<T>(xs: seq<T>, key: T -> string)
    ensures Concat(GroupRuns(xs, key)) == xs
  {
    if xs != [] {
      var init := xs[..|xs| - 1];
      var x := xs[|xs| - 1];
      var r := GroupRuns(init, key);
      GroupRunsConcat(init, key);
      assert xs == init + [x];
      if r != [] && key(r[|r| - 1][0]) == key(x) {
        assert GroupRuns(xs, key) == r[..|r| - 1] + [r[|r| - 1] + [x]];
        ConcatExtendLast(r, x);
      } else {
        assert GroupRuns(xs, key) == r + [[x]];
        ConcatSnoc(r, [x]);
      }
    }
  }

  lemma {:induction false} ConcatSnoc<T>(r: seq<seq<T>>, run: seq<T>)
    ensures Concat(r + [run]) == Concat(r) + run
  {
    assert (r + [run])[..|r|] == r;
  }

  /** Extending the last run extends the concatenation. */
  lemma {:induction false} ConcatExtendLast<T>(r: seq<seq<T>>, x: T)
    requires r != []
    ensures Concat(r[..|r| - 1] + [r[|r| - 1] + [x]]) == Concat(r) + [x]
  {
    var k := |r| - 1;
    assert r == r[..k] + [r[k]];
    ConcatSnoc(r[..k], r[k]);
    ConcatSnoc(r[..k], r[k] + [x]);
    AppendAssoc(Concat(r[..k]), r[k], [x]);
  }

  /** Every group holds elements of one key. */
  lemma {:induction false} GroupRunsSame<T>(xs: seq<T>, key: T -> string)
    ensures forall i, j :: 0 <= i < |GroupRuns(xs, key)| && 0 <= j < |GroupRuns(xs, key)[i]| ==>
              key(GroupRuns(xs, key)[i][j]) == key(GroupRuns(xs, key)[i][0])
  {
    if xs != [] {
      GroupRunsSame(xs[..|xs| - 1], key);
    }
  }

  /** Neighbouring groups have different keys, so no group could be longer. */
  lemma {:induction false} GroupRunsMaximal<T>(xs: seq<T>, key: T -> string)
    ensures forall i :: 0 < i < |GroupRuns(xs, key)| ==> key(GroupRuns(xs, key)[i - 1][0]) != key(GroupRuns(xs, key)[i][0])
  {
    if xs != [] {
      GroupRunsMaximal(xs[..|xs| - 1], key);
    }
  }

  /** Totals add up over concatenation. */
  lemma {:induction false} TotalAppend<T>(a: seq<T>, b: seq<T>, f: T -> Summary)
    ensures Total(a + b, f) == Plus(Total(a, f), Total(b, f))
    decreases |b|
  {
    if b == [] {
      assert a + b == a;
    } else {
      TotalAppend(a, b[..|b| - 1], f);
      assert (a + b)[..|a + b| - 1] == a + b[..|b| - 1];
    }
  }

  /** The sum of the totals of several runs. */
  function RunTotals<T>(runs: seq<seq<T>>, f: T -> Summary): Summary {
    if runs == [] then Zero else Plus(RunTotals(runs[..|runs| - 1], f), Total(runs[|runs| - 1], f))
  }

  /** Summing the totals of the runs is the total of their concatenation. */
  lemma {:induction false} TotalConcat<T>(runs: seq<seq<T>>, f: T -> Summary)
    ensures RunTotals(runs, f) == Total(Concat(runs), f)
  {
    if runs != [] {
      var init := runs[..|runs| - 1];
      TotalConcat(init, f);
      TotalAppend(Concat(init), runs[|runs| - 1], f);
    }
  }

  function SumSummaries(gs: seq<Group>): Summary {
    if gs == [] then Zero else Plus(SumSummaries(gs[..|gs| - 1]), gs[|gs| - 1].summary)
  }

  lemma {:induction false} SumGroups(runs: seq<seq<Row>>)
    ensures SumSummaries(Groups(runs)) == RunTotals(runs, CustomerRowTotals)
  {
    if runs != [] {
      var init := runs[..|runs| - 1];
      SumGroups(init);
      var gs := Groups(runs);
      assert gs[..|init|] == Groups(init);
      assert gs[|init|].summary == CustomerSummary(runs[|runs| - 1]);
    }
  }

  /** The customer summaries of the groups add up to the customer summary
      of the whole table. */
  lemma {:induction false} GroupSummariesAdd(rows: seq<Row>)
    ensures SumSummaries(GroupedData(rows)) == CustomerSummary(rows)
  {
    SumGroups(GroupRuns(rows, RowName));
    TotalConcat(GroupRuns(rows, RowName), CustomerRowTotals);
    GroupRunsConcat(rows, RowName);
  }

  /** A row whose stored purchase count is the recount of its text. */
  predicate CountsAgree(row: Row) {
    row.purchaseCount == TicketCount(row.purchaseRanges) * ParseIntOrZero(row.sem)
  }

  /** When every row's stored count agrees with its recount, as it does for
      every row `updateRowData` produced, the customer summaries add up to the
      total row. */
  lemma {:induction false} SummariesMatchTotalRow(rows: seq<Row>)
    requires forall i :: 0 <= i < |rows| ==> CountsAgree(rows[i])
    ensures SumSummaries(GroupedData(rows)) == RenderTotals(rows)
  {
    GroupSummariesAdd(rows);
    AgreeingTotals(rows);
  }

  lemma {:induction false} AgreeingTotals(rows: seq<Row>)
    requires forall i :: 0 <= i < |rows| ==> CountsAgree(rows[i])
    ensures CustomerSummary(rows) == RenderTotals(rows)
  {
    if rows != [] {
      AgreeingTotals(rows[..|rows| - 1]);
    }
  }

  /** `updateRowData` leaves the stored count equal to the recount. */
  lemma {:induction false} UpdatedCountsAgree(row: Row, winningMap: Option<seq<Prizes.Entry>>)
    ensures CountsAgree(UpdatedRow(row, winningMap))
  {
    UpdatedRowCount(row, winningMap);
  }

  /** The saved report's money totals are the total row's, and its purchase
      count is the total row's purchase total. */
  lemma {:induction false} ReportMatchesTotalRow(rows: seq<Row>)
    ensures ReportTotals(rows).totalPWT == RenderTotals(rows).totalPWT
    ensures ReportTotals(rows).totalVC == RenderTotals(rows).totalVC
    ensures ReportTotals(rows).totalSVC == RenderTotals(rows).totalSVC
    ensures ReportTotals(rows).totalPurchaseCount == RenderTotals(rows).totalPurchase
  {
    if rows != [] {
      ReportMatchesTotalRow(rows[..|rows| - 1]);
    }
  }
}
