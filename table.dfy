/** The customer table: the rows of `tableData`, updated in place by adding a
    row, adding a customer (four SEM rows), deleting a row, deleting a
    customer and recomputing a row from its purchase and unsold text
    (`updateRowData`). */
module Table {
  import opened JsText
  import opened Ordered
  import opened TicketCodec
  import opened RangeExpansion
  import opened Reconciliation
  import opened Compression
  import opened Prizes

  /** A row of `tableData`. A field the row does not have yet reads as the
      default the code falls back to (`|| ''`, `|| []`, `|| 0`). */
  datatype Row = Row(
    name: string,
    sem: string,
    purchaseRanges: string,
    unsoldRaw: string,
    purchaseCount: int,
    unsoldNumbers: seq<string>,
    unsoldNumbersWithStatus: seq<UnsoldStatus>,
    soldNumbers: seq<string>,
    soldRanges: seq<string>,
    winningTickets: seq<WinningTicket>,
    pwtBreakdown: seq<string>,
    vcBreakdown: seq<string>,
    svcBreakdown: seq<string>,
    unsoldValidatedHTML: string)

  datatype Customer = Customer(name: string, sem: string)

  /** The row `addNewRow` pushes: a name and a SEM and nothing else. */
  function NewRow(name: string, sem: string): Row {
    Row(name, sem, "", "", 0, [], [], [], [], [], [], [], [], "")
  }

  /** The SEM values a new customer gets a row for. */
  const SemTypes: seq<string> := ["5", "10", "15", "20"]

  /** One new row per SEM value, in order. */
  function SemRows(name: string, sems: seq<string>): (rows: seq<Row>)
    ensures |rows| == |sems| && forall i :: 0 <= i < |sems| ==> rows[i] == NewRow(name, sems[i])
  {
    if sems == [] then [] else SemRows(name, sems[..|sems| - 1]) + [NewRow(name, sems[|sems| - 1])]
  }

  /** Where `splice(index, 1)` starts: a negative index counts from the end. */
  function SpliceStart(len: nat, index: int): (s: nat)
    ensures s <= len
  {
    if index < 0 then (if len + index < 0 then 0 else len + index) else if index > len then len else index
  }

  /** `xs.splice(index, 1)`, what is left of `xs`. */
  function RemoveAt(xs: seq<Row>, index: int): seq<Row> {
    var s := SpliceStart(|xs|, index);
    if s < |xs| then xs[..s] + xs[s + 1..] else xs
  }

  /** The rows of other customers, in order. */
  function WithoutName(rows: seq<Row>, customerName: string): (r: seq<Row>)
    ensures |r| <= |rows|
  {
    if rows == [] then []
    else
      var last := rows[|rows| - 1];
      WithoutName(rows[..|rows| - 1], customerName) + (if last.name != customerName then [last] else [])
  }

  /** The row as `updateRowData` leaves it, given the draw's winning map
      (`null` when no result is stored). */
  function UpdatedRow(row: Row, winningMap: Option<seq<Entry>>): Row {
    var purchased := Purchased(row.purchaseRanges);
    var sem := ParseIntOrZero(row.sem);
    var counted := row.(purchaseCount := TicketCount(row.purchaseRanges) * sem);
    if purchased == [] then
      counted.(soldRanges := [], soldNumbers := [], winningTickets := [],
               pwtBreakdown := [], vcBreakdown := [], svcBreakdown := [],
               unsoldValidatedHTML := row.unsoldRaw)
    else
      var rec := Reconcile(row.unsoldRaw, purchased);
      var matched := MatchAll(rec.soldNumbers, winningMap, sem);
      counted.(unsoldNumbers := rec.unsoldNumbers, unsoldNumbersWithStatus := rec.withStatus,
               soldNumbers := rec.soldNumbers, soldRanges := Compressed(rec.soldNumbers),
               winningTickets := UniqueWinners(matched.details),
               pwtBreakdown := matched.pwt, vcBreakdown := matched.vc, svcBreakdown := matched.svc)
  }

  class CustomerTable {
    var tableData: seq<Row>
    var currentCustomer: Option<Customer>

    constructor()
      ensures tableData == [] && currentCustomer == None
    {
      tableData := [];
      currentCustomer := None;
    }

    /** `addNewRow`: appends a row and makes it the current customer. */
    method AddNewRow(name: string, sem: string)
      modifies this
      ensures tableData == old(tableData) + [NewRow(name, sem)]
      ensures currentCustomer == Some(Customer(name, sem))
    {
      tableData := tableData + [NewRow(name, sem)];
      currentCustomer := Some(Customer(name, sem));
    }

    /** The add-customer handler: a name that is missing (the prompt was
        cancelled) or blank adds nothing; otherwise the trimmed name gets one
        row per SEM value. */
    method AddCustomer(name: Option<string>)
      modifies this
      ensures name.None? || Trim(name.value) == [] ==> tableData == old(tableData) && currentCustomer == old(currentCustomer)
      ensures name.Some? && Trim(name.value) != [] ==>
                tableData == old(tableData) + SemRows(Trim(name.value), SemTypes)
                && currentCustomer == Some(Customer(Trim(name.value), "20"))
    {
      if name.Some? && Trim(name.value) != [] {
        var n := Trim(name.value);
        for i := 0 to |SemTypes|
          invariant tableData == old(tableData) + SemRows(n, SemTypes[..i])
          invariant i > 0 ==> currentCustomer == Some(Customer(n, SemTypes[i - 1]))
        {
          assert SemTypes[..i + 1][..i] == SemTypes[..i];
          AddNewRow(n, SemTypes[i]);
        }
        assert SemTypes[..|SemTypes|] == SemTypes;
      }
    }

    /** `deleteSemRow` once confirmed: the row at `index` is removed. */
    method DeleteSemRow(index: int)
      modifies this
      ensures tableData == RemoveAt(old(tableData), index)
      ensures currentCustomer == old(currentCustomer)
    {
      var s := SpliceStart(|tableData|, index);
      if s < |tableData| {
        tableData := tableData[..s] + tableData[s + 1..];
      }
    }

    /** `deleteCustomer` once confirmed. */
    method DeleteCustomer(customerName: string)
      modifies this
      ensures tableData == WithoutName(old(tableData), customerName)
      ensures currentCustomer == old(currentCustomer)
    {
      var kept: seq<Row> := [];
      for i := 0 to |tableData|
        invariant kept == WithoutName(tableData[..i], customerName)
      {
        assert tableData[..i + 1][..i] == tableData[..i];
        if tableData[i].name != customerName {
          kept := kept + [tableData[i]];
        }
      }
      assert tableData[..|tableData|] == tableData;
      tableData := kept;
    }

    /** `updateRowData(index)`: a missing row is left alone; otherwise the
        row is recomputed in place. */
    method UpdateRowData(index: int, winningMap: Option<seq<Entry>>)
      modifies this
      ensures 0 <= index < |old(tableData)| ==>
                tableData == old(tableData)[index := UpdatedRow(old(tableData)[index], winningMap)]
      ensures !(0 <= index < |old(tableData)|) ==> tableData == old(tableData)
      ensures currentCustomer == old(currentCustomer)
    {
      if 0 <= index < |tableData| {
        var row := UpdateRow(tableData[index], winningMap);
        tableData := tableData[index := row];
      }
    }
  }

  /** The body of `updateRowData` on the row it found. */
  method UpdateRow(rowData: Row, winningMap: Option<seq<Entry>>) returns (r: Row)
    ensures r == UpdatedRow(rowData, winningMap)
  {
    var purchaseSet, numberOfTickets := ExpandPurchases(rowData.purchaseRanges);
    var sem := ParseIntOrZero(rowData.sem);
    r := rowData.(purchaseCount := numberOfTickets * sem);
    if |purchaseSet| == 0 {
      r := r.(soldRanges := [], soldNumbers := [], winningTickets := [],
              pwtBreakdown := [], vcBreakdown := [], svcBreakdown := [],
              unsoldValidatedHTML := rowData.unsoldRaw);
      return;
    }
    var rec := ReconcileUnsold(rowData.unsoldRaw, purchaseSet);
    var soldRanges := CompressNumberList(rec.soldNumbers);
    var matched := MatchPrizes(rec.soldNumbers, winningMap, sem);
    var winningTickets := CollectWinners(matched.details);
    r := r.(unsoldNumbers := rec.unsoldNumbers, unsoldNumbersWithStatus := rec.withStatus,
            soldNumbers := rec.soldNumbers, soldRanges := soldRanges,
            winningTickets := winningTickets,
            pwtBreakdown := matched.pwt, vcBreakdown := matched.vc, svcBreakdown := matched.svc);
  }

  // ---------------------------------------------------------------- what an update guarantees

  /** An update keeps the row's identity and input text, and sets the
      purchase count to the ticket count times the SEM. */
  lemma {:induction false} UpdatedRowCount(row: Row, winningMap: Option<seq<Entry>>)
    ensures var r := UpdatedRow(row, winningMap);
            && r.name == row.name && r.sem == row.sem
            && r.purchaseRanges == row.purchaseRanges && r.unsoldRaw == row.unsoldRaw
            && r.purchaseCount == CountOf(Segments(row.purchaseRanges)) * ParseIntOrZero(row.sem)
            && |Purchased(row.purchaseRanges)| <= CountOf(Segments(row.purchaseRanges))
  {
    PurchasedSpec(row.purchaseRanges, "");
  }

  /** With no ticket counted, nothing is purchased: every derived list is
      cleared except the unsold list, which keeps what it had. */
  lemma {:induction false} UpdatedRowNothingPurchased(row: Row, winningMap: Option<seq<Entry>>)
    requires TicketCount(row.purchaseRanges) == 0
    ensures var r := UpdatedRow(row, winningMap);
            && r.purchaseCount == 0
            && r.soldNumbers == [] && r.soldRanges == [] && r.winningTickets == []
            && r.pwtBreakdown == [] && r.vcBreakdown == [] && r.svcBreakdown == []
            && r.unsoldNumbers == row.unsoldNumbers
            && r.unsoldValidatedHTML == row.unsoldRaw
  {
    PurchasedSpec(row.purchaseRanges, "");
  }

  /** With something purchased, the sold tickets and the valid unsold
      tickets split the purchased set, every unsold entry is flagged valid
      exactly when it was purchased, the unsold list has no duplicates and is
      no longer than what was typed, and the sold ranges compress the sold
      list. */
  lemma {:induction false} UpdatedRowPartition(row: Row, winningMap: Option<seq<Entry>>, x: string)
    requires Purchased(row.purchaseRanges) != []
    ensures var r := UpdatedRow(row, winningMap);
            var purchased := Purchased(row.purchaseRanges);
            && (x in purchased <==> x in r.soldNumbers || (x in r.unsoldNumbers && x in purchased))
            && (x in r.soldNumbers ==> x !in r.unsoldNumbers)
            && NoDups(r.soldNumbers) && NoDups(r.unsoldNumbers)
            && |r.unsoldNumbers| <= |Segments(row.unsoldRaw)|
            && |r.unsoldNumbersWithStatus| == |r.unsoldNumbers|
            && (forall i :: 0 <= i < |r.unsoldNumbers| ==>
                  r.unsoldNumbersWithStatus[i] == UnsoldStatus(r.unsoldNumbers[i], r.unsoldNumbers[i] in purchased))
            && r.soldRanges == Compressed(r.soldNumbers)
  {
    var purchased := Purchased(row.purchaseRanges);
    PurchasedSpec(row.purchaseRanges, x);
    UnsoldNumbersSpec(row.unsoldRaw, purchased);
    SoldPartition(UnsoldNumbers(row.unsoldRaw, purchased), purchased);
  }

  /** The winning tickets list each matched winner once, and every match
      adds one PWT entry. */
  lemma {:induction false} UpdatedRowPrizes(row: Row, winningMap: Option<seq<Entry>>)
    requires Purchased(row.purchaseRanges) != []
    ensures var r := UpdatedRow(row, winningMap);
            var matched := MatchAll(r.soldNumbers, winningMap, ParseIntOrZero(row.sem));
            && NoDups(Tickets(r.winningTickets))
            && Tickets(r.winningTickets) == Dedup(Tickets(matched.details))
            && |r.pwtBreakdown| == |matched.details|
  {
    var r := UpdatedRow(row, winningMap);
    var matched := MatchAll(r.soldNumbers, winningMap, ParseIntOrZero(row.sem));
    UniqueWinnersOrder(matched.details);
    DedupSpec(Tickets(matched.details));
  }

  // ---------------------------------------------------------------- what the list operations guarantee

  /** Deleting a row removes exactly one row when the table is not empty and
      the index is below its length: the one at the index, counted from the
      end when negative and the first one when it reaches past the start. The
      other rows keep their order; otherwise nothing changes. */
  lemma {:induction false} RemoveAtSpec(xs: seq<Row>, index: int)
    ensures xs != [] && index < |xs| ==>
              var s := if index >= 0 then index else if |xs| + index >= 0 then |xs| + index else 0;
              && RemoveAt(xs, index) == xs[..s] + xs[s + 1..]
              && |RemoveAt(xs, index)| == |xs| - 1
              && multiset(RemoveAt(xs, index)) + multiset{xs[s]} == multiset(xs)
    ensures xs == [] || index >= |xs| ==> RemoveAt(xs, index) == xs
  {
    if xs != [] && index < |xs| {
      var s := if index >= 0 then index else if |xs| + index >= 0 then |xs| + index else 0;
      assert xs == xs[..s] + [xs[s]] + xs[s + 1..];
    }
  }

  /** Deleting a customer keeps exactly the rows with other names, in order. */
  lemma {:induction false} WithoutNameSpec(rows: seq<Row>, customerName: string)
    ensures forall r :: r in WithoutName(rows, customerName) <==> r in rows && r.name != customerName
  {
    if rows != [] {
      var init := rows[..|rows| - 1];
      WithoutNameSpec(init, customerName);
      assert rows == init + [rows[|rows| - 1]];
    }
  }

  /** Deleting a name no row has changes nothing. */
  lemma {:induction false} WithoutNameAbsent(rows: seq<Row>, customerName: string)
    requires forall i :: 0 <= i < |rows| ==> rows[i].name != customerName
    ensures WithoutName(rows, customerName) == rows
  {
    if rows != [] {
      var init := rows[..|rows| - 1];
      assert forall i :: 0 <= i < |init| ==> init[i] == rows[i];
      WithoutNameAbsent(init, customerName);
    }
  }

  /** Filtering by name distributes over concatenation. */
  lemma {:induction false} WithoutNameAppend(a: seq<Row>, b: seq<Row>, customerName: string)
    ensures WithoutName(a + b, customerName) == WithoutName(a, customerName) + WithoutName(b, customerName)
    decreases |b|
  {
    if b == [] {
      assert a + b == a;
    } else {
      WithoutNameAppend(a, b[..|b| - 1], customerName);
      assert (a + b)[..|a + b| - 1] == a + b[..|b| - 1];
    }
  }

  /** Adding a customer and then deleting it leaves the table as it was when
      the name was not there before. */
  lemma {:induction false} AddThenDelete(rows: seq<Row>, name: string, sems: seq<string>)
    requires forall i :: 0 <= i < |rows| ==> rows[i].name != name
    ensures WithoutName(rows + SemRows(name, sems), name) == rows
  {
    WithoutNameAppend(rows, SemRows(name, sems), name);
    WithoutNameAbsent(rows, name);
    WithoutNameGone(SemRows(name, sems), name);
  }

  lemma {:induction false} WithoutNameGone(rows: seq<Row>, customerName: string)
    requires forall i :: 0 <= i < |rows| ==> rows[i].name == customerName
    ensures WithoutName(rows, customerName) == []
  {
    if rows != [] {
      WithoutNameGone(rows[..|rows| - 1], customerName);
    }
  }
}
