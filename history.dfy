/** The reports page's view of saved customer reports
    (`loadCustomerReportsData`): every stored `customerReports_…` value that
    parses to an array becomes a draw entry with a date and time taken from
    its key, an id hashed from the key, and one prize list. */
module History {
  import opened JsText
  import opened Ordered
  import Reports

  // ---------------------------------------------------------------- stored data

  /** An element of a stored report array as the loader reads it: something
      that is not an object, or an object with its `name` (`""` when missing
      or falsy) and the `ticket` of each of its `winningTickets` (`""` when
      the entry or its ticket is missing or falsy; no entries when the field
      is not an array). */
  datatype ReportRow = NonObject | CustomerObject(name: string, winningTickets: seq<string>)

  /** What `JSON.parse` makes of a stored value: it throws, it gives
      something other than an array, or it gives an array. */
  datatype Stored = Unparsable | NotArray | Rows(rows: seq<ReportRow>)

  /** One `localStorage` key and its value, in `Object.keys` order. */
  datatype StorageItem = StorageItem(key: string, value: Stored)

  /** One `prizes` entry: a category and its numbers. */
  datatype PrizeList = PrizeList(category: string, numbers: seq<string>)

  /** `draw.source`: `'customer'` for entries built here; anything else
      (OCR history) is shown as OCR data. */
  datatype Source = OcrSource | CustomerSource

  /** A draw of the history: OCR draws and customer entries alike. */
  datatype Draw = Draw(id: int, date: string, time: string, prizes: seq<PrizeList>, source: Source, originalKey: string)

  const CustomerKeyPrefix := "customerReports_"
  const WinningCategory := "Customer Winning Numbers"
  const RecordedCategory := "Customers Recorded"

  predicate StartsWith(s: string, prefix: string) {
    |prefix| <= |s| && s[..|prefix|] == prefix
  }

  // ---------------------------------------------------------------- the key

  /** `key.split('_')`: the date is the second part and the time the rest
      joined back with `_`; a key with fewer than three parts has neither. */
  function SplitKey(key: string): Option<Reports.DrawKey> {
    var parts := Split(key, '_');
    if |parts| >= 3 then Some(Reports.DrawKey(parts[1], Join(parts[2..], "_"))) else None
  }

  /** Every key written by `getReportKey` is picked up by the loader, and its
      date and time come back exactly when the date holds no `_` (the time
      may hold any number of them). */
  lemma {:induction false} SplitKeyReportKey(date: string, drawTime: string)
    ensures StartsWith(Reports.ReportKey(date, drawTime), CustomerKeyPrefix)
    ensures SplitKey(Reports.ReportKey(date, drawTime)) == Some(Reports.DrawKey(date, drawTime)) <==> '_' !in date
  {
    var key := Reports.ReportKey(date, drawTime);
    assert key == CustomerKeyPrefix + date + "_" + drawTime;
    Reports.ReportKeyParts(date, drawTime);
    var parts := Split(key, '_');
    var ds := Split(date, '_');
    assert parts[1] == ds[0];
    if '_' !in date {
      Reports.SplitSingle(date, '_');
      assert parts[2..] == Split(drawTime, '_');
      JoinSplit(drawTime, '_');
    } else {
      assert '_' !in ds[0];
    }
  }

  // ---------------------------------------------------------------- the id

  const Two31: int := 0x8000_0000
  const Two32: int := 0x1_0000_0000

  /** `x | 0`: the value modulo 2^32, taken in [-2^31, 2^31). */
  function Int32(x: int): (r: int)
    ensures -Two31 <= r < Two31
  {
    (x + Two31) % Two32 - Two31
  }

  /** One step of the id fold, `(((a << 5) - a) + code) | 0`, for a 32-bit
      accumulator `a`. */
  function HashStep(a: int, code: int): (r: int)
    requires -Two31 <= a < Two31
    ensures -Two31 <= r < Two31
  {
    Int32(Int32(a * 32) - a + code)
  }

  /** The id of an entry: the fold of `HashStep` over the key's character
      codes, from 0. */
  function Hash(key: string): (r: int)
    ensures -Two31 <= r < Two31
  {
    if key == [] then 0 else HashStep(Hash(key[..|key| - 1]), key[|key| - 1] as int)
  }

  /** The same hash without wrap-around: `31 * h + code` on unbounded integers. */
  function PolyHash(key: string): int {
    if key == [] then 0 else 31 * PolyHash(key[..|key| - 1]) + key[|key| - 1] as int
  }

  lemma {:induction false} Int32Of(x: int)
    ensures Int32(x) == x - Two32 * ((x + Two31) / Two32)
  {
  }

  /** `| 0` only sees the value modulo 2^32. */
  lemma {:induction false} Int32Shift(x: int, k: int)
    ensures Int32(x + Two32 * k) == Int32(x)
  {
    var u := x + Two31;
    assert (u + Two32 * k) % Two32 == u % Two32;
  }

  /** A step of the fold on a wrapped value is the wrapped polynomial step. */
  lemma {:induction false} HashStepPoly(p: int, code: int)
    ensures HashStep(Int32(p), code) == Int32(31 * p + code)
  {
    var a := Int32(p);
    Int32Of(p);
    Int32Of(a * 32);
    var k2 := -((p + Two31) / Two32);
    var k1 := -((a * 32 + Two31) / Two32);
    assert a == p + Two32 * k2;
    assert Int32(a * 32) - a + code == 31 * p + code + Two32 * (31 * k2 + k1);
    Int32Shift(31 * p + code, 31 * k2 + k1);
  }

  /** The id is the polynomial hash `sum code_i * 31^(n-1-i)` taken modulo
      2^32 into the signed 32-bit range: it depends on the key alone. */
  lemma {:induction false} HashIsPoly(key: string)
    ensures Hash(key) == Int32(PolyHash(key))
  {
    if key != [] {
      var init := key[..|key| - 1];
      HashIsPoly(init);
      HashStepPoly(PolyHash(init), key[|key| - 1] as int);
    }
  }

  // ---------------------------------------------------------------- the entry

  /** `customer.name || 'Unknown'`. */
  function OrUnknown(name: string): string {
    if name == "" then "Unknown" else name
  }

  /** The names `customerNames.add` is called with, in order. */
  function NameList(rows: seq<ReportRow>): seq<string> {
    if rows == [] then []
    else
      var r := rows[|rows| - 1];
      NameList(rows[..|rows| - 1]) + (if r.CustomerObject? then [OrUnknown(r.name)] else [])
  }

  /** The labels `ticket (name)` of the truthy tickets of one customer. */
  function Labels(tickets: seq<string>, name: string): seq<string> {
    if tickets == [] then []
    else
      var t := tickets[|tickets| - 1];
      Labels(tickets[..|tickets| - 1], name) + (if t != "" then [t + " (" + name + ")"] else [])
  }

  /** The labels `allWinningNumbers.add` is called with, in order. */
  function LabelList(rows: seq<ReportRow>): seq<string> {
    if rows == [] then []
    else
      var r := rows[|rows| - 1];
      LabelList(rows[..|rows| - 1]) + (if r.CustomerObject? then Labels(r.winningTickets, OrUnknown(r.name)) else [])
  }

  /** The one prize list of an entry. */
  function EntryPrizes(names: seq<string>, winning: seq<string>): seq<PrizeList> {
    if |winning| > 0 then [PrizeList(WinningCategory, winning)] else [PrizeList(RecordedCategory, names)]
  }

  /** The entry a stored report makes, if any. */
  function CustomerEntry(key: string, value: Stored): Option<Draw> {
    if !value.Rows? then None
    else
      match SplitKey(key)
      case None => None
      case Some(k) =>
        var names := Dedup(NameList(value.rows));
        var winning := Dedup(LabelList(value.rows));
        if |names| == 0 then None
        else Some(Draw(Hash(key), k.date, k.drawTime, EntryPrizes(names, winning), CustomerSource, key))
  }

  /** The stored keys that carry the customer-reports prefix, in storage order. */
  function CustomerItems(storage: seq<StorageItem>): seq<StorageItem> {
    if storage == [] then []
    else
      var item := storage[|storage| - 1];
      CustomerItems(storage[..|storage| - 1]) + (if StartsWith(item.key, CustomerKeyPrefix) then [item] else [])
  }

  /** The entries of the given items, in order. */
  function Entries(items: seq<StorageItem>): seq<Draw> {
    if items == [] then []
    else
      var item := items[|items| - 1];
      var e := CustomerEntry(item.key, item.value);
      Entries(items[..|items| - 1]) + (if e.Some? then [e.value] else [])
  }

  /** What `loadCustomerReportsData` returns. */
  function CustomerReports(storage: seq<StorageItem>): seq<Draw> {
    Entries(CustomerItems(storage))
  }

  // ---------------------------------------------------------------- the loops

  /** `loadCustomerReportsData`. */
  method LoadCustomerReportsData(storage: seq<StorageItem>) returns (customerReports: seq<Draw>)
    ensures customerReports == CustomerReports(storage)
  {
    var customerKeys := CustomerItems(storage);
    customerReports := [];
    for i := 0 to |customerKeys|
      invariant customerReports == Entries(customerKeys[..i])
    {
      var item := customerKeys[i];
      var entry := BuildEntry(item.key, item.value);
      if entry.Some? {
        customerReports := customerReports + [entry.value];
      }
      SliceSnoc(customerKeys, i);
    }
    SliceAll(customerKeys);
  }

  /** The body of the loader's `forEach`: one key and its stored value. */
  method BuildEntry(key: string, value: Stored) returns (entry: Option<Draw>)
    ensures entry == CustomerEntry(key, value)
  {
    if !value.Rows? {
      return None;
    }
    var parts := Split(key, '_');
    if |parts| < 3 {
      return None;
    }
    var date := parts[1];
    var time := Join(parts[2..], "_");
    var rows := value.rows;
    var allWinningNumbers: seq<string> := [];
    var customerNames: seq<string> := [];
    for i := 0 to |rows|
      invariant customerNames == Dedup(NameList(rows[..i]))
      invariant allWinningNumbers == Dedup(LabelList(rows[..i]))
    {
      var customer := rows[i];
      SliceSnoc(rows, i);
      assert rows[..i + 1][..i] == rows[..i];
      assert rows[..i + 1][i] == customer;
      if customer.CustomerObject? {
        assert NameList(rows[..i + 1]) == NameList(rows[..i]) + [OrUnknown(customer.name)];
        assert LabelList(rows[..i + 1]) == LabelList(rows[..i]) + Labels(customer.winningTickets, OrUnknown(customer.name));
        AddAllSnoc([], NameList(rows[..i]), OrUnknown(customer.name));
        customerNames := SetAdd(customerNames, OrUnknown(customer.name));
        AddAllAppend([], LabelList(rows[..i]), Labels(customer.winningTickets, OrUnknown(customer.name)));
        allWinningNumbers := AddLabels(allWinningNumbers, customer.winningTickets, OrUnknown(customer.name));
      } else {
        assert NameList(rows[..i + 1]) == NameList(rows[..i]) + [] == NameList(rows[..i]);
        assert LabelList(rows[..i + 1]) == LabelList(rows[..i]) + [] == LabelList(rows[..i]);
      }
    }
    SliceAll(rows);
    if |customerNames| == 0 {
      return None;
    }
    var prizes := if |allWinningNumbers| > 0 then [PrizeList(WinningCategory, allWinningNumbers)]
      else [PrizeList(RecordedCategory, customerNames)];
    entry := Some(Draw(Hash(key), date, time, prizes, CustomerSource, key));
  }

  /** The inner `forEach` over one customer's winning tickets. */
  method AddLabels(allWinningNumbers: seq<string>, tickets: seq<string>, name: string) returns (r: seq<string>)
    ensures r == AddAll(allWinningNumbers, Labels(tickets, name))
  {
    r := allWinningNumbers;
    for j := 0 to |tickets|
      invariant r == AddAll(allWinningNumbers, Labels(tickets[..j], name))
    {
      var wt := tickets[j];
      SliceSnoc(tickets, j);
      assert tickets[..j + 1][..j] == tickets[..j];
      assert tickets[..j + 1][j] == wt;
      if wt != "" {
        assert Labels(tickets[..j + 1], name) == Labels(tickets[..j], name) + [wt + " (" + name + ")"];
        AddAllSnoc(allWinningNumbers, Labels(tickets[..j], name), wt + " (" + name + ")");
        r := SetAdd(r, wt + " (" + name + ")");
      } else {
        assert Labels(tickets[..j + 1], name) == Labels(tickets[..j], name) + [] == Labels(tickets[..j], name);
      }
    }
    SliceAll(tickets);
  }

  // ---------------------------------------------------------------- what an entry holds

  /** Some element of the array is an object. */
  predicate HasObject(rows: seq<ReportRow>) {
    exists i :: 0 <= i < |rows| && rows[i].CustomerObject?
  }

  /** An object with a winning ticket whose `ticket` is truthy. */
  predicate WinningRow(r: ReportRow) {
    r.CustomerObject? && exists j :: 0 <= j < |r.winningTickets| && r.winningTickets[j] != ""
  }

  /** Some object of the array has a winning ticket with a truthy `ticket`. */
  predicate HasWinningTicket(rows: seq<ReportRow>) {
    exists i :: 0 <= i < |rows| && WinningRow(rows[i])
  }

  /** The names are those of the objects, `Unknown` for a missing one. */
  lemma {:induction false} NameListSpec(rows: seq<ReportRow>)
    ensures forall x :: x in NameList(rows) <==>
      exists i :: 0 <= i < |rows| && rows[i].CustomerObject? && OrUnknown(rows[i].name) == x
    ensures |NameList(rows)| > 0 <==> HasObject(rows)
  {
    if rows != [] {
      var init := rows[..|rows| - 1];
      NameListSpec(init);
      assert forall i :: 0 <= i < |init| ==> init[i] == rows[i];
      if HasObject(init) {
        var i :| 0 <= i < |init| && init[i].CustomerObject?;
        assert rows[i].CustomerObject?;
      }
    }
  }

  /** The labels of one customer are `ticket (name)` for its truthy tickets. */
  lemma {:induction false} LabelsSpec(tickets: seq<string>, name: string)
    ensures forall x :: x in Labels(tickets, name) <==>
      exists j :: 0 <= j < |tickets| && tickets[j] != "" && x == tickets[j] + " (" + name + ")"
  {
    if tickets != [] {
      var init := tickets[..|tickets| - 1];
      LabelsSpec(init, name);
      assert forall j :: 0 <= j < |init| ==> init[j] == tickets[j];
    }
  }

  /** A customer has a label exactly when one of its tickets is truthy. */
  lemma {:induction false} LabelsNonEmpty(tickets: seq<string>, name: string)
    ensures |Labels(tickets, name)| > 0 <==> exists j :: 0 <= j < |tickets| && tickets[j] != ""
  {
    if tickets != [] {
      var init := tickets[..|tickets| - 1];
      LabelsNonEmpty(init, name);
      assert forall j :: 0 <= j < |init| ==> init[j] == tickets[j];
    }
  }

  /** `x` is a label of the object at index `i`. */
  predicate LabelOf(rows: seq<ReportRow>, i: int, x: string) {
    0 <= i < |rows| && rows[i].CustomerObject? && x in Labels(rows[i].winningTickets, OrUnknown(rows[i].name))
  }

  /** The labels of an array are those of its objects. */
  lemma {:induction false} LabelListSpec(rows: seq<ReportRow>)
    ensures forall x :: x in LabelList(rows) <==> exists i :: LabelOf(rows, i, x)
  {
    if rows != [] {
      var init, r := rows[..|rows| - 1], rows[|rows| - 1];
      LabelListSpec(init);
      var tail := if r.CustomerObject? then Labels(r.winningTickets, OrUnknown(r.name)) else [];
      assert LabelList(rows) == LabelList(init) + tail;
      forall x
        ensures x in LabelList(rows) <==> exists i :: LabelOf(rows, i, x)
      {
        if x in LabelList(init) {
          var i :| LabelOf(init, i, x);
          assert init[i] == rows[i];
          assert LabelOf(rows, i, x);
        } else if x in tail {
          assert LabelOf(rows, |rows| - 1, x);
        }
        if i :| LabelOf(rows, i, x) {
          if i < |init| {
            assert init[i] == rows[i];
            assert LabelOf(init, i, x);
          }
        }
      }
    }
  }

  /** An array has a label exactly when some object has a truthy ticket. */
  lemma {:induction false} LabelListNonEmpty(rows: seq<ReportRow>)
    ensures |LabelList(rows)| > 0 <==> HasWinningTicket(rows)
  {
    if rows != [] {
      var init, r := rows[..|rows| - 1], rows[|rows| - 1];
      LabelListNonEmpty(init);
      if r.CustomerObject? {
        LabelsNonEmpty(r.winningTickets, OrUnknown(r.name));
      }
      if HasWinningTicket(init) {
        var i :| 0 <= i < |init| && WinningRow(init[i]);
        assert rows[i] == init[i];
      }
      if HasWinningTicket(rows) {
        var i :| 0 <= i < |rows| && WinningRow(rows[i]);
        if i < |init| {
          assert rows[i] == init[i];
        }
      }
    }
  }
  /** A stored value makes an entry exactly when it is an array holding an
      object and its key has at least three parts. */
  lemma {:induction false} CustomerEntryDefined(key: string, value: Stored)
    ensures CustomerEntry(key, value).Some? <==> value.Rows? && SplitKey(key).Some? && HasObject(value.rows)
  {
    if value.Rows? {
      NameListSpec(value.rows);
      DedupSpec(NameList(value.rows));
      if |NameList(value.rows)| > 0 {
        assert NameList(value.rows)[0] in Dedup(NameList(value.rows));
      }
    }
  }

  /** An entry's id is the hash of its key, its date and time come from the
      key, and it has exactly one prize list. */
  lemma {:induction false} CustomerEntryShape(key: string, value: Stored)
    requires CustomerEntry(key, value).Some?
    ensures var d := CustomerEntry(key, value).value;
      && d.id == Hash(key) && -Two31 <= d.id < Two31
      && SplitKey(key) == Some(Reports.DrawKey(d.date, d.time))
      && d.source == CustomerSource && d.originalKey == key && |d.prizes| == 1
  {
  }

  /** The prize list holds no repeats: the `ticket (name)` labels when some
      object has a truthy ticket, the names otherwise. */
  lemma {:induction false} CustomerEntryPrizes(key: string, value: Stored)
    requires CustomerEntry(key, value).Some?
    ensures var p := CustomerEntry(key, value).value.prizes[0];
      && NoDups(p.numbers) && |p.numbers| > 0
      && (p.category == WinningCategory <==> HasWinningTicket(value.rows))
      && (p.category == WinningCategory || p.category == RecordedCategory)
      && (HasWinningTicket(value.rows) ==> forall x :: x in p.numbers <==> x in LabelList(value.rows))
      && (!HasWinningTicket(value.rows) ==> forall x :: x in p.numbers <==> x in NameList(value.rows))
  {
    var rows := value.rows;
    LabelListNonEmpty(rows);
    DedupSpec(NameList(rows));
    DedupSpec(LabelList(rows));
    if |LabelList(rows)| > 0 {
      assert LabelList(rows)[0] in Dedup(LabelList(rows));
    }
  }

  lemma {:induction false} NameListAppend(a: seq<ReportRow>, b: seq<ReportRow>)
    ensures NameList(a + b) == NameList(a) + NameList(b)
    decreases |b|
  {
    if b == [] {
      assert a + b == a;
    } else {
      NameListAppend(a, b[..|b| - 1]);
      assert (a + b)[..|a + b| - 1] == a + b[..|b| - 1];
    }
  }

  lemma {:induction false} LabelListAppend(a: seq<ReportRow>, b: seq<ReportRow>)
    ensures LabelList(a + b) == LabelList(a) + LabelList(b)
    decreases |b|
  {
    if b == [] {
      assert a + b == a;
    } else {
      var init, r := b[..|b| - 1], b[|b| - 1];
      LabelListAppend(a, init);
      assert (a + b)[..|a + b| - 1] == a + init;
      assert (a + b)[|a + b| - 1] == r;
      var tail := if r.CustomerObject? then Labels(r.winningTickets, OrUnknown(r.name)) else [];
      assert LabelList(a + b) == LabelList(a + init) + tail;
      assert LabelList(b) == LabelList(init) + tail;
      AppendAssoc(LabelList(a), LabelList(init), tail);
    }
  }

  /** An element that is not an object changes nothing. */
  lemma {:induction false} NonObjectIgnored(key: string, a: seq<ReportRow>, b: seq<ReportRow>)
    ensures CustomerEntry(key, Rows(a + [NonObject] + b)) == CustomerEntry(key, Rows(a + b))
  {
    var rows := a + [NonObject] + b;
    NameListAppend(a + [NonObject], b);
    NameListAppend(a, [NonObject]);
    NameListAppend(a, b);
    LabelListAppend(a + [NonObject], b);
    LabelListAppend(a, [NonObject]);
    LabelListAppend(a, b);
    assert [NonObject][..0] == [];
    assert NameList([NonObject]) == [] && LabelList([NonObject]) == [];
    assert NameList(a + [NonObject]) == NameList(a) + [] == NameList(a);
    assert LabelList(a + [NonObject]) == LabelList(a) + [] == LabelList(a);
    assert NameList(rows) == NameList(a + b);
    assert LabelList(rows) == LabelList(a + b);
  }

  // ---------------------------------------------------------------- what the loader returns

  lemma {:induction false} CustomerItemsSpec(storage: seq<StorageItem>)
    ensures forall item :: item in CustomerItems(storage) <==> item in storage && StartsWith(item.key, CustomerKeyPrefix)
    ensures |CustomerItems(storage)| <= |storage|
  {
    if storage != [] {
      CustomerItemsSpec(storage[..|storage| - 1]);
      assert storage == storage[..|storage| - 1] + [storage[|storage| - 1]];
    }
  }

  lemma {:induction false} EntriesSpec(items: seq<StorageItem>)
    ensures forall d :: d in Entries(items) <==> exists item :: item in items && CustomerEntry(item.key, item.value) == Some(d)
    ensures |Entries(items)| <= |items|
  {
    if items != [] {
      EntriesSpec(items[..|items| - 1]);
      assert items == items[..|items| - 1] + [items[|items| - 1]];
    }
  }

  /** The loader returns one entry per stored `customerReports_` key whose
      value makes one, and nothing else. */
  lemma {:induction false} CustomerReportsSpec(storage: seq<StorageItem>)
    ensures forall d :: d in CustomerReports(storage) <==>
      exists item :: item in storage && StartsWith(item.key, CustomerKeyPrefix) && CustomerEntry(item.key, item.value) == Some(d)
    ensures |CustomerReports(storage)| <= |storage|
    ensures forall d :: d in CustomerReports(storage) ==> d.source == CustomerSource
  {
    CustomerItemsSpec(storage);
    EntriesSpec(CustomerItems(storage));
    forall d | d in CustomerReports(storage)
      ensures d.source == CustomerSource
    {
      var item :| item in CustomerItems(storage) && CustomerEntry(item.key, item.value) == Some(d);
      CustomerEntryShape(item.key, item.value);
    }
  }
}
