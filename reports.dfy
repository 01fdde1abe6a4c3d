/** Saving a report (`saveReport`): the storage key built from the draw date
    and time, the key's parse back into date and time, the guard against an
    incomplete report, and the merge of the day's customer list, a `Map`
    from customer name to the `Set` of its SEM values. */
module Reports {
  import opened JsText
  import opened Ordered
  import opened Table

  const ReportPrefix := "customerReports"

  /** `getReportKey`: `customerReports_${date}_${drawTime}`. */
  function ReportKey(date: string, drawTime: string): string {
    ReportPrefix + "_" + date + "_" + drawTime
  }

  /** `getDailyCustomersKey`: `dailyCustomers_${date}`. */
  function DailyCustomersKey(date: string): string {
    "dailyCustomers_" + date
  }

  datatype DrawKey = DrawKey(date: string, drawTime: string)

  /** `parseReportKey`: the second and third `_`-separated parts when there
      are exactly three, `None` (both fields `undefined`) otherwise. */
  function ParseReportKey(key: string): Option<DrawKey> {
    var parts := Split(key, '_');
    if |parts| == 3 then Some(DrawKey(parts[1], parts[2])) else None
  }

  /** Splitting `p_d_t` on `_`, where `p` holds no `_`. */
  lemma {:induction false} SplitKey(p: string, d: string, t: string, sep: char)
    requires sep !in p
    ensures Split(p + [sep] + d + [sep] + t, sep) == [p] + Split(d, sep) + Split(t, sep)
  {
    assert p + [sep] + d + [sep] + t == p + [sep] + (d + [sep] + t);
    SplitAppend(p, d + [sep] + t, sep);
    SplitAppend(d, t, sep);
    SplitNoSep(p, sep);
  }

  /** The parts of a report key are the prefix, the parts of the date and the
      parts of the draw time. */
  lemma {:induction false} ReportKeyParts(date: string, drawTime: string)
    ensures Split(ReportKey(date, drawTime), '_') == [ReportPrefix] + Split(date, '_') + Split(drawTime, '_')
  {
    assert '_' !in ReportPrefix;
    SplitKey(ReportPrefix, date, drawTime, '_');
  }

  /** A string splits into a single part exactly when it holds no separator. */
  lemma {:induction false} SplitSingle(s: string, sep: char)
    ensures |Split(s, sep)| == 1 <==> sep !in s
    ensures sep !in s ==> Split(s, sep) == [s]
  {
    if sep in s {
      SplitHasSep(s, sep);
    } else {
      SplitNoSep(s, sep);
    }
  }

  /** A key parses back into its date and draw time exactly when neither holds
      an `_`; otherwise the parse gives nothing. */
  lemma {:induction false} ParseReportKeyRoundTrip(date: string, drawTime: string)
    ensures ParseReportKey(ReportKey(date, drawTime)) == Some(DrawKey(date, drawTime)) <==> '_' !in date && '_' !in drawTime
    ensures ('_' in date || '_' in drawTime) ==> ParseReportKey(ReportKey(date, drawTime)) == None
  {
    ReportKeyParts(date, drawTime);
    SplitSingle(date, '_');
    SplitSingle(drawTime, '_');
  }

  // ---------------------------------------------------------------- the daily customer list

  /** One entry of `customerSemMap`: a name and its `Set` of SEM values. */
  datatype SemSet = SemSet(name: string, sems: seq<string>)

  /** Where `name` is in the map, or `|m|` when it is not. */
  function FindName(m: seq<SemSet>, name: string): (i: nat)
    ensures i <= |m| && (i < |m| ==> m[i].name == name)
    ensures forall k :: 0 <= k < i ==> m[k].name != name
  {
    if m == [] then 0 else if m[0].name == name then 0 else 1 + FindName(m[1..], name)
  }

  /** Adds a SEM to a name's set, opening an empty set for a new name. */
  function AddSem(m: seq<SemSet>, name: string, sem: string): seq<SemSet> {
    var i := FindName(m, name);
    if i == |m| then m + [SemSet(name, [sem])] else m[i := SemSet(name, SetAdd(m[i].sems, sem))]
  }

  /** The map after a `forEach` over `cs` that adds each name and SEM. */
  function AddSems(m: seq<SemSet>, cs: seq<Customer>): seq<SemSet> {
    if cs == [] then m else AddSem(AddSems(m, cs[..|cs| - 1]), cs[|cs| - 1].name, cs[|cs| - 1].sem)
  }

  /** One `{ name, sem }` per SEM of an entry, in the `Set`'s order. */
  function Pairs(name: string, sems: seq<string>): (cs: seq<Customer>)
    ensures |cs| == |sems| && forall k :: 0 <= k < |sems| ==> cs[k] == Customer(name, sems[k])
  {
    if sems == [] then [] else Pairs(name, sems[..|sems| - 1]) + [Customer(name, sems[|sems| - 1])]
  }

  /** One customer per name and SEM, name by name in insertion order. */
  function Flatten(m: seq<SemSet>): seq<Customer> {
    if m == [] then [] else Flatten(m[..|m| - 1]) + Pairs(m[|m| - 1].name, m[|m| - 1].sems)
  }

  /** The name and SEM of each row, in order. */
  function RowCustomers(rows: seq<Row>): (cs: seq<Customer>)
    ensures |cs| == |rows| && forall k :: 0 <= k < |rows| ==> cs[k] == Customer(rows[k].name, rows[k].sem)
  {
    if rows == [] then [] else RowCustomers(rows[..|rows| - 1]) + [Customer(rows[|rows| - 1].name, rows[|rows| - 1].sem)]
  }

  /** The updated daily customer list: the stored list, then the report's rows. */
  function DailyCustomers(existing: seq<Customer>, reportData: seq<Row>): seq<Customer> {
    Flatten(AddSems(AddSems([], existing), RowCustomers(reportData)))
  }

  /** The merge loops of `saveReport`. */
  method MergeDailyCustomers(existingCustomers: seq<Customer>, reportData: seq<Row>)
    returns (updatedDailyCustomers: seq<Customer>)
    ensures updatedDailyCustomers == DailyCustomers(existingCustomers, reportData)
  {
    var customerSemMap := AddEach([], existingCustomers);
    customerSemMap := AddEachRow(customerSemMap, reportData);
    updatedDailyCustomers := [];
    for i := 0 to |customerSemMap|
      invariant updatedDailyCustomers == Flatten(customerSemMap[..i])
    {
      SliceSnoc(customerSemMap, i);
      updatedDailyCustomers := PushPairs(updatedDailyCustomers, customerSemMap[i]);
    }
    SliceAll(customerSemMap);
  }

  /** Each stored name and SEM into the map. */
  method AddEach(m: seq<SemSet>, cs: seq<Customer>) returns (r: seq<SemSet>)
    ensures r == AddSems(m, cs)
  {
    r := m;
    for i := 0 to |cs|
      invariant r == AddSems(m, cs[..i])
    {
      SliceSnoc(cs, i);
      r := AddSem(r, cs[i].name, cs[i].sem);
    }
    SliceAll(cs);
  }

  /** Each row's name and SEM into the map. */
  method AddEachRow(m: seq<SemSet>, rows: seq<Row>) returns (r: seq<SemSet>)
    ensures r == AddSems(m, RowCustomers(rows))
  {
    r := m;
    ghost var cs := RowCustomers(rows);
    for i := 0 to |rows|
      invariant r == AddSems(m, cs[..i])
    {
      SliceSnoc(cs, i);
      r := AddSem(r, rows[i].name, rows[i].sem);
    }
    SliceAll(cs);
  }

  /** One customer for each SEM of a name, in order. */
  method PushPairs(out: seq<Customer>, entry: SemSet) returns (r: seq<Customer>)
    ensures r == out + Pairs(entry.name, entry.sems)
  {
    r := out;
    for j := 0 to |entry.sems|
      invariant r == out + Pairs(entry.name, entry.sems[..j])
    {
      SliceSnoc(entry.sems, j);
      r := r + [Customer(entry.name, entry.sems[j])];
    }
    SliceAll(entry.sems);
  }

  /** The map's names, in insertion order. */
  function Names(m: seq<SemSet>): (ns: seq<string>)
    ensures |ns| == |m| && forall k :: 0 <= k < |m| ==> ns[k] == m[k].name
  {
    MapSeqAll(SetName, m);
    MapSeq(SetName, m)
  }

  function SetName(e: SemSet): string {
    e.name
  }

  /** A well-formed map: distinct names, and each `Set` without duplicates. */
  predicate WellFormed(m: seq<SemSet>) {
    && (forall i, j :: 0 <= i < j < |m| ==> m[i].name != m[j].name)
    && (forall i :: 0 <= i < |m| ==> NoDups(m[i].sems))
  }

  /** The map holds `sem` under `name`. */
  predicate Has(m: seq<SemSet>, name: string, sem: string) {
    exists i :: 0 <= i < |m| && m[i].name == name && sem in m[i].sems
  }

  /** Adding a name and SEM keeps the map well formed. */
  lemma {:induction false} AddSemWellFormed(m: seq<SemSet>, name: string, sem: string)
    requires WellFormed(m)
    ensures WellFormed(AddSem(m, name, sem))
  {
    var i := FindName(m, name);
    if i < |m| {
      var sems := SetAdd(m[i].sems, sem);
      assert NoDups(sems) by {
        if sem !in m[i].sems {
          assert sems == m[i].sems + [sem];
        }
      }
    }
  }

  /** Adding a name and SEM adds exactly that pair. */
  lemma {:induction false} AddSemHas(m: seq<SemSet>, name: string, sem: string, n: string, s: string)
    ensures Has(AddSem(m, name, sem), n, s) <==> Has(m, n, s) || (n == name && s == sem)
  {
    var i := FindName(m, name);
    var r := AddSem(m, name, sem);
    if Has(r, n, s) {
      var k :| 0 <= k < |r| && r[k].name == n && s in r[k].sems;
      if k < |m| && k != i {
        assert m[k] == r[k];
      } else if k == i && s != sem {
        assert s in m[i].sems;
      }
    }
    if Has(m, n, s) {
      var k :| 0 <= k < |m| && m[k].name == n && s in m[k].sems;
      if k != i {
        assert r[k] == m[k];
      } else {
        assert s in r[i].sems;
      }
    }
    if n == name && s == sem {
      assert r[i].name == name && sem in r[i].sems;
    }
  }

  /** Adding a name appends it to the names when it is new. */
  lemma {:induction false} AddSemNames(m: seq<SemSet>, name: string, sem: string)
    ensures Names(AddSem(m, name, sem)) == SetAdd(Names(m), name)
  {
    var i := FindName(m, name);
    if i == |m| {
      assert name !in Names(m);
    } else {
      assert name in Names(m);
    }
  }

  /** Adding a list of names and SEMs keeps the map well formed and appends
      the new names in first-occurrence order. */
  lemma {:induction false} AddSemsNames(m: seq<SemSet>, cs: seq<Customer>)
    requires WellFormed(m)
    ensures WellFormed(AddSems(m, cs))
    ensures Names(AddSems(m, cs)) == AddAll(Names(m), CustomerNames(cs))
  {
    if cs != [] {
      var init := cs[..|cs| - 1];
      var last := cs[|cs| - 1];
      AddSemsNames(m, init);
      AddSemWellFormed(AddSems(m, init), last.name, last.sem);
      AddSemNames(AddSems(m, init), last.name, last.sem);
      assert cs == init + [last];
      MapSeqSnoc(CustomerName, init, last);
      AddAllSnoc(Names(m), CustomerNames(init), last.name);
    }
  }

  /** Adding a list of names and SEMs adds exactly its pairs. */
  lemma {:induction false} AddSemsHas(m: seq<SemSet>, cs: seq<Customer>, n: string, s: string)
    ensures Has(AddSems(m, cs), n, s) <==> Has(m, n, s) || Customer(n, s) in cs
  {
    if cs != [] {
      var init := cs[..|cs| - 1];
      var last := cs[|cs| - 1];
      AddSemsHas(m, init, n, s);
      AddSemHas(AddSems(m, init), last.name, last.sem, n, s);
      assert cs == init + [last];
    }
  }

  /** The names of a list of customers, in order. */
  function CustomerNames(cs: seq<Customer>): seq<string> {
    MapSeq(CustomerName, cs)
  }

  function CustomerName(c: Customer): string {
    c.name
  }

  /** The flattened list holds exactly the pairs of the map. */
  lemma {:induction false} FlattenHas(m: seq<SemSet>, c: Customer)
    ensures c in Flatten(m) <==> Has(m, c.name, c.sem)
  {
    if m != [] {
      var init := m[..|m| - 1];
      var last := m[|m| - 1];
      FlattenHas(init, c);
      var ps := Pairs(last.name, last.sems);
      if Has(m, c.name, c.sem) {
        var k :| 0 <= k < |m| && m[k].name == c.name && c.sem in m[k].sems;
        if k < |init| {
          assert init[k] == m[k];
        } else {
          var j :| 0 <= j < |last.sems| && last.sems[j] == c.sem;
          assert ps[j] == c;
        }
      }
      if c in ps {
        var j :| 0 <= j < |ps| && ps[j] == c;
        assert m[|init|].name == c.name && c.sem in m[|init|].sems;
      }
      if Has(init, c.name, c.sem) {
        var k :| 0 <= k < |init| && init[k].name == c.name && c.sem in init[k].sems;
        assert m[k] == init[k];
      }
    }
  }

  /** Every pair of the flattened list carries one of the map's names. */
  lemma {:induction false} FlattenNames(m: seq<SemSet>, c: Customer)
    ensures c in Flatten(m) ==> c.name in Names(m)
  {
    if m != [] {
      var init := m[..|m| - 1];
      FlattenNames(init, c);
      assert Names(init) <= Names(m);
    }
  }

  /** A well-formed map flattens without duplicates. */
  lemma {:induction false} FlattenNoDups(m: seq<SemSet>)
    requires WellFormed(m)
    ensures NoDups(Flatten(m))
  {
    if m != [] {
      var init := m[..|m| - 1];
      var last := m[|m| - 1];
      assert WellFormed(init);
      FlattenNoDups(init);
      var f := Flatten(init);
      var ps := Pairs(last.name, last.sems);
      forall i, j | 0 <= i < j < |f + ps|
        ensures (f + ps)[i] != (f + ps)[j]
      {
        if j < |f| {
          assert (f + ps)[i] == f[i] && (f + ps)[j] == f[j];
        } else if i >= |f| {
          assert (f + ps)[i] == ps[i - |f|] && (f + ps)[j] == ps[j - |f|];
        } else {
          assert (f + ps)[i] == f[i] && (f + ps)[j] == ps[j - |f|];
          FlattenNames(init, f[i]);
          assert last.name !in Names(init);
        }
      }
    }
  }

  /** The saved daily list holds each (name, SEM) pair of the stored list or
      of the report exactly once, and nothing else; the names come in
      first-occurrence order, the stored list's first. */
  lemma {:induction false} DailyCustomersSpec(existing: seq<Customer>, reportData: seq<Row>)
    ensures NoDups(DailyCustomers(existing, reportData))
    ensures forall c :: c in DailyCustomers(existing, reportData) <==> c in existing || c in RowCustomers(reportData)
    ensures Names(AddSems(AddSems([], existing), RowCustomers(reportData)))
            == Dedup(CustomerNames(existing) + CustomerNames(RowCustomers(reportData)))
  {
    var m1 := AddSems([], existing);
    var rc := RowCustomers(reportData);
    AddSemsNames([], existing);
    AddSemsNames(m1, rc);
    var m2 := AddSems(m1, rc);
    FlattenNoDups(m2);
    forall c
      ensures c in Flatten(m2) <==> c in existing || c in rc
    {
      FlattenHas(m2, c);
      AddSemsHas(m1, rc, c.name, c.sem);
      AddSemsHas([], existing, c.name, c.sem);
    }
    AddAllAppend([], CustomerNames(existing), CustomerNames(rc));
  }

  // ---------------------------------------------------------------- saving

  datatype SavedReport = SavedReport(reportKey: string, reportData: seq<Row>, dailyCustomersKey: string,
                                     dailyCustomers: seq<Customer>)

  /** What `saveReport` writes for a resolved date and draw time: nothing when
      the date is empty, the draw time is empty or `Unknown`, or there are no
      rows; otherwise the report under its key and the merged daily list. */
  function SaveReport(reportDate: string, reportDrawTime: string, reportData: seq<Row>, existingCustomers: seq<Customer>)
    : Option<SavedReport>
  {
    if reportDate == "" then None
    else if reportDrawTime == "" || reportDrawTime == "Unknown" then None
    else if |reportData| == 0 then None
    else Some(SavedReport(ReportKey(reportDate, reportDrawTime), reportData, DailyCustomersKey(reportDate),
                          DailyCustomers(existingCustomers, reportData)))
  }

  /** A report is saved exactly when its date, draw time and rows are all
      there; the saved key parses back to the date and draw time when neither
      holds an `_`, and the daily list is the duplicate-free merge. */
  lemma {:induction false} SaveReportSpec(reportDate: string, reportDrawTime: string, reportData: seq<Row>, existing: seq<Customer>)
    ensures var r := SaveReport(reportDate, reportDrawTime, reportData, existing);
            r.Some? <==> reportDate != "" && reportDrawTime != "" && reportDrawTime != "Unknown" && reportData != []
    ensures var r := SaveReport(reportDate, reportDrawTime, reportData, existing);
            r.Some? && '_' !in reportDate && '_' !in reportDrawTime ==>
              ParseReportKey(r.value.reportKey) == Some(DrawKey(reportDate, reportDrawTime))
    ensures var r := SaveReport(reportDate, reportDrawTime, reportData, existing);
            r.Some? ==> NoDups(r.value.dailyCustomers)
                        && forall c :: c in r.value.dailyCustomers <==> c in existing || c in RowCustomers(reportData)
  {
    ParseReportKeyRoundTrip(reportDate, reportDrawTime);
    DailyCustomersSpec(existing, reportData);
  }
}
