/** The reports page's views of the combined history (OCR draws followed by
    customer entries): the cards grouped by date, the overall summary, and
    the lookup behind a "View Results" button. */
module HistoryView {
  import opened JsText
  import opened Ordered
  import opened History

  // ---------------------------------------------------------------- string order

  /** `a < b` as JavaScript compares strings (and as the default `sort`
      orders them): character by character, a proper prefix first. */
  predicate StrLess(a: string, b: string)
    decreases |a|
  {
    if a == [] then b != []
    else if b == [] then false
    else if a[0] != b[0] then a[0] < b[0]
    else StrLess(a[1..], b[1..])
  }

  lemma {:induction false} StrLessIrreflexive(a: string)
    ensures !StrLess(a, a)
    decreases |a|
  {
    if a != [] {
      StrLessIrreflexive(a[1..]);
    }
  }

  lemma {:induction false} StrLessTransitive(a: string, b: string, c: string)
    requires StrLess(a, b) && StrLess(b, c)
    ensures StrLess(a, c)
    decreases |a|
  {
    if a != [] && a[0] == b[0] && b[0] == c[0] {
      StrLessTransitive(a[1..], b[1..], c[1..]);
    }
  }

  lemma {:induction false} StrLessTotal(a: string, b: string)
    ensures a == b || StrLess(a, b) || StrLess(b, a)
    decreases |a|
  {
    if a != [] && b != [] && a[0] == b[0] {
      StrLessTotal(a[1..], b[1..]);
      if a[1..] == b[1..] {
        assert a == [a[0]] + a[1..] && b == [b[0]] + b[1..];
      }
    }
  }

  // ---------------------------------------------------------------- sorting the dates

  /** Strictly descending in string order. */
  predicate Descending(s: seq<string>) {
    forall i, j :: 0 <= i < j < |s| ==> StrLess(s[j], s[i])
  }

  /** Puts `x` in front of the first element of `s` that is below it. */
  function InsertDesc(x: string, s: seq<string>): seq<string> {
    if s == [] then [x]
    else if StrLess(s[0], x) then [x] + s
    else [s[0]] + InsertDesc(x, s[1..])
  }

  /** The keys in descending string order. */
  function SortDesc(xs: seq<string>): seq<string> {
    if xs == [] then [] else InsertDesc(xs[0], SortDesc(xs[1..]))
  }

  lemma {:induction false} DescendingTail(s: seq<string>)
    requires Descending(s) && s != []
    ensures Descending(s[1..])
  {
    assert forall i :: 1 <= i < |s| ==> s[1..][i - 1] == s[i];
  }

  lemma {:induction false} InsertDescMultiset(x: string, s: seq<string>)
    ensures multiset(InsertDesc(x, s)) == multiset(s) + multiset{x}
  {
    if s != [] && !StrLess(s[0], x) {
      InsertDescMultiset(x, s[1..]);
      assert s == [s[0]] + s[1..];
    }
  }

  lemma {:induction false} ConsDescending(y: string, t: seq<string>)
    requires Descending(t) && forall z :: z in t ==> StrLess(z, y)
    ensures Descending([y] + t)
  {
    var r := [y] + t;
    forall i, j | 0 <= i < j < |r|
      ensures StrLess(r[j], r[i])
    {
      assert r[j] == t[j - 1];
      if i > 0 {
        assert r[i] == t[i - 1];
      }
    }
  }

  /** Inserting a new string into a descending list keeps it descending and
      adds exactly that string. */
  lemma {:induction false} InsertDescSpec(x: string, s: seq<string>)
    requires Descending(s) && x !in s
    ensures Descending(InsertDesc(x, s))
    ensures multiset(InsertDesc(x, s)) == multiset(s) + multiset{x}
  {
    InsertDescMultiset(x, s);
    if s == [] {
    } else if StrLess(s[0], x) {
      forall z | z in s
        ensures StrLess(z, x)
      {
        var k :| 0 <= k < |s| && s[k] == z;
        if k > 0 {
          StrLessTransitive(z, s[0], x);
        }
      }
      ConsDescending(x, s);
    } else {
      var t := InsertDesc(x, s[1..]);
      DescendingTail(s);
      InsertDescSpec(x, s[1..]);
      StrLessTotal(x, s[0]);
      forall z | z in t
        ensures StrLess(z, s[0])
      {
        assert z in multiset(t);
        if z != x {
          assert z in multiset(s[1..]);
          var k :| 0 <= k < |s[1..]| && s[1..][k] == z;
          assert s[k + 1] == z;
        }
      }
      ConsDescending(s[0], t);
    }
  }

  /** Sorting distinct strings gives them in strictly descending order. */
  lemma {:induction false} SortDescSpec(xs: seq<string>)
    requires NoDups(xs)
    ensures Descending(SortDesc(xs))
    ensures multiset(SortDesc(xs)) == multiset(xs)
  {
    if xs != [] {
      var rest := xs[1..];
      assert NoDups(rest) by {
        assert forall i :: 0 <= i < |rest| ==> rest[i] == xs[i + 1];
      }
      SortDescSpec(rest);
      assert xs[0] !in rest;
      assert xs[0] !in multiset(SortDesc(rest));
      InsertDescSpec(xs[0], SortDesc(rest));
      assert xs == [xs[0]] + rest;
    }
  }

  // ---------------------------------------------------------------- grouping by date

  /** The dates of the draws, in order. */
  function DateList(history: seq<Draw>): seq<string> {
    if history == [] then [] else DateList(history[..|history| - 1]) + [history[|history| - 1].date]
  }

  /** The draws of one date, in order. */
  function DrawsOn(history: seq<Draw>, date: string): seq<Draw> {
    if history == [] then []
    else
      var d := history[|history| - 1];
      DrawsOn(history[..|history| - 1], date) + (if d.date == date then [d] else [])
  }

  /** The card dates: the distinct dates, newest (largest string) first. */
  function SortedDates(history: seq<Draw>): seq<string> {
    SortDesc(Dedup(DateList(history)))
  }

  lemma {:induction false} DateListSpec(history: seq<Draw>)
    ensures forall d :: d in DateList(history) <==> exists k :: 0 <= k < |history| && history[k].date == d
  {
    if history != [] {
      var init := history[..|history| - 1];
      DateListSpec(init);
      assert forall k :: 0 <= k < |init| ==> init[k] == history[k];
    }
  }

  /** Each draw of the history sits in the group of its own date, as often as
      it occurs, and in no other group. */
  lemma {:induction false} DrawsOnSpec(history: seq<Draw>, date: string)
    ensures forall x :: multiset(DrawsOn(history, date))[x] == if x.date == date then multiset(history)[x] else 0
  {
    if history != [] {
      var init := history[..|history| - 1];
      DrawsOnSpec(init, date);
      assert history == init + [history[|history| - 1]];
    }
  }

  lemma {:induction false} DrawsOnAbsent(history: seq<Draw>, date: string)
    requires date !in DateList(history)
    ensures DrawsOn(history, date) == []
  {
    if history != [] {
      DrawsOnAbsent(history[..|history| - 1], date);
    }
  }

  /** The card dates are exactly the dates of the draws, each once, in
      strictly descending string order. */
  lemma {:induction false} SortedDatesSpec(history: seq<Draw>)
    ensures Descending(SortedDates(history))
    ensures forall d :: d in SortedDates(history) <==> exists k :: 0 <= k < |history| && history[k].date == d
  {
    DedupSpec(DateList(history));
    SortDescSpec(Dedup(DateList(history)));
    SameMembers(SortedDates(history), Dedup(DateList(history)));
    DateListSpec(history);
  }

  lemma {:induction false} SameMembers(a: seq<string>, b: seq<string>)
    requires multiset(a) == multiset(b)
    ensures forall x :: x in a <==> x in b
  {
    forall x
      ensures x in a <==> x in b
    {
      assert x in a <==> x in multiset(a);
      assert x in b <==> x in multiset(b);
    }
  }

  /** The `reduce` into `drawsByDate` and the sort of its keys. */
  method GroupByDate(history: seq<Draw>) returns (sortedDates: seq<string>, drawsByDate: map<string, seq<Draw>>)
    ensures sortedDates == SortedDates(history)
    ensures forall d :: d in drawsByDate <==> d in sortedDates
    ensures forall d :: d in drawsByDate ==> drawsByDate[d] == DrawsOn(history, d)
  {
    var dates: seq<string> := [];
    drawsByDate := map[];
    for i := 0 to |history|
      invariant dates == Dedup(DateList(history[..i]))
      invariant forall d :: d in drawsByDate <==> d in dates
      invariant forall d :: d in drawsByDate ==> drawsByDate[d] == DrawsOn(history[..i], d)
    {
      var draw := history[i];
      assert history[..i + 1][..i] == history[..i];
      assert history[..i + 1][i] == draw;
      assert DateList(history[..i + 1]) == DateList(history[..i]) + [draw.date];
      AddAllSnoc([], DateList(history[..i]), draw.date);
      if draw.date !in drawsByDate {
        DedupSpec(DateList(history[..i]));
        DrawsOnAbsent(history[..i], draw.date);
        dates := dates + [draw.date];
        drawsByDate := drawsByDate[draw.date := []];
      }
      drawsByDate := drawsByDate[draw.date := drawsByDate[draw.date] + [draw]];
      forall d | d in drawsByDate
        ensures drawsByDate[d] == DrawsOn(history[..i + 1], d)
      {
        if d != draw.date {
          assert DrawsOn(history[..i + 1], d) == DrawsOn(history[..i], d) + [] == DrawsOn(history[..i], d);
        }
      }
    }
    assert history[..|history|] == history;
    sortedDates := SortDesc(dates);
    DedupSpec(DateList(history));
    SortDescSpec(dates);
    SameMembers(sortedDates, dates);
  }

  // ---------------------------------------------------------------- overall summary

  /** The draw times, in order. */
  function Times(draws: seq<Draw>): seq<string> {
    if draws == [] then [] else Times(draws[..|draws| - 1]) + [draws[|draws| - 1].time]
  }

  /** How many draws have time `t`. */
  function CountOf(draws: seq<Draw>, t: string): nat {
    multiset(Times(draws))[t]
  }

  /** `timeCounts` once every draw is counted: each time maps to the number
      of draws at that time. */
  function CountMap(draws: seq<Draw>): map<string, nat> {
    if draws == [] then map[]
    else
      var m := CountMap(draws[..|draws| - 1]);
      var t := draws[|draws| - 1].time;
      m[t := (if t in m then m[t] else 0) + 1]
  }

  /** The numbers of all prize lists of one draw, in order. */
  function PrizeNumbers(prizes: seq<PrizeList>): seq<string> {
    if prizes == [] then [] else PrizeNumbers(prizes[..|prizes| - 1]) + prizes[|prizes| - 1].numbers
  }

  /** `allNumbers` once every draw is collected. */
  function AllNumbers(draws: seq<Draw>): seq<string> {
    if draws == [] then [] else AllNumbers(draws[..|draws| - 1]) + PrizeNumbers(draws[|draws| - 1].prizes)
  }

  /** The first entry of `Object.entries(timeCounts)` after the stable sort by
      descending count: a key of maximal count, the earliest such. */
  function FirstMax(keys: seq<string>, counts: map<string, nat>): (i: nat)
    requires keys != [] && forall k :: k in keys ==> k in counts
    ensures i < |keys|
    ensures forall j :: 0 <= j < |keys| ==> counts[keys[j]] <= counts[keys[i]]
    ensures forall j :: 0 <= j < i ==> counts[keys[j]] < counts[keys[i]]
  {
    if |keys| == 1 then 0
    else
      var init := keys[..|keys| - 1];
      assert forall j :: 0 <= j < |init| ==> init[j] == keys[j];
      var b := FirstMax(init, counts);
      if counts[keys[|keys| - 1]] > counts[keys[b]] then |keys| - 1 else b
  }

  /** The keys of `timeCounts` in insertion order: the distinct draw times. */
  function TimeKeys(draws: seq<Draw>): seq<string> {
    Dedup(Times(draws))
  }

  /** `mostCommonTime`: `'N/A'` when there is no time or the most common one
      is the empty string. */
  function MostCommonTime(draws: seq<Draw>): string {
    var keys := TimeKeys(draws);
    if keys == [] then "N/A"
    else
      DedupSpec(Times(draws));
      CountMapSpec(draws);
      var t := keys[FirstMax(keys, CountMap(draws))];
      if t == "" then "N/A" else t
  }

  datatype Summary = Summary(totalDraws: nat, ocrDraws: nat, customerDraws: nat, totalWinningNumbers: nat, mostCommonTime: string)

  lemma {:induction false} TimesSpec(draws: seq<Draw>)
    ensures |Times(draws)| == |draws|
    ensures forall k :: 0 <= k < |draws| ==> Times(draws)[k] == draws[k].time
  {
    if draws != [] {
      TimesSpec(draws[..|draws| - 1]);
    }
  }

  /** The time keys are the distinct draw times. */
  lemma {:induction false} TimeKeysSpec(draws: seq<Draw>)
    ensures NoDups(TimeKeys(draws))
    ensures forall t :: t in TimeKeys(draws) <==> exists k :: 0 <= k < |draws| && draws[k].time == t
  {
    DedupSpec(Times(draws));
    TimesSpec(draws);
    forall t | t in Times(draws)
      ensures exists k :: 0 <= k < |draws| && draws[k].time == t
    {
      var k :| 0 <= k < |Times(draws)| && Times(draws)[k] == t;
      assert draws[k].time == t;
    }
    forall t | exists k :: 0 <= k < |draws| && draws[k].time == t
      ensures t in Times(draws)
    {
      var k :| 0 <= k < |draws| && draws[k].time == t;
      assert Times(draws)[k] == t;
    }
  }

  /** Time key `i` has the largest count, and every key before it a smaller
      one. */
  predicate FirstMostCommon(draws: seq<Draw>, i: int) {
    var keys := TimeKeys(draws);
    && 0 <= i < |keys|
    && (forall j :: 0 <= j < |keys| ==> CountOf(draws, keys[j]) <= CountOf(draws, keys[i]))
    && (forall j :: 0 <= j < i ==> CountOf(draws, keys[j]) < CountOf(draws, keys[i]))
  }

  /** The most common time is the first time key of maximal count (`'N/A'`
      for the empty string), and `'N/A'` when there are no draws. */
  lemma {:induction false} MostCommonTimeSpec(draws: seq<Draw>)
    ensures draws == [] ==> MostCommonTime(draws) == "N/A"
    ensures draws != [] ==>
      exists i :: FirstMostCommon(draws, i) && MostCommonTime(draws) == (if TimeKeys(draws)[i] == "" then "N/A" else TimeKeys(draws)[i])
  {
    var keys, counts := TimeKeys(draws), CountMap(draws);
    if draws != [] {
      TimeKeysSpec(draws);
      assert draws[0].time in keys;
      DedupSpec(Times(draws));
      CountMapSpec(draws);
      var i := FirstMax(keys, counts);
      FirstMostCommonOf(draws, keys, counts, i);
    }
  }

  lemma {:induction false} FirstMostCommonOf(draws: seq<Draw>, keys: seq<string>, counts: map<string, nat>, i: nat)
    requires keys == TimeKeys(draws) && i < |keys|
    requires forall k :: k in keys ==> k in counts && counts[k] == CountOf(draws, k)
    requires forall j :: 0 <= j < |keys| ==> counts[keys[j]] <= counts[keys[i]]
    requires forall j :: 0 <= j < i ==> counts[keys[j]] < counts[keys[i]]
    ensures FirstMostCommon(draws, i)
  {
  }

  /** A set built from `xs` has one element per distinct string of `xs`. */
  lemma {:induction false} DistinctCount(xs: seq<string>)
    ensures |Dedup(xs)| == |set x | x in xs|
  {
    DedupSpec(xs);
    NoDupsCard(Dedup(xs));
    assert (set x | x in Dedup(xs)) == (set x | x in xs);
  }

  /** What counting one more draw does to the times, the counts and the
      collected numbers. */
  lemma {:induction false} SummarySnoc(prefix: seq<Draw>, draw: Draw)
    ensures Times(prefix + [draw]) == Times(prefix) + [draw.time]
    ensures Dedup(Times(prefix + [draw])) == SetAdd(Dedup(Times(prefix)), draw.time)
    ensures forall t :: CountOf(prefix + [draw], t) == CountOf(prefix, t) + (if t == draw.time then 1 else 0)
    ensures AllNumbers(prefix + [draw]) == AllNumbers(prefix) + PrizeNumbers(draw.prizes)
  {
    var all := prefix + [draw];
    assert all[..|all| - 1] == prefix;
    AddAllSnoc([], Times(prefix), draw.time);
  }

  /** Counting one more draw: its time joins the keys if it is new, and its
      count goes up by one. */
  lemma {:induction false} TallySnoc(prefix: seq<Draw>, draw: Draw)
    ensures TimeKeys(prefix + [draw]) ==
      if draw.time in CountMap(prefix) then TimeKeys(prefix) else TimeKeys(prefix) + [draw.time]
    ensures CountMap(prefix + [draw]) ==
      CountMap(prefix)[draw.time := (if draw.time in CountMap(prefix) then CountMap(prefix)[draw.time] else 0) + 1]
    ensures AllNumbers(prefix + [draw]) == AllNumbers(prefix) + PrizeNumbers(draw.prizes)
  {
    TimeKeysSnoc(prefix, draw);
    SummarySnoc(prefix, draw);
    var all := prefix + [draw];
    assert all[..|all| - 1] == prefix;
  }

  lemma {:induction false} TimeKeysSnoc(prefix: seq<Draw>, draw: Draw)
    ensures TimeKeys(prefix + [draw]) ==
      if draw.time in CountMap(prefix) then TimeKeys(prefix) else TimeKeys(prefix) + [draw.time]
  {
    SummarySnoc(prefix, draw);
    CountMapSpec(prefix);
    DedupSpec(Times(prefix));
  }

  /** `timeCounts` has exactly the draw times as keys, each with the number
      of draws at that time. */
  lemma {:induction false} CountMapSpec(draws: seq<Draw>)
    ensures forall t :: t in CountMap(draws) <==> t in Times(draws)
    ensures forall t :: t in CountMap(draws) ==> CountMap(draws)[t] == CountOf(draws, t)
  {
    if draws != [] {
      var prefix, draw := draws[..|draws| - 1], draws[|draws| - 1];
      CountMapSpec(prefix);
      assert draws == prefix + [draw];
      SummarySnoc(prefix, draw);
      if draw.time !in Times(prefix) {
        assert CountOf(prefix, draw.time) == 0;
      }
    }
  }

  /** Every prize list of a draw, concatenated in order. */
  method PushPrizeNumbers(allNumbers: seq<string>, prizes: seq<PrizeList>) returns (r: seq<string>)
    ensures r == allNumbers + PrizeNumbers(prizes)
  {
    r := allNumbers;
    for p := 0 to |prizes|
      invariant r == allNumbers + PrizeNumbers(prizes[..p])
    {
      assert prizes[..p + 1][..p] == prizes[..p];
      AppendAssoc(allNumbers, PrizeNumbers(prizes[..p]), prizes[p].numbers);
      r := r + prizes[p].numbers;
    }
    assert prizes[..|prizes|] == prizes;
  }

  /** The `forEach` over the combined history: `timeCounts` (its keys in
      insertion order and its values) and `allNumbers`. */
  method CountDraws(combined: seq<Draw>) returns (allNumbers: seq<string>, timeKeys: seq<string>, timeCounts: map<string, nat>)
    ensures allNumbers == AllNumbers(combined)
    ensures timeKeys == TimeKeys(combined)
    ensures timeCounts == CountMap(combined)
  {
    allNumbers, timeKeys, timeCounts := [], [], map[];
    for i := 0 to |combined|
      invariant allNumbers == AllNumbers(combined[..i])
      invariant timeKeys == TimeKeys(combined[..i])
      invariant timeCounts == CountMap(combined[..i])
    {
      var draw := combined[i];
      ghost var prefix := combined[..i];
      assert combined[..i + 1] == prefix + [draw];
      TallySnoc(prefix, draw);
      if draw.time in timeCounts {
        timeCounts := timeCounts[draw.time := timeCounts[draw.time] + 1];
      } else {
        timeKeys := timeKeys + [draw.time];
        timeCounts := timeCounts[draw.time := 1];
      }
      allNumbers := PushPrizeNumbers(allNumbers, draw.prizes);
    }
    assert combined[..|combined|] == combined;
  }

  /** `calculateAndRenderOverallSummary`'s counting, `None` standing for
      "No data available for summary". */
  method OverallSummary(history: seq<Draw>, customerReports: seq<Draw>) returns (summary: Option<Summary>)
    ensures summary.None? <==> history == [] && customerReports == []
    ensures summary.Some? ==>
      var combined := history + customerReports;
      && summary.value.totalDraws == summary.value.ocrDraws + summary.value.customerDraws
      && summary.value.ocrDraws == |history| && summary.value.customerDraws == |customerReports|
      && summary.value.totalWinningNumbers == |set x | x in AllNumbers(combined)|
      && summary.value.mostCommonTime == MostCommonTime(combined)
  {
    var combined := history + customerReports;
    if |combined| == 0 {
      return None;
    }
    var allNumbers, timeKeys, timeCounts := CountDraws(combined);
    DistinctCount(allNumbers);
    var totalWinningNumbers := |Dedup(allNumbers)|;
    var mostCommonTime := "N/A";
    DedupSpec(Times(combined));
    CountMapSpec(combined);
    var best := timeKeys[FirstMax(timeKeys, timeCounts)];
    if best != "" {
      mostCommonTime := best;
    }
    summary := Some(Summary(|combined|, |history|, |customerReports|, totalWinningNumbers, mostCommonTime));
  }

  // ---------------------------------------------------------------- the "View Results" lookup

  /** The first draw with the given id, if any. */
  function FindDraw(draws: seq<Draw>, id: int): (r: Option<Draw>)
    ensures r.None? <==> forall i :: 0 <= i < |draws| ==> draws[i].id != id
    ensures r.Some? ==> r.value.id == id
    ensures r.Some? ==> exists i :: 0 <= i < |draws| && draws[i] == r.value && forall j :: 0 <= j < i ==> draws[j].id != id
  {
    if draws == [] then None
    else if draws[0].id == id then Some(draws[0])
    else
      assert forall i :: 1 <= i < |draws| ==> draws[1..][i - 1] == draws[i];
      FindDraw(draws[1..], id)
  }

  /** The clicked button's `data-draw-id`, read with `parseInt(…, 10)`, is
      looked up in the OCR history followed by the customer entries; an
      unreadable id (`NaN`) equals no id. */
  function ClickLookup(history: seq<Draw>, customerReports: seq<Draw>, drawIdAttr: string): Option<Draw> {
    match JsParseInt(drawIdAttr)
    case None => None
    case Some(id) => FindDraw(history + customerReports, id)
  }

  /** The OCR history is searched before the customer entries. */
  lemma {:induction false} FindDrawAppend(a: seq<Draw>, b: seq<Draw>, id: int)
    ensures FindDraw(a + b, id) == if FindDraw(a, id).Some? then FindDraw(a, id) else FindDraw(b, id)
  {
    if a == [] {
      assert a + b == b;
    } else {
      assert (a + b)[0] == a[0];
      if a[0].id != id {
        assert (a + b)[1..] == a[1..] + b;
        FindDrawAppend(a[1..], b, id);
        assert FindDraw(a + b, id) == FindDraw(a[1..] + b, id);
        assert FindDraw(a, id) == FindDraw(a[1..], id);
      }
    }
  }

  /** A click opens an OCR draw whenever one has the clicked id, and a
      customer entry only otherwise. */
  lemma {:induction false} ClickSearchesOcrFirst(history: seq<Draw>, customerReports: seq<Draw>, drawIdAttr: string)
    ensures ClickLookup(history, customerReports, drawIdAttr) ==
      match JsParseInt(drawIdAttr)
      case None => None
      case Some(id) => if FindDraw(history, id).Some? then FindDraw(history, id) else FindDraw(customerReports, id)
  {
    if JsParseInt(drawIdAttr).Some? {
      FindDrawAppend(history, customerReports, JsParseInt(drawIdAttr).value);
    }
  }

  /** The button of the draw at index `k` (its `data-draw-id` is the id
      written out) opens a draw with that id, the first such at or before
      `k`; with distinct ids, exactly the draw at `k`. */
  lemma {:induction false} ClickFindsDraw(history: seq<Draw>, customerReports: seq<Draw>, k: nat)
    requires k < |history| + |customerReports|
    ensures var all := history + customerReports;
      var r := ClickLookup(history, customerReports, IntToString(all[k].id));
      && r.Some? && r.value.id == all[k].id
      && (exists j :: 0 <= j <= k && all[j] == r.value)
      && ((forall i, j :: 0 <= i < j < |all| ==> all[i].id != all[j].id) ==> r == Some(all[k]))
  {
    var all := history + customerReports;
    ParseIntToString(all[k].id);
    var r := FindDraw(all, all[k].id);
    var j :| 0 <= j < |all| && all[j] == r.value && forall i :: 0 <= i < j ==> all[i].id != all[k].id;
    assert j <= k;
  }
}
