/** `compressNumberList`: the sold tickets are parsed, sorted by their number
    (a stable sort, as `Array.prototype.sort` is), and written back as the
    ascending runs of consecutive numbers, all in the family (prefix, padding,
    suffix) of the first ticket after sorting. */
module Compression {
  import opened JsText
  import opened TicketCodec
  import opened Ordered

  // ---------------------------------------------------------------- sorting by number

  function Keys(ts: seq<Ticket>): (ks: seq<int>)
    ensures |ks| == |ts| && forall i :: 0 <= i < |ts| ==> ks[i] == ts[i].numericPart
  {
    if ts == [] then [] else Keys(ts[..|ts| - 1]) + [ts[|ts| - 1].numericPart]
  }

  predicate SortedByNumber(ts: seq<Ticket>) {
    forall i, j :: 0 <= i < j < |ts| ==> ts[i].numericPart <= ts[j].numericPart
  }

  /** Inserts `t` after every ticket whose number is not larger, so that
      tickets with equal numbers keep their order. */
  function Insert(s: seq<Ticket>, t: Ticket): seq<Ticket>
  {
    if s == [] || t.numericPart < s[0].numericPart then [t] + s
    else [s[0]] + Insert(s[1..], t)
  }

  /** A stable sort by ascending number part. */
  function SortByNumber(ts: seq<Ticket>): seq<Ticket> {
    if ts == [] then [] else Insert(SortByNumber(ts[..|ts| - 1]), ts[|ts| - 1])
  }

  /** Every number in `s` is at least `v`. */
  predicate LowerBound(v: int, s: seq<Ticket>) {
    forall i :: 0 <= i < |s| ==> v <= s[i].numericPart
  }

  lemma {:induction false} InsertBound(s: seq<Ticket>, t: Ticket, v: int)
    requires LowerBound(v, s) && v <= t.numericPart
    ensures LowerBound(v, Insert(s, t))
  {
    if s != [] && t.numericPart >= s[0].numericPart {
      InsertBound(s[1..], t, v);
    }
  }

  lemma {:induction false} InsertSorted(s: seq<Ticket>, t: Ticket)
    requires SortedByNumber(s)
    ensures SortedByNumber(Insert(s, t))
  {
    if s != [] && t.numericPart >= s[0].numericPart {
      InsertSorted(s[1..], t);
      InsertBound(s[1..], t, s[0].numericPart);
    }
  }

  lemma {:induction false} InsertSpec(s: seq<Ticket>, t: Ticket)
    requires SortedByNumber(s)
    ensures SortedByNumber(Insert(s, t))
    ensures multiset(Insert(s, t)) == multiset(s) + multiset{t}
    ensures |Insert(s, t)| == |s| + 1
    ensures Insert(s, t)[0] == if s == [] || t.numericPart < s[0].numericPart then t else s[0]
  {
    InsertSorted(s, t);
    InsertPermutes(s, t);
  }

  lemma {:induction false} InsertPermutes(s: seq<Ticket>, t: Ticket)
    ensures multiset(Insert(s, t)) == multiset(s) + multiset{t}
    ensures |Insert(s, t)| == |s| + 1
  {
    if s != [] && t.numericPart >= s[0].numericPart {
      InsertPermutes(s[1..], t);
      assert s == [s[0]] + s[1..];
    }
  }

  /** The sort orders by number and is a permutation of its input. */
  lemma {:induction false} SortSpec(ts: seq<Ticket>)
    ensures SortedByNumber(SortByNumber(ts))
    ensures multiset(SortByNumber(ts)) == multiset(ts)
    ensures |SortByNumber(ts)| == |ts|
  {
    SortSorted(ts);
    SortPermutes(ts);
  }

  lemma {:induction false} SortSorted(ts: seq<Ticket>)
    ensures SortedByNumber(SortByNumber(ts))
  {
    if ts != [] {
      SortSorted(ts[..|ts| - 1]);
      InsertSorted(SortByNumber(ts[..|ts| - 1]), ts[|ts| - 1]);
    }
  }

  lemma {:induction false} SortPermutes(ts: seq<Ticket>)
    ensures multiset(SortByNumber(ts)) == multiset(ts)
    ensures |SortByNumber(ts)| == |ts|
  {
    if ts != [] {
      var init := ts[..|ts| - 1];
      SortPermutes(init);
      InsertPermutes(SortByNumber(init), ts[|ts| - 1]);
      assert multiset(ts) == multiset(init) + multiset{ts[|ts| - 1]} by {
        assert ts == init + [ts[|ts| - 1]];
      }
    }
  }

  /** The position of the first ticket with the smallest number. */
  function FirstMin(ts: seq<Ticket>): (m: nat)
    requires ts != []
    ensures m < |ts|
    ensures forall i :: 0 <= i < |ts| ==> ts[m].numericPart <= ts[i].numericPart
    ensures forall i :: 0 <= i < m ==> ts[m].numericPart < ts[i].numericPart
  {
    if |ts| == 1 then 0
    else
      var m := FirstMin(ts[..|ts| - 1]);
      if ts[|ts| - 1].numericPart < ts[m].numericPart then |ts| - 1 else m
  }

  /** Sorting is stable where it matters here: the first sorted ticket is the
      earliest of the input's tickets with the smallest number. */
  lemma {:induction false} SortFirst(ts: seq<Ticket>)
    requires ts != []
    ensures SortByNumber(ts)[0] == ts[FirstMin(ts)]
  {
    var init := ts[..|ts| - 1];
    if init == [] {
      assert SortByNumber(ts) == Insert([], ts[0]);
    } else {
      SortFirst(init);
      SortSpec(init);
      InsertSpec(SortByNumber(init), ts[|ts| - 1]);
    }
  }

  // ---------------------------------------------------------------- runs

  datatype Run = Run(lo: int, hi: int)

  /** The state of the walk after a non-empty list of numbers: the runs closed
      so far and the open run `[startNum, endNum]`. */
  datatype WalkState = WalkState(closed: seq<Run>, open: Run)

  function Walk(nums: seq<int>): WalkState
    requires nums != []
  {
    if |nums| == 1 then WalkState([], Run(nums[0], nums[0]))
    else
      var w := Walk(nums[..|nums| - 1]);
      var x := nums[|nums| - 1];
      if x == w.open.hi + 1 then WalkState(w.closed, Run(w.open.lo, x))
      else WalkState(w.closed + [w.open], Run(x, x))
  }

  /** The runs of a list of numbers: every closed run, then the open one. */
  function Runs(nums: seq<int>): seq<Run> {
    if nums == [] then [] else Walk(nums).closed + [Walk(nums).open]
  }

  /** The numbers `lo..hi`. */
  function Interval(lo: int, hi: int): (r: seq<int>)
    ensures |r| == if hi >= lo then hi - lo + 1 else 0
    decreases if hi >= lo then hi - lo + 1 else 0
  {
    if hi < lo then [] else Interval(lo, hi - 1) + [hi]
  }

  /** The numbers the runs stand for, in order. */
  function Flatten(rs: seq<Run>): seq<int> {
    if rs == [] then [] else Flatten(rs[..|rs| - 1]) + Interval(rs[|rs| - 1].lo, rs[|rs| - 1].hi)
  }

  predicate Increasing(nums: seq<int>) {
    forall i, j :: 0 <= i < j < |nums| ==> nums[i] < nums[j]
  }

  /** Runs are non-empty, ascending and maximal: between two runs at least
      one number is missing. */
  predicate Separated(rs: seq<Run>) {
    && (forall k :: 0 <= k < |rs| ==> rs[k].lo <= rs[k].hi)
    && (forall k :: 0 <= k < |rs| - 1 ==> rs[k].hi + 1 < rs[k + 1].lo)
  }

  /** The walk's open run ends at the last number, and starts no later. */
  lemma {:induction false} WalkOpen(nums: seq<int>)
    requires nums != []
    ensures Walk(nums).open.lo <= Walk(nums).open.hi == nums[|nums| - 1]
  {
    if |nums| > 1 {
      WalkOpen(nums[..|nums| - 1]);
    }
  }

  /** The closed runs and the open run stand for exactly the numbers walked. */
  lemma {:induction false} WalkFlatten(nums: seq<int>)
    requires nums != []
    ensures Flatten(Walk(nums).closed) + Interval(Walk(nums).open.lo, Walk(nums).open.hi) == nums
  {
    if |nums| > 1 {
      var init := nums[..|nums| - 1];
      var x := nums[|nums| - 1];
      WalkFlatten(init);
      WalkOpen(init);
      assert nums == init + [x];
      WalkFlattenStep(init, x);
    }
  }

  /** One more number keeps the closed runs and the open run standing for the numbers walked. */
  lemma {:induction false} WalkFlattenStep(init: seq<int>, x: int)
    requires init != [] && Walk(init).open.lo <= Walk(init).open.hi
    requires Flatten(Walk(init).closed) + Interval(Walk(init).open.lo, Walk(init).open.hi) == init
    ensures Flatten(Walk(init + [x]).closed) + Interval(Walk(init + [x]).open.lo, Walk(init + [x]).open.hi) == init + [x]
  {
    var nums := init + [x];
    assert nums[..|nums| - 1] == init;
    var closed, open := Walk(init).closed, Walk(init).open;
    if x == open.hi + 1 {
      assert Walk(nums) == WalkState(closed, Run(open.lo, x));
      FlattenExtend(closed, open.lo, open.hi, init);
    } else {
      assert Walk(nums) == WalkState(closed + [open], Run(x, x));
      FlattenClose(closed, open, x, init);
    }
  }

  lemma {:induction false} FlattenExtend(closed: seq<Run>, lo: int, hi: int, init: seq<int>)
    requires lo <= hi && Flatten(closed) + Interval(lo, hi) == init
    ensures Flatten(closed) + Interval(lo, hi + 1) == init + [hi + 1]
  {
    assert Interval(lo, hi + 1) == Interval(lo, hi) + [hi + 1];
    AppendAssoc(Flatten(closed), Interval(lo, hi), [hi + 1]);
  }

  lemma {:induction false} FlattenClose(closed: seq<Run>, open: Run, x: int, init: seq<int>)
    requires Flatten(closed) + Interval(open.lo, open.hi) == init
    ensures Flatten(closed + [open]) + Interval(x, x) == init + [x]
  {
    FlattenSnoc(closed, open);
    assert Interval(x, x) == [x];
  }

  lemma {:induction false} FlattenSnoc(rs: seq<Run>, r: Run)
    ensures Flatten(rs + [r]) == Flatten(rs) + Interval(r.lo, r.hi)
  {
    assert (rs + [r])[..|rs|] == rs;
  }

  /** A run after the last one, with a gap, keeps the runs separated. */
  lemma {:induction false} SeparatedSnoc(rs: seq<Run>, r: Run)
    requires Separated(rs) && rs != [] && rs[|rs| - 1].hi + 1 < r.lo && r.lo <= r.hi
    ensures Separated(rs + [r])
  {
    var s := rs + [r];
    assert forall k :: 0 <= k < |rs| ==> s[k] == rs[k];
  }

  /** Extending the last run to a larger end keeps the runs separated. */
  lemma {:induction false} SeparatedExtend(closed: seq<Run>, open: Run, hi: int)
    requires Separated(closed + [open]) && open.hi <= hi
    ensures Separated(closed + [Run(open.lo, hi)])
  {
    var s := closed + [open];
    var t := closed + [Run(open.lo, hi)];
    assert forall k :: 0 <= k < |closed| ==> t[k] == s[k];
    assert t[|closed|].lo == s[|closed|].lo && s[|closed|].hi <= t[|closed|].hi;
    forall k | 0 <= k < |t| ensures t[k].lo <= t[k].hi {
      assert s[k].lo <= s[k].hi;
    }
    forall k | 0 <= k < |t| - 1 ensures t[k].hi + 1 < t[k + 1].lo {
      assert s[k].hi + 1 < s[k + 1].lo;
    }
  }

  lemma {:induction false} IncreasingInit(nums: seq<int>)
    requires nums != [] && Increasing(nums)
    ensures Increasing(nums[..|nums| - 1])
  {
  }

  /** The closed runs and the open run are separated. */
  lemma {:induction false} WalkSeparated(nums: seq<int>)
    requires nums != [] && Increasing(nums)
    ensures Separated(Walk(nums).closed + [Walk(nums).open])
  {
    if |nums| > 1 {
      var init := nums[..|nums| - 1];
      var x := nums[|nums| - 1];
      IncreasingInit(nums);
      WalkSeparated(init);
      WalkOpen(init);
      var closed, open := Walk(init).closed, Walk(init).open;
      assert open.hi == nums[|nums| - 2] < x;
      if x == open.hi + 1 {
        assert Walk(nums) == WalkState(closed, Run(open.lo, x));
        SeparatedExtend(closed, open, x);
      } else {
        assert Walk(nums) == WalkState(closed + [open], Run(x, x));
        SeparatedSnoc(closed + [open], Run(x, x));
      }
    }
  }

  /** For distinct numbers in ascending order the runs cover exactly those
      numbers, are ascending and are maximal. */
  lemma {:induction false} RunsSpec(nums: seq<int>)
    requires Increasing(nums)
    ensures Flatten(Runs(nums)) == nums
    ensures Separated(Runs(nums))
  {
    if nums != [] {
      WalkFlatten(nums);
      WalkSeparated(nums);
      var rs := Runs(nums);
      assert rs[..|rs| - 1] == Walk(nums).closed;
    }
  }

  // ---------------------------------------------------------------- labels

  /** A run written in a ticket family: a single ticket bare, a longer run as `start-end`. */
  function RunLabel(family: Ticket, r: Run): string {
    var startStr := FormatTicket(family.prefix, r.lo, family.padding, family.suffix);
    var endStr := FormatTicket(family.prefix, r.hi, family.padding, family.suffix);
    if r.lo == r.hi then startStr else startStr + "-" + endStr
  }

  /** The labelling of one family, as a function of the run. */
  function LabelIn(family: Ticket): Run -> string {
    r => RunLabel(family, r)
  }

  /** Every run written in the family, in order. */
  function Labels(family: Ticket, rs: seq<Run>): (ls: seq<string>)
    ensures |ls| == |rs|
  {
    MapSeq(LabelIn(family), rs)
  }

  /** The k-th label writes the k-th run. */
  lemma {:induction false} LabelsAt(family: Ticket, rs: seq<Run>)
    ensures forall k :: 0 <= k < |rs| ==> Labels(family, rs)[k] == RunLabel(family, rs[k])
  {
    forall k | 0 <= k < |rs|
      ensures Labels(family, rs)[k] == RunLabel(family, rs[k])
    {
      LabelAt(family, rs, k);
    }
  }

  lemma {:induction false} LabelAt(family: Ticket, rs: seq<Run>, k: nat)
    requires k < |rs|
    ensures Labels(family, rs)[k] == RunLabel(family, rs[k])
  {
    MapSeqAt(LabelIn(family), rs, k);
  }

  function ParseAll(strs: seq<string>): (ts: seq<Ticket>)
    ensures |ts| == |strs| && forall i :: 0 <= i < |strs| ==> ts[i] == ParseTicket(strs[i])
  {
    if strs == [] then [] else ParseAll(strs[..|strs| - 1]) + [ParseTicket(strs[|strs| - 1])]
  }

  /** What `compressNumberList` returns. */
  function Compressed(strs: seq<string>): seq<string> {
    if strs == [] then []
    else
      var sorted := SortByNumber(ParseAll(strs));
      SortSpec(ParseAll(strs));
      Labels(sorted[0], Runs(Keys(sorted)))
  }

  /** `compressNumberList`: the sold numbers written as compressed ranges. */
  method CompressNumberList(numbersAsStrings: seq<string>) returns (ranges: seq<string>)
    ensures ranges == Compressed(numbersAsStrings)
  {
    if |numbersAsStrings| == 0 {
      return [];
    }
    var parsedNumbers := SortByNumber(ParseAll(numbersAsStrings));
    SortSpec(ParseAll(numbersAsStrings));
    ranges := CompressSorted(parsedNumbers);
  }

  /** The walk over the sorted tickets, in the family of the first. */
  method CompressSorted(parsedNumbers: seq<Ticket>) returns (ranges: seq<string>)
    requires parsedNumbers != []
    ensures ranges == Labels(parsedNumbers[0], Runs(Keys(parsedNumbers)))
  {
    var family := parsedNumbers[0];
    ghost var nums := Keys(parsedNumbers);
    ranges := [];
    var startNum := parsedNumbers[0].numericPart;
    var endNum := parsedNumbers[0].numericPart;
    var i := 1;
    while i < |parsedNumbers|
      invariant 1 <= i <= |parsedNumbers|
      invariant Walk(nums[..i]).open == Run(startNum, endNum)
      invariant ranges == Labels(family, Walk(nums[..i]).closed)
    {
      CompressStep(family, nums, i, ranges, startNum, endNum);
      if parsedNumbers[i].numericPart == endNum + 1 {
        endNum := parsedNumbers[i].numericPart;
      } else {
        ranges := ranges + [RunLabel(family, Run(startNum, endNum))];
        startNum := parsedNumbers[i].numericPart;
        endNum := parsedNumbers[i].numericPart;
      }
      i := i + 1;
    }
    assert nums[..i] == nums;
    LabelsSnoc(family, Walk(nums).closed, Walk(nums).open);
    ranges := ranges + [RunLabel(family, Run(startNum, endNum))];
  }

  /** One step of the walk, in terms of the loop's variables. */
  lemma {:induction false} CompressStep(family: Ticket, nums: seq<int>, i: nat, ranges: seq<string>, startNum: int, endNum: int)
    requires 1 <= i < |nums|
    requires Walk(nums[..i]).open == Run(startNum, endNum)
    requires ranges == Labels(family, Walk(nums[..i]).closed)
    ensures nums[i] == endNum + 1 ==>
              Walk(nums[..i + 1]).open == Run(startNum, nums[i]) && ranges == Labels(family, Walk(nums[..i + 1]).closed)
    ensures nums[i] != endNum + 1 ==>
              && Walk(nums[..i + 1]).open == Run(nums[i], nums[i])
              && ranges + [RunLabel(family, Run(startNum, endNum))] == Labels(family, Walk(nums[..i + 1]).closed)
  {
    WalkStep(nums, i);
    LabelsSnoc(family, Walk(nums[..i]).closed, Run(startNum, endNum));
  }

  /** One more number extends the open run or closes it and opens a new one. */
  lemma {:induction false} WalkStep(nums: seq<int>, i: nat)
    requires 1 <= i < |nums|
    ensures var w := Walk(nums[..i]);
            Walk(nums[..i + 1]) == if nums[i] == w.open.hi + 1 then WalkState(w.closed, Run(w.open.lo, nums[i]))
                                   else WalkState(w.closed + [w.open], Run(nums[i], nums[i]))
  {
    assert nums[..i + 1][..i] == nums[..i];
  }

  lemma {:induction false} LabelsSnoc(family: Ticket, rs: seq<Run>, r: Run)
    ensures Labels(family, rs + [r]) == Labels(family, rs) + [RunLabel(family, r)]
  {
    MapSeqSnoc(LabelIn(family), rs, r);
  }

  // ---------------------------------------------------------------- what the output means

  /** An empty list compresses to nothing, and otherwise there is one label per
      run of the sorted numbers, each written in the family of the earliest
      ticket with the smallest number. */
  lemma {:induction false} CompressedSpec(strs: seq<string>)
    ensures strs == [] <==> Compressed(strs) == []
    ensures strs != [] ==>
              var ts := ParseAll(strs);
              var rs := Runs(Keys(SortByNumber(ts)));
              && |Compressed(strs)| == |rs|
              && forall k :: 0 <= k < |rs| ==> Compressed(strs)[k] == RunLabel(ts[FirstMin(ts)], rs[k])
  {
    if strs != [] {
      var ts := ParseAll(strs);
      SortSpec(ts);
      SortFirst(ts);
      var nums := Keys(SortByNumber(ts));
      assert Runs(nums) != [];
      LabelsAt(SortByNumber(ts)[0], Runs(nums));
    }
  }

  /** Distinct numbers sort into an increasing list. */
  lemma {:induction false} SortedDistinct(ts: seq<Ticket>)
    requires forall i, j :: 0 <= i < j < |ts| ==> ts[i].numericPart != ts[j].numericPart
    ensures Increasing(Keys(SortByNumber(ts)))
  {
    SortSpec(ts);
    var s := SortByNumber(ts);
    forall i, j | 0 <= i < j < |s|
      ensures s[i].numericPart < s[j].numericPart
    {
      assert s[i] in multiset(ts) && s[j] in multiset(ts);
      var a :| 0 <= a < |ts| && ts[a] == s[i];
      var b :| 0 <= b < |ts| && ts[b] == s[j];
      if s[i].numericPart == s[j].numericPart {
        assert a == b;
        DistinctPositions(s, i, j);
        assert multiset(s)[s[i]] >= 2;
        OnlyOnce(ts, a);
        assert false;
      }
    }
  }

  /** A sequence holding the same value at two positions holds it at least twice. */
  lemma {:induction false} DistinctPositions(s: seq<Ticket>, i: nat, j: nat)
    requires i < j < |s| && s[i] == s[j]
    ensures multiset(s)[s[i]] >= 2
  {
    assert s == s[..j] + [s[j]] + s[j + 1..];
    assert s[i] in multiset(s[..j]) by {
      assert s[..j][i] == s[i];
    }
  }

  /** In a list whose numbers are distinct, each ticket occurs once. */
  lemma {:induction false} OnlyOnce(ts: seq<Ticket>, a: nat)
    requires a < |ts|
    requires forall i, j :: 0 <= i < j < |ts| ==> ts[i].numericPart != ts[j].numericPart
    ensures multiset(ts)[ts[a]] == 1
  {
    assert ts == ts[..a] + [ts[a]] + ts[a + 1..];
    assert forall m :: 0 <= m < a ==> ts[..a][m].numericPart != ts[a].numericPart;
    assert forall m :: a + 1 <= m < |ts| ==> ts[m].numericPart != ts[a].numericPart;
    assert ts[a] !in ts[..a] && ts[a] !in ts[a + 1..];
  }

  /** For tickets with distinct numbers, the labels are one per maximal run of
      consecutive numbers, the runs ascend, and together they cover exactly
      the sorted numbers, so their sizes add up to the number of tickets. */
  lemma {:induction false} CompressedRuns(strs: seq<string>)
    requires forall i, j :: 0 <= i < j < |strs| ==> ParseTicket(strs[i]).numericPart != ParseTicket(strs[j]).numericPart
    ensures var nums := Keys(SortByNumber(ParseAll(strs)));
            && Increasing(nums)
            && Flatten(Runs(nums)) == nums
            && Separated(Runs(nums))
            && |Flatten(Runs(nums))| == |strs|
  {
    var ts := ParseAll(strs);
    SortedDistinct(ts);
    SortSpec(ts);
    RunsSpec(Keys(SortByNumber(ts)));
  }

  // ---------------------------------------------------------------- an example

  /** Inserting a ticket whose number is at least every other one appends it. */
  lemma {:induction false} InsertAtEnd(s: seq<Ticket>, t: Ticket)
    requires forall i :: 0 <= i < |s| ==> s[i].numericPart <= t.numericPart
    ensures Insert(s, t) == s + [t]
  {
    if s != [] {
      InsertAtEnd(s[1..], t);
      assert s == [s[0]] + s[1..];
    }
  }

  /** Sorting an already sorted list changes nothing. */
  lemma {:induction false} SortSortedUnchanged(ts: seq<Ticket>)
    requires SortedByNumber(ts)
    ensures SortByNumber(ts) == ts
  {
    if ts != [] {
      var init := ts[..|ts| - 1];
      SortSortedUnchanged(init);
      InsertAtEnd(init, ts[|ts| - 1]);
      assert init + [ts[|ts| - 1]] == ts;
    }
  }

  /** Tickets that parse already sorted compress to the labels of their runs. */
  lemma {:induction false} CompressedSorted(strs: seq<string>)
    requires strs != [] && SortedByNumber(ParseAll(strs))
    ensures Compressed(strs) == Labels(ParseAll(strs)[0], Runs(Keys(ParseAll(strs))))
  {
    SortSortedUnchanged(ParseAll(strs));
  }

  /** 32180, 32182, 32183, 32184 compress to `32180` and `32182-32184`. */
  lemma {:induction false} CompressExample()
    ensures Compressed(["32180", "32182", "32183", "32184"]) == ["32180", "32182-32184"]
  {
    ExampleCompressedRuns(["32180", "32182", "32183", "32184"], Ticket("", 32180, 5, ""), [Run(32180, 32180), Run(32182, 32184)]);
    ExampleLabelled();
  }

  lemma {:induction false} ExampleCompressedRuns(strs: seq<string>, f: Ticket, rs: seq<Run>)
    requires strs == ["32180", "32182", "32183", "32184"]
    requires f == Ticket("", 32180, 5, "") && rs == [Run(32180, 32180), Run(32182, 32184)]
    ensures Compressed(strs) == Labels(f, rs)
  {
    var ts := [Ticket("", 32180, 5, ""), Ticket("", 32182, 5, ""), Ticket("", 32183, 5, ""), Ticket("", 32184, 5, "")];
    assert ParseAll(strs) == ts by {
      ExampleParsed();
    }
    assert Compressed(strs) == Labels(ts[0], Runs(Keys(ts))) by {
      ExampleSorted();
      CompressedSorted(strs);
    }
    assert Runs(Keys(ts)) == rs by {
      KeysFour(ts[0], ts[1], ts[2], ts[3]);
      ExampleRuns();
    }
  }

  lemma {:induction false} ExampleLabelled()
    ensures Labels(Ticket("", 32180, 5, ""), [Run(32180, 32180), Run(32182, 32184)]) == ["32180", "32182-32184"]
  {
    var f := Ticket("", 32180, 5, "");
    var rs := [Run(32180, 32180), Run(32182, 32184)];
    assert Labels(f, rs) == [RunLabel(f, rs[0]), RunLabel(f, rs[1])];
    ExampleLabels();
  }

  lemma {:induction false} ExampleSorted()
    ensures SortedByNumber([Ticket("", 32180, 5, ""), Ticket("", 32182, 5, ""), Ticket("", 32183, 5, ""), Ticket("", 32184, 5, "")])
  {
  }

  lemma {:induction false} ExampleParsed()
    ensures ParseAll(["32180", "32182", "32183", "32184"])
         == [Ticket("", 32180, 5, ""), Ticket("", 32182, 5, ""), Ticket("", 32183, 5, ""), Ticket("", 32184, 5, "")]
  {
    ParseAllFour("32180", "32182", "32183", "32184");
    Parsed32180();
    Parsed32182();
    Parsed32183();
    Parsed32184();
  }

  lemma {:induction false} KeysFour(a: Ticket, b: Ticket, c: Ticket, d: Ticket)
    ensures Keys([a, b, c, d]) == [a.numericPart, b.numericPart, c.numericPart, d.numericPart]
  {
  }

  lemma {:induction false} ParseAllFour(a: string, b: string, c: string, d: string)
    ensures ParseAll([a, b, c, d]) == [ParseTicket(a), ParseTicket(b), ParseTicket(c), ParseTicket(d)]
  {
  }

  lemma {:induction false} Parsed32180() ensures ParseTicket("32180") == Ticket("", 32180, 5, "") { FiveDigits("32180"); }
  lemma {:induction false} Parsed32182() ensures ParseTicket("32182") == Ticket("", 32182, 5, "") { FiveDigits("32182"); }
  lemma {:induction false} Parsed32183() ensures ParseTicket("32183") == Ticket("", 32183, 5, "") { FiveDigits("32183"); }
  lemma {:induction false} Parsed32184() ensures ParseTicket("32184") == Ticket("", 32184, 5, "") { FiveDigits("32184"); }

  /** A five-digit ticket is read as its digits' value. */
  lemma {:induction false} FiveDigits(ds: string)
    requires |ds| == 5 && AllDigits(ds)
    ensures ParseTicket(ds) == Ticket("", DigitValue(ds[0]) * 10000 + DigitValue(ds[1]) * 1000
                                          + DigitValue(ds[2]) * 100 + DigitValue(ds[3]) * 10 + DigitValue(ds[4]), 5, "")
  {
    ParseDigitsOnly(ds);
    FiveValue(ds);
  }

  lemma {:induction false} ExampleRuns()
    ensures Runs([32180, 32182, 32183, 32184]) == [Run(32180, 32180), Run(32182, 32184)]
  {
    assert [32180, 32182][..1] == [32180];
    assert [32180, 32182, 32183][..2] == [32180, 32182];
    assert [32180, 32182, 32183, 32184][..3] == [32180, 32182, 32183];
    assert Walk([32180]) == WalkState([], Run(32180, 32180));
    assert Walk([32180, 32182]) == WalkState([Run(32180, 32180)], Run(32182, 32182));
    assert Walk([32180, 32182, 32183]) == WalkState([Run(32180, 32180)], Run(32182, 32183));
  }

  lemma {:induction false} ExampleLabels()
    ensures FormatTicket("", 32180, 5, "") == "32180"
    ensures FormatTicket("", 32182, 5, "") + "-" + FormatTicket("", 32184, 5, "") == "32182-32184"
  {
    Canonical32180();
    Canonical32182();
    Canonical32184();
  }

  lemma {:induction false} Canonical32180() ensures NatToString(32180) == "32180" { FiveValue("32180"); CanonicalDigits("32180"); }
  lemma {:induction false} Canonical32182() ensures NatToString(32182) == "32182" { FiveValue("32182"); CanonicalDigits("32182"); }
  lemma {:induction false} Canonical32184() ensures NatToString(32184) == "32184" { FiveValue("32184"); CanonicalDigits("32184"); }

  lemma {:induction false} FiveValue(ds: string)
    requires |ds| == 5 && AllDigits(ds)
    ensures DigitsValue(ds) == DigitValue(ds[0]) * 10000 + DigitValue(ds[1]) * 1000
                               + DigitValue(ds[2]) * 100 + DigitValue(ds[3]) * 10 + DigitValue(ds[4])
  {
    assert ds[..4][..3] == ds[..3] && ds[..3][..2] == ds[..2] && ds[..2][..1] == ds[..1] && ds[..1][..0] == [];
    assert DigitsValue(ds[..1]) == DigitValue(ds[0]);
    assert DigitsValue(ds[..2]) == DigitsValue(ds[..1]) * 10 + DigitValue(ds[1]);
    assert DigitsValue(ds[..3]) == DigitsValue(ds[..2]) * 10 + DigitValue(ds[2]);
    assert DigitsValue(ds[..4]) == DigitsValue(ds[..3]) * 10 + DigitValue(ds[3]);
    assert DigitsValue(ds) == DigitsValue(ds[..4]) * 10 + DigitValue(ds[4]);
  }
}
