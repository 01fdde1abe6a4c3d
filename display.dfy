/** The numeric display of sold tickets in the popup: `getNumericDisplay`
    keeps only the digits of a ticket or ticket range, and
    `formatSoldNumbersForPopup` lays the displays out seven to a line. */
module Display {
  import opened JsText
  import opened Ordered
  import opened TicketCodec

  /** The end of the maximal run of digits that starts at `i`. */
  function RunEnd(s: string, i: nat): (e: nat)
    requires i <= |s|
    ensures i <= e <= |s|
    ensures forall k :: i <= k < e ==> IsDigit(s[k])
    ensures e < |s| ==> !IsDigit(s[e])
    decreases |s| - i
  {
    if i < |s| && IsDigit(s[i]) then RunEnd(s, i + 1) else i
  }

  /** The first digit at or after `i`, or `|s|` when there is none. */
  function NextDigit(s: string, i: nat): (n: nat)
    requires i <= |s|
    ensures i <= n <= |s|
    ensures forall k :: i <= k < n ==> !IsDigit(s[k])
    ensures n < |s| ==> IsDigit(s[n])
    decreases |s| - i
  {
    if i < |s| && !IsDigit(s[i]) then NextDigit(s, i + 1) else i
  }

  /** The gap `s[q..n]` after a run of digits holds a `-` from which `.*?`
      reaches the last run (at `b`) without crossing a line terminator. */
  predicate DashReaches(s: string, q: nat, n: nat, b: nat)
    requires q <= n <= b <= |s|
  {
    exists m :: q <= m < n && s[m] == '-' && NoLineTerminator(s[m + 1..b])
  }

  /** Where `/^(.*?)(\d+)(\D*)-(.*?)(\d+)(\D*)$/` puts its first run of digits,
      scanning from `i`: the lazy `(.*?)` tries the runs before the last one
      (at `b`) from left to right, and a run is taken when the non-digits
      after it hold a usable `-`; `.` stops at a line terminator. */
  function RangeStart(s: string, i: nat, b: nat): (r: Option<nat>)
    requires i <= b < |s| && IsDigit(s[b]) && (b == 0 || !IsDigit(s[b - 1]))
    ensures r.Some? ==> i <= r.value < b && IsDigit(s[r.value])
    decreases b - i
  {
    if i == b then None
    else if IsDigit(s[i]) then
      var q := RunEnd(s, i);
      var n := NextDigit(s, q);
      if DashReaches(s, q, n, b) then Some(i) else RangeStart(s, q, b)
    else if IsLineTerminator(s[i]) then None
    else RangeStart(s, i + 1, b)
  }

  /** The last run of digits of a string that has one. */
  lemma {:induction false} LastRunFacts(s: string)
    requires !NoDigits(s)
    ensures LastRunStart(s) < LastRunEnd(s) <= |s|
    ensures IsDigit(s[LastRunStart(s)])
    ensures LastRunStart(s) == 0 || !IsDigit(s[LastRunStart(s) - 1])
    ensures AllDigits(s[LastRunStart(s)..LastRunEnd(s)])
  {
    var e := LastRunEnd(s);
    var t := TrailingDigits(s[..e]);
    assert s[..e][e - t] == s[e - t];
    assert forall k :: e - t <= k < e ==> s[..e][k] == s[k];
  }

  /** `getNumericDisplay`: `''` for an empty string; for a range, the first
      endpoint's digits padded with zeros to the width of the last run, a
      `-` and the last run; otherwise the first run of digits; and a string
      without digits as it is. */
  function NumericDisplay(s: string): (r: string)
    ensures r == [] <==> s == []
  {
    if s == [] then []
    else if NoDigits(s) then s
    else
      LastRunFacts(s);
      var b := LastRunStart(s);
      var e := LastRunEnd(s);
      match RangeStart(s, 0, b)
      case Some(p) => PadStart(s[p..RunEnd(s, p)], e - b, '0') + "-" + s[b..e]
      case None =>
        var f := NextDigit(s, 0);
        s[f..RunEnd(s, f)]
  }

  // ---------------------------------------------------------------- what the display shows

  /** A run of digits ending where a non-digit or the end of the string follows. */
  lemma {:induction false} RunEndAt(s: string, i: nat, j: nat)
    requires i <= j <= |s|
    requires forall k :: i <= k < j ==> IsDigit(s[k])
    requires j == |s| || !IsDigit(s[j])
    ensures RunEnd(s, i) == j
    decreases j - i
  {
    if i < j {
      RunEndAt(s, i + 1, j);
    }
  }

  lemma {:induction false} NextDigitAt(s: string, i: nat, j: nat)
    requires i <= j <= |s|
    requires forall k :: i <= k < j ==> !IsDigit(s[k])
    requires j == |s| || IsDigit(s[j])
    ensures NextDigit(s, i) == j
    decreases j - i
  {
    if i < j {
      NextDigitAt(s, i + 1, j);
    }
  }

  /** The lazy `(.*?)` passes over non-digits that are not line terminators. */
  lemma {:induction false} RangeStartSkips(s: string, i: nat, j: nat, b: nat)
    requires i <= j <= b < |s| && IsDigit(s[b]) && (b == 0 || !IsDigit(s[b - 1]))
    requires forall k :: i <= k < j ==> !IsDigit(s[k]) && !IsLineTerminator(s[k])
    ensures RangeStart(s, i, b) == RangeStart(s, j, b)
    decreases j - i
  {
    if i < j {
      RangeStartSkips(s, i + 1, j, b);
    }
  }

  /** With no digit before the last run there is no range. */
  lemma {:induction false} RangeStartNone(s: string, i: nat, b: nat)
    requires i <= b < |s| && IsDigit(s[b]) && (b == 0 || !IsDigit(s[b - 1]))
    requires forall k :: i <= k < b ==> !IsDigit(s[k])
    ensures RangeStart(s, i, b) == None
    decreases b - i
  {
    if i < b {
      RangeStartNone(s, i + 1, b);
    }
  }

  /** The display of a string whose first range run starts at `p`. */
  lemma {:induction false} DisplayOfRange(s: string, p: nat, q: nat, b: nat, e: nat, d1: string, d2: string)
    requires !NoDigits(s) && LastRunStart(s) == b && LastRunEnd(s) == e
    requires LastRunStart(s) < LastRunEnd(s) <= |s| && IsDigit(s[b]) && (b == 0 || !IsDigit(s[b - 1]))
    requires RangeStart(s, 0, b) == Some(p) && p <= q <= |s| && RunEnd(s, p) == q
    requires s[p..q] == d1 && s[b..e] == d2
    ensures NumericDisplay(s) == PadStart(d1, |d2|, '0') + "-" + d2
  {
  }

  lemma {:induction false} Regroup<T>(p1: seq<T>, d1: seq<T>, s1: seq<T>, dash: seq<T>, p2: seq<T>, d2: seq<T>, s2: seq<T>)
    ensures p1 + d1 + s1 + dash + p2 + d2 + s2 == p1 + d1 + (s1 + dash + p2) + d2 + s2
  {
  }

  /** Where the five parts of a range string sit in it. */
  lemma {:induction false} RangeParts<T>(p1: seq<T>, d1: seq<T>, g: seq<T>, d2: seq<T>, s2: seq<T>)
    ensures var s := p1 + d1 + g + d2 + s2; var q := |p1| + |d1|; var b := q + |g|;
      && s[..|p1|] == p1 && s[|p1|..q] == d1 && s[q..b] == g && s[b..b + |d2|] == d2
      && s == (p1 + d1 + g) + d2 + s2
  {
  }

  /** The gap of a range: its last character is not a digit, and what follows
      its `-` has no line terminator. */
  lemma {:induction false} RangeGap(s1: string, p2: string)
    requires NoDigits(s1) && NoDigits(p2) && NoLineTerminator(p2)
    ensures var g := s1 + "-" + p2;
      && g[|s1|] == '-' && g[|s1| + 1..] == p2 && NoDigits(g)
  {
  }

  /** A ticket range `p1 d1 s1 - p2 d2 s2` (digit runs `d1`, `d2`, the rest
      without digits, no line terminator before the runs) displays as `d1`
      padded to the width of `d2`, a `-` and `d2`. */
  lemma {:induction false} NumericDisplayRange(p1: string, d1: string, s1: string, p2: string, d2: string, s2: string)
    requires NoDigits(p1) && NoLineTerminator(p1) && NoDigits(s1) && NoDigits(p2) && NoLineTerminator(p2) && NoDigits(s2)
    requires |d1| >= 1 && AllDigits(d1) && |d2| >= 1 && AllDigits(d2)
    ensures NumericDisplay(p1 + d1 + s1 + "-" + p2 + d2 + s2) == PadStart(d1, |d2|, '0') + "-" + d2
  {
    var g := s1 + "-" + p2;
    var s := p1 + d1 + g + d2 + s2;
    Regroup(p1, d1, s1, "-", p2, d2, s2);
    var q := |p1| + |d1|;
    var b := q + |g|;
    RangeGap(s1, p2);
    RangeLastRun(p1, d1, g, d2, s2);
    RangeParts(p1, d1, g, d2, s2);
    RangeEndpoints(s, p1, d1, s1, p2, b);
    DisplayOfRange(s, |p1|, q, b, b + |d2|, d1, d2);
  }

  /** Where the lazy `(.*?)` leaves the first endpoint of a range string:
      `s` is `p1 d1 s1 - p2` up to the last run at `b`. */
  lemma {:induction false} RangeEndpoints(s: string, p1: string, d1: string, s1: string, p2: string, b: nat)
    requires NoDigits(p1) && NoLineTerminator(p1) && NoDigits(s1) && NoDigits(p2) && NoLineTerminator(p2)
    requires |d1| >= 1 && AllDigits(d1)
    requires |p1| + |d1| + |s1 + "-" + p2| == b < |s| && IsDigit(s[b])
    requires s[..|p1|] == p1 && s[|p1|..|p1| + |d1|] == d1 && s[|p1| + |d1|..b] == s1 + "-" + p2
    ensures RangeStart(s, 0, b) == Some(|p1|) && RunEnd(s, |p1|) == |p1| + |d1|
  {
    var g := s1 + "-" + p2;
    var q := |p1| + |d1|;
    RangeGap(s1, p2);
    assert forall k :: 0 <= k < |p1| ==> s[k] == s[..|p1|][k];
    assert forall k :: |p1| <= k < q ==> s[k] == s[|p1|..q][k - |p1|];
    assert forall k :: q <= k < b ==> s[k] == s[q..b][k - q];
    SliceOfSlice(s, q, |s1| + 1, b);
    assert s[q + |s1|] == s[q..b][|s1|];
    RangeFirstRun(s, |p1|, q, q + |s1|, b);
  }

  /** The last run of a range string is its second endpoint. */
  lemma {:induction false} RangeLastRun(p1: string, d1: string, g: string, d2: string, s2: string)
    requires |g| >= 1 && NoDigits(g) && |d2| >= 1 && AllDigits(d2) && NoDigits(s2)
    ensures var s := p1 + d1 + g + d2 + s2; var b := |p1| + |d1| + |g|;
      && !NoDigits(s) && LastRunStart(s) == b && LastRunEnd(s) == b + |d2|
      && IsDigit(s[b]) && !IsDigit(s[b - 1])
  {
    var s := p1 + d1 + g + d2 + s2;
    var a := p1 + d1 + g;
    RangeParts(p1, d1, g, d2, s2);
    assert a[|a| - 1] == g[|g| - 1];
    DecompositionUnique(s, a, d2, s2);
  }

  /** The lazy `(.*?)` stops at the first run (from `i` to `q`) when the gap
      after it (up to the last run at `b`) holds a `-` at `m` with no line
      terminator after it. */
  lemma {:induction false} RangeFirstRun(s: string, i: nat, q: nat, m: nat, b: nat)
    requires i < q <= m < b < |s| && IsDigit(s[b])
    requires forall k :: 0 <= k < i ==> !IsDigit(s[k]) && !IsLineTerminator(s[k])
    requires forall k :: i <= k < q ==> IsDigit(s[k])
    requires forall k :: q <= k < b ==> !IsDigit(s[k])
    requires s[m] == '-' && NoLineTerminator(s[m + 1..b])
    ensures RangeStart(s, 0, b) == Some(i) && RunEnd(s, i) == q
  {
    RangeStartSkips(s, 0, i, b);
    RunEndAt(s, i, q);
    NextDigitAt(s, q, b);
    assert DashReaches(s, q, b, b);
  }

  /** A ticket with a single run of digits displays as that run. */
  lemma {:induction false} NumericDisplaySingle(p: string, d: string, x: string)
    requires NoDigits(p) && NoDigits(x) && |d| >= 1 && AllDigits(d)
    ensures NumericDisplay(p + d + x) == d
  {
    var s := p + d + x;
    DecompositionUnique(s, p, d, x);
    LastRunFacts(s);
    SingleParts(p, d, x);
    SingleEndpoints(s, p, d, x);
  }

  /** Where the three parts of a single ticket sit in it. */
  lemma {:induction false} SingleParts<T>(p: seq<T>, d: seq<T>, x: seq<T>)
    ensures var s := p + d + x;
      s[..|p|] == p && s[|p|..|p| + |d|] == d && s[|p| + |d|..] == x
  {
  }

  /** A ticket `p d x` with one run of digits `d` has no range, and its first
      run is `d`. */
  lemma {:induction false} SingleEndpoints(s: string, p: string, d: string, x: string)
    requires NoDigits(p) && NoDigits(x) && |d| >= 1 && AllDigits(d)
    requires |s| == |p| + |d| + |x|
    requires s[..|p|] == p && s[|p|..|p| + |d|] == d && s[|p| + |d|..] == x
    requires !NoDigits(s) && LastRunStart(s) == |p| && LastRunEnd(s) == |p| + |d|
    requires LastRunStart(s) < LastRunEnd(s) <= |s| && IsDigit(s[|p|]) && (|p| == 0 || !IsDigit(s[|p| - 1]))
    ensures NumericDisplay(s) == d
  {
    var b := |p|;
    var e := b + |d|;
    assert forall k :: 0 <= k < b ==> s[k] == s[..b][k];
    assert forall k :: b <= k < e ==> s[k] == s[b..e][k - b];
    if e < |s| {
      assert s[e] == s[e..][0];
    }
    RangeStartNone(s, 0, b);
    NextDigitAt(s, 0, b);
    RunEndAt(s, b, e);
  }

  /** A string without digits displays as itself, and anything else as a
      non-empty string of digits, possibly with one `-` between two runs. */
  lemma {:induction false} NumericDisplayShape(s: string)
    ensures NoDigits(s) ==> NumericDisplay(s) == s
    ensures !NoDigits(s) ==> var r := NumericDisplay(s);
              AllDigits(r) || exists k :: 0 <= k < |r| && r[k] == '-' && AllDigits(r[..k]) && AllDigits(r[k + 1..])
  {
    if !NoDigits(s) {
      LastRunFacts(s);
      var b := LastRunStart(s);
      var e := LastRunEnd(s);
      match RangeStart(s, 0, b)
      case Some(p) =>
        var d1 := s[p..RunEnd(s, p)];
        PadDigits(d1, e - b);
        HyphenJoined(PadStart(d1, e - b, '0'), s[b..e]);
      case None =>
    }
  }

  lemma {:induction false} PadDigits(d: string, width: int)
    requires AllDigits(d)
    ensures AllDigits(PadStart(d, width, '0'))
  {
    if width > |d| {
      assert PadStart(d, width, '0') == Repeat('0', width - |d|) + d;
    }
  }

  lemma {:induction false} HyphenJoined(left: string, right: string)
    requires AllDigits(left) && AllDigits(right)
    ensures var r := left + "-" + right;
            exists k :: 0 <= k < |r| && r[k] == '-' && AllDigits(r[..k]) && AllDigits(r[k + 1..])
  {
    var r := left + "-" + right;
    assert r[|left|] == '-' && r[..|left|] == left && r[|left| + 1..] == right;
  }

  // ---------------------------------------------------------------- the popup

  const NumbersPerLine := 7

  /** The slices of seven (the last one shorter) from index `i` on. */
  function ChunksFrom(xs: seq<string>, i: nat): seq<seq<string>>
    decreases |xs| - i
  {
    if i >= |xs| then []
    else
      var end := if i + NumbersPerLine <= |xs| then i + NumbersPerLine else |xs|;
      [xs[i..end]] + ChunksFrom(xs, i + NumbersPerLine)
  }

  /** The numeric display of every element, in order. */
  function DisplayAll(xs: seq<string>): (ds: seq<string>)
    ensures |ds| == |xs| && forall k :: 0 <= k < |xs| ==> ds[k] == NumericDisplay(xs[k])
  {
    if xs == [] then [] else DisplayAll(xs[..|xs| - 1]) + [NumericDisplay(xs[|xs| - 1])]
  }

  /** One line of the popup. */
  function Line(chunk: seq<string>): string {
    Join(DisplayAll(chunk), ", ")
  }

  function Lines(chunks: seq<seq<string>>): (ls: seq<string>)
    ensures |ls| == |chunks|
  {
    if chunks == [] then [] else [Line(chunks[0])] + Lines(chunks[1..])
  }

  /** `formatSoldNumbersForPopup`: the lines joined with `,<br>`. */
  function Popup(soldNumbers: seq<string>): string {
    if |soldNumbers| == 0 then "" else Join(Lines(ChunksFrom(soldNumbers, 0)), ",<br>")
  }

  /** The loop of `formatSoldNumbersForPopup`. */
  method FormatSoldNumbersForPopup(soldNumbers: seq<string>) returns (r: string)
    ensures r == Popup(soldNumbers)
  {
    if |soldNumbers| == 0 {
      return "";
    }
    var lines: seq<string> := [];
    var i := 0;
    while i < |soldNumbers|
      invariant lines + Lines(ChunksFrom(soldNumbers, i)) == Lines(ChunksFrom(soldNumbers, 0))
      decreases |soldNumbers| - i
    {
      var end := if i + NumbersPerLine <= |soldNumbers| then i + NumbersPerLine else |soldNumbers|;
      var chunk := soldNumbers[i..end];
      LinesStep(soldNumbers, i);
      var line := Line(chunk);
      AppendAssoc(lines, [line], Lines(ChunksFrom(soldNumbers, i + NumbersPerLine)));
      lines := lines + [line];
      i := i + NumbersPerLine;
    }
    NoLinesLeft(soldNumbers, i, lines);
    r := Join(lines, ",<br>");
  }

  lemma {:induction false} NoLinesLeft(xs: seq<string>, i: nat, lines: seq<string>)
    requires i >= |xs|
    ensures lines + Lines(ChunksFrom(xs, i)) == lines
  {
    assert ChunksFrom(xs, i) == [];
    assert lines + [] == lines;
  }

  /** One turn of the popup loop: the line of the next seven numbers. */
  lemma {:induction false} LinesStep(xs: seq<string>, i: nat)
    requires i < |xs|
    ensures var end := if i + NumbersPerLine <= |xs| then i + NumbersPerLine else |xs|;
      Lines(ChunksFrom(xs, i)) == [Line(xs[i..end])] + Lines(ChunksFrom(xs, i + NumbersPerLine))
  {
    var end := if i + NumbersPerLine <= |xs| then i + NumbersPerLine else |xs|;
    var cs := ChunksFrom(xs, i);
    assert cs == [xs[i..end]] + ChunksFrom(xs, i + NumbersPerLine);
    assert cs[1..] == ChunksFrom(xs, i + NumbersPerLine);
  }

  /** The popup's chunks, put together, are the sold list: every chunk holds
      one to seven numbers, all but the last exactly seven, so there are
      `ceil(n / 7)` lines. */
  lemma {:induction false} ChunksSpec(xs: seq<string>, i: nat)
    requires i <= |xs|
    ensures Concat(ChunksFrom(xs, i)) == xs[i..]
    ensures forall k :: 0 <= k < |ChunksFrom(xs, i)| ==> 1 <= |ChunksFrom(xs, i)[k]| <= NumbersPerLine
    ensures forall k :: 0 <= k < |ChunksFrom(xs, i)| - 1 ==> |ChunksFrom(xs, i)[k]| == NumbersPerLine
    ensures |ChunksFrom(xs, i)| == (|xs| - i + NumbersPerLine - 1) / NumbersPerLine
    decreases |xs| - i
  {
    if i < |xs| {
      var end := if i + NumbersPerLine <= |xs| then i + NumbersPerLine else |xs|;
      var rest := if i + NumbersPerLine <= |xs| then ChunksFrom(xs, i + NumbersPerLine) else [];
      if i + NumbersPerLine <= |xs| {
        ChunksSpec(xs, i + NumbersPerLine);
      }
      assert ChunksFrom(xs, i) == [xs[i..end]] + rest;
      ConcatCons(xs[i..end], rest);
      assert xs[i..] == xs[i..end] + xs[end..];
    }
  }
}
