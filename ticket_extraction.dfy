/** `extractTicketsFromRanges`, the stricter expansion behind the unsold-input
    auto-completion: only ranges whose two endpoints have the same length are
    expanded, the prefix is the left endpoint without its trailing digits, the
    suffix its trailing non-digits, and the numbers are read from all of an
    endpoint's digits. */
module TicketExtraction {
  import opened JsText
  import opened TicketCodec
  import opened RangeExpansion
  import opened Ordered

  /** `s.replace(/\D/g, '')`: the digits of `s`, in order. */
  function DigitsOnly(s: string): (d: string)
    ensures AllDigits(d) && |d| <= |s|
  {
    if s == [] then []
    else DigitsOnly(s[..|s| - 1]) + (if IsDigit(s[|s| - 1]) then [s[|s| - 1]] else [])
  }

  /** The number the digits of `s` spell, or `None` (`NaN`) when there is no digit. */
  function ParseDigitsOf(s: string): Option<int> {
    JsParseInt(DigitsOnly(s))
  }

  /** The prefix of a left endpoint: everything before its trailing digits. */
  function StartPrefix(start: string): string {
    start[..|start| - TrailingDigits(start)]
  }

  /** The suffix of a left endpoint: its trailing non-digits. */
  function StartSuffix(start: string): string {
    start[|start| - TrailingNonDigits(start)..]
  }

  /** The tickets a range with trimmed endpoints `start` and `end` contributes:
      none unless both have the same length and some digit. */
  function ExtractPair(start: string, end: string): seq<string> {
    if |start| == |end| then
      match (ParseDigitsOf(start), ParseDigitsOf(end))
      case (Some(startNum), Some(endNum)) =>
        RangeTickets(StartPrefix(start), startNum, endNum, |DigitsOnly(start)|, StartSuffix(start))
      case _ => []
    else []
  }

  /** The tickets one segment contributes: a two-sided range expands, any
      other segment with a hyphen is dropped, and a segment without one is kept. */
  function ExtractSegment(range: string): seq<string> {
    if '-' in range then
      var parts := Split(range, '-');
      if |parts| == 2 then ExtractPair(Trim(parts[0]), Trim(parts[1])) else []
    else [range]
  }

  function ExtractAll(segs: seq<string>): seq<string> {
    if segs == [] then [] else ExtractAll(segs[..|segs| - 1]) + ExtractSegment(segs[|segs| - 1])
  }

  /** `extractTicketsFromRanges`: every ticket the segments name, in order. */
  method ExtractTicketsFromRanges(purchaseRanges: string) returns (tickets: seq<string>)
    ensures tickets == ExtractAll(Segments(purchaseRanges))
  {
    tickets := ExtractFromSegments(Segments(purchaseRanges));
  }

  method ExtractFromSegments(ranges: seq<string>) returns (tickets: seq<string>)
    ensures tickets == ExtractAll(ranges)
  {
    tickets := [];
    var k := 0;
    while k < |ranges|
      invariant 0 <= k <= |ranges|
      invariant tickets == ExtractAll(ranges[..k])
    {
      tickets := ExtractFromRange(ranges[k], tickets);
      assert ranges[..k + 1][..k] == ranges[..k];
      k := k + 1;
    }
    assert ranges[..k] == ranges;
  }

  /** The loop body for one range: pushes its tickets after `tickets`. */
  method ExtractFromRange(range: string, tickets: seq<string>) returns (result: seq<string>)
    ensures result == tickets + ExtractSegment(range)
  {
    if '-' in range {
      var parts := Split(range, '-');
      if |parts| == 2 {
        result := ExtractFromPair(Trim(parts[0]), Trim(parts[1]), tickets);
      } else {
        result := tickets;
      }
    } else {
      result := tickets + [range];
    }
  }

  method ExtractFromPair(start: string, end: string, tickets: seq<string>) returns (result: seq<string>)
    ensures result == tickets + ExtractPair(start, end)
  {
    result := tickets;
    if |start| == |end| {
      var prefix := StartPrefix(start);
      var suffix := StartSuffix(start);
      var startNum := ParseDigitsOf(start);
      var endNum := ParseDigitsOf(end);
      var padding := |DigitsOnly(start)|;
      assert startNum.Some? && endNum.Some? ==>
               ExtractPair(start, end) == RangeTickets(prefix, startNum.value, endNum.value, padding, suffix);
      assert !(startNum.Some? && endNum.Some?) ==> ExtractPair(start, end) == [];
      if startNum.Some? && endNum.Some? && endNum.value >= startNum.value {
        result := AppendRange(tickets, prefix, startNum.value, endNum.value, padding, suffix);
      }
    }
  }

  /** The loop over the numbers of a range: appends the tickets `lo` to
      `hi` of one family, in ascending order. */
  method AppendRange(tickets: seq<string>, prefix: string, lo: int, hi: int, padding: nat, suffix: string)
    returns (result: seq<string>)
    ensures result == tickets + RangeTickets(prefix, lo, hi, padding, suffix)
  {
    result := tickets;
    var i := lo;
    while i <= hi
      invariant lo <= i && (i <= hi + 1 || i == lo)
      invariant result == tickets + RangeTickets(prefix, lo, i - 1, padding, suffix)
    {
      var ticketNum := FormatTicket(prefix, i, padding, suffix);
      AppendStep(tickets, prefix, lo, i, padding, suffix);
      result := result + [ticketNum];
      i := i + 1;
    }
  }

  lemma {:induction false} AppendStep(tickets: seq<string>, prefix: string, lo: int, i: int, padding: nat, suffix: string)
    requires lo <= i
    ensures tickets + RangeTickets(prefix, lo, i - 1, padding, suffix) + [FormatTicket(prefix, i, padding, suffix)]
            == tickets + RangeTickets(prefix, lo, i, padding, suffix)
  {
    var before := RangeTickets(prefix, lo, i - 1, padding, suffix);
    var ticket := FormatTicket(prefix, i, padding, suffix);
    assert RangeTickets(prefix, lo, i, padding, suffix) == before + [ticket];
    AppendAssoc(tickets, before, [ticket]);
  }

  // ---------------------------------------------------------------- reading the endpoints

  lemma {:induction false} DigitsOnlyOfDigits(s: string)
    requires AllDigits(s)
    ensures DigitsOnly(s) == s
  {
    if s != [] {
      DigitsOnlyOfDigits(s[..|s| - 1]);
      assert s[..|s| - 1] + [s[|s| - 1]] == s;
    }
  }

  /** `parseInt` of a string of digits is its value, or `NaN` when it is empty. */
  lemma {:induction false} ParseDigitString(ds: string)
    requires AllDigits(ds)
    ensures JsParseInt(ds) == if ds == [] then None else Some(DigitsValue(ds))
  {
    if ds != [] {
      assert LeadingSpaces(ds) == 0;
      assert TrimStart(ds) == ds;
      LeadingDigitsAll(ds);
      assert ds[..|ds|] == ds;
    }
  }

  /** A segment `a-b` with no other hyphen expands as the pair of its trimmed sides. */
  lemma {:induction false} SegmentOfPair(a: string, b: string)
    requires '-' !in a && '-' !in b
    ensures ExtractSegment(a + "-" + b) == ExtractPair(Trim(a), Trim(b))
    ensures ExtractSegmentCorrected(a + "-" + b) == ExtractPairCorrected(Trim(a), Trim(b))
  {
    var seg := a + "-" + b;
    assert seg[|a|] == '-';
    assert seg == a + ['-'] + b;
    SplitAppend(a, b, '-');
    SplitNoSep(a, '-');
    SplitNoSep(b, '-');
  }

  // ---------------------------------------------------------------- against the main expansion

  /** Two endpoints of digits only and of equal width expand to the plain
      numbers between them, at that width. */
  lemma {:induction false} PairOfDigits(a: string, b: string)
    requires a != [] && AllDigits(a) && AllDigits(b) && |a| == |b|
    ensures ExtractPair(a, b) == RangeTickets("", DigitsValue(a), DigitsValue(b), |a|, "")
  {
    assert ParseDigitsOf(a) == Some(DigitsValue(a)) && ParseDigitsOf(b) == Some(DigitsValue(b)) by {
      DigitsOnlyOfDigits(a);
      DigitsOnlyOfDigits(b);
      ParseDigitString(a);
      ParseDigitString(b);
    }
    assert |DigitsOnly(a)| == |a| by {
      DigitsOnlyOfDigits(a);
    }
    assert StartPrefix(a) == [] by {
      TrailingDigitsRun([], a);
      assert [] + a == a;
    }
    assert StartSuffix(a) == [];
  }

  /** On endpoints made only of digits and of equal length, the strict
      expansion produces exactly what `updateRowData` produces. */
  lemma {:induction false} AgreesOnEqualWidthDigits(a: string, b: string)
    requires a != [] && AllDigits(a) && AllDigits(b) && |a| == |b|
    ensures ExtractSegment(a + "-" + b) == SegmentTickets(a + "-" + b)
  {
    assert '-' !in a && '-' !in b by {
      assert forall i :: 0 <= i < |a| ==> a[i] != '-';
      assert forall i :: 0 <= i < |b| ==> b[i] != '-';
    }
    assert Trim(a) == a && Trim(b) == b by {
      TrimmedFixed(a);
      TrimmedFixed(b);
    }
    assert ExtractSegment(a + "-" + b) == RangeTickets("", DigitsValue(a), DigitsValue(b), |a|, "") by {
      SegmentOfPair(a, b);
      PairOfDigits(a, b);
    }
    PartsOfRange(a, b);
    ParseDigitsOnly(a);
    ParseDigitsOnly(b);
  }

  /** ... while endpoints of different widths, which `updateRowData`
      expands, give nothing here. */
  lemma {:induction false} RejectsUnequalWidths(a: string, b: string)
    requires '-' !in a && '-' !in b && |Trim(a)| != |Trim(b)|
    ensures ExtractSegment(a + "-" + b) == []
  {
    SegmentOfPair(a, b);
  }

  // ---------------------------------------------------------------- the duplicated suffix

  /** As written, a left endpoint that ends in non-digits keeps them in the
      prefix and gets them again as the suffix: `A1B-A3B` starts at `A1B1B`. */
  lemma {:induction false} SuffixDuplicated()
    ensures |ExtractSegment("A1B-A3B")| == 3
    ensures ExtractSegment("A1B-A3B")[0] == "A1B1B"
  {
    ExtractA1BA3B();
    A1BRangeFirst();
  }

  lemma {:induction false} A1BRangeFirst()
    ensures |RangeTickets("A1B", 1, 3, 1, "B")| == 3 && RangeTickets("A1B", 1, 3, 1, "B")[0] == "A1B1B"
  {
    RangeTicketsAt("A1B", 1, 3, 1, "B", 0);
    FirstOfA1B();
  }

  lemma {:induction false} ExtractA1BA3B()
    ensures ExtractSegment("A1B-A3B") == RangeTickets("A1B", 1, 3, 1, "B")
  {
    A1BA3BSides();
    SegmentOfPair("A1B", "A3B");
    A1BA3BPair();
  }

  lemma {:induction false} FirstOfA1B()
    ensures FormatTicket("A1B", 1, 1, "B") == "A1B1B"
  {
    assert NatToString(1) == "1";
  }

  lemma {:induction false} A1BA3BSides()
    ensures "A1B-A3B" == "A1B" + "-" + "A3B"
    ensures '-' !in "A1B" && '-' !in "A3B"
    ensures Trim("A1B") == "A1B" && Trim("A3B") == "A3B"
  {
    TrimmedFixed("A1B");
    TrimmedFixed("A3B");
  }

  lemma {:induction false} A1BA3BPair()
    ensures ExtractPair("A1B", "A3B") == RangeTickets("A1B", 1, 3, 1, "B")
  {
    A1BEnds();
    A1BNumbers();
    DigitsOfA1B();
  }

  lemma {:induction false} A1BNumbers()
    ensures ParseDigitsOf("A1B") == Some(1) && ParseDigitsOf("A3B") == Some(3)
  {
    DigitsOfA1B();
    DigitsOfA3B();
    ParseDigitString("1");
    ParseDigitString("3");
  }

  lemma {:induction false} A1BEnds()
    ensures StartPrefix("A1B") == "A1B" && StartSuffix("A1B") == "B"
  {
    assert "A1B"[..2] == "A1";
  }

  lemma {:induction false} DigitsOfA1B()
    ensures DigitsOnly("A1B") == "1"
  {
    assert "A1B"[..2] == "A1" && "A1"[..1] == "A";
  }

  lemma {:induction false} DigitsOfA3B()
    ensures DigitsOnly("A3B") == "3"
  {
    assert "A3B"[..2] == "A3" && "A3"[..1] == "A";
  }

  /** The evidently intended reading takes prefix, number, width and suffix
      from the ticket codec, so that a range starts at its own left endpoint. */
  function ExtractPairCorrected(start: string, end: string): seq<string> {
    if |start| == |end| then
      var from := ParseTicket(start);
      RangeTickets(from.prefix, from.numericPart, ParseTicket(end).numericPart, from.padding, from.suffix)
    else []
  }

  function ExtractSegmentCorrected(range: string): seq<string> {
    if '-' in range then
      var parts := Split(range, '-');
      if |parts| == 2 then ExtractPairCorrected(Trim(parts[0]), Trim(parts[1])) else []
    else [range]
  }

  /** Every ticket of a corrected range is its left endpoint's family, numbered
      from the left endpoint on, and the first one is the left endpoint itself. */
  lemma {:induction false} CorrectedStartsAtStart(start: string, end: string)
    requires |start| == |end| && PatternMatches(start)
    requires ParseTicket(end).numericPart >= ParseTicket(start).numericPart
    ensures var from := ParseTicket(start);
            var r := ExtractPairCorrected(start, end);
            && |r| == ParseTicket(end).numericPart - from.numericPart + 1
            && r[0] == start
            && forall i :: 0 <= i < |r| ==> r[i] == FormatTicket(from.prefix, from.numericPart + i, from.padding, from.suffix)
  {
    RangeFrom(ParseTicket(start), ParseTicket(end).numericPart);
    FormatParse(start);
  }

  /** The range from ticket `t` up to number `hi` starts with `t` itself. */
  lemma {:induction false} RangeFrom(t: Ticket, hi: int)
    requires hi >= t.numericPart
    ensures var r := RangeTickets(t.prefix, t.numericPart, hi, t.padding, t.suffix);
            && |r| == hi - t.numericPart + 1
            && r[0] == Format(t)
            && forall i :: 0 <= i < |r| ==> r[i] == FormatTicket(t.prefix, t.numericPart + i, t.padding, t.suffix)
  {
    RangeTicketsAll(t.prefix, t.numericPart, hi, t.padding, t.suffix);
    RangeTicketsAt(t.prefix, t.numericPart, hi, t.padding, t.suffix, 0);
  }

  /** With the correction, `A1B-A3B` starts at `A1B`. */
  lemma {:induction false} CorrectedA1B()
    ensures |ExtractSegmentCorrected("A1B-A3B")| == 3
    ensures ExtractSegmentCorrected("A1B-A3B")[0] == "A1B"
  {
    A1BA3BSides();
    SegmentOfPair("A1B", "A3B");
    A1BA3BTickets();
    CorrectedStartsAtStart("A1B", "A3B");
  }

  lemma {:induction false} A1BA3BTickets()
    ensures PatternMatches("A1B") && ParseTicket("A1B").numericPart == 1 && ParseTicket("A3B").numericPart == 3
  {
    DecompositionUnique("A1B", "A", "1", "B");
    DecompositionUnique("A3B", "A", "3", "B");
    assert "A1B"[..1] == "A" && "A1B"[1..2] == "1" && "A3B"[..1] == "A" && "A3B"[1..2] == "3";
  }
}
