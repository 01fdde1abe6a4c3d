/** Range expansion: the purchase text of a row is a comma-separated list of
    single tickets and `from-to` ranges, expanded into the insertion-ordered
    set of purchased tickets and a ticket count. The main loop is the one of
    `updateRowData`; the count-only copy of `calculateCustomerSummary`, the
    copy of the ticket search (which pads to the left endpoint only) and the
    stricter `extractTicketsFromRanges` are modelled beside it. */
module RangeExpansion {
  import opened JsText
  import opened Ordered
  import opened TicketCodec

  function Max(a: nat, b: nat): nat {
    if a >= b then a else b
  }

  function MapTrim(xs: seq<string>): (r: seq<string>)
    ensures |r| == |xs| && forall i :: 0 <= i < |xs| ==> r[i] == Trim(xs[i])
  {
    seq(|xs|, i requires 0 <= i < |xs| => Trim(xs[i]))
  }

  /** `.filter(Boolean)` on strings: drops the empty ones. */
  function NonEmpty(xs: seq<string>): (r: seq<string>)
    ensures forall i :: 0 <= i < |r| ==> r[i] != []
  {
    if xs == [] then []
    else if xs[|xs| - 1] == [] then NonEmpty(xs[..|xs| - 1])
    else NonEmpty(xs[..|xs| - 1]) + [xs[|xs| - 1]]
  }

  /** The comma-separated segments of the text, trimmed, empty ones dropped. */
  function Segments(text: string): (segs: seq<string>)
    ensures forall i :: 0 <= i < |segs| ==> segs[i] != [] && IsTrimmed(segs[i])
  {
    var r := NonEmpty(MapTrim(Split(text, ',')));
    assert forall i :: 0 <= i < |r| ==> r[i] in MapTrim(Split(text, ',')) by {
      NonEmptyIn(MapTrim(Split(text, ',')));
    }
    forall i | 0 <= i < |r| ensures IsTrimmed(r[i]) {
      var j :| 0 <= j < |Split(text, ',')| && r[i] == MapTrim(Split(text, ','))[j];
      TrimSpec(Split(text, ',')[j]);
    }
    r
  }

  lemma {:induction false} NonEmptyIn(xs: seq<string>)
    ensures forall x :: x in NonEmpty(xs) ==> x in xs
  {
    if xs != [] {
      NonEmptyIn(xs[..|xs| - 1]);
    }
  }

  /** The hyphen-separated parts of a segment, trimmed. */
  function Parts(seg: string): seq<string> {
    MapTrim(Split(seg, '-'))
  }

  /** The tickets `lo..hi` of one family, in ascending order. */
  function RangeTickets(prefix: string, lo: int, hi: int, padding: nat, suffix: string): (r: seq<string>)
    ensures |r| == if hi >= lo then hi - lo + 1 else 0
    decreases if hi >= lo then hi - lo + 1 else 0
  {
    if hi < lo then []
    else RangeTickets(prefix, lo, hi - 1, padding, suffix) + [FormatTicket(prefix, hi, padding, suffix)]
  }

  /** The tickets one segment adds to the purchased set in `updateRowData`, in
      the order they are added: a two-part segment with `to >= from` adds the
      range in the left endpoint's prefix and suffix and the wider of the two
      paddings, a one-part segment adds itself, anything else adds nothing. */
  function SegmentTickets(seg: string): seq<string> {
    var parts := Parts(seg);
    if |parts| == 2 then
      var from := ParseTicket(parts[0]);
      var to := ParseTicket(parts[1]);
      RangeTickets(from.prefix, from.numericPart, to.numericPart, Max(from.padding, to.padding), from.suffix)
    else if |parts| == 1 then [parts[0]]
    else []
  }

  /** What one segment adds to `numberOfTickets`. */
  function SegmentCount(seg: string): nat {
    var parts := Parts(seg);
    if |parts| == 2 then
      var from := ParseTicket(parts[0]);
      var to := ParseTicket(parts[1]);
      if to.numericPart >= from.numericPart then to.numericPart - from.numericPart + 1 else 0
    else if |parts| == 1 then 1
    else 0
  }

  /** The `i`-th ticket of a range is the one numbered `lo + i`. */
  lemma {:induction false} RangeTicketsAt(prefix: string, lo: int, hi: int, padding: nat, suffix: string, i: nat)
    requires lo + i <= hi
    ensures RangeTickets(prefix, lo, hi, padding, suffix)[i] == FormatTicket(prefix, lo + i, padding, suffix)
    decreases hi - lo
  {
    if lo + i < hi {
      RangeTicketsAt(prefix, lo, hi - 1, padding, suffix, i);
    }
  }

  /** Every position of a range holds the ticket numbered from its start. */
  lemma {:induction false} RangeTicketsAll(prefix: string, lo: int, hi: int, padding: nat, suffix: string)
    ensures forall i :: 0 <= i < |RangeTickets(prefix, lo, hi, padding, suffix)| ==>
              RangeTickets(prefix, lo, hi, padding, suffix)[i] == FormatTicket(prefix, lo + i, padding, suffix)
  {
    forall i | 0 <= i < |RangeTickets(prefix, lo, hi, padding, suffix)|
      ensures RangeTickets(prefix, lo, hi, padding, suffix)[i] == FormatTicket(prefix, lo + i, padding, suffix)
    {
      RangeTicketsAt(prefix, lo, hi, padding, suffix, i);
    }
  }

  /** Every ticket the segments add, in order, duplicates included. */
  function AllTickets(segs: seq<string>): seq<string> {
    if segs == [] then [] else AllTickets(segs[..|segs| - 1]) + SegmentTickets(segs[|segs| - 1])
  }

  function CountOf(segs: seq<string>): nat {
    if segs == [] then 0 else CountOf(segs[..|segs| - 1]) + SegmentCount(segs[|segs| - 1])
  }

  /** The purchased set of a purchase text, in insertion order. */
  function Purchased(text: string): seq<string> {
    Dedup(AllTickets(Segments(text)))
  }

  /** The `numberOfTickets` of a purchase text. */
  function TicketCount(text: string): nat {
    CountOf(Segments(text))
  }

  /** The purchase loop of `updateRowData`: builds the purchased set and
      counts the tickets, segment by segment and ticket by ticket. */
  method ExpandPurchases(purchaseRanges: string) returns (purchaseSet: seq<string>, numberOfTickets: nat)
    ensures purchaseSet == Purchased(purchaseRanges)
    ensures numberOfTickets == TicketCount(purchaseRanges)
  {
    purchaseSet, numberOfTickets := ExpandSegments(Segments(purchaseRanges));
  }

  /** The loop over the trimmed, non-empty segments. */
  method ExpandSegments(segs: seq<string>) returns (purchaseSet: seq<string>, numberOfTickets: nat)
    ensures purchaseSet == Dedup(AllTickets(segs))
    ensures numberOfTickets == CountOf(segs)
  {
    purchaseSet := [];
    numberOfTickets := 0;
    var k := 0;
    while k < |segs|
      invariant 0 <= k <= |segs|
      invariant purchaseSet == AddAll([], AllTickets(segs[..k]))
      invariant numberOfTickets == CountOf(segs[..k])
    {
      var added;
      purchaseSet, added := ExpandSegment(segs[k], purchaseSet);
      numberOfTickets := numberOfTickets + added;
      AddAllAppend([], AllTickets(segs[..k]), SegmentTickets(segs[k]));
      PrefixStep(segs, k);
      k := k + 1;
    }
    assert segs[..k] == segs;
  }

  /** The body of the loop for one segment `range`: adds its tickets to the
      set and returns how many it counts. */
  method ExpandSegment(range: string, purchaseSet: seq<string>) returns (newSet: seq<string>, added: nat)
    ensures newSet == AddAll(purchaseSet, SegmentTickets(range))
    ensures added == SegmentCount(range)
  {
    newSet := purchaseSet;
    added := 0;
    var parts := Parts(range);
    if |parts| == 2 {
      var parsedFrom := ParseTicket(parts[0]);
      var parsedTo := ParseTicket(parts[1]);
      var numericFrom := parsedFrom.numericPart;
      var numericTo := parsedTo.numericPart;
      var commonPadding := Max(parsedFrom.padding, parsedTo.padding);
      assert SegmentTickets(range) == RangeTickets(parsedFrom.prefix, numericFrom, numericTo, commonPadding, parsedFrom.suffix);
      if numericTo >= numericFrom {
        added := numericTo - numericFrom + 1;
        newSet := AddRange(purchaseSet, parsedFrom.prefix, numericFrom, numericTo, commonPadding, parsedFrom.suffix);
      }
    } else if |parts| == 1 {
      assert SegmentTickets(range) == [parts[0]];
      added := 1;
      AddAllOne(purchaseSet, parts[0]);
      newSet := SetAdd(newSet, parts[0]);
    } else {
      assert SegmentTickets(range) == [];
    }
  }

  /** The loop over the numbers of a range: adds the tickets `lo` to `hi` of
      one family to the set, in ascending order. */
  method AddRange(purchaseSet: seq<string>, prefix: string, lo: int, hi: int, padding: nat, suffix: string)
    returns (newSet: seq<string>)
    ensures newSet == AddAll(purchaseSet, RangeTickets(prefix, lo, hi, padding, suffix))
  {
    newSet := purchaseSet;
    var i := lo;
    while i <= hi
      invariant lo <= i && (i <= hi + 1 || i == lo)
      invariant newSet == AddAll(purchaseSet, RangeTickets(prefix, lo, i - 1, padding, suffix))
    {
      var ticket := FormatTicket(prefix, i, padding, suffix);
      ExpandStep(purchaseSet, prefix, lo, i, padding, suffix);
      newSet := SetAdd(newSet, ticket);
      i := i + 1;
    }
  }

  /** One turn of the range loop adds the next ticket of the range. */
  lemma {:induction false} ExpandStep(purchaseSet: seq<string>, prefix: string, lo: int, i: int, padding: nat, suffix: string)
    requires lo <= i
    ensures SetAdd(AddAll(purchaseSet, RangeTickets(prefix, lo, i - 1, padding, suffix)), FormatTicket(prefix, i, padding, suffix))
            == AddAll(purchaseSet, RangeTickets(prefix, lo, i, padding, suffix))
  {
    var before := RangeTickets(prefix, lo, i - 1, padding, suffix);
    var ticket := FormatTicket(prefix, i, padding, suffix);
    assert RangeTickets(prefix, lo, i, padding, suffix) == before + [ticket];
    AddAllSnoc(purchaseSet, before, ticket);
  }

  lemma {:induction false} CountStep(segs: seq<string>, k: nat)
    requires k < |segs|
    ensures CountOf(segs[..k + 1]) == CountOf(segs[..k]) + SegmentCount(segs[k])
  {
    assert segs[..k + 1][..k] == segs[..k];
  }

  /** One more segment adds its tickets and its count. */
  lemma {:induction false} PrefixStep(segs: seq<string>, k: nat)
    requires k < |segs|
    ensures AllTickets(segs[..k + 1]) == AllTickets(segs[..k]) + SegmentTickets(segs[k])
    ensures CountOf(segs[..k + 1]) == CountOf(segs[..k]) + SegmentCount(segs[k])
  {
    assert segs[..k + 1][..k] == segs[..k];
  }

  // ---------------------------------------------------------------- what the expansion promises

  /** A segment counts exactly the tickets it generates (before duplicates are dropped). */
  lemma {:induction false} SegmentCountTickets(seg: string)
    ensures SegmentCount(seg) == |SegmentTickets(seg)|
  {
  }

  lemma {:induction false} CountAllTickets(segs: seq<string>)
    ensures CountOf(segs) == |AllTickets(segs)|
  {
    if segs != [] {
      CountAllTickets(segs[..|segs| - 1]);
      SegmentCountTickets(segs[|segs| - 1]);
    }
  }

  lemma {:induction false} AllTicketsIn(segs: seq<string>, x: string)
    ensures x in AllTickets(segs) <==> exists k :: 0 <= k < |segs| && x in SegmentTickets(segs[k])
  {
    if x in AllTickets(segs) {
      AllTicketsFrom(segs, x);
    }
    if k :| 0 <= k < |segs| && x in SegmentTickets(segs[k]) {
      AllTicketsMember(segs, k, x);
    }
  }

  lemma {:induction false} AllTicketsMember(segs: seq<string>, k: nat, x: string)
    requires k < |segs| && x in SegmentTickets(segs[k])
    ensures x in AllTickets(segs)
  {
    var init := segs[..|segs| - 1];
    if k < |init| {
      assert init[k] == segs[k];
      AllTicketsMember(init, k, x);
    }
  }

  lemma {:induction false} AllTicketsFrom(segs: seq<string>, x: string)
    requires x in AllTickets(segs)
    ensures exists k :: 0 <= k < |segs| && x in SegmentTickets(segs[k])
  {
    var init := segs[..|segs| - 1];
    if x !in SegmentTickets(segs[|segs| - 1]) {
      AllTicketsFrom(init, x);
      var k :| 0 <= k < |init| && x in SegmentTickets(init[k]);
      assert segs[k] == init[k];
    }
  }

  /** The purchased set holds no duplicate, holds exactly the tickets some
      segment generates, and is never larger than the ticket count. */
  lemma {:induction false} PurchasedSpec(text: string, x: string)
    ensures NoDups(Purchased(text))
    ensures x in Purchased(text) <==>
            exists k :: 0 <= k < |Segments(text)| && x in SegmentTickets(Segments(text)[k])
    ensures |Purchased(text)| <= TicketCount(text)
  {
    DedupSpec(AllTickets(Segments(text)));
    AllTicketsIn(Segments(text), x);
    CountAllTickets(Segments(text));
  }

  /** A segment without a hyphen adds itself and counts one ticket. */
  lemma {:induction false} SingleSegment(seg: string)
    requires seg != [] && IsTrimmed(seg) && '-' !in seg
    ensures SegmentTickets(seg) == [seg] && SegmentCount(seg) == 1
  {
    SplitNoSep(seg, '-');
    TrimmedFixed(seg);
  }

  /** A segment with exactly one hyphen is the range from the left endpoint
      to the right one, in the left endpoint's prefix and suffix and padded to
      the wider endpoint (`RangeTicketsAll` numbers its positions); it counts
      `to - from + 1` when `to >= from` and 0 otherwise. */
  lemma {:induction false} RangeSegment(a: string, b: string)
    requires '-' !in a && '-' !in b
    ensures var from := ParseTicket(Trim(a));
            var to := ParseTicket(Trim(b));
            && SegmentTickets(a + "-" + b) == RangeTickets(from.prefix, from.numericPart, to.numericPart, Max(from.padding, to.padding), from.suffix)
            && SegmentCount(a + "-" + b) == (if to.numericPart >= from.numericPart then to.numericPart - from.numericPart + 1 else 0)
  {
    PartsOfRange(a, b);
  }

  /** A segment with two or more hyphens adds nothing. */
  lemma {:induction false} ManyHyphens(a: string, b: string, c: string)
    requires '-' !in a
    ensures SegmentTickets(a + "-" + b + "-" + c) == [] && SegmentCount(a + "-" + b + "-" + c) == 0
  {
    SplitAppend(a, b + "-" + c, '-');
    SplitHasSep(b + "-" + c, '-');
    assert a + "-" + b + "-" + c == a + ['-'] + (b + "-" + c);
  }

  /** The two sides of a single hyphen, trimmed. */
  lemma {:induction false} PartsOfRange(a: string, b: string)
    requires '-' !in a && '-' !in b
    ensures Parts(a + "-" + b) == [Trim(a), Trim(b)]
  {
    SplitAppend(a, b, '-');
    SplitNoSep(a, '-');
    SplitNoSep(b, '-');
    assert a + "-" + b == a + ['-'] + b;
  }

  /** A range whose endpoints hold no digit is not skipped: both ends parse
      to 0 and the segment adds the single all-zero ticket as wide as the
      wider endpoint, counting one. */
  lemma {:induction false} DigitFreeRange(a: string, b: string)
    requires a != [] && b != [] && IsTrimmed(a) && IsTrimmed(b)
    requires NoDigits(a) && NoDigits(b) && '-' !in a && '-' !in b
    ensures SegmentTickets(a + "-" + b) == [Repeat('0', Max(|a|, |b|))]
    ensures SegmentCount(a + "-" + b) == 1
  {
    PartsOfRange(a, b);
    TrimmedFixed(a);
    TrimmedFixed(b);
    assert Parts(a + "-" + b) == [a, b];
    var w := Max(|a|, |b|);
    ParseTicketSpec(a);
    ParseTicketSpec(b);
    assert ParseTicket(a) == Ticket("", 0, |a|, "");
    assert ParseTicket(b) == Ticket("", 0, |b|, "");
    assert SegmentCount(a + "-" + b) == 1;
    assert SegmentTickets(a + "-" + b) == RangeTickets("", 0, 0, w, "");
    assert RangeTickets("", 0, 0, w, "") == [FormatTicket("", 0, w, "")];
    assert NatToString(0) == ['0'];
    assert FormatTicket("", 0, w, "") == Repeat('0', w - 1) + ['0'];
    assert Repeat('0', w - 1) + ['0'] == Repeat('0', w);
  }

  /** `abc-xyz` adds the ticket `000` and counts one. */
  lemma {:induction false} DigitFreeExample()
    ensures SegmentTickets("abc-xyz") == ["000"] && SegmentCount("abc-xyz") == 1
  {
    assert "abc-xyz" == "abc" + "-" + "xyz";
    DigitFreeRange("abc", "xyz");
    assert Repeat('0', 3) == "000";
  }

  // ---------------------------------------------------------------- segment order does not matter

  lemma {:induction false} NonEmptyAppend(a: seq<string>, b: seq<string>)
    ensures NonEmpty(a + b) == NonEmpty(a) + NonEmpty(b)
    decreases |b|
  {
    if b == [] {
      assert a + b == a;
    } else {
      NonEmptyAppend(a, b[..|b| - 1]);
      assert (a + b)[..|a + b| - 1] == a + b[..|b| - 1];
    }
  }

  lemma {:induction false} SegmentsAppend(x: string, y: string)
    ensures Segments(x + "," + y) == Segments(x) + Segments(y)
  {
    assert x + "," + y == x + [','] + y;
    SplitAppend(x, y, ',');
    MapTrimAppend(Split(x, ','), Split(y, ','));
    NonEmptyAppend(MapTrim(Split(x, ',')), MapTrim(Split(y, ',')));
  }

  lemma {:induction false} MapTrimAppend(a: seq<string>, b: seq<string>)
    ensures MapTrim(a + b) == MapTrim(a) + MapTrim(b)
  {
    var l, r := MapTrim(a + b), MapTrim(a) + MapTrim(b);
    forall i | 0 <= i < |l| ensures l[i] == r[i] {
      if i < |a| {
        assert (a + b)[i] == a[i];
      } else {
        assert (a + b)[i] == b[i - |a|];
      }
    }
  }

  lemma {:induction false} AllTicketsAppend(a: seq<string>, b: seq<string>)
    ensures AllTickets(a + b) == AllTickets(a) + AllTickets(b)
    decreases |b|
  {
    if b == [] {
      assert a + b == a;
    } else {
      var init, x := b[..|b| - 1], b[|b| - 1];
      AllTicketsAppend(a, init);
      AppendLast(a, b);
      AllTicketsSnoc(a + init, x);
      AllTicketsSnoc(init, x);
      AppendAssoc(AllTickets(a), AllTickets(init), SegmentTickets(x));
    }
  }

  lemma {:induction false} AllTicketsSnoc(segs: seq<string>, x: string)
    ensures AllTickets(segs + [x]) == AllTickets(segs) + SegmentTickets(x)
  {
    assert (segs + [x])[..|segs|] == segs;
  }

  lemma {:induction false} CountOfAppend(a: seq<string>, b: seq<string>)
    ensures CountOf(a + b) == CountOf(a) + CountOf(b)
    decreases |b|
  {
    if b == [] {
      assert a + b == a;
    } else {
      CountOfAppend(a, b[..|b| - 1]);
      assert (a + b)[..|a + b| - 1] == a + b[..|b| - 1];
    }
  }

  /** Expansion does not depend on the order of the segments: `x,y` and
      `y,x` purchase the same tickets and count the same number. */
  lemma {:induction false} ExpandOrderIndependent(x: string, y: string, t: string)
    ensures t in Purchased(x + "," + y) <==> t in Purchased(y + "," + x)
    ensures TicketCount(x + "," + y) == TicketCount(y + "," + x)
  {
    SegmentsAppend(x, y);
    SegmentsAppend(y, x);
    AllTicketsAppend(Segments(x), Segments(y));
    AllTicketsAppend(Segments(y), Segments(x));
    CountOfAppend(Segments(x), Segments(y));
    CountOfAppend(Segments(y), Segments(x));
    DedupSpec(AllTickets(Segments(x + "," + y)));
    DedupSpec(AllTickets(Segments(y + "," + x)));
  }

  // ---------------------------------------------------------------- the count-only copy

  /** The count-only loop of `calculateCustomerSummary`, which applies the same
      rules: a customer's recounted tickets equal the count of `updateRowData`. */
  method RecountTickets(purchaseRanges: string) returns (numberOfTickets: nat)
    ensures numberOfTickets == TicketCount(purchaseRanges)
  {
    numberOfTickets := RecountSegments(Segments(purchaseRanges));
  }

  method RecountSegments(purchaseRangesList: seq<string>) returns (numberOfTickets: nat)
    ensures numberOfTickets == CountOf(purchaseRangesList)
  {
    numberOfTickets := 0;
    var k := 0;
    while k < |purchaseRangesList|
      invariant 0 <= k <= |purchaseRangesList|
      invariant numberOfTickets == CountOf(purchaseRangesList[..k])
    {
      CountStep(purchaseRangesList, k);
      var parts := Parts(purchaseRangesList[k]);
      if |parts| == 2 {
        var parsedFrom := ParseTicket(parts[0]);
        var parsedTo := ParseTicket(parts[1]);
        if parsedTo.numericPart >= parsedFrom.numericPart {
          numberOfTickets := numberOfTickets + (parsedTo.numericPart - parsedFrom.numericPart + 1);
        }
      } else if |parts| == 1 {
        numberOfTickets := numberOfTickets + 1;
      }
      k := k + 1;
    }
    assert purchaseRangesList[..k] == purchaseRangesList;
  }

  // ---------------------------------------------------------------- the ticket search copy

  /** What a segment adds to the purchased set of the ticket search: the same
      as `SegmentTickets`, except that a range is padded to the left
      endpoint's width only. */
  function SearchSegmentTickets(seg: string): seq<string> {
    var parts := Parts(seg);
    if |parts| == 2 then
      var from := ParseTicket(parts[0]);
      var to := ParseTicket(parts[1]);
      RangeTickets(from.prefix, from.numericPart, to.numericPart, from.padding, from.suffix)
    else if |parts| == 1 then [parts[0]]
    else []
  }

  function SearchAllTickets(segs: seq<string>): seq<string> {
    if segs == [] then [] else SearchAllTickets(segs[..|segs| - 1]) + SearchSegmentTickets(segs[|segs| - 1])
  }

  function SearchPurchased(text: string): seq<string> {
    Dedup(SearchAllTickets(Segments(text)))
  }

  /** The purchase-set loop of the ticket search. */
  method SearchPurchaseSet(purchaseRanges: string) returns (purchaseSet: seq<string>)
    ensures purchaseSet == SearchPurchased(purchaseRanges)
  {
    purchaseSet := SearchSegments(Segments(purchaseRanges));
  }

  method SearchSegments(segs: seq<string>) returns (purchaseSet: seq<string>)
    ensures purchaseSet == Dedup(SearchAllTickets(segs))
  {
    purchaseSet := [];
    var k := 0;
    while k < |segs|
      invariant 0 <= k <= |segs|
      invariant purchaseSet == AddAll([], SearchAllTickets(segs[..k]))
    {
      purchaseSet := SearchSegment(segs[k], purchaseSet);
      AddAllAppend([], SearchAllTickets(segs[..k]), SearchSegmentTickets(segs[k]));
      assert segs[..k + 1][..k] == segs[..k];
      k := k + 1;
    }
    assert segs[..k] == segs;
  }

  /** The search's loop body for one segment. */
  method SearchSegment(range: string, purchaseSet: seq<string>) returns (newSet: seq<string>)
    ensures newSet == AddAll(purchaseSet, SearchSegmentTickets(range))
  {
    newSet := purchaseSet;
    var parts := Parts(range);
    if |parts| == 2 {
      var parsedFrom := ParseTicket(parts[0]);
      var parsedTo := ParseTicket(parts[1]);
      var numericFrom := parsedFrom.numericPart;
      var numericTo := parsedTo.numericPart;
      assert SearchSegmentTickets(range) == RangeTickets(parsedFrom.prefix, numericFrom, numericTo, parsedFrom.padding, parsedFrom.suffix);
      if numericTo >= numericFrom {
        newSet := AddRange(purchaseSet, parsedFrom.prefix, numericFrom, numericTo, parsedFrom.padding, parsedFrom.suffix);
      }
    } else if |parts| == 1 {
      assert SearchSegmentTickets(range) == [parts[0]];
      AddAllOne(purchaseSet, parts[0]);
      newSet := SetAdd(newSet, parts[0]);
    } else {
      assert SearchSegmentTickets(range) == [];
    }
  }

  /** Where the left endpoint is at least as wide as the right one, the search
      sees the same tickets as `updateRowData`. */
  lemma {:induction false} SearchAgreesWhenLeftWider(seg: string)
    requires |Parts(seg)| == 2 ==> ParseTicket(Parts(seg)[0]).padding >= ParseTicket(Parts(seg)[1]).padding
    ensures SearchSegmentTickets(seg) == SegmentTickets(seg)
  {
  }

  /** ... and where the right endpoint is wider, they differ: `8-12` purchases
      `08` in `updateRowData` but `8` in the search. */
  lemma {:induction false} SearchDiffersOnWiderRight()
    ensures |SegmentTickets("8-12")| == 5 && SegmentTickets("8-12")[0] == "08"
    ensures |SearchSegmentTickets("8-12")| == 5 && SearchSegmentTickets("8-12")[0] == "8"
  {
    EightToTwelve();
    EightToTwelveFirst();
  }

  lemma {:induction false} EightToTwelveFirst()
    ensures |RangeTickets("", 8, 12, 2, "")| == 5 && RangeTickets("", 8, 12, 2, "")[0] == "08"
    ensures |RangeTickets("", 8, 12, 1, "")| == 5 && RangeTickets("", 8, 12, 1, "")[0] == "8"
  {
    RangeTicketsAt("", 8, 12, 2, "", 0);
    RangeTicketsAt("", 8, 12, 1, "", 0);
    EightFormatted();
  }

  lemma {:induction false} EightFormatted()
    ensures FormatTicket("", 8, 2, "") == "08" && FormatTicket("", 8, 1, "") == "8"
  {
    assert NatToString(8) == "8";
  }

  lemma {:induction false} EightToTwelve()
    ensures SegmentTickets("8-12") == RangeTickets("", 8, 12, 2, "")
    ensures SearchSegmentTickets("8-12") == RangeTickets("", 8, 12, 1, "")
  {
    EightToTwelveParts();
    EightAndTwelveParsed();
  }

  lemma {:induction false} EightToTwelveParts()
    ensures Parts("8-12") == ["8", "12"]
  {
    assert "8-12" == "8" + "-" + "12";
    PartsOfRange("8", "12");
    EightTwelveTrimmed();
  }

  lemma {:induction false} EightTwelveTrimmed()
    ensures Trim("8") == "8" && Trim("12") == "12"
  {
    TrimmedFixed("8");
    TrimmedFixed("12");
  }

  lemma {:induction false} EightAndTwelveParsed()
    ensures ParseTicket("8") == Ticket("", 8, 1, "")
    ensures ParseTicket("12") == Ticket("", 12, 2, "")
  {
    ParseDigitsOnly("8");
    ParseDigitsOnly("12");
    assert DigitsValue("8") == 8 && DigitsValue("12") == 12;
  }
}
