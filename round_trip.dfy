/** The purchase-text expansion of `updateRowData` and `compressNumberList`
    taken together: a range written in one ticket family expands to its
    tickets, and those tickets compress back to the range they came from. */
module RoundTrip {
  import opened JsText
  import opened Ordered
  import opened TicketCodec
  import opened RangeExpansion
  import opened Compression

  /** A prefix and a suffix that keep a formatted ticket one trimmed range
      endpoint: the prefix neither ends in a digit nor breaks the pattern's
      `.*`, the suffix holds no digit, neither holds a hyphen or a comma, and
      neither puts white space at the ticket's outer ends. */
  predicate PlainFamily(prefix: string, suffix: string) {
    && NoLineTerminator(prefix) && NoDigits(suffix)
    && (prefix == [] || (!IsDigit(prefix[|prefix| - 1]) && !IsJsSpace(prefix[0])))
    && (suffix == [] || !IsJsSpace(suffix[|suffix| - 1]))
    && '-' !in prefix && ',' !in prefix && '-' !in suffix && ',' !in suffix
  }

  /** The number needs no more digits than the padding gives it. */
  predicate Fits(num: nat, padding: nat) {
    |NatToString(num)| <= padding
  }

  // ---------------------------------------------------------------- one formatted endpoint

  /** A formatted ticket of a plain family is a non-empty, trimmed string
      without hyphen or comma. */
  lemma {:induction false} PlainTicket(prefix: string, num: nat, padding: nat, suffix: string)
    requires PlainFamily(prefix, suffix)
    ensures var t := FormatTicket(prefix, num, padding, suffix);
            && t != [] && !IsJsSpace(t[0]) && !IsJsSpace(t[|t| - 1])
            && '-' !in t && ',' !in t
  {
    var ds := PadStart(NatToString(num), padding, '0');
    var t := FormatTicket(prefix, num, padding, suffix);
    PlainDigits(num, padding);
    assert t == prefix + ds + suffix;
    if prefix == [] {
      assert t[0] == ds[0];
    } else {
      assert t[0] == prefix[0];
    }
    if suffix == [] {
      assert t[|t| - 1] == ds[|ds| - 1];
    } else {
      assert t[|t| - 1] == suffix[|suffix| - 1];
    }
  }

  /** The padded digits of a number are a non-empty run of digits, so they
      hold no white space, hyphen or comma. */
  lemma {:induction false} PlainDigits(num: nat, padding: nat)
    ensures var ds := PadStart(NatToString(num), padding, '0');
            && |ds| >= 1 && !IsJsSpace(ds[0]) && !IsJsSpace(ds[|ds| - 1])
            && '-' !in ds && ',' !in ds
  {
    var ds := PadStart(NatToString(num), padding, '0');
    PaddedValue(num, padding);
    assert IsDigit(ds[0]) && IsDigit(ds[|ds| - 1]);
    forall i | 0 <= i < |ds| ensures ds[i] != '-' && ds[i] != ',' {
      assert IsDigit(ds[i]);
    }
  }

  // ---------------------------------------------------------------- expansion

  /** A comma-free, trimmed, non-empty text is one segment. */
  lemma {:induction false} OneSegment(text: string)
    requires ',' !in text && text != [] && IsTrimmed(text)
    ensures Segments(text) == [text]
  {
    SplitNoSep(text, ',');
    TrimmedFixed(text);
    assert MapTrim([text]) == [text];
    assert [text][..0] == [];
    assert NonEmpty([text]) == NonEmpty([]) + [text];
  }

  /** `a-b` in a plain family, with both numbers fitting the padding, expands
      to the tickets numbered `a` to `b`, in ascending order. */
  lemma {:induction false} ExpandedRange(prefix: string, a: nat, b: nat, padding: nat, suffix: string)
    requires PlainFamily(prefix, suffix) && a <= b && Fits(a, padding) && Fits(b, padding)
    ensures var text := FormatTicket(prefix, a, padding, suffix) + "-" + FormatTicket(prefix, b, padding, suffix);
            Purchased(text) == RangeTickets(prefix, a, b, padding, suffix)
  {
    var text := FormatTicket(prefix, a, padding, suffix) + "-" + FormatTicket(prefix, b, padding, suffix);
    RangeText(prefix, a, b, padding, suffix);
    assert [text][..0] == [];
    assert AllTickets([text]) == SegmentTickets(text);
    RangeDistinct(prefix, a, b, padding, suffix);
    DedupSpec(RangeTickets(prefix, a, b, padding, suffix));
  }

  /** `a-b` in a plain family is one segment, listing the tickets `a` to `b`. */
  lemma {:induction false} RangeText(prefix: string, a: nat, b: nat, padding: nat, suffix: string)
    requires PlainFamily(prefix, suffix) && Fits(a, padding) && Fits(b, padding)
    ensures var text := FormatTicket(prefix, a, padding, suffix) + "-" + FormatTicket(prefix, b, padding, suffix);
            && Segments(text) == [text]
            && SegmentTickets(text) == RangeTickets(prefix, a, b, padding, suffix)
  {
    var lo := FormatTicket(prefix, a, padding, suffix);
    var hi := FormatTicket(prefix, b, padding, suffix);
    PlainTicket(prefix, a, padding, suffix);
    PlainTicket(prefix, b, padding, suffix);
    OneRange(lo, hi);
    TrimmedFixed(lo);
    TrimmedFixed(hi);
    RangeSegment(lo, hi);
    ParseFormat(prefix, a, padding, suffix);
    ParseFormat(prefix, b, padding, suffix);
  }

  /** Two trimmed, comma-free, non-empty endpoints joined by a hyphen are one segment. */
  lemma {:induction false} OneRange(lo: string, hi: string)
    requires lo != [] && !IsJsSpace(lo[0]) && ',' !in lo
    requires hi != [] && !IsJsSpace(hi[|hi| - 1]) && ',' !in hi
    ensures Segments(lo + "-" + hi) == [lo + "-" + hi]
  {
    var text := lo + "-" + hi;
    assert text[0] == lo[0] && text[|text| - 1] == hi[|hi| - 1];
    OneSegment(text);
  }

  /** A formatted ticket of a plain family parses back to its number. */
  lemma {:induction false} ParsedNumber(prefix: string, num: nat, padding: nat, suffix: string)
    requires PlainFamily(prefix, suffix)
    ensures ParseTicket(FormatTicket(prefix, num, padding, suffix)).numericPart == num
  {
    ParseFormat(prefix, num, padding, suffix);
  }

  /** Strings whose parsed numbers are `a`, `a + 1`, ... in order. */
  predicate NumberedFrom(r: seq<string>, a: int) {
    forall i :: 0 <= i < |r| ==> ParseTicket(r[i]).numericPart == a + i
  }

  /** The tickets of a range in a plain family parse to the numbers of the range. */
  lemma {:induction false} RangeNumbered(prefix: string, a: nat, b: nat, padding: nat, suffix: string)
    requires PlainFamily(prefix, suffix)
    ensures NumberedFrom(RangeTickets(prefix, a, b, padding, suffix), a)
  {
    var r := RangeTickets(prefix, a, b, padding, suffix);
    RangeTicketsAll(prefix, a, b, padding, suffix);
    forall i | 0 <= i < |r| ensures ParseTicket(r[i]).numericPart == a + i {
      ParsedNumberOf(r[i], prefix, a + i, padding, suffix);
    }
  }

  /** A string that is a formatted ticket of a plain family parses to its number. */
  lemma {:induction false} ParsedNumberOf(t: string, prefix: string, num: nat, padding: nat, suffix: string)
    requires PlainFamily(prefix, suffix) && t == FormatTicket(prefix, num, padding, suffix)
    ensures ParseTicket(t).numericPart == num
  {
    ParsedNumber(prefix, num, padding, suffix);
  }

  /** Strings numbered consecutively are pairwise distinct. */
  lemma {:induction false} NumberedDistinct(r: seq<string>, a: int)
    requires NumberedFrom(r, a)
    ensures NoDups(r)
  {
    forall i, j | 0 <= i < j < |r| ensures r[i] != r[j] {
      assert ParseTicket(r[i]).numericPart != ParseTicket(r[j]).numericPart;
    }
  }

  /** The tickets of a range in a plain family are pairwise distinct. */
  lemma {:induction false} RangeDistinct(prefix: string, a: nat, b: nat, padding: nat, suffix: string)
    requires PlainFamily(prefix, suffix)
    ensures NoDups(RangeTickets(prefix, a, b, padding, suffix))
  {
    RangeNumbered(prefix, a, b, padding, suffix);
    NumberedDistinct(RangeTickets(prefix, a, b, padding, suffix), a);
  }

  /** The first ticket of a range whose left number fits the padding parses
      back to that number in the family itself. */
  lemma {:induction false} RangeFirst(prefix: string, a: nat, b: nat, padding: nat, suffix: string)
    requires PlainFamily(prefix, suffix) && a <= b && Fits(a, padding)
    ensures ParseTicket(RangeTickets(prefix, a, b, padding, suffix)[0]) == Ticket(prefix, a, padding, suffix)
  {
    RangeHead(prefix, a, b, padding, suffix);
    ParsedFitting(prefix, a, padding, suffix);
  }

  /** A non-empty range starts with the ticket of its left number. */
  lemma {:induction false} RangeHead(prefix: string, lo: int, hi: int, padding: nat, suffix: string)
    requires lo <= hi
    ensures RangeTickets(prefix, lo, hi, padding, suffix)[0] == FormatTicket(prefix, lo, padding, suffix)
    decreases hi - lo
  {
    if lo < hi {
      RangeHead(prefix, lo, hi - 1, padding, suffix);
    } else {
      assert RangeTickets(prefix, lo, hi - 1, padding, suffix) == [];
    }
  }

  /** A formatted ticket of a plain family whose number fits the padding
      parses back to exactly its prefix, number, padding and suffix. */
  lemma {:induction false} ParsedFitting(prefix: string, num: nat, padding: nat, suffix: string)
    requires PlainFamily(prefix, suffix) && Fits(num, padding)
    ensures ParseTicket(FormatTicket(prefix, num, padding, suffix)) == Ticket(prefix, num, padding, suffix)
  {
    ParseFormat(prefix, num, padding, suffix);
  }

  // ---------------------------------------------------------------- compression

  /** The k-th number of `lo..hi` is `lo + k`. */
  lemma {:induction false} IntervalAt(lo: int, hi: int, k: nat)
    requires lo + k <= hi
    ensures Interval(lo, hi)[k] == lo + k
    decreases hi - lo
  {
    if lo + k < hi {
      IntervalAt(lo, hi - 1, k);
    }
  }

  /** The walk over `lo..hi` keeps one open run from `lo` to `hi` and closes none. */
  lemma {:induction false} WalkInterval(lo: int, hi: int)
    requires lo <= hi
    ensures Walk(Interval(lo, hi)) == WalkState([], Run(lo, hi))
    decreases hi - lo
  {
    var nums := Interval(lo, hi);
    if lo == hi {
      assert Interval(lo, hi - 1) == [];
      assert nums == [lo];
    } else {
      assert nums[..|nums| - 1] == Interval(lo, hi - 1);
      WalkInterval(lo, hi - 1);
    }
  }

  /** Consecutive numbers form exactly one run. */
  lemma {:induction false} RunsInterval(lo: int, hi: int)
    requires lo <= hi
    ensures Runs(Interval(lo, hi)) == [Run(lo, hi)]
  {
    WalkInterval(lo, hi);
  }

  /** Strings numbered `a..b` have the keys `a..b`. */
  lemma {:induction false} NumberedKeys(r: seq<string>, a: int, b: int)
    requires NumberedFrom(r, a) && a <= b && |r| == b - a + 1
    ensures Keys(ParseAll(r)) == Interval(a, b)
  {
    var ks := Keys(ParseAll(r));
    var nums := Interval(a, b);
    forall k | 0 <= k < |ks| ensures ks[k] == nums[k] {
      IntervalAt(a, b, k);
    }
  }

  /** The tickets of `a..b` in a plain family compress to one label for the
      run from `a` to `b`, written in that family. */
  lemma {:induction false} CompressedRange(prefix: string, a: nat, b: nat, padding: nat, suffix: string)
    requires PlainFamily(prefix, suffix) && a <= b && Fits(a, padding)
    ensures Compressed(RangeTickets(prefix, a, b, padding, suffix)) == [RunLabel(Ticket(prefix, a, padding, suffix), Run(a, b))]
  {
    var r := RangeTickets(prefix, a, b, padding, suffix);
    var family := Ticket(prefix, a, padding, suffix);
    RangeNumbered(prefix, a, b, padding, suffix);
    NumberedKeys(r, a, b);
    RangeFirst(prefix, a, b, padding, suffix);
    assert SortedByNumber(ParseAll(r)) by {
      forall i, j | 0 <= i < j < |r| ensures ParseAll(r)[i].numericPart <= ParseAll(r)[j].numericPart {
        IntervalAt(a, b, i);
        IntervalAt(a, b, j);
      }
    }
    CompressedSorted(r);
    RunsInterval(a, b);
    LabelAt(family, [Run(a, b)], 0);
  }

  // ---------------------------------------------------------------- the round trip

  /** A range `a-b` written in a plain family, both numbers fitting its
      padding, comes back from expansion and compression as itself when
      `a < b`, and as the single ticket `a` when `a == b`, because a run of
      one number is labelled without a hyphen. */
  lemma {:induction false} CompressExpandedRange(prefix: string, a: nat, b: nat, padding: nat, suffix: string)
    requires PlainFamily(prefix, suffix) && a <= b && Fits(a, padding) && Fits(b, padding)
    ensures var lo := FormatTicket(prefix, a, padding, suffix);
            var hi := FormatTicket(prefix, b, padding, suffix);
            && (a < b ==> Compressed(Purchased(lo + "-" + hi)) == [lo + "-" + hi])
            && (a == b ==> Compressed(Purchased(lo + "-" + hi)) == [lo])
  {
    ExpandedRange(prefix, a, b, padding, suffix);
    CompressedRange(prefix, a, b, padding, suffix);
  }

  /** `32180-32184` expands to five tickets that compress back to `32180-32184`. */
  lemma {:induction false} RoundTripExample()
    ensures Compressed(Purchased("32180-32184")) == ["32180-32184"]
  {
    Canonical32180();
    Canonical32184();
    assert FormatTicket("", 32180, 5, "") + "-" + FormatTicket("", 32184, 5, "") == "32180-32184";
    CompressExpandedRange("", 32180, 32184, 5, "");
  }
}
