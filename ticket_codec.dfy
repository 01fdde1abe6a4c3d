/** The ticket identifier codec: a ticket string is split into a prefix, the
    value of its last run of digits, the width of that run (its padding) and
    the non-digit suffix, and the four parts are joined back by zero-padding
    the value to the width. */
module TicketCodec {
  import opened JsText

  datatype Ticket = Ticket(prefix: string, numericPart: int, padding: nat, suffix: string)

  /** How many non-digit characters end `s`. */
  function TrailingNonDigits(s: string): (n: nat)
    ensures n <= |s| && forall i :: |s| - n <= i < |s| ==> !IsDigit(s[i])
    ensures n < |s| ==> IsDigit(s[|s| - n - 1])
  {
    if s == [] || IsDigit(s[|s| - 1]) then 0 else 1 + TrailingNonDigits(s[..|s| - 1])
  }

  /** How many digits end `s`. */
  function TrailingDigits(s: string): (n: nat)
    ensures n <= |s| && forall i :: |s| - n <= i < |s| ==> IsDigit(s[i])
    ensures n < |s| ==> !IsDigit(s[|s| - n - 1])
  {
    if s == [] || !IsDigit(s[|s| - 1]) then 0 else 1 + TrailingDigits(s[..|s| - 1])
  }

  /** Just past the last digit of `s`. */
  function LastRunEnd(s: string): nat {
    |s| - TrailingNonDigits(s)
  }

  /** The start of the maximal run of digits that ends at `LastRunEnd(s)`. */
  function LastRunStart(s: string): nat {
    LastRunEnd(s) - TrailingDigits(s[..LastRunEnd(s)])
  }

  /** The regular expression `/^(.*?)(\d+)(\D*)$/` matches `s`: there is a
      digit, and `.` can cover everything before the last run of digits
      (it does not match a line terminator). */
  predicate PatternMatches(s: string) {
    !NoDigits(s) && NoLineTerminator(s[..LastRunStart(s)])
  }

  /** `t` describes `s` as the pattern does: `s` is `t.prefix`, then a
      non-empty run of `t.padding` digits whose value is `t.numericPart`,
      then `t.suffix`; the suffix holds no digit and the prefix does not end
      in a digit (so the run is the last maximal one) nor hold a line terminator. */
  ghost predicate Decomposes(s: string, t: Ticket) {
    && |t.prefix| + t.padding + |t.suffix| == |s|
    && t.padding >= 1
    && s[..|t.prefix|] == t.prefix
    && s[|s| - |t.suffix|..] == t.suffix
    && AllDigits(s[|t.prefix|..|t.prefix| + t.padding])
    && t.numericPart == DigitsValue(s[|t.prefix|..|t.prefix| + t.padding])
    && NoDigits(t.suffix)
    && (t.prefix == [] || !IsDigit(t.prefix[|t.prefix| - 1]))
    && NoLineTerminator(t.prefix)
  }

  /** `parseAlphanumericTicket`. When the pattern does not match, the whole
      string is the padding and `parseInt(s, 10)`, or 0 for `NaN`, the value. */
  function ParseTicket(s: string): Ticket {
    if PatternMatches(s) then
      var e := LastRunEnd(s);
      var b := LastRunStart(s);
      Ticket(s[..b], DigitsValue(s[b..e]), e - b, s[e..])
    else
      Ticket("", ParseIntOrZero(s), |s|, "")
  }

  /** What the parse finds: the prefix, the last run of digits with its value
      and width, and the digit-free suffix; a ticket without digits is all
      padding around the value 0. */
  lemma {:induction false} ParseTicketSpec(s: string)
    ensures PatternMatches(s) ==> Decomposes(s, ParseTicket(s))
    ensures NoDigits(s) ==> ParseTicket(s) == Ticket("", 0, |s|, "")
  {
    if PatternMatches(s) {
      var e := LastRunEnd(s);
      var b := LastRunStart(s);
      assert s[..e][e - (e - b)..] == s[b..e];
      assert b > 0 ==> s[b - 1] == s[..e][e - (e - b) - 1];
    } else if NoDigits(s) {
      ParseIntNoDigits(s);
    }
  }

  /** `formatAlphanumericTicket`: `String(num)` zero-padded to `padding` characters, between the prefix and the suffix. */
  function FormatTicket(prefix: string, num: int, padding: nat, suffix: string): string {
    prefix + PadStart(IntToString(num), padding, '0') + suffix
  }

  /** The formatted ticket keeps the prefix and the suffix, ends its middle in
      `String(num)`, and is as wide as the padding asks unless the number needs more. */
  lemma {:induction false} FormatTicketSpec(prefix: string, num: int, padding: nat, suffix: string)
    ensures var r := FormatTicket(prefix, num, padding, suffix);
            && |r| == |prefix| + (if padding <= |IntToString(num)| then |IntToString(num)| else padding) + |suffix|
            && r[..|prefix|] == prefix && r[|r| - |suffix|..] == suffix
            && EndsWith(r[..|r| - |suffix|], IntToString(num))
  {
    var r := FormatTicket(prefix, num, padding, suffix);
    assert r[..|r| - |suffix|] == prefix + PadStart(IntToString(num), padding, '0');
  }

  function Format(t: Ticket): string {
    FormatTicket(t.prefix, t.numericPart, t.padding, t.suffix)
  }

  /** The decomposition the pattern finds is the only one: any split of `s`
      into a prefix not ending in a digit, a non-empty run of digits and a
      digit-free suffix puts the run where `LastRunStart` and `LastRunEnd` say. */
  lemma {:induction false} DecompositionUnique(s: string, p: string, ds: string, x: string)
    requires s == p + ds + x
    requires |ds| >= 1 && AllDigits(ds) && NoDigits(x)
    requires p == [] || !IsDigit(p[|p| - 1])
    ensures !NoDigits(s)
    ensures LastRunEnd(s) == |p| + |ds| && LastRunStart(s) == |p|
  {
    assert s[|p|] == ds[0];
    var e := LastRunEnd(s);
    assert s[|p| + |ds| - 1] == ds[|ds| - 1];
    assert e == |p| + |ds|;
    assert s[..e] == p + ds;
    TrailingDigitsRun(p, ds);
  }

  /** A run of digits after a prefix that does not end in a digit is counted exactly. */
  lemma {:induction false} TrailingDigitsRun(p: string, ds: string)
    requires AllDigits(ds)
    requires p == [] || !IsDigit(p[|p| - 1])
    ensures TrailingDigits(p + ds) == |ds|
  {
    if ds == [] {
      assert p + ds == p;
    } else {
      TrailingDigitsRun(p, ds[..|ds| - 1]);
      assert (p + ds)[..|p + ds| - 1] == p + ds[..|ds| - 1];
    }
  }

  /** Parsing a string the pattern matches and formatting the parts gives the string back. */
  lemma {:induction false} FormatParse(s: string)
    requires PatternMatches(s)
    ensures Format(ParseTicket(s)) == s
  {
    var e := LastRunEnd(s);
    var b := LastRunStart(s);
    var ds := s[b..e];
    assert AllDigits(ds) by {
      assert forall k :: b <= k < e ==> s[..e][k] == s[k];
    }
    assert ParseTicket(s) == Ticket(s[..b], DigitsValue(ds), e - b, s[e..]);
    PaddedDigits(ds);
    Slices3(s, b, e);
  }

  lemma {:induction false} Slices3(s: string, i: nat, j: nat)
    requires i <= j <= |s|
    ensures s == s[..i] + s[i..j] + s[j..]
  {
  }

  /** Formatting a prefix, a value and a suffix of one family and parsing the
      result gives the parts back, with the padding widened to the digits of the
      value when they do not fit. */
  lemma {:induction false} ParseFormat(prefix: string, num: nat, padding: nat, suffix: string)
    requires NoLineTerminator(prefix) && (prefix == [] || !IsDigit(prefix[|prefix| - 1]))
    requires NoDigits(suffix)
    ensures var w := if padding <= |NatToString(num)| then |NatToString(num)| else padding;
            ParseTicket(FormatTicket(prefix, num, padding, suffix)) == Ticket(prefix, num, w, suffix)
  {
    var ds := PadStart(NatToString(num), padding, '0');
    var s := FormatTicket(prefix, num, padding, suffix);
    var b, e := |prefix|, |prefix| + |ds|;
    assert AllDigits(ds) && DigitsValue(ds) == num by {
      PaddedValue(num, padding);
    }
    assert LastRunStart(s) == b && LastRunEnd(s) == e by {
      DecompositionUnique(s, prefix, ds, suffix);
    }
    assert s[..b] == prefix && s[b..e] == ds && s[e..] == suffix by {
      PartsOf3(prefix, ds, suffix);
    }
    assert PatternMatches(s);
  }

  /** The three pieces of a concatenation, sliced back out. */
  lemma {:induction false} PartsOf3(p: string, m: string, x: string)
    ensures var s := p + m + x;
            s[..|p|] == p && s[|p|..|p| + |m|] == m && s[|p| + |m|..] == x
  {
  }

  /** Formatting after parsing is stable: parsing the formatted ticket gives
      the same parts, for any ticket the pattern matches or any non-empty
      ticket without digits. */
  lemma {:induction false} ParseFormatParse(s: string)
    requires PatternMatches(s) || (NoDigits(s) && s != [])
    ensures ParseTicket(Format(ParseTicket(s))) == ParseTicket(s)
  {
    ParseTicketSpec(s);
    if PatternMatches(s) {
      FormatParse(s);
    } else {
      ParseFormat("", 0, |s|, "");
    }
  }

  /** A ticket without digits formats as zeros, one per character. */
  lemma {:induction false} DigitFreeFormat(s: string)
    requires NoDigits(s) && s != []
    ensures Format(ParseTicket(s)) == Repeat('0', |s|)
  {
    ParseTicketSpec(s);
    assert NatToString(0) == ['0'];
    assert Repeat('0', |s| - 1) + ['0'] == Repeat('0', |s|);
  }

  /** A ticket made of digits only has an empty prefix and suffix, and its
      width as padding. */
  lemma {:induction false} ParseDigitsOnly(ds: string)
    requires ds != [] && AllDigits(ds)
    ensures ParseTicket(ds) == Ticket("", DigitsValue(ds), |ds|, "")
  {
    DigitsOnlyRun(ds);
    ParseMatched(ds);
    assert ds[..0] == "" && ds[0..|ds|] == ds && ds[|ds|..] == "";
  }

  /** In a string of digits only, the last run is the whole string. */
  lemma {:induction false} DigitsOnlyRun(ds: string)
    requires ds != [] && AllDigits(ds)
    ensures PatternMatches(ds) && LastRunStart(ds) == 0 && LastRunEnd(ds) == |ds|
  {
    assert ds == "" + ds + "";
    DecompositionUnique(ds, "", ds, "");
    assert ds[..0] == "";
  }

  lemma {:induction false} ParseMatched(s: string)
    requires PatternMatches(s)
    ensures ParseTicket(s) == Ticket(s[..LastRunStart(s)], DigitsValue(s[LastRunStart(s)..LastRunEnd(s)]),
                                     LastRunEnd(s) - LastRunStart(s), s[LastRunEnd(s)..])
  {
  }
}
