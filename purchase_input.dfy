/** The string rewrite of `formatPurchaseInput`: as the purchase box is typed
    into, everything but digits, commas and hyphens is dropped, and runs of
    digits are cut into five-digit ticket ranges `aaaaa-bbbbb`. */
module PurchaseInput {
  import opened JsText
  import opened Ordered

  // ---------------------------------------------------------------- cleaning

  /** The characters `/[^0-9,-]/g` leaves in place. */
  predicate Allowed(c: char) {
    IsDigit(c) || c == ',' || c == '-'
  }

  predicate AllAllowed(s: string) {
    forall k :: 0 <= k < |s| ==> Allowed(s[k])
  }

  /** The input with every character other than a digit, a comma or a hyphen removed. */
  function Clean(s: string): (r: string)
    ensures AllAllowed(r) && |r| <= |s|
  {
    if s == [] then []
    else if Allowed(s[|s| - 1]) then Clean(s[..|s| - 1]) + [s[|s| - 1]]
    else Clean(s[..|s| - 1])
  }

  /** The digits of a string, in order. */
  function Digits(s: string): (r: string)
    ensures AllDigits(r) && |r| <= |s|
  {
    if s == [] then []
    else if IsDigit(s[|s| - 1]) then Digits(s[..|s| - 1]) + [s[|s| - 1]]
    else Digits(s[..|s| - 1])
  }

  /** Cleaning leaves an already clean value alone, and never loses a digit. */
  lemma {:induction false} CleanSpec(s: string)
    ensures AllAllowed(s) ==> Clean(s) == s
    ensures Digits(Clean(s)) == Digits(s)
  {
    if s != [] {
      var init := s[..|s| - 1];
      CleanSpec(init);
      assert s == init + [s[|s| - 1]];
      if Allowed(s[|s| - 1]) {
        assert (Clean(init) + [s[|s| - 1]])[..|Clean(init)|] == Clean(init);
      }
    }
  }

  // ---------------------------------------------------------------- the rewrite

  /** `s.substring(start, end)` for `start <= end`: both ends are clamped to
      the length. */
  function Substring(s: string, start: nat, end: nat): (r: string)
    requires start <= end
    ensures |r| <= end - start
  {
    var a := if start <= |s| then start else |s|;
    var b := if end <= |s| then end else |s|;
    s[a..b]
  }

  /** What one chunk of the ten-digit loop adds to `formattedRanges`: ten
      digits become a range, five digits at the very end become an open range
      `aaaaa-`, anything else non-empty stays as it is. */
  function ChunkPieces(chunk: string, isFinal: bool): seq<string> {
    if |chunk| == 10 then [chunk[..5] + "-" + chunk[5..]]
    else if |chunk| == 5 && isFinal then [chunk + "-"]
    else if |chunk| > 0 then [chunk]
    else []
  }

  /** The loop over ten-digit steps from `j` on, cutting `d`
      into chunks of ten. A chunk of five is always the one that reaches the
      end of `d`, so the two loops of the source, one of which also tests
      `j + 10 >= d.length`, agree. */
  function ChunksFrom(d: string, j: nat, last: bool): seq<string>
    decreases |d| - j
  {
    if j >= |d| then []
    else ChunkPieces(Substring(d, j, j + 10), j + 10 >= |d| && last) + ChunksFrom(d, j + 10, last)
  }

  /** What one comma-separated range adds to `formattedRanges`; `last` says
      whether it is the final range of the input. */
  function RangePieces(range: string, last: bool): seq<string> {
    if '-' in range then
      SplitHasSep(range, '-');
      var parts := Split(range, '-');
      var first := parts[0];
      var second := parts[1];
      if |first| == 5 && |second| >= 5 then
        if |second| == 5 then [first + "-" + second]
        else
          [first + "-" + second[..5]] + ExtraPieces(second[5..], last)
      else [range]
    else if |range| == 5 && last then [range + "-"]
    else if |range| == 10 then [range[..5] + "-" + range[5..]] + (if last then [""] else [])
    else if |range| > 10 then ChunksFrom(range, 0, last) + (if last && |range| % 10 == 0 then [""] else [])
    else [range]
  }

  /** What the digits typed past a complete range `aaaaa-bbbbb` add. */
  function ExtraPieces(extra: string, last: bool): seq<string> {
    if |extra| == 5 && last then [extra + "-"]
    else if |extra| >= 10 then ChunksFrom(extra, 0, last)
    else [extra]
  }

  /** `formattedRanges` once the first `n` ranges are done. */
  function Pieces(ranges: seq<string>, n: nat): seq<string>
    requires n <= |ranges|
  {
    if n == 0 then [] else Pieces(ranges, n - 1) + RangePieces(ranges[n - 1], n == |ranges|)
  }

  /** One comma at the very end goes. */
  function DropTrailingComma(s: string): string {
    if |s| > 0 && s[|s| - 1] == ',' then s[..|s| - 1] else s
  }

  /** The rewrite of a cleaned value. */
  function FormatValue(value: string): string {
    var ranges := Split(value, ',');
    DropTrailingComma(Join(Pieces(ranges, |ranges|), ","))
  }

  /** The new contents of the purchase box. */
  function FormatPurchaseInput(input: string): string {
    FormatValue(Clean(input))
  }

  // ---------------------------------------------------------------- the loops

  /** `formatPurchaseInput`, up to the new value it writes back to the box. */
  method FormatPurchaseValue(inputValue: string) returns (formattedValue: string)
    ensures formattedValue == FormatPurchaseInput(inputValue)
  {
    var value := Clean(inputValue);
    var ranges := Split(value, ',');
    var formattedRanges: seq<string> := [];
    for i := 0 to |ranges|
      invariant formattedRanges == Pieces(ranges, i)
    {
      formattedRanges := PushRange(formattedRanges, ranges[i], i == |ranges| - 1);
    }
    formattedValue := DropTrailingComma(Join(formattedRanges, ","));
  }

  /** The body of the loop over the ranges. */
  method PushRange(formattedRanges: seq<string>, range: string, last: bool) returns (r: seq<string>)
    ensures r == formattedRanges + RangePieces(range, last)
  {
    r := formattedRanges;
    if '-' in range {
      SplitHasSep(range, '-');
      var parts := Split(range, '-');
      var firstPart := parts[0];
      var secondPart := parts[1];
      if |firstPart| == 5 && |secondPart| >= 5 {
        if |secondPart| == 5 {
          r := r + [firstPart + "-" + secondPart];
        } else {
          var extraDigits := secondPart[5..];
          r := r + [firstPart + "-" + secondPart[..5]];
          r := PushExtra(r, extraDigits, last);
          AppendAssoc(formattedRanges, [firstPart + "-" + secondPart[..5]], ExtraPieces(extraDigits, last));
        }
      } else {
        r := r + [range];
      }
    } else if |range| == 5 && last {
      r := r + [range + "-"];
    } else if |range| == 10 {
      r := r + [range[..5] + "-" + range[5..]];
      if last {
        r := r + [""];
      }
      AppendAssoc(formattedRanges, [range[..5] + "-" + range[5..]], if last then [""] else []);
    } else if |range| > 10 {
      r := PushChunks(r, range, last);
      if last && |range| % 10 == 0 {
        r := r + [""];
      }
      AppendAssoc(formattedRanges, ChunksFrom(range, 0, last), if last && |range| % 10 == 0 then [""] else []);
    } else {
      r := r + [range];
    }
  }

  /** The handling of the digits typed past a complete range. */
  method PushExtra(formattedRanges: seq<string>, extraDigits: string, last: bool) returns (r: seq<string>)
    ensures r == formattedRanges + ExtraPieces(extraDigits, last)
  {
    if |extraDigits| == 5 && last {
      r := formattedRanges + [extraDigits + "-"];
    } else if |extraDigits| >= 10 {
      r := PushChunks(formattedRanges, extraDigits, last);
    } else {
      r := formattedRanges + [extraDigits];
    }
  }

  /** The loop that cuts a run of digits into chunks of ten. */
  method PushChunks(formattedRanges: seq<string>, d: string, last: bool) returns (r: seq<string>)
    ensures r == formattedRanges + ChunksFrom(d, 0, last)
  {
    r := formattedRanges;
    var j := 0;
    while j < |d|
      invariant r + ChunksFrom(d, j, last) == formattedRanges + ChunksFrom(d, 0, last)
      decreases |d| - j
    {
      var chunk := Substring(d, j, j + 10);
      ghost var step := ChunkPieces(chunk, j + 10 >= |d| && last);
      ghost var rest := ChunksFrom(d, j + 10, last);
      assert ChunksFrom(d, j, last) == step + rest;
      ghost var before := r;
      if |chunk| == 10 {
        r := r + [chunk[..5] + "-" + chunk[5..]];
      } else if |chunk| == 5 && j + 10 >= |d| && last {
        r := r + [chunk + "-"];
      } else if |chunk| > 0 {
        r := r + [chunk];
      }
      assert r == before + step;
      assert r + rest == before + (step + rest);
      j := j + 10;
    }
  }

  // ---------------------------------------------------------------- the output alphabet

  predicate AllPiecesAllowed(ps: seq<string>) {
    forall i :: 0 <= i < |ps| ==> AllAllowed(ps[i])
  }

  lemma {:induction false} SplitAllowed(s: string, sep: char)
    requires AllAllowed(s)
    ensures AllPiecesAllowed(Split(s, sep))
  {
    if s != [] {
      SplitAllowed(s[1..], sep);
      var rest := Split(s[1..], sep);
      if s[0] != sep {
        assert AllAllowed([s[0]] + rest[0]);
      }
    }
  }

  lemma {:induction false} JoinAllowed(ps: seq<string>, sep: string)
    requires AllAllowed(sep) && AllPiecesAllowed(ps)
    ensures AllAllowed(Join(ps, sep))
  {
    if |ps| > 1 {
      JoinAllowed(ps[1..], sep);
      assert AllAllowed(ps[0] + sep);
    }
  }

  lemma {:induction false} ChunksAllowed(d: string, j: nat, last: bool)
    requires AllAllowed(d)
    ensures AllPiecesAllowed(ChunksFrom(d, j, last))
    decreases |d| - j
  {
    if j < |d| {
      ChunksAllowed(d, j + 10, last);
      var chunk := Substring(d, j, j + 10);
      assert AllAllowed(chunk);
      if |chunk| == 10 {
        assert AllAllowed(chunk[..5] + "-" + chunk[5..]);
      }
    }
  }

  lemma {:induction false} ExtraAllowed(extra: string, last: bool)
    requires AllAllowed(extra)
    ensures AllPiecesAllowed(ExtraPieces(extra, last))
  {
    ChunksAllowed(extra, 0, last);
  }

  lemma {:induction false} RangeAllowed(range: string, last: bool)
    requires AllAllowed(range)
    ensures AllPiecesAllowed(RangePieces(range, last))
  {
    if '-' in range {
      SplitHasSep(range, '-');
      SplitAllowed(range, '-');
      var parts := Split(range, '-');
      assert AllAllowed(parts[0]) && AllAllowed(parts[1]);
      if |parts[1]| > 5 {
        ExtraAllowed(parts[1][5..], last);
      }
    } else if |range| == 10 {
      assert AllAllowed(range[..5] + "-" + range[5..]);
    } else {
      ChunksAllowed(range, 0, last);
    }
  }

  lemma {:induction false} PiecesAllowed(ranges: seq<string>, n: nat)
    requires n <= |ranges| && AllPiecesAllowed(ranges)
    ensures AllPiecesAllowed(Pieces(ranges, n))
  {
    if n > 0 {
      PiecesAllowed(ranges, n - 1);
      RangeAllowed(ranges[n - 1], n == |ranges|);
    }
  }

  /** The purchase box never holds anything but digits, commas and hyphens. */
  lemma {:induction false} FormatAllowed(input: string)
    ensures AllAllowed(FormatPurchaseInput(input))
  {
    var value := Clean(input);
    var ranges := Split(value, ',');
    SplitAllowed(value, ',');
    PiecesAllowed(ranges, |ranges|);
    JoinAllowed(Pieces(ranges, |ranges|), ",");
  }

  // ---------------------------------------------------------------- no digit is lost

  /** The digits of each piece, in order. */
  function DigitsAll(ps: seq<string>): string {
    if ps == [] then [] else Digits(ps[0]) + DigitsAll(ps[1..])
  }

  /** A range with at most one hyphen. */
  predicate AtMostOneHyphen(range: string) {
    |Split(range, '-')| <= 2
  }

  lemma {:induction false} DigitsAppend(a: string, b: string)
    ensures Digits(a + b) == Digits(a) + Digits(b)
    decreases |b|
  {
    if b == [] {
      assert a + b == a;
    } else {
      var init, c := b[..|b| - 1], b[|b| - 1];
      DigitsAppend(a, init);
      assert a + b == (a + init) + [c];
      assert b == init + [c];
      DigitsSnoc(a + init, c);
      DigitsSnoc(init, c);
      AppendAssoc(Digits(a), Digits(init), if IsDigit(c) then [c] else []);
    }
  }

  lemma {:induction false} DigitsSnoc(s: string, c: char)
    ensures Digits(s + [c]) == Digits(s) + if IsDigit(c) then [c] else []
  {
    assert (s + [c])[..|s|] == s;
  }

  lemma {:induction false} DigitsAllAppend(a: seq<string>, b: seq<string>)
    ensures DigitsAll(a + b) == DigitsAll(a) + DigitsAll(b)
    decreases |a|
  {
    if a == [] {
      assert a + b == b;
    } else {
      DigitsAllAppend(a[1..], b);
      assert (a + b)[1..] == a[1..] + b;
      assert DigitsAll(a + b) == Digits(a[0]) + DigitsAll(a[1..] + b);
      AppendAssoc(Digits(a[0]), DigitsAll(a[1..]), DigitsAll(b));
    }
  }

  lemma {:induction false} DigitsOne(x: string)
    ensures DigitsAll([x]) == Digits(x)
  {
    assert [x][1..] == [];
  }

  /** A hyphen between two parts, or after one, adds no digit. */
  lemma {:induction false} DigitsDash(a: string, b: string)
    ensures Digits(a + "-" + b) == Digits(a) + Digits(b)
    ensures Digits(a + "-") == Digits(a)
  {
    DigitsAppend(a + "-", b);
    DigitsAppend(a, "-");
  }

  lemma {:induction false} DigitsJoin(ps: seq<string>, sep: string)
    requires Digits(sep) == []
    ensures Digits(Join(ps, sep)) == DigitsAll(ps)
  {
    if |ps| == 1 {
      DigitsOne(ps[0]);
    } else if |ps| > 1 {
      DigitsJoin(ps[1..], sep);
      DigitsAppend(ps[0] + sep, Join(ps[1..], sep));
      DigitsAppend(ps[0], sep);
    }
  }

  lemma {:induction false} ChunkDigits(chunk: string, isFinal: bool)
    ensures DigitsAll(ChunkPieces(chunk, isFinal)) == Digits(chunk)
  {
    if |chunk| == 10 {
      DigitsOne(chunk[..5] + "-" + chunk[5..]);
      DigitsDash(chunk[..5], chunk[5..]);
      DigitsAppend(chunk[..5], chunk[5..]);
      assert chunk[..5] + chunk[5..] == chunk;
    } else if |chunk| == 5 && isFinal {
      DigitsOne(chunk + "-");
      DigitsDash(chunk, []);
    } else if |chunk| > 0 {
      DigitsOne(chunk);
    }
  }

  lemma {:induction false} ChunksDigits(d: string, j: nat, last: bool)
    requires j <= |d|
    ensures DigitsAll(ChunksFrom(d, j, last)) == Digits(d[j..])
    decreases |d| - j
  {
    if j < |d| {
      var e := if j + 10 <= |d| then j + 10 else |d|;
      var chunk := d[j..e];
      assert Substring(d, j, j + 10) == chunk;
      if j + 10 <= |d| {
        ChunksDigits(d, j + 10, last);
      } else {
        assert d[e..] == [];
      }
      DigitsAllAppend(ChunkPieces(chunk, j + 10 >= |d| && last), ChunksFrom(d, j + 10, last));
      ChunkDigits(chunk, j + 10 >= |d| && last);
      DigitsAppend(chunk, d[e..]);
      assert d[j..] == chunk + d[e..];
    }
  }

  /** A range with one hyphen is its two parts around it. */
  lemma {:induction false} HyphenParts(range: string)
    requires '-' in range && AtMostOneHyphen(range)
    ensures |Split(range, '-')| == 2
    ensures range == Split(range, '-')[0] + "-" + Split(range, '-')[1]
  {
    SplitHasSep(range, '-');
    var parts := Split(range, '-');
    JoinSplit(range, '-');
    assert parts[1..] == [parts[1]];
  }

  lemma {:induction false} ExtraDigits(extra: string, last: bool)
    ensures DigitsAll(ExtraPieces(extra, last)) == Digits(extra)
  {
    if |extra| == 5 && last {
      DigitsOne(extra + "-");
      DigitsDash(extra, []);
    } else if |extra| >= 10 {
      ChunksDigits(extra, 0, last);
      assert extra[0..] == extra;
    } else {
      DigitsOne(extra);
    }
  }

  lemma {:induction false} CompleteRangeDigits(first: string, second: string, last: bool)
    requires |second| > 5
    ensures DigitsAll([first + "-" + second[..5]] + ExtraPieces(second[5..], last)) == Digits(first) + Digits(second)
  {
    var extra := second[5..];
    var head := [first + "-" + second[..5]];
    DigitsAllAppend(head, ExtraPieces(extra, last));
    DigitsOne(first + "-" + second[..5]);
    DigitsDash(first, second[..5]);
    ExtraDigits(extra, last);
    DigitsAppend(second[..5], extra);
    assert second[..5] + extra == second;
    AppendAssoc(Digits(first), Digits(second[..5]), Digits(extra));
  }

  lemma {:induction false} RangeDigitsHyphen(range: string, last: bool)
    requires '-' in range && AtMostOneHyphen(range)
    ensures DigitsAll(RangePieces(range, last)) == Digits(range)
  {
    HyphenParts(range);
    var parts := Split(range, '-');
    var first := parts[0];
    var second := parts[1];
    DigitsDash(first, second);
    if |first| == 5 && |second| >= 5 {
      if |second| == 5 {
        DigitsOne(first + "-" + second);
      } else {
        CompleteRangeDigits(first, second, last);
      }
    } else {
      DigitsOne(range);
    }
  }

  lemma {:induction false} RangeDigitsPlain(range: string, last: bool)
    requires '-' !in range
    ensures DigitsAll(RangePieces(range, last)) == Digits(range)
  {
    if |range| == 5 && last {
      DigitsOne(range + "-");
      DigitsDash(range, []);
    } else if |range| == 10 {
      var head := [range[..5] + "-" + range[5..]];
      var tail: seq<string> := if last then [""] else [];
      DigitsAllAppend(head, tail);
      DigitsOne(range[..5] + "-" + range[5..]);
      DigitsDash(range[..5], range[5..]);
      DigitsAppend(range[..5], range[5..]);
      assert range[..5] + range[5..] == range;
      if last {
        DigitsOne("");
      }
    } else if |range| > 10 {
      var tail: seq<string> := if last && |range| % 10 == 0 then [""] else [];
      DigitsAllAppend(ChunksFrom(range, 0, last), tail);
      ChunksDigits(range, 0, last);
      assert range[0..] == range;
      if tail != [] {
        DigitsOne("");
      }
    } else {
      DigitsOne(range);
    }
  }

  lemma {:induction false} PiecesDigits(ranges: seq<string>, n: nat)
    requires n <= |ranges|
    requires forall i :: 0 <= i < n ==> AtMostOneHyphen(ranges[i])
    ensures DigitsAll(Pieces(ranges, n)) == DigitsAll(ranges[..n])
  {
    if n > 0 {
      PiecesDigits(ranges, n - 1);
      PiecesDigitsStep(ranges, n);
    }
  }

  lemma {:induction false} PiecesDigitsStep(ranges: seq<string>, n: nat)
    requires 0 < n <= |ranges| && AtMostOneHyphen(ranges[n - 1])
    requires DigitsAll(Pieces(ranges, n - 1)) == DigitsAll(ranges[..n - 1])
    ensures DigitsAll(Pieces(ranges, n)) == DigitsAll(ranges[..n])
  {
    var range, last := ranges[n - 1], n == |ranges|;
    RangeDigits(range, last);
    assert Pieces(ranges, n) == Pieces(ranges, n - 1) + RangePieces(range, last);
    assert ranges[..n] == ranges[..n - 1] + [range];
    DigitsAllExtend(Pieces(ranges, n - 1), RangePieces(range, last), ranges[..n - 1], range);
  }

  /** Pieces with the digits of the ranges so far, extended by pieces with
      the digits of one more range, have the digits of all of them. */
  lemma {:induction false} DigitsAllExtend(ps: seq<string>, qs: seq<string>, rs: seq<string>, x: string)
    requires DigitsAll(ps) == DigitsAll(rs) && DigitsAll(qs) == Digits(x)
    ensures DigitsAll(ps + qs) == DigitsAll(rs + [x])
  {
    DigitsAllAppend(ps, qs);
    DigitsAllAppend(rs, [x]);
    DigitsOne(x);
  }

  lemma {:induction false} RangeDigits(range: string, last: bool)
    requires AtMostOneHyphen(range)
    ensures DigitsAll(RangePieces(range, last)) == Digits(range)
  {
    if '-' in range {
      RangeDigitsHyphen(range, last);
    } else {
      RangeDigitsPlain(range, last);
    }
  }

  lemma {:induction false} DropTrailingCommaDigits(s: string)
    ensures Digits(DropTrailingComma(s)) == Digits(s)
  {
  }

  /** When no range holds two hyphens, the rewrite keeps every digit of the
      cleaned value, in order: it only adds and removes hyphens and commas. */
  lemma {:induction false} FormatValueDigits(value: string)
    requires forall i :: 0 <= i < |Split(value, ',')| ==> AtMostOneHyphen(Split(value, ',')[i])
    ensures Digits(FormatValue(value)) == Digits(value)
  {
    var ranges := Split(value, ',');
    PiecesDigits(ranges, |ranges|);
    assert ranges[..|ranges|] == ranges;
    DigitsJoin(Pieces(ranges, |ranges|), ",");
    DropTrailingCommaDigits(Join(Pieces(ranges, |ranges|), ","));
    JoinSplit(value, ',');
    DigitsJoin(ranges, ",");
  }

  /** The same for the whole box: the digits typed are the digits kept. */
  lemma {:induction false} FormatDigits(input: string)
    requires forall i :: 0 <= i < |Split(Clean(input), ',')| ==> AtMostOneHyphen(Split(Clean(input), ',')[i])
    ensures Digits(FormatPurchaseInput(input)) == Digits(input)
  {
    FormatValueDigits(Clean(input));
    CleanSpec(input);
  }

  // ---------------------------------------------------------------- what typing produces

  lemma {:induction false} NoSeparators(d: string)
    requires AllDigits(d)
    ensures ',' !in d && '-' !in d
  {
  }

  /** A value without commas is a single, final range. */
  lemma {:induction false} SingleRange(v: string)
    requires ',' !in v
    ensures FormatValue(v) == DropTrailingComma(Join(RangePieces(v, true), ","))
  {
    SplitNoSep(v, ',');
    var ranges := Split(v, ',');
    assert ranges == [v];
    assert Pieces(ranges, 1) == RangePieces(v, true) by {
      assert Pieces(ranges, 0) == [];
    }
  }

  /** Ten digits typed in a row become a range; the `''` pushed after it to
      open a new range is undone by the removal of the trailing comma. */
  lemma {:induction false} TenDigits(d: string)
    requires |d| == 10 && AllDigits(d)
    ensures FormatValue(d) == d[..5] + "-" + d[5..]
  {
    NoSeparators(d);
    SingleRange(d);
    var x := d[..5] + "-" + d[5..];
    assert RangePieces(d, true) == [x, ""];
    assert Join([x, ""], ",") == x + ",";
    assert (x + ",")[..|x|] == x;
  }

  /** Five digits at the end of the box get a hyphen, opening a range. */
  lemma {:induction false} FiveDigits(d: string)
    requires |d| == 5 && AllDigits(d)
    ensures FormatValue(d) == d + "-"
  {
    NoSeparators(d);
    SingleRange(d);
    assert RangePieces(d, true) == [d + "-"];
  }

  lemma {:induction false} Regroup<T>(a: seq<T>, x: seq<T>, b: seq<T>, y: seq<T>, c: seq<T>)
    ensures a + x + b + y + c == a + x + (b + y + c)
  {
  }

  /** The parts around the hyphens of `a-b-c`. */
  lemma {:induction false} SplitDashes(a: string, b: string, c: string)
    requires '-' !in a && '-' !in b
    ensures Split(a + "-" + b + "-" + c, '-') == [a, b] + Split(c, '-')
  {
    Regroup(a, "-", b, "-", c);
    SplitAppend(a, b + ['-'] + c, '-');
    SplitAppend(b, c, '-');
    SplitNoSep(a, '-');
    SplitNoSep(b, '-');
  }

  /** A complete range `aaaaa-bbbbb` stays as it is. */
  lemma {:induction false} CompleteRange(a: string, b: string)
    requires |a| == 5 && |b| == 5 && AllDigits(a) && AllDigits(b)
    ensures FormatValue(a + "-" + b) == a + "-" + b
  {
    NoSeparators(a);
    NoSeparators(b);
    var s := a + "-" + b;
    assert ',' !in s by {
      assert forall k :: 0 <= k < |s| ==> s[k] == (if k < 5 then a[k] else if k == 5 then '-' else b[k - 6]);
    }
    SingleRange(s);
    SplitNoSep(b, '-');
    SplitAppend(a, b, '-');
    SplitNoSep(a, '-');
    assert Split(s, '-') == [a, b];
    assert RangePieces(s, true) == [s];
  }

  /** What follows a second hyphen after a complete range is dropped: typing
      `aaaaa-bbbbb-c` leaves `aaaaa-bbbbb`, whatever digits `c` holds. */
  lemma {:induction false} SecondHyphenDrops(a: string, b: string, c: string)
    requires |a| == 5 && |b| == 5 && AllDigits(a) && AllDigits(b) && ',' !in c
    ensures FormatValue(a + "-" + b + "-" + c) == a + "-" + b
  {
    NoSeparators(a);
    NoSeparators(b);
    var s := a + "-" + b + "-" + c;
    NoCommaInDashed(a, b, c);
    SingleRange(s);
    SecondHyphenPieces(a, b, c);
    assert Join([a + "-" + b], ",") == a + "-" + b;
  }

  lemma {:induction false} NoCommaInDashed(a: string, b: string, c: string)
    requires |a| == 5 && |b| == 5 && ',' !in a && ',' !in b && ',' !in c
    ensures ',' !in a + "-" + b + "-" + c
  {
    var s := a + "-" + b + "-" + c;
    assert forall k :: 0 <= k < |s| ==> s[k] == (if k < 5 then a[k] else if k == 5 then '-'
      else if k < 11 then b[k - 6] else if k == 11 then '-' else c[k - 12]);
  }

  /** The second hyphen and what follows it add no piece. */
  lemma {:induction false} SecondHyphenPieces(a: string, b: string, c: string)
    requires |a| == 5 && |b| == 5 && '-' !in a && '-' !in b
    ensures RangePieces(a + "-" + b + "-" + c, true) == [a + "-" + b]
  {
    var s := a + "-" + b + "-" + c;
    SplitDashes(a, b, c);
    assert s[5] == '-';
  }
}
