/** Prize amounts as the breakdown lists hold them: `toLocaleString('en-IN')`
    writes the integer with Indian digit grouping (the last three digits, then
    groups of two), and the totals read it back with
    `parseInt(item.split(' ')[0].replace(/,/g, ''), 10) || 0`. */
module Amounts {
  import opened JsText

  /** Groups of two digits from the right, separated by commas. */
  function GroupTwos(ds: string): string
    decreases |ds|
  {
    if |ds| <= 2 then ds else GroupTwos(ds[..|ds| - 2]) + "," + ds[|ds| - 2..]
  }

  /** Indian grouping: the last three digits, then groups of two. */
  function GroupIndian(ds: string): string {
    if |ds| <= 3 then ds else GroupTwos(ds[..|ds| - 3]) + "," + ds[|ds| - 3..]
  }

  /** `n.toLocaleString('en-IN')` for an integer `n`. */
  function EnIn(n: int): string {
    if n < 0 then "-" + GroupIndian(NatToString(-n)) else GroupIndian(NatToString(n))
  }

  /** `s.replace(/,/g, '')`. */
  function RemoveCommas(s: string): (r: string)
    ensures ',' !in r
  {
    if s == [] then [] else RemoveCommas(s[..|s| - 1]) + (if s[|s| - 1] == ',' then [] else [s[|s| - 1]])
  }

  /** The amount a breakdown entry starts with, as the totals read it. */
  function ParseAmount(item: string): int {
    ParseIntOrZero(RemoveCommas(Split(item, ' ')[0]))
  }

  /** The total a loop adds by summing the parsed amount of each item. */
  function SumAmounts(items: seq<string>): int {
    if items == [] then 0 else SumAmounts(items[..|items| - 1]) + ParseAmount(items[|items| - 1])
  }

  lemma {:induction false} SumAmountsSnoc(items: seq<string>, x: string)
    ensures SumAmounts(items + [x]) == SumAmounts(items) + ParseAmount(x)
  {
    assert (items + [x])[..|items|] == items;
  }

  lemma {:induction false} SumAmountsAppend(a: seq<string>, b: seq<string>)
    ensures SumAmounts(a + b) == SumAmounts(a) + SumAmounts(b)
    decreases |b|
  {
    if b == [] {
      assert a + b == a;
    } else {
      SumAmountsAppend(a, b[..|b| - 1]);
      assert (a + b)[..|a + b| - 1] == a + b[..|b| - 1];
    }
  }

  lemma {:induction false} RemoveCommasAppend(a: string, b: string)
    ensures RemoveCommas(a + b) == RemoveCommas(a) + RemoveCommas(b)
    decreases |b|
  {
    if b == [] {
      assert a + b == a;
    } else {
      RemoveCommasAppend(a, b[..|b| - 1]);
      assert (a + b)[..|a + b| - 1] == a + b[..|b| - 1];
      assert (a + b)[|a + b| - 1] == b[|b| - 1];
    }
  }

  lemma {:induction false} RemoveCommasNone(s: string)
    requires ',' !in s
    ensures RemoveCommas(s) == s
  {
    if s != [] {
      RemoveCommasNone(s[..|s| - 1]);
      assert s == s[..|s| - 1] + [s[|s| - 1]];
    }
  }

  /** Removing commas keeps every other character. */
  lemma {:induction false} RemoveCommasKeeps(s: string, c: char)
    requires c != ','
    ensures c in s ==> c in RemoveCommas(s)
  {
    if s != [] && s[|s| - 1] != c {
      assert s == s[..|s| - 1] + [s[|s| - 1]];
      RemoveCommasKeeps(s[..|s| - 1], c);
    }
  }

  /** Grouping `hd` and then appending `,tl` loses nothing but commas. */
  lemma {:induction false} Regroup(g: string, hd: string, tl: string)
    requires RemoveCommas(g) == hd && ',' !in tl
    ensures RemoveCommas(g + "," + tl) == hd + tl
  {
    assert RemoveCommas(g + ",") == RemoveCommas(g) by {
      assert (g + ",")[..|g + ","| - 1] == g;
    }
    RemoveCommasAppend(g + ",", tl);
    RemoveCommasNone(tl);
  }

  lemma {:induction false} GroupTwosDigits(ds: string)
    requires ',' !in ds
    ensures RemoveCommas(GroupTwos(ds)) == ds
    decreases |ds|
  {
    if |ds| <= 2 {
      RemoveCommasNone(ds);
    } else {
      var hd, tl := ds[..|ds| - 2], ds[|ds| - 2..];
      assert hd + tl == ds;
      assert ',' !in hd && ',' !in tl;
      GroupTwosDigits(hd);
      Regroup(GroupTwos(hd), hd, tl);
    }
  }

  lemma {:induction false} GroupIndianDigits(ds: string)
    requires ',' !in ds
    ensures RemoveCommas(GroupIndian(ds)) == ds
  {
    if |ds| <= 3 {
      RemoveCommasNone(ds);
    } else {
      var hd, tl := ds[..|ds| - 3], ds[|ds| - 3..];
      assert hd + tl == ds;
      assert ',' !in hd && ',' !in tl;
      GroupTwosDigits(hd);
      Regroup(GroupTwos(hd), hd, tl);
    }
  }

  /** Without its commas, the en-IN text is `String(n)`, and it holds no space. */
  lemma {:induction false} EnInDigits(n: int)
    ensures RemoveCommas(EnIn(n)) == IntToString(n)
    ensures ' ' !in EnIn(n)
  {
    var m := if n < 0 then -n else n;
    var ds := NatToString(m);
    assert ',' !in ds && ' ' !in ds && ' ' !in IntToString(n) by {
      assert forall i :: 0 <= i < |ds| ==> IsDigit(ds[i]);
      assert n < 0 ==> IntToString(n) == ['-'] + ds;
    }
    GroupIndianDigits(ds);
    if n < 0 {
      RemoveCommasAppend("-", GroupIndian(ds));
      assert RemoveCommas("-") == "-" by {
        RemoveCommasNone("-");
      }
    }
    RemoveCommasKeeps(EnIn(n), ' ');
  }

  /** The totals read back exactly the amount a breakdown entry was written with. */
  lemma {:induction false} ParseAmountOf(n: int, rest: string)
    ensures ParseAmount(EnIn(n) + " " + rest) == n
  {
    EnInDigits(n);
    SplitFirst(EnIn(n), rest, ' ');
    assert EnIn(n) + " " + rest == EnIn(n) + [' '] + rest;
    ParseIntToString(n);
  }

  /** 100000 is written `1,00,000`. */
  lemma {:induction false} EnInLakh()
    ensures EnIn(100000) == "1,00,000"
  {
    assert NatToString(100000) == "100000" by {
      assert NatToString(1) == "1";
      assert NatToString(10) == "10";
      assert NatToString(100) == "100";
      assert NatToString(1000) == "1000";
      assert NatToString(10000) == "10000";
    }
    assert "100000"[..3] == "100" && "100000"[3..] == "000";
    assert "100"[..1] == "1" && "100"[1..] == "00";
  }
}
