/** Prize matching: the winning map built from a draw's result list (the
    loop of `getWinningPrizesMap`, with the parsed result as input), the
    suffix matching of sold tickets against it, the PWT / VC / SVC breakdown
    entries scaled by the row's SEM, and the de-duplicated winning tickets. */
module Prizes {
  import opened JsText
  import opened Ordered
  import opened TicketCodec
  import opened Amounts

  // ---------------------------------------------------------------- amount tables

  /** The three prize tiers: prize-winning ticket, VC and SVC. */
  datatype Tier = Pwt | Vc | Svc

  /** `PWT_AMOUNTS[category] || 0` and its VC and SVC siblings. */
  function Amount(tier: Tier, category: string): (a: nat)
    ensures a > 0 <==> category in {"1st Prize", "2nd Prize", "3rd Prize", "4th Prize", "5th Prize"}
  {
    match tier
    case Pwt =>
      if category == "1st Prize" then 25000
      else if category == "2nd Prize" then 20000
      else if category == "3rd Prize" then 2000
      else if category == "4th Prize" then 700
      else if category == "5th Prize" then 300
      else 0
    case Vc =>
      if category == "1st Prize" then 2000
      else if category == "2nd Prize" then 2000
      else if category == "3rd Prize" then 200
      else if category == "4th Prize" then 150
      else if category == "5th Prize" then 70
      else 0
    case Svc =>
      if category == "1st Prize" then 400
      else if category == "2nd Prize" then 400
      else if category == "3rd Prize" then 40
      else if category == "4th Prize" then 20
      else if category == "5th Prize" then 10
      else 0
  }

  /** `s.includes(t)`. */
  function Includes(s: string, t: string): bool
    decreases |s|
  {
    if |s| < |t| then false else s[..|t|] == t || Includes(s[1..], t)
  }

  /** `getCategoryClass`: the style class written into each breakdown entry. */
  function CategoryClass(category: string): string {
    if category == "" then ""
    else if Includes(category, "1st") then "prize-cat-1"
    else if Includes(category, "2nd") then "prize-cat-2"
    else if Includes(category, "3rd") then "prize-cat-3"
    else if Includes(category, "4th") then "prize-cat-4"
    else if Includes(category, "5th") then "prize-cat-5"
    else ""
  }

  // ---------------------------------------------------------------- the winning map

  datatype Prize = Prize(category: string, amount: int)

  /** One entry of the winning `Map`: a winning ticket suffix and its prize. */
  datatype Entry = Entry(ticket: string, prize: Prize)

  /** One element of the draw's `results` list; an absent `numbers` is `""`. */
  datatype PrizeResult = PrizeResult(category: string, numbers: string)

  function MapKeys(m: seq<Entry>): (ks: seq<string>)
    ensures |ks| == |m| && forall i :: 0 <= i < |m| ==> ks[i] == m[i].ticket
  {
    if m == [] then [] else [m[0].ticket] + MapKeys(m[1..])
  }

  /** `map.get(k)`. */
  function Lookup(m: seq<Entry>, k: string): Option<Prize> {
    if m == [] then None else if m[0].ticket == k then Some(m[0].prize) else Lookup(m[1..], k)
  }

  /** `map.set(k, v)`: an existing key keeps its place and takes the new
      value; a new key goes to the end. */
  function MapSet(m: seq<Entry>, k: string, v: Prize): (r: seq<Entry>)
    ensures MapKeys(r) == if k in MapKeys(m) then MapKeys(m) else MapKeys(m) + [k]
    ensures forall k' :: Lookup(r, k') == if k' == k then Some(v) else Lookup(m, k')
  {
    if m == [] then [Entry(k, v)]
    else if m[0].ticket == k then [Entry(k, v)] + m[1..]
    else [m[0]] + MapSet(m[1..], k, v)
  }

  /** `numStr.trim().match(/\d+$/)?.[0]`, with no match written `""`. */
  function WinningSuffix(numStr: string): (w: string)
    ensures AllDigits(w)
  {
    var t := Trim(numStr);
    t[|t| - TrailingDigits(t)..]
  }

  /** The winning tickets a `numbers` field lists, in order, skipping pieces
      that do not end in a digit. */
  function ListedTickets(pieces: seq<string>): (ws: seq<string>)
    ensures forall i :: 0 <= i < |ws| ==> ws[i] != [] && AllDigits(ws[i])
  {
    if pieces == [] then []
    else
      var w := WinningSuffix(pieces[|pieces| - 1]);
      ListedTickets(pieces[..|pieces| - 1]) + (if w != [] then [w] else [])
  }

  /** Whether a result's `numbers` field is used at all: it is truthy and not `N/A`. */
  predicate HasNumbers(r: PrizeResult) {
    r.numbers != "" && r.numbers != "N/A"
  }

  function ResultTickets(r: PrizeResult): seq<string> {
    if HasNumbers(r) then ListedTickets(Split(r.numbers, ',')) else []
  }

  function PrizeOf(r: PrizeResult): Prize {
    Prize(r.category, Amount(Pwt, r.category))
  }

  /** Setting every key of `ks`, in order, to `v`. */
  function SetAll(m: seq<Entry>, ks: seq<string>, v: Prize): seq<Entry> {
    if ks == [] then m else MapSet(SetAll(m, ks[..|ks| - 1], v), ks[|ks| - 1], v)
  }

  /** The winning map after the results, one after the other. */
  function WinningMap(results: seq<PrizeResult>): seq<Entry> {
    if results == [] then []
    else
      var r := results[|results| - 1];
      SetAll(WinningMap(results[..|results| - 1]), ResultTickets(r), PrizeOf(r))
  }

  /** The `results.forEach` loop of `getWinningPrizesMap`. */
  method BuildWinningMap(results: seq<PrizeResult>) returns (prizesMap: seq<Entry>)
    ensures prizesMap == WinningMap(results)
  {
    prizesMap := [];
    for i := 0 to |results|
      invariant prizesMap == WinningMap(results[..i])
    {
      var prize := results[i];
      WinningMapStep(results, i);
      if HasNumbers(prize) {
        prizesMap := AddListed(prizesMap, Split(prize.numbers, ','), PrizeOf(prize));
      }
    }
    assert results[..|results|] == results;
  }

  lemma {:induction false} WinningMapStep(results: seq<PrizeResult>, i: nat)
    requires i < |results|
    ensures HasNumbers(results[i]) ==>
              WinningMap(results[..i + 1]) == SetAll(WinningMap(results[..i]), ListedTickets(Split(results[i].numbers, ',')), PrizeOf(results[i]))
    ensures !HasNumbers(results[i]) ==> WinningMap(results[..i + 1]) == WinningMap(results[..i])
  {
    assert results[..i + 1][..i] == results[..i];
  }

  /** The inner loop over the comma-separated numbers of one prize. */
  method AddListed(m: seq<Entry>, pieces: seq<string>, v: Prize) returns (r: seq<Entry>)
    ensures r == SetAll(m, ListedTickets(pieces), v)
  {
    r := m;
    for j := 0 to |pieces|
      invariant r == SetAll(m, ListedTickets(pieces[..j]), v)
    {
      var ticketNumber := WinningSuffix(pieces[j]);
      assert pieces[..j + 1][..j] == pieces[..j];
      if ticketNumber != [] {
        r := MapSet(r, ticketNumber, v);
        assert ListedTickets(pieces[..j + 1]) == ListedTickets(pieces[..j]) + [ticketNumber];
      } else {
        assert ListedTickets(pieces[..j + 1]) == ListedTickets(pieces[..j]);
      }
    }
    assert pieces[..|pieces|] == pieces;
  }

  lemma {:induction false} SetAllSpec(m: seq<Entry>, ks: seq<string>, v: Prize)
    ensures MapKeys(SetAll(m, ks, v)) == AddAll(MapKeys(m), ks)
    ensures forall k :: Lookup(SetAll(m, ks, v), k) == if k in ks then Some(v) else Lookup(m, k)
  {
    SetAllKeys(m, ks, v);
    forall k ensures Lookup(SetAll(m, ks, v), k) == if k in ks then Some(v) else Lookup(m, k) {
      SetAllLookup(m, ks, v, k);
    }
  }

  lemma {:induction false} SetAllKeys(m: seq<Entry>, ks: seq<string>, v: Prize)
    ensures MapKeys(SetAll(m, ks, v)) == AddAll(MapKeys(m), ks)
  {
    if ks != [] {
      SetAllKeys(m, ks[..|ks| - 1], v);
    }
  }

  lemma {:induction false} SetAllLookup(m: seq<Entry>, ks: seq<string>, v: Prize, k: string)
    ensures Lookup(SetAll(m, ks, v), k) == if k in ks then Some(v) else Lookup(m, k)
  {
    if ks != [] {
      SetAllLookup(m, ks[..|ks| - 1], v, k);
      SetAllLast(m, ks, v, k);
      InSnoc(ks, k);
    }
  }

  lemma {:induction false} SetAllLast(m: seq<Entry>, ks: seq<string>, v: Prize, k: string)
    requires ks != []
    ensures Lookup(SetAll(m, ks, v), k) ==
              if k == ks[|ks| - 1] then Some(v) else Lookup(SetAll(m, ks[..|ks| - 1], v), k)
  {
  }

  lemma {:induction false} InSnoc(ks: seq<string>, k: string)
    requires ks != []
    ensures k in ks <==> k in ks[..|ks| - 1] || k == ks[|ks| - 1]
  {
    assert ks == ks[..|ks| - 1] + [ks[|ks| - 1]];
  }

  /** A result lists ticket `k` for the map. */
  predicate Listed(r: PrizeResult, k: string) {
    k in ResultTickets(r)
  }

  /** Every ticket the results list, result by result. */
  function AllListed(results: seq<PrizeResult>): seq<string> {
    if results == [] then [] else AllListed(results[..|results| - 1]) + ResultTickets(results[|results| - 1])
  }

  /** The winning map's keys are the distinct listed tickets in the order
      they were first listed; all of them are non-empty digit runs. */
  lemma {:induction false} WinningMapKeys(results: seq<PrizeResult>)
    ensures MapKeys(WinningMap(results)) == Dedup(AllListed(results))
    ensures forall k :: k in MapKeys(WinningMap(results)) ==> k != [] && AllDigits(k)
  {
    if results != [] {
      var init := results[..|results| - 1];
      var r := results[|results| - 1];
      WinningMapKeys(init);
      SetAllSpec(WinningMap(init), ResultTickets(r), PrizeOf(r));
      AddAllAppend([], AllListed(init), ResultTickets(r));
    }
    DedupSpec(AllListed(results));
    AllListedDigits(results);
  }

  lemma {:induction false} AllListedDigits(results: seq<PrizeResult>)
    ensures forall k :: k in AllListed(results) ==> k != [] && AllDigits(k)
  {
    if results != [] {
      AllListedDigits(results[..|results| - 1]);
    }
  }

  /** A ticket no result lists is not in the winning map. */
  lemma {:induction false} WinningMapUnlisted(results: seq<PrizeResult>, k: string)
    requires forall i :: 0 <= i < |results| ==> !Listed(results[i], k)
    ensures Lookup(WinningMap(results), k) == None
  {
    if results != [] {
      var init := results[..|results| - 1];
      var r := results[|results| - 1];
      assert forall i :: 0 <= i < |init| ==> init[i] == results[i];
      WinningMapUnlisted(init, k);
      SetAllSpec(WinningMap(init), ResultTickets(r), PrizeOf(r));
    }
  }

  /** A listed ticket carries the prize of the last result that lists it. */
  lemma {:induction false} WinningMapLast(results: seq<PrizeResult>, k: string, i: nat)
    requires i < |results| && Listed(results[i], k)
    requires forall j :: i < j < |results| ==> !Listed(results[j], k)
    ensures Lookup(WinningMap(results), k) == Some(PrizeOf(results[i]))
  {
    var init := results[..|results| - 1];
    var r := results[|results| - 1];
    if i < |results| - 1 {
      assert !Listed(r, k);
      assert Lookup(WinningMap(results), k) == Lookup(WinningMap(init), k) by {
        SetAllSpec(WinningMap(init), ResultTickets(r), PrizeOf(r));
      }
      assert forall j :: 0 <= j < |init| ==> init[j] == results[j];
      WinningMapLast(init, k, i);
    } else {
      SetAllSpec(WinningMap(init), ResultTickets(r), PrizeOf(r));
    }
  }

  /** Keys may only come from the listed tickets. */
  lemma {:induction false} LookupKeys(m: seq<Entry>, k: string)
    ensures Lookup(m, k).Some? <==> k in MapKeys(m)
  {
    if m != [] {
      LookupKeys(m[1..], k);
    }
  }

  // ---------------------------------------------------------------- matching

  /** An element of `winningTicketDetails` and of `winningTickets`. */
  datatype WinningTicket = WinningTicket(ticket: string, category: string)

  /** The map entries, in map order, that the sold ticket ends with. */
  function MatchesFor(soldNum: string, m: seq<Entry>): seq<WinningTicket> {
    if m == [] then []
    else
      var e := m[|m| - 1];
      MatchesFor(soldNum, m[..|m| - 1]) + (if EndsWith(soldNum, e.ticket) then [WinningTicket(e.ticket, e.prize.category)] else [])
  }

  /** All matches, sold ticket by sold ticket. */
  function Matches(soldNumbers: seq<string>, m: seq<Entry>): seq<WinningTicket> {
    if soldNumbers == [] then []
    else Matches(soldNumbers[..|soldNumbers| - 1], m) + MatchesFor(soldNumbers[|soldNumbers| - 1], m)
  }

  /** The text after the amount in a breakdown entry. */
  function WinnerInfo(category: string, winner: string): string {
    "<span class=\"pwt-winner-info " + CategoryClass(category) + "\">(" + category + ": " + winner + ")</span>"
  }

  /** One breakdown entry: the en-IN amount, a space, the winner information. */
  function BreakdownLine(amount: int, category: string, winner: string): string {
    EnIn(amount) + " " + WinnerInfo(category, winner)
  }

  /** Whether a match adds an entry to a tier's breakdown: always for PWT,
      only with a positive table amount for VC and SVC. */
  predicate Pushes(tier: Tier, d: WinningTicket) {
    tier == Pwt || Amount(tier, d.category) > 0
  }

  /** The matches that add an entry to the tier's breakdown. */
  function Priced(tier: Tier, ds: seq<WinningTicket>): seq<WinningTicket> {
    if ds == [] then []
    else Priced(tier, ds[..|ds| - 1]) + (if Pushes(tier, ds[|ds| - 1]) then [ds[|ds| - 1]] else [])
  }

  /** The breakdown a tier accumulates over the matches. */
  function Breakdown(tier: Tier, ds: seq<WinningTicket>, sem: int): seq<string> {
    if ds == [] then []
    else
      var d := ds[|ds| - 1];
      Breakdown(tier, ds[..|ds| - 1], sem) +
        (if Pushes(tier, d) then [BreakdownLine(Amount(tier, d.category) * sem, d.category, d.ticket)] else [])
  }

  datatype Matched = Matched(details: seq<WinningTicket>, pwt: seq<string>, vc: seq<string>, svc: seq<string>)

  /** What matching produces for a sold list, a winning map that may be
      absent (`null`), and the row's SEM as an integer. */
  function MatchAll(soldNumbers: seq<string>, winningMap: Option<seq<Entry>>, sem: int): (r: Matched)
    ensures |r.pwt| == |r.details|
    ensures |r.vc| <= |r.details| && |r.svc| <= |r.details|
  {
    var ds := if winningMap.Some? && |winningMap.value| > 0 then Matches(soldNumbers, winningMap.value) else [];
    BreakdownLength(Pwt, ds, sem);
    BreakdownLength(Vc, ds, sem);
    BreakdownLength(Svc, ds, sem);
    Matched(ds, Breakdown(Pwt, ds, sem), Breakdown(Vc, ds, sem), Breakdown(Svc, ds, sem))
  }

  /** The breakdowns agree with the details accumulated so far. */
  predicate Consistent(acc: Matched, sem: int) {
    && acc.pwt == Breakdown(Pwt, acc.details, sem)
    && acc.vc == Breakdown(Vc, acc.details, sem)
    && acc.svc == Breakdown(Svc, acc.details, sem)
  }

  /** The matching loops of `updateRowData`. */
  method MatchPrizes(soldNumbers: seq<string>, winningMap: Option<seq<Entry>>, sem: int) returns (r: Matched)
    ensures r == MatchAll(soldNumbers, winningMap, sem)
  {
    r := Matched([], [], [], []);
    if winningMap.Some? && |winningMap.value| > 0 {
      var m := winningMap.value;
      for i := 0 to |soldNumbers|
        invariant r.details == Matches(soldNumbers[..i], m) && Consistent(r, sem)
      {
        assert soldNumbers[..i + 1][..i] == soldNumbers[..i];
        r := MatchOne(soldNumbers[i], m, sem, r);
      }
      assert soldNumbers[..|soldNumbers|] == soldNumbers;
    }
  }

  /** The inner loop over the map entries for one sold ticket. */
  method MatchOne(soldNum: string, m: seq<Entry>, sem: int, acc: Matched) returns (r: Matched)
    requires Consistent(acc, sem)
    ensures r.details == acc.details + MatchesFor(soldNum, m) && Consistent(r, sem)
  {
    r := acc;
    for j := 0 to |m|
      invariant r.details == acc.details + MatchesFor(soldNum, m[..j]) && Consistent(r, sem)
    {
      var winner, category := m[j].ticket, m[j].prize.category;
      MatchesForStep(soldNum, m, j);
      if EndsWith(soldNum, winner) {
        var d := WinningTicket(winner, category);
        r := Push(r, d, sem);
        AppendAssoc(acc.details, MatchesFor(soldNum, m[..j]), [d]);
      }
    }
    assert m[..|m|] == m;
  }

  lemma {:induction false} MatchesForStep(soldNum: string, m: seq<Entry>, j: nat)
    requires j < |m|
    ensures MatchesFor(soldNum, m[..j + 1]) == MatchesFor(soldNum, m[..j]) +
              (if EndsWith(soldNum, m[j].ticket) then [WinningTicket(m[j].ticket, m[j].prize.category)] else [])
  {
    assert m[..j + 1][..j] == m[..j];
  }

  /** Pushing one match onto the details and the breakdowns that take it. */
  method Push(acc: Matched, d: WinningTicket, sem: int) returns (r: Matched)
    requires Consistent(acc, sem)
    ensures r.details == acc.details + [d] && Consistent(r, sem)
  {
    var details := acc.details + [d];
    assert details[..|details| - 1] == acc.details;
    var pwt := acc.pwt + [BreakdownLine(Amount(Pwt, d.category) * sem, d.category, d.ticket)];
    var vc, svc := acc.vc, acc.svc;
    if Amount(Vc, d.category) > 0 {
      vc := vc + [BreakdownLine(Amount(Vc, d.category) * sem, d.category, d.ticket)];
    }
    if Amount(Svc, d.category) > 0 {
      svc := svc + [BreakdownLine(Amount(Svc, d.category) * sem, d.category, d.ticket)];
    }
    r := Matched(details, pwt, vc, svc);
  }

  // ---------------------------------------------------------------- what matching guarantees

  /** A sold ticket matches exactly the map entries it ends with, with the
      entry's category. */
  lemma {:induction false} MatchesForSpec(soldNum: string, m: seq<Entry>, d: WinningTicket)
    ensures d in MatchesFor(soldNum, m) <==>
              exists i :: 0 <= i < |m| && m[i] == Entry(d.ticket, m[i].prize) && m[i].prize.category == d.category && EndsWith(soldNum, d.ticket)
  {
    if m != [] {
      var init := m[..|m| - 1];
      MatchesForSpec(soldNum, init, d);
      assert forall i :: 0 <= i < |init| ==> init[i] == m[i];
    }
  }

  /** With distinct keys, a sold ticket matches each winner at most once. */
  lemma {:induction false} MatchesForOnce(soldNum: string, m: seq<Entry>)
    requires NoDups(MapKeys(m))
    ensures NoDups(Tickets(MatchesFor(soldNum, m)))
    ensures forall w :: w in Tickets(MatchesFor(soldNum, m)) ==> w in MapKeys(m)
  {
    if m != [] {
      var init := m[..|m| - 1];
      var e := m[|m| - 1];
      KeysInit(m);
      MatchesForOnce(soldNum, init);
      MatchesForLast(soldNum, m);
      if EndsWith(soldNum, e.ticket) {
        NoDupsSnoc(Tickets(MatchesFor(soldNum, init)), e.ticket);
      }
    }
  }

  /** The last key of a map without duplicate keys is not among the others. */
  lemma {:induction false} KeysInit(m: seq<Entry>)
    requires m != [] && NoDups(MapKeys(m))
    ensures NoDups(MapKeys(m[..|m| - 1])) && m[|m| - 1].ticket !in MapKeys(m[..|m| - 1])
    ensures forall w :: w in MapKeys(m[..|m| - 1]) ==> w in MapKeys(m)
  {
    var ks, ki := MapKeys(m), MapKeys(m[..|m| - 1]);
    KeysPrefix(m);
    forall i, j | 0 <= i < j < |ki| ensures ki[i] != ki[j] {
      assert ks[i] != ks[j];
    }
    forall i | 0 <= i < |ki| ensures ki[i] != m[|m| - 1].ticket {
      assert ks[i] != ks[|m| - 1];
    }
    forall w | w in ki ensures w in ks {
      var i :| 0 <= i < |ki| && ki[i] == w;
      assert ks[i] == w;
    }
  }

  lemma {:induction false} KeysPrefix(m: seq<Entry>)
    requires m != []
    ensures |MapKeys(m[..|m| - 1])| == |m| - 1
    ensures forall i :: 0 <= i < |m| - 1 ==> MapKeys(m[..|m| - 1])[i] == MapKeys(m)[i]
    ensures MapKeys(m)[|m| - 1] == m[|m| - 1].ticket
  {
  }

  lemma {:induction false} MatchesForLast(soldNum: string, m: seq<Entry>)
    requires m != []
    ensures Tickets(MatchesFor(soldNum, m)) ==
              Tickets(MatchesFor(soldNum, m[..|m| - 1])) + (if EndsWith(soldNum, m[|m| - 1].ticket) then [m[|m| - 1].ticket] else [])
  {
    var e := m[|m| - 1];
    var before := MatchesFor(soldNum, m[..|m| - 1]);
    if EndsWith(soldNum, e.ticket) {
      var d := WinningTicket(e.ticket, e.prize.category);
      assert MatchesFor(soldNum, m) == before + [d];
      assert (before + [d])[..|before|] == before;
    } else {
      assert MatchesFor(soldNum, m) == before + [];
      assert before + [] == before;
    }
  }

  lemma {:induction false} NoDupsSnoc(xs: seq<string>, x: string)
    requires NoDups(xs) && x !in xs
    ensures NoDups(xs + [x])
  {
  }

  /** The matches are the per-ticket matches, sold ticket by sold ticket. */
  lemma {:induction false} MatchesSpec(soldNumbers: seq<string>, m: seq<Entry>, d: WinningTicket)
    ensures d in Matches(soldNumbers, m) <==>
              (exists s :: s in soldNumbers && d in MatchesFor(s, m))
  {
    if soldNumbers != [] {
      var init := soldNumbers[..|soldNumbers| - 1];
      var last := soldNumbers[|soldNumbers| - 1];
      MatchesSpec(init, m, d);
      assert soldNumbers == init + [last];
      if d in MatchesFor(last, m) {
        assert last in soldNumbers;
      }
    }
  }

  /** Nothing matches against an empty map. */
  lemma {:induction false} NoWinners(soldNumbers: seq<string>)
    ensures Matches(soldNumbers, []) == []
  {
    if soldNumbers != [] {
      NoWinners(soldNumbers[..|soldNumbers| - 1]);
    }
  }

  lemma {:induction false} BreakdownLength(tier: Tier, ds: seq<WinningTicket>, sem: int)
    ensures |Breakdown(tier, ds, sem)| == |Priced(tier, ds)| <= |ds|
    ensures tier == Pwt ==> Priced(tier, ds) == ds
  {
    BreakdownPriced(tier, ds, sem);
    PricedBound(tier, ds);
  }

  lemma {:induction false} BreakdownPriced(tier: Tier, ds: seq<WinningTicket>, sem: int)
    ensures |Breakdown(tier, ds, sem)| == |Priced(tier, ds)|
  {
    if ds != [] {
      BreakdownPriced(tier, ds[..|ds| - 1], sem);
    }
  }

  lemma {:induction false} PricedBound(tier: Tier, ds: seq<WinningTicket>)
    ensures |Priced(tier, ds)| <= |ds|
    ensures tier == Pwt ==> Priced(tier, ds) == ds
  {
    if ds != [] {
      var init := ds[..|ds| - 1];
      PricedBound(tier, init);
      assert ds == init + [ds[|ds| - 1]];
    }
  }

  /** Each breakdown entry is written for one priced match, and the totals
      read back the tier amount times the SEM. */
  lemma {:induction false} BreakdownSpec(tier: Tier, ds: seq<WinningTicket>, sem: int)
    ensures var b := Breakdown(tier, ds, sem);
            var p := Priced(tier, ds);
            && |b| == |p|
            && forall i :: 0 <= i < |b| ==>
                 b[i] == BreakdownLine(Amount(tier, p[i].category) * sem, p[i].category, p[i].ticket)
                 && ParseAmount(b[i]) == Amount(tier, p[i].category) * sem
  {
    if ds != [] {
      var init := ds[..|ds| - 1];
      var d := ds[|ds| - 1];
      BreakdownSpec(tier, init, sem);
      if Pushes(tier, d) {
        ParseAmountOf(Amount(tier, d.category) * sem, WinnerInfo(d.category, d.ticket));
      }
    }
  }

  /** The sum of a tier's table amounts over the matches. */
  function TierSum(tier: Tier, ds: seq<WinningTicket>): nat {
    if ds == [] then 0 else TierSum(tier, ds[..|ds| - 1]) + Amount(tier, ds[|ds| - 1].category)
  }

  /** A tier's breakdown reads back, in total, the SEM times the sum of the
      tier amounts of all matches: the VC and SVC entries that are skipped
      are exactly the ones worth nothing. */
  lemma {:induction false} BreakdownTotal(tier: Tier, ds: seq<WinningTicket>, sem: int)
    ensures SumAmounts(Breakdown(tier, ds, sem)) == sem * TierSum(tier, ds)
  {
    if ds != [] {
      var init := ds[..|ds| - 1];
      var a := Amount(tier, ds[|ds| - 1].category);
      BreakdownTotal(tier, init, sem);
      BreakdownStep(tier, ds, sem);
      TierSumStep(tier, ds);
      MulAdd(sem, TierSum(tier, ds), TierSum(tier, init), a);
    }
  }

  lemma {:induction false} TierSumStep(tier: Tier, ds: seq<WinningTicket>)
    requires ds != []
    ensures TierSum(tier, ds) == TierSum(tier, ds[..|ds| - 1]) + Amount(tier, ds[|ds| - 1].category)
  {
  }

  /** The last match adds its amount times the SEM to the tier's total. */
  lemma {:induction false} BreakdownStep(tier: Tier, ds: seq<WinningTicket>, sem: int)
    requires ds != []
    ensures SumAmounts(Breakdown(tier, ds, sem))
            == SumAmounts(Breakdown(tier, ds[..|ds| - 1], sem)) + sem * Amount(tier, ds[|ds| - 1].category)
  {
    BreakdownLast(tier, ds, sem);
    MulComm(Amount(tier, ds[|ds| - 1].category), sem);
  }

  lemma {:induction false} BreakdownLast(tier: Tier, ds: seq<WinningTicket>, sem: int)
    requires ds != []
    ensures SumAmounts(Breakdown(tier, ds, sem))
            == SumAmounts(Breakdown(tier, ds[..|ds| - 1], sem)) + Amount(tier, ds[|ds| - 1].category) * sem
  {
    if Pushes(tier, ds[|ds| - 1]) {
      BreakdownPush(tier, ds, sem);
    } else {
      BreakdownSkip(tier, ds, sem);
    }
  }

  lemma {:induction false} MulComm(x: int, y: int)
    ensures x * y == y * x
  {
  }

  lemma {:induction false} BreakdownPush(tier: Tier, ds: seq<WinningTicket>, sem: int)
    requires ds != [] && Pushes(tier, ds[|ds| - 1])
    ensures SumAmounts(Breakdown(tier, ds, sem))
            == SumAmounts(Breakdown(tier, ds[..|ds| - 1], sem)) + Amount(tier, ds[|ds| - 1].category) * sem
  {
    var d := ds[|ds| - 1];
    var a := Amount(tier, d.category);
    var before := Breakdown(tier, ds[..|ds| - 1], sem);
    var line := BreakdownLine(a * sem, d.category, d.ticket);
    assert Breakdown(tier, ds, sem) == before + [line];
    ParseAmountOf(a * sem, WinnerInfo(d.category, d.ticket));
    SumAmountsSnoc(before, line);
  }

  lemma {:induction false} BreakdownSkip(tier: Tier, ds: seq<WinningTicket>, sem: int)
    requires ds != [] && !Pushes(tier, ds[|ds| - 1])
    ensures Breakdown(tier, ds, sem) == Breakdown(tier, ds[..|ds| - 1], sem)
    ensures Amount(tier, ds[|ds| - 1].category) == 0
  {
    var before := Breakdown(tier, ds[..|ds| - 1], sem);
    assert Breakdown(tier, ds, sem) == before + [];
    assert before + [] == before;
  }

  lemma {:induction false} MulAdd(x: int, w: int, y: int, z: int)
    requires w == y + z
    ensures x * w == x * y + x * z
  {
  }

  /** A match in one of the five known categories adds one entry to each
      breakdown; a match in any other category adds a PWT entry worth 0 and
      nothing else. */
  lemma {:induction false} PushesKnown(d: WinningTicket)
    ensures Pushes(Vc, d) <==> Amount(Pwt, d.category) > 0
    ensures Pushes(Svc, d) <==> Amount(Pwt, d.category) > 0
  {
  }

  // ---------------------------------------------------------------- unique winners

  function Tickets(ds: seq<WinningTicket>): (ts: seq<string>)
    ensures |ts| == |ds| && forall i :: 0 <= i < |ds| ==> ts[i] == ds[i].ticket
  {
    if ds == [] then [] else Tickets(ds[..|ds| - 1]) + [ds[|ds| - 1].ticket]
  }

  /** `uniqueWinners`: the first category seen for each winning ticket, in
      first-match order. */
  function UniqueWinners(ds: seq<WinningTicket>): seq<WinningTicket> {
    if ds == [] then []
    else
      var u := UniqueWinners(ds[..|ds| - 1]);
      if ds[|ds| - 1].ticket in Tickets(u) then u else u + [ds[|ds| - 1]]
  }

  /** The `uniqueWinners` loop and the array built from it. */
  method CollectWinners(details: seq<WinningTicket>) returns (winningTickets: seq<WinningTicket>)
    ensures winningTickets == UniqueWinners(details)
  {
    winningTickets := [];
    for i := 0 to |details|
      invariant winningTickets == UniqueWinners(details[..i])
    {
      assert details[..i + 1][..i] == details[..i];
      if details[i].ticket !in Tickets(winningTickets) {
        winningTickets := winningTickets + [details[i]];
      }
    }
    assert details[..|details|] == details;
  }

  /** The winning tickets are the distinct matched tickets in first-match order. */
  lemma {:induction false} UniqueWinnersOrder(ds: seq<WinningTicket>)
    ensures Tickets(UniqueWinners(ds)) == Dedup(Tickets(ds))
  {
    if ds != [] {
      var init := ds[..|ds| - 1];
      var d := ds[|ds| - 1];
      UniqueWinnersOrder(init);
      assert Tickets(ds) == Tickets(init) + [d.ticket];
      AddAllSnoc([], Tickets(init), d.ticket);
    }
  }

  /** Each winning ticket carries the category of its first match. */
  lemma {:induction false} UniqueWinnersFirst(ds: seq<WinningTicket>, u: WinningTicket)
    requires u in UniqueWinners(ds)
    ensures exists i :: 0 <= i < |ds| && ds[i] == u && forall j :: 0 <= j < i ==> ds[j].ticket != u.ticket
  {
    var init := ds[..|ds| - 1];
    var d := ds[|ds| - 1];
    assert forall i :: 0 <= i < |init| ==> init[i] == ds[i];
    if u in UniqueWinners(init) {
      UniqueWinnersFirst(init, u);
    } else {
      assert u == d && d.ticket !in Tickets(UniqueWinners(init));
      assert d.ticket !in Tickets(init) by {
        UniqueWinnersOrder(init);
        DedupSpec(Tickets(init));
      }
      assert forall j :: 0 <= j < |init| ==> ds[j].ticket != d.ticket by {
        assert forall j :: 0 <= j < |init| ==> Tickets(init)[j] == ds[j].ticket;
      }
    }
  }
}
