/** The unsold reconciliation of `updateRowData`: the unsold entries are
    de-duplicated, the gap left by duplicates is back-filled from the purchased
    set, every unsold entry is flagged valid when it was purchased, and the sold
    list is the purchased set without the valid unsold entries. */
module Reconciliation {
  import opened JsText
  import opened Ordered
  import opened RangeExpansion

  /** The elements of `xs` that occur in `ys`, in the order of `xs`. */
  function KeepIn(xs: seq<string>, ys: seq<string>): (r: seq<string>)
    ensures |r| <= |xs|
  {
    if xs == [] then []
    else (if xs[0] in ys then [xs[0]] else []) + KeepIn(xs[1..], ys)
  }

  /** The elements of `xs` that do not occur in `ys`, in the order of `xs`. */
  function DropIn(xs: seq<string>, ys: seq<string>): (r: seq<string>)
    ensures |r| <= |xs|
  {
    if xs == [] then []
    else (if xs[0] in ys then [] else [xs[0]]) + DropIn(xs[1..], ys)
  }

  lemma {:induction false} KeepInSpec(xs: seq<string>, ys: seq<string>)
    ensures forall x :: x in KeepIn(xs, ys) <==> x in xs && x in ys
    ensures NoDups(xs) ==> NoDups(KeepIn(xs, ys))
  {
    if xs != [] {
      KeepInSpec(xs[1..], ys);
      assert xs == [xs[0]] + xs[1..];
    }
  }

  lemma {:induction false} DropInSpec(xs: seq<string>, ys: seq<string>)
    ensures forall x :: x in DropIn(xs, ys) <==> x in xs && x !in ys
    ensures NoDups(xs) ==> NoDups(DropIn(xs, ys))
  {
    if xs != [] {
      DropInSpec(xs[1..], ys);
      assert xs == [xs[0]] + xs[1..];
    }
  }

  function Take(xs: seq<string>, n: int): (r: seq<string>)
    ensures |r| == if n <= 0 then 0 else if n < |xs| then n else |xs|
  {
    if n <= 0 || xs == [] then [] else [xs[0]] + Take(xs[1..], n - 1)
  }

  // ---------------------------------------------------------------- back-filling

  /** The back-fill loop: while entries are still needed, the next purchased
      ticket is appended unless it is already listed. */
  function Backfill(finalUnsold: seq<string>, needed: int, candidates: seq<string>): seq<string>
    decreases |candidates|
  {
    if needed <= 0 || candidates == [] then finalUnsold
    else if candidates[0] in finalUnsold then Backfill(finalUnsold, needed, candidates[1..])
    else Backfill(finalUnsold + [candidates[0]], needed - 1, candidates[1..])
  }

  /** The loop that takes purchased tickets until enough are found or none are left. */
  method BackfillLoop(uniqueUnsold: seq<string>, duplicates: int, purchaseArray: seq<string>)
    returns (finalUnsold: seq<string>)
    ensures finalUnsold == Backfill(uniqueUnsold, duplicates, purchaseArray)
  {
    finalUnsold := uniqueUnsold;
    var needed := duplicates;
    var pi := 0;
    while needed > 0 && pi < |purchaseArray|
      invariant 0 <= pi <= |purchaseArray|
      invariant Backfill(finalUnsold, needed, purchaseArray[pi..]) == Backfill(uniqueUnsold, duplicates, purchaseArray)
    {
      var candidate := purchaseArray[pi];
      assert purchaseArray[pi..][1..] == purchaseArray[pi + 1..];
      pi := pi + 1;
      if candidate !in finalUnsold {
        finalUnsold := finalUnsold + [candidate];
        needed := needed - 1;
      }
    }
  }

  /** Dropping what a longer list holds drops nothing more when the extra element is not there. */
  lemma {:induction false} DropInExtend(xs: seq<string>, ys: seq<string>, y: string)
    requires y !in xs
    ensures DropIn(xs, ys + [y]) == DropIn(xs, ys)
  {
    if xs != [] {
      DropInExtend(xs[1..], ys, y);
    }
  }

  /** With distinct candidates, the back-fill appends the first `needed`
      candidates that were not already listed, in candidate order. */
  lemma {:induction false} BackfillSpec(u: seq<string>, needed: int, candidates: seq<string>)
    requires NoDups(candidates)
    ensures Backfill(u, needed, candidates) == u + Take(DropIn(candidates, u), needed)
    decreases |candidates|
  {
    if needed > 0 && candidates != [] {
      var c := candidates[0];
      var rest := candidates[1..];
      assert NoDups(rest);
      if c in u {
        BackfillSpec(u, needed, rest);
        assert DropIn(candidates, u) == DropIn(rest, u);
      } else {
        BackfillSpec(u + [c], needed - 1, rest);
        assert c !in rest;
        DropInExtend(rest, u, c);
        assert DropIn(candidates, u) == [c] + DropIn(rest, u);
      }
    }
  }

  // ---------------------------------------------------------------- reconciliation

  datatype UnsoldStatus = UnsoldStatus(number: string, isValid: bool)

  /** Each unsold entry with its flag: valid exactly when it was purchased. */
  function WithStatus(unsold: seq<string>, purchased: seq<string>): (r: seq<UnsoldStatus>)
    ensures |r| == |unsold|
    ensures forall i :: 0 <= i < |unsold| ==> r[i] == UnsoldStatus(unsold[i], unsold[i] in purchased)
  {
    if unsold == [] then []
    else WithStatus(unsold[..|unsold| - 1], purchased) + [UnsoldStatus(unsold[|unsold| - 1], unsold[|unsold| - 1] in purchased)]
  }

  /** What reconciliation computes for a row whose purchased set is not empty. */
  datatype Reconciled = Reconciled(unsoldNumbers: seq<string>, withStatus: seq<UnsoldStatus>, soldNumbers: seq<string>)

  /** The unsold entries the user typed, then the list with duplicates
      replaced by purchased tickets. */
  function UnsoldNumbers(unsoldRaw: string, purchased: seq<string>): seq<string> {
    var shorthandUnsold := Segments(unsoldRaw);
    var uniqueUnsold := Dedup(shorthandUnsold);
    Backfill(uniqueUnsold, |shorthandUnsold| - |uniqueUnsold|, purchased)
  }

  /** The sold tickets: the purchased set, in its order, without the valid unsold ones. */
  function SoldNumbers(unsold: seq<string>, purchased: seq<string>): seq<string> {
    DropIn(purchased, Dedup(KeepIn(unsold, purchased)))
  }

  function Reconcile(unsoldRaw: string, purchased: seq<string>): Reconciled {
    var unsold := UnsoldNumbers(unsoldRaw, purchased);
    Reconciled(unsold, WithStatus(unsold, purchased), SoldNumbers(unsold, purchased))
  }

  /** The reconciliation steps of `updateRowData` once the purchased set is not empty. */
  method ReconcileUnsold(unsoldRaw: string, purchaseSet: seq<string>) returns (r: Reconciled)
    ensures r == Reconcile(unsoldRaw, purchaseSet)
  {
    var shorthandUnsold := Segments(unsoldRaw);
    var uniqueUnsold := Dedup(shorthandUnsold);
    var finalUnsold := BackfillLoop(uniqueUnsold, |shorthandUnsold| - |uniqueUnsold|, purchaseSet);
    var validUnsoldNumbers := Dedup(KeepIn(finalUnsold, purchaseSet));
    var soldNumbers := DropIn(purchaseSet, validUnsoldNumbers);
    r := Reconciled(finalUnsold, WithStatus(finalUnsold, purchaseSet), soldNumbers);
  }

  // ---------------------------------------------------------------- what it guarantees

  /** The unsold list starts with the distinct entries in first-occurrence
      order, has no duplicates, appends only purchased tickets not listed yet,
      in purchase order, as many as there were duplicates or as many as are
      left, and so is never longer than what was typed. */
  lemma {:induction false} UnsoldNumbersSpec(unsoldRaw: string, purchased: seq<string>)
    requires NoDups(purchased)
    ensures var entries := Segments(unsoldRaw);
            var unique := Dedup(entries);
            var unsold := UnsoldNumbers(unsoldRaw, purchased);
            && unsold == unique + Take(DropIn(purchased, unique), |entries| - |unique|)
            && NoDups(unsold)
            && |unsold| <= |entries|
            && (forall x :: x in unsold <==> x in entries || x in Take(DropIn(purchased, unique), |entries| - |unique|))
  {
    var entries := Segments(unsoldRaw);
    var unique := Dedup(entries);
    var fill := Take(DropIn(purchased, unique), |entries| - |unique|);
    assert UnsoldNumbers(unsoldRaw, purchased) == unique + fill by {
      BackfillSpec(unique, |entries| - |unique|, purchased);
    }
    assert NoDups(unique) && |unique| <= |entries| && forall x :: x in unique <==> x in entries by {
      DedupSpec(entries);
    }
    assert NoDups(fill) && forall x :: x in fill ==> x !in unique by {
      DropInSpec(purchased, unique);
      TakeSpec(DropIn(purchased, unique), |entries| - |unique|);
    }
    JoinSpec(unique, fill, entries);
  }

  /** Joining a duplicate-free list with disjoint new elements. */
  lemma {:induction false} JoinSpec(a: seq<string>, b: seq<string>, e: seq<string>)
    requires NoDups(a) && NoDups(b) && forall x :: x in b ==> x !in a
    requires forall x :: x in a <==> x in e
    ensures NoDups(a + b)
    ensures forall x :: x in a + b <==> x in e || x in b
  {
    NoDupsJoin(a, b);
  }

  lemma {:induction false} TakeSpec(xs: seq<string>, n: int)
    ensures forall x :: x in Take(xs, n) ==> x in xs
    ensures NoDups(xs) ==> NoDups(Take(xs, n))
  {
    if n > 0 && xs != [] {
      TakeSpec(xs[1..], n - 1);
      assert xs == [xs[0]] + xs[1..];
      if NoDups(xs) {
        assert xs[0] !in xs[1..];
        NoDupsJoin([xs[0]], Take(xs[1..], n - 1));
      }
    }
  }

  /** Two duplicate-free lists with nothing in common join without duplicates. */
  lemma {:induction false} NoDupsJoin(a: seq<string>, b: seq<string>)
    requires NoDups(a) && NoDups(b) && forall x :: x in b ==> x !in a
    ensures NoDups(a + b)
  {
    forall i, j | 0 <= i < j < |a + b|
      ensures (a + b)[i] != (a + b)[j]
    {
      if i < |a| && j >= |a| {
        assert (a + b)[j] == b[j - |a|];
        assert b[j - |a|] in b;
      }
    }
  }

  /** The sold tickets and the valid unsold tickets split the purchased set:
      every purchased ticket is in exactly one of them, nothing else is in
      either, and the sold list keeps the purchase order without duplicates. */
  lemma {:induction false} SoldPartition(unsold: seq<string>, purchased: seq<string>)
    ensures var sold := SoldNumbers(unsold, purchased);
            && (forall x :: x in purchased <==> x in sold || (x in unsold && x in purchased))
            && (forall x :: x in sold ==> x !in unsold)
            && (NoDups(purchased) ==> NoDups(sold))
  {
    var valid := Dedup(KeepIn(unsold, purchased));
    KeepInSpec(unsold, purchased);
    DedupSpec(KeepIn(unsold, purchased));
    DropInSpec(purchased, valid);
  }

  /** With distinct purchased tickets, the sold count and the valid unsold
      count add up to the purchased count. */
  lemma {:induction false} SoldCount(unsold: seq<string>, purchased: seq<string>)
    requires NoDups(purchased)
    ensures |SoldNumbers(unsold, purchased)| + |Dedup(KeepIn(unsold, purchased))| == |purchased|
  {
    var valid := Dedup(KeepIn(unsold, purchased));
    var sold := SoldNumbers(unsold, purchased);
    KeepInSpec(unsold, purchased);
    DedupSpec(KeepIn(unsold, purchased));
    DropInSpec(purchased, valid);
    NoDupsCard(sold);
    NoDupsCard(valid);
    NoDupsCard(purchased);
    assert (set x | x in purchased) == (set x | x in sold) + (set x | x in valid);
    assert (set x | x in sold) * (set x | x in valid) == {};
  }
}
