/** JavaScript's `Set` and `Map` remember insertion order. This module models
    a `Set` as a duplicate-free sequence and a `Map` as a sequence of entries
    with distinct keys, both in insertion order. */
module Ordered {

  predicate NoDups<T(==)>(xs: seq<T>) {
    forall i, j :: 0 <= i < j < |xs| ==> xs[i] != xs[j]
  }

  /** `set.add(x)`: appends `x` unless it is already there. */
  function SetAdd<T(==)>(s: seq<T>, x: T): seq<T> {
    if x in s then s else s + [x]
  }

  /** Adding the elements of `xs` one after the other. */
  function AddAll<T(==)>(s: seq<T>, xs: seq<T>): seq<T>
    decreases |xs|
  {
    if xs == [] then s else SetAdd(AddAll(s, xs[..|xs| - 1]), xs[|xs| - 1])
  }

  /** `[...new Set(xs)]`: the distinct elements of `xs` in first-occurrence order. */
  function Dedup<T(==)>(xs: seq<T>): seq<T> {
    AddAll([], xs)
  }

  /** Adding to a set keeps what was there, in place, adds exactly the new
      elements, and never creates a duplicate. */
  lemma {:induction false} AddAllSpec<T>(s: seq<T>, xs: seq<T>)
    requires NoDups(s)
    ensures NoDups(AddAll(s, xs))
    ensures |s| <= |AddAll(s, xs)| && AddAll(s, xs)[..|s|] == s
    ensures forall x :: x in AddAll(s, xs) <==> x in s || x in xs
    ensures |AddAll(s, xs)| <= |s| + |xs|
    decreases |xs|
  {
    if xs != [] {
      var init := xs[..|xs| - 1];
      AddAllSpec(s, init);
      assert xs == init + [xs[|xs| - 1]];
      var r := AddAll(s, init);
      assert r[..|s|] == s;
      assert (r + [xs[|xs| - 1]])[..|s|] == r[..|s|];
    }
  }

  /** Adding one more element is `set.add` on the set built so far. */
  lemma {:induction false} AddAllSnoc<T>(s: seq<T>, xs: seq<T>, x: T)
    ensures AddAll(s, xs + [x]) == SetAdd(AddAll(s, xs), x)
  {
    assert (xs + [x])[..|xs|] == xs;
  }

  /** Adding two lists in turn is adding their concatenation. */
  lemma {:induction false} AddAllAppend<T>(s: seq<T>, a: seq<T>, b: seq<T>)
    ensures AddAll(AddAll(s, a), b) == AddAll(s, a + b)
    decreases |b|
  {
    if b == [] {
      assert a + b == a;
    } else {
      AddAllAppend(s, a, b[..|b| - 1]);
      assert (a + b)[..|a + b| - 1] == a + b[..|b| - 1];
      assert (a + b)[|a + b| - 1] == b[|b| - 1];
    }
  }

  /** Adding elements that are already distinct and new simply appends them. */
  lemma {:induction false} AddAllFresh<T>(s: seq<T>, xs: seq<T>)
    requires NoDups(xs)
    requires forall x :: x in xs ==> x !in s
    ensures AddAll(s, xs) == s + xs
    decreases |xs|
  {
    if xs != [] {
      var init := xs[..|xs| - 1];
      AddAllFresh(s, init);
      assert xs[|xs| - 1] !in init;
      assert xs == init + [xs[|xs| - 1]];
    }
  }

  /** The distinct elements of a list, in first-occurrence order, without duplicates. */
  lemma {:induction false} DedupSpec<T>(xs: seq<T>)
    ensures NoDups(Dedup(xs))
    ensures forall x :: x in Dedup(xs) <==> x in xs
    ensures |Dedup(xs)| <= |xs|
    ensures NoDups(xs) ==> Dedup(xs) == xs
  {
    AddAllSpec([], xs);
    if NoDups(xs) {
      AddAllFresh([], xs);
    }
  }

  /** A duplicate-free list is as long as the set of its elements. */
  lemma {:induction false} NoDupsCard<T>(xs: seq<T>)
    requires NoDups(xs)
    ensures |set x | x in xs| == |xs|
  {
    if xs != [] {
      var init := xs[..|xs| - 1];
      NoDupsCard(init);
      assert xs == init + [xs[|xs| - 1]];
      assert (set x | x in xs) == (set x | x in init) + {xs[|xs| - 1]};
    }
  }

  // ---------------------------------------------------------------- sequence helpers

  /** `xs.map(f)`: `f` applied to every element, in order. */
  function MapSeq<T, U>(f: T -> U, xs: seq<T>): (ys: seq<U>)
    ensures |ys| == |xs|
  {
    if xs == [] then [] else MapSeq(f, xs[..|xs| - 1]) + [f(xs[|xs| - 1])]
  }

  lemma {:induction false} MapSeqAt<T, U>(f: T -> U, xs: seq<T>, k: nat)
    requires k < |xs|
    ensures MapSeq(f, xs)[k] == f(xs[k])
  {
    var init := xs[..|xs| - 1];
    if k < |init| {
      MapSeqAt(f, init, k);
      assert init[k] == xs[k];
    }
  }

  lemma {:induction false} MapSeqAll<T, U>(f: T -> U, xs: seq<T>)
    ensures forall k :: 0 <= k < |xs| ==> MapSeq(f, xs)[k] == f(xs[k])
  {
    forall k | 0 <= k < |xs|
      ensures MapSeq(f, xs)[k] == f(xs[k])
    {
      MapSeqAt(f, xs, k);
    }
  }

  lemma {:induction false} MapSeqSnoc<T, U>(f: T -> U, xs: seq<T>, x: T)
    ensures MapSeq(f, xs + [x]) == MapSeq(f, xs) + [f(x)]
  {
    assert (xs + [x])[..|xs|] == xs;
  }

  /** The sequences of `runs`, one after the other. */
  function Concat<T>(runs: seq<seq<T>>): seq<T> {
    if runs == [] then [] else Concat(runs[..|runs| - 1]) + runs[|runs| - 1]
  }

  lemma {:induction false} AddAllOne<T>(s: seq<T>, x: T)
    ensures AddAll(s, [x]) == SetAdd(s, x)
  {
    assert [x][..0] == [];
  }

  /** Splitting off the last element of the right operand. */
  lemma {:induction false} AppendLast<T>(a: seq<T>, b: seq<T>)
    requires b != []
    ensures b == b[..|b| - 1] + [b[|b| - 1]]
    ensures a + b == (a + b[..|b| - 1]) + [b[|b| - 1]]
  {
    assert b == b[..|b| - 1] + [b[|b| - 1]];
    AppendAssoc(a, b[..|b| - 1], [b[|b| - 1]]);
  }

  lemma {:induction false} AppendAssoc<T>(a: seq<T>, b: seq<T>, c: seq<T>)
    ensures a + b + c == a + (b + c)
  {
  }

  /** A slice of a slice. */
  lemma {:induction false} SliceOfSlice<T>(s: seq<T>, i: nat, k: nat, j: nat)
    requires i + k <= j <= |s|
    ensures s[i..j][k..] == s[i + k..j]
  {
  }

  /** Concatenating a first sequence and the rest. */
  lemma {:induction false} ConcatCons<T>(c: seq<T>, rest: seq<seq<T>>)
    ensures Concat([c] + rest) == c + Concat(rest)
  {
    if rest != [] {
      var init := rest[..|rest| - 1];
      ConcatCons(c, init);
      assert ([c] + rest)[..|rest|] == [c] + init;
    }
  }

  /** A loop's prefix grows by the element at its end. */
  lemma {:induction false} SliceSnoc<T>(s: seq<T>, j: nat)
    requires j < |s|
    ensures s[..j + 1] == s[..j] + [s[j]]
  {
  }

  lemma {:induction false} SliceAll<T>(s: seq<T>)
    ensures s[..|s|] == s
  {
  }
}
