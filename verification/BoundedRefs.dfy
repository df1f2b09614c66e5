/** Capped lists of distinct references in order of first appearance, in the two ways the program builds them. */
module BoundedRefs {

  const MAX_BASELINE_REFS := 64

  function PushRef<T(==)>(values: seq<T>, value: T): seq<T> {
    if |values| < MAX_BASELINE_REFS && value !in values then values + [value] else values
  }

  function ExtendRefs<T(==)>(values: seq<T>, incoming: seq<T>): seq<T>
    decreases |incoming|
  {
    if incoming == [] then values else ExtendRefs(PushRef(values, incoming[0]), incoming[1..])
  }

  function Bounded<T(==)>(incoming: seq<T>): seq<T> {
    ExtendRefs([], incoming)
  }

  // ---------- The program's loops ----------

  /** A vector of references that is pushed to in place. */
  class RefList<T(==)> {
    var values: seq<T>

    constructor ()
      ensures values == []
    {
      values := [];
    }

    method Push(value: T)
      modifies this
      ensures values == PushRef(old(values), value)
    {
      if |values| < MAX_BASELINE_REFS && value !in values {
        values := values + [value];
      }
    }

    method Extend(incoming: seq<T>)
      modifies this
      ensures values == ExtendRefs(old(values), incoming)
    {
      var i := 0;
      while i < |incoming|
        invariant 0 <= i <= |incoming|
        invariant ExtendRefs(values, incoming[i..]) == ExtendRefs(old(values), incoming)
      {
        Push(incoming[i]);
        assert incoming[i..][1..] == incoming[i + 1..];
        i := i + 1;
      }
    }
  }

  method BoundedRefs<T(==)>(incoming: seq<T>) returns (bounded: seq<T>)
    ensures bounded == Take(Distinct(incoming), 64)
  {
    bounded := [];
    var i := 0;
    while i < |incoming|
      invariant 0 <= i <= |incoming|
      invariant bounded == Take(Distinct(incoming[..i]), MAX_BASELINE_REFS)
    {
      DistinctMembers(incoming[..i]);
      assert incoming[..i + 1][..i] == incoming[..i];
      if |bounded| < MAX_BASELINE_REFS && incoming[i] !in bounded { bounded := bounded + [incoming[i]]; }
      i := i + 1;
    }
    assert incoming[..i] == incoming;
  }

  /** The other implementation: a set filters repeats, and the first 64 survivors are taken. */
  method BoundedUniqueStrings(values: seq<string>) returns (unique: seq<string>)
    ensures unique == Bounded(values)
  {
    var seen: set<string> := {};
    var kept: seq<string> := [];
    var i := 0;
    while i < |values|
      invariant 0 <= i <= |values|
      invariant kept == Distinct(values[..i])
      invariant forall v :: v in seen <==> v in values[..i]
    {
      assert values[..i + 1][..i] == values[..i];
      if values[i] !in seen {
        seen := seen + {values[i]};
        kept := kept + [values[i]];
      }
      i := i + 1;
    }
    assert values[..i] == values;
    BoundedIsFirstDistinct(values);
    unique := Take(kept, 64);
  }

  // ---------- What they compute ----------

  function Take<T>(xs: seq<T>, n: nat): seq<T> {
    if |xs| <= n then xs else xs[..n]
  }

  /** The distinct values of a list, each at its first appearance. */
  function Distinct<T(==)>(xs: seq<T>): seq<T> {
    if xs == [] then []
    else
      var n := |xs| - 1;
      if xs[n] in xs[..n] then Distinct(xs[..n]) else Distinct(xs[..n]) + [xs[n]]
  }

  predicate SameMembers<T(==)>(a: seq<T>, b: seq<T>) {
    (forall x :: x in a ==> x in b) && (forall x :: x in b ==> x in a)
  }

  lemma {:induction false} DistinctMembers<T>(xs: seq<T>)
    ensures SameMembers(Distinct(xs), xs)
    ensures |Distinct(xs)| <= |xs|
  {
    if xs != [] {
      var n := |xs| - 1;
      DistinctMembers(xs[..n]);
      assert xs == xs[..n] + [xs[n]];
    }
  }

  function FirstIndex<T(==)>(xs: seq<T>, x: T): (i: nat)
    requires x in xs
    ensures i < |xs| && xs[i] == x
    ensures forall j :: 0 <= j < i ==> xs[j] != x
  {
    if xs[0] == x then 0
    else
      assert xs == [xs[0]] + xs[1..];
      FirstIndex(xs[1..], x) + 1
  }

  lemma FirstIndexUnique<T>(xs: seq<T>, x: T, i: nat)
    requires i < |xs| && xs[i] == x && x !in xs[..i]
    ensures FirstIndex(xs, x) == i
  {
    forall k | 0 <= k < i ensures xs[k] != x { assert xs[k] == xs[..i][k]; }
  }

  /** Distinct values stand in the order in which they first appeared. */
  lemma {:induction false} DistinctInOrder<T>(xs: seq<T>, i: nat, j: nat)
    requires i < j < |Distinct(xs)|
    ensures Distinct(xs)[i] in xs && Distinct(xs)[j] in xs
    ensures FirstIndex(xs, Distinct(xs)[i]) < FirstIndex(xs, Distinct(xs)[j])
  {
    var n := |xs| - 1;
    var front := Distinct(xs[..n]);
    DistinctMembers(xs[..n]);
    assert front[i] in xs[..n];
    FirstIndexOfPrefix(xs, n, front[i]);
    if j < |front| {
      assert front[j] in xs[..n];
      FirstIndexOfPrefix(xs, n, front[j]);
      DistinctInOrder(xs[..n], i, j);
    } else {
      FirstIndexUnique(xs, xs[n], n);
    }
  }

  lemma FirstIndexOfPrefix<T>(xs: seq<T>, n: nat, x: T)
    requires n <= |xs| && x in xs[..n]
    ensures x in xs && FirstIndex(xs, x) == FirstIndex(xs[..n], x) < n
  {
    var i := FirstIndex(xs[..n], x);
    assert xs[i] == x;
    forall j | 0 <= j < i ensures xs[j] != x { assert xs[..n][j] == xs[j]; }
    assert x !in xs[..i];
    FirstIndexUnique(xs, x, i);
  }

  // ---------- Laws ----------

  /** Extending by one list and then another is extending by both. */
  lemma {:induction false} ExtendComposes<T>(values: seq<T>, a: seq<T>, b: seq<T>)
    ensures ExtendRefs(ExtendRefs(values, a), b) == ExtendRefs(values, a + b)
    decreases |a|
  {
    if a == [] {
      assert a + b == b;
    } else {
      var joined := a + b;
      assert joined[0] == a[0] && joined[1..] == a[1..] + b;
      ExtendComposes(PushRef(values, a[0]), a[1..], b);
    }
  }

  lemma ExtendLast<T>(values: seq<T>, a: seq<T>, x: T)
    ensures ExtendRefs(values, a + [x]) == PushRef(ExtendRefs(values, a), x)
  {
    ExtendComposes(values, a, [x]);
    assert [x][1..] == [];
  }

  /** Pushing one by one under the cap keeps the first MAX distinct values. */
  lemma {:induction false} BoundedIsFirstDistinct<T>(xs: seq<T>)
    ensures Bounded(xs) == Take(Distinct(xs), 64)
  {
    if xs != [] {
      var n := |xs| - 1;
      BoundedIsFirstDistinct(xs[..n]);
      assert xs == xs[..n] + [xs[n]];
      ExtendLast([], xs[..n], xs[n]);
      DistinctMembers(xs[..n]);
    }
  }

  predicate NoRepeats<T(==)>(xs: seq<T>) {
    forall i, j :: 0 <= i < j < |xs| ==> xs[i] != xs[j]
  }

  lemma {:induction false} DistinctFixed<T>(xs: seq<T>)
    requires NoRepeats(xs)
    ensures Distinct(xs) == xs
  {
    if xs != [] {
      var n := |xs| - 1;
      DistinctFixed(xs[..n]);
      assert xs == xs[..n] + [xs[n]];
    }
  }

  lemma {:induction false} DistinctNoRepeats<T>(xs: seq<T>)
    ensures NoRepeats(Distinct(xs))
  {
    if xs != [] {
      var n := |xs| - 1;
      DistinctNoRepeats(xs[..n]);
      DistinctMembers(xs[..n]);
    }
  }

  lemma BoundedShape<T>(xs: seq<T>)
    ensures NoRepeats(Bounded(xs)) && |Bounded(xs)| <= 64
    ensures forall x :: x in Bounded(xs) ==> x in xs
    ensures |Distinct(xs)| <= 64 ==> forall x :: x in xs ==> x in Bounded(xs)
  {
    BoundedIsFirstDistinct(xs);
    DistinctMembers(xs);
    DistinctNoRepeats(xs);
    forall x | x in Bounded(xs) ensures x in xs { assert x in Distinct(xs); }
  }

  /** Bounding a bounded list leaves it as it is. */
  lemma BoundedIdempotent<T>(xs: seq<T>)
    ensures Bounded(Bounded(xs)) == Bounded(xs)
  {
    BoundedShape(xs);
    BoundedIsFirstDistinct(Bounded(xs));
    DistinctFixed(Bounded(xs));
  }

  /** Extending a bounded list is bounding the two together: what an accumulator of many lists holds. */
  lemma BoundedExtends<T>(a: seq<T>, b: seq<T>)
    ensures ExtendRefs(Bounded(a), b) == Bounded(a + b)
  {
    ExtendComposes([], a, b);
  }
}
