/** Ordering, sorting and deduplication of strings by the bytes of their UTF-8 form, and blank texts. */
module Text {

  /** Byte-wise order of the UTF-8 forms, which is the order by code points. */
  predicate Leq(a: string, b: string) {
    a == [] || (b != [] && (a[0] < b[0] || (a[0] == b[0] && Leq(a[1..], b[1..]))))
  }

  lemma LeqReflexive(a: string)
    ensures Leq(a, a)
  {}

  lemma LeqTotal(a: string, b: string)
    ensures Leq(a, b) || Leq(b, a)
  {}

  lemma LeqTransitive(a: string, b: string, c: string)
    requires Leq(a, b) && Leq(b, c)
    ensures Leq(a, c)
  {}

  lemma LeqAntisymmetric(a: string, b: string)
    requires Leq(a, b) && Leq(b, a)
    ensures a == b
  {
    if a != [] && b != [] {
      LeqAntisymmetric(a[1..], b[1..]);
      assert a == [a[0]] + a[1..] && b == [b[0]] + b[1..];
    }
  }

  /** The texts first differ at n, or the first one ends there. */
  predicate Precedes(a: string, b: string, n: nat) {
    n <= |a| && n <= |b| && a[..n] == b[..n] && (n == |a| || (n < |b| && a[n] < b[n]))
  }

  lemma {:induction false} LeqExactlyWhen(a: string, b: string)
    ensures Leq(a, b) <==> exists n: nat :: Precedes(a, b, n)
  {
    if a == [] {
      assert Precedes(a, b, 0);
    } else if b != [] && a[0] == b[0] {
      LeqExactlyWhen(a[1..], b[1..]);
      if Leq(a[1..], b[1..]) {
        var n: nat :| Precedes(a[1..], b[1..], n);
        assert a[..n + 1] == [a[0]] + a[1..][..n] && b[..n + 1] == [b[0]] + b[1..][..n];
        assert Precedes(a, b, n + 1);
      }
      if n: nat :| Precedes(a, b, n) {
        assert n > 0;
        assert a[1..][..n - 1] == a[..n][1..] && b[1..][..n - 1] == b[..n][1..];
        assert Precedes(a[1..], b[1..], n - 1);
      }
    } else if b != [] {
      if a[0] < b[0] { assert Precedes(a, b, 0); }
      if n: nat :| Precedes(a, b, n) {
        if n > 0 { assert a[..n][0] == b[..n][0]; }
      }
    }
  }

  predicate Ascending(xs: seq<string>) {
    forall i, j :: 0 <= i < j < |xs| ==> Leq(xs[i], xs[j])
  }

  predicate StrictlyAscending(xs: seq<string>) {
    forall i, j :: 0 <= i < j < |xs| ==> Leq(xs[i], xs[j]) && xs[i] != xs[j]
  }

  /** Puts a string before the first one it does not follow. */
  function Insert(x: string, xs: seq<string>): seq<string> {
    if xs == [] then [x]
    else if Leq(x, xs[0]) then [x] + xs
    else [xs[0]] + Insert(x, xs[1..])
  }

  function Sort(xs: seq<string>): seq<string> {
    if xs == [] then [] else Insert(xs[0], Sort(xs[1..]))
  }

  lemma {:induction false} InsertMember(x: string, xs: seq<string>, y: string)
    ensures y in Insert(x, xs) <==> y == x || y in xs
  {
    if xs != [] {
      assert xs == [xs[0]] + xs[1..];
      InsertMember(x, xs[1..], y);
    }
  }

  lemma {:induction false} InsertSorts(x: string, xs: seq<string>)
    requires Ascending(xs)
    ensures Ascending(Insert(x, xs))
  {
    if xs != [] {
      if Leq(x, xs[0]) {
        forall k | 0 < k < |xs| ensures Leq(x, xs[k]) { LeqTransitive(x, xs[0], xs[k]); }
      } else {
        LeqTotal(x, xs[0]);
        InsertSorts(x, xs[1..]);
        var rest := Insert(x, xs[1..]);
        forall k | 0 <= k < |rest| ensures Leq(xs[0], rest[k]) { InsertMember(x, xs[1..], rest[k]); }
      }
    }
  }

  lemma {:induction false} InsertKeepsAll(x: string, xs: seq<string>)
    ensures multiset(Insert(x, xs)) == multiset(xs) + multiset{x}
  {
    if xs != [] {
      assert xs == [xs[0]] + xs[1..];
      InsertKeepsAll(x, xs[1..]);
    }
  }

  lemma {:induction false} SortKeepsAll(xs: seq<string>)
    ensures multiset(Sort(xs)) == multiset(xs) && |Sort(xs)| == |xs|
  {
    if xs != [] {
      assert xs == [xs[0]] + xs[1..];
      SortKeepsAll(xs[1..]);
      InsertKeepsAll(xs[0], Sort(xs[1..]));
    }
    assert |Sort(xs)| == |multiset(Sort(xs))|;
  }

  /** Sorting returns the ascending rearrangement of a list. */
  lemma {:induction false} SortSorts(xs: seq<string>)
    ensures Ascending(Sort(xs))
    ensures multiset(Sort(xs)) == multiset(xs) && |Sort(xs)| == |xs|
    ensures forall x :: x in Sort(xs) <==> x in xs
  {
    if xs != [] {
      SortSorts(xs[1..]);
      InsertSorts(xs[0], Sort(xs[1..]));
    }
    SortKeepsAll(xs);
    forall x ensures x in Sort(xs) <==> x in xs { assert x in Sort(xs) <==> x in multiset(Sort(xs)); }
  }

  /** Drops every element that equals the one before it. */
  function Dedup(xs: seq<string>): seq<string> {
    if |xs| < 2 then xs
    else if xs[0] == xs[1] then Dedup(xs[1..])
    else [xs[0]] + Dedup(xs[1..])
  }

  lemma {:induction false} DedupMembers(xs: seq<string>)
    ensures forall x :: x in Dedup(xs) <==> x in xs
    ensures |Dedup(xs)| <= |xs|
  {
    if |xs| >= 2 {
      DedupMembers(xs[1..]);
      assert xs == [xs[0]] + xs[1..];
      assert xs[1] == xs[1..][0];
    }
  }

  lemma {:induction false} DedupStrict(xs: seq<string>)
    requires Ascending(xs)
    ensures StrictlyAscending(Dedup(xs))
  {
    if |xs| >= 2 {
      DedupStrict(xs[1..]);
      DedupMembers(xs[1..]);
      if xs[0] != xs[1] {
        var rest := Dedup(xs[1..]);
        forall k | 0 <= k < |rest| ensures Leq(xs[0], rest[k]) && xs[0] != rest[k] {
          assert rest[k] in xs[1..];
          var j :| 1 <= j < |xs| && xs[j] == rest[k];
          if xs[j] == xs[0] {
            assert j == 1 || Leq(xs[1], xs[j]);
            LeqReflexive(xs[1]);
            LeqAntisymmetric(xs[0], xs[1]);
          }
        }
      }
    }
  }

  /** A strictly ascending list is determined by which strings it holds. */
  lemma {:induction false} StrictlyAscendingUnique(xs: seq<string>, ys: seq<string>)
    requires StrictlyAscending(xs) && StrictlyAscending(ys)
    requires forall x :: x in xs <==> x in ys
    ensures xs == ys
  {
    assert ys != [] ==> ys[0] in ys;
    if xs != [] {
      assert xs[0] in ys;
      assert ys[0] in xs;
      var i :| 0 <= i < |ys| && ys[i] == xs[0];
      var j :| 0 <= j < |xs| && xs[j] == ys[0];
      if i > 0 && j > 0 { LeqAntisymmetric(xs[0], ys[0]); }
      assert xs == [xs[0]] + xs[1..] && ys == [ys[0]] + ys[1..];
      forall x ensures x in xs[1..] <==> x in ys[1..] {
        if x in xs[1..] {
          var k :| 0 <= k < |xs[1..]| && xs[1..][k] == x;
          assert x == xs[k + 1] && x in xs;
        }
        if x in ys[1..] {
          var k :| 0 <= k < |ys[1..]| && ys[1..][k] == x;
          assert x == ys[k + 1] && x in ys;
        }
      }
      StrictlyAscendingUnique(xs[1..], ys[1..]);
    }
  }

  lemma {:induction false} SortFixed(xs: seq<string>)
    requires Ascending(xs)
    ensures Sort(xs) == xs
  {
    if xs != [] {
      SortFixed(xs[1..]);
      assert xs == [xs[0]] + xs[1..];
    }
  }

  lemma {:induction false} DedupFixed(xs: seq<string>)
    requires StrictlyAscending(xs)
    ensures Dedup(xs) == xs
  {
    if |xs| >= 2 {
      assert xs == [xs[0]] + xs[1..];
      DedupFixed(xs[1..]);
    }
  }

  /** The characters that Unicode calls White_Space, which is what trimming removes. */
  predicate IsWhitespace(c: char) {
    var n := c as int;
    9 <= n <= 13 || n == 0x20 || n == 0x85 || n == 0xA0 || n == 0x1680 || 0x2000 <= n <= 0x200A
    || n == 0x2028 || n == 0x2029 || n == 0x202F || n == 0x205F || n == 0x3000
  }

  predicate IsBlank(s: string) {
    forall i :: 0 <= i < |s| ==> IsWhitespace(s[i])
  }
}
