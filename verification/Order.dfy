/** Byte-wise string order, and the sorted listings that ordered maps hand out.

    Rust compares `String`s by their UTF-8 bytes, which is the same as comparing them
    code point by code point. */
module Order {

  predicate Less(a: string, b: string) {
    |b| > 0 && (|a| == 0 || a[0] < b[0] || (a[0] == b[0] && Less(a[1..], b[1..])))
  }

  predicate AtMost(a: string, b: string) {
    a == b || Less(a, b)
  }

  lemma {:induction false} LessIrreflexive(a: string)
    ensures !Less(a, a)
  {
    if |a| > 0 { LessIrreflexive(a[1..]); }
  }

  lemma {:induction false} LessTransitive(a: string, b: string, c: string)
    requires Less(a, b) && Less(b, c)
    ensures Less(a, c)
  {
    if |a| > 0 && a[0] == b[0] == c[0] { LessTransitive(a[1..], b[1..], c[1..]); }
  }

  lemma {:induction false} LessTotal(a: string, b: string)
    ensures Less(a, b) || a == b || Less(b, a)
  {
    if |a| > 0 && |b| > 0 && a[0] == b[0] {
      LessTotal(a[1..], b[1..]);
      assert a == [a[0]] + a[1..] && b == [b[0]] + b[1..];
    }
  }

  lemma LessAsymmetric(a: string, b: string)
    requires Less(a, b)
    ensures !Less(b, a) && a != b
  {
    LessIrreflexive(a);
    if Less(b, a) { LessTransitive(a, b, a); }
  }

  /** A common prefix does not take part in a comparison. */
  lemma {:induction false} LessAfterPrefix(p: string, a: string, b: string)
    ensures Less(p + a, p + b) <==> Less(a, b)
  {
    if |p| == 0 {
      assert p + a == a && p + b == b;
    } else {
      LessAfterPrefix(p[1..], a, b);
      assert (p + a)[1..] == p[1..] + a && (p + b)[1..] == p[1..] + b;
    }
  }

  /** Two different strings of one length are already ordered before whatever follows them. */
  lemma {:induction false} LessBeforeSuffix(a: string, x: string, b: string, y: string)
    requires |a| == |b| && a != b
    ensures Less(a + x, b + y) <==> Less(a, b)
  {
    assert (a + x)[0] == a[0] && (b + y)[0] == b[0];
    if a[0] == b[0] {
      assert a == [a[0]] + a[1..] && b == [b[0]] + b[1..];
      assert (a + x)[1..] == a[1..] + x && (b + y)[1..] == b[1..] + y;
      LessBeforeSuffix(a[1..], x, b[1..], y);
    }
  }

  lemma {:induction false} PrefixAtMost(p: string, a: string)
    requires p <= a
    ensures AtMost(p, a)
  {
    if |p| > 0 {
      PrefixAtMost(p[1..], a[1..]);
      assert p == [p[0]] + p[1..] && a == [a[0]] + a[1..];
    }
  }

  /** The strings that start with `p` form one block: whatever is at least `p` without
      starting with it comes after every string that does. */
  lemma {:induction false} PrefixBlock(p: string, inside: string, outside: string)
    requires p <= inside && !(p <= outside) && AtMost(p, outside)
    ensures Less(inside, outside)
  {
    if |p| > 0 && |outside| > 0 && p[0] == outside[0] {
      assert p == [p[0]] + p[1..] && outside == [outside[0]] + outside[1..];
      PrefixBlock(p[1..], inside[1..], outside[1..]);
    }
  }

  // ----- sorted listings -----

  /** Strings rank as themselves. */
  function Plain(s: string): string { s }

  lemma PlainIsInjective() ensures Ranked(Plain) {}

  ghost predicate Ranked<T(!new)>(rank: T -> string) {
    forall a, b :: rank(a) == rank(b) ==> a == b
  }

  ghost predicate Ascending<T>(q: seq<T>, rank: T -> string) {
    forall i, j :: 0 <= i < j < |q| ==> Less(rank(q[i]), rank(q[j]))
  }

  predicate IsLeast<T(==)>(m: T, s: set<T>, rank: T -> string) {
    m in s && forall x | x in s :: AtMost(rank(m), rank(x))
  }

  lemma {:induction false} LeastExists<T(!new)>(s: set<T>, rank: T -> string)
    requires s != {} && Ranked(rank)
    ensures exists m :: IsLeast(m, s, rank)
    decreases |s|
  {
    var x :| x in s;
    if s == {x} {
      assert IsLeast(x, s, rank);
    } else {
      LeastExists(s - {x}, rank);
      var least :| IsLeast(least, s - {x}, rank);
      LessTotal(rank(least), rank(x));
      if Less(rank(least), rank(x)) {
        assert IsLeast(least, s, rank);
      } else {
        forall y | y in s ensures AtMost(rank(x), rank(y)) {
          if y != x && rank(least) != rank(y) { LessTransitive(rank(x), rank(least), rank(y)); }
        }
        assert IsLeast(x, s, rank);
      }
    }
  }

  lemma LeastUnique<T(!new)>(s: set<T>, rank: T -> string)
    requires Ranked(rank)
    ensures forall m, n :: IsLeast(m, s, rank) && IsLeast(n, s, rank) ==> m == n
  {
    forall m, n | IsLeast(m, s, rank) && IsLeast(n, s, rank) ensures m == n {
      if rank(m) != rank(n) { LessAsymmetric(rank(m), rank(n)); }
    }
  }

  function Least<T(!new,==)>(s: set<T>, rank: T -> string): (m: T)
    requires s != {} && Ranked(rank)
    ensures IsLeast(m, s, rank)
  {
    LeastExists(s, rank);
    LeastUnique(s, rank);
    var m :| m in s && IsLeast(m, s, rank);
    m
  }

  /** The elements of a set in ascending order, as iterating a `BTreeMap` or sorting a
      vector of distinct keys produces them. */
  function Sort<T(!new,==)>(s: set<T>, rank: T -> string): (q: seq<T>)
    requires Ranked(rank)
    ensures Ascending(q, rank)
    ensures forall x :: x in q <==> x in s
    ensures |q| == |s|
    decreases |s|
  {
    if s == {} then []
    else
      var m := Least(s, rank);
      var rest := Sort(s - {m}, rank);
      [m] + rest
  }

  /** A sorted listing is determined by its elements. */
  lemma {:induction false} SortedUnique<T(!new)>(q: seq<T>, r: seq<T>, rank: T -> string)
    requires Ascending(q, rank) && Ascending(r, rank)
    requires forall x :: x in q <==> x in r
    ensures q == r
  {
    assert |q| > 0 ==> q[0] in r;
    assert |r| > 0 ==> r[0] in q;
    if |q| > 0 && |r| > 0 {
      if q[0] != r[0] {
        var i :| 0 <= i < |r| && r[i] == q[0];
        var j :| 0 <= j < |q| && q[j] == r[0];
        LessAsymmetric(rank(q[0]), rank(r[0]));
      }
      AscendingTail(q, rank);
      AscendingTail(r, rank);
      forall x ensures x in q[1..] <==> x in r[1..] {
        assert x in q <==> x == q[0] || x in q[1..];
        assert x in r <==> x == r[0] || x in r[1..];
      }
      SortedUnique(q[1..], r[1..], rank);
    }
  }

  lemma AscendingTail<T>(q: seq<T>, rank: T -> string)
    requires |q| > 0 && Ascending(q, rank)
    ensures Ascending(q[1..], rank) && q[0] !in q[1..]
  {
    if q[0] in q[1..] { LessIrreflexive(rank(q[0])); }
  }
}
