/** Stable sorting by a total preorder, and the order of strings by code point. */
module Sorting {

  ghost predicate TotalPreorder<T(!new)>(le: (T, T) -> bool) {
    && (forall x, y :: le(x, y) || le(y, x))
    && (forall x, y, z :: le(x, y) && le(y, z) ==> le(x, z))
  }

  ghost predicate Ordered<T>(le: (T, T) -> bool, xs: seq<T>) {
    forall i, j :: 0 <= i < j < |xs| ==> le(xs[i], xs[j])
  }

  // Puts `x` behind every element that may stand before it.
  function Insert<T>(le: (T, T) -> bool, xs: seq<T>, x: T): (r: seq<T>) {
    if xs == [] then [x]
    else if le(xs[0], x) then [xs[0]] + Insert(le, xs[1..], x)
    else [x] + xs
  }

  function Sort<T>(le: (T, T) -> bool, xs: seq<T>): (r: seq<T>)
  {
    if xs == [] then [] else Insert(le, Sort(le, xs[..|xs| - 1]), xs[|xs| - 1])
  }

  function First<T>(xs: seq<T>, n: nat): (r: seq<T>) {
    if |xs| > n then xs[..n] else xs
  }

  lemma {:induction false} InsertKeeps<T>(le: (T, T) -> bool, xs: seq<T>, x: T)
    ensures multiset(Insert(le, xs, x)) == multiset(xs) + multiset{x}
    ensures forall y :: y in Insert(le, xs, x) <==> y in xs || y == x
  {
    if xs != [] {
      InsertKeeps(le, xs[1..], x);
      assert xs == [xs[0]] + xs[1..];
    }
  }

  lemma {:induction false} InsertOrders<T(!new)>(le: (T, T) -> bool, xs: seq<T>, x: T)
    requires TotalPreorder(le) && Ordered(le, xs)
    ensures Ordered(le, Insert(le, xs, x))
  {
    if xs != [] {
      var rest := Insert(le, xs[1..], x);
      InsertOrders(le, xs[1..], x);
      InsertKeeps(le, xs[1..], x);
      if le(xs[0], x) {
        var r := [xs[0]] + rest;
        forall i, j | 0 <= i < j < |r| ensures le(r[i], r[j]) {
          if i == 0 { assert rest[j - 1] in rest; }
        }
      }
    }
  }

  // Sorting rearranges and orders.
  lemma {:induction false} SortOrders<T(!new)>(le: (T, T) -> bool, xs: seq<T>)
    requires TotalPreorder(le)
    ensures multiset(Sort(le, xs)) == multiset(xs) && |Sort(le, xs)| == |xs|
    ensures Ordered(le, Sort(le, xs))
  {
    if xs != [] {
      var n := |xs| - 1;
      SortOrders(le, xs[..n]);
      InsertKeeps(le, Sort(le, xs[..n]), xs[n]);
      InsertOrders(le, Sort(le, xs[..n]), xs[n]);
      assert xs == xs[..n] + [xs[n]];
      assert |multiset(Sort(le, xs))| == |multiset(xs)|;
    }
  }

  lemma SameElements<T>(xs: seq<T>, ys: seq<T>)
    requires multiset(xs) == multiset(ys)
    ensures forall x :: x in xs <==> x in ys
  {
    forall x ensures x in xs <==> x in ys {
      assert x in xs <==> x in multiset(xs);
      assert x in ys <==> x in multiset(ys);
    }
  }

  // The elements that satisfy `p`, in order.
  function Filter<T(!new)>(p: T -> bool, xs: seq<T>): (r: seq<T>)
    ensures forall x :: x in r <==> x in xs && p(x)
    ensures |r| <= |xs|
  {
    if xs == [] then [] else (if p(xs[0]) then [xs[0]] else []) + Filter(p, xs[1..])
  }

  lemma {:induction false} FilterAppends<T(!new)>(p: T -> bool, a: seq<T>, b: seq<T>)
    ensures Filter(p, a + b) == Filter(p, a) + Filter(p, b)
  {
    if a == [] {
      assert a + b == b;
    } else {
      assert (a + b)[1..] == a[1..] + b;
      FilterAppends(p, a[1..], b);
    }
  }

  lemma {:induction false} NoneLeft<T(!new)>(p: T -> bool, xs: seq<T>)
    requires forall x :: x in xs ==> !p(x)
    ensures Filter(p, xs) == []
  {
    if xs != [] { NoneLeft(p, xs[1..]); }
  }

  // Nothing that ranks the same as `x` stands behind a place before which `x` belongs.
  lemma NoneBehind<T(!new)>(le: (T, T) -> bool, p: T -> bool, xs: seq<T>, x: T)
    requires TotalPreorder(le) && Ordered(le, xs) && xs != [] && !le(xs[0], x) && p(x)
    requires forall a, b :: p(a) && p(b) ==> le(a, b)
    ensures Filter(p, xs) == []
  {
    forall k | 0 <= k < |xs| ensures !p(xs[k]) {
      assert k > 0 ==> le(xs[0], xs[k]);
    }
    NoneLeft(p, xs);
  }

  lemma {:induction false} InsertIsStable<T(!new)>(le: (T, T) -> bool, p: T -> bool, xs: seq<T>, x: T)
    requires TotalPreorder(le) && Ordered(le, xs)
    requires forall a, b :: p(a) && p(b) ==> le(a, b)
    ensures Filter(p, Insert(le, xs, x)) == Filter(p, xs) + Filter(p, [x])
  {
    if xs != [] && le(xs[0], x) {
      InsertIsStable(le, p, xs[1..], x);
      hide TotalPreorder, Ordered;
      FilterAppends(p, [xs[0]], Insert(le, xs[1..], x));
      FilterAppends(p, [xs[0]], xs[1..]);
      assert xs == [xs[0]] + xs[1..];
      hide Filter;
    } else if xs != [] {
      FilterAppends(p, [x], xs);
      if p(x) { NoneBehind(le, p, xs, x); } else { NoneLeft(p, [x]); }
      hide TotalPreorder, Ordered, Filter;
    }
  }

  // Elements that rank the same keep their order.
  lemma {:induction false} SortIsStable<T(!new)>(le: (T, T) -> bool, p: T -> bool, xs: seq<T>)
    requires TotalPreorder(le) && forall a, b :: p(a) && p(b) ==> le(a, b)
    ensures Filter(p, Sort(le, xs)) == Filter(p, xs)
  {
    if xs != [] {
      var n := |xs| - 1;
      SortIsStable(le, p, xs[..n]);
      SortOrders(le, xs[..n]);
      InsertIsStable(le, p, Sort(le, xs[..n]), xs[n]);
      FilterAppends(p, xs[..n], [xs[n]]);
      assert xs == xs[..n] + [xs[n]];
    }
  }

  // What is cut off comes no earlier than what is kept.
  lemma FirstIsBest<T>(le: (T, T) -> bool, xs: seq<T>, n: nat)
    requires Ordered(le, xs)
    ensures |First(xs, n)| == if |xs| < n then |xs| else n
    ensures multiset(xs) == multiset(First(xs, n)) + multiset(xs[|First(xs, n)|..])
    ensures forall x, y :: x in First(xs, n) && y in xs[|First(xs, n)|..] ==> le(x, y)
  {
    assert xs == First(xs, n) + xs[|First(xs, n)|..];
  }

  // ----- strings

  predicate LexLe(a: string, b: string) {
    if a == [] then true
    else if b == [] then false
    else if a[0] != b[0] then a[0] < b[0]
    else LexLe(a[1..], b[1..])
  }

  // The first `k` characters agree, and then `a` ends or has the smaller one.
  predicate LessAt(a: string, b: string, k: nat) {
    k <= |a| && k <= |b| && a[..k] == b[..k] && (k == |a| || (k < |b| && a[k] < b[k]))
  }

  lemma {:induction false} LexExactly(a: string, b: string)
    ensures LexLe(a, b) <==> exists k: nat :: LessAt(a, b, k)
  {
    if a == [] {
      assert LessAt(a, b, 0);
    } else if b != [] && a[0] == b[0] {
      LexExactly(a[1..], b[1..]);
      if k: nat :| LessAt(a[1..], b[1..], k) {
        assert a[..k + 1] == [a[0]] + a[1..][..k] && b[..k + 1] == [b[0]] + b[1..][..k];
        assert LessAt(a, b, k + 1);
      }
      if k: nat :| LessAt(a, b, k) {
        assert k > 0;
        assert a[1..][..k - 1] == a[..k][1..] && b[1..][..k - 1] == b[..k][1..];
        assert LessAt(a[1..], b[1..], k - 1);
      }
    } else if b != [] {
      if a[0] < b[0] { assert LessAt(a, b, 0); }
      if k: nat :| LessAt(a, b, k) {
        assert k > 0 ==> a[..k][0] == b[..k][0];
      }
    }
  }

  lemma {:induction false} LexTotal(a: string, b: string)
    ensures LexLe(a, b) || LexLe(b, a)
    ensures LexLe(a, b) && LexLe(b, a) ==> a == b
  {
    if a != [] && b != [] {
      LexTotal(a[1..], b[1..]);
      assert a == [a[0]] + a[1..] && b == [b[0]] + b[1..];
    }
  }

  lemma {:induction false} LexTransitive(a: string, b: string, c: string)
    requires LexLe(a, b) && LexLe(b, c)
    ensures LexLe(a, c)
  {
    if a != [] && b != [] && c != [] && a[0] == b[0] && b[0] == c[0] {
      LexTransitive(a[1..], b[1..], c[1..]);
    }
  }
}
