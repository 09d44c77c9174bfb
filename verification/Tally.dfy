/** Counting, summing and grouping over sequences, and what does not depend on their order. */
module Tally {
  import opened Common

  function Count<T>(s: seq<T>, p: T -> bool): (n: nat)
    ensures n <= |s|
  {
    if s == [] then 0 else (if p(s[0]) then 1 else 0) + Count(s[1..], p)
  }

  function Sum<T>(s: seq<T>, f: T -> real): real {
    if s == [] then 0.0 else f(s[0]) + Sum(s[1..], f)
  }

  function Total<T>(s: seq<T>, f: T -> int): int {
    if s == [] then 0 else f(s[0]) + Total(s[1..], f)
  }

  function Filter<T>(s: seq<T>, p: T -> bool): (r: seq<T>)
    ensures |r| <= |s|
    ensures forall x <- r :: x in s && p(x)
    ensures forall x <- s :: p(x) ==> x in r
  {
    if s == [] then [] else (if p(s[0]) then [s[0]] else []) + Filter(s[1..], p)
  }

  function Flatten<T, U>(s: seq<T>, f: T -> seq<U>): seq<U> {
    if s == [] then [] else f(s[0]) + Flatten(s[1..], f)
  }

  // ------------------------------------------------------------------ concatenation

  lemma {:induction false} CountAppend<T>(a: seq<T>, b: seq<T>, p: T -> bool)
    ensures Count(a + b, p) == Count(a, p) + Count(b, p)
  {
    if a == [] { assert a + b == b; }
    else { assert (a + b)[1..] == a[1..] + b; CountAppend(a[1..], b, p); }
  }

  lemma {:induction false} SumAppend<T>(a: seq<T>, b: seq<T>, f: T -> real)
    ensures Sum(a + b, f) == Sum(a, f) + Sum(b, f)
  {
    if a == [] { assert a + b == b; }
    else { assert (a + b)[1..] == a[1..] + b; SumAppend(a[1..], b, f); }
  }

  lemma {:induction false} FilterAppend<T>(a: seq<T>, b: seq<T>, p: T -> bool)
    ensures Filter(a + b, p) == Filter(a, p) + Filter(b, p)
  {
    if a == [] { assert a + b == b; }
    else { assert (a + b)[1..] == a[1..] + b; FilterAppend(a[1..], b, p); }
  }

  lemma {:induction false} FlattenAppend<T, U>(a: seq<T>, b: seq<T>, f: T -> seq<U>)
    ensures Flatten(a + b, f) == Flatten(a, f) + Flatten(b, f)
  {
    if a == [] { assert a + b == b; }
    else { assert (a + b)[1..] == a[1..] + b; FlattenAppend(a[1..], b, f); }
  }

  // --------------------------------------------------------------- order independence

  ghost predicate Permuted<T>(a: seq<T>, b: seq<T>) {
    multiset(a) == multiset(b)
  }

  /** Taking the head of one sequence out of a permutation of it. */
  lemma TakeOut<T>(a: seq<T>, b: seq<T>) returns (l: seq<T>, r: seq<T>)
    requires Permuted(a, b) && a != []
    ensures b == l + [a[0]] + r && Permuted(a[1..], l + r)
  {
    assert a[0] in multiset(a);
    var i :| 0 <= i < |b| && b[i] == a[0];
    l, r := b[..i], b[i + 1..];
    assert a == [a[0]] + a[1..] && b == l + [a[0]] + r;
    SameRest(a[0], a[1..], l, r);
  }

  lemma SameRest<T>(x: T, rest: seq<T>, l: seq<T>, r: seq<T>)
    requires multiset([x] + rest) == multiset(l + [x] + r)
    ensures multiset(rest) == multiset(l + r)
  {
    assert multiset(rest) == multiset([x] + rest) - multiset{x};
    assert multiset(l + [x] + r) == multiset(l) + multiset{x} + multiset(r);
    assert multiset(l + r) == multiset(l + [x] + r) - multiset{x};
  }

  lemma {:induction false} SumPermuted<T>(a: seq<T>, b: seq<T>, f: T -> real)
    requires Permuted(a, b)
    ensures Sum(a, f) == Sum(b, f)
  {
    if a != [] {
      var l, r := TakeOut(a, b);
      SumPermuted(a[1..], l + r, f);
      SumAppend(l, r, f);
      SumAppend(l + [a[0]], r, f);
      SumAppend(l, [a[0]], f);
    }
  }

  lemma {:induction false} CountPermuted<T>(a: seq<T>, b: seq<T>, p: T -> bool)
    requires Permuted(a, b)
    ensures Count(a, p) == Count(b, p)
  {
    if a != [] {
      var l, r := TakeOut(a, b);
      CountPermuted(a[1..], l + r, p);
      CountAppend(l, r, p);
      CountAppend(l + [a[0]], r, p);
      CountAppend(l, [a[0]], p);
    }
  }

  lemma {:induction false} FilterPermuted<T>(a: seq<T>, b: seq<T>, p: T -> bool)
    requires Permuted(a, b)
    ensures Permuted(Filter(a, p), Filter(b, p))
  {
    if a != [] {
      var l, r := TakeOut(a, b);
      FilterPermuted(a[1..], l + r, p);
      FilterAppend(l, r, p);
      FilterAppend(l + [a[0]], r, p);
      FilterAppend(l, [a[0]], p);
    }
  }

  lemma {:induction false} FlattenPermuted<T, U>(a: seq<T>, b: seq<T>, f: T -> seq<U>)
    requires Permuted(a, b)
    ensures Permuted(Flatten(a, f), Flatten(b, f))
  {
    if a != [] {
      var l, r := TakeOut(a, b);
      FlattenPermuted(a[1..], l + r, f);
      FlattenAppend(l, r, f);
      FlattenAppend(l + [a[0]], r, f);
      FlattenAppend(l, [a[0]], f);
      assert Flatten([a[0]], f) == f(a[0]);
    }
  }

  lemma PermutedMembers<T>(a: seq<T>, b: seq<T>)
    requires Permuted(a, b)
    ensures |a| == |b| && forall x :: x in a <==> x in b
  {
    assert |multiset(a)| == |a| && |multiset(b)| == |b|;
    assert forall x :: x in a <==> x in multiset(a);
    assert forall x :: x in b <==> x in multiset(b);
  }

  // ---------------------------------------------------------------------- filtering

  lemma {:induction false} FilterTwice<T>(s: seq<T>, p: T -> bool, q: T -> bool, both: T -> bool)
    requires forall x <- s :: both(x) == (p(x) && q(x))
    ensures Filter(Filter(s, p), q) == Filter(s, both)
  {
    if s != [] {
      assert s[0] in s;
      FilterTwice(s[1..], p, q, both);
      FilterAppend(if p(s[0]) then [s[0]] else [], Filter(s[1..], p), q);
      assert Filter([s[0]], q) == if q(s[0]) then [s[0]] else [];
    }
  }

  lemma {:induction false} FilterSame<T>(s: seq<T>, p: T -> bool, q: T -> bool)
    requires forall x <- s :: p(x) == q(x)
    ensures Filter(s, p) == Filter(s, q)
  {
    if s != [] {
      assert s[0] in s;
      FilterSame(s[1..], p, q);
    }
  }

  lemma {:induction false} FilterNone<T>(s: seq<T>, p: T -> bool)
    requires forall x <- s :: !p(x)
    ensures Filter(s, p) == []
  {
    if s != [] {
      assert s[0] in s;
      FilterNone(s[1..], p);
    }
  }

  lemma {:induction false} CountIsFilter<T>(s: seq<T>, p: T -> bool)
    ensures Count(s, p) == |Filter(s, p)|
  {
    if s != [] { CountIsFilter(s[1..], p); }
  }

  // ----------------------------------------------------------------------- grouping

  function HasKey<T, K(==)>(key: T -> K, k: K): T -> bool {
    x => key(x) == k
  }

  /** The sum of the selected group sizes, over the list of keys. */
  function GroupTotal<T, K(==)>(keys: seq<K>, items: seq<T>, key: T -> K, sel: K -> bool): int {
    if keys == [] then 0
    else (if sel(keys[0]) then Count(items, HasKey(key, keys[0])) else 0) + GroupTotal(keys[1..], items, key, sel)
  }

  lemma {:induction false} GroupTotalEmpty<T, K>(keys: seq<K>, key: T -> K, sel: K -> bool)
    ensures GroupTotal(keys, [], key, sel) == 0
  {
    if keys != [] { GroupTotalEmpty(keys[1..], key, sel); }
  }

  lemma {:induction false} GroupTotalCons<T, K>(keys: seq<K>, x: T, items: seq<T>, key: T -> K, sel: K -> bool)
    requires NoDuplicates(keys)
    ensures GroupTotal(keys, [x] + items, key, sel)
         == GroupTotal(keys, items, key, sel) + (if key(x) in keys && sel(key(x)) then 1 else 0)
  {
    if keys != [] {
      assert ([x] + items)[1..] == items;
      GroupTotalCons(keys[1..], x, items, key, sel);
      assert key(x) in keys <==> key(x) == keys[0] || key(x) in keys[1..];
      assert keys[0] !in keys[1..];
    }
  }

  function KeySelected<T, K>(key: T -> K, sel: K -> bool): T -> bool {
    x => sel(key(x))
  }

  /** Conservation: over distinct keys that cover every item, the selected group sizes add up to
      the number of selected items. */
  lemma {:induction false} GroupsConserve<T, K>(keys: seq<K>, items: seq<T>, key: T -> K, sel: K -> bool)
    requires NoDuplicates(keys) && forall x <- items :: key(x) in keys
    ensures GroupTotal(keys, items, key, sel) == Count(items, KeySelected(key, sel))
  {
    if items == [] {
      GroupTotalEmpty(keys, key, sel);
    } else {
      assert items == [items[0]] + items[1..] && items[0] in items;
      GroupsConserve(keys, items[1..], key, sel);
      GroupTotalCons(keys, items[0], items[1..], key, sel);
    }
  }
}
