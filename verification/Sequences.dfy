/** Facts about filtering sequences, shared by the other modules. */
module Sequences {

  /** The elements of `s` that satisfy `p`, in their original order. */
  function Filter<T>(p: T -> bool, s: seq<T>): (r: seq<T>) {
    if s == [] then []
    else (if p(s[0]) then [s[0]] else []) + Filter(p, s[1..])
  }

  lemma {:induction false} FilterMember<T>(p: T -> bool, s: seq<T>, x: T)
    ensures x in Filter(p, s) <==> x in s && p(x)
  {
    if s != [] {
      FilterMember(p, s[1..], x);
      assert s == [s[0]] + s[1..];
    }
  }

  lemma FilterMembers<T(!new)>(p: T -> bool, s: seq<T>)
    ensures forall x :: x in Filter(p, s) <==> x in s && p(x)
  {
    forall x ensures x in Filter(p, s) <==> x in s && p(x) {
      FilterMember(p, s, x);
    }
  }

  lemma FilterCons<T>(p: T -> bool, x: T, s: seq<T>)
    ensures Filter(p, [x] + s) == if p(x) then [x] + Filter(p, s) else Filter(p, s)
  {
    assert ([x] + s)[1..] == s;
  }

  lemma Associate<T>(a: seq<T>, b: seq<T>, c: seq<T>)
    ensures (a + b) + c == a + (b + c)
  {
  }

  lemma {:induction false} FilterAppend<T>(p: T -> bool, a: seq<T>, b: seq<T>)
    ensures Filter(p, a + b) == Filter(p, a) + Filter(p, b)
  {
    if a == [] {
      assert a + b == b;
    } else {
      FilterAppend(p, a[1..], b);
      Associate([a[0]], a[1..], b);
      assert a == [a[0]] + a[1..];
      FilterCons(p, a[0], a[1..] + b);
      Associate(if p(a[0]) then [a[0]] else [], Filter(p, a[1..]), Filter(p, b));
    }
  }

  lemma {:induction false} FilterSame<T(!new)>(p: T -> bool, q: T -> bool, s: seq<T>)
    requires forall x :: x in s ==> p(x) == q(x)
    ensures Filter(p, s) == Filter(q, s)
  {
    if s != [] { FilterSame(p, q, s[1..]); }
  }

  /** Filtering by `q` and then by `p` is filtering by any `r` that means both. */
  lemma {:induction false} FilterTwice<T(!new)>(p: T -> bool, q: T -> bool, r: T -> bool, s: seq<T>)
    requires forall x :: x in s ==> r(x) == (p(x) && q(x))
    ensures Filter(p, Filter(q, s)) == Filter(r, s)
  {
    if s != [] {
      FilterTwice(p, q, r, s[1..]);
      var rest := Filter(q, s[1..]);
      if q(s[0]) {
        assert ([s[0]] + rest)[1..] == rest;
      } else {
        assert [] + rest == rest;
      }
    }
  }

  lemma {:induction false} FilterAll<T(!new)>(p: T -> bool, s: seq<T>)
    requires forall x :: x in s ==> p(x)
    ensures Filter(p, s) == s
  {
    if s != [] { FilterAll(p, s[1..]); }
  }

  lemma {:induction false} FilterNone<T(!new)>(p: T -> bool, s: seq<T>)
    requires forall x :: x in s ==> !p(x)
    ensures Filter(p, s) == []
  {
    if s != [] { FilterNone(p, s[1..]); }
  }

  lemma MultisetCons<T>(x: T, s: seq<T>)
    ensures multiset([x] + s) == multiset{x} + multiset(s)
  {
  }

  /** Nothing is lost or duplicated when a sequence is split by a predicate. */
  lemma {:induction false} FilterSplits<T(!new)>(p: T -> bool, q: T -> bool, s: seq<T>)
    requires forall x :: x in s ==> q(x) == !p(x)
    ensures multiset(s) == multiset(Filter(p, s)) + multiset(Filter(q, s))
  {
    if s != [] {
      var x, rest := s[0], s[1..];
      assert s == [x] + rest;
      FilterSplits(p, q, rest);
      FilterCons(p, x, rest);
      FilterCons(q, x, rest);
      MultisetCons(x, rest);
      MultisetCons(x, Filter(if p(x) then p else q, rest));
    }
  }
}
