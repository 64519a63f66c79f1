/** What the library sort promises, and when that fixes the result. */
module Sorting {

  /** No element is before one it must not precede. */
  ghost predicate Ordered<T(!new)>(s: seq<T>, less: (T, T) -> bool) {
    forall i, j :: 0 <= i < j < |s| ==> !less(s[j], s[i])
  }

  /** What the library demands of a comparison. */
  ghost predicate Weak<T(!new)>(less: (T, T) -> bool) {
    && (forall x, y :: less(x, y) ==> !less(y, x))
    && (forall x, y, z :: !less(y, x) && !less(z, y) ==> !less(z, x))
  }

  /** `std::sort`: a permutation, in order. */
  method Sort<T(!new)>(items: seq<T>, less: (T, T) -> bool) returns (r: seq<T>)
    requires Weak(less)
    ensures multiset(r) == multiset(items)
    ensures Ordered(r, less)
  {
    r := [];
    for k := 0 to |items|
      invariant multiset(r) == multiset(items[..k])
      invariant Ordered(r, less)
    {
      assert items[..k + 1] == items[..k] + [items[k]];
      r := Insert(items[k], r, less);
    }
    assert items[..|items|] == items;
  }

  method Insert<T(!new)>(x: T, s: seq<T>, less: (T, T) -> bool) returns (r: seq<T>)
    requires Weak(less) && Ordered(s, less)
    ensures multiset(r) == multiset(s) + multiset{x}
    ensures Ordered(r, less)
  {
    var p := |s|;
    while p > 0 && less(x, s[p - 1])
      invariant 0 <= p <= |s|
      invariant forall i :: p <= i < |s| ==> less(x, s[i])
    {
      p := p - 1;
    }
    InsertedOrdered(x, s, p, less);
    InsertedElements(x, s, p);
    r := s[..p] + [x] + s[p..];
  }

  lemma InsertedElements<T>(x: T, s: seq<T>, p: nat)
    requires p <= |s|
    ensures multiset(s[..p] + [x] + s[p..]) == multiset(s) + multiset{x}
  {
    assert s == s[..p] + s[p..];
  }

  lemma InsertedOrdered<T(!new)>(x: T, s: seq<T>, p: nat, less: (T, T) -> bool)
    requires Weak(less) && Ordered(s, less) && p <= |s|
    requires p > 0 ==> !less(x, s[p - 1])
    requires forall i :: p <= i < |s| ==> less(x, s[i])
    ensures Ordered(s[..p] + [x] + s[p..], less)
  {
    var r := s[..p] + [x] + s[p..];
    forall i, j | 0 <= i < j < |r|
      ensures !less(r[j], r[i])
    {
      if j < p {
        assert r[i] == s[i] && r[j] == s[j];
      } else if i > p {
        assert r[i] == s[i - 1] && r[j] == s[j - 1];
      } else if i == p {
        assert r[j] == s[j - 1];
      } else if j == p {
        assert r[i] == s[i];
        assert i < p - 1 ==> !less(s[p - 1], s[i]);
      } else {
        assert r[i] == s[i] && r[j] == s[j - 1];
      }
    }
  }

  /** The first element of an order precedes all others, or ties with them. */
  lemma FirstIsLeast<T(!new)>(a: seq<T>, x: T, less: (T, T) -> bool)
    requires Ordered(a, less) && x in multiset(a)
    requires !less(x, x)
    ensures a != [] && !less(x, a[0])
  {
    var i :| 0 <= i < |a| && a[i] == x;
  }

  lemma WithoutFirst<T(!new)>(a: seq<T>)
    requires a != []
    ensures multiset(a[1..]) == multiset(a) - multiset{a[0]}
    ensures forall x :: x in a[1..] ==> x in a
  {
    assert a == [a[0]] + a[1..];
  }

  ghost predicate NoTies<T(!new)>(a: seq<T>, less: (T, T) -> bool) {
    forall x, y :: x in a && y in a && !less(x, y) && !less(y, x) ==> x == y
  }

  /** Two orders of the same elements are the same sequence, if different elements never tie. */
  lemma {:induction false} OneOrder<T(!new)>(a: seq<T>, b: seq<T>, less: (T, T) -> bool)
    requires Ordered(a, less) && Ordered(b, less) && multiset(a) == multiset(b)
    requires (forall x :: !less(x, x)) && NoTies(a, less)
    ensures a == b
  {
    hide Ordered, NoTies;
    if a == [] {
      assert |b| == |multiset(b)|;
    } else {
      assert a[0] in multiset(a);
      FirstIsLeast(b, a[0], less);
      assert b[0] in multiset(b);
      FirstIsLeast(a, b[0], less);
      assert a[0] == b[0] by { TieIsSame(a, b[0], less); }
      WithoutFirst(a);
      WithoutFirst(b);
      TailOrdered(a, less);
      TailOrdered(b, less);
      OneOrder(a[1..], b[1..], less);
      assert a == [a[0]] + a[1..] && b == [b[0]] + b[1..];
    }
  }

  lemma TieIsSame<T(!new)>(a: seq<T>, y: T, less: (T, T) -> bool)
    requires a != [] && y in multiset(a) && NoTies(a, less) && !less(a[0], y) && !less(y, a[0])
    ensures a[0] == y
  {
  }

  lemma TailOrdered<T(!new)>(a: seq<T>, less: (T, T) -> bool)
    requires a != [] && Ordered(a, less)
    ensures Ordered(a[1..], less)
    ensures NoTies(a, less) ==> NoTies(a[1..], less)
  {
  }

  // ---------------------------------------------------------------- strings

  /** `operator<` of strings */
  predicate Before(s: string, t: string) {
    t != [] && (s == [] || s[0] < t[0] || (s[0] == t[0] && Before(s[1..], t[1..])))
  }

  lemma {:induction false} BeforeTotal(s: string, t: string)
    ensures !(Before(s, t) && Before(t, s))
    ensures Before(s, t) || Before(t, s) || s == t
  {
    if s != [] && t != [] && s[0] == t[0] {
      BeforeTotal(s[1..], t[1..]);
      assert s == [s[0]] + s[1..] && t == [t[0]] + t[1..];
    }
  }

  lemma {:induction false} BeforeChains(s: string, t: string, u: string)
    requires Before(s, t) && Before(t, u)
    ensures Before(s, u)
  {
    if s != [] && s[0] == t[0] && t[0] == u[0] { BeforeChains(s[1..], t[1..], u[1..]); }
  }
}
