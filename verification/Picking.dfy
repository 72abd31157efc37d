// Sub-sequences: the elements a test accepts, in order.
module Picking {
  function Pick<T>(s: seq<T>, keep: T -> bool): seq<T> {
    if s == [] then []
    else Pick(s[..|s| - 1], keep) + if keep(s[|s| - 1]) then [s[|s| - 1]] else []
  }

  lemma {:induction false} PickBag<T>(s: seq<T>, keep: T -> bool, e: T)
    ensures multiset(Pick(s, keep))[e] == if keep(e) then multiset(s)[e] else 0
  {
    if s != [] {
      assert s == s[..|s| - 1] + [s[|s| - 1]];
      PickBag(s[..|s| - 1], keep, e);
    }
  }

  lemma PickFrom<T>(s: seq<T>, keep: T -> bool, e: T)
    ensures e in Pick(s, keep) <==> e in s && keep(e)
  {
    PickBag(s, keep, e);
    assert e in Pick(s, keep) <==> e in multiset(Pick(s, keep));
    assert e in s <==> e in multiset(s);
  }

  lemma {:induction false} PickMore<T(!new)>(s: seq<T>, a: T -> bool, b: T -> bool)
    requires forall e :: a(e) ==> b(e)
    ensures |Pick(s, a)| <= |Pick(s, b)|
  {
    if s != [] { PickMore(s[..|s| - 1], a, b); }
  }

  lemma {:induction false} PickSame<T>(s: seq<T>, a: T -> bool, b: T -> bool)
    requires forall e :: e in s ==> (a(e) <==> b(e))
    ensures Pick(s, a) == Pick(s, b)
  {
    if s != [] { PickSame(s[..|s| - 1], a, b); }
  }

  lemma {:induction false} PickAll<T>(s: seq<T>, keep: T -> bool)
    requires forall e :: e in s ==> keep(e)
    ensures Pick(s, keep) == s
  {
    if s != [] {
      PickAll(s[..|s| - 1], keep);
      assert s == s[..|s| - 1] + [s[|s| - 1]];
    }
  }

  function Both<T>(a: T -> bool, b: T -> bool): T -> bool {
    e => a(e) && b(e)
  }

  lemma {:induction false} PickTwice<T>(s: seq<T>, a: T -> bool, b: T -> bool)
    ensures Pick(Pick(s, a), b) == Pick(s, Both(a, b))
  {
    if s != [] {
      var n := |s| - 1;
      PickTwice(s[..n], a, b);
      if a(s[n]) {
        assert (Pick(s[..n], a) + [s[n]])[..|Pick(s[..n], a)|] == Pick(s[..n], a);
      } else {
        assert Pick(s[..n], a) + [] == Pick(s[..n], a);
      }
    }
  }

  lemma SameSize<T>(a: seq<T>, b: seq<T>)
    requires multiset(a) == multiset(b)
    ensures |a| == |b|
  {
    assert |multiset(a)| == |a| && |multiset(b)| == |b|;
  }
}
