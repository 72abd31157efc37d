// Sort-then-cut and its bounded form (server/stream.go, boundedTop).
//
// `before` is the listing order: a strict weak order, so rows may tie. The heap
// of the program is stood in for by a sequence kept best first; its last
// element is the heap's root, the one the next better entry evicts.
module Ranking {
  ghost predicate ListingOrder<T(!new)>(before: (T, T) -> bool) {
    && (forall a :: !before(a, a))
    && (forall a, b, c :: before(a, b) && before(b, c) ==> before(a, c))
    && (forall a, b, c :: before(a, b) ==> before(a, c) || before(c, b))
  }

  // No two different rows of s tie.
  ghost predicate TieFree<T(!new)>(before: (T, T) -> bool, s: seq<T>) {
    forall a, b :: a in s && b in s ==> a == b || before(a, b) || before(b, a)
  }

  ghost predicate Sorted<T(!new)>(before: (T, T) -> bool, s: seq<T>) {
    forall i, j :: 0 <= i < j < |s| ==> !before(s[j], s[i])
  }

  function Take<T>(s: seq<T>, k: nat): seq<T> {
    if |s| <= k then s else s[..k]
  }

  function Insert<T>(before: (T, T) -> bool, s: seq<T>, x: T): (r: seq<T>)
    ensures |r| == |s| + 1
    ensures multiset(r) == multiset(s) + multiset{x}
  {
    if s == [] then [x]
    else if before(x, s[0]) then [x] + s
    else
      assert s == [s[0]] + s[1..];
      [s[0]] + Insert(before, s[1..], x)
  }

  function Sort<T>(before: (T, T) -> bool, s: seq<T>): (r: seq<T>)
    ensures |r| == |s|
    ensures multiset(r) == multiset(s)
  {
    if s == [] then []
    else
      assert s == s[..|s| - 1] + [s[|s| - 1]];
      Insert(before, Sort(before, s[..|s| - 1]), s[|s| - 1])
  }

  lemma {:induction false} InsertSorted<T(!new)>(before: (T, T) -> bool, s: seq<T>, x: T)
    requires ListingOrder(before) && Sorted(before, s)
    ensures Sorted(before, Insert(before, s, x))
  {
    if s != [] && !before(x, s[0]) {
      InsertSorted(before, s[1..], x);
      var rest := Insert(before, s[1..], x);
      forall i | 0 <= i < |rest| ensures !before(rest[i], s[0]) {
        assert rest[i] in multiset(rest);
        assert rest[i] == x || rest[i] in s[1..];
      }
    }
  }

  lemma {:induction false} SortSorted<T(!new)>(before: (T, T) -> bool, s: seq<T>)
    requires ListingOrder(before)
    ensures Sorted(before, Sort(before, s))
  {
    if s != [] {
      SortSorted(before, s[..|s| - 1]);
      InsertSorted(before, Sort(before, s[..|s| - 1]), s[|s| - 1]);
    }
  }

  lemma SortAppend<T(!new)>(before: (T, T) -> bool, s: seq<T>, x: T)
    ensures Sort(before, s + [x]) == Insert(before, Sort(before, s), x)
  {
    assert (s + [x])[..|s|] == s;
  }

  lemma SameHead<T(!new)>(before: (T, T) -> bool, s: seq<T>, t: seq<T>)
    requires Sorted(before, s) && Sorted(before, t) && TieFree(before, s)
    requires multiset(s) == multiset(t) && s != [] && t != []
    ensures s[0] == t[0]
  {
    assert s[0] in multiset(s) && t[0] in multiset(t);
    assert s[0] in t && t[0] in s;
    var i :| 0 <= i < |t| && t[i] == s[0];
    var j :| 0 <= j < |s| && s[j] == t[0];
  }

  lemma SameTails<T>(s: seq<T>, t: seq<T>)
    requires multiset(s) == multiset(t) && s != [] && t != [] && s[0] == t[0]
    ensures multiset(s[1..]) == multiset(t[1..])
  {
    assert s == [s[0]] + s[1..] && t == [t[0]] + t[1..];
    assert multiset(s[1..]) == multiset(s) - multiset{s[0]};
    assert multiset(t[1..]) == multiset(t) - multiset{t[0]};
  }

  // A listing without ties has one order, however its rows arrived.
  lemma {:induction false} SortedUnique<T(!new)>(before: (T, T) -> bool, s: seq<T>, t: seq<T>)
    requires Sorted(before, s) && Sorted(before, t) && TieFree(before, s)
    requires multiset(s) == multiset(t)
    ensures s == t
  {
    assert |multiset(s)| == |multiset(t)|;
    if s != [] {
      assert s == [s[0]] + s[1..] && t == [t[0]] + t[1..];
      SameHead(before, s, t);
      SameTails(s, t);
      SortedUnique(before, s[1..], t[1..]);
    }
  }

  lemma SortUnique<T(!new)>(before: (T, T) -> bool, s: seq<T>, t: seq<T>)
    requires ListingOrder(before) && TieFree(before, s) && multiset(s) == multiset(t)
    ensures Sort(before, s) == Sort(before, t)
  {
    SortSorted(before, s);
    SortSorted(before, t);
    forall a | a in Sort(before, s) ensures a in s { assert a in multiset(s); }
    SortedUnique(before, Sort(before, s), Sort(before, t));
  }

  lemma TakeCons<T>(h: T, s: seq<T>, k: nat)
    requires k > 0
    ensures Take([h] + s, k) == [h] + Take(s, k - 1)
  {
  }

  // Cutting before an insertion loses nothing the cut after it would keep.
  lemma {:induction false} TakeInsert<T(!new)>(before: (T, T) -> bool, s: seq<T>, x: T, k: nat)
    ensures Take(Insert(before, Take(s, k), x), k) == Take(Insert(before, s, x), k)
  {
    if s == [] || k == 0 {
    } else if before(x, s[0]) {
      TakeCons(x, Take(s, k), k);
      TakeCons(x, s, k);
    } else {
      var tail := s[1..];
      assert s == [s[0]] + tail;
      TakeHead(s[0], tail, Take(tail, k - 1), k - 1);
      TakeInsert(before, tail, x, k - 1);
      InsertAfter(before, s[0], Take(tail, k - 1), x);
      InsertAfter(before, s[0], tail, x);
      TakeCons(s[0], Insert(before, Take(tail, k - 1), x), k);
      TakeCons(s[0], Insert(before, tail, x), k);
    }
  }

  // At the limit a better row takes the last one's place.
  lemma {:induction false} EvictLast<T(!new)>(before: (T, T) -> bool, s: seq<T>, x: T)
    requires s != [] && before(x, s[|s| - 1])
    ensures Take(Insert(before, s, x), |s|) == Insert(before, s[..|s| - 1], x)
  {
    if |s| > 1 && !before(x, s[0]) {
      assert s == [s[0]] + s[1..];
      EvictLast(before, s[1..], x);
      EvictCons(before, s[0], s[1..], x);
    }
  }

  lemma EvictCons<T(!new)>(before: (T, T) -> bool, h: T, t: seq<T>, x: T)
    requires t != [] && !before(x, h)
    requires Take(Insert(before, t, x), |t|) == Insert(before, t[..|t| - 1], x)
    ensures Take(Insert(before, [h] + t, x), |t| + 1) == Insert(before, ([h] + t)[..|t|], x)
  {
    CutHead(h, t);
    InsertAfter(before, h, t, x);
    InsertAfter(before, h, t[..|t| - 1], x);
    TakeHead(h, Insert(before, t, x), Insert(before, t[..|t| - 1], x), |t|);
  }

  lemma CutHead<T>(h: T, t: seq<T>)
    requires t != []
    ensures ([h] + t)[..|t|] == [h] + t[..|t| - 1]
  {
  }

  lemma TakeHead<T>(h: T, a: seq<T>, b: seq<T>, k: nat)
    requires Take(a, k) == b
    ensures Take([h] + a, k + 1) == [h] + b
  {
  }

  lemma InsertAfter<T(!new)>(before: (T, T) -> bool, h: T, t: seq<T>, x: T)
    requires !before(x, h)
    ensures Insert(before, [h] + t, x) == [h] + Insert(before, t, x)
  {
    assert ([h] + t)[1..] == t;
  }

  lemma NotBeforeAny<T(!new)>(before: (T, T) -> bool, s: seq<T>, x: T)
    requires ListingOrder(before) && Sorted(before, s) && s != [] && !before(x, s[|s| - 1])
    ensures forall i :: 0 <= i < |s| ==> !before(x, s[i])
  {
    forall i | 0 <= i < |s| ensures !before(x, s[i]) {
      if i < |s| - 1 { assert !before(s[|s| - 1], s[i]); }
    }
  }

  // At least k rows of m rank above x.
  ghost predicate Crowded<T(!new)>(before: (T, T) -> bool, m: multiset<T>, x: T, k: nat) {
    exists a: multiset<T> :: a <= m && |a| >= k && forall y :: y in a ==> before(y, x)
  }

  // In a sorted listing, whatever ranks above x stands before the first row x
  // ranks above.
  lemma AboveFirst<T(!new)>(before: (T, T) -> bool, s: seq<T>, x: T, a: multiset<T>, i: nat)
    requires ListingOrder(before) && Sorted(before, s) && i < |s| && before(x, s[i])
    requires a <= multiset(s) && forall y :: y in a ==> before(y, x)
    ensures |a| <= i
  {
    assert s == s[..i] + s[i..];
    forall j | i <= j < |s| ensures !before(s[j], x) {
      assert !before(s[j], s[i]);
    }
    assert forall y :: y in a ==> y !in multiset(s[i..]);
    assert multiset(s[..i]) == a + (multiset(s[..i]) - a);
  }

  lemma CrowdedSorted<T(!new)>(before: (T, T) -> bool, s: seq<T>, x: T, k: nat)
    requires ListingOrder(before) && Sorted(before, s) && Crowded(before, multiset(s), x, k)
    ensures |s| >= k && forall i :: 0 <= i < k ==> !before(x, s[i])
  {
    var a :| a <= multiset(s) && |a| >= k && forall y :: y in a ==> before(y, x);
    assert multiset(s) == a + (multiset(s) - a);
    forall i | 0 <= i < k && before(x, s[i]) ensures false {
      AboveFirst(before, s, x, a, i);
    }
  }

  lemma {:induction false} InsertLate<T(!new)>(before: (T, T) -> bool, s: seq<T>, x: T, k: nat)
    requires |s| >= k && forall i :: 0 <= i < k ==> !before(x, s[i])
    ensures Take(Insert(before, s, x), k) == Take(s, k)
  {
    if k > 0 {
      InsertLate(before, s[1..], x, k - 1);
    }
  }

  lemma CrowdedGrows<T(!new)>(before: (T, T) -> bool, m: multiset<T>, n: multiset<T>, x: T, k: nat)
    requires Crowded(before, m, x, k) && m <= n
    ensures Crowded(before, n, x, k)
  {
    var a :| a <= m && |a| >= k && forall y :: y in a ==> before(y, x);
    assert a <= n;
  }

  lemma LeftOutStep<T(!new)>(before: (T, T) -> bool, kept: seq<T>, all: seq<T>, x: T, k: nat)
    requires ListingOrder(before) && Crowded(before, multiset(kept), x, k)
    requires multiset(kept) <= multiset(all)
    ensures Take(Sort(before, all + [x]), k) == Take(Sort(before, all), k)
  {
    SortAppend(before, all, x);
    SortSorted(before, all);
    CrowdedGrows(before, multiset(kept), multiset(all), x, k);
    CrowdedSorted(before, Sort(before, all), x, k);
    InsertLate(before, Sort(before, all), x, k);
  }

  // Rows that k kept rows outrank never show in the first k, so leaving them
  // out of the sort changes nothing.
  lemma {:induction false} LeftOut<T(!new)>(before: (T, T) -> bool, kept: seq<T>, lost: seq<T>, k: nat)
    requires ListingOrder(before)
    requires forall i :: 0 <= i < |lost| ==> Crowded(before, multiset(kept), lost[i], k)
    ensures Take(Sort(before, kept + lost), k) == Take(Sort(before, kept), k)
  {
    if lost == [] {
      assert kept + lost == kept;
    } else {
      var init, x := lost[..|lost| - 1], lost[|lost| - 1];
      var all := kept + init;
      assert kept + lost == all + [x];
      assert Take(Sort(before, all), k) == Take(Sort(before, kept), k) by {
        LeftOut(before, kept, init, k);
      }
      assert Take(Sort(before, all + [x]), k) == Take(Sort(before, all), k) by {
        assert Crowded(before, multiset(kept), x, k);
        LeftOutStep(before, kept, all, x, k);
      }
    }
  }

  lemma {:induction false} InsertLast<T(!new)>(before: (T, T) -> bool, s: seq<T>, x: T)
    requires forall i :: 0 <= i < |s| ==> !before(x, s[i])
    ensures Insert(before, s, x) == s + [x]
  {
    if s != [] {
      InsertLast(before, s[1..], x);
      assert [s[0]] + (s[1..] + [x]) == s + [x];
    }
  }

  lemma {:induction false} SortOfSorted<T(!new)>(before: (T, T) -> bool, s: seq<T>)
    requires Sorted(before, s)
    ensures Sort(before, s) == s
  {
    if s != [] {
      var n := |s| - 1;
      SortOfSorted(before, s[..n]);
      InsertLast(before, s[..n], s[n]);
      assert s[..n] + [s[n]] == s;
    }
  }

  // One step of the bounded form: below the limit every row is inserted, at the
  // limit the last row gives way to a better one.
  function Bounded<T>(before: (T, T) -> bool, kept: seq<T>, f: T, limit: nat): seq<T>
    requires limit >= 1
  {
    if |kept| < limit then Insert(before, kept, f)
    else if before(f, kept[|kept| - 1]) then Insert(before, kept[..|kept| - 1], f)
    else kept
  }

  // The row that does not stay when the form is full.
  function Loser<T>(before: (T, T) -> bool, kept: seq<T>, f: T): T
    requires kept != []
  {
    if before(f, kept[|kept| - 1]) then kept[|kept| - 1] else f
  }

  lemma BoundedIsCut<T(!new)>(before: (T, T) -> bool, kept: seq<T>, f: T, limit: nat)
    requires ListingOrder(before) && Sorted(before, kept) && 1 <= limit && |kept| <= limit
    ensures Take(Insert(before, kept, f), limit) == Bounded(before, kept, f, limit)
  {
    if |kept| == limit {
      if before(f, kept[|kept| - 1]) {
        EvictLast(before, kept, f);
      } else {
        NotBeforeAny(before, kept, f);
        InsertLate(before, kept, f, |kept|);
      }
    }
  }

  lemma SortedTake<T(!new)>(before: (T, T) -> bool, s: seq<T>, k: nat)
    requires Sorted(before, s)
    ensures Sorted(before, Take(s, k)) && |Take(s, k)| <= k
  {
  }

  lemma AddStep<T(!new)>(before: (T, T) -> bool, all: seq<T>, f: T, limit: nat)
    requires ListingOrder(before) && limit >= 1
    ensures Take(Sort(before, all + [f]), limit) == Bounded(before, Take(Sort(before, all), limit), f, limit)
  {
    var sorted := Sort(before, all);
    SortSorted(before, all);
    SortAppend(before, all, f);
    TakeInsert(before, sorted, f, limit);
    SortedTake(before, sorted, limit);
    BoundedIsCut(before, Take(sorted, limit), f, limit);
  }

  // evicted: one row, this one or another, is not kept.
  method Place<T>(before: (T, T) -> bool, kept: seq<T>, f: T, limit: nat) returns (next: seq<T>, evicted: bool)
    requires limit >= 1
    ensures next == Bounded(before, kept, f, limit)
    ensures |next| + (if evicted then 1 else 0) == |kept| + 1 && (evicted <==> |kept| >= limit)
  {
    if |kept| < limit { return Insert(before, kept, f), false; }
    if !before(f, kept[|kept| - 1]) { return kept, true; }
    return Insert(before, kept[..|kept| - 1], f), true;
  }

  class BoundedTop<T(==, !new)> {
    const limit: nat
    const keepBefore: (T, T) -> bool
    var ents: seq<T>
    var dropped: nat
    ghost var offered: seq<T>

    ghost predicate Valid()
      reads this
    {
      && limit >= 1 && ListingOrder(keepBefore)
      && ents == Take(Sort(keepBefore, offered), limit)
      && |ents| + dropped == |offered|
    }

    constructor (limit: nat, keepBefore: (T, T) -> bool)
      requires limit >= 1 && ListingOrder(keepBefore)
      ensures Valid() && offered == []
      ensures this.limit == limit && this.keepBefore == keepBefore
    {
      this.limit, this.keepBefore := limit, keepBefore;
      ents, dropped, offered := [], 0, [];
    }

    method Add(f: T)
      requires Valid()
      modifies this
      ensures Valid() && offered == old(offered) + [f]
    {
      AddStep(keepBefore, offered, f, limit);
      var next, evicted := Place(keepBefore, ents, f, limit);
      ents := next;
      if evicted { dropped := dropped + 1; }
      offered := offered + [f];
    }

    // The kept rows in listing order, and how many were dropped.
    method Final() returns (rows: seq<T>, lost: nat)
      requires Valid()
      ensures rows == Take(Sort(keepBefore, offered), limit)
      ensures |rows| + lost == |offered|
    {
      rows, lost := ents, dropped;
    }
  }
}
