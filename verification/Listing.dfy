// The cut that ends every grouped listing (server/duplicates.go, capCutIndex and
// the loops of groupTop.final and corruptTop.final): an ordered listing is cut on
// a group boundary, and everything past the cut is counted.
//
// count is a group's number of files, extra the members an earlier cap dropped
// from it.
module Listing {
  import opened Ranking

  function SumBy<T>(f: T -> nat, s: seq<T>): nat {
    if s == [] then 0 else f(s[0]) + SumBy(f, s[1..])
  }

  // The longest prefix within the budget, but never less than one group.
  ghost predicate IsCut<T>(count: T -> nat, s: seq<T>, budget: nat, cut: nat) {
    && cut <= |s|
    && (cut <= 1 || SumBy(count, s[..cut]) <= budget)
    && (cut < |s| ==> cut > 0 && SumBy(count, s[..cut + 1]) > budget)
  }

  lemma {:induction false} SumSplit<T>(f: T -> nat, a: seq<T>, b: seq<T>)
    ensures SumBy(f, a + b) == SumBy(f, a) + SumBy(f, b)
  {
    if a == [] {
      assert a + b == b;
    } else {
      assert (a + b)[1..] == a[1..] + b;
      SumSplit(f, a[1..], b);
    }
  }

  lemma SumLast<T>(f: T -> nat, s: seq<T>)
    requires s != []
    ensures SumBy(f, s) == SumBy(f, s[..|s| - 1]) + f(s[|s| - 1])
  {
    assert s == s[..|s| - 1] + [s[|s| - 1]];
    SumSplit(f, s[..|s| - 1], [s[|s| - 1]]);
  }

  lemma SumAppend<T>(f: T -> nat, s: seq<T>, x: T)
    ensures SumBy(f, s + [x]) == SumBy(f, s) + f(x)
  {
    SumSplit(f, s, [x]);
  }

  lemma {:induction false} SumInsert<T>(f: T -> nat, before: (T, T) -> bool, s: seq<T>, x: T)
    ensures SumBy(f, Insert(before, s, x)) == SumBy(f, s) + f(x)
  {
    if s != [] && !before(x, s[0]) {
      SumInsert(f, before, s[1..], x);
    }
  }

  lemma {:induction false} SumSort<T>(f: T -> nat, before: (T, T) -> bool, s: seq<T>)
    ensures SumBy(f, Sort(before, s)) == SumBy(f, s)
  {
    if s != [] {
      var n := |s| - 1;
      SumSort(f, before, s[..n]);
      SumInsert(f, before, Sort(before, s[..n]), s[n]);
      SumLast(f, s);
    }
  }

  lemma {:induction false} SumAtLeastTwice<T>(f: T -> nat, s: seq<T>)
    requires forall i :: 0 <= i < |s| ==> f(s[i]) >= 2
    ensures SumBy(f, s) >= 2 * |s|
  {
    if s != [] { SumAtLeastTwice(f, s[1..]); }
  }

  lemma SumPrefix<T>(f: T -> nat, s: seq<T>, i: nat, j: nat)
    requires i <= j <= |s|
    ensures SumBy(f, s[..i]) <= SumBy(f, s[..j])
  {
    assert s[..j] == s[..i] + s[i..j];
    SumSplit(f, s[..i], s[i..j]);
  }

  lemma CutUnique<T>(count: T -> nat, s: seq<T>, budget: nat, a: nat, b: nat)
    requires IsCut(count, s, budget, a) && IsCut(count, s, budget, b)
    ensures a == b
  {
    if a < b { SumPrefix(count, s, a + 1, b); }
    if b < a { SumPrefix(count, s, b + 1, a); }
  }

  // Holding budget/2+1 groups is enough to know the cut: a group has two files.
  lemma BoundedCut<T>(count: T -> nat, s: seq<T>, budget: nat, cut: nat)
    requires forall i :: 0 <= i < |s| ==> count(s[i]) >= 2
    requires IsCut(count, Take(s, budget / 2 + 1), budget, cut)
    ensures IsCut(count, s, budget, cut)
    ensures Take(s, budget / 2 + 1)[..cut] == s[..cut]
  {
    var k := budget / 2 + 1;
    var t := Take(s, k);
    if |s| > k {
      assert t[..cut] == s[..cut];
      SumAtLeastTwice(count, t[..cut]);
      if cut < |t| {
        assert t[..cut + 1] == s[..cut + 1];
      } else {
        assert cut == k == 1;
        SumAtLeastTwice(count, s[..2]);
      }
    }
  }

  // capCutIndex: a read-only walk over an ordered listing.
  method CapCutIndex<T>(count: T -> nat, s: seq<T>, budget: nat) returns (cut: nat)
    ensures IsCut(count, s, budget, cut)
  {
    var total := 0;
    cut := 0;
    while cut < |s|
      invariant 0 <= cut <= |s|
      invariant total == SumBy(count, s[..cut])
      invariant cut <= 1 || total <= budget
    {
      var c := count(s[cut]);
      assert s[..cut + 1] == s[..cut] + [s[cut]];
      SumSplit(count, s[..cut], [s[cut]]);
      if cut > 0 && total + c > budget { return; }
      total := total + c;
      cut := cut + 1;
    }
  }

  method CountPast<T>(count: T -> nat, extra: T -> nat, gs: seq<T>, cut: nat) returns (n: nat)
    requires cut <= |gs|
    ensures n == SumBy(count, gs[cut..]) + SumBy(extra, gs)
  {
    n := 0;
    for i := 0 to |gs|
      invariant n == (if i <= cut then 0 else SumBy(count, gs[cut..i])) + SumBy(extra, gs[..i])
    {
      assert gs[..i + 1] == gs[..i] + [gs[i]];
      SumAppend(extra, gs[..i], gs[i]);
      if i >= cut {
        assert gs[cut..i + 1] == gs[cut..i] + [gs[i]];
        SumAppend(count, gs[cut..i], gs[i]);
        n := n + count(gs[i]);
      }
      n := n + extra(gs[i]);
    }
    assert gs[cut..|gs|] == gs[cut..] && gs[..|gs|] == gs;
  }

  // No listed group exceeds the whole budget.
  method ClipRows<T(!new)>(count: T -> nat, clip: (T, nat) -> T, gs: seq<T>, budget: nat)
    returns (rows: seq<T>, lost: nat)
    requires forall g :: count(clip(g, budget)) + Over(count, budget)(g) == count(g)
    requires forall g :: count(g) <= budget ==> clip(g, budget) == g
    ensures |rows| == |gs| && forall i :: 0 <= i < |gs| ==> rows[i] == clip(gs[i], budget)
    ensures lost == SumBy(Over(count, budget), gs)
    ensures SumBy(count, rows) + lost == SumBy(count, gs)
  {
    rows, lost := [], 0;
    for i := 0 to |gs|
      invariant |rows| == i && forall j :: 0 <= j < i ==> rows[j] == clip(gs[j], budget)
      invariant lost == SumBy(Over(count, budget), gs[..i])
      invariant SumBy(count, rows) + lost == SumBy(count, gs[..i])
    {
      var g := gs[i];
      assert gs[..i + 1] == gs[..i] + [g];
      SumAppend(Over(count, budget), gs[..i], g);
      SumAppend(count, gs[..i], g);
      if count(g) > budget {
        lost := lost + (count(g) - budget);
        g := clip(g, budget);
      }
      SumAppend(count, rows, g);
      rows := rows + [g];
    }
    assert gs[..|gs|] == gs;
  }

  // What the finished listing reports as left out: groups past the cut, their
  // files, the members per-group caps dropped, and what a single group over the
  // whole budget loses.
  function Over<T>(count: T -> nat, budget: nat): T -> nat {
    g => if count(g) > budget then count(g) - budget else 0
  }

  function DroppedFiles<T>(count: T -> nat, extra: T -> nat, s: seq<T>, budget: nat, cut: nat): nat
    requires cut <= |s|
  {
    SumBy(count, s[cut..]) + SumBy(extra, s) + SumBy(Over(count, budget), s[..cut])
  }

  // ------------------------------------------------ bounded against whole-set

  // kept holds the first `limit` of the listing of everything offered, and the
  // counters account for the rest.
  ghost predicate Tracks<T(!new)>(before: (T, T) -> bool, all: T -> nat, limit: nat,
                                  kept: seq<T>, groups: nat, files: nat, offered: seq<T>)
  {
    && kept == Take(Sort(before, offered), limit)
    && |kept| + groups == |offered|
    && SumBy(all, kept) + files == SumBy(all, offered)
  }

  lemma SumOfBoth<T>(count: T -> nat, extra: T -> nat, all: T -> nat, s: seq<T>, cut: nat)
    requires cut <= |s| && forall g :: all(g) == count(g) + extra(g)
    ensures SumBy(count, s[..cut]) + SumBy(count, s[cut..]) + SumBy(extra, s) == SumBy(all, s)
  {
    assert s == s[..cut] + s[cut..];
    SumSplit(count, s[..cut], s[cut..]);
    SumBoth(count, extra, all, s);
  }

  lemma {:induction false} SumBoth<T>(count: T -> nat, extra: T -> nat, all: T -> nat, s: seq<T>)
    requires forall g :: all(g) == count(g) + extra(g)
    ensures SumBy(all, s) == SumBy(count, s) + SumBy(extra, s)
  {
    if s != [] { SumBoth(count, extra, all, s[1..]); }
  }

  // Cutting what was kept is cutting the whole listing, with the same counts.
  lemma FinalAgrees<T(!new)>(before: (T, T) -> bool, count: T -> nat, extra: T -> nat, all: T -> nat,
                             budget: nat, kept: seq<T>, groups: nat, files: nat, offered: seq<T>, cut: nat)
    requires Tracks(before, all, budget / 2 + 1, kept, groups, files, offered)
    requires forall g :: all(g) == count(g) + extra(g)
    requires forall g :: g in offered ==> count(g) >= 2
    requires IsCut(count, kept, budget, cut)
    ensures var whole := Sort(before, offered);
      && IsCut(count, whole, budget, cut) && kept[..cut] == whole[..cut]
      && groups + (|kept| - cut) == |whole| - cut
      && files + DroppedFiles(count, extra, kept, budget, cut) == DroppedFiles(count, extra, whole, budget, cut)
      && SumBy(count, kept[..cut]) + DroppedFiles(count, extra, whole, budget, cut)
         == SumBy(all, offered) + SumBy(Over(count, budget), kept[..cut])
  {
    var whole := Sort(before, offered);
    forall i | 0 <= i < |whole| ensures count(whole[i]) >= 2 {
      assert whole[i] in multiset(whole);
    }
    BoundedCut(count, whole, budget, cut);
    SumSort(all, before, offered);
    SumOfBoth(count, extra, all, kept, cut);
    SumOfBoth(count, extra, all, whole, cut);
  }

  // ------------------------------------------------------ the finished listing

  // What final makes of what was kept: the rows up to the cut, none over the
  // budget, and what is left out counted.
  ghost predicate Finished<T>(count: T -> nat, extra: T -> nat, clip: (T, nat) -> T,
                              kept: seq<T>, groups: nat, files: nat,
                              budget: nat, rows: seq<T>, dropG: nat, dropF: nat)
  {
    && IsCut(count, kept, budget, |rows|)
    && (forall i :: 0 <= i < |rows| ==> rows[i] == clip(kept[i], budget))
    && dropG == groups + (|kept| - |rows|)
    && dropF == files + DroppedFiles(count, extra, kept, budget, |rows|)
    && SumBy(count, rows) + SumBy(Over(count, budget), kept[..|rows|]) == SumBy(count, kept[..|rows|])
  }

  method Finish<T(!new)>(count: T -> nat, extra: T -> nat, clip: (T, nat) -> T,
                   kept: seq<T>, groups: nat, files: nat, budget: nat)
    returns (rows: seq<T>, dropG: nat, dropF: nat)
    requires forall g :: count(clip(g, budget)) + Over(count, budget)(g) == count(g)
    requires forall g :: count(g) <= budget ==> clip(g, budget) == g
    ensures Finished(count, extra, clip, kept, groups, files, budget, rows, dropG, dropF)
  {
    var cut := CapCutIndex(count, kept, budget);
    var past := CountPast(count, extra, kept, cut);
    var clipped;
    rows, clipped := ClipRows(count, clip, kept[..cut], budget);
    dropG := groups + (|kept| - cut);
    dropF := files + past + clipped;
  }

  // The listing and its truncation report are those of sorting everything found
  // and cutting the whole; every file found is listed or reported.
  ghost predicate IsListing<T(!new)>(before: (T, T) -> bool, count: T -> nat, extra: T -> nat, all: T -> nat,
                                     clip: (T, nat) -> T, found: seq<T>, budget: nat,
                                     rows: seq<T>, dropG: nat, dropF: nat)
  {
    var whole, cut := Sort(before, found), |rows|;
    && IsCut(count, whole, budget, cut)
    && (forall i :: 0 <= i < cut ==> rows[i] == clip(whole[i], budget))
    && dropG == |whole| - cut
    && dropF == DroppedFiles(count, extra, whole, budget, cut)
    && SumBy(count, rows) + dropF == SumBy(all, found)
  }

  // There is only one.
  lemma ListingUnique<T(!new)>(before: (T, T) -> bool, count: T -> nat, extra: T -> nat, all: T -> nat,
                               clip: (T, nat) -> T, found: seq<T>, budget: nat,
                               rows: seq<T>, dropG: nat, dropF: nat, rows': seq<T>, dropG': nat, dropF': nat)
    requires IsListing(before, count, extra, all, clip, found, budget, rows, dropG, dropF)
    requires IsListing(before, count, extra, all, clip, found, budget, rows', dropG', dropF')
    ensures rows == rows' && dropG == dropG' && dropF == dropF'
  {
    CutUnique(count, Sort(before, found), budget, |rows|, |rows'|);
  }

  lemma FinishedIsListing<T(!new)>(before: (T, T) -> bool, count: T -> nat, extra: T -> nat, all: T -> nat,
                                   clip: (T, nat) -> T, kept: seq<T>, groups: nat, files: nat, skipped: nat,
                                   found: seq<T>, budget: nat, rows: seq<T>, dropG: nat, dropF: nat)
    requires Tracks(before, all, budget / 2 + 1, kept, groups, files, found)
    requires forall g :: all(g) == count(g) + extra(g)
    requires forall g :: g in found ==> count(g) >= 2
    requires Finished(count, extra, clip, kept, groups, files + skipped, budget, rows, dropG, dropF)
    ensures dropF >= skipped && IsListing(before, count, extra, all, clip, found, budget, rows, dropG, dropF - skipped)
  {
    var whole, cut := Sort(before, found), |rows|;
    FinalAgrees(before, count, extra, all, budget, kept, groups, files, found, cut);
    forall i | 0 <= i < cut ensures rows[i] == clip(whole[i], budget) {
      assert kept[..cut][i] == whole[..cut][i];
    }
  }
}
