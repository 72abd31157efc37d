// The accumulator of conflicting sets (server/corrupt.go, corruptTop): unlike
// groupTop it appends, and sorts and cuts only once past its limit.
module CorruptTop {
  import opened Paths
  import opened Ranking
  import opened Listing
  import opened GroupTop

  datatype ConflictSet = ConflictSet(flagged: bool, sameName: bool, size: nat, paths: seq<string>, extra: nat)

  function Rank(c: ConflictSet): nat {
    if c.flagged then 2 else if c.sameName then 1 else 0
  }

  function First(c: ConflictSet): string {
    if c.paths == [] then "" else c.paths[0]
  }

  // betterSet: positively damaged first, then same-named, then by size and path.
  predicate BetterSet(a: ConflictSet, b: ConflictSet) {
    if Rank(a) != Rank(b) then Rank(a) > Rank(b)
    else if a.size != b.size then a.size > b.size
    else StrLess(First(a), First(b))
  }

  function Members(c: ConflictSet): nat { |c.paths| }
  function Unlisted(c: ConflictSet): nat { c.extra }
  function AllMembers(c: ConflictSet): nat { |c.paths| + c.extra }

  function ClipSet(c: ConflictSet, budget: nat): ConflictSet { c.(paths := Take(c.paths, budget)) }

  lemma SetOrder()
    ensures ListingOrder(BetterSet)
  {
    forall a: ConflictSet ensures !BetterSet(a, a) { StrLessIrreflexive(First(a)); }
    forall a: ConflictSet, b: ConflictSet, c: ConflictSet | BetterSet(a, b)
      ensures BetterSet(b, c) ==> BetterSet(a, c)
      ensures BetterSet(a, c) || BetterSet(c, b)
    {
      StrLessAll(First(a), First(b), First(c));
    }
  }

  datatype KeptSets = KeptSets(sets: seq<ConflictSet>, droppedSets: nat, droppedFiles: nat)

  function AddedSet(limit: nat, k: KeptSets, c: ConflictSet): KeptSets {
    var s := k.sets + [c];
    if |s| <= limit then k.(sets := s)
    else
      var sorted := Sort(BetterSet, s);
      KeptSets(sorted[..limit], k.droppedSets + (|s| - limit), k.droppedFiles + SumBy(AllMembers, sorted[limit..]))
  }

  function AddedSets(limit: nat, found: seq<ConflictSet>): KeptSets {
    if found == [] then KeptSets([], 0, 0)
    else AddedSet(limit, AddedSets(limit, found[..|found| - 1]), found[|found| - 1])
  }

  method CountFiles(cs: seq<ConflictSet>) returns (n: nat)
    ensures n == SumBy(AllMembers, cs)
  {
    n := 0;
    for i := 0 to |cs|
      invariant n == SumBy(AllMembers, cs[..i])
    {
      assert cs[..i + 1] == cs[..i] + [cs[i]];
      SumAppend(AllMembers, cs[..i], cs[i]);
      n := n + |cs[i].paths| + cs[i].extra;
    }
    assert cs[..|cs|] == cs;
  }

  class Accumulator {
    const limit: nat
    var sets: seq<ConflictSet>
    var droppedSets: nat
    var droppedFiles: nat

    function State(): KeptSets
      reads this
    {
      KeptSets(sets, droppedSets, droppedFiles)
    }

    constructor (budget: nat)
      ensures limit == budget / 2 + 1 && State() == KeptSets([], 0, 0)
    {
      limit := budget / 2 + 1;
      sets, droppedSets, droppedFiles := [], 0, 0;
    }

    method Add(c: ConflictSet)
      modifies this
      ensures State() == AddedSet(limit, old(State()), c)
    {
      sets := sets + [c];
      if |sets| <= limit { return; }
      var sorted := Sort(BetterSet, sets);
      var files := CountFiles(sorted[limit..]);
      droppedSets, droppedFiles := droppedSets + (|sorted| - limit), droppedFiles + files;
      sets := sorted[..limit];
    }

    method NoteSkipped(n: nat)
      modifies this`droppedFiles
      ensures State() == old(State()).(droppedFiles := old(droppedFiles) + n)
    {
      droppedFiles := droppedFiles + n;
    }

    // The cut of final; the sets it keeps are then judged (module Verdicts).
    method Final(budget: nat) returns (rows: seq<ConflictSet>, dropS: nat, dropF: nat)
      modifies this`sets
      ensures sets == Sort(BetterSet, old(sets))
      ensures Finished(Members, Unlisted, ClipSet, sets, droppedSets, droppedFiles, budget, rows, dropS, dropF)
    {
      sets := Sort(BetterSet, sets);
      rows, dropS, dropF := Finish(Members, Unlisted, ClipSet, sets, droppedSets, droppedFiles, budget);
    }
  }

  // However the appends and cuts fell, sorting what is kept gives the first
  // `limit` of the listing of every set found, and the rest is counted.
  lemma {:induction false} SetsTrack(limit: nat, found: seq<ConflictSet>)
    ensures var k := AddedSets(limit, found);
      Tracks(BetterSet, AllMembers, limit, Sort(BetterSet, k.sets), k.droppedSets, k.droppedFiles, found)
  {
    if found != [] {
      var init, c := found[..|found| - 1], found[|found| - 1];
      assert found == init + [c];
      SetsTrack(limit, init);
      var k := AddedSets(limit, init);
      SetOrder();
      SortAppend(BetterSet, k.sets, c);
      SortAppend(BetterSet, init, c);
      TakeInsert(BetterSet, Sort(BetterSet, init), c, limit);
      SumAppend(AllMembers, init, c);
      SetsCount(limit, k.sets, c);
    }
  }

  lemma SetsCount(limit: nat, sets: seq<ConflictSet>, c: ConflictSet)
    ensures var sorted := Sort(BetterSet, sets + [c]);
      && SumBy(AllMembers, sorted) == SumBy(AllMembers, Sort(BetterSet, sets)) + AllMembers(c)
      && (|sorted| > limit ==>
            Sort(BetterSet, sorted[..limit]) == sorted[..limit]
            && SumBy(AllMembers, sorted[..limit]) + SumBy(AllMembers, sorted[limit..]) == SumBy(AllMembers, sorted))
  {
    SetOrder();
    SortAppend(BetterSet, sets, c);
    SumInsert(AllMembers, BetterSet, Sort(BetterSet, sets), c);
    SortedPrefix(limit, sets + [c]);
  }

  lemma SortedPrefix(limit: nat, s: seq<ConflictSet>)
    ensures var sorted := Sort(BetterSet, s);
      |sorted| > limit ==>
        && Sort(BetterSet, sorted[..limit]) == sorted[..limit]
        && SumBy(AllMembers, sorted[..limit]) + SumBy(AllMembers, sorted[limit..]) == SumBy(AllMembers, sorted)
  {
    var sorted := Sort(BetterSet, s);
    SetOrder();
    SortSorted(BetterSet, s);
    if |sorted| > limit {
      SortOfSorted(BetterSet, sorted[..limit]);
      SplitAt(sorted, limit);
    }
  }

  lemma SplitAt(s: seq<ConflictSet>, n: nat)
    requires n <= |s|
    ensures SumBy(AllMembers, s[..n]) + SumBy(AllMembers, s[n..]) == SumBy(AllMembers, s)
  {
    assert s == s[..n] + s[n..];
    SumSplit(AllMembers, s[..n], s[n..]);
  }

  method Accumulate(found: seq<ConflictSet>, budget: nat) returns (acc: Accumulator)
    ensures fresh(acc) && acc.State() == AddedSets(budget / 2 + 1, found)
  {
    acc := new Accumulator(budget);
    for i := 0 to |found|
      invariant fresh(acc) && acc.limit == budget / 2 + 1
      invariant acc.State() == AddedSets(budget / 2 + 1, found[..i])
    {
      assert found[..i + 1][..i] == found[..i];
      acc.Add(found[i]);
    }
    assert found[..|found|] == found;
  }

  // A whole accumulation: however the appends and cuts fell, the listing is that of
  // everything found, sorted and cut, with the same counts, and every member found
  // is listed or reported; skipped candidates are reported on top.
  method ListSets(found: seq<ConflictSet>, skipped: nat, budget: nat)
    returns (rows: seq<ConflictSet>, dropS: nat, dropF: nat)
    requires forall c :: c in found ==> |c.paths| >= 2
    ensures dropF >= skipped
            && IsListing(BetterSet, Members, Unlisted, AllMembers, ClipSet, found, budget, rows, dropS, dropF - skipped)
  {
    var acc := Accumulate(found, budget);
    acc.NoteSkipped(skipped);
    rows, dropS, dropF := acc.Final(budget);
    SetsTrack(budget / 2 + 1, found);
    var k := AddedSets(budget / 2 + 1, found);
    FinishedIsListing(BetterSet, Members, Unlisted, AllMembers, ClipSet, Sort(BetterSet, k.sets), k.droppedSets,
                      k.droppedFiles, skipped, found, budget, rows, dropS, dropF);
  }
}
