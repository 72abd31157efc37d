// The bounded accumulator of duplicate groups (server/stream.go, groupTop;
// server/duplicates.go, final) against the plain form: sort every group found,
// then cut.
module GroupTop {
  import opened Paths
  import opened Ranking
  import opened Listing
  import opened Copies

  // extra: the members the per-group cap dropped before this point.
  datatype RawGroup = RawGroup(size: nat, hash: string, files: seq<RawFile>, extra: nat)

  function Weight(g: RawGroup): nat {
    ReclaimPhys(CopyPhys(g.files)) + g.size * g.extra
  }

  function FirstPath(g: RawGroup): string {
    if g.files == [] then "" else g.files[0].path
  }

  // betterGroup: most reclaimable first, ties by hash, then by first path.
  predicate BetterGroup(a: RawGroup, b: RawGroup) {
    if Weight(a) != Weight(b) then Weight(a) > Weight(b)
    else if a.hash != b.hash then StrLess(a.hash, b.hash)
    else StrLess(FirstPath(a), FirstPath(b))
  }

  function Files(g: RawGroup): nat { |g.files| }
  function Extra(g: RawGroup): nat { g.extra }
  function FilesAndExtra(g: RawGroup): nat { |g.files| + g.extra }

  lemma StrLessAll(a: string, b: string, c: string)
    ensures !StrLess(a, a)
    ensures a == b || StrLess(a, b) || StrLess(b, a)
    ensures StrLess(a, b) && StrLess(b, c) ==> StrLess(a, c)
    ensures StrLess(a, b) ==> StrLess(a, c) || StrLess(c, b)
  {
    StrLessIrreflexive(a);
    StrLessTotal(a, b);
    StrLessTotal(a, c);
    if StrLess(a, b) && StrLess(b, c) { StrLessTransitive(a, b, c); }
    if StrLess(c, a) && StrLess(a, b) { StrLessTransitive(c, a, b); }
  }

  lemma GroupOrder()
    ensures ListingOrder(BetterGroup)
  {
    forall a: RawGroup ensures !BetterGroup(a, a) { StrLessIrreflexive(FirstPath(a)); }
    forall a: RawGroup, b: RawGroup, c: RawGroup | BetterGroup(a, b)
      ensures BetterGroup(b, c) ==> BetterGroup(a, c)
      ensures BetterGroup(a, c) || BetterGroup(c, b)
    {
      StrLessAll(a.hash, b.hash, c.hash);
      StrLessAll(a.hash, c.hash, b.hash);
      StrLessAll(FirstPath(a), FirstPath(b), FirstPath(c));
    }
  }

  function Clip(g: RawGroup, budget: nat): RawGroup {
    g.(files := Take(g.files, budget))
  }

  // The accumulator's fields: the kept groups best first (the last is the heap's
  // root), and what was dropped.
  datatype Kept = Kept(gs: seq<RawGroup>, droppedGroups: nat, droppedFiles: nat)

  function Added(limit: nat, k: Kept, g: RawGroup): Kept
    requires limit >= 1
  {
    if |k.gs| < limit then k.(gs := Bounded(BetterGroup, k.gs, g, limit))
    else
      Kept(Bounded(BetterGroup, k.gs, g, limit), k.droppedGroups + 1,
           k.droppedFiles + FilesAndExtra(Loser(BetterGroup, k.gs, g)))
  }

  function AddedAll(limit: nat, k: Kept, found: seq<RawGroup>): Kept
    requires limit >= 1
  {
    if found == [] then k
    else Added(limit, AddedAll(limit, k, found[..|found| - 1]), found[|found| - 1])
  }

  class Accumulator {
    const limit: nat
    var gs: seq<RawGroup>
    var droppedGroups: nat
    var droppedFiles: nat

    function State(): Kept
      reads this
    {
      Kept(gs, droppedGroups, droppedFiles)
    }

    constructor (budget: nat)
      ensures limit == budget / 2 + 1 && State() == Kept([], 0, 0)
    {
      limit := budget / 2 + 1;
      gs, droppedGroups, droppedFiles := [], 0, 0;
    }

    method Add(g: RawGroup)
      requires limit >= 1
      modifies this
      ensures State() == Added(limit, old(State()), g)
    {
      var next, full := Place(BetterGroup, gs, g, limit);
      if full {
        var loser := Loser(BetterGroup, gs, g);
        droppedGroups, droppedFiles := droppedGroups + 1, droppedFiles + |loser.files| + loser.extra;
      }
      gs := next;
    }

    method NoteSkipped(n: nat)
      modifies this`droppedFiles
      ensures State() == WithSkipped(old(State()), n)
    {
      droppedFiles := droppedFiles + n;
    }

    method Final(budget: nat) returns (rows: seq<RawGroup>, dropG: nat, dropF: nat)
      ensures Finished(Files, Extra, Clip, gs, droppedGroups, droppedFiles, budget, rows, dropG, dropF)
    {
      rows, dropG, dropF := Finish(Files, Extra, Clip, gs, droppedGroups, droppedFiles, budget);
    }
  }

  method Accumulate(found: seq<RawGroup>, budget: nat) returns (acc: Accumulator)
    ensures fresh(acc) && acc.State() == KeptOf(found, budget)
  {
    acc := new Accumulator(budget);
    for i := 0 to |found|
      invariant fresh(acc) && acc.limit == budget / 2 + 1
      invariant acc.State() == AddedAll(budget / 2 + 1, Kept([], 0, 0), found[..i])
    {
      assert found[..i + 1][..i] == found[..i];
      acc.Add(found[i]);
    }
    assert found[..|found|] == found;
  }

  // A whole accumulation; skipped candidates are reported on top.
  method ListGroups(found: seq<RawGroup>, skipped: nat, budget: nat)
    returns (rows: seq<RawGroup>, dropG: nat, dropF: nat)
    requires forall g :: g in found ==> |g.files| >= 2
    ensures dropF >= skipped
            && IsListing(BetterGroup, Files, Extra, FilesAndExtra, Clip, found, budget, rows, dropG, dropF - skipped)
  {
    var acc := Accumulate(found, budget);
    acc.NoteSkipped(skipped);
    rows, dropG, dropF := acc.Final(budget);
    KeptTracks(budget / 2 + 1, found);
    var k := KeptOf(found, budget);
    FinishedIsListing(BetterGroup, Files, Extra, FilesAndExtra, Clip, k.gs, k.droppedGroups, k.droppedFiles, skipped,
                      found, budget, rows, dropG, dropF);
  }

  function KeptOf(found: seq<RawGroup>, budget: nat): Kept {
    AddedAll(budget / 2 + 1, Kept([], 0, 0), found)
  }

  function WithSkipped(k: Kept, n: nat): Kept { k.(droppedFiles := k.droppedFiles + n) }

  // ---------------------------------------- the bounded form is the plain form

  lemma AddCounts(limit: nat, k: Kept, g: RawGroup)
    requires limit >= 1
    ensures var n := Added(limit, k, g);
      && n.gs == Bounded(BetterGroup, k.gs, g, limit)
      && |n.gs| + n.droppedGroups == |k.gs| + k.droppedGroups + 1
      && SumBy(FilesAndExtra, n.gs) + n.droppedFiles == SumBy(FilesAndExtra, k.gs) + k.droppedFiles + FilesAndExtra(g)
  {
    SumInsert(FilesAndExtra, BetterGroup, k.gs, g);
    if k.gs != [] {
      SumLast(FilesAndExtra, k.gs);
      SumInsert(FilesAndExtra, BetterGroup, k.gs[..|k.gs| - 1], g);
    }
  }

  lemma AddTracks(limit: nat, k: Kept, offered: seq<RawGroup>, g: RawGroup)
    requires limit >= 1
    requires Tracks(BetterGroup, FilesAndExtra, limit, k.gs, k.droppedGroups, k.droppedFiles, offered)
    ensures var n := Added(limit, k, g);
      Tracks(BetterGroup, FilesAndExtra, limit, n.gs, n.droppedGroups, n.droppedFiles, offered + [g])
  {
    AddCounts(limit, k, g);
    SumAppend(FilesAndExtra, offered, g);
    GroupOrder();
    AddStep(BetterGroup, offered, g, limit);
  }

  lemma {:induction false} KeptTracks(limit: nat, found: seq<RawGroup>)
    requires limit >= 1
    ensures var k := AddedAll(limit, Kept([], 0, 0), found);
      Tracks(BetterGroup, FilesAndExtra, limit, k.gs, k.droppedGroups, k.droppedFiles, found)
  {
    if found != [] {
      var init, g := found[..|found| - 1], found[|found| - 1];
      assert found == init + [g];
      KeptTracks(limit, init);
      AddTracks(limit, AddedAll(limit, Kept([], 0, 0), init), init, g);
    }
  }
}
