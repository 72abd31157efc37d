// The daemon's side of a move request, as it updates its own fields
// (server/move.go: newMoveVet, handleMove, pruneMoved).
module MoveServer {
  import opened Paths
  import opened KeepOne
  import opened MoveRuns

  // The files a request takes along: those it names, and every listed member
  // beneath a folder it names.
  method RequestedPaths(groups: seq<Group>, rq: Request) returns (requested: set<Path>)
    ensures IsRequested(groups, rq, requested)
  {
    requested := set p | p in rq.files;
    var dirs := set d | d in rq.files && d in rq.dirs;
    for i := 0 to |groups|
      invariant forall p :: p in requested <==> p in rq.files || (IsRow(groups[..i], p) && UnderRequestedDir(rq, p))
    {
      ghost var before := requested;
      var rows := groups[i].rows;
      for k := 0 to |rows|
        invariant forall p :: p in requested <==>
          p in before || (UnderRequestedDir(rq, p) && exists j :: 0 <= j < k && rows[j].path == p)
      {
        if IsUnder(rows[k].path, dirs) {
          assert UnderRequestedDir(rq, rows[k].path);
          requested := requested + {rows[k].path};
        } else {
          NotUnder(rq, rows[k].path, dirs);
        }
      }
      RowsUpTo(groups, i);
    }
    assert groups[..|groups|] == groups;
  }

  lemma NotUnder(rq: Request, p: Path, dirs: set<Path>)
    requires dirs == (set d | d in rq.files && d in rq.dirs) && !IsUnder(p, dirs)
    ensures !UnderRequestedDir(rq, p)
  {
    forall d | d in rq.files && d in rq.dirs ensures !(d <= p) { assert d in dirs; }
  }

  lemma RowsUpTo(groups: seq<Group>, i: nat)
    requires i < |groups|
    ensures forall p :: IsRow(groups[..i + 1], p) <==> IsRow(groups[..i], p) || HasRow(groups[i], p)
  {
    assert groups[..i + 1] == groups[..i] + [groups[i]];
    forall p ensures IsRow(groups[..i + 1], p) <==> IsRow(groups[..i], p) || HasRow(groups[i], p) {
      assert groups[i] in groups[..i + 1];
      if IsRow(groups[..i], p) {
        var g :| g in groups[..i] && HasRow(g, p);
        assert g in groups[..i + 1];
      }
      if IsRow(groups[..i + 1], p) {
        var g :| g in groups[..i + 1] && HasRow(g, p);
        assert g in groups[..i] || g == groups[i];
      }
    }
  }

  method UnderHeld(dir: Path, held: set<Path>) returns (b: bool)
    ensures b == HoldsUnder(dir, held)
  {
    b := exists p :: p in held && dir < p;
  }

  class Server {
    var groups: seq<Group>
    var keepers: set<Path>
    ghost var scanned: seq<Group>
    ghost var moved: set<Path>
    ghost var movedDirs: set<Path>

    ghost function State(): State
      reads this
    {
      MoveRuns.State(groups, keepers, scanned, moved, movedDirs)
    }

    // A finished duplicates scan replaces the groups and clears the keepers.
    method ScanDone(found: seq<Group>)
      modifies this
      ensures State() == FreshScan(found)
    {
      groups, keepers := found, {};
      scanned, moved, movedDirs := found, {}, {};
    }

    // refuse: why a path may not move at all.
    method Refuse(rq: Request, drops: set<Path>, cp: Path) returns (refused: bool)
      ensures refused == Refused(rq, drops, keepers, cp)
    {
      if cp in drops || cp in keepers { return true; }
      if cp in rq.dirs {
        var inDrops := UnderHeld(cp, drops);
        var inKeepers := UnderHeld(cp, keepers);
        if inDrops || inKeepers { return true; }
      }
      if IsUnder(cp, rq.refs) { return true; }
      return cp !in rq.allowed;
    }

    // Rows whose base name no moved entry has are skipped unjudged: with no
    // folder moved they cannot have gone.
    method PruneMoved(canonPaths: set<Path>, dirPaths: set<Path>)
      requires dirPaths <= canonPaths
      modifies this`groups, this`keepers
      ensures groups == PrunedGroups(old(groups), canonPaths, dirPaths)
      ensures keepers == old(keepers) + NewKeepers(old(groups), canonPaths, dirPaths)
    {
      var names := set p | p in canonPaths :: Base(p);
      var out := [];
      for i := 0 to |groups|
        invariant groups == old(groups)
        invariant out == PrunedGroups(groups[..i], canonPaths, dirPaths)
        invariant keepers == old(keepers) + NewKeepers(groups[..i], canonPaths, dirPaths)
      {
        assert groups[..i + 1][..i] == groups[..i];
        var files := KeepRows(groups[i].rows, canonPaths, dirPaths, names);
        if |files| >= 2 {
          out := out + [groups[i].(rows := files)];
        } else if |files| == 1 {
          keepers := keepers + {files[0].path};
        }
      }
      assert groups[..|groups|] == groups;
      groups := out;
    }

    method KeepRows(rows: seq<Row>, gone: set<Path>, dirPaths: set<Path>, names: set<string>) returns (files: seq<Row>)
      requires dirPaths <= gone && names == set p | p in gone :: Base(p)
      ensures files == PrunedRows(rows, gone, dirPaths)
    {
      files := [];
      assert gone * dirPaths == dirPaths;
      for k := 0 to |rows|
        invariant files == PrunedRows(rows[..k], gone, dirPaths)
      {
        assert rows[..k + 1][..k] == rows[..k];
        var p := rows[k].path;
        var candidate := Base(p) in names || dirPaths != {};
        if !candidate || !(p in gone || (dirPaths != {} && IsUnder(p, dirPaths))) {
          files := files + [rows[k]];
        }
      }
      assert rows[..|rows|] == rows;
    }

    // Vet, move file by file, prune. Nothing else changes the groups while it
    // runs (module Exclusion), so what was vetted is what is pruned.
    method HandleMove(rq: Request, a: Answers) returns (drops: set<Path>, ghost requested: set<Path>)
      requires |rq.files| == |a.empty| == |a.gone|
      modifies this
      ensures IsRequested(old(groups), rq, requested)
      ensures RequestVetting(old(groups), rq, requested).IsDrops(old(groups), drops)
      ensures State() == After(old(State()), rq, drops, a)
      ensures old(Safe(State())) && Truthful(old(groups), rq, drops, old(keepers), a) ==> Safe(State())
    {
      var req := RequestedPaths(groups, rq);
      requested := req;
      var v := Vetting(req, rq.refs, rq.present, rq.isOut, rq.verify, rq.intact);
      var outHeld, staleHeld;
      drops, outHeld, staleHeld := KeepOneDropsWhy(v, groups);
      var movedCanon, dirs := {}, {};
      for i := 0 to |rq.files|
        invariant State() == old(State())
        invariant movedCanon == MovedBy(rq, drops, keepers, a, i)
        invariant dirs == movedCanon * rq.dirs
      {
        var cp := rq.files[i];
        var refused := Refuse(rq, drops, cp);
        if !refused && (cp in rq.dirs ==> a.empty[i]) && a.gone[i] {
          movedCanon := movedCanon + {cp};
          if cp in rq.dirs { dirs := dirs + {cp}; }
        }
      }
      PruneMoved(movedCanon, dirs);
      moved, movedDirs := moved + movedCanon, movedDirs + dirs;
      if old(Safe(State())) && Truthful(old(groups), rq, drops, old(keepers), a) {
        RequestKeepsSafe(old(State()), rq, requested, drops, a);
      }
    }
  }
}
