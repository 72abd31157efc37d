// Sequences of move requests between two duplicates scans (server/move.go,
// handleMove with newMoveVet, refuse and pruneMoved): vet, execute file by
// file, prune. No such sequence drains a duplicate group.
//
// File Station's answers and the choices of the client are inputs. A request's
// dirs are the paths its tool listed as folders; only the empty-folder tool
// lists any, and for those confirmEmpty answers just before the move.
module MoveRuns {
  import opened Paths
  import opened KeepOne

  // allowed: the requested tool's rows that pass the checks on the name, the
  // volume and the mount alone.
  datatype Request = Request(files: seq<Path>, dirs: set<Path>, allowed: set<Path>, refs: set<Path>,
                             present: set<Path>, isOut: Path -> bool, verify: bool, intact: (Path, string) -> bool)

  // Per file: did confirmEmpty answer yes, and did the source leave its place
  // (moved, parked, or moved and then failing verification)?
  datatype Answers = Answers(empty: seq<bool>, gone: seq<bool>)

  // A moved folder takes everything under it.
  predicate Taken(moved: set<Path>, dirs: set<Path>, p: Path) {
    p in moved || IsUnder(p, moved * dirs)
  }

  predicate HoldsUnder(dir: Path, held: set<Path>) {
    exists p :: p in held && dir < p
  }

  predicate Refused(rq: Request, drops: set<Path>, keepers: set<Path>, cp: Path) {
    || cp in drops || cp in keepers
    || (cp in rq.dirs && (HoldsUnder(cp, drops) || HoldsUnder(cp, keepers)))
    || IsUnder(cp, rq.refs)
    || cp !in rq.allowed
  }

  predicate Leaves(rq: Request, drops: set<Path>, keepers: set<Path>, a: Answers, i: nat)
    requires i < |rq.files| == |a.empty| == |a.gone|
  {
    !Refused(rq, drops, keepers, rq.files[i]) && (rq.files[i] in rq.dirs ==> a.empty[i]) && a.gone[i]
  }

  function MovedBy(rq: Request, drops: set<Path>, keepers: set<Path>, a: Answers, n: nat): set<Path>
    requires n <= |rq.files| == |a.empty| == |a.gone|
  {
    if n == 0 then {}
    else MovedBy(rq, drops, keepers, a, n - 1)
         + if Leaves(rq, drops, keepers, a, n - 1) then {rq.files[n - 1]} else {}
  }

  ghost predicate IsRow(groups: seq<Group>, p: Path) {
    exists g :: g in groups && HasRow(g, p)
  }

  ghost predicate HasRow(g: Group, p: Path) {
    exists i :: 0 <= i < |g.rows| && g.rows[i].path == p
  }

  // What the outside world guarantees: a row still in place is a file, never a
  // reference folder, and a folder confirmed empty shows every row still in it
  // as an entry of its own (sub-folders other than @eaDir, where no row lies,
  // are refused).
  ghost predicate Truthful(groups: seq<Group>, rq: Request, drops: set<Path>, keepers: set<Path>, a: Answers)
    requires |rq.files| == |a.empty| == |a.gone|
  {
    && (forall p :: p in rq.refs ==> !IsRow(groups, p))
    && forall i, p :: 0 <= i < |rq.files| && rq.files[i] in rq.dirs && Leaves(rq, drops, keepers, a, i)
         && IsRow(groups, p) && rq.files[i] < p && !Taken(MovedBy(rq, drops, keepers, a, i), rq.dirs, p)
         ==> |p| == |rq.files[i]| + 1
  }

  // ------------------------------------------------------------ one request

  ghost function RequestVetting(groups: seq<Group>, rq: Request, requested: set<Path>): Vetting {
    Vetting(requested, rq.refs, rq.present, rq.isOut, rq.verify, rq.intact)
  }

  // Requested: the files named, and every row under a folder named.
  ghost predicate IsRequested(groups: seq<Group>, rq: Request, requested: set<Path>) {
    forall p :: p in requested <==> p in rq.files || (IsRow(groups, p) && UnderRequestedDir(rq, p))
  }

  predicate UnderRequestedDir(rq: Request, p: Path) {
    exists d :: d in rq.files && d in rq.dirs && d <= p
  }

  lemma {:induction false} MovedMeans(rq: Request, drops: set<Path>, keepers: set<Path>, a: Answers, n: nat, p: Path)
    requires n <= |rq.files| == |a.empty| == |a.gone|
    requires p in MovedBy(rq, drops, keepers, a, n)
    ensures exists i :: 0 <= i < n && rq.files[i] == p && Leaves(rq, drops, keepers, a, i)
  {
    if p in MovedBy(rq, drops, keepers, a, n - 1) {
      MovedMeans(rq, drops, keepers, a, n - 1, p);
    } else {
      assert rq.files[n - 1] == p;
    }
  }

  // A keeper, a held-back copy or a reference file is still in place when the
  // request ends, and so is a row nobody asked for.
  lemma {:induction false} ProtectedStays(groups: seq<Group>, rq: Request, drops: set<Path>, keepers: set<Path>,
                                          a: Answers, n: nat, p: Path)
    requires n <= |rq.files| == |a.empty| == |a.gone| && Truthful(groups, rq, drops, keepers, a)
    requires || p in drops || p in keepers
             || (IsRow(groups, p) && (IsUnder(p, rq.refs) || (p !in rq.files && !UnderRequestedDir(rq, p))))
    ensures !Taken(MovedBy(rq, drops, keepers, a, n), rq.dirs, p)
  {
    if n > 0 {
      ProtectedStays(groups, rq, drops, keepers, a, n - 1, p);
      var before, after := MovedBy(rq, drops, keepers, a, n - 1), MovedBy(rq, drops, keepers, a, n);
      if Leaves(rq, drops, keepers, a, n - 1) {
        NotByThis(groups, rq, drops, keepers, a, n - 1, p);
        NotTakenAfter(before, rq.files[n - 1], rq.dirs, p);
        assert after == before + {rq.files[n - 1]};
      } else {
        assert after == before;
      }
    }
  }

  lemma NotTakenAfter(before: set<Path>, d: Path, dirs: set<Path>, p: Path)
    requires !Taken(before, dirs, p) && d != p && (d in dirs ==> !(d <= p))
    ensures !Taken(before + {d}, dirs, p)
  {
    forall r | r in (before + {d}) * dirs ensures !(r <= p) {
      assert r == d || r in before * dirs;
    }
  }

  lemma NotByThis(groups: seq<Group>, rq: Request, drops: set<Path>, keepers: set<Path>, a: Answers, i: nat, p: Path)
    requires i < |rq.files| == |a.empty| == |a.gone| && Truthful(groups, rq, drops, keepers, a)
    requires || p in drops || p in keepers
             || (IsRow(groups, p) && (IsUnder(p, rq.refs) || (p !in rq.files && !UnderRequestedDir(rq, p))))
    requires Leaves(rq, drops, keepers, a, i)
    requires !Taken(MovedBy(rq, drops, keepers, a, i), rq.dirs, p)
    ensures rq.files[i] != p && (rq.files[i] in rq.dirs ==> !(rq.files[i] <= p))
  {
    var d := rq.files[i];
    assert p in drops && d < p ==> HoldsUnder(d, drops);
    assert p in keepers && d < p ==> HoldsUnder(d, keepers);
    if IsUnder(p, rq.refs) {
      var r :| r in rq.refs && r <= p;
      assert r <= d ==> IsUnder(d, rq.refs);
      PrefixesCompare(r, d, p);
    }
  }

  lemma PrefixesCompare(r: Path, d: Path, p: Path)
    ensures r <= p && d <= p ==> r <= d || |d| < |r|
    ensures r <= p && |r| == |p| ==> r == p
  {
  }

  // ------------------------------------------------------------- the prune

  function PrunedRows(rows: seq<Row>, moved: set<Path>, dirs: set<Path>): seq<Row> {
    if rows == [] then []
    else
      var n := |rows| - 1;
      PrunedRows(rows[..n], moved, dirs) + if Taken(moved, dirs, rows[n].path) then [] else [rows[n]]
  }

  // A group of two or more stays listed; a lone survivor becomes a keeper.
  function PrunedGroups(groups: seq<Group>, moved: set<Path>, dirs: set<Path>): seq<Group> {
    if groups == [] then []
    else
      var n := |groups| - 1;
      var left := groups[n].(rows := PrunedRows(groups[n].rows, moved, dirs));
      PrunedGroups(groups[..n], moved, dirs) + if |left.rows| >= 2 then [left] else []
  }

  function NewKeepers(groups: seq<Group>, moved: set<Path>, dirs: set<Path>): set<Path> {
    if groups == [] then {}
    else
      var n := |groups| - 1;
      var left := PrunedRows(groups[n].rows, moved, dirs);
      NewKeepers(groups[..n], moved, dirs) + if |left| == 1 then {left[0].path} else {}
  }

  lemma {:induction false} PrunedRowsMeaning(rows: seq<Row>, moved: set<Path>, dirs: set<Path>)
    ensures forall r :: r in PrunedRows(rows, moved, dirs) <==> r in rows && !Taken(moved, dirs, r.path)
  {
    if rows != [] {
      var n := |rows| - 1;
      PrunedRowsMeaning(rows[..n], moved, dirs);
      assert rows == rows[..n] + [rows[n]];
    }
  }

  lemma {:induction false} PrunedGroupsMeaning(groups: seq<Group>, moved: set<Path>, dirs: set<Path>, i: nat)
    requires i < |groups|
    ensures var left := PrunedRows(groups[i].rows, moved, dirs);
      && (|left| >= 2 ==> groups[i].(rows := left) in PrunedGroups(groups, moved, dirs))
      && (|left| == 1 ==> left[0].path in NewKeepers(groups, moved, dirs))
  {
    var n := |groups| - 1;
    if i < n { PrunedGroupsMeaning(groups[..n], moved, dirs, i); }
  }

  lemma {:induction false} PrunedGroupsFrom(groups: seq<Group>, moved: set<Path>, dirs: set<Path>, g: Group)
    requires g in PrunedGroups(groups, moved, dirs)
    ensures |g.rows| >= 2
    ensures exists i :: 0 <= i < |groups| && g == groups[i].(rows := PrunedRows(groups[i].rows, moved, dirs))
  {
    var n := |groups| - 1;
    if g in PrunedGroups(groups[..n], moved, dirs) {
      PrunedGroupsFrom(groups[..n], moved, dirs, g);
    }
  }

  lemma {:induction false} NewKeepersFrom(groups: seq<Group>, moved: set<Path>, dirs: set<Path>, p: Path)
    requires p in NewKeepers(groups, moved, dirs)
    ensures IsRow(groups, p) && !Taken(moved, dirs, p)
  {
    var n := |groups| - 1;
    if p in NewKeepers(groups[..n], moved, dirs) {
      NewKeepersFrom(groups[..n], moved, dirs, p);
      var g :| g in groups[..n] && HasRow(g, p);
      assert g in groups;
    } else {
      var left := PrunedRows(groups[n].rows, moved, dirs);
      PrunedRowsMeaning(groups[n].rows, moved, dirs);
      assert left[0] in left;
      assert HasRow(groups[n], p);
    }
  }

  // ------------------------------------------------------------- whole runs

  // scanned: what the last duplicates scan found. moved: everything taken away
  // since, folders among them in movedDirs.
  datatype State = State(groups: seq<Group>, keepers: set<Path>,
                         scanned: seq<Group>, moved: set<Path>, movedDirs: set<Path>)

  function FreshScan(groups: seq<Group>): State {
    State(groups, {}, groups, {}, {})
  }

  ghost predicate Covered(s: State, g: Group) {
    || (exists h :: h in s.groups && FromGroup(h, g))
    || (exists p :: p in s.keepers && HasRow(g, p))
  }

  ghost predicate FromGroup(h: Group, g: Group) {
    forall p :: HasRow(h, p) ==> HasRow(g, p)
  }

  ghost predicate Gone(s: State, p: Path) {
    Taken(s.moved, s.movedDirs, p)
  }

  // Every row listed, and every keeper, is still where it was scanned; every
  // listed group has two; and every scanned group is still listed or kept.
  ghost predicate Safe(s: State) {
    && s.movedDirs <= s.moved
    && (forall p :: IsRow(s.groups, p) || p in s.keepers ==> !Gone(s, p))
    && (forall g :: g in s.groups ==> |g.rows| >= 2)
    && (forall g :: g in s.scanned ==> Covered(s, g))
  }

  ghost predicate Vetted(s: State, rq: Request, requested: set<Path>, drops: set<Path>, a: Answers) {
    && |rq.files| == |a.empty| == |a.gone|
    && IsRequested(s.groups, rq, requested)
    && RequestVetting(s.groups, rq, requested).IsDrops(s.groups, drops)
    && Truthful(s.groups, rq, drops, s.keepers, a)
  }

  function After(s: State, rq: Request, drops: set<Path>, a: Answers): State
    requires |rq.files| == |a.empty| == |a.gone|
  {
    var moved := MovedBy(rq, drops, s.keepers, a, |rq.files|);
    var dirs := moved * rq.dirs;
    State(PrunedGroups(s.groups, moved, dirs), s.keepers + NewKeepers(s.groups, moved, dirs),
          s.scanned, s.moved + moved, s.movedDirs + dirs)
  }

  // One request leaves every listed group a row, in place.
  lemma RowLeft(s: State, rq: Request, requested: set<Path>, drops: set<Path>, a: Answers, g: Group)
    requires Vetted(s, rq, requested, drops, a) && g in s.groups && g.rows != []
    ensures var moved := MovedBy(rq, drops, s.keepers, a, |rq.files|);
      exists r :: r in g.rows && !Taken(moved, moved * rq.dirs, r.path)
  {
    var v := RequestVetting(s.groups, rq, requested);
    EveryGroupKeepsOne(v, s.groups, drops, g);
    var i :| 0 <= i < |g.rows| && KeepOne.Kept(v, drops, g.rows[i].path);
    KeptRowStays(s, rq, requested, drops, a, g, i);
  }

  lemma KeptRowStays(s: State, rq: Request, requested: set<Path>, drops: set<Path>, a: Answers, g: Group, i: nat)
    requires Vetted(s, rq, requested, drops, a) && g in s.groups && i < |g.rows|
    requires KeepOne.Kept(RequestVetting(s.groups, rq, requested), drops, g.rows[i].path)
    ensures var moved := MovedBy(rq, drops, s.keepers, a, |rq.files|);
      g.rows[i] in g.rows && !Taken(moved, moved * rq.dirs, g.rows[i].path)
  {
    var p := g.rows[i].path;
    assert HasRow(g, p) && IsRow(s.groups, p);
    ProtectedStays(s.groups, rq, drops, s.keepers, a, |rq.files|, p);
    var moved := MovedBy(rq, drops, s.keepers, a, |rq.files|);
    SameDirs(moved, rq.dirs, p);
  }

  lemma SameDirs(moved: set<Path>, dirs: set<Path>, p: Path)
    ensures Taken(moved, moved * dirs, p) == Taken(moved, dirs, p)
  {
    assert moved * (moved * dirs) == moved * dirs;
  }

  lemma TakenEither(m1: set<Path>, d1: set<Path>, m2: set<Path>, d2: set<Path>, p: Path)
    requires d1 <= m1 && d2 <= m2 && !Taken(m1, d1, p) && !Taken(m2, d2, p)
    ensures !Taken(m1 + m2, d1 + d2, p)
  {
    forall r | r in (m1 + m2) * (d1 + d2) ensures !(r <= p) {
      assert r in m1 * d1 || r in m2 * d2;
    }
  }

  lemma NothingListedIsGone(s: State, rq: Request, requested: set<Path>, drops: set<Path>, a: Answers, p: Path)
    requires Safe(s) && Vetted(s, rq, requested, drops, a)
    requires var t := After(s, rq, drops, a); IsRow(t.groups, p) || p in t.keepers
    ensures !Gone(After(s, rq, drops, a), p)
  {
    var moved := MovedBy(rq, drops, s.keepers, a, |rq.files|);
    var dirs := moved * rq.dirs;
    if p in s.keepers {
      ProtectedStays(s.groups, rq, drops, s.keepers, a, |rq.files|, p);
      SameDirs(moved, rq.dirs, p);
    } else if p in NewKeepers(s.groups, moved, dirs) {
      NewKeepersFrom(s.groups, moved, dirs, p);
    } else {
      RowSurvivedPrune(s.groups, moved, dirs, p);
    }
    TakenEither(s.moved, s.movedDirs, moved, dirs, p);
  }

  lemma RowSurvivedPrune(groups: seq<Group>, moved: set<Path>, dirs: set<Path>, p: Path)
    requires IsRow(PrunedGroups(groups, moved, dirs), p)
    ensures IsRow(groups, p) && !Taken(moved, dirs, p)
  {
    var g :| g in PrunedGroups(groups, moved, dirs) && HasRow(g, p);
    PrunedGroupsFrom(groups, moved, dirs, g);
    var i :| 0 <= i < |groups| && g == groups[i].(rows := PrunedRows(groups[i].rows, moved, dirs));
    PrunedRowsMeaning(groups[i].rows, moved, dirs);
    var k :| 0 <= k < |g.rows| && g.rows[k].path == p;
    assert g.rows[k] in g.rows && g.rows[k] in groups[i].rows;
    assert HasRow(groups[i], p);
  }

  lemma StillCovered(s: State, rq: Request, requested: set<Path>, drops: set<Path>, a: Answers, g: Group)
    requires Safe(s) && Vetted(s, rq, requested, drops, a) && g in s.scanned
    ensures Covered(After(s, rq, drops, a), g)
  {
    var t := After(s, rq, drops, a);
    if p :| p in s.keepers && HasRow(g, p) {
      assert p in t.keepers;
    } else {
      var h :| h in s.groups && FromGroup(h, g);
      var moved := MovedBy(rq, drops, s.keepers, a, |rq.files|);
      var dirs := moved * rq.dirs;
      var i :| 0 <= i < |s.groups| && s.groups[i] == h;
      RowLeft(s, rq, requested, drops, a, h);
      PrunedRowsMeaning(h.rows, moved, dirs);
      PrunedGroupsMeaning(s.groups, moved, dirs, i);
      var left := h.(rows := PrunedRows(h.rows, moved, dirs));
      assert left.rows != [];
      forall p | HasRow(left, p) ensures HasRow(h, p) && HasRow(g, p) {
        RowOf(left, h, p);
      }
      if |left.rows| >= 2 {
        assert left in t.groups && FromGroup(left, g);
      } else {
        assert HasRow(left, left.rows[0].path) && left.rows[0].path in t.keepers;
      }
    }
  }

  lemma RowOf(left: Group, h: Group, p: Path)
    requires HasRow(left, p) && forall r :: r in left.rows ==> r in h.rows
    ensures HasRow(h, p)
  {
    var k :| 0 <= k < |left.rows| && left.rows[k].path == p;
    assert left.rows[k] in left.rows;
  }

  // Keep-one, one request: whatever the client asks for, whatever File Station
  // reports about existence and whatever becomes of each file.
  lemma RequestKeepsSafe(s: State, rq: Request, requested: set<Path>, drops: set<Path>, a: Answers)
    requires Safe(s) && Vetted(s, rq, requested, drops, a)
    ensures Safe(After(s, rq, drops, a))
  {
    var t := After(s, rq, drops, a);
    forall p | IsRow(t.groups, p) || p in t.keepers ensures !Gone(t, p) {
      NothingListedIsGone(s, rq, requested, drops, a, p);
    }
    forall g | g in t.groups ensures |g.rows| >= 2 {
      var moved := MovedBy(rq, drops, s.keepers, a, |rq.files|);
      PrunedGroupsFrom(s.groups, moved, moved * rq.dirs, g);
    }
    forall g | g in t.scanned ensures Covered(t, g) {
      StillCovered(s, rq, requested, drops, a, g);
    }
  }

  ghost predicate Step(s: State, t: State) {
    exists rq, requested, drops, a :: Vetted(s, rq, requested, drops, a) && t == After(s, rq, drops, a)
  }

  ghost predicate Run(run: seq<State>, scan: seq<Group>) {
    && run != [] && run[0] == FreshScan(scan)
    && forall i :: 0 <= i < |run| - 1 ==> Step(run[i], run[i + 1])
  }

  lemma {:induction false} RunSafe(run: seq<State>, scan: seq<Group>, n: nat)
    requires Run(run, scan) && n < |run|
    requires forall g :: g in scan ==> |g.rows| >= 2
    ensures Safe(run[n]) && run[n].scanned == scan
  {
    if n == 0 {
      forall g | g in scan ensures Covered(FreshScan(scan), g) { assert FromGroup(g, g); }
    } else {
      RunSafe(run, scan, n - 1);
      assert Step(run[n - 1], run[(n - 1) + 1]);
      var rq, requested, drops, a :|
        Vetted(run[n - 1], rq, requested, drops, a) && run[n] == After(run[n - 1], rq, drops, a);
      RequestKeepsSafe(run[n - 1], rq, requested, drops, a);
    }
  }

  // Keep-one over whole runs: at every moment each group the scan found has a
  // member no request ever took, listed in a group of two or more or kept.
  lemma KeepOneForever(run: seq<State>, scan: seq<Group>, n: nat, g: Group)
    requires Run(run, scan) && n < |run| && g in scan
    requires forall h :: h in scan ==> |h.rows| >= 2
    ensures exists p :: HasRow(g, p) && !Gone(run[n], p)
              && (p in run[n].keepers || exists h :: h in run[n].groups && |h.rows| >= 2 && HasRow(h, p))
  {
    RunSafe(run, scan, n);
    var s := run[n];
    assert Covered(s, g);
    if p :| p in s.keepers && HasRow(g, p) {
      assert !Gone(s, p);
    } else {
      var h :| h in s.groups && FromGroup(h, g);
      var p := h.rows[0].path;
      assert HasRow(h, p) && IsRow(s.groups, p);
    }
  }

  // The copy that stays is the best kind available: while a group has an
  // original on disk one is still there after the request, and while one of
  // those holds the content (under verification, was read and matched) such a
  // one is.
  lemma BestKindStaysPut(s: State, rq: Request, requested: set<Path>, drops: set<Path>, a: Answers, g: Group, i: nat)
    requires Vetted(s, rq, requested, drops, a) && g in s.groups
    requires i < |g.rows| && g.rows[i].path in rq.present && !rq.isOut(g.rows[i].path)
    ensures var v, moved := RequestVetting(s.groups, rq, requested), MovedBy(rq, drops, s.keepers, a, |rq.files|);
      exists r :: r in g.rows && !Taken(moved, moved * rq.dirs, r.path)
        && r.path in rq.present && !rq.isOut(r.path)
        && (v.Holds(g.rows[i].path, ContentHash(g)) ==> v.Holds(r.path, ContentHash(g)))
  {
    var v := RequestVetting(s.groups, rq, requested);
    BestKindStays(v, s.groups, drops, g, i);
    var j :| 0 <= j < |g.rows| && KeepOne.Kept(v, drops, g.rows[j].path)
              && g.rows[j].path in v.present && v.Original(g.rows[j].path)
              && (v.Holds(g.rows[i].path, ContentHash(g)) ==> v.Holds(g.rows[j].path, ContentHash(g)));
    KeptRowStays(s, rq, requested, drops, a, g, j);
  }
}
