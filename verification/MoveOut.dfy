// Telling a copy the daemon moved apart from an original (server/moveout.go):
// the record of where moves put things.
module MoveOut {
  import opened Options
  import opened Paths

  // A place an entry landed, a batch folder or a moved entry; the data of a
  // landed file, inode, size and time within its shared folder; a place an entry
  // was taken from.
  datatype Data = Data(share: Path, ino: nat, size: nat, mtime: int)
  datatype Mark = Landed(p: Path) | LandedData(d: Data) | TakenFrom(p: Path)

  // What stands at a path: its link count and, for a regular file with an inode,
  // its data.
  datatype Stat = Stat(links: nat, data: Option<Data>)

  // covers: walking up from p meets a recorded place. The root is never asked.
  method Covers(marks: set<Mark>, p: Path) returns (b: bool)
    ensures b <==> exists i :: 0 < i <= |p| && Landed(p[..i]) in marks
  {
    var q := p;
    while q != []
      invariant q <= p
      invariant forall i :: |q| < i <= |p| ==> Landed(p[..i]) !in marks
    {
      if Landed(q) in marks {
        assert q == p[..|q|];
        return true;
      }
      assert q == p[..|q|];
      q := q[..|q| - 1];
    }
    return false;
  }

  predicate Covered(marks: set<Mark>, p: Path) {
    exists i :: 0 < i <= |p| && Landed(p[..i]) in marks
  }

  // holdsMovedData: not at a place something was taken from, nor for a file with
  // several names.
  predicate HoldsMovedData(marks: set<Mark>, p: Path, at: Option<Stat>) {
    && TakenFrom(p) !in marks && at.Some? && at.value.links <= 1
    && at.value.data.Some? && LandedData(at.value.data.value) in marks
  }

  // isOut; batchLayout: p lies in a folder laid out as a batch folder.
  predicate IsOut(marks: set<Mark>, batchLayout: bool, p: Path, at: Option<Stat>) {
    batchLayout || Covered(marks, p) || HoldsMovedData(marks, p, at)
  }

  // What one flat move records.
  function AfterMove(marks: set<Mark>, from: Path, to: Path, d: Data): set<Mark> {
    marks + {Landed(to), LandedData(d), TakenFrom(from)}
  }

  // The landed copy is a moved copy wherever in its share the user carries it,
  // so long as nothing was ever taken from there.
  lemma MovedCopyIsRecognised(marks: set<Mark>, from: Path, to: Path, d: Data, now: Path)
    requires to != []
    ensures var m := AfterMove(marks, from, to, d);
      && IsOut(m, false, to, None)
      && (TakenFrom(now) !in m ==> IsOut(m, false, now, Some(Stat(1, Some(d)))))
  {
    var m := AfterMove(marks, from, to, d);
    assert to[..|to|] == to;
    assert Landed(to[..|to|]) in m;
  }

  // Put back where it came from it is an original again, unless that place lies
  // inside somewhere moves landed.
  lemma RestoredIsOriginal(marks: set<Mark>, from: Path, to: Path, d: Data, at: Option<Stat>)
    ensures var m := AfterMove(marks, from, to, d);
      IsOut(m, false, from, at) <==> Covered(marks, from) || (to != [] && to <= from)
  {
    var m := AfterMove(marks, from, to, d);
    if to != [] && to <= from { assert from[..|to|] == to; }
    if Covered(marks, from) {
      var i :| 0 < i <= |from| && Landed(from[..i]) in marks;
      assert Landed(from[..i]) in m;
    }
    if Covered(m, from) {
      var i :| 0 < i <= |from| && Landed(from[..i]) in m;
      assert Landed(from[..i]) in marks || from[..i] == to;
    }
  }

  // Recording a landing only ever adds moved copies at or under it, or by its
  // data; only the place it was taken from may turn back into an original.
  lemma RecordingIsMonotone(marks: set<Mark>, from: Path, to: Path, d: Data, p: Path, at: Option<Stat>)
    requires p != from && IsOut(marks, false, p, at)
    ensures IsOut(AfterMove(marks, from, to, d), false, p, at)
  {
    if Covered(marks, p) {
      var i :| 0 < i <= |p| && Landed(p[..i]) in marks;
      assert Landed(p[..i]) in AfterMove(marks, from, to, d);
    }
  }

  // What a flat move of a folder records: its place, the data of the files in it, and
  // only the folder's own place as one something was taken from.
  function AfterFolderMove(marks: set<Mark>, from: Path, to: Path, ds: set<Data>): set<Mark> {
    marks + {Landed(to), TakenFrom(from)} + set d | d in ds :: LandedData(d)
  }

  // So a file of a folder put back where it came from still reads as a moved copy,
  // exactly when it has one name, its data is on record, and nothing was ever taken
  // from its own place; or when that place is covered as for a file.
  lemma RestoredFolderIff(marks: set<Mark>, from: Path, to: Path, ds: set<Data>, p: Path, at: Option<Stat>)
    requires from < p
    ensures var m := AfterFolderMove(marks, from, to, ds);
      IsOut(m, false, p, at) <==>
        || Covered(marks, p) || (to != [] && to <= p)
        || (TakenFrom(p) !in marks && at.Some? && at.value.links <= 1 && at.value.data.Some?
            && (at.value.data.value in ds || LandedData(at.value.data.value) in marks))
  {
    var m := AfterFolderMove(marks, from, to, ds);
    if to != [] && to <= p { assert p[..|to|] == to; }
    if Covered(marks, p) {
      var i :| 0 < i <= |p| && Landed(p[..i]) in marks;
      assert Landed(p[..i]) in m;
    }
    if Covered(m, p) {
      var i :| 0 < i <= |p| && Landed(p[..i]) in m;
      assert Landed(p[..i]) in marks || p[..i] == to;
    }
  }

  // The folder "b" moved to "c" and put back: the file in it is no original.
  lemma RestoredFolderStaysOut(d: Data)
    ensures IsOut(AfterFolderMove({}, ["a", "b"], ["a", "c"], {d}), false, ["a", "b", "f"], Some(Stat(1, Some(d))))
    ensures !IsOut({}, false, ["a", "b", "f"], Some(Stat(1, Some(d))))
  {
    RestoredFolderIff({}, ["a", "b"], ["a", "c"], {d}, ["a", "b", "f"], Some(Stat(1, Some(d))));
  }
}
