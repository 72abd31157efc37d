// Replaying the move journal at startup (server/journal.go): what a batch cut
// short had done, or may still be doing, is put on record.
module Journal {
  import opened Options
  import opened Paths
  import opened JournalLines
  import opened FileStation
  import opened StagedMove
  import opened KeepOne
  import opened MoveRuns
  import opened MoveServer

  // -------------------------------------------------- the file, cut anywhere

  predicate IsLine(t: string) { '\n' !in t }

  // The journal file: every line closed by a newline.
  function FileOf(texts: seq<string>): string {
    if texts == [] then "" else FileOf(texts[..|texts| - 1]) + texts[|texts| - 1] + "\n"
  }

  // readJournal: whole lines only; a last one without its newline was cut off.
  method ReadLines(b: string) returns (texts: seq<string>)
    ensures forall i :: 0 <= i < |texts| ==> IsLine(texts[i])
    ensures exists rest :: IsLine(rest) && b == FileOf(texts) + rest
  {
    texts := [];
    var from, i := 0, 0;
    while i < |b|
      invariant 0 <= from <= i <= |b|
      invariant forall k :: 0 <= k < |texts| ==> IsLine(texts[k])
      invariant '\n' !in b[from..i] && b[..from] == FileOf(texts)
    {
      if b[i] == '\n' {
        var line := b[from..i];
        assert (texts + [line])[..|texts|] == texts;
        assert b[..i + 1] == b[..from] + line + "\n";
        texts := texts + [line];
        from := i + 1;
        assert b[from..i + 1] == "";
      } else {
        assert b[from..i + 1] == b[from..i] + [b[i]];
      }
      i := i + 1;
    }
    assert b[from..|b|] == b[from..] && b == b[..from] + b[from..];
    assert IsLine(b[from..]);
  }

  // So a file cut anywhere reads as a prefix of the lines written, with none of
  // those lost that ended before the cut.
  lemma {:induction false} CutReadsPrefix(texts: seq<string>, k: nat, got: seq<string>, rest: string)
    requires forall i :: 0 <= i < |texts| ==> IsLine(texts[i])
    requires forall i :: 0 <= i < |got| ==> IsLine(got[i])
    requires k <= |FileOf(texts)| && IsLine(rest) && FileOf(texts)[..k] == FileOf(got) + rest
    ensures got <= texts
    ensures forall j :: 0 <= j <= |texts| && |FileOf(texts[..j])| <= k ==> j <= |got|
  {
    var n := |texts| - 1;
    if texts == [] {
      assert |FileOf(got)| == 0;
    } else if k <= |FileOf(texts[..n])| {
      assert FileOf(texts)[..k] == FileOf(texts[..n])[..k];
      CutReadsPrefix(texts[..n], k, got, rest);
      assert texts[..|texts|] == texts;
      forall j | 0 <= j <= |texts| && |FileOf(texts[..j])| <= k ensures j <= |got| {
        if j <= n { assert texts[..n][..j] == texts[..j]; }
      }
    } else {
      CutInLast(texts, k, got, rest);
      assert texts[..|texts|] == texts;
    }
  }

  lemma CutInLast(texts: seq<string>, k: nat, got: seq<string>, rest: string)
    requires texts != [] && |FileOf(texts[..|texts| - 1])| < k <= |FileOf(texts)|
    requires forall i :: 0 <= i < |texts| ==> IsLine(texts[i])
    requires forall i :: 0 <= i < |got| ==> IsLine(got[i])
    requires IsLine(rest) && FileOf(texts)[..k] == FileOf(got) + rest
    ensures got == if k == |FileOf(texts)| then texts else texts[..|texts| - 1]
  {
    var n := |texts| - 1;
    var head, tail := FileOf(texts[..n]), (texts[n] + "\n")[..k - |FileOf(texts[..n])|];
    assert FileOf(texts) == head + (texts[n] + "\n");
    assert FileOf(texts)[..k] == head + tail;
    if k == |FileOf(texts)| {
      assert tail == texts[n] + "\n";
      assert FileOf(texts)[..k] == FileOf(texts) + "";
      SameLines(texts, "", got, rest);
    } else {
      assert tail == texts[n][..|tail|];
      SameLines(texts[..n], tail, got, rest);
    }
  }

  lemma {:induction false} SameLines(a: seq<string>, s: string, b: seq<string>, t: string)
    requires forall i :: 0 <= i < |a| ==> IsLine(a[i])
    requires forall i :: 0 <= i < |b| ==> IsLine(b[i])
    requires IsLine(s) && IsLine(t) && FileOf(a) + s == FileOf(b) + t
    ensures a == b && s == t
  {
    if a == [] && b == [] {
      assert "" + s == s && "" + t == t;
    } else {
      SameTail(FileOf(a), s, FileOf(b), t);
      if a != [] && b != [] {
        var m, n := |a| - 1, |b| - 1;
        var x, y := FileOf(a[..m]) + a[m], FileOf(b[..n]) + b[n];
        assert FileOf(a) == x + "\n" && FileOf(b) == y + "\n";
        assert x == FileOf(a)[..|FileOf(a)| - 1] && y == FileOf(b)[..|FileOf(b)| - 1];
        SameLines(a[..m], a[m], b[..n], b[n]);
        assert a == a[..m] + [a[m]] && b == b[..n] + [b[n]];
      }
    }
  }

  lemma SameTail(x: string, s: string, y: string, t: string)
    requires IsLine(s) && IsLine(t) && x + s == y + t
    requires x == "" || x[|x| - 1] == '\n'
    requires y == "" || y[|y| - 1] == '\n'
    ensures x == y && s == t
  {
    assert forall i :: |x| <= i < |x + s| ==> (x + s)[i] == s[i - |x|];
    assert forall i :: |y| <= i < |y + t| ==> (y + t)[i] == t[i - |y|];
    assert x != "" ==> (x + s)[|x| - 1] == '\n';
    assert y != "" ==> (y + t)[|y| - 1] == '\n';
    assert (x + s)[..|x|] == x && (y + t)[..|y|] == y;
    assert (x + s)[|x|..] == s && (y + t)[|y|..] == t;
  }

  // ------------------------------------------------------------- the replay

  // The entry being worked on.
  datatype Inflight = Inflight(src: Path, aheads: seq<Path>, from: seq<Path>, placed: seq<Path>)

  // settle: an entry with no outcome may be anywhere it was sent to.
  function Settle(cur: Inflight): set<Record> {
    (set p | p in cur.aheads :: At(p)) + (set p | p in cur.placed :: At(p)) + (set p | p in cur.from :: From(p))
  }

  function SettleAny(cur: Option<Inflight>): set<Record> {
    if cur.Some? then Settle(cur.value) else {}
  }

  datatype Replayed = Replayed(cur: Option<Inflight>, out: set<Record>, gone: set<Path>, dirs: set<Path>)

  function Elems<T>(s: seq<T>): set<T> { set x | x in s }

  function Next(r: Replayed, l: Line): Replayed {
    match l
    case Begin(_) => r.(out := r.out + SettleAny(r.cur), cur := None)
    case Start(src) => r.(out := r.out + SettleAny(r.cur), cur := Some(Inflight(src, [], [], [])))
    case Ahead(at, from) =>
      if r.cur.None? then r else r.(cur := Some(r.cur.value.(aheads := r.cur.value.aheads + [at], from := from)))
    case Staging(_) => r
    case Placed(at) =>
      if r.cur.None? then r else r.(cur := Some(r.cur.value.(placed := r.cur.value.placed + [at])))
    case Done(_, _, moveOut, gone, dirs) =>
      Replayed(None, r.out + Elems(moveOut), r.gone + Elems(gone), r.dirs + Elems(dirs))
    case End => r
  }

  function Fold(lines: seq<Line>): Replayed {
    if lines == [] then Replayed(None, {}, {}, {})
    else Next(Fold(lines[..|lines| - 1]), lines[|lines| - 1])
  }

  // Every record a replay adds.
  function Out(lines: seq<Line>): set<Record> {
    Fold(lines).out + SettleAny(Fold(lines).cur)
  }

  predicate Turns(l: Line) { l.Begin? || l.Start? || l.Done? }

  ghost predicate Quiet(lines: seq<Line>, from: nat, to: nat) {
    forall k :: from <= k < to && k < |lines| ==> !Turns(lines[k])
  }

  // The entry of line a was ended by its own outcome.
  ghost predicate Ended(lines: seq<Line>, a: nat, d: nat) {
    a < d < |lines| && lines[d].Done? && Quiet(lines, a + 1, d)
  }

  ghost predicate Pending(lines: seq<Line>, a: nat)
    requires a < |lines| && lines[a].Ahead?
  {
    Quiet(lines, a + 1, |lines|) && Fold(lines).cur.Some? && lines[a].at in Fold(lines).cur.value.aheads
  }

  // No entry is forgotten: a place it was about to be put is on record or still
  // pending, unless the entry's own outcome was written.
  lemma {:induction false} AheadFate(lines: seq<Line>, a: nat)
    requires a < |lines| && lines[a].Ahead? && Fold(lines[..a]).cur.Some?
    ensures At(lines[a].at) in Fold(lines).out || Pending(lines, a) || exists d :: Ended(lines, a, d)
  {
    var n := |lines| - 1;
    if a == n {
      assert lines[..a] == lines[..n];
    } else {
      var init := lines[..n];
      assert init[..a] == lines[..a] && init[a] == lines[a];
      AheadFate(init, a);
      if d: nat :| Ended(init, a, d) {
        assert Ended(lines, a, d);
      } else if Pending(init, a) {
        assert Quiet(lines, a + 1, n);
        if lines[n].Done? { assert Ended(lines, a, n); }
      }
    }
  }

  // At an entry's first line the replay is on that entry.
  lemma {:induction false} OnEntry(lines: seq<Line>, entry: nat)
    requires 0 < entry <= |lines| && lines[entry - 1].Start? && Quiet(lines, entry, |lines|)
    ensures Fold(lines).cur.Some?
  {
    var n := |lines| - 1;
    if entry <= n { OnEntry(lines[..n], entry); }
  }

  // The write-ahead journal covers every place the entry may be: cut it anywhere
  // past the flushed lines that announce p, and the replay puts p on record,
  // unless p lies in the hidden staging folder or the outcome was written.
  lemma ReplayCovers(lines: seq<Line>, entry: nat, flushed: nat, cut: nat, p: Path)
    requires 0 < entry <= flushed <= cut <= |lines| && lines[entry - 1].Start? && Quiet(lines, entry, flushed)
    requires AnnouncedIn(lines, entry, flushed, p)
    ensures || At(p) in Out(lines[..cut])
            || (exists i :: entry <= i < flushed && lines[i].Staging? && lines[i].folder < p)
            || (exists d :: flushed <= d < cut && lines[d].Done? && Quiet(lines, entry, d))
  {
    var i :| entry <= i < flushed && Names(lines[i], p);
    if lines[i].Ahead? {
      var log := lines[..cut];
      assert log[..i] == lines[..i];
      OnEntry(lines[..i], entry);
      AheadFate(log, i);
      if d: nat :| Ended(log, i, d) {
        assert log[d] == lines[d] && forall k :: i < k < d ==> log[k] == lines[k];
        assert d >= flushed;
        forall k | entry <= k < d ensures !Turns(lines[k]) {
          if k > i { assert log[k] == lines[k]; }
        }
        assert Quiet(lines, entry, d);
      }
    }
  }

  // While an entry is under way, whatever is asked of File Station next and
  // wherever the crash falls, a replay of what reached the disk covers where the
  // entry is and every place it was sent to.
  lemma CrashIsCovered(w: World, cut: nat, p: Path)
    requires w.Valid() && 0 < w.log.entry && w.log.synced <= cut <= |w.log.lines|
    requires w.log.lines[w.log.entry - 1].Start?
    requires (p == w.at && p != w.origin) || exists k :: 0 <= k < |w.puts| && w.puts[k].at == p
    ensures At(p) in Out(w.log.lines[..cut]) || InStaging(w.log.lines[..cut], p)
  {
    var lines, entry, flushed := w.log.lines, w.log.entry, w.log.synced;
    if k :| 0 <= k < |w.puts| && w.puts[k].at == p {
      var i :| entry <= i < w.puts[k].flushed && i < |lines| && Names(lines[i], p);
      assert AnnouncedIn(lines, entry, flushed, p);
    }
    AnnouncedIsCovered(lines, entry, flushed, cut, p);
  }

  // p lies in a hidden staging folder the journal names.
  ghost predicate InStaging(lines: seq<Line>, p: Path) {
    exists i :: 0 <= i < |lines| && lines[i].Staging? && lines[i].folder < p
  }

  lemma AnnouncedIsCovered(lines: seq<Line>, entry: nat, synced: nat, cut: nat, p: Path)
    requires 0 < entry <= |lines| && lines[entry - 1].Start? && Quiet(lines, entry, |lines|)
    requires synced <= cut <= |lines| && AnnouncedIn(lines, entry, synced, p)
    ensures At(p) in Out(lines[..cut]) || InStaging(lines[..cut], p)
  {
    ReplayCovers(lines, entry, synced, cut, p);
    if i :| entry <= i < synced && lines[i].Staging? && lines[i].folder < p {
      assert lines[..cut][i] == lines[i];
    }
  }

  // An outcome that reached the disk is replayed whole.
  lemma {:induction false} OutcomeIsReplayed(lines: seq<Line>, d: nat)
    requires d < |lines| && lines[d].Done?
    ensures Elems(lines[d].moveOut) <= Fold(lines).out <= Out(lines)
    ensures Elems(lines[d].gone) <= Fold(lines).gone && Elems(lines[d].dirs) <= Fold(lines).dirs
  {
    var n := |lines| - 1;
    if d < n { OutcomeIsReplayed(lines[..n], d); }
  }

  // And only outcomes prune rows.
  lemma {:induction false} OnlyOutcomesPrune(lines: seq<Line>, p: Path)
    requires p in Fold(lines).gone || p in Fold(lines).dirs
    ensures exists d :: 0 <= d < |lines| && lines[d].Done? && (p in lines[d].gone || p in lines[d].dirs)
  {
    var n := |lines| - 1;
    if p in Fold(lines[..n]).gone || p in Fold(lines[..n]).dirs {
      OnlyOutcomesPrune(lines[..n], p);
      var d :| 0 <= d < n && lines[..n][d].Done? && (p in lines[..n][d].gone || p in lines[..n][d].dirs);
      assert lines[d] == lines[..n][d];
    }
  }

  // ---------------------------------------------- replaying into the daemon

  // replayMoveJournal, folding the lines through its own variables.
  method ReplayMoveJournal(s: Server, lines: seq<Line>, moveOut: set<Record>) returns (records: set<Record>)
    requires Fold(lines).dirs <= Fold(lines).gone
    modifies s`groups, s`keepers
    ensures records == moveOut + Out(lines)
    ensures s.groups == PrunedGroups(old(s.groups), Fold(lines).gone, Fold(lines).dirs)
    ensures s.keepers == old(s.keepers) + NewKeepers(old(s.groups), Fold(lines).gone, Fold(lines).dirs)
  {
    var cur: Option<Inflight> := None;
    var out, gone, dirs := {}, {}, {};
    for i := 0 to |lines|
      invariant Fold(lines[..i]) == Replayed(cur, out, gone, dirs)
      invariant s.groups == old(s.groups) && s.keepers == old(s.keepers)
    {
      assert lines[..i + 1][..i] == lines[..i];
      match lines[i] {
        case Begin(_) =>
          if cur.Some? { out := out + Settle(cur.value); }
          cur := None;
        case Start(src) =>
          if cur.Some? { out := out + Settle(cur.value); }
          cur := Some(Inflight(src, [], [], []));
        case Ahead(at, from) =>
          if cur.Some? { cur := Some(cur.value.(aheads := cur.value.aheads + [at], from := from)); }
        case Staging(_) =>
        case Placed(at) =>
          if cur.Some? { cur := Some(cur.value.(placed := cur.value.placed + [at])); }
        case Done(_, _, recs, left, leftDirs) =>
          out, gone, dirs, cur := out + Elems(recs), gone + Elems(left), dirs + Elems(leftDirs), None;
        case End =>
      }
    }
    assert lines[..|lines|] == lines;
    if cur.Some? { out := out + Settle(cur.value); }
    records := moveOut + out;
    s.PruneMoved(gone, dirs);
  }

  lemma {:induction false} PruneAgain(groups: seq<Group>, gone: set<Path>, dirs: set<Path>)
    requires forall g, r :: g in groups && r in g.rows ==> !Taken(gone, dirs, r.path)
    requires forall g :: g in groups ==> |g.rows| >= 2
    ensures PrunedGroups(groups, gone, dirs) == groups && NewKeepers(groups, gone, dirs) == {}
  {
    if groups != [] {
      var n := |groups| - 1;
      PruneAgain(groups[..n], gone, dirs);
      RowsAgain(groups[n].rows, gone, dirs);
      assert groups == groups[..n] + [groups[n]];
    }
  }

  lemma {:induction false} RowsAgain(rows: seq<Row>, gone: set<Path>, dirs: set<Path>)
    requires forall r :: r in rows ==> !Taken(gone, dirs, r.path)
    ensures PrunedRows(rows, gone, dirs) == rows
  {
    if rows != [] {
      RowsAgain(rows[..|rows| - 1], gone, dirs);
      assert rows == rows[..|rows| - 1] + [rows[|rows| - 1]];
    }
  }

  // A crash after the save but before the journal is removed replays it again:
  // neither the records nor the rows nor the keepers change.
  lemma ReplayTwice(lines: seq<Line>, moveOut: set<Record>, groups: seq<Group>, keepers: set<Path>)
    ensures
      var r := Fold(lines);
      var once := PrunedGroups(groups, r.gone, r.dirs);
      && moveOut + Out(lines) + Out(lines) == moveOut + Out(lines)
      && PrunedGroups(once, r.gone, r.dirs) == once
      && NewKeepers(once, r.gone, r.dirs) == {}
  {
    var r := Fold(lines);
    var once := PrunedGroups(groups, r.gone, r.dirs);
    forall g | g in once ensures |g.rows| >= 2 && forall row :: row in g.rows ==> !Taken(r.gone, r.dirs, row.path) {
      PrunedGroupsFrom(groups, r.gone, r.dirs, g);
      var i :| 0 <= i < |groups| && g == groups[i].(rows := PrunedRows(groups[i].rows, r.gone, r.dirs));
      PrunedRowsMeaning(groups[i].rows, r.gone, r.dirs);
    }
    PruneAgain(once, r.gone, r.dirs);
  }
}
