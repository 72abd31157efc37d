// The entries of a batch, one after another, in one journal (server/move.go,
// handleMove; server/journal.go): wherever a crash cuts it, every entry is
// accounted for.
module Batches {
  import opened Options
  import opened Paths
  import opened JournalLines
  import opened FileStation
  import opened StagedMove
  import opened Transit
  import opened Journal

  // One line leaves a place on record, or settles it, or leaves it pending.
  lemma LineKeeps(s: Replayed, l: Line, p: Path)
    ensures At(p) in s.out ==> At(p) in Next(s, l).out
    ensures At(p) in SettleAny(s.cur) && (l.Start? || l.Begin?) ==> At(p) in Next(s, l).out
    ensures At(p) in SettleAny(s.cur) && !Turns(l) ==> At(p) in SettleAny(Next(s, l).cur)
  {
    if At(p) in SettleAny(s.cur) {
      var cur := s.cur.value;
      if l.Ahead? { assert forall q :: q in cur.aheads ==> q in cur.aheads + [l.at]; }
      if l.Placed? { assert forall q :: q in cur.placed ==> q in cur.placed + [l.at]; }
    }
  }

  lemma FoldStep(lines: seq<Line>, b: nat)
    requires 0 < b <= |lines|
    ensures Fold(lines[..b]) == Next(Fold(lines[..b - 1]), lines[b - 1])
  {
    assert lines[..b][..b - 1] == lines[..b - 1];
  }

  ghost predicate OnRecord(s: Replayed, lines: seq<Line>, a: nat, b: nat, p: Path) {
    At(p) in s.out || (Quiet(lines, a, b) && At(p) in SettleAny(s.cur))
  }

  lemma LineOn(s: Replayed, lines: seq<Line>, a: nat, b: nat, p: Path)
    requires a < b <= |lines| && OnRecord(s, lines, a, b - 1, p) && StartsFirst(lines, a, b)
    ensures OnRecord(Next(s, lines[b - 1]), lines, a, b, p)
  {
    LineKeeps(s, lines[b - 1], p);
    if lines[b - 1].Done? {
      var q :| a <= q < b - 1 && (lines[q].Start? || lines[q].Begin?);
      assert Turns(lines[q]);
    }
  }

  // A place on record stays on record as the journal grows, unless the next entry's
  // turn is an outcome nobody started.
  lemma {:induction false} StaysOnRecord(lines: seq<Line>, a: nat, b: nat, p: Path)
    requires a <= b <= |lines| && At(p) in Out(lines[..a]) && StartsFirst(lines, a, b)
    ensures OnRecord(Fold(lines[..b]), lines, a, b, p)
  {
    if a < b {
      StaysOnRecord(lines, a, b - 1, p);
      FoldStep(lines, b);
      LineOn(Fold(lines[..b - 1]), lines, a, b, p);
    }
  }

  // Between a and b no outcome is written before an entry is started.
  ghost predicate StartsFirst(lines: seq<Line>, a: nat, b: nat) {
    forall d :: a <= d < b && d < |lines| && lines[d].Done? ==>
      exists s :: a <= s < d && (lines[s].Start? || lines[s].Begin?)
  }

  // Where an entry came from, where it is, and the hidden folder drawn for it.
  datatype Mover = Mover(src: Path, at: Path, tmp: Path)

  ghost predicate Accounted(lines: seq<Line>, m: Mover) {
    m.at == m.src || m.tmp < m.at || InStaging(lines, m.at) || At(m.at) in Out(lines)
  }

  // Wherever a crash cuts the journal, past what is flushed.
  ghost predicate AccountedAnywhere(lines: seq<Line>, synced: nat, m: Mover) {
    forall cut :: synced <= cut <= |lines| ==> Accounted(lines[..cut], m)
  }

  lemma GrowthKeeps(lines: seq<Line>, synced: nat, longer: seq<Line>, flushed: nat, m: Mover)
    requires synced <= |lines| && lines <= longer && synced <= flushed && AccountedAnywhere(lines, synced, m)
    requires StartsFirst(longer, |lines|, |longer|)
    ensures AccountedAnywhere(longer, flushed, m)
  {
    forall cut | flushed <= cut <= |longer| ensures Accounted(longer[..cut], m) {
      var n := |lines|;
      if cut <= n {
        assert longer[..cut] == lines[..cut];
      } else {
        assert lines[..n] == lines && longer[..n] == lines && Accounted(lines[..n], m);
        if i :| 0 <= i < n && lines[i].Staging? && lines[i].folder < m.at {
          assert longer[..cut][i] == lines[i];
        } else if At(m.at) in Out(lines) {
          assert StartsFirst(longer, n, cut);
          StaysOnRecord(longer, n, cut, m.at);
        }
      }
    }
  }

  // While an entry is under way every cut accounts for it, and for those before it
  // that were accounted for when it began.
  lemma MidEntry(w: World, m: Mover)
    requires w.Valid() && 0 < w.log.entry && w.log.lines[w.log.entry - 1].Start? && m.at == w.at && m.src == w.origin
    ensures AccountedAnywhere(w.log.lines, w.log.synced, m)
  {
    forall cut | w.log.synced <= cut <= |w.log.lines| ensures Accounted(w.log.lines[..cut], m) {
      if w.at != w.origin { CrashIsCovered(w, cut, w.at); }
    }
  }

  lemma CrashMidBatch(w: World, m: Mover, earlier: seq<Mover>, lines: seq<Line>, synced: nat)
    requires w.Valid() && m.at == w.at && m.src == w.origin
    requires synced <= |lines| && synced <= w.log.synced && w.log.entry == |lines| + 1 <= |w.log.lines|
    requires lines <= w.log.lines && w.log.lines[|lines|].Start?
    requires forall e :: e in earlier ==> AccountedAnywhere(lines, synced, e)
    ensures AccountedAnywhere(w.log.lines, w.log.synced, m)
    ensures forall e :: e in earlier ==> AccountedAnywhere(w.log.lines, w.log.synced, e)
  {
    MidEntry(w, m);
    forall e | e in earlier ensures AccountedAnywhere(w.log.lines, w.log.synced, e) {
      GrowthKeeps(lines, synced, w.log.lines, w.log.synced, e);
    }
  }

  // The lines of an entry put nothing on record for good but its outcome.
  lemma {:induction false} OutOfEntry(lines: seq<Line>, entry: nat)
    requires 0 < entry <= |lines| && lines[entry - 1].Start? && Quiet(lines, entry, |lines|)
    ensures Fold(lines).out == Out(lines[..entry - 1])
  {
    var n := |lines| - 1;
    if entry <= n {
      OutOfEntry(lines[..n], entry);
      assert lines[..n][..entry - 1] == lines[..entry - 1];
    }
  }

  // The outcome of an entry accounts for it, if it does.
  ghost predicate Told(done: Line, m: Mover)
    requires done.Done?
  {
    m.at == m.src || m.tmp < m.at || At(m.at) in done.moveOut
  }

  // The journal an entry leaves. ended: its outcome is the last line. Every cut
  // before it accounts for the entry; the outcome does, or it is forgotten.
  ghost predicate Journaled(before: seq<Line>, lines: seq<Line>, synced: nat, ended: bool, m: Mover) {
    && before <= lines && StartsFirst(lines, |before|, |lines|)
    && (if ended then lines != [] && lines[|lines| - 1].Done?
                      && Out(lines) == Out(before) + Elems(lines[|lines| - 1].moveOut)
                      && forall cut :: synced <= cut < |lines| ==> Accounted(lines[..cut], m)
        else AccountedAnywhere(lines, synced, m))
  }

  ghost predicate EndsWith(lines: seq<Line>, done: Line) {
    lines != [] && lines[|lines| - 1] == done
  }

  lemma ToldIsAccounted(before: seq<Line>, lines: seq<Line>, synced: nat, ended: bool, m: Mover)
    requires Journaled(before, lines, synced, ended, m) && (ended ==> Told(lines[|lines| - 1], m))
    ensures AccountedAnywhere(lines, synced, m)
  {
    forall cut | synced <= cut <= |lines| ensures Accounted(lines[..cut], m) {
      if ended && cut == |lines| {
        assert lines[..cut] == lines;
        if At(m.at) in lines[cut - 1].moveOut { assert At(m.at) in Elems(lines[cut - 1].moveOut); }
      }
    }
  }

  // A place its outcome does not tell is forgotten, unless an earlier entry was put
  // there too.
  lemma UntoldIsForgotten(before: seq<Line>, lines: seq<Line>, synced: nat, m: Mover)
    requires Journaled(before, lines, synced, true, m) && !Told(lines[|lines| - 1], m)
    ensures At(m.at) in Out(lines) <==> At(m.at) in Out(before)
  {
    var moveOut := lines[|lines| - 1].moveOut;
    assert At(m.at) in Elems(moveOut) <==> At(m.at) in moveOut;
  }

  lemma ClosedWith(before: seq<Line>, lines: seq<Line>, synced: nat, flushed: nat, done: Line, m: Mover)
    requires |before| < |lines| && before <= lines && lines[|before|].Start? && Quiet(lines, |before| + 1, |lines|)
    requires done.Done? && AccountedAnywhere(lines, synced, m) && synced <= flushed
    ensures Journaled(before, lines + [done], flushed, true, m)
  {
    var longer := lines + [done];
    OutOfEntry(lines, |before| + 1);
    assert lines[..|before|] == before && longer[..|lines|] == lines;
    assert longer[|before|].Start?;
    forall cut | flushed <= cut < |longer| ensures Accounted(longer[..cut], m) {
      assert longer[..cut] == lines[..cut];
    }
  }

  lemma NotClosed(before: seq<Line>, lines: seq<Line>, synced: nat, m: Mover)
    requires |before| < |lines| && before <= lines && Quiet(lines, |before| + 1, |lines|) && lines[|before|].Start?
    requires AccountedAnywhere(lines, synced, m)
    ensures Journaled(before, lines, synced, false, m)
  {
  }

  lemma NotBegun(lines: seq<Line>, synced: nat, m: Mover)
    requires m.at == m.src
    ensures Journaled(lines, lines, synced, false, m)
  {
  }

  // The outcome line. An entry is over with it, written or not.
  method Close(log: Log, done: Line, ghost before: seq<Line>, ghost m: Mover) returns (ok: bool, ghost ended: bool)
    requires log.Valid() && done.Done? && before <= log.lines && log.entry == |before| + 1 <= |log.lines|
    requires log.lines[|before|].Start? && AccountedAnywhere(log.lines, log.synced, m)
    modifies log
    ensures log.Valid() && old(log.synced) <= log.synced && old(log.lines) <= log.lines
    ensures Journaled(before, log.lines, log.synced, ended, m)
    ensures ended ==> EndsWith(log.lines, done)
    ensures ok ==> ended
  {
    var luck: Luck := *;
    ok := log.Turn(done, done.moveOut != [] || done.gone != [], luck);
    ended := !luck.Unwritten?;
    if ended {
      ClosedWith(before, old(log.lines), old(log.synced), log.synced, done, m);
    } else {
      NotClosed(before, log.lines, log.synced, m);
    }
  }

  // The entry of w stands at src, untouched, and nobody uses the hidden names.
  ghost predicate Untouched(w: World, src: Path, out: Path, tmpName: string, want: Ident)
    reads w`tree, w`at, w`puts, w`talk
  {
    && w.at == w.origin == src && OnlyAt(w.tree, w.item, src) && Matches(w.item, want)
    && (forall p :: p in w.tree && IsUnder(p, w.reserved) ==> p == src)
    && w.puts == [] && w.talk == Silence
    && src in w.reserved && out + [tmpName] in w.reserved
    && src != out + [Base(src)] && !(out + [tmpName] <= src) && tmpName != Base(src)
  }

  // The place is in no outcome: moved but not seen to arrive, landed behind a
  // refusal, or gone with the last hop unseen.
  ghost predicate Forgets(r: Outcome, t: Talk, src: Path, out: Path, tmp: Path) {
    r.MovedBut? || HiddenLanding(t, src, out + [Base(src)]) || (UnclearEnd(t, src, tmp) && t.before.last.took)
  }

  // The row stays although the file left, or goes although it did not.
  ghost predicate WrongRow(r: Outcome, t: Talk, src: Path, out: Path, tmp: Path) {
    if HiddenLanding(t, src, out + [Base(src)]) then r.Failed? else UnclearEnd(t, src, tmp) && !t.before.last.took
  }

  function DoneLine(src: Path, moved: bool, at: Option<Path>, gone: bool, isDir: bool): Line {
    Line.Done(src, moved, (if at.Some? then [At(at.value)] else []) + (if gone then [From(src)] else []),
              if gone then [src] else [], if gone && isDir then [src] else [])
  }

  function MoveLine(r: Outcome, src: Path, out: Path, isDir: bool): Line {
    DoneLine(src, r.Landed?,
             if r.Landed? then Some(out + [r.name]) else if r.Unsettled? then Some(out + [Base(src)]) else None,
             r.Landed? || r.Parked? || r.MovedBut?, isDir)
  }

  // What an outcome says of an entry that is at m.at: where it is, unless it forgets
  // it, and whether its row goes, unless it is wrong about that.
  ghost predicate Tells(done: Line, m: Mover, r: Outcome, t: Talk, out: Path)
    requires done.Done?
  {
    && (Told(done, m) <==> !Forgets(r, t, m.src, out, m.tmp))
    && ((m.src in done.gone <==> m.at != m.src && !r.Unsettled?) <==> !WrongRow(r, t, m.src, out, m.tmp))
  }

  lemma MoveLineTells(r: Outcome, t: Talk, src: Path, out: Path, tmp: Path, at: Path, isDir: bool)
    requires Settled(r, at, t, src, out, tmp) && out < tmp && !(tmp <= src) && src != out + [Base(src)]
    ensures Tells(MoveLine(r, src, out, isDir), Mover(src, at, tmp), r, t, out)
  {
    var moveOut := MoveLine(r, src, out, isDir).moveOut;
    if In(src, out) { InIs(src, out); }
    if r.Landed? { assert moveOut[0] == At(out + [r.name]); }
    if r.Unsettled? { assert moveOut[0] == At(out + [Base(src)]); }
  }

  // The move itself, with the entry's Start line written. m: where the file is, talk:
  // what was said, done: the outcome to be written.
  method MoveOne(w: World, src: Path, out: Path, tmpName: string, want: Ident, polls: nat, isDir: bool)
    returns (r: Outcome, done: Line, ghost m: Mover, ghost talk: Talk)
    requires w.log.Valid() && Untouched(w, src, out, tmpName, want)
    requires w.log.entry == |w.log.lines| > 0 && w.log.lines[w.log.entry - 1].Start?
    modifies w, w.log`lines, w.log`synced
    ensures OthersIntact(old(w.tree), w.tree, w.item.id) && OnlyAt(w.tree, w.item, w.at)
    ensures w.log.Valid() && LogKept(w)
    ensures m == Mover(src, w.at, out + [tmpName]) && talk == w.talk
    ensures AccountedAnywhere(w.log.lines, w.log.synced, m)
    ensures done.Done? && Tells(done, m, r, talk, out)
  {
    r := MoveViaFS(w, src, out, tmpName, want, polls);
    m, talk, done := Mover(src, w.at, out + [tmpName]), w.talk, MoveLine(r, src, out, isDir);
    assert w.log.lines[w.log.entry - 1].Start?;
    MidEntry(w, m);
    MoveLineTells(r, talk, src, out, out + [tmpName], w.at, isDir);
  }

  // One entry of a batch, journaled from its Start to its Done (the per-file step
  // of handleMove for a flat move). Every cut accounts for it, unless its outcome
  // is written and forgets it; and exactly then its outcome does not.
  method MoveEntry(w: World, src: Path, out: Path, tmpName: string, want: Ident, polls: nat, isDir: bool)
    returns (r: Outcome, done: Line, ok: bool, ghost ended: bool, ghost m: Mover, ghost talk: Talk)
    requires w.log.Valid() && Untouched(w, src, out, tmpName, want)
    modifies w, w.log
    ensures OthersIntact(old(w.tree), w.tree, w.item.id) && OnlyAt(w.tree, w.item, w.at)
    ensures w.log.Valid() && LogKept(w) && (ok ==> ended)
    ensures m == Mover(src, w.at, out + [tmpName]) && talk == w.talk
    ensures Journaled(old(w.log.lines), w.log.lines, w.log.synced, ended, m)
    ensures ended ==> EndsWith(w.log.lines, done)
    ensures ended ==> Tells(done, m, r, talk, out)
  {
    r, ended, done := Failed, false, MoveLine(Failed, src, out, isDir);
    m, talk := Mover(src, w.at, out + [tmpName]), w.talk;
    ok := w.Begin(src);
    if !ok {
      NotBegun(w.log.lines, w.log.synced, m);
      return;
    }
    r, done, m, talk := MoveOne(w, src, out, tmpName, want, polls, isDir);
    ok, ended := Close(w.log, done, old(w.log.lines), m);
  }

  // Where the copy of a verified move is, if it is in the destination.
  ghost function CopyMover(w: World?, src: Path, out: Path, tmp: Path): Mover
    reads w
  {
    Mover(src, if w != null && CopyIn(w, out) then w.at else src, tmp)
  }

  ghost predicate LosesCopy(name: Option<string>, checkDest: bool, w: World?, src: Path, out: Path, tmp: Path)
    reads w
  {
    name.None? && w != null && (checkDest || UnclearEnd(w.talk, src, tmp))
  }

  // The original of s stands at its path, and the destination holds no copy.
  ghost predicate Uncopied(s: Source, dest: Tree, item: Entry, out: Path, tmpName: string)
    reads s
  {
    && s.Valid() && s.here.Some? && s.here.value.at == s.src && s.talk == Silence && !s.torn
    && !(out + [tmpName] <= s.src) && !In(s.src, out)
    && forall p :: p in dest ==> dest[p].id != item.id && !(out + [tmpName] <= p)
  }

  function CopyLine(src: Path, name: Option<string>, e: Ending, out: Path, isDir: bool): Line {
    DoneLine(src, name.Some? && e.Clean?, if name.Some? then Some(out + [name.value]) else None,
             name.Some? && !e.KeptBoth?, isDir)
  }

  // What the outcome of a verified move says: where the copy is, unless it is lost,
  // and that the row goes, if the original is gone from its path.
  ghost predicate CopyTells(done: Line, m: Mover, name: Option<string>, checkDest: bool, w: World?,
                            s: Source, out: Path)
    requires done.Done?
    reads w, s
  {
    && (Told(done, m) <==> !LosesCopy(name, checkDest, w, m.src, out, m.tmp))
    && (name.None? || !UnseenDeed(s.talk, s.hiddenPath) ==>
          (m.src in done.gone <==> !(s.here.Some? && s.here.value.at == m.src)))
  }

  lemma CopyLineTells(name: Option<string>, e: Ending, checkDest: bool, w: World?, s: Source,
                      out: Path, tmp: Path, isDir: bool)
    requires !In(s.src, out) && |tmp| > |out| && s.src != s.hiddenPath
    requires name.None? ==> s.here.Some? && s.here.value.at == s.src
    requires name.None? && w != null ==> (CopyIn(w, out) <==> checkDest || UnclearEnd(w.talk, s.src, tmp))
    requires name.Some? ==> w != null && w.at == out + [name.value] && CopyIn(w, out)
    requires name.Some? ==> (PlaceTruth(e, s) <==> !UnseenDeed(s.talk, s.hiddenPath))
    ensures CopyTells(CopyLine(s.src, name, e, out, isDir), CopyMover(w, s.src, out, tmp), name, checkDest, w, s, out)
  {
    if name.Some? { assert CopyLine(s.src, name, e, out, isDir).moveOut[0] == At(w.at); }
  }

  lemma CopyAnywhere(log: Log, w: World?, item: Entry, src: Path, out: Path, tmp: Path)
    requires log.Valid() && 0 < log.entry && log.lines[log.entry - 1].Start?
    requires w != null ==> CopyKnown(w, item, out, tmp, log) && |tmp| > |out|
    ensures AccountedAnywhere(log.lines, log.synced, CopyMover(w, src, out, tmp))
  {
    var m := CopyMover(w, src, out, tmp);
    forall cut | log.synced <= cut <= |log.lines| ensures Accounted(log.lines[..cut], m) {
      if m.at != m.src { AnnouncedIsCovered(log.lines, log.entry, log.synced, cut, m.at); }
    }
  }

  method CopyOne(s: Source, log: Log, dest: Tree, item: Entry, out: Path, tmpName: string, want: Ident,
                 how: Copying, ghost isDir: bool)
    returns (name: Option<string>, e: Ending, checkDest: bool, w: World?)
    requires log.Valid() && log.entry == |log.lines| > 0 && log.lines[log.entry - 1].Start?
    requires Uncopied(s, dest, item, out, tmpName)
    modifies s`here, s`newcomer, s`deleted, s`torn, s`clock, s`talk, log`lines, log`synced
    ensures log.Valid() && old(log.lines) <= log.lines && old(log.synced) <= log.synced && (w != null ==> fresh(w))
    ensures AccountedAnywhere(log.lines, log.synced, CopyMover(w, s.src, out, out + [tmpName]))
    ensures CopyTells(CopyLine(s.src, name, e, out, isDir), CopyMover(w, s.src, out, out + [tmpName]),
                      name, checkDest, w, s, out)
  {
    name, e, checkDest, w := TransitViaFS(s, log, dest, item, out, tmpName, want, how);
    assert log.lines[log.entry - 1].Start?;
    CopyAnywhere(log, w, item, s.src, out, out + [tmpName]);
    CopyLineTells(name, e, checkDest, w, s, out, out + [tmpName], isDir);
  }

  // The same for a verified move. Exactly a copy the final hop left in the
  // destination without a name is forgotten once the outcome is written.
  method CopyEntry(s: Source, log: Log, dest: Tree, item: Entry, out: Path, tmpName: string, want: Ident,
                   how: Copying, isDir: bool)
    returns (name: Option<string>, e: Ending, checkDest: bool, w: World?, done: Line, ok: bool, ghost ended: bool)
    requires log.Valid() && Uncopied(s, dest, item, out, tmpName)
    modifies s`here, s`newcomer, s`deleted, s`torn, s`clock, s`talk, log
    ensures log.Valid() && old(log.synced) <= log.synced && (ok ==> ended) && (w != null ==> fresh(w))
    ensures Journaled(old(log.lines), log.lines, log.synced, ended, CopyMover(w, s.src, out, out + [tmpName]))
    ensures ended ==> EndsWith(log.lines, done)
    ensures done.Done? && CopyTells(done, CopyMover(w, s.src, out, out + [tmpName]), name, checkDest, w, s, out)
  {
    var luck: Luck := *;
    name, e, checkDest, w, ended := None, KeptBoth, false, null, false;
    done := CopyLine(s.src, name, e, out, isDir);
    ok := log.Turn(Line.Start(s.src), false, luck);
    if !ok {
      NotBegun(log.lines, log.synced, CopyMover(w, s.src, out, out + [tmpName]));
      return;
    }
    name, e, checkDest, w := CopyOne(s, log, dest, item, out, tmpName, want, how, isDir);
    done := CopyLine(s.src, name, e, out, isDir);
    ghost var m := CopyMover(w, s.src, out, out + [tmpName]);
    ok, ended := Close(log, done, old(log.lines), m);
  }

  // ------------------------------------------------------------ the batch

  // One file of a request, to be moved as it is or, across filesystems, copied and
  // verified. Each meets the tree as it is when its turn comes.
  datatype Job =
    | Flat(w: World, src: Path, tmpName: string, want: Ident, polls: nat, isDir: bool)
    | Verified(s: Source, dest: Tree, item: Entry, tmpName: string, want: Ident, how: Copying, isDir: bool)

  datatype Report =
    | FlatReport(r: Outcome)
    | CopyReport(name: Option<string>, e: Ending, checkDest: bool)

  // Where the file, or the copy of it, was when its turn ended, and what was said.
  datatype Trace = Trace(at: Path, copied: bool, talk: Talk)

  ghost predicate Waits(j: Job, out: Path, log: Log)
    reads if j.Flat? then {j.w} else {}, if j.Verified? then {j.s} else {}
  {
    match j
    case Flat(w, src, tmpName, want, _, _) => w.log == log && Untouched(w, src, out, tmpName, want)
    case Verified(s, dest, item, tmpName, _, _, _) => Uncopied(s, dest, item, out, tmpName)
  }

  function Stands(j: Job): object { if j.Flat? then j.w else j.s }

  function Home(j: Job): Path { if j.Flat? then j.src else j.s.src }

  // The outcome does not say where the file is.
  ghost predicate JobForgets(j: Job, rep: Report, tr: Trace, out: Path) {
    match rep
    case FlatReport(r) => Forgets(r, tr.talk, Home(j), out, out + [j.tmpName])
    case CopyReport(name, _, checkDest) =>
      name.None? && tr.copied && (checkDest || UnclearEnd(tr.talk, Home(j), out + [j.tmpName]))
  }

  // The job is accounted for wherever the journal is cut, or its outcome forgets it.
  ghost predicate Covered(j: Job, rep: Report, tr: Trace, out: Path, lines: seq<Line>, synced: nat) {
    || JobForgets(j, rep, tr, out)
    || AccountedAnywhere(lines, synced, Mover(Home(j), tr.at, out + [j.tmpName]))
  }

  method DoFlat(w: World, src: Path, out: Path, tmpName: string, want: Ident, polls: nat, isDir: bool)
    returns (r: Outcome, ok: bool, ghost tr: Trace)
    requires w.log.Valid() && Untouched(w, src, out, tmpName, want)
    modifies w, w.log
    ensures w.log.Valid() && LogKept(w) && StartsFirst(w.log.lines, |old(w.log.lines)|, |w.log.lines|)
    ensures tr == Trace(w.at, false, w.talk)
    ensures Forgets(r, tr.talk, src, out, out + [tmpName])
            || AccountedAnywhere(w.log.lines, w.log.synced, Mover(src, tr.at, out + [tmpName]))
  {
    var done;
    ghost var ended, m, talk;
    r, done, ok, ended, m, talk := MoveEntry(w, src, out, tmpName, want, polls, isDir);
    tr := Trace(m.at, false, talk);
    if !Forgets(r, talk, src, out, out + [tmpName]) {
      ToldIsAccounted(old(w.log.lines), w.log.lines, w.log.synced, ended, m);
    }
  }

  method DoVerified(s: Source, log: Log, dest: Tree, item: Entry, out: Path, tmpName: string, want: Ident,
                    how: Copying, isDir: bool)
    returns (name: Option<string>, e: Ending, checkDest: bool, ok: bool, ghost tr: Trace)
    requires log.Valid() && Uncopied(s, dest, item, out, tmpName)
    modifies s, log
    ensures log.Valid() && old(log.synced) <= log.synced && old(log.lines) <= log.lines
    ensures StartsFirst(log.lines, |old(log.lines)|, |log.lines|)
    ensures (name.None? && tr.copied && (checkDest || UnclearEnd(tr.talk, s.src, out + [tmpName])))
            || AccountedAnywhere(log.lines, log.synced, Mover(s.src, tr.at, out + [tmpName]))
  {
    var done, w;
    ghost var ended;
    name, e, checkDest, w, done, ok, ended := CopyEntry(s, log, dest, item, out, tmpName, want, how, isDir);
    ghost var m := CopyMover(w, s.src, out, out + [tmpName]);
    tr := Trace(m.at, w != null, if w == null then Silence else w.talk);
    if !LosesCopy(name, checkDest, w, s.src, out, out + [tmpName]) {
      ToldIsAccounted(old(log.lines), log.lines, log.synced, ended, m);
    }
  }

  method DoJob(j: Job, out: Path, log: Log) returns (rep: Report, ok: bool, ghost tr: Trace)
    requires log.Valid() && Waits(j, out, log) && (j.Flat? ==> j.w.log == log)
    modifies log, Stands(j)
    ensures log.Valid() && old(log.synced) <= log.synced && old(log.lines) <= log.lines
    ensures StartsFirst(log.lines, |old(log.lines)|, |log.lines|)
    ensures Covered(j, rep, tr, out, log.lines, log.synced) && (j.Flat? ==> tr == Trace(j.w.at, false, j.w.talk))
  {
    match j {
      case Flat(w, src, tmpName, want, polls, isDir) =>
        var r;
        r, ok, tr := DoFlat(w, src, out, tmpName, want, polls, isDir);
        rep := FlatReport(r);
      case Verified(s, dest, item, tmpName, want, how, isDir) =>
        var name, e, checkDest;
        name, e, checkDest, ok, tr := DoVerified(s, log, dest, item, out, tmpName, want, how, isDir);
        rep := CopyReport(name, e, checkDest);
    }
  }

  ghost predicate AllCovered(jobs: seq<Job>, reports: seq<Report>, traces: seq<Trace>, out: Path,
                             lines: seq<Line>, synced: nat)
  {
    && |traces| == |reports| <= |jobs|
    && forall i :: 0 <= i < |reports| ==> Covered(jobs[i], reports[i], traces[i], out, lines, synced)
  }

  // The next job is covered, and the earlier ones stay so.
  lemma StillCovered(jobs: seq<Job>, reports: seq<Report>, traces: seq<Trace>, out: Path,
                     lines: seq<Line>, synced: nat, longer: seq<Line>, flushed: nat, rep: Report, tr: Trace)
    requires AllCovered(jobs, reports, traces, out, lines, synced) && |reports| < |jobs|
    requires synced <= |lines| && lines <= longer && synced <= flushed && StartsFirst(longer, |lines|, |longer|)
    requires Covered(jobs[|reports|], rep, tr, out, longer, flushed)
    ensures AllCovered(jobs, reports + [rep], traces + [tr], out, longer, flushed)
  {
    forall i | 0 <= i < |reports| ensures Covered(jobs[i], reports[i], traces[i], out, longer, flushed) {
      if !JobForgets(jobs[i], reports[i], traces[i], out) {
        GrowthKeeps(lines, synced, longer, flushed, Mover(Home(jobs[i]), traces[i].at, out + [jobs[i].tmpName]));
      }
    }
  }

  // The whole batch. However far it gets, and wherever a crash then cuts its journal
  // past what is flushed, every file that had its turn is at its source, in a hidden
  // folder the journal names, or on record once the journal is replayed, unless
  // File Station's answers left it forgotten; the others were not touched.
  method MoveBatch(jobs: seq<Job>, out: Path, log: Log, id: string, ghost files: set<object>)
    returns (reports: seq<Report>, ghost traces: seq<Trace>)
    requires log.Valid() && forall i :: 0 <= i < |jobs| ==> Waits(jobs[i], out, log) && Stands(jobs[i]) in files
    requires forall i, k :: 0 <= i < k < |jobs| ==> Stands(jobs[i]) != Stands(jobs[k])
    modifies log, files
    ensures log.Valid() && AllCovered(jobs, reports, traces, out, log.lines, log.synced)
    ensures forall i :: 0 <= i < |reports| && jobs[i].Flat? ==> traces[i] == Trace(jobs[i].w.at, false, jobs[i].w.talk)
    ensures forall i :: |reports| <= i < |jobs| ==> Waits(jobs[i], out, log)
  {
    reports, traces := [], [];
    var luck: Luck := *;
    var ok := log.Turn(Line.Begin(id), true, luck);
    while ok && |reports| < |jobs|
      invariant log.Valid() && AllCovered(jobs, reports, traces, out, log.lines, log.synced)
      invariant forall i :: 0 <= i < |reports| && jobs[i].Flat? ==>
                  traces[i] == Trace(jobs[i].w.at, false, jobs[i].w.talk)
      invariant forall i :: |reports| <= i < |jobs| ==> Waits(jobs[i], out, log)
      decreases |jobs| - |reports|
    {
      ghost var lines, synced := log.lines, log.synced;
      var rep;
      ghost var tr;
      rep, ok, tr := DoJob(jobs[|reports|], out, log);
      StillCovered(jobs, reports, traces, out, lines, synced, log.lines, log.synced, rep, tr);
      reports, traces := reports + [rep], traces + [tr];
    }
  }
}
