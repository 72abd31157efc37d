// The lines of the move journal (server/journal.go) and the file they are
// appended to. Every line a later start would need is flushed before its
// writer goes on.
module JournalLines {
  import opened Paths

  // A move record: a place this app put something, or a place it took
  // something from.
  datatype Record = At(place: Path) | From(origin: Path)

  datatype Line =
    | Begin(id: string)
    | Start(src: Path)
    | Ahead(at: Path, from: seq<Path>)
    | Staging(folder: Path)
    | Placed(at: Path)
    | Done(src: Path, moved: bool, moveOut: seq<Record>, gone: seq<Path>, dirs: seq<Path>)
    | End

  // A line names p as a place the entry is about to be put: itself, or the
  // hidden folder it lies in.
  predicate Names(l: Line, p: Path) {
    (l.Ahead? && l.at == p) || (l.Staging? && l.folder < p)
  }

  // Lines from..to name p.
  ghost predicate AnnouncedIn(lines: seq<Line>, from: nat, to: nat, p: Path) {
    exists i :: from <= i < to && i < |lines| && Names(lines[i], p)
  }

  // The lines written while an entry is being moved.
  predicate Step(l: Line) { l.Ahead? || l.Staging? || l.Placed? }

  // What the disk does with a line: keeps it, takes it but cannot flush it, or
  // takes nothing.
  datatype Luck = Whole | Unflushed | Unwritten

  class Log {
    var lines: seq<Line>
    // How much of it a crash cannot take back.
    var synced: nat
    // Where the lines of the entry being moved begin, just after its Start.
    ghost var entry: nat

    ghost predicate Valid()
      reads this
    {
      && synced <= |lines| && entry <= |lines|
      && (forall i :: entry <= i < |lines| ==> Step(lines[i]))
      && (entry > 0 ==> lines[entry - 1].Start? || lines[entry - 1].Done? || lines[entry - 1].Begin?)
    }

    ghost predicate Announced(p: Path)
      reads this
    {
      AnnouncedIn(lines, entry, synced, p)
    }

    ghost predicate Staged(folder: Path)
      reads this
    {
      exists i :: entry <= i < synced && i < |lines| && lines[i] == Line.Staging(folder)
    }

    constructor ()
      ensures Valid() && lines == [] && synced == 0 && entry == 0
    {
      lines, synced, entry := [], 0, 0;
    }

    // A failed write or flush leaves the line out, or in and unflushed.
    method Write(l: Line, durable: bool, luck: Luck) returns (ok: bool)
      requires Valid() && Step(l)
      modifies this`lines, this`synced
      ensures Valid() && old(synced) <= synced
      ensures lines == (if luck.Unwritten? then old(lines) else old(lines) + [l])
      ensures ok <==> luck.Whole? || (luck.Unflushed? && !durable)
      ensures ok && durable ==> synced == |lines|
      ensures forall p :: old(Announced(p)) ==> Announced(p)
    {
      ok := Append(l, durable, luck);
    }

    method Append(l: Line, durable: bool, luck: Luck) returns (ok: bool)
      requires synced <= |lines|
      modifies this`lines, this`synced
      ensures old(synced) <= synced <= |lines|
      ensures lines == (if luck.Unwritten? then old(lines) else old(lines) + [l])
      ensures ok <==> luck.Whole? || (luck.Unflushed? && !durable)
      ensures synced == if ok && durable then |lines| else old(synced)
    {
      if luck.Unwritten? { return false; }
      lines := lines + [l];
      if durable {
        if luck.Unflushed? { return false; }
        synced := |lines|;
      }
      ok := true;
    }

    // A Begin, Start or Done line; the entry's own lines begin after it.
    method Turn(l: Line, durable: bool, luck: Luck) returns (ok: bool)
      requires Valid() && (l.Begin? || l.Start? || l.Done?)
      modifies this
      ensures Valid() && synced == if ok && durable then |lines| else old(synced)
      ensures lines == (if luck.Unwritten? then old(lines) else old(lines) + [l])
      ensures entry == if luck.Unwritten? then old(entry) else |lines|
      ensures ok <==> luck.Whole? || (luck.Unflushed? && !durable)
    {
      ok := Append(l, durable, luck);
      if !luck.Unwritten? { entry := |lines|; }
    }

    // fileTrack.ahead: on a failure the caller must not go on with the move.
    method Ahead(at: Path, from: seq<Path>, luck: Luck) returns (ok: bool)
      requires Valid()
      modifies this`lines, this`synced
      ensures Valid() && old(synced) <= synced && old(lines) <= lines
      ensures ok == luck.Whole? && (ok ==> Announced(at))
    {
      ok := Write(Line.Ahead(at, from), true, luck);
      if ok { assert Names(lines[synced - 1], at); }
    }

    // fileTrack.staging.
    method Staging(folder: Path, luck: Luck) returns (ok: bool)
      requires Valid()
      modifies this`lines, this`synced
      ensures Valid() && old(synced) <= synced && old(lines) <= lines
      ensures ok == luck.Whole? && (ok ==> Staged(folder))
    {
      ok := Write(Line.Staging(folder), true, luck);
      if ok { assert lines[synced - 1] == Line.Staging(folder); }
    }

    lemma StagedAnnounces(folder: Path, p: Path)
      requires Valid() && Staged(folder) && folder < p
      ensures Announced(p)
    {
      var i :| entry <= i < synced && lines[i] == Line.Staging(folder);
      assert Names(lines[i], p);
    }
  }
}
