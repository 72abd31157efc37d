// The move records and the copies they are kept in (server/records.go;
// server/persist.go, saveState, loadState): what damage to the files can and
// cannot lose.
module Records {
  // What all three copies carry.
  datatype Marks = Marks(keepers: set<string>, moveOut: set<string>)

  // warning: a loss the user has not acknowledged. Only the records file has it.
  datatype Recs = Recs(marks: Marks, warning: bool)

  datatype File<T> = Missing | Damaged | Holds(held: T)

  // The records file, the generation before it, and the results file with the
  // same marks in it.
  datatype Disk = Disk(cur: File<Recs>, prev: File<Recs>, results: File<Marks>)

  const NO_MARKS := Marks({}, {})

  predicate Covers(got: Marks, want: Marks) {
    want.keepers <= got.keepers && want.moveOut <= got.moveOut
  }

  function AddMarks(a: Marks, f: File<Marks>): Marks {
    if f.Holds? then Marks(a.keepers + f.held.keepers, a.moveOut + f.held.moveOut) else a
  }

  function AddRecs(a: Recs, f: File<Recs>): Recs {
    if f.Holds? then Recs(AddMarks(a.marks, Holds(f.held.marks)), a.warning || f.held.warning) else a
  }

  // saveState has run to its end.
  ghost predicate Saved(d: Disk, r: Recs) {
    d.cur == Holds(r) && d.results == Holds(r.marks)
  }

  // What may happen to a file while the daemon is down.
  datatype Fate = Kept | Spoilt | Deleted

  function Hit<T>(f: File<T>, fate: Fate): File<T> {
    match fate
    case Kept => f
    case Spoilt => if f.Missing? then Missing else Damaged
    case Deleted => Missing
  }

  function HitAll(d: Disk, cur: Fate, prev: Fate, results: Fate): Disk {
    Disk(Hit(d.cur, cur), Hit(d.prev, prev), Hit(d.results, results))
  }

  class Store {
    var mem: Recs
    var disk: Disk
    // The snapshots saves have taken since the start, the oldest first.
    var snaps: seq<Recs>

    // The first half of a save, under the state's lock. The lock is let go before
    // the second half takes its own, so that another save may come between.
    method Snapshot() returns (k: nat)
      modifies this`snaps
      ensures k == |old(snaps)| && snaps == old(snaps) + [mem]
    {
      k := |snaps|;
      snaps := snaps + [mem];
    }

    // The second half, one save at a time. The generation being replaced is kept,
    // if it reads back whole; then the records; then the results, which carry the
    // marks again. written: how far the save got.
    method Write(k: nat) returns (written: nat)
      requires k < |snaps|
      modifies this`disk
      ensures written <= 3
      ensures disk == Written(old(disk), snaps[k], written)
    {
      var r := snaps[k];
      written := 0;
      var ok: bool := *;
      if !ok { return; }
      if disk.cur.Holds? { disk := disk.(prev := disk.cur); }
      written, ok := 1, *;
      if !ok { return; }
      disk := disk.(cur := Holds(r));
      written, ok := 2, *;
      if !ok { return; }
      disk := disk.(results := Holds(r.marks));
      written := 3;
    }

    // loadState and loadRecords: a file that cannot be read is set aside.
    method LoadState() returns (merged: Recs, mustSave: bool)
      modifies this`disk
      ensures merged == Loaded(old(disk)) && disk == SetAside(old(disk))
      ensures mustSave <==> old(disk).cur.Damaged? || old(disk).results.Damaged?
    {
      var fromResults := disk.results;
      mustSave := fromResults.Damaged?;
      if mustSave { disk := disk.(results := Missing); }
      merged := Recs(AddMarks(NO_MARKS, fromResults), false);
      var cur := disk.cur;
      if !cur.Damaged? {
        merged := AddRecs(merged, cur);
        return;
      }
      disk, mustSave := disk.(cur := Missing), true;
      var prev := disk.prev;
      merged := AddRecs(merged, prev);
      if prev.Damaged? { disk := disk.(prev := Missing); }
      if !fromResults.Holds? { merged := merged.(warning := true); }
    }
  }

  function Written(d: Disk, r: Recs, n: nat): Disk {
    var a := if n >= 1 && d.cur.Holds? then d.(prev := d.cur) else d;
    var b := if n >= 2 then a.(cur := Holds(r)) else a;
    if n >= 3 then b.(results := Holds(r.marks)) else b
  }

  // The previous generation is only looked at when the records file is damaged.
  function SetAside(d: Disk): Disk {
    Disk(if d.cur.Damaged? then Missing else d.cur,
         if d.cur.Damaged? && d.prev.Damaged? then Missing else d.prev,
         if d.results.Damaged? then Missing else d.results)
  }

  // A start that finds no copy of the newest records says so.
  predicate Lost(d: Disk) {
    d.cur.Damaged? && !d.results.Holds?
  }

  // What a start restores.
  function Loaded(d: Disk): Recs {
    var fromResults := Recs(AddMarks(NO_MARKS, d.results), false);
    if !d.cur.Damaged? then AddRecs(fromResults, d.cur)
    else
      var merged := AddRecs(fromResults, d.prev);
      merged.(warning := merged.warning || Lost(d))
  }

  // Whatever subset of the three files is spoilt after a completed save, the
  // start restores everything that save held or says that records were lost; and
  // it says so only when both files that held them are gone.
  lemma DamageIsSurvivedOrSaid(d: Disk, r: Recs, cur: Fate, prev: Fate, results: Fate)
    requires Saved(d, r) && cur != Deleted && prev != Deleted && results != Deleted
    ensures var hit := HitAll(d, cur, prev, results);
      && (Covers(Loaded(hit).marks, r.marks) || Lost(hit))
      && (Lost(hit) <==> cur == Spoilt && results == Spoilt)
      && (Lost(hit) ==> Loaded(hit).warning)
  {
  }

  // A deleted records file is not a damaged one: exactly when it is gone and the
  // results cannot be read does a start lose records without a word.
  lemma SilentLossIff(d: Disk, r: Recs, cur: Fate, prev: Fate, results: Fate)
    requires Saved(d, r) && r.marks != NO_MARKS
    ensures var hit := HitAll(d, cur, prev, results);
      !Covers(Loaded(hit).marks, r.marks) && !Lost(hit) <==> cur == Deleted && results != Kept
  {
  }

  // The results do not carry the warning. It outlives a restart exactly when the
  // records file does; or when that is spoilt and either the results are gone too,
  // which is a loss of its own, or the generation before carried it already.
  lemma WarningSurvivesIff(d: Disk, r: Recs, cur: Fate, prev: Fate, results: Fate)
    requires Saved(d, r) && r.warning
    ensures Loaded(HitAll(d, cur, prev, results)).warning <==>
              (cur == Kept
               || (cur == Spoilt && (results != Kept || (prev == Kept && d.prev.Holds? && d.prev.held.warning))))
  {
  }

  // A save cut short anywhere leaves the last completed one whole, or the one
  // being made, for any damage after it.
  lemma CutSaveIsSurvivedOrSaid(d: Disk, r: Recs, next: Recs, n: nat, cur: Fate, prev: Fate, results: Fate)
    requires Saved(d, r) && n <= 3 && cur != Deleted && prev != Deleted && results != Deleted
    ensures var hit := HitAll(Written(d, next, n), cur, prev, results);
      Covers(Loaded(hit).marks, r.marks) || Covers(Loaded(hit).marks, next.marks) || Lost(hit)
  {
  }

  // A completed save leaves one generation to fall back on: with the records
  // file spoilt and the results too, the start still restores what was saved
  // before, and says so.
  lemma FallsBackOneGeneration(d: Disk, r: Recs, next: Recs)
    requires Saved(d, r)
    ensures Saved(Written(d, next, 3), next)
    ensures var hit := HitAll(Written(d, next, 3), Spoilt, Kept, Spoilt);
      Covers(Loaded(hit).marks, r.marks) && Loaded(hit).warning
  {
  }

  // ------------------------------------------------------------- whole runs

  // A snapshot, and the duplicates results it was taken beside.
  datatype Snap = Snap(recs: Recs, scan: nat)

  // snaps: those taken since the start; next: none before it is still to be written
  // in order. scan counts the duplicates results. saved: every move record, and
  // every keeper of the results on display, that a completed save has held. told:
  // some start has said that records were lost.
  datatype State = State(disk: Disk, mem: Recs, scan: nat, snaps: seq<Snap>, next: nat, saved: Marks, told: bool)

  // Snapshot, Write: the two halves of a save.
  datatype Event =
    | Landed(places: set<string>)
    | Dissolved(keepers: set<string>)
    | ScanDone
    | Acknowledge
    | Snapshot
    | Write(k: nat, steps: nat)
    | Restart(cur: Fate, prev: Fate, results: Fate)

  // What a completed save of s adds to what saves have held.
  function SavedWith(saved: Marks, snap: Snap, scan: nat): Marks {
    Marks(if snap.scan == scan then saved.keepers + snap.recs.marks.keepers else saved.keepers,
          saved.moveOut + snap.recs.marks.moveOut)
  }

  function SaveOf(s: State, snap: Snap, n: nat): State {
    s.(disk := Written(s.disk, snap.recs, n), saved := if n >= 3 then SavedWith(s.saved, snap, s.scan) else s.saved)
  }

  // A start settles the records, and saves them when a file was set aside; nothing
  // else runs yet.
  function Restarted(s: State, cur: Fate, prev: Fate, results: Fate): State {
    var hit := HitAll(s.disk, cur, prev, results);
    var t := s.(disk := SetAside(hit), mem := Loaded(hit), snaps := [], next := 0, told := s.told || Lost(hit));
    if hit.cur.Damaged? || hit.results.Damaged? then SaveOf(t, Snap(t.mem, t.scan), 3) else t
  }

  function Next(s: State, e: Event): State {
    var m := s.mem.marks;
    match e
    case Landed(places) => s.(mem := s.mem.(marks := m.(moveOut := m.moveOut + places)))
    case Dissolved(keepers) => s.(mem := s.mem.(marks := m.(keepers := m.keepers + keepers)))
    case ScanDone =>
      s.(mem := s.mem.(marks := m.(keepers := {})), scan := s.scan + 1, saved := s.saved.(keepers := {}))
    case Acknowledge => s.(mem := s.mem.(warning := false))
    case Snapshot => s.(snaps := s.snaps + [Snap(s.mem, s.scan)])
    case Write(k, n) =>
      if k >= |s.snaps| then s
      else
        var t := SaveOf(s, s.snaps[k], n);
        t.(next := if k >= s.next then k + 1 else s.next)
    case Restart(cur, prev, results) => Restarted(s, cur, prev, results)
  }

  predicate NoDeletion(e: Event) {
    e.Restart? ==> e.cur != Deleted && e.prev != Deleted && e.results != Deleted
  }

  // A write comes after those of the earlier snapshots.
  predicate InOrder(s: State, e: Event) {
    e.Write? ==> s.next <= e.k
  }

  function Start(): State { State(Disk(Missing, Missing, Missing), Recs(NO_MARKS, false), 0, [], 0, NO_MARKS, false) }

  function After(events: seq<Event>): State {
    if events == [] then Start() else Next(After(events[..|events| - 1]), events[|events| - 1])
  }

  ghost predicate AllInOrder(events: seq<Event>) {
    forall i :: 0 <= i < |events| ==> InOrder(After(events[..i]), events[i])
  }

  ghost predicate CurHoldsAll(f: File<Recs>, saved: Marks) {
    if f.Holds? then Covers(f.held.marks, saved) else f.Missing? && saved == NO_MARKS
  }

  ghost predicate ResultsHoldAll(f: File<Marks>, saved: Marks) {
    if f.Holds? then Covers(f.held, saved) else f.Missing? && saved == NO_MARKS
  }

  // a was taken before b: it holds no more, but for keepers a scan replaced since.
  ghost predicate Grew(a: Snap, b: Snap) {
    && a.scan <= b.scan && a.recs.marks.moveOut <= b.recs.marks.moveOut
    && (a.scan == b.scan ==> a.recs.marks.keepers <= b.recs.marks.keepers)
  }

  ghost predicate SnapsGrow(s: State) {
    && (forall i, k :: 0 <= i < k < |s.snaps| ==> Grew(s.snaps[i], s.snaps[k]))
    && (forall i :: 0 <= i < |s.snaps| ==> Grew(s.snaps[i], Snap(s.mem, s.scan)))
  }

  ghost predicate AllKept(s: State) {
    && Covers(s.mem.marks, s.saved) && CurHoldsAll(s.disk.cur, s.saved) && ResultsHoldAll(s.disk.results, s.saved)
    && forall k :: s.next <= k < |s.snaps| ==> Covers(s.snaps[k].recs.marks, s.saved)
  }

  ghost predicate Inv(s: State) {
    SnapsGrow(s) && s.next <= |s.snaps| && (s.told || AllKept(s))
  }

  lemma WriteKeepsInv(s: State, k: nat, n: nat)
    requires Inv(s) && s.next <= k < |s.snaps|
    ensures Inv(Next(s, Write(k, n)))
  {
    var t := Next(s, Write(k, n));
    forall i | k < i < |s.snaps| ensures Grew(s.snaps[k], s.snaps[i]) { }
    if !s.told {
      forall i | t.next <= i < |t.snaps| ensures Covers(t.snaps[i].recs.marks, t.saved) {
        assert Grew(s.snaps[k], s.snaps[i]) && Grew(s.snaps[i], Snap(s.mem, s.scan));
      }
      assert Covers(t.mem.marks, t.saved);
    }
  }

  lemma StepKeepsInv(s: State, e: Event)
    requires Inv(s) && NoDeletion(e) && InOrder(s, e)
    ensures Inv(Next(s, e))
  {
    if e.Write? {
      if e.k < |s.snaps| { WriteKeepsInv(s, e.k, e.steps); }
    } else if !s.told && e.Restart? {
      var hit := HitAll(s.disk, e.cur, e.prev, e.results);
      if !Lost(hit) { assert Covers(Loaded(hit).marks, s.saved); }
    }
  }

  // Through any sequence of moves, scans, saves cut anywhere, restarts and damage
  // to the files, so long as saves are written in the order of their snapshots,
  // every move record a completed save ever held is still known, and every keeper
  // one held that no scan has replaced, unless a start has said that records were
  // lost.
  lemma {:induction false} NothingForgottenSilently(events: seq<Event>)
    requires forall i :: 0 <= i < |events| ==> NoDeletion(events[i])
    requires AllInOrder(events)
    ensures var s := After(events); s.told || Covers(s.mem.marks, s.saved)
    ensures Inv(After(events))
  {
    if events != [] {
      var init := events[..|events| - 1];
      assert forall i :: 0 <= i < |init| ==> init[..i] == events[..i];
      NothingForgottenSilently(init);
      StepKeepsInv(After(init), events[|events| - 1]);
    }
  }

  // Written late, a snapshot takes back what saves have held: a start that follows,
  // with no file damaged, knows all of it exactly when that snapshot does, and says
  // nothing either way.
  lemma LateWriteIff(s: State, k: nat)
    requires k < |s.snaps|
    ensures
      var t := Next(Next(s, Write(k, 3)), Restart(Kept, Kept, Kept));
      && t.told == s.told && s.saved.moveOut <= t.saved.moveOut && s.saved.keepers <= t.saved.keepers
      && (Covers(t.mem.marks, t.saved) <==> Covers(s.snaps[k].recs.marks, s.saved))
  {
    assert Next(Next(s, Write(k, 3)), Restart(Kept, Kept, Kept)).mem.marks == s.snaps[k].recs.marks;
  }

  lemma Extend(events: seq<Event>, e: Event) returns (longer: seq<Event>)
    ensures longer == events + [e] && After(longer) == Next(After(events), e)
  {
    longer := events + [e];
    assert longer[..|events|] == events;
  }

  // A save takes its snapshot; files land, and the save that records them runs to
  // its end; then the first is written. Nothing is damaged, nothing is said, and the
  // next start knows nothing of them.
  lemma LateSnapshotForgets(place: string) returns (events: seq<Event>)
    ensures forall e :: e in events && e.Restart? ==> e == Restart(Kept, Kept, Kept)
    ensures var s := After(events); place in s.saved.moveOut && place !in s.mem.marks.moveOut && !s.told
  {
    events := Extend([], Snapshot);
    events := Extend(events, Landed({place}));
    events := Extend(events, Snapshot);
    events := Extend(events, Write(1, 3));
    events := Extend(events, Write(0, 3));
    events := Extend(events, Restart(Kept, Kept, Kept));
  }

  // The warning of a loss is not kept until it is acknowledged: the start that
  // gave it had set the records file aside, so its save left no generation before,
  // and the next damage to the records file alone forgets it without a word.
  lemma WarningForgotten(place: string) returns (events: seq<Event>)
    ensures forall i :: 0 <= i < |events| ==> NoDeletion(events[i]) && !events[i].Acknowledge?
    ensures var s := After(events); s.told && !s.mem.warning
    ensures exists i :: 0 <= i < |events| && After(events[..i]).mem.warning
  {
    events := Extend([], Landed({place}));
    events := Extend(events, Snapshot);
    events := Extend(events, Write(0, 3));
    events := Extend(events, Restart(Spoilt, Kept, Spoilt));
    ghost var warned := events;
    assert After(warned).mem.warning;
    events := Extend(events, Restart(Spoilt, Kept, Kept));
    assert events[..|warned|] == warned;
  }
}
