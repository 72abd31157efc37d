// The generation gate over whole histories (server/hashcache.go,
// loadHashCache, loadHashCacheResume; server/persist.go, matches, writeMarker,
// clearMarker, loadMarker; server/handlers.go, handleScan; server/scan.go,
// scanContent): scans, mid-scan saves, cancels, crashes, restarts and resumes.
module Resume {
  import opened Options
  import opened Paths
  import opened Ranking
  import opened HashCache

  // ------------------------------------------------------------ the request

  datatype ScanReq = ScanReq(tools: seq<string>, dirs: seq<string>, refDirs: seq<string>, recurse: bool, criteria: nat)

  // uniquePaths, for paths already clean.
  function Unique(ps: seq<string>): seq<string> {
    if ps == [] then []
    else
      var init := Unique(ps[..|ps| - 1]);
      if ps[|ps| - 1] in init then init else init + [ps[|ps| - 1]]
  }

  // normPaths.
  function NormPaths(ps: seq<string>): seq<string> {
    Sort(StrLess, Unique(ps))
  }

  lemma StringOrder()
    ensures ListingOrder(StrLess)
  {
    forall a ensures !StrLess(a, a) { StrLessIrreflexive(a); }
    forall a, b, c | StrLess(a, b) && StrLess(b, c) ensures StrLess(a, c) { StrLessTransitive(a, b, c); }
    forall a, b, c | StrLess(a, b) ensures StrLess(a, c) || StrLess(c, b) {
      StrLessTotal(a, c);
      if StrLess(c, a) { StrLessTransitive(c, a, b); }
    }
  }

  lemma {:induction false} UniqueMeaning(ps: seq<string>)
    ensures forall p :: p in Unique(ps) <==> p in ps
    ensures forall p :: multiset(Unique(ps))[p] <= 1
  {
    if ps != [] {
      UniqueMeaning(ps[..|ps| - 1]);
      assert ps == ps[..|ps| - 1] + [ps[|ps| - 1]];
    }
  }

  // Two lists are the same request exactly when they name the same folders,
  // whatever their order or repetitions.
  lemma NormPathsMeaning(a: seq<string>, b: seq<string>)
    ensures NormPaths(a) == NormPaths(b) <==> forall p :: p in a <==> p in b
  {
    UniqueMeaning(a);
    UniqueMeaning(b);
    var x, y := Unique(a), Unique(b);
    if forall p :: p in a <==> p in b {
      assert forall p :: p in x <==> p in y;
      forall p ensures multiset(x)[p] == multiset(y)[p] {
        assert p in multiset(x) <==> p in x;
        assert p in multiset(y) <==> p in y;
      }
      assert multiset(x) == multiset(y);
      StringOrder();
      forall p, q ensures p == q || StrLess(p, q) || StrLess(q, p) { StrLessTotal(p, q); }
      SortUnique(StrLess, x, y);
    } else {
      var p :| (p in a) != (p in b);
      assert p in multiset(Sort(StrLess, x)) <==> p in multiset(x);
      assert p in multiset(Sort(StrLess, y)) <==> p in multiset(y);
    }
  }

  // The form in which requests are recorded and compared.
  function Normal(r: ScanReq): ScanReq {
    r.(dirs := NormPaths(r.dirs), refDirs := NormPaths(r.refDirs))
  }

  // matches: the very scan the marker records.
  lemma NormalMeaning(a: ScanReq, b: ScanReq)
    ensures Normal(a) == Normal(b) <==>
              (a.tools == b.tools && a.recurse == b.recurse && a.criteria == b.criteria
               && (forall p :: p in a.dirs <==> p in b.dirs) && (forall p :: p in a.refDirs <==> p in b.refDirs))
  {
    NormPathsMeaning(a.dirs, b.dirs);
    NormPathsMeaning(a.refDirs, b.refDirs);
  }

  // ---------------------------------------------------------- the machine

  // Requests are in their normal form from here on. runOf: the run that wrote the
  // marker; read by no operation.
  datatype Marker = Marker(req: ScanReq, gen: nat, runOf: nat)
  datatype StoreFile = StoreFile(gen: nat, ents: Ents)
  datatype Loaded = Loaded(gen: nat, ents: Ents)
  datatype Running = Running(id: nat, req: ScanReq, resumeGen: nat, cache: Option<Loaded>)

  // lineage[i]: run i, the interrupted runs it carries on and those that carried
  // it on. finished: the runs that ended under control, and what those carried
  // on. Both are history; no operation reads them.
  datatype State = State(file: Option<StoreFile>, marker: Option<Marker>, notice: Option<Marker>, run: Option<Running>,
                         lineage: map<nat, set<nat>>, requests: map<nat, ScanReq>, finished: set<nat>)

  // The store file as it was read: the entries that parsed, or nothing. lasting:
  // it stays that way.
  datatype StoreRead = Parsed(keys: set<nat>) | Unread(lasting: bool)

  // ok: the marker write succeeded; at an end, its removal or, failing that, its
  // emptying. clear: the results were saved, so the marker goes.
  datatype Event =
    | Restart
    | StartScan(req: ScanReq, resume: bool, ok: bool)
    | OpenStore(read: StoreRead, ok: bool)
    | Record(key: nat, path: string, size: int, mod: int, pfx: string, hash: string, dropped: set<nat>)
    | Save(written: set<nat>)
    | EndScan(clear: bool, ok: bool)

  function Restrict(ents: Ents, keys: set<nat>): Ents {
    map k | k in ents && k in keys :: ents[k]
  }

  function WriteMarker(s: State, m: Marker, ok: bool): State {
    if ok then s.(marker := Some(m)) else s
  }

  function Line(s: State, id: nat): set<nat> {
    if id in s.lineage then s.lineage[id] else {}
  }

  // A resume is honoured only against the notice of an interrupted run with the
  // same request; one that died before it opened the store left nothing to resume.
  predicate Carries(s: State, req: ScanReq, resume: bool) {
    resume && s.notice.Some? && s.notice.value.req == req && s.notice.value.gen != 0
  }

  // handleScan's admission and the start of runScan.
  function Started(s: State, req: ScanReq, resume: bool, ok: bool): State
    requires s.run.None?
  {
    var id := |s.requests|;
    var t :=
      if Carries(s, req, resume) then
        var m := s.notice.value;
        var line := Line(s, m.runOf) + {id};
        s.(run := Some(Running(id, req, m.gen, None)), lineage := s.lineage[m.runOf := line][id := line])
      else s.(run := Some(Running(id, req, 0, None)), lineage := s.lineage[id := {id}]);
    WriteMarker(t.(notice := None, requests := s.requests[id := req]), Marker(req, 0, id), ok)
  }

  // loadHashCache and loadHashCacheResume: a missing or damaged file starts at
  // one, a truncated one keeps what parsed.
  function Load(file: Option<StoreFile>, read: StoreRead, resumeGen: nat): Loaded {
    var plain := if file.None? || read.Unread? then Loaded(1, map[])
                 else Loaded(file.value.gen + 1, Restrict(file.value.ents, read.keys));
    if resumeGen != 0 then plain.(gen := resumeGen) else plain
  }

  function Opened(s: State, read: StoreRead, ok: bool): State
    requires s.run.Some?
  {
    var r := s.run.value;
    var c := Load(s.file, read, r.resumeGen);
    var t := s.(run := Some(r.(cache := Some(c))), file := if read.Unread? && read.lasting then None else s.file);
    WriteMarker(t, Marker(r.req, c.gen, r.id), ok)
  }

  // A read without its two digests is not recorded.
  function Recorded(c: Loaded, id: nat, e: Event): Loaded
    requires e.Record?
  {
    if |e.pfx| < PFX_DIGITS || |e.hash| != HASH_DIGITS then c
    else
      c.(ents := c.ents[e.key := Ent(e.size, e.mod, e.path, e.pfx[..PFX_DIGITS], e.hash, c.gen, id)] - e.dropped)
  }

  function Next(s: State, e: Event): Option<State> {
    match e
    case Restart => Some(s.(notice := s.marker, run := None))
    case StartScan(req, resume, ok) => if s.run.Some? then None else Some(Started(s, req, resume, ok))
    case OpenStore(read, ok) =>
      if s.run.None? || s.run.value.cache.Some? then None else Some(Opened(s, read, ok))
    case Record(_, _, _, _, _, _, _) =>
      if s.run.None? || s.run.value.cache.None? then None
      else
        var r := s.run.value;
        Some(s.(run := Some(r.(cache := Some(Recorded(r.cache.value, r.id, e))))))
    case Save(written) =>
      if s.run.None? || s.run.value.cache.None? then None
      else
        var c := s.run.value.cache.value;
        Some(s.(file := Some(StoreFile(c.gen, Restrict(c.ents, written)))))
    case EndScan(clear, ok) =>
      if s.run.None? then None
      else Some(s.(run := None, marker := if clear && ok then None else s.marker,
                   finished := if clear then s.finished + Line(s, s.run.value.id) else s.finished))
  }

  function Start(): State { State(None, None, None, None, map[], map[], {}) }

  // The state a history leads to, if it can happen.
  function After(s: State, events: seq<Event>): Option<State>
    decreases |events|
  {
    if events == [] then Some(s)
    else
      var t := Next(s, events[0]);
      if t.None? then None else After(t.value, events[1..])
  }

  // --------------------------------------------------- the steps that break it

  // The run opened its store with neither marker written: the one on disk, of a
  // run it does not carry on, names its own generation or one it has passed.
  ghost predicate LostMarkers(s: State, read: StoreRead, ok: bool)
    requires s.run.Some?
  {
    && !ok && s.marker.Some? && s.marker.value.gen != 0
    && s.run.value.id !in Line(s, s.marker.value.runOf)
    && Load(s.file, read, s.run.value.resumeGen).gen >= s.marker.value.gen
  }

  // The store holds entries but could not be read this once, so the run starts at
  // generation one again, and its marker says so.
  ghost predicate Blinked(s: State, read: StoreRead, ok: bool)
    requires s.run.Some?
  {
    && ok && read == Unread(false) && s.run.value.resumeGen == 0
    && s.file.Some? && s.file.value.ents != map[]
  }

  // The run ended under control, its marker could be neither removed nor emptied,
  // and the store holds reads of the generation it names.
  ghost predicate StaleMarker(s: State, clear: bool, ok: bool)
    requires s.run.Some?
  {
    && clear && !ok && s.marker.Some? && s.marker.value.gen != 0
    && s.run.value.id in Line(s, s.marker.value.runOf)
    && s.file.Some? && exists k :: k in s.file.value.ents && s.file.value.ents[k].gen == s.marker.value.gen
  }

  ghost predicate Breaks(s: State, e: Event) {
    match e
    case OpenStore(read, ok) => s.run.Some? && (LostMarkers(s, read, ok) || Blinked(s, read, ok))
    case EndScan(clear, ok) => s.run.Some? && StaleMarker(s, clear, ok)
    case _ => false
  }

  // No step of the history is one of these.
  ghost predicate Clean(s: State, events: seq<Event>)
    decreases |events|
  {
    events != [] ==>
      !Breaks(s, events[0]) && (Next(s, events[0]).Some? ==> Clean(Next(s, events[0]).value, events[1..]))
  }

  // ---------------------------------------------------------- the invariant

  // A read that run id may be served: its own, or one of an unfinished run it
  // carries on, made for the same request.
  ghost predicate Own(s: State, id: nat, reader: nat) {
    && reader in Line(s, id) && reader !in s.finished
    && id in s.requests && reader in s.requests && s.requests[reader] == s.requests[id]
  }

  ghost predicate OwnReads(s: State, ents: Ents, g: nat, id: nat) {
    forall k :: k in ents ==> ents[k].gen <= g && (ents[k].gen == g ==> Own(s, id, ents[k].reader))
  }

  ghost predicate FileOwned(s: State, g: nat, id: nat) {
    s.file.Some? ==> OwnReads(s, s.file.value.ents, g, id)
  }

  ghost predicate WellRecorded(s: State, ents: Ents, upTo: nat) {
    forall k :: k in ents ==>
      1 <= ents[k].gen <= upTo && |ents[k].pfx| == PFX_DIGITS && ents[k].reader in s.requests
  }

  ghost predicate KnownRun(s: State, id: nat) {
    && id in s.requests && id in Line(s, id)
    && forall j :: j in Line(s, id) ==> j in s.requests && s.requests[j] == s.requests[id]
  }

  ghost predicate MarkerOk(s: State, m: Marker) {
    KnownRun(s, m.runOf) && m.req == s.requests[m.runOf] && (m.gen != 0 ==> FileOwned(s, m.gen, m.runOf))
  }

  // The marker beside run r: written by it, or of the chain it carries on, or of
  // another chain altogether.
  ghost predicate Beside(s: State, r: Running, m: Marker) {
    && (if r.id in Line(s, m.runOf) then Line(s, r.id) == Line(s, m.runOf) else Line(s, r.id) == {r.id})
    && match r.cache
       case None => m.gen != 0 && r.id in Line(s, m.runOf) ==> r.resumeGen == m.gen
       case Some(c) => m.gen == 0 || c.gen < m.gen || (c.gen == m.gen && r.id in Line(s, m.runOf))
  }

  ghost predicate RunOk(s: State, r: Running) {
    && KnownRun(s, r.id) && r.req == s.requests[r.id] && r.id !in s.finished
    && (s.marker.Some? ==> Beside(s, r, s.marker.value))
    && match r.cache
       case None =>
         && (r.resumeGen != 0 ==> FileOwned(s, r.resumeGen, r.id))
         && (r.resumeGen == 0 ==> forall k :: s.file.Some? && k in s.file.value.ents ==>
               s.file.value.ents[k].reader !in Line(s, r.id))
       case Some(c) => c.gen != 0 && OwnReads(s, c.ents, c.gen, r.id) && WellRecorded(s, c.ents, c.gen)
  }

  ghost predicate Ids(s: State) {
    && (forall i :: i in s.requests <==> 0 <= i < |s.requests|)
    && (forall i :: i in s.lineage ==> i in s.requests && forall j :: j in s.lineage[i] ==> j in s.requests)
    && (forall i :: i in s.finished ==> i in s.requests)
  }

  ghost predicate Inv(s: State) {
    && Ids(s)
    && (s.file.Some? ==> WellRecorded(s, s.file.value.ents, s.file.value.gen))
    && (s.marker.Some? ==> MarkerOk(s, s.marker.value))
    && (s.notice.Some? ==> s.notice == s.marker && s.run.None?)
    && (s.run.Some? ==> RunOk(s, s.run.value))
  }

  lemma StartKeepsIds(s: State, req: ScanReq, resume: bool, ok: bool)
    requires Ids(s) && s.run.None? && (Carries(s, req, resume) ==> s.notice.value.runOf in s.requests)
    ensures Ids(Started(s, req, resume, ok))
  {
    assert |s.requests| !in s.requests;
  }

  lemma StartKeepsOwn(s: State, req: ScanReq, resume: bool, ok: bool, id: nat, reader: nat)
    requires Ids(s) && s.run.None? && Own(s, id, reader)
    ensures Own(Started(s, req, resume, ok), id, reader)
  {
    assert |s.requests| !in s.requests;
  }

  lemma RunStartsOk(s: State, req: ScanReq, resume: bool, ok: bool)
    requires Inv(s) && s.run.None?
    ensures var t := Started(s, req, resume, ok); RunOk(t, t.run.value)
  {
    StartKeepsIds(s, req, resume, ok);
    forall a, b | Own(s, a, b) ensures Own(Started(s, req, resume, ok), a, b) {
      StartKeepsOwn(s, req, resume, ok, a, b);
    }
    assert |s.requests| !in s.requests;
    var t := Started(s, req, resume, ok);
    var r := t.run.value;
    assert KnownRun(t, r.id);
    if Carries(s, req, resume) && s.file.Some? { assert FileOwned(s, r.resumeGen, s.notice.value.runOf); }
    assert t.marker.Some? ==> Beside(t, r, t.marker.value);
  }

  lemma StartKeepsInv(s: State, req: ScanReq, resume: bool, ok: bool)
    requires Inv(s) && s.run.None?
    ensures Inv(Started(s, req, resume, ok))
  {
    var t := Started(s, req, resume, ok);
    StartKeepsIds(s, req, resume, ok);
    forall a, b | Own(s, a, b) ensures Own(Started(s, req, resume, ok), a, b) {
      StartKeepsOwn(s, req, resume, ok, a, b);
    }
    RunStartsOk(s, req, resume, ok);
    if t.marker.Some? && !ok {
      assert KnownRun(s, s.marker.value.runOf);
      assert KnownRun(t, t.marker.value.runOf);
      assert MarkerOk(t, t.marker.value);
    }
  }

  lemma OpenKeepsInv(s: State, read: StoreRead, ok: bool)
    requires Inv(s) && Next(s, OpenStore(read, ok)).Some? && !Breaks(s, OpenStore(read, ok))
    ensures Inv(Opened(s, read, ok))
  {
    var t, r := Opened(s, read, ok), s.run.value;
    var c := Load(s.file, read, r.resumeGen);
    assert KnownRun(t, r.id);
    assert forall a, b :: Own(s, a, b) ==> Own(t, a, b);
    assert RunOk(t, t.run.value);
    if t.marker.Some? { assert MarkerOk(t, t.marker.value); }
  }

  lemma CacheKeepsInv(s: State, e: Event)
    requires Inv(s) && (e.Record? || e.Save?) && Next(s, e).Some?
    ensures Inv(Next(s, e).value)
  {
    var t, r := Next(s, e).value, s.run.value;
    assert KnownRun(t, r.id);
    assert forall a, b :: Own(s, a, b) ==> Own(t, a, b);
    assert RunOk(t, t.run.value);
    if t.marker.Some? { assert MarkerOk(t, t.marker.value); }
  }

  lemma EndKeepsInv(s: State, clear: bool, ok: bool)
    requires Inv(s) && s.run.Some? && !Breaks(s, EndScan(clear, ok))
    ensures Inv(Next(s, EndScan(clear, ok)).value)
  {
    var t := Next(s, EndScan(clear, ok)).value;
    if t.marker.Some? { assert MarkerOk(t, t.marker.value); }
  }

  lemma StepKeepsInv(s: State, e: Event)
    requires Inv(s) && Next(s, e).Some? && !Breaks(s, e)
    ensures Inv(Next(s, e).value)
  {
    match e {
      case StartScan(req, resume, ok) => StartKeepsInv(s, req, resume, ok);
      case OpenStore(read, ok) => OpenKeepsInv(s, read, ok);
      case EndScan(clear, ok) => EndKeepsInv(s, clear, ok);
      case Restart =>
      case _ => CacheKeepsInv(s, e);
    }
  }

  lemma {:induction false} CleanKeepsInv(s: State, events: seq<Event>)
    requires Inv(s) && Clean(s, events) && After(s, events).Some?
    ensures Inv(After(s, events).value)
    decreases |events|
  {
    if events != [] {
      StepKeepsInv(s, events[0]);
      CleanKeepsInv(Next(s, events[0]).value, events[1..]);
    }
  }

  // ----------------------------------------------------------- what is served

  // A lookup that would be answered with a read the run has no claim to.
  ghost predicate ServesStray(s: State) {
    && s.run.Some? && s.run.value.cache.Some?
    && var c := s.run.value.cache.value;
    exists key, path, size, mod, pfx ::
      Looked(c.ents, c.gen, key, path, size, mod, pfx).Some? && !Own(s, s.run.value.id, c.ents[key].reader)
  }

  // Whatever the history, unless one of the three steps is in it, a hash the store
  // serves was read by the run in progress or by an unfinished run it carries on,
  // made for the same request.
  lemma ServesOnlyOwnReads(events: seq<Event>, key: nat, path: string, size: int, mod: int, pfx: string)
    requires Clean(Start(), events) && After(Start(), events).Some?
    requires var s := After(Start(), events).value; s.run.Some? && s.run.value.cache.Some?
    requires var c := After(Start(), events).value.run.value.cache.value;
      Looked(c.ents, c.gen, key, path, size, mod, pfx).Some?
    ensures
      var s := After(Start(), events).value;
      var r := s.run.value;
      var e := r.cache.value.ents[key];
      && e.tag == path && e.size == size && e.mod == mod
      && e.reader in Line(s, r.id) && e.reader !in s.finished && e.reader in s.requests && s.requests[e.reader] == r.req
  {
    CleanKeepsInv(Start(), events);
  }

  // --------------------------------------------------- and each does break it

  // Nothing goes wrong but crashes.
  predicate Flawless(e: Event) {
    && (e.StartScan? || e.OpenStore? || e.EndScan? ==> e.ok)
    && (e.OpenStore? ==> e.read.Parsed?)
  }

  ghost predicate Stray(s: State, events: seq<Event>) {
    && (forall e :: e in events ==> Flawless(e))
    && After(s, events).Some? && ServesStray(After(s, events).value)
  }

  lemma Then(s: State, e: Event, more: seq<Event>)
    requires Next(s, e).Some? && Flawless(e) && Stray(Next(s, e).value, more)
    ensures Stray(s, [e] + more)
  {
    assert ([e] + more)[1..] == more;
  }

  lemma Found(s: State, key: nat)
    requires s.run.Some? && s.run.value.cache.Some?
    requires var c := s.run.value.cache.value;
      key in c.ents && c.ents[key].gen == c.gen && |c.ents[key].pfx| == PFX_DIGITS
    requires !Own(s, s.run.value.id, s.run.value.cache.value.ents[key].reader)
    ensures Stray(s, [])
  {
    var c := s.run.value.cache.value;
    var e := c.ents[key];
    assert e.pfx[..PFX_DIGITS] == e.pfx;
    assert Looked(c.ents, c.gen, key, e.tag, e.size, e.mod, e.pfx).Some?;
  }

  ghost predicate Stored(s: State, key: nat) {
    && Ids(s) && s.file.Some? && key in s.file.value.ents
    && |s.file.value.ents[key].pfx| == PFX_DIGITS && s.file.value.ents[key].reader in s.requests
  }

  function AnyScan(): ScanReq { ScanReq([], [], [], false, 0) }

  // A read of a generation still to come is served when that comes.
  lemma {:induction false} GenerationsCatchUp(s: State, key: nat) returns (more: seq<Event>)
    requires Stored(s, key) && s.run.None? && s.file.value.gen < s.file.value.ents[key].gen
    ensures Stray(s, more)
    decreases s.file.value.ents[key].gen - s.file.value.gen
  {
    var f := s.file.value;
    var e1, e2, e3, e4 :=
      StartScan(AnyScan(), false, true), OpenStore(Parsed(f.ents.Keys), true), Save(f.ents.Keys), EndScan(true, true);
    StartKeepsIds(s, AnyScan(), false, true);
    assert |s.requests| !in s.requests;
    var s1 := Next(s, e1).value;
    var s2 := Next(s1, e2).value;
    assert Restrict(f.ents, f.ents.Keys) == f.ents;
    if f.ents[key].gen == f.gen + 1 {
      Found(s2, key);
      more := [];
    } else {
      var s3 := Next(s2, e3).value;
      var s4 := Next(s3, e4).value;
      more := GenerationsCatchUp(s4, key);
      Then(s3, e4, more);
      Then(s2, e3, [e4] + more);
      more := [e3] + ([e4] + more);
    }
    Then(s1, e2, more);
    Then(s, e1, [e2] + more);
    more := [e1] + ([e2] + more);
  }

  // A resume at a generation some entry has reached, not by a read it carries on.
  lemma ResumeMeets(s: State, key: nat) returns (more: seq<Event>)
    requires Stored(s, key) && s.marker.Some? && s.marker.value.runOf in s.requests
    requires 0 < s.marker.value.gen <= s.file.value.ents[key].gen
    requires
      var e := s.file.value.ents[key];
      e.reader in Line(s, s.marker.value.runOf) && s.marker.value.gen == e.gen ==> e.reader in s.finished
    ensures Stray(s, more)
  {
    var f, m := s.file.value, s.marker.value;
    var e1, e2, e3, e4 :=
      StartScan(m.req, true, true), OpenStore(Parsed(f.ents.Keys), true), Save(f.ents.Keys), EndScan(true, true);
    var s0 := Next(s, Restart).value;
    StartKeepsIds(s0, m.req, true, true);
    assert |s.requests| !in s.requests;
    var s1 := Next(s0, e1).value;
    var s2 := Next(s1, e2).value;
    assert Restrict(f.ents, f.ents.Keys) == f.ents;
    if f.ents[key].gen == m.gen {
      Found(s2, key);
      more := [];
    } else {
      var s3 := Next(s2, e3).value;
      var s4 := Next(s3, e4).value;
      more := GenerationsCatchUp(s4, key);
      Then(s3, e4, more);
      Then(s2, e3, [e4] + more);
      more := [e3] + ([e4] + more);
    }
    Then(s1, e2, more);
    Then(s0, e1, [e2] + more);
    Then(s, Restart, [e1] + ([e2] + more));
    more := [Restart] + ([e1] + ([e2] + more));
  }

  function Digits(n: nat): (d: string)
    ensures |d| == n
  {
    seq(n, i => '0')
  }

  lemma LostMarkersStray(s: State, read: StoreRead) returns (more: seq<Event>)
    requires Inv(s) && s.run.Some? && s.run.value.cache.None? && LostMarkers(s, read, false)
    ensures Stray(Opened(s, read, false), more)
  {
    var t := Opened(s, read, false);
    OpenedIds(s, read, false);
    var e1 := Record(0, "f", 0, 0, Digits(PFX_DIGITS), Digits(HASH_DIGITS), {});
    var s1 := Next(t, e1).value;
    var c := s1.run.value.cache.value;
    assert 0 in c.ents && c.ents[0].gen == c.gen && c.ents[0].reader == s.run.value.id;
    var e2 := Save(c.ents.Keys);
    assert Restrict(c.ents, c.ents.Keys) == c.ents;
    var s2 := Next(s1, e2).value;
    more := ResumeMeets(s2, 0);
    Then(s1, e2, more);
    Then(t, e1, [e2] + more);
    more := [e1] + ([e2] + more);
  }

  lemma OpenedIds(s: State, read: StoreRead, ok: bool)
    requires Inv(s) && s.run.Some?
    ensures Ids(Opened(s, read, ok)) && s.run.value.id in s.requests
  {
  }

  // So the three conditions are exact: after any of these steps a history in which
  // nothing but a crash goes wrong serves a read the run has no claim to.
  lemma BreakIsFatal(events: seq<Event>, s: State, e: Event) returns (more: seq<Event>)
    requires Clean(Start(), events) && After(Start(), events) == Some(s) && Next(s, e).Some? && Breaks(s, e)
    ensures Stray(Next(s, e).value, more)
  {
    CleanKeepsInv(Start(), events);
    var t := Next(s, e).value;
    match e {
      case OpenStore(read, ok) =>
        if LostMarkers(s, read, ok) {
          more := LostMarkersStray(s, read);
        } else {
          var key :| key in s.file.value.ents;
          OpenedIds(s, read, ok);
          more := ResumeMeets(t, key);
        }
      case EndScan(clear, ok) =>
        var key :| key in s.file.value.ents && s.file.value.ents[key].gen == s.marker.value.gen;
        assert Own(s, s.marker.value.runOf, s.file.value.ents[key].reader);
        more := ResumeMeets(t, key);
    }
  }

  // ------------------------------------------------------ and each can happen

  lemma Step(s: State, e: Event, more: seq<Event>)
    requires Next(s, e).Some? && !Breaks(s, e) && Clean(Next(s, e).value, more)
    ensures Clean(s, [e] + more) && After(s, [e] + more) == After(Next(s, e).value, more)
  {
    assert ([e] + more)[1..] == more;
  }

  // Run 0 dies and leaves its marker; run 1, for another request, cannot replace it.
  lemma LostMarkersHappen(a: ScanReq, b: ScanReq) returns (events: seq<Event>, s: State)
    ensures Clean(Start(), events) && After(Start(), events) == Some(s)
    ensures s.run.Some? && LostMarkers(s, Parsed({}), false)
    ensures s.marker.value.req == a && s.run.value.req == b
  {
    var e1, e2, e3 := StartScan(a, false, true), OpenStore(Parsed({}), true), StartScan(b, false, false);
    var s1 := Next(Start(), e1).value;
    var s2 := Next(s1, e2).value;
    var s3 := Next(s2, Restart).value;
    s := Next(s3, e3).value;
    Step(s3, e3, []);
    Step(s2, Restart, [e3] + []);
    Step(s1, e2, [Restart] + ([e3] + []));
    Step(Start(), e1, [e2] + ([Restart] + ([e3] + [])));
    events := [e1] + ([e2] + ([Restart] + ([e3] + [])));
  }

  // A scan that read one file, saved it and is not over.
  lemma OneScan(a: ScanReq) returns (events: seq<Event>, s: State)
    ensures Clean(Start(), events) && After(Start(), events) == Some(s)
    ensures s.run.Some? && s.run.value.id == 0 && s.run.value.req == a && s.marker == Some(Marker(a, 1, 0))
    ensures s.file.Some? && 0 in s.file.value.ents && s.file.value.ents[0].gen == 1 && s.file.value.ents[0].reader == 0
    ensures s.lineage == map[0 := {0}] && s.requests == map[0 := a]
  {
    var e1, e2 := StartScan(a, false, true), OpenStore(Parsed({}), true);
    var e3, e4 := Record(0, "f", 0, 0, Digits(PFX_DIGITS), Digits(HASH_DIGITS), {}), Save({0});
    var s1 := Next(Start(), e1).value;
    var s2 := Next(s1, e2).value;
    var s3 := Next(s2, e3).value;
    s := Next(s3, e4).value;
    assert 0 in Restrict(s3.run.value.cache.value.ents, {0});
    Step(s3, e4, []);
    Step(s2, e3, [e4] + []);
    Step(s1, e2, [e3] + ([e4] + []));
    Step(Start(), e1, [e2] + ([e3] + ([e4] + [])));
    events := [e1] + ([e2] + ([e3] + ([e4] + [])));
  }

  lemma {:induction false} Join(s: State, first: seq<Event>, t: State, rest: seq<Event>)
    requires Clean(s, first) && After(s, first) == Some(t) && Clean(t, rest)
    ensures Clean(s, first + rest) && After(s, first + rest) == After(t, rest)
    decreases |first|
  {
    if first == [] {
      assert first + rest == rest;
    } else {
      Join(Next(s, first[0]).value, first[1..], t, rest);
      assert (first + rest)[1..] == first[1..] + rest;
    }
  }

  lemma StaleMarkerHappens(a: ScanReq) returns (events: seq<Event>, s: State)
    ensures Clean(Start(), events) && After(Start(), events) == Some(s)
    ensures s.run.Some? && StaleMarker(s, true, false)
  {
    events, s := OneScan(a);
  }

  // A second scan, for another request, finds the store unreadable for once.
  lemma BlinkHappens(a: ScanReq, b: ScanReq) returns (events: seq<Event>, s: State)
    ensures Clean(Start(), events) && After(Start(), events) == Some(s)
    ensures s.run.Some? && Blinked(s, Unread(false), true) && s.run.value.req == b
    ensures 0 in s.requests && s.requests[0] == a
    ensures exists key :: key in s.file.value.ents && s.file.value.ents[key].reader == 0
  {
    var first, s1 := OneScan(a);
    var e1, e2 := EndScan(true, true), StartScan(b, false, true);
    var s2 := Next(s1, e1).value;
    s := Next(s2, e2).value;
    Step(s2, e2, []);
    Step(s1, e1, [e2] + []);
    Join(Start(), first, s1, [e1] + ([e2] + []));
    events := first + ([e1] + ([e2] + []));
  }
}
