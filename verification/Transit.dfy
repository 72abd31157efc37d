// A verified move between filesystems (server/transit.go): copy, read the copy
// back, put it in place, retire the original. Whatever answers are lost, the
// data is never without a home.
module Transit {
  import opened Options
  import opened Paths
  import opened JournalLines
  import opened FileStation
  import opened StagedMove

  // One entry of a folder manifest; kind 0 is a regular file.
  datatype ManEnt = ManEnt(kind: nat, size: int, mtime: int, hash: string, link: string)
  type Manifest = map<string, ManEnt>

  predicate SameData(o: ManEnt, c: ManEnt) {
    c.kind == o.kind && c.hash == o.hash && c.link == o.link && (o.kind == 0 ==> c.size == o.size)
  }

  predicate SameStat(o: ManEnt, n: ManEnt) {
    n.kind == o.kind && n.size == o.size && n.mtime == o.mtime && n.link == o.link
  }

  predicate FolderReproduced(orig: Manifest, cp: Manifest) {
    cp.Keys == orig.Keys && forall n :: n in orig ==> SameData(orig[n], cp[n])
  }

  predicate FolderUnchanged(orig: Manifest, now: Manifest) {
    now.Keys == orig.Keys && forall n :: n in orig ==> SameStat(orig[n], now[n])
  }

  lemma SameKeys(a: set<string>, b: set<string>)
    requires a <= b && |a| == |b|
    ensures a == b
  {
    assert |b - a| == 0;
    assert b == a + (b - a);
  }

  // copyMatches: equal counts and every name of one found in the other.
  method CopyMatches(orig: Manifest, cp: Manifest) returns (same: bool)
    ensures same == FolderReproduced(orig, cp)
  {
    if |orig| != |cp| { return false; }
    var todo := orig.Keys;
    while todo != {}
      invariant todo <= orig.Keys
      invariant forall n :: n in orig && n !in todo ==> n in cp && SameData(orig[n], cp[n])
    {
      var name :| name in todo;
      if name !in cp || !SameData(orig[name], cp[name]) { return false; }
      todo := todo - {name};
    }
    assert |orig.Keys| == |orig| && |cp.Keys| == |cp|;
    SameKeys(orig.Keys, cp.Keys);
    return true;
  }

  method Unchanged(orig: Manifest, now: Manifest) returns (same: bool)
    ensures same == FolderUnchanged(orig, now)
  {
    if |orig| != |now| { return false; }
    var todo := orig.Keys;
    while todo != {}
      invariant todo <= orig.Keys
      invariant forall n :: n in orig && n !in todo ==> n in now && SameStat(orig[n], now[n])
    {
      var name :| name in todo;
      if name !in now || !SameStat(orig[name], now[name]) { return false; }
      todo := todo - {name};
    }
    assert |orig.Keys| == |orig| && |now.Keys| == |now|;
    SameKeys(orig.Keys, now.Keys);
    return true;
  }

  // What an entry holds: a file its content hash, a folder its manifest.
  datatype Body = FileBody(hash: string) | FolderBody(man: Manifest)

  // cp holds the data of orig.
  predicate Reproduces(orig: Body, cp: Body) {
    match (orig, cp)
    case (FileBody(h), FileBody(g)) => g == h
    case (FolderBody(m), FolderBody(n)) => FolderReproduced(m, n)
    case _ => false
  }

  predicate StillAsRead(ref: Body, now: Body) {
    match (ref, now)
    case (FileBody(_), FileBody(_)) => true
    case (FolderBody(m), FolderBody(n)) => FolderUnchanged(m, n)
    case _ => false
  }

  // The standing assumption: an entry whose type, size and modified time are as
  // they were holds what it held.
  predicate Honest(ref: Body, want: Ident, now: Original) {
    && now.body.FolderBody? == now.stat.isDir && ref.FolderBody? == want.isDir
    && (Matches(now.stat, want) && StillAsRead(ref, now.body) ==> SameHashes(ref, now.body))
  }

  predicate SameHashes(ref: Body, now: Body) {
    match (ref, now)
    case (FileBody(h), FileBody(g)) => g == h
    case (FolderBody(m), FolderBody(n)) => n.Keys == m.Keys && forall k :: k in m ==> n[k].hash == m[k].hash
    case _ => false
  }

  // Read back and re-checked, a copy holds what the original holds now.
  lemma RecheckedCopy(ref: Body, want: Ident, now: Original, cp: Body)
    requires Honest(ref, want, now) && Matches(now.stat, want) && StillAsRead(ref, now.body)
    requires Reproduces(ref, cp)
    ensures Reproduces(now.body, cp)
  {
    if ref.FolderBody? {
      var m, n, c := ref.man, now.body.man, cp.man;
      forall k | k in n ensures SameData(n[k], c[k]) {
        assert SameData(m[k], c[k]) && SameStat(m[k], n[k]);
      }
    }
  }

  // ------------------------------------------------------------ the original

  datatype Original = Original(at: Path, stat: Entry, body: Body)

  // One call, as the others and File Station meet it. left: all that a removal
  // ended partway leaves of a folder.
  datatype Turn = Turn(edit: Option<Original>, yes: bool, said: Reply, left: set<string>)

  function Remnant(b: Body, left: set<string>): Body {
    if b.FolderBody? then FolderBody(map n | n in b.man && n in left :: b.man[n]) else b
  }

  // The source side. Others may rewrite the original while it stands at its own
  // path, and may put something new there once it is gone.
  class Source {
    const src: Path
    const hiddenPath: Path
    const want: Ident
    const ref: Body
    var here: Option<Original>
    var newcomer: bool
    const fate: nat -> Turn
    var clock: nat
    // What a removal has taken, or begun to; torn: only begun to.
    ghost var deleted: Option<Body>
    ghost var torn: bool
    ghost var talk: Talk

    ghost predicate Valid()
      reads this`here, this`newcomer, this`deleted, this`torn
    {
      && src != hiddenPath
      && (here.Some? ==> (here.value.at == src || here.value.at == hiddenPath) && Honest(ref, want, here.value))
      && (newcomer ==> here.None? || here.value.at == hiddenPath)
      && (deleted.Some? <==> here.None? || torn)
    }

    constructor (o: Original, hiddenPath: Path, want: Ident, ref: Body, fate: nat -> Turn)
      requires o.at != hiddenPath && Honest(ref, want, o)
      ensures Valid() && here == Some(o) && !newcomer && !torn && src == o.at && talk == Silence
      ensures this.hiddenPath == hiddenPath && this.want == want && this.ref == ref && this.fate == fate && clock == 0
    {
      src, this.hiddenPath, this.want, this.ref, this.fate := o.at, hiddenPath, want, ref, fate;
      here, newcomer, clock, deleted, torn, talk := Some(o), false, 0, None, false, Silence;
    }

    method Draw() returns (c: Turn)
      modifies this`clock
      ensures clock == old(clock) + 1 && c == fate(old(clock))
    {
      c, clock := fate(clock), clock + 1;
    }

    // Until it is hidden the original stays, though it may be rewritten.
    ghost predicate OnlyEdited(before: Option<Original>)
      reads this`here
    {
      if before.Some? && before.value.at == src then here.Some? && here.value.at == src else here == before
    }

    method Others()
      requires Valid()
      modifies this`here, this`newcomer, this`clock
      ensures Valid() && OnlyEdited(old(here))
      ensures clock == old(clock) + 1
      ensures fate(old(clock)).edit.None? ==> here == old(here) && newcomer == old(newcomer)
    {
      var c := Draw();
      if here.Some? && here.value.at == src {
        if c.edit.Some? && c.edit.value.at == src && Honest(ref, want, c.edit.value) { here := c.edit; }
      } else if c.edit.Some? {
        newcomer := true;
      }
    }

    predicate Stands(p: Path)
      reads this`here, this`newcomer
    {
      (here.Some? && here.value.at == p) || (newcomer && p == src)
    }

    method Stat(p: Path) returns (answered: bool, there: bool)
      modifies this`clock, this`talk
      ensures answered ==> there == Stands(p)
      ensures clock == old(clock) + 1 && answered == fate(old(clock)).yes
      ensures talk == Then(old(talk), Probed(p, answered, there))
    {
      var c := Draw();
      answered, there := c.yes, Stands(p);
      talk := Then(talk, Probed(p, answered, there));
    }

    // getInfo and identMatches. A newcomer at the original's path may match.
    method GetInfo(p: Path) returns (answered: bool, same: bool)
      requires Valid()
      modifies this`clock, this`talk
      ensures answered && same ==> Stands(p)
      ensures answered && here.Some? && here.value.at == p ==> same == Matches(here.value.stat, want)
      ensures clock == old(clock) + 1 && answered == fate(old(clock)).yes
      ensures talk == Then(old(talk), Probed(p, answered, same))
    {
      var c := Draw();
      answered, same := c.yes, c.said.Ok? && Stands(p);
      if here.Some? && here.value.at == p { same := Matches(here.value.stat, want); }
      talk := Then(talk, Probed(p, answered, same));
    }

    // takeManifest without content hashes, or a failure to read.
    method Listing(p: Path) returns (man: Option<Manifest>)
      requires Valid()
      modifies this`clock
      ensures man.Some? && here.Some? && here.value.at == p && here.value.body.FolderBody? ==>
                (forall m: Manifest :: FolderUnchanged(m, man.value) == FolderUnchanged(m, here.value.body.man))
      ensures man.Some? && here.Some? && here.value.at == p ==> here.value.body.FolderBody?
      ensures clock == old(clock) + 1
      ensures fate(old(clock)).yes && here.Some? && here.value.at == p && here.value.body.FolderBody? ==> man.Some?
    {
      var c := Draw();
      if !c.yes { return None; }
      if here.Some? && here.value.at == p {
        if !here.value.body.FolderBody? { return None; }
        var full := here.value.body.man;
        return Some(map k | k in full :: full[k].(hash := ""));
      }
      return Some(map[]);
    }

    // A coded refusal had no effect; a lost answer may hide either.
    method Rename(from: Path, to: Path) returns (r: Reply, ghost took: bool)
      requires Valid() && ((from == src && to == hiddenPath && !newcomer) || (from == hiddenPath && to == src))
      modifies this`here, this`clock, this`talk
      ensures Valid()
      ensures took ==> old(here).Some? && old(here).value.at == from && (r.Ok? || r.Lost?)
      ensures here == (if took then Some(old(here).value.(at := to)) else old(here))
      ensures r.Ok? ==> took
      ensures clock == old(clock) + 1 && talk == Then(old(talk), Moved(from, to, r, took))
      ensures var c := fate(old(clock));
        && (c.yes && old(here).Some? && old(here).value.at == from && !newcomer ==> took)
        && r == Answered(c.said, took, NoCode)
    {
      var c := Draw();
      var t := c.yes && here.Some? && here.value.at == from && !(to == src && newcomer);
      if t { here := Some(here.value.(at := to)); }
      took, r := t, Answered(c.said, t, NoCode);
      talk := Then(talk, Moved(from, to, r, took));
    }

    // The deletion. Its caller must have a copy of exactly what it destroys. Of a
    // folder, removed by a task, a failure may leave any part.
    method Delete(ghost copy: Body) returns (r: Reply)
      requires Valid() && !torn && here.Some? && here.value.at == hiddenPath && Reproduces(here.value.body, copy)
      requires StillAsRead(ref, here.value.body)
      modifies this`here, this`deleted, this`torn, this`clock, this`talk
      ensures Valid() && clock == old(clock) + 1
      ensures if here.None? || torn then deleted == Some(old(here).value.body)
              else here == old(here) && deleted == old(deleted)
      ensures torn ==> here == Some(old(here).value.(body := Remnant(old(here).value.body, fate(old(clock)).left)))
      ensures r == Answered(fate(old(clock)).said, here.None?, NoCode)
      ensures talk == Then(old(talk), if torn then Torn(hiddenPath, r) else Removed(hiddenPath, r, here.None?))
      ensures here.None? == fate(old(clock)).yes
      ensures torn <==> here.Some? && Remnant(old(here).value.body, fate(old(clock)).left) != old(here).value.body
    {
      var c := Draw();
      var body := here.value.body;
      r := Answered(c.said, c.yes, NoCode);
      if c.yes {
        deleted, here := Some(body), None;
      } else if Remnant(body, c.left) != body {
        if StillAsRead(ref, Remnant(body, c.left)) { WholeAsRead(ref, body, c.left); }
        deleted, torn := Some(body), true;
        here := Some(here.value.(body := Remnant(body, c.left)));
      }
      talk := Then(talk, if torn then Torn(hiddenPath, r) else Removed(hiddenPath, r, c.yes));
    }
  }

  // Only the whole folder is as it was read.
  lemma WholeAsRead(ref: Body, body: Body, left: set<string>)
    requires StillAsRead(ref, body) && StillAsRead(ref, Remnant(body, left))
    ensures Remnant(body, left) == body
  {
    if body.FolderBody? {
      assert Remnant(body, left).man.Keys == body.man.Keys;
      assert Remnant(body, left).man == body.man;
    }
  }

  // ------------------------------------------------------- retiring it

  // Clean, both copies kept, or gone from its path but not removed.
  datatype Ending = Clean | KeptBoth | MovedButKept

  // The original is where the ending says it is.
  ghost predicate PlaceTruth(e: Ending, s: Source)
    reads s
  {
    match e
    case Clean => s.here.None?
    case KeptBoth => s.here.Some? && s.here.value.at == s.src
    case MovedButKept => s.here.Some? && s.here.value.at == s.hiddenPath
  }

  // And whole, if it is said to be anywhere.
  ghost predicate EndingTruth(e: Ending, s: Source)
    reads s
  {
    PlaceTruth(e, s) && !s.torn
  }

  // A folder's removal ended partway.
  ghost predicate TornDeed(t: Talk) {
    t.Then? && (t.last.Torn? || TornDeed(t.before))
  }

  // A request took effect and its answer was lost.
  ghost predicate LostDeed(t: Talk) {
    t.Then? && (t.last.Moved? || t.last.Removed?) && t.last.took && t.last.reply.Lost?
  }

  // And the probe after it went unanswered; of the two that follow a rename back,
  // either.
  ghost predicate UnseenDeed(t: Talk, hiddenPath: Path) {
    t.Then? && (UnseenDeed(t.before, hiddenPath)
                || (Unanswered(t)
                    && (LostDeed(t.before) || (Probing(t.before) && LostPutBack(t.before.before, hiddenPath)))))
  }

  ghost predicate LostPutBack(t: Talk, hiddenPath: Path) {
    LostDeed(t) && t.last.Moved? && t.last.from == hiddenPath
  }

  // Nothing is left that a probe to come could leave unseen.
  ghost predicate AllSeen(t: Talk, hiddenPath: Path) {
    && !UnseenDeed(t, hiddenPath) && !TornDeed(t)
    && !LostDeed(t) && !(Probing(t) && LostPutBack(t.before, hiddenPath))
  }

  // Nothing was deleted that the copy does not hold.
  ghost predicate NothingLost(s: Source, copy: Body)
    reads s
  {
    (s.here.Some? && !s.torn) || (s.deleted.Some? && Reproduces(s.deleted.value, copy))
  }

  method RestoreOriginal(s: Source) returns (e: Ending)
    requires s.Valid() && (s.here.Some? ==> s.here.value.at == s.hiddenPath)
    requires (UnseenDeed(s.talk, s.hiddenPath) <==> s.here.None?) && (TornDeed(s.talk) <==> s.torn)
    modifies s`here, s`clock, s`talk
    ensures s.Valid() && s.here.None? == old(s.here).None? && s.deleted == old(s.deleted)
    ensures (PlaceTruth(e, s) <==> !UnseenDeed(s.talk, s.hiddenPath)) && (TornDeed(s.talk) <==> s.torn)
    ensures s.fate(old(s.clock)).yes && s.fate(old(s.clock)).said.Ok? && s.here.Some? && !s.newcomer ==> e.KeptBoth?
    ensures var t := old(s.clock);
      s.fate(t).yes && s.fate(t).said.Lost? && !s.fate(t + 1).yes && old(s.here).Some? && !s.newcomer ==>
        e.MovedButKept? && s.here.value.at == s.src
    ensures !s.fate(old(s.clock) + 1).yes && s.here.None? ==> e.MovedButKept?
  {
    var r, took := s.Rename(s.hiddenPath, s.src);
    assert (UnseenDeed(s.talk, s.hiddenPath) <==> s.here.None?) && (TornDeed(s.talk) <==> s.torn);
    if r.Ok? { return KeptBoth; }
    var answered, there := s.Stat(s.src);
    if answered && there {
      assert (UnseenDeed(s.talk, s.hiddenPath) <==> s.here.None?) && (TornDeed(s.talk) <==> s.torn);
      var qAnswered, still := s.Stat(s.hiddenPath);
      if qAnswered && !still { return KeptBoth; }
    }
    return MovedButKept;
  }

  // The original renamed out of reach. A lost answer may hide a rename that
  // happened.
  method HideOriginal(s: Source) returns (hidden: bool)
    requires s.Valid() && s.here.Some? && s.here.value.at == s.src && s.talk == Silence
    modifies s`here, s`newcomer, s`clock, s`talk
    ensures s.Valid() && s.here.Some? && s.deleted == old(s.deleted)
    ensures hidden ==> s.here.value.at == s.hiddenPath && AllSeen(s.talk, s.hiddenPath)
    ensures !hidden ==> (s.here.value.at == s.src <==> !UnseenDeed(s.talk, s.hiddenPath)) && !TornDeed(s.talk)
    ensures var t := old(s.clock);
      s.fate(t).edit.None? && s.fate(t + 1).yes && !old(s.newcomer) ==>
        && s.here == Some(old(s.here).value.(at := s.hiddenPath)) && !s.newcomer
        && (s.fate(t + 1).said.Lost? ==> s.fate(t + 2).yes || !hidden)
        && (s.fate(t + 1).said.Ok? ==> hidden && s.clock == t + 2)
  {
    s.Others();
    var r, took := s.Rename(s.src, s.hiddenPath);
    assert !UnseenDeed(s.talk, s.hiddenPath) && !TornDeed(s.talk);
    if r.Ok? { return true; }
    var answered, there := s.Stat(s.hiddenPath);
    return r.Lost? && answered && there;
  }

  // What hides at the hidden name is what was verified.
  method StillVerified(s: Source) returns (same: bool)
    requires s.Valid() && s.here.Some? && s.here.value.at == s.hiddenPath
    requires AllSeen(s.talk, s.hiddenPath)
    modifies s`here, s`newcomer, s`clock, s`talk
    ensures s.Valid() && s.here == old(s.here) && s.deleted == old(s.deleted) && AllSeen(s.talk, s.hiddenPath)
    ensures same ==> Matches(s.here.value.stat, s.want) && StillAsRead(s.ref, s.here.value.body)
    ensures s.fate(old(s.clock)).edit.None? ==> s.newcomer == old(s.newcomer)
    ensures !s.fate(old(s.clock) + 1).yes ==> !same && s.clock == old(s.clock) + 2
    ensures s.fate(old(s.clock) + 1).yes && s.ref.FileBody? ==>
              same == Matches(s.here.value.stat, s.want) && s.clock == old(s.clock) + 2
    ensures s.fate(old(s.clock) + 1).yes && s.ref.FolderBody? && s.fate(old(s.clock) + 2).yes ==>
              Matches(s.here.value.stat, s.want) && StillAsRead(s.ref, s.here.value.body) ==>
                same && s.clock == old(s.clock) + 3
  {
    s.Others();
    var answered, same' := s.GetInfo(s.hiddenPath);
    same := answered && same';
    if same && s.ref.FolderBody? {
      var now := s.Listing(s.hiddenPath);
      same := false;
      if now.Some? { same := Unchanged(s.ref.man, now.value); }
    }
  }

  // The deletion; called off, what is left of the original is put back.
  method RemoveOriginal(s: Source, ghost copy: Body) returns (e: Ending)
    requires s.Valid() && s.here.Some? && s.here.value.at == s.hiddenPath && Reproduces(s.here.value.body, copy)
    requires AllSeen(s.talk, s.hiddenPath) && !s.torn && StillAsRead(s.ref, s.here.value.body)
    modifies s`here, s`deleted, s`torn, s`clock, s`talk
    ensures s.Valid() && NothingLost(s, copy)
    ensures (PlaceTruth(e, s) <==> !UnseenDeed(s.talk, s.hiddenPath)) && (TornDeed(s.talk) <==> s.torn)
    ensures Unseen(s, old(s.clock)) && !s.fate(old(s.clock) + 3).yes ==> e.MovedButKept? && s.here.None?
    ensures Tears(s, old(s.clock), old(s.here).value.body) && !s.newcomer ==> e.KeptBoth? && s.torn
  {
    var r := s.Delete(copy);
    if r.Ok? { return Clean; }
    var answered, there := s.Stat(s.hiddenPath);
    if answered && !there { return Clean; }
    e := RestoreOriginal(s);
  }

  // At call t a folder's removal ends partway, is seen to have left something, and
  // that is put back.
  ghost predicate Tears(s: Source, t: nat, body: Body) {
    && !s.fate(t).yes && Remnant(body, s.fate(t).left) != body && s.fate(t + 1).yes
    && s.fate(t + 2).yes && s.fate(t + 2).said.Ok?
  }

  // At call t the original is renamed, and nobody else does anything around it.
  ghost predicate Hides(s: Source, t: nat, said: Reply) {
    s.fate(t).edit.None? && s.fate(t + 1).yes && s.fate(t + 1).said == said
  }

  // At call t a request takes effect, its answer is lost and so is its probe's.
  ghost predicate Unseen(s: Source, t: nat) {
    s.fate(t).yes && s.fate(t).said.Lost? && !s.fate(t + 1).yes
  }

  // retireOriginal: renamed out of reach first, then re-checked, then deleted;
  // anything else puts it back. Where it says the original is, it is, exactly when no
  // request that took effect lost its answer and then its probe; and what it says is
  // true exactly when besides no folder's removal ended partway.
  method RetireOriginal(s: Source, ghost copy: Body) returns (e: Ending)
    requires s.Valid() && s.here.Some? && s.here.value.at == s.src && Reproduces(s.ref, copy)
    requires s.talk == Silence && !s.torn
    modifies s`here, s`newcomer, s`clock, s`talk, s`deleted, s`torn
    ensures s.Valid() && NothingLost(s, copy)
    ensures PlaceTruth(e, s) <==> !UnseenDeed(s.talk, s.hiddenPath)
    ensures EndingTruth(e, s) <==> !UnseenDeed(s.talk, s.hiddenPath) && !TornDeed(s.talk)
    ensures var t := old(s.clock);
      !old(s.newcomer) && Hides(s, t, Lost) && Unseen(s, t + 1) ==>
        e.KeptBoth? && s.here.Some? && s.here.value.at == s.hiddenPath
    ensures var t := old(s.clock);
      !old(s.newcomer) && Hides(s, t, Reply.Ok) && s.fate(t + 2).edit.None? ==>
        && (!s.fate(t + 3).yes && Unseen(s, t + 4) ==> e.MovedButKept? && s.here.Some? && s.here.value.at == s.src)
        && (s.fate(t + 3).yes && s.ref.FileBody? && Matches(old(s.here).value.stat, s.want) ==>
              Unseen(s, t + 4) && !s.fate(t + 7).yes ==> e.MovedButKept? && s.here.None?)
    ensures var t, o := old(s.clock), old(s.here).value;
      !old(s.newcomer) && Hides(s, t, Reply.Ok) && s.fate(t + 2).edit.None? ==>
        s.fate(t + 3).yes && s.fate(t + 4).yes && s.ref.FolderBody? ==>
          Matches(o.stat, s.want) && StillAsRead(s.ref, o.body) && Tears(s, t + 5, o.body) ==>
            e.KeptBoth? && s.torn
  {
    var hidden := HideOriginal(s);
    if !hidden { return KeptBoth; }
    var same := StillVerified(s);
    if !same {
      e := RestoreOriginal(s);
      return;
    }
    RecheckedCopy(s.ref, s.want, s.here.value, copy);
    e := RemoveOriginal(s, copy);
  }

  // The four ways it is untrue: kept in place, it says, while it is hidden; not put
  // back, while it is; still there, while it is deleted; both copies kept, while it
  // is only part of a folder.
  method OneOriginal(fate: nat -> Turn) returns (s: Source)
    ensures fresh(s) && s.Valid() && s.here.Some? && s.here.value.at == s.src == ["a", "f"]
    ensures s.hiddenPath == ["a", "h"]
    ensures s.talk == Silence && !s.newcomer && !s.torn && s.fate == fate && s.clock == 0
    ensures s.ref == FileBody("x") && Matches(s.here.value.stat, s.want)
  {
    assert ["a", "f"][1] != ["a", "h"][1] by { assert "f"[0] != "h"[0]; }
    var original := Original(["a", "f"], Entry(1, false, 0, 0), FileBody("x"));
    s := new Source(original, ["a", "h"], Ident(false, 0, 0), FileBody("x"), fate);
  }

  method OneFolder(fate: nat -> Turn) returns (s: Source)
    ensures fresh(s) && s.Valid() && s.here.Some? && s.here.value.at == s.src == ["a", "f"]
    ensures s.hiddenPath == ["a", "h"] && s.talk == Silence && !s.newcomer && !s.torn && s.fate == fate && s.clock == 0
    ensures s.here.value.body == s.ref == TwoFiles() && Matches(s.here.value.stat, s.want)
  {
    assert ["a", "f"][1] != ["a", "h"][1] by { assert "f"[0] != "h"[0]; }
    var original := Original(["a", "f"], Entry(1, true, 0, 0), TwoFiles());
    s := new Source(original, ["a", "h"], Ident(true, 0, 0), TwoFiles(), fate);
  }

  function TwoFiles(): Body {
    FolderBody(map["a" := ManEnt(0, 1, 0, "x", ""), "c" := ManEnt(0, 1, 0, "y", "")])
  }

  function Goes(t: nat, lost: nat, no: set<nat>): Turn {
    Turn(None, t !in no, if t == lost then Lost else Reply.Ok, {"a", "b"})
  }

  method HiddenUnseen() returns (s: Source, e: Ending)
    ensures e.KeptBoth? && s.here.Some? && s.here.value.at == s.hiddenPath && !EndingTruth(e, s)
  {
    s := OneOriginal((t: nat) => Goes(t, 1, {2}));
    assert forall t: nat :: s.fate(t) == Goes(t, 1, {2});
    assert Hides(s, 0, Lost) && Unseen(s, 1);
    e := RetireOriginal(s, FileBody("x"));
  }

  method PutBackUnseen() returns (s: Source, e: Ending)
    ensures e.MovedButKept? && s.here.Some? && s.here.value.at == s.src && !EndingTruth(e, s)
  {
    s := OneOriginal((t: nat) => Goes(t, 4, {3, 5}));
    assert forall t: nat :: s.fate(t) == Goes(t, 4, {3, 5});
    assert Hides(s, 0, Reply.Ok) && Unseen(s, 4);
    e := RetireOriginal(s, FileBody("x"));
  }

  method DeletedUnseen() returns (s: Source, e: Ending)
    ensures e.MovedButKept? && s.here.None? && !EndingTruth(e, s)
  {
    s := OneOriginal((t: nat) => Goes(t, 4, {5, 7}));
    assert forall t: nat :: s.fate(t) == Goes(t, 4, {5, 7});
    assert Hides(s, 0, Reply.Ok) && Unseen(s, 4);
    e := RetireOriginal(s, FileBody("x"));
  }

  method PartlyDeleted() returns (s: Source, e: Ending)
    ensures e.KeptBoth? && s.torn && !EndingTruth(e, s)
  {
    s := OneFolder((t: nat) => Goes(t, 5, {5}));
    assert forall t: nat :: s.fate(t) == Goes(t, 5, {5});
    assert "a" in TwoFiles().man && "c" in TwoFiles().man && "c" !in {"a", "b"};
    assert Remnant(TwoFiles(), {"a", "b"}) != TwoFiles() by {
      assert "c" !in Remnant(TwoFiles(), {"a", "b"}).man;
    }
    assert Hides(s, 0, Reply.Ok) && Tears(s, 5, s.here.value.body);
    assert Reproduces(s.ref, TwoFiles()) && StillAsRead(s.ref, TwoFiles());
    e := RetireOriginal(s, TwoFiles());
  }

  // ------------------------------------------------------------ the whole move

  // How the copying goes: whether the staging folder is made and its line written,
  // what is copied and answered, whether it can be read back, and what then meets
  // the copy.
  datatype Copying =
    Copying(created: bool, luck: Luck, made: bool, said: Reply, body: Body, readable: bool, fate: nat -> Choice)

  // The copy File Station makes in the staging folder: perhaps none, perhaps
  // damaged; its answer may be lost either way.
  method CopyOnce(log: Log, dest: Tree, item: Entry, tmp: Path, base: string, how: Copying)
    returns (r: Reply, w: World?)
    requires log.Valid() && log.Staged(tmp)
    requires forall p :: p in dest ==> dest[p].id != item.id && !(tmp <= p)
    ensures r.Ok? ==> w != null
    ensures w != null ==> fresh(w) && w.log == log && w.item == item && w.reserved == {tmp}
    ensures w != null ==> w.at == w.origin == tmp + [base] && w.Valid() && w.puts == [] && w.talk == Silence
    ensures w != null ==> w.tree == dest[tmp + [base] := item] && w.fate == how.fate && w.clock == 0
    ensures how.made ==> w != null && r == how.said
  {
    r, w := how.said, null;
    if how.made {
      w := new World(dest[tmp + [base] := item], item, tmp + [base], {tmp}, log, how.fate);
      assert forall p :: p in w.tree && IsUnder(p, {tmp}) ==> p == tmp + [base];
    } else if r.Ok? {
      r := Lost;
    }
  }

  function Without(t: Tree, tmp: Path): Tree {
    map p | p in t && !(tmp < p) :: t[p]
  }

  // discardCopy: the staging folder goes only while the original is confirmed
  // at its own path. kept: the copy was left where it is.
  method DiscardCopy(s: Source, w: World?, tmp: Path) returns (kept: bool)
    requires s.Valid() && s.here.Some? && s.here.value.at == s.src
    requires w != null ==> w.Valid() && w.reserved == {tmp}
    modifies s`here, s`newcomer, s`clock, s`talk, if w == null then {} else {w}`tree
    ensures s.Valid() && s.here.Some? && s.here.value.at == s.src && s.deleted == old(s.deleted)
    ensures w != null ==> OthersIntact(old(w.tree), w.tree, w.item.id)
    ensures w != null ==> w.tree == old(w.tree) || (!kept && w.tree == Without(old(w.tree), tmp))
  {
    s.Others();
    var answered, same := s.GetInfo(s.src);
    if !answered || !same { return true; }
    var removed: bool := *;
    if removed && w != null {
      w.tree := Without(w.tree, tmp);
    }
    return !removed;
  }

  // Reading the copy back and comparing it with what left.
  method CopyVerified(ref: Body, body: Body, readable: bool) returns (ok: bool)
    ensures ok <==> readable && Reproduces(ref, body)
  {
    if !readable { return false; }
    match (ref, body) {
      case (FileBody(h), FileBody(g)) => ok := g == h;
      case (FolderBody(m), FolderBody(n)) => ok := CopyMatches(m, n);
      case _ => ok := false;
    }
  }

  // Into the staging folder, and read back.
  method MakeCopy(log: Log, dest: Tree, item: Entry, tmp: Path, base: string, ref: Body, how: Copying)
    returns (ok: bool, w: World?)
    requires log.Valid() && forall p :: p in dest ==> dest[p].id != item.id && !(tmp <= p)
    modifies log`lines, log`synced
    ensures log.Valid() && old(log.lines) <= log.lines && old(log.synced) <= log.synced
    ensures ok ==> w != null && Reproduces(ref, how.body) && log.Staged(tmp)
    ensures w != null ==> fresh(w) && w.log == log && w.item == item && w.reserved == {tmp}
    ensures w != null ==> w.at == w.origin == tmp + [base] && w.Valid() && w.talk == Silence
    ensures w != null ==> w.tree == dest[tmp + [base] := item] && w.fate == how.fate && w.clock == 0
    ensures CopiesWell(how, ref) ==> ok
  {
    ok, w := false, null;
    if !how.created { return; }
    var noted := log.Staging(tmp, how.luck);
    if !noted { return; }
    var r;
    r, w := CopyOnce(log, dest, item, tmp, base, how);
    if r.Ok? { ok := CopyVerified(ref, how.body, how.readable); }
  }

  // Nothing goes wrong until the copy is verified.
  ghost predicate CopiesWell(how: Copying, ref: Body) {
    how.created && how.luck.Whole? && how.made && how.said.Ok? && how.readable && Reproduces(ref, how.body)
  }

  // The copy's name is free, its last hop is done, and answer and probe are lost.
  ghost predicate LosesLastHop(fate: nat -> Choice) {
    && fate(0).add == map[] && fate(0).yes && fate(1).luck.Whole?
    && fate(2).add == map[] && fate(2).yes && fate(2).said.Lost? && !fate(3).yes
  }

  // The copy is in the destination itself.
  ghost predicate CopyIn(w: World, out: Path)
    reads w
  {
    In(w.at, out) && OnlyAt(w.tree, w.item, w.at)
  }

  // The copy is at w.at, if it is anywhere, and that is in the hidden folder or
  // announced.
  ghost predicate CopyKnown(w: World, item: Entry, out: Path, tmp: Path, log: Log)
    reads w, log
  {
    && w.item == item && (OnlyAt(w.tree, item, w.at) || forall p :: p in w.tree ==> w.tree[p].id != item.id)
    && (tmp < w.at || (In(w.at, out) && log.Announced(w.at)))
  }

  // What is left of a copy that is not used.
  method LeaveCopy(s: Source, w: World, out: Path, tmp: Path)
    requires s.Valid() && s.here.Some? && s.here.value.at == s.src && out < tmp
    requires w.Valid() && w.reserved == {tmp} && (tmp < w.at || (In(w.at, out) && w.log.Announced(w.at)))
    modifies s`here, s`newcomer, s`clock, s`talk, w`tree
    ensures s.Valid() && s.here.Some? && s.here.value.at == s.src && s.deleted == old(s.deleted)
    ensures OthersIntact(old(w.tree), w.tree, w.item.id) && CopyKnown(w, w.item, out, tmp, w.log)
    ensures CopyIn(w, out) <==> In(w.at, out)
  {
    var kept := DiscardCopy(s, w, tmp);
  }

  method UseCopy(s: Source, w: World, out: Path, tmp: Path, want: Ident)
    returns (name: Option<string>, checkDest: bool)
    requires s.Valid() && s.here.Some? && s.here.value.at == s.src && out < tmp && !(tmp <= s.src)
    requires Waiting(w, tmp, Base(s.src)) && w.origin == w.at && w.reserved == {tmp} && w.talk == Silence
    modifies s`here, s`newcomer, s`clock, s`talk, w, w.log`lines, w.log`synced
    ensures s.Valid() && s.here.Some? && s.here.value.at == s.src && (name.Some? ==> s.talk == old(s.talk))
    ensures w.log.Valid() && LogKept(w)
    ensures OthersIntact(old(w.tree), w.tree, w.item.id) && CopyKnown(w, w.item, out, tmp, w.log)
    ensures name.None? ==> (CopyIn(w, out) <==> checkDest || UnclearEnd(w.talk, s.src, tmp))
    ensures name.Some? ==> w.at == out + [name.value] && OnlyAt(w.tree, w.item, w.at)
    ensures old(w.clock) == 0 && LosesLastHop(w.fate) && out + [Base(s.src)] !in old(w.tree) ==>
              name.None? && CopyIn(w, out)
  {
    name, checkDest := None, false;
    s.Others();
    var o := ClaimFromStaging(w, tmp, Base(s.src), out, want, s.src);
    if o.Parked? {
      LeaveCopy(s, w, out, tmp);
    } else if o.MovedBut? {
      checkDest := true;
    } else {
      name := Some(o.name);
    }
  }

  // The verified copy is put in place; one that is not used is left or removed. A
  // copy left in the destination without a name is one the user is told to look
  // for (checkDest), or of a last hop that neither its answer nor the probe after
  // it showed.
  method PlaceCopy(s: Source, log: Log, dest: Tree, item: Entry, out: Path, tmpName: string, want: Ident,
                   how: Copying)
    returns (name: Option<string>, checkDest: bool, w: World?)
    requires s.Valid() && s.here.Some? && s.here.value.at == s.src && log.Valid() && !(out + [tmpName] <= s.src)
    requires forall p :: p in dest ==> dest[p].id != item.id && !(out + [tmpName] <= p)
    modifies s`here, s`newcomer, s`clock, s`talk, log`lines, log`synced
    ensures s.Valid() && s.here.Some? && s.here.value.at == s.src && (name.Some? ==> s.talk == old(s.talk))
    ensures log.Valid() && old(log.lines) <= log.lines && old(log.synced) <= log.synced
    ensures w != null ==> fresh(w) && OthersIntact(dest, w.tree, item.id)
    ensures w != null ==> CopyKnown(w, item, out, out + [tmpName], log)
    ensures name.None? && w != null ==> (CopyIn(w, out) <==> checkDest || UnclearEnd(w.talk, s.src, out + [tmpName]))
    ensures name.Some? ==> w != null && w.at == out + [name.value] && OnlyAt(w.tree, item, w.at)
    ensures name.Some? ==> Reproduces(s.ref, how.body)
    ensures CopiesWell(how, s.ref) && LosesLastHop(how.fate) && out + [Base(s.src)] !in dest ==>
              name.None? && w != null && CopyIn(w, out)
  {
    var tmp := out + [tmpName];
    name, checkDest := None, false;
    var ok;
    ok, w := MakeCopy(log, dest, item, tmp, Base(s.src), s.ref, how);
    if w == null { return; }
    if !ok {
      LeaveCopy(s, w, out, tmp);
      return;
    }
    name, checkDest := UseCopy(s, w, out, tmp, want);
  }

  // transitViaFS. name is where the copy was put in place; without one nothing
  // was moved and the original is untouched.
  method TransitViaFS(s: Source, log: Log, dest: Tree, item: Entry, out: Path, tmpName: string, want: Ident,
                      how: Copying)
    returns (name: Option<string>, e: Ending, checkDest: bool, w: World?)
    requires s.Valid() && s.here.Some? && s.here.value.at == s.src && s.talk == Silence && log.Valid()
    requires !(out + [tmpName] <= s.src) && !s.torn
    requires forall p :: p in dest ==> dest[p].id != item.id && !(out + [tmpName] <= p)
    modifies s`here, s`newcomer, s`deleted, s`torn, s`clock, s`talk, log`lines, log`synced
    ensures s.Valid() && log.Valid() && old(log.lines) <= log.lines && old(log.synced) <= log.synced
    ensures w != null ==> fresh(w) && OthersIntact(dest, w.tree, item.id)
    ensures w != null ==> CopyKnown(w, item, out, out + [tmpName], log)
    ensures name.None? ==> s.here.Some? && s.here.value.at == s.src
    ensures name.None? && w != null ==> (CopyIn(w, out) <==> checkDest || UnclearEnd(w.talk, s.src, out + [tmpName]))
    ensures name.Some? ==> w != null && w.at == out + [name.value] && OnlyAt(w.tree, item, w.at)
    ensures name.Some? ==> Reproduces(s.ref, how.body) && NothingLost(s, how.body)
    ensures name.Some? ==> (PlaceTruth(e, s) <==> !UnseenDeed(s.talk, s.hiddenPath))
    ensures name.Some? ==> (EndingTruth(e, s) <==> !UnseenDeed(s.talk, s.hiddenPath) && !TornDeed(s.talk))
    ensures CopiesWell(how, s.ref) && LosesLastHop(how.fate) && out + [Base(s.src)] !in dest ==>
              name.None? && w != null && CopyIn(w, out)
  {
    e := KeptBoth;
    name, checkDest, w := PlaceCopy(s, log, dest, item, out, tmpName, want, how);
    if name.Some? {
      var luck: Luck := *;
      var noted := log.Write(Line.Placed(out + [name.value]), true, luck);
      e := RetireOriginal(s, how.body);
    }
  }

  // A verified copy is in the destination, its original untouched, and no name says
  // so: nothing will record it.
  method CopyUnseen() returns (s: Source, name: Option<string>, w: World?)
    ensures name.None? && w != null && CopyIn(w, ["b"]) && s.here.Some? && s.here.value.at == s.src
  {
    s := OneOriginal((t: nat) => Goes(t, 0, {}));
    var log := new Log();
    var fate := (t: nat) => Plain(t != 3, if t == 2 then Lost else Reply.Ok);
    assert forall t: nat :: fate(t) == Plain(t != 3, if t == 2 then Lost else Reply.Ok);
    assert ["b", "tmp"][0] != ["a", "f"][0] by { assert "b"[0] != "a"[0]; }
    assert ["b"] + ["tmp"] == ["b", "tmp"];
    var e, checkDest;
    name, e, checkDest, w := TransitViaFS(s, log, map[], Entry(2, false, 0, 0), ["b"], "tmp", Ident(false, 0, 0),
                                          Copying(true, Whole, true, Reply.Ok, FileBody("x"), true, fate));
  }
}
