// File Station as the daemon sees it (server/fsapi.go): a tree other writers
// share, requests whose answers can be lost, probes that may go unanswered.
// Every call first lets the others act; they only ever add entries.
module FileStation {
  import opened Paths
  import opened JournalLines

  // What stands at a path, a folder with all it holds. id tells entries apart.
  datatype Entry = Entry(id: nat, isDir: bool, size: nat, mtime: int)
  datatype Ident = Ident(isDir: bool, size: nat, mtime: int)

  // identMatches for one recorded identity: a folder's size means nothing.
  predicate Matches(e: Entry, want: Ident) {
    e.isDir == want.isDir && e.mtime == want.mtime && (e.isDir || e.size == want.size)
  }

  // NotStarted: the answer was lost but the task list shows no such task.
  datatype Reply = Ok | Coded(code: nat, nested: seq<nat>) | NotStarted | Lost

  predicate HasCode(r: Reply, codes: set<nat>) {
    r.Coded? && (r.code in codes || exists i :: 0 <= i < |r.nested| && r.nested[i] in codes)
  }

  predicate IsCollision(r: Reply) { HasCode(r, {1003, 1004}) }

  predicate WorthStaging(r: Reply) {
    IsCollision(r) || (r.Coded? && (r.code == 1000 || r.code == 1001))
  }

  predicate OutcomeUnknown(r: Reply) { r.Lost? }

  type Tree = map<Path, Entry>

  // Nothing but the entry being moved was touched.
  ghost predicate OthersIntact(before: Tree, after: Tree, id: nat) {
    forall p :: p in before && before[p].id != id ==> p in after && after[p] == before[p]
  }

  // Others add entries at free names, never under a path reserved for this move:
  // the hidden folders whose names it drew at random, and the place it takes
  // the entry from.
  ghost predicate OthersMay(before: Tree, after: Tree, id: nat, reserved: set<Path>) {
    && (forall p :: p in before ==> p in after && after[p] == before[p])
    && (forall p :: p in after && p !in before ==> after[p].id != id && !IsUnder(p, reserved))
  }

  // The entry stands at p and nowhere else.
  ghost predicate OnlyAt(t: Tree, item: Entry, p: Path) {
    p in t && t[p] == item && forall q :: q in t && t[q].id == item.id ==> q == p
  }

  // A place the daemon asked for, and how much of the journal was flushed then.
  datatype Put = Put(flushed: nat, at: Path)

  // Which coded refusals may come back although the entry moved.
  datatype Hides = NoCode | GenericCode | AnyCode

  predicate MayHide(h: Hides, r: Reply) {
    r.Coded? && (h.AnyCode? || (h.GenericCode? && WorthStaging(r) && !IsCollision(r)))
  }

  // What comes back for a request that took effect, or did not, when File Station
  // means to say `said`.
  function Answered(said: Reply, took: bool, hides: Hides): (r: Reply)
    ensures r.Ok? ==> took
    ensures took ==> r.Ok? || r.Lost? || MayHide(hides, r)
  {
    if took && !said.Lost? && !MayHide(hides, said) then Ok
    else if !took && said.Ok? then Lost
    else said
  }

  // One call, as the others, the disk and File Station meet it: what others add
  // first, whether it takes effect (a probe: is answered), what is replied, and
  // how a journal line fares.
  datatype Choice = Choice(add: Tree, yes: bool, said: Reply, luck: Luck)

  // One call as it went. Torn: a folder's removal that ended partway. took, and what
  // an unanswered probe would have found, no operation reads.
  datatype Call =
    | Moved(from: Path, to: Path, reply: Reply, took: bool)
    | Removed(place: Path, reply: Reply, took: bool)
    | Torn(place: Path, reply: Reply)
    | Probed(place: Path, answered: bool, there: bool)

  // The calls so far, the latest outermost.
  datatype Talk = Silence | Then(before: Talk, last: Call)

  class World {
    var tree: Tree
    const item: Entry
    const reserved: set<Path>
    const log: Log
    // The choices are any sequence; clock: how many were taken.
    const fate: nat -> Choice
    var clock: nat
    ghost const origin: Path
    ghost var at: Path
    ghost var puts: seq<Put>
    ghost var talk: Talk

    // The entry is in exactly one place, its own or one a flushed line names;
    // nothing else is in a reserved one; and every place asked for was named by
    // a flushed line first.
    ghost predicate Valid()
      reads this`tree, this`at, this`puts, log
    {
      && OnlyAt(tree, item, at)
      && (forall p :: p in tree && IsUnder(p, reserved) ==> p == at)
      && WriteAhead()
      && (at == origin || log.Announced(at))
    }

    ghost predicate WriteAhead()
      reads this`puts, log
    {
      && log.Valid()
      && forall k :: 0 <= k < |puts| ==>
           (puts[k].flushed <= log.synced && AnnouncedIn(log.lines, log.entry, puts[k].flushed, puts[k].at))
    }

    // At call t nobody else does anything.
    ghost predicate Calm(t: nat) { fate(t).add == map[] }

    constructor (tree: Tree, item: Entry, at: Path, reserved: set<Path>, log: Log, fate: nat -> Choice)
      ensures this.tree == tree && this.item == item && this.reserved == reserved && this.log == log
      ensures this.fate == fate && clock == 0
      ensures this.at == at && this.origin == at && puts == [] && talk == Silence
    {
      this.tree, this.item, this.reserved, this.log := tree, item, reserved, log;
      this.fate, clock := fate, 0;
      this.at, this.origin, puts, talk := at, at, [], Silence;
    }

    method Draw() returns (c: Choice)
      modifies this`clock
      ensures clock == old(clock) + 1 && c == fate(old(clock))
    {
      c, clock := fate(clock), clock + 1;
    }

    // Lines are added to the journal; what was asked for stays announced.
    twostate lemma LogGrew()
      requires old(Valid()) && log.Valid() && old(log.synced) <= log.synced && old(log.lines) <= log.lines
      requires log.entry == old(log.entry) && tree == old(tree) && at == old(at) && puts == old(puts)
      ensures Valid()
      ensures forall f :: old(log.Staged(f)) ==> log.Staged(f)
    {
    }

    // The entry's Start line; on a failure the batch stops here.
    method Begin(src: Path) returns (ok: bool)
      requires Valid() && puts == [] && at == origin
      modifies this`clock, log
      ensures Valid() && log.synced == old(log.synced)
      ensures log.lines == if ok then old(log.lines) + [Line.Start(src)] else old(log.lines)
      ensures ok ==> log.entry == |log.lines|
    {
      var c := Draw();
      ok := log.Turn(Line.Start(src), false, c.luck);
    }

    method Announce(p: Path, from: seq<Path>) returns (ok: bool)
      requires Valid()
      modifies this`clock, log`lines, log`synced
      ensures Valid() && old(log.synced) <= log.synced && old(log.lines) <= log.lines
      ensures forall f :: old(log.Staged(f)) ==> log.Staged(f)
      ensures ok ==> log.Announced(p)
      ensures clock == old(clock) + 1 && ok == fate(old(clock)).luck.Whole?
    {
      var c := Draw();
      ok := log.Ahead(p, from, c.luck);
      LogGrew();
    }

    method AnnounceStaging(folder: Path) returns (ok: bool)
      requires Valid()
      modifies this`clock, log`lines, log`synced
      ensures Valid() && old(log.synced) <= log.synced && old(log.lines) <= log.lines
      ensures ok ==> log.Staged(folder)
      ensures clock == old(clock) + 1 && ok == fate(old(clock)).luck.Whole?
    {
      var c := Draw();
      ok := log.Staging(folder, c.luck);
      LogGrew();
    }

    // createFolder, under a name nobody else has.
    method CreateFolder() returns (ok: bool)
      modifies this`clock
      ensures clock == old(clock) + 1 && ok == fate(old(clock)).yes
    {
      var c := Draw();
      ok := c.yes;
    }

    method Others(add: Tree)
      requires Valid()
      modifies this`tree
      ensures Valid() && OthersMay(old(tree), tree, item.id, reserved)
      ensures add == map[] ==> tree == old(tree)
    {
      if forall p :: p in add ==> p !in tree && add[p].id != item.id && !IsUnder(p, reserved) {
        tree := tree + add;
      }
    }

    // statShare.
    method Stat(p: Path) returns (answered: bool, there: bool)
      requires Valid()
      modifies this`tree, this`clock, this`talk
      ensures Valid() && OthersMay(old(tree), tree, item.id, reserved)
      ensures answered ==> there == (p in tree)
      ensures talk == Then(old(talk), Probed(p, answered, there))
      ensures clock == old(clock) + 1 && answered == fate(old(clock)).yes && (Calm(old(clock)) ==> tree == old(tree))
    {
      var c := Draw();
      Others(c.add);
      answered, there := c.yes, p in tree;
      talk := Then(talk, Probed(p, answered, there));
    }

    // getInfo and identMatches.
    method GetInfo(p: Path, want: Ident) returns (answered: bool, same: bool)
      requires Valid()
      modifies this`tree, this`clock, this`talk
      ensures Valid() && OthersMay(old(tree), tree, item.id, reserved)
      ensures answered ==> same == (p in tree && Matches(tree[p], want))
      ensures talk == Then(old(talk), Probed(p, answered, same)) && answered == fate(old(clock)).yes
    {
      var c := Draw();
      Others(c.add);
      answered, same := c.yes, p in tree && Matches(tree[p], want);
      talk := Then(talk, Probed(p, answered, same));
    }

    // The entry goes to dest if it stands at src, dest is free and c says so.
    method Carry(src: Path, dest: Path, c: Choice) returns (took: bool)
      requires Valid() && src != dest && IsUnder(src, reserved)
      requires log.Announced(dest)
      modifies this`tree, this`at, this`puts
      ensures Valid() && OthersIntact(old(tree), tree, item.id)
      ensures at == (if took then dest else old(at)) && (took ==> old(at) == src)
      ensures c.add == map[] ==> took == (c.yes && old(at) == src && dest !in old(tree))
      ensures c.add == map[] ==> tree == if took then (old(tree) - {src})[dest := item] else old(tree)
    {
      Others(c.add);
      puts := puts + [Put(log.synced, dest)];
      took := c.yes && src in tree && dest !in tree;
      if took {
        assert OnlyAt(tree, item, src);
        tree := (tree - {src})[dest := tree[src]];
        at := dest;
      }
    }

    // copyMoveOnce: moves the entry into folder, never over an existing name.
    // A coded refusal had no effect, but for those `hides` admits.
    method Move(src: Path, folder: Path, hides: Hides) returns (r: Reply, ghost took: bool)
      requires Valid() && src != folder + [Base(src)] && IsUnder(src, reserved)
      requires log.Announced(folder + [Base(src)])
      modifies this`tree, this`at, this`puts, this`clock, this`talk
      ensures Valid() && OthersIntact(old(tree), tree, item.id)
      ensures at == (if took then folder + [Base(src)] else old(at)) && (took ==> old(at) == src)
      ensures r.Ok? ==> took
      ensures took ==> r.Ok? || r.Lost? || MayHide(hides, r)
      ensures talk == Then(old(talk), Moved(src, folder + [Base(src)], r, took))
      ensures clock == old(clock) + 1 && r == Answered(fate(old(clock)).said, took, hides)
      ensures Calm(old(clock)) ==>
        && took == (fate(old(clock)).yes && old(at) == src && folder + [Base(src)] !in old(tree))
        && tree == if took then (old(tree) - {src})[folder + [Base(src)] := item] else old(tree)
    {
      var c := Draw();
      var t := Carry(src, folder + [Base(src)], c);
      took, r := t, Answered(c.said, t, hides);
      talk := Then(talk, Moved(src, folder + [Base(src)], r, took));
    }

    // A move whose answer was lost may still be running, and land at any time.
    method MayLand(src: Path, dest: Path)
      requires Valid() && src != dest && (at == src || at == dest) && IsUnder(src, reserved)
      requires log.Announced(dest)
      modifies this`tree, this`at, this`puts, this`clock
      ensures Valid() && OthersIntact(old(tree), tree, item.id)
      ensures (at == src || at == dest) && (old(at) == dest ==> at == dest) && clock == old(clock) + 1
    {
      var c := Draw();
      var t := Carry(src, dest, c);
    }

    // Rename within a folder; the answer may be lost either way.
    method Rename(src: Path, name: string) returns (r: Reply, ghost took: bool)
      requires Valid() && src != [] && Base(src) != name && IsUnder(src, reserved)
      requires log.Announced(src[..|src| - 1] + [name])
      modifies this`tree, this`at, this`puts, this`clock, this`talk
      ensures Valid() && OthersIntact(old(tree), tree, item.id)
      ensures at == (if took then src[..|src| - 1] + [name] else old(at)) && (took ==> old(at) == src)
      ensures r.Ok? ==> took
      ensures took ==> r.Ok? || r.Lost?
      ensures talk == Then(old(talk), Moved(src, src[..|src| - 1] + [name], r, took))
    {
      assert Base(src[..|src| - 1] + [name]) == name;
      var c := Draw();
      var t := Carry(src, src[..|src| - 1] + [name], c);
      took, r := t, Answered(c.said, t, NoCode);
      talk := Then(talk, Moved(src, src[..|src| - 1] + [name], r, took));
    }
  }
}
