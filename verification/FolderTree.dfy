// What the empty-folders pass is about (server/emptyfolders.go): the tree a walk
// sees, the events it turns into (server/walk.go), and the topmost-empty rule
// stated over the tree.
module FolderTree {
  import opened Paths
  import opened Ranking

  const JUNK_EXAMPLES: nat := 3

  datatype JunkFile = JunkFile(name: string, size: nat)

  // How many junk files, their bytes, and the first few names.
  datatype JunkInfo = JunkInfo(n: nat, bytes: nat, ex: seq<string>)

  // Mount: a shared folder mounted back into itself, reported unreadable and
  // never entered.
  datatype Node =
    | File(name: string, size: nat, junk: bool)
    | Dir(name: string, mod: int, readable: bool, kids: seq<Node>)
    | Mount(name: string)

  datatype Root = Root(path: Path, readable: bool, kids: seq<Node>)

  // A reported row.
  datatype Folder = Folder(path: Path, mod: int, junk: JunkInfo)

  datatype Event =
    | VisitFile(root: int, path: Path, size: nat, junk: bool)
    | VisitDir(root: int, path: Path, mod: int)
    | Unreadable(path: Path)

  // ------------------------------------------------------------ the tree rule

  // The subtree holds something the user could miss, or something unknown.
  predicate Real(t: Node)
    decreases t, 0
  {
    match t
    case File(_, _, junk) => !junk
    case Mount(_) => true
    case Dir(_, _, readable, kids) => !readable || RealIn(kids)
  }

  predicate RealIn(kids: seq<Node>)
    decreases kids, 1
  {
    kids != [] && (Real(kids[0]) || RealIn(kids[1..]))
  }

  function JunkOf(t: Node): seq<JunkFile>
    decreases t, 0
  {
    match t
    case File(name, size, junk) => if junk then [JunkFile(name, size)] else []
    case Mount(_) => []
    case Dir(_, _, _, kids) => JunkIn(kids)
  }

  function JunkIn(kids: seq<Node>): seq<JunkFile>
    decreases kids, 1
  {
    if kids == [] then [] else JunkOf(kids[0]) + JunkIn(kids[1..])
  }

  function Bytes(js: seq<JunkFile>): nat {
    if js == [] then 0 else js[0].size + Bytes(js[1..])
  }

  function Names(js: seq<JunkFile>): seq<string> {
    seq(|js|, i requires 0 <= i < |js| => js[i].name)
  }

  function Summary(js: seq<JunkFile>): JunkInfo {
    JunkInfo(|js|, Bytes(js), Take(Names(js), JUNK_EXAMPLES))
  }

  // The topmost empty folders below a directory that is itself a root or holds
  // content: an empty child folder is one; a child with content is searched.
  function TopOf(p: Path, t: Node): seq<Folder>
    decreases t, 0
  {
    match t
    case Dir(name, mod, _, kids) =>
      if Real(t) then TopIn(p + [name], kids)
      else [Folder(p + [name], mod, Summary(JunkIn(kids)))]
    case _ => []
  }

  function TopIn(p: Path, kids: seq<Node>): seq<Folder>
    decreases kids, 1
  {
    if kids == [] then [] else TopOf(p, kids[0]) + TopIn(p, kids[1..])
  }

  function TopForest(roots: seq<Root>): seq<Folder> {
    if roots == [] then []
    else TopForest(roots[..|roots| - 1]) + TopIn(roots[|roots| - 1].path, roots[|roots| - 1].kids)
  }

  // ---------------------------------------------------------------- the walk

  function WalkOf(root: int, p: Path, t: Node): seq<Event>
    decreases t, 0
  {
    match t
    case File(name, size, junk) => [VisitFile(root, p + [name], size, junk)]
    case Mount(name) => [Unreadable(p + [name])]
    case Dir(name, mod, readable, kids) =>
      [VisitDir(root, p + [name], mod)]
      + (if readable then [] else [Unreadable(p + [name])])
      + WalkIn(root, p + [name], kids)
  }

  function WalkIn(root: int, p: Path, kids: seq<Node>): seq<Event>
    decreases kids, 1
  {
    if kids == [] then [] else WalkOf(root, p, kids[0]) + WalkIn(root, p, kids[1..])
  }

  function WalkRoot(root: int, r: Root): seq<Event> {
    (if r.readable then [] else [Unreadable(r.path)]) + WalkIn(root, r.path, r.kids)
  }

  function WalkForest(roots: seq<Root>): seq<Event> {
    if roots == [] then []
    else WalkForest(roots[..|roots| - 1]) + WalkRoot(|roots| - 1, roots[|roots| - 1])
  }

  // A listing hands names out in byte order; names hold no slash.
  predicate WellFormed(t: Node)
    decreases t, 0
  {
    '/' !in t.name && (t.Dir? ==> WellFormedIn(t.kids))
  }

  predicate WellFormedIn(kids: seq<Node>)
    decreases kids, 1
  {
    kids == [] || (WellFormed(kids[0]) && WellFormedIn(kids[1..])
                   && forall i :: 0 < i < |kids| ==> StrLess(kids[0].name, kids[i].name))
  }

  predicate Related(p: Path, q: Path) {
    p <= q || q <= p
  }

  predicate StartsUnreadable(r: Root) {
    !r.readable || (r.kids != [] && r.kids[0].Mount?)
  }

  // Nested roots reach the scan only in non-recursive scopes, where a root is
  // reported unreadable before any entry only if it stands apart.
  predicate RootsApart(roots: seq<Root>) {
    forall i, j :: 0 <= i < j < |roots| && StartsUnreadable(roots[j])
      ==> !Related(roots[i].path, roots[j].path)
  }

  // Paths of real folders, none inside another.
  ghost predicate RootsDisjoint(roots: seq<Root>) {
    && (forall i :: 0 <= i < |roots| ==> SlashFree(roots[i].path))
    && forall i, j :: 0 <= i < j < |roots| ==> !Related(roots[i].path, roots[j].path)
  }

  predicate WellFormedRoots(roots: seq<Root>) {
    forall i :: 0 <= i < |roots| ==> WellFormedIn(roots[i].kids)
  }

  // --------------------------------------------------------------- the order

  predicate FolderBefore(a: Folder, b: Folder) {
    PathLess(a.path, b.path)
  }

  lemma FolderOrder()
    ensures ListingOrder(FolderBefore)
  {
    forall a: Folder ensures !FolderBefore(a, a) { StrLessIrreflexive(Join(a.path)); }
    forall a: Folder, b: Folder, c: Folder | FolderBefore(a, b) && FolderBefore(b, c)
      ensures FolderBefore(a, c)
    {
      StrLessTransitive(Join(a.path), Join(b.path), Join(c.path));
    }
    forall a: Folder, b: Folder, c: Folder | FolderBefore(a, b)
      ensures FolderBefore(a, c) || FolderBefore(c, b)
    {
      StrLessTotal(Join(a.path), Join(c.path));
      if FolderBefore(c, a) { StrLessTransitive(Join(c.path), Join(a.path), Join(b.path)); }
    }
  }

  lemma {:induction false} BytesAppend(a: seq<JunkFile>, b: seq<JunkFile>)
    ensures Bytes(a + b) == Bytes(a) + Bytes(b)
  {
    if a == [] {
      assert a + b == b;
    } else {
      assert (a + b)[1..] == a[1..] + b;
      BytesAppend(a[1..], b);
    }
  }

  // ---------------------------------------- rows of the rule are all different

  // Every row below p starts with p and one of the children's names.
  lemma {:induction false} TopUnder(p: Path, kids: seq<Node>, e: Folder)
    requires e in TopIn(p, kids)
    ensures |e.path| > |p| && p <= e.path
    ensures exists i :: 0 <= i < |kids| && kids[i].name == e.path[|p|]
    decreases kids, 1
  {
    if e in TopOf(p, kids[0]) {
      TopOfUnder(p, kids[0], e);
    } else {
      TopUnder(p, kids[1..], e);
      var i :| 0 <= i < |kids[1..]| && kids[1..][i].name == e.path[|p|];
      assert kids[i + 1].name == e.path[|p|];
    }
  }

  lemma {:induction false} TopOfUnder(p: Path, t: Node, e: Folder)
    requires e in TopOf(p, t)
    ensures |e.path| > |p| && p + [t.name] <= e.path
    decreases t, 0
  {
    if Real(t) { TopUnder(p + [t.name], t.kids, e); }
  }

  lemma {:induction false} TopSlashFree(p: Path, kids: seq<Node>, e: Folder)
    requires SlashFree(p) && WellFormedIn(kids) && e in TopIn(p, kids)
    ensures SlashFree(e.path)
    decreases kids, 1
  {
    if e in TopOf(p, kids[0]) {
      var t := kids[0];
      if Real(t) { TopSlashFree(p + [t.name], t.kids, e); }
    } else {
      TopSlashFree(p, kids[1..], e);
    }
  }

  ghost predicate PathsDiffer(s: seq<Folder>) {
    forall i, j :: 0 <= i < j < |s| ==> s[i].path != s[j].path
  }

  lemma PathsDifferConcat(a: seq<Folder>, b: seq<Folder>)
    requires PathsDiffer(a) && PathsDiffer(b)
    requires forall x, y :: x in a && y in b ==> x.path != y.path
    ensures PathsDiffer(a + b)
  {
    forall i, j | 0 <= i < j < |a + b| ensures (a + b)[i].path != (a + b)[j].path {
      if i < |a| <= j {
        assert (a + b)[i] in a && (a + b)[j] in b;
      }
    }
  }

  lemma {:induction false} TopDiffer(p: Path, kids: seq<Node>)
    requires WellFormedIn(kids)
    ensures PathsDiffer(TopIn(p, kids))
    decreases kids, 1
  {
    if kids != [] {
      var t := kids[0];
      if t.Dir? && Real(t) { TopDiffer(p + [t.name], t.kids); }
      TopDiffer(p, kids[1..]);
      forall x, y | x in TopOf(p, t) && y in TopIn(p, kids[1..]) ensures x.path != y.path {
        TopOfUnder(p, t, x);
        TopUnder(p, kids[1..], y);
        StrLessIrreflexive(t.name);
        assert x.path[|p|] == t.name;
      }
      PathsDifferConcat(TopOf(p, t), TopIn(p, kids[1..]));
    }
  }

  // Under roots that stand apart (every recursive scan), no two rows tie.
  lemma {:induction false} ForestDiffer(roots: seq<Root>)
    requires WellFormedRoots(roots)
    requires forall i, j :: 0 <= i < j < |roots| ==> !Related(roots[i].path, roots[j].path)
    ensures PathsDiffer(TopForest(roots))
    ensures forall e :: e in TopForest(roots) ==> exists i :: 0 <= i < |roots| && roots[i].path <= e.path
  {
    if roots != [] {
      var n := |roots| - 1;
      var init, r := roots[..n], roots[n];
      ForestDiffer(init);
      TopDiffer(r.path, r.kids);
      forall y | y in TopIn(r.path, r.kids) ensures r.path <= y.path {
        TopUnder(r.path, r.kids, y);
      }
      forall x, y | x in TopForest(init) && y in TopIn(r.path, r.kids) ensures x.path != y.path {
        var i :| 0 <= i < |init| && init[i].path <= x.path;
        assert !Related(roots[i].path, r.path);
      }
      PathsDifferConcat(TopForest(init), TopIn(r.path, r.kids));
      forall e | e in TopForest(init) ensures exists i :: 0 <= i < |roots| && roots[i].path <= e.path {
        var i :| 0 <= i < |init| && init[i].path <= e.path;
        assert roots[i].path <= e.path;
      }
      forall y | y in TopIn(r.path, r.kids) ensures exists i :: 0 <= i < |roots| && roots[i].path <= y.path {
        assert roots[n].path <= y.path;
      }
    }
  }

  lemma {:induction false} ForestSlashFree(roots: seq<Root>, e: Folder)
    requires WellFormedRoots(roots) && e in TopForest(roots)
    requires forall i :: 0 <= i < |roots| ==> SlashFree(roots[i].path)
    ensures SlashFree(e.path)
  {
    var r := roots[|roots| - 1];
    if e in TopIn(r.path, r.kids) {
      TopSlashFree(r.path, r.kids, e);
    } else {
      ForestSlashFree(roots[..|roots| - 1], e);
    }
  }

  // Roots outside one another list no folder twice.
  lemma ForestTieFree(roots: seq<Root>)
    requires WellFormedRoots(roots) && RootsDisjoint(roots)
    ensures TieFree(FolderBefore, TopForest(roots))
  {
    ForestDiffer(roots);
    var s := TopForest(roots);
    forall a, b | a in s && b in s ensures a == b || FolderBefore(a, b) || FolderBefore(b, a) {
      ForestSlashFree(roots, a);
      ForestSlashFree(roots, b);
      if a.path != b.path {
        if Join(a.path) == Join(b.path) { JoinInjective(a.path, b.path); }
        StrLessTotal(Join(a.path), Join(b.path));
      }
    }
  }

  // ----------------------------------------------------- what the rule means

  function NodeNames(ns: seq<Node>): Path {
    seq(|ns|, i requires 0 <= i < |ns| => ns[i].name)
  }

  // ns leads from a child of p down to the folder e describes: nothing but junk
  // in the last one, content in every folder on the way.
  ghost predicate TopmostVia(kids: seq<Node>, p: Path, e: Folder, ns: seq<Node>) {
    && ns != [] && ns[0] in kids
    && (forall i :: 0 <= i < |ns| - 1 ==> ns[i].Dir? && Real(ns[i]) && ns[i + 1] in ns[i].kids)
    && ns[|ns| - 1].Dir? && !Real(ns[|ns| - 1])
    && e == Folder(p + NodeNames(ns), ns[|ns| - 1].mod, Summary(JunkOf(ns[|ns| - 1])))
  }

  lemma {:induction false} RowHasChain(p: Path, kids: seq<Node>, e: Folder)
    requires e in TopIn(p, kids)
    ensures exists ns :: TopmostVia(kids, p, e, ns)
    decreases kids, 1
  {
    if e in TopOf(p, kids[0]) {
      var t := kids[0];
      if Real(t) {
        RowHasChain(p + [t.name], t.kids, e);
        var ns :| TopmostVia(t.kids, p + [t.name], e, ns);
        assert NodeNames([t] + ns) == [t.name] + NodeNames(ns);
        assert p + [t.name] + NodeNames(ns) == p + NodeNames([t] + ns);
        assert TopmostVia(kids, p, e, [t] + ns);
      } else {
        assert NodeNames([t]) == [t.name];
        assert TopmostVia(kids, p, e, [t]);
      }
    } else {
      RowHasChain(p, kids[1..], e);
      var ns :| TopmostVia(kids[1..], p, e, ns);
      assert TopmostVia(kids, p, e, ns);
    }
  }

  lemma {:induction false} TopOfListed(p: Path, kids: seq<Node>, t: Node, e: Folder)
    requires t in kids && e in TopOf(p, t)
    ensures e in TopIn(p, kids)
  {
    if t != kids[0] { TopOfListed(p, kids[1..], t, e); }
  }

  lemma {:induction false} ChainHasRow(p: Path, kids: seq<Node>, e: Folder, ns: seq<Node>)
    requires TopmostVia(kids, p, e, ns)
    ensures e in TopIn(p, kids)
    decreases |ns|
  {
    var t := ns[0];
    if |ns| == 1 {
      assert NodeNames(ns) == [t.name];
    } else {
      assert NodeNames(ns) == [t.name] + NodeNames(ns[1..]);
      assert p + [t.name] + NodeNames(ns[1..]) == p + NodeNames(ns);
      ChainHasRow(p + [t.name], t.kids, e, ns[1..]);
    }
    TopOfListed(p, kids, t, e);
  }

  // A folder is a row exactly when its subtree holds nothing but junk and every
  // folder between it and the root holds content.
  lemma TopmostMeaning(p: Path, kids: seq<Node>, e: Folder)
    ensures e in TopIn(p, kids) <==> exists ns :: TopmostVia(kids, p, e, ns)
  {
    if e in TopIn(p, kids) {
      RowHasChain(p, kids, e);
    }
    forall ns | TopmostVia(kids, p, e, ns) ensures e in TopIn(p, kids) {
      ChainHasRow(p, kids, e, ns);
    }
  }
}
