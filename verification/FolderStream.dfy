// The streaming empty-folders scan as a function of its state, and the proof
// that on any walk it finds exactly the topmost empty folders.
//
// A frame here keeps every empty child it was handed; what the program's
// per-frame cap leaves out is settled when the frame is flushed (`lost`).
module FolderStream {
  import opened Paths
  import opened Ranking
  import opened FolderTree

  const FOLDER_CAP: nat := 20000

  datatype Frame = Frame(path: Path, mod: int, junk: JunkInfo, isRoot: bool, hasFile: bool, empties: seq<Folder>)

  // out: the rows handed to the bounded list; lost: the rows a frame's own cap
  // left out.
  datatype Scan = Scan(root: int, stack: seq<Frame>, out: seq<Folder>, lost: seq<Folder>)

  const NO_JUNK := JunkInfo(0, 0, [])

  function Start(): Scan { Scan(-1, [], [], []) }

  function AddJunk(j: JunkInfo, name: string, size: nat): JunkInfo {
    JunkInfo(j.n + 1, j.bytes + size, if |j.ex| < JUNK_EXAMPLES then j.ex + [name] else j.ex)
  }

  function MergeJunk(j: JunkInfo, c: JunkInfo): JunkInfo {
    JunkInfo(j.n + c.n, j.bytes + c.bytes, if |j.ex| >= JUNK_EXAMPLES then j.ex else Take(j.ex + c.ex, JUNK_EXAMPLES))
  }

  function Top(s: Scan): Frame
    requires s.stack != []
  {
    s.stack[|s.stack| - 1]
  }

  function SetTop(s: Scan, f: Frame): Scan
    requires s.stack != []
  {
    s.(stack := s.stack[|s.stack| - 1 := f])
  }

  function Flush(s: Scan, rows: seq<Folder>): Scan {
    s.(out := s.out + Take(rows, FOLDER_CAP), lost := s.lost + rows[|Take(rows, FOLDER_CAP)|..])
  }

  function MarkHasFile(s: Scan): Scan
    requires s.stack != []
  {
    var f := Top(s);
    if f.hasFile then s
    else SetTop(Flush(s, f.empties), f.(hasFile := true, empties := []))
  }

  function AddEmpty(s: Scan, d: Folder): Scan
    requires s.stack != []
  {
    var p := Top(s);
    if p.hasFile || p.isRoot then s.(out := s.out + [d])
    else SetTop(s, p.(empties := p.empties + [d]))
  }

  // An empty directory goes to its parent, and its junk with it.
  function HandUp(s: Scan, d: Folder): Scan
    requires s.stack != []
  {
    var g := AddEmpty(s, d);
    if Top(g).hasFile then g else SetTop(g, Top(g).(junk := MergeJunk(Top(g).junk, d.junk)))
  }

  function Pop(s: Scan): (r: Scan)
    requires s.stack != []
    ensures |r.stack| == |s.stack| - 1 && r.root == s.root
    ensures forall i :: 0 <= i < |r.stack| ==> r.stack[i].path == s.stack[i].path
    ensures forall i :: 0 <= i < |r.stack| - 1 ==> r.stack[i] == s.stack[i]
  {
    var f := Top(s);
    var left := s.(stack := s.stack[..|s.stack| - 1]);
    if f.hasFile || f.isRoot then
      var g := Flush(left, f.empties);
      if f.hasFile && g.stack != [] then MarkHasFile(g) else g
    else if left.stack == [] then left
    else
      HandUp(left, Folder(f.path, f.mod, f.junk))
  }

  function PopTo(s: Scan, p: Path): (r: Scan)
    ensures r.root == s.root
    decreases |s.stack|
  {
    if s.stack == [] || Top(s).path <= p then s else PopTo(Pop(s), p)
  }

  lemma PopToStep(s: Scan, p: Path)
    requires s.stack != [] && !(Top(s).path <= p)
    ensures PopTo(s, p) == PopTo(Pop(s), p)
  {
  }

  // Leaves every frame above the first k.
  function CloseTo(s: Scan, k: nat): (r: Scan)
    ensures r.root == s.root
    ensures |r.stack| == if |s.stack| <= k then |s.stack| else k
    ensures forall i :: 0 <= i < |r.stack| ==> r.stack[i].path == s.stack[i].path
    decreases |s.stack|
  {
    if |s.stack| <= k then s else CloseTo(Pop(s), k)
  }

  function Enter(s: Scan, root: int, p: Path): (r: Scan)
    ensures r.stack != []
  {
    var s1 := if root != s.root then CloseTo(s, 0).(root := root) else s;
    var s2 := PopTo(s1, p);
    if s2.stack != [] then s2
    else s2.(stack := [Frame(if p == [] then [] else p[..|p| - 1], 0, NO_JUNK, true, false, [])])
  }

  function Step(s: Scan, e: Event): Scan {
    match e
    case VisitDir(root, p, mod) =>
      var t := Enter(s, root, p);
      t.(stack := t.stack + [Frame(p, mod, NO_JUNK, false, false, [])])
    case VisitFile(root, p, size, junk) =>
      var t := Enter(s, root, p);
      if !junk then MarkHasFile(t)
      else if Top(t).hasFile then t
      else SetTop(t, Top(t).(junk := AddJunk(Top(t).junk, Base(p), size)))
    case Unreadable(p) =>
      var t := PopTo(s, p);
      if t.stack == [] then t else MarkHasFile(t)
  }

  function Run(s: Scan, es: seq<Event>): Scan
    decreases |es|
  {
    if es == [] then s else Run(Step(s, es[0]), es[1..])
  }

  lemma {:induction false} RunConcat(s: Scan, a: seq<Event>, b: seq<Event>)
    ensures Run(s, a + b) == Run(Run(s, a), b)
    decreases |a|
  {
    if a == [] {
      assert a + b == b;
    } else {
      assert (a + b)[1..] == a[1..] + b;
      RunConcat(Step(s, a[0]), a[1..], b);
    }
  }

  // ------------------------------------------- leaving early or late is the same

  // No frame above the first k is a directory the walk at p is still inside.
  ghost predicate Left(s: Scan, k: nat, p: Path) {
    forall i :: k <= i < |s.stack| ==> !(s.stack[i].path <= p)
  }

  lemma {:induction false} PopToClosed(s: Scan, k: nat, p: Path)
    requires Left(s, k, p)
    ensures PopTo(s, p) == PopTo(CloseTo(s, k), p)
    decreases |s.stack|
  {
    if |s.stack| > k { PopToClosed(Pop(s), k, p); }
  }

  lemma {:induction false} CloseClose(s: Scan, j: nat, k: nat)
    requires k <= j
    ensures CloseTo(CloseTo(s, j), k) == CloseTo(s, k)
    decreases |s.stack|
  {
    if |s.stack| > j { CloseClose(Pop(s), j, k); }
  }

  // What the walk does next is the same whether the frames it has left are
  // closed already or not.
  lemma RunClosed(s: Scan, k: nat, es: seq<Event>)
    requires es != [] && Left(s, k, es[0].path)
    requires es[0].Unreadable? || es[0].root == s.root
    ensures Run(s, es) == Run(CloseTo(s, k), es)
  {
    PopToClosed(s, k, es[0].path);
  }

  // -------------------------------------------------------------- accounting

  function Acc(s: Scan): multiset<Folder> { multiset(s.out) + multiset(s.lost) }

  // A row a frame's cap left out has a full list of kept rows ahead of it.
  ghost predicate LostOutranked(s: Scan) {
    forall i :: 0 <= i < |s.lost| ==> Crowded(FolderBefore, multiset(s.out), s.lost[i], FOLDER_CAP)
  }

  ghost predicate Rising(es: seq<Folder>) {
    forall i, j :: 0 <= i < j < |es| ==> FolderBefore(es[i], es[j])
  }

  ghost predicate AllBefore(es: seq<Folder>, p: Path, kids: seq<Node>) {
    forall i, j :: 0 <= i < |es| && 0 <= j < |kids| ==> PathLess(es[i].path, p + [kids[j].name])
  }

  // What working through part of a directory's listing did to the scan: content
  // says the part held content, junk its junk, rows its topmost empty folders.
  ghost predicate Effect(s: Scan, t: Scan, content: bool, junk: seq<JunkFile>, rows: seq<Folder>)
  {
    && SameFrame(s, t) && (Top(t).hasFile <==> Top(s).hasFile || content)
    && (!Top(t).hasFile ==> JunkAdded(s, t, junk))
    && RowsAdded(s, t, rows) && (LostOutranked(s) ==> LostOutranked(t))
  }

  ghost predicate SameFrame(s: Scan, t: Scan) {
    && s.stack != [] && |t.stack| == |s.stack| && t.root == s.root
    && t.stack[..|s.stack| - 1] == s.stack[..|s.stack| - 1]
    && Top(t).path == Top(s).path && Top(t).mod == Top(s).mod && Top(t).isRoot == Top(s).isRoot
  }

  ghost predicate RowsAdded(s: Scan, t: Scan, rows: seq<Folder>)
    requires s.stack != [] && t.stack != []
  {
    && (!Top(t).hasFile && !Top(t).isRoot ==>
          t.out == s.out && t.lost == s.lost && Top(t).empties == Top(s).empties + rows)
    && Acc(t) + multiset(Top(t).empties) == Acc(s) + multiset(Top(s).empties) + multiset(rows)
  }

  // What the junk of a part of the listing did to the frame's junk.
  ghost predicate JunkAdded(s: Scan, t: Scan, junk: seq<JunkFile>)
    requires s.stack != [] && t.stack != []
  {
    forall j :: Top(s).junk == Summary(j) ==> Top(t).junk == Summary(j + junk)
  }

  lemma JunkThen(s: Scan, t: Scan, u: Scan, j1: seq<JunkFile>, j2: seq<JunkFile>)
    requires s.stack != [] && t.stack != [] && u.stack != [] && JunkAdded(s, t, j1) && JunkAdded(t, u, j2)
    ensures JunkAdded(s, u, j1 + j2)
  {
    forall j | Top(s).junk == Summary(j) ensures Top(u).junk == Summary(j + (j1 + j2)) {
      assert j + (j1 + j2) == j + j1 + j2;
    }
  }

  lemma RowsThen(s: Scan, t: Scan, u: Scan, w1: seq<Folder>, w2: seq<Folder>)
    requires s.stack != [] && t.stack != [] && u.stack != []
    requires RowsAdded(s, t, w1) && RowsAdded(t, u, w2)
    requires (Top(t).hasFile ==> Top(u).hasFile) && Top(u).isRoot == Top(t).isRoot
    ensures RowsAdded(s, u, w1 + w2)
  {
    assert Top(s).empties + w1 + w2 == Top(s).empties + (w1 + w2);
    assert multiset(w1 + w2) == multiset(w1) + multiset(w2);
  }

  lemma EffectThen(s: Scan, t: Scan, u: Scan, r1: bool, j1: seq<JunkFile>, w1: seq<Folder>,
                   r2: bool, j2: seq<JunkFile>, w2: seq<Folder>)
    requires Effect(s, t, r1, j1, w1) && Effect(t, u, r2, j2, w2)
    ensures Effect(s, u, r1 || r2, j1 + j2, w1 + w2)
  {
    RowsThen(s, t, u, w1, w2);
    if !Top(u).hasFile { JunkThen(s, t, u, j1, j2); }
  }

  lemma FlushAccounts(s: Scan, rows: seq<Folder>)
    ensures Acc(Flush(s, rows)) == Acc(s) + multiset(rows)
  {
    var n := |Take(rows, FOLDER_CAP)|;
    assert rows == rows[..n] + rows[n..];
    assert Take(rows, FOLDER_CAP) == rows[..n];
  }

  lemma FlushKeepsRank(s: Scan, rows: seq<Folder>)
    requires LostOutranked(s) && Rising(rows)
    ensures LostOutranked(Flush(s, rows))
  {
    var t := Flush(s, rows);
    var kept := Take(rows, FOLDER_CAP);
    forall i | 0 <= i < |t.lost|
      ensures Crowded(FolderBefore, multiset(t.out), t.lost[i], FOLDER_CAP)
    {
      if i < |s.lost| {
        CrowdedGrows(FolderBefore, multiset(s.out), multiset(t.out), s.lost[i], FOLDER_CAP);
      } else {
        var x := t.lost[i];
        assert x == rows[|kept| + (i - |s.lost|)];
        forall y | y in multiset(kept) ensures FolderBefore(y, x) {
          var j :| 0 <= j < |kept| && kept[j] == y;
          assert FolderBefore(rows[j], x);
        }
        assert multiset(kept) <= multiset(t.out);
      }
    }
  }

  lemma GrowKeepsRank(s: Scan, t: Scan)
    requires LostOutranked(s) && t.lost == s.lost && multiset(s.out) <= multiset(t.out)
    ensures LostOutranked(t)
  {
    forall i | 0 <= i < |t.lost|
      ensures Crowded(FolderBefore, multiset(t.out), t.lost[i], FOLDER_CAP)
    {
      CrowdedGrows(FolderBefore, multiset(s.out), multiset(t.out), s.lost[i], FOLDER_CAP);
    }
  }

  lemma MarkEffect(s: Scan)
    requires s.stack != [] && Rising(Top(s).empties)
    ensures Effect(s, MarkHasFile(s), true, [], [])
    ensures Top(s).hasFile || Top(MarkHasFile(s)).empties == []
  {
    if !Top(s).hasFile {
      FlushAccounts(s, Top(s).empties);
      if LostOutranked(s) { FlushKeepsRank(s, Top(s).empties); }
    }
  }

  lemma AddJunkSummary(j: seq<JunkFile>, f: JunkFile)
    ensures AddJunk(Summary(j), f.name, f.size) == Summary(j + [f])
  {
    BytesAppend(j, [f]);
    assert Names(j + [f]) == Names(j) + [f.name];
  }

  lemma MergeJunkSummary(j: seq<JunkFile>, c: seq<JunkFile>)
    ensures MergeJunk(Summary(j), Summary(c)) == Summary(j + c)
  {
    BytesAppend(j, c);
    assert Names(j + c) == Names(j) + Names(c);
  }

  // ------------------------------------------------------------ one directory

  function Pushed(s: Scan, q: Path, mod: int): Scan {
    s.(stack := s.stack + [Frame(q, mod, NO_JUNK, false, false, [])])
  }

  // Leaving a directory that turned out to hold content.
  lemma PopContent(s: Scan, t: Scan, q: Path, mod: int, junk: seq<JunkFile>, rows: seq<Folder>)
    requires s.stack != [] && Rising(Top(s).empties)
    requires t.stack != [] && Rising(Top(t).empties)
    requires Effect(Pushed(s, q, mod), t, true, junk, rows)
    ensures Effect(s, Pop(t), true, junk, rows)
    ensures Top(Pop(t)).empties == Top(s).empties || Top(Pop(t)).empties == []
  {
    var n, f := |s.stack|, Top(t);
    assert Pushed(s, q, mod).stack[..n] == s.stack;
    var left := t.(stack := t.stack[..n]);
    var g := Flush(left, f.empties);
    FlushAccounts(left, f.empties);
    if LostOutranked(s) {
      assert LostOutranked(Pushed(s, q, mod));
      assert LostOutranked(left);
      FlushKeepsRank(left, f.empties);
    }
    assert g.stack == s.stack;
    MarkEffect(g);
    assert Pop(t) == MarkHasFile(g);
    assert Acc(g) == Acc(s) + multiset(rows);
  }

  // Receiving an empty child changes nothing of the frame but its list.
  ghost predicate ChildAdded(s: Scan, g: Scan, d: Folder)
    requires s.stack != []
  {
    && |g.stack| == |s.stack| && g.root == s.root && g.stack[..|s.stack| - 1] == s.stack[..|s.stack| - 1]
    && Top(g) == Top(s).(empties := Top(g).empties)
    && (Top(g).empties == Top(s).empties || Top(g).empties == Top(s).empties + [d])
    && (!Top(s).hasFile && !Top(s).isRoot ==> g.out == s.out && Top(g).empties == Top(s).empties + [d])
    && g.lost == s.lost && multiset(s.out) <= multiset(g.out)
    && Acc(g) + multiset(Top(g).empties) == Acc(s) + multiset(Top(s).empties) + multiset([d])
  }

  lemma AddEmptyAdds(s: Scan, d: Folder)
    requires s.stack != []
    ensures ChildAdded(s, AddEmpty(s, d), d)
  {
  }

  lemma HandUpEffect(s: Scan, d: Folder, junk: seq<JunkFile>)
    requires s.stack != [] && d.junk == Summary(junk)
    ensures Effect(s, HandUp(s, d), false, junk, [d])
    ensures Top(HandUp(s, d)).empties == Top(s).empties || Top(HandUp(s, d)).empties == Top(s).empties + [d]
  {
    var g := AddEmpty(s, d);
    AddEmptyAdds(s, d);
    if LostOutranked(s) { GrowKeepsRank(s, g); }
    MergedEffect(s, g, d, junk, HandUp(s, d));
  }

  lemma MergedEffect(s: Scan, g: Scan, d: Folder, junk: seq<JunkFile>, t: Scan)
    requires s.stack != [] && d.junk == Summary(junk) && ChildAdded(s, g, d)
    requires LostOutranked(s) ==> LostOutranked(g)
    requires t == if Top(g).hasFile then g else SetTop(g, Top(g).(junk := MergeJunk(Top(g).junk, d.junk)))
    ensures Effect(s, t, false, junk, [d]) && Top(t).empties == Top(g).empties
  {
    forall j | Top(s).junk == Summary(j) ensures MergeJunk(Top(s).junk, d.junk) == Summary(j + junk) {
      MergeJunkSummary(j, junk);
    }
    assert t.stack[..|s.stack| - 1] == g.stack[..|s.stack| - 1];
    assert t.out == g.out && t.lost == g.lost;
  }

  // Leaving a directory whose whole subtree held nothing but junk: it
  // supersedes the empty folders below it.
  lemma PopEmpty(s: Scan, t: Scan, q: Path, mod: int, junk: seq<JunkFile>, rows: seq<Folder>)
    requires s.stack != [] && t.stack != []
    requires Effect(Pushed(s, q, mod), t, false, junk, rows)
    ensures Effect(s, Pop(t), false, junk, [Folder(q, mod, Summary(junk))])
    ensures Top(Pop(t)).empties == Top(s).empties
         || Top(Pop(t)).empties == Top(s).empties + [Folder(q, mod, Summary(junk))]
  {
    var n, f := |s.stack|, Top(t);
    assert Pushed(s, q, mod).stack[..n] == s.stack;
    assert t.(stack := t.stack[..n]) == s;
    assert NO_JUNK == Summary([]);
    assert [] + junk == junk;
    HandUpEffect(s, Folder(q, mod, f.junk), junk);
  }

  // --------------------------------------------------------------- the whole walk

  lemma FirstEvent(root: int, p: Path, kids: seq<Node>)
    requires kids != []
    ensures WalkIn(root, p, kids) != []
    ensures WalkIn(root, p, kids)[0].path == p + [kids[0].name]
    ensures WalkIn(root, p, kids)[0].Unreadable? || WalkIn(root, p, kids)[0].root == root
  {
  }

  // What walking one entry of the directory on top of the stack leaves.
  ghost predicate EntryDone(s: Scan, n: Scan, p: Path, t: Node)
    requires s.stack != []
  {
    var c := CloseTo(n, |s.stack|);
    && |n.stack| >= |s.stack|
    && (forall i :: |s.stack| <= i < |n.stack| ==> p + [t.name] <= n.stack[i].path)
    && Effect(s, c, Real(t), JunkOf(t), TopOf(p, t))
    && (Top(c).empties == Top(s).empties || Top(c).empties == []
        || (t.Dir? && !Real(t) && Top(c).empties == Top(s).empties + TopOf(p, t)))
  }

  lemma {:induction false} Entry(s: Scan, root: int, p: Path, t: Node)
    requires s.stack != [] && Top(s).path == p && s.root == root && WellFormed(t)
    requires Rising(Top(s).empties) && AllBefore(Top(s).empties, p, [t])
    ensures var n := Run(s, WalkOf(root, p, t)); n.root == root && EntryDone(s, n, p, t)
    decreases t, 0
  {
    var k := |s.stack|;
    match t
    case File(name, size, junk) =>
      assert Run(s, WalkOf(root, p, t)) == Step(s, WalkOf(root, p, t)[0]);
      if junk {
        forall j | Top(s).junk == Summary(j)
          ensures AddJunk(Top(s).junk, name, size) == Summary(j + [JunkFile(name, size)])
        {
          AddJunkSummary(j, JunkFile(name, size));
        }
        assert Base(p + [name]) == name;
      } else {
        MarkEffect(s);
      }
    case Mount(name) =>
      assert Run(s, WalkOf(root, p, t)) == MarkHasFile(s);
      MarkEffect(s);
    case Dir(name, mod, readable, kids) =>
      EntryDir(s, root, p, t);
  }

  lemma {:induction false} EntryDir(s: Scan, root: int, p: Path, t: Node)
    requires s.stack != [] && Top(s).path == p && s.root == root && WellFormed(t) && t.Dir?
    requires Rising(Top(s).empties) && AllBefore(Top(s).empties, p, [t])
    ensures var n := Run(s, WalkOf(root, p, t)); n.root == root && EntryDone(s, n, p, t)
    decreases t, 0, 0
  {
    var q := p + [t.name];
    var s1 := Pushed(s, q, t.mod);
    var s2 := if t.readable then s1 else MarkHasFile(s1);
    var n := Run(s2, WalkIn(root, q, t.kids));
    OpenDir(s, root, p, t);
    assert Run(s, WalkOf(root, p, t)) == n;
    InsideDir(s, s2, n, root, q, t);
    CloseDir(s, s2, n, q, t);
  }

  lemma {:induction false} InsideDir(s: Scan, s2: Scan, n: Scan, root: int, q: Path, t: Node)
    requires t.Dir? && WellFormed(t) && s.stack != []
    requires |s2.stack| == |s.stack| + 1 && Top(s2).path == q && s2.root == root && Top(s2).empties == []
    requires n == Run(s2, WalkIn(root, q, t.kids))
    ensures n.root == root && |n.stack| >= |s.stack| + 1
    ensures forall i :: |s.stack| + 1 <= i < |n.stack| ==> q <= n.stack[i].path
    ensures var c1 := CloseTo(n, |s.stack| + 1);
      Effect(s2, c1, RealIn(t.kids), JunkIn(t.kids), TopIn(q, t.kids)) && Rising(Top(c1).empties)
    decreases t.kids, 2
  {
    Listing(s2, root, q, t.kids);
  }

  lemma CloseDir(s: Scan, s2: Scan, n: Scan, q: Path, t: Node)
    requires t.Dir? && s.stack != [] && q == Top(s).path + [t.name] && Rising(Top(s).empties)
    requires Effect(Pushed(s, q, t.mod), s2, !t.readable, [], [])
    requires |n.stack| >= |s.stack| + 1
    requires forall i :: |s.stack| + 1 <= i < |n.stack| ==> q <= n.stack[i].path
    requires var c1 := CloseTo(n, |s.stack| + 1);
      Effect(s2, c1, RealIn(t.kids), JunkIn(t.kids), TopIn(q, t.kids)) && Rising(Top(c1).empties)
    ensures EntryDone(s, n, Top(s).path, t)
  {
    var k := |s.stack|;
    var c1 := CloseTo(n, k + 1);
    LeaveDir(s, s2, c1, q, t);
    CloseOne(n, k);
    InsideOf(n, k, q, c1);
    DoneFrom(s, n, Top(s).path, q, t, Pop(c1));
  }

  lemma InsideOf(n: Scan, k: nat, q: Path, c1: Scan)
    requires |n.stack| >= k + 1 && c1 == CloseTo(n, k + 1) && Top(c1).path == q
    requires forall i :: k + 1 <= i < |n.stack| ==> q <= n.stack[i].path
    ensures forall i :: k <= i < |n.stack| ==> q <= n.stack[i].path
  {
    assert n.stack[k].path == Top(c1).path;
  }

  lemma DoneFrom(s: Scan, n: Scan, p: Path, q: Path, t: Node, c: Scan)
    requires s.stack != [] && |n.stack| >= |s.stack| && c == CloseTo(n, |s.stack|) && q == p + [t.name]
    requires forall i :: |s.stack| <= i < |n.stack| ==> q <= n.stack[i].path
    requires Effect(s, c, Real(t), JunkOf(t), TopOf(p, t))
    requires Top(c).empties == Top(s).empties || Top(c).empties == []
          || (t.Dir? && !Real(t) && Top(c).empties == Top(s).empties + TopOf(p, t))
    ensures EntryDone(s, n, p, t)
  {
  }

  lemma CloseOne(n: Scan, k: nat)
    requires |n.stack| >= k + 1
    ensures CloseTo(n, k) == Pop(CloseTo(n, k + 1))
  {
    CloseClose(n, k + 1, k);
  }

  lemma OpenRun(s: Scan, root: int, p: Path, t: Node)
    requires s.stack != [] && Top(s).path == p && s.root == root && t.Dir?
    ensures var s1 := Pushed(s, p + [t.name], t.mod);
      Run(s, WalkOf(root, p, t)) == Run(if t.readable then s1 else MarkHasFile(s1), WalkIn(root, p + [t.name], t.kids))
  {
    var q := p + [t.name];
    var s1, rest := Pushed(s, q, t.mod), WalkIn(root, q, t.kids);
    assert Step(s, VisitDir(root, q, t.mod)) == s1;
    RunFirst(s, VisitDir(root, q, t.mod), if t.readable then rest else [Unreadable(q)] + rest);
    if t.readable {
      assert WalkOf(root, p, t) == [VisitDir(root, q, t.mod)] + rest;
    } else {
      assert WalkOf(root, p, t) == [VisitDir(root, q, t.mod)] + ([Unreadable(q)] + rest);
      RunFirst(s1, Unreadable(q), rest);
      assert Step(s1, Unreadable(q)) == MarkHasFile(s1);
    }
  }

  lemma RunFirst(s: Scan, e: Event, es: seq<Event>)
    ensures Run(s, [e] + es) == Run(Step(s, e), es)
  {
    assert ([e] + es)[1..] == es;
  }

  lemma OpenDir(s: Scan, root: int, p: Path, t: Node)
    requires s.stack != [] && Top(s).path == p && s.root == root && t.Dir?
    ensures
      var s1 := Pushed(s, p + [t.name], t.mod);
      var s2 := if t.readable then s1 else MarkHasFile(s1);
      && Run(s, WalkOf(root, p, t)) == Run(s2, WalkIn(root, p + [t.name], t.kids))
      && Effect(s1, s2, !t.readable, [], [])
      && Top(s2).empties == []
  {
    var q := p + [t.name];
    var s1 := Pushed(s, q, t.mod);
    OpenRun(s, root, p, t);
    if !t.readable { MarkEffect(s1); }
  }

  lemma LeaveDir(s: Scan, s2: Scan, c1: Scan, q: Path, t: Node)
    requires t.Dir? && s.stack != [] && q == Top(s).path + [t.name]
    requires Rising(Top(s).empties) && c1.stack != [] && Rising(Top(c1).empties)
    requires Effect(Pushed(s, q, t.mod), s2, !t.readable, [], [])
    requires Effect(s2, c1, RealIn(t.kids), JunkIn(t.kids), TopIn(q, t.kids))
    ensures Effect(s, Pop(c1), Real(t), JunkOf(t), TopOf(Top(s).path, t))
    ensures var c := Pop(c1);
      Top(c).empties == Top(s).empties || Top(c).empties == []
      || (!Real(t) && Top(c).empties == Top(s).empties + TopOf(Top(s).path, t))
  {
    EffectThen(Pushed(s, q, t.mod), s2, c1, !t.readable, [], [], RealIn(t.kids), JunkIn(t.kids), TopIn(q, t.kids));
    assert [] + JunkIn(t.kids) == JunkIn(t.kids) && [] + TopIn(q, t.kids) == TopIn(q, t.kids);
    if Real(t) {
      PopContent(s, c1, q, t.mod, JunkIn(t.kids), TopIn(q, t.kids));
    } else {
      PopEmpty(s, c1, q, t.mod, JunkIn(t.kids), TopIn(q, t.kids));
    }
  }

  // What walking the rest of a directory leaves.
  ghost predicate ListingDone(s: Scan, n: Scan, p: Path, kids: seq<Node>)
    requires s.stack != []
  {
    var c := CloseTo(n, |s.stack|);
    && n.root == s.root && |n.stack| >= |s.stack|
    && (forall i :: |s.stack| <= i < |n.stack| ==> p <= n.stack[i].path)
    && Effect(s, c, RealIn(kids), JunkIn(kids), TopIn(p, kids))
    && Rising(Top(c).empties)
  }

  lemma NothingDone(s: Scan, p: Path)
    requires s.stack != [] && Rising(Top(s).empties)
    ensures ListingDone(s, s, p, [])
  {
    assert forall j: seq<JunkFile> :: j + [] == j;
  }

  lemma ListingJoin(s: Scan, n0: Scan, m: Scan, n: Scan, p: Path, kids: seq<Node>)
    requires s.stack != [] && kids != [] && EntryDone(s, n0, p, kids[0])
    requires ListingDone(CloseTo(n0, |s.stack|), m, p, kids[1..])
    requires n.root == s.root && |n.stack| >= |s.stack| && CloseTo(n, |s.stack|) == CloseTo(m, |s.stack|)
    requires forall i :: |s.stack| <= i < |n.stack| ==> p <= n.stack[i].path
    ensures ListingDone(s, n, p, kids)
  {
    var c0 := CloseTo(n0, |s.stack|);
    EffectThen(s, c0, CloseTo(m, |s.stack|), Real(kids[0]), JunkOf(kids[0]), TopOf(p, kids[0]),
               RealIn(kids[1..]), JunkIn(kids[1..]), TopIn(p, kids[1..]));
  }

  // Walking (the rest of) the listing of the directory on top of the stack.
  lemma {:induction false} Listing(s: Scan, root: int, p: Path, kids: seq<Node>)
    requires s.stack != [] && Top(s).path == p && s.root == root && WellFormedIn(kids)
    requires Rising(Top(s).empties) && AllBefore(Top(s).empties, p, kids)
    ensures ListingDone(s, Run(s, WalkIn(root, p, kids)), p, kids)
    decreases kids, 1
  {
    if kids == [] {
      NothingDone(s, p);
    } else {
      var n0 := Run(s, WalkOf(root, p, kids[0]));
      assert AllBefore(Top(s).empties, p, [kids[0]]);
      Entry(s, root, p, kids[0]);
      var c0 := CloseTo(n0, |s.stack|);
      NextBefore(Top(s).empties, Top(c0).empties, p, kids);
      Listing(c0, root, p, kids[1..]);
      RunSplit(s, root, p, kids);
      ListingRest(s, n0, Run(c0, WalkIn(root, p, kids[1..])), Run(n0, WalkIn(root, p, kids[1..])), root, p, kids);
    }
  }

  lemma RunSplit(s: Scan, root: int, p: Path, kids: seq<Node>)
    requires kids != []
    ensures Run(s, WalkIn(root, p, kids)) == Run(Run(s, WalkOf(root, p, kids[0])), WalkIn(root, p, kids[1..]))
  {
    RunConcat(s, WalkOf(root, p, kids[0]), WalkIn(root, p, kids[1..]));
  }

  lemma NamesDiffer(kids: seq<Node>)
    requires kids != [] && WellFormedIn(kids)
    ensures forall i :: 0 < i < |kids| ==> kids[0].name != kids[i].name
  {
    StrLessIrreflexive(kids[0].name);
  }

  lemma ListingRest(s: Scan, n0: Scan, m: Scan, n: Scan, root: int, p: Path, kids: seq<Node>)
    requires s.stack != [] && s.root == root && kids != [] && WellFormedIn(kids)
    requires n0.root == root && EntryDone(s, n0, p, kids[0])
    requires ListingDone(CloseTo(n0, |s.stack|), m, p, kids[1..])
    requires n == Run(n0, WalkIn(root, p, kids[1..])) && m == Run(CloseTo(n0, |s.stack|), WalkIn(root, p, kids[1..]))
    ensures ListingDone(s, n, p, kids)
  {
    NamesDiffer(kids);
    Resume(n0, |s.stack|, n, m, root, p, kids);
    ListingJoin(s, n0, m, n, p, kids);
  }

  // The rest of a listing runs the same whether the frames of its first entry
  // are closed yet or not.
  lemma Resume(n0: Scan, k: nat, n: Scan, m: Scan, root: int, p: Path, kids: seq<Node>)
    requires kids != [] && n0.root == root && |n0.stack| >= k
    requires forall i :: 0 < i < |kids| ==> kids[0].name != kids[i].name
    requires forall i :: k <= i < |n0.stack| ==> p + [kids[0].name] <= n0.stack[i].path
    requires n == Run(n0, WalkIn(root, p, kids[1..]))
    requires m == Run(CloseTo(n0, k), WalkIn(root, p, kids[1..]))
    requires m.root == root && |m.stack| >= k
    requires forall i :: k <= i < |m.stack| ==> p <= m.stack[i].path
    ensures n.root == root && |n.stack| >= k
    ensures forall i :: k <= i < |n.stack| ==> p <= n.stack[i].path
    ensures CloseTo(n, k) == CloseTo(m, k)
  {
    var es := WalkIn(root, p, kids[1..]);
    if kids[1..] != [] { NextEvent(n0, k, root, p, kids); }
    ResumeOn(n0, k, n, m, p, kids[0].name, es);
  }

  lemma NextEvent(n0: Scan, k: nat, root: int, p: Path, kids: seq<Node>)
    requires |kids| >= 2 && n0.root == root && kids[0].name != kids[1].name
    requires forall i :: k <= i < |n0.stack| ==> p + [kids[0].name] <= n0.stack[i].path
    ensures var es := WalkIn(root, p, kids[1..]);
      es != [] && Left(n0, k, es[0].path) && (es[0].Unreadable? || es[0].root == n0.root)
  {
    FirstEvent(root, p, kids[1..]);
    SiblingLeaves(n0, k, p, kids[0].name, kids[1].name);
  }

  lemma ResumeOn(n0: Scan, k: nat, n: Scan, m: Scan, p: Path, name: string, es: seq<Event>)
    requires |n0.stack| >= k && n == Run(n0, es) && m == Run(CloseTo(n0, k), es)
    requires es != [] ==> Left(n0, k, es[0].path) && (es[0].Unreadable? || es[0].root == n0.root)
    requires forall i :: k <= i < |n0.stack| ==> p + [name] <= n0.stack[i].path
    requires |m.stack| >= k && m.root == n0.root
    requires forall i :: k <= i < |m.stack| ==> p <= m.stack[i].path
    ensures n.root == n0.root && |n.stack| >= k
    ensures forall i :: k <= i < |n.stack| ==> p <= n.stack[i].path
    ensures CloseTo(n, k) == CloseTo(m, k)
  {
    if es == [] {
      CloseClose(n0, k, k);
      assert p <= p + [name];
    } else {
      RunClosed(n0, k, es);
    }
  }

  lemma SiblingLeaves(n: Scan, k: nat, p: Path, name: string, next: string)
    requires name != next
    requires forall i :: k <= i < |n.stack| ==> p + [name] <= n.stack[i].path
    ensures Left(n, k, p + [next])
  {
    forall i | k <= i < |n.stack| ensures !(n.stack[i].path <= p + [next]) {
      assert n.stack[i].path[|p|] == name;
    }
  }

  // Empty children wait in listing order, ahead of everything still to come.
  lemma NextBefore(before: seq<Folder>, after: seq<Folder>, p: Path, kids: seq<Node>)
    requires kids != [] && WellFormedIn(kids) && Rising(before) && AllBefore(before, p, kids)
    requires after == before || after == []
          || (kids[0].Dir? && !Real(kids[0]) && after == before + TopOf(p, kids[0]))
    ensures Rising(after) && AllBefore(after, p, kids[1..])
  {
    forall i | 0 < i < |kids| ensures PathLess(p + [kids[0].name], p + [kids[i].name]) {
      SiblingOrder(p, kids[0].name, kids[i].name);
    }
  }

  // ------------------------------------------------------------- several roots

  // With nothing open an unreadable directory leaves no trace.
  lemma SkipMount(z: Scan, j: int, p: Path, kids: seq<Node>)
    requires z.stack == [] && kids != [] && kids[0].Mount?
    ensures Run(z, WalkIn(j, p, kids)) == Run(z, WalkIn(j, p, kids[1..]))
    ensures TopIn(p, kids) == TopIn(p, kids[1..])
  {
    var e := Unreadable(p + [kids[0].name]);
    assert WalkIn(j, p, kids) == [e] + WalkIn(j, p, kids[1..]);
    assert Step(z, e) == z;
  }

  // The first entry under a root opens the root's own frame.
  lemma {:induction false} FromEmpty(z: Scan, j: int, r: Root, kids: seq<Node>)
    requires z.stack == [] && z.root != j && WellFormedIn(kids)
    ensures
      var n := Run(z, WalkIn(j, r.path, kids));
      var c := CloseTo(n, 0);
      && (n.root == j || n == z)
      && (forall i :: 0 <= i < |n.stack| ==> r.path <= n.stack[i].path)
      && Acc(c) == Acc(z) + multiset(TopIn(r.path, kids))
      && (LostOutranked(z) ==> LostOutranked(c))
    decreases kids
  {
    if kids == [] {
    } else if kids[0].Mount? {
      SkipMount(z, j, r.path, kids);
      FromEmpty(z, j, r, kids[1..]);
    } else {
      FromFirst(z, j, r.path, kids);
    }
  }

  lemma FromFirst(z: Scan, j: int, p: Path, kids: seq<Node>)
    requires z.stack == [] && z.root != j && WellFormedIn(kids) && kids != [] && !kids[0].Mount?
    ensures
      var n := Run(z, WalkIn(j, p, kids));
      var c := CloseTo(n, 0);
      && n.root == j
      && (forall i :: 0 <= i < |n.stack| ==> p <= n.stack[i].path)
      && Acc(c) == Acc(z) + multiset(TopIn(p, kids))
      && (LostOutranked(z) ==> LostOutranked(c))
  {
    var n := Run(z, WalkIn(j, p, kids));
    FirstEntry(z, j, p, kids);
    Listing(Entered(z, j, p), j, p, kids);
    LeaveRoot(z, j, p, n, RealIn(kids), JunkIn(kids), TopIn(p, kids));
  }

  function Entered(z: Scan, j: int, p: Path): Scan {
    Scan(j, [Frame(p, 0, NO_JUNK, true, false, [])], z.out, z.lost)
  }

  lemma FirstEntry(z: Scan, j: int, p: Path, kids: seq<Node>)
    requires z.stack == [] && z.root != j && kids != [] && !kids[0].Mount?
    ensures Run(z, WalkIn(j, p, kids)) == Run(Entered(z, j, p), WalkIn(j, p, kids))
  {
    FirstEvent(j, p, kids);
    var es := WalkIn(j, p, kids);
    assert es[0].path[..|p|] == p;
    assert Step(z, es[0]) == Step(Entered(z, j, p), es[0]);
  }

  lemma LeaveRoot(z: Scan, j: int, p: Path, n: Scan, content: bool, junk: seq<JunkFile>, rows: seq<Folder>)
    requires z.stack == [] && |n.stack| >= 1
    requires Effect(Entered(z, j, p), CloseTo(n, 1), content, junk, rows)
    requires Rising(Top(CloseTo(n, 1)).empties)
    ensures n.stack[0].path == p
    ensures Acc(CloseTo(n, 0)) == Acc(z) + multiset(rows)
    ensures LostOutranked(z) ==> LostOutranked(CloseTo(n, 0))
  {
    var c := CloseTo(n, 1);
    CloseClose(n, 1, 0);
    LeftRoot(z, j, p, c, content, junk, rows);
  }

  lemma LeftRoot(z: Scan, j: int, p: Path, c: Scan, content: bool, junk: seq<JunkFile>, rows: seq<Folder>)
    requires z.stack == []
    requires Effect(Entered(z, j, p), c, content, junk, rows) && Rising(Top(c).empties)
    ensures Pop(c).stack == [] && Acc(Pop(c)) == Acc(z) + multiset(rows)
    ensures LostOutranked(z) ==> LostOutranked(Pop(c))
  {
    var left := c.(stack := []);
    FlushAccounts(left, Top(c).empties);
    assert Pop(c) == Flush(left, Top(c).empties);
    if LostOutranked(z) {
      assert LostOutranked(Entered(z, j, p));
      assert LostOutranked(left);
      FlushKeepsRank(left, Top(c).empties);
    }
  }

  lemma RootWalk(s: Scan, j: int, r: Root)
    requires s.root != j && WellFormedIn(r.kids)
    requires StartsUnreadable(r) ==> forall i :: 0 <= i < |s.stack| ==> !Related(s.stack[i].path, r.path)
    ensures
      var n := Run(s, WalkRoot(j, r));
      var c := CloseTo(n, 0);
      && (n.root == j || n.root == s.root)
      && ((forall i :: 0 <= i < |n.stack| ==> r.path <= n.stack[i].path) || n == s)
      && Acc(c) == Acc(CloseTo(s, 0)) + multiset(TopIn(r.path, r.kids))
      && (LostOutranked(CloseTo(s, 0)) ==> LostOutranked(c))
  {
    var z, es := CloseTo(s, 0), WalkRoot(j, r);
    CloseClose(s, 0, 0);
    if es == [] {
      assert r.kids == [] by { if r.kids != [] { FirstEvent(j, r.path, r.kids); } }
    } else {
      if r.kids != [] { FirstEvent(j, r.path, r.kids); }
      assert Run(s, es) == Run(z, es) by {
        if es[0].Unreadable? {
          forall i | 0 <= i < |s.stack| ensures !(s.stack[i].path <= es[0].path) {
            if s.stack[i].path <= es[0].path { PrefixesRelate(s.stack[i].path, r.path, es[0].path); }
          }
          RunClosed(s, 0, es);
        } else {
          assert Step(s, es[0]) == Step(z, es[0]);
        }
      }
      if !r.readable {
        assert es[1..] == WalkIn(j, r.path, r.kids);
        assert Step(z, es[0]) == z;
      } else {
        assert es == WalkIn(j, r.path, r.kids);
      }
      FromEmpty(z, j, r, r.kids);
    }
  }

  lemma PrefixesRelate(p: Path, q: Path, w: Path)
    requires p <= w && q <= w
    ensures Related(p, q)
  {
    assert p == w[..|p|] && q == w[..|q|];
  }

  ghost predicate UnderRoots(s: Scan, roots: seq<Root>) {
    s.root < |roots|
    && forall i :: 0 <= i < |s.stack| ==> UnderOne(s.stack[i].path, roots)
  }

  ghost predicate UnderOne(p: Path, roots: seq<Root>) {
    exists j :: 0 <= j < |roots| && roots[j].path <= p
  }

  lemma StandsApart(s: Scan, roots: seq<Root>)
    requires roots != [] && RootsApart(roots) && UnderRoots(s, roots[..|roots| - 1])
    requires StartsUnreadable(roots[|roots| - 1])
    ensures forall i :: 0 <= i < |s.stack| ==> !Related(s.stack[i].path, roots[|roots| - 1].path)
  {
    var m := |roots| - 1;
    var init, r := roots[..m], roots[m];
    forall i | 0 <= i < |s.stack| ensures !Related(s.stack[i].path, r.path) {
      var f := s.stack[i].path;
      var j :| 0 <= j < |init| && init[j].path <= f;
      assert roots[j].path == init[j].path && !Related(roots[j].path, r.path);
      if r.path <= f { PrefixesRelate(init[j].path, r.path, f); }
    }
  }

  lemma UnderMoreRoots(s: Scan, n: Scan, roots: seq<Root>)
    requires roots != [] && UnderRoots(s, roots[..|roots| - 1])
    requires n.root < |roots|
    requires (forall i :: 0 <= i < |n.stack| ==> roots[|roots| - 1].path <= n.stack[i].path) || n == s
    ensures UnderRoots(n, roots)
  {
    var m := |roots| - 1;
    forall i | 0 <= i < |n.stack| ensures UnderOne(n.stack[i].path, roots) {
      if n == s {
        assert UnderOne(s.stack[i].path, roots[..m]);
        var j :| 0 <= j < m && roots[..m][j].path <= n.stack[i].path;
        assert roots[j].path <= n.stack[i].path;
      } else {
        assert roots[m].path <= n.stack[i].path;
      }
    }
  }

  // The scan's rows, kept and lost, are the topmost empty folders of the forest,
  // each exactly once, and no lost row belongs to the first FOLDER_CAP.
  lemma {:induction false} ScanFindsTopmost(roots: seq<Root>)
    requires WellFormedRoots(roots) && RootsApart(roots)
    ensures UnderRoots(Run(Start(), WalkForest(roots)), roots)
    ensures
      var c := CloseTo(Run(Start(), WalkForest(roots)), 0);
      multiset(c.out) + multiset(c.lost) == multiset(TopForest(roots)) && LostOutranked(c)
  {
    if roots != [] {
      var m := |roots| - 1;
      var init, r := roots[..m], roots[m];
      ScanFindsTopmost(init);
      var s := Run(Start(), WalkForest(init));
      if StartsUnreadable(r) { StandsApart(s, roots); }
      RootWalk(s, m, r);
      RunConcat(Start(), WalkForest(init), WalkRoot(m, r));
      UnderMoreRoots(s, Run(s, WalkRoot(m, r)), roots);
    }
  }

  // So the bounded list is the first FOLDER_CAP of all topmost empty folders by
  // path, although frames cut their own lists on the way.
  lemma KeptAreFirst(roots: seq<Root>, c: Scan)
    requires multiset(c.out) + multiset(c.lost) == multiset(TopForest(roots)) && LostOutranked(c)
    requires TieFree(FolderBefore, TopForest(roots))
    ensures Take(Sort(FolderBefore, c.out), FOLDER_CAP) == Take(Sort(FolderBefore, TopForest(roots)), FOLDER_CAP)
  {
    FolderOrder();
    LeftOut(FolderBefore, c.out, c.lost, FOLDER_CAP);
    SortUnique(FolderBefore, TopForest(roots), c.out + c.lost);
  }
}
