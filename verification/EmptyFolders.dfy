// The empty-folders accumulator itself (server/emptyfolders.go): one frame per
// open directory, updated in place on every entry, with a cap on every list.
//
// `model` is the state FolderStream describes; each method says which of its
// steps it takes. ScanFolders drives the accumulator over a whole walk.
module EmptyFolders {
  import opened Paths
  import opened Ranking
  import opened FolderTree
  import opened FolderStream

  datatype EfFrame = EfFrame(path: Path, mod: int, junk: JunkInfo, isRoot: bool, hasFile: bool,
                             empties: seq<Folder>, dropped: nat)

  // The program's frame is the model's with its list cut at the cap.
  ghost predicate Capped(f: EfFrame, m: Frame) {
    && f.path == m.path && f.mod == m.mod && f.junk == m.junk && f.isRoot == m.isRoot && f.hasFile == m.hasFile
    && f.empties == Take(m.empties, FOLDER_CAP) && |f.empties| + f.dropped == |m.empties|
  }

  function WithJunk(s: Scan, more: JunkInfo): Scan
    requires s.stack != []
  {
    SetTop(s, Top(s).(junk := MergeJunk(Top(s).junk, more)))
  }

  lemma HandUpIs(s: Scan, d: Folder)
    requires s.stack != []
    ensures var g := AddEmpty(s, d); HandUp(s, d) == if Top(g).hasFile then g else WithJunk(g, d.junk)
  {
  }

  class EmptyFolderScan {
    var stack: seq<EfFrame>
    const top: BoundedTop<Folder>
    var dropped: nat
    var curRoot: int
    ghost var model: Scan

    ghost predicate Valid()
      reads this, top
    {
      && top.Valid() && top.limit == FOLDER_CAP && top.keepBefore == FolderBefore
      && top.offered == model.out && dropped == |model.lost| && curRoot == model.root
      && |stack| == |model.stack|
      && forall i :: 0 <= i < |stack| ==> Capped(stack[i], model.stack[i])
    }

    constructor ()
      ensures Valid() && model == Start() && fresh(top)
    {
      FolderOrder();
      top := new BoundedTop(FOLDER_CAP, FolderBefore);
      stack, dropped, curRoot, model := [], 0, -1, Start();
    }

    method SetTopFrame(f: EfFrame, ghost m: Frame)
      requires Valid() && stack != [] && Capped(f, m)
      modifies this`stack, this`model
      ensures Valid() && model == SetTop(old(model), m) && stack == old(stack)[|old(stack)| - 1 := f]
    {
      stack := stack[|stack| - 1 := f];
      model := SetTop(model, m);
    }

    method PushFrame(f: EfFrame, ghost m: Frame)
      requires Valid() && Capped(f, m)
      modifies this`stack, this`model
      ensures Valid() && model == old(model).(stack := old(model).stack + [m]) && stack == old(stack) + [f]
    {
      stack := stack + [f];
      model := model.(stack := model.stack + [m]);
    }

    method DropFrame() returns (f: EfFrame)
      requires Valid() && stack != []
      modifies this`stack, this`model
      ensures Valid() && model == old(model).(stack := old(model).stack[..|old(model).stack| - 1])
      ensures f == old(stack)[|old(stack)| - 1] && Capped(f, Top(old(model)))
    {
      f := stack[|stack| - 1];
      stack := stack[..|stack| - 1];
      model := model.(stack := model.stack[..|model.stack| - 1]);
    }

    method EmitAll(rows: seq<Folder>)
      requires top.Valid()
      modifies top
      ensures top.Valid() && top.offered == old(top.offered) + rows
    {
      for i := 0 to |rows|
        invariant top.Valid() && top.offered == old(top.offered) + rows[..i]
      {
        assert rows[..i + 1] == rows[..i] + [rows[i]];
        ghost var before := top.offered;
        top.Add(rows[i]);
        assert top.offered == before + [rows[i]];
      }
      assert rows[..|rows|] == rows;
    }

    // Releases a frame's waiting rows: what its cap kept is emitted, what it
    // left out is counted.
    method Release(f: EfFrame, ghost m: Frame)
      requires Valid() && Capped(f, m)
      modifies this`dropped, this`model, top
      ensures Valid() && model == Flush(old(model), m.empties)
    {
      EmitAll(f.empties);
      dropped := dropped + f.dropped;
      model := Flush(model, m.empties);
    }

    method MarkTopHasFile()
      requires Valid() && stack != []
      modifies this, top
      ensures Valid() && model == MarkHasFile(old(model))
    {
      var f := stack[|stack| - 1];
      if f.hasFile { return; }
      Release(f, Top(model));
      SetTopFrame(f.(hasFile := true, empties := [], dropped := 0), Top(model).(hasFile := true, empties := []));
    }

    method AddEmptyChild(d: Folder)
      requires Valid() && stack != []
      modifies this, top
      ensures Valid() && model == AddEmpty(old(model), d)
    {
      var p := stack[|stack| - 1];
      ghost var m := Top(model);
      if p.hasFile || p.isRoot {
        top.Add(d);
        model := model.(out := model.out + [d]);
      } else if |p.empties| < FOLDER_CAP {
        SetTopFrame(p.(empties := p.empties + [d]), m.(empties := m.empties + [d]));
      } else {
        SetTopFrame(p.(dropped := p.dropped + 1), m.(empties := m.empties + [d]));
      }
    }

    method MergeInto(p: EfFrame, more: JunkInfo)
      requires Valid() && stack != [] && p == stack[|stack| - 1]
      modifies this`stack, this`model
      ensures Valid() && model == WithJunk(old(model), more)
    {
      var j := MergeJunk(p.junk, more);
      SetTopFrame(p.(junk := j), Top(model).(junk := j));
    }

    method MergeUnlessFull(more: JunkInfo)
      requires Valid() && stack != []
      modifies this`stack, this`model
      ensures Valid() && model == if Top(old(model)).hasFile then old(model) else WithJunk(old(model), more)
    {
      var p := stack[|stack| - 1];
      if !p.hasFile { MergeInto(p, more); }
    }

    // Hands an empty directory, and its junk, to the directory around it.
    method HandUpChild(d: Folder)
      requires Valid() && stack != []
      modifies this, top
      ensures Valid() && model == HandUp(old(model), d)
    {
      HandUpIs(model, d);
      AddEmptyChild(d);
      MergeUnlessFull(d.junk);
    }

    method PopFrame()
      requires Valid() && stack != []
      modifies this, top
      ensures Valid() && model == Pop(old(model))
    {
      ghost var m := Top(model);
      var f := DropFrame();
      if f.hasFile || f.isRoot {
        Release(f, m);
        if f.hasFile && stack != [] { MarkTopHasFile(); }
      } else if stack != [] {
        HandUpChild(Folder(f.path, f.mod, f.junk));
      }
    }

    method LeaveTo(p: Path)
      requires Valid()
      modifies this, top
      ensures Valid() && model == PopTo(old(model), p)
    {
      while stack != [] && !(stack[|stack| - 1].path <= p)
        invariant Valid() && PopTo(model, p) == PopTo(old(model), p)
        decreases |stack|
      {
        PopToStep(model, p);
        PopFrame();
      }
    }

    method CloseAll()
      requires Valid()
      modifies this, top
      ensures Valid() && model == CloseTo(old(model), 0)
    {
      while stack != []
        invariant Valid() && CloseTo(model, 0) == CloseTo(old(model), 0)
        decreases |stack|
      {
        PopFrame();
      }
    }

    // Leaves what the walk is no longer inside; the first entry under a root
    // opens the root's frame.
    method EnterAt(root: int, p: Path)
      requires Valid()
      modifies this, top
      ensures Valid() && model == Enter(old(model), root, p) && stack != []
    {
      if root != curRoot {
        CloseAll();
        curRoot := root;
        model := model.(root := root);
      }
      LeaveTo(p);
      if stack == [] {
        var parent := if p == [] then [] else p[..|p| - 1];
        PushFrame(EfFrame(parent, 0, NO_JUNK, true, false, [], 0), Frame(parent, 0, NO_JUNK, true, false, []));
      }
    }

    method Visit(e: Event)
      requires Valid() && !e.Unreadable?
      modifies this, top
      ensures Valid() && model == Step(old(model), e)
    {
      EnterAt(e.root, e.path);
      if e.VisitDir? {
        PushFrame(EfFrame(e.path, e.mod, NO_JUNK, false, false, [], 0),
                  Frame(e.path, e.mod, NO_JUNK, false, false, []));
      } else if !e.junk {
        MarkTopHasFile();
      } else if !stack[|stack| - 1].hasFile {
        var f, j := stack[|stack| - 1], AddJunk(stack[|stack| - 1].junk, Base(e.path), e.size);
        SetTopFrame(f.(junk := j), Top(model).(junk := j));
      }
    }

    method NoteUnreadable(p: Path)
      requires Valid()
      modifies this, top
      ensures Valid() && model == Step(old(model), Unreadable(p))
    {
      LeaveTo(p);
      if stack != [] { MarkTopHasFile(); }
    }

    // Closes the remaining frames and returns the rows with the number left out.
    method Drain() returns (rows: seq<Folder>, left: nat)
      requires Valid()
      modifies this, top
      ensures
        var c := CloseTo(old(model), 0);
        rows == Take(Sort(FolderBefore, c.out), FOLDER_CAP) && |rows| + left == |c.out| + |c.lost|
    {
      CloseAll();
      var over;
      rows, over := top.Final();
      left := over + dropped;
    }
  }

  method WalkAll(es: seq<Event>) returns (scan: EmptyFolderScan)
    ensures fresh(scan) && fresh(scan.top) && scan.Valid() && scan.model == Run(Start(), es)
  {
    scan := new EmptyFolderScan();
    var i := 0;
    assert es[0..] == es;
    while i < |es|
      invariant 0 <= i <= |es|
      invariant scan.Valid() && fresh(scan) && fresh(scan.top)
      invariant Run(scan.model, es[i..]) == Run(Start(), es)
    {
      assert es[i..][0] == es[i] && es[i..][1..] == es[i + 1..];
      Accept(scan, es[i]);
      i := i + 1;
    }
  }

  method Accept(scan: EmptyFolderScan, e: Event)
    requires scan.Valid()
    modifies scan, scan.top
    ensures scan.Valid() && scan.model == Step(old(scan.model), e)
  {
    if e.Unreadable? { scan.NoteUnreadable(e.path); } else { scan.Visit(e); }
  }

  lemma DrainedRows(roots: seq<Root>, rows: seq<Folder>, left: nat)
    requires WellFormedRoots(roots) && RootsApart(roots)
    requires var c := CloseTo(Run(Start(), WalkForest(roots)), 0);
      rows == Take(Sort(FolderBefore, c.out), FOLDER_CAP) && |rows| + left == |c.out| + |c.lost|
    ensures TieFree(FolderBefore, TopForest(roots)) ==> rows == Take(Sort(FolderBefore, TopForest(roots)), FOLDER_CAP)
    ensures |rows| + left == |TopForest(roots)|
  {
    var c := CloseTo(Run(Start(), WalkForest(roots)), 0);
    ScanFindsTopmost(roots);
    if TieFree(FolderBefore, TopForest(roots)) { KeptAreFirst(roots, c); }
    assert |multiset(c.out) + multiset(c.lost)| == |multiset(TopForest(roots))|;
  }

  // A whole scan: every topmost empty folder is listed or counted, and with roots
  // outside one another, or wherever no two rows tie, the listed ones are the first
  // FOLDER_CAP by path.
  method ScanFolders(roots: seq<Root>) returns (rows: seq<Folder>, left: nat)
    requires WellFormedRoots(roots) && RootsApart(roots)
    ensures RootsDisjoint(roots) || TieFree(FolderBefore, TopForest(roots)) ==>
              rows == Take(Sort(FolderBefore, TopForest(roots)), FOLDER_CAP)
    ensures |rows| + left == |TopForest(roots)|
  {
    var scan := WalkAll(WalkForest(roots));
    rows, left := scan.Drain();
    DrainedRows(roots, rows, left);
    if RootsDisjoint(roots) { ForestTieFree(roots); }
  }
}
