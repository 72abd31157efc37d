// The reclaimable figure of a duplicate group (server/results.go, groupReclaim)
// against what moving its copies frees, and when it promises more.
module Reclaim {
  import opened Copies

  // A listed row: the inode behind it and how many names that has, for a file of
  // several; what it occupies on disk; whether a reference folder protects its name.
  datatype Row = Row(ino: string, links: nat, phys: nat, prot: bool)

  // A physical copy: an inode, or a row of its own.
  datatype Copy = Inode(ino: string) | Alone(row: nat)

  function CopyOf(files: seq<Row>, i: nat): Copy
    requires i < |files|
  {
    if files[i].ino != "" then Inode(files[i].ino) else Alone(i)
  }

  // The row a copy is counted at.
  predicate First(files: seq<Row>, i: nat)
    requires i < |files|
  {
    forall j :: 0 <= j < i ==> CopyOf(files, j) != CopyOf(files, i)
  }

  // What the copies that are not kept occupy, over the first n rows.
  function Freed(files: seq<Row>, kept: set<Copy>, n: nat): nat
    requires n <= |files|
  {
    if n == 0 then 0
    else Freed(files, kept, n - 1)
         + if First(files, n - 1) && CopyOf(files, n - 1) !in kept then files[n - 1].phys else 0
  }

  // How many of the first n rows name the copy.
  function Names(files: seq<Row>, c: Copy, n: nat): nat
    requires n <= |files|
  {
    if n == 0 then 0 else Names(files, c, n - 1) + if CopyOf(files, n - 1) == c then 1 else 0
  }

  // The file has a name that is not listed: moving those that are frees nothing.
  predicate Outside(files: seq<Row>, i: nat)
    requires i < |files|
  {
    files[i].ino != "" && files[i].links > Names(files, CopyOf(files, i), |files|)
  }

  // What moving every listed name of the copies that are not kept frees.
  function Delivered(files: seq<Row>, kept: set<Copy>, n: nat): nat
    requires n <= |files|
  {
    if n == 0 then 0
    else Delivered(files, kept, n - 1)
         + (if First(files, n - 1) && CopyOf(files, n - 1) !in kept && !Outside(files, n - 1)
            then files[n - 1].phys else 0)
  }

  // And what it does not, for the names elsewhere.
  function Beyond(files: seq<Row>, kept: set<Copy>, n: nat): nat
    requires n <= |files|
  {
    if n == 0 then 0
    else Beyond(files, kept, n - 1)
         + (if First(files, n - 1) && CopyOf(files, n - 1) !in kept && Outside(files, n - 1)
            then files[n - 1].phys else 0)
  }

  lemma {:induction false} FreedSplits(files: seq<Row>, kept: set<Copy>, n: nat)
    requires n <= |files|
    ensures Freed(files, kept, n) == Delivered(files, kept, n) + Beyond(files, kept, n)
  {
    if n > 0 { FreedSplits(files, kept, n - 1); }
  }

  lemma {:induction false} NothingBeyond(files: seq<Row>, kept: set<Copy>, n: nat)
    requires n <= |files|
    ensures Beyond(files, kept, n) == 0 <==>
              forall i :: 0 <= i < n && First(files, i) && CopyOf(files, i) !in kept && Outside(files, i) ==>
                files[i].phys == 0
  {
    if n > 0 { NothingBeyond(files, kept, n - 1); }
  }

  // The copies a protected name keeps in place.
  function Protected(files: seq<Row>): set<Copy> {
    set i: nat | i < |files| && files[i].prot :: CopyOf(files, i)
  }

  function Biggest(files: seq<Row>, kept: set<Copy>, n: nat): nat
    requires n <= |files|
  {
    if n == 0 then 0
    else
      var m := Biggest(files, kept, n - 1);
      var i := n - 1;
      if First(files, i) && CopyOf(files, i) !in kept && files[i].phys > m then files[i].phys else m
  }

  function Figure(files: seq<Row>): nat
    requires Protected(files) == {} ==> Biggest(files, {}, |files|) <= Freed(files, {}, |files|)
  {
    if Protected(files) != {} then Freed(files, Protected(files), |files|)
    else Freed(files, {}, |files|) - Biggest(files, {}, |files|)
  }

  lemma {:induction false} BiggestIsFreed(files: seq<Row>, kept: set<Copy>, n: nat)
    requires n <= |files|
    ensures Biggest(files, kept, n) <= Freed(files, kept, n)
  {
    if n > 0 { BiggestIsFreed(files, kept, n - 1); }
  }

  lemma {:induction false} BiggestBounds(files: seq<Row>, n: nat, i: nat)
    requires i < n <= |files| && First(files, i)
    ensures files[i].phys <= Biggest(files, {}, n)
  {
    if i < n - 1 { BiggestBounds(files, n - 1, i); }
  }

  lemma {:induction false} BiggestIsOne(files: seq<Row>, n: nat) returns (i: nat)
    requires 0 < n <= |files|
    ensures i < n && First(files, i) && files[i].phys == Biggest(files, {}, n)
  {
    if n == 1 {
      i := 0;
    } else {
      i := BiggestIsOne(files, n - 1);
      if First(files, n - 1) && files[n - 1].phys > files[i].phys { i := n - 1; }
    }
  }

  // Keeping one copy costs exactly that copy.
  lemma {:induction false} KeepingOne(files: seq<Row>, i: nat, n: nat)
    requires i < |files| && First(files, i) && n <= |files|
    ensures Freed(files, {CopyOf(files, i)}, n) + (if i < n then files[i].phys else 0) == Freed(files, {}, n)
  {
    if n > 0 { KeepingOne(files, i, n - 1); }
  }

  lemma {:induction false} FirstRow(files: seq<Row>, i: nat) returns (j: nat)
    requires i < |files|
    ensures j <= i && First(files, j) && CopyOf(files, j) == CopyOf(files, i)
    decreases i
  {
    if k: nat :| k < i && CopyOf(files, k) == CopyOf(files, i) {
      j := FirstRow(files, k);
    } else {
      j := i;
    }
  }

  // groupReclaim.
  method GroupReclaim(files: seq<Row>) returns (figure: nat)
    ensures Protected(files) == {} ==> Biggest(files, {}, |files|) <= Freed(files, {}, |files|)
    ensures figure == Figure(files)
  {
    var keptIno: set<string>, keptRow: set<nat> := {}, {};
    for i := 0 to |files|
      invariant forall s :: s in keptIno <==> s != "" && exists j :: 0 <= j < i && files[j].prot && files[j].ino == s
      invariant forall k: nat :: k in keptRow <==> k < i && files[k].prot && files[k].ino == ""
    {
      if files[i].prot {
        if files[i].ino != "" { keptIno := keptIno + {files[i].ino}; } else { keptRow := keptRow + {i}; }
      }
    }
    ghost var kept := Protected(files);
    var seen: set<string>, sum, largest, anyKept := {}, 0, 0, false;
    for i := 0 to |files|
      invariant forall s :: s in seen <==> s != "" && exists j :: 0 <= j < i && files[j].ino == s
      invariant sum == Freed(files, kept, i) && largest == Biggest(files, kept, i)
      invariant anyKept == exists j: nat :: j < i && CopyOf(files, j) in kept
    {
      var f := files[i];
      KeptMeans(files, i, keptIno, keptRow);
      SeenMeans(files, i, seen);
      if f.ino != "" {
        if f.ino in seen {
          SeenBefore(files, i);
          continue;
        }
        seen := seen + {f.ino};
        if f.ino in keptIno {
          anyKept := true;
          continue;
        }
      } else if i in keptRow {
        anyKept := true;
        continue;
      }
      sum := sum + f.phys;
      if f.phys > largest { largest := f.phys; }
    }
    BiggestIsFreed(files, {}, |files|);
    if anyKept { return sum; }
    assert kept == {};
    return sum - largest;
  }

  lemma KeptMeans(files: seq<Row>, i: nat, keptIno: set<string>, keptRow: set<nat>)
    requires i < |files|
    requires forall s :: s in keptIno <==> s != "" && exists j :: 0 <= j < |files| && files[j].prot && files[j].ino == s
    requires forall k: nat :: k in keptRow <==> k < |files| && files[k].prot && files[k].ino == ""
    ensures CopyOf(files, i) in Protected(files) <==>
              if files[i].ino != "" then files[i].ino in keptIno else i in keptRow
  {
    if files[i].ino in keptIno {
      var j :| 0 <= j < |files| && files[j].prot && files[j].ino == files[i].ino;
      assert CopyOf(files, j) == CopyOf(files, i);
    }
  }

  lemma SeenMeans(files: seq<Row>, i: nat, seen: set<string>)
    requires i < |files|
    requires forall s :: s in seen <==> s != "" && exists j :: 0 <= j < i && files[j].ino == s
    ensures First(files, i) <==> files[i].ino == "" || files[i].ino !in seen
  {
    if files[i].ino in seen {
      var j :| 0 <= j < i && files[j].ino == files[i].ino;
      assert CopyOf(files, j) == CopyOf(files, i);
    }
  }

  lemma SeenBefore(files: seq<Row>, i: nat)
    requires i < |files| && !First(files, i)
    ensures exists j: nat :: j < i && CopyOf(files, j) == CopyOf(files, i)
  {
  }

  // Whichever one copy stays of a group nothing protects, the others occupy at
  // least the figure, and exactly it when no copy is larger. Moving them frees as
  // much exactly when those with a name elsewhere occupy no more than the largest
  // copy does beyond the one that stays.
  lemma NeverOverstates(files: seq<Row>, i: nat)
    requires i < |files| && Protected(files) == {}
    ensures Biggest(files, {}, |files|) <= Freed(files, {}, |files|)
    ensures Figure(files) <= Freed(files, {CopyOf(files, i)}, |files|)
    ensures First(files, i) ==> OneStays(files, i)
  {
    BiggestIsFreed(files, {}, |files|);
    var k := FirstRow(files, i);
    FreedSplits(files, {CopyOf(files, k)}, |files|);
    KeepingOne(files, k, |files|);
    BiggestBounds(files, |files|, k);
    var b := BiggestIsOne(files, |files|);
    forall j | 0 <= j < |files| && First(files, j) ensures files[j].phys <= Biggest(files, {}, |files|) {
      BiggestBounds(files, |files|, j);
    }
    if First(files, i) { assert k == i; }
  }

  // What the figure is worth when the copy first listed at i stays.
  ghost predicate OneStays(files: seq<Row>, i: nat)
    requires i < |files| && Biggest(files, {}, |files|) <= Freed(files, {}, |files|)
  {
    var kept := {CopyOf(files, i)};
    var slack := Biggest(files, {}, |files|) - files[i].phys;
    && slack >= 0
    && (Figure(files) == Freed(files, kept, |files|) <==>
        forall j :: 0 <= j < |files| && First(files, j) ==> files[j].phys <= files[i].phys)
    && (Figure(files) <= Delivered(files, kept, |files|) <==> Beyond(files, kept, |files|) <= slack)
    && (Figure(files) == Delivered(files, kept, |files|) <==> Beyond(files, kept, |files|) == slack)
  }

  // With no name elsewhere it never promises more.
  lemma AllListed(files: seq<Row>, i: nat)
    requires i < |files| && First(files, i) && Protected(files) == {}
    requires forall j :: 0 <= j < |files| && First(files, j) ==> !Outside(files, j)
    ensures Biggest(files, {}, |files|) <= Freed(files, {}, |files|)
    ensures Figure(files) <= Delivered(files, {CopyOf(files, i)}, |files|)
  {
    NothingBeyond(files, {CopyOf(files, i)}, |files|);
    NeverOverstates(files, i);
  }

  // Among copies of one size, two or more, that is the only way: whichever stays
  // the figure is delivered exactly when no file has more names than are listed.
  lemma EqualSizesIff(files: seq<Row>, p: nat, a: nat, b: nat)
    requires p > 0 && (forall i :: 0 <= i < |files| ==> files[i].phys == p) && Protected(files) == {}
    requires a < b < |files| && First(files, a) && First(files, b)
    ensures Biggest(files, {}, |files|) <= Freed(files, {}, |files|)
    ensures (forall i :: 0 <= i < |files| && First(files, i) ==>
               Figure(files) <= Delivered(files, {CopyOf(files, i)}, |files|)) <==>
            (forall i :: 0 <= i < |files| && First(files, i) ==> !Outside(files, i))
  {
    NeverOverstates(files, a);
    if o: nat :| o < |files| && First(files, o) && Outside(files, o) {
      var k := if o == a then b else a;
      assert CopyOf(files, o) !in {CopyOf(files, k)} by { Distinct(files, o, k); }
      NothingBeyond(files, {CopyOf(files, k)}, |files|);
      NeverOverstates(files, k);
      BiggestIsOneOf(files, p);
    } else {
      forall i | 0 <= i < |files| && First(files, i)
        ensures Figure(files) <= Delivered(files, {CopyOf(files, i)}, |files|)
      {
        AllListed(files, i);
      }
    }
  }

  lemma Distinct(files: seq<Row>, i: nat, j: nat)
    requires i < |files| && j < |files| && i != j && First(files, i) && First(files, j)
    ensures CopyOf(files, i) != CopyOf(files, j)
  {
  }

  lemma BiggestIsOneOf(files: seq<Row>, p: nat)
    requires files != [] && forall i :: 0 <= i < |files| ==> files[i].phys == p
    ensures Biggest(files, {}, |files|) == p
  {
    var b := BiggestIsOne(files, |files|);
  }

  // Two copies of p bytes, one with a second name where the scan did not look: the
  // figure is p, and moving that one frees nothing.
  lemma PromisesTooMuch(p: nat)
    requires p > 0
    ensures var files := [Row("i", 2, p, false), Row("", 0, p, false)];
      && Biggest(files, {}, |files|) <= Freed(files, {}, |files|)
      && Figure(files) == p && Delivered(files, {CopyOf(files, 1)}, |files|) == 0
  {
    var files := [Row("i", 2, p, false), Row("", 0, p, false)];
    var kept := {CopyOf(files, 1)};
    assert CopyOf(files, 0) == Inode("i") && CopyOf(files, 1) == Alone(1);
    assert First(files, 0) && First(files, 1);
    assert Names(files, Inode("i"), 1) == 1 && Names(files, Inode("i"), 2) == 1;
    assert Outside(files, 0);
    assert Freed(files, {}, 1) == p && Freed(files, {}, 2) == 2 * p;
    assert Delivered(files, kept, 1) == 0 && Delivered(files, kept, 2) == 0;
    assert Protected(files) == {};
    BiggestIsOneOf(files, p);
  }

  // With protected names the copies behind them stay, all of them, and the rest
  // occupy exactly the figure; any further copy kept leaves less. Moving the rest
  // frees it exactly when none of them that occupies anything has a name elsewhere.
  lemma ProtectedFigure(files: seq<Row>, kept: set<Copy>)
    requires Protected(files) != {} && Protected(files) <= kept
    ensures Figure(files) >= Freed(files, kept, |files|)
    ensures kept == Protected(files) ==> Figure(files) == Freed(files, kept, |files|)
    ensures Figure(files) == Delivered(files, Protected(files), |files|) + Beyond(files, Protected(files), |files|)
    ensures Figure(files) <= Delivered(files, Protected(files), |files|) <==>
              forall i :: 0 <= i < |files| && First(files, i) && CopyOf(files, i) !in Protected(files) ==>
                Outside(files, i) ==> files[i].phys == 0
  {
    KeepingMore(files, Protected(files), kept, |files|);
    FreedSplits(files, Protected(files), |files|);
    NothingBeyond(files, Protected(files), |files|);
  }

  lemma {:induction false} KeepingMore(files: seq<Row>, a: set<Copy>, b: set<Copy>, n: nat)
    requires a <= b && n <= |files|
    ensures Freed(files, b, n) <= Freed(files, a, n)
  {
    if n > 0 { KeepingMore(files, a, b, n - 1); }
  }

  // ------------------------------------------- the display and the scan figure

  // The rows of a scanned group: the same copies, told apart by their links.
  ghost predicate RowsOf(files: seq<Row>, raw: seq<RawFile>) {
    && |files| == |raw|
    && (forall i :: 0 <= i < |raw| ==>
          (files[i].phys == raw[i].phys && !files[i].prot && (files[i].ino != "" <==> Shared(raw[i].link))))
    && forall i, j :: 0 <= i < |raw| && 0 <= j < |raw| && Shared(raw[i].link) && Shared(raw[j].link) ==>
         (files[i].ino == files[j].ino <==> raw[i].link == raw[j].link)
  }

  function LinksBefore(raw: seq<RawFile>, n: nat): set<Link>
    requires n <= |raw|
  {
    set i: nat | i < n && Shared(raw[i].link) :: raw[i].link
  }

  // done: what the first n rows give; rest: what copyPhys lists after them.
  ghost predicate Adds(files: seq<Row>, n: nat, rest: seq<nat>)
    requires n <= |files|
  {
    && Freed(files, {}, n) + Sum(rest) == Freed(files, {}, |files|)
    && Biggest(files, {}, |files|)
       == if Largest(rest) > Biggest(files, {}, n) then Largest(rest) else Biggest(files, {}, n)
  }

  lemma AddsStep(files: seq<Row>, n: nat, next: seq<nat>)
    requires n < |files| && Adds(files, n + 1, next)
    ensures Adds(files, n, if First(files, n) then [files[n].phys] + next else next)
  {
    assert ([files[n].phys] + next)[1..] == next;
  }

  lemma {:induction false} SameCopies(files: seq<Row>, raw: seq<RawFile>, n: nat)
    requires RowsOf(files, raw) && n <= |raw|
    ensures Adds(files, n, CopyPhysFrom(raw[n..], LinksBefore(raw, n)))
    decreases |raw| - n
  {
    if n == |raw| {
      assert raw[n..] == [];
    } else {
      SameCopies(files, raw, n + 1);
      AddsStep(files, n, CopyPhysFrom(raw[n + 1..], LinksBefore(raw, n + 1)));
      FirstMeans(files, raw, n);
      LinksNext(raw, n);
      CopyPhysNext(raw, n, LinksBefore(raw, n));
    }
  }

  lemma LinksNext(raw: seq<RawFile>, n: nat)
    requires n < |raw|
    ensures LinksBefore(raw, n + 1)
            == if Shared(raw[n].link) then LinksBefore(raw, n) + {raw[n].link} else LinksBefore(raw, n)
    ensures raw[n].link in LinksBefore(raw, n) ==> LinksBefore(raw, n + 1) == LinksBefore(raw, n)
  {
  }

  lemma CopyPhysNext(raw: seq<RawFile>, n: nat, seen: set<Link>)
    requires n < |raw|
    ensures var l := raw[n].link;
      CopyPhysFrom(raw[n..], seen) ==
        if Shared(l) && l in seen then CopyPhysFrom(raw[n + 1..], seen)
        else [raw[n].phys] + CopyPhysFrom(raw[n + 1..], if Shared(l) then seen + {l} else seen)
  {
    assert raw[n..][1..] == raw[n + 1..] && raw[n..][0] == raw[n];
  }

  lemma FirstMeans(files: seq<Row>, raw: seq<RawFile>, i: nat)
    requires RowsOf(files, raw) && i < |raw|
    ensures First(files, i) <==> !(Shared(raw[i].link) && raw[i].link in LinksBefore(raw, i))
  {
    if Shared(raw[i].link) && raw[i].link in LinksBefore(raw, i) {
      var j: nat :| j < i && Shared(raw[j].link) && raw[j].link == raw[i].link;
      assert CopyOf(files, j) == CopyOf(files, i);
    } else {
      forall j | 0 <= j < i ensures CopyOf(files, j) != CopyOf(files, i) {
        if Shared(raw[j].link) { assert raw[j].link in LinksBefore(raw, i); }
      }
    }
  }

  // With nothing protected, the figure on display is the one groups are ranked by.
  lemma DisplayIsScanFigure(files: seq<Row>, raw: seq<RawFile>)
    requires RowsOf(files, raw)
    ensures Biggest(files, {}, |files|) <= Freed(files, {}, |files|)
    ensures Figure(files) == ReclaimPhys(CopyPhys(raw))
  {
    BiggestIsFreed(files, {}, |files|);
    SameCopies(files, raw, 0);
    assert raw[0..] == raw && LinksBefore(raw, 0) == {};
    assert Protected(files) == {};
  }
}
