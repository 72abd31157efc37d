// Which copy of each duplicate group a move request must hold back
// (server/move.go, keepOneDropsWhy), and what that guarantees.
module KeepOne {
  import opened Options
  import opened Paths

  datatype Row = Row(path: Path, hash: string)
  datatype Group = Group(hash: string, rows: seq<Row>)

  function RowPaths(rows: seq<Row>): (ps: seq<Path>)
    ensures |ps| == |rows| && forall i :: 0 <= i < |rows| ==> ps[i] == rows[i].path
  {
    seq(|rows|, i requires 0 <= i < |rows| => rows[i].path)
  }

  // Results from older builds carry the hash on the rows only.
  function ContentHash(g: Group): string {
    if g.hash == "" && g.rows != [] then g.rows[0].hash else g.hash
  }

  // What a request is weighed against. present is File Station's view of which
  // members are still there as scanned, isOut the copies moved earlier; with
  // verify on, intact says whether a copy read now still has a content hash.
  datatype Vetting = Vetting(requested: set<Path>, refs: set<Path>, present: set<Path>,
                             isOut: Path -> bool, verify: bool, intact: (Path, string) -> bool)
  {
    predicate Stays(p: Path) { p !in requested || IsUnder(p, refs) }

    predicate Original(p: Path) { !isOut(p) }

    predicate Holds(p: Path, h: string) { !verify || h == "" || intact(p, h) }

    // An original is left on disk: one asked for, or one that stays and holds
    // the content.
    predicate AnyOriginal(ps: seq<Path>, h: string) {
      exists i :: 0 <= i < |ps| && CountedOriginal(ps[i], h)
    }

    predicate CountedOriginal(p: Path, h: string) {
      p in present && Original(p) && (Stays(p) ==> Holds(p, h))
    }

    predicate Counts(ps: seq<Path>, h: string, p: Path) {
      AnyOriginal(ps, h) ==> Original(p)
    }

    predicate Survivor(ps: seq<Path>, h: string, p: Path) {
      Stays(p) && p in present && Counts(ps, h, p) && Holds(p, h)
    }

    predicate Survives(ps: seq<Path>, h: string) {
      exists i :: 0 <= i < |ps| && Survivor(ps, h, ps[i])
    }

    predicate Candidate(ps: seq<Path>, h: string, p: Path) {
      !Stays(p) && Counts(ps, h, p)
    }

    // How good a copy is to hold back.
    function Grade(p: Path, h: string): nat {
      if p in present then
        if Holds(p, h) then (if Original(p) then 5 else 4)
        else if Original(p) then 3 else 2
      else if Original(p) then 1 else 0
    }

    // The best candidate; among equals the last.
    predicate Best(ps: seq<Path>, h: string, k: nat) {
      && k < |ps| && Candidate(ps, h, ps[k])
      && forall j :: 0 <= j < |ps| && Candidate(ps, h, ps[j]) ==>
           Grade(ps[j], h) < Grade(ps[k], h) || (Grade(ps[j], h) == Grade(ps[k], h) && j <= k)
    }

    predicate HeldIn(ps: seq<Path>, h: string, p: Path) {
      !Survives(ps, h) && exists k :: 0 <= k < |ps| && Best(ps, h, k) && ps[k] == p
    }

    // Why it is held, when the plain reason would mislead.
    predicate StaleCopyStays(ps: seq<Path>, h: string) {
      exists i :: 0 <= i < |ps| && Stays(ps[i]) && ps[i] in present && Counts(ps, h, ps[i])
    }

    predicate MovedCopyStays(ps: seq<Path>, h: string) {
      exists i :: 0 <= i < |ps| && Stays(ps[i]) && ps[i] in present && !Counts(ps, h, ps[i])
    }

    predicate Held(g: Group, p: Path) { HeldIn(RowPaths(g.rows), ContentHash(g), p) }
    predicate HeldStale(g: Group, p: Path) {
      Held(g, p) && StaleCopyStays(RowPaths(g.rows), ContentHash(g))
    }
    predicate HeldOut(g: Group, p: Path) {
      && Held(g, p)
      && !StaleCopyStays(RowPaths(g.rows), ContentHash(g)) && MovedCopyStays(RowPaths(g.rows), ContentHash(g))
    }

    // The held-back set is exactly the best candidate of every group that would
    // otherwise keep no counted copy.
    ghost predicate IsDrops(groups: seq<Group>, drops: set<Path>) {
      forall p :: p in drops <==> exists g :: g in groups && Held(g, p)
    }
  }

  // ------------------------------------------------- the choice, tier by tier

  function Reverse<T>(s: seq<T>): (r: seq<T>)
    ensures |r| == |s|
  {
    if s == [] then [] else [s[|s| - 1]] + Reverse(s[..|s| - 1])
  }

  // The members f admits, last first.
  function Backwards(ps: seq<Path>, f: Path -> bool): seq<Path> {
    if ps == [] then []
    else
      var n := |ps| - 1;
      (if f(ps[n]) then [ps[n]] else []) + Backwards(ps[..n], f)
  }

  function First(s: seq<Path>, want: Path -> bool): Option<Path> {
    if s == [] then None else if want(s[0]) then Some(s[0]) else First(s[1..], want)
  }

  // o is the last member satisfying both, if there is one.
  ghost predicate LastMatch(ps: seq<Path>, f: Path -> bool, want: Path -> bool, o: Option<Path>) {
    match o
    case None => forall j :: 0 <= j < |ps| ==> !(f(ps[j]) && want(ps[j]))
    case Some(p) => exists k :: 0 <= k < |ps| && ps[k] == p && f(p) && want(p)
                      && forall j :: k < j < |ps| ==> !(f(ps[j]) && want(ps[j]))
  }

  lemma {:induction false} FirstOfBackwards(ps: seq<Path>, f: Path -> bool, want: Path -> bool)
    ensures LastMatch(ps, f, want, First(Backwards(ps, f), want))
  {
    if ps != [] {
      var n := |ps| - 1;
      var rest := Backwards(ps[..n], f);
      FirstOfBackwards(ps[..n], f, want);
      var o := First(rest, want);
      assert LastMatch(ps[..n], f, want, o);
      FirstConcat(if f(ps[n]) then [ps[n]] else [], rest, want);
      if f(ps[n]) && want(ps[n]) {
        assert First([ps[n]], want) == Some(ps[n]);
      } else {
        MatchEarlier(ps, f, want, o);
      }
    }
  }

  lemma MatchEarlier(ps: seq<Path>, f: Path -> bool, want: Path -> bool, o: Option<Path>)
    requires ps != [] && !(f(ps[|ps| - 1]) && want(ps[|ps| - 1]))
    requires LastMatch(ps[..|ps| - 1], f, want, o)
    ensures LastMatch(ps, f, want, o)
  {
    var n := |ps| - 1;
    assert forall j :: 0 <= j < n ==> ps[..n][j] == ps[j];
    if o.None? {
      forall j | 0 <= j < |ps| ensures !(f(ps[j]) && want(ps[j])) {
        if j < n { assert ps[..n][j] == ps[j]; }
      }
    }
  }

  lemma {:induction false} FirstConcat(a: seq<Path>, b: seq<Path>, want: Path -> bool)
    ensures First(a + b, want) == if First(a, want).Some? then First(a, want) else First(b, want)
  {
    if a == [] {
      assert a + b == b;
    } else {
      assert (a + b)[1..] == a[1..] + b;
      FirstConcat(a[1..], b, want);
    }
  }

  lemma {:induction false} FirstSkips(s: seq<Path>, i: nat, want: Path -> bool)
    requires i <= |s| && forall j :: 0 <= j < i ==> !want(s[j])
    ensures First(s, want) == First(s[i..], want)
  {
    if i > 0 {
      FirstSkips(s[1..], i - 1, want);
      assert s[1..][i - 1..] == s[i..];
    }
  }

  // tier is what the loop appended for f, so its reversal is Backwards.
  ghost predicate Tier(ps: seq<Path>, f: Path -> bool, tier: seq<Path>) {
    Reverse(tier) == Backwards(ps, f)
  }

  lemma TierStep(ps: seq<Path>, i: nat, f: Path -> bool, tier: seq<Path>)
    requires i < |ps| && Tier(ps[..i], f, tier)
    ensures Tier(ps[..i + 1], f, if f(ps[i]) then tier + [ps[i]] else tier)
  {
    assert ps[..i + 1][..i] == ps[..i];
    assert (tier + [ps[i]])[..|tier|] == tier;
  }

  lemma ReverseNext(r: seq<Path>, t: seq<Path>, i: nat)
    requires 0 < i <= |t|
    ensures r + Reverse(t[..i]) == (r + [t[i - 1]]) + Reverse(t[..i - 1])
  {
    assert t[..i][..i - 1] == t[..i - 1];
  }

  method Backward(t: seq<Path>) returns (r: seq<Path>)
    ensures r == Reverse(t)
  {
    r := [];
    var i := |t|;
    assert t[..i] == t;
    while i > 0
      invariant 0 <= i <= |t|
      invariant r + Reverse(t[..i]) == Reverse(t)
    {
      ReverseNext(r, t, i);
      i := i - 1;
      r := r + [t[i]];
    }
  }

  // The four tiers: an existing original, any existing copy, an original, any
  // copy.
  function TierTest(v: Vetting, ps: seq<Path>, h: string, k: nat): Path -> bool {
    p => v.Candidate(ps, h, p) && (k < 2 ==> p in v.present) && (k % 2 == 0 ==> v.Original(p))
  }

  function InOrder(v: Vetting, ps: seq<Path>, h: string): seq<Path> {
    Backwards(ps, TierTest(v, ps, h, 0)) + Backwards(ps, TierTest(v, ps, h, 1))
    + Backwards(ps, TierTest(v, ps, h, 2)) + Backwards(ps, TierTest(v, ps, h, 3))
  }

  function Good(v: Vetting, h: string): Path -> bool {
    p => p in v.present && v.Holds(p, h)
  }

  function Any(): Path -> bool { p => true }

  lemma OfTier(v: Vetting, ps: seq<Path>, h: string, k: nat, want: Path -> bool) returns (o: Option<Path>)
    requires k < 4
    ensures o == First(Backwards(ps, TierTest(v, ps, h, k)), want)
    ensures LastMatch(ps, TierTest(v, ps, h, k), want, o)
  {
    FirstOfBackwards(ps, TierTest(v, ps, h, k), want);
    o := First(Backwards(ps, TierTest(v, ps, h, k)), want);
  }

  lemma FirstInOrder(v: Vetting, ps: seq<Path>, h: string, want: Path -> bool)
    ensures First(InOrder(v, ps, h), want)
      == var a := First(Backwards(ps, TierTest(v, ps, h, 0)), want); if a.Some? then a else
         var b := First(Backwards(ps, TierTest(v, ps, h, 1)), want); if b.Some? then b else
         var c := First(Backwards(ps, TierTest(v, ps, h, 2)), want); if c.Some? then c else
         First(Backwards(ps, TierTest(v, ps, h, 3)), want)
  {
    var b0, b1 := Backwards(ps, TierTest(v, ps, h, 0)), Backwards(ps, TierTest(v, ps, h, 1));
    var b2, b3 := Backwards(ps, TierTest(v, ps, h, 2)), Backwards(ps, TierTest(v, ps, h, 3));
    FirstConcat(b0 + b1 + b2, b3, want);
    FirstConcat(b0 + b1, b2, want);
    FirstConcat(b0, b1, want);
  }

  // A candidate that is there and holds the content is found first, and it is
  // the best one.
  lemma GoodPick(v: Vetting, ps: seq<Path>, h: string)
    ensures var o := First(InOrder(v, ps, h), Good(v, h));
      if o.Some? then exists k :: 0 <= k < |ps| && v.Best(ps, h, k) && ps[k] == o.value
      else forall j :: 0 <= j < |ps| && v.Candidate(ps, h, ps[j]) ==> v.Grade(ps[j], h) <= 3
  {
    FirstInOrder(v, ps, h, Good(v, h));
    var a := OfTier(v, ps, h, 0, Good(v, h));
    var b := OfTier(v, ps, h, 1, Good(v, h));
    var c := OfTier(v, ps, h, 2, Good(v, h));
    var d := OfTier(v, ps, h, 3, Good(v, h));
    if a.None? && b.None? {
      assert forall j :: 0 <= j < |ps| && v.Candidate(ps, h, ps[j]) ==>
          !(TierTest(v, ps, h, 1)(ps[j]) && Good(v, h)(ps[j]));
    }
  }

  // Otherwise the first of the highest tier is.
  lemma AnyPick(v: Vetting, ps: seq<Path>, h: string)
    requires !v.verify || First(InOrder(v, ps, h), Good(v, h)).None?
    ensures var o := First(InOrder(v, ps, h), Any());
      if o.Some? then exists k :: 0 <= k < |ps| && v.Best(ps, h, k) && ps[k] == o.value
      else forall j :: 0 <= j < |ps| ==> !v.Candidate(ps, h, ps[j])
  {
    GoodPick(v, ps, h);
    FirstInOrder(v, ps, h, Any());
    var a := OfTier(v, ps, h, 0, Any());
    var b := OfTier(v, ps, h, 1, Any());
    var c := OfTier(v, ps, h, 2, Any());
    var d := OfTier(v, ps, h, 3, Any());
  }

  // ------------------------------------------------------------- the passes

  // Is an original still on disk? stale: a staying one was read and failed.
  method FindOriginal(v: Vetting, ps: seq<Path>, h: string) returns (any: bool, stale: bool)
    ensures any == v.AnyOriginal(ps, h)
    ensures stale ==> exists i :: 0 <= i < |ps| && v.Stays(ps[i]) && ps[i] in v.present && v.Original(ps[i])
    ensures stale && any ==> v.Survives(ps, h)
  {
    any, stale := false, false;
    for i := 0 to |ps|
      invariant forall j :: 0 <= j < i ==> v.Stays(ps[j]) || ps[j] !in v.present || !v.Original(ps[j])
    {
      if !v.Stays(ps[i]) && ps[i] in v.present && v.Original(ps[i]) {
        return true, false;
      }
    }
    for i := 0 to |ps|
      invariant !any && forall j :: 0 <= j < i ==> !v.CountedOriginal(ps[j], h)
      invariant stale ==> exists i :: 0 <= i < |ps| && v.Stays(ps[i]) && ps[i] in v.present && v.Original(ps[i])
    {
      if v.Stays(ps[i]) && ps[i] in v.present && v.Original(ps[i]) {
        if v.Holds(ps[i], h) {
          any := true;
          assert v.CountedOriginal(ps[i], h);
          assert v.Survivor(ps, h, ps[i]);
          return;
        }
        stale := true;
      }
    }
  }

  // The copies this request leaves in place.
  method WeighStaying(v: Vetting, ps: seq<Path>, h: string, anyOriginal: bool)
    returns (survives: bool, moved: bool, stale: bool)
    requires anyOriginal == v.AnyOriginal(ps, h)
    ensures survives == v.Survives(ps, h)
    ensures moved == v.MovedCopyStays(ps, h)
    ensures !survives ==> stale == v.StaleCopyStays(ps, h)
  {
    survives, moved, stale := false, false, false;
    for i := 0 to |ps|
      invariant survives == exists j :: 0 <= j < i && v.Survivor(ps, h, ps[j])
      invariant moved == exists j :: 0 <= j < i && v.Stays(ps[j]) && ps[j] in v.present && !v.Counts(ps, h, ps[j])
      invariant !survives ==>
                  stale == exists j :: 0 <= j < i && v.Stays(ps[j]) && ps[j] in v.present && v.Counts(ps, h, ps[j])
    {
      if v.Stays(ps[i]) && ps[i] in v.present {
        if anyOriginal && !v.Original(ps[i]) {
          moved := true;
        } else if !survives {
          if v.Holds(ps[i], h) { survives := true; } else { stale := true; }
        }
      }
    }
  }

  // The candidates, best tier first and the last of each tier first. A moved
  // copy may move again: it is no candidate while an original counts.
  method RankCandidates(v: Vetting, ps: seq<Path>, h: string, anyOriginal: bool) returns (cands: seq<Path>)
    requires anyOriginal == v.AnyOriginal(ps, h)
    ensures cands == InOrder(v, ps, h)
  {
    var t0, t1, t2, t3 := [], [], [], [];
    for i := 0 to |ps|
      invariant Tier(ps[..i], TierTest(v, ps, h, 0), t0) && Tier(ps[..i], TierTest(v, ps, h, 1), t1)
      invariant Tier(ps[..i], TierTest(v, ps, h, 2), t2) && Tier(ps[..i], TierTest(v, ps, h, 3), t3)
    {
      var p := ps[i];
      TierStep(ps, i, TierTest(v, ps, h, 0), t0);
      TierStep(ps, i, TierTest(v, ps, h, 1), t1);
      TierStep(ps, i, TierTest(v, ps, h, 2), t2);
      TierStep(ps, i, TierTest(v, ps, h, 3), t3);
      if !v.Stays(p) && (!anyOriginal || v.Original(p)) {
        if p in v.present && v.Original(p) { t0 := t0 + [p]; }
        if p in v.present { t1 := t1 + [p]; }
        if v.Original(p) { t2 := t2 + [p]; }
        t3 := t3 + [p];
      }
    }
    assert ps[..|ps|] == ps;
    var r0 := Backward(t0);
    var r1 := Backward(t1);
    var r2 := Backward(t2);
    var r3 := Backward(t3);
    cands := r0 + r1 + r2 + r3;
  }

  // The first candidate, or under verification the first that still holds the
  // content.
  method Pick(v: Vetting, ps: seq<Path>, h: string, cands: seq<Path>) returns (keep: Path)
    requires cands == InOrder(v, ps, h) && cands != []
    ensures exists k :: 0 <= k < |ps| && v.Best(ps, h, k) && ps[k] == keep
  {
    keep := cands[0];
    GoodPick(v, ps, h);
    if v.verify {
      for i := 0 to |cands|
        invariant forall j :: 0 <= j < i ==> !Good(v, h)(cands[j])
      {
        if cands[i] in v.present && v.Holds(cands[i], h) {
          FirstSkips(cands, i, Good(v, h));
          return cands[i];
        }
      }
      FirstSkips(cands, |cands|, Good(v, h));
    }
    AnyPick(v, ps, h);
    assert First(cands, Any()) == Some(cands[0]);
  }

  // The copy one group holds back, if any, and whether a reason is on record.
  method HoldBack(v: Vetting, g: Group) returns (keep: Option<Path>, stale: bool, moved: bool)
    ensures forall p :: v.Held(g, p) <==> keep == Some(p)
    ensures keep.Some? ==> stale == v.StaleCopyStays(RowPaths(g.rows), ContentHash(g))
    ensures keep.Some? ==> moved == v.MovedCopyStays(RowPaths(g.rows), ContentHash(g))
  {
    var ps, h := RowPaths(g.rows), ContentHash(g);
    var anyOriginal, stale0 := FindOriginal(v, ps, h);
    var survives, outStays, stale1 := WeighStaying(v, ps, h, anyOriginal);
    if survives { return None, false, false; }
    stale, moved := stale0 || stale1, outStays;
    var cands := RankCandidates(v, ps, h, anyOriginal);
    if cands == [] {
      AnyPick(v, ps, h);
      return None, false, false;
    }
    var p := Pick(v, ps, h, cands);
    keep := Some(p);
    HeldUnique(v, ps, h, p);
  }

  lemma BestUnique(v: Vetting, ps: seq<Path>, h: string, j: nat, k: nat)
    requires v.Best(ps, h, j) && v.Best(ps, h, k)
    ensures j == k
  {
    assert v.Candidate(ps, h, ps[j]) && v.Candidate(ps, h, ps[k]);
  }

  lemma HeldUnique(v: Vetting, ps: seq<Path>, h: string, p: Path)
    requires v.HeldIn(ps, h, p)
    ensures forall q :: v.HeldIn(ps, h, q) ==> q == p
  {
    var j :| 0 <= j < |ps| && v.Best(ps, h, j) && ps[j] == p;
    forall q | v.HeldIn(ps, h, q) ensures q == p {
      var k :| 0 <= k < |ps| && v.Best(ps, h, k) && ps[k] == q;
      BestUnique(v, ps, h, j, k);
    }
  }

  method KeepOneDropsWhy(v: Vetting, groups: seq<Group>)
    returns (drops: set<Path>, outHeld: set<Path>, staleHeld: set<Path>)
    ensures v.IsDrops(groups, drops)
    ensures forall p :: p in staleHeld <==> exists g :: g in groups && v.HeldStale(g, p)
    ensures forall p :: p in outHeld <==> exists g :: g in groups && v.HeldOut(g, p)
  {
    drops, outHeld, staleHeld := {}, {}, {};
    for n := 0 to |groups|
      invariant forall p :: p in drops <==> AnyHeld(v, groups, n, p)
      invariant forall p :: p in staleHeld <==> AnyHeldStale(v, groups, n, p)
      invariant forall p :: p in outHeld <==> AnyHeldOut(v, groups, n, p)
    {
      var keep, stale, moved := HoldBack(v, groups[n]);
      OneMoreGroup(v, groups, n);
      if keep.Some? {
        drops := drops + {keep.value};
        if stale {
          staleHeld := staleHeld + {keep.value};
        } else if moved {
          outHeld := outHeld + {keep.value};
        }
      }
    }
    AllGroups(v, groups);
  }

  ghost predicate AnyHeld(v: Vetting, groups: seq<Group>, n: nat, p: Path)
    requires n <= |groups|
  {
    exists i :: 0 <= i < n && v.Held(groups[i], p)
  }

  ghost predicate AnyHeldStale(v: Vetting, groups: seq<Group>, n: nat, p: Path)
    requires n <= |groups|
  {
    exists i :: 0 <= i < n && v.HeldStale(groups[i], p)
  }

  ghost predicate AnyHeldOut(v: Vetting, groups: seq<Group>, n: nat, p: Path)
    requires n <= |groups|
  {
    exists i :: 0 <= i < n && v.HeldOut(groups[i], p)
  }

  lemma OneMoreGroup(v: Vetting, groups: seq<Group>, n: nat)
    requires n < |groups|
    ensures forall p :: AnyHeld(v, groups, n + 1, p) <==> AnyHeld(v, groups, n, p) || v.Held(groups[n], p)
    ensures forall p ::
              AnyHeldStale(v, groups, n + 1, p) <==> AnyHeldStale(v, groups, n, p) || v.HeldStale(groups[n], p)
    ensures forall p :: AnyHeldOut(v, groups, n + 1, p) <==> AnyHeldOut(v, groups, n, p) || v.HeldOut(groups[n], p)
  {
  }

  lemma AllGroups(v: Vetting, groups: seq<Group>)
    ensures forall p :: AnyHeld(v, groups, |groups|, p) <==> exists g :: g in groups && v.Held(g, p)
    ensures forall p :: AnyHeldStale(v, groups, |groups|, p) <==> exists g :: g in groups && v.HeldStale(g, p)
    ensures forall p :: AnyHeldOut(v, groups, |groups|, p) <==> exists g :: g in groups && v.HeldOut(g, p)
  {
  }

  // ------------------------------------------------------- what is guaranteed

  // A group with a candidate and no counted survivor has a held copy.
  lemma {:induction false} BestExists(v: Vetting, ps: seq<Path>, h: string, n: nat) returns (k: nat)
    requires n < |ps| && v.Candidate(ps, h, ps[n])
    ensures v.Best(ps, h, k)
  {
    k := n;
    var i := 0;
    while i < |ps|
      invariant k < |ps| && 0 <= i <= |ps| && v.Candidate(ps, h, ps[k])
      invariant forall j :: 0 <= j < i && v.Candidate(ps, h, ps[j]) ==>
        v.Grade(ps[j], h) < v.Grade(ps[k], h) || (v.Grade(ps[j], h) == v.Grade(ps[k], h) && j <= k)
    {
      if v.Candidate(ps, h, ps[i]) && v.Grade(ps[i], h) >= v.Grade(ps[k], h)
        && !(v.Grade(ps[i], h) == v.Grade(ps[k], h) && i <= k) {
        k := i;
      }
      i := i + 1;
    }
  }

  predicate Kept(v: Vetting, drops: set<Path>, p: Path) { v.Stays(p) || p in drops }

  // Every group keeps a copy, and only a copy asked for is ever held back.
  lemma EveryGroupKeepsOne(v: Vetting, groups: seq<Group>, drops: set<Path>, g: Group)
    requires v.IsDrops(groups, drops) && g in groups && g.rows != []
    ensures exists i :: 0 <= i < |g.rows| && Kept(v, drops, g.rows[i].path)
    ensures forall p :: p in drops ==> !v.Stays(p)
  {
    var ps, h := RowPaths(g.rows), ContentHash(g);
    if v.Survives(ps, h) {
      var i :| 0 <= i < |ps| && v.Survivor(ps, h, ps[i]);
      assert Kept(v, drops, g.rows[i].path);
    } else if i :| 0 <= i < |ps| && v.Candidate(ps, h, ps[i]) {
      var k := BestExists(v, ps, h, i);
      assert v.Held(g, ps[k]);
      assert Kept(v, drops, g.rows[k].path);
    } else {
      assert Kept(v, drops, g.rows[0].path);
    }
  }

  // The copy that stays is the best kind there is: while an original is there
  // one stays, and while one of those holds the content such a one stays.
  lemma BestKindStays(v: Vetting, groups: seq<Group>, drops: set<Path>, g: Group, i: nat)
    requires v.IsDrops(groups, drops) && g in groups
    requires i < |g.rows| && g.rows[i].path in v.present && v.Original(g.rows[i].path)
    ensures exists j :: 0 <= j < |g.rows| && Kept(v, drops, g.rows[j].path)
              && g.rows[j].path in v.present && v.Original(g.rows[j].path)
              && (v.Holds(g.rows[i].path, ContentHash(g)) ==> v.Holds(g.rows[j].path, ContentHash(g)))
  {
    var ps, h, p := RowPaths(g.rows), ContentHash(g), g.rows[i].path;
    assert ps[i] == p;
    if v.Stays(p) && !v.Holds(p, h) {
      assert Kept(v, drops, g.rows[i].path);
    } else {
      assert v.CountedOriginal(ps[i], h);
      if v.Survives(ps, h) {
        var j :| 0 <= j < |ps| && v.Survivor(ps, h, ps[j]);
        assert Kept(v, drops, g.rows[j].path);
      } else {
        assert !v.Survivor(ps, h, ps[i]);
        var k := BestExists(v, ps, h, i);
        assert v.Held(g, ps[k]) && v.Grade(ps[i], h) <= v.Grade(ps[k], h);
        assert Kept(v, drops, g.rows[k].path);
      }
    }
  }

  // Nothing is held back from a group while a counted copy of it stays.
  lemma NoNeedlessHold(v: Vetting, groups: seq<Group>, drops: set<Path>, p: Path)
    requires v.IsDrops(groups, drops) && p in drops
    ensures exists g :: g in groups && !v.Survives(RowPaths(g.rows), ContentHash(g))
              && exists i :: 0 <= i < |g.rows| && g.rows[i].path == p && p in v.requested
  {
    var g :| g in groups && v.Held(g, p);
    var ps, h := RowPaths(g.rows), ContentHash(g);
    var k :| 0 <= k < |ps| && v.Best(ps, h, k) && ps[k] == p;
    assert g.rows[k].path == p;
  }
}
