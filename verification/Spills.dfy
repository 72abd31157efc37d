// Candidate records and the ways a spill is read back in pieces (server/stream.go,
// materialize, window, tagWindow, tagsIn, tagSlice).
module Spills {
  import opened Picking

  // One candidate: crit stands for the exact match key of its size, name and
  // dates, content for the bytes it holds. headReads, allReads: the first 64 KiB,
  // and the whole, can be read.
  datatype Ent = Ent(path: string, crit: nat, content: nat, headReads: bool, allReads: bool)

  // A record in a spill carries the tag it is partitioned by.
  datatype Rec = Rec(e: Ent, tag: nat)

  function Ents(s: seq<Rec>): (es: seq<Ent>)
    ensures |es| == |s|
  {
    if s == [] then [] else Ents(s[..|s| - 1]) + [s[|s| - 1].e]
  }

  // The entries of the records keep accepts, as a bag.
  function Bag(s: seq<Rec>, keep: Rec -> bool): multiset<Ent> {
    multiset(Ents(Pick(s, keep)))
  }

  lemma EntsAppend(s: seq<Rec>, r: Rec)
    ensures Ents(s + [r]) == Ents(s) + [r.e]
  {
    assert (s + [r])[..|s|] == s;
  }

  lemma BagStep(s: seq<Rec>, keep: Rec -> bool)
    requires s != []
    ensures Bag(s, keep) == Bag(s[..|s| - 1], keep) + if keep(s[|s| - 1]) then multiset{s[|s| - 1].e} else multiset{}
  {
    var n := |s| - 1;
    if keep(s[n]) {
      EntsAppend(Pick(s[..n], keep), s[n]);
    } else {
      assert Pick(s[..n], keep) + [] == Pick(s[..n], keep);
    }
  }

  lemma BagNext(s: seq<Rec>, i: nat, keep: Rec -> bool)
    requires i < |s|
    ensures Bag(s[..i + 1], keep) == Bag(s[..i], keep) + if keep(s[i]) then multiset{s[i].e} else multiset{}
  {
    assert s[..i + 1][..i] == s[..i] && s[..i + 1][i] == s[i];
    BagStep(s[..i + 1], keep);
  }

  lemma EntsBag(s: seq<Rec>, r: Rec)
    ensures multiset(Ents(s + [r])) == multiset(Ents(s)) + multiset{r.e}
  {
    EntsAppend(s, r);
  }

  // What one test accepts, another rejects: the bag splits.
  lemma {:induction false} BagSplit(s: seq<Rec>, whole: Rec -> bool, a: Rec -> bool, b: Rec -> bool)
    requires forall r :: r in s ==> (whole(r) <==> a(r) || b(r)) && !(a(r) && b(r))
    ensures Bag(s, whole) == Bag(s, a) + Bag(s, b)
  {
    if s != [] {
      var n := |s| - 1;
      BagSplit(s[..n], whole, a, b);
      BagStep(s, whole);
      BagStep(s, a);
      BagStep(s, b);
    }
  }

  lemma {:induction false} BagSame(s: seq<Rec>, a: Rec -> bool, b: Rec -> bool)
    requires forall r :: r in s ==> (a(r) <==> b(r))
    ensures Bag(s, a) == Bag(s, b)
  {
    if s != [] {
      BagSame(s[..|s| - 1], a, b);
      BagStep(s, a);
      BagStep(s, b);
    }
  }

  lemma {:induction false} BagNone(s: seq<Rec>, a: Rec -> bool)
    requires forall r :: r in s ==> !a(r)
    ensures Bag(s, a) == multiset{}
  {
    if s != [] {
      BagNone(s[..|s| - 1], a);
      BagStep(s, a);
    }
  }

  lemma {:induction false} BagWithin(s: seq<Rec>, keep: Rec -> bool)
    ensures Bag(s, keep) <= multiset(Ents(s))
  {
    if s != [] {
      BagWithin(s[..|s| - 1], keep);
      BagStep(s, keep);
    }
  }

  lemma {:induction false} BagFrom(s: seq<Rec>, keep: Rec -> bool, e: Ent)
    requires e in Bag(s, keep)
    ensures exists r :: r in s && keep(r) && r.e == e
  {
    var n := |s| - 1;
    BagStep(s, keep);
    if e in Bag(s[..n], keep) {
      BagFrom(s[..n], keep, e);
      var r :| r in s[..n] && keep(r) && r.e == e;
      assert r in s;
    } else {
      assert s[n] in s && keep(s[n]);
    }
  }

  // ---------------------------------------------------------- reading back

  // The entries taken so far, and those counted past the limit.
  ghost predicate Taken(out: seq<Ent>, skipped: nat, left: multiset<Ent>, max: nat, bag: multiset<Ent>) {
    multiset(out) + left == bag && |left| == skipped && (skipped > 0 ==> max > 0 && |bag| > max)
  }

  method TakeOne(e: Ent, out: seq<Ent>, skipped: nat, ghost left: multiset<Ent>, max: nat, ghost bag: multiset<Ent>)
    returns (out': seq<Ent>, skipped': nat, ghost left': multiset<Ent>)
    requires Taken(out, skipped, left, max, bag)
    ensures Taken(out', skipped', left', max, bag + multiset{e})
  {
    if max > 0 && |out| >= max { return out, skipped + 1, left + multiset{e}; }
    return out + [e], skipped, left;
  }

  // materialize: at most max entries (0: no limit); the rest is counted.
  method Materialize(s: seq<Rec>, keep: Rec -> bool, max: nat)
    returns (out: seq<Ent>, skipped: nat, ghost left: multiset<Ent>)
    ensures multiset(out) + left == Bag(s, keep) && |left| == skipped
    ensures max == 0 || |Bag(s, keep)| <= max ==> left == multiset{}
  {
    out, skipped, left := [], 0, multiset{};
    for i := 0 to |s|
      invariant Taken(out, skipped, left, max, Bag(s[..i], keep))
    {
      BagNext(s, i, keep);
      if keep(s[i]) {
        out, skipped, left := TakeOne(s[i].e, out, skipped, left, max, Bag(s[..i], keep));
      }
    }
    assert s[..|s|] == s;
  }

  predicate InPart(k: nat, part: nat, parts: nat) {
    parts <= 1 || k % parts == part
  }

  function Count(s: seq<Rec>, by_: Rec -> nat, k: nat): nat {
    if s == [] then 0
    else Count(s[..|s| - 1], by_, k) + if by_(s[|s| - 1]) == k then 1 else 0
  }

  // What a window takes of a partition: all but the classes set aside.
  function Ordinary(class_: Rec -> nat, p: nat, parts: nat, over: seq<nat>): Rec -> bool {
    r => InPart(class_(r), p, parts) && class_(r) !in over
  }

  // window and tagWindow: the entries of one partition, but for those of a class
  // too big to hold, which are named instead.
  method Window(s: seq<Rec>, class_: Rec -> nat, part: nat, parts: nat, cap: nat, max: nat)
    returns (ents: seq<Ent>, over: seq<nat>, crowded: nat, ghost left: multiset<Ent>)
    ensures Distinct(over)
    ensures forall k :: k in over <==> InPart(k, part, parts) && cap > 0 && Count(s, class_, k) > cap
    ensures multiset(ents) + left == Bag(s, Ordinary(class_, part, parts, over))
    ensures |left| == crowded
    ensures max == 0 || |Bag(s, Ordinary(class_, part, parts, over))| <= max ==> left == multiset{}
  {
    var counts: map<nat, nat> := map[];
    for i := 0 to |s|
      invariant forall k :: (if k in counts then counts[k] else 0)
                            == if InPart(k, part, parts) then Count(s[..i], class_, k) else 0
    {
      assert s[..i + 1][..i] == s[..i];
      var k := class_(s[i]);
      if InPart(k, part, parts) {
        counts := counts[k := (if k in counts then counts[k] else 0) + 1];
      }
    }
    assert s[..|s|] == s;
    over := Overfull(counts, cap);
    forall k ensures k in over <==> InPart(k, part, parts) && cap > 0 && Count(s, class_, k) > cap {
      assert (if k in counts then counts[k] else 0) == if InPart(k, part, parts) then Count(s, class_, k) else 0;
    }
    var overSet := set k | k in over;
    ents, crowded, left := Materialize(s, r => InPart(class_(r), part, parts) && class_(r) !in overSet, max);
    BagSame(s, r => InPart(class_(r), part, parts) && class_(r) !in overSet, Ordinary(class_, part, parts, over));
  }

  ghost predicate Distinct(ks: seq<nat>) {
    forall i, j :: 0 <= i < j < |ks| ==> ks[i] != ks[j]
  }

  method Overfull(counts: map<nat, nat>, cap: nat) returns (over: seq<nat>)
    ensures Distinct(over)
    ensures forall k :: k in over <==> k in counts && cap > 0 && counts[k] > cap
  {
    over := [];
    var todo := counts.Keys;
    while todo != {}
      invariant todo <= counts.Keys && Distinct(over)
      invariant forall k :: k in over <==> k in counts && k !in todo && cap > 0 && counts[k] > cap
    {
      var k :| k in todo;
      todo := todo - {k};
      if cap > 0 && counts[k] > cap { over := over + [k]; }
    }
  }

  // tagsIn: the distinct classes of one partition.
  method ClassesIn(s: seq<Rec>, class_: Rec -> nat, part: nat, parts: nat) returns (ks: seq<nat>)
    ensures Distinct(ks)
    ensures forall k :: k in ks <==> InPart(k, part, parts) && exists r :: r in s && class_(r) == k
  {
    ks := [];
    for i := 0 to |s|
      invariant Distinct(ks)
      invariant forall k :: k in ks <==> InPart(k, part, parts) && exists j :: 0 <= j < i && class_(s[j]) == k
    {
      var k := class_(s[i]);
      if InPart(k, part, parts) && k !in ks { ks := ks + [k]; }
    }
    forall k ensures k in ks <==> InPart(k, part, parts) && exists r :: r in s && class_(r) == k {
      if r :| r in s && class_(r) == k {
        var j :| 0 <= j < |s| && s[j] == r;
        assert class_(s[j]) == k;
      }
    }
  }
}
