// Grouping one window (server/duplicates.go, dupWindow) and the whole windowed
// scan against one global grouping.
module Grouping {
  import opened Picking
  import opened Spills
  import opened Windows
  import opened Counter

  // A group: the exact match key and the content its members share.
  type Id = (nat, nat)

  predicate Fits(e: Ent, id: Id) { e.crit == id.0 && e.content == id.1 && e.headReads && e.allReads }

  // The definition: the readable files of that key and content.
  function Members(files: seq<Ent>, id: Id): seq<Ent> {
    Pick(files, e => Fits(e, id))
  }

  // ------------------------------------------------------------- one window

  function OfKey(crit: nat): Ent -> bool { (e: Ent) => e.crit == crit }

  function OfPrefix(head: nat -> nat, crit: nat, pfx: nat): Ent -> bool {
    (e: Ent) => e.headReads && e.crit == crit && head(e.content) == pfx
  }

  function Pending(files: seq<Ent>): Ent -> bool { (e: Ent) => |Pick(files, OfKey(e.crit))| >= 2 }

  function Surviving(pending: seq<Ent>, head: nat -> nat): Ent -> bool {
    (e: Ent) => e.headReads && e.allReads && |Pick(pending, OfPrefix(head, e.crit, head(e.content)))| >= 2
  }

  // The two cheap passes drop no member of a real group.
  lemma PassesKeepGroups(files: seq<Ent>, head: nat -> nat, id: Id)
    ensures var pending := Pick(files, Pending(files));
      var last := Pick(pending, Surviving(pending, head));
      if |Members(files, id)| >= 2 then Members(last, id) == Members(files, id) else |Members(last, id)| < 2
  {
    var pending := Pick(files, Pending(files));
    var fits := e => Fits(e, id);
    var last := Pick(pending, Surviving(pending, head));
    PickTwice(files, Pending(files), fits);
    PickTwice(pending, Surviving(pending, head), fits);
    PickMore(pending, Both(Surviving(pending, head), fits), fits);
    PickMore(files, Both(Pending(files), fits), fits);
    if |Members(files, id)| >= 2 {
      PickMore(files, fits, OfKey(id.0));
      PickSame(files, Both(Pending(files), fits), fits);
      PickMore(pending, fits, OfPrefix(head, id.0, head(id.1)));
      PickSame(pending, Both(Surviving(pending, head), fits), fits);
    }
  }

  method CountKeys(files: seq<Ent>) returns (n: map<nat, nat>)
    ensures forall c :: (if c in n then n[c] else 0) == |Pick(files, OfKey(c))|
  {
    n := map[];
    for i := 0 to |files|
      invariant forall c :: (if c in n then n[c] else 0) == |Pick(files[..i], OfKey(c))|
    {
      assert files[..i + 1][..i] == files[..i];
      var c := files[i].crit;
      n := n[c := (if c in n then n[c] else 0) + 1];
    }
    assert files[..|files|] == files;
  }

  method CountPrefixes(files: seq<Ent>, head: nat -> nat) returns (n: map<(nat, nat), nat>)
    ensures forall c: nat, p: nat :: (if (c, p) in n then n[(c, p)] else 0) == |Pick(files, OfPrefix(head, c, p))|
  {
    n := map[];
    for i := 0 to |files|
      invariant forall c: nat, p: nat ::
                  (if (c, p) in n then n[(c, p)] else 0) == |Pick(files[..i], OfPrefix(head, c, p))|
    {
      assert files[..i + 1][..i] == files[..i];
      if !files[i].headReads { continue; }
      var k := (files[i].crit, head(files[i].content));
      n := n[k := (if k in n then n[k] else 0) + 1];
    }
    assert files[..|files|] == files;
  }

  function Group(by_: map<Id, seq<Ent>>, id: Id): seq<Ent> {
    if id in by_ then by_[id] else []
  }

  // Keys held once, then prefixes held once, are dropped before anything is read
  // in full; what is left is grouped by content.
  method DupWindow(files: seq<Ent>, head: nat -> nat) returns (groups: map<Id, seq<Ent>>)
    ensures forall id :: id in groups <==> |Members(files, id)| >= 2
    ensures forall id :: id in groups ==> groups[id] == Members(files, id)
  {
    var keyCount := CountKeys(files);
    var pending := [];
    for i := 0 to |files|
      invariant pending == Pick(files[..i], Pending(files))
    {
      assert files[..i + 1][..i] == files[..i];
      if files[i].crit in keyCount && keyCount[files[i].crit] >= 2 { pending := pending + [files[i]]; }
    }
    assert files[..|files|] == files;
    var prefixes := CountPrefixes(pending, head);
    ghost var last := Pick(pending, Surviving(pending, head));
    var byHash := HashPass(pending, head, prefixes);
    groups := map id | id in byHash && |byHash[id]| >= 2 :: byHash[id];
    forall id
      ensures (id in groups <==> |Members(files, id)| >= 2) && (id in groups ==> groups[id] == Members(files, id))
    {
      PassesKeepGroups(files, head, id);
      assert Group(byHash, id) == Members(last, id);
    }
  }

  lemma MembersAppend(s: seq<Ent>, e: Ent, id: Id)
    ensures Members(s + [e], id) == Members(s, id) + if Fits(e, id) then [e] else []
  {
    assert (s + [e])[..|s|] == s;
  }

  method AddHash(byHash: map<Id, seq<Ent>>, e: Ent, ghost last: seq<Ent>) returns (r: map<Id, seq<Ent>>)
    requires e.headReads && e.allReads && forall id :: Group(byHash, id) == Members(last, id)
    ensures forall id :: Group(r, id) == Members(last + [e], id)
  {
    var id := (e.crit, e.content);
    r := byHash[id := Group(byHash, id) + [e]];
    forall j ensures Group(r, j) == Members(last + [e], j) {
      MembersAppend(last, e, j);
      assert Group(byHash, j) == Members(last, j);
    }
  }

  method HashPass(pending: seq<Ent>, head: nat -> nat, prefixes: map<(nat, nat), nat>)
    returns (byHash: map<Id, seq<Ent>>)
    requires forall c: nat, p: nat ::
               (if (c, p) in prefixes then prefixes[(c, p)] else 0) == |Pick(pending, OfPrefix(head, c, p))|
    ensures forall id :: Group(byHash, id) == Members(Pick(pending, Surviving(pending, head)), id)
  {
    byHash := map[];
    ghost var last := [];
    for i := 0 to |pending|
      invariant last == Pick(pending[..i], Surviving(pending, head))
      invariant forall id :: Group(byHash, id) == Members(last, id)
    {
      assert pending[..i + 1][..i] == pending[..i];
      var e := pending[i];
      var k := (e.crit, head(e.content));
      assert (if (k.0, k.1) in prefixes then prefixes[(k.0, k.1)] else 0) == |Pick(pending, OfPrefix(head, k.0, k.1))|;
      if e.headReads && k in prefixes && prefixes[k] >= 2 && e.allReads {
        byHash := AddHash(byHash, e, last);
        last := last + [e];
      }
    }
    assert pending[..|pending|] == pending;
  }

  // ---------------------------------------------------- windows against whole

  lemma {:induction false} FlatOnlyIn(calls: seq<seq<Ent>>, i: nat, e: Ent)
    requires i < |calls| && forall k :: 0 <= k < |calls| && k != i ==> e !in multiset(calls[k])
    ensures Flat(calls)[e] == multiset(calls[i])[e]
  {
    var n := |calls| - 1;
    if i < n {
      FlatOnlyIn(calls[..n], i, e);
    } else {
      FlatNowhere(calls[..n], e);
    }
  }

  lemma {:induction false} FlatNowhere(calls: seq<seq<Ent>>, e: Ent)
    requires forall k :: 0 <= k < |calls| ==> e !in multiset(calls[k])
    ensures e !in Flat(calls)
  {
    if calls != [] { FlatNowhere(calls[..|calls| - 1], e); }
  }

  // The calls share out every readable file, those that belong together to one
  // call.
  ghost predicate Covers(all: seq<Ent>, calls: seq<seq<Ent>>) {
    Flat(calls) <= multiset(all) && AllUnreadable(multiset(all) - Flat(calls)) && Apart(calls)
  }

  lemma ReadableIsThere(all: seq<Ent>, calls: seq<seq<Ent>>, e: Ent)
    requires Covers(all, calls) && Readable(e)
    ensures Flat(calls)[e] == multiset(all)[e]
  {
    assert e !in multiset(all) - Flat(calls);
  }

  // A call that holds one readable file of a group holds all of it.
  lemma CallHoldsGroup(all: seq<Ent>, calls: seq<seq<Ent>>, i: nat, id: Id)
    requires Covers(all, calls) && i < |calls| && Members(calls[i], id) != []
    ensures multiset(Members(calls[i], id)) == multiset(Members(all, id))
    ensures forall k :: 0 <= k < |calls| && k != i ==> Members(calls[k], id) == []
  {
    var fits := e => Fits(e, id);
    var x := Members(calls[i], id)[0];
    PickBag(calls[i], fits, x);
    assert x in multiset(Members(calls[i], id));
    forall k | 0 <= k < |calls| && k != i
      ensures Members(calls[k], id) == [] && forall e :: fits(e) ==> e !in multiset(calls[k])
    {
      forall e | fits(e) ensures e !in multiset(calls[k]) {
        assert Same(x, e) && Same(e, x);
        assert if k < i then Disjoint(multiset(calls[k]), multiset(calls[i]))
               else Disjoint(multiset(calls[i]), multiset(calls[k]));
      }
      NoneFit(calls[k], id);
    }
    forall e ensures multiset(Members(calls[i], id))[e] == multiset(Members(all, id))[e] {
      PickBag(calls[i], fits, e);
      PickBag(all, fits, e);
      if fits(e) {
        FlatOnlyIn(calls, i, e);
        ReadableIsThere(all, calls, e);
      }
    }
  }

  lemma {:induction false} NoneFit(s: seq<Ent>, id: Id)
    requires forall e :: Fits(e, id) ==> e !in multiset(s)
    ensures Members(s, id) == []
  {
    if s != [] {
      assert s == s[..|s| - 1] + [s[|s| - 1]];
      assert s[|s| - 1] in multiset(s);
      NoneFit(s[..|s| - 1], id);
    }
  }

  lemma SomeCallHoldsIt(all: seq<Ent>, calls: seq<seq<Ent>>, id: Id) returns (i: nat)
    requires Covers(all, calls) && Members(all, id) != []
    ensures i < |calls| && Members(calls[i], id) != []
  {
    var fits := e => Fits(e, id);
    var x := Members(all, id)[0];
    assert x in multiset(Members(all, id));
    PickBag(all, fits, x);
    ReadableIsThere(all, calls, x);
    if forall k :: 0 <= k < |calls| ==> x !in multiset(calls[k]) { FlatNowhere(calls, x); }
    i :| 0 <= i < |calls| && x in multiset(calls[i]);
    PickBag(calls[i], fits, x);
    assert x in multiset(Members(calls[i], id));
  }

  // With every readable file shared out, some call's group for an id is the
  // global one, and no other call has any of it.
  lemma WindowedIsGlobal(all: seq<Ent>, calls: seq<seq<Ent>>, id: Id)
    requires Covers(all, calls)
    ensures |Members(all, id)| >= 2 <==> exists i :: 0 <= i < |calls| && |Members(calls[i], id)| >= 2
    ensures forall i :: 0 <= i < |calls| && |Members(calls[i], id)| >= 2 ==>
              multiset(Members(calls[i], id)) == multiset(Members(all, id))
    ensures forall i, j :: 0 <= i < j < |calls| && |Members(calls[i], id)| >= 2 ==> Members(calls[j], id) == []
  {
    if Members(all, id) != [] {
      var i := SomeCallHoldsIt(all, calls, id);
      CallHoldsGroup(all, calls, i, id);
      SameSize(Members(calls[i], id), Members(all, id));
    }
    forall i | 0 <= i < |calls| && |Members(calls[i], id)| >= 2
      ensures multiset(Members(calls[i], id)) == multiset(Members(all, id)) && |Members(all, id)| >= 2
      ensures forall k :: 0 <= k < |calls| && k != i ==> Members(calls[k], id) == []
    {
      CallHoldsGroup(all, calls, i, id);
      SameSize(Members(calls[i], id), Members(all, id));
    }
  }

  // The whole content pass. Where no cap fires it finds exactly the groups one
  // grouping of all candidates would.
  method WindowedScan(cs: seq<Rec>, env: Env) returns (groups: map<Id, seq<Ent>>, skipped: nat)
    ensures NoCaps(env, cs) ==> forall id :: id in groups <==> |Members(Ents(cs), id)| >= 2
    ensures NoCaps(env, cs) ==> forall id :: id in groups ==> multiset(groups[id]) == multiset(Members(Ents(cs), id))
  {
    var calls, k := HashCandidateWindows(cs, env);
    skipped := k;
    groups := map[];
    for i := 0 to |calls|
      invariant forall id :: id in groups ==>
                  exists j :: 0 <= j < i && |Members(calls[j], id)| >= 2 && groups[id] == Members(calls[j], id)
      invariant forall id, j :: 0 <= j < i && |Members(calls[j], id)| >= 2 ==> id in groups
    {
      var here := DupWindow(calls[i], env.head);
      groups := groups + here;
    }
    if NoCaps(env, cs) {
      assert Covers(Ents(cs), calls);
      forall id ensures id in groups <==> |Members(Ents(cs), id)| >= 2 {
        WindowedIsGlobal(Ents(cs), calls, id);
      }
      forall id | id in groups ensures multiset(groups[id]) == multiset(Members(Ents(cs), id)) {
        WindowedIsGlobal(Ents(cs), calls, id);
      }
    }
  }

  // --------------------------------------------- distilled against the walk

  lemma {:induction false} PickedFrom(s: seq<Ent>, keep: Ent -> bool) returns (j: nat)
    requires Pick(s, keep) != []
    ensures j < |s| && keep(s[j])
  {
    var n := |s| - 1;
    if keep(s[n]) { j := n; } else { j := PickedFrom(s[..n], keep); }
  }

  lemma {:induction false} AnotherFits(s: seq<Ent>, keep: Ent -> bool, i: nat) returns (j: nat)
    requires i < |s| && keep(s[i]) && |Pick(s, keep)| >= 2
    ensures j < |s| && j != i && keep(s[j])
  {
    var n := |s| - 1;
    if i == n {
      j := PickedFrom(s[..n], keep);
    } else if keep(s[n]) {
      j := n;
    } else {
      j := AnotherFits(s[..n], keep, i);
    }
  }

  lemma {:induction false} ChosenKeeps(s: seq<Ent>, pick: seq<bool>, keep: Ent -> bool)
    requires |pick| == |s| && forall i :: 0 <= i < |s| && keep(s[i]) ==> pick[i]
    ensures Pick(Chosen(s, pick), keep) == Pick(s, keep)
  {
    if s != [] {
      var n := |s| - 1;
      ChosenKeeps(s[..n], pick[..n], keep);
      var c := Chosen(s[..n], pick[..n]);
      if pick[n] { assert (c + [s[n]])[..|c|] == c; } else { assert c + [] == c; }
    }
  }

  // The distilled candidates hold every group of the walk whole.
  lemma DistilKeepsGroups(walk: seq<Ent>, keyOf: nat -> Key, pick: seq<bool>, id: Id)
    requires |pick| == |walk|
    requires forall i :: 0 <= i < |walk| && Repeats(Keys((e: Ent) => keyOf(e.crit), walk), i) ==> pick[i]
    requires |Members(walk, id)| >= 2
    ensures Members(Chosen(walk, pick), id) == Members(walk, id)
  {
    var fits := e => Fits(e, id);
    var ks := Keys((e: Ent) => keyOf(e.crit), walk);
    forall i | 0 <= i < |walk| && fits(walk[i]) ensures pick[i] {
      var j := AnotherFits(walk, fits, i);
      assert ks[j] == ks[i];
      assert Repeats(ks, i);
    }
    ChosenKeeps(walk, pick, fits);
  }

  lemma {:induction false} ChosenWithin(s: seq<Ent>, pick: seq<bool>, keep: Ent -> bool)
    requires |pick| == |s|
    ensures |Pick(Chosen(s, pick), keep)| <= |Pick(s, keep)|
  {
    if s != [] {
      var n := |s| - 1;
      ChosenWithin(s[..n], pick[..n], keep);
      var c := Chosen(s[..n], pick[..n]);
      if pick[n] { assert (c + [s[n]])[..|c|] == c; } else { assert c + [] == c; }
    }
  }

  method Spilled(es: seq<Ent>, keyOf: nat -> Key) returns (cs: seq<Rec>)
    ensures Ents(cs) == es
  {
    cs := [];
    for i := 0 to |es|
      invariant Ents(cs) == es[..i]
    {
      EntsAppend(cs, Rec(es[i], keyOf(es[i].crit)));
      cs := cs + [Rec(es[i], keyOf(es[i].crit))];
    }
    assert es[..|es|] == es;
  }

  // From the walk to the groups: every file feeds the counter, those whose key
  // repeats are distilled into the candidates cs, and these are grouped window by
  // window. Where no cap fires the groups are those of the whole walk.
  method ScanWalk(walk: seq<Ent>, keyOf: nat -> Key, exactMax: nat, bytes: nat, env: Env)
    returns (cs: seq<Rec>, groups: map<Id, seq<Ent>>, skipped: nat)
    requires bytes > 0
    ensures NoCaps(env, cs) ==> forall id :: id in groups <==> |Members(walk, id)| >= 2
    ensures NoCaps(env, cs) ==> forall id :: id in groups ==> multiset(groups[id]) == multiset(Members(walk, id))
  {
    var kept, pick := Distil(walk, (e: Ent) => keyOf(e.crit), exactMax, bytes);
    cs := Spilled(kept, keyOf);
    groups, skipped := WindowedScan(cs, env);
    forall id ensures |Members(kept, id)| >= 2 <==> |Members(walk, id)| >= 2 {
      ChosenWithin(walk, pick, e => Fits(e, id));
      if |Members(walk, id)| >= 2 { DistilKeepsGroups(walk, keyOf, pick, id); }
    }
    forall id | |Members(walk, id)| >= 2 ensures Members(kept, id) == Members(walk, id) {
      DistilKeepsGroups(walk, keyOf, pick, id);
    }
  }
}
