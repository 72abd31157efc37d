// The windowed content pass and its skew ladder (server/scan.go,
// hashCandidateWindows; server/duplicates.go, resolveSkewedKey,
// resolveSkewedPrefix, hashSubSpill, runSkewWindow). Every candidate reaches one
// grouping call or is counted as skipped, and files that belong together reach
// the same call.
module Windows {
  import opened Spills

  // keyOf: the candidate key of an exact match key; head: the prefix hash of a
  // content; fold: the 64-bit tag of a hash, which may collide. The rest are the
  // scan's limits.
  datatype Env = Env(keyOf: nat -> nat, head: nat -> nat, fold: nat -> nat,
                     windowFiles: nat, windowMax: nat, keyCap: nat, groupCap: nat)

  function TagOf(env: Env, full: bool, content: nat): nat {
    env.fold(if full then content else env.head(content))
  }

  predicate Same(x: Ent, y: Ent) { x.crit == y.crit && x.content == y.content }

  // No file of one belongs with a file of the other.
  ghost predicate Disjoint(a: multiset<Ent>, b: multiset<Ent>) {
    forall x, y :: x in a && y in b ==> !Same(x, y)
  }

  function Flat(calls: seq<seq<Ent>>): multiset<Ent> {
    if calls == [] then multiset{} else Flat(calls[..|calls| - 1]) + multiset(calls[|calls| - 1])
  }

  ghost predicate Apart(calls: seq<seq<Ent>>) {
    forall i, j :: 0 <= i < j < |calls| ==> Disjoint(multiset(calls[i]), multiset(calls[j]))
  }

  // The bag went into the calls, each file once, but for what was lost; and no
  // two calls share files that belong together.
  ghost predicate Delivers(bag: multiset<Ent>, calls: seq<seq<Ent>>, lost: multiset<Ent>) {
    Flat(calls) + lost == bag && Apart(calls)
  }

  lemma {:induction false} FlatAppend(a: seq<seq<Ent>>, b: seq<seq<Ent>>)
    ensures Flat(a + b) == Flat(a) + Flat(b)
  {
    if b == [] {
      assert a + b == a;
    } else {
      var n := |b| - 1;
      assert (a + b)[..|a + b| - 1] == a + b[..n];
      FlatAppend(a, b[..n]);
    }
  }

  lemma {:induction false} InFlat(calls: seq<seq<Ent>>, i: nat)
    requires i < |calls|
    ensures multiset(calls[i]) <= Flat(calls)
  {
    if i < |calls| - 1 { InFlat(calls[..|calls| - 1], i); }
  }

  lemma Join(s1: multiset<Ent>, c1: seq<seq<Ent>>, l1: multiset<Ent>,
             s2: multiset<Ent>, c2: seq<seq<Ent>>, l2: multiset<Ent>)
    requires Delivers(s1, c1, l1) && Delivers(s2, c2, l2) && Disjoint(s1, s2)
    ensures Delivers(s1 + s2, c1 + c2, l1 + l2)
  {
    FlatAppend(c1, c2);
    var c := c1 + c2;
    forall i, j | 0 <= i < j < |c| ensures Disjoint(multiset(c[i]), multiset(c[j])) {
      if i < |c1| && j >= |c1| {
        InFlat(c1, i);
        InFlat(c2, j - |c1|);
        SubBags(s1, s2, multiset(c[i]), multiset(c[j]));
      }
    }
  }

  lemma SubBags(a: multiset<Ent>, b: multiset<Ent>, c: multiset<Ent>, d: multiset<Ent>)
    requires Disjoint(a, b) && c <= a && d <= b
    ensures Disjoint(c, d)
  {
  }

  // Files that belong together are of one class.
  ghost predicate Classed(s: seq<Rec>, class_: Rec -> nat) {
    forall q, r :: q in s && r in s && Same(q.e, r.e) ==> class_(q) == class_(r)
  }

  lemma BagsDisjoint(s: seq<Rec>, class_: Rec -> nat, a: Rec -> bool, b: Rec -> bool)
    requires Classed(s, class_)
    requires forall q, r :: q in s && r in s && a(q) && b(r) ==> class_(q) != class_(r)
    ensures Disjoint(Bag(s, a), Bag(s, b))
  {
    forall x, y | x in Bag(s, a) && y in Bag(s, b) ensures !Same(x, y) {
      BagFrom(s, a, x);
      BagFrom(s, b, y);
    }
  }

  // ------------------------------------------------------------ the sub-spill

  ghost predicate TagsFit(env: Env, full: bool, s: seq<Rec>) {
    forall r :: r in s ==> r.tag == TagOf(env, full, r.e.content)
  }

  predicate Readable(e: Ent) { e.headReads && e.allReads }

  ghost predicate AllUnreadable(m: multiset<Ent>) {
    forall e :: e in m ==> !Readable(e)
  }

  // How a sub-spill stands for the entries handed to it.
  ghost predicate Hashed(env: Env, full: bool, out: seq<Rec>, bad: nat, lost: multiset<Ent>, bag: multiset<Ent>) {
    multiset(Ents(out)) + lost == bag && |lost| == bad && TagsFit(env, full, out) && AllUnreadable(lost)
  }

  // One accepted record: written with its tag, or counted as unreadable.
  method HashOne(env: Env, full: bool, e: Ent, out: seq<Rec>, bad: nat,
                 ghost lost: multiset<Ent>, ghost bag: multiset<Ent>)
    returns (out': seq<Rec>, bad': nat, ghost lost': multiset<Ent>)
    requires Hashed(env, full, out, bad, lost, bag)
    ensures Hashed(env, full, out', bad', lost', bag + multiset{e})
  {
    if !e.headReads || (full && !e.allReads) { return out, bad + 1, lost + multiset{e}; }
    EntsBag(out, Rec(e, TagOf(env, full, e.content)));
    return out + [Rec(e, TagOf(env, full, e.content))], bad, lost;
  }

  // hashSubSpill: the accepted records, tagged by prefix or by full content; what
  // cannot be read is counted.
  method HashSubSpill(src: seq<Rec>, env: Env, full: bool, keep: Rec -> bool)
    returns (out: seq<Rec>, unreadable: nat, ghost lost: multiset<Ent>)
    ensures Hashed(env, full, out, unreadable, lost, Bag(src, keep))
  {
    out, unreadable, lost := [], 0, multiset{};
    for i := 0 to |src|
      invariant Hashed(env, full, out, unreadable, lost, Bag(src[..i], keep))
    {
      BagNext(src, i, keep);
      if keep(src[i]) {
        out, unreadable, lost := HashOne(env, full, src[i].e, out, unreadable, lost, Bag(src[..i], keep));
      }
    }
    assert src[..|src|] == src;
  }

  // No content tag is carried by more files than one group may list.
  ghost predicate SmallTags(env: Env, m: multiset<Ent>) {
    env.groupCap == 0 || forall a: multiset<Ent>, t: nat :: a <= m && OfTag(env, a, t) ==> |a| <= env.groupCap
  }

  ghost predicate OfTag(env: Env, a: multiset<Ent>, t: nat) {
    forall e :: e in a ==> env.fold(e.content) == t
  }

  lemma FewerSmall(env: Env, m: multiset<Ent>, n: multiset<Ent>)
    requires SmallTags(env, n) && m <= n
    ensures SmallTags(env, m)
  {
  }

  lemma TagBag(env: Env, full: seq<Rec>, t: nat)
    requires TagsFit(env, true, full)
    ensures Bag(full, OfClass(Tag, t)) <= multiset(Ents(full)) && OfTag(env, Bag(full, OfClass(Tag, t)), t)
  {
    BagWithin(full, OfClass(Tag, t));
    forall e | e in Bag(full, OfClass(Tag, t)) ensures env.fold(e.content) == t { BagFrom(full, OfClass(Tag, t), e); }
  }

  lemma TagsClass(s: seq<Rec>, env: Env, full: bool)
    requires TagsFit(env, full, s)
    ensures Classed(s, Tag)
  {
  }

  function Tag(r: Rec): nat { r.tag }

  function CandidateKey(env: Env): Rec -> nat { (r: Rec) => env.keyOf(r.e.crit) }

  function Parts(n: nat, window: nat): (p: nat)
    ensures p >= 1
  {
    if window > 0 && n > window then (n + window - 1) / window else 1
  }

  // Records of the partitions before p.
  function Before(class_: Rec -> nat, p: nat, parts: nat): Rec -> bool {
    r => if parts <= 1 then p > 0 else class_(r) % parts < p
  }

  function Within(class_: Rec -> nat, p: nat, parts: nat): Rec -> bool {
    r => InPart(class_(r), p, parts)
  }

  // Those of partition p whose class is not among `over`, and those that are.
  function OfClass(class_: Rec -> nat, k: nat): Rec -> bool {
    r => class_(r) == k
  }

  function OrdinaryAnd(class_: Rec -> nat, p: nat, parts: nat, over: seq<nat>, n: nat): Rec -> bool
    requires n <= |over|
  {
    r => InPart(class_(r), p, parts) && (class_(r) !in over || class_(r) in over[..n])
  }

  // One partition is finished.
  lemma PartDone(s: seq<Rec>, class_: Rec -> nat, p: nat, parts: nat,
                 c1: seq<seq<Ent>>, l1: multiset<Ent>, c2: seq<seq<Ent>>, l2: multiset<Ent>)
    requires p < parts && Classed(s, class_)
    requires Delivers(Bag(s, Before(class_, p, parts)), c1, l1)
    requires Delivers(Bag(s, Within(class_, p, parts)), c2, l2)
    ensures Delivers(Bag(s, Before(class_, p + 1, parts)), c1 + c2, l1 + l2)
  {
    BagSplit(s, Before(class_, p + 1, parts), Before(class_, p, parts), Within(class_, p, parts));
    BagsDisjoint(s, class_, Before(class_, p, parts), Within(class_, p, parts));
    Join(Bag(s, Before(class_, p, parts)), c1, l1, Bag(s, Within(class_, p, parts)), c2, l2);
  }

  // One over-full class of it is.
  lemma ClassDone(s: seq<Rec>, class_: Rec -> nat, p: nat, parts: nat, over: seq<nat>, n: nat,
                  c1: seq<seq<Ent>>, l1: multiset<Ent>, c2: seq<seq<Ent>>, l2: multiset<Ent>)
    requires Classed(s, class_) && Distinct(over) && n < |over| && InPart(over[n], p, parts)
    requires Delivers(Bag(s, OrdinaryAnd(class_, p, parts, over, n)), c1, l1)
    requires Delivers(Bag(s, OfClass(class_, over[n])), c2, l2)
    ensures Delivers(Bag(s, OrdinaryAnd(class_, p, parts, over, n + 1)), c1 + c2, l1 + l2)
  {
    OneMoreClass(s, class_, p, parts, over, n);
    Join(Bag(s, OrdinaryAnd(class_, p, parts, over, n)), c1, l1, Bag(s, OfClass(class_, over[n])), c2, l2);
  }

  lemma OneMoreClass(s: seq<Rec>, class_: Rec -> nat, p: nat, parts: nat, over: seq<nat>, n: nat)
    requires Classed(s, class_) && Distinct(over) && n < |over| && InPart(over[n], p, parts)
    ensures var a, b := OrdinaryAnd(class_, p, parts, over, n), OfClass(class_, over[n]);
      && Bag(s, OrdinaryAnd(class_, p, parts, over, n + 1)) == Bag(s, a) + Bag(s, b)
      && Disjoint(Bag(s, a), Bag(s, b))
  {
    var a, b := OrdinaryAnd(class_, p, parts, over, n), OfClass(class_, over[n]);
    assert over[..n + 1] == over[..n] + [over[n]];
    assert over[n] !in over[..n];
    BagSplit(s, OrdinaryAnd(class_, p, parts, over, n + 1), a, b);
    BagsDisjoint(s, class_, a, b);
  }

  lemma PartBegins(s: seq<Rec>, class_: Rec -> nat, p: nat, parts: nat, over: seq<nat>,
                   win: seq<Ent>, left: multiset<Ent>)
    requires multiset(win) + left == Bag(s, Ordinary(class_, p, parts, over))
    ensures Delivers(Bag(s, OrdinaryAnd(class_, p, parts, over, 0)), RunSkewWindow(win), left)
  {
    BagSame(s, Ordinary(class_, p, parts, over), OrdinaryAnd(class_, p, parts, over, 0));
    assert Flat([]) == multiset{} && Flat([win]) == multiset(win) by { assert [win][..0] == []; }
  }

  lemma PartEnds(s: seq<Rec>, class_: Rec -> nat, p: nat, parts: nat, over: seq<nat>)
    ensures Bag(s, OrdinaryAnd(class_, p, parts, over, |over|)) == Bag(s, Within(class_, p, parts))
  {
    assert over[..|over|] == over;
    BagSame(s, OrdinaryAnd(class_, p, parts, over, |over|), Within(class_, p, parts));
  }

  lemma AllParts(s: seq<Rec>, class_: Rec -> nat, parts: nat)
    requires parts >= 1
    ensures Bag(s, Before(class_, parts, parts)) == multiset(Ents(s))
    ensures Bag(s, Before(class_, 0, parts)) == multiset{}
  {
    BagAll(s, Before(class_, parts, parts));
    BagNone(s, Before(class_, 0, parts));
  }

  lemma {:induction false} BagAll(s: seq<Rec>, keep: Rec -> bool)
    requires forall r :: r in s ==> keep(r)
    ensures Bag(s, keep) == multiset(Ents(s))
  {
    if s != [] {
      BagAll(s[..|s| - 1], keep);
      BagStep(s, keep);
    }
  }

  lemma Shifted(bag: multiset<Ent>, more: multiset<Ent>, calls: seq<seq<Ent>>, lost: multiset<Ent>)
    requires Delivers(bag, calls, lost)
    ensures Delivers(bag + more, calls, lost + more)
  {
  }

  // An empty window is not a call.
  function RunSkewWindow(win: seq<Ent>): seq<seq<Ent>> {
    if win == [] then [] else [win]
  }

  // ------------------------------------------------------------- the ladder

  // The bottom rung, one partition: too crowded, it is taken one content at a
  // time; so is any content alone too big, cut at the group cap.
  method BottomWindow(full: seq<Rec>, env: Env, p: nat, parts: nat) returns (win: seq<Ent>, over: seq<nat>)
    ensures Distinct(over) && forall k :: k in over ==> InPart(k, p, parts)
    ensures multiset(win) == Bag(full, Ordinary(Tag, p, parts, over))
  {
    var crowded;
    ghost var left;
    win, over, crowded, left := Window(full, Tag, p, parts, env.groupCap, env.windowMax);
    if crowded > 0 {
      win := [];
      over := ClassesIn(full, Tag, p, parts);
      forall r | r in full ensures !Ordinary(Tag, p, parts, over)(r) {
        if InPart(Tag(r), p, parts) { assert Tag(r) in over; }
      }
      BagNone(full, Ordinary(Tag, p, parts, over));
    }
  }

  method ResolvePrefixPart(full: seq<Rec>, env: Env, p: nat, parts: nat)
    returns (calls: seq<seq<Ent>>, skipped: nat, ghost lost: multiset<Ent>)
    requires p < parts && Classed(full, Tag) && TagsFit(env, true, full)
    ensures Delivers(Bag(full, Within(Tag, p, parts)), calls, lost) && |lost| == skipped
    ensures SmallTags(env, multiset(Ents(full))) ==> lost == multiset{}
  {
    var win, over := BottomWindow(full, env, p, parts);
    PartBegins(full, Tag, p, parts, over, win, multiset{});
    calls, skipped, lost := RunSkewWindow(win), 0, multiset{};
    for i := 0 to |over|
      invariant Delivers(Bag(full, OrdinaryAnd(Tag, p, parts, over, i)), calls, lost) && |lost| == skipped
      invariant SmallTags(env, multiset(Ents(full))) ==> lost == multiset{}
    {
      var c, k, l := TakeSlice(full, env, over[i]);
      assert over[i] in over;
      ClassDone(full, Tag, p, parts, over, i, calls, lost, c, l);
      calls, skipped, lost := calls + c, skipped + k, lost + l;
    }
    PartEnds(full, Tag, p, parts, over);
  }

  // tagSlice and its call: one content, cut at the group cap.
  method TakeSlice(full: seq<Rec>, env: Env, t: nat) returns (calls: seq<seq<Ent>>, cut: nat, ghost lost: multiset<Ent>)
    requires TagsFit(env, true, full)
    ensures Delivers(Bag(full, OfClass(Tag, t)), calls, lost) && |lost| == cut
    ensures SmallTags(env, multiset(Ents(full))) ==> lost == multiset{}
  {
    var slice;
    slice, cut, lost := Materialize(full, OfClass(Tag, t), env.groupCap);
    SliceDelivers(Bag(full, OfClass(Tag, t)), slice, lost);
    TagBag(env, full, t);
    calls := RunSkewWindow(slice);
  }

  lemma SliceDelivers(bag: multiset<Ent>, slice: seq<Ent>, left: multiset<Ent>)
    requires multiset(slice) + left == bag
    ensures Delivers(bag, RunSkewWindow(slice), left)
  {
    assert Flat([slice]) == multiset(slice) by { assert [slice][..0] == []; }
  }

  // A rung is done: what its sub-spill delivered, and the files it could not hash,
  // are what was handed to it.
  lemma SubDone(env: Env, bag: multiset<Ent>, sub: multiset<Ent>, unread: multiset<Ent>,
                calls: seq<seq<Ent>>, lost: multiset<Ent>)
    requires sub + unread == bag && AllUnreadable(unread) && Delivers(sub, calls, lost)
    requires SmallTags(env, sub) ==> AllUnreadable(lost)
    ensures Delivers(bag, calls, lost + unread) && Accounts(bag, calls, |lost| + |unread|)
    ensures SmallTags(env, bag) ==> AllUnreadable(lost + unread)
  {
    Shifted(sub, unread, calls, lost);
    DeliveredAccounts(bag, calls, lost + unread);
    if SmallTags(env, bag) { FewerSmall(env, sub, bag); }
  }

  method ResolveSkewedPrefix(sub: seq<Rec>, env: Env, keep: Rec -> bool)
    returns (calls: seq<seq<Ent>>, skipped: nat, ghost lost: multiset<Ent>)
    ensures Delivers(Bag(sub, keep), calls, lost) && |lost| == skipped
    ensures Accounts(Bag(sub, keep), calls, skipped)
    ensures SmallTags(env, Bag(sub, keep)) ==> AllUnreadable(lost)
  {
    var full, unreadable, unread := HashSubSpill(sub, env, true, keep);
    TagsClass(full, env, true);
    var parts := Parts(|full|, env.windowFiles);
    calls, skipped, lost := [], 0, multiset{};
    AllParts(full, Tag, parts);
    for p := 0 to parts
      invariant Delivers(Bag(full, Before(Tag, p, parts)), calls, lost) && |lost| == skipped
      invariant SmallTags(env, multiset(Ents(full))) ==> lost == multiset{}
    {
      var c, k, l := ResolvePrefixPart(full, env, p, parts);
      PartDone(full, Tag, p, parts, calls, lost, c, l);
      calls, skipped, lost := calls + c, skipped + k, lost + l;
    }
    SubDone(env, Bag(sub, keep), multiset(Ents(full)), unread, calls, lost);
    skipped, lost := skipped + unreadable, lost + unread;
  }

  lemma SmallParts(env: Env, s: seq<Rec>, keep: Rec -> bool)
    ensures SmallTags(env, multiset(Ents(s))) ==> SmallTags(env, Bag(s, keep))
  {
    BagWithin(s, keep);
    if SmallTags(env, multiset(Ents(s))) { FewerSmall(env, Bag(s, keep), multiset(Ents(s))); }
  }

  // The upper rung, one partition of the prefixes: too crowded, the partition
  // goes to the full-content rung whole; else its over-full prefixes do.
  method ResolveKeyPart(sub: seq<Rec>, env: Env, p: nat, parts: nat)
    returns (calls: seq<seq<Ent>>, skipped: nat, ghost lost: multiset<Ent>)
    requires p < parts && Classed(sub, Tag)
    ensures Delivers(Bag(sub, Within(Tag, p, parts)), calls, lost) && |lost| == skipped
    ensures SmallTags(env, multiset(Ents(sub))) ==> AllUnreadable(lost)
  {
    var win, over, crowded, left := Window(sub, Tag, p, parts, env.keyCap, env.windowMax);
    if crowded > 0 {
      calls, skipped, lost := ResolveSkewedPrefix(sub, env, Within(Tag, p, parts));
      SmallParts(env, sub, Within(Tag, p, parts));
      return;
    }
    PartBegins(sub, Tag, p, parts, over, win, multiset{});
    calls, skipped, lost := RunSkewWindow(win), 0, multiset{};
    for i := 0 to |over|
      invariant Delivers(Bag(sub, OrdinaryAnd(Tag, p, parts, over, i)), calls, lost) && |lost| == skipped
      invariant SmallTags(env, multiset(Ents(sub))) ==> AllUnreadable(lost)
    {
      var c, k, l := ResolveSkewedPrefix(sub, env, OfClass(Tag, over[i]));
      SmallParts(env, sub, OfClass(Tag, over[i]));
      assert over[i] in over;
      ClassDone(sub, Tag, p, parts, over, i, calls, lost, c, l);
      calls, skipped, lost := calls + c, skipped + k, lost + l;
    }
    PartEnds(sub, Tag, p, parts, over);
  }

  // A pass gave every file of the bag to one call or counted it.
  ghost predicate Accounts(bag: multiset<Ent>, calls: seq<seq<Ent>>, skipped: nat) {
    Flat(calls) <= bag && |bag| == |Flat(calls)| + skipped && Apart(calls)
  }

  lemma DeliveredAccounts(bag: multiset<Ent>, calls: seq<seq<Ent>>, lost: multiset<Ent>)
    requires Delivers(bag, calls, lost)
    ensures Accounts(bag, calls, |lost|) && bag - Flat(calls) == lost
  {
  }

  method ResolveSkewedKey(cs: seq<Rec>, env: Env, key: nat)
    returns (calls: seq<seq<Ent>>, skipped: nat, ghost lost: multiset<Ent>)
    ensures Delivers(Bag(cs, OfClass(CandidateKey(env), key)), calls, lost) && |lost| == skipped
    ensures Accounts(Bag(cs, OfClass(CandidateKey(env), key)), calls, skipped)
    ensures SmallTags(env, multiset(Ents(cs))) ==> AllUnreadable(lost)
  {
    var sub, unreadable, unread := HashSubSpill(cs, env, false, OfClass(CandidateKey(env), key));
    TagsClass(sub, env, false);
    var parts := Parts(|sub|, env.windowFiles);
    calls, skipped, lost := [], 0, multiset{};
    AllParts(sub, Tag, parts);
    for p := 0 to parts
      invariant Delivers(Bag(sub, Before(Tag, p, parts)), calls, lost) && |lost| == skipped
      invariant SmallTags(env, multiset(Ents(sub))) ==> AllUnreadable(lost)
    {
      var c, k, l := ResolveKeyPart(sub, env, p, parts);
      PartDone(sub, Tag, p, parts, calls, lost, c, l);
      calls, skipped, lost := calls + c, skipped + k, lost + l;
    }
    SubDone(env, Bag(cs, OfClass(CandidateKey(env), key)), multiset(Ents(sub)), unread, calls, lost);
    SmallParts(env, cs, OfClass(CandidateKey(env), key));
    skipped, lost := skipped + unreadable, lost + unread;
  }

  // The records of a partition whose key the window does not set aside.
  function InWindow(env: Env, cs: seq<Rec>, p: nat, parts: nat): Rec -> bool {
    r => InPart(CandidateKey(env)(r), p, parts)
         && !(env.keyCap > 0 && Count(cs, CandidateKey(env), CandidateKey(env)(r)) > env.keyCap)
  }

  ghost predicate PartFits(env: Env, cs: seq<Rec>, p: nat, parts: nat) {
    env.windowMax == 0 || |Bag(cs, InWindow(env, cs, p, parts))| <= env.windowMax
  }

  // The ordinary window of a partition of the candidate keys has a last-resort
  // bound.
  method CandidateWindow(cs: seq<Rec>, env: Env, p: nat, parts: nat)
    returns (calls: seq<seq<Ent>>, over: seq<nat>, crowded: nat, ghost left: multiset<Ent>)
    ensures Distinct(over) && forall k :: k in over ==> InPart(k, p, parts)
    ensures Delivers(Bag(cs, OrdinaryAnd(CandidateKey(env), p, parts, over, 0)), calls, left) && |left| == crowded
    ensures PartFits(env, cs, p, parts) ==> left == multiset{}
  {
    var win;
    win, over, crowded, left := Window(cs, CandidateKey(env), p, parts, env.keyCap, env.windowMax);
    BagSame(cs, Ordinary(CandidateKey(env), p, parts, over), InWindow(env, cs, p, parts));
    PartBegins(cs, CandidateKey(env), p, parts, over, win, left);
    calls := RunSkewWindow(win);
  }

  // One partition of the candidate keys: its window, then the keys set aside.
  method CandidatePart(cs: seq<Rec>, env: Env, p: nat, parts: nat)
    returns (calls: seq<seq<Ent>>, skipped: nat, ghost lost: multiset<Ent>)
    requires p < parts && Classed(cs, CandidateKey(env))
    ensures Delivers(Bag(cs, Within(CandidateKey(env), p, parts)), calls, lost) && |lost| == skipped
    ensures PartFits(env, cs, p, parts) && SmallTags(env, multiset(Ents(cs))) ==> AllUnreadable(lost)
  {
    var over;
    calls, over, skipped, lost := CandidateWindow(cs, env, p, parts);
    ghost var fits := PartFits(env, cs, p, parts) && SmallTags(env, multiset(Ents(cs)));
    for i := 0 to |over|
      invariant Delivers(Bag(cs, OrdinaryAnd(CandidateKey(env), p, parts, over, i)), calls, lost) && |lost| == skipped
      invariant fits ==> AllUnreadable(lost)
    {
      var c, k, l := ResolveSkewedKey(cs, env, over[i]);
      assert over[i] in over;
      ClassDone(cs, CandidateKey(env), p, parts, over, i, calls, lost, c, l);
      calls, skipped, lost := calls + c, skipped + k, lost + l;
    }
    PartEnds(cs, CandidateKey(env), p, parts, over);
  }

  // No cap fires: what each partition does not set aside fits its window, and every
  // content its group.
  ghost predicate NoCaps(env: Env, cs: seq<Rec>) {
    && SmallTags(env, multiset(Ents(cs)))
    && forall p :: 0 <= p < Parts(|cs|, env.windowFiles) ==> PartFits(env, cs, p, Parts(|cs|, env.windowFiles))
  }

  // hashCandidateWindows: over all partitions, over-populated keys, crowded
  // partitions, over-populated prefixes and terminal slices, every candidate
  // reaches exactly one grouping call or is counted, and candidates that belong
  // together never reach two. Where no cap fires only unreadable files are left.
  method HashCandidateWindows(cs: seq<Rec>, env: Env) returns (calls: seq<seq<Ent>>, skipped: nat)
    ensures Accounts(multiset(Ents(cs)), calls, skipped)
    ensures NoCaps(env, cs) ==> AllUnreadable(multiset(Ents(cs)) - Flat(calls))
  {
    var key := CandidateKey(env);
    var parts := Parts(|cs|, env.windowFiles);
    calls, skipped := [], 0;
    ghost var lost := multiset{};
    AllParts(cs, key, parts);
    for p := 0 to parts
      invariant Delivers(Bag(cs, Before(key, p, parts)), calls, lost) && |lost| == skipped
      invariant NoCaps(env, cs) ==> AllUnreadable(lost)
    {
      var c, k, l := CandidatePart(cs, env, p, parts);
      PartDone(cs, key, p, parts, calls, lost, c, l);
      calls, skipped, lost := calls + c, skipped + k, lost + l;
    }
    DeliveredAccounts(multiset(Ents(cs)), calls, lost);
  }
}
