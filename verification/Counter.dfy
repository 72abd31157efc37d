// The candidate counter (server/stream.go, keyCounter): exact while the keys
// are few, then two saturating two-bit counters a key in a packed table. It
// never misses a key added twice.
module Counter {
  function Mix(x0: bv64): bv64 {
    var x1 := x0 ^ (x0 >> 33);
    var x2 := x1 * 0xff51afd7ed558ccd;
    var x3 := x2 ^ (x2 >> 33);
    var x4 := x3 * 0xc4ceb9fe1a85ec53;
    x4 ^ (x4 >> 33)
  }

  // Masking with slots - 1, slots being a power of two, is the remainder.
  function Masked(n: nat, slots: nat): (p: nat)
    requires slots > 0
    ensures p < slots
  {
    n % slots
  }

  // A 64-bit key.
  type Key = n: nat | n < 0x1_0000_0000_0000_0000

  // splitmix64's finalizer as the second hash of a key; nothing below depends on
  // which function it is.
  function Mixed(key: Key): nat { Mix(key as bv64) as nat }

  function Slot1(key: Key, slots: nat): (p: nat)
    requires slots > 0
    ensures p < slots
  {
    Masked(key, slots)
  }

  function Slot2(mix: Key -> nat, key: Key, slots: nat): (p: nat)
    requires slots > 0
    ensures p < slots
  {
    Masked(mix(key), slots)
  }

  function Shift(p: nat): nat { (p % 4) * 2 }

  function Read(b: bv8, sh: nat): bv8
    requires sh <= 6
  {
    (b >> sh) & 3
  }

  function Written(b: bv8, sh: nat, v: bv8): bv8
    requires sh <= 6
  {
    (b & !((3 as bv8) << sh)) | (v << sh)
  }

  // Writing two bits of a byte changes no other pair.
  lemma PackedWrite(b: bv8, sh: nat, other: nat, v: bv8)
    requires sh in {0, 2, 4, 6} && other in {0, 2, 4, 6} && v <= 3
    ensures Read(Written(b, sh, v), other) == if sh == other then v else Read(b, other)
  {
    match sh {
      case 0 => Write0(b, v);
      case 2 => Write2(b, v);
      case 4 => Write4(b, v);
      case _ => Write6(b, v);
    }
  }

  lemma Write0(b: bv8, v: bv8)
    requires v <= 3
    ensures Read(Written(b, 0, v), 0) == v && Read(Written(b, 0, v), 2) == Read(b, 2)
    ensures Read(Written(b, 0, v), 4) == Read(b, 4) && Read(Written(b, 0, v), 6) == Read(b, 6)
  {
  }

  lemma Write2(b: bv8, v: bv8)
    requires v <= 3
    ensures Read(Written(b, 2, v), 2) == v && Read(Written(b, 2, v), 0) == Read(b, 0)
    ensures Read(Written(b, 2, v), 4) == Read(b, 4) && Read(Written(b, 2, v), 6) == Read(b, 6)
  {
  }

  lemma Write4(b: bv8, v: bv8)
    requires v <= 3
    ensures Read(Written(b, 4, v), 4) == v && Read(Written(b, 4, v), 0) == Read(b, 0)
    ensures Read(Written(b, 4, v), 2) == Read(b, 2) && Read(Written(b, 4, v), 6) == Read(b, 6)
  {
  }

  lemma Write6(b: bv8, v: bv8)
    requires v <= 3
    ensures Read(Written(b, 6, v), 6) == v && Read(Written(b, 6, v), 0) == Read(b, 0)
    ensures Read(Written(b, 6, v), 2) == Read(b, 2) && Read(Written(b, 6, v), 4) == Read(b, 4)
  {
  }

  function Get(tab: seq<bv8>, p: nat): bv8
    requires p < 4 * |tab|
  {
    Read(tab[p / 4], Shift(p))
  }

  // What one bump leaves: the slot one higher, two at most, every other as it was.
  ghost predicate Bumped(before: seq<bv8>, after: seq<bv8>, p: nat)
    requires |before| == |after| && p < 4 * |before|
  {
    && Get(after, p) == (if Get(before, p) < 2 then Get(before, p) + 1 else Get(before, p))
    && forall q: nat :: q < 4 * |before| && q != p ==> Get(after, q) == Get(before, q)
  }

  lemma BumpIsLocal(tab: seq<bv8>, p: nat)
    requires p < 4 * |tab| && Get(tab, p) < 2
    ensures Bumped(tab, tab[p / 4 := Written(tab[p / 4], Shift(p), Get(tab, p) + 1)], p)
  {
    var v := Get(tab, p) + 1;
    var after := tab[p / 4 := Written(tab[p / 4], Shift(p), v)];
    forall q: nat | q < 4 * |tab| ensures Get(after, q) == if q == p then v else Get(tab, q) {
      if q / 4 == p / 4 { PackedWrite(tab[p / 4], Shift(p), Shift(q), v); }
    }
  }

  // ---------------------------------------------------------------- the table

  // The slots of a key hold at least its count, or two.
  ghost predicate Covers(mix: Key -> nat, tab: seq<bv8>, key: Key, count: nat)
    requires |tab| > 0
  {
    var a, b := Slot1(key, 4 * |tab|), Slot2(mix, key, 4 * |tab|);
    && (count >= 1 ==> Get(tab, a) >= 1 && Get(tab, b) >= 1)
    && (count >= 2 ==> Get(tab, a) >= 2 && Get(tab, b) >= 2)
  }

  ghost predicate NoLower(before: seq<bv8>, after: seq<bv8>) {
    |before| == |after| && forall p: nat :: p < 4 * |before| ==> Get(after, p) >= Get(before, p)
  }

  lemma CoversGrows(mix: Key -> nat, before: seq<bv8>, after: seq<bv8>, key: Key, count: nat)
    requires |before| > 0 && NoLower(before, after) && Covers(mix, before, key, count)
    ensures Covers(mix, after, key, count)
  {
  }

  lemma TwoBumps(mix: Key -> nat, t0: seq<bv8>, t1: seq<bv8>, t2: seq<bv8>, key: Key, count: nat)
    requires |t0| == |t1| == |t2| > 0 && Covers(mix, t0, key, count)
    requires Bumped(t0, t1, Slot1(key, 4 * |t0|)) && Bumped(t1, t2, Slot2(mix, key, 4 * |t0|))
    ensures NoLower(t0, t2) && Covers(mix, t2, key, count + 1)
  {
    var a, b := Slot1(key, 4 * |t0|), Slot2(mix, key, 4 * |t0|);
    assert Get(t0, a) <= 3 && Get(t0, b) <= 3;
    assert NoLower(t0, t1) && NoLower(t1, t2);
  }

  method BumpAt(tab: array<bv8>, p: nat)
    requires p < 4 * tab.Length
    modifies tab
    ensures Bumped(old(tab[..]), tab[..], p)
  {
    var v := Read(tab[p / 4], Shift(p));
    if v < 2 {
      BumpIsLocal(tab[..], p);
      tab[p / 4] := Written(tab[p / 4], Shift(p), v + 1);
    }
  }

  // ------------------------------------------------------------ the counter

  function Capped(n: nat): nat { if n < 2 then n else 2 }

  function Counted(exact: map<Key, nat>, key: Key): nat {
    if key in exact then exact[key] else 0
  }

  class KeyCounter {
    const mix: Key -> nat
    const exactMax: nat
    const bytes: nat
    var degraded: bool
    var exact: map<Key, nat>
    var tab: array<bv8>
    ghost var added: multiset<Key>

    ghost predicate Valid()
      reads this, tab
    {
      if degraded then tab.Length == bytes > 0 && forall k :: Covers(mix, tab[..], k, added[k])
      else forall k :: Counted(exact, k) == Capped(added[k])
    }

    constructor (mix: Key -> nat, exactMax: nat, bytes: nat)
      requires bytes > 0
      ensures Valid() && !degraded && added == multiset{} && this.exactMax == exactMax && this.bytes == bytes
      ensures fresh(tab) && exact == map[]
    {
      this.mix, this.exactMax, this.bytes := mix, exactMax, bytes;
      degraded, exact, added := false, map[], multiset{};
      tab := new bv8[0];
    }

    method Add(key: Key)
      requires Valid() && bytes > 0
      modifies this, tab
      ensures Valid() && added == old(added) + multiset{key}
      ensures tab == old(tab) || fresh(tab)
      ensures degraded == (old(degraded) || |exact| > exactMax)
      ensures |exact| <= |old(exact)| + 1
    {
      ghost var before := added;
      added := added + multiset{key};
      assert added[key] == before[key] + 1 && forall k :: k != key ==> added[k] == before[k];
      if !degraded {
        var c := if key in exact then exact[key] else 0;
        if c < 2 { exact := exact[key := c + 1]; }
        if |exact| > exactMax { Degrade(); }
        return;
      }
      Bump(key, before[key]);
      forall k ensures Covers(mix, tab[..], k, added[k]) {
        if k != key { CoversGrows(mix, old(tab[..]), tab[..], k, added[k]); }
      }
    }

    method Bump(key: Key, ghost count: nat)
      requires tab.Length == bytes > 0 && Covers(mix, tab[..], key, count)
      modifies tab
      ensures NoLower(old(tab[..]), tab[..]) && Covers(mix, tab[..], key, count + 1)
    {
      ghost var t0 := tab[..];
      BumpAt(tab, Slot1(key, 4 * tab.Length));
      ghost var t1 := tab[..];
      BumpAt(tab, Slot2(mix, key, 4 * tab.Length));
      TwoBumps(mix, t0, t1, tab[..], key, count);
    }

    // The exact counts are replayed into the table, and the map is freed.
    method Degrade()
      requires Valid() && !degraded && bytes > 0
      modifies this`degraded, this`exact, this`tab
      ensures Valid() && degraded && added == old(added) && fresh(tab)
      ensures exact == old(exact)
    {
      tab := new bv8[bytes](i => 0);
      var todo := exact.Keys;
      while todo != {}
        invariant exact == old(exact) && todo <= exact.Keys && fresh(tab) && tab.Length == bytes
        invariant forall k :: k in exact && k !in todo ==> Covers(mix, tab[..], k, exact[k])
      {
        var key :| key in todo;
        todo := todo - {key};
        ghost var before := tab[..];
        Bump(key, 0);
        if exact[key] >= 2 { Bump(key, 1); }
        forall k | k in exact && k !in todo ensures Covers(mix, tab[..], k, exact[k]) {
          if k != key { CoversGrows(mix, before, tab[..], k, exact[k]); }
        }
      }
      degraded := true;
      forall k ensures Covers(mix, tab[..], k, added[k]) { assert Counted(exact, k) == Capped(added[k]); }
    }

    // Never a miss; a false alarm only once the table has taken over, and then
    // only where both slots are full.
    method Hot(key: Key) returns (hot: bool)
      requires Valid()
      ensures added[key] >= 2 ==> hot
      ensures !degraded ==> (hot <==> added[key] >= 2)
      ensures degraded && hot ==>
        Get(tab[..], Slot1(key, 4 * tab.Length)) >= 2 && Get(tab[..], Slot2(mix, key, 4 * tab.Length)) >= 2
    {
      if !degraded {
        assert Counted(exact, key) == Capped(added[key]);
        return key in exact && exact[key] >= 2;
      }
      assert Covers(mix, tab[..], key, added[key]);
      var a, b := Slot1(key, 4 * tab.Length), Slot2(mix, key, 4 * tab.Length);
      return Read(tab[a / 4], Shift(a)) >= 2 && Read(tab[b / 4], Shift(b)) >= 2;
    }
  }

  // --------------------------------------------------------------- distilling

  function Keys<T>(keyOf: T -> Key, rs: seq<T>): (ks: seq<Key>)
    ensures |ks| == |rs| && forall i :: 0 <= i < |rs| ==> ks[i] == keyOf(rs[i])
  {
    seq(|rs|, i requires 0 <= i < |rs| => keyOf(rs[i]))
  }

  // The records chosen, in order.
  function Chosen<T>(rs: seq<T>, pick: seq<bool>): seq<T>
    requires |pick| == |rs|
  {
    if rs == [] then []
    else
      var n := |rs| - 1;
      Chosen(rs[..n], pick[..n]) + if pick[n] then [rs[n]] else []
  }

  ghost predicate Repeats(ks: seq<Key>, i: nat)
    requires i < |ks|
  {
    exists j :: 0 <= j < |ks| && j != i && ks[j] == ks[i]
  }

  // A key counted twice is one that repeats.
  lemma {:induction false} CountedTwice(ks: seq<Key>, i: nat)
    requires i < |ks|
    ensures Repeats(ks, i) <==> multiset(ks)[ks[i]] >= 2
  {
    var rest := ks[..i] + ks[i + 1..];
    assert ks == ks[..i] + [ks[i]] + ks[i + 1..];
    assert multiset(ks) == multiset(rest) + multiset{ks[i]};
    if Repeats(ks, i) {
      var j :| 0 <= j < |ks| && j != i && ks[j] == ks[i];
      assert rest[if j < i then j else j - 1] == ks[i];
      assert ks[i] in multiset(rest);
    }
    if multiset(ks)[ks[i]] >= 2 {
      assert ks[i] in multiset(rest) && ks[i] in rest;
      var k :| 0 <= k < |rest| && rest[k] == ks[i];
      assert ks[if k < i then k else k + 1] == ks[i];
    }
  }

  // One walk feeds the counter, a second pass distils: every record whose key
  // repeats is kept, whatever the size of the table, and while the counter was
  // exact no other.
  method Distil<T>(rs: seq<T>, keyOf: T -> Key, exactMax: nat, bytes: nat) returns (kept: seq<T>, pick: seq<bool>)
    requires bytes > 0
    ensures |pick| == |rs| && kept == Chosen(rs, pick)
    ensures forall i :: 0 <= i < |rs| && Repeats(Keys(keyOf, rs), i) ==> pick[i]
    ensures |rs| <= exactMax ==> forall i :: 0 <= i < |rs| && pick[i] ==> Repeats(Keys(keyOf, rs), i)
  {
    var c := new KeyCounter(Mixed, exactMax, bytes);
    ghost var ks := Keys(keyOf, rs);
    for i := 0 to |rs|
      invariant fresh(c) && fresh(c.tab) && c.Valid() && c.bytes == bytes && c.exactMax == exactMax
      invariant c.added == multiset(ks[..i])
      invariant i <= exactMax ==> !c.degraded
      invariant |c.exact| <= i
    {
      assert ks[..i + 1] == ks[..i] + [ks[i]];
      c.Add(keyOf(rs[i]));
    }
    assert ks[..|rs|] == ks;
    kept, pick := [], [];
    for i := 0 to |rs|
      invariant |pick| == i && kept == Chosen(rs[..i], pick)
      invariant c.Valid() && c.added == multiset(ks) && (|rs| <= exactMax ==> !c.degraded)
      invariant forall k :: 0 <= k < i && Repeats(ks, k) ==> pick[k]
      invariant |rs| <= exactMax ==> forall k :: 0 <= k < i && pick[k] ==> Repeats(ks, k)
    {
      CountedTwice(ks, i);
      var hot := c.Hot(keyOf(rs[i]));
      assert rs[..i + 1][..i] == rs[..i] && (pick + [hot])[..i] == pick;
      pick := pick + [hot];
      if hot { kept := kept + [rs[i]]; }
    }
    assert rs[..|rs|] == rs;
  }
}
