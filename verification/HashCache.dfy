// The store of full-content hashes (server/hashcache.go). Within one scan it
// saves reads; across scans it is history, never authority.
//
// Times and sizes are numbers, digests strings of hex digits. The 64-bit bucket
// of a path is an arbitrary function keyOf: buckets may collide, the tag, here
// the path itself, does not.
module HashCache {
  import opened Options

  // reader: the run that recorded it. No operation reads it; the generation gate is
  // stated in its terms (module Resume).
  datatype Ent = Ent(size: int, mod: int, tag: string, pfx: string, hash: string, gen: nat, reader: nat)

  datatype Changed = Changed(tag: string, prior: string)

  const PFX_DIGITS := 32
  const HASH_DIGITS := 64
  const CHANGED_MAX := 131072

  type Ents = map<nat, Ent>

  // The entry is this path's, recorded at this size and time.
  predicate SameFile(e: Ent, path: string, size: int, mod: int) {
    e.size == size && e.mod == mod && e.tag == path
  }

  predicate SamePrefix(e: Ent, pfx: string)
    requires |pfx| >= PFX_DIGITS
  {
    e.pfx == pfx[..PFX_DIGITS]
  }

  function Looked(ents: Ents, gen: nat, key: nat, path: string, size: int, mod: int, pfx: string): Option<string> {
    if |pfx| >= PFX_DIGITS && key in ents && ents[key].gen == gen
       && SameFile(ents[key], path, size, mod) && SamePrefix(ents[key], pfx)
    then Some(ents[key].hash) else None
  }

  // Evidence of rot: another generation saw this file at this size and time
  // with other content.
  predicate Displaces(ents: Ents, gen: nat, key: nat, path: string, size: int, mod: int, pfx: string, full: string)
    requires |pfx| >= PFX_DIGITS
  {
    && key in ents && ents[key].gen != gen && SameFile(ents[key], path, size, mod)
    && (!SamePrefix(ents[key], pfx) || ents[key].hash != full)
  }

  // ------------------------------------------------------------- trimming

  ghost predicate Subset(small: Ents, big: Ents) {
    forall k :: k in small ==> k in big && small[k] == big[k]
  }

  // History is given up only once nothing of this generation is left.
  ghost predicate HistoryLast(before: Ents, after: Ents, gen: nat) {
    (exists k :: k in before && k !in after && before[k].gen != gen) ==>
      forall k :: k in after ==> after[k].gen != gen
  }

  function AtLeast(ents: Ents, c: nat): set<nat> {
    set k | k in ents && ents[k].gen >= c
  }

  function Above(ents: Ents, c: nat): set<nat> {
    set k | k in ents && ents[k].gen > c
  }

  // The generation of the keep-th newest entry.
  ghost predicate Boundary(ents: Ents, keep: nat, c: nat) {
    |Above(ents, c)| < keep <= |AtLeast(ents, c)|
  }

  ghost predicate NoneOlder(before: Ents, after: Ents, keep: nat) {
    |before| > keep ==> exists c :: Boundary(before, keep, c) && forall k :: k in after ==> after[k].gen >= c
  }

  // The n newest entries, and the last of them.
  method NewestKeys(ents: Ents, n: nat) returns (taken: set<nat>, last: nat)
    requires 1 <= n <= |ents|
    ensures taken <= ents.Keys && |taken| == n && last in taken
    ensures forall i :: i in taken ==> ents[i].gen >= ents[last].gen
    ensures forall j :: j in ents && j !in taken ==> ents[j].gen <= ents[last].gen
  {
    var left := ents.Keys;
    assert |left| == |ents|;
    last := Newest(ents, left);
    taken, left := {last}, left - {last};
    while |taken| < n
      invariant last in taken && left + taken == ents.Keys && left !! taken && |taken| <= n
      invariant |left| + |taken| == |ents|
      invariant forall i :: i in taken ==> ents[i].gen >= ents[last].gen
      invariant forall j :: j in left ==> ents[j].gen <= ents[last].gen
    {
      last := Newest(ents, left);
      left, taken := left - {last}, taken + {last};
    }
  }

  // The generation on the boundary: sort newest first and index.
  method CutoffOf(ents: Ents, keep: nat) returns (c: nat)
    requires 1 <= keep < |ents|
    ensures Boundary(ents, keep, c)
  {
    var taken, last := NewestKeys(ents, keep);
    c := ents[last].gen;
    Cards(taken, AtLeast(ents, c));
    Cards(Above(ents, c), taken - {last});
  }

  lemma Cards(a: set<nat>, b: set<nat>)
    requires a <= b
    ensures |a| <= |b|
  {
    assert b == a + (b - a);
  }

  method Newest(ents: Ents, left: set<nat>) returns (top: nat)
    requires left != {} && left <= ents.Keys
    ensures top in left && forall k :: k in left ==> ents[k].gen <= ents[top].gen
  {
    top :| top in left;
    var todo := left - {top};
    while todo != {}
      invariant todo <= left && top in left
      invariant forall k :: k in left && k !in todo ==> ents[k].gen <= ents[top].gen
    {
      var k :| k in todo;
      if ents[k].gen > ents[top].gen { top := k; }
      todo := todo - {k};
    }
  }

  // ------------------------------------------------------------- the cache

  class Cache {
    const keyOf: string -> nat
    const max: nat
    const high: nat
    var gen: nat
    var ents: Ents
    var changed: map<nat, Changed>

    constructor (keyOf: string -> nat, max: nat, high: nat, gen: nat, ents: Ents)
      ensures this.keyOf == keyOf && this.max == max && this.high == high
      ensures this.gen == gen && this.ents == ents && changed == map[]
    {
      this.keyOf, this.max, this.high, this.gen, this.ents, changed := keyOf, max, high, gen, ents, map[];
    }

    method Lookup(path: string, size: int, mod: int, pfx: string) returns (hash: Option<string>)
      ensures hash == Looked(ents, gen, keyOf(path), path, size, mod, pfx)
    {
      if |pfx| < PFX_DIGITS { return None; }
      var key := keyOf(path);
      if key !in ents { return None; }
      var e := ents[key];
      if e.gen != gen || e.size != size || e.mod != mod || e.tag != path { return None; }
      for i := 0 to PFX_DIGITS
        invariant forall j :: 0 <= j < i && j < |e.pfx| ==> e.pfx[j] == pfx[j]
        invariant i <= |e.pfx|
      {
        if i >= |e.pfx| || e.pfx[i] != pfx[i] { return None; }
      }
      if |e.pfx| > PFX_DIGITS { return None; }
      assert e.pfx == pfx[..PFX_DIGITS];
      return Some(e.hash);
    }

    method PriorContentChanged(path: string, size: int, mod: int, pfx: string) returns (prior: Option<string>)
      ensures prior.Some? <==>
                (|pfx| >= PFX_DIGITS &&
                 ((keyOf(path) in changed && changed[keyOf(path)].tag == path)
                  || (keyOf(path) in ents && ents[keyOf(path)].gen != gen
                      && SameFile(ents[keyOf(path)], path, size, mod) && !SamePrefix(ents[keyOf(path)], pfx))))
      ensures prior.Some? ==>
                ((keyOf(path) in changed && prior.value == changed[keyOf(path)].prior)
                 || (keyOf(path) in ents && ents[keyOf(path)].gen != gen && prior.value == ents[keyOf(path)].hash))
    {
      if |pfx| < PFX_DIGITS { return None; }
      var key := keyOf(path);
      if key in changed && changed[key].tag == path { return Some(changed[key].prior); }
      if key !in ents || ents[key].gen == gen || !SameFile(ents[key], path, size, mod) { return None; }
      return if SamePrefix(ents[key], pfx) then None else Some(ents[key].hash);
    }

    // Stores a fresh read; reports the content it displaced when that is
    // evidence, and captures it, room permitting.
    method Record(path: string, size: int, mod: int, pfx: string, full: string, reader: nat)
      returns (moved: bool, prior: string)
      requires 1 <= max
      modifies this`ents, this`changed
      ensures |pfx| < PFX_DIGITS || |full| != HASH_DIGITS ==> !moved && ents == old(ents) && changed == old(changed)
      ensures |pfx| >= PFX_DIGITS && |full| == HASH_DIGITS ==>
        var key := keyOf(path);
        var entry := Ent(size, mod, path, pfx[..PFX_DIGITS], full, gen, reader);
        && (moved <==> Displaces(old(ents), gen, key, path, size, mod, pfx, full))
        && (moved ==> prior == old(ents)[key].hash)
        && Subset(ents, old(ents)[key := entry])
        && HistoryLast(old(ents)[key := entry], ents, gen)
        && (|old(ents)[key := entry]| <= high ==> ents == old(ents)[key := entry])
        && changed == (if moved && |old(changed)| < CHANGED_MAX then old(changed)[key := Changed(path, prior)]
                       else old(changed))
    {
      if |pfx| < PFX_DIGITS || |full| != HASH_DIGITS { return false, ""; }
      var key := keyOf(path);
      moved, prior := false, "";
      if key in ents && ents[key].gen != gen && SameFile(ents[key], path, size, mod)
        && (!SamePrefix(ents[key], pfx) || ents[key].hash != full) {
        moved, prior := true, ents[key].hash;
        if |changed| < CHANGED_MAX { changed := changed[key := Changed(path, prior)]; }
      }
      ents := ents[key := Ent(size, mod, path, pfx[..PFX_DIGITS], full, gen, reader)];
      if |ents| > high { TrimMidScan(max); }
    }

    method TrimMidScan(keep: nat)
      requires 1 <= keep
      modifies this`ents
      ensures if |old(ents)| <= keep then ents == old(ents) else |ents| == keep
      ensures Subset(ents, old(ents)) && HistoryLast(old(ents), ents, gen)
    {
      var todo := ents.Keys;
      while todo != {}
        invariant todo <= ents.Keys <= old(ents).Keys && Subset(ents, old(ents))
        invariant |old(ents)| <= keep ==> ents == old(ents)
        invariant |old(ents)| > keep ==> |ents| >= keep
        invariant forall k :: k in old(ents) && k !in ents ==> old(ents)[k].gen == gen
        invariant forall k :: k in ents && k !in todo ==> ents[k].gen != gen
      {
        if |ents| <= keep { return; }
        var k :| k in todo;
        todo := todo - {k};
        if ents[k].gen == gen { ents := ents - {k}; }
      }
      Trim(keep);
    }

    // The newest generations stay; among those left, which ones is not promised.
    method Trim(keep: nat)
      requires 1 <= keep
      modifies this`ents
      ensures if |old(ents)| <= keep then ents == old(ents) else |ents| == keep
      ensures Subset(ents, old(ents)) && NoneOlder(old(ents), ents, keep)
    {
      if |ents| <= keep { return; }
      var cutoff := CutoffOf(ents, keep);
      ents := map k | k in ents && ents[k].gen >= cutoff :: ents[k];
      assert ents.Keys == AtLeast(old(ents), cutoff) && |ents.Keys| == |ents|;
      var todo := ents.Keys;
      while |ents| > keep
        invariant todo == ents.Keys && Subset(ents, old(ents)) && |ents| >= keep
        invariant forall k :: k in ents ==> ents[k].gen >= cutoff
      {
        assert |ents.Keys| == |ents|;
        var k :| k in todo;
        ents, todo := ents - {k}, todo - {k};
      }
    }

    // The store file of a mid-scan save holds at most max entries, newest first;
    // nothing leaves the map.
    method SaveMid() returns (written: Ents)
      ensures Subset(written, ents) && |written| <= max
      ensures |ents| <= max ==> written == ents
      ensures forall k, d :: k in written && d in ents && d !in written ==> ents[d].gen <= ents[k].gen
    {
      if |ents| <= max { return ents; }
      if max == 0 { return map[]; }
      var taken, last := NewestKeys(ents, max);
      written := map k | k in taken :: ents[k];
      assert written.Keys == taken && |written.Keys| == |written|;
    }
  }
}
