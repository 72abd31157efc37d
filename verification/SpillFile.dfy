// The spill's record format (server/stream.go, addRaw and each): unsigned and
// zigzag varints and a length-prefixed path, read back exactly as appended.
module SpillFile {
  import opened Options

  type Byte = n: nat | n < 256
  type Bytes = seq<Byte>

  const MAX_VARINT := 10
  const TWO_63 := 0x8000_0000_0000_0000
  const TWO_64 := 0x1_0000_0000_0000_0000
  const TWO_32 := 0x1_0000_0000
  const MAX_INT32 := 0x7FFF_FFFF
  const REL_MAX := 65536

  // ------------------------------------------------------------- varints

  // Seven bits a byte, least significant first, the high bit set on all but the
  // last.
  function PutUvarint(x: nat): (b: Bytes)
    ensures b != []
  {
    if x < 128 then [x] else [x % 128 + 128] + PutUvarint(x / 128)
  }

  datatype Read<T> = Got(value: T, rest: Bytes) | Bad

  // The i-th byte of a varint: at most ten of them, the tenth at most 1.
  function UvarintFrom(s: Bytes, i: nat): Read<nat>
    requires i <= MAX_VARINT
    decreases MAX_VARINT - i
  {
    if i == MAX_VARINT || s == [] then Bad
    else if s[0] < 128 then (if i == MAX_VARINT - 1 && s[0] > 1 then Bad else Got(s[0], s[1..]))
    else match UvarintFrom(s[1..], i + 1)
      case Bad => Bad
      case Got(high, rest) => Got(s[0] - 128 + 128 * high, rest)
  }

  // Room for seven bits a byte in the bytes from i on, but one bit in the tenth.
  function Room(i: nat): nat
    requires i < MAX_VARINT
    decreases MAX_VARINT - i
  {
    if i == MAX_VARINT - 1 then 2 else 128 * Room(i + 1)
  }

  lemma RoomForAll()
    ensures Room(0) == TWO_64
  {
    assert Room(9) == 2 && Room(8) == 256 && Room(7) == 32768 && Room(6) == 4194304;
    assert Room(5) == 536870912 && Room(4) == 68719476736 && Room(3) == 8796093022208;
    assert Room(2) == 1125899906842624 && Room(1) == 144115188075855872;
  }

  lemma RoomBelow(x: nat, i: nat)
    requires i < MAX_VARINT && x < Room(i) && x >= 128
    ensures i < MAX_VARINT - 1 && x / 128 < Room(i + 1) && x % 128 + 128 * (x / 128) == x
  {
  }

  lemma ReadsLast(s: Bytes, i: nat)
    requires i < MAX_VARINT && s != [] && s[0] < 128 && s[0] < Room(i)
    ensures UvarintFrom(s, i) == Got(s[0], s[1..])
  {
  }

  lemma ReadsMore(s: Bytes, i: nat, high: nat, rest: Bytes)
    requires i < MAX_VARINT && s != [] && s[0] >= 128 && UvarintFrom(s[1..], i + 1) == Got(high, rest)
    ensures UvarintFrom(s, i) == Got(s[0] - 128 + 128 * high, rest)
  {
  }

  lemma PutsMore(x: nat, rest: Bytes)
    requires x >= 128
    ensures var s := PutUvarint(x) + rest;
      s != [] && s[0] == x % 128 + 128 && s[1..] == PutUvarint(x / 128) + rest
  {
    var high := PutUvarint(x / 128);
    assert PutUvarint(x) == [x % 128 + 128] + high;
    assert ([x % 128 + 128] + high + rest)[1..] == high + rest;
  }

  lemma {:induction false} UvarintRoundTrip(x: nat, i: nat, rest: Bytes)
    requires i < MAX_VARINT && x < Room(i)
    ensures UvarintFrom(PutUvarint(x) + rest, i) == Got(x, rest)
    decreases MAX_VARINT - i
  {
    var s := PutUvarint(x) + rest;
    if x < 128 {
      assert s[0] == x && s[1..] == rest;
      ReadsLast(s, i);
    } else {
      PutsMore(x, rest);
      RoomBelow(x, i);
      UvarintRoundTrip(x / 128, i + 1, rest);
      ReadsMore(s, i, x / 128, rest);
    }
  }

  function Uvarint(s: Bytes): Read<nat> { UvarintFrom(s, 0) }

  lemma Uvarint64(x: nat, rest: Bytes)
    requires x < TWO_64
    ensures Uvarint(PutUvarint(x) + rest) == Got(x, rest)
  {
    RoomForAll();
    UvarintRoundTrip(x, 0, rest);
  }

  // Zigzag: small negative numbers stay small.
  function ZigZag(x: int): (z: nat)
    ensures -TWO_63 <= x < TWO_63 ==> z < TWO_64
  {
    if x >= 0 then 2 * x else -2 * x - 1
  }

  function UnZigZag(z: nat): int {
    if z % 2 == 0 then z / 2 else -(z / 2) - 1
  }

  lemma ZigZagRoundTrip(x: int)
    ensures UnZigZag(ZigZag(x)) == x
  {
  }

  // ------------------------------------------------------------- records

  datatype Rec =
    Rec(rootIdx: nat, size: nat, mod: int, tag: nat, links: nat, dev: nat, ino: nat, holes: nat, rel: Bytes)

  predicate InRange(r: Rec) {
    && r.rootIdx <= MAX_INT32 && r.size < TWO_63 && -TWO_63 <= r.mod < TWO_63 && r.tag < TWO_64
    && r.links < TWO_32 && r.dev < TWO_64 && r.ino < TWO_64 && r.holes <= r.size && |r.rel| <= REL_MAX
  }

  function Numbers(r: Rec): seq<nat> {
    [r.rootIdx, r.size, ZigZag(r.mod), r.tag, r.links, r.dev, r.ino, r.holes, |r.rel|]
  }

  function PutAll(ns: seq<nat>): Bytes {
    if ns == [] then [] else PutUvarint(ns[0]) + PutAll(ns[1..])
  }

  function EncodeRec(r: Rec): Bytes {
    PutAll(Numbers(r)) + r.rel
  }

  function ReadAll(s: Bytes, n: nat): Read<seq<nat>>
    decreases n
  {
    if n == 0 then Got([], s)
    else match Uvarint(s)
      case Bad => Bad
      case Got(x, rest) =>
        match ReadAll(rest, n - 1)
        case Bad => Bad
        case Got(xs, rest') => Got([x] + xs, rest')
  }

  lemma {:induction false} NumbersRoundTrip(ns: seq<nat>, rest: Bytes)
    requires forall i :: 0 <= i < |ns| ==> ns[i] < TWO_64
    ensures ReadAll(PutAll(ns) + rest, |ns|) == Got(ns, rest)
  {
    if ns == [] {
      assert PutAll(ns) + rest == rest;
    } else {
      var tail := PutAll(ns[1..]) + rest;
      assert PutAll(ns) + rest == PutUvarint(ns[0]) + tail;
      Uvarint64(ns[0], tail);
      NumbersRoundTrip(ns[1..], rest);
      assert ns == [ns[0]] + ns[1..];
    }
  }

  // The numbers read, with each range check; a record out of range is a corrupt
  // spill.
  function DecodeRec(s: Bytes): Read<Rec> {
    match ReadAll(s, 9)
    case Bad => Bad
    case Got(ns, rest) =>
      if |ns| != 9 || ns[4] >= TWO_32 || ns[7] > ns[1] || ns[8] > REL_MAX || ns[0] > MAX_INT32 || |rest| < ns[8]
      then Bad
      else Got(Rec(ns[0], ns[1], UnZigZag(ns[2]), ns[3], ns[4], ns[5], ns[6], ns[7], rest[..ns[8]]), rest[ns[8]..])
  }

  lemma RecRoundTrip(r: Rec, rest: Bytes)
    requires InRange(r)
    ensures DecodeRec(EncodeRec(r) + rest) == Got(r, rest)
  {
    var ns, tail := Numbers(r), r.rel + rest;
    assert EncodeRec(r) + rest == PutAll(ns) + tail;
    NumbersRoundTrip(ns, tail);
    ZigZagRoundTrip(r.mod);
    assert tail[..|r.rel|] == r.rel && tail[|r.rel|..] == rest;
  }

  function EncodeRecs(rs: seq<Rec>): Bytes {
    if rs == [] then [] else EncodeRec(rs[0]) + EncodeRecs(rs[1..])
  }

  lemma {:induction false} EncodeAppend(rs: seq<Rec>, r: Rec)
    ensures EncodeRecs(rs + [r]) == EncodeRecs(rs) + EncodeRec(r)
  {
    if rs == [] {
      assert rs + [r] == [r] && EncodeRecs([]) == [];
    } else {
      assert (rs + [r])[1..] == rs[1..] + [r];
      EncodeAppend(rs[1..], r);
    }
  }

  // ------------------------------------------------------------- the spill

  method PutNumbers(ns: seq<nat>) returns (buf: Bytes)
    ensures buf == PutAll(ns)
  {
    buf := [];
    assert ns[0..] == ns;
    for i := 0 to |ns|
      invariant buf + PutAll(ns[i..]) == PutAll(ns)
    {
      PutNext(buf, ns, i);
      buf := buf + PutUvarint(ns[i]);
    }
  }

  lemma PutNext(buf: Bytes, ns: seq<nat>, i: nat)
    requires i < |ns|
    ensures buf + PutAll(ns[i..]) == (buf + PutUvarint(ns[i])) + PutAll(ns[i + 1..])
  {
    assert ns[i..][1..] == ns[i + 1..];
  }

  method ReadRec(s: Bytes, ghost r: Rec, ghost more: Bytes) returns (got: Read<Rec>)
    requires InRange(r) && s == EncodeRec(r) + more
    ensures got == Got(r, more)
  {
    RecRoundTrip(r, more);
    got := DecodeRec(s);
  }

  class Spill {
    var file: Bytes
    var n: nat
    ghost var recs: seq<Rec>

    ghost predicate Valid()
      reads this
    {
      file == EncodeRecs(recs) && n == |recs| && forall r :: r in recs ==> InRange(r)
    }

    constructor ()
      ensures Valid() && recs == []
    {
      file, n, recs := [], 0, [];
    }

    method AddRaw(r: Rec)
      requires Valid() && InRange(r)
      modifies this
      ensures Valid() && recs == old(recs) + [r]
    {
      var buf := PutNumbers(Numbers(r));
      EncodeAppend(recs, r);
      file := file + (buf + r.rel);
      n := n + 1;
      recs := recs + [r];
    }

    // Every record, in order, and no complaint.
    method Each() returns (out: Option<seq<Rec>>)
      requires Valid()
      ensures out == Some(recs)
    {
      var rs, rest := [], file;
      assert recs[0..] == recs;
      for i := 0 to n
        invariant rs == recs[..i] && rest == EncodeRecs(recs[i..])
      {
        assert recs[i..][0] == recs[i] && recs[i..][1..] == recs[i + 1..];
        var got := ReadRec(rest, recs[i], EncodeRecs(recs[i + 1..]));
        if got.Bad? { return None; }
        rs, rest := rs + [got.value], got.rest;
      }
      assert recs[..n] == recs;
      return Some(rs);
    }
  }
}
