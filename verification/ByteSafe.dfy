// File names are bytes, JSON is Unicode: the escape that carries any byte string
// through (server/bytesafe.go, escapeBytes, unescapeBytes). Well-formed sequences
// are those of section 4 of RFC 3629.
module ByteSafe {
  type Byte = n: nat | n < 256
  type Bytes = seq<Byte>

  const RUNE_ERROR := 0xFFFD
  const ESC_BASE := 0x10FE00

  predicate Tail(b: Byte) { 0x80 <= b <= 0xBF }

  // The second byte a lead byte admits.
  predicate Second(lead: Byte, b: Byte) {
    if lead == 0xE0 then 0xA0 <= b <= 0xBF
    else if lead == 0xED then 0x80 <= b <= 0x9F
    else if lead == 0xF0 then 0x90 <= b <= 0xBF
    else if lead == 0xF4 then 0x80 <= b <= 0x8F
    else Tail(b)
  }

  // Six bits a tail byte, most significant first.
  function Join6(high: nat, t: Byte): nat
    requires Tail(t)
  {
    high * 64 + (t - 0x80)
  }

  predicate Starts2(s: Bytes) { |s| >= 2 && 0xC2 <= s[0] <= 0xDF && Tail(s[1]) }

  predicate Starts3(s: Bytes) { |s| >= 3 && 0xE0 <= s[0] <= 0xEF && Second(s[0], s[1]) && Tail(s[2]) }

  predicate Starts4(s: Bytes) {
    |s| >= 4 && 0xF0 <= s[0] <= 0xF4 && Second(s[0], s[1]) && Tail(s[2]) && Tail(s[3])
  }

  // DecodeRuneInString: the rune the string starts with and its width; a byte
  // that starts no well-formed sequence is an error one byte wide.
  function Decode(s: Bytes): (d: (nat, nat))
    requires s != []
    ensures 1 <= d.1 <= 4 && d.1 <= |s|
  {
    if s[0] < 0x80 then (s[0], 1)
    else if Starts2(s) then (Join6(s[0] - 0xC0, s[1]), 2)
    else if Starts3(s) then (Join6(Join6(s[0] - 0xE0, s[1]), s[2]), 3)
    else if Starts4(s) then (Join6(Join6(Join6(s[0] - 0xF0, s[1]), s[2]), s[3]), 4)
    else (RUNE_ERROR, 1)
  }

  predicate Malformed(d: (nat, nat)) { d == (RUNE_ERROR, 1) }

  predicate Scalar(r: nat) { r < 0xD800 || 0xE000 <= r <= 0x10FFFF }

  function Low6(r: nat): Byte { 0x80 + r % 64 }

  // AppendRune.
  function Encode(r: nat): Bytes
    requires Scalar(r)
  {
    if r < 0x80 then [r]
    else if r < 0x800 then [0xC0 + r / 64, Low6(r)]
    else if r < 0x10000 then [0xE0 + r / 64 / 64, Low6(r / 64), Low6(r)]
    else [0xF0 + r / 64 / 64 / 64, Low6(r / 64 / 64), Low6(r / 64), Low6(r)]
  }

  lemma Split6(high: nat, t: Byte)
    requires Tail(t)
    ensures Join6(high, t) / 64 == high && Low6(Join6(high, t)) == t
  {
  }

  lemma Rejoin6(r: nat)
    ensures Join6(r / 64, Low6(r)) == r
  {
  }

  // The decoder reads exactly what the encoder writes, whatever follows.
  lemma DecodeEncode(r: nat, rest: Bytes)
    requires Scalar(r)
    ensures Decode(Encode(r) + rest) == (r, |Encode(r)|)
  {
    Rejoin6(r);
    Rejoin6(r / 64);
    Rejoin6(r / 64 / 64);
    Starts(r, Encode(r) + rest);
  }

  lemma Starts(r: nat, s: Bytes)
    requires Scalar(r) && Encode(r) <= s
    ensures 0x80 <= r < 0x800 ==> Starts2(s)
    ensures 0x800 <= r < 0x10000 ==> Starts3(s)
    ensures r >= 0x10000 ==> Starts4(s)
  {
    var e := Encode(r);
    assert forall i :: 0 <= i < |e| ==> s[i] == e[i];
  }

  // And nothing else: a sequence it accepts is the one encoding of its rune.
  lemma EncodeDecode(s: Bytes)
    requires s != [] && !Malformed(Decode(s))
    ensures Scalar(Decode(s).0) && s[..Decode(s).1] == Encode(Decode(s).0)
  {
    if s[0] < 0x80 {
    } else if Starts2(s) {
      Split6(s[0] - 0xC0, s[1]);
    } else if Starts3(s) {
      var h := Join6(s[0] - 0xE0, s[1]);
      Split6(s[0] - 0xE0, s[1]);
      Split6(h, s[2]);
    } else {
      var h := Join6(s[0] - 0xF0, s[1]);
      Split6(s[0] - 0xF0, s[1]);
      Split6(h, s[2]);
      Split6(Join6(h, s[2]), s[3]);
    }
  }

  predicate IsEscapeRune(r: nat) { ESC_BASE + 0x80 <= r <= ESC_BASE + 0xFF }

  predicate ValidUtf8(s: Bytes) {
    s == [] || (!Malformed(Decode(s)) && ValidUtf8(s[Decode(s).1..]))
  }

  // ------------------------------------------------------------- the codec

  // The escape rune of a byte, as AppendRune writes it.
  function EscapeRune(c: Byte): (e: Bytes)
    requires c >= 0x80
    ensures |e| == 4
  {
    [0xF4, 0x8F, 0xB8 + c / 64, 0x80 + c % 64]
  }

  lemma EscapeRuneIs(c: Byte, t: Bytes)
    requires c >= 0x80
    ensures Encode(ESC_BASE + c) == EscapeRune(c)
    ensures Decode(EscapeRune(c) + t) == (ESC_BASE + c, 4)
  {
    var r := ESC_BASE + c;
    assert r / 64 == 0x43F8 + c / 64 && r % 64 == c % 64;
    assert r / 64 / 64 == 0x10F && r / 64 / 64 / 64 == 4;
    assert Encode(r) == EscapeRune(c);
    DecodeEncode(r, t);
  }

  predicate High(s: Bytes) { forall i :: 0 <= i < |s| ==> s[i] >= 0x80 }

  function EscapeEach(s: Bytes): Bytes
    requires High(s)
  {
    if s == [] then [] else EscapeRune(s[0]) + EscapeEach(s[1..])
  }

  predicate Escaped(d: (nat, nat)) { Malformed(d) || IsEscapeRune(d.0) }

  lemma EscapedAreHigh(s: Bytes)
    requires s != [] && Escaped(Decode(s))
    ensures High(s[..Decode(s).1])
  {
  }

  function Piece(s: Bytes): Bytes
    requires s != []
  {
    var n := Decode(s).1;
    if Escaped(Decode(s)) then EscapedAreHigh(s); EscapeEach(s[..n]) else s[..n]
  }

  function Escape(s: Bytes): Bytes {
    if s == [] then [] else Piece(s) + Escape(s[Decode(s).1..])
  }

  function Unpiece(s: Bytes): Bytes
    requires s != []
  {
    var (r, n) := Decode(s);
    if IsEscapeRune(r) then [r - ESC_BASE] else s[..n]
  }

  function Unescape(s: Bytes): Bytes {
    if s == [] then [] else Unpiece(s) + Unescape(s[Decode(s).1..])
  }

  // What a well-formed sequence decodes to does not depend on what follows.
  lemma DecodeLocal(s: Bytes, t: Bytes)
    requires s != [] && !Malformed(Decode(s))
    ensures Decode(s[..Decode(s).1] + t) == Decode(s)
  {
    EncodeDecode(s);
    DecodeEncode(Decode(s).0, t);
  }

  lemma UnescapeFirst(s: Bytes, r: nat, n: nat, t: Bytes)
    requires s != [] && Decode(s) == (r, n) && s[n..] == t
    ensures Unescape(s) == (if IsEscapeRune(r) then [r - ESC_BASE] else s[..n]) + Unescape(t)
  {
  }

  lemma ValidFirst(s: Bytes, r: nat, n: nat, t: Bytes)
    requires s != [] && Decode(s) == (r, n) && s[n..] == t
    ensures ValidUtf8(s) == (!Malformed((r, n)) && ValidUtf8(t))
  {
  }

  lemma RuneThen(c: Byte, t: Bytes, s: Bytes)
    requires c >= 0x80 && s == EscapeRune(c) + t
    ensures s != [] && Decode(s) == (ESC_BASE + c, 4) && s[4..] == t
  {
    EscapeRuneIs(c, t);
  }

  lemma UnescapeRune(c: Byte, t: Bytes)
    requires c >= 0x80
    ensures Unescape(EscapeRune(c) + t) == [c] + Unescape(t)
  {
    var s := EscapeRune(c) + t;
    RuneThen(c, t, s);
    UnescapeFirst(s, ESC_BASE + c, 4, t);
  }

  lemma RuneIsValid(c: Byte, t: Bytes)
    requires c >= 0x80
    ensures ValidUtf8(EscapeRune(c) + t) == ValidUtf8(t)
  {
    var s := EscapeRune(c) + t;
    RuneThen(c, t, s);
    ValidFirst(s, ESC_BASE + c, 4, t);
  }

  lemma EachSplit(s: Bytes, t: Bytes)
    requires High(s) && s != []
    ensures EscapeEach(s) + t == EscapeRune(s[0]) + (EscapeEach(s[1..]) + t)
  {
  }

  lemma Shift(c: Byte, b: Bytes, t: Bytes)
    ensures [c] + (b + t) == ([c] + b) + t
  {
  }

  lemma {:induction false} UnescapeEach(s: Bytes, t: Bytes)
    requires High(s)
    ensures Unescape(EscapeEach(s) + t) == s + Unescape(t)
  {
    if s == [] {
      assert EscapeEach(s) + t == t;
    } else {
      var rest := EscapeEach(s[1..]) + t;
      UnescapeEach(s[1..], t);
      EachSplit(s, t);
      UnescapeRune(s[0], rest);
      Shift(s[0], s[1..], Unescape(t));
      assert [s[0]] + s[1..] == s;
    }
  }

  lemma {:induction false} EachIsValid(s: Bytes, t: Bytes)
    requires High(s)
    ensures ValidUtf8(EscapeEach(s) + t) == ValidUtf8(t)
  {
    if s == [] {
      assert EscapeEach(s) + t == t;
    } else {
      EachIsValid(s[1..], t);
      EachSplit(s, t);
      RuneIsValid(s[0], EscapeEach(s[1..]) + t);
    }
  }

  lemma UnescapePiece(s: Bytes, t: Bytes)
    requires s != []
    ensures Unescape(Piece(s) + t) == s[..Decode(s).1] + Unescape(t)
  {
    var n := Decode(s).1;
    if Escaped(Decode(s)) {
      EscapedAreHigh(s);
      UnescapeEach(s[..n], t);
    } else {
      DecodeLocal(s, t);
      assert (s[..n] + t)[n..] == t && (s[..n] + t)[..n] == s[..n];
    }
  }

  lemma PieceIsValid(s: Bytes, t: Bytes)
    requires s != []
    ensures ValidUtf8(Piece(s) + t) == ValidUtf8(t)
  {
    var n := Decode(s).1;
    if Escaped(Decode(s)) {
      EscapedAreHigh(s);
      EachIsValid(s[..n], t);
    } else {
      DecodeLocal(s, t);
      assert (s[..n] + t)[n..] == t;
    }
  }

  lemma EscapeSplit(s: Bytes, n: nat, er: Bytes)
    requires s != [] && n == Decode(s).1 && er == Escape(s[n..])
    ensures Escape(s) == Piece(s) + er
  {
  }

  lemma SplitAt(s: Bytes, n: nat)
    requires n <= |s|
    ensures s[..n] + s[n..] == s
  {
  }

  lemma RoundTripStep(s: Bytes, n: nat, er: Bytes)
    requires s != [] && n == Decode(s).1 && er == Escape(s[n..]) && Unescape(er) == s[n..]
    ensures Unescape(Escape(s)) == s
  {
    EscapeSplit(s, n, er);
    UnescapePiece(s, er);
    SplitAt(s, n);
  }

  // Every byte string comes back unchanged.
  lemma {:induction false} RoundTrip(s: Bytes)
    ensures Unescape(Escape(s)) == s
    decreases |s|
  {
    if s != [] {
      var n := Decode(s).1;
      RoundTrip(s[n..]);
      RoundTripStep(s, n, Escape(s[n..]));
    }
  }

  // And what travels is well-formed UTF-8.
  lemma {:induction false} EscapedIsValid(s: Bytes)
    ensures ValidUtf8(Escape(s))
    decreases |s|
  {
    if s != [] {
      var rest := s[Decode(s).1..];
      EscapedIsValid(rest);
      PieceIsValid(s, Escape(rest));
    }
  }

  // So every string has its own escaped form.
  lemma EscapeInjective(s: Bytes, t: Bytes)
    requires Escape(s) == Escape(t)
    ensures s == t
  {
    RoundTrip(s);
    RoundTrip(t);
  }

  // ------------------------------------------------- the loops and fast paths

  predicate StandsAt(s: Bytes, p: Bytes, i: int) {
    0 <= i <= |s| - |p| && s[i..i + |p|] == p
  }

  ghost predicate Contains(s: Bytes, p: Bytes) {
    exists i :: StandsAt(s, p, i)
  }

  method FindIn(s: Bytes, p: Bytes) returns (found: bool)
    ensures found == Contains(s, p)
  {
    var i := 0;
    while i + |p| <= |s|
      invariant 0 <= i
      invariant forall j :: 0 <= j < i ==> !StandsAt(s, p, j)
    {
      if StandsAt(s, p, i) { return true; }
      i := i + 1;
    }
    return false;
  }

  const MARKER: Bytes := [0xF4, 0x8F]
  const PREFIX_LOW: Bytes := [0xF4, 0x8F, 0xBA]
  const PREFIX_HIGH: Bytes := [0xF4, 0x8F, 0xBB]

  lemma EscapeRuneStarts(s: Bytes)
    requires s != [] && IsEscapeRune(Decode(s).0)
    ensures |s| >= 3 && (s[..3] == PREFIX_LOW || s[..3] == PREFIX_HIGH) && s[..2] == MARKER
  {
    EncodeDecode(s);
    var r := Decode(s).0;
    var e := Encode(r);
    assert s[..4] == e;
    assert r / 64 == 0x43FA || r / 64 == 0x43FB;
    assert e[0] == 0xF4 && e[1] == 0x8F && (e[2] == 0xBA || e[2] == 0xBB);
    assert s[0] == e[0] && s[1] == e[1] && s[2] == e[2];
  }

  lemma InSuffix(s: Bytes, n: nat, p: Bytes)
    requires n <= |s| && Contains(s[n..], p)
    ensures Contains(s, p)
  {
    var i :| StandsAt(s[n..], p, i);
    assert s[n..][i..i + |p|] == s[n + i..n + i + |p|];
    assert StandsAt(s, p, n + i);
  }

  lemma AtStart(s: Bytes, p: Bytes)
    requires |p| <= |s| && s[..|p|] == p
    ensures Contains(s, p)
  {
    assert StandsAt(s, p, 0);
  }

  // Plain UTF-8 without an escape rune is its own escaped form.
  lemma {:induction false} PlainEscapes(s: Bytes)
    requires ValidUtf8(s) && !Contains(s, PREFIX_LOW) && !Contains(s, PREFIX_HIGH)
    ensures Escape(s) == s
    decreases |s|
  {
    if s != [] {
      var n := Decode(s).1;
      if IsEscapeRune(Decode(s).0) {
        EscapeRuneStarts(s);
        if s[..3] == PREFIX_LOW { AtStart(s, PREFIX_LOW); } else { AtStart(s, PREFIX_HIGH); }
      }
      if Contains(s[n..], PREFIX_LOW) { InSuffix(s, n, PREFIX_LOW); }
      if Contains(s[n..], PREFIX_HIGH) { InSuffix(s, n, PREFIX_HIGH); }
      PlainEscapes(s[n..]);
      assert s == s[..n] + s[n..];
    }
  }

  // A string without the marker holds nothing to restore.
  lemma {:induction false} PlainUnescapes(s: Bytes)
    requires !Contains(s, MARKER)
    ensures Unescape(s) == s
    decreases |s|
  {
    if s != [] {
      var n := Decode(s).1;
      if IsEscapeRune(Decode(s).0) {
        EscapeRuneStarts(s);
        AtStart(s, MARKER);
      }
      if Contains(s[n..], MARKER) { InSuffix(s, n, MARKER); }
      PlainUnescapes(s[n..]);
      assert s == s[..n] + s[n..];
    }
  }

  method IsValid(s: Bytes) returns (ok: bool)
    ensures ok == ValidUtf8(s)
  {
    var i := 0;
    while i < |s|
      invariant 0 <= i <= |s| && ValidUtf8(s) == ValidUtf8(s[i..])
    {
      var (r, n) := Decode(s[i..]);
      if r == RUNE_ERROR && n == 1 { return false; }
      assert s[i..][n..] == s[i + n..];
      i := i + n;
    }
    return true;
  }

  lemma EscapeNext(b: Bytes, s: Bytes, i: nat, whole: Bytes)
    requires i < |s| && b + Escape(s[i..]) == whole
    ensures var n := Decode(s[i..]).1; b + Piece(s[i..]) + Escape(s[i + n..]) == whole
  {
    var n := Decode(s[i..]).1;
    assert s[i..][n..] == s[i + n..];
    Regroup(b, Piece(s[i..]), Escape(s[i + n..]));
  }

  lemma UnescapeNext(b: Bytes, s: Bytes, i: nat, whole: Bytes)
    requires i < |s| && b + Unescape(s[i..]) == whole
    ensures var n := Decode(s[i..]).1; b + Unpiece(s[i..]) + Unescape(s[i + n..]) == whole
  {
    var n := Decode(s[i..]).1;
    assert s[i..][n..] == s[i + n..];
    Regroup(b, Unpiece(s[i..]), Unescape(s[i + n..]));
  }

  method NextPiece(s: Bytes, i: nat) returns (piece: Bytes, n: nat)
    requires i < |s|
    ensures piece == Piece(s[i..]) && n == Decode(s[i..]).1
  {
    var d := Decode(s[i..]);
    var r := d.0;
    n := d.1;
    piece := s[i..i + n];
    assert s[i..][..n] == piece;
    if (r == RUNE_ERROR && n == 1) || IsEscapeRune(r) {
      EscapedAreHigh(s[i..]);
      piece := EscapeAll(piece);
    }
  }

  method EscapeBytes(s: Bytes) returns (b: Bytes)
    ensures b == Escape(s)
  {
    var valid := IsValid(s);
    var low := FindIn(s, PREFIX_LOW);
    var high := FindIn(s, PREFIX_HIGH);
    if valid && !(low || high) {
      PlainEscapes(s);
      return s;
    }
    b := EscapeLoop(s);
  }

  method EscapeLoop(s: Bytes) returns (b: Bytes)
    ensures b == Escape(s)
  {
    b := [];
    var i := 0;
    ghost var whole := Escape(s);
    assert s[0..] == s;
    while i < |s|
      invariant 0 <= i <= |s| && b + Escape(s[i..]) == whole
    {
      EscapeNext(b, s, i, whole);
      var piece, n := NextPiece(s, i);
      b := b + piece;
      i := i + n;
    }
    assert s[i..] == [];
  }

  lemma Regroup(a: Bytes, b: Bytes, c: Bytes)
    ensures a + (b + c) == (a + b) + c
  {
  }

  method EscapeAll(s: Bytes) returns (b: Bytes)
    requires High(s)
    ensures b == EscapeEach(s)
  {
    b := [];
    assert s[0..] == s;
    for i := 0 to |s|
      invariant b + EscapeEach(s[i..]) == EscapeEach(s)
    {
      assert s[i..][1..] == s[i + 1..];
      Regroup(b, EscapeRune(s[i]), EscapeEach(s[i + 1..]));
      b := b + EscapeRune(s[i]);
    }
  }

  method UnescapeBytes(s: Bytes) returns (b: Bytes)
    ensures b == Unescape(s)
  {
    var marked := FindIn(s, MARKER);
    if !marked {
      PlainUnescapes(s);
      return s;
    }
    b := UnescapeLoop(s);
  }

  method NextRaw(s: Bytes, i: nat) returns (raw: Bytes, n: nat)
    requires i < |s|
    ensures raw == Unpiece(s[i..]) && n == Decode(s[i..]).1
  {
    var d := Decode(s[i..]);
    n := d.1;
    assert s[i..][..n] == s[i..i + n];
    raw := if IsEscapeRune(d.0) then [d.0 - ESC_BASE] else s[i..i + n];
  }

  method UnescapeLoop(s: Bytes) returns (b: Bytes)
    ensures b == Unescape(s)
  {
    b := [];
    var i := 0;
    ghost var whole := Unescape(s);
    assert s[0..] == s;
    while i < |s|
      invariant 0 <= i <= |s| && b + Unescape(s[i..]) == whole
    {
      UnescapeNext(b, s, i, whole);
      var raw, n := NextRaw(s, i);
      b := b + raw;
      i := i + n;
    }
    assert s[i..] == [];
  }
}
