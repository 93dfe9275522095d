/**
 Encoded pointers and the header of .eh_frame_hdr (src/unwind_libunwind.c:61-160, 200-221;
 sections 10.5 and 10.6 of the Linux Standard Base Core Specification, Generic Part 5.0).
 */
module EhFrame {
  import opened Words
  import opened RbTrees

  const EINVAL: int := -22
  /** sizeof(struct eh_frame_hdr), and the place of its encoded pointers. */
  const HDR: nat := 20
  const ENC: nat := 4

  /** Little-endian bytes. */
  function Little(s: seq<Byte>): nat {
    if s == [] then 0 else s[0] + 256 * Little(s[1..])
  }

  function Pow256(n: nat): (p: nat)
    ensures p > 0
  {
    if n == 0 then 1 else 256 * Pow256(n - 1)
  }

  lemma {:induction false} LittleBound(s: seq<Byte>)
    ensures Little(s) < Pow256(|s|)
    decreases |s|
  {
    if s != [] { LittleBound(s[1..]); }
  }

  lemma WordBounds(s: seq<Byte>)
    ensures |s| == 4 ==> Little(s) < TWO32
    ensures |s| == 8 ==> Little(s) < TWO64
  {
    LittleBound(s);
    Pow256Words();
  }

  /** Four and eight bytes as they stand, the least significant first. */
  ghost function Four(s: seq<Byte>, at: nat): nat
    requires at + 4 <= |s|
  {
    var b0: int, b1: int, b2: int, b3: int := s[at], s[at + 1], s[at + 2], s[at + 3];
    b0 + 0x100 * b1 + 0x1_0000 * b2 + 0x100_0000 * b3
  }

  ghost function Eight(s: seq<Byte>, at: nat): nat
    requires at + 8 <= |s|
  {
    Four(s, at) + 0x1_0000_0000 * Four(s, at + 4)
  }

  lemma LittleFour(s: seq<Byte>, at: nat)
    requires at + 4 <= |s|
    ensures Little(s[at..at + 4]) == Four(s, at)
  {
    var a, b, c := s[at..at + 4], s[at + 1..at + 4], s[at + 2..at + 4];
    assert a[1..] == b && b[1..] == c && c[1..] == s[at + 3..at + 4] && s[at + 3..at + 4][1..] == [];
    var b1: int, b2: int, b3: int := s[at + 1], s[at + 2], s[at + 3];
    assert Little(s[at + 3..at + 4]) == b3;
    assert Little(c) == b2 + 256 * b3;
    assert Little(b) == b1 + 256 * Little(c);
  }

  lemma {:induction false} LittleSplit(s: seq<Byte>, t: seq<Byte>)
    ensures Little(s + t) == Little(s) + Pow256(|s|) * Little(t)
    decreases |s|
  {
    if s == [] {
      assert s + t == t;
    } else {
      assert (s + t)[1..] == s[1..] + t;
      LittleSplit(s[1..], t);
      Distribute(s[0], Little(s[1..]), Pow256(|s| - 1), Little(t));
    }
  }

  lemma Distribute(a: nat, b: nat, p: nat, q: nat)
    ensures a + 256 * (b + p * q) == a + 256 * b + (256 * p) * q
  {
  }

  lemma LittleEight(s: seq<Byte>, at: nat)
    requires at + 8 <= |s|
    ensures Little(s[at..at + 8]) == Eight(s, at)
  {
    assert s[at..at + 8] == s[at..at + 4] + s[at + 4..at + 8];
    LittleSplit(s[at..at + 4], s[at + 4..at + 8]);
    LittleFour(s, at);
    LittleFour(s, at + 4);
    Pow256Words();
  }

  /** Two's complement. */
  function Signed(v: nat, modulus: nat): int {
    if v < modulus / 2 then v else v - modulus
  }

  /** The formats: how wide a value is and whether it is signed. */
  datatype Format = Absent | Value(width: nat, signed: bool)

  /**
   The encodings the code supports, as a table: a missing format stands for 4 bytes, except
   in 0x00, a whole pointer; bit 7 is ignored.
   */
  function FormatOf(enc: bv8): (f: Option<Format>)
    ensures f.Some? && f.value.Value? ==> f.value.width == 4 || f.value.width == 8
  {
    if enc == 0xff then Some(Absent)
    else if enc == 0 then Some(Value(8, false))
    else if enc & 0x70 != 0 && enc & 0x70 != 0x10 then None
    else if enc & 0x0f == 0 || enc & 0x0f == 3 then Some(Value(4, false))
    else if enc & 0x0f == 4 then Some(Value(8, false))
    else if enc & 0x0f == 8 || enc & 0x0f == 0x0b then Some(Value(4, true))
    else if enc & 0x0f == 0x0c then Some(Value(8, true))
    else None
  }

  predicate Supported(enc: bv8) {
    FormatOf(enc).Some?
  }

  function Width(enc: bv8): (n: nat)
    ensures n == 0 || n == 4 || n == 8
  {
    match FormatOf(enc)
    case Some(Value(width, _)) => width
    case _ => 0
  }

  predicate PcRelative(enc: bv8) {
    enc != 0xff && enc & 0x70 == 0x10
  }

  /** The value encoded at `cur`; `base` is the address of the buffer. */
  function Decoded(buf: seq<Byte>, base: U64, cur: nat, enc: bv8): U64
    requires cur + Width(enc) <= |buf|
  {
    match FormatOf(enc)
    case Some(Value(width, signed)) => ((if PcRelative(enc) then base + cur else 0) + Raw(buf, cur,
                                                                                          Value(width, signed))) % TWO64
    case _ => 0
  }

  /** dw_read for one of the integer types: fails when it would read past `end`. */
  method Read(buf: seq<Byte>, cur: nat, end: nat, width: nat, signed: bool) returns (ok: bool, v: int, next: nat)
    requires end <= |buf| && (width == 4 || width == 8)
    ensures ok <==> cur + width <= end
    ensures next == if ok then cur + width else cur
    ensures ok ==> v == var x := Little(buf[cur..cur + width]);
      if signed then Signed(x, if width == 4 then TWO32 else TWO64) else x
  {
    if cur + width > end {
      return false, 0, cur;
    }
    v := Little(buf[cur..cur + width]);
    if signed {
      v := Signed(v, if width == 4 then TWO32 else TWO64);
    }
    return true, v, cur + width;
  }

  /** How the code finds the format of an encoding other than 0xff and 0x00 (src/unwind_libunwind.c:129-147). */
  lemma FormatByCode(encoding: bv8, enc: bv8)
    requires encoding != 0xff && encoding != 0 && (encoding & 0x70 == 0 || encoding & 0x70 == 0x10)
    requires enc == if encoding & 0x07 == 0 then encoding | 0x03 else encoding
    ensures FormatOf(encoding) == CodeFormat(enc)
    ensures var nibble := encoding & 0x0f;
      && (nibble == 0x00 || nibble == 0x03 ==> FormatOf(encoding) == Some(Value(4, false)))
      && (nibble == 0x08 || nibble == 0x0b ==> FormatOf(encoding) == Some(Value(4, true)))
      && (nibble == 0x04 ==> FormatOf(encoding) == Some(Value(8, false)))
      && (nibble == 0x0c ==> FormatOf(encoding) == Some(Value(8, true)))
      && (nibble !in {0x00, 0x03, 0x04, 0x08, 0x0b, 0x0c} ==> FormatOf(encoding).None?)
  {
  }

  function CodeFormat(enc: bv8): Option<Format> {
    if enc & 0x0f == 0x0b then Some(Value(4, true))
    else if enc & 0x0f == 0x03 then Some(Value(4, false))
    else if enc & 0x0f == 0x0c then Some(Value(8, true))
    else if enc & 0x0f == 0x04 then Some(Value(8, false))
    else None
  }

  /** The value as an integer, before the base is added and the sum wraps. */
  function Raw(buf: seq<Byte>, cur: nat, f: Format): int
    requires f.Value? && cur + f.width <= |buf|
  {
    var v := Little(buf[cur..cur + f.width]);
    if f.signed then Signed(v, if f.width == 4 then TWO32 else TWO64) else v
  }

  /** The second switch (src/unwind_libunwind.c:132-147). */
  method ReadByFormat(buf: seq<Byte>, p: nat, end: nat, enc: bv8) returns (ok: bool, v: int, next: nat)
    requires p <= end <= |buf|
    ensures ok <==> CodeFormat(enc).Some? && p + CodeFormat(enc).value.width <= end
    ensures ok ==> next == p + CodeFormat(enc).value.width && v == Raw(buf, p, CodeFormat(enc).value)
  {
    if enc & 0x0f == 0x0b {
      ok, v, next := Read(buf, p, end, 4, true);
    } else if enc & 0x0f == 0x03 {
      ok, v, next := Read(buf, p, end, 4, false);
    } else if enc & 0x0f == 0x0c {
      ok, v, next := Read(buf, p, end, 8, true);
    } else if enc & 0x0f == 0x04 {
      ok, v, next := Read(buf, p, end, 8, false);
    } else {
      ok, v, next := false, 0, p;
    }
  }

  lemma AddWraps(a: int, b: int)
    ensures (a % TWO64 + b) % TWO64 == (a + b) % TWO64
  {
    var q := a / TWO64;
    assert a == q * TWO64 + a % TWO64;
    ModShift(a % TWO64 + b, q);
  }

  lemma ModShift(x: int, q: int)
    ensures (x + q * TWO64) % TWO64 == x % TWO64
  {
    var k := x / TWO64;
    assert x == k * TWO64 + x % TWO64;
    assert x + q * TWO64 == (k + q) * TWO64 + x % TWO64;
  }

  /** The place the value is relative to: its own address for 0x1_, nothing for 0x0_. */
  ghost function Place(base: U64, p: nat, enc: bv8): nat {
    if enc & 0x70 == 0x10 then base + p else 0
  }

  /**
   What is read, nibble by nibble: nothing for 0xff, a whole pointer for 0x00, otherwise four
   unsigned (3, or no format), four signed (0x0b, or 8) or eight bytes (4 and 0x0c), added to
   the place modulo 2^64; any other encoding and too few bytes are refused.
   */
  ghost predicate ByNibble(buf: seq<Byte>, base: U64, p: nat, end: nat, enc: bv8, ret: int, val: U64, next: nat)
    requires p <= end <= |buf|
  {
    var nibble, at := enc & 0x0f, Place(base, p, enc);
    if enc == 0xff then ret == 0 && next == p && val == 0
    else if enc == 0x00 then
      if p + 8 <= end then ret == 0 && next == p + 8 && val == Eight(buf, p) else ret == -22
    else if enc & 0x70 != 0x00 && enc & 0x70 != 0x10 then ret == -22
    else if nibble == 0x00 || nibble == 0x03 then
      if p + 4 <= end then ret == 0 && next == p + 4 && val == (at + Four(buf, p)) % 0x1_0000_0000_0000_0000
      else ret == -22
    else if nibble == 0x08 || nibble == 0x0b then
      if p + 4 <= end then
        && ret == 0 && next == p + 4
        && val == (at + Four(buf, p) - if buf[p + 3] < 0x80 then 0 else 0x1_0000_0000) % 0x1_0000_0000_0000_0000
      else ret == -22
    else if nibble == 0x04 || nibble == 0x0c then
      if p + 8 <= end then ret == 0 && next == p + 8 && val == (at + Eight(buf, p)) % 0x1_0000_0000_0000_0000
      else ret == -22
    else ret == -22
  }

  /** The table of formats says that. */
  lemma LiteralDecoded(buf: seq<Byte>, base: U64, p: nat, end: nat, enc: bv8)
    requires p <= end <= |buf|
    ensures if Supported(enc) && p + Width(enc) <= end
      then ByNibble(buf, base, p, end, enc, 0, Decoded(buf, base, p, enc), p + Width(enc))
      else ByNibble(buf, base, p, end, enc, EINVAL, 0, p)
  {
    if Supported(enc) && enc != 0xff && p + Width(enc) <= end {
      RawLiteral(buf, p, FormatOf(enc).value);
      if Width(enc) == 8 { ModShift(Place(base, p, enc) + Eight(buf, p), -1); }
    }
  }

  lemma RawLiteral(buf: seq<Byte>, p: nat, f: Format)
    requires f.Value? && (f.width == 4 || f.width == 8) && p + f.width <= |buf|
    ensures f == Value(4, false) ==> Raw(buf, p, f) == Four(buf, p)
    ensures f == Value(4, true) ==> Raw(buf, p, f) == Four(buf, p) - if buf[p + 3] < 0x80 then 0 else 0x1_0000_0000
    ensures f.width == 8 ==> Eight(buf, p) < TWO64
    ensures f == Value(8, false) ==> Raw(buf, p, f) == Eight(buf, p)
    ensures f == Value(8, true) ==> Raw(buf, p, f) == Eight(buf, p) || Raw(buf, p, f) == Eight(buf, p) - TWO64
  {
    WordBounds(buf[p..p + f.width]);
    if f.width == 4 { LittleFour(buf, p); } else { LittleEight(buf, p); }
  }

  /** __dw_read_encoded_value (src/unwind_libunwind.c:103-152). */
  method ReadEncoded(buf: seq<Byte>, base: U64, p: nat, end: nat, encoding: bv8) returns (ret: int, val: U64, next: nat)
    requires p <= end <= |buf|
    ensures ret == (if Supported(encoding) && p + Width(encoding) <= end then 0 else EINVAL)
    ensures ret == 0 ==> next == p + Width(encoding) && val == Decoded(buf, base, p, encoding)
    ensures ret != 0 ==> ret == -22 && next == p
    ensures ByNibble(buf, base, p, end, encoding, ret, val, next)
  {
    LiteralDecoded(buf, base, p, end, encoding);
    var cur, enc := p, encoding;
    var ok, v;
    val, next := 0, p;
    if enc == 0xff {
      return 0, 0, cur;
    } else if enc == 0x00 {
      ok, v, cur := Read(buf, cur, end, 8, false);
      if !ok { return EINVAL, val, p; }
      WordBounds(buf[p..p + 8]);
      return 0, v, cur;
    }
    if enc & 0x70 == 0x00 {
    } else if enc & 0x70 == 0x10 {
      val := (base + cur) % TWO64;
    } else {
      return EINVAL, val, p;
    }
    if enc & 0x07 == 0x00 {
      enc := enc | 0x03;
    }
    FormatByCode(encoding, enc);
    ok, v, cur := ReadByFormat(buf, cur, end, enc);
    if !ok { return EINVAL, val, p; }
    AddWraps(if PcRelative(encoding) then base + p else 0, v);
    val := (val + v) % TWO64;
    return 0, val, cur;
  }

  /** The two pointers of a header: they never need more than the 16 bytes there are. */
  lemma HeaderSuffices(a: bv8, b: bv8)
    ensures ENC + Width(a) + Width(b) <= HDR
  {
  }

  // ---------------------------------------------------------------- encoding, the other direction

  function Bytes(v: nat, n: nat): (s: seq<Byte>)
    ensures |s| == n
  {
    if n == 0 then [] else [v % 256] + Bytes(v / 256, n - 1)
  }

  lemma {:induction false} LittleOfBytes(v: nat, n: nat)
    requires v < Pow256(n)
    ensures Little(Bytes(v, n)) == v
    decreases n
  {
    if n > 0 {
      LittleOfBytes(v / 256, n - 1);
      assert Bytes(v, n)[1..] == Bytes(v / 256, n - 1);
    }
  }

  lemma Pow256Words()
    ensures Pow256(4) == TWO32 && Pow256(8) == TWO64
  {
    assert Pow256(1) == 256 && Pow256(2) == 0x1_0000 && Pow256(3) == 0x100_0000 && Pow256(4) == TWO32;
    assert Pow256(5) == 256 * TWO32 && Pow256(6) == 0x1_0000 * TWO32 && Pow256(7) == 0x100_0000 * TWO32
      && Pow256(8) == TWO64;
  }

  /** What an encoder stores for `target`: the distance to the place, cut to the width. */
  function Encoded(target: U64, base: U64, cur: nat, enc: bv8): seq<Byte> {
    Bytes((target - if PcRelative(enc) then base + cur else 0) % Pow256(Width(enc)), Width(enc))
  }

  /** An 8-byte encoding of any target decodes to it, absolute or relative, signed or not. */
  lemma PointerRoundTrip(buf: seq<Byte>, base: U64, cur: nat, enc: bv8, target: U64)
    requires Supported(enc) && Width(enc) == 8 && cur + 8 <= |buf|
    requires buf[cur..cur + 8] == Encoded(target, base, cur, enc)
    ensures Decoded(buf, base, cur, enc) == target
  {
    Pow256Words();
    var rel := if PcRelative(enc) then base + cur else 0;
    var v := (target - rel) % TWO64;
    LittleOfBytes(v, 8);
    var raw := Raw(buf, cur, FormatOf(enc).value);
    assert raw == v || raw == v - TWO64;
    Unwrap(target, rel, v, raw);
  }

  lemma Unwrap(target: U64, rel: int, v: int, raw: int)
    requires v == (target - rel) % TWO64 && (raw == v || raw == v - TWO64)
    ensures (rel + raw) % TWO64 == target
  {
    ModShift(rel + v, -1);
    AddWraps(target - rel, rel);
    assert rel + raw == rel + v || rel + raw == rel + v + -1 * TWO64;
  }

  lemma Congruent(target: U64, rel: int, raw: int)
    ensures (rel + raw) % TWO64 == target <==> raw % TWO64 == (target - rel) % TWO64
  {
    if (rel + raw) % TWO64 == target { AddWraps(rel + raw, -rel); }
    if raw % TWO64 == (target - rel) % TWO64 {
      AddWraps(raw, rel);
      AddWraps(target - rel, rel);
    }
  }

  /** The lower half of a distance, and what is above it. */
  lemma LowerHalf(x: int) returns (k: nat)
    ensures k < TWO32 && x % TWO64 == x % TWO32 + TWO32 * k
  {
    var d, q := x % TWO64, x / TWO64;
    k := d / TWO32;
    assert x == (q * TWO32 + k) * TWO32 + d % TWO32;
    HalfShift(d % TWO32, q * TWO32 + k);
  }

  lemma HalfShift(r: int, q: int)
    requires 0 <= r < TWO32
    ensures (q * TWO32 + r) % TWO32 == r
  {
  }

  /**
   A 4-byte encoding of a target decodes to it if and only if the distance to the place fits:
   32 bits without a sign, or 31 bits up or down with one.
   */
  lemma ShortRoundTrip(buf: seq<Byte>, base: U64, cur: nat, enc: bv8, target: U64)
    requires Supported(enc) && Width(enc) == 4 && cur + 4 <= |buf|
    requires buf[cur..cur + 4] == Encoded(target, base, cur, enc)
    ensures var d := (target - Place(base, cur, enc)) % TWO64;
      Decoded(buf, base, cur, enc) == target <==>
        if enc & 0x08 == 0 then d < 0x1_0000_0000 else d < 0x8000_0000 || TWO64 - 0x8000_0000 <= d
  {
    var rel, f := Place(base, cur, enc), FormatOf(enc).value;
    var v := (target - rel) % TWO32;
    SignedByNibble(enc);
    ShortRaw(buf, cur, v, f);
    var raw := Raw(buf, cur, f);
    Congruent(target, rel, raw);
    var k := LowerHalf(target - rel);
    Fits((target - rel) % TWO64, v, k, f.signed);
  }

  lemma SignedByNibble(enc: bv8)
    requires Supported(enc) && Width(enc) == 4
    ensures FormatOf(enc).Some? && FormatOf(enc).value == Value(4, enc & 0x08 != 0)
  {
  }

  lemma ShortRaw(buf: seq<Byte>, cur: nat, v: nat, f: Format)
    requires f.Value? && f.width == 4 && cur + 4 <= |buf| && v < TWO32 && buf[cur..cur + 4] == Bytes(v, 4)
    ensures Raw(buf, cur, f) == if f.signed && v >= 0x8000_0000 then v - TWO32 else v
  {
    Pow256Words();
    LittleOfBytes(v, 4);
  }

  /** The value read is the distance `d` exactly if it fits. */
  lemma Fits(d: nat, v: nat, k: nat, signed: bool)
    requires v < TWO32 && k < TWO32 && d == v + TWO32 * k
    ensures var raw := if signed && v >= 0x8000_0000 then v - TWO32 else v;
      raw % TWO64 == d <==> if !signed then d < 0x1_0000_0000 else d < 0x8000_0000 || TWO64 - 0x8000_0000 <= d
  {
    if signed && v >= 0x8000_0000 { ModShift(v - TWO32, 1); }
  }
}
