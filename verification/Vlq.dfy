/**
 Variable-length integers and messages: encode_int, parse_int, msgblock_decode and
 message_alloc_and_encode of msgblock.c; PT_uint32, PT_int32, PT_string and MessageFormat of
 msgproto.py.
 */
module Vlq {
  import opened Basics
  import opened Protocol

  type byte = b: int | 0 <= b < 256

  type uint32 = v: int | 0 <= v < 0x1_0000_0000

  const MESSAGE_SYNC: byte := 0x7e

  /* ----- Encoders ----- */

  // Seven bits of v from bit position log2(unit) on, with the continuation flag.
  function Digit(v: int, unit: int): (b: byte)
    requires unit > 0
  {
    (v / unit) % 128 + 128
  }

  // PT_uint32.encode: any python integer.
  function EncodePy(v: int): (e: seq<byte>)
    ensures 1 <= |e| <= 5
  {
    (if v >= 0xc000000 || v < -0x4000000 then [Digit(v, 0x1000_0000)] else [])
    + (if v >= 0x180000 || v < -0x80000 then [Digit(v, 0x20_0000)] else [])
    + (if v >= 0x3000 || v < -0x1000 then [Digit(v, 0x4000)] else [])
    + (if v >= 0x60 || v < -0x20 then [Digit(v, 0x80)] else [])
    + [v % 128]
  }

  // encode_int: a uint32_t, measured by its value as int32_t.
  function EncodeC(v: uint32): (e: seq<byte>)
    ensures 1 <= |e| <= 5
  {
    var sv := if v < 0x8000_0000 then v else v - TWO32;
    if -0x20 <= sv < 0x60 then [v % 128]
    else if -0x1000 <= sv < 0x3000 then [Digit(v, 0x80), v % 128]
    else if -0x8_0000 <= sv < 0x18_0000 then [Digit(v, 0x4000), Digit(v, 0x80), v % 128]
    else if -0x400_0000 <= sv < 0xc00_0000 then [Digit(v, 0x20_0000), Digit(v, 0x4000), Digit(v, 0x80), v % 128]
    else [v / 0x1000_0000 + 128, Digit(v, 0x20_0000), Digit(v, 0x4000), Digit(v, 0x80), v % 128]
  }

  /* ----- Parsers ----- */

  // The first byte carries the sign: 0x60 .. 0x7f stand for negative numbers.
  function FirstValue(c: byte): int {
    if c % 128 >= 0x60 then c % 128 - 128 else c % 128
  }

  // The continuation bytes, in unbounded integers; None when the bytes run out.
  function ParseMore(s: seq<byte>, pos: nat, v: int): Option<(int, nat)>
    decreases |s| - pos
  {
    if pos >= |s| then None
    else
      var v1 := v * 128 + s[pos] % 128;
      if s[pos] >= 128 then ParseMore(s, pos + 1, v1) else Some((v1, pos + 1))
  }

  // PT_int32.parse
  function ParseWide(s: seq<byte>, pos: nat): Option<(int, nat)> {
    if pos >= |s| then None
    else if s[pos] >= 128 then ParseMore(s, pos + 1, FirstValue(s[pos]))
    else Some((FirstValue(s[pos]), pos + 1))
  }

  // The same, taken modulo 2^32: PT_uint32.parse.
  function ParseUnsigned(s: seq<byte>, pos: nat): Option<(int, nat)> {
    match ParseWide(s, pos)
    case None => None
    case Some((v, next)) => Some((v % TWO32, next))
  }

  predicate Ends(s: seq<byte>, pos: nat) { exists k :: pos <= k < |s| && s[k] < 128 }

  // parse_int, which keeps 32 bits all the time.
  method ParseInt(s: seq<byte>, pos: nat) returns (v: int, next: nat)
    requires Ends(s, pos)
    ensures ParseUnsigned(s, pos) == Some((v, next)) && pos < next <= |s|
  {
    var c := s[pos];
    next := pos + 1;
    v := c % 128;
    if c % 128 >= 0x60 {  // (c & 0x60) == 0x60
      v := v + (TWO32 - 128);  // v |= -0x20, for a value of at least 0x60
    }
    ghost var wide := FirstValue(c);
    while c >= 128
      invariant pos < next <= |s| && v == wide % TWO32
      invariant c >= 128 ==> Ends(s, next) && ParseWide(s, pos) == ParseMore(s, next, wide)
      invariant c < 128 ==> ParseWide(s, pos) == Some((wide, next))
      decreases |s| - next, c
    {
      c := s[next];
      next := next + 1;
      ModHorner(v, wide, c % 128);
      v := (v * 128) % TWO32 + c % 128;
      wide := wide * 128 + c % 128;
    }
  }

  // (v << 7) | (c & 0x7f) in 32 bits
  lemma ModHorner(v: int, wide: int, d: int)
    requires v == wide % TWO32 && 0 <= d < 128
    ensures (v * 128) % TWO32 + d == (wide * 128 + d) % TWO32
  {
    var q, p := wide / TWO32, (v * 128) / TWO32;
    var r := v * 128 - p * TWO32;
    assert r == (v * 128) % TWO32 && r == 128 * (v - p * 0x200_0000);
    assert r + d < TWO32;
    assert wide * 128 + d == (r + d) + (p + 128 * q) * TWO32;
    ModIs(r + d, p + 128 * q);
  }

  lemma ModIs(r: int, k: int)
    requires 0 <= r < TWO32
    ensures (r + k * TWO32) % TWO32 == r
  {
  }

  /* ----- Sizes ----- */

  function Power(n: nat): (p: nat)
    ensures p >= 1
  {
    if n == 0 then 1 else 128 * Power(n - 1)
  }

  lemma ScaleStep(v: int, d: int, w: int, p: nat)
    requires 0 <= d < 128 && (v * 128 + d) * p <= w < (v * 128 + d + 1) * p
    ensures v * (128 * p) <= w < (v + 1) * (128 * p)
  {
    assert (v * 128 + d) * p == v * (128 * p) + d * p;
    assert (v * 128 + d + 1) * p == (v + 1) * (128 * p) - (127 - d) * p;
    assert d * p >= 0 && (127 - d) * p >= 0;
  }

  // The continuation bytes after v stay within one unit of it.
  lemma {:induction false} MoreRange(s: seq<byte>, pos: nat, v: int, w: int, next: nat)
    requires ParseMore(s, pos, v) == Some((w, next))
    ensures pos < next && v * Power(next - pos) <= w < (v + 1) * Power(next - pos)
    decreases |s| - pos
  {
    var d := s[pos] % 128;
    if s[pos] >= 128 {
      MoreRange(s, pos + 1, v * 128 + d, w, next);
      ScaleStep(v, d, w, Power(next - pos - 1));
    } else {
      assert Power(1) == 128 * Power(0) && Power(0) == 1;
      ScaleStep(v, d, w, 1);
    }
  }

  lemma ScaleRange(v: int, p: int, w: int)
    requires -0x20 <= v < 0x60 && p >= 0 && v * p <= w < (v + 1) * p
    ensures -0x20 * p <= w < 0x60 * p
  {
    assert (v + 0x20) * p >= 0 && (v + 0x20) * p == v * p + 0x20 * p;
    assert (0x5f - v) * p >= 0 && (0x5f - v) * p == 0x60 * p - (v + 1) * p;
  }

  // What n bytes can stand for.
  lemma ParseRange(s: seq<byte>, pos: nat, w: int, next: nat)
    requires ParseWide(s, pos) == Some((w, next))
    ensures pos < next && -0x20 * Power(next - pos - 1) <= w < 0x60 * Power(next - pos - 1)
  {
    var v := FirstValue(s[pos]);
    assert -0x20 <= v < 0x60;
    if s[pos] >= 128 {
      MoreRange(s, pos + 1, v, w, next);
      ScaleRange(v, Power(next - pos - 1), w);
    } else {
      assert Power(0) == 1;
    }
  }

  // Both encoders write the shortest bytes that any parser would read as the value.
  lemma PyIsShortest(s: seq<byte>, pos: nat, v: int, next: nat)
    requires ParseWide(s, pos) == Some((v, next))
    ensures |EncodePy(v)| <= next - pos
  {
    ParseRange(s, pos, v, next);
    Powers();
    hide ParseWide, Digit;
  }

  lemma CIsShortest(s: seq<byte>, pos: nat, v: uint32, next: nat)
    requires ParseUnsigned(s, pos) == Some((v, next))
    ensures |EncodeC(v)| <= next - pos
  {
    var w := ParseWide(s, pos).value.0;
    ParseRange(s, pos, w, next);
    Powers();
    hide ParseWide, ParseUnsigned, Digit;
    if next - pos <= 4 {
      assert -0x400_0000 <= w < 0xc00_0000;
      assert v == if w < 0 then w + TWO32 else w;
    }
  }

  lemma Powers()
    ensures Power(0) == 1 && Power(1) == 0x80 && Power(2) == 0x4000 && Power(3) == 0x20_0000
  {
  }

  /* ----- Round trips ----- */

  // e stands in s at pos.
  predicate StandsAt(s: seq<byte>, pos: nat, e: seq<byte>) {
    pos + |e| <= |s| && s[pos..pos + |e|] == e
  }

  // Splitting off seven bits.
  lemma Shift7(v: int, unit: int)
    requires unit == 1 || unit == 0x80 || unit == 0x4000 || unit == 0x20_0000
    ensures v / unit == (v / (unit * 128)) * 128 + (v / unit) % 128
  {
    if unit == 1 {
    } else if unit == 0x80 {
      assert v / 0x80 / 128 == v / 0x4000;
    } else if unit == 0x4000 {
      assert v / 0x4000 / 128 == v / 0x20_0000;
    } else {
      assert v / 0x20_0000 / 128 == v / 0x1000_0000;
    }
  }

  function Unit(n: nat): int
    requires n <= 4
  {
    if n == 0 then 1 else if n == 1 then 0x80 else if n == 2 then 0x4000 else if n == 3 then 0x20_0000 else 0x1000_0000
  }

  // The last n + 1 bytes of an encoding of v.
  function Tail(v: int, n: nat): (e: seq<byte>)
    requires n <= 4
    ensures |e| == n + 1
  {
    if n == 0 then [v % 128] else [Digit(v, Unit(n))] + Tail(v, n - 1)
  }

  lemma StandsTail(s: seq<byte>, pos: nat, v: int, n: nat)
    requires n <= 4 && StandsAt(s, pos, Tail(v, n))
    ensures pos < |s| && s[pos] == if n == 0 then v % 128 else Digit(v, Unit(n))
    ensures n > 0 ==> StandsAt(s, pos + 1, Tail(v, n - 1))
  {
    assert s[pos..pos + n + 1][0] == Tail(v, n)[0];
    if n > 0 {
      assert Tail(v, n)[1..] == Tail(v, n - 1);
      assert s[pos..pos + n + 1][1..] == s[pos + 1..pos + n + 1];
    }
  }

  // Horner's scheme: reading the last n bytes completes the leading bits of v.
  lemma {:induction false} ParseTail(s: seq<byte>, pos: nat, v: int, n: nat)
    requires 1 <= n <= 4 && StandsAt(s, pos, Tail(v, n - 1))
    ensures ParseMore(s, pos, v / Unit(n)) == Some((v, pos + n))
    decreases n
  {
    hide Tail, StandsAt;
    StandsTail(s, pos, v, n - 1);
    Shift7(v, Unit(n - 1));
    if n > 1 {
      ParseTail(s, pos + 1, v, n - 1);
    }
  }

  lemma FirstDigit(h: int)
    requires -0x20 <= h < 0x60
    ensures FirstValue(h % 128) == h && FirstValue(h % 128 + 128) == h
  {
  }

  // Reading a whole encoding with n continuation bytes: exact as long as the leading seven
  // bits keep their sign.
  lemma ParseTailExact(s: seq<byte>, pos: nat, v: int, n: nat)
    requires n <= 4 && StandsAt(s, pos, Tail(v, n)) && -0x20 <= v / Unit(n) < 0x60
    ensures ParseWide(s, pos) == Some((v, pos + n + 1))
  {
    hide Tail, StandsAt, FirstValue;
    StandsTail(s, pos, v, n);
    FirstDigit(v / Unit(n));
    if n > 0 {
      ParseTail(s, pos + 1, v, n);
    }
  }

  function SizePy(v: int): (n: nat)
    ensures n <= 4
  {
    if v >= 0xc000000 || v < -0x4000000 then 4
    else if v >= 0x180000 || v < -0x80000 then 3
    else if v >= 0x3000 || v < -0x1000 then 2
    else if v >= 0x60 || v < -0x20 then 1 else 0
  }

  lemma EncodePyIsTail(v: int)
    ensures EncodePy(v) == Tail(v, SizePy(v))
  {
    TailIs(v);
  }

  lemma TailIs(v: int)
    ensures Tail(v, 0) == [v % 128]
    ensures Tail(v, 1) == [Digit(v, 0x80), v % 128]
    ensures Tail(v, 2) == [Digit(v, 0x4000), Digit(v, 0x80), v % 128]
    ensures Tail(v, 3) == [Digit(v, 0x20_0000), Digit(v, 0x4000), Digit(v, 0x80), v % 128]
    ensures Tail(v, 4) == [Digit(v, 0x1000_0000), Digit(v, 0x20_0000), Digit(v, 0x4000), Digit(v, 0x80), v % 128]
  {
    assert Tail(v, 1) == [Digit(v, 0x80), v % 128];
    assert Tail(v, 2) == [Digit(v, 0x4000), Digit(v, 0x80), v % 128];
    assert Tail(v, 3) == [Digit(v, 0x20_0000), Digit(v, 0x4000), Digit(v, 0x80), v % 128];
    assert Tail(v, 4) == [Digit(v, 0x1000_0000), Digit(v, 0x20_0000), Digit(v, 0x4000), Digit(v, 0x80), v % 128];
  }

  // The number that five bytes can carry: 35 bits, with 0x60 .. 0x7f on top negative.
  function Carried(v: int): int {
    if -0x2_0000_0000 <= v < 0x6_0000_0000 then v
    else
      var t := (v / 0x1000_0000) % 128;
      (if t >= 0x60 then t - 128 else t) * 0x1000_0000 + v % 0x1000_0000
  }

  lemma DivMod28(a: int, q: int, r: int)
    requires a == q * 0x1000_0000 + r && 0 <= r < 0x1000_0000
    ensures a / 0x1000_0000 == q && a % 0x1000_0000 == r
  {
  }

  lemma Mod32(a: int, k: int)
    ensures (a + k * TWO32) % TWO32 == a % TWO32
  {
  }

  lemma CarriedSame(v: int)
    ensures Carried(v) % TWO32 == v % TWO32 && -0x20 <= Carried(v) / 0x1000_0000 < 0x60
    ensures Carried(v) % 0x1000_0000 == v % 0x1000_0000
    ensures (Carried(v) / 0x1000_0000) % 128 == (v / 0x1000_0000) % 128
  {
    var w, h, l := Carried(v), v / 0x1000_0000, v % 0x1000_0000;
    DivMod28(v, h, l);
    if w != v {
      var t, q := h % 128, h / 128;
      var st := if t >= 0x60 then t - 128 else t;
      DivMod28(w, st, l);
      var k := if t >= 0x60 then q + 1 else q;
      assert h - st == 128 * k;
      assert v == w + (8 * k) * TWO32;
      Mod32(w, 8 * k);
    }
  }

  lemma CarriedTail(v: int)
    ensures Tail(Carried(v), 4) == Tail(v, 4)
  {
    CarriedSame(v);
    SameTail(Carried(v), v);
  }

  lemma LowDigits(v: int, w: int, unit: int)
    requires unit == 1 || unit == 0x80 || unit == 0x4000 || unit == 0x20_0000
    requires v % 0x1000_0000 == w % 0x1000_0000
    ensures (v / unit) % 128 == (w / unit) % 128
  {
    var k := v / 0x1000_0000 - w / 0x1000_0000;
    assert v == w + k * 0x1000_0000;
    if unit == 1 {
      Mod128(w, k * 0x20_0000);
    } else if unit == 0x80 {
      var j := k * 0x20_0000;
      assert (w + j * 0x80) / 0x80 == w / 0x80 + j;
      Mod128(w / 0x80, k * 0x4000);
    } else if unit == 0x4000 {
      var j := k * 0x4000;
      assert (w + j * 0x4000) / 0x4000 == w / 0x4000 + j;
      Mod128(w / 0x4000, k * 0x80);
    } else {
      var j := k * 0x80;
      assert (w + j * 0x20_0000) / 0x20_0000 == w / 0x20_0000 + j;
      Mod128(w / 0x20_0000, k);
    }
  }

  lemma Mod128(x: int, j: int)
    ensures (x + 128 * j) % 128 == x % 128
  {
  }

  lemma SameTail(v: int, w: int)
    requires v % 0x1000_0000 == w % 0x1000_0000
    ensures forall n: nat :: n <= 3 ==> Tail(v, n) == Tail(w, n)
  {
    LowDigits(v, w, 0x20_0000);
    LowDigits(v, w, 0x4000);
    LowDigits(v, w, 0x80);
    LowDigits(v, w, 1);
    assert Tail(v, 0) == Tail(w, 0);
    assert Tail(v, 1) == Tail(w, 1);
    assert Tail(v, 2) == Tail(w, 2);
    assert Tail(v, 3) == Tail(w, 3);
  }

  // Python: for every integer, parsing the encoding gives the carried number, which agrees with
  // v modulo 2^32 and is v itself well beyond the range of int32 and uint32; and it uses
  // exactly the bytes of the encoding.
  lemma PyRoundTrip(s: seq<byte>, pos: nat, v: int)
    requires StandsAt(s, pos, EncodePy(v))
    ensures ParseWide(s, pos) == Some((Carried(v), pos + |EncodePy(v)|))
    ensures ParseUnsigned(s, pos) == Some((v % TWO32, pos + |EncodePy(v)|))
  {
    EncodePyIsTail(v);
    CarriedSame(v);
    CarriedTail(v);
    ParseTailExact(s, pos, Carried(v), SizePy(v));
  }

  lemma EncodeCIsTail(v: uint32)
    ensures var sv := if v < 0x8000_0000 then v else v - TWO32;
      EncodeC(v) == if SizePy(sv) == 4 then Tail(v, 4) else Tail(sv, SizePy(sv))
  {
    var sv := if v < 0x8000_0000 then v else v - TWO32;
    assert v % 0x1000_0000 == sv % 0x1000_0000;
    SameTail(v, sv);
    TailIs(v);
    assert (v / 0x1000_0000) % 128 == v / 0x1000_0000;
  }

  lemma SizeFits(v: int)
    ensures SizePy(v) < 4 ==> -0x20 <= v / Unit(SizePy(v)) < 0x60
  {
  }

  // C: parsing the encoding of a uint32_t gives it back and uses exactly its bytes.
  lemma CRoundTrip(s: seq<byte>, pos: nat, v: uint32)
    requires StandsAt(s, pos, EncodeC(v))
    ensures ParseUnsigned(s, pos) == Some((v, pos + |EncodeC(v)|))
  {
    var sv := if v < 0x8000_0000 then v else v - TWO32;
    EncodeCIsTail(v);
    hide EncodeC, Tail, ParseWide, SizePy;
    if SizePy(sv) == 4 {
      ParseTailExact(s, pos, v, 4);
    } else {
      SizeFits(sv);
      ParseTailExact(s, pos, sv, SizePy(sv));
    }
  }

  // An int32_t converted to uint32_t.
  function ToUint(v: int): (u: uint32)
    requires -0x8000_0000 <= v < 0x8000_0000
    ensures u == v % TWO32
  {
    if v < 0 then v + TWO32 else v
  }

  // The two encoders write the same bytes, except that C clears three bits of the first of five
  // bytes when the number is negative.
  lemma EncodersAgree(v: int)
    requires -0x8000_0000 <= v < 0x8000_0000
    ensures v >= -0x400_0000 ==> EncodeC(ToUint(v)) == EncodePy(v)
    ensures v < -0x400_0000 ==>
      var c, p := EncodeC(ToUint(v)), EncodePy(v);
      |c| == |p| == 5 && c[1..] == p[1..] && c[0] == (p[0] - 128) % 16 + 128
  {
    EncodeCIsTail(ToUint(v));
    EncodePyIsTail(v);
    hide EncodeC, EncodePy, Tail;
    if SizePy(v) == 4 && v < 0 {
      BigTails(v + TWO32, v);
    }
  }

  lemma BigTails(u: int, v: int)
    requires -0x8000_0000 <= v < 0 && u == v + TWO32
    ensures Tail(u, 4)[1..] == Tail(v, 4)[1..]
    ensures Tail(u, 4)[0] == (Tail(v, 4)[0] - 128) % 16 + 128
  {
    var h, l := v / 0x1000_0000, v % 0x1000_0000;
    DivMod28(v, h, l);
    DivMod28(u, h + 16, l);
    assert -8 <= h < 0;
    assert h % 128 == h + 128;
    SameTail(u, v);
    assert Tail(u, 4)[1..] == Tail(u, 3) && Tail(v, 4)[1..] == Tail(v, 3);
  }

  /* ----- Lists of integers ----- */

  function EncodeAll(data: seq<uint32>): seq<byte> {
    if data == [] then [] else EncodeC(data[0]) + EncodeAll(data[1..])
  }

  // message_alloc_and_encode; None stands for the "Encode error" with an empty message.
  method MessageAllocAndEncode(data: seq<uint32>) returns (r: Option<seq<byte>>)
    ensures r.Some? <==> |EncodeAll(data)| <= MESSAGE_PAYLOAD_MAX
    ensures r.Some? ==> r.value == EncodeAll(data)
  {
    var msg: seq<byte>, i := [], 0;
    while i < |data|
      invariant 0 <= i <= |data| && |msg| <= MESSAGE_PAYLOAD_MAX
      invariant EncodeAll(data) == msg + EncodeAll(data[i..])
    {
      assert data[i..][1..] == data[i + 1..];
      msg := msg + EncodeC(data[i]);
      i := i + 1;
      if |msg| > MESSAGE_PAYLOAD_MAX {
        return None;
      }
    }
    return Some(msg);
  }

  // Parsing count integers of s from pos on, which must end exactly at end.
  function DecodeSpec(s: seq<byte>, pos: nat, end: nat, count: nat): Option<seq<int>>
    decreases count
  {
    if count == 0 then (if pos == end then Some([]) else None)
    else if pos >= end then None
    else match ParseUnsigned(s, pos)
      case None => None
      case Some((v, next)) =>
        Join([v], DecodeSpec(s, next, end, count - 1))
  }

  function Join(data: seq<int>, rest: Option<seq<int>>): Option<seq<int>> {
    match rest
    case None => None
    case Some(vs) => Some(data + vs)
  }

  lemma JoinNil(rest: Option<seq<int>>)
    ensures Join([], rest) == rest
  {
    assert rest.Some? ==> [] + rest.value == rest.value;
  }

  lemma JoinSnoc(data: seq<int>, v: int, rest: Option<seq<int>>)
    ensures Join(data + [v], rest) == Join(data, Join([v], rest))
  {
    assert rest.Some? ==> (data + [v]) + rest.value == data + ([v] + rest.value);
  }

  // msgblock_decode of a whole block; its final sync byte stops every parse in time.
  method MsgblockDecode(msg: seq<byte>, count: nat) returns (r: Option<seq<int>>)
    requires |msg| >= MESSAGE_MIN && msg[|msg| - 1] == MESSAGE_SYNC
    ensures r == DecodeSpec(msg, MESSAGE_HEADER_SIZE, |msg| - MESSAGE_TRAILER_SIZE, count)
  {
    var p, end, data, left := MESSAGE_HEADER_SIZE, |msg| - MESSAGE_TRAILER_SIZE, [], count;
    JoinNil(DecodeSpec(msg, p, end, count));
    while left > 0
      invariant 0 <= left <= count && MESSAGE_HEADER_SIZE <= p
      invariant DecodeSpec(msg, MESSAGE_HEADER_SIZE, end, count) ==
        Join(data, DecodeSpec(msg, p, end, left))
    {
      if p >= end {
        return None;
      }
      assert msg[|msg| - 1] < 128;
      var v, next := ParseInt(msg, p);
      JoinSnoc(data, v, DecodeSpec(msg, next, end, left - 1));
      data := data + [v];
      p, left := next, left - 1;
    }
    if p != end {
      return None;
    }
    assert data + [] == data;
    return Some(data);
  }

  // The encodings of a list stand in s from pos to end.
  lemma {:induction false} DecodeEncoded(s: seq<byte>, pos: nat, data: seq<uint32>, count: nat)
    requires StandsAt(s, pos, EncodeAll(data))
    ensures DecodeSpec(s, pos, pos + |EncodeAll(data)|, count) == if count == |data| then Some(data) else None
    decreases |data|
  {
    hide EncodeC, ParseUnsigned;
    if data != [] {
      var e, rest := EncodeC(data[0]), EncodeAll(data[1..]);
      assert |EncodeAll(data)| == |e| + |rest|;
      if count > 0 {
        StandsSplit(s, pos, e, rest);
        CRoundTrip(s, pos, data[0]);
        DecodeEncoded(s, pos + |e|, data[1..], count - 1);
        assert [data[0]] + data[1..] == data;
      }
    }
  }

  lemma StandsSplit(s: seq<byte>, pos: nat, a: seq<byte>, b: seq<byte>)
    requires StandsAt(s, pos, a + b)
    ensures StandsAt(s, pos, a) && StandsAt(s, pos + |a|, b)
  {
    assert s[pos..pos + |a + b|][..|a|] == s[pos..pos + |a|];
    assert s[pos..pos + |a + b|][|a|..] == s[pos + |a|..pos + |a| + |b|];
  }
}
