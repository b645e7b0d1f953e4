/** Fixed-width integers and the big-endian byte codes of mov-ioutil.h. */
module Bytes {
  type byte = x: int | 0 <= x < 0x100
  type uint16 = x: int | 0 <= x < 0x1_0000
  type uint24 = x: int | 0 <= x < 0x100_0000
  type uint32 = x: int | 0 <= x < 0x1_0000_0000
  type uint64 = x: int | 0 <= x < 0x1_0000_0000_0000_0000
  type int32 = x: int | -0x8000_0000 <= x < 0x8000_0000

  const UINT32_MAX: uint32 := 0xFFFF_FFFF
  const INT32_MAX: int32 := 0x7FFF_FFFF

  // C's conversions: to uint32_t, and from a uint32_t to int32_t.
  function U32(x: int): uint32 { x % 0x1_0000_0000 }

  function S32(x: uint32): int32 { if x < 0x8000_0000 then x else x - 0x1_0000_0000 }

  function U64(x: int): uint64 { x % 0x1_0000_0000_0000_0000 }

  function S64(x: uint64): int {
    if x < 0x8000_0000_0000_0000 then x else x - 0x1_0000_0000_0000_0000
  }

  /** Division as C does it on signed numbers: towards zero. */
  function Quotient(a: int, b: int): (q: int)
    requires b > 0
    ensures a >= 0 ==> 0 <= a - q * b < b
    ensures a <= 0 ==> -b < a - q * b <= 0
  {
    if a >= 0 then a / b else -(-a / b)
  }

  function BE16(v: uint16): (s: seq<byte>)
    ensures |s| == 2
  {
    [v / 0x100, v % 0x100]
  }

  function BE24(v: uint24): (s: seq<byte>)
    ensures |s| == 3
  {
    [v / 0x1_0000] + BE16(v % 0x1_0000)
  }

  function BE32(v: uint32): (s: seq<byte>)
    ensures |s| == 4
  {
    BE16(v / 0x1_0000) + BE16(v % 0x1_0000)
  }

  function BE64(v: uint64): (s: seq<byte>)
    ensures |s| == 8
  {
    BE32(v / 0x1_0000_0000) + BE32(v % 0x1_0000_0000)
  }

  function Get16(d: seq<byte>, p: nat): uint16
    requires p + 2 <= |d|
  {
    d[p] as int * 0x100 + d[p + 1]
  }

  function Get24(d: seq<byte>, p: nat): uint24
    requires p + 3 <= |d|
  {
    d[p] as int * 0x1_0000 + Get16(d, p + 1)
  }

  function Get32(d: seq<byte>, p: nat): uint32
    requires p + 4 <= |d|
  {
    Get16(d, p) as int * 0x1_0000 + Get16(d, p + 2)
  }

  function Get64(d: seq<byte>, p: nat): uint64
    requires p + 8 <= |d|
  {
    Get32(d, p) as int * 0x1_0000_0000 + Get32(d, p + 4)
  }

  /** `d` holds the bytes `b` from position `p` on. */
  ghost predicate At(d: seq<byte>, p: nat, b: seq<byte>) {
    p + |b| <= |d| && d[p..p + |b|] == b
  }

  lemma AtConcat(d: seq<byte>, p: nat, a: seq<byte>, b: seq<byte>)
    ensures At(d, p, a + b) <==> At(d, p, a) && At(d, p + |a|, b)
  {
    if At(d, p, a + b) {
      assert a == (a + b)[..|a|] == d[p..p + |a|];
      assert b == (a + b)[|a|..] == d[p + |a|..p + |a + b|];
    }
    if At(d, p, a) && At(d, p + |a|, b) {
      assert d[p..p + |a + b|] == d[p..p + |a|] + d[p + |a|..p + |a| + |b|];
    }
  }

  lemma Get16Of(d: seq<byte>, p: nat, v: uint16)
    requires At(d, p, BE16(v))
    ensures Get16(d, p) == v
  {
    var s := d[p..p + 2];
    assert s[0] == d[p] && s[1] == d[p + 1];
  }

  lemma Get24Of(d: seq<byte>, p: nat, v: uint24)
    requires At(d, p, BE24(v))
    ensures Get24(d, p) == v
  {
    AtConcat(d, p, [v / 0x1_0000], BE16(v % 0x1_0000));
    Get16Of(d, p + 1, v % 0x1_0000);
    assert d[p] == d[p..p + 1][0];
  }

  /** A big-endian number is read back wherever its bytes were laid down. */
  lemma Get32Of(d: seq<byte>, p: nat, v: uint32)
    requires At(d, p, BE32(v))
    ensures Get32(d, p) == v
  {
    AtConcat(d, p, BE16(v / 0x1_0000), BE16(v % 0x1_0000));
    Get16Of(d, p, v / 0x1_0000);
    Get16Of(d, p + 2, v % 0x1_0000);
  }

  lemma Get64Of(d: seq<byte>, p: nat, v: uint64)
    requires At(d, p, BE64(v))
    ensures Get64(d, p) == v
  {
    AtConcat(d, p, BE32(v / 0x1_0000_0000), BE32(v % 0x1_0000_0000));
    Get32Of(d, p, v / 0x1_0000_0000);
    Get32Of(d, p + 4, v % 0x1_0000_0000);
  }

  /** `n` bytes as a number, the most significant first. */
  function Number(d: seq<byte>, p: nat, n: nat): nat
    requires p + n <= |d|
  {
    if n == 0 then 0 else 256 * Number(d, p, n - 1) + d[p + n - 1]
  }

  lemma BigEndian16(d: seq<byte>, p: nat)
    requires p + 2 <= |d|
    ensures Get16(d, p) == Number(d, p, 2)
  {
    assert Number(d, p, 1) == 256 * Number(d, p, 0) + d[p];
  }

  lemma BigEndian24(d: seq<byte>, p: nat)
    requires p + 3 <= |d|
    ensures Get24(d, p) == Number(d, p, 3)
  {
    BigEndian16(d, p);
    assert Number(d, p, 3) == 256 * Number(d, p, 2) + d[p + 2];
  }

  lemma BigEndian32(d: seq<byte>, p: nat)
    requires p + 4 <= |d|
    ensures Get32(d, p) == Number(d, p, 4)
  {
    BigEndian24(d, p);
    assert Number(d, p, 4) == 256 * Number(d, p, 3) + d[p + 3];
  }

  /** Numbers of every width are read with the most significant byte first. */
  lemma {:induction false} BigEndian64(d: seq<byte>, p: nat)
    requires p + 8 <= |d|
    ensures Get64(d, p) == Number(d, p, 8)
  {
    BigEndian32(d, p);
    BigEndian32(d, p + 4);
    NumberConcat(d, p, 4, 4);
  }

  function Power256(n: nat): nat { if n == 0 then 1 else 256 * Power256(n - 1) }

  lemma {:induction false} NumberConcat(d: seq<byte>, p: nat, a: nat, b: nat)
    requires p + a + b <= |d|
    ensures Number(d, p, a + b) == Number(d, p, a) * Power256(b) + Number(d, p + a, b)
  {
    if b > 0 {
      NumberConcat(d, p, a, b - 1);
      Regroup(Number(d, p, a), Power256(b - 1));
    }
  }

  lemma Regroup(x: nat, y: nat)
    ensures 256 * (x * y) == x * (256 * y)
  {
  }

  /** Four ASCII letters as the bytes of a box type. */
  function Tag(s: string): (t: seq<byte>)
    requires |s| == 4
    ensures |t| == 4
  {
    [s[0] as int % 0x100, s[1] as int % 0x100, s[2] as int % 0x100, s[3] as int % 0x100]
  }

  /** A box: 32-bit size of the whole, type, body (section 4.2 of ISO/IEC 14496-12). */
  function Box(tag: string, body: seq<byte>): (b: seq<byte>)
    requires |tag| == 4
    ensures |b| == |body| + 8
  {
    BE32(U32(|body| + 8)) + Tag(tag) + body
  }

  /** A box whose body starts with a version byte and 24 flag bits. */
  function FullBox(tag: string, version: byte, flags: uint24, body: seq<byte>): (b: seq<byte>)
    requires |tag| == 4
    ensures |b| == |body| + 12
  {
    Box(tag, [version] + BE24(flags) + body)
  }
}
