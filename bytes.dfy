/** Fixed-width integers and their little-endian byte encodings, as the
    source obtains them from `struct.unpack`/`struct.pack` with the `"="`
    prefix (standard sizes; the byte order is taken to be little-endian,
    the order of every DEX file).  A Python `x >> k` on an int is floor
    division by 2^k, which is Dafny's `/` for a positive divisor, and
    `x & (2^k - 1)` is Dafny's `%` by 2^k, also for negative `x`. */
module Bytes {

  type byte = x: int | 0 <= x < 0x100
  type u4 = x: int | 0 <= x < 0x10
  type u8 = x: int | 0 <= x < 0x100
  type u16 = x: int | 0 <= x < 0x1_0000
  type u32 = x: int | 0 <= x < 0x1_0000_0000
  type u64 = x: int | 0 <= x < 0x1_0000_0000_0000_0000
  type s4 = x: int | -0x8 <= x < 0x8
  type s8 = x: int | -0x80 <= x < 0x80
  type s16 = x: int | -0x8000 <= x < 0x8000
  type s32 = x: int | -0x8000_0000 <= x < 0x8000_0000
  type s64 = x: int | -0x8000_0000_0000_0000 <= x < 0x8000_0000_0000_0000

  /** 256^n, the number of values an n-byte field can hold. */
  function Pow256(n: nat): (p: nat)
    ensures p >= 1
    ensures n > 0 ==> p >= 0x100
  {
    if n == 0 then 1 else 0x100 * Pow256(n - 1)
  }

  lemma Pow256Values()
    ensures Pow256(1) == 0x100
    ensures Pow256(2) == 0x1_0000
    ensures Pow256(4) == 0x1_0000_0000
    ensures Pow256(8) == 0x1_0000_0000_0000_0000
  {
    assert Pow256(2) == 0x100 * Pow256(1);
    assert Pow256(4) == 0x100 * (0x100 * Pow256(2));
    assert Pow256(8) == 0x100 * (0x100 * (0x100 * (0x100 * Pow256(4))));
  }

  /** The unsigned value of a little-endian byte string. */
  function LeValue(b: seq<byte>): (v: nat)
    ensures v < Pow256(|b|)
  {
    if b == [] then 0 else b[0] + 0x100 * LeValue(b[1..])
  }

  /** The n-byte little-endian encoding of v. */
  function LeBytes(v: nat, n: nat): (b: seq<byte>)
    requires v < Pow256(n)
    ensures |b| == n
  {
    if n == 0 then [] else [v % 0x100] + LeBytes(v / 0x100, n - 1)
  }

  /** Decoding an encoding gives the value back. */
  lemma {:induction false} LeValueOfLeBytes(v: nat, n: nat)
    requires v < Pow256(n)
    ensures LeValue(LeBytes(v, n)) == v
  {
    if n > 0 {
      var b := LeBytes(v, n);
      LeValueOfLeBytes(v / 0x100, n - 1);
      assert b[1..] == LeBytes(v / 0x100, n - 1);
    }
  }

  /** Encoding a decoded byte string gives the same bytes back. */
  lemma {:induction false} LeBytesOfLeValue(b: seq<byte>)
    ensures LeBytes(LeValue(b), |b|) == b
  {
    if b != [] {
      var v := LeValue(b);
      assert v % 0x100 == b[0] && v / 0x100 == LeValue(b[1..]);
      LeBytesOfLeValue(b[1..]);
    }
  }

  /** Two's-complement reading of an n-byte unsigned value. */
  function ToSigned(v: nat, n: nat): (x: int)
    requires v < Pow256(n)
    ensures -(Pow256(n) as int) <= 2 * x < Pow256(n)
    ensures x >= 0 <==> 2 * v < Pow256(n)
  {
    if 2 * v < Pow256(n) then v else v - Pow256(n)
  }

  /** The n-byte unsigned value whose two's-complement reading is x. */
  function FromSigned(x: int, n: nat): (v: nat)
    requires -(Pow256(n) as int) <= 2 * x < Pow256(n)
    ensures v < Pow256(n)
    ensures ToSigned(v, n) == x
  {
    if x < 0 then x + Pow256(n) else x
  }

  lemma FromSignedOfToSigned(v: nat, n: nat)
    requires v < Pow256(n)
    ensures FromSigned(ToSigned(v, n), n) == v
  {
  }

  // ---- `struct.unpack` readers: field of width n at byte offset i ----

  function UAt(b: seq<byte>, i: nat, n: nat): (v: nat)
    requires i + n <= |b|
    ensures v < Pow256(n)
  {
    LeValue(b[i..i + n])
  }

  function SAt(b: seq<byte>, i: nat, n: nat): (x: int)
    requires i + n <= |b|
    ensures -(Pow256(n) as int) <= 2 * x < Pow256(n)
  {
    ToSigned(UAt(b, i, n), n)
  }

  /** `unpack("=H", b[i:i+2])` */
  function U16At(b: seq<byte>, i: nat): u16
    requires i + 2 <= |b|
  {
    Pow256Values();
    UAt(b, i, 2)
  }

  /** `unpack("=h", b[i:i+2])` */
  function S16At(b: seq<byte>, i: nat): s16
    requires i + 2 <= |b|
  {
    Pow256Values();
    SAt(b, i, 2)
  }

  /** `unpack("=I", b[i:i+4])` */
  function U32At(b: seq<byte>, i: nat): u32
    requires i + 4 <= |b|
  {
    Pow256Values();
    UAt(b, i, 4)
  }

  /** `unpack("=i", b[i:i+4])` (also `"=l"`, four bytes in standard size) */
  function S32At(b: seq<byte>, i: nat): s32
    requires i + 4 <= |b|
  {
    Pow256Values();
    SAt(b, i, 4)
  }

  /** `unpack("=Q", b[i:i+8])` */
  function U64At(b: seq<byte>, i: nat): u64
    requires i + 8 <= |b|
  {
    Pow256Values();
    UAt(b, i, 8)
  }

  /** `unpack("=q", b[i:i+8])` */
  function S64At(b: seq<byte>, i: nat): s64
    requires i + 8 <= |b|
  {
    Pow256Values();
    SAt(b, i, 8)
  }

  /** `unpack("=b", b[i:i+1])` */
  function S8At(b: seq<byte>, i: nat): s8
    requires i + 1 <= |b|
  {
    Pow256Values();
    SAt(b, i, 1)
  }

  // ---- `struct.pack` writers ----

  function UBytes(v: nat, n: nat): (b: seq<byte>)
    requires v < Pow256(n)
    ensures |b| == n
  {
    LeBytes(v, n)
  }

  function SBytes(x: int, n: nat): (b: seq<byte>)
    requires -(Pow256(n) as int) <= 2 * x < Pow256(n)
    ensures |b| == n
  {
    LeBytes(FromSigned(x, n), n)
  }

  /** `pack("=H", v)` */
  function U16Bytes(v: u16): (b: seq<byte>)
    ensures |b| == 2
  {
    Pow256Values();
    UBytes(v, 2)
  }

  /** `pack("=h", x)` */
  function S16Bytes(x: s16): (b: seq<byte>)
    ensures |b| == 2
  {
    Pow256Values();
    SBytes(x, 2)
  }

  /** `pack("=I", v)` */
  function U32Bytes(v: u32): (b: seq<byte>)
    ensures |b| == 4
  {
    Pow256Values();
    UBytes(v, 4)
  }

  /** `pack("=i", x)` (also `"=l"`) */
  function S32Bytes(x: s32): (b: seq<byte>)
    ensures |b| == 4
  {
    Pow256Values();
    SBytes(x, 4)
  }

  /** `pack("=Q", v)` */
  function U64Bytes(v: u64): (b: seq<byte>)
    ensures |b| == 8
  {
    Pow256Values();
    UBytes(v, 8)
  }

  /** `pack("=q", x)` */
  function S64Bytes(x: s64): (b: seq<byte>)
    ensures |b| == 8
  {
    Pow256Values();
    SBytes(x, 8)
  }

  /** `pack("=b", x)` */
  function S8Bytes(x: s8): (b: seq<byte>)
    ensures |b| == 1
  {
    Pow256Values();
    SBytes(x, 1)
  }

  // ---- reading back what was written, and writing back what was read ----

  /** An unsigned field read from where its encoding sits gives its value. */
  lemma UAtUBytes(b: seq<byte>, i: nat, v: nat, n: nat)
    requires v < Pow256(n) && i + n <= |b|
    requires b[i..i + n] == UBytes(v, n)
    ensures UAt(b, i, n) == v
  {
    LeValueOfLeBytes(v, n);
  }

  /** A signed field read from where its encoding sits gives its value. */
  lemma SAtSBytes(b: seq<byte>, i: nat, x: int, n: nat)
    requires -(Pow256(n) as int) <= 2 * x < Pow256(n) && i + n <= |b|
    requires b[i..i + n] == SBytes(x, n)
    ensures SAt(b, i, n) == x
  {
    LeValueOfLeBytes(FromSigned(x, n), n);
  }

  /** Re-encoding an unsigned field gives the bytes it was read from. */
  lemma UBytesUAt(b: seq<byte>, i: nat, n: nat)
    requires i + n <= |b|
    ensures UBytes(UAt(b, i, n), n) == b[i..i + n]
  {
    LeBytesOfLeValue(b[i..i + n]);
  }

  /** Re-encoding a signed field gives the bytes it was read from. */
  lemma SBytesSAt(b: seq<byte>, i: nat, n: nat)
    requires i + n <= |b|
    ensures SBytes(SAt(b, i, n), n) == b[i..i + n]
  {
    LeBytesOfLeValue(b[i..i + n]);
    FromSignedOfToSigned(UAt(b, i, n), n);
  }

  // ---- fields inside a concatenation ----

  /** The slice of `p + q + r` that `q` occupies is `q`. */
  lemma MidSlice(p: seq<byte>, q: seq<byte>, r: seq<byte>)
    ensures (p + q + r)[|p|..|p| + |q|] == q
  {
    var b := p + q + r;
    assert forall k :: 0 <= k < |q| ==> b[|p|..|p| + |q|][k] == q[k];
  }

  /** Two adjacent slices join into one. */
  lemma JoinSlices(b: seq<byte>, i: nat, j: nat, k: nat)
    requires i <= j <= k <= |b|
    ensures b[i..j] + b[j..k] == b[i..k]
  {
  }

  /** The pieces of `a + b + r`, for a two-field layout. */
  lemma Slices2(a: seq<byte>, b: seq<byte>, r: seq<byte>)
    ensures var s := a + b + r;
      s[..|a|] == a && s[|a|..|a| + |b|] == b
  {
    MidSlice(a, b, r);
  }

  /** The pieces of `a + b + c + r`, for a three-field layout. */
  lemma Slices3(a: seq<byte>, b: seq<byte>, c: seq<byte>, r: seq<byte>)
    ensures var s := a + b + c + r;
      s[..|a|] == a && s[|a|..|a| + |b|] == b && s[|a| + |b|..|a| + |b| + |c|] == c
  {
    MidSlice(a + b, c, r);
    MidSlice(a, b, c + r);
    assert a + b + c + r == a + b + (c + r);
  }

  /** The pieces of `a + b + c + d + r`, for a four-field layout. */
  lemma Slices4(a: seq<byte>, b: seq<byte>, c: seq<byte>, d: seq<byte>, r: seq<byte>)
    ensures var s := a + b + c + d + r;
      && s[..|a|] == a && s[|a|..|a| + |b|] == b
      && s[|a| + |b|..|a| + |b| + |c|] == c
      && s[|a| + |b| + |c|..|a| + |b| + |c| + |d|] == d
  {
    Slices3(a, b, c, d + r);
    MidSlice(a + b + c, d, r);
    assert a + b + c + d + r == a + b + c + (d + r);
  }

  /** Each reader applied where the matching writer's bytes sit gives the value back. */
  lemma ReadBack(b: seq<byte>, i: nat)
    ensures forall x: s8 :: i + 1 <= |b| && b[i..i + 1] == S8Bytes(x) ==> S8At(b, i) == x
    ensures forall x: u16 :: i + 2 <= |b| && b[i..i + 2] == U16Bytes(x) ==> U16At(b, i) == x
    ensures forall x: s16 :: i + 2 <= |b| && b[i..i + 2] == S16Bytes(x) ==> S16At(b, i) == x
    ensures forall x: u32 :: i + 4 <= |b| && b[i..i + 4] == U32Bytes(x) ==> U32At(b, i) == x
    ensures forall x: s32 :: i + 4 <= |b| && b[i..i + 4] == S32Bytes(x) ==> S32At(b, i) == x
    ensures forall x: u64 :: i + 8 <= |b| && b[i..i + 8] == U64Bytes(x) ==> U64At(b, i) == x
    ensures forall x: s64 :: i + 8 <= |b| && b[i..i + 8] == S64Bytes(x) ==> S64At(b, i) == x
  {
    Pow256Values();
    forall x: s8 | i + 1 <= |b| && b[i..i + 1] == S8Bytes(x) ensures S8At(b, i) == x {
      SAtSBytes(b, i, x, 1);
    }
    forall x: u16 | i + 2 <= |b| && b[i..i + 2] == U16Bytes(x) ensures U16At(b, i) == x {
      UAtUBytes(b, i, x, 2);
    }
    forall x: s16 | i + 2 <= |b| && b[i..i + 2] == S16Bytes(x) ensures S16At(b, i) == x {
      SAtSBytes(b, i, x, 2);
    }
    forall x: u32 | i + 4 <= |b| && b[i..i + 4] == U32Bytes(x) ensures U32At(b, i) == x {
      UAtUBytes(b, i, x, 4);
    }
    forall x: s32 | i + 4 <= |b| && b[i..i + 4] == S32Bytes(x) ensures S32At(b, i) == x {
      SAtSBytes(b, i, x, 4);
    }
    forall x: u64 | i + 8 <= |b| && b[i..i + 8] == U64Bytes(x) ensures U64At(b, i) == x {
      UAtUBytes(b, i, x, 8);
    }
    forall x: s64 | i + 8 <= |b| && b[i..i + 8] == S64Bytes(x) ensures S64At(b, i) == x {
      SAtSBytes(b, i, x, 8);
    }
  }

  // Re-encoding a field read at offset `i` gives the bytes it was read from.

  lemma WriteBackS8(b: seq<byte>, i: nat)
    requires i + 1 <= |b|
    ensures S8Bytes(S8At(b, i)) == b[i..i + 1]
  {
    Pow256Values();
    SBytesSAt(b, i, 1);
  }

  lemma WriteBackU16(b: seq<byte>, i: nat)
    requires i + 2 <= |b|
    ensures U16Bytes(U16At(b, i)) == b[i..i + 2]
  {
    Pow256Values();
    UBytesUAt(b, i, 2);
  }

  lemma WriteBackS16(b: seq<byte>, i: nat)
    requires i + 2 <= |b|
    ensures S16Bytes(S16At(b, i)) == b[i..i + 2]
  {
    Pow256Values();
    SBytesSAt(b, i, 2);
  }

  lemma WriteBackU32(b: seq<byte>, i: nat)
    requires i + 4 <= |b|
    ensures U32Bytes(U32At(b, i)) == b[i..i + 4]
  {
    Pow256Values();
    UBytesUAt(b, i, 4);
  }

  lemma WriteBackS32(b: seq<byte>, i: nat)
    requires i + 4 <= |b|
    ensures S32Bytes(S32At(b, i)) == b[i..i + 4]
  {
    Pow256Values();
    SBytesSAt(b, i, 4);
  }

  lemma WriteBackU64(b: seq<byte>, i: nat)
    requires i + 8 <= |b|
    ensures U64Bytes(U64At(b, i)) == b[i..i + 8]
  {
    Pow256Values();
    UBytesUAt(b, i, 8);
  }

  lemma WriteBackS64(b: seq<byte>, i: nat)
    requires i + 8 <= |b|
    ensures S64Bytes(S64At(b, i)) == b[i..i + 8]
  {
    Pow256Values();
    SBytesSAt(b, i, 8);
  }

  // Reading a field where its encoding sits, one width at a time.

  lemma ReadU16(b: seq<byte>, i: nat, x: u16)
    requires i + 2 <= |b| && b[i..i + 2] == U16Bytes(x)
    ensures U16At(b, i) == x
  {
    Pow256Values();
    UAtUBytes(b, i, x, 2);
  }

  lemma ReadU32(b: seq<byte>, i: nat, x: u32)
    requires i + 4 <= |b| && b[i..i + 4] == U32Bytes(x)
    ensures U32At(b, i) == x
  {
    Pow256Values();
    UAtUBytes(b, i, x, 4);
  }

  lemma ReadS32(b: seq<byte>, i: nat, x: s32)
    requires i + 4 <= |b| && b[i..i + 4] == S32Bytes(x)
    ensures S32At(b, i) == x
  {
    Pow256Values();
    SAtSBytes(b, i, x, 4);
  }

  lemma ReadU64(b: seq<byte>, i: nat, x: u64)
    requires i + 8 <= |b| && b[i..i + 8] == U64Bytes(x)
    ensures U64At(b, i) == x
  {
    Pow256Values();
    UAtUBytes(b, i, x, 8);
  }

  /** `"=h"` and `"=H"` read the same two bytes: the signed reading is the
      two's-complement view of the unsigned one. */
  lemma S16AtU16At(b: seq<byte>, i: nat)
    requires i + 2 <= |b|
    ensures S16At(b, i) == if U16At(b, i) < 0x8000 then U16At(b, i) else U16At(b, i) - 0x1_0000
  {
    Pow256Values();
  }

  /** `pack("=h", (hi << 8) | lo)` for a signed byte `hi` is the byte `lo`
      followed by `pack("=b", hi)`. */
  lemma S16BytesOfBytes(hi: s8, lo: u8)
    ensures S16Bytes(JoinSigned8(hi, lo)) == [lo] + S8Bytes(hi)
  {
    Pow256Values();
    var v := FromSigned(JoinSigned8(hi, lo), 2);
    assert v % 0x100 == lo && v / 0x100 == FromSigned(hi, 1);
    assert LeBytes(v, 2) == [v % 0x100] + LeBytes(v / 0x100, 1);
    assert LeBytes(v / 0x100, 1) == [(v / 0x100) % 0x100] + LeBytes(v / 0x100 / 0x100, 0);
  }

  /** A code unit is its low byte plus 256 times its high byte. */
  lemma U16AtValue(b: seq<byte>, i: nat)
    requires i + 2 <= |b|
    ensures U16At(b, i) == b[i] as int + 0x100 * b[i + 1] as int
  {
    Pow256Values();
    var p := b[i..i + 2];
    assert p[1..][1..] == [];
    assert LeValue(p[1..]) == p[1];
  }

  /** `pack("=H", v)` is the low byte, then the high byte. */
  lemma U16BytesValue(v: u16)
    ensures U16Bytes(v) == [v % 0x100, v / 0x100]
  {
    Pow256Values();
    assert LeBytes(v / 0x100, 1) == [v / 0x100] + LeBytes(v / 0x100 / 0x100, 0);
  }

  // ---- bit fields of one 16-bit code unit ----
  // Python's `>>` floors and `& (2^k - 1)` takes the non-negative
  // remainder, also for negative values; Dafny's `/` and `%` by a positive
  // constant do the same.

  /** `w & 0xff` */
  function Lo8(w: int): (r: int)
    ensures 0 <= r < 0x100
  {
    w % 0x100
  }

  /** `(w >> 8) & 0xff` */
  function Hi8(w: int): (r: int)
    ensures 0 <= r < 0x100
  {
    (w / 0x100) % 0x100
  }

  /** `w & 0xf` */
  function Nib0(w: int): (r: int)
    ensures 0 <= r < 0x10
  {
    w % 0x10
  }

  /** `(w >> 4) & 0xf` */
  function Nib4(w: int): (r: int)
    ensures 0 <= r < 0x10
  {
    (w / 0x10) % 0x10
  }

  /** `(w >> 8) & 0xf` */
  function Nib8(w: int): (r: int)
    ensures 0 <= r < 0x10
  {
    (w / 0x100) % 0x10
  }

  /** `(w >> 12) & 0xf` */
  function Nib12(w: int): (r: int)
    ensures 0 <= r < 0x10
  {
    (w / 0x1000) % 0x10
  }

  /** `w >> 12` of a signed 16-bit value: its signed top nibble. */
  function Shr12(w: int): (r: int)
    requires -0x8000 <= w < 0x8000
    ensures -0x8 <= r < 0x8
  {
    w / 0x1000
  }

  /** `(hi << 8) | lo` */
  function Join8(hi: int, lo: int): (w: int)
    requires 0 <= hi < 0x100 && 0 <= lo < 0x100
    ensures 0 <= w < 0x1_0000
  {
    hi * 0x100 + lo
  }

  /** `(hi << 8) | lo` with a signed byte `hi`: a signed 16-bit value. */
  function JoinSigned8(hi: int, lo: int): (w: int)
    requires -0x80 <= hi < 0x80 && 0 <= lo < 0x100
    ensures -0x8000 <= w < 0x8000
  {
    hi * 0x100 + lo
  }

  /** `(hi << 12) | (mid << 8) | lo`: two nibbles over a byte. */
  function Join448(hi: int, mid: int, lo: int): (w: int)
    requires 0 <= hi < 0x10 && 0 <= mid < 0x10 && 0 <= lo < 0x100
    ensures 0 <= w < 0x1_0000
  {
    hi * 0x1000 + mid * 0x100 + lo
  }

  /** `(hi << 12) | (mid << 8) | lo` with a signed top nibble. */
  function JoinSigned448(hi: int, mid: int, lo: int): (w: int)
    requires -0x8 <= hi < 0x8 && 0 <= mid < 0x10 && 0 <= lo < 0x100
    ensures -0x8000 <= w < 0x8000
  {
    hi * 0x1000 + mid * 0x100 + lo
  }

  /** `(f << 12) | (e << 8) | (d << 4) | c`: four nibbles. */
  function Join4444(f: int, e: int, d: int, c: int): (w: int)
    requires 0 <= f < 0x10 && 0 <= e < 0x10 && 0 <= d < 0x10 && 0 <= c < 0x10
    ensures 0 <= w < 0x1_0000
  {
    f * 0x1000 + e * 0x100 + d * 0x10 + c
  }

  lemma UnpackJoin8(hi: int, lo: int)
    requires 0 <= hi < 0x100 && 0 <= lo < 0x100
    ensures Lo8(Join8(hi, lo)) == lo && Hi8(Join8(hi, lo)) == hi
  {
  }

  lemma RepackJoin8(w: int)
    requires 0 <= w < 0x1_0000
    ensures Join8(Hi8(w), Lo8(w)) == w
  {
  }

  lemma UnpackJoinSigned8(hi: int, lo: int)
    requires -0x80 <= hi < 0x80 && 0 <= lo < 0x100
    ensures Lo8(JoinSigned8(hi, lo)) == lo && JoinSigned8(hi, lo) / 0x100 == hi
  {
  }

  lemma UnpackJoin448(hi: int, mid: int, lo: int)
    requires 0 <= hi < 0x10 && 0 <= mid < 0x10 && 0 <= lo < 0x100
    ensures var w := Join448(hi, mid, lo);
      Lo8(w) == lo && Nib8(w) == mid && Nib12(w) == hi
  {
    var w := Join448(hi, mid, lo);
    assert w / 0x100 == hi * 0x10 + mid;
    assert w / 0x1000 == hi;
  }

  lemma RepackJoin448(w: int)
    requires 0 <= w < 0x1_0000
    ensures Join448(Nib12(w), Nib8(w), Lo8(w)) == w
  {
    var h := w / 0x100;
    assert w == h * 0x100 + w % 0x100;
    assert h == (h / 0x10) * 0x10 + h % 0x10;
    assert w / 0x1000 == h / 0x10;
  }

  lemma UnpackJoinSigned448(hi: int, mid: int, lo: int)
    requires -0x8 <= hi < 0x8 && 0 <= mid < 0x10 && 0 <= lo < 0x100
    ensures var w := JoinSigned448(hi, mid, lo);
      Lo8(w) == lo && Nib8(w) == mid && Shr12(w) == hi
  {
    var w := JoinSigned448(hi, mid, lo);
    assert w / 0x100 == hi * 0x10 + mid;
    assert w / 0x1000 == hi;
  }

  lemma RepackJoinSigned448(w: int)
    requires -0x8000 <= w < 0x8000
    ensures JoinSigned448(Shr12(w), Nib8(w), Lo8(w)) == w
  {
    var h := w / 0x100;
    assert w == h * 0x100 + w % 0x100;
    assert h == (h / 0x10) * 0x10 + h % 0x10;
    assert w / 0x1000 == h / 0x10;
  }

  lemma UnpackJoin4444(f: int, e: int, d: int, c: int)
    requires 0 <= f < 0x10 && 0 <= e < 0x10 && 0 <= d < 0x10 && 0 <= c < 0x10
    ensures var w := Join4444(f, e, d, c);
      Nib0(w) == c && Nib4(w) == d && Nib8(w) == e && Nib12(w) == f
  {
    var w := Join4444(f, e, d, c);
    assert w / 0x10 == f * 0x100 + e * 0x10 + d;
    assert w / 0x100 == f * 0x10 + e;
    assert w / 0x1000 == f;
  }

  lemma RepackJoin4444(w: int)
    requires 0 <= w < 0x1_0000
    ensures Join4444(Nib12(w), Nib8(w), Nib4(w), Nib0(w)) == w
  {
    var q1 := w / 0x10;
    var q2 := q1 / 0x10;
    var q3 := q2 / 0x10;
    assert w == q1 * 0x10 + w % 0x10;
    assert q1 == q2 * 0x10 + q1 % 0x10;
    assert q2 == q3 * 0x10 + q2 % 0x10;
    assert w / 0x100 == q2;
    assert w / 0x1000 == q3;
  }

  /** Masking the signed reading of a code unit (`"=h"`) gives the same
      byte and nibbles as masking the unsigned one. */
  lemma SignedUnitFields(v: nat)
    requires v < 0x1_0000
    ensures var s := if v < 0x8000 then v else v - 0x1_0000;
      Lo8(s) == Lo8(v) && Nib8(s) == Nib8(v) && Nib12(s) == Nib12(v)
  {
    if v >= 0x8000 {
      var s := v - 0x1_0000;
      assert s / 0x100 == v / 0x100 - 0x100;
      assert s / 0x1000 == v / 0x1000 - 0x10;
    }
  }
}
