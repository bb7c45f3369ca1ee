/** The fixed-size Dalvik instruction formats: one constructor per
    `Instruction*` class, the fields each class constructor reads from the
    start of the buffer (`Decode`), the bytes `get_raw` writes back
    (`Encode`) and `get_length` (`Length`).

    The constructors are grouped by byte layout (one code unit; a unit and
    a 16-bit operand; two split units; a unit and a 32- or 64-bit operand;
    three units; the wide formats), one datatype per layout, so that each
    layout's decoding, packing and proofs stand on their own.

    Where the source combines fields with `|` the bit ranges do not
    overlap (for a negative top field the low bits of the shifted value are
    zero), so the model adds them (`Join8`, `Join448`, ...). */
module Instructions {
  import opened Bytes
  import opened Opcodes
  import opened Wrappers

  /** A decoded instruction.  Fields keep the source's names (`AA`,
      `BBBB`, ...) in lower case; `op` is `self.OP`, the low byte of the
      first code unit except in the wide formats, where it is the whole
      code unit.  Range forms keep the derived last register `nnnn` as the
      source does. */
  datatype Insn =
    | OneUnit(one: UnitInsn)
    | UnitShort(short: ShortInsn)
    | UnitPair(pair: PairInsn)
    | UnitLong(long: LongInsn)
    | ThreeUnits(three: TripleInsn)
    | Wide(wide: WideInsn)

  /** One code unit. */
  datatype UnitInsn =
    | Invalid(op: int)
    | I10x(op: int)
    | I10t(op: int, aa: int)
    | I11n(op: int, a: int, b: int)
    | I11x(op: int, aa: int)
    | I12x(op: int, a: int, b: int)

  /** `OP | AA << 8` (20t: `OP` alone), then a 16-bit operand. */
  datatype ShortInsn =
    | I20t(op: int, aaaa: int)
    | I20bc(op: int, aa: int, bbbb: int)
    | I21c(op: int, aa: int, bbbb: int)
    | I21h(op: int, aa: int, bbbb: int)
    | I21s(op: int, aa: int, bbbb: int)
    | I21t(op: int, aa: int, bbbb: int)
    | I22x(op: int, aa: int, bbbb: int)

  /** Two code units with the second split into bytes or the first into nibbles. */
  datatype PairInsn =
    | I22b(op: int, aa: int, bb: int, cc: int)
    | I22c(op: int, a: int, b: int, cccc: int)
    | I22cs(op: int, a: int, b: int, cccc: int)
    | I22s(op: int, a: int, b: int, cccc: int)
    | I22t(op: int, a: int, b: int, cccc: int)
    | I23x(op: int, aa: int, bb: int, cc: int)

  /** One code unit, then a 32-bit (51l: 64-bit) operand. */
  datatype LongInsn =
    | I30t(op: int, aaaaaaaa: int)
    | I31c(op: int, aa: int, bbbbbbbb: int)
    | I31i(op: int, aa: int, bbbbbbbb: int)
    | I31t(op: int, aa: int, bbbbbbbb: int)
    | I51l(op: int, aa: int, bbbbbbbbbbbbbbbb: int)

  /** Three code units. */
  datatype TripleInsn =
    | I32x(op: int, aaaa: int, bbbb: int)
    | I35c(op: int, g: int, a: int, bbbb: int, c: int, d: int, e: int, f: int)
    | I35mi(op: int, g: int, a: int, bbbb: int, c: int, d: int, e: int, f: int)
    | I35ms(op: int, g: int, a: int, bbbb: int, c: int, d: int, e: int, f: int)
    | I3rc(op: int, aa: int, bbbb: int, cccc: int, nnnn: int)
    | I3rmi(op: int, aa: int, bbbb: int, cccc: int, nnnn: int)
    | I3rms(op: int, aa: int, bbbb: int, cccc: int, nnnn: int)

  /** The formats whose opcode is the whole first code unit. */
  datatype WideInsn =
    | I40sc(op: int, bbbbbbbb: int, aaaa: int)
    | I41c(op: int, bbbbbbbb: int, aaaa: int)
    | I52c(op: int, cccccccc: int, aaaa: int, bbbb: int)
    | I5rc(op: int, bbbbbbbb: int, aaaa: int, cccc: int, nnnn: int)

  predicate IsU4(x: int) { 0 <= x < 0x10 }
  predicate IsU8(x: int) { 0 <= x < 0x100 }
  predicate IsU16(x: int) { 0 <= x < 0x1_0000 }
  predicate IsU32(x: int) { 0 <= x < 0x1_0000_0000 }
  predicate IsS4(x: int) { -0x8 <= x < 0x8 }
  predicate IsS8(x: int) { -0x80 <= x < 0x80 }
  predicate IsS16(x: int) { -0x8000 <= x < 0x8000 }
  predicate IsS32(x: int) { -0x8000_0000 <= x < 0x8000_0000 }
  predicate IsS64(x: int) { -0x8000_0000_0000_0000 <= x < 0x8000_0000_0000_0000 }

  /** The field ranges the constructors produce (a masked nibble, a masked
      byte, an `"=h"` read, ...), and `NNNN = CCCC + AA - 1` (5rc:
      `CCCC + AAAA - 1`) for the range forms. */
  predicate Valid(i: Insn) {
    match i
    case OneUnit(u) => ValidUnit(u)
    case UnitShort(u) => ValidShort(u)
    case UnitPair(u) => ValidPair(u)
    case UnitLong(u) => ValidLong(u)
    case ThreeUnits(u) => ValidTriple(u)
    case Wide(u) => ValidWide(u)
  }

  predicate ValidUnit(u: UnitInsn) {
    match u
    case Invalid(op) => IsU8(op)
    case I10x(op) => IsU8(op)
    case I10t(op, aa) => IsU8(op) && IsS8(aa)
    case I11n(op, a, b) => IsU8(op) && IsU4(a) && IsS4(b)
    case I11x(op, aa) => IsU8(op) && IsU8(aa)
    case I12x(op, a, b) => IsU8(op) && IsU4(a) && IsU4(b)
  }

  predicate ValidShort(u: ShortInsn) {
    match u
    case I20t(op, aaaa) => IsU8(op) && IsS16(aaaa)
    case I20bc(op, aa, bbbb) => IsU8(op) && IsU8(aa) && IsU16(bbbb)
    case I21c(op, aa, bbbb) => IsU8(op) && IsU8(aa) && IsU16(bbbb)
    case I21h(op, aa, bbbb) => IsU8(op) && IsU8(aa) && IsS16(bbbb)
    case I21s(op, aa, bbbb) => IsU8(op) && IsU8(aa) && IsS16(bbbb)
    case I21t(op, aa, bbbb) => IsU8(op) && IsU8(aa) && IsS16(bbbb)
    case I22x(op, aa, bbbb) => IsU8(op) && IsU8(aa) && IsU16(bbbb)
  }

  predicate ValidPair(u: PairInsn) {
    match u
    case I22b(op, aa, bb, cc) => IsU8(op) && IsU8(aa) && IsU8(bb) && IsS8(cc)
    case I22c(op, a, b, cccc) => IsU8(op) && IsU4(a) && IsU4(b) && IsU16(cccc)
    case I22cs(op, a, b, cccc) => IsU8(op) && IsU4(a) && IsU4(b) && IsU16(cccc)
    case I22s(op, a, b, cccc) => IsU8(op) && IsU4(a) && IsU4(b) && IsS16(cccc)
    case I22t(op, a, b, cccc) => IsU8(op) && IsU4(a) && IsU4(b) && IsS16(cccc)
    case I23x(op, aa, bb, cc) => IsU8(op) && IsU8(aa) && IsU8(bb) && IsU8(cc)
  }

  predicate ValidLong(u: LongInsn) {
    match u
    case I30t(op, aaaaaaaa) => IsU8(op) && IsS32(aaaaaaaa)
    case I31c(op, aa, bbbbbbbb) => IsU8(op) && IsU8(aa) && IsU32(bbbbbbbb)
    case I31i(op, aa, bbbbbbbb) => IsU8(op) && IsU8(aa) && IsS32(bbbbbbbb)
    case I31t(op, aa, bbbbbbbb) => IsU8(op) && IsU8(aa) && IsS32(bbbbbbbb)
    case I51l(op, aa, bbbbbbbbbbbbbbbb) => IsU8(op) && IsU8(aa) && IsS64(bbbbbbbbbbbbbbbb)
  }

  predicate ValidTriple(u: TripleInsn) {
    match u
    case I32x(op, aaaa, bbbb) => IsU8(op) && IsU16(aaaa) && IsU16(bbbb)
    case I35c(op, g, a, bbbb, c, d, e, f) => ValidFive(op, g, a, bbbb, c, d, e, f)
    case I35mi(op, g, a, bbbb, c, d, e, f) => ValidFive(op, g, a, bbbb, c, d, e, f)
    case I35ms(op, g, a, bbbb, c, d, e, f) => ValidFive(op, g, a, bbbb, c, d, e, f)
    case I3rc(op, aa, bbbb, cccc, nnnn) => ValidRange(op, aa, bbbb, cccc, nnnn)
    case I3rmi(op, aa, bbbb, cccc, nnnn) => ValidRange(op, aa, bbbb, cccc, nnnn)
    case I3rms(op, aa, bbbb, cccc, nnnn) => ValidRange(op, aa, bbbb, cccc, nnnn)
  }

  predicate ValidFive(op: int, g: int, a: int, bbbb: int, c: int, d: int, e: int, f: int) {
    IsU8(op) && IsU4(g) && IsU4(a) && IsU16(bbbb) && IsU4(c) && IsU4(d) && IsU4(e) && IsU4(f)
  }

  predicate ValidRange(op: int, aa: int, bbbb: int, cccc: int, nnnn: int) {
    IsU8(op) && IsU8(aa) && IsU16(bbbb) && IsU16(cccc) && nnnn == cccc + aa - 1
  }

  predicate ValidWide(u: WideInsn) {
    match u
    case I40sc(op, bbbbbbbb, aaaa) => IsU16(op) && IsU32(bbbbbbbb) && IsU16(aaaa)
    case I41c(op, bbbbbbbb, aaaa) => IsU16(op) && IsU32(bbbbbbbb) && IsU16(aaaa)
    case I52c(op, cccccccc, aaaa, bbbb) =>
      IsU16(op) && IsU32(cccccccc) && IsU16(aaaa) && IsU16(bbbb)
    case I5rc(op, bbbbbbbb, aaaa, cccc, nnnn) =>
      IsU16(op) && IsU32(bbbbbbbb) && IsU16(aaaa) && IsU16(cccc) && nnnn == cccc + aaaa - 1
  }

  // ---- formats and lengths ----

  /** Formats of one code unit: invalid, 10x, 10t, 11n, 11x, 12x. */
  predicate InUnit(f: Format) {
    f.FInvalid? || f.F10x? || f.F10t? || f.F11n? || f.F11x? || f.F12x?
  }

  /** Formats of one code unit and a 16-bit operand: 20t, 20bc, 21c, 21h, 21s, 21t, 22x. */
  predicate InShort(f: Format) {
    f.F20t? || f.F20bc? || f.F21c? || f.F21h? || f.F21s? || f.F21t? || f.F22x?
  }

  /** Formats of two split code units: 22b, 22c, 22cs, 22s, 22t, 23x. */
  predicate InPair(f: Format) {
    f.F22b? || f.F22c? || f.F22cs? || f.F22s? || f.F22t? || f.F23x?
  }

  /** Formats of one code unit and a 32- or 64-bit operand: 30t, 31c, 31i, 31t, 51l. */
  predicate InLong(f: Format) {
    f.F30t? || f.F31c? || f.F31i? || f.F31t? || f.F51l?
  }

  /** Formats of three code units: 32x, 35c, 35mi, 35ms, 3rc, 3rmi, 3rms. */
  predicate InTriple(f: Format) {
    f.F32x? || f.F35c? || f.F35mi? || f.F35ms? || f.F3rc? || f.F3rmi? || f.F3rms?
  }

  /** The format class of each constructor. */
  function FormatOf(i: Insn): (f: Format)
    ensures i.OneUnit? <==> InUnit(f)
    ensures i.UnitShort? <==> InShort(f)
    ensures i.UnitPair? <==> InPair(f)
    ensures i.UnitLong? <==> InLong(f)
    ensures i.ThreeUnits? <==> InTriple(f)
    ensures i.Wide? <==> IsWide(f)
  {
    match i
    case OneUnit(u) => UnitFormat(u)
    case UnitShort(u) => ShortFormat(u)
    case UnitPair(u) => PairFormat(u)
    case UnitLong(u) => LongFormat(u)
    case ThreeUnits(u) => TripleFormat(u)
    case Wide(u) => WideFormat(u)
  }

  function UnitFormat(u: UnitInsn): (f: Format)
    ensures InUnit(f)
  {
    match u
    case Invalid(_) => FInvalid
    case I10x(_) => F10x
    case I10t(_, _) => F10t
    case I11n(_, _, _) => F11n
    case I11x(_, _) => F11x
    case I12x(_, _, _) => F12x
  }

  function ShortFormat(u: ShortInsn): (f: Format)
    ensures InShort(f)
  {
    match u
    case I20t(_, _) => F20t
    case I20bc(_, _, _) => F20bc
    case I21c(_, _, _) => F21c
    case I21h(_, _, _) => F21h
    case I21s(_, _, _) => F21s
    case I21t(_, _, _) => F21t
    case I22x(_, _, _) => F22x
  }

  function PairFormat(u: PairInsn): (f: Format)
    ensures InPair(f)
  {
    match u
    case I22b(_, _, _, _) => F22b
    case I22c(_, _, _, _) => F22c
    case I22cs(_, _, _, _) => F22cs
    case I22s(_, _, _, _) => F22s
    case I22t(_, _, _, _) => F22t
    case I23x(_, _, _, _) => F23x
  }

  function LongFormat(u: LongInsn): (f: Format)
    ensures InLong(f)
  {
    match u
    case I30t(_, _) => F30t
    case I31c(_, _, _) => F31c
    case I31i(_, _, _) => F31i
    case I31t(_, _, _) => F31t
    case I51l(_, _, _) => F51l
  }

  function TripleFormat(u: TripleInsn): (f: Format)
    ensures InTriple(f)
  {
    match u
    case I32x(_, _, _) => F32x
    case I35c(_, _, _, _, _, _, _, _) => F35c
    case I35mi(_, _, _, _, _, _, _, _) => F35mi
    case I35ms(_, _, _, _, _, _, _, _) => F35ms
    case I3rc(_, _, _, _, _) => F3rc
    case I3rmi(_, _, _, _, _) => F3rmi
    case I3rms(_, _, _, _, _) => F3rms
  }

  function WideFormat(u: WideInsn): (f: Format)
    ensures IsWide(f)
  {
    match u
    case I40sc(_, _, _) => F40sc
    case I41c(_, _, _) => F41c
    case I52c(_, _, _, _) => F52c
    case I5rc(_, _, _, _, _) => F5rc
  }

  /** `get_length` of each format class: a whole number of 16-bit code
      units, fixed by the layout. */
  function FormatLength(f: Format): (n: nat)
    ensures n % 2 == 0 && 2 <= n <= 10
  {
    if InUnit(f) then 2
    else if InShort(f) || InPair(f) then 4
    else if InLong(f) then (if f.F51l? then 10 else 6)
    else if InTriple(f) then 6
    else if f.F40sc? || f.F41c? then 8
    else 10
  }

  /** `get_length()` of an instruction. */
  function Length(i: Insn): nat {
    FormatLength(FormatOf(i))
  }

  /** Every format belongs to exactly one layout. */
  lemma LayoutsPartition(f: Format)
    ensures InUnit(f) || InShort(f) || InPair(f) || InLong(f) || InTriple(f) || IsWide(f)
    ensures !(InUnit(f) && InShort(f)) && !(InShort(f) && InPair(f)) && !(InLong(f) && IsWide(f))
  {
  }

  /** Formats whose `get_raw` writes `OP` alone into the first code unit.
      They read the first unit unsigned and keep only its low byte, so the
      high byte (zero in well-formed code) is written back as zero. */
  predicate DropsHighByte(f: Format) {
    f.FInvalid? || f.F10x? || f.F20t? || f.F30t? || f.F32x?
  }

  // ---- the class constructors ----

  /** The class constructor of format `f` applied to `b`.  `None` is the
      `struct.error` a buffer shorter than the fields raises. */
  function Decode(f: Format, b: seq<byte>): (r: Option<Insn>)
    ensures r.Some? <==> |b| >= FormatLength(f)
    ensures r.Some? ==> Valid(r.value) && FormatOf(r.value) == f
  {
    if |b| < FormatLength(f) then None
    else if InUnit(f) then Some(OneUnit(DecodeUnit(f, b)))
    else if InShort(f) then Some(UnitShort(DecodeShort(f, b)))
    else if InPair(f) then Some(UnitPair(DecodePair(f, b)))
    else if InLong(f) then Some(UnitLong(DecodeLong(f, b)))
    else if InTriple(f) then Some(ThreeUnits(DecodeTriple(f, b)))
    else Some(Wide(DecodeWide(f, b)))
  }

  // ---- the 21h constructor as written ----

  /** Why a class constructor as written raises: a buffer shorter than its
      fields (`struct.error`), or, in the 21h constructor, a `str` literal
      added to the `bytes` of `pack('=h', BBBB)` (`TypeError`). */
  datatype DecodeError = ShortBuffer | StrPlusBytes

  /** The opcodes for which the 21h constructor builds a floating-point view
      of `BBBB`: `const/high16` and `const-wide/high16`. */
  predicate HighFloatOp(op: int) {
    op == 0x15 || op == 0x19
  }

  /** The class constructor of format `f` as written: `Decode`, except that
      the 21h constructor raises for the two opcodes it gives a
      floating-point view. */
  function DecodeAsWritten(f: Format, b: seq<byte>): (r: Result<Insn, DecodeError>)
    ensures r == Err(ShortBuffer) <==> |b| < FormatLength(f)
    ensures r == Err(StrPlusBytes) <==> |b| >= FormatLength(f) && f.F21h? && HighFloatOp(Lo8(U16At(b, 0)))
    ensures r.Ok? ==> Decode(f, b) == Some(r.value)
  {
    match Decode(f, b)
    case None => Err(ShortBuffer)
    case Some(i) =>
      if i.UnitShort? && i.short.I21h? && HighFloatOp(i.short.op) then Err(StrPlusBytes) else Ok(i)
  }

  /** `15 00 00 40`, `const/high16 v0, 0x4000`: the corrected constructor
      reads it, and the constructor as written raises `TypeError`. */
  lemma ConstHigh16AsWrittenRaises()
    ensures Decode(F21h, [0x15, 0, 0, 0x40]) == Some(UnitShort(I21h(0x15, 0, 0x4000)))
    ensures DecodeAsWritten(F21h, [0x15, 0, 0, 0x40]) == Err(StrPlusBytes)
  {
    var b: seq<byte> := [0x15, 0, 0, 0x40];
    assert LeValue(b[0..2]) == 0x15 by {
      assert b[0..2] == [0x15, 0] && b[0..2][1..] == [0] && [0][1..] == [];
    }
    assert LeValue(b[2..4]) == 0x4000 by {
      assert b[2..4] == [0, 0x40] && b[2..4][1..] == [0x40] && [0x40][1..] == [];
    }
  }

  /** As written, no 21h instruction the classical table selects is ever
      built: both opcodes that table gives format 21h make the constructor
      raise. */
  lemma NoHigh16Built(b: seq<byte>)
    requires 4 <= |b| && Lo8(U16At(b, 0)) <= 0xfe && ClassicalShape(Lo8(U16At(b, 0))).0 == F21h
    ensures DecodeAsWritten(F21h, b) == Err(StrPlusBytes)
  {
    High16Opcodes(Lo8(U16At(b, 0)));
  }

  function DecodeUnit(f: Format, b: seq<byte>): (u: UnitInsn)
    requires InUnit(f) && 2 <= |b|
    ensures ValidUnit(u) && UnitFormat(u) == f
  {
    var w := U16At(b, 0);
    match f
    case FInvalid => Invalid(Lo8(w))
    case F10x => I10x(Lo8(w))
    case F10t => I10t(b[0], S8At(b, 1))
    case F11n =>
      var s := S16At(b, 0);
      I11n(Lo8(s), Nib8(s), Shr12(s))
    case F11x => I11x(Lo8(w), Hi8(w))
    case F12x =>
      var s := S16At(b, 0);
      I12x(Lo8(s), Nib8(s), Nib12(s))
  }

  function DecodeShort(f: Format, b: seq<byte>): (u: ShortInsn)
    requires InShort(f) && 4 <= |b|
    ensures ValidShort(u) && ShortFormat(u) == f
  {
    var w := U16At(b, 0);
    match f
    case F20t => I20t(Lo8(w), S16At(b, 2))
    case F20bc => I20bc(Lo8(w), Hi8(w), U16At(b, 2))
    case F21c => I21c(Lo8(w), Hi8(w), U16At(b, 2))
    case F21h => I21h(Lo8(w), Hi8(w), S16At(b, 2))
    case F21s => I21s(Lo8(w), Hi8(w), S16At(b, 2))
    case F21t => I21t(Lo8(w), Hi8(w), S16At(b, 2))
    case F22x => I22x(Lo8(w), Hi8(w), U16At(b, 2))
  }

  function DecodePair(f: Format, b: seq<byte>): (u: PairInsn)
    requires InPair(f) && 4 <= |b|
    ensures ValidPair(u) && PairFormat(u) == f
  {
    var w := U16At(b, 0);
    match f
    case F22b => I22b(Lo8(w), Hi8(w), b[2], S8At(b, 3))
    case F22c => I22c(Lo8(w), Nib8(w), Nib12(w), U16At(b, 2))
    case F22cs => I22cs(Lo8(w), Nib8(w), Nib12(w), U16At(b, 2))
    case F22s => I22s(Lo8(w), Nib8(w), Nib12(w), S16At(b, 2))
    case F22t => I22t(Lo8(w), Nib8(w), Nib12(w), S16At(b, 2))
    case F23x =>
      var w2 := U16At(b, 2);
      I23x(Lo8(w), Hi8(w), Lo8(w2), Hi8(w2))
  }

  function DecodeLong(f: Format, b: seq<byte>): (u: LongInsn)
    requires InLong(f) && 6 <= |b| && (f.F51l? ==> 10 <= |b|)
    ensures ValidLong(u) && LongFormat(u) == f
  {
    var w := U16At(b, 0);
    match f
    case F30t => I30t(Lo8(w), S32At(b, 2))
    case F31c => I31c(Lo8(w), Hi8(w), U32At(b, 2))
    case F31i => I31i(Lo8(w), Hi8(w), S32At(b, 2))
    case F31t => I31t(Lo8(w), Hi8(w), S32At(b, 2))
    case F51l => I51l(Lo8(w), Hi8(w), S64At(b, 2))
  }

  function DecodeTriple(f: Format, b: seq<byte>): (u: TripleInsn)
    requires InTriple(f) && 6 <= |b|
    ensures ValidTriple(u) && TripleFormat(u) == f
  {
    var w := U16At(b, 0);
    match f
    case F32x => I32x(Lo8(w), U16At(b, 2), U16At(b, 4))
    case F35c =>
      var w2 := U16At(b, 4);
      I35c(Lo8(w), Nib8(w), Nib12(w), U16At(b, 2), Nib0(w2), Nib4(w2), Nib8(w2), Nib12(w2))
    case F35mi =>
      var w2 := U16At(b, 4);
      I35mi(Lo8(w), Nib8(w), Nib12(w), U16At(b, 2), Nib0(w2), Nib4(w2), Nib8(w2), Nib12(w2))
    case F35ms =>
      var w2 := U16At(b, 4);
      I35ms(Lo8(w), Nib8(w), Nib12(w), U16At(b, 2), Nib0(w2), Nib4(w2), Nib8(w2), Nib12(w2))
    case F3rc =>
      var cccc := U16At(b, 4);
      I3rc(Lo8(w), Hi8(w), U16At(b, 2), cccc, cccc + Hi8(w) - 1)
    case F3rmi =>
      var cccc := U16At(b, 4);
      I3rmi(Lo8(w), Hi8(w), U16At(b, 2), cccc, cccc + Hi8(w) - 1)
    case F3rms =>
      var cccc := U16At(b, 4);
      I3rms(Lo8(w), Hi8(w), U16At(b, 2), cccc, cccc + Hi8(w) - 1)
  }

  function DecodeWide(f: Format, b: seq<byte>): (u: WideInsn)
    requires IsWide(f) && 8 <= |b| && (f.F52c? || f.F5rc? ==> 10 <= |b|)
    ensures ValidWide(u) && WideFormat(u) == f
  {
    var w := U16At(b, 0);
    match f
    case F40sc => I40sc(w, U32At(b, 2), U16At(b, 6))
    case F41c => I41c(w, U32At(b, 2), U16At(b, 6))
    case F52c => I52c(w, U32At(b, 2), U16At(b, 6), U16At(b, 8))
    case F5rc =>
      var aaaa := U16At(b, 6);
      var cccc := U16At(b, 8);
      I5rc(w, U32At(b, 2), aaaa, cccc, cccc + aaaa - 1)
  }

  // ---- get_raw ----

  /** `get_raw()`: the fields packed back in the order and widths the
      constructor read them. */
  function Encode(i: Insn): (r: seq<byte>)
    requires Valid(i)
    ensures |r| == Length(i)
  {
    match i
    case OneUnit(u) => EncodeUnit(u)
    case UnitShort(u) => EncodeShort(u)
    case UnitPair(u) => EncodePair(u)
    case UnitLong(u) => EncodeLong(u)
    case ThreeUnits(u) => EncodeTriple(u)
    case Wide(u) => EncodeWide(u)
  }

  function EncodeUnit(u: UnitInsn): (r: seq<byte>)
    requires ValidUnit(u)
    ensures |r| == 2
  {
    match u
    case Invalid(op) => U16Bytes(op)
    case I10x(op) => U16Bytes(op)
    case I10t(op, aa) => [op] + S8Bytes(aa)
    case I11n(op, a, b) => S16Bytes(JoinSigned448(b, a, op))
    case I11x(op, aa) => U16Bytes(Join8(aa, op))
    case I12x(op, a, b) => U16Bytes(Join448(b, a, op))
  }

  function EncodeShort(u: ShortInsn): (r: seq<byte>)
    requires ValidShort(u)
    ensures |r| == 4
  {
    match u
    case I20t(op, aaaa) => U16Bytes(op) + S16Bytes(aaaa)
    case I20bc(op, aa, bbbb) => U16Bytes(Join8(aa, op)) + U16Bytes(bbbb)
    case I21c(op, aa, bbbb) => U16Bytes(Join8(aa, op)) + U16Bytes(bbbb)
    case I21h(op, aa, bbbb) => U16Bytes(Join8(aa, op)) + S16Bytes(bbbb)
    case I21s(op, aa, bbbb) => U16Bytes(Join8(aa, op)) + S16Bytes(bbbb)
    case I21t(op, aa, bbbb) => U16Bytes(Join8(aa, op)) + S16Bytes(bbbb)
    case I22x(op, aa, bbbb) => U16Bytes(Join8(aa, op)) + U16Bytes(bbbb)
  }

  function EncodePair(u: PairInsn): (r: seq<byte>)
    requires ValidPair(u)
    ensures |r| == 4
  {
    match u
    case I22b(op, aa, bb, cc) => U16Bytes(Join8(aa, op)) + S16Bytes(JoinSigned8(cc, bb))
    case I22c(op, a, b, cccc) => U16Bytes(Join448(b, a, op)) + U16Bytes(cccc)
    case I22cs(op, a, b, cccc) => U16Bytes(Join448(b, a, op)) + U16Bytes(cccc)
    case I22s(op, a, b, cccc) => U16Bytes(Join448(b, a, op)) + S16Bytes(cccc)
    case I22t(op, a, b, cccc) => U16Bytes(Join448(b, a, op)) + S16Bytes(cccc)
    case I23x(op, aa, bb, cc) => U16Bytes(Join8(aa, op)) + U16Bytes(Join8(cc, bb))
  }

  function EncodeLong(u: LongInsn): (r: seq<byte>)
    requires ValidLong(u)
    ensures |r| == FormatLength(LongFormat(u))
  {
    match u
    case I30t(op, aaaaaaaa) => U16Bytes(op) + S32Bytes(aaaaaaaa)
    case I31c(op, aa, bbbbbbbb) => U16Bytes(Join8(aa, op)) + U32Bytes(bbbbbbbb)
    case I31i(op, aa, bbbbbbbb) => U16Bytes(Join8(aa, op)) + S32Bytes(bbbbbbbb)
    case I31t(op, aa, bbbbbbbb) => U16Bytes(Join8(aa, op)) + S32Bytes(bbbbbbbb)
    case I51l(op, aa, bbbbbbbbbbbbbbbb) => U16Bytes(Join8(aa, op)) + S64Bytes(bbbbbbbbbbbbbbbb)
  }

  function EncodeTriple(u: TripleInsn): (r: seq<byte>)
    requires ValidTriple(u)
    ensures |r| == 6
  {
    match u
    case I32x(op, aaaa, bbbb) => U16Bytes(op) + U16Bytes(aaaa) + U16Bytes(bbbb)
    case I35c(op, g, a, bbbb, c, d, e, f) =>
      U16Bytes(Join448(a, g, op)) + U16Bytes(bbbb) + U16Bytes(Join4444(f, e, d, c))
    case I35mi(op, g, a, bbbb, c, d, e, f) =>
      U16Bytes(Join448(a, g, op)) + U16Bytes(bbbb) + U16Bytes(Join4444(f, e, d, c))
    case I35ms(op, g, a, bbbb, c, d, e, f) =>
      U16Bytes(Join448(a, g, op)) + U16Bytes(bbbb) + U16Bytes(Join4444(f, e, d, c))
    case I3rc(op, aa, bbbb, cccc, _) => U16Bytes(Join8(aa, op)) + U16Bytes(bbbb) + U16Bytes(cccc)
    case I3rmi(op, aa, bbbb, cccc, _) => U16Bytes(Join8(aa, op)) + U16Bytes(bbbb) + U16Bytes(cccc)
    case I3rms(op, aa, bbbb, cccc, _) => U16Bytes(Join8(aa, op)) + U16Bytes(bbbb) + U16Bytes(cccc)
  }

  function EncodeWide(u: WideInsn): (r: seq<byte>)
    requires ValidWide(u)
    ensures |r| == FormatLength(WideFormat(u))
  {
    match u
    case I40sc(op, bbbbbbbb, aaaa) => U16Bytes(op) + U32Bytes(bbbbbbbb) + U16Bytes(aaaa)
    case I41c(op, bbbbbbbb, aaaa) => U16Bytes(op) + U32Bytes(bbbbbbbb) + U16Bytes(aaaa)
    case I52c(op, cccccccc, aaaa, bbbb) =>
      U16Bytes(op) + U32Bytes(cccccccc) + U16Bytes(aaaa) + U16Bytes(bbbb)
    case I5rc(op, bbbbbbbb, aaaa, cccc, _) =>
      U16Bytes(op) + U32Bytes(bbbbbbbb) + U16Bytes(aaaa) + U16Bytes(cccc)
  }

  // ---- decoding what get_raw wrote ----

  lemma DecodeEncodeUnit(u: UnitInsn, rest: seq<byte>)
    requires ValidUnit(u)
    ensures DecodeUnit(UnitFormat(u), EncodeUnit(u) + rest) == u
  {
    var b := EncodeUnit(u) + rest;
    assert b[0..2] == EncodeUnit(u);
    ReadBack(b, 0);
    match u
    case Invalid(op) =>
    case I10x(op) =>
    case I10t(op, aa) =>
      Slices2([op], S8Bytes(aa), rest);
      ReadBack(b, 1);
    case I11n(op, a, hi) =>
      UnpackJoinSigned448(hi, a, op);
    case I11x(op, aa) =>
      UnpackJoin8(aa, op);
    case I12x(op, a, hi) =>
      S16AtU16At(b, 0);
      SignedUnitFields(U16At(b, 0));
      UnpackJoin448(hi, a, op);
  }

  // The readers applied to a packed layout give its fields back.

  lemma ReadUnitU16(x: u16, y: u16, rest: seq<byte>)
    ensures var b := U16Bytes(x) + U16Bytes(y) + rest;
      U16At(b, 0) == x && U16At(b, 2) == y
  {
    var b := U16Bytes(x) + U16Bytes(y) + rest;
    Slices2(U16Bytes(x), U16Bytes(y), rest);
    ReadBack(b, 0);
    ReadBack(b, 2);
  }

  lemma ReadUnitS16(x: u16, y: s16, rest: seq<byte>)
    ensures var b := U16Bytes(x) + S16Bytes(y) + rest;
      U16At(b, 0) == x && S16At(b, 2) == y
  {
    var b := U16Bytes(x) + S16Bytes(y) + rest;
    Slices2(U16Bytes(x), S16Bytes(y), rest);
    ReadBack(b, 0);
    ReadBack(b, 2);
  }

  lemma ReadUnitU32(x: u16, y: u32, rest: seq<byte>)
    ensures var b := U16Bytes(x) + U32Bytes(y) + rest;
      U16At(b, 0) == x && U32At(b, 2) == y
  {
    var b := U16Bytes(x) + U32Bytes(y) + rest;
    Slices2(U16Bytes(x), U32Bytes(y), rest);
    ReadBack(b, 0);
    ReadBack(b, 2);
  }

  lemma ReadUnitS32(x: u16, y: s32, rest: seq<byte>)
    ensures var b := U16Bytes(x) + S32Bytes(y) + rest;
      U16At(b, 0) == x && S32At(b, 2) == y
  {
    var b := U16Bytes(x) + S32Bytes(y) + rest;
    Slices2(U16Bytes(x), S32Bytes(y), rest);
    ReadBack(b, 0);
    ReadBack(b, 2);
  }

  lemma ReadUnitS64(x: u16, y: s64, rest: seq<byte>)
    ensures var b := U16Bytes(x) + S64Bytes(y) + rest;
      U16At(b, 0) == x && S64At(b, 2) == y
  {
    var b := U16Bytes(x) + S64Bytes(y) + rest;
    Slices2(U16Bytes(x), S64Bytes(y), rest);
    ReadBack(b, 0);
    ReadBack(b, 2);
  }

  lemma ReadThreeUnits(x: u16, y: u16, z: u16, rest: seq<byte>)
    ensures var b := U16Bytes(x) + U16Bytes(y) + U16Bytes(z) + rest;
      U16At(b, 0) == x && U16At(b, 2) == y && U16At(b, 4) == z
  {
    var b := U16Bytes(x) + U16Bytes(y) + U16Bytes(z) + rest;
    Slices3(U16Bytes(x), U16Bytes(y), U16Bytes(z), rest);
    ReadBack(b, 0);
    ReadBack(b, 2);
    ReadBack(b, 4);
  }

  lemma ReadWide3(x: u16, y: u32, z: u16, rest: seq<byte>)
    ensures var b := U16Bytes(x) + U32Bytes(y) + U16Bytes(z) + rest;
      U16At(b, 0) == x && U32At(b, 2) == y && U16At(b, 6) == z
  {
    var b := U16Bytes(x) + U32Bytes(y) + U16Bytes(z) + rest;
    Slices3(U16Bytes(x), U32Bytes(y), U16Bytes(z), rest);
    ReadBack(b, 0);
    ReadBack(b, 2);
    ReadBack(b, 6);
  }

  lemma ReadWide4(x: u16, y: u32, z: u16, w: u16, rest: seq<byte>)
    ensures var b := U16Bytes(x) + U32Bytes(y) + U16Bytes(z) + U16Bytes(w) + rest;
      U16At(b, 0) == x && U32At(b, 2) == y && U16At(b, 6) == z && U16At(b, 8) == w
  {
    var b := U16Bytes(x) + U32Bytes(y) + U16Bytes(z) + U16Bytes(w) + rest;
    Slices4(U16Bytes(x), U32Bytes(y), U16Bytes(z), U16Bytes(w), rest);
    ReadBack(b, 0);
    ReadBack(b, 2);
    ReadBack(b, 6);
    ReadBack(b, 8);
  }

  lemma DecodeEncodeShort(u: ShortInsn, rest: seq<byte>)
    requires ValidShort(u)
    ensures DecodeShort(ShortFormat(u), EncodeShort(u) + rest) == u
  {
    match u
    case I20t(op, aaaa) => ReadUnitS16(op, aaaa, rest);
    case I20bc(op, aa, bbbb) => ReadUnitU16(Join8(aa, op), bbbb, rest); UnpackJoin8(aa, op);
    case I21c(op, aa, bbbb) => ReadUnitU16(Join8(aa, op), bbbb, rest); UnpackJoin8(aa, op);
    case I21h(op, aa, bbbb) => ReadUnitS16(Join8(aa, op), bbbb, rest); UnpackJoin8(aa, op);
    case I21s(op, aa, bbbb) => ReadUnitS16(Join8(aa, op), bbbb, rest); UnpackJoin8(aa, op);
    case I21t(op, aa, bbbb) => ReadUnitS16(Join8(aa, op), bbbb, rest); UnpackJoin8(aa, op);
    case I22x(op, aa, bbbb) => ReadUnitU16(Join8(aa, op), bbbb, rest); UnpackJoin8(aa, op);
  }

  lemma DecodeEncodePair(u: PairInsn, rest: seq<byte>)
    requires ValidPair(u)
    ensures DecodePair(PairFormat(u), EncodePair(u) + rest) == u
  {
    match u
    case I22b(op, aa, bb, cc) =>
      var b := EncodePair(u) + rest;
      S16BytesOfBytes(cc, bb);
      Slices3(U16Bytes(Join8(aa, op)), [bb], S8Bytes(cc), rest);
      assert U16Bytes(Join8(aa, op)) + S16Bytes(JoinSigned8(cc, bb)) + rest
        == U16Bytes(Join8(aa, op)) + [bb] + S8Bytes(cc) + rest;
      ReadBack(b, 0);
      ReadBack(b, 3);
      UnpackJoin8(aa, op);
    case I22c(op, a, hi, cccc) => ReadUnitU16(Join448(hi, a, op), cccc, rest); UnpackJoin448(hi, a, op);
    case I22cs(op, a, hi, cccc) => ReadUnitU16(Join448(hi, a, op), cccc, rest); UnpackJoin448(hi, a, op);
    case I22s(op, a, hi, cccc) => ReadUnitS16(Join448(hi, a, op), cccc, rest); UnpackJoin448(hi, a, op);
    case I22t(op, a, hi, cccc) => ReadUnitS16(Join448(hi, a, op), cccc, rest); UnpackJoin448(hi, a, op);
    case I23x(op, aa, bb, cc) =>
      ReadUnitU16(Join8(aa, op), Join8(cc, bb), rest);
      UnpackJoin8(aa, op);
      UnpackJoin8(cc, bb);
  }

  lemma DecodeEncodeLong(u: LongInsn, rest: seq<byte>)
    requires ValidLong(u)
    ensures DecodeLong(LongFormat(u), EncodeLong(u) + rest) == u
  {
    match u
    case I30t(op, aaaaaaaa) => ReadUnitS32(op, aaaaaaaa, rest);
    case I31c(op, aa, bbbbbbbb) => ReadUnitU32(Join8(aa, op), bbbbbbbb, rest); UnpackJoin8(aa, op);
    case I31i(op, aa, bbbbbbbb) => ReadUnitS32(Join8(aa, op), bbbbbbbb, rest); UnpackJoin8(aa, op);
    case I31t(op, aa, bbbbbbbb) => ReadUnitS32(Join8(aa, op), bbbbbbbb, rest); UnpackJoin8(aa, op);
    case I51l(op, aa, bbbbbbbbbbbbbbbb) =>
      ReadUnitS64(Join8(aa, op), bbbbbbbbbbbbbbbb, rest);
      UnpackJoin8(aa, op);
  }

  lemma DecodeEncodeTriple(u: TripleInsn, rest: seq<byte>)
    requires ValidTriple(u)
    ensures DecodeTriple(TripleFormat(u), EncodeTriple(u) + rest) == u
  {
    match u
    case I32x(op, aaaa, bbbb) => ReadThreeUnits(op, aaaa, bbbb, rest);
    case I35c(op, g, a, bbbb, c, d, e, f) => DecodeEncodeFive(u, rest);
    case I35mi(op, g, a, bbbb, c, d, e, f) => DecodeEncodeFive(u, rest);
    case I35ms(op, g, a, bbbb, c, d, e, f) => DecodeEncodeFive(u, rest);
    case I3rc(op, aa, bbbb, cccc, _) => ReadThreeUnits(Join8(aa, op), bbbb, cccc, rest); UnpackJoin8(aa, op);
    case I3rmi(op, aa, bbbb, cccc, _) => ReadThreeUnits(Join8(aa, op), bbbb, cccc, rest); UnpackJoin8(aa, op);
    case I3rms(op, aa, bbbb, cccc, _) => ReadThreeUnits(Join8(aa, op), bbbb, cccc, rest); UnpackJoin8(aa, op);
  }

  /** The three five-register formats share one layout. */
  lemma DecodeEncodeFive(u: TripleInsn, rest: seq<byte>)
    requires ValidTriple(u) && (u.I35c? || u.I35mi? || u.I35ms?)
    ensures var b := EncodeTriple(u) + rest;
      var w := U16At(b, 0);
      var w2 := U16At(b, 4);
      && Lo8(w) == u.op && Nib8(w) == u.g && Nib12(w) == u.a && U16At(b, 2) == u.bbbb
      && Nib0(w2) == u.c && Nib4(w2) == u.d && Nib8(w2) == u.e && Nib12(w2) == u.f
  {
    ReadThreeUnits(Join448(u.a, u.g, u.op), u.bbbb, Join4444(u.f, u.e, u.d, u.c), rest);
    UnpackJoin448(u.a, u.g, u.op);
    UnpackJoin4444(u.f, u.e, u.d, u.c);
  }

  lemma DecodeEncodeWide(u: WideInsn, rest: seq<byte>)
    requires ValidWide(u)
    ensures DecodeWide(WideFormat(u), EncodeWide(u) + rest) == u
  {
    match u
    case I40sc(op, bbbbbbbb, aaaa) => ReadWide3(op, bbbbbbbb, aaaa, rest);
    case I41c(op, bbbbbbbb, aaaa) => ReadWide3(op, bbbbbbbb, aaaa, rest);
    case I52c(op, cccccccc, aaaa, bbbb) => ReadWide4(op, cccccccc, aaaa, bbbb, rest);
    case I5rc(op, bbbbbbbb, aaaa, cccc, _) => ReadWide4(op, bbbbbbbb, aaaa, cccc, rest);
  }

  /** Constructing format `f` from the bytes `get_raw` writes, whatever
      follows them, gives back the same instruction. */
  lemma DecodeEncode(i: Insn, rest: seq<byte>)
    requires Valid(i)
    ensures Decode(FormatOf(i), Encode(i) + rest) == Some(i)
  {
    match i
    case OneUnit(u) => DecodeEncodeUnit(u, rest);
    case UnitShort(u) => DecodeEncodeShort(u, rest);
    case UnitPair(u) => DecodeEncodePair(u, rest);
    case UnitLong(u) => DecodeEncodeLong(u, rest);
    case ThreeUnits(u) => DecodeEncodeTriple(u, rest);
    case Wide(u) => DecodeEncodeWide(u, rest);
  }

  // ---- writing back what the constructor read ----

  /** Reading the first code unit and writing back only its low byte
      restores it exactly when its high byte is zero. */
  lemma LowByteAlone(b: seq<byte>)
    requires 2 <= |b|
    ensures U16Bytes(Lo8(U16At(b, 0))) == b[0..2] <==> b[1] == 0
  {
    U16AtValue(b, 0);
    U16BytesValue(Lo8(U16At(b, 0)));
    assert b[0..2] == [b[0], b[1]];
  }

  /** A code unit split into its two bytes and joined again is written back as read. */
  lemma ByteOverByte(b: seq<byte>, i: nat)
    requires i + 2 <= |b|
    ensures var w := U16At(b, i); U16Bytes(Join8(Hi8(w), Lo8(w))) == b[i..i + 2]
  {
    RepackJoin8(U16At(b, i));
    WriteBackU16(b, i);
  }

  lemma NibblesOverByte(b: seq<byte>)
    requires 2 <= |b|
    ensures var w := U16At(b, 0); U16Bytes(Join448(Nib12(w), Nib8(w), Lo8(w))) == b[0..2]
  {
    RepackJoin448(U16At(b, 0));
    WriteBackU16(b, 0);
  }

  /** A layout whose later fields are already the bytes they were read from
      restores the prefix exactly when its first field does. */
  lemma Restores2(x: seq<byte>, y: seq<byte>, b: seq<byte>, m: nat)
    requires |x| == 2 && 2 <= m <= |b| && y == b[2..m]
    ensures x + y == b[..m] <==> x == b[0..2]
  {
    assert b[..m] == b[0..2] + b[2..m];
    if x + y == b[..m] {
      assert forall k :: 0 <= k < 2 ==> x[k] == (x + y)[k];
    }
  }

  lemma Restores3(x: seq<byte>, y: seq<byte>, z: seq<byte>, b: seq<byte>, n: nat, m: nat)
    requires |x| == 2 && 2 <= n <= m <= |b| && y == b[2..n] && z == b[n..m]
    ensures x + y + z == b[..m] <==> x == b[0..2]
  {
    assert b[2..m] == b[2..n] + b[n..m];
    assert x + y + z == x + (y + z);
    Restores2(x, y + z, b, m);
  }

  lemma Restores4(x: seq<byte>, y: seq<byte>, z: seq<byte>, w: seq<byte>, b: seq<byte>, n: nat, p: nat, m: nat)
    requires |x| == 2 && 2 <= n <= p <= m <= |b| && y == b[2..n] && z == b[n..p] && w == b[p..m]
    ensures x + y + z + w == b[..m] <==> x == b[0..2]
  {
    assert b[2..m] == b[2..n] + b[n..p] + b[p..m];
    assert x + y + z + w == x + (y + z + w);
    Restores2(x, y + z + w, b, m);
  }

  lemma EncodeDecodeUnit(f: Format, b: seq<byte>)
    requires InUnit(f) && 2 <= |b|
    ensures EncodeUnit(DecodeUnit(f, b)) == b[..2] <==> !DropsHighByte(f) || b[1] == 0
  {
    assert b[..2] == b[0..2];
    var w := U16At(b, 0);
    match f
    case FInvalid => LowByteAlone(b);
    case F10x => LowByteAlone(b);
    case F10t =>
      WriteBackS8(b, 1);
      assert b[..2] == [b[0]] + b[1..2];
    case F11n =>
      RepackJoinSigned448(S16At(b, 0));
      WriteBackS16(b, 0);
    case F11x => ByteOverByte(b, 0);
    case F12x =>
      S16AtU16At(b, 0);
      SignedUnitFields(w);
      NibblesOverByte(b);
  }

  lemma EncodeDecodeShort(f: Format, b: seq<byte>)
    requires InShort(f) && 4 <= |b|
    ensures EncodeShort(DecodeShort(f, b)) == b[..4] <==> !DropsHighByte(f) || b[1] == 0
  {
    var w := U16At(b, 0);
    var hi := Join8(Hi8(w), Lo8(w));
    WriteBackU16(b, 2);
    WriteBackS16(b, 2);
    if f.F20t? {
      LowByteAlone(b);
      Restores2(U16Bytes(Lo8(w)), S16Bytes(S16At(b, 2)), b, 4);
    } else if f.F20bc? || f.F21c? || f.F22x? {
      ByteOverByte(b, 0);
      Restores2(U16Bytes(hi), U16Bytes(U16At(b, 2)), b, 4);
    } else {
      ByteOverByte(b, 0);
      Restores2(U16Bytes(hi), S16Bytes(S16At(b, 2)), b, 4);
    }
  }

  lemma EncodeDecodePair(f: Format, b: seq<byte>)
    requires InPair(f) && 4 <= |b|
    ensures EncodePair(DecodePair(f, b)) == b[..4]
  {
    assert b[..4] == b[0..2] + b[2..4];
    if f.F22b? {
      EncodeDecode22b(b);
    } else if f.F23x? {
      EncodeDecode23x(b);
    } else if f.F22c? || f.F22cs? {
      EncodeDecodeNibblePair(f, b);
    } else {
      EncodeDecodeSignedNibblePair(f, b);
    }
  }

  lemma EncodeDecode22b(b: seq<byte>)
    requires 4 <= |b|
    ensures EncodePair(DecodePair(F22b, b)) == b[0..2] + b[2..4]
  {
    var w := U16At(b, 0);
    var cc := S8At(b, 3);
    assert DecodePair(F22b, b) == I22b(Lo8(w), Hi8(w), b[2], cc);
    RepackJoin8(w);
    WriteBackU16(b, 0);
    WriteBackS8(b, 3);
    S16BytesOfBytes(cc, b[2]);
    assert [b[2]] + b[3..4] == b[2..4];
  }

  lemma EncodeDecode23x(b: seq<byte>)
    requires 4 <= |b|
    ensures EncodePair(DecodePair(F23x, b)) == b[0..2] + b[2..4]
  {
    ByteOverByte(b, 0);
    ByteOverByte(b, 2);
  }

  lemma EncodeDecodeNibblePair(f: Format, b: seq<byte>)
    requires (f.F22c? || f.F22cs?) && 4 <= |b|
    ensures EncodePair(DecodePair(f, b)) == b[0..2] + b[2..4]
  {
    var w := U16At(b, 0);
    var c := U16At(b, 2);
    if f.F22c? {
      assert DecodePair(f, b) == I22c(Lo8(w), Nib8(w), Nib12(w), c);
    } else {
      assert DecodePair(f, b) == I22cs(Lo8(w), Nib8(w), Nib12(w), c);
    }
    assert EncodePair(DecodePair(f, b)) == U16Bytes(Join448(Nib12(w), Nib8(w), Lo8(w))) + U16Bytes(c);
    RepackJoin448(w);
    WriteBackU16(b, 0);
    WriteBackU16(b, 2);
  }

  lemma EncodeDecodeSignedNibblePair(f: Format, b: seq<byte>)
    requires (f.F22s? || f.F22t?) && 4 <= |b|
    ensures EncodePair(DecodePair(f, b)) == b[0..2] + b[2..4]
  {
    var w := U16At(b, 0);
    var c := S16At(b, 2);
    if f.F22s? {
      assert DecodePair(f, b) == I22s(Lo8(w), Nib8(w), Nib12(w), c);
    } else {
      assert DecodePair(f, b) == I22t(Lo8(w), Nib8(w), Nib12(w), c);
    }
    assert EncodePair(DecodePair(f, b)) == U16Bytes(Join448(Nib12(w), Nib8(w), Lo8(w))) + S16Bytes(c);
    RepackJoin448(w);
    WriteBackU16(b, 0);
    WriteBackS16(b, 2);
  }

  lemma EncodeDecodeLong(f: Format, b: seq<byte>)
    requires InLong(f) && FormatLength(f) <= |b|
    ensures EncodeLong(DecodeLong(f, b)) == b[..FormatLength(f)] <==> !DropsHighByte(f) || b[1] == 0
  {
    if f.F30t? {
      EncodeDecode30t(b);
    } else if f.F31c? {
      EncodeDecode31c(b);
    } else if f.F51l? {
      EncodeDecode51l(b);
    } else {
      EncodeDecodeSigned31(f, b);
    }
  }

  lemma EncodeDecode30t(b: seq<byte>)
    requires 6 <= |b|
    ensures EncodeLong(DecodeLong(F30t, b)) == b[..6] <==> b[1] == 0
  {
    WriteBackS32(b, 2);
    LowByteAlone(b);
    Restores2(U16Bytes(Lo8(U16At(b, 0))), S32Bytes(S32At(b, 2)), b, 6);
  }

  lemma EncodeDecode31c(b: seq<byte>)
    requires 6 <= |b|
    ensures EncodeLong(DecodeLong(F31c, b)) == b[..6]
  {
    var w := U16At(b, 0);
    WriteBackU32(b, 2);
    ByteOverByte(b, 0);
    Restores2(U16Bytes(Join8(Hi8(w), Lo8(w))), U32Bytes(U32At(b, 2)), b, 6);
  }

  lemma EncodeDecodeSigned31(f: Format, b: seq<byte>)
    requires (f.F31i? || f.F31t?) && 6 <= |b|
    ensures EncodeLong(DecodeLong(f, b)) == b[..6]
  {
    var w := U16At(b, 0);
    WriteBackS32(b, 2);
    ByteOverByte(b, 0);
    Restores2(U16Bytes(Join8(Hi8(w), Lo8(w))), S32Bytes(S32At(b, 2)), b, 6);
  }

  lemma EncodeDecode51l(b: seq<byte>)
    requires 10 <= |b|
    ensures EncodeLong(DecodeLong(F51l, b)) == b[..10]
  {
    var w := U16At(b, 0);
    WriteBackS64(b, 2);
    ByteOverByte(b, 0);
    Restores2(U16Bytes(Join8(Hi8(w), Lo8(w))), S64Bytes(S64At(b, 2)), b, 10);
  }

  lemma EncodeDecodeTriple(f: Format, b: seq<byte>)
    requires InTriple(f) && 6 <= |b|
    ensures EncodeTriple(DecodeTriple(f, b)) == b[..6] <==> !DropsHighByte(f) || b[1] == 0
  {
    var w := U16At(b, 0);
    var w2 := U16At(b, 4);
    WriteBackU16(b, 2);
    WriteBackU16(b, 4);
    if f.F32x? {
      assert DecodeTriple(f, b) == I32x(Lo8(w), U16At(b, 2), w2);
      LowByteAlone(b);
      Restores3(U16Bytes(Lo8(w)), U16Bytes(U16At(b, 2)), U16Bytes(w2), b, 4, 6);
    } else if f.F35c? || f.F35mi? || f.F35ms? {
      EncodeDecodeFive(f, b);
      Restores3(U16Bytes(w), U16Bytes(U16At(b, 2)), U16Bytes(w2), b, 4, 6);
      WriteBackU16(b, 0);
    } else {
      EncodeDecodeRange(f, b);
      ByteOverByte(b, 0);
      Restores3(U16Bytes(Join8(Hi8(w), Lo8(w))), U16Bytes(U16At(b, 2)), U16Bytes(w2), b, 4, 6);
    }
  }

  lemma EncodeDecodeFive(f: Format, b: seq<byte>)
    requires (f.F35c? || f.F35mi? || f.F35ms?) && 6 <= |b|
    ensures EncodeTriple(DecodeTriple(f, b)) == U16Bytes(U16At(b, 0)) + U16Bytes(U16At(b, 2)) + U16Bytes(U16At(b, 4))
  {
    var w := U16At(b, 0);
    var w2 := U16At(b, 4);
    var bbbb := U16At(b, 2);
    if f.F35c? {
      assert DecodeTriple(f, b) == I35c(Lo8(w), Nib8(w), Nib12(w), bbbb, Nib0(w2), Nib4(w2), Nib8(w2), Nib12(w2));
    } else if f.F35mi? {
      assert DecodeTriple(f, b) == I35mi(Lo8(w), Nib8(w), Nib12(w), bbbb, Nib0(w2), Nib4(w2), Nib8(w2), Nib12(w2));
    } else {
      assert DecodeTriple(f, b) == I35ms(Lo8(w), Nib8(w), Nib12(w), bbbb, Nib0(w2), Nib4(w2), Nib8(w2), Nib12(w2));
    }
    assert EncodeTriple(DecodeTriple(f, b)) == U16Bytes(Join448(Nib12(w), Nib8(w), Lo8(w))) + U16Bytes(bbbb)
      + U16Bytes(Join4444(Nib12(w2), Nib8(w2), Nib4(w2), Nib0(w2)));
    RepackJoin448(w);
    RepackJoin4444(w2);
  }

  lemma EncodeDecodeRange(f: Format, b: seq<byte>)
    requires (f.F3rc? || f.F3rmi? || f.F3rms?) && 6 <= |b|
    ensures var w := U16At(b, 0);
      EncodeTriple(DecodeTriple(f, b)) == U16Bytes(Join8(Hi8(w), Lo8(w))) + U16Bytes(U16At(b, 2)) + U16Bytes(U16At(b, 4))
  {
    var w := U16At(b, 0);
    var c := U16At(b, 4);
    var bbbb := U16At(b, 2);
    if f.F3rc? {
      assert DecodeTriple(f, b) == I3rc(Lo8(w), Hi8(w), bbbb, c, c + Hi8(w) - 1);
    } else if f.F3rmi? {
      assert DecodeTriple(f, b) == I3rmi(Lo8(w), Hi8(w), bbbb, c, c + Hi8(w) - 1);
    } else {
      assert DecodeTriple(f, b) == I3rms(Lo8(w), Hi8(w), bbbb, c, c + Hi8(w) - 1);
    }
  }

  lemma EncodeDecodeWide(f: Format, b: seq<byte>)
    requires IsWide(f) && FormatLength(f) <= |b|
    ensures EncodeWide(DecodeWide(f, b)) == b[..FormatLength(f)]
  {
    if f.F40sc? || f.F41c? {
      EncodeDecodeWide3(f, b);
    } else {
      EncodeDecodeWide4(f, b);
    }
  }

  lemma EncodeDecodeWide3(f: Format, b: seq<byte>)
    requires (f.F40sc? || f.F41c?) && 8 <= |b|
    ensures EncodeWide(DecodeWide(f, b)) == b[..8]
  {
    WriteBackU16(b, 0);
    WriteBackU32(b, 2);
    WriteBackU16(b, 6);
    Restores3(U16Bytes(U16At(b, 0)), U32Bytes(U32At(b, 2)), U16Bytes(U16At(b, 6)), b, 6, 8);
  }

  lemma EncodeDecodeWide4(f: Format, b: seq<byte>)
    requires (f.F52c? || f.F5rc?) && 10 <= |b|
    ensures EncodeWide(DecodeWide(f, b)) == b[..10]
  {
    WriteBackU16(b, 0);
    WriteBackU32(b, 2);
    WriteBackU16(b, 6);
    WriteBackU16(b, 8);
    Restores4(U16Bytes(U16At(b, 0)), U32Bytes(U32At(b, 2)), U16Bytes(U16At(b, 6)), U16Bytes(U16At(b, 8)),
      b, 6, 8, 10);
  }

  /** Writing back what the constructor of format `f` read from `b`
      reproduces the bytes it covered, except where the format drops a
      non-zero high byte of the first code unit. */
  lemma EncodeDecode(f: Format, b: seq<byte>)
    requires FormatLength(f) <= |b|
    ensures Encode(Decode(f, b).value) == b[..FormatLength(f)] <==> !DropsHighByte(f) || b[1] == 0
  {
    if InUnit(f) {
      EncodeDecodeUnit(f, b);
    } else if InShort(f) {
      EncodeDecodeShort(f, b);
    } else if InPair(f) {
      EncodeDecodePair(f, b);
    } else if InLong(f) {
      EncodeDecodeLong(f, b);
    } else if InTriple(f) {
      EncodeDecodeTriple(f, b);
    } else {
      EncodeDecodeWide(f, b);
    }
  }
}
