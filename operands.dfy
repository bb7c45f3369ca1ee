/** `get_operands()` of every instruction class and payload: the decoded
    fields as a list of tagged operands.  A reference operand carries the
    table kind of the instruction's opcode (`self.get_kind()`), the raw index
    and the text `get_kind(cm, kind, index)` renders for it. */
module Operands {
  import opened Wrappers
  import opened Opcodes
  import opened Instructions
  import opened Kinds
  import opened Text
  import opened Payloads

  /** The tags the source puts first in each operand tuple. */
  const OperandRegister: nat := 0
  const OperandLiteral: nat := 1
  const OperandRaw: nat := 2
  const OperandOffset: nat := 3
  const OperandKind: nat := 0x100

  datatype Operand =
    | Register(reg: int)
    | Literal(value: int)
    | RawText(text: string)
    | Offset(offset: int)
    | Reference(kind: Kind, index: nat, rendered: Option<string>)

  /** The tag of an operand: `OPERAND_KIND + kind` for a reference. */
  function Tag(o: Operand): (t: nat)
    ensures o.Reference? <==> t >= OperandKind
    ensures o.Reference? ==> KindOfCode(t - OperandKind) == Some(o.kind)
  {
    match o
    case Register(_) => OperandRegister
    case Literal(_) => OperandLiteral
    case RawText(_) => OperandRaw
    case Offset(_) => OperandOffset
    case Reference(k, _, _) => KindCodeRoundTrip(k); KindCode(k) + OperandKind
  }

  /** The tag alone tells the operand's sort, and for a reference its kind. */
  lemma TagsDistinguish(o: Operand, o': Operand)
    requires Tag(o) == Tag(o')
    ensures o.Register? == o'.Register? && o.Literal? == o'.Literal?
    ensures o.RawText? == o'.RawText? && o.Offset? == o'.Offset?
    ensures o.Reference? ==> o'.Reference? && o.kind == o'.kind
  {
  }

  /** Why `get_operands` raises: no kind in the opcode's table entry
      (`self.get_kind()` indexes past the entry), or a missing attribute. */
  datatype OperandError = NoKind | NoAttribute

  /** `self.OP` of an instruction. */
  function Op(i: Insn): int {
    match i
    case OneUnit(u) => u.op
    case UnitShort(u) => u.op
    case UnitPair(u) => u.op
    case UnitLong(u) => u.op
    case ThreeUnits(u) => u.op
    case Wide(u) => u.op
  }

  function Ref(cm: ClassManager, k: Kind, index: nat): Operand {
    Reference(k, index, GetKindText(cm, KindCode(k), index))
  }

  /** The formats whose `get_operands` calls `self.get_kind()`: those with a
      reference operand, except 20bc, which lists its index as a literal. */
  predicate UsesKind(f: Format) {
    HasReference(f) && !f.F20bc?
  }

  // ---- register lists ----

  function Registers(rs: seq<int>): (r: seq<Operand>)
    ensures |r| == |rs| && forall k :: 0 <= k < |rs| ==> r[k] == Register(rs[k])
  {
    if rs == [] then [] else [Register(rs[0])] + Registers(rs[1..])
  }

  /** The registers `lo, lo + 1, ..., hi - 1`: `range(lo, hi)`. */
  function RegisterRun(lo: int, hi: int): (r: seq<Operand>)
    ensures |r| == if lo < hi then hi - lo else 0
    ensures forall k :: 0 <= k < |r| ==> r[k] == Register(lo + k)
    decreases hi - lo
  {
    if lo < hi then RegisterRun(lo, hi - 1) + [Register(hi - 1)] else []
  }

  /** The 35c/35mi/35ms operand list: the first `a` of the registers
      `c, d, e, f, g`, then the reference.  35c also accepts `a == 0`; any
      other count gives the empty list. */
  function FiveOperands(a: int, c: int, d: int, e: int, f: int, g: int, ref: Operand, withZero: bool): seq<Operand> {
    if a == 0 then (if withZero then [ref] else [])
    else if a == 1 then [Register(c), ref]
    else if a == 2 then [Register(c), Register(d), ref]
    else if a == 3 then [Register(c), Register(d), Register(e), ref]
    else if a == 4 then [Register(c), Register(d), Register(e), Register(f), ref]
    else if a == 5 then [Register(c), Register(d), Register(e), Register(f), Register(g), ref]
    else []
  }

  /** The five-register list is a prefix of `C, D, E, F, G` cut at the count. */
  lemma FiveOperandsArePrefix(a: int, c: int, d: int, e: int, f: int, g: int, ref: Operand, withZero: bool)
    ensures (1 <= a <= 5 || (a == 0 && withZero)) ==>
      FiveOperands(a, c, d, e, f, g, ref, withZero) == Registers([c, d, e, f, g][..a]) + [ref]
    ensures (a < 0 || a > 5 || (a == 0 && !withZero)) ==> FiveOperands(a, c, d, e, f, g, ref, withZero) == []
  {
    var rs := [c, d, e, f, g];
    if a == 0 {
      assert rs[..0] == [];
    } else if a == 1 {
      assert rs[..1] == [c];
    } else if a == 2 {
      assert rs[..2] == [c, d];
    } else if a == 3 {
      assert rs[..3] == [c, d, e];
    } else if a == 4 {
      assert rs[..4] == [c, d, e, f];
    } else if a == 5 {
      assert rs[..5] == rs;
    }
  }

  /** Range operands as written: one register when `CCCC == NNNN`, otherwise
      `range(CCCC, NNNN)`, which stops before `NNNN`. */
  function RangeOperandsAsWritten(cccc: int, nnnn: int, ref: Operand): seq<Operand> {
    if cccc == nnnn then [Register(cccc), ref] else RegisterRun(cccc, nnnn) + [ref]
  }

  /** Range operands with the last register included: `CCCC .. NNNN`. */
  function RangeOperands(cccc: int, nnnn: int, ref: Operand): seq<Operand> {
    RegisterRun(cccc, nnnn + 1) + [ref]
  }

  /** The loop `for i in range(CCCC, NNNN): l.append((OPERAND_REGISTER, i))`. */
  method CollectRegisters(lo: int, hi: int) returns (l: seq<Operand>)
    ensures l == RegisterRun(lo, hi)
  {
    l := [];
    var i := lo;
    while i < hi
      invariant lo <= i && (lo < hi ==> i <= hi)
      invariant l == RegisterRun(lo, i)
      decreases hi - i
    {
      l := l + [Register(i)];
      i := i + 1;
    }
    if hi <= lo {
      return [];
    }
  }

  /** The range forms' `get_operands` body, as written. */
  method RangeOperandsLoop(cccc: int, nnnn: int, ref: Operand) returns (l: seq<Operand>)
    ensures l == RangeOperandsAsWritten(cccc, nnnn, ref)
  {
    if cccc == nnnn {
      return [Register(cccc), ref];
    }
    l := CollectRegisters(cccc, nnnn);
    l := l + [ref];
  }

  /** With `NNNN = CCCC + AA - 1`, the corrected list names the `AA`
      registers `CCCC .. NNNN` in order, then the reference. */
  lemma RangeOperandsCover(cccc: int, aa: nat, ref: Operand)
    ensures var r := RangeOperands(cccc, cccc + aa - 1, ref);
      |r| == aa + 1 && r[aa] == ref && forall k :: 0 <= k < aa ==> r[k] == Register(cccc + k)
  {
  }

  /** As written, a range of two or more registers loses its last one;
      ranges of none or one are listed correctly. */
  lemma RangeOperandsAsWrittenDropLast(cccc: int, aa: nat, ref: Operand)
    requires ref.Reference?
    ensures aa <= 1 ==> RangeOperandsAsWritten(cccc, cccc + aa - 1, ref) == RangeOperands(cccc, cccc + aa - 1, ref)
    ensures aa >= 2 ==>
      var r := RangeOperandsAsWritten(cccc, cccc + aa - 1, ref);
      |r| == aa && Register(cccc + aa - 1) !in r
  {
    if aa >= 2 {
      var r := RangeOperandsAsWritten(cccc, cccc + aa - 1, ref);
      assert r == RegisterRun(cccc, cccc + aa - 1) + [ref];
      forall k | 0 <= k < |r|
        ensures r[k] != Register(cccc + aa - 1)
      {
        if k < aa - 1 {
          assert r[k] == Register(cccc + k);
        }
      }
    } else if aa == 0 {
      assert RegisterRun(cccc, cccc) == [];
    }
  }

  /** `invoke-virtual/range {v4 .. v6}`: as written only v4 and v5 are listed. */
  lemma RangeOperandsCounterexample(ref: Operand)
    ensures RangeOperandsAsWritten(4, 6, ref) == [Register(4), Register(5), ref]
    ensures RangeOperands(4, 6, ref) == [Register(4), Register(5), Register(6), ref]
  {
    assert RegisterRun(4, 6) == [Register(4), Register(5)];
    assert RegisterRun(4, 7) == [Register(4), Register(5), Register(6)];
  }

  // ---- get_operands by layout ----

  function UnitOperands(u: UnitInsn): seq<Operand> {
    match u
    case Invalid(_) => []
    case I10x(_) => []
    case I10t(_, aa) => [Offset(aa)]
    case I11n(_, a, b) => [Register(a), Literal(b)]
    case I11x(_, aa) => [Register(aa)]
    case I12x(_, a, b) => [Register(a), Register(b)]
  }

  function ShortOperands(cm: ClassManager, kind: Option<Kind>, u: ShortInsn): (r: Result<seq<Operand>, OperandError>)
    requires ValidShort(u)
  {
    match u
    case I20t(_, aaaa) => Ok([Offset(aaaa)])
    case I20bc(_, aa, bbbb) => Ok([Literal(aa), Literal(bbbb)])
    case I21c(_, aa, bbbb) =>
      var k :- Need(kind);
      Ok([Register(aa), Ref(cm, k, bbbb)])
    case I21h(_, aa, bbbb) => Ok([Register(aa), Literal(bbbb)])
    case I21s(_, aa, bbbb) => Ok([Register(aa), Literal(bbbb)])
    case I21t(_, aa, bbbb) => Ok([Register(aa), Offset(bbbb)])
    case I22x(_, aa, bbbb) => Ok([Register(aa), Register(bbbb)])
  }

  function PairOperands(cm: ClassManager, kind: Option<Kind>, u: PairInsn): (r: Result<seq<Operand>, OperandError>)
    requires ValidPair(u)
  {
    match u
    case I22b(_, aa, bb, cc) => Ok([Register(aa), Register(bb), Literal(cc)])
    case I22c(_, a, b, cccc) =>
      var k :- Need(kind);
      Ok([Register(a), Register(b), Ref(cm, k, cccc)])
    case I22cs(_, a, b, cccc) =>
      var k :- Need(kind);
      Ok([Register(a), Register(b), Ref(cm, k, cccc)])
    case I22s(_, a, b, cccc) => Ok([Register(a), Register(b), Literal(cccc)])
    case I22t(_, a, b, cccc) => Ok([Register(a), Register(b), Offset(cccc)])
    case I23x(_, aa, bb, cc) => Ok([Register(aa), Register(bb), Register(cc)])
  }

  /** 31t lists its table offset as a literal, not as an offset. */
  function LongOperands(cm: ClassManager, kind: Option<Kind>, u: LongInsn): (r: Result<seq<Operand>, OperandError>)
    requires ValidLong(u)
  {
    match u
    case I30t(_, aaaaaaaa) => Ok([Offset(aaaaaaaa)])
    case I31c(_, aa, bbbbbbbb) =>
      var k :- Need(kind);
      Ok([Register(aa), Ref(cm, k, bbbbbbbb)])
    case I31i(_, aa, bbbbbbbb) => Ok([Register(aa), Literal(bbbbbbbb)])
    case I31t(_, aa, bbbbbbbb) => Ok([Register(aa), Literal(bbbbbbbb)])
    case I51l(_, aa, bbbbbbbbbbbbbbbb) => Ok([Register(aa), Literal(bbbbbbbbbbbbbbbb)])
  }

  /** The three-unit forms; `asWritten` selects the source's `range(CCCC, NNNN)`
      for the range forms instead of the full register range. */
  function TripleOperands(cm: ClassManager, kind: Option<Kind>, u: TripleInsn, asWritten: bool): (r: Result<seq<Operand>, OperandError>)
    requires ValidTriple(u)
  {
    match u
    case I32x(_, aaaa, bbbb) => Ok([Register(aaaa), Register(bbbb)])
    case I35c(_, g, a, bbbb, c, d, e, f) =>
      var k :- Need(kind);
      Ok(FiveOperands(a, c, d, e, f, g, Ref(cm, k, bbbb), true))
    case I35mi(_, g, a, bbbb, c, d, e, f) =>
      var k :- Need(kind);
      Ok(FiveOperands(a, c, d, e, f, g, Ref(cm, k, bbbb), false))
    case I35ms(_, g, a, bbbb, c, d, e, f) =>
      var k :- Need(kind);
      Ok(FiveOperands(a, c, d, e, f, g, Ref(cm, k, bbbb), false))
    case I3rc(_, _, bbbb, cccc, nnnn) =>
      var k :- Need(kind);
      Ok(Range(cccc, nnnn, Ref(cm, k, bbbb), asWritten))
    case I3rmi(_, _, bbbb, cccc, nnnn) =>
      var k :- Need(kind);
      Ok(Range(cccc, nnnn, Ref(cm, k, bbbb), asWritten))
    case I3rms(_, _, bbbb, cccc, nnnn) =>
      var k :- Need(kind);
      Ok(Range(cccc, nnnn, Ref(cm, k, bbbb), asWritten))
  }

  /** The wide forms.  As written, 5rc reads the missing attribute `BBBB`
      once the kind text is computed, so it always raises; corrected, it
      lists `CCCC .. NNNN` and the reference `BBBBBBBB`. */
  function WideOperands(cm: ClassManager, kind: Option<Kind>, u: WideInsn, asWritten: bool): (r: Result<seq<Operand>, OperandError>)
    requires ValidWide(u)
  {
    match u
    case I40sc(_, bbbbbbbb, aaaa) =>
      var k :- Need(kind);
      Ok([Literal(aaaa), Ref(cm, k, bbbbbbbb)])
    case I41c(_, bbbbbbbb, aaaa) =>
      var k :- Need(kind);
      Ok([Register(aaaa), Ref(cm, k, bbbbbbbb)])
    case I52c(_, cccccccc, aaaa, bbbb) =>
      var k :- Need(kind);
      Ok([Literal(aaaa), Literal(bbbb), Ref(cm, k, cccccccc)])
    case I5rc(_, bbbbbbbb, _, cccc, nnnn) =>
      var k :- Need(kind);
      if asWritten then Err(NoAttribute) else Ok(RangeOperands(cccc, nnnn, Ref(cm, k, bbbbbbbb)))
  }

  /** `self.get_kind()` fails when the opcode's table entry has no kind. */
  function Need(kind: Option<Kind>): (r: Result<Kind, OperandError>)
    ensures r.Ok? <==> kind.Some?
    ensures r.Ok? ==> r.value == kind.value
  {
    match kind
    case Some(k) => Ok(k)
    case None => Err(NoKind)
  }

  function Range(cccc: int, nnnn: int, ref: Operand, asWritten: bool): seq<Operand> {
    if asWritten then RangeOperandsAsWritten(cccc, nnnn, ref) else RangeOperands(cccc, nnnn, ref)
  }

  /** `get_ref_kind()`: the index a reference operand carries. */
  function RefIndex(i: Insn): nat
    requires Valid(i) && UsesKind(FormatOf(i))
  {
    match i
    case UnitShort(u) => (match u case I21c(_, _, bbbb) => bbbb case _ => 0)
    case UnitPair(u) => (match u case I22c(_, _, _, cccc) => cccc case I22cs(_, _, _, cccc) => cccc case _ => 0)
    case UnitLong(u) => (match u case I31c(_, _, bbbbbbbb) => bbbbbbbb case _ => 0)
    case ThreeUnits(u) =>
      (match u
       case I35c(_, _, _, bbbb, _, _, _, _) => bbbb
       case I35mi(_, _, _, bbbb, _, _, _, _) => bbbb
       case I35ms(_, _, _, bbbb, _, _, _, _) => bbbb
       case I3rc(_, _, bbbb, _, _) => bbbb
       case I3rmi(_, _, bbbb, _, _) => bbbb
       case I3rms(_, _, bbbb, _, _) => bbbb
       case _ => 0)
    case Wide(u) =>
      (match u
       case I40sc(_, bbbbbbbb, _) => bbbbbbbb
       case I41c(_, bbbbbbbb, _) => bbbbbbbb
       case I52c(_, cccccccc, _, _) => cccccccc
       case I5rc(_, bbbbbbbb, _, _, _) => bbbbbbbb)
    case _ => 0
  }

  /** Only the last operand of a list may be a reference. */
  predicate ReferenceLast(s: seq<Operand>) {
    forall k :: 0 <= k < |s| - 1 ==> !s[k].Reference?
  }

  /** The instructions whose operand list is empty: invalid, 10x, and the
      five-register forms whose count is out of range (35c accepts 0). */
  predicate NoOperands(i: Insn) {
    match i
    case OneUnit(u) => u.Invalid? || u.I10x?
    case ThreeUnits(u) =>
      (u.I35c? && u.a > 5) || ((u.I35mi? || u.I35ms?) && (u.a == 0 || u.a > 5))
    case _ => false
  }

  /** What `get_operands()` promises of an instruction's list `r`: it fails
      exactly when the instruction needs its opcode's kind and the table entry
      has none; otherwise the list is empty exactly for the `NoOperands`
      cases, and when the instruction has a reference, the list ends with it
      (the opcode's kind, the index `get_ref_kind()` names and the text
      `get_kind` renders), and no other operand is a reference. */
  predicate Sound(cm: ClassManager, i: Insn, kind: Option<Kind>, r: Result<seq<Operand>, OperandError>)
    requires Valid(i)
  {
    && (r.Err? <==> UsesKind(FormatOf(i)) && kind.None?)
    && (r.Ok? ==> ReferenceLast(r.value) && (r.value == [] <==> NoOperands(i)))
    && (r.Ok? && UsesKind(FormatOf(i)) && r.value != [] ==>
          r.value[|r.value| - 1] == Ref(cm, kind.value, RefIndex(i)))
    && (r.Ok? && !UsesKind(FormatOf(i)) ==> forall k :: 0 <= k < |r.value| ==> !r.value[k].Reference?)
  }

  lemma UnitSound(cm: ClassManager, kind: Option<Kind>, u: UnitInsn)
    requires ValidUnit(u)
    ensures Sound(cm, OneUnit(u), kind, Ok(UnitOperands(u)))
  {
  }

  lemma ShortSound(cm: ClassManager, kind: Option<Kind>, u: ShortInsn)
    requires ValidShort(u)
    ensures Sound(cm, UnitShort(u), kind, ShortOperands(cm, kind, u))
  {
  }

  lemma PairSound(cm: ClassManager, kind: Option<Kind>, u: PairInsn)
    requires ValidPair(u)
    ensures Sound(cm, UnitPair(u), kind, PairOperands(cm, kind, u))
  {
  }

  lemma LongSound(cm: ClassManager, kind: Option<Kind>, u: LongInsn)
    requires ValidLong(u)
    ensures Sound(cm, UnitLong(u), kind, LongOperands(cm, kind, u))
  {
  }

  lemma TripleSound(cm: ClassManager, kind: Option<Kind>, u: TripleInsn)
    requires ValidTriple(u)
    ensures Sound(cm, ThreeUnits(u), kind, TripleOperands(cm, kind, u, false))
  {
    match u
    case I32x(_, _, _) =>
    case I35c(_, g, a, bbbb, c, d, e, f) =>
      if kind.Some? { FiveEndsWithRef(a, c, d, e, f, g, Ref(cm, kind.value, bbbb), true); }
    case I35mi(_, g, a, bbbb, c, d, e, f) =>
      if kind.Some? { FiveEndsWithRef(a, c, d, e, f, g, Ref(cm, kind.value, bbbb), false); }
    case I35ms(_, g, a, bbbb, c, d, e, f) =>
      if kind.Some? { FiveEndsWithRef(a, c, d, e, f, g, Ref(cm, kind.value, bbbb), false); }
    case I3rc(_, _, bbbb, cccc, nnnn) =>
      if kind.Some? { RangeEndsWithRef(cccc, nnnn, Ref(cm, kind.value, bbbb)); }
    case I3rmi(_, _, bbbb, cccc, nnnn) =>
      if kind.Some? { RangeEndsWithRef(cccc, nnnn, Ref(cm, kind.value, bbbb)); }
    case I3rms(_, _, bbbb, cccc, nnnn) =>
      if kind.Some? { RangeEndsWithRef(cccc, nnnn, Ref(cm, kind.value, bbbb)); }
  }

  /** A five-register list is empty exactly for an out-of-range count;
      otherwise it is registers followed by the reference. */
  lemma FiveEndsWithRef(a: int, c: int, d: int, e: int, f: int, g: int, ref: Operand, withZero: bool)
    ensures var r := FiveOperands(a, c, d, e, f, g, ref, withZero);
      (r == [] <==> a < 0 || a > 5 || (a == 0 && !withZero))
      && (r != [] ==> r[|r| - 1] == ref && forall k :: 0 <= k < |r| - 1 ==> r[k].Register?)
  {
  }

  /** A corrected range list is registers followed by the reference. */
  lemma RangeEndsWithRef(cccc: int, nnnn: int, ref: Operand)
    ensures var r := RangeOperands(cccc, nnnn, ref);
      r != [] && r[|r| - 1] == ref && forall k :: 0 <= k < |r| - 1 ==> r[k].Register?
  {
  }

  lemma WideSound(cm: ClassManager, kind: Option<Kind>, u: WideInsn)
    requires ValidWide(u)
    ensures Sound(cm, Wide(u), kind, WideOperands(cm, kind, u, false))
  {
  }

  /** `get_operands()` with the range forms' last register and 5rc's
      reference index restored. */
  function GetOperands(cm: ClassManager, i: Insn): (r: Result<seq<Operand>, OperandError>)
    requires Valid(i)
    ensures Sound(cm, i, GetKind(Op(i)), r)
  {
    OperandsWith(cm, i, GetKind(Op(i)))
  }

  /** The operand list of `i` when its opcode's table entry has kind `kind`. */
  function OperandsWith(cm: ClassManager, i: Insn, kind: Option<Kind>): (r: Result<seq<Operand>, OperandError>)
    requires Valid(i)
    ensures Sound(cm, i, kind, r)
  {
    match i
    case OneUnit(u) => UnitSound(cm, kind, u); Ok(UnitOperands(u))
    case UnitShort(u) => ShortSound(cm, kind, u); ShortOperands(cm, kind, u)
    case UnitPair(u) => PairSound(cm, kind, u); PairOperands(cm, kind, u)
    case UnitLong(u) => LongSound(cm, kind, u); LongOperands(cm, kind, u)
    case ThreeUnits(u) => TripleSound(cm, kind, u); TripleOperands(cm, kind, u, false)
    case Wide(u) => WideSound(cm, kind, u); WideOperands(cm, kind, u, false)
  }

  /** `get_operands()` as written: like `GetOperands` except that the kind
      comes from the as-written table choice (so 0x00ff raises `KeyError`
      wherever a reference is listed), the range forms stop one register
      short and 5rc always raises. */
  function GetOperandsAsWritten(cm: ClassManager, i: Insn): (r: Result<seq<Operand>, OperandError>)
    requires Valid(i)
    ensures r.Err? <==> (UsesKind(FormatOf(i)) && GetKindAsWritten(Op(i)).None?) || FormatOf(i).F5rc?
    ensures r.Err? <==> (UsesKind(FormatOf(i)) && (GetKind(Op(i)).None? || Op(i) == 0xff)) || FormatOf(i).F5rc?
    ensures r.Ok? && !InRange(i) ==> r == GetOperands(cm, i)
  {
    if UsesKind(FormatOf(i)) then AsWrittenWith(cm, i, GetKindAsWritten(Op(i)))
    else
      KindIrrelevant(cm, i, GetKind(Op(i)));
      AsWrittenWith(cm, i, GetKindAsWritten(Op(i)))
  }

  /** `const-class/jumbo` (41c, opcode 0x00ff) lists its type reference once
      the table choice is corrected; as written its `get_kind` raises. */
  lemma ConstClassJumboOperands(cm: ClassManager, bbbbbbbb: int, aaaa: int)
    requires IsU32(bbbbbbbb) && IsU16(aaaa)
    ensures GetOperandsAsWritten(cm, Wide(I41c(0xff, bbbbbbbb, aaaa))) == Err(NoKind)
    ensures GetOperands(cm, Wide(I41c(0xff, bbbbbbbb, aaaa)))
      == Ok([Register(aaaa), Ref(cm, KindType, bbbbbbbb)])
  {
  }

  /** Off the formats that list a reference, the kind plays no part. */
  lemma KindIrrelevant(cm: ClassManager, i: Insn, kind: Option<Kind>)
    requires Valid(i) && !UsesKind(FormatOf(i))
    ensures OperandsWith(cm, i, kind) == OperandsWith(cm, i, None)
  {
  }

  function AsWrittenWith(cm: ClassManager, i: Insn, kind: Option<Kind>): (r: Result<seq<Operand>, OperandError>)
    requires Valid(i)
    ensures r.Err? <==> (UsesKind(FormatOf(i)) && kind.None?) || FormatOf(i).F5rc?
    ensures r.Ok? && !InRange(i) ==> r == OperandsWith(cm, i, kind)
  {
    match i
    case ThreeUnits(u) => TripleSound(cm, kind, u); TripleOperands(cm, kind, u, true)
    case Wide(u) => WideSound(cm, kind, u); WideOperands(cm, kind, u, true)
    case _ => OperandsWith(cm, i, kind)
  }

  /** The 3rc, 3rmi and 3rms forms. */
  predicate InRange(i: Insn) {
    i.ThreeUnits? && (i.three.I3rc? || i.three.I3rmi? || i.three.I3rms?)
  }

  // ---- the shapes of particular forms ----

  /** A 35c instruction whose opcode has kind `k` lists the first `A` of
      `C, D, E, F, G` and then its `BBBB` reference, when `A` is at most five;
      a larger count lists nothing. */
  lemma FiveRegisterOperands(cm: ClassManager, u: TripleInsn, k: Kind)
    requires ValidTriple(u) && u.I35c?
    ensures var r := OperandsWith(cm, ThreeUnits(u), Some(k));
      r.Ok? && r.value == if u.a <= 5 then Registers([u.c, u.d, u.e, u.f, u.g][..u.a]) + [Ref(cm, k, u.bbbb)] else []
  {
    FiveOperandsArePrefix(u.a, u.c, u.d, u.e, u.f, u.g, Ref(cm, k, u.bbbb), true);
  }

  /** A 3rc instruction whose opcode has kind `k` lists its `AA` registers
      from `CCCC` and then its `BBBB` reference; as written the last register
      is missing once `AA >= 2`. */
  lemma RangeInstructionOperands(cm: ClassManager, u: TripleInsn, k: Kind)
    requires ValidTriple(u) && u.I3rc?
    ensures var ref := Ref(cm, k, u.bbbb);
      OperandsWith(cm, ThreeUnits(u), Some(k)) == Ok(RegisterRun(u.cccc, u.cccc + u.aa) + [ref])
      && (u.aa >= 2 ==> AsWrittenWith(cm, ThreeUnits(u), Some(k)) == Ok(RegisterRun(u.cccc, u.cccc + u.aa - 1) + [ref]))
  {
  }

  // ---- payloads ----

  /** `get_operands()` of a payload: fill-array-data lists `repr` of its data
      as one raw operand; the switch payloads list nothing. */
  function PayloadOperands(p: Payload): (r: seq<Operand>)
    ensures p.Fill? ==> |r| == 1 && r[0].RawText? && ParseReprBytes(r[0].text) == Some(p.fill.data)
    ensures !p.Fill? ==> r == []
  {
    match p
    case Fill(f) => ParseReprBytesOfReprBytes(f.data); [RawText(ReprBytes(f.data))]
    case _ => []
  }
}
