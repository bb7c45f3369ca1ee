/** The static opcode tables of the Dalvik codec: the classical one-byte
    table, the extended ("jumbo") and optimized two-byte tables, the payload
    idents, the inline-method table, and the lookup that `get_name` and
    `get_kind` perform on them. */
module Opcodes {
  import opened Wrappers

  /** What the raw value of a reference operand designates. */
  datatype Kind =
    | KindMeth | KindString | KindField | KindType | Varies
    | InlineMethod | VtableOffset | FieldOffset | KindRawString

  /** The numeric value the source gives each kind (`KIND_METH = 0` ... `KIND_RAW_STRING = 8`). */
  function KindCode(k: Kind): (n: nat)
    ensures n < 9
  {
    match k
    case KindMeth => 0
    case KindString => 1
    case KindField => 2
    case KindType => 3
    case Varies => 4
    case InlineMethod => 5
    case VtableOffset => 6
    case FieldOffset => 7
    case KindRawString => 8
  }

  /** The kind a numeric code stands for; codes outside 0..8 stand for none. */
  function KindOfCode(n: int): (r: Option<Kind>)
    ensures r.Some? <==> 0 <= n < 9
    ensures r.Some? ==> KindCode(r.value) == n
  {
    match n
    case 0 => Some(KindMeth)
    case 1 => Some(KindString)
    case 2 => Some(KindField)
    case 3 => Some(KindType)
    case 4 => Some(Varies)
    case 5 => Some(InlineMethod)
    case 6 => Some(VtableOffset)
    case 7 => Some(FieldOffset)
    case 8 => Some(KindRawString)
    case _ => None
  }

  lemma KindCodeRoundTrip(k: Kind)
    ensures KindOfCode(KindCode(k)) == Some(k)
  {
  }

  /** The instruction formats, one per `Instruction*` class. */
  datatype Format =
    | FInvalid
    | F10x | F10t | F11n | F11x | F12x | F20t | F20bc
    | F21c | F21h | F21s | F21t | F22b | F22c | F22cs | F22s | F22t | F22x | F23x
    | F30t | F31c | F31i | F31t | F32x | F35c | F35mi | F35ms | F3rc | F3rmi | F3rms
    | F40sc | F41c | F51l | F52c | F5rc

  /** Formats whose opcode is the whole first 16-bit code unit rather than its low byte. */
  predicate IsWide(f: Format) {
    f.F40sc? || f.F41c? || f.F52c? || f.F5rc?
  }

  /** Formats with an operand whose meaning is given by the opcode's kind. */
  predicate HasReference(f: Format) {
    f.F20bc? || f.F21c? || f.F22c? || f.F22cs? || f.F31c? || f.F35c? || f.F35mi? || f.F35ms?
    || f.F3rc? || f.F3rmi? || f.F3rms? || f.F40sc? || f.F41c? || f.F52c? || f.F5rc?
  }

  /** One table entry: the format class, the mnemonic and the optional kind. */
  datatype OpInfo = OpInfo(format: Format, name: string, kind: Option<Kind>)

  /** Instruction class and kind of the classical opcodes, run by run of
      consecutive opcodes sharing them (`DALVIK_OPCODES_FORMAT`). */
  function ClassicalShape(op: int): (r: (Format, Option<Kind>))
    requires 0 <= op <= 0xfe
    ensures !IsWide(r.0)
    ensures r.1.Some? <==> HasReference(r.0)
  {
    if op <= 0x19 then MovesAndConstants(op)
    else if op <= 0x43 then ObjectsAndBranches(op)
    else ArithmeticAndFields(op)
  }

  /** Opcodes 0x00..0x19: nop, moves, returns and numeric constants. */
  function MovesAndConstants(op: int): (r: (Format, Option<Kind>))
    requires 0x00 <= op <= 0x19
    ensures !IsWide(r.0)
    ensures r.1.Some? <==> HasReference(r.0)
  {
    if op <= 0x00 then (F10x, None)  // 0x00
    else if op <= 0x01 then (F12x, None)  // 0x01
    else if op <= 0x02 then (F22x, None)  // 0x02
    else if op <= 0x03 then (F32x, None)  // 0x03
    else if op <= 0x04 then (F12x, None)  // 0x04
    else if op <= 0x05 then (F22x, None)  // 0x05
    else if op <= 0x06 then (F32x, None)  // 0x06
    else if op <= 0x07 then (F12x, None)  // 0x07
    else if op <= 0x08 then (F22x, None)  // 0x08
    else if op <= 0x09 then (F32x, None)  // 0x09
    else if op <= 0x0d then (F11x, None)  // 0x0a..0x0d
    else if op <= 0x0e then (F10x, None)  // 0x0e
    else if op <= 0x11 then (F11x, None)  // 0x0f..0x11
    else if op <= 0x12 then (F11n, None)  // 0x12
    else if op <= 0x13 then (F21s, None)  // 0x13
    else if op <= 0x14 then (F31i, None)  // 0x14
    else if op <= 0x15 then (F21h, None)  // 0x15
    else if op <= 0x16 then (F21s, None)  // 0x16
    else if op <= 0x17 then (F31i, None)  // 0x17
    else if op <= 0x18 then (F51l, None)  // 0x18
    else (F21h, None)  // 0x19
  }

  /** The classical table gives format 21h to exactly `const/high16` (0x15)
      and `const-wide/high16` (0x19). */
  lemma High16Opcodes(op: int)
    requires 0 <= op <= 0xfe
    ensures ClassicalShape(op).0 == F21h <==> op == 0x15 || op == 0x19
  {
  }

  /** Opcodes 0x1a..0x43: string and class constants, object creation, branches. */
  function ObjectsAndBranches(op: int): (r: (Format, Option<Kind>))
    requires 0x1a <= op <= 0x43
    ensures !IsWide(r.0)
    ensures r.1.Some? <==> HasReference(r.0)
  {
    if op <= 0x1a then (F21c, Some(KindString))  // 0x1a
    else if op <= 0x1b then (F31c, Some(KindString))  // 0x1b
    else if op <= 0x1c then (F21c, Some(KindType))  // 0x1c
    else if op <= 0x1e then (F11x, None)  // 0x1d..0x1e
    else if op <= 0x1f then (F21c, Some(KindType))  // 0x1f
    else if op <= 0x20 then (F22c, Some(KindType))  // 0x20
    else if op <= 0x21 then (F12x, None)  // 0x21
    else if op <= 0x22 then (F21c, Some(KindType))  // 0x22
    else if op <= 0x23 then (F22c, Some(KindType))  // 0x23
    else if op <= 0x24 then (F35c, Some(KindType))  // 0x24
    else if op <= 0x25 then (F3rc, Some(KindType))  // 0x25
    else if op <= 0x26 then (F31t, None)  // 0x26
    else if op <= 0x27 then (F11x, None)  // 0x27
    else if op <= 0x28 then (F10t, None)  // 0x28
    else if op <= 0x29 then (F20t, None)  // 0x29
    else if op <= 0x2a then (F30t, None)  // 0x2a
    else if op <= 0x2c then (F31t, None)  // 0x2b..0x2c
    else if op <= 0x31 then (F23x, None)  // 0x2d..0x31
    else if op <= 0x37 then (F22t, None)  // 0x32..0x37
    else if op <= 0x3d then (F21t, None)  // 0x38..0x3d
    else (F10x, None)  // 0x3e..0x43
  }

  /** Opcodes 0x44..0xfe: array and field access, invokes, arithmetic, optimized forms. */
  function ArithmeticAndFields(op: int): (r: (Format, Option<Kind>))
    requires 0x44 <= op <= 0xfe
    ensures !IsWide(r.0)
    ensures r.1.Some? <==> HasReference(r.0)
  {
    if op <= 0x51 then (F23x, None)  // 0x44..0x51
    else if op <= 0x5f then (F22c, Some(KindField))  // 0x52..0x5f
    else if op <= 0x6d then (F21c, Some(KindField))  // 0x60..0x6d
    else if op <= 0x72 then (F35c, Some(KindMeth))  // 0x6e..0x72
    else if op <= 0x73 then (F10x, None)  // 0x73
    else if op <= 0x78 then (F3rc, Some(KindMeth))  // 0x74..0x78
    else if op <= 0x7a then (F10x, None)  // 0x79..0x7a
    else if op <= 0x8f then (F12x, None)  // 0x7b..0x8f
    else if op <= 0xaf then (F23x, None)  // 0x90..0xaf
    else if op <= 0xcf then (F12x, None)  // 0xb0..0xcf
    else if op <= 0xd7 then (F22s, None)  // 0xd0..0xd7
    else if op <= 0xe2 then (F22b, None)  // 0xd8..0xe2
    else if op <= 0xe4 then (F22c, Some(KindField))  // 0xe3..0xe4
    else if op <= 0xe6 then (F21c, Some(KindField))  // 0xe5..0xe6
    else if op <= 0xe9 then (F22c, Some(KindField))  // 0xe7..0xe9
    else if op <= 0xeb then (F21c, Some(KindField))  // 0xea..0xeb
    else if op <= 0xec then (F10x, None)  // 0xec
    else if op <= 0xed then (F20bc, Some(Varies))  // 0xed
    else if op <= 0xee then (F35mi, Some(InlineMethod))  // 0xee
    else if op <= 0xef then (F3rmi, Some(InlineMethod))  // 0xef
    else if op <= 0xf0 then (F35c, Some(KindMeth))  // 0xf0
    else if op <= 0xf1 then (F10x, None)  // 0xf1
    else if op <= 0xf7 then (F22cs, Some(FieldOffset))  // 0xf2..0xf7
    else if op <= 0xf8 then (F35ms, Some(VtableOffset))  // 0xf8
    else if op <= 0xf9 then (F3rms, Some(VtableOffset))  // 0xf9
    else if op <= 0xfa then (F35ms, Some(VtableOffset))  // 0xfa
    else if op <= 0xfb then (F3rms, Some(VtableOffset))  // 0xfb
    else if op <= 0xfc then (F22c, Some(KindField))  // 0xfc
    else (F21c, Some(KindField))  // 0xfd..0xfe
  }

  /** Mnemonics of the classical opcodes 0x00..0xfe, indexed by opcode. */
  const ClassicalNames: seq<string> := [
    "nop",
    "move",
    "move/from16",
    "move/16",
    "move-wide",
    "move-wide/from16",
    "move-wide/16",
    "move-object",
    "move-object/from16",
    "move-object/16",
    "move-result",
    "move-result-wide",
    "move-result-object",
    "move-exception",
    "return-void",
    "return",
    "return-wide",
    "return-object",
    "const/4",
    "const/16",
    "const",
    "const/high16",
    "const-wide/16",
    "const-wide/32",
    "const-wide",
    "const-wide/high16",
    "const-string",
    "const-string/jumbo",
    "const-class",
    "monitor-enter",
    "monitor-exit",
    "check-cast",
    "instance-of",
    "array-length",
    "new-instance",
    "new-array",
    "filled-new-array",
    "filled-new-array/range",
    "fill-array-data",
    "throw",
    "goto",
    "goto/16",
    "goto/32",
    "packed-switch",
    "sparse-switch",
    "cmpl-float",
    "cmpg-float",
    "cmpl-double",
    "cmpg-double",
    "cmp-long",
    "if-eq",
    "if-ne",
    "if-lt",
    "if-ge",
    "if-gt",
    "if-le",
    "if-eqz",
    "if-nez",
    "if-ltz",
    "if-gez",
    "if-gtz",
    "if-lez",
    "nop",
    "nop",
    "nop",
    "nop",
    "nop",
    "nop",
    "aget",
    "aget-wide",
    "aget-object",
    "aget-boolean",
    "aget-byte",
    "aget-char",
    "aget-short",
    "aput",
    "aput-wide",
    "aput-object",
    "aput-boolean",
    "aput-byte",
    "aput-char",
    "aput-short",
    "iget",
    "iget-wide",
    "iget-object",
    "iget-boolean",
    "iget-byte",
    "iget-char",
    "iget-short",
    "iput",
    "iput-wide",
    "iput-object",
    "iput-boolean",
    "iput-byte",
    "iput-char",
    "iput-short",
    "sget",
    "sget-wide",
    "sget-object",
    "sget-boolean",
    "sget-byte",
    "sget-char",
    "sget-short",
    "sput",
    "sput-wide",
    "sput-object",
    "sput-boolean",
    "sput-byte",
    "sput-char",
    "sput-short",
    "invoke-virtual",
    "invoke-super",
    "invoke-direct",
    "invoke-static",
    "invoke-interface",
    "nop",
    "invoke-virtual/range",
    "invoke-super/range",
    "invoke-direct/range",
    "invoke-static/range",
    "invoke-interface/range",
    "nop",
    "nop",
    "neg-int",
    "not-int",
    "neg-long",
    "not-long",
    "neg-float",
    "neg-double",
    "int-to-long",
    "int-to-float",
    "int-to-double",
    "long-to-int",
    "long-to-float",
    "long-to-double",
    "float-to-int",
    "float-to-long",
    "float-to-double",
    "double-to-int",
    "double-to-long",
    "double-to-float",
    "int-to-byte",
    "int-to-char",
    "int-to-short",
    "add-int",
    "sub-int",
    "mul-int",
    "div-int",
    "rem-int",
    "and-int",
    "or-int",
    "xor-int",
    "shl-int",
    "shr-int",
    "ushr-int",
    "add-long",
    "sub-long",
    "mul-long",
    "div-long",
    "rem-long",
    "and-long",
    "or-long",
    "xor-long",
    "shl-long",
    "shr-long",
    "ushr-long",
    "add-float",
    "sub-float",
    "mul-float",
    "div-float",
    "rem-float",
    "add-double",
    "sub-double",
    "mul-double",
    "div-double",
    "rem-double",
    "add-int/2addr",
    "sub-int/2addr",
    "mul-int/2addr",
    "div-int/2addr",
    "rem-int/2addr",
    "and-int/2addr",
    "or-int/2addr",
    "xor-int/2addr",
    "shl-int/2addr",
    "shr-int/2addr",
    "ushr-int/2addr",
    "add-long/2addr",
    "sub-long/2addr",
    "mul-long/2addr",
    "div-long/2addr",
    "rem-long/2addr",
    "and-long/2addr",
    "or-long/2addr",
    "xor-long/2addr",
    "shl-long/2addr",
    "shr-long/2addr",
    "ushr-long/2addr",
    "add-float/2addr",
    "sub-float/2addr",
    "mul-float/2addr",
    "div-float/2addr",
    "rem-float/2addr",
    "add-double/2addr",
    "sub-double/2addr",
    "mul-double/2addr",
    "div-double/2addr",
    "rem-double/2addr",
    "add-int/lit16",
    "rsub-int",
    "mul-int/lit16",
    "div-int/lit16",
    "rem-int/lit16",
    "and-int/lit16",
    "or-int/lit16",
    "xor-int/lit16",
    "add-int/lit8",
    "rsub-int/lit8",
    "mul-int/lit8",
    "div-int/lit8",
    "rem-int/lit8",
    "and-int/lit8",
    "or-int/lit8",
    "xor-int/lit8",
    "shl-int/lit8",
    "shr-int/lit8",
    "ushr-int/lit8",
    "iget-volatile",
    "iput-volatile",
    "sget-volatile",
    "sput-volatile",
    "iget-object-volatile",
    "iget-wide-volatile",
    "iput-wide-volatile",
    "sget-wide-volatile",
    "sput-wide-volatile",
    "breakpoint",
    "throw-verification-error",
    "execute-inline",
    "execute-inline/range",
    "invoke-object-init/range",
    "return-void-barrier",
    "iget-quick",
    "iget-wide-quick",
    "iget-object-quick",
    "iput-quick",
    "iput-wide-quick",
    "iput-object-quick",
    "invoke-virtual-quick",
    "invoke-virtual-quick/range",
    "invoke-super-quick",
    "invoke-super-quick/range",
    "iput-object-volatile",
    "sget-object-volatile",
    "sput-object-volatile"
  ]

  /** Instruction class and kind of the extended opcodes, by high byte
      (`DALVIK_OPCODES_EXTENDED_WIDTH`, keys 0x00ff..0x26ff). */
  function ExtendedShape(h: int): (r: (Format, Option<Kind>))
    requires 0 <= h <= 0x26
    ensures IsWide(r.0)
    ensures r.1.Some? <==> HasReference(r.0)
  {
    if h <= 0x01 then (F41c, Some(KindType))  // 0x00ff..0x01ff
    else if h <= 0x02 then (F52c, Some(KindType))  // 0x02ff
    else if h <= 0x03 then (F41c, Some(KindType))  // 0x03ff
    else if h <= 0x04 then (F52c, Some(KindType))  // 0x04ff
    else if h <= 0x05 then (F5rc, Some(KindType))  // 0x05ff
    else if h <= 0x13 then (F52c, Some(KindField))  // 0x06ff..0x13ff
    else if h <= 0x21 then (F41c, Some(KindField))  // 0x14ff..0x21ff
    else (F5rc, Some(KindMeth))  // 0x22ff..0x26ff
  }

  /** Mnemonics of the extended opcodes, indexed by high byte. */
  const ExtendedNames: seq<string> := [
    "const-class/jumbo",
    "check-cast/jumbo",
    "instance-of/jumbo",
    "new-instance/jumbo",
    "new-array/jumbo",
    "filled-new-array/jumbo",
    "iget/jumbo",
    "iget-wide/jumbo",
    "iget-object/jumbo",
    "iget-boolean/jumbo",
    "iget-byte/jumbo",
    "iget-char/jumbo",
    "iget-short/jumbo",
    "iput/jumbo",
    "iput-wide/jumbo",
    "iput-object/jumbo",
    "iput-boolean/jumbo",
    "iput-byte/jumbo",
    "iput-char/jumbo",
    "iput-short/jumbo",
    "sget/jumbo",
    "sget-wide/jumbo",
    "sget-object/jumbo",
    "sget-boolean/jumbo",
    "sget-byte/jumbo",
    "sget-char/jumbo",
    "sget-short/jumbo",
    "sput/jumbo",
    "sput-wide/jumbo",
    "sput-object/jumbo",
    "sput-boolean/jumbo",
    "sput-byte/jumbo",
    "sput-char/jumbo",
    "sput-short/jumbo",
    "invoke-virtual/jumbo",
    "invoke-super/jumbo",
    "invoke-direct/jumbo",
    "invoke-static/jumbo",
    "invoke-interface/jumbo"
  ]

  /** Instruction class and kind of the optimized opcodes, by high byte
      (`DALVIK_OPCODES_OPTIMIZED`, keys 0xf2ff..0xffff). */
  function OptimizedShape(h: int): (r: (Format, Option<Kind>))
    requires 0xf2 <= h <= 0xff
    ensures IsWide(r.0)
    ensures r.1.Some? <==> HasReference(r.0)
  {
    if h <= 0xf2 then (F5rc, Some(KindMeth))  // 0xf2ff
    else if h <= 0xf8 then (F52c, Some(KindField))  // 0xf3ff..0xf8ff
    else if h <= 0xfe then (F41c, Some(KindField))  // 0xf9ff..0xfeff
    else (F40sc, Some(Varies))  // 0xffff
  }

  /** Mnemonics of the optimized opcodes, indexed by high byte minus 0xf2. */
  const OptimizedNames: seq<string> := [
    "invoke-object-init/jumbo",
    "iget-volatile/jumbo",
    "iget-wide-volatile/jumbo",
    "iget-object-volatile/jumbo ",
    "iput-volatile/jumbo",
    "iput-wide-volatile/jumbo",
    "iput-object-volatile/jumbo",
    "sget-volatile/jumbo",
    "sget-wide-volatile/jumbo",
    "sget-object-volatile/jumbo",
    "sput-volatile/jumbo",
    "sput-wide-volatile/jumbo",
    "sput-object-volatile/jumbo",
    "throw-verification-error/jumbo"
  ]

  /** The classical one-byte table (`DALVIK_OPCODES_FORMAT`), keys 0x00..0xfe. */
  function Classical(op: int): Option<OpInfo> {
    if 0 <= op <= 0xfe then
      var (f, k) := ClassicalShape(op);
      Some(OpInfo(f, ClassicalNames[op], k))
    else None
  }

  /** The extended ("jumbo") table, keys 0x00ff..0x26ff whose low byte is 0xff. */
  function Extended(op: int): Option<OpInfo> {
    if 0 <= op <= 0x26ff && op % 0x100 == 0xff then
      var (f, k) := ExtendedShape(op / 0x100);
      Some(OpInfo(f, ExtendedNames[op / 0x100], k))
    else None
  }

  /** The optimized table, keys 0xf2ff..0xffff whose low byte is 0xff. */
  function Optimized(op: int): Option<OpInfo> {
    if 0xf2ff <= op <= 0xffff && op % 0x100 == 0xff then
      var (f, k) := OptimizedShape(op / 0x100);
      Some(OpInfo(f, OptimizedNames[op / 0x100 - 0xf2], k))
    else None
  }

  /** The payload pseudo-instructions (`DALVIK_OPCODES_PAYLOAD`), keyed by their ident code unit. */
  datatype PayloadKind = PackedSwitchPayload | SparseSwitchPayload | FillArrayDataPayload

  function PayloadOf(ident: int): Option<PayloadKind> {
    match ident
    case 0x0100 => Some(PackedSwitchPayload)
    case 0x0200 => Some(SparseSwitchPayload)
    case 0x0300 => Some(FillArrayDataPayload)
    case _ => None
  }

  /** `INLINE_METHODS`: class, method name and descriptor of each inline-call slot. */
  const InlineMethods: seq<(string, string, string)> := [
    ("Lorg/apache/harmony/dalvik/NativeTestTarget;", "emptyInlineMethod", "()V"),
    ("Ljava/lang/String;", "charAt", "(I)C"),
    ("Ljava/lang/String;", "compareTo", "(Ljava/lang/String;)I"),
    ("Ljava/lang/String;", "equals", "(Ljava/lang/Object;)Z"),
    ("Ljava/lang/String;", "fastIndexOf", "(II)I"),
    ("Ljava/lang/String;", "isEmpty", "()Z"),
    ("Ljava/lang/String;", "length", "()I"),
    ("Ljava/lang/Math;", "abs", "(I)I"),
    ("Ljava/lang/Math;", "abs", "(J)J"),
    ("Ljava/lang/Math;", "abs", "(F)F"),
    ("Ljava/lang/Math;", "abs", "(D)D"),
    ("Ljava/lang/Math;", "min", "(II)I"),
    ("Ljava/lang/Math;", "max", "(II)I"),
    ("Ljava/lang/Math;", "sqrt", "(D)D"),
    ("Ljava/lang/Math;", "cos", "(D)D"),
    ("Ljava/lang/Math;", "sin", "(D)D"),
    ("Ljava/lang/Float;", "floatToIntBits", "(F)I"),
    ("Ljava/lang/Float;", "floatToRawIntBits", "(F)I"),
    ("Ljava/lang/Float;", "intBitsToFloat", "(I)F"),
    ("Ljava/lang/Double;", "doubleToLongBits", "(D)J"),
    ("Ljava/lang/Double;", "doubleToRawLongBits", "(D)J"),
    ("Ljava/lang/Double;", "longBitsToDouble", "(J)D")
  ]

  // ---- which table an opcode value is looked up in ----

  /** The table choice `Instruction.get_name`/`get_kind` make as written:
      optimized from 0xf2ff, extended strictly above 0xff, classical
      otherwise.  `None` is the `KeyError` of a missing key. */
  function LookupAsWritten(op: int): Option<OpInfo> {
    if op > 0xff then
      if op >= 0xf2ff then Optimized(op) else Extended(op)
    else Classical(op)
  }

  /** The corrected choice: the extended table starts at 0x00ff, its first key.
      It finds an entry exactly for a one-byte opcode other than 0xff, or for a
      code unit with low byte 0xff in the jumbo or the optimized range. */
  function Lookup(op: int): (r: Option<OpInfo>)
    ensures r.Some? <==>
      (0 <= op <= 0xfe) ||
      (op % 0x100 == 0xff && (0 <= op <= 0x26ff || 0xf2ff <= op <= 0xffff))
    ensures r.Some? ==> r == Classical(op) || r == Extended(op) || r == Optimized(op)
  {
    if op >= 0xff then
      if op >= 0xf2ff then Optimized(op) else Extended(op)
    else Classical(op)
  }

  /** `get_name` of an instruction with opcode value `op`. */
  function GetName(op: int): (r: Option<string>)
    ensures r.Some? <==> Lookup(op).Some?
    ensures r.Some? ==> r.value == Lookup(op).value.name
  {
    match Lookup(op)
    case Some(info) => Some(info.name)
    case None => None
  }

  /** The format class and kind of the entry the corrected lookup finds,
      without its mnemonic. */
  function Entry(op: int): (r: Option<(Format, Option<Kind>)>)
    ensures r.Some? ==> (r.value.1.Some? <==> HasReference(r.value.0))
  {
    if op >= 0xff then
      if op >= 0xf2ff then
        if op <= 0xffff && op % 0x100 == 0xff then Some(OptimizedShape(op / 0x100)) else None
      else if op <= 0x26ff && op % 0x100 == 0xff then Some(ExtendedShape(op / 0x100)) else None
    else if 0 <= op then Some(ClassicalShape(op))
    else None
  }

  /** `get_kind` of an instruction with opcode value `op`; `None` also for an
      entry without a kind, where the source indexes past the entry.  An
      opcode has a kind exactly when its format carries a reference. */
  function GetKind(op: int): (r: Option<Kind>)
    ensures r.Some? <==> Entry(op).Some? && HasReference(Entry(op).value.0)
  {
    match Entry(op)
    case Some((_, k)) => k
    case None => None
  }

  /** `get_kind` as written: the entry the as-written table choice finds.
      `None` is the `KeyError` of a missing key or an entry without a kind.
      It differs from the corrected `GetKind` only at 0x00ff, where the
      classical table has no key. */
  function GetKindAsWritten(op: int): (r: Option<Kind>)
    ensures r == if op == 0xff then None else GetKind(op)
  {
    LookupAsWrittenMisses00ff(op);
    EntryOfLookup(op);
    match LookupAsWritten(op)
    case Some(info) => info.kind
    case None => None
  }

  /** `Entry` is the corrected lookup without the mnemonic, so `GetKind`
      reports the kind of the entry `Lookup` finds. */
  lemma EntryOfLookup(op: int)
    ensures Entry(op).Some? <==> Lookup(op).Some?
    ensures Lookup(op).Some? ==> Entry(op).value == (Lookup(op).value.format, Lookup(op).value.kind)
    ensures GetKind(op) == if Lookup(op).Some? then Lookup(op).value.kind else None
  {
  }

  // ---- properties of the tables ----

  /** The payload table is keyed exactly by 0x0100, 0x0200 and 0x0300. */
  lemma PayloadDomain(ident: int)
    ensures PayloadOf(ident).Some? <==> ident == 0x0100 || ident == 0x0200 || ident == 0x0300
  {
  }

  /** Every entry of every table is what the corrected lookup finds for its key:
      the three key sets are disjoint. */
  lemma LookupFindsEveryEntry(op: int)
    ensures Classical(op).Some? ==> Lookup(op) == Classical(op)
    ensures Extended(op).Some? ==> Lookup(op) == Extended(op)
    ensures Optimized(op).Some? ==> Lookup(op) == Optimized(op)
  {
    if 0 <= op <= 0xfe {
      assert Extended(op).None? && Optimized(op).None?;
    } else if op < 0xf2ff {
      assert Classical(op).None? && Optimized(op).None?;
    } else {
      assert Classical(op).None? && Extended(op).None?;
    }
  }

  /** Classical entries use formats with a one-byte opcode, the two-byte tables
      formats whose opcode is the whole code unit; an entry has a kind exactly
      when its format carries a reference operand. */
  lemma TableFormats(op: int)
    ensures Classical(op).Some? ==> !IsWide(Classical(op).value.format)
    ensures Extended(op).Some? ==> IsWide(Extended(op).value.format)
    ensures Optimized(op).Some? ==> IsWide(Optimized(op).value.format)
    ensures Lookup(op).Some? ==>
      (Lookup(op).value.kind.Some? <==> HasReference(Lookup(op).value.format))
  {
  }

  /** The lookup as written misses exactly the jumbo key 0x00ff and agrees with
      the corrected lookup on every other value. */
  lemma LookupAsWrittenMisses00ff(op: int)
    ensures Extended(0x00ff) == Some(OpInfo(F41c, "const-class/jumbo", Some(KindType)))
    ensures LookupAsWritten(0x00ff).None?
    ensures op != 0xff ==> LookupAsWritten(op) == Lookup(op)
  {
  }
}
