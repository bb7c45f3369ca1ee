/** `get_kind(cm, kind, value)`: the text of an instruction's reference
    operand.  The class manager's lookups (`get_method_ref`, `get_string`,
    `get_field`, `get_type`) belong to code this model does not contain;
    they are taken as given total functions. */
module Kinds {
  import opened Wrappers
  import opened Opcodes
  import opened Text

  /** What `cm.get_method_ref(value)` reports: class name, name, descriptor. */
  datatype MethodRef = MethodRef(className: string, name: string, descriptor: string)

  /** What `cm.get_field(value)` reports, in the order the source unpacks it. */
  datatype FieldRef = FieldRef(className: string, proto: string, fieldName: string)

  /** The class manager, reduced to the four lookups `get_kind` makes. */
  datatype ClassManager = ClassManager(
    methodRef: nat -> MethodRef,
    stringAt: nat -> string,
    field: nat -> FieldRef,
    typeName: nat -> string)

  /** The kind codes `get_kind` renders; every other code gives `None`. */
  predicate Rendered(kind: int) {
    kind == 0 || kind == 1 || kind == 2 || kind == 3 || kind == 5 || kind == 6 || kind == 7 || kind == 8
  }

  function OffsetText(prefix: string, value: nat): string {
    prefix + "[0x" + Hex(value) + "]"
  }

  /** The `" class->name descriptor"` suffix an inline slot adds. */
  function InlineSuffix(value: nat): string
    requires value < |InlineMethods|
  {
    var (c, n, d) := InlineMethods[value];
    " " + c + "->" + n + d
  }

  /** `get_kind(cm, kind, value)`; `None` is the source's `None`. */
  function GetKindText(cm: ClassManager, kind: int, value: nat): (r: Option<string>)
    ensures r.Some? <==> Rendered(kind)
    ensures kind == KindCode(KindRawString) ==> r == Some(cm.stringAt(value))
    ensures kind == KindCode(KindString) ==> r.Some? && ParseReprStr(r.value) == Some(cm.stringAt(value))
    ensures kind == KindCode(KindType) ==> r == Some(cm.typeName(value))
    ensures kind == KindCode(KindMeth) ==>
      var m := cm.methodRef(value);
      r == Some(m.className + "->" + m.name + m.descriptor)
    ensures kind == KindCode(KindField) ==>
      var f := cm.field(value);
      r == Some(f.className + "->" + f.fieldName + " " + f.proto)
  {
    if kind == KindCode(KindMeth) then
      var m := cm.methodRef(value);
      Some(m.className + "->" + m.name + m.descriptor)
    else if kind == KindCode(KindString) then
      ParseReprStrOfReprStr(cm.stringAt(value));
      Some(ReprStr(cm.stringAt(value)))
    else if kind == KindCode(KindRawString) then
      Some(cm.stringAt(value))
    else if kind == KindCode(KindField) then
      var f := cm.field(value);
      Some(f.className + "->" + f.fieldName + " " + f.proto)
    else if kind == KindCode(KindType) then
      Some(cm.typeName(value))
    else if kind == KindCode(VtableOffset) then
      Some(OffsetText("vtable", value))
    else if kind == KindCode(FieldOffset) then
      Some(OffsetText("field", value))
    else if kind == KindCode(InlineMethod) then
      Some(OffsetText("inline", value) + if value < |InlineMethods| then InlineSuffix(value) else "")
    else None
  }

  // ---- properties ----

  /** The position of the first `]` in `w` (its length when there is none). */
  function FirstBracket(w: string): (k: nat)
    ensures k <= |w|
  {
    if w == [] then 0 else if w[0] == ']' then 0 else 1 + FirstBracket(w[1..])
  }

  lemma {:induction false} FirstBracketAfter(x: string, s: string)
    requires forall i :: 0 <= i < |x| ==> IsHexDigit(x[i])
    ensures FirstBracket(x + "]" + s) == |x|
    decreases |x|
  {
    if x != [] {
      assert (x + "]" + s)[1..] == x[1..] + "]" + s;
      FirstBracketAfter(x[1..], s);
    }
  }

  /** A hex number followed by `]` can be split off uniquely: hex digits never
      include `]`. */
  lemma SplitAtBracket(m: nat, n: nat, s: string, t: string)
    requires Hex(m) + "]" + s == Hex(n) + "]" + t
    ensures m == n && s == t
  {
    var x, y := Hex(m), Hex(n);
    var u := x + "]" + s;
    FirstBracketAfter(x, s);
    FirstBracketAfter(y, t);
    assert x == u[..|x|] && y == u[..|y|];
    HexInjective(m, n);
    assert s == u[|x| + 1..] && t == u[|y| + 1..];
  }

  /** Texts `prefix[0x..]...` with the same prefix name the same value. */
  lemma OffsetTextDeterminesValue(prefix: string, m: nat, n: nat, s: string, t: string)
    requires OffsetText(prefix, m) + s == OffsetText(prefix, n) + t
    ensures m == n
  {
    var p := prefix + "[0x";
    var u := OffsetText(prefix, m) + s;
    assert u == p + (Hex(m) + "]" + s);
    assert u == p + (Hex(n) + "]" + t);
    assert u[|p|..] == Hex(m) + "]" + s;
    assert u[|p|..] == Hex(n) + "]" + t;
    SplitAtBracket(m, n, s, t);
  }

  /** `vtable[0x..]`, `field[0x..]` and `inline[0x..]` texts name their value
      uniquely: two values with the same text are equal. */
  lemma OffsetTextsDetermineValue(cm: ClassManager, kind: int, m: nat, n: nat)
    requires kind == KindCode(VtableOffset) || kind == KindCode(FieldOffset) || kind == KindCode(InlineMethod)
    requires GetKindText(cm, kind, m) == GetKindText(cm, kind, n)
    ensures m == n
  {
    if kind == KindCode(VtableOffset) {
      OffsetTextDeterminesValue("vtable", m, n, "", "");
    } else if kind == KindCode(FieldOffset) {
      OffsetTextDeterminesValue("field", m, n, "", "");
    } else {
      var s := if m < |InlineMethods| then InlineSuffix(m) else "";
      var t := if n < |InlineMethods| then InlineSuffix(n) else "";
      OffsetTextDeterminesValue("inline", m, n, s, t);
    }
  }

  /** An inline slot's text carries the method after `inline[0x..]` exactly when
      the slot is one of the 22 in `INLINE_METHODS`. */
  lemma InlineTextShape(cm: ClassManager, value: nat)
    ensures |InlineMethods| == 22
    ensures var r := GetKindText(cm, KindCode(InlineMethod), value).value;
      (value < 22 ==> r == OffsetText("inline", value) + InlineSuffix(value))
      && (|r| > |OffsetText("inline", value)| <==> value < 22)
  {
  }
}
