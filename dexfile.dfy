/** The fixed-layout DEX records: the `header_item` (`HeaderItem`) and the
    `map_list` directory (`MapList` of `MapItem` entries), read through a
    `ByteCode` cursor.  The class manager is reduced to the two services
    these records use: `get_item_by_offset`, a lookup given as a total
    function, and `add_type_item`, which records each directory entry. */
module DexFile {
  import opened Wrappers
  import opened Bytes
  import opened Cursor

  // ---- TYPE_ITEM ----

  /** `TYPE_ITEM`: the name of each map entry type code. */
  function TypeItemName(tag: int): (r: Option<string>)
    ensures r.Some? <==> 0 <= tag <= 6 || 0x1000 <= tag <= 0x1003 || 0x2000 <= tag <= 0x2006
  {
    match tag
    case 0x0 => Some("TYPE_HEADER_ITEM")
    case 0x1 => Some("TYPE_STRING_ID_ITEM")
    case 0x2 => Some("TYPE_TYPE_ID_ITEM")
    case 0x3 => Some("TYPE_PROTO_ID_ITEM")
    case 0x4 => Some("TYPE_FIELD_ID_ITEM")
    case 0x5 => Some("TYPE_METHOD_ID_ITEM")
    case 0x6 => Some("TYPE_CLASS_DEF_ITEM")
    case 0x1000 => Some("TYPE_MAP_LIST")
    case 0x1001 => Some("TYPE_TYPE_LIST")
    case 0x1002 => Some("TYPE_ANNOTATION_SET_REF_LIST")
    case 0x1003 => Some("TYPE_ANNOTATION_SET_ITEM")
    case 0x2000 => Some("TYPE_CLASS_DATA_ITEM")
    case 0x2001 => Some("TYPE_CODE_ITEM")
    case 0x2002 => Some("TYPE_STRING_DATA_ITEM")
    case 0x2003 => Some("TYPE_DEBUG_INFO_ITEM")
    case 0x2004 => Some("TYPE_ANNOTATION_ITEM")
    case 0x2005 => Some("TYPE_ENCODED_ARRAY_ITEM")
    case 0x2006 => Some("TYPE_ANNOTATIONS_DIRECTORY_ITEM")
    case _ => None
  }

  /** `MapItem.switcher[tag]`: the entry's name and whether the entry also
      names a decoder class (only the header has one). */
  function Switcher(tag: int): (r: Option<(string, bool)>)
    ensures r.Some? <==> TypeItemName(tag).Some?
    ensures r.Some? ==> r.value.0 == TypeItemName(tag).value
    ensures r.Some? ==> (r.value.1 <==> tag == 0)
  {
    match TypeItemName(tag)
    case Some(name) => Some((name, tag == 0))
    case None => None
  }

  /** What goes wrong: a read past the end (`struct.error` on unpack), a
      missing attribute or method, an index past a list's end, `len` of an
      object without one, a value `pack` cannot write, a type code the
      switcher does not have (`KeyError`), or a switcher entry without a
      decoder class (`IndexError` on `[1]`). */
  datatype DexError = ShortRead | NoAttribute | NoIndex | NotSized | PackRange | UnknownTag | NoDecoder

  // ---- reading fields through the cursor ----

  method NextBytes(c: ByteCode, n: nat) returns (r: Result<seq<byte>, DexError>)
    requires n > 0
    modifies c
    ensures c.index == old(c.index) + n
    ensures r.Ok? <==> old(c.index) + n <= |c.buff|
    ensures r.Err? ==> r.error == ShortRead
    ensures r.Ok? ==> r.value == c.buff[old(c.index)..old(c.index) + n]
  {
    var s := c.Read(n);
    if |s| < n {
      return Err(ShortRead);
    }
    SliceInside(c.buff, old(c.index), n);
    return Ok(s);
  }

  /** `unpack("=H", buff.read(2))[0]` */
  method NextU16(c: ByteCode) returns (r: Result<u16, DexError>)
    modifies c
    ensures c.index == old(c.index) + 2
    ensures r.Ok? <==> old(c.index) + 2 <= |c.buff|
    ensures r.Err? ==> r.error == ShortRead
    ensures r.Ok? ==> r.value == U16At(c.buff, old(c.index))
  {
    var s :- NextBytes(c, 2);
    assert s[0..2] == s;
    return Ok(U16At(s, 0));
  }

  /** `unpack("=I", buff.read(4))[0]` */
  method NextU32(c: ByteCode) returns (r: Result<u32, DexError>)
    modifies c
    ensures c.index == old(c.index) + 4
    ensures r.Ok? <==> old(c.index) + 4 <= |c.buff|
    ensures r.Err? ==> r.error == ShortRead
    ensures r.Ok? ==> r.value == U32At(c.buff, old(c.index))
  {
    var s :- NextBytes(c, 4);
    assert s[0..4] == s;
    return Ok(U32At(s, 0));
  }

  /** `unpack("=i", buff.read(4))[0]` */
  method NextS32(c: ByteCode) returns (r: Result<s32, DexError>)
    modifies c
    ensures c.index == old(c.index) + 4
    ensures r.Ok? <==> old(c.index) + 4 <= |c.buff|
    ensures r.Err? ==> r.error == ShortRead
    ensures r.Ok? ==> r.value == S32At(c.buff, old(c.index))
  {
    var s :- NextBytes(c, 4);
    assert s[0..4] == s;
    return Ok(S32At(s, 0));
  }

  /** `unpack("=Q", buff.read(8))[0]` */
  method NextU64(c: ByteCode) returns (r: Result<u64, DexError>)
    modifies c
    ensures c.index == old(c.index) + 8
    ensures r.Ok? <==> old(c.index) + 8 <= |c.buff|
    ensures r.Err? ==> r.error == ShortRead
    ensures r.Ok? ==> r.value == U64At(c.buff, old(c.index))
  {
    var s :- NextBytes(c, 8);
    assert s[0..8] == s;
    return Ok(U64At(s, 0));
  }

  // ---- runs of unsigned 32-bit fields ----

  /** `n` consecutive `"=I"` fields from byte `start`. */
  function Fields(b: seq<byte>, start: nat, n: nat): (ws: seq<u32>)
    requires start + 4 * n <= |b|
    ensures |ws| == n
    ensures forall k :: 0 <= k < n ==> ws[k] == U32At(b, start + 4 * k)
  {
    if n == 0 then [] else Fields(b, start, n - 1) + [U32At(b, start + 4 * (n - 1))]
  }

  /** `pack("=I", w)` for each field in order, joined. */
  function FieldsBytes(ws: seq<u32>): (r: seq<byte>)
    ensures |r| == 4 * |ws|
  {
    if ws == [] then [] else FieldsBytes(ws[..|ws| - 1]) + U32Bytes(ws[|ws| - 1])
  }

  /** `n` more `unpack("=I", buff.read(4))[0]` reads of a run of fields
      that starts at byte `start` and of which `ws` are read already; the
      first short read raises. */
  method NextFields(c: ByteCode, ghost start: nat, ws: seq<u32>, n: nat) returns (r: Result<seq<u32>, DexError>)
    requires c.index == start + 4 * |ws| <= |c.buff| && ws == Fields(c.buff, start, |ws|)
    modifies c
    decreases n
    ensures r.Ok? <==> old(c.index) + 4 * n <= |c.buff|
    ensures r.Err? ==> r.error == ShortRead
    ensures r.Ok? ==> c.index == old(c.index) + 4 * n && r.value == Fields(c.buff, start, |ws| + n)
  {
    if n == 0 {
      return Ok(ws);
    }
    var w :- NextU32(c);
    r := NextFields(c, start, ws + [w], n - 1);
  }

  lemma {:induction false} FieldsOfFieldsBytes(pre: seq<byte>, ws: seq<u32>, rest: seq<byte>)
    ensures Fields(pre + FieldsBytes(ws) + rest, |pre|, |ws|) == ws
    decreases |ws|
  {
    if ws != [] {
      var init, last := ws[..|ws| - 1], ws[|ws| - 1];
      var q := pre + FieldsBytes(init);
      var b := pre + FieldsBytes(ws) + rest;
      assert b == pre + FieldsBytes(init) + (U32Bytes(last) + rest);
      FieldsOfFieldsBytes(pre, init, U32Bytes(last) + rest);
      assert b == q + U32Bytes(last) + rest;
      MidSlice(q, U32Bytes(last), rest);
      FieldsSnocAt(b, |pre|, init, last);
      assert ws == init + [last];
    }
  }

  /** One more field read after a run already read. */
  lemma FieldsSnocAt(b: seq<byte>, start: nat, init: seq<u32>, last: u32)
    requires start + 4 * |init| + 4 <= |b| && Fields(b, start, |init|) == init
    requires b[start + 4 * |init|..start + 4 * |init| + 4] == U32Bytes(last)
    ensures Fields(b, start, |init| + 1) == init + [last]
  {
    ReadU32(b, start + 4 * |init|, last);
  }

  lemma {:induction false} FieldsBytesOfFields(b: seq<byte>, start: nat, n: nat)
    requires start + 4 * n <= |b|
    ensures FieldsBytes(Fields(b, start, n)) == b[start..start + 4 * n]
    decreases n
  {
    if n > 0 {
      var k := start + 4 * (n - 1);
      var ws, all := Fields(b, start, n - 1), Fields(b, start, n);
      FieldsBytesOfFields(b, start, n - 1);
      assert all[..n - 1] == ws;
      assert FieldsBytes(all) == FieldsBytes(ws) + U32Bytes(U32At(b, k));
      WriteBackU32(b, k);
      JoinSlices(b, start, k, k + 4);
    }
  }

  // ---- the header's 23 fields ----

  /** The twenty `"=I"` fields of a header, in file order. */
  type Words = ws: seq<int> | |ws| == 20 witness seq(20, _ => 0)

  // Where each `"=I"` field sits among the twenty.
  const FileSize: nat := 0
  const HeaderSize: nat := 1
  const EndianTag: nat := 2
  const LinkSize: nat := 3
  const LinkOff: nat := 4
  const MapOff: nat := 5
  const StringIdsSize: nat := 6
  const StringIdsOff: nat := 7
  const TypeIdsSize: nat := 8
  const TypeIdsOff: nat := 9
  const ProtoIdsSize: nat := 10
  const ProtoIdsOff: nat := 11
  const FieldIdsSize: nat := 12
  const FieldIdsOff: nat := 13
  const MethodIdsSize: nat := 14
  const MethodIdsOff: nat := 15
  const ClassDefsSize: nat := 16
  const ClassDefsOff: nat := 17
  const DataSize: nat := 18
  const DataOff: nat := 19

  /** The `header_item` fields: the eight-byte magic, the signed checksum,
      the 20-byte signature and the twenty `"=I"` fields (`file_size` to
      `data_off`).  The fields `get_obj` rewrites may take any value; `pack`
      accepts only unsigned 32-bit ones. */
  datatype Header = Header(magic: u64, checksum: s32, signature: seq<byte>, words: Words)

  /** The size of a `header_item`: what `__init__` reads and `get_raw` writes. */
  const HeaderLength: nat := 112

  /** `pack` accepts every field: the signature has its 20 bytes and each
      word is an unsigned 32-bit value. */
  predicate Packable(h: Header) {
    |h.signature| == 20 && forall k :: 0 <= k < 20 ==> 0 <= h.words[k] < 0x1_0000_0000
  }

  /** The header as `__init__` reads it from byte `i`. */
  function HeaderAt(b: seq<byte>, i: nat): (h: Header)
    requires i + HeaderLength <= |b|
    ensures Packable(h)
  {
    Header(U64At(b, i), S32At(b, i + 8), b[i + 12..i + 32], Fields(b, i + 32, 20))
  }

  /** The bytes `get_obj` packs for the header's fields. */
  function HeaderBytes(h: Header): (r: seq<byte>)
    requires Packable(h)
    ensures |r| == HeaderLength
  {
    var ws: seq<u32> := h.words;
    U64Bytes(h.magic) + S32Bytes(h.checksum) + h.signature + FieldsBytes(ws)
  }

  /** Reading a header back from its bytes, wherever they sit, gives it back. */
  lemma HeaderAtOfBytes(h: Header, pre: seq<byte>, rest: seq<byte>)
    requires Packable(h)
    ensures HeaderAt(pre + HeaderBytes(h) + rest, |pre|) == h
  {
    var ws: seq<u32> := h.words;
    var a, c := U64Bytes(h.magic), S32Bytes(h.checksum);
    var b := pre + HeaderBytes(h) + rest;
    var i := |pre|;
    assert b == pre + a + c + h.signature + (FieldsBytes(ws) + rest);
    Slices4(pre, a, c, h.signature, FieldsBytes(ws) + rest);
    ReadU64(b, i, h.magic);
    ReadS32(b, i + 8, h.checksum);
    assert b == (pre + a + c + h.signature) + FieldsBytes(ws) + rest;
    FieldsOfFieldsBytes(pre + a + c + h.signature, ws, rest);
  }

  /** Writing the header read from byte `i` gives the 112 bytes it was read from. */
  lemma HeaderBytesOfHeaderAt(b: seq<byte>, i: nat)
    requires i + HeaderLength <= |b|
    ensures HeaderBytes(HeaderAt(b, i)) == b[i..i + HeaderLength]
  {
    WriteBackU64(b, i);
    WriteBackS32(b, i + 8);
    FieldsBytesOfFields(b, i + 32, 20);
    JoinSlices(b, i, i + 8, i + 12);
    JoinSlices(b, i, i + 12, i + 32);
    JoinSlices(b, i, i + 32, i + 112);
  }

  // ---- the items `get_item_by_offset` returns ----

  /** An item the class manager hands back: a list of items, each with
      `get_off()` (the string ids), or one section object with `get_off()`
      and a list attribute (`type`, `proto`, `elem`, `methods`, `class_def`,
      `map_item`) of `entries` elements.  `None` is the lookup finding nothing. */
  datatype Item = ItemList(offsets: seq<int>) | Section(off: int, entries: nat)

  predicate IsSection(x: Option<Item>) {
    x.Some? && x.value.Section?
  }

  /** The eight looked-up objects, in `get_obj`'s order. */
  datatype Objects = Objects(
    mapList: Option<Item>, stringIds: Option<Item>, typeIds: Option<Item>, protoIds: Option<Item>,
    fieldIds: Option<Item>, methodIds: Option<Item>, classDefs: Option<Item>, data: Option<Item>)

  /** The header without the fields `get_obj` rewrites: everything up to
      `link_off`. */
  function Fixed(h: Header): (u64, s32, seq<byte>, seq<int>) {
    (h.magic, h.checksum, h.signature, h.words[..MapOff])
  }

  /** Every object has what `get_obj` asks of it: `get_off()` on the map
      list, a non-empty list for the string ids, a section for the rest. */
  predicate Complete(o: Objects) {
    && IsSection(o.mapList)
    && o.stringIds.Some? && o.stringIds.value.ItemList? && o.stringIds.value.offsets != []
    && IsSection(o.typeIds) && IsSection(o.protoIds) && IsSection(o.fieldIds)
    && IsSection(o.methodIds) && IsSection(o.classDefs) && IsSection(o.data)
  }

  /** A size/offset pair rewritten from a section object. */
  function SetSection(w: Words, size: nat, off: nat, x: Item): Words
    requires size < 20 && off < 20 && x.Section?
  {
    w[size := x.entries][off := x.off]
  }

  /** The rewrites of `get_obj`, in order: `map_off`, then each size/offset
      pair from its object.  It stops at the first object that lacks what is
      asked of it (`None.get_off()`, `len` of a section, `[0]` of an empty
      list, `.type` of a list, ...), keeping the rewrites made so far; the
      second component is that error.  The fixed fields are never touched. */
  function Refresh(h: Header, o: Objects): (r: (Header, Option<DexError>))
    ensures Fixed(r.0) == Fixed(h)
    ensures r.1.None? <==> Complete(o)
  {
    if !IsSection(o.mapList) then (h, Some(NoAttribute)) else
    var w := h.words[MapOff := o.mapList.value.off];
    if !(o.stringIds.Some? && o.stringIds.value.ItemList?) then (h.(words := w), Some(NotSized)) else
    var strings := o.stringIds.value.offsets;
    var w := w[StringIdsSize := |strings|];
    if strings == [] then (h.(words := w), Some(NoIndex)) else
    var w := w[StringIdsOff := strings[0]];
    if !IsSection(o.typeIds) then (h.(words := w), Some(NoAttribute)) else
    var w := SetSection(w, TypeIdsSize, TypeIdsOff, o.typeIds.value);
    if !IsSection(o.protoIds) then (h.(words := w), Some(NoAttribute)) else
    var w := SetSection(w, ProtoIdsSize, ProtoIdsOff, o.protoIds.value);
    if !IsSection(o.fieldIds) then (h.(words := w), Some(NoAttribute)) else
    var w := SetSection(w, FieldIdsSize, FieldIdsOff, o.fieldIds.value);
    if !IsSection(o.methodIds) then (h.(words := w), Some(NoAttribute)) else
    var w := SetSection(w, MethodIdsSize, MethodIdsOff, o.methodIds.value);
    if !IsSection(o.classDefs) then (h.(words := w), Some(NoAttribute)) else
    var w := SetSection(w, ClassDefsSize, ClassDefsOff, o.classDefs.value);
    if !IsSection(o.data) then (h.(words := w), Some(NoAttribute)) else
    (h.(words := SetSection(w, DataSize, DataOff, o.data.value)), None)
  }

  /** A section object reporting exactly this size and offset. */
  predicate SectionReports(x: Option<Item>, size: int, off: int) {
    x.Some? && x.value.Section? && x.value.off == off && x.value.entries == size
  }

  /** The objects report exactly the header's own sizes and offsets. */
  predicate Reports(o: Objects, h: Header) {
    var w := h.words;
    && IsSection(o.mapList) && o.mapList.value.off == w[MapOff]
    && o.stringIds.Some? && o.stringIds.value.ItemList?
    && |o.stringIds.value.offsets| == w[StringIdsSize]
    && o.stringIds.value.offsets != [] && o.stringIds.value.offsets[0] == w[StringIdsOff]
    && SectionReports(o.typeIds, w[TypeIdsSize], w[TypeIdsOff])
    && SectionReports(o.protoIds, w[ProtoIdsSize], w[ProtoIdsOff])
    && SectionReports(o.fieldIds, w[FieldIdsSize], w[FieldIdsOff])
    && SectionReports(o.methodIds, w[MethodIdsSize], w[MethodIdsOff])
    && SectionReports(o.classDefs, w[ClassDefsSize], w[ClassDefsOff])
    && SectionReports(o.data, w[DataSize], w[DataOff])
  }

  /** When the objects report the header's own values, refreshing changes
      nothing. */
  lemma RefreshOfReports(h: Header, o: Objects)
    requires Reports(o, h)
    ensures Refresh(h, o) == (h, None)
  {
    var r := Refresh(h, o).0;
    assert forall k | 0 <= k < 20 :: r.words[k] == h.words[k];
    assert r.words == h.words;
  }

  /** After a successful refresh the objects report the new header, so a
      second refresh over the same objects changes nothing more. */
  lemma RefreshIdempotent(h: Header, o: Objects)
    requires Complete(o)
    ensures Reports(o, Refresh(h, o).0)
    ensures Refresh(Refresh(h, o).0, o) == Refresh(h, o)
  {
    RefreshOfReports(Refresh(h, o).0, o);
  }

  /** Slot `x` as its `if x == None: x = get_item_by_offset(off)` step
      leaves it. */
  function Keep(x: Option<Item>, y: Option<Item>): Option<Item> {
    if x.Some? then x else y
  }

  /** The objects after the eight memo steps of `get_obj` on header `h`. */
  function Fill(o: Objects, itemAt: int -> Option<Item>, h: Header): (r: Objects)
    ensures o.mapList.Some? ==> r.mapList == o.mapList
    ensures o.mapList.None? ==> r.mapList == itemAt(h.words[MapOff])
    ensures o.data.Some? ==> r.data == o.data
    ensures o.data.None? ==> r.data == itemAt(h.words[DataOff])
  {
    var w := h.words;
    Objects(
      Keep(o.mapList, itemAt(w[MapOff])), Keep(o.stringIds, itemAt(w[StringIdsOff])),
      Keep(o.typeIds, itemAt(w[TypeIdsOff])), Keep(o.protoIds, itemAt(w[ProtoIdsOff])),
      Keep(o.fieldIds, itemAt(w[FieldIdsOff])), Keep(o.methodIds, itemAt(w[MethodIdsOff])),
      Keep(o.classDefs, itemAt(w[ClassDefsOff])), Keep(o.data, itemAt(w[DataOff])))
  }

  /** Every memo slot is filled. */
  predicate AllFilled(o: Objects) {
    && o.mapList.Some? && o.stringIds.Some? && o.typeIds.Some? && o.protoIds.Some?
    && o.fieldIds.Some? && o.methodIds.Some? && o.classDefs.Some? && o.data.Some?
  }

  /** No slot is filled yet. */
  const NoObjects := Objects(None, None, None, None, None, None, None, None)

  /** Once every slot is filled, later memo steps keep the objects they have,
      whatever offsets the header holds by then: the sections a header item
      works with are fixed by the first lookups that find something. */
  lemma FillSettles(o: Objects, itemAt: int -> Option<Item>, h: Header)
    requires AllFilled(o)
    ensures Fill(o, itemAt, h) == o
  {
  }

  /** A slot stays empty only while the lookup for it finds nothing. */
  lemma FillFills(o: Objects, itemAt: int -> Option<Item>, h: Header)
    ensures var w := h.words;
      AllFilled(Fill(o, itemAt, h)) <==>
      && (o.mapList.Some? || itemAt(w[MapOff]).Some?) && (o.stringIds.Some? || itemAt(w[StringIdsOff]).Some?)
      && (o.typeIds.Some? || itemAt(w[TypeIdsOff]).Some?) && (o.protoIds.Some? || itemAt(w[ProtoIdsOff]).Some?)
      && (o.fieldIds.Some? || itemAt(w[FieldIdsOff]).Some?) && (o.methodIds.Some? || itemAt(w[MethodIdsOff]).Some?)
      && (o.classDefs.Some? || itemAt(w[ClassDefsOff]).Some?) && (o.data.Some? || itemAt(w[DataOff]).Some?)
  {
  }

  // ---- the class manager's services ----

  /** `get_item_by_offset` and the `add_type_item` register. */
  class ItemRegistry {
    const itemAt: int -> Option<Item>
    var typeItems: seq<MapItem>

    constructor (lookup: int -> Option<Item>)
      ensures itemAt == lookup && typeItems == []
    {
      itemAt := lookup;
      typeItems := [];
    }

    method AddTypeItem(mi: MapItem)
      modifies this
      ensures typeItems == old(typeItems) + [mi]
    {
      typeItems := typeItems + [mi];
    }
  }

  // ---- HeaderItem ----

  class HeaderItem {
    const registry: ItemRegistry
    /** Where the header starts: the cursor index on entry. */
    var offset: int
    var header: Header
    /** The looked-up objects; `None` until a lookup returns something. */
    var mapOffObj: Option<Item>
    var stringOffObj: Option<Item>
    var typeOffObj: Option<Item>
    var protoOffObj: Option<Item>
    var fieldOffObj: Option<Item>
    var methodOffObj: Option<Item>
    var classOffObj: Option<Item>
    var dataOffObj: Option<Item>

    /** The signature is the 20 bytes `unpack("=20s")` gave. */
    predicate Valid()
      reads this
    {
      |header.signature| == 20
    }

    /** The eight memo slots, in `get_obj`'s order. */
    function Objs(): Objects
      reads this
    {
      Objects(mapOffObj, stringOffObj, typeOffObj, protoOffObj,
        fieldOffObj, methodOffObj, classOffObj, dataOffObj)
    }

    constructor (reg: ItemRegistry, off: int, h: Header)
      requires |h.signature| == 20
      ensures registry == reg && offset == off && header == h
      ensures Objs() == NoObjects && Valid()
    {
      registry := reg;
      offset := off;
      header := h;
      mapOffObj, stringOffObj, typeOffObj, protoOffObj := None, None, None, None;
      fieldOffObj, methodOffObj, classOffObj, dataOffObj := None, None, None, None;
    }

    /** The eight memo steps of `get_obj`, in order: each empty slot is
        looked up by the header's current offset for it, and a filled slot
        is left alone. */
    method FetchObjects()
      modifies this
      ensures header == old(header) && offset == old(offset)
      ensures Objs() == Fill(old(Objs()), registry.itemAt, header)
    {
      var w := header.words;
      var itemAt := registry.itemAt;
      mapOffObj, stringOffObj, typeOffObj, protoOffObj :=
        Keep(mapOffObj, itemAt(w[MapOff])), Keep(stringOffObj, itemAt(w[StringIdsOff])),
        Keep(typeOffObj, itemAt(w[TypeIdsOff])), Keep(protoOffObj, itemAt(w[ProtoIdsOff]));
      fieldOffObj, methodOffObj, classOffObj, dataOffObj :=
        Keep(fieldOffObj, itemAt(w[FieldIdsOff])), Keep(methodOffObj, itemAt(w[MethodIdsOff])),
        Keep(classOffObj, itemAt(w[ClassDefsOff])), Keep(dataOffObj, itemAt(w[DataOff]));
    }

    /** `get_obj()`: looks up the missing objects, rewrites the section
        fields from them and packs the 23 fields. */
    method GetObj() returns (r: Result<seq<byte>, DexError>)
      requires Valid()
      modifies this
      ensures Valid() && offset == old(offset)
      ensures Objs() == Fill(old(Objs()), registry.itemAt, old(header))
      ensures header == Refresh(old(header), Objs()).0
      ensures r.Ok? <==> Complete(Objs()) && Packable(header)
      ensures r.Ok? ==> r.value == HeaderBytes(header)
      ensures r.Err? && !Complete(Objs()) ==> r.error == Refresh(old(header), Objs()).1.value
      ensures r.Err? && Complete(Objs()) ==> r.error == PackRange
    {
      FetchObjects();
      var (h, err) := Refresh(header, Objs());
      header := h;
      if err.Some? {
        return Err(err.value);
      }
      if !Packable(h) {
        return Err(PackRange);
      }
      return Ok(HeaderBytes(h));
    }

    /** `get_raw()` is `get_obj()`. */
    method GetRaw() returns (r: Result<seq<byte>, DexError>)
      requires Valid()
      modifies this
      ensures Valid() && offset == old(offset)
      ensures Objs() == Fill(old(Objs()), registry.itemAt, old(header))
      ensures header == Refresh(old(header), Objs()).0
      ensures r.Ok? <==> Complete(Objs()) && Packable(header)
      ensures r.Ok? ==> r.value == HeaderBytes(header)
    {
      r := GetObj();
    }

    /** `get_length()`: the length of `get_raw()`, which is always 112. */
    method GetLength() returns (r: Result<nat, DexError>)
      requires Valid()
      modifies this
      ensures Valid() && offset == old(offset)
      ensures Objs() == Fill(old(Objs()), registry.itemAt, old(header))
      ensures header == Refresh(old(header), Objs()).0
      ensures r.Ok? <==> Complete(Objs()) && Packable(header)
      ensures r.Ok? ==> r.value == HeaderLength
    {
      var raw := GetRaw();
      match raw
      case Ok(b) => return Ok(|b|);
      case Err(e) => return Err(e);
    }

    method SetOff(off: int)
      modifies this
      ensures offset == off && header == old(header) && Objs() == old(Objs())
    {
      offset := off;
    }

    method GetOff() returns (off: int)
      ensures off == offset
    {
      off := offset;
    }
  }

  /** The 23 reads of `HeaderItem.__init__`, in order; a read past the end
      raises. */
  method NextHeader(c: ByteCode) returns (r: Result<Header, DexError>)
    modifies c
    ensures r.Ok? <==> old(c.index) + HeaderLength <= |c.buff|
    ensures r.Err? ==> r.error == ShortRead
    ensures r.Ok? ==> c.index == old(c.index) + HeaderLength && r.value == HeaderAt(c.buff, old(c.index))
  {
    var off := c.index;
    var magic :- NextU64(c);
    var checksum :- NextS32(c);
    var signature :- NextBytes(c, 20);
    // file_size, header_size, endian_tag, link_size, link_off, map_off and
    // the size/offset pairs of the string, type, proto, field, method,
    // class-def and data sections
    var words :- NextFields(c, off + 32, [], 20);
    var h := Header(magic, checksum, signature, words);
    return Ok(h);
  }

  /** `HeaderItem.__init__`: records the cursor index, then reads the
      header's fields; no section object is looked up yet. */
  method ParseHeaderItem(c: ByteCode, reg: ItemRegistry) returns (r: Result<HeaderItem, DexError>)
    modifies c
    ensures r.Ok? <==> old(c.index) + HeaderLength <= |c.buff|
    ensures r.Ok? ==>
      && c.index == old(c.index) + HeaderLength
      && fresh(r.value) && r.value.Valid() && r.value.registry == reg
      && r.value.offset == old(c.index) && r.value.header == HeaderAt(c.buff, old(c.index))
      && r.value.Objs() == NoObjects
    ensures r.Err? ==> r.error == ShortRead
  {
    var off := c.GetIdx();
    var h :- NextHeader(c);
    var item := new HeaderItem(reg, off, h);
    return Ok(item);
  }

  /** When the objects report the header read from byte `i`, refreshing
      keeps it and packing it gives back its bytes. */
  lemma WriteBackOfReports(b: seq<byte>, i: nat, o: Objects)
    requires i + HeaderLength <= |b|
    ensures Reports(o, HeaderAt(b, i)) ==> Complete(o) && Refresh(HeaderAt(b, i), o).0 == HeaderAt(b, i)
    ensures HeaderBytes(HeaderAt(b, i)) == b[i..i + HeaderLength]
  {
    if Reports(o, HeaderAt(b, i)) {
      RefreshOfReports(HeaderAt(b, i), o);
    }
    HeaderBytesOfHeaderAt(b, i);
  }

  /** Reading a header and writing it straight back: when the class manager
      reports the header's own sections, `get_raw()` gives back the 112 bytes
      the header was read from. */
  method ReadThenWrite(c: ByteCode, reg: ItemRegistry) returns (r: Result<seq<byte>, DexError>)
    requires c.index + HeaderLength <= |c.buff|
    requires Reports(Fill(NoObjects, reg.itemAt, HeaderAt(c.buff, c.index)), HeaderAt(c.buff, c.index))
    modifies c
    ensures r == Ok(c.buff[old(c.index)..old(c.index) + HeaderLength])
  {
    var start := c.index;
    WriteBackOfReports(c.buff, start, Fill(NoObjects, reg.itemAt, HeaderAt(c.buff, start)));
    var parsed := ParseHeaderItem(c, reg);
    var item := parsed.value;
    r := item.GetRaw();
  }

  // ---- MapItem ----

  /** One `map_item`: its position, the four fields and the decoded item
      the entry points at (a header: the only entry type with a decoder). */
  class MapItem {
    const off: int
    const itemType: u16
    const unused: u16
    const size: u32
    const offset: u32
    const item: HeaderItem

    constructor (off: int, itemType: u16, unused: u16, size: u32, offset: u32, item: HeaderItem)
      ensures this.off == off && this.itemType == itemType && this.unused == unused
      ensures this.size == size && this.offset == offset && this.item == item
    {
      this.off := off;
      this.itemType := itemType;
      this.unused := unused;
      this.size := size;
      this.offset := offset;
      this.item := item;
    }
  }

  /** The `map_item` at byte `p` is a header entry whose header fits. */
  predicate EntryDecodes(b: seq<byte>, p: nat) {
    p + 12 <= |b| && U16At(b, p) == 0 && U32At(b, p + 8) + HeaderLength <= |b|
  }

  /** What decoding the `map_item` at byte `p` runs into, if anything: a
      short entry, a type code the switcher lacks, a type without a decoder
      class, or a header cut short. */
  function MapEntryError(b: seq<byte>, p: nat): (r: Option<DexError>)
    ensures r.None? <==> EntryDecodes(b, p)
    ensures r == Some(UnknownTag) <==> p + 12 <= |b| && TypeItemName(U16At(b, p)).None?
    ensures r == Some(NoDecoder) <==> p + 12 <= |b| && TypeItemName(U16At(b, p)).Some? && U16At(b, p) != 0
  {
    if p + 12 > |b| then Some(ShortRead)
    else match Switcher(U16At(b, p))
      case None => Some(UnknownTag)
      case Some((_, decoder)) =>
        if !decoder then Some(NoDecoder)
        else if U32At(b, p + 8) + HeaderLength > |b| then Some(ShortRead)
        else None
  }

  /** `mi` holds the entry at byte `p` and the header it points at, freshly
      read and not yet looked up. */
  predicate EntryAt(mi: MapItem, b: seq<byte>, p: nat, reg: ItemRegistry)
    reads mi.item
  {
    EntryFields(mi, b, p) && HeaderRead(mi.item, b, mi.offset, reg)
  }

  /** The four fields of `mi` are those of the entry at byte `p`, which
      decodes. */
  predicate EntryFields(mi: MapItem, b: seq<byte>, p: nat) {
    && EntryDecodes(b, p) && mi.off == p
    && mi.itemType == U16At(b, p) && mi.unused == U16At(b, p + 2)
    && mi.size == U32At(b, p + 4) && mi.offset == U32At(b, p + 8)
  }

  /** `item` is the header at byte `at`, as `__init__` leaves it. */
  predicate HeaderRead(item: HeaderItem, b: seq<byte>, at: nat, reg: ItemRegistry)
    reads item
  {
    && at + HeaderLength <= |b|
    && item.Valid() && item.registry == reg && item.offset == at
    && item.header == HeaderAt(b, at) && item.Objs() == NoObjects
  }

  /** `MapItem.__init__` as evidently intended: reads the entry, moves the
      cursor to the entry's offset (`set_idx`) and decodes the item there from
      the switcher. */
  method ParseMapItem(c: ByteCode, reg: ItemRegistry) returns (r: Result<MapItem, DexError>)
    modifies c
    ensures r.Ok? <==> MapEntryError(c.buff, old(c.index)).None?
    ensures r.Err? ==> r.error == MapEntryError(c.buff, old(c.index)).value
    ensures r.Ok? ==>
      && fresh(r.value) && fresh(r.value.item) && EntryAt(r.value, c.buff, old(c.index), reg)
      && c.index == r.value.offset + HeaderLength
  {
    var off := c.index;
    var itemType :- NextU16(c);
    var unused :- NextU16(c);
    var size :- NextU32(c);
    var offset :- NextU32(c);
    assert off + 12 <= |c.buff|;
    c.SetIdx(offset);
    match Switcher(itemType)
    case None =>
      return Err(UnknownTag);
    case Some((_, decoder)) =>
      if !decoder {
        return Err(NoDecoder);
      }
      var item :- ParseHeaderItem(c, reg);
      var mi := new MapItem(off, itemType, unused, size, offset, item);
      return Ok(mi);
  }

  /** `MapItem.__init__` as written: after the four fields it calls
      `buff.set_index`, which `ByteCode` does not have. */
  method ParseMapItemAsWritten(c: ByteCode, reg: ItemRegistry) returns (r: Result<MapItem, DexError>)
    modifies c
    ensures r.Err?
    ensures r.error == NoAttribute <==> old(c.index) + 12 <= |c.buff|
    ensures r.error == NoAttribute ==> c.index == old(c.index) + 12
  {
    var itemType :- NextU16(c);
    var unused :- NextU16(c);
    var size :- NextU32(c);
    var offset :- NextU32(c);
    return Err(NoAttribute);
  }

  // ---- MapList ----

  class MapList {
    const offset: int
    const size: u32
    const mapItems: seq<MapItem>

    constructor (offset: int, size: u32, mapItems: seq<MapItem>)
      ensures this.offset == offset && this.size == size && this.mapItems == mapItems
    {
      this.offset := offset;
      this.size := size;
      this.mapItems := mapItems;
    }
  }

  /** Where the `k`-th `map_item` of the list at `off` sits: after the
      four-byte count, twelve bytes each. */
  function EntryOffset(off: nat, k: nat): nat {
    off + 4 + 12 * k
  }

  /** The list at `off` has its count and every entry it counts decodes. */
  predicate MapListDecodes(b: seq<byte>, off: nat) {
    off + 4 <= |b| && forall k :: 0 <= k < U32At(b, off) ==> EntryDecodes(b, EntryOffset(off, k))
  }

  /** `MapList.__init__` as evidently intended: each entry is read where the
      count says it is, by putting the cursor back after each entry (the item
      it points at moves the cursor away), and each is registered. */
  method ParseMapList(c: ByteCode, reg: ItemRegistry, off: nat) returns (r: Result<MapList, DexError>)
    modifies c, reg
    ensures r.Ok? <==> MapListDecodes(c.buff, off)
    ensures r.Ok? ==>
      && fresh(r.value) && r.value.offset == off
      && r.value.size == U32At(c.buff, off) && |r.value.mapItems| == r.value.size
      && (forall k :: 0 <= k < |r.value.mapItems| ==>
            EntryAt(r.value.mapItems[k], c.buff, EntryOffset(off, k), reg))
      && reg.typeItems == old(reg.typeItems) + r.value.mapItems
  {
    c.SetIdx(off);
    var size :- NextU32(c);
    var items :- NextMapItems(c, reg, off, size);
    var list := new MapList(off, size, items);
    return Ok(list);
  }

  /** The entry loop of `MapList.__init__`: `n` entries from the cursor, which
      stands at the first. */
  method NextMapItems(c: ByteCode, reg: ItemRegistry, off: nat, n: nat) returns (r: Result<seq<MapItem>, DexError>)
    requires c.index == EntryOffset(off, 0)
    modifies c, reg
    ensures r.Ok? <==> forall k :: 0 <= k < n ==> EntryDecodes(c.buff, EntryOffset(off, k))
    ensures r.Ok? ==>
      && |r.value| == n
      && (forall k :: 0 <= k < n ==> EntryAt(r.value[k], c.buff, EntryOffset(off, k), reg))
      && reg.typeItems == old(reg.typeItems) + r.value
  {
    var items: seq<MapItem> := [];
    var i := 0;
    while i < n
      invariant 0 <= i <= n && |items| == i
      invariant c.index == EntryOffset(off, i)
      invariant forall k :: 0 <= k < i ==> EntryAt(items[k], c.buff, EntryOffset(off, k), reg)
      invariant reg.typeItems == old(reg.typeItems) + items
    {
      var next := NextMapItem(c, reg);
      if next.Err? {
        assert !EntryDecodes(c.buff, EntryOffset(off, i));
        return Err(next.error);
      }
      items := items + [next.value];
      i := i + 1;
    }
    return Ok(items);
  }

  /** One pass of the entry loop of `MapList.__init__`: decodes the entry at
      the cursor, registers it with `add_type_item` and puts the cursor just
      after the entry. */
  method NextMapItem(c: ByteCode, reg: ItemRegistry) returns (r: Result<MapItem, DexError>)
    modifies c, reg
    ensures r.Ok? <==> EntryDecodes(c.buff, old(c.index))
    ensures r.Err? ==> r.error == MapEntryError(c.buff, old(c.index)).value
    ensures r.Ok? ==>
      && EntryAt(r.value, c.buff, old(c.index), reg)
      && c.index == old(c.index) + 12
      && reg.typeItems == old(reg.typeItems) + [r.value]
  {
    var idx := c.GetIdx();
    var mi :- ParseMapItem(c, reg);
    reg.AddTypeItem(mi);
    c.SetIdx(idx + 12);
    return Ok(mi);
  }

  /** `MapList.__init__` as written: with one entry or more, the loop's first
      statement calls `buff.get_index`, which `ByteCode` does not have. */
  method ParseMapListAsWritten(c: ByteCode, reg: ItemRegistry, off: nat) returns (r: Result<MapList, DexError>)
    modifies c
    ensures r.Ok? <==> off + 4 <= |c.buff| && U32At(c.buff, off) == 0
    ensures r.Err? ==> r.error == if off + 4 <= |c.buff| then NoAttribute else ShortRead
    ensures r.Ok? ==> r.value.mapItems == [] && r.value.offset == off
  {
    c.SetIdx(off);
    var size :- NextU32(c);
    if size > 0 {
      return Err(NoAttribute);
    }
    var list := new MapList(off, size, []);
    return Ok(list);
  }

  /** The entries a cursor that is never put back runs through: `n` entries,
      the first at byte `p`, each next one just past the header the previous
      one points at, all decoding. */
  predicate ChainDecodes(b: seq<byte>, p: nat, n: nat)
    decreases n
  {
    n == 0 || (EntryDecodes(b, p) && ChainDecodes(b, U32At(b, p + 8) + HeaderLength, n - 1))
  }

  /** Each item holds the entry at its own position. */
  predicate OwnEntries(items: seq<MapItem>, b: seq<byte>) {
    forall k :: 0 <= k < |items| ==> 0 <= items[k].off && EntryFields(items[k], b, items[k].off)
  }

  /** Each item after the first sits just past the header its predecessor
      points at. */
  predicate Chained(items: seq<MapItem>) {
    forall k :: 0 < k < |items| ==> items[k].off == items[k - 1].offset + HeaderLength
  }

  /** Appending an item that holds its own entry keeps `OwnEntries`. */
  lemma OwnEntriesSnoc(items: seq<MapItem>, mi: MapItem, b: seq<byte>)
    requires OwnEntries(items, b) && 0 <= mi.off && EntryFields(mi, b, mi.off)
    ensures OwnEntries(items + [mi], b)
  {
    var s := items + [mi];
    forall k | 0 <= k < |s|
      ensures 0 <= s[k].off && EntryFields(s[k], b, s[k].off)
    {
      if k < |items| { assert s[k] == items[k]; } else { assert s[k] == mi; }
    }
  }

  /** Appending an item that sits past the last item's header keeps
      `Chained`. */
  lemma ChainedSnoc(items: seq<MapItem>, mi: MapItem)
    requires Chained(items) && (items != [] ==> mi.off == items[|items| - 1].offset + HeaderLength)
    ensures Chained(items + [mi])
  {
    var s := items + [mi];
    forall k | 0 < k < |s|
      ensures s[k].off == s[k - 1].offset + HeaderLength
    {
      assert s[k - 1] == items[k - 1];
      if k < |items| { assert s[k] == items[k]; } else { assert s[k] == mi; }
    }
  }

  /** `MapList.__init__` with the two missing methods supplied but the cursor
      left where each item's decoding stops: every entry after the first is
      read from just past the header the previous entry points at.  It
      succeeds exactly when that chain of entries decodes. */
  method ParseMapListNoRestore(c: ByteCode, reg: ItemRegistry, off: nat) returns (r: Result<MapList, DexError>)
    modifies c, reg
    ensures r.Ok? <==> off + 4 <= |c.buff| && ChainDecodes(c.buff, EntryOffset(off, 0), U32At(c.buff, off))
    ensures r.Ok? ==>
      && off + 4 <= |c.buff| && |r.value.mapItems| == U32At(c.buff, off)
      && (|r.value.mapItems| > 0 ==> r.value.mapItems[0].off == EntryOffset(off, 0))
      && OwnEntries(r.value.mapItems, c.buff) && Chained(r.value.mapItems)
  {
    c.SetIdx(off);
    var size :- NextU32(c);
    var items :- NextChainedItems(c, reg, size);
    ChainFromShape(items, c.buff, EntryOffset(off, 0), c.index);
    var list := new MapList(off, size, items);
    return Ok(list);
  }

  /** The entry loop of `MapList.__init__` with the missing methods supplied:
      `n` entries, the first at the cursor, each next one wherever the
      previous item's decoding left the cursor. */
  method NextChainedItems(c: ByteCode, reg: ItemRegistry, n: nat) returns (r: Result<seq<MapItem>, DexError>)
    modifies c, reg
    ensures r.Ok? <==> ChainDecodes(c.buff, old(c.index), n)
    ensures r.Ok? ==> |r.value| == n && ChainFrom(r.value, c.buff, old(c.index), c.index)
  {
    var items: seq<MapItem> := [];
    var i := 0;
    ghost var whole := ChainDecodes(c.buff, c.index, n);
    ghost var start := c.index;
    while i < n
      invariant 0 <= i <= n && |items| == i
      invariant ChainFrom(items, c.buff, start, c.index)
      invariant whole <==> ChainDecodes(c.buff, c.index, n - i)
    {
      var next := NextChainedItem(c, reg, items, start, n - i);
      if next.Err? {
        assert !whole;
        return Err(next.error);
      }
      items := items + [next.value];
      i := i + 1;
    }
    return Ok(items);
  }

  /** `items` were read as a chain from byte `start`, and `at` is just past
      the header the last of them points at (`start` itself when there are
      none): the last item holds the entry at its own position, and the
      items before it are a chain ending where the last one sits. */
  predicate ChainFrom(items: seq<MapItem>, b: seq<byte>, start: nat, at: int)
    decreases |items|
  {
    if items == [] then at == start
    else
      var last := items[|items| - 1];
      && 0 <= last.off && EntryFields(last, b, last.off) && at == last.offset + HeaderLength
      && ChainFrom(items[..|items| - 1], b, start, last.off)
  }

  /** A chain from `start` begins at `start`, and each of its items holds
      its own entry and sits just past the header its predecessor points
      at. */
  lemma {:induction false} ChainFromShape(items: seq<MapItem>, b: seq<byte>, start: nat, at: int)
    requires ChainFrom(items, b, start, at)
    ensures OwnEntries(items, b) && Chained(items)
    ensures items != [] ==> items[0].off == start
    decreases |items|
  {
    if items != [] {
      var init, last := items[..|items| - 1], items[|items| - 1];
      ChainFromShape(init, b, start, last.off);
      OwnEntriesSnoc(init, last, b);
      ChainedSnoc(init, last);
      assert init + [last] == items;
      if init != [] {
        assert items[0] == init[0];
      }
    }
  }

  /** One pass of the entry loop with the missing methods supplied: decodes
      and registers the entry at the cursor and leaves the cursor just past
      the header the entry points at.  A chain of `n` entries from the cursor
      decodes iff this entry does and `n - 1` more follow. */
  method NextChainedItem(c: ByteCode, reg: ItemRegistry, ghost items: seq<MapItem>, ghost start: nat, ghost n: nat)
    returns (r: Result<MapItem, DexError>)
    requires n > 0 && ChainFrom(items, c.buff, start, c.index)
    modifies c, reg
    ensures r.Err? ==> !ChainDecodes(c.buff, old(c.index), n)
    ensures r.Ok? ==>
      && ChainFrom(items + [r.value], c.buff, start, c.index)
      && (ChainDecodes(c.buff, old(c.index), n) <==> ChainDecodes(c.buff, c.index, n - 1))
  {
    var mi :- ParseMapItem(c, reg);
    reg.AddTypeItem(mi);
    assert (items + [mi])[..|items|] == items;
    return Ok(mi);
  }

  /** A header of zeros at byte 0, a stray entry at 112, and at 124 a list
      counting two entries at 128 and 140.  Each entry has type 0 (a header),
      size 1 and offset 0. */
  function NoRestoreBuffer(): (b: seq<byte>)
    ensures |b| == 152
  {
    seq(152, i => if i == 116 || i == 132 || i == 144 then 1 else if i == 124 then 2 else 0)
  }

  /** On `NoRestoreBuffer`, the corrected list reads its second entry at byte
      140; without putting the cursor back it is read at 112, just past the
      header the first entry points at. */
  method NoRestoreMisreadsSecondEntry(lookup: int -> Option<Item>) returns (fixedOff: int, noRestoreOff: int)
    ensures fixedOff == 140 && noRestoreOff == 112
  {
    var b := NoRestoreBuffer();
    NoRestoreLists();
    fixedOff := SecondEntryOff(b, lookup, 124);
    noRestoreOff := SecondEntryOffNoRestore(b, lookup, 124);
  }

  /** The corrected list at `off` holding two entries reads its second one
      twelve bytes after the first. */
  method SecondEntryOff(b: seq<byte>, lookup: int -> Option<Item>, off: nat) returns (second: int)
    requires MapListDecodes(b, off) && U32At(b, off) == 2
    ensures second == EntryOffset(off, 1) == off + 16
  {
    var c := new ByteCode(b);
    var reg := new ItemRegistry(lookup);
    var list := ParseMapList(c, reg, off);
    assert EntryAt(list.value.mapItems[1], b, EntryOffset(off, 1), reg);
    second := list.value.mapItems[1].off;
  }

  /** Without putting the cursor back, the list at `off` holding two entries
      reads its second one just past the header the first one points at,
      wherever that is. */
  method SecondEntryOffNoRestore(b: seq<byte>, lookup: int -> Option<Item>, off: nat) returns (second: int)
    requires off + 4 <= |b| && ChainDecodes(b, EntryOffset(off, 0), 2) && U32At(b, off) == 2
    ensures second == U32At(b, EntryOffset(off, 0) + 8) + HeaderLength
  {
    var c := new ByteCode(b);
    var reg := new ItemRegistry(lookup);
    var list := ParseMapListNoRestore(c, reg, off);
    var items := list.value.mapItems;
    assert EntryFields(items[0], b, EntryOffset(off, 0));
    second := items[1].off;
  }

  /** The list at 124 of `NoRestoreBuffer` decodes both ways: its two
      entries at 128 and 140, and the chain from 128 whose second entry is at
      112.  Each entry points at byte 0. */
  lemma NoRestoreLists()
    ensures U32At(NoRestoreBuffer(), 124) == 2
    ensures MapListDecodes(NoRestoreBuffer(), 124)
    ensures ChainDecodes(NoRestoreBuffer(), EntryOffset(124, 0), 2)
    ensures U32At(NoRestoreBuffer(), 136) == 0
  {
    var b := NoRestoreBuffer();
    CountField();
    assert EntryDecodes(b, 112) && U32At(b, 120) == 0 by { HeaderEntry(112); }
    assert EntryDecodes(b, 128) && U32At(b, 136) == 0 by { HeaderEntry(128); }
    assert EntryDecodes(b, 140) by { HeaderEntry(140); }
    assert ChainDecodes(b, 112, 1);
    assert ChainDecodes(b, 128, 2);
    forall k | 0 <= k < U32At(b, 124)
      ensures EntryDecodes(b, EntryOffset(124, k))
    {
    }
  }

  /** Little-endian zeros read as 0. */
  lemma {:induction false} ZerosValue(s: seq<byte>)
    requires forall k :: 0 <= k < |s| ==> s[k] == 0
    ensures LeValue(s) == 0
  {
    if s != [] {
      ZerosValue(s[1..]);
    }
  }

  /** The list at 124 of `NoRestoreBuffer` counts two entries. */
  lemma CountField()
    ensures U32At(NoRestoreBuffer(), 124) == 2
  {
    var s := NoRestoreBuffer()[124..128];
    ZerosValue(s[1..]);
  }

  /** The entries of `NoRestoreBuffer` are header entries pointing at byte 0. */
  lemma HeaderEntry(p: nat)
    requires p == 112 || p == 128 || p == 140
    ensures EntryDecodes(NoRestoreBuffer(), p) && U32At(NoRestoreBuffer(), p + 8) == 0
  {
    var b := NoRestoreBuffer();
    var tag, target := b[p..p + 2], b[p + 8..p + 12];
    assert forall k :: 0 <= k < 2 ==> tag[k] == b[p + k] == 0;
    assert forall k :: 0 <= k < 4 ==> target[k] == b[p + 8 + k] == 0;
    ZerosValue(tag);
    ZerosValue(target);
  }
}
