# Apk_utils Dalvik codec and DEX records, modelled in Dafny

This project models the core of the Apk_utils disassembler:

- **The Dalvik instruction codec** (`apk_utils/instruction.py`):
  - every fixed-size `Instruction*` format class, with the fields its constructor reads, the bytes `get_raw` writes back, `get_length` and `get_operands`;
  - the three variable-length payloads (`FillArrayData`, `SparseSwitch`, `PackedSwitch`);
  - the module-level `get_kind` that renders a reference operand;
  - the opcode tables (`DALVIK_OPCODES_FORMAT`, `DALVIK_OPCODES_EXTENDED_WIDTH`, `DALVIK_OPCODES_OPTIMIZED`, `DALVIK_OPCODES_PAYLOAD`, `INLINE_METHODS`) and the table choice made by `Instruction.get_name`/`get_kind`.
- **The byte cursor** `ByteCode` (`apk_utils/options.py`): a fixed buffer with a movable read index.
- **The fixed-layout DEX records** (`apk_utils/dexFile.py`):
  - `TYPE_ITEM`;
  - `HeaderItem`: the 112-byte `header_item`, its memoised section lookups and the rewrite and repack done by `get_obj`;
  - `MapItem` and `MapList`: the `map_list` directory.

Files and modules:

| file | module | contents |
|---|---|---|
| `wrappers.dfy` | `Wrappers` | `Option` and `Result`, used for every place the source raises |
| `bytes.dfy` | `Bytes` | `struct` `"="` fields as little-endian integers; the masks, shifts and `|` joins of code units |
| `bytecode.dfy` | `Cursor` | the `ByteCode` class |
| `instructions.dfy` | `Instructions` | fixed formats: `Decode`, `Encode`, `Length`, both round trips |
| `opcodes.dfy` | `Opcodes` | the opcode tables and their lookup |
| `text.dfy` | `Text` | `%x`, `%02x` and `repr` of `str`/`bytes`, each with a parser that reads it back |
| `kinds.dfy` | `Kinds` | `get_kind(cm, kind, value)` |
| `operands.dfy` | `Operands` | `get_operands()` of every class |
| `payloads.dfy` | `Payloads` | the three payloads |
| `dexfile.dfy` | `DexFile` | `HeaderItem`, `MapItem`, `MapList` |

How the model is built:

- Pure code (constructors, `get_raw`, `get_length`, the tables, `get_kind`) is modelled as datatypes, functions and lemmas.
- Code that loops or changes state is modelled as classes and methods, each proved against a specification function. This covers:
  - the payload constructors' loops;
  - the range forms' operand loop;
  - `ByteCode`;
  - `HeaderItem`, `MapItem` and `MapList`;
  - `add_note`.
- An exception the source raises becomes `None` or an `Err`:
  - a short `struct.unpack` (`ShortRead`);
  - a missing key or index (`UnknownTag`, `NoDecoder`);
  - a missing attribute (`NoAttribute`);
  - a value `pack` refuses (`PackRange`).

## Model

| member | source | states |
|---|---|---|
| Cursor.Slice | apk_utils/options.py:68-72 | `buff[i:j]` with Python's clamping: its length is `min(j, len) - i` when `i <= j` and `i <= len`, otherwise 0, and the slice holds the buffer's bytes from `i` |
| Cursor.SliceInside | apk_utils/options.py:68-72 | a slice that fits in the buffer is the plain subsequence |
| Cursor.SliceJoin | apk_utils/options.py:68-72 | two adjacent clamped slices join into the clamped slice over both |
| Cursor.ByteCode.constructor | apk_utils/options.py:64-66 | a fresh cursor holds the given buffer at index 0 |
| Cursor.ByteCode.Read | apk_utils/options.py:68-72 | `read(size)` returns the clamped slice from the index, and the index moves by `size` even past the end |
| Cursor.ByteCode.ReadAt | apk_utils/options.py:74-75 | `readat(off)` is the suffix from `off` and leaves the index alone |
| Cursor.ByteCode.SetIdx | apk_utils/options.py:77-78 | `set_idx(k)` sets the index to `k` |
| Cursor.ByteCode.GetIdx | apk_utils/options.py:80-81 | `get_idx()` is the index, and nothing changes |
| Cursor.ByteCode.GetBuff | apk_utils/options.py:83-84 | `get_buff()` is the buffer, which never changes |
| Cursor.ByteCode.LenBuff | apk_utils/options.py:86-87 | `len_buff()` is the buffer's length |
| Cursor.ReadTwice | apk_utils/options.py:68-72 | `read(a)` then `read(b)` returns what one `read(a + b)` from the same start returns, and leaves the same index |
| Cursor.SeekThenTell | apk_utils/options.py:77-81 | `set_idx(k)` followed by `get_idx()` reports `k` |
| Bytes.LeValueOfLeBytes | apk_utils/dexFile.py:117-139 | packing a value into `n` little-endian bytes and unpacking gives the value back |
| Bytes.LeBytesOfLeValue | apk_utils/dexFile.py:33-55 | unpacking `n` bytes and packing the value gives the same bytes back |
| Bytes.FromSignedOfToSigned | apk_utils/dexFile.py:34 | the two's-complement reading of a field (`"=i"`) can be undone |
| Bytes.UAtUBytes | apk_utils/dexFile.py:33-55 | an unsigned field read from where its encoding sits gives its value |
| Bytes.UBytesUAt | apk_utils/dexFile.py:117-139 | re-encoding an unsigned field gives the bytes it was read from |
| Bytes.SAtSBytes | apk_utils/instruction.py:1086-1093 | a signed field read from where its encoding sits gives its value |
| Bytes.SBytesSAt | apk_utils/instruction.py:1126-1127 | re-encoding a signed field gives the bytes it was read from |
| Bytes.UnpackJoinSigned448 | apk_utils/instruction.py:713-721 | masking and arithmetic shifting of a unit built from a signed top nibble, a nibble and a byte give back those three parts (11n's `B`, `A` and `OP`) |
| Bytes.RepackJoinSigned448 | apk_utils/instruction.py:737-738 | rejoining the signed top nibble, the next nibble and the low byte of a signed unit gives the unit back |
| Bytes.SignedUnitFields | apk_utils/instruction.py:713-721 | masking the `"=h"` reading of a unit gives the same byte and nibbles as masking its `"=H"` reading |
| Instructions.FormatOf | apk_utils/instruction.py:538-1926 | each constructor's format class, in the layout group of that constructor |
| Instructions.FormatLength | apk_utils/instruction.py:538-1926 | `get_length` of every format is a whole number of code units, from 2 to 10 bytes |
| Instructions.LayoutsPartition | apk_utils/instruction.py:538-1926 | every format class belongs to exactly one byte layout |
| Instructions.Decode | apk_utils/instruction.py:538-1926 | the constructor of format `f`, with the 21h floating-point view corrected, succeeds exactly when the buffer holds `get_length` bytes; it then gives an instruction of format `f` whose fields are in the ranges the masks and reads produce |
| Instructions.DecodeAsWritten | apk_utils/instruction.py:662-682 | the constructors as written: a short buffer fails, and so does 21h for opcodes 0x15 and 0x19 (`TypeError`); every other decode agrees with `Decode` |
| Instructions.ConstHigh16AsWrittenRaises | apk_utils/instruction.py:677-682 | `15 00 00 40` reads as `const/high16 v0, 0x4000` when corrected and raises `TypeError` as written |
| Instructions.NoHigh16Built | apk_utils/instruction.py:677-682 | as written, every buffer whose opcode the classical table gives format 21h makes the constructor raise |
| Instructions.Encode | apk_utils/instruction.py:538-1926 | `get_raw()` writes exactly `get_length()` bytes |
| Instructions.DecodeEncode | apk_utils/instruction.py:538-1926 | constructing an instruction's format from the bytes its `get_raw` wrote, whatever follows them, gives back the same instruction |
| Instructions.EncodeDecode | apk_utils/instruction.py:538-1926 | writing back what the constructor read gives the bytes it covered, if and only if the format keeps the first unit's high byte or that byte is zero |
| Instructions.DecodeEncodeFive | apk_utils/instruction.py:570-636 | 35c/35mi/35ms `get_raw` puts `OP, G, A, BBBB, C, D, E, F` where the constructor reads them |
| Instructions.EncodeDecodeFive | apk_utils/instruction.py:570-636 | 35c/35mi/35ms rewrite their three code units exactly as read |
| Instructions.EncodeDecodeRange | apk_utils/instruction.py:1418-1470 | 3rc/3rmi/3rms `get_raw` stores only count, index and first register, rebuilding the units as read |
| Instructions.LowByteAlone | apk_utils/instruction.py:637-661 | writing back only the first unit's low byte, as `pack("=H", OP)` does for 10x, 20t, 30t, 32x and the invalid form, restores the unit exactly when its high byte is zero |
| Instructions.EncodeDecode22b | apk_utils/instruction.py:1352-1385 | 22b rewrites its four bytes as read |
| Instructions.EncodeDecode23x | apk_utils/instruction.py:1160-1191 | 23x rewrites its four bytes as read |
| Instructions.EncodeDecodeNibblePair | apk_utils/instruction.py:828-899 | 22c and 22cs rewrite their four bytes as read |
| Instructions.EncodeDecodeSignedNibblePair | apk_utils/instruction.py:1286-1351 | 22t and 22s, whose second code unit is signed, rewrite their four bytes as read |
| Instructions.EncodeDecode30t | apk_utils/instruction.py:1386-1417 | 30t rewrites its six bytes exactly when the first unit's high byte is zero |
| Instructions.EncodeDecode31c | apk_utils/instruction.py:932-978 | 31c rewrites its six bytes as read |
| Instructions.EncodeDecodeSigned31 | apk_utils/instruction.py:1082-1129 | 31i and 31t rewrite their six bytes as read |
| Instructions.EncodeDecode51l | apk_utils/instruction.py:1036-1081 | 51l rewrites its ten bytes as read |
| Instructions.EncodeDecodeWide3 | apk_utils/instruction.py:1770-1840 | 41c and 40sc rewrite their eight bytes as read |
| Instructions.EncodeDecodeWide4 | apk_utils/instruction.py:1841-1926 | 52c and 5rc rewrite their ten bytes as read |
| Opcodes.KindCode | apk_utils/instruction.py:3-11 | each kind's numeric code lies in 0..8 |
| Opcodes.KindOfCode | apk_utils/instruction.py:3-11 | a code names a kind exactly when it is in 0..8, and then that kind has that code |
| Opcodes.KindCodeRoundTrip | apk_utils/instruction.py:3-11 | a kind's code names that kind |
| Opcodes.ClassicalShape | apk_utils/instruction.py:1927-2217 | every classical opcode 0x00..0xfe has a one-byte-opcode format, and it has a kind exactly when its format has a reference operand |
| Opcodes.MovesAndConstants | apk_utils/instruction.py:1928-1953 | the same for opcodes 0x00..0x19 |
| Opcodes.High16Opcodes | apk_utils/instruction.py:1949-1953 | the classical table gives format 21h to exactly 0x15 and 0x19 |
| Opcodes.ObjectsAndBranches | apk_utils/instruction.py:1954-2004 | the same for opcodes 0x1a..0x43 |
| Opcodes.ArithmeticAndFields | apk_utils/instruction.py:2006-2216 | the same for opcodes 0x44..0xfe |
| Opcodes.ExtendedShape | apk_utils/instruction.py:2253-2300 | every jumbo opcode 0x00ff..0x26ff has a whole-unit format, with a kind exactly when the format has a reference operand |
| Opcodes.OptimizedShape | apk_utils/instruction.py:2302-2318 | the same for the optimized opcodes 0xf2ff..0xffff |
| Opcodes.Lookup | apk_utils/instruction.py:432-454 | the corrected table choice finds an entry exactly for a one-byte opcode other than 0xff, or for a unit ending in 0xff in the jumbo or optimized range, and the entry comes from one of the three tables |
| Opcodes.GetName | apk_utils/instruction.py:444-454 | `get_name` is defined exactly when the lookup finds an entry, and is that entry's mnemonic |
| Opcodes.Entry | apk_utils/instruction.py:432-442 | a found entry has a kind exactly when its format has a reference operand |
| Opcodes.GetKind | apk_utils/instruction.py:432-442 | `get_kind` gives a kind exactly when the entry exists and its format has a reference operand |
| Opcodes.EntryOfLookup | apk_utils/instruction.py:432-454 | `get_kind` reports the kind of the same entry `get_name` finds |
| Opcodes.PayloadDomain | apk_utils/instruction.py:2219-2223 | the payload table is keyed exactly by 0x0100, 0x0200 and 0x0300 |
| Opcodes.LookupFindsEveryEntry | apk_utils/instruction.py:1927-2318 | the lookup finds every entry of every table under its own key, so the three key sets do not clash |
| Opcodes.TableFormats | apk_utils/instruction.py:1927-2318 | classical entries use one-byte-opcode formats, and the two-byte tables use whole-unit formats; an entry has a kind exactly when its format has a reference operand |
| Opcodes.LookupAsWrittenMisses00ff | apk_utils/instruction.py:444-454 | the table choice as written misses the jumbo key 0x00ff (`const-class/jumbo`) and agrees with the corrected one everywhere else |
| Text.HexDigit | apk_utils/instruction.py:410-413 | a digit value is written as one lower-case hex digit, and only 0 is written `0` |
| Text.DigitValueOfHexDigit | apk_utils/instruction.py:410-413 | reading a written digit gives its value |
| Text.DigitValue | apk_utils/instruction.py:410-413 | a character has a digit value exactly when it is a lower-case hex digit, and that value is below 16 |
| Text.Hex | apk_utils/instruction.py:410-413 | `"%x" % n` is a non-empty run of hex digits with no leading zero |
| Text.HexValueOfHex | apk_utils/instruction.py:410-413 | reading `"%x" % n` back gives `n` |
| Text.HexInjective | apk_utils/instruction.py:410-413 | different numbers are written differently |
| Text.Hex2 | apk_utils/instruction.py:88-89 | the `\xNN` escape `repr` writes for a byte holds two hex digits |
| Text.Hex2Value | apk_utils/instruction.py:88-89 | the two digits of the `\xNN` escape are the byte's high and low nibble |
| Text.QuoteFor | apk_utils/instruction.py:397-398 | `repr` quotes with `'` or `"` |
| Text.EscapeChar | apk_utils/instruction.py:397-398 | every character is written as at least one character |
| Text.ReprStr | apk_utils/instruction.py:397-398 | `repr` of a `str` is quoted at both ends with the same quote |
| Text.UnescapeChar | apk_utils/instruction.py:397-398 | one escaped character is read back ahead of whatever follows it |
| Text.UnescapeEscapeStr | apk_utils/instruction.py:397-398 | the escaped inside of a `str` rendering reads back to the string |
| Text.ParseReprStrOfReprStr | apk_utils/instruction.py:397-398 | `repr` of a `str` can be read back to the same string |
| Text.EscapeByte | apk_utils/instruction.py:88-89 | every byte is written as at least one character |
| Text.ReprBytes | apk_utils/instruction.py:88-89 | `repr` of `bytes` is `b` followed by a quoted rendering |
| Text.UnescapeByte | apk_utils/instruction.py:88-89 | one escaped byte is read back ahead of whatever follows it |
| Text.UnescapeEscapeBytes | apk_utils/instruction.py:88-89 | the escaped inside of a `bytes` rendering reads back to the bytes |
| Text.ParseReprBytesOfReprBytes | apk_utils/instruction.py:88-89 | `repr` of `bytes` can be read back to the same bytes |
| Kinds.GetKindText | apk_utils/instruction.py:376-427 | `get_kind` gives text exactly for the kind codes it handles (not VARIES, not unknown codes). Raw strings and types are the class manager's text; a method is `class->name` then its descriptor, and a field `class->name proto`, from the class manager's records. A string kind is a `repr` that reads back to the class manager's string |
| Kinds.OffsetTextsDetermineValue | apk_utils/instruction.py:410-424 | two values with the same `vtable[0x..]`, `field[0x..]` or `inline[0x..]` text are equal |
| Kinds.InlineTextShape | apk_utils/instruction.py:416-424 | `INLINE_METHODS` has 22 entries, and an inline slot's text carries `class->name descriptor` after `inline[0x..]` exactly when the slot is below 22 |
| Kinds.SplitAtBracket | apk_utils/instruction.py:410-413 | a hex number followed by `]` splits off uniquely |
| Operands.Tag | apk_utils/instruction.py:13-17 | an operand's tag is at least `OPERAND_KIND` exactly for a reference, and then the tag minus `OPERAND_KIND` names its kind |
| Operands.TagsDistinguish | apk_utils/instruction.py:13-17 | the tag alone tells the operand's sort, and for a reference its kind |
| Operands.FiveOperandsArePrefix | apk_utils/instruction.py:609-626 | the five-register list is the first `A` of `C, D, E, F, G` and then the reference, for counts 1..5 (35c also 0); any other count gives the empty list |
| Operands.CollectRegisters | apk_utils/instruction.py:1457-1461 | the `for i in range(CCCC, NNNN)` loop collects the registers `CCCC .. NNNN - 1` in order |
| Operands.RangeOperandsLoop | apk_utils/instruction.py:1451-1463 | the range forms' `get_operands` body builds the list the as-written definition gives |
| Operands.RangeOperandsCover | apk_utils/instruction.py:1433 | with `NNNN = CCCC + AA - 1`, the corrected list names the `AA` registers from `CCCC` in order, then the reference |
| Operands.RangeOperandsAsWrittenDropLast | apk_utils/instruction.py:1451-1463 | as written, a range of two or more registers loses its last one; ranges of none or one come out right |
| Operands.RangeOperandsCounterexample | apk_utils/instruction.py:1451-1463 | `{v4 .. v6}` is listed as `v4, v5` as written, and as `v4, v5, v6` once corrected |
| Operands.Need | apk_utils/instruction.py:432-442 | `self.get_kind()` succeeds exactly when the opcode's entry has a kind |
| Operands.GetOperands | apk_utils/instruction.py:538-1926 | `get_operands()`, corrected, is sound. It fails exactly when the format needs its opcode's kind and the entry has none. Otherwise the list is empty exactly for invalid, 10x and out-of-range counts; only the last operand may be a reference, and it carries the opcode's kind, the `get_ref_kind()` index and the `get_kind` text |
| Operands.OperandsWith | apk_utils/instruction.py:538-1926 | the same soundness for any table kind |
| Operands.GetOperandsAsWritten | apk_utils/instruction.py:538-1926 | as written, `get_operands()` fails exactly when a needed kind is missing or the format is 5rc; off the range forms it agrees with the corrected one |
| Operands.AsWrittenWith | apk_utils/instruction.py:538-1926 | the same for any table kind |
| Operands.FiveRegisterOperands | apk_utils/instruction.py:609-626 | a 35c instruction lists the first `A` of `C, D, E, F, G` and then its `BBBB` reference; `A > 5` lists nothing |
| Operands.RangeInstructionOperands | apk_utils/instruction.py:1451-1463 | a 3rc instruction lists `AA` registers from `CCCC`, then the `BBBB` reference; as written the last register is missing once `AA >= 2` |
| Operands.PayloadOperands | apk_utils/instruction.py:88-89 | fill-array-data lists one raw operand, the `repr` of its data, which reads back to the data; the switch payloads list nothing |
| Payloads.Words | apk_utils/instruction.py:146-154 | `n` consecutive `"=l"` reads give `n` words |
| Payloads.WordsBytes | apk_utils/instruction.py:248-249 | packing words gives four bytes per word |
| Payloads.WordsOfWordsBytes | apk_utils/instruction.py:146-154 | reading back packed words gives them, whatever surrounds them |
| Payloads.WordsBytesOfWords | apk_utils/instruction.py:248-249 | packing the words read gives the bytes they came from |
| Payloads.ReadWords | apk_utils/instruction.py:146-150 | the read loop yields exactly the words at consecutive offsets |
| Payloads.TryReadWords | apk_utils/instruction.py:275-277 | on a buffer that may end early the loop succeeds exactly when all `n` words fit, and then yields them |
| Payloads.DataLength | apk_utils/instruction.py:33-35 | `buf_len` is `size * element_width` rounded up to even |
| Payloads.FillArrayDataOf | apk_utils/instruction.py:25-37 | the constructor succeeds exactly when the 8-byte header fits; `data` is at most `buf_len` bytes, exactly `buf_len` when they fit, and is the buffer from byte 8 |
| Payloads.FillArrayLength | apk_utils/instruction.py:120-126 | corrected `get_length` is 8 plus the rounded data length |
| Payloads.FillArrayLengthAsWrittenOff | apk_utils/instruction.py:120-126 | as written the length is `size * element_width + 9`, which is right only when the data length is odd |
| Payloads.FillArrayLengthCounterexample | apk_utils/instruction.py:120-126 | width 2 and two elements give 13.0 as written and 12 corrected |
| Payloads.FillArrayRaw | apk_utils/instruction.py:128-129 | `get_raw` writes eight header bytes and the data |
| Payloads.FillArrayDecodeRaw | apk_utils/instruction.py:25-129 | decoding what `get_raw` wrote gives the payload back, and `get_length` is the number of bytes written |
| Payloads.FillArrayRawOfDecode | apk_utils/instruction.py:25-129 | `get_raw` of a decoded payload gives back the bytes it was read from |
| Payloads.SparseSwitchOf | apk_utils/instruction.py:137-154 | the constructor succeeds exactly when the header and `2 * size` words fit, and yields `size` keys and `size` targets |
| Payloads.ParseSparseSwitch | apk_utils/instruction.py:137-154 | the two loops compute the constructor's result |
| Payloads.SparseRaw | apk_utils/instruction.py:248-249 | `get_raw` writes 4 bytes plus four per key and four per target |
| Payloads.SparseDecodeRaw | apk_utils/instruction.py:131-250 | decoding what `get_raw` wrote gives the payload back, and `get_length` (`4 + 8 * size`) is the number of bytes written |
| Payloads.SparseRawOfDecode | apk_utils/instruction.py:131-250 | `get_raw` of a decoded payload gives back the `get_length` bytes it was read from |
| Payloads.SparseRawOfWords | apk_utils/instruction.py:131-250 | ident, size, keys and targets repacked give the first `4 + 8 * size` bytes |
| Payloads.PackedCount | apk_utils/instruction.py:266-277 | the corrected number of targets read is `size` if they fit, otherwise the most that fit |
| Payloads.PackedSwitchOf | apk_utils/instruction.py:258-277 | the corrected constructor succeeds exactly when the 8-byte header fits |
| Payloads.ParsePackedSwitch | apk_utils/instruction.py:258-277 | the target loop computes the corrected constructor's result |
| Payloads.PackedAgreesOnCompleteBuffers | apk_utils/instruction.py:266-277 | when every announced target fits, the constructor as written and the corrected one agree and read `size` targets |
| Payloads.PackedClampCounterexample | apk_utils/instruction.py:266-277 | five targets announced in a 20-byte buffer raise as written; the corrected constructor reads the three that fit |
| Payloads.PackedKeys | apk_utils/instruction.py:304-310 | there is one key per target, counting up from `first_key` |
| Payloads.PackedRaw | apk_utils/instruction.py:373-374 | `get_raw` writes 8 bytes and four per target |
| Payloads.PackedDecodeRaw | apk_utils/instruction.py:252-374 | decoding what `get_raw` wrote gives the payload back, and `get_length` (`8 + 4 * size`) is the number of bytes written |
| Payloads.PackedRawOfDecode | apk_utils/instruction.py:252-374 | `get_raw` of a decoded payload gives back the bytes it was read from |
| Payloads.SparseRawAsWritten | apk_utils/instruction.py:248-249 | as written `get_raw` always raises a `TypeError`: from `''.join` of `bytes` when there are keys, from `bytes + ''` when there are none |
| Payloads.PackedRawAsWritten | apk_utils/instruction.py:373-374 | as written `get_raw` always raises a `TypeError`, which of the two depending on whether there are targets |
| Payloads.DecodePayload | apk_utils/instruction.py:2219-2223 | a payload decodes only when its ident is a key of the payload table, and it keeps that ident |
| Payloads.DecodePayloadRaw | apk_utils/instruction.py:2219-2223 | a well-formed payload's bytes decode back to it through the table, and their number is its `get_length` |
| Payloads.PayloadInstruction.AddNote | apk_utils/instruction.py:39-46 | `add_note` appends the message to the notes |
| DexFile.TypeItemName | apk_utils/dexFile.py:6-25 | `TYPE_ITEM` has a name exactly for tags 0..6, 0x1000..0x1003 and 0x2000..0x2006 |
| DexFile.Switcher | apk_utils/dexFile.py:169-188 | the switcher has exactly `TYPE_ITEM`'s keys and names, and a decoder class only for tag 0 |
| DexFile.NextBytes | apk_utils/dexFile.py:35 | `unpack("=20s", read(20))` succeeds exactly when the bytes are there, and the index moves by the size either way |
| DexFile.NextU16 | apk_utils/dexFile.py:195-196 | `unpack("=H", read(2))` is the field at the index, or a short read; the index moves by 2 |
| DexFile.NextU32 | apk_utils/dexFile.py:197-198 | the same for `"=I"` and 4 bytes |
| DexFile.NextS32 | apk_utils/dexFile.py:34 | the same for `"=i"` |
| DexFile.NextU64 | apk_utils/dexFile.py:33 | the same for `"=Q"` and 8 bytes |
| DexFile.Fields | apk_utils/dexFile.py:36-55 | `n` fields, the `k`-th being the `"=I"` field at `start + 4k` |
| DexFile.FieldsBytes | apk_utils/dexFile.py:120-139 | packing fields gives four bytes per field |
| DexFile.NextFields | apk_utils/dexFile.py:36-55 | the run of `"=I"` reads succeeds exactly when all fit, and yields the fields from the start |
| DexFile.FieldsOfFieldsBytes | apk_utils/dexFile.py:36-55 | reading back packed fields gives them, whatever surrounds them |
| DexFile.FieldsBytesOfFields | apk_utils/dexFile.py:120-139 | packing the fields read gives the bytes they came from |
| DexFile.HeaderAt | apk_utils/dexFile.py:33-55 | the header read from byte `i` is packable: a 20-byte signature and unsigned 32-bit words |
| DexFile.HeaderBytes | apk_utils/dexFile.py:117-139 | packing a header gives 112 bytes |
| DexFile.HeaderAtOfBytes | apk_utils/dexFile.py:117-139 | reading a header back from its packed bytes, wherever they sit, gives it back |
| DexFile.HeaderBytesOfHeaderAt | apk_utils/dexFile.py:117-139 | packing the header read from byte `i` gives the 112 bytes it was read from |
| DexFile.Refresh | apk_utils/dexFile.py:94-115 | the rewrites never touch magic, checksum, signature, file size, header size, endian tag or the link fields; they fail exactly when an object lacks what is asked of it |
| DexFile.RefreshOfReports | apk_utils/dexFile.py:94-115 | when the objects report the header's own sizes and offsets, the rewrite changes nothing |
| DexFile.RefreshIdempotent | apk_utils/dexFile.py:94-115 | after a successful rewrite the objects report the new header, so a second rewrite changes nothing more |
| DexFile.Fill | apk_utils/dexFile.py:69-92 | a filled memo slot is kept, and an empty one gets the lookup by the header's offset for it |
| DexFile.FillSettles | apk_utils/dexFile.py:69-92 | once every slot is filled, later memo steps change nothing, so each object is fetched at most once |
| DexFile.FillFills | apk_utils/dexFile.py:69-92 | all slots end up filled exactly when every empty one has a lookup that finds something |
| DexFile.ItemRegistry.AddTypeItem | apk_utils/dexFile.py:226 | `add_type_item` appends the entry to the register |
| DexFile.HeaderItem.constructor | apk_utils/dexFile.py:28-64 | a new header item has the given offset and fields, and all eight memo slots are empty |
| DexFile.HeaderItem.FetchObjects | apk_utils/dexFile.py:69-92 | the memo steps fill the slots as `Fill` says and change no header field |
| DexFile.HeaderItem.GetObj | apk_utils/dexFile.py:69-139 | `get_obj()` fills the slots, rewrites the header as `Refresh` says, and returns its 112 packed bytes. It fails when an object lacks what is asked of it, or when `pack` refuses a field |
| DexFile.HeaderItem.GetRaw | apk_utils/dexFile.py:141-142 | `get_raw()` is `get_obj()` |
| DexFile.HeaderItem.GetLength | apk_utils/dexFile.py:144-145 | `get_length()` is 112 whenever `get_raw()` succeeds |
| DexFile.HeaderItem.SetOff | apk_utils/dexFile.py:161-162 | `set_off` sets the offset and nothing else |
| DexFile.HeaderItem.GetOff | apk_utils/dexFile.py:164-165 | `get_off` is the offset |
| DexFile.NextHeader | apk_utils/dexFile.py:33-55 | the 23 reads succeed exactly when 112 bytes are left; they consume 112 bytes and give the header at the old index |
| DexFile.ParseHeaderItem | apk_utils/dexFile.py:28-64 | `__init__` records the cursor index as the offset and consumes the 112-byte header, or fails with a short read; no section object is looked up yet |
| DexFile.WriteBackOfReports | apk_utils/dexFile.py:94-139 | when the objects report the header read from byte `i`, the rewrite keeps it and packing it gives back its bytes |
| DexFile.ReadThenWrite | apk_utils/dexFile.py:28-145 | reading a header and calling `get_raw()`, when the looked-up sections report the header's own values, gives back the 112 bytes read |
| DexFile.MapEntryError | apk_utils/dexFile.py:190-210 | decoding an entry fails when the entry is short, when its tag is unknown (`KeyError`), when its tag has no decoder class (`IndexError`), or when its header is cut short |
| DexFile.ParseMapItem | apk_utils/dexFile.py:190-210 | corrected `MapItem.__init__` succeeds exactly when the entry decodes; it holds the entry's four fields and the header read at the entry's offset, and leaves the cursor after that header |
| DexFile.ParseMapItemAsWritten | apk_utils/dexFile.py:190-204 | as written `MapItem.__init__` always raises, with `AttributeError` once the 12 entry bytes are read |
| DexFile.ParseMapList | apk_utils/dexFile.py:213-229 | corrected `MapList.__init__` succeeds exactly when the count and all counted entries decode; it then holds `count` items in order, each read at its own place, and registers each one |
| DexFile.NextMapItems | apk_utils/dexFile.py:220-226 | the entry loop gives `n` entries, the `k`-th read at entry position `k`, and registers them in order |
| DexFile.NextMapItem | apk_utils/dexFile.py:221-226 | one pass decodes the entry at the cursor, registers it and puts the cursor just after the entry |
| DexFile.ParseMapListAsWritten | apk_utils/dexFile.py:213-229 | as written `MapList.__init__` succeeds only for a count of zero, and fails with `AttributeError` for any other count |
| DexFile.ParseMapListNoRestore | apk_utils/dexFile.py:213-229 | without the cursor put back, each entry after the first is read from just past the header the previous entry pointed at |
| DexFile.NextChainedItems | apk_utils/dexFile.py:220-226 | the entry loop without the cursor put back succeeds exactly when the chain of entries decodes, and yields that chain |
| DexFile.ChainFromShape | apk_utils/dexFile.py:220-226 | a chain read from `start` begins at `start`; each item holds its own entry and sits just past the header its predecessor points at |
| DexFile.SecondEntryOff | apk_utils/dexFile.py:216-226 | with the cursor put back, the second of two entries is read 12 bytes after the first |
| DexFile.SecondEntryOffNoRestore | apk_utils/dexFile.py:216-226 | without it, the second entry is read 112 bytes past the offset the first entry holds |
| DexFile.NoRestoreMisreadsSecondEntry | apk_utils/dexFile.py:220-226 | on a list at byte 124 with entries at 128 and 140, each pointing at a header at byte 0, the corrected list reads the second entry at 140 and the as-written one at 112 |
| DexFile.NoRestoreLists | apk_utils/dexFile.py:216-226 | that buffer's list counts two entries and decodes both ways |

## Left out

- `apk_utils/args.py`, `apk_utils/core.py`, `apk_utils/file.py`, `apktool_win`/`apktool_lin` and `Logger` in `apk_utils/options.py` are not part of this model: they are the command line, the interactive shell, file reading and subprocess and logging plumbing.
- `show`, `show_buff`, `get_output`, `get_literals` and `get_formatted_operands` (the floating-point literal views of 21h, 21s, 31i and 51l) are left out. They are display code, and the formatted operands need floating point.
- The class manager's lookups are taken as given total functions: `get_method_ref`, `get_string`, `get_field`, `get_type` and `get_item_by_offset`. The class manager in `apk_utils/dexFile.py` is an empty stub, and its lookup code is not part of this model.
- DexFile.ItemRegistry.AddTypeItem: `add_type_item` (called at `apk_utils/dexFile.py:226`) is not defined by the empty `ClassManager` stub. Modelling it as an append to a register of entries is an assumption.
- `reload` of `HeaderItem`, `MapItem` and `MapList` is left out, because it does nothing.
- `struct` with `"="` uses the machine's byte order. The model fixes little-endian, the byte order of DEX files.
- Cursor indices are non-negative. Python would count a negative `set_idx`/`readat` argument from the end of the buffer.
- Text.EscapeChar: characters from U+0080 up are written as themselves, where Python's `repr` escapes the non-printable ones; see the next line.
- Text.ReprStr: characters from U+0080 up are written as themselves. Python's `repr` escapes the non-printable ones among them (`\x80`..`\x9f`, `\u…`). Only the operand text of a string kind depends on it.
- DexFile.NextHeader: the twenty `"=I"` reads of `__init__` are grouped into one run (`NextFields`). The fields, their order, the bytes read and the short-read failure are the same.
- DexFile.ReadThenWrite: stated for a cursor that holds the whole header and for section objects that report the header's own values. Other cases are covered by `GetObj`, `Refresh` and `Fill`.
- DexFile.ParseMapItem: the only decoder class in the switcher is `HeaderItem`. Every other tag is the `NoDecoder` failure, which is what the source's `[1]` on a one-element list raises.
- Instructions.Decode: as written, the 21h constructor raises `TypeError` for its only opcodes, 0x15 and 0x19, because it adds a `str` literal to `bytes` when building the floating-point view. `Decode` reads the fields as evidently intended; `DecodeAsWritten` keeps the failure (see Findings). The floating-point view itself is left out, as above.
- Payloads.PackedSwitchOf: the corrected constructor reads as many targets as fit when the buffer ends early. The source's clamp aims at that but computes it wrongly (see Findings).
- Payloads.SparseRaw and Payloads.PackedRaw state the evident byte join. As written, `get_raw` of the switch payloads always raises (see Findings).

## Findings

| source | as written | input that shows it | evidently intended | confidence | as-written member | corrected member |
|---|---|---|---|---|---|---|
| apk_utils/instruction.py:1451-1463 | range forms list `range(CCCC, NNNN)`, which stops before `NNNN = CCCC + AA - 1` | `invoke-virtual/range {v4 .. v6}` (`AA = 3`, `CCCC = 4`) lists `v4, v5` | all `AA` registers `CCCC .. NNNN` | not executed | Operands.RangeOperandsCounterexample | Operands.RangeOperandsCover |
| apk_utils/instruction.py:1908-1920 | 5rc `get_operands` reads `self.BBBB`, which a 5rc object does not have | any 5rc instruction, e.g. `invoke-virtual/jumbo`, raises `AttributeError` | the reference index `BBBBBBBB` | not executed | Operands.GetOperandsAsWritten | Operands.GetOperands |
| apk_utils/instruction.py:677-682 | 21h builds its floating-point view from `'\x00\x00' + pack('=h', BBBB)` (and six `\x00` for 0x19), a `str` plus `bytes` | `15 00 00 40` (`const/high16 v0, 0x4000`) raises `TypeError`, so no 21h instruction is ever built | `b'\x00\x00'` and `b'\x00' * 6` | not executed | Instructions.ConstHigh16AsWrittenRaises | Instructions.DecodeEncode |
| apk_utils/instruction.py:444-454 | the extended table is chosen only for `OP > 0xff`, so `0x00ff` goes to the classical table, which has no such key | `const-class/jumbo` (`OP = 0x00ff`) raises `KeyError` | the extended table from `0x00ff` on | not executed | Opcodes.LookupAsWrittenMisses00ff | Opcodes.Lookup |
| apk_utils/instruction.py:120-126 | fill-array-data `get_length` uses `/`, true division in Python 3 | element width 2 and 2 elements: 13.0 instead of 12 | integer division: 8 plus the data length rounded up to even | not executed | Payloads.FillArrayLengthCounterexample | Payloads.FillArrayDecodeRaw |
| apk_utils/instruction.py:271-277 | the packed-switch clamp fires only when `4 * size > len(buff)`, and then uses a byte count (`len - idx - 8`) as a target count | announcing 5 targets in a 20-byte buffer: no clamp, and the fourth read raises | read the announced targets, or as many as fit | not executed | Payloads.PackedClampCounterexample | Payloads.PackedSwitchOf |
| apk_utils/instruction.py:248-249 | sparse-switch `get_raw` joins packed words with `''.join` | any sparse switch raises `TypeError`: in `''.join` when it has keys, in `bytes + ''` when it has none | `b''.join` | not executed | Payloads.SparseRawAsWritten | Payloads.SparseRawOfDecode |
| apk_utils/instruction.py:373-374 | packed-switch `get_raw` joins packed words with `''.join` | any packed switch raises `TypeError`: in `''.join` when it has targets, in `bytes + ''` when it has none | `b''.join` | not executed | Payloads.PackedRawAsWritten | Payloads.PackedRawOfDecode |
| apk_utils/dexFile.py:202 | `MapItem.__init__` calls `buff.set_index`, which `ByteCode` lacks | any 12-byte entry: `AttributeError` | `set_idx` | not executed | DexFile.ParseMapItemAsWritten | DexFile.ParseMapItem |
| apk_utils/dexFile.py:221 | `MapList.__init__` calls `buff.get_index`, which `ByteCode` lacks | any count of 1 or more: `AttributeError` | `get_idx` | not executed | DexFile.ParseMapListAsWritten | DexFile.ParseMapList |
| apk_utils/dexFile.py:220-226 | after each entry the cursor stays where the entry's item decoding left it | a list at byte 124 with two entries whose first points at a header at byte 0: the second entry is read from byte 112, not 140 | put the cursor back after each entry (the unused `idx` in the loop suggests it) | not executed | DexFile.NoRestoreMisreadsSecondEntry | DexFile.ParseMapList |
