/** The three variable-length payloads: `FillArrayData`, `SparseSwitch` and
    `PackedSwitch`.  Each class constructor reads a fixed header and then a
    table; `get_length` and `get_raw` give the size and the bytes back.
    A `struct.error` from a read past the end of the buffer is `None`. */
module Payloads {
  import opened Bytes
  import opened Wrappers
  import opened Opcodes

  // ---- runs of signed 32-bit words ----

  /** `n` consecutive `unpack('=l', ...)` reads from byte `start`, in order. */
  function Words(b: seq<byte>, start: nat, n: nat): (ws: seq<s32>)
    requires start + 4 * n <= |b|
    ensures |ws| == n
  {
    if n == 0 then [] else Words(b, start, n - 1) + [S32At(b, start + 4 * (n - 1))]
  }

  /** `pack('=l', w)` for each word in order, joined. */
  function WordsBytes(ws: seq<s32>): (r: seq<byte>)
    ensures |r| == 4 * |ws|
  {
    if ws == [] then [] else WordsBytes(ws[..|ws| - 1]) + S32Bytes(ws[|ws| - 1])
  }

  /** Reading back the words that were written, whatever surrounds them. */
  lemma {:induction false} WordsOfWordsBytes(pre: seq<byte>, ws: seq<s32>, rest: seq<byte>)
    ensures Words(pre + WordsBytes(ws) + rest, |pre|, |ws|) == ws
    decreases |ws|
  {
    if ws != [] {
      var init, last := ws[..|ws| - 1], ws[|ws| - 1];
      var q := pre + WordsBytes(init);
      var b := pre + WordsBytes(ws) + rest;
      assert b == pre + WordsBytes(init) + (S32Bytes(last) + rest);
      WordsOfWordsBytes(pre, init, S32Bytes(last) + rest);
      assert b == q + S32Bytes(last) + rest;
      MidSlice(q, S32Bytes(last), rest);
      WordsSnocAt(b, |pre|, init, last);
      assert ws == init + [last];
    }
  }

  /** One more word read after a run already read. */
  lemma WordsSnocAt(b: seq<byte>, start: nat, init: seq<s32>, last: s32)
    requires start + 4 * |init| + 4 <= |b| && Words(b, start, |init|) == init
    requires b[start + 4 * |init|..start + 4 * |init| + 4] == S32Bytes(last)
    ensures Words(b, start, |init| + 1) == init + [last]
  {
    ReadS32(b, start + 4 * |init|, last);
  }

  /** Packing one more word appends its four bytes. */
  lemma WordsBytesSnoc(ws: seq<s32>, x: s32)
    ensures WordsBytes(ws + [x]) == WordsBytes(ws) + S32Bytes(x)
  {
    assert (ws + [x])[..|ws|] == ws;
  }

  /** Writing the words that were read gives the bytes they were read from. */
  lemma {:induction false} WordsBytesOfWords(b: seq<byte>, start: nat, n: nat)
    requires start + 4 * n <= |b|
    ensures WordsBytes(Words(b, start, n)) == b[start..start + 4 * n]
    decreases n
  {
    if n > 0 {
      var k := start + 4 * (n - 1);
      var ws, x := Words(b, start, n - 1), S32At(b, k);
      assert WordsBytes(ws) == b[start..k] by { WordsBytesOfWords(b, start, n - 1); }
      assert S32Bytes(x) == b[k..k + 4] by { WriteBackS32(b, k); }
      WordsBytesSnoc(ws, x);
      JoinSlices(b, start, k, k + 4);
    }
  }

  /** The loop `for i in range(n): l.append(unpack('=l', buff[idx:idx+4])[0]); idx += 4`. */
  method ReadWords(b: seq<byte>, start: nat, n: nat) returns (ws: seq<s32>)
    requires start + 4 * n <= |b|
    ensures ws == Words(b, start, n)
  {
    ws := [];
    var idx := start;
    var i := 0;
    while i < n
      invariant 0 <= i <= n && idx == start + 4 * i
      invariant ws == Words(b, start, i)
    {
      ws := ws + [S32At(b, idx)];
      idx := idx + 4;
      i := i + 1;
    }
  }

  /** The same loop on a buffer that may end early: the first short read
      raises. */
  method TryReadWords(b: seq<byte>, start: nat, n: nat) returns (r: Option<seq<s32>>)
    requires start <= |b|
    ensures r.Some? <==> start + 4 * n <= |b|
    ensures r.Some? ==> r.value == Words(b, start, n)
  {
    var ws: seq<s32> := [];
    var idx := start;
    var i := 0;
    while i < n
      invariant 0 <= i <= n && idx == start + 4 * i && idx <= |b|
      invariant ws == Words(b, start, i)
    {
      if |b| < idx + 4 {
        return None;
      }
      ws := ws + [S32At(b, idx)];
      idx := idx + 4;
      i := i + 1;
    }
    return Some(ws);
  }

  // ---- fill-array-data-payload ----

  datatype FillArrayData = FillArrayData(ident: u16, elementWidth: u16, size: u32, data: seq<byte>)

  /** `buf_len`: `size * element_width`, plus one when odd. */
  function DataLength(elementWidth: nat, size: nat): (n: nat)
    ensures n % 2 == 0 && size * elementWidth <= n <= size * elementWidth + 1
  {
    var n := size * elementWidth;
    if n % 2 == 1 then n + 1 else n
  }

  /** The `FillArrayData` constructor: a 2+2+4-byte header, then `buf_len`
      data bytes (fewer when the buffer ends first: a slice never fails). */
  function FillArrayDataOf(b: seq<byte>): (r: Option<FillArrayData>)
    ensures r.Some? <==> 8 <= |b|
    ensures r.Some? ==>
      var n := DataLength(r.value.elementWidth, r.value.size);
      |r.value.data| <= n && (8 + n <= |b| ==> |r.value.data| == n)
      && 8 + |r.value.data| <= |b| && r.value.data == b[8..8 + |r.value.data|]
  {
    if |b| < 8 then None
    else
      var width, size := U16At(b, 2), U32At(b, 4);
      var end := if 8 + DataLength(width, size) <= |b| then 8 + DataLength(width, size) else |b|;
      Some(FillArrayData(U16At(b, 0), width, size, b[8..end]))
  }

  /** `get_length` as written: `/` is true division in Python 3, so the value
      is a float and the rounding to a whole code unit never happens. */
  function FillArrayLengthAsWritten(p: FillArrayData): real {
    (((p.size * p.elementWidth + 1) as real) / 2.0 + 4.0) * 2.0
  }

  /** `get_length` with the evident integer division. */
  function FillArrayLength(p: FillArrayData): (n: nat)
    ensures n == 8 + DataLength(p.elementWidth, p.size)
  {
    ((p.size * p.elementWidth + 1) / 2 + 4) * 2
  }

  /** True division makes the length `size * element_width + 9`: one byte too
      many whenever the data length is even. */
  lemma FillArrayLengthAsWrittenOff(p: FillArrayData)
    ensures FillArrayLengthAsWritten(p) == (p.size * p.elementWidth + 9) as real
    ensures FillArrayLengthAsWritten(p) == FillArrayLength(p) as real <==> (p.size * p.elementWidth) % 2 == 1
  {
  }

  /** A concrete case: width 2, two elements: 13.0 as written, 12 intended. */
  lemma FillArrayLengthCounterexample()
    ensures var p := FillArrayData(0x0300, 2, 2, [0, 0, 0, 0]);
      FillArrayLengthAsWritten(p) == 13.0 && FillArrayLength(p) == 12
  {
  }

  /** `get_raw`: the header fields and the data, in order. */
  function FillArrayRaw(p: FillArrayData): (r: seq<byte>)
    ensures |r| == 8 + |p.data|
  {
    U16Bytes(p.ident) + U16Bytes(p.elementWidth) + U32Bytes(p.size) + p.data
  }

  predicate FillArrayWellFormed(p: FillArrayData) {
    |p.data| == DataLength(p.elementWidth, p.size)
  }

  /** Decoding what `get_raw` wrote gives the payload back; `get_length` is
      the number of bytes written. */
  lemma FillArrayDecodeRaw(p: FillArrayData, rest: seq<byte>)
    requires FillArrayWellFormed(p)
    ensures |FillArrayRaw(p)| == FillArrayLength(p)
    ensures FillArrayDataOf(FillArrayRaw(p) + rest) == Some(p)
  {
    var b := FillArrayRaw(p) + rest;
    var h0, h1, h2 := U16Bytes(p.ident), U16Bytes(p.elementWidth), U32Bytes(p.size);
    assert b == h0 + h1 + h2 + (p.data + rest);
    Slices3(h0, h1, h2, p.data + rest);
    ReadU16(b, 0, p.ident);
    ReadU16(b, 2, p.elementWidth);
    ReadU32(b, 4, p.size);
    assert b[8..8 + |p.data|] == p.data;
  }

  /** `get_raw` of a decoded payload gives back the bytes it was read from. */
  lemma FillArrayRawOfDecode(b: seq<byte>)
    requires 8 <= |b|
    ensures var p := FillArrayDataOf(b).value; FillArrayRaw(p) == b[..8 + |p.data|]
  {
    var p := FillArrayDataOf(b).value;
    WriteBackU16(b, 0);
    WriteBackU16(b, 2);
    WriteBackU32(b, 4);
    assert b[..8 + |p.data|] == b[0..2] + b[2..4] + b[4..8] + b[8..8 + |p.data|];
  }

  // ---- sparse-switch-payload ----

  datatype SparseSwitch = SparseSwitch(ident: u16, size: u16, keys: seq<s32>, targets: seq<s32>)

  predicate SparseWellFormed(p: SparseSwitch) {
    |p.keys| == p.size && |p.targets| == p.size
  }

  /** The `SparseSwitch` constructor: ident and size, then `size` keys, then
      `size` targets. */
  function SparseSwitchOf(b: seq<byte>): (r: Option<SparseSwitch>)
    ensures r.Some? <==> 4 <= |b| && 4 + 8 * U16At(b, 2) <= |b|
    ensures r.Some? ==> SparseWellFormed(r.value)
  {
    if |b| < 4 then None
    else
      var size: int := U16At(b, 2);
      if |b| < 4 + 8 * size then None
      else Some(SparseSwitch(U16At(b, 0), size, Words(b, 4, size), Words(b, 4 + 4 * size, size)))
  }

  /** The constructor's two loops: the keys from byte 4, then the targets. */
  method ParseSparseSwitch(b: seq<byte>) returns (r: Option<SparseSwitch>)
    ensures r == SparseSwitchOf(b)
  {
    if |b| < 4 {
      return None;
    }
    var ident, size := U16At(b, 0), U16At(b, 2);
    var keys := TryReadWords(b, 4, size);
    if keys.None? {
      return None;
    }
    var targets := TryReadWords(b, 4 + 4 * size as int, size);
    if targets.None? {
      return None;
    }
    r := Some(SparseSwitch(ident, size, keys.value, targets.value));
  }

  /** `get_length`: the header and two words per entry. */
  function SparseLength(p: SparseSwitch): nat {
    4 + p.size * 4 * 2
  }

  /** `get_raw` with the byte strings joined as bytes: ident, size, keys,
      targets. */
  function SparseRaw(p: SparseSwitch): (r: seq<byte>)
    ensures |r| == 4 + 4 * |p.keys| + 4 * |p.targets|
  {
    U16Bytes(p.ident) + U16Bytes(p.size) + WordsBytes(p.keys) + WordsBytes(p.targets)
  }

  lemma SparseDecodeRaw(p: SparseSwitch, rest: seq<byte>)
    requires SparseWellFormed(p)
    ensures |SparseRaw(p)| == SparseLength(p)
    ensures SparseSwitchOf(SparseRaw(p) + rest) == Some(p)
  {
    var b := SparseRaw(p) + rest;
    SparseHeadOfRaw(p, rest);
    SparseKeysOfRaw(p, rest);
    SparseTargetsOfRaw(p, rest);
    assert 4 + 8 * p.size <= |b|;
  }

  /** The ident and the size read back from a sparse switch's bytes. */
  lemma SparseHeadOfRaw(p: SparseSwitch, rest: seq<byte>)
    ensures var b := SparseRaw(p) + rest; U16At(b, 0) == p.ident && U16At(b, 2) == p.size
  {
    var b := SparseRaw(p) + rest;
    var h0, h1 := U16Bytes(p.ident), U16Bytes(p.size);
    var tail := WordsBytes(p.keys) + WordsBytes(p.targets) + rest;
    assert b == h0 + h1 + tail;
    Slices2(h0, h1, tail);
    ReadU16(b, 0, p.ident);
    ReadU16(b, 2, p.size);
  }

  /** The keys read back from byte 4 of a sparse switch's bytes. */
  lemma SparseKeysOfRaw(p: SparseSwitch, rest: seq<byte>)
    requires SparseWellFormed(p)
    ensures var b := SparseRaw(p) + rest; 4 + 4 * p.size <= |b| && Words(b, 4, p.size) == p.keys
  {
    var b := SparseRaw(p) + rest;
    var h := U16Bytes(p.ident) + U16Bytes(p.size);
    assert b == h + WordsBytes(p.keys) + (WordsBytes(p.targets) + rest);
    WordsOfWordsBytes(h, p.keys, WordsBytes(p.targets) + rest);
  }

  /** The targets read back from just past the keys. */
  lemma SparseTargetsOfRaw(p: SparseSwitch, rest: seq<byte>)
    requires SparseWellFormed(p)
    ensures var b := SparseRaw(p) + rest; 4 + 8 * p.size <= |b| && Words(b, 4 + 4 * p.size, p.size) == p.targets
  {
    var b := SparseRaw(p) + rest;
    var h := U16Bytes(p.ident) + U16Bytes(p.size) + WordsBytes(p.keys);
    assert b == h + WordsBytes(p.targets) + rest;
    WordsOfWordsBytes(h, p.targets, rest);
  }

  lemma SparseRawOfDecode(b: seq<byte>)
    requires SparseSwitchOf(b).Some?
    ensures var p := SparseSwitchOf(b).value; SparseRaw(p) == b[..SparseLength(p)]
  {
    var n: int := U16At(b, 2);
    SparseRawOfWords(b, n);
  }

  lemma SparseRawOfWords(b: seq<byte>, n: nat)
    requires 4 <= |b| && n == U16At(b, 2) && 4 + 8 * n <= |b|
    ensures SparseRaw(SparseSwitch(U16At(b, 0), n, Words(b, 4, n), Words(b, 4 + 4 * n, n))) == b[..4 + 8 * n]
  {
    var m := 4 + 4 * n;
    var ks, ts := Words(b, 4, n), Words(b, m, n);
    var a0, a1, a2, a3 := U16Bytes(U16At(b, 0)), U16Bytes(U16At(b, 2)), WordsBytes(ks), WordsBytes(ts);
    assert a0 == b[0..2] by { WriteBackU16(b, 0); }
    assert a1 == b[2..4] by { WriteBackU16(b, 2); }
    assert a2 == b[4..m] by { WordsBytesOfWords(b, 4, n); }
    assert a3 == b[m..m + 4 * n] by { WordsBytesOfWords(b, m, n); }
    PrefixOfFour(b, m, m + 4 * n, a0, a1, a2, a3);
  }

  /** Four pieces equal to consecutive slices from byte 0: header halves at
      0 and 2, then runs from 4 to `m` and from `m` to `e`. */
  lemma PrefixOfFour(b: seq<byte>, m: nat, e: nat, a0: seq<byte>, a1: seq<byte>, a2: seq<byte>, a3: seq<byte>)
    requires 4 <= m <= e <= |b|
    requires a0 == b[0..2] && a1 == b[2..4] && a2 == b[4..m] && a3 == b[m..e]
    ensures a0 + a1 + a2 + a3 == b[..e]
  {
    JoinFour(b, 0, 2, 4, m, e);
    assert b[0..e] == b[..e];
  }

  lemma JoinFour(b: seq<byte>, i: nat, j: nat, k: nat, l: nat, m: nat)
    requires i <= j <= k <= l <= m <= |b|
    ensures b[i..j] + b[j..k] + b[k..l] + b[l..m] == b[i..m]
  {
    JoinSlices(b, i, j, k);
    JoinSlices(b, i, k, l);
    JoinSlices(b, i, l, m);
  }

  // ---- packed-switch-payload ----

  /** `targets` holds what the constructor read; `get_keys` derives the keys. */
  datatype PackedSwitch = PackedSwitch(ident: u16, size: u16, firstKey: s32, targets: seq<s32>)

  /** The constructor as written: when `size * 4` exceeds the buffer length it
      reads `len(buff) - idx - 8` targets (`idx` is 8), a byte count used as
      an entry count; a read past the end raises. */
  function PackedSwitchAsWritten(b: seq<byte>): Option<PackedSwitch> {
    if |b| < 8 then None
    else
      var size := U16At(b, 2);
      var maxSize := if size * 4 > |b| then |b| - 8 - 8 else size;
      var n := if maxSize < 0 then 0 else maxSize;
      if 8 + 4 * n > |b| then None
      else Some(PackedSwitch(U16At(b, 0), size, S32At(b, 4), Words(b, 8, n)))
  }

  /** How many targets the corrected constructor reads: `size`, or as many as
      the buffer holds. */
  function PackedCount(size: nat, len: nat): (n: nat)
    requires 8 <= len
    ensures 8 + 4 * n <= len
    ensures n <= size && (8 + 4 * size <= len ==> n == size)
    ensures n < size ==> len < 8 + 4 * (n + 1)
  {
    if 8 + 4 * size <= len then size else (len - 8) / 4
  }

  /** The constructor with the evident clamp: it reads the `size` targets, or
      those that fit when the buffer ends first. */
  function PackedSwitchOf(b: seq<byte>): (r: Option<PackedSwitch>)
    ensures r.Some? <==> 8 <= |b|
  {
    if |b| < 8 then None
    else
      var size := U16At(b, 2);
      Some(PackedSwitch(U16At(b, 0), size, S32At(b, 4), Words(b, 8, PackedCount(size, |b|))))
  }

  method ParsePackedSwitch(b: seq<byte>) returns (r: Option<PackedSwitch>)
    ensures r == PackedSwitchOf(b)
  {
    if |b| < 8 {
      return None;
    }
    var ident, size, firstKey := U16At(b, 0), U16At(b, 2), S32At(b, 4);
    var maxSize := size;
    if 8 + 4 * maxSize > |b| {
      maxSize := (|b| - 8) / 4;
    }
    var targets := ReadWords(b, 8, maxSize);
    r := Some(PackedSwitch(ident, size, firstKey, targets));
  }

  /** On a buffer that holds all `size` targets the clamp is never taken, and
      the constructor as written and the corrected one agree. */
  lemma PackedAgreesOnCompleteBuffers(b: seq<byte>)
    requires 8 <= |b| && 8 + 4 * U16At(b, 2) <= |b|
    ensures PackedSwitchAsWritten(b) == PackedSwitchOf(b)
    ensures |PackedSwitchOf(b).value.targets| == U16At(b, 2)
  {
  }

  /** Five targets announced in a 20-byte buffer: `20 > 20` is false, so no
      clamp, and the fourth read runs past the end. */
  lemma PackedClampCounterexample()
    ensures var b: seq<byte> := [0x00, 0x01, 0x05, 0x00] + seq(16, _ => 0);
      PackedSwitchAsWritten(b).None?
      && PackedSwitchOf(b).Some? && |PackedSwitchOf(b).value.targets| == 3
  {
    var b: seq<byte> := [0x00, 0x01, 0x05, 0x00] + seq(16, _ => 0);
    U16AtValue(b, 2);
  }

  /** `get_keys`: one key per target read, counting up from `first_key`. */
  function PackedKeys(p: PackedSwitch): (ks: seq<int>)
    ensures |ks| == |p.targets|
    ensures |ks| > 0 ==> ks[0] == p.firstKey
    ensures forall i :: 0 <= i < |ks| - 1 ==> ks[i + 1] == ks[i] + 1
  {
    seq(|p.targets|, i => p.firstKey + i)
  }

  /** `get_length`: the header and one word per announced entry. */
  function PackedLength(p: PackedSwitch): nat {
    8 + p.size * 4
  }

  /** `get_raw` with the byte strings joined as bytes. */
  function PackedRaw(p: PackedSwitch): (r: seq<byte>)
    ensures |r| == 8 + 4 * |p.targets|
  {
    U16Bytes(p.ident) + U16Bytes(p.size) + S32Bytes(p.firstKey) + WordsBytes(p.targets)
  }

  predicate PackedWellFormed(p: PackedSwitch) {
    |p.targets| == p.size
  }

  lemma PackedDecodeRaw(p: PackedSwitch, rest: seq<byte>)
    requires PackedWellFormed(p)
    ensures |PackedRaw(p)| == PackedLength(p)
    ensures PackedSwitchOf(PackedRaw(p) + rest) == Some(p)
  {
    var b := PackedRaw(p) + rest;
    var h0, h1, h2, ts := U16Bytes(p.ident), U16Bytes(p.size), S32Bytes(p.firstKey), WordsBytes(p.targets);
    assert b == h0 + h1 + h2 + (ts + rest);
    Slices3(h0, h1, h2, ts + rest);
    ReadU16(b, 0, p.ident);
    ReadU16(b, 2, p.size);
    ReadS32(b, 4, p.firstKey);
    assert b == (h0 + h1 + h2) + ts + rest;
    WordsOfWordsBytes(h0 + h1 + h2, p.targets, rest);
  }

  lemma PackedRawOfDecode(b: seq<byte>)
    requires 8 <= |b|
    ensures var p := PackedSwitchOf(b).value; PackedRaw(p) == b[..8 + 4 * |p.targets|]
  {
    var p := PackedSwitchOf(b).value;
    var n := |p.targets|;
    WriteBackU16(b, 0);
    WriteBackU16(b, 2);
    WriteBackS32(b, 4);
    WordsBytesOfWords(b, 8, n);
    PrefixOfFour(b, 8, 8 + 4 * n, U16Bytes(p.ident), U16Bytes(p.size), S32Bytes(p.firstKey), WordsBytes(p.targets));
  }

  // ---- the switch payloads' get_raw as written ----

  /** The two `TypeError`s `bytes + ''.join(...)` can raise in Python 3:
      `join` meeting a `bytes` piece, or `bytes + str` when there is no
      piece and `join` gives `''`. */
  datatype RawError = JoinOfBytes | BytesPlusStr

  /** `prefix + ''.join(pack("=l", w) for w in words)`: it raises whatever
      the words are, and which error it raises depends only on whether there
      are any. */
  function AppendStrJoin(prefix: seq<byte>, words: seq<int>): (r: Result<seq<byte>, RawError>)
    ensures r == Err(if words == [] then BytesPlusStr else JoinOfBytes)
  {
    if words != [] then Err(JoinOfBytes) else Err(BytesPlusStr)
  }

  /** Sparse-switch `get_raw` as written: the `join` over the keys is
      evaluated first, so the keys decide the error. */
  function SparseRawAsWritten(p: SparseSwitch): (r: Result<seq<byte>, RawError>)
    ensures r.Err? && (r.error == JoinOfBytes <==> |p.keys| > 0)
  {
    AppendStrJoin(U16Bytes(p.ident) + U16Bytes(p.size), p.keys)
  }

  /** Packed-switch `get_raw` as written: the one `join` is over the
      targets, so the targets decide the error. */
  function PackedRawAsWritten(p: PackedSwitch): (r: Result<seq<byte>, RawError>)
    ensures r.Err? && (r.error == JoinOfBytes <==> |p.targets| > 0)
  {
    AppendStrJoin(U16Bytes(p.ident) + U16Bytes(p.size) + S32Bytes(p.firstKey), p.targets)
  }

  // ---- the three payloads together ----

  datatype Payload = Packed(packed: PackedSwitch) | Sparse(sparse: SparseSwitch) | Fill(fill: FillArrayData)

  /** The payload class `DALVIK_OPCODES_PAYLOAD` names for the ident in the
      first code unit, applied to the buffer. */
  function DecodePayload(b: seq<byte>): (r: Option<Payload>)
    ensures r.Some? ==> 2 <= |b| && PayloadOf(U16At(b, 0)).Some?
    ensures r.Some? ==> PayloadIdent(r.value) == U16At(b, 0)
  {
    if |b| < 2 then None
    else
      match PayloadOf(U16At(b, 0))
      case Some(PackedSwitchPayload) =>
        (match PackedSwitchOf(b) case Some(p) => Some(Packed(p)) case None => None)
      case Some(SparseSwitchPayload) =>
        (match SparseSwitchOf(b) case Some(p) => Some(Sparse(p)) case None => None)
      case Some(FillArrayDataPayload) =>
        (match FillArrayDataOf(b) case Some(p) => Some(Fill(p)) case None => None)
      case None => None
  }

  /** `get_op_value`: the ident. */
  function PayloadIdent(p: Payload): u16 {
    match p
    case Packed(q) => q.ident
    case Sparse(q) => q.ident
    case Fill(q) => q.ident
  }

  function PayloadName(p: Payload): string {
    match p
    case Packed(_) => "packed-switch-payload"
    case Sparse(_) => "sparse-switch-payload"
    case Fill(_) => "fill-array-data-payload"
  }

  function PayloadLength(p: Payload): nat {
    match p
    case Packed(q) => PackedLength(q)
    case Sparse(q) => SparseLength(q)
    case Fill(q) => FillArrayLength(q)
  }

  function PayloadRaw(p: Payload): seq<byte> {
    match p
    case Packed(q) => PackedRaw(q)
    case Sparse(q) => SparseRaw(q)
    case Fill(q) => FillArrayRaw(q)
  }

  predicate PayloadWellFormed(p: Payload) {
    match p
    case Packed(q) => PackedWellFormed(q)
    case Sparse(q) => SparseWellFormed(q)
    case Fill(q) => FillArrayWellFormed(q)
  }

  /** A well-formed payload's bytes decode back to it through the table, and
      their number is its `get_length`. */
  lemma DecodePayloadRaw(p: Payload, rest: seq<byte>)
    requires PayloadWellFormed(p) && PayloadOf(PayloadIdent(p)) == Some(PayloadKindOf(p))
    ensures |PayloadRaw(p)| == PayloadLength(p)
    ensures DecodePayload(PayloadRaw(p) + rest) == Some(p)
  {
    var b := PayloadRaw(p) + rest;
    match p
    case Packed(q) =>
      PackedDecodeRaw(q, rest);
    case Sparse(q) =>
      SparseDecodeRaw(q, rest);
    case Fill(q) =>
      FillArrayDecodeRaw(q, rest);
  }

  function PayloadKindOf(p: Payload): PayloadKind {
    match p
    case Packed(_) => PackedSwitchPayload
    case Sparse(_) => SparseSwitchPayload
    case Fill(_) => FillArrayDataPayload
  }

  /** A payload instruction object: the decoded payload and the notes
      `add_note` collects on it. */
  class PayloadInstruction {
    const payload: Payload
    var notes: seq<string>

    constructor (p: Payload)
      ensures payload == p && notes == []
    {
      payload := p;
      notes := [];
    }

    /** `add_note`: appends to the notes, which `get_notes` returns. */
    method AddNote(msg: string)
      modifies this
      ensures notes == old(notes) + [msg]
    {
      notes := notes + [msg];
    }
  }
}
