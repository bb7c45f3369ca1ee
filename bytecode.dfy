/** `ByteCode`: a byte buffer with a read index.  Every record decoder reads
    through it.  The buffer is fixed at construction; only the index moves.
    Indices are non-negative here (Python would count a negative one from the
    end of the buffer). */
module Cursor {
  import opened Bytes

  /** `s[i:j]` for non-negative `i` and `j`: Python clamps both ends to the
      length and gives the empty string when they cross. */
  function Slice(s: seq<byte>, i: nat, j: nat): (r: seq<byte>)
    ensures |r| == if i <= j && i <= |s| then Min(j, |s|) - i else 0
    ensures i + |r| <= |s| ==> forall k :: 0 <= k < |r| ==> r[k] == s[i + k]
  {
    if i <= j && i <= |s| then s[i..Min(j, |s|)] else []
  }

  function Min(a: nat, b: nat): nat {
    if a <= b then a else b
  }

  /** A slice that fits in the buffer is the plain subsequence. */
  lemma SliceInside(s: seq<byte>, i: nat, n: nat)
    requires i + n <= |s|
    ensures Slice(s, i, i + n) == s[i..i + n]
  {
  }

  /** Two adjacent slices joined are the slice over both. */
  lemma SliceJoin(s: seq<byte>, i: nat, a: nat, b: nat)
    ensures Slice(s, i, i + a) + Slice(s, i + a, i + a + b) == Slice(s, i, i + a + b)
  {
    if i + a <= |s| {
      assert s[i..Min(i + a + b, |s|)] == s[i..i + a] + s[i + a..Min(i + a + b, |s|)];
    }
  }

  class ByteCode {
    /** `__buff`: never reassigned. */
    const buff: seq<byte>
    /** `__index`: where the next `read` starts. */
    var index: nat

    /** A fresh cursor starts at index 0. */
    constructor (rawBinary: seq<byte>)
      ensures buff == rawBinary && index == 0
    {
      buff := rawBinary;
      index := 0;
    }

    /** `read(size)`: the bytes from the index, as many of `size` as there
        are; the index moves by `size` even past the end. */
    method Read(size: nat) returns (r: seq<byte>)
      modifies this
      ensures r == Slice(buff, old(index), old(index) + size)
      ensures index == old(index) + size
    {
      r := Slice(buff, index, index + size);
      index := index + size;
    }

    /** `readat(off)`: the suffix from `off`; the index does not move. */
    method ReadAt(off: nat) returns (r: seq<byte>)
      ensures r == Slice(buff, off, |buff|)
      ensures off <= |buff| ==> r == buff[off..]
    {
      r := Slice(buff, off, |buff|);
    }

    method SetIdx(i: nat)
      modifies this
      ensures index == i
    {
      index := i;
    }

    method GetIdx() returns (i: nat)
      ensures i == index
    {
      i := index;
    }

    method GetBuff() returns (b: seq<byte>)
      ensures b == buff
    {
      b := buff;
    }

    method LenBuff() returns (n: nat)
      ensures n == |buff|
    {
      n := |buff|;
    }
  }

  /** Reading `a` bytes and then `b` bytes gives what one read of `a + b`
      from the same start gives, and leaves the index in the same place. */
  method ReadTwice(c: ByteCode, a: nat, b: nat) returns (r: seq<byte>)
    modifies c
    ensures r == Slice(c.buff, old(c.index), old(c.index) + a + b)
    ensures c.index == old(c.index) + a + b
  {
    var x := c.Read(a);
    var y := c.Read(b);
    SliceJoin(c.buff, old(c.index), a, b);
    r := x + y;
  }

  /** `set_idx(k)` then `get_idx()` reports `k`, and the buffer is unchanged. */
  method SeekThenTell(c: ByteCode, k: nat) returns (i: nat)
    modifies c
    ensures i == k && c.index == k
  {
    c.SetIdx(k);
    i := c.GetIdx();
  }
}
