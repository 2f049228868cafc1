/** The part of Netty's `ByteBuf` that the MySQL message decoders use: a
    byte sequence with a reader index, little-endian reads that advance it,
    absolute reads that do not, and string decoding. Every read is specified
    by a cursor function on `(data, index)`; a read that does not fit fails
    with `IndexOutOfBoundsException` and leaves the index where it was. */
module ByteBufs {
  import opened Wrappers
  import opened JavaValues

  type byte = b: int | 0 <= b < 0x100

  /** The unsigned little-endian value of `bytes`. */
  function LittleEndian(bytes: seq<byte>): nat {
    if |bytes| == 0 then 0 else bytes[0] + 0x100 * LittleEndian(bytes[1..])
  }

  function Pow256(n: nat): (r: nat)
    ensures r >= 1
  {
    if n == 0 then 1 else 0x100 * Pow256(n - 1)
  }

  /** The `n` little-endian bytes of `v`: the writer side of
      `LittleEndian`. */
  function LittleEndianBytes(v: nat, n: nat): (r: seq<byte>)
    ensures |r| == n
  {
    if n == 0 then [] else [v % 0x100] + LittleEndianBytes(v / 0x100, n - 1)
  }

  /** Writing `v` in `n` bytes and reading them back gives `v`, and every
      value a read yields fits in its bytes. */
  lemma {:induction false} LittleEndianRoundTrip(v: nat, n: nat)
    requires v < Pow256(n)
    ensures LittleEndian(LittleEndianBytes(v, n)) == v
  {
    if n > 0 {
      LittleEndianRoundTrip(v / 0x100, n - 1);
      assert LittleEndianBytes(v, n)[1..] == LittleEndianBytes(v / 0x100, n - 1);
    }
  }

  lemma {:induction false} LittleEndianBound(bytes: seq<byte>)
    ensures LittleEndian(bytes) < Pow256(|bytes|)
  {
    if |bytes| > 0 {
      LittleEndianBound(bytes[1..]);
    }
  }

  /** Two's complement reading of an unsigned value below `modulus` (a power
      of two: 2^16 for a short, 2^64 for a long). */
  function Signed(v: nat, modulus: nat): (r: int) {
    if 2 * v >= modulus then v - modulus else v
  }

  const SHORT_MODULUS: nat := 0x1_0000
  const LONG_MODULUS: nat := 0x1_0000_0000_0000_0000

  // ------------------------------------------------------------ cursor reads

  /** `n` unsigned little-endian bytes at `at`, and the index after them. */
  function ReadUnsigned(data: seq<byte>, at: nat, n: nat): (r: Outcome<(nat, nat)>)
    ensures r.Ok? ==> r.value.0 < Pow256(n)
  {
    if at + n <= |data| then
      LittleEndianBound(data[at..at + n]);
      Ok((LittleEndian(data[at..at + n]), at + n))
    else Err(IndexOutOfBounds)
  }

  /** `readShortLE`: two bytes as a signed 16-bit value. */
  function ReadSigned16(data: seq<byte>, at: nat): (r: Outcome<(int, nat)>) {
    var read :- ReadUnsigned(data, at, 2);
    Ok((Signed(read.0, SHORT_MODULUS), read.1))
  }

  /** `readLongLE`: eight bytes as a signed 64-bit value. */
  function ReadSigned64(data: seq<byte>, at: nat): (r: Outcome<(int, nat)>) {
    var read :- ReadUnsigned(data, at, 8);
    Ok((Signed(read.0, LONG_MODULUS), read.1))
  }

  /** `skipBytes(n)`: the index `n` bytes on. */
  function Skip(data: seq<byte>, at: nat, n: nat): Outcome<nat> {
    if at + n <= |data| then Ok(at + n) else Err(IndexOutOfBounds)
  }

  /** `getByte(index)`: an absolute read. */
  function GetByte(data: seq<byte>, index: nat): Outcome<byte> {
    if index < |data| then Ok(data[index]) else Err(IndexOutOfBounds)
  }

  /** A charset: how a run of bytes becomes a string. */
  type Charset = seq<byte> -> string

  /** `toString(index, length, charset)`: an absolute read of `length` bytes
      as a string; a length of zero is the empty string wherever it is. */
  function Text(data: seq<byte>, index: nat, length: int, charset: Charset): Outcome<string> {
    if length == 0 then Ok("")
    else if length < 0 || index + length > |data| then Err(IndexOutOfBounds)
    else Ok(charset(data[index..index + length]))
  }

  /** US-ASCII decoding: each byte is the character with its code. */
  function Ascii(bytes: seq<byte>): (r: string)
    ensures |r| == |bytes| && forall i :: 0 <= i < |bytes| ==> r[i] as int == bytes[i]
  {
    seq(|bytes|, i requires 0 <= i < |bytes| => bytes[i] as char)
  }

  const US_ASCII: Charset := Ascii

  predicate IsAscii(s: string) {
    forall i :: 0 <= i < |s| ==> s[i] < 128 as char
  }

  /** The bytes of an ASCII string: the writer side of `Ascii`. */
  function AsciiBytes(s: string): (r: seq<byte>)
    requires IsAscii(s)
    ensures |r| == |s| && Ascii(r) == s
  {
    var r := seq(|s|, i requires 0 <= i < |s| => s[i] as int as byte);
    assert Ascii(r) == s;
    r
  }

  // ------------------------------------------------------------ var-ints

  /** `VarIntUtils.readVarInt`: MySQL's length-encoded integer. A first byte
      below 0xFB is the value; 0xFC and 0xFD announce a 2- and a 3-byte
      unsigned value; any other first byte an 8-byte signed one. */
  function ReadVarInt(data: seq<byte>, at: nat): (r: Outcome<(int, nat)>) {
    var first :- ReadUnsigned(data, at, 1);
    if first.0 < 0xFB then Ok((first.0, first.1))
    else if first.0 == 0xFC then Widened(ReadUnsigned(data, first.1, 2))
    else if first.0 == 0xFD then Widened(ReadUnsigned(data, first.1, 3))
    else ReadSigned64(data, first.1)
  }

  function Widened(s: Outcome<(nat, nat)>): Outcome<(int, nat)> {
    if s.Ok? then Ok((s.value.0, s.value.1)) else Err(s.error)
  }

  /** The bound below which the writer side encodes a var-int: the eight
      byte form is read back as a signed value. */
  const VAR_INT_BOUND: nat := 0x8000_0000_0000_0000

  /** How many bytes the shortest length-encoding of `n` takes. */
  function VarIntWidth(n: nat): nat {
    if n < 0xFB then 1 else if n < 0x1_0000 then 3 else if n < 0x100_0000 then 4 else 9
  }

  /** The shortest length-encoding of `n`. */
  function VarIntBytes(n: nat): (r: seq<byte>)
    requires n < VAR_INT_BOUND
    ensures |r| == VarIntWidth(n)
  {
    if n < 0xFB then [n]
    else if n < 0x1_0000 then [0xFC] + LittleEndianBytes(n, 2)
    else if n < 0x100_0000 then [0xFD] + LittleEndianBytes(n, 3)
    else [0xFE] + LittleEndianBytes(n, 8)
  }

  /** The bytes at `at` are `seg`. */
  predicate At(data: seq<byte>, at: nat, seg: seq<byte>) {
    at + |seg| <= |data| && data[at..at + |seg|] == seg
  }

  /** Every sequence lies where it starts. */
  lemma AtWhole(data: seq<byte>)
    ensures At(data, 0, data)
  {
  }

  /** Reading `n` bytes where `v` was written gives `v` back. */
  lemma ReadWritten(data: seq<byte>, at: nat, v: nat, n: nat)
    requires v < Pow256(n) && At(data, at, LittleEndianBytes(v, n))
    ensures ReadUnsigned(data, at, n) == Ok((v, at + n))
  {
    LittleEndianRoundTrip(v, n);
  }

  lemma Pow256Values()
    ensures Pow256(1) == 0x100 && Pow256(2) == 0x1_0000 && Pow256(3) == 0x100_0000
  {
  }

  /** The bytes after the first byte of a segment written at `at`. */
  lemma AtTail(data: seq<byte>, at: nat, seg: seq<byte>)
    requires |seg| > 0 && At(data, at, seg)
    ensures data[at] == seg[0] && At(data, at + 1, seg[1..])
    ensures ReadUnsigned(data, at, 1) == Ok((seg[0], at + 1))
  {
    assert data[at + 1..at + |seg|] == data[at..at + |seg|][1..];
    assert data[at..at + 1] == [seg[0]];
  }

  /** Reading a var-int where one was written gives its value and the index
      after it. */
  lemma ReadVarIntWritten(data: seq<byte>, at: nat, n: nat)
    requires n < VAR_INT_BOUND && At(data, at, VarIntBytes(n))
    ensures ReadVarInt(data, at) == Ok((n, at + |VarIntBytes(n)|))
  {
    var bytes := VarIntBytes(n);
    AtTail(data, at, bytes);
    Pow256Values();
    if n < 0xFB {
    } else if n < 0x1_0000 {
      ReadWritten(data, at + 1, n, 2);
    } else if n < 0x100_0000 {
      ReadWritten(data, at + 1, n, 3);
    } else {
      ReadLongWritten(data, at + 1, n);
    }
  }

  lemma ReadLongWritten(data: seq<byte>, at: nat, n: nat)
    requires n < VAR_INT_BOUND && At(data, at, LittleEndianBytes(n, 8))
    ensures ReadSigned64(data, at) == Ok((n, at + 8))
  {
    assert Pow256(8) == LONG_MODULUS;
    ReadWritten(data, at, n, 8);
  }

  // ------------------------------------------------------------ the buffer

  /** The value of a cursor read. */
  function Taken<T>(s: Outcome<(T, nat)>): Outcome<T> {
    if s.Ok? then Ok(s.value.0) else Err(s.error)
  }

  /** The index after a cursor read: unchanged when it fails. */
  function Next<T>(s: Outcome<(T, nat)>, at: nat): nat {
    if s.Ok? then s.value.1 else at
  }

  /** A readable buffer: its bytes up to the writer index, and the reader
      index. */
  class ByteBuf {
    const data: seq<byte>
    var readerIndex: nat

    constructor(data: seq<byte>)
      ensures this.data == data && readerIndex == 0
    {
      this.data := data;
      readerIndex := 0;
    }

    /** `skipBytes`. */
    method SkipBytes(n: nat) returns (r: Outcome<()>)
      modifies this
      ensures r.Ok? <==> Skip(data, old(readerIndex), n).Ok?
      ensures r.Err? ==> r.error == IndexOutOfBounds && readerIndex == old(readerIndex)
      ensures r.Ok? ==> readerIndex == old(readerIndex) + n
    {
      if readerIndex + n > |data| {
        return Err(IndexOutOfBounds);
      }
      readerIndex := readerIndex + n;
      return Ok(());
    }

    /** `readUnsignedByte`, `readUnsignedShortLE`, `readUnsignedMediumLE`
        and `readUnsignedIntLE` for `n` = 1, 2, 3 and 4. */
    method ReadUnsignedLE(n: nat) returns (r: Outcome<nat>)
      modifies this
      ensures r == Taken(ReadUnsigned(data, old(readerIndex), n))
      ensures readerIndex == Next(ReadUnsigned(data, old(readerIndex), n), old(readerIndex))
    {
      if readerIndex + n > |data| {
        return Err(IndexOutOfBounds);
      }
      var v: nat := 0;
      var i := n;
      while i > 0
        invariant 0 <= i <= n
        invariant v == LittleEndian(data[readerIndex + i..readerIndex + n])
      {
        i := i - 1;
        assert data[readerIndex + i..readerIndex + n][1..] == data[readerIndex + i + 1..readerIndex + n];
        v := data[readerIndex + i] + 0x100 * v;
      }
      readerIndex := readerIndex + n;
      return Ok(v);
    }

    /** `readShortLE`. */
    method ReadShortLE() returns (r: Outcome<int>)
      modifies this
      ensures r == Taken(ReadSigned16(data, old(readerIndex)))
      ensures readerIndex == Next(ReadSigned16(data, old(readerIndex)), old(readerIndex))
    {
      var v :- ReadUnsignedLE(2);
      return Ok(Signed(v, SHORT_MODULUS));
    }

    /** `readLongLE`. */
    method ReadLongLE() returns (r: Outcome<int>)
      modifies this
      ensures r == Taken(ReadSigned64(data, old(readerIndex)))
      ensures readerIndex == Next(ReadSigned64(data, old(readerIndex)), old(readerIndex))
    {
      var v :- ReadUnsignedLE(8);
      return Ok(Signed(v, LONG_MODULUS));
    }

    /** `getByte`: does not move the reader index. */
    method GetByteAt(index: nat) returns (r: Outcome<byte>)
      ensures r == GetByte(data, index)
    {
      if index >= |data| {
        return Err(IndexOutOfBounds);
      }
      return Ok(data[index]);
    }

    /** `toString(index, length, charset)`: does not move the reader
        index. */
    method ToStringAt(index: nat, length: int, charset: Charset) returns (r: Outcome<string>)
      ensures r == Text(data, index, length, charset)
    {
      r := Text(data, index, length, charset);
    }

    /** `toString(charset)`: the readable bytes as a string, without moving
        the reader index. */
    function Readable(charset: Charset): string
      reads this
    {
      if readerIndex <= |data| then charset(data[readerIndex..]) else ""
    }

    /** `VarIntUtils.readVarInt`; after a failed read the index is not
        specified (the decoders give up on the buffer). */
    method ReadVarIntValue() returns (r: Outcome<int>)
      modifies this
      ensures r == Taken(ReadVarInt(data, old(readerIndex)))
      ensures r.Ok? ==> readerIndex == ReadVarInt(data, old(readerIndex)).value.1
    {
      var first :- ReadUnsignedLE(1);
      if first < 0xFB {
        return Ok(first);
      } else if first == 0xFC {
        var v :- ReadUnsignedLE(2);
        return Ok(v);
      } else if first == 0xFD {
        var v :- ReadUnsignedLE(3);
        return Ok(v);
      } else {
        var v :- ReadLongLE();
        return Ok(v);
      }
    }
  }
}
