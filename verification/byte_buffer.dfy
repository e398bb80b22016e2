/** The byte-level layer every encoder of the server is built on: fixed-width
    integers in host (little-endian) and network (big-endian) order, the
    host-to-big byte swap, length-prefixed strings, and a ByteBuffer with a
    write end and a read cursor. */
module ByteBuffers {
  import opened Wrappers

  type byte = x: int | 0 <= x < 0x100
  type uint16 = x: int | 0 <= x < 0x1_0000
  type uint32 = x: int | 0 <= x < 0x1_0000_0000
  type uint64 = x: int | 0 <= x < 0x1_0000_0000_0000_0000

  /** The two messages an object's elements are written into: the
      baselines message, which sends the whole object, and the deltas
      message, which sends a change to it. */
  datatype Kind = Baseline | Delta

  function Pow256(n: nat): (r: nat)
    ensures r >= 1
  {
    if n == 0 then 1 else 256 * Pow256(n - 1)
  }

  lemma Pow256Facts()
    ensures Pow256(1) == 0x100 && Pow256(2) == 0x1_0000
    ensures Pow256(4) == 0x1_0000_0000 && Pow256(8) == 0x1_0000_0000_0000_0000
  {
    assert Pow256(1) == 0x100;
    assert Pow256(2) == 0x1_0000;
    assert Pow256(4) == 0x1_0000_0000;
  }

  // ---------------------------------------------------------------------
  // Fixed-width integers

  /** The n bytes of x in host (little-endian) order; x is reduced modulo
      256^n, as storing it in an n-byte integer does. */
  function LittleEndian(x: nat, n: nat): (r: seq<byte>)
    ensures |r| == n
  {
    if n == 0 then [] else [x % 256] + LittleEndian(x / 256, n - 1)
  }

  /** The value of bytes read in host (little-endian) order. */
  function FromLittleEndian(s: seq<byte>): (x: nat)
    ensures x < Pow256(|s|)
  {
    if s == [] then 0 else s[0] + 256 * FromLittleEndian(s[1..])
  }

  lemma {:induction false} LittleEndianRoundTrip(x: nat, n: nat)
    requires x < Pow256(n)
    ensures FromLittleEndian(LittleEndian(x, n)) == x
  {
    if n > 0 {
      assert x / 256 < Pow256(n - 1);
      LittleEndianRoundTrip(x / 256, n - 1);
      assert LittleEndian(x, n)[1..] == LittleEndian(x / 256, n - 1);
    }
  }

  /** The n bytes of x in network (big-endian) order. */
  function BigEndian(x: nat, n: nat): (r: seq<byte>)
    ensures |r| == n
  {
    if n == 0 then [] else BigEndian(x / 256, n - 1) + [x % 256]
  }

  /** The value of bytes read in network (big-endian) order. */
  function FromBigEndian(s: seq<byte>): (x: nat)
    ensures x < Pow256(|s|)
  {
    if s == [] then 0 else 256 * FromBigEndian(s[..|s| - 1]) + s[|s| - 1]
  }

  lemma {:induction false} BigEndianRoundTrip(x: nat, n: nat)
    requires x < Pow256(n)
    ensures FromBigEndian(BigEndian(x, n)) == x
  {
    if n > 0 {
      assert x / 256 < Pow256(n - 1);
      BigEndianRoundTrip(x / 256, n - 1);
      assert BigEndian(x, n)[..n - 1] == BigEndian(x / 256, n - 1);
    }
  }

  function Uint8Bytes(x: byte): seq<byte> { LittleEndian(x, 1) }
  function Uint16Bytes(x: uint16): seq<byte> { LittleEndian(x, 2) }
  function Uint32Bytes(x: uint32): seq<byte> { LittleEndian(x, 4) }
  function Uint64Bytes(x: uint64): seq<byte> { LittleEndian(x, 8) }

  /** Bytes read back in host order and written again in host order are unchanged. */
  lemma {:induction false} FromLittleEndianRoundTrip(s: seq<byte>)
    ensures LittleEndian(FromLittleEndian(s), |s|) == s
  {
    if s != [] {
      var x := FromLittleEndian(s);
      assert x % 256 == s[0] && x / 256 == FromLittleEndian(s[1..]);
      FromLittleEndianRoundTrip(s[1..]);
    }
  }

  /** hostToBig<uint16_t> on a little-endian host: the value whose host-order
      bytes are the big-endian bytes of x (the two bytes swapped). */
  function HostToBig16(x: uint16): uint16 {
    Pow256Facts();
    FromLittleEndian(BigEndian(x, 2))
  }

  /** hostToBig<uint32_t> on a little-endian host (the four bytes reversed). */
  function HostToBig32(x: uint32): uint32 {
    Pow256Facts();
    FromLittleEndian(BigEndian(x, 4))
  }

  /** Writing a byte-swapped value in host order yields its big-endian bytes. */
  lemma HostToBig16Bytes(x: uint16)
    ensures Uint16Bytes(HostToBig16(x)) == BigEndian(x, 2)
  {
    FromLittleEndianRoundTrip(BigEndian(x, 2));
  }

  lemma HostToBig32Bytes(x: uint32)
    ensures Uint32Bytes(HostToBig32(x)) == BigEndian(x, 4)
  {
    FromLittleEndianRoundTrip(BigEndian(x, 4));
  }

  // ---------------------------------------------------------------------
  // Readers over the unread bytes; None is the underflow of a short buffer

  function TakeUint8(s: seq<byte>): Option<(byte, seq<byte>)> {
    if |s| < 1 then None else Some((s[0], s[1..]))
  }

  function TakeUint16(s: seq<byte>): Option<(uint16, seq<byte>)> {
    if |s| < 2 then None else Pow256Facts(); Some((FromLittleEndian(s[..2]), s[2..]))
  }

  function TakeUint32(s: seq<byte>): Option<(uint32, seq<byte>)> {
    if |s| < 4 then None else Pow256Facts(); Some((FromLittleEndian(s[..4]), s[4..]))
  }

  function TakeUint64(s: seq<byte>): Option<(uint64, seq<byte>)> {
    if |s| < 8 then None else Pow256Facts(); Some((FromLittleEndian(s[..8]), s[8..]))
  }

  lemma ReadAfterWrite(x: nat, n: nat, rest: seq<byte>)
    requires x < Pow256(n)
    ensures (LittleEndian(x, n) + rest)[..n] == LittleEndian(x, n)
    ensures (LittleEndian(x, n) + rest)[n..] == rest
    ensures FromLittleEndian((LittleEndian(x, n) + rest)[..n]) == x
  {
    LittleEndianRoundTrip(x, n);
  }

  lemma Uint8RoundTrip(x: byte, rest: seq<byte>)
    ensures TakeUint8(Uint8Bytes(x) + rest) == Some((x, rest))
  {
    Pow256Facts();
    ReadAfterWrite(x, 1, rest);
  }

  lemma Uint16RoundTrip(x: uint16, rest: seq<byte>)
    ensures TakeUint16(Uint16Bytes(x) + rest) == Some((x, rest))
  {
    Pow256Facts();
    ReadAfterWrite(x, 2, rest);
  }

  lemma Uint32RoundTrip(x: uint32, rest: seq<byte>)
    ensures TakeUint32(Uint32Bytes(x) + rest) == Some((x, rest))
  {
    Pow256Facts();
    ReadAfterWrite(x, 4, rest);
  }

  lemma Uint64RoundTrip(x: uint64, rest: seq<byte>)
    ensures TakeUint64(Uint64Bytes(x) + rest) == Some((x, rest))
  {
    Pow256Facts();
    ReadAfterWrite(x, 8, rest);
  }

  // ---------------------------------------------------------------------
  // Strings. The layout of anh/byte_buffer.h is not part of this model; the
  // one below (a 16-bit length then the bytes; a 32-bit length then 16-bit
  // code units) stands in for it, and what the message proofs use of it is
  // only that the reader inverts the writer and stops where the writer did.

  /** A std::string whose length fits the length prefix. */
  predicate Encodable(s: seq<byte>) {
    |s| < 0x1_0000
  }

  /** A std::wstring whose length fits the length prefix. */
  predicate WideEncodable(w: seq<uint16>) {
    |w| < 0x1_0000_0000
  }

  function StringBytes(s: seq<byte>): (r: seq<byte>)
    ensures |r| == 2 + |s|
  {
    LittleEndian(|s|, 2) + s
  }

  function TakeString(s: seq<byte>): Option<(seq<byte>, seq<byte>)> {
    match TakeUint16(s)
    case None => None
    case Some((len, rest)) => if |rest| < len then None else Some((rest[..len], rest[len..]))
  }

  lemma ReadStringAfterWrite(s: seq<byte>, rest: seq<byte>)
    requires Encodable(s)
    ensures TakeString(StringBytes(s) + rest) == Some((s, rest))
  {
    Pow256Facts();
    assert StringBytes(s) + rest == LittleEndian(|s|, 2) + (s + rest);
    ReadAfterWrite(|s|, 2, s + rest);
    assert (s + rest)[..|s|] == s && (s + rest)[|s|..] == rest;
  }

  function UnitsBytes(w: seq<uint16>): (r: seq<byte>)
    ensures |r| == 2 * |w|
  {
    if w == [] then [] else LittleEndian(w[0], 2) + UnitsBytes(w[1..])
  }

  function TakeUnits(s: seq<byte>, count: nat): Option<(seq<uint16>, seq<byte>)> {
    if count == 0 then Some(([], s))
    else match TakeUint16(s)
      case None => None
      case Some((c, rest)) =>
        match TakeUnits(rest, count - 1)
        case None => None
        case Some((w, tail)) => Some(([c] + w, tail))
  }

  lemma {:induction false} ReadUnitsAfterWrite(w: seq<uint16>, rest: seq<byte>)
    ensures TakeUnits(UnitsBytes(w) + rest, |w|) == Some((w, rest))
  {
    if w != [] {
      var tail := UnitsBytes(w[1..]) + rest;
      assert UnitsBytes(w) + rest == Uint16Bytes(w[0]) + tail;
      Uint16RoundTrip(w[0], tail);
      assert TakeUint16(UnitsBytes(w) + rest) == Some((w[0], tail));
      ReadUnitsAfterWrite(w[1..], rest);
      assert TakeUnits(tail, |w| - 1) == Some((w[1..], rest));
      assert [w[0]] + w[1..] == w;
    } else {
      assert UnitsBytes(w) + rest == rest;
    }
  }

  function WideStringBytes(w: seq<uint16>): (r: seq<byte>)
    ensures |r| == 4 + 2 * |w|
  {
    LittleEndian(|w|, 4) + UnitsBytes(w)
  }

  function TakeWideString(s: seq<byte>): Option<(seq<uint16>, seq<byte>)> {
    match TakeUint32(s)
    case None => None
    case Some((len, rest)) => TakeUnits(rest, len)
  }

  lemma ReadWideStringAfterWrite(w: seq<uint16>, rest: seq<byte>)
    requires WideEncodable(w)
    ensures TakeWideString(WideStringBytes(w) + rest) == Some((w, rest))
  {
    Pow256Facts();
    assert WideStringBytes(w) + rest == LittleEndian(|w|, 4) + (UnitsBytes(w) + rest);
    ReadAfterWrite(|w|, 4, UnitsBytes(w) + rest);
    ReadUnitsAfterWrite(w, rest);
  }

  // ---------------------------------------------------------------------

  /** anh::ByteBuffer: bytes written at the end, read from a cursor. */
  class ByteBuffer {
    var data: seq<byte>
    var readPosition: nat

    ghost predicate Valid()
      reads this
    {
      readPosition <= |data|
    }

    /** The bytes not yet read; their count is what size() reports. */
    function Unread(): seq<byte>
      reads this
      requires Valid()
    {
      data[readPosition..]
    }

    constructor ()
      ensures Valid() && data == [] && readPosition == 0
    {
      data := [];
      readPosition := 0;
    }

    /** A buffer holding the given bytes, none of them read yet. */
    constructor Wrap(bytes: seq<byte>)
      ensures Valid() && data == bytes && readPosition == 0
    {
      data := bytes;
      readPosition := 0;
    }

    method Write(bytes: seq<byte>)
      requires Valid()
      modifies this
      ensures Valid() && data == old(data) + bytes && readPosition == old(readPosition)
    {
      data := data + bytes;
    }

    method WriteUint8(x: byte)
      requires Valid()
      modifies this
      ensures Valid() && data == old(data) + Uint8Bytes(x) && readPosition == old(readPosition)
    {
      Write(Uint8Bytes(x));
    }

    method WriteUint16(x: uint16)
      requires Valid()
      modifies this
      ensures Valid() && data == old(data) + Uint16Bytes(x) && readPosition == old(readPosition)
    {
      Write(Uint16Bytes(x));
    }

    method WriteUint32(x: uint32)
      requires Valid()
      modifies this
      ensures Valid() && data == old(data) + Uint32Bytes(x) && readPosition == old(readPosition)
    {
      Write(Uint32Bytes(x));
    }

    method WriteUint64(x: uint64)
      requires Valid()
      modifies this
      ensures Valid() && data == old(data) + Uint64Bytes(x) && readPosition == old(readPosition)
    {
      Write(Uint64Bytes(x));
    }

    method WriteString(s: seq<byte>)
      requires Valid()
      modifies this
      ensures Valid() && data == old(data) + StringBytes(s) && readPosition == old(readPosition)
    {
      Write(StringBytes(s));
    }

    method WriteWideString(w: seq<uint16>)
      requires Valid()
      modifies this
      ensures Valid() && data == old(data) + WideStringBytes(w) && readPosition == old(readPosition)
    {
      Write(WideStringBytes(w));
    }

    /** append(other): the other buffer's unread bytes go to the end of this one. */
    method Append(other: ByteBuffer)
      requires Valid() && other.Valid() && other != this
      modifies this
      ensures Valid() && data == old(data) + other.Unread() && readPosition == old(readPosition)
    {
      Write(other.Unread());
    }

    method ReadUint8() returns (r: Option<byte>)
      requires Valid()
      modifies this
      ensures Valid() && data == old(data)
      ensures TakeUint8(old(Unread())) == if r.Some? then Some((r.value, Unread())) else None
      ensures r.None? ==> readPosition == old(readPosition)
    {
      if |data| - readPosition < 1 {
        return None;
      }
      r := Some(data[readPosition]);
      readPosition := readPosition + 1;
    }

    method ReadUint16() returns (r: Option<uint16>)
      requires Valid()
      modifies this
      ensures Valid() && data == old(data)
      ensures TakeUint16(old(Unread())) == if r.Some? then Some((r.value, Unread())) else None
      ensures r.None? ==> readPosition == old(readPosition)
    {
      var read := TakeUint16(Unread());
      if read.None? {
        return None;
      }
      r := Some(read.value.0);
      readPosition := readPosition + 2;
    }

    method ReadUint32() returns (r: Option<uint32>)
      requires Valid()
      modifies this
      ensures Valid() && data == old(data)
      ensures TakeUint32(old(Unread())) == if r.Some? then Some((r.value, Unread())) else None
      ensures r.None? ==> readPosition == old(readPosition)
    {
      var read := TakeUint32(Unread());
      if read.None? {
        return None;
      }
      r := Some(read.value.0);
      readPosition := readPosition + 4;
    }

    method ReadUint64() returns (r: Option<uint64>)
      requires Valid()
      modifies this
      ensures Valid() && data == old(data)
      ensures TakeUint64(old(Unread())) == if r.Some? then Some((r.value, Unread())) else None
      ensures r.None? ==> readPosition == old(readPosition)
    {
      var read := TakeUint64(Unread());
      if read.None? {
        return None;
      }
      r := Some(read.value.0);
      readPosition := readPosition + 8;
    }

    method ReadString() returns (r: Option<seq<byte>>)
      requires Valid()
      modifies this
      ensures Valid() && data == old(data)
      ensures TakeString(old(Unread())) == if r.Some? then Some((r.value, Unread())) else None
      ensures r.None? ==> readPosition == old(readPosition)
    {
      var read := TakeString(Unread());
      if read.None? {
        return None;
      }
      r := Some(read.value.0);
      readPosition := |data| - |read.value.1|;
      assert Unread() == read.value.1;
    }

    method ReadWideString() returns (r: Option<seq<uint16>>)
      requires Valid()
      modifies this
      ensures Valid() && data == old(data)
      ensures TakeWideString(old(Unread())) == if r.Some? then Some((r.value, Unread())) else None
      ensures r.None? ==> readPosition == old(readPosition)
    {
      var read := TakeWideString(Unread());
      if read.None? {
        return None;
      }
      ReadWideStringSuffix(Unread());
      r := Some(read.value.0);
      readPosition := |data| - |read.value.1|;
      assert Unread() == read.value.1;
    }
  }

  // The rest left after a read is a suffix of what it read from.

  lemma {:induction false} ReadUnitsSuffix(s: seq<byte>, count: nat)
    ensures TakeUnits(s, count).Some? ==>
      var rest := TakeUnits(s, count).value.1;
      |rest| <= |s| && s[|s| - |rest|..] == rest
  {
    if count > 0 && |s| >= 2 {
      ReadUnitsSuffix(s[2..], count - 1);
      var r := TakeUnits(s[2..], count - 1);
      if r.Some? {
        var rest := r.value.1;
        assert TakeUnits(s, count).value.1 == rest;
        assert s[2..][|s| - 2 - |rest|..] == s[|s| - |rest|..];
      }
    }
  }

  lemma ReadWideStringSuffix(s: seq<byte>)
    ensures TakeWideString(s).Some? ==>
      var rest := TakeWideString(s).value.1;
      |rest| <= |s| && s[|s| - |rest|..] == rest
  {
    if |s| >= 4 {
      ReadUnitsSuffix(s[4..], TakeUint32(s).value.0);
    }
  }
}
