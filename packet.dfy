/**
 * SocketPacket: the byte-buffer value type every message travels in
 * (src/socketpacket.h). The buffer is a `std::vector<uint8>`; strings are
 * `std::string`. Whether plain `char` is signed depends on the platform; the
 * model takes it to be signed 8-bit, so the conversions between the two
 * reinterpret each element modulo 256. The round-trip results below hold for
 * an unsigned `char` as well, where both conversions are the identity.
 */
module Packet {

  newtype uint8 = x: int | 0 <= x < 256

  /** A C++ `char`: signed 8-bit. */
  newtype Char = x: int | -128 <= x < 128

  /** A `std::string`: a run of `char`, zero bytes included. */
  type CString = seq<Char>

  /** `static_cast<uint8>(c)`: two's complement reinterpretation. */
  function ToByte(c: Char): (b: uint8)
    ensures (b as int - c as int) % 256 == 0
  {
    if c < 0 then (c as int + 256) as uint8 else c as int as uint8
  }

  /** `static_cast<char>(b)`: two's complement reinterpretation. */
  function ToChar(b: uint8): (c: Char)
    ensures (b as int - c as int) % 256 == 0
  {
    if b >= 128 then (b as int - 256) as Char else b as int as Char
  }

  /** The bytes of a string, element by element (`std::copy` into a byte vector). */
  function Bytes(s: CString): (r: seq<uint8>)
    ensures |r| == |s|
  {
    if s == [] then [] else [ToByte(s[0])] + Bytes(s[1..])
  }

  /** The characters of a byte run (`std::string(begin, end)` over bytes). */
  function Chars(b: seq<uint8>): (r: CString)
    ensures |r| == |b|
  {
    if b == [] then [] else [ToChar(b[0])] + Chars(b[1..])
  }

  lemma {:induction false} BytesAt(s: CString, i: nat)
    requires i < |s|
    ensures Bytes(s)[i] == ToByte(s[i])
  {
    if i > 0 { BytesAt(s[1..], i - 1); }
  }

  /** The value type: `mBuffer` is its only state. */
  datatype SocketPacket = SocketPacket(buffer: seq<uint8>)

  /** `SocketPacket()`: the empty packet. */
  function Default(): (p: SocketPacket)
    ensures Size(p) == 0
  {
    SocketPacket([])
  }

  /** `SocketPacket(const std::string&)`: copies the string's bytes in order. */
  function FromString(s: CString): (p: SocketPacket)
    ensures Size(p) == |s|
    ensures forall i :: 0 <= i < |s| ==> Data(p)[i] == ToByte(s[i])
  {
    forall i | 0 <= i < |s| ensures Bytes(s)[i] == ToByte(s[i]) {
      BytesAt(s, i);
    }
    SocketPacket(Bytes(s))
  }

  /** `SocketPacket(const std::vector<uint8>&)`: a copy of the buffer. */
  function FromVector(v: seq<uint8>): (p: SocketPacket)
    ensures Data(p) == v
  {
    SocketPacket(v)
  }

  /**
   * `SocketPacket(std::vector<uint8>&&)`: the buffer is moved in; the moved-from
   * vector is left empty. C++ only promises a moved-from vector is valid but
   * unspecified; empty is what the common standard libraries leave.
   */
  function FromMovedVector(v: seq<uint8>): (r: (SocketPacket, seq<uint8>))
    ensures Data(r.0) == v && r.1 == []
  {
    (SocketPacket(v), [])
  }

  /**
   * `SocketPacket(const uint8* data, size_t size)`: `memcpy` of `size` bytes.
   * `memory` is what the pointer points at; reading past its end is undefined
   * behaviour, so the caller must supply at least `size` bytes.
   */
  function FromPointer(memory: seq<uint8>, size: nat): (p: SocketPacket)
    requires size <= |memory|
    ensures Size(p) == size
    ensures forall i :: 0 <= i < size ==> Data(p)[i] == memory[i]
  {
    SocketPacket(memory[..size])
  }

  /** Copy construction and copy assignment (both defaulted). */
  function Copy(other: SocketPacket): (p: SocketPacket)
    ensures Data(p) == Data(other)
  {
    SocketPacket(other.buffer)
  }

  /**
   * Move construction and move assignment: the target takes the buffer, the
   * source is left holding an empty one (as with the vector constructor, C++
   * promises only a valid but unspecified source; empty is the usual outcome).
   */
  function Move(other: SocketPacket): (r: (SocketPacket, SocketPacket))
    ensures Data(r.0) == Data(other) && Size(r.1) == 0
  {
    (SocketPacket(other.buffer), SocketPacket([]))
  }

  /** `data()`. */
  function Data(p: SocketPacket): seq<uint8> {
    p.buffer
  }

  /** `size()`. */
  function Size(p: SocketPacket): nat {
    |p.buffer|
  }

  /** `toString()`: the buffer's bytes read back as characters. */
  function ToString(p: SocketPacket): (s: CString)
    ensures |s| == Size(p)
  {
    Chars(p.buffer)
  }

  /** `size()` always agrees with `data().size()`. */
  lemma SizeIsDataSize(p: SocketPacket)
    ensures Size(p) == |Data(p)|
  {
  }

  lemma ToCharToByte(c: Char)
    ensures ToChar(ToByte(c)) == c
  {
  }

  lemma ToByteToChar(b: uint8)
    ensures ToByte(ToChar(b)) == b
  {
  }

  lemma {:induction false} CharsOfBytes(s: CString)
    ensures Chars(Bytes(s)) == s
  {
    if s != [] {
      CharsOfBytes(s[1..]);
      ToCharToByte(s[0]);
    }
  }

  lemma {:induction false} BytesOfChars(b: seq<uint8>)
    ensures Bytes(Chars(b)) == b
  {
    if b != [] {
      BytesOfChars(b[1..]);
      ToByteToChar(b[0]);
    }
  }

  /** Round trip: `SocketPacket(s).toString() == s` for every string, zero bytes included. */
  lemma StringRoundTrip(s: CString)
    ensures ToString(FromString(s)) == s
  {
    CharsOfBytes(s);
  }

  /** The other direction: a packet rebuilt from its own string is the same packet. */
  lemma PacketRoundTrip(p: SocketPacket)
    ensures FromString(ToString(p)) == p
  {
    BytesOfChars(p.buffer);
  }

  /** Two strings give the same packet only if they are the same string. */
  lemma FromStringInjective(s: CString, t: CString)
    requires FromString(s) == FromString(t)
    ensures s == t
  {
    StringRoundTrip(s);
    StringRoundTrip(t);
  }
}
