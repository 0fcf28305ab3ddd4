/** The memory image of a PacketHeader (include/cerver/packets.h:147-158) on an LP64 little-endian
    machine, where sizeof (PacketHeader) is 32:

      0  packet_type (4)   4 padding (4)   8 packet_size (8)   16 handler_id (1)   17 padding (3)
      20 request_type (4)  24 sock_fd (2)  26 padding (6)

    The code moves headers with memcpy, so the padding travels with the fields.  Keeping it in the
    record is what makes the image and the record carry the same information. */
module Header {
  type byte = x: int | 0 <= x < 0x100
  type u16 = x: int | 0 <= x < 0x1_0000
  type u32 = x: int | 0 <= x < 0x1_0000_0000
  type u64 = x: int | 0 <= x < 0x1_0000_0000_0000_0000

  /** sizeof (PacketHeader) */
  const HEADER_SIZE: nat := 32

  /** How far size_t arithmetic reaches before it wraps. */
  const SIZE_T_RANGE: nat := 0x1_0000_0000_0000_0000

  /** size_t subtraction. */
  function SizeSub(a: nat, b: nat): (d: nat)
    requires a < SIZE_T_RANGE && b < SIZE_T_RANGE
    ensures d < SIZE_T_RANGE
    ensures b <= a ==> d == a - b
    ensures a < b ==> d == SIZE_T_RANGE - (b - a)
  {
    (a - b) % SIZE_T_RANGE
  }

  function LittleEndian(v: nat, n: nat): (s: seq<byte>)
    ensures |s| == n
  {
    if n == 0 then [] else [v % 0x100] + LittleEndian(v / 0x100, n - 1)
  }

  function FromLittleEndian(s: seq<byte>): nat {
    if s == [] then 0 else s[0] + 0x100 * FromLittleEndian(s[1..])
  }

  function Range(n: nat): (r: nat)
    ensures r > 0
  {
    if n == 0 then 1 else 0x100 * Range(n - 1)
  }

  lemma {:induction false} LittleEndianRoundTrip(v: nat, n: nat)
    requires v < Range(n)
    ensures FromLittleEndian(LittleEndian(v, n)) == v
  {
    if n == 0 {
    } else {
      LittleEndianRoundTrip(v / 0x100, n - 1);
      assert LittleEndian(v, n)[1..] == LittleEndian(v / 0x100, n - 1);
    }
  }

  lemma {:induction false} FromLittleEndianRoundTrip(s: seq<byte>)
    ensures FromLittleEndian(s) < Range(|s|)
    ensures LittleEndian(FromLittleEndian(s), |s|) == s
  {
    if s == [] {
    } else {
      FromLittleEndianRoundTrip(s[1..]);
      var rest := FromLittleEndian(s[1..]);
      assert (s[0] + 0x100 * rest) % 0x100 == s[0];
      assert (s[0] + 0x100 * rest) / 0x100 == rest;
      assert s == [s[0]] + s[1..];
    }
  }

  /** The ranges of the field types are the ranges of their widths. */
  lemma FieldRanges()
    ensures Range(1) == 0x100 && Range(2) == 0x1_0000 && Range(4) == 0x1_0000_0000 && Range(8) == SIZE_T_RANGE
  {
    assert Range(1) == 0x100 * Range(0);
    assert Range(2) == 0x100 * Range(1);
    assert Range(3) == 0x100 * Range(2);
    assert Range(4) == 0x100 * Range(3);
    assert Range(5) == 0x100 * Range(4);
    assert Range(6) == 0x100 * Range(5);
    assert Range(7) == 0x100 * Range(6);
    assert Range(8) == 0x100 * Range(7);
  }

  datatype PacketHeader = PacketHeader(
    packetType: u32,
    packetSize: u64,
    handlerId: byte,
    requestType: u32,
    sockFd: u16,
    padding: seq<byte>)
  {
    ghost predicate Valid() {
      |padding| == 13
    }
  }

  function EncodeHeader(h: PacketHeader): (s: seq<byte>)
    requires h.Valid()
    ensures |s| == HEADER_SIZE
  {
    LittleEndian(h.packetType, 4) + h.padding[..4] + LittleEndian(h.packetSize, 8)
    + LittleEndian(h.handlerId, 1) + h.padding[4..7] + LittleEndian(h.requestType, 4)
    + LittleEndian(h.sockFd, 2) + h.padding[7..13]
  }

  /** The packet_size field read out of an image. */
  function SizeField(image: seq<byte>): (n: nat)
    requires |image| == HEADER_SIZE
    ensures n < SIZE_T_RANGE
  {
    FromLittleEndianRoundTrip(image[8..16]);
    FieldRanges();
    FromLittleEndian(image[8..16])
  }

  function DecodeHeader(image: seq<byte>): (h: PacketHeader)
    requires |image| == HEADER_SIZE
    ensures h.Valid()
  {
    FromLittleEndianRoundTrip(image[0..4]);
    FromLittleEndianRoundTrip(image[16..17]);
    FromLittleEndianRoundTrip(image[20..24]);
    FromLittleEndianRoundTrip(image[24..26]);
    FieldRanges();
    PacketHeader(
      FromLittleEndian(image[0..4]), SizeField(image), FromLittleEndian(image[16..17]),
      FromLittleEndian(image[20..24]), FromLittleEndian(image[24..26]),
      image[4..8] + image[17..20] + image[26..32])
  }

  /** Copying a header into a packet buffer and reading it back gives the same header, and its
      packet_size is the field the receiver looks at. */
  lemma DecodeEncode(h: PacketHeader)
    requires h.Valid()
    ensures SizeField(EncodeHeader(h)) == h.packetSize
    ensures DecodeHeader(EncodeHeader(h)) == h
  {
    hide FromLittleEndian, LittleEndian, Range;
    var s := EncodeHeader(h);
    FieldRanges();
    LittleEndianRoundTrip(h.packetType, 4);
    LittleEndianRoundTrip(h.packetSize, 8);
    LittleEndianRoundTrip(h.handlerId, 1);
    LittleEndianRoundTrip(h.requestType, 4);
    LittleEndianRoundTrip(h.sockFd, 2);
    assert s[0..4] == LittleEndian(h.packetType, 4);
    assert s[8..16] == LittleEndian(h.packetSize, 8);
    assert s[16..17] == LittleEndian(h.handlerId, 1);
    assert s[20..24] == LittleEndian(h.requestType, 4);
    assert s[24..26] == LittleEndian(h.sockFd, 2);
    assert s[4..8] == h.padding[..4] && s[17..20] == h.padding[4..7] && s[26..32] == h.padding[7..13];
    assert h.padding[..4] + h.padding[4..7] + h.padding[7..13] == h.padding;
  }

  /** Any 32 bytes off the wire are the image of exactly one header. */
  lemma EncodeDecode(image: seq<byte>)
    requires |image| == HEADER_SIZE
    ensures EncodeHeader(DecodeHeader(image)) == image
  {
    hide FromLittleEndian, LittleEndian, Range;
    FromLittleEndianRoundTrip(image[0..4]);
    FromLittleEndianRoundTrip(image[8..16]);
    FromLittleEndianRoundTrip(image[16..17]);
    FromLittleEndianRoundTrip(image[20..24]);
    FromLittleEndianRoundTrip(image[24..26]);
    var p := image[4..8] + image[17..20] + image[26..32];
    assert p[..4] == image[4..8] && p[4..7] == image[17..20] && p[7..13] == image[26..32];
    assert image == image[0..4] + image[4..8] + image[8..16] + image[16..17] + image[17..20]
                    + image[20..24] + image[24..26] + image[26..32];
  }

  /** The i-th digit of a number to the base of 256, least significant first. */
  function Digit(v: nat, i: nat): (d: nat)
    ensures d < 0x100
  {
    if i == 0 then v % 0x100 else Digit(v / 0x100, i - 1)
  }

  lemma {:induction false} LittleEndianDigit(v: nat, n: nat, i: nat)
    requires i < n
    ensures LittleEndian(v, n)[i] == Digit(v, i)
    decreases i
  {
    if i == 0 {
    } else {
      LittleEndianDigit(v / 0x100, n - 1, i - 1);
    }
  }

  /** Where the fields are in a header image. */
  lemma FieldPositions(h: PacketHeader)
    requires h.Valid()
    ensures var s := EncodeHeader(h);
      && s[0..4] == LittleEndian(h.packetType, 4) && s[8..16] == LittleEndian(h.packetSize, 8)
      && s[16..17] == LittleEndian(h.handlerId, 1) && s[20..24] == LittleEndian(h.requestType, 4)
      && s[24..26] == LittleEndian(h.sockFd, 2)
      && s[4..8] + s[17..20] + s[26..32] == h.padding
  {
    hide LittleEndian;
    var s := EncodeHeader(h);
    assert s[4..8] == h.padding[..4] && s[17..20] == h.padding[4..7] && s[26..32] == h.padding[7..13];
    assert h.padding[..4] + h.padding[4..7] + h.padding[7..13] == h.padding;
  }

  lemma SliceByte(s: seq<byte>, m: nat, v: nat, n: nat, i: nat)
    requires m + n <= |s| && s[m..m + n] == LittleEndian(v, n) && i < n
    ensures s[m + i] == Digit(v, i)
  {
    hide LittleEndian, Digit;
    LittleEndianDigit(v, n, i);
    assert s[m..m + n][i] == s[m + i];
  }

  /** Every byte of every field, least significant first, as on a little-endian LP64 machine. */
  lemma FieldBytes(h: PacketHeader, i: nat)
    requires h.Valid()
    ensures i < 4 ==> EncodeHeader(h)[i] == Digit(h.packetType, i)
    ensures i < 8 ==> EncodeHeader(h)[8 + i] == Digit(h.packetSize, i)
    ensures EncodeHeader(h)[16] == Digit(h.handlerId, 0) == h.handlerId
    ensures i < 4 ==> EncodeHeader(h)[20 + i] == Digit(h.requestType, i)
    ensures i < 2 ==> EncodeHeader(h)[24 + i] == Digit(h.sockFd, i)
  {
    hide LittleEndian, EncodeHeader;
    var s := EncodeHeader(h);
    FieldPositions(h);
    if i < 4 {
      SliceByte(s, 0, h.packetType, 4, i);
      SliceByte(s, 20, h.requestType, 4, i);
    }
    if i < 8 {
      SliceByte(s, 8, h.packetSize, 8, i);
    }
    if i < 2 {
      SliceByte(s, 24, h.sockFd, 2, i);
    }
    SliceByte(s, 16, h.handlerId, 1, 0);
  }
}
