/** The Packet structure (include/cerver/packets.h:267-298) and the functions that fill it
    (src/cerver/packets.c).  Allocation is taken to succeed. */
module Packets {
  import opened Header
  import opened Framing

  class Packet {
    var packetType: u32
    var reqType: u32

    // packet->header, as its memory image
    var header: seq<byte>

    // packet->data is a buffer of packet->data_size bytes, or NULL
    var data: array?<byte>
    // where packet_add_data () goes on, and how many bytes it still accepts
    var dataEnd: nat
    var remaining: nat

    // packet->packet, the contiguous bytes to send
    var image: seq<byte>

    ghost predicate Valid()
      reads this, data
    {
      && |header| == HEADER_SIZE
      && dataEnd + remaining <= DataSize()
    }

    function DataSize(): nat
      reads this
    {
      if data == null then 0 else data.Length
    }

    function Data(): (s: seq<byte>)
      reads this, data
      ensures |s| == DataSize()
    {
      if data == null then [] else data[..]
    }

    /** The part of the data filled so far by packet_add_data (). */
    function Filled(): seq<byte>
      requires dataEnd <= DataSize()
      reads this, data
    {
      Data()[..dataEnd]
    }

    function Framed(): Frame
      reads this, data
    {
      Frame(header, Data())
    }

    /** packet_new () */
    constructor (packetType: u32, reqType: u32)
      ensures Valid() && data == null && dataEnd == remaining == 0 && image == []
      ensures this.packetType == packetType && this.reqType == reqType
    {
      this.packetType := packetType;
      this.reqType := reqType;
      header := seq(HEADER_SIZE, _ => 0);
      data := null;
      dataEnd, remaining := 0, 0;
      image := [];
    }

    /** packet_create_with_data () */
    constructor WithData(dataSize: nat)
      ensures Valid() && DataSize() == dataSize && dataEnd == 0 && remaining == dataSize
      ensures data == null <==> dataSize == 0
      ensures data != null ==> fresh(data)
    {
      packetType, reqType := 0, 0;
      header := seq(HEADER_SIZE, _ => 0);
      dataEnd, remaining := 0, dataSize;
      image := [];
      if dataSize > 0 {
        data := new byte[dataSize];
      } else {
        data := null;
      }
    }

    /** packet_add_data (): copies into the existing buffer.  The caller hands over valid memory; a
        buffer that does not fit is refused and nothing changes. */
    method AddData(source: seq<byte>) returns (retval: int)
      requires Valid()
      modifies this`dataEnd, this`remaining, data
      ensures Valid()
      ensures retval == if |source| <= old(remaining) then 0 else 1
      ensures retval == 0 ==>
                && Filled() == old(Filled()) + source
                && remaining == old(remaining) - |source|
                && dataEnd == old(dataEnd) + |source|
                && Data()[dataEnd..] == old(Data())[dataEnd..]
      ensures retval == 1 ==> Data() == old(Data()) && dataEnd == old(dataEnd) && remaining == old(remaining)
    {
      if |source| > remaining {
        return 1;
      }
      if data != null {
        forall i | 0 <= i < |source| {
          data[dataEnd + i] := source[i];
        }
      }
      dataEnd, remaining := dataEnd + |source|, remaining - |source|;
      return 0;
    }

    /** packet_append_data (): grows the buffer when there is one, makes one otherwise. */
    method AppendData(source: seq<byte>)
      requires Valid()
      modifies this`data, this`dataEnd, this`remaining
      ensures |header| == HEADER_SIZE && fresh(data)
      ensures Data() == old(Data()) + source
      ensures dataEnd == DataSize() && remaining == old(remaining)
    {
      var previous := Data();
      if data != null {
        data := new byte[|previous| + |source|](i requires 0 <= i < |previous| + |source| =>
          if i < |previous| then previous[i] else source[i - |previous|]);
        dataEnd := |previous| + |source|;
      } else {
        data := new byte[|source|](i requires 0 <= i < |source| => source[i]);
        dataEnd := |source|;
      }
      assert Data() == previous + source;
    }

    /** packet_set_data (): replaces the data. */
    method SetData(source: seq<byte>)
      requires Valid()
      modifies this`data, this`dataEnd
      ensures |header| == HEADER_SIZE && fresh(data)
      ensures Data() == source && dataEnd == DataSize()
    {
      data := new byte[|source|](i requires 0 <= i < |source| => source[i]);
      dataEnd := |source|;
      assert Data() == source;
    }

    /** packet_set_header_values () */
    method SetHeaderValues(h: PacketHeader)
      requires |header| == HEADER_SIZE && h.Valid()
      modifies this`header
      ensures |header| == HEADER_SIZE
      ensures DecodeHeader(header) == h.(padding := old(DecodeHeader(header).padding))
    {
      var h' := h.(padding := DecodeHeader(header).padding);
      DecodeEncode(h');
      header := EncodeHeader(h');
    }

    /** packet_generate (): the header gets the packet's type, request and total size and keeps its
        other fields; the packet buffer is that header followed by the data. */
    method Generate()
      requires |header| == HEADER_SIZE
      requires HEADER_SIZE + DataSize() < SIZE_T_RANGE
      modifies this`header, this`image
      ensures |header| == HEADER_SIZE
      ensures DecodeHeader(header) == old(DecodeHeader(header)).(
                packetType := packetType, packetSize := HEADER_SIZE + DataSize(), requestType := reqType)
      ensures image == Encode(Framed())
      ensures forall max: nat :: HEADER_SIZE + DataSize() <= max ==> WellFormed(Framed(), max)
    {
      var h := DecodeHeader(header).(
        packetType := packetType, packetSize := HEADER_SIZE + DataSize(), requestType := reqType);
      DecodeEncode(h);
      header := EncodeHeader(h);
      image := header + Data();
    }
  }
}
