/** The client's blocking reader: first a header, then as many bytes as it announces
    (src/cerver/client.c:1986-2062, 3885-3926), compared with the chunk-driven machine. */
module Blocking {
  import opened Header
  import opened Framing
  import opened Chunks

  // include/cerver/network.h:19
  const MAX_UDP_PACKET_SIZE: nat := 65515

  /** The receiving end of a connection: the bytes that are still to be read. */
  class Source {
    var stream: seq<byte>

    constructor (stream: seq<byte>)
      ensures this.stream == stream
    {
      this.stream := stream;
    }

    /** recv () without errors: some non-empty part of the stream, at most `size` bytes. */
    method Recv(size: nat) returns (bytes: seq<byte>)
      requires 0 < size && stream != []
      modifies this
      ensures 1 <= |bytes| <= size
      ensures old(stream) == bytes + stream
    {
      var n: nat := *;
      if !(1 <= n <= size && n <= |stream|) {
        n := 1;
      }
      bytes, stream := stream[..n], stream[n..];
    }

    /** client_receive_data (): goes on until `requested` bytes have been read. */
    method ReceiveData(requested: nat) returns (buffer: seq<byte>)
      requires 0 < requested <= |stream|
      modifies this
      ensures buffer == old(stream)[..requested]
      ensures stream == old(stream)[requested..]
    {
      buffer := [];
      var dataSize := requested;
      while true
        invariant |buffer| + dataSize == requested && 0 < dataSize <= |stream|
        invariant buffer + stream == old(stream)
        decreases dataSize
      {
        var received := Recv(dataSize);
        ghost var rest := stream;
        assert (buffer + received) + rest == old(stream);
        dataSize := dataSize - |received|;
        buffer := buffer + received;
        if dataSize == 0 {
          break;
        }
      }
    }
  }

  /** What the blocking reader makes of a stream: the packet it hands over, if any, and how many bytes
      it reads.  A size up to that of the header, 0 included, is taken for a packet without data. */
  datatype Read = Read(packet: seq<Frame>, consumed: nat)

  /** The first packet of the stream is all there, as far as the reader will ask for it. */
  predicate Available(stream: seq<byte>) {
    |stream| >= HEADER_SIZE
    && (HEADER_SIZE < SizeField(stream[..HEADER_SIZE]) <= MAX_UDP_PACKET_SIZE ==> SizeField(stream[..HEADER_SIZE]) <= |stream|)
  }

  function BlockingRead(stream: seq<byte>): (r: Read)
    requires Available(stream)
  {
    var image := stream[..HEADER_SIZE];
    var size := SizeField(image);
    if size <= HEADER_SIZE then Read([Frame(image, [])], HEADER_SIZE)
    else if size <= MAX_UDP_PACKET_SIZE then Read([Frame(image, stream[HEADER_SIZE..size])], size)
    else Read([], HEADER_SIZE)
  }

  /** client_connection_get_next_packet_actual (): 0 and a packet, or 1 and a header read for nothing. */
  method GetNextPacket(source: Source) returns (retval: int, handled: seq<Frame>)
    requires Available(source.stream)
    modifies source
    ensures var r := BlockingRead(old(source.stream));
            && handled == r.packet
            && source.stream == old(source.stream)[r.consumed..]
    ensures retval == if handled == [] then 1 else 0
  {
    handled := [];
    ghost var stream := source.stream;
    var image := source.ReceiveData(HEADER_SIZE);
    var size := SizeField(image);
    if size > HEADER_SIZE {
      if size <= MAX_UDP_PACKET_SIZE {
        var data := source.ReceiveData(size - HEADER_SIZE);
        assert stream[HEADER_SIZE..][..size - HEADER_SIZE] == stream[HEADER_SIZE..size];
        assert stream[HEADER_SIZE..][size - HEADER_SIZE..] == stream[size..];
        handled := [Frame(image, data)];
        return 0, handled;
      }
      return 1, handled;
    }
    handled := [Frame(image, [])];
    return 0, handled;
  }

  /** The packets the machine finds in a stream, first one first. */
  function StreamPackets(max: nat, stream: seq<byte>): seq<Frame> {
    Parse(max, NEVER, [], stream).packets
  }

  function First(ps: seq<Frame>): seq<Frame> {
    if ps == [] then [] else [ps[0]]
  }

  lemma {:induction false} FirstPacket(max: nat, stream: seq<byte>)
    requires |stream| >= HEADER_SIZE
    ensures var size := SizeField(stream[..HEADER_SIZE]);
            if HEADER_SIZE <= size <= max && size <= |stream|
            then StreamPackets(max, stream) != [] && StreamPackets(max, stream)[0] == Frame(stream[..HEADER_SIZE], stream[HEADER_SIZE..size])
            else StreamPackets(max, stream) == []
  {
    hide SizeField;
    var image, rest := stream[..HEADER_SIZE], stream[HEADER_SIZE..];
    assert stream == image + rest;
    ParseHeader(max, NEVER, [], image, rest);
    var size := SizeField(image);
    if HEADER_SIZE <= size <= max && size <= |stream| {
      var p := Frame(image, rest[..size - HEADER_SIZE]);
      assert rest[..size - HEADER_SIZE] == stream[HEADER_SIZE..size];
      ParseExtends(max, NEVER, [] + [p], rest[size - HEADER_SIZE..]);
      assert ([] + [p])[0] == p;
    }
  }

  /** The two readers agree on the first packet of a stream exactly when its header is in range for both
      of them, or too large for both: the blocking reader accepts sizes below a header, and has its own
      limit. */
  lemma {:induction false} ReadersAgreeIff(max: nat, stream: seq<byte>)
    requires Available(stream)
    requires HEADER_SIZE <= SizeField(stream[..HEADER_SIZE]) <= max ==> SizeField(stream[..HEADER_SIZE]) <= |stream|
    ensures var size := SizeField(stream[..HEADER_SIZE]);
            First(StreamPackets(max, stream)) == BlockingRead(stream).packet
            <==>
            || (HEADER_SIZE <= size <= MAX_UDP_PACKET_SIZE && size <= max)
            || (size > MAX_UDP_PACKET_SIZE && size > max)
  {
    hide SizeField, StreamPackets;
    FirstPacket(max, stream);
    assert stream[HEADER_SIZE..HEADER_SIZE] == [];
  }

  /** For any chunking: on a stream that starts with a well-formed packet within both limits, the chunk
      machine's first packet is the blocking reader's, which reads exactly its encoding. */
  lemma {:induction false} StreamingAndBlockingAgree(max: nat, p: Frame, t: seq<byte>, rcs: seq<Recv>)
    requires WellFormed(p, max) && WellFormed(p, MAX_UDP_PACKET_SIZE)
    requires Stream(rcs) == Encode(p) + t && PromptRun(max, NEVER, START, rcs)
    ensures Available(Stream(rcs))
    ensures BlockingRead(Stream(rcs)) == Read([p], |Encode(p)|)
    ensures var out := Run(max, NEVER, START, rcs);
            if out.dispatched == [] then out.held == Encode(p) && p.data == [] && t == []
            else out.dispatched[0] == p
  {
    hide Run, PromptRun, SizeField, Parse, EncodeAll, Stream;
    var stream := Stream(rcs);
    assert stream[..HEADER_SIZE] == p.header && stream[HEADER_SIZE..|Encode(p)|] == p.data;
    FirstPacket(max, stream);
    StreamDispatched(max, NEVER, rcs);
    var out := Run(max, NEVER, START, rcs);
    if out.dispatched == [] {
      assert [] + [Frame(out.held, [])] == [Frame(out.held, [])];
      assert Parse(max, NEVER, [], stream).packets == [Frame(out.held, [])];
      assert p.data == [] && out.held == p.header == Encode(p);
      RunConserves(max, NEVER, START, rcs);
      EncodeAllEmpty();
      assert Accounted(START) + stream == stream;
      assert out.held == Encode(p) + t;
    }
  }
}
