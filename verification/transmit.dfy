/** From the sender's fields and data to the receiver's: packets built with packet_append_data () and
    packet_generate (), sent over a socket, received by the machine. */
module Transmit {
  import opened Header
  import opened Framing
  import opened Chunks
  import opened Packets
  import opened Send
  import opened Receive
  import opened RoundTrip

  /** What a user of the library puts into one packet; the data may be appended in several steps. */
  datatype Message = Message(packetType: u32, requestType: u32, handlerId: byte, sockFd: u16, appended: seq<seq<byte>>) {
    function Size(): nat {
      HEADER_SIZE + |Flatten(appended)|
    }
  }

  /** The frame brings exactly the message. */
  ghost predicate Carries(f: Frame, m: Message) {
    && |f.header| == HEADER_SIZE
    && f.data == Flatten(m.appended)
    && var h := DecodeHeader(f.header);
       && h.packetType == m.packetType
       && h.packetSize == m.Size()
       && h.requestType == m.requestType
       && h.handlerId == m.handlerId
       && h.sockFd == m.sockFd
  }

  ghost predicate CarriesAll(fs: seq<Frame>, ms: seq<Message>) {
    && |fs| == |ms|
    && forall i :: 0 <= i < |fs| ==> Carries(fs[i], ms[i])
  }

  method SendMessage(socket: Socket, m: Message) returns (ok: bool, f: Frame)
    requires m.Size() < SIZE_T_RANGE
    modifies socket
    ensures Carries(f, m)
    ensures ok <==> socket.wire == old(socket.wire) + Encode(f)
    ensures socket.Failed() <==> old(socket.Failed()) || !ok
  {
    hide Socket.Failed, Flatten, EncodeHeader, DecodeHeader;
    var packet := new Packet(m.packetType, m.requestType);
    packet.SetHeaderValues(PacketHeader(0, 0, m.handlerId, 0, m.sockFd, seq(13, _ => 0)));
    FlattenEmpty();
    for i := 0 to |m.appended|
      invariant packet.Valid() && packet.remaining == 0 && fresh(packet)
      invariant socket.wire == old(socket.wire) && (socket.Failed() <==> old(socket.Failed()))
      invariant packet.Data() == Flatten(m.appended[..i])
      invariant packet.packetType == m.packetType && packet.reqType == m.requestType
      invariant DecodeHeader(packet.header).handlerId == m.handlerId
      invariant DecodeHeader(packet.header).sockFd == m.sockFd
    {
      packet.AppendData(m.appended[i]);
      assert m.appended[..i + 1] == m.appended[..i] + [m.appended[i]];
      FlattenSnoc(m.appended[..i], m.appended[i]);
    }
    assert m.appended[..|m.appended|] == m.appended;
    packet.Generate();
    f := packet.Framed();
    assert packet.image == Encode(f) && socket.wire == old(socket.wire);
    assert socket.Failed() <==> old(socket.Failed());
    var retval := SendContiguous(socket, packet, false);
    ok := retval == 0;
  }

  /** Sends messages one after the other. */
  method SendMessages(socket: Socket, ms: seq<Message>) returns (ok: bool, fs: seq<Frame>)
    requires forall m :: m in ms ==> m.Size() < SIZE_T_RANGE
    modifies socket
    ensures ok ==> CarriesAll(fs, ms) && socket.wire == old(socket.wire) + EncodeAll(fs)
    ensures socket.Failed() <==> old(socket.Failed()) || !ok
  {
    hide Socket.Failed, EncodeAll, Carries;
    ok, fs := true, [];
    EncodeAllEmpty();
    for i := 0 to |ms|
      invariant ok
      invariant CarriesAll(fs, ms[..i])
      invariant socket.wire == old(socket.wire) + EncodeAll(fs)
      invariant socket.Failed() <==> old(socket.Failed())
    {
      var f;
      ok, f := SendMessage(socket, ms[i]);
      if !ok {
        return;
      }
      EncodeAllSnoc(fs, f);
      fs := fs + [f];
    }
  }

  /** No receive of the run meets an undersized header. */
  ghost predicate SizedRun(max: nat, stops: seq<Frame> -> bool, v: View, rcs: seq<Recv>)
    decreases |rcs|
  {
    rcs != [] ==> Sized(max, stops, v, rcs[0]) && SizedRun(max, stops, Handle(max, stops, v, rcs[0]), rcs[1..])
  }

  /** It is enough that the one-shot parse of the stream does not. */
  lemma {:induction false} StreamSized(max: nat, stops: seq<Frame> -> bool, v: View, rcs: seq<Recv>)
    requires v.mode == Open ==> PromptRun(max, stops, v, rcs)
    requires v.mode == Open ==> !Parse(max, stops, v.dispatched, v.held + Stream(rcs)).status.Undersized?
    ensures SizedRun(max, stops, v, rcs)
    decreases |rcs|
  {
    hide Parse, SizeField;
    if rcs == [] {
    } else {
      var v' := Handle(max, stops, v, rcs[0]);
      var bytes, rest := Bytes(rcs[0]), Stream(rcs[1..]);
      if v.mode == Open {
        assert v.held + Stream(rcs) == (v.held + bytes) + rest;
        if Parses(v, rcs[0]) {
          ParseAppend(max, stops, v.dispatched, v.held + bytes, rest);
        }
      }
      StreamSized(max, stops, v', rcs[1..]);
    }
  }

  lemma {:induction false} SizedSnoc(max: nat, stops: seq<Frame> -> bool, v: View, rcs: seq<Recv>, n: nat)
    requires SizedRun(max, stops, v, rcs) && n < |rcs|
    ensures Sized(max, stops, Run(max, stops, v, rcs[..n]), rcs[n])
    ensures Run(max, stops, v, rcs[..n + 1]) == Handle(max, stops, Run(max, stops, v, rcs[..n]), rcs[n])
    decreases n
  {
    hide Parse, SizeField;
    var v' := Handle(max, stops, v, rcs[0]);
    if n > 0 {
      assert rcs[..n][1..] == rcs[1..][..n - 1];
      assert rcs[..n + 1][1..] == rcs[1..][..n];
      SizedSnoc(max, stops, v', rcs[1..], n - 1);
    } else {
      assert rcs[..1][1..] == [] && Run(max, stops, v', []) == v';
    }
  }

  /** The receive loop of a connection: the machine is called for every receive until its handler asks
      to stop.  What it has dispatched is what the run of `Handle` says. */
  method Deliver(handle: ReceiveHandle, rcs: seq<Recv>) returns (stopped: bool)
    requires handle.Valid()
    requires forall rc :: rc in rcs ==> handle.max + |rc.buffer| < SIZE_T_RANGE
    requires SizedRun(handle.max, handle.stops, handle.Now(false), rcs)
    modifies handle.Repr()
    ensures handle.Valid() && fresh(handle.Repr() - old(handle.Repr()))
    ensures handle.Now(stopped) == Run(handle.max, handle.stops, old(handle.Now(false)), rcs)
  {
    hide Run, SizedRun, Sized, Handle;
    ghost var v := handle.Now(false);
    stopped := false;
    var i := 0;
    RunNothing(handle.max, handle.stops, v);
    while i < |rcs| && !stopped
      invariant i <= |rcs|
      invariant handle.Valid() && fresh(handle.Repr() - old(handle.Repr()))
      invariant handle.Now(stopped) == Run(handle.max, handle.stops, v, rcs[..i])
    {
      SizedSnoc(handle.max, handle.stops, v, rcs, i);
      stopped := handle.ReceiveSuccess(rcs[i].buffer, rcs[i].n);
      i := i + 1;
    }
    assert rcs[..i] + rcs[i..] == rcs;
    RunAppend(handle.max, handle.stops, v, rcs[..i], rcs[i..]);
    if i < |rcs| {
      LostIsAbsorbing(handle.max, handle.stops, handle.Now(stopped), rcs[i..]);
    } else {
      RunNothing(handle.max, handle.stops, handle.Now(stopped));
    }
  }

  lemma {:induction false} RunNothing(max: nat, stops: seq<Frame> -> bool, v: View)
    ensures Run(max, stops, v, []) == v
  {
  }

  /** End to end.  The messages sent come out as the packets dispatched, field by field and byte by
      byte and in order, under every short-write schedule and every prompt chunking; only a last
      message without data can be one receive late, exactly when that receive began inside it. */
  lemma {:induction false} EndToEnd(max: nat, ms: seq<Message>, fs: seq<Frame>, rcs: seq<Recv>)
    requires forall m :: m in ms ==> m.Size() <= max
    requires CarriesAll(fs, ms)
    requires Stream(rcs) == EncodeAll(fs)
    requires PromptRun(max, NEVER, START, rcs)
    ensures var out := Run(max, NEVER, START, rcs).dispatched;
            && (CarriesAll(out, ms) <==>
                  !(ms != [] && Flatten(ms[|ms| - 1].appended) == [] && |LastBytes(rcs)| < HEADER_SIZE))
            && (!CarriesAll(out, ms) ==> CarriesAll(out, ms[..|ms| - 1]))
    ensures SizedRun(max, NEVER, START, rcs)
  {
    hide Run, PromptRun, SizedRun, Stream, EncodeAll, EncodeHeader, Flatten;
    forall p | p in fs
      ensures WellFormed(p, max)
    {
      var i :| 0 <= i < |fs| && fs[i] == p;
      assert Carries(fs[i], ms[i]) && ms[i] in ms;
    }
    FramesRoundTrip(max, fs, rcs);
    var out := Run(max, NEVER, START, rcs);
    ParseEncoded(max, [], fs, []);
    ParseShort(max, NEVER, [] + fs, []);
    assert [] + Stream(rcs) == Stream(rcs) == EncodeAll(fs) + [];
    StreamSized(max, NEVER, START, rcs);
  }

  /** Sender, network and receiver together: `network` is how the bytes on the wire are cut into
      receives.  When no call of send () fails, a new receiver has been given the messages. */
  method Transfer(socket: Socket, handle: ReceiveHandle, ms: seq<Message>, network: seq<byte> -> seq<Recv>)
    returns (ok: bool, rcs: seq<Recv>)
    requires socket.wire == [] && handle.Valid() && handle.Now(false) == START && handle.stops == NEVER
    requires handle.max < SIZE_T_RANGE && forall m :: m in ms ==> m.Size() <= handle.max
    requires forall w :: Stream(network(w)) == w
    requires forall w, rc :: rc in network(w) ==> handle.max + |rc.buffer| < SIZE_T_RANGE
    requires forall fs :: CarriesAll(fs, ms) ==> PromptRun(handle.max, NEVER, START, network(EncodeAll(fs)))
    modifies socket, handle.Repr()
    ensures socket.Failed() <==> old(socket.Failed()) || !ok
    ensures ok ==>
              && rcs == network(socket.wire)
              && (CarriesAll(handle.dispatched, ms) <==>
                    !(ms != [] && Flatten(ms[|ms| - 1].appended) == [] && |LastBytes(rcs)| < HEADER_SIZE))
              && (!CarriesAll(handle.dispatched, ms) ==> CarriesAll(handle.dispatched, ms[..|ms| - 1]))
  {
    hide Socket.Failed, Run, PromptRun, SizedRun, Stream, EncodeAll, Flatten, CarriesAll;
    var fs;
    rcs := [];
    ok, fs := SendMessages(socket, ms);
    if ok {
      assert [] + EncodeAll(fs) == EncodeAll(fs);
      rcs := network(socket.wire);
      EndToEnd(handle.max, ms, fs, rcs);
      var _ := Deliver(handle, rcs);
    }
  }
}
