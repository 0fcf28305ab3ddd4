/** The receive machine: cerver_receive_handle_buffer () and its inner loop
    (src/cerver/handler.c:1418-1843).  The client has a second copy of it that differs in where the
    size limit and the packet handler come from (src/cerver/client.c:3359-3778); both are parameters
    here.  Each call is proved equal to `Chunks.Handle`. */
module Receive {
  import opened Header
  import opened Framing
  import opened Chunks
  import opened Packets

  // ReceiveHandleState, include/cerver/receive.h:58-74
  datatype State = None | Normal | SplitHeader | SplitPacket | CompHeader | Lost

  class ReceiveHandle {
    // max_received_packet_size of the cerver or the client
    const max: nat
    // the verdict of the packet handler after the packets handled so far
    const stops: seq<Frame> -> bool

    var state: State
    var header: seq<byte>
    var headerEnd: nat
    var remainingHeader: nat
    var sparePacket: Packet?

    // what the packet handler has been given, in order
    var dispatched: seq<Frame>

    ghost function Repr(): set<object>
      reads this, sparePacket
    {
      {this}
      + (if sparePacket == null then {} else {sparePacket as object})
      + (if sparePacket == null || sparePacket.data == null then {} else {sparePacket.data as object})
    }

    /** What holds between calls. */
    ghost predicate Valid()
      reads Repr()
    {
      && |header| == HEADER_SIZE
      && (state == State.SplitHeader ==> 0 < remainingHeader < HEADER_SIZE && headerEnd == HEADER_SIZE - remainingHeader)
      && (state == SplitPacket ==>
            && sparePacket != null
            && sparePacket.Valid()
            && 0 < sparePacket.remaining <= sparePacket.DataSize()
            && sparePacket.dataEnd + sparePacket.remaining == sparePacket.DataSize()
            && SizeField(sparePacket.header) == HEADER_SIZE + sparePacket.DataSize() <= max)
    }

    /** The bytes of the next packet that are held between calls. */
    ghost function Held(): seq<byte>
      requires Valid()
      reads Repr()
    {
      match state
      case SplitHeader => header[..headerEnd]
      case CompHeader => header
      case SplitPacket => sparePacket.header + sparePacket.Filled()
      case _ => []
    }

    ghost function Now(stopped: bool): View
      requires Valid()
      reads Repr()
    {
      View(dispatched, Held(), if state == State.Lost then Mode.Lost else if stopped then Halted else Open)
    }

    /** receive_handle_reset () */
    constructor (max: nat, stops: seq<Frame> -> bool)
      ensures Valid() && Now(false) == START && state == None
      ensures this.max == max && this.stops == stops && sparePacket == null
    {
      this.max, this.stops := max, stops;
      state := None;
      header := seq(HEADER_SIZE, _ => 0);
      headerEnd, remainingHeader := 0, 0;
      sparePacket := null;
      dispatched := [];
    }

    /** cerver_packet_select_handler () / client_packet_handler (): hands a packet over. */
    method Dispatch(packet: Packet) returns (stop: bool)
      modifies this`dispatched
      ensures dispatched == old(dispatched) + [packet.Framed()]
      ensures stop == stops(dispatched)
    {
      dispatched := dispatched + [packet.Framed()];
      stop := stops(dispatched);
    }

    /** cerver_receive_success_receive_handle (): the first receive of a connection turns NONE into
        NORMAL. */
    method ReceiveSuccess(buffer: seq<byte>, received: nat) returns (stopped: bool)
      requires Valid()
      requires 0 < received <= |buffer| && HEADER_SIZE <= |buffer|
      requires max + |buffer| < SIZE_T_RANGE
      requires Sized(max, stops, Now(false), Received(buffer, received))
      modifies Repr()
      ensures Valid() && fresh(Repr() - old(Repr())) && state != None
      ensures Now(stopped) == Handle(max, stops, old(Now(false)), Received(buffer, received))
    {
      if state == None {
        state := Normal;
      }
      stopped := HandleBuffer(buffer, received);
    }

    /** cerver_receive_handle_buffer (): first the spare parts of the previous call, then the loop. */
    method HandleBuffer(buffer: seq<byte>, received: nat) returns (stopped: bool)
      requires Valid() && state != None
      requires 0 < received <= |buffer| && HEADER_SIZE <= |buffer|
      requires max + |buffer| < SIZE_T_RANGE
      requires Sized(max, stops, Now(false), Received(buffer, received))
      modifies Repr()
      ensures Valid() && fresh(Repr() - old(Repr())) && state != None
      ensures Now(stopped) == Handle(max, stops, old(Now(false)), Received(buffer, received))
    {
      hide Parse, SizeField;
      var end, bufferPos, remaining;
      end, bufferPos, remaining, stopped := SpareParts(buffer, received);
      if !stopped && bufferPos < received && (state == Normal || state == CompHeader) {
        stopped := HandleBufferActual(buffer, received, end, bufferPos, remaining);
      }
    }

    /** The switch on the state at the top: what the previous call left over is dealt with first. */
    method SpareParts(buffer: seq<byte>, received: nat)
      returns (end: nat, bufferPos: nat, remaining: nat, stopped: bool)
      requires Valid() && state != None
      requires 0 < received <= |buffer| && HEADER_SIZE <= |buffer| < SIZE_T_RANGE
      modifies Repr()
      ensures Valid() && Repr() == old(Repr()) && state != None
      ensures if !stopped && bufferPos < received && (state == Normal || state == CompHeader) then
                && end == bufferPos && bufferPos + remaining == received
                && Parses(old(Now(false)), Received(buffer, received))
                && Parse(max, stops, dispatched, Held() + buffer[bufferPos..received])
                   == Parse(max, stops, old(dispatched), old(Held()) + buffer[..received])
              else
                Now(stopped) == Handle(max, stops, old(Now(false)), Received(buffer, received))
    {
      hide Parse, SizeField;
      end, bufferPos, remaining, stopped := 0, 0, received, false;
      if state == State.SplitHeader {
        ghost var s := Held() + buffer[..received];
        var missing := CompleteHeader(buffer);
        end := end + missing;
        bufferPos := bufferPos + missing;
        remaining := SizeSub(remaining, missing);
        assert bufferPos <= received ==> Held() + buffer[bufferPos..received] == s;
      } else if state == SplitPacket {
        end, bufferPos, remaining, stopped := TakeSpare(buffer, received);
        assert state == Normal && !stopped ==> Held() + buffer[bufferPos..received] == buffer[bufferPos..received];
        ParseShort(max, stops, dispatched, []);
      } else {
        assert buffer[bufferPos..received] == buffer[..received];
      }
    }

    /** The split-header branch: copies what is missing without looking at how much was received. */
    method CompleteHeader(buffer: seq<byte>) returns (missing: nat)
      requires Valid() && state == State.SplitHeader && HEADER_SIZE <= |buffer|
      modifies this`header, this`headerEnd, this`remainingHeader, this`state
      ensures Valid() && state == CompHeader
      ensures missing == HEADER_SIZE - |old(Held())|
      ensures Held() == old(Held()) + buffer[..missing]
    {
      missing := remainingHeader;
      header := header[..headerEnd] + buffer[..remainingHeader];
      headerEnd, remainingHeader := 0, 0;
      state := CompHeader;
    }

    /** The split-packet branch: the spare packet takes what it misses, or all there is. */
    method TakeSpare(buffer: seq<byte>, received: nat)
      returns (end: nat, bufferPos: nat, remaining: nat, stopped: bool)
      requires Valid() && state == SplitPacket
      requires 0 < received <= |buffer| < SIZE_T_RANGE
      modifies Repr()
      ensures Valid() && Repr() == old(Repr()) && (state == Normal || state == SplitPacket)
      ensures var r := Parse(max, stops, old(dispatched), old(Held()) + buffer[..received]);
              if state == Normal && !stopped then
                && end == bufferPos <= received && bufferPos + remaining == received
                && Parse(max, stops, dispatched, buffer[bufferPos..received]) == r
              else
                && Now(stopped) == After(r)
    {
      hide Parse, SizeField;
      var spare := sparePacket;
      ghost var rest := spare.Filled() + buffer[..received];
      assert Held() + buffer[..received] == spare.header + rest;
      ParseHeader(max, stops, dispatched, spare.header, rest);
      end, bufferPos, remaining, stopped := 0, 0, received, false;

      if spare.remaining <= received {
        var toCopy := spare.remaining;
        assert rest[..spare.DataSize()] == spare.Filled() + buffer[..toCopy];
        assert rest[spare.DataSize()..] == buffer[toCopy..received];
        stopped := FinishSpare(buffer[..toCopy]);
        end := end + toCopy;
        bufferPos := bufferPos + toCopy;
        remaining := SizeSub(remaining, toCopy);
      } else {
        var _ := spare.AddData(buffer[..received]);
        assert spare.Filled() == rest;
      }
    }

    /** The spare packet is complete: it is dispatched. */
    method FinishSpare(source: seq<byte>) returns (stopped: bool)
      requires Valid() && state == SplitPacket && |source| == sparePacket.remaining
      modifies Repr()
      ensures Valid() && Repr() == old(Repr()) && state == Normal
      ensures dispatched == old(dispatched) + [old(Frame(sparePacket.header, sparePacket.Filled() + source))]
      ensures stopped == stops(dispatched)
    {
      hide SizeField;
      var spare := sparePacket;
      var _ := spare.AddData(source);
      assert spare.Filled() == spare.Data();
      stopped := Dispatch(spare);
      state := Normal;
    }

    /** A packet that is all in the buffer is dispatched. */
    method TakeWhole(image: seq<byte>, source: seq<byte>) returns (stopped: bool)
      requires |image| == HEADER_SIZE && HEADER_SIZE + |source| == SizeField(image)
      modifies this`dispatched
      ensures dispatched == old(dispatched) + [Frame(image, source)]
      ensures stopped == stops(dispatched)
    {
      hide SizeField;
      var packet := NewPacket(image, source);
      stopped := Dispatch(packet);
    }

    /** The top of the loop: the next header, from the buffer or held complete already; or the part of a
        header that the buffer ends with. */
    method TakeHeader(buffer: seq<byte>, received: nat, end0: nat, bufferPos0: nat, remaining0: nat)
      returns (current: seq<byte>, end: nat, bufferPos: nat, remaining: nat)
      requires Valid() && (state == Normal || state == CompHeader)
      requires end0 == bufferPos0 < received && bufferPos0 + remaining0 == received <= |buffer| < SIZE_T_RANGE
      modifies this`state, this`header, this`headerEnd, this`remainingHeader
      ensures Valid()
      ensures bufferPos0 <= bufferPos <= received
      ensures var s := old(Held()) + buffer[bufferPos0..received];
              if state == Normal then
                && |current| == HEADER_SIZE
                && s == current + buffer[bufferPos..received]
                && end == bufferPos && bufferPos + remaining == received
                && (bufferPos0 < bufferPos || old(state) == CompHeader)
              else
                && state == State.SplitHeader
                && Held() == s && |s| < HEADER_SIZE
                && bufferPos == received
    {
      hide SizeField;
      current, end, bufferPos, remaining := [], end0, bufferPos0, remaining0;
      if state == Normal {
        if remaining >= HEADER_SIZE {
          current := buffer[end..end + HEADER_SIZE];
          end := end + HEADER_SIZE;
          bufferPos := bufferPos + HEADER_SIZE;
          remaining := SizeSub(remaining, HEADER_SIZE);
        } else {
          header := buffer[end..end + remaining] + seq(HEADER_SIZE - remaining, _ => 0);
          headerEnd := remaining;
          remainingHeader := HEADER_SIZE - remaining;
          bufferPos := bufferPos + remaining;
          state := State.SplitHeader;
        }
      } else {
        current := header;
        state := Normal;
      }
    }

    /** The body of the loop for a header of an acceptable size: the packet is dispatched when all its
        data is in the buffer, and becomes the spare packet otherwise. */
    method TakePacket(image: seq<byte>, buffer: seq<byte>, received: nat, end0: nat, bufferPos0: nat, remaining0: nat)
      returns (end: nat, bufferPos: nat, remaining: nat, stopped: bool)
      requires Valid() && state == Normal
      requires |image| == HEADER_SIZE <= SizeField(image) <= max
      requires end0 == bufferPos0 && bufferPos0 + remaining0 == received <= |buffer| && max + |buffer| < SIZE_T_RANGE
      modifies this
      ensures Valid()
      ensures sparePacket == old(sparePacket) || fresh(sparePacket)
      ensures sparePacket != null && sparePacket != old(sparePacket) && sparePacket.data != null ==> fresh(sparePacket.data)
      ensures state == Normal || state == SplitPacket
      ensures var r := Parse(max, stops, old(dispatched), image + buffer[end0..received]);
              if state == Normal && !stopped then
                && end0 <= end == bufferPos && bufferPos + remaining == received
                && Parse(max, stops, dispatched, buffer[bufferPos..received]) == r
              else
                && Now(stopped) == After(r)
                && (stopped || bufferPos >= received)
    {
      hide Parse, SizeField, SizeSub;
      end, bufferPos, remaining, stopped := end0, bufferPos0, remaining0, false;
      ghost var rest := buffer[end0..received];
      ParseHeader(max, stops, dispatched, image, rest);
      var dataSize := SizeField(image) - HEADER_SIZE;

      if dataSize <= remaining {
        assert buffer[end0..end0 + dataSize] == rest[..dataSize];
        assert rest[dataSize..] == buffer[end0 + dataSize..received];
        stopped := TakeWhole(image, buffer[end..end + dataSize]);
        end := end + dataSize;
        bufferPos := bufferPos + dataSize;
        remaining := SizeSub(remaining, dataSize);
      } else {
        KeepSpare(image, buffer[end..received]);
        if remaining > 0 {
          // advances by the whole data size: the position overshoots and the count wraps
          end := end + dataSize;
          bufferPos := (bufferPos + dataSize) % SIZE_T_RANGE;
          remaining := SizeSub(remaining, dataSize);
        }
      }
    }

    /** A packet that is not complete becomes the spare packet. */
    method KeepSpare(image: seq<byte>, source: seq<byte>)
      requires |image| == HEADER_SIZE == |header| && HEADER_SIZE + |source| < SizeField(image) <= max
      modifies this`sparePacket, this`state
      ensures Valid() && state == SplitPacket && Held() == image + source
      ensures fresh(sparePacket) && (sparePacket.data != null ==> fresh(sparePacket.data))
    {
      hide SizeField;
      sparePacket := NewPacket(image, source);
      state := SplitPacket;
    }

    /** packet_create_with_data () for a received header, filled with the data that is there. */
    static method NewPacket(image: seq<byte>, source: seq<byte>) returns (packet: Packet)
      requires |image| == HEADER_SIZE && HEADER_SIZE + |source| <= SizeField(image)
      ensures fresh(packet) && (packet.data != null ==> fresh(packet.data))
      ensures packet.Valid() && packet.header == image && HEADER_SIZE + packet.DataSize() == SizeField(image)
      ensures packet.Filled() == source
      ensures |source| == packet.DataSize() ==> packet.Data() == source
      ensures packet.dataEnd + packet.remaining == packet.DataSize()
    {
      packet := new Packet.WithData(SizeField(image) - HEADER_SIZE);
      packet.header := image;
      if |source| > 0 {
        var _ := packet.AddData(source);
      }
    }

    /** The loop goes on: it is in step, and has `target` left to reach. */
    ghost predicate GoesOn(buffer: seq<byte>, received: nat, end: nat, bufferPos: nat, remaining: nat, target: Parsed)
      requires Valid()
      reads Repr()
    {
      && (state == Normal || state == CompHeader)
      && end == bufferPos < received && bufferPos + remaining == received <= |buffer|
      && Parse(max, stops, dispatched, Held() + buffer[bufferPos..received]) == target
    }

    /** The body of the loop: a header, and its packet when it is of an acceptable size. */
    method Round(buffer: seq<byte>, received: nat, end0: nat, bufferPos0: nat, remaining0: nat, ghost target: Parsed)
      returns (again: bool, end: nat, bufferPos: nat, remaining: nat, stopped: bool)
      requires Valid() && max + |buffer| < SIZE_T_RANGE
      requires GoesOn(buffer, received, end0, bufferPos0, remaining0, target) && !target.status.Undersized?
      modifies this
      ensures Valid() && state != None
      ensures sparePacket == old(sparePacket) || fresh(sparePacket)
      ensures sparePacket != null && sparePacket != old(sparePacket) && sparePacket.data != null ==> fresh(sparePacket.data)
      ensures again ==>
                && !stopped && GoesOn(buffer, received, end, bufferPos, remaining, target)
                && (bufferPos0 < bufferPos || (old(state) == CompHeader && state == Normal && bufferPos0 <= bufferPos))
      ensures !again ==> Now(stopped) == After(target)
    {
      hide Parse, SizeField;
      var current;
      ghost var s := Held() + buffer[bufferPos0..received];
      stopped := false;
      current, end, bufferPos, remaining := TakeHeader(buffer, received, end0, bufferPos0, remaining0);
      if state == State.SplitHeader {
        ParseShort(max, stops, dispatched, s);
        again := false;
      } else {
        ParseHeader(max, stops, dispatched, current, buffer[end..received]);
        if 0 < SizeField(current) <= max {
          end, bufferPos, remaining, stopped := TakePacket(current, buffer, received, end, bufferPos, remaining);
          again := bufferPos < received && !stopped;
          ParseShort(max, stops, dispatched, []);
          assert state == Normal && bufferPos <= received ==> Held() + buffer[bufferPos..received] == buffer[bufferPos..received];
        } else {
          state := State.Lost;
          again := false;
        }
      }
    }

    /** cerver_receive_handle_buffer_actual (): the do-while loop. */
    method HandleBufferActual(buffer: seq<byte>, received: nat, end0: nat, bufferPos0: nat, remaining0: nat)
      returns (stopped: bool)
      requires Valid() && (state == Normal || state == CompHeader)
      requires received <= |buffer| && max + |buffer| < SIZE_T_RANGE
      requires end0 == bufferPos0 < received && bufferPos0 + remaining0 == received
      requires !Parse(max, stops, dispatched, Held() + buffer[bufferPos0..received]).status.Undersized?
      modifies this
      ensures Valid() && fresh(Repr() - old(Repr())) && state != None
      ensures Now(stopped) == After(Parse(max, stops, old(dispatched), old(Held()) + buffer[bufferPos0..received]))
    {
      hide Parse, SizeField;
      ghost var target := Parse(max, stops, dispatched, Held() + buffer[bufferPos0..received]);
      var end, bufferPos, remaining := end0, bufferPos0, remaining0;
      stopped := false;
      var again := true;
      while again
        invariant Valid() && state != None
        invariant sparePacket == old(sparePacket) || fresh(sparePacket)
        invariant sparePacket != null && sparePacket != old(sparePacket) && sparePacket.data != null ==> fresh(sparePacket.data)
        invariant again ==> GoesOn(buffer, received, end, bufferPos, remaining, target)
        invariant !again ==> Now(stopped) == After(target)
        decreases again, received - bufferPos, state == CompHeader
      {
        again, end, bufferPos, remaining, stopped := Round(buffer, received, end, bufferPos, remaining, target);
      }
    }
  }

  /** The header sizes below sizeof (PacketHeader): the data size that is asked for wraps, and no receive
      is ever long enough to complete the packet. */
  lemma UndersizedNeverCompletes(size: nat, received: nat)
    requires 0 < size < HEADER_SIZE && received < SIZE_T_RANGE - HEADER_SIZE
    ensures SizeSub(size, HEADER_SIZE) == SIZE_T_RANGE - HEADER_SIZE + size
    ensures received < SizeSub(size, HEADER_SIZE)
  {
    hide SizeSub;
    assert size < HEADER_SIZE < SIZE_T_RANGE;
  }

  /** The jump of buffer_pos for a packet that is not complete leads out of the loop exactly when the
      position does not wrap. Otherwise it goes back into the buffer, and the loop, which does nothing in
      the split-packet state, is not left. With a limit and a buffer that fit into size_t together, the
      position of a header of at least its own size never wraps; that of a smaller one wraps unless the
      header had been completed from a split, so that the buffer only had its last bytes. */
  lemma JumpLeavesLoopIff(size: nat, bufferPos: nat, received: nat)
    requires 0 < size < SIZE_T_RANGE && bufferPos < received < SIZE_T_RANGE
    requires received - bufferPos < SizeSub(size, HEADER_SIZE)
    ensures (bufferPos + SizeSub(size, HEADER_SIZE)) % SIZE_T_RANGE >= received
       <==> if size >= HEADER_SIZE then bufferPos + (size - HEADER_SIZE) < SIZE_T_RANGE
            else bufferPos < HEADER_SIZE - size
  {
    hide SizeSub;
    var jumped := bufferPos + SizeSub(size, HEADER_SIZE);
    if jumped < SIZE_T_RANGE {
      assert jumped % SIZE_T_RANGE == jumped;
    } else {
      assert jumped % SIZE_T_RANGE == jumped - SIZE_T_RANGE < bufferPos;
    }
  }
}
