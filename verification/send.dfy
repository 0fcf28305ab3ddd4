/** Sending a packet over TCP (src/cerver/packets.c:842-948, 1295-1372): contiguous, split into header
    and data, and in pieces.  All three loop over send (), which takes any non-empty part of what it is
    given or fails. */
module Send {
  import opened Header
  import opened Framing
  import opened Packets

  /** The connected socket: every byte that send () accepted is on the wire, in order.  What the calls
      of send () come to is given: a call takes as many bytes as `results` says, if there are as many, and
      fails when that is none. */
  class Socket {
    const results: nat -> int
    var calls: nat
    var wire: seq<byte>

    constructor (results: nat -> int)
      ensures wire == [] && calls == 0 && this.results == results && !Failed()
    {
      this.results := results;
      calls, wire := 0, [];
    }

    /** Some call has failed. */
    ghost predicate Failed()
      reads this
    {
      exists i :: 0 <= i < calls && results(i) < 1
    }

    /** send (): -1 on failure, otherwise how many bytes it took from the front. */
    method Send(bytes: seq<byte>) returns (sent: int)
      requires bytes != []
      modifies this
      ensures calls == old(calls) + 1
      ensures sent == if results(old(calls)) < 1 then -1
                      else if results(old(calls)) < |bytes| then results(old(calls)) else |bytes|
      ensures wire == old(wire) + if sent == -1 then [] else bytes[..sent]
      ensures Failed() <==> old(Failed()) || sent == -1
    {
      sent := results(calls);
      assert sent < 1 ==> results(old(calls)) < 1;
      if sent < 1 {
        sent := -1;
      } else {
        if sent > |bytes| {
          sent := |bytes|;
        }
        wire := wire + bytes[..sent];
      }
      calls := calls + 1;
      assert old(Failed()) ==> Failed();
    }
  }

  /** How many of n bytes get through, from call k on, when every call is given what is left. */
  function Written(results: nat -> int, k: nat, n: nat): (w: nat)
    ensures w <= n
    decreases n
  {
    if n == 0 || results(k) < 1 then 0
    else if results(k) >= n then n
    else results(k) + Written(results, k + 1, n - results(k))
  }

  /** How many calls that takes. */
  function Calls(results: nat -> int, k: nat, n: nat): (c: nat)
    decreases n
  {
    if n == 0 then 0
    else if results(k) < 1 || results(k) >= n then 1
    else 1 + Calls(results, k + 1, n - results(k))
  }

  /** Everything gets through exactly when none of the calls it takes fails. */
  lemma {:induction false} WrittenIff(results: nat -> int, k: nat, n: nat)
    ensures Written(results, k, n) == n
       <==> forall i :: k <= i < k + Calls(results, k, n) ==> results(i) >= 1
    decreases n
  {
    if n == 0 || results(k) < 1 || results(k) >= n {
    } else {
      WrittenIff(results, k + 1, n - results(k));
    }
  }

  /** One call of a loop. */
  lemma WrittenStep(results: nat -> int, k: nat, n: nat)
    ensures n == 0 ==> Written(results, k, n) == 0 && Calls(results, k, n) == 0
    ensures n > 0 && results(k) < 1 ==> Written(results, k, n) == 0 && Calls(results, k, n) == 1
    ensures n > 0 && results(k) >= 1 ==>
              var sent := if results(k) < n then results(k) else n;
              && Written(results, k, n) == sent + Written(results, k + 1, n - sent)
              && Calls(results, k, n) == 1 + Calls(results, k + 1, n - sent)
  {
  }

  /** One send loop: packet_send_tcp_actual () on packet->packet, packet_send_pieces_actual (), and both
      loops of packet_send_split_tcp ().  `actualSent` counts the bytes written, also when it fails. */
  method SendLoop(socket: Socket, bytes: seq<byte>, actualSent0: nat) returns (retval: int, actualSent: nat)
    modifies socket
    ensures retval == 0 || retval == 1
    ensures var w := Written(socket.results, old(socket.calls), |bytes|);
      && socket.wire == old(socket.wire) + bytes[..w]
      && actualSent == actualSent0 + w
      && (retval == 0 <==> w == |bytes|)
    ensures socket.calls == old(socket.calls) + Calls(socket.results, old(socket.calls), |bytes|)
    ensures retval == 0 <==> socket.wire == old(socket.wire) + bytes
    ensures socket.Failed() <==> old(socket.Failed()) || retval != 0
  {
    hide Written, Calls, Socket.Failed;
    var p, left := 0, |bytes|;
    actualSent := actualSent0;
    ghost var results, start := socket.results, socket.calls;
    while left > 0
      invariant p + left == |bytes| && left >= 0
      invariant socket.wire == old(socket.wire) + bytes[..p]
      invariant actualSent == actualSent0 + p
      invariant Written(results, start, |bytes|) == p + Written(results, socket.calls, left)
      invariant start + Calls(results, start, |bytes|) == socket.calls + Calls(results, socket.calls, left)
      invariant socket.Failed() <==> old(socket.Failed())
    {
      WrittenStep(results, socket.calls, left);
      var sent := socket.Send(bytes[p..]);
      if sent < 0 {
        return 1, actualSent;
      }
      assert bytes[..p] + bytes[p..][..sent] == bytes[..p + sent];
      p := p + sent;
      actualSent := actualSent + sent;
      left := left - sent;
    }
    WrittenStep(results, socket.calls, 0);
    assert bytes[..p] == bytes;
    return 0, actualSent;
  }

  /** packet_send_tcp (): the contiguous packet, or with `raw` only its data. */
  method SendContiguous(socket: Socket, packet: Packet, raw: bool) returns (retval: int)
    modifies socket
    ensures var bytes := if raw then packet.Data() else packet.image;
      && old(socket.wire) <= socket.wire <= old(socket.wire) + bytes
      && (retval == 0 <==> socket.wire == old(socket.wire) + bytes)
    ensures socket.Failed() <==> old(socket.Failed()) || retval != 0
  {
    hide Written, Calls, Socket.Failed;
    var total;
    retval, total := SendLoop(socket, if raw then packet.Data() else packet.image, 0);
  }

  /** packet_send_split_tcp ().  A failure while the data goes out does not reach the return value:
      0 only says that the header was sent, and it takes `actualSent` to tell whether the rest was. */
  method SendSplit(socket: Socket, packet: Packet) returns (retval: int, actualSent: nat)
    requires |packet.header| == HEADER_SIZE
    modifies socket
    ensures old(socket.wire) <= socket.wire <= old(socket.wire) + Encode(packet.Framed())
    ensures retval == 0 <==> old(socket.wire) + packet.header <= socket.wire
    ensures actualSent == |socket.wire| - |old(socket.wire)|
    ensures actualSent == HEADER_SIZE + packet.DataSize() <==>
            socket.wire == old(socket.wire) + Encode(packet.Framed())
    ensures socket.Failed() <==> old(socket.Failed()) || socket.wire != old(socket.wire) + Encode(packet.Framed())
    ensures var results, k := socket.results, old(socket.calls);
      && (retval == 0 <==> Written(results, k, HEADER_SIZE) == HEADER_SIZE)
      && (retval == 0 ==>
            actualSent == HEADER_SIZE + Written(results, k + Calls(results, k, HEADER_SIZE), packet.DataSize()))
  {
    hide Written, Calls, Socket.Failed;
    ghost var start, results, k := socket.wire, socket.results, socket.calls;
    ghost var h := Written(results, k, HEADER_SIZE);
    ghost var d := 0;
    var failed;
    failed, actualSent := SendLoop(socket, packet.header, 0);
    retval := 1;
    if failed == 0 {
      d := Written(results, socket.calls, packet.DataSize());
      var ignored;
      ignored, actualSent := SendLoop(socket, packet.Data(), actualSent);
      retval := 0;
    }
    assert socket.wire == start + packet.header[..h] + packet.Data()[..d];
    PartsOnWire(start, packet.header, packet.Data(), h, d);
  }

  /** A header and data of which only h and d bytes went out. */
  lemma PartsOnWire(start: seq<byte>, header: seq<byte>, data: seq<byte>, h: nat, d: nat)
    requires h <= |header| && d <= |data| && (h < |header| ==> d == 0)
    ensures var wire, whole := start + header[..h] + data[..d], start + (header + data);
      && start <= wire <= whole
      && |wire| == |start| + h + d
      && (start + header <= wire <==> h == |header|)
      && (wire == whole <==> h == |header| && d == |data|)
  {
    var wire, whole := start + header[..h] + data[..d], start + (header + data);
    if h < |header| {
      assert wire == start + header[..h];
      assert |wire| < |start + header|;
    } else {
      assert header[..h] == header;
      assert d == |data| ==> data[..d] == data;
      assert whole == (start + header) + data;
    }
  }

  function Flatten(pieces: seq<seq<byte>>): (s: seq<byte>) {
    if pieces == [] then [] else Flatten(pieces[..|pieces| - 1]) + pieces[|pieces| - 1]
  }

  lemma FlattenEmpty()
    ensures Flatten([]) == []
  {
  }

  lemma FlattenSnoc(pieces: seq<seq<byte>>, last: seq<byte>)
    ensures Flatten(pieces + [last]) == Flatten(pieces) + last
  {
    assert (pieces + [last])[..|pieces|] == pieces;
  }

  /** Each of the parts is a piece, possibly cut short. */
  ghost predicate CutShort(parts: seq<seq<byte>>, pieces: seq<seq<byte>>) {
    && |parts| == |pieces|
    && forall i :: 0 <= i < |parts| ==> parts[i] <= pieces[i]
  }

  /** Cutting shows in the total: when no byte is missing, no piece was cut. */
  lemma {:induction false} CutShortLength(parts: seq<seq<byte>>, pieces: seq<seq<byte>>)
    requires CutShort(parts, pieces)
    ensures |Flatten(parts)| <= |Flatten(pieces)|
    ensures |Flatten(parts)| == |Flatten(pieces)| ==> parts == pieces
    decreases |pieces|
  {
    if pieces == [] {
      assert parts == pieces;
    } else {
      hide Flatten;
      var n := |pieces| - 1;
      assert parts == parts[..n] + [parts[n]] && pieces == pieces[..n] + [pieces[n]];
      FlattenSnoc(parts[..n], parts[n]);
      FlattenSnoc(pieces[..n], pieces[n]);
      CutShortLength(parts[..n], pieces[..n]);
      var part, piece := parts[n], pieces[n];
      assert |Flatten(parts)| == |Flatten(parts[..n])| + |part|;
      assert |Flatten(pieces)| == |Flatten(pieces[..n])| + |piece|;
      assert part <= piece && |part| <= |piece|;
      if |Flatten(parts)| == |Flatten(pieces)| {
        assert part == piece && parts[..n] == pieces[..n];
      }
    }
  }

  /** What gets through of pieces sent one after the other, from call k on: a piece that fails is cut
      short, and the next one is sent all the same. */
  function PiecesWritten(results: nat -> int, k: nat, pieces: seq<seq<byte>>): (s: seq<byte>)
    decreases |pieces|
  {
    if pieces == [] then []
    else
      var n := |pieces[0]|;
      pieces[0][..Written(results, k, n)] + PiecesWritten(results, k + Calls(results, k, n), pieces[1..])
  }

  lemma NoPieces(results: nat -> int, k: nat)
    ensures PiecesWritten(results, k, []) == []
  {
  }

  lemma PiecesStep(results: nat -> int, k: nat, pieces: seq<seq<byte>>, i: nat, done: seq<byte>)
    requires i < |pieces|
    ensures var n := |pieces[i]|;
      done + PiecesWritten(results, k, pieces[i..])
      == done + pieces[i][..Written(results, k, n)] + PiecesWritten(results, k + Calls(results, k, n), pieces[i + 1..])
  {
    hide Written, Calls;
    assert pieces[i..][1..] == pieces[i + 1..] && pieces[i..][0] == pieces[i];
  }

  /** packet_send_pieces ().  The result of sending a piece is ignored, so a piece that fails half way is
      followed by the next one; the total still says whether everything got through. */
  method SendPieces(socket: Socket, packet: Packet, pieces: seq<seq<byte>>) returns (retval: int, actualSent: nat)
    requires |packet.header| == HEADER_SIZE
    modifies socket
    ensures actualSent == |socket.wire| - |old(socket.wire)|
    ensures old(socket.wire) <= socket.wire
    ensures retval == 1 ==> socket.wire < old(socket.wire) + packet.header
    ensures retval == 0 ==>
              && old(socket.wire) + packet.header <= socket.wire
              && exists parts :: CutShort(parts, pieces) && socket.wire[|old(socket.wire)| + HEADER_SIZE..] == Flatten(parts)
    ensures actualSent == HEADER_SIZE + |Flatten(pieces)| && retval == 0 <==>
            socket.wire == old(socket.wire) + packet.header + Flatten(pieces)
    ensures socket.Failed() <==>
            old(socket.Failed()) || socket.wire != old(socket.wire) + packet.header + Flatten(pieces)
    ensures var results, k := socket.results, old(socket.calls);
      && (retval == 0 <==> Written(results, k, HEADER_SIZE) == HEADER_SIZE)
      && (retval == 0 ==> socket.wire == old(socket.wire) + packet.header
                                       + PiecesWritten(results, k + Calls(results, k, HEADER_SIZE), pieces))
  {
    hide Flatten, Written, Calls, PiecesWritten, CutShort, Socket.Failed;
    var failed;
    failed, actualSent := SendLoop(socket, packet.header, 0);
    if failed != 0 {
      return 1, actualSent;
    }
    ghost var base := socket.wire;
    ghost var parts;
    actualSent, parts := PiecesLoop(socket, pieces, actualSent);
    assert socket.wire[|base|..] == Flatten(parts);
    CutShortLength(parts, pieces);
    retval := 0;
  }

  /** The loop over the pieces. */
  method PiecesLoop(socket: Socket, pieces: seq<seq<byte>>, actualSent0: nat)
    returns (actualSent: nat, ghost parts: seq<seq<byte>>)
    modifies socket
    ensures CutShort(parts, pieces)
    ensures socket.wire == old(socket.wire) + Flatten(parts)
    ensures actualSent == actualSent0 + |Flatten(parts)|
    ensures Flatten(parts) == PiecesWritten(socket.results, old(socket.calls), pieces)
    ensures socket.Failed() <==> old(socket.Failed()) || parts != pieces
  {
    hide Flatten, Written, Calls, PiecesWritten, Socket.Failed;
    actualSent := actualSent0;
    ghost var base, start, results := socket.wire, socket.calls, socket.results;
    parts := [];
    FlattenEmpty();
    assert pieces[0..] == pieces;
    assert [] + PiecesWritten(results, start, pieces) == PiecesWritten(results, start, pieces);
    for i := 0 to |pieces|
      invariant CutShort(parts, pieces[..i])
      invariant socket.Failed() <==> old(socket.Failed()) || parts != pieces[..i]
      invariant socket.wire == base + Flatten(parts)
      invariant actualSent == actualSent0 + |Flatten(parts)|
      invariant Flatten(parts) + PiecesWritten(results, socket.calls, pieces[i..]) == PiecesWritten(results, start, pieces)
    {
      ghost var before := socket.wire;
      PiecesStep(results, socket.calls, pieces, i, Flatten(parts));
      var ignored;
      ignored, actualSent := SendLoop(socket, pieces[i], actualSent);
      ghost var part := socket.wire[|before|..];
      FlattenSnoc(parts, part);
      assert socket.wire == before + part == base + (Flatten(parts) + part);
      parts := parts + [part];
    }
    assert pieces[..|pieces|] == pieces;
    NoPieces(results, socket.calls);
    assert pieces[|pieces|..] == [] && Flatten(parts) + [] == Flatten(parts);
  }

  /** The header and the second of two pieces go out, the call for the first one fails, and sending in
      pieces has succeeded. */
  method PiecesHideAFailure(packet: Packet) returns (retval: int, wire: seq<byte>)
    requires |packet.header| == HEADER_SIZE
    ensures retval == 0 && wire == packet.header + [2]
  {
    hide Written, Calls, Socket.Failed;
    var socket := new Socket((k: nat) => if k == 1 then -1 else HEADER_SIZE);
    var pieces: seq<seq<byte>> := [[1], [2]];
    WrittenStep(socket.results, 0, HEADER_SIZE);
    WrittenStep(socket.results, 1, 0);
    WrittenStep(socket.results, 1, 1);
    WrittenStep(socket.results, 2, 1);
    WrittenStep(socket.results, 3, 0);
    TwoPieces(socket.results, 1, [1], [2]);
    var actualSent;
    retval, actualSent := SendPieces(socket, packet, pieces);
    wire := socket.wire;
    assert [1][..0] == [] && [2][..1] == [2] && [] + packet.header == packet.header;
  }

  lemma TwoPieces(results: nat -> int, k: nat, a: seq<byte>, b: seq<byte>)
    ensures PiecesWritten(results, k, [a, b])
         == a[..Written(results, k, |a|)] + b[..Written(results, k + Calls(results, k, |a|), |b|)]
  {
    hide Written, Calls;
    var m := k + Calls(results, k, |a|);
    assert [a, b][1..] == [b] && [b][1..] == [];
    assert PiecesWritten(results, m + Calls(results, m, |b|), []) == [];
    assert PiecesWritten(results, m, [b]) == b[..Written(results, m, |b|)] + [];
  }

  /** Sending in two parts, with a look at how much was sent. */
  method SplitChecked(socket: Socket, packet: Packet) returns (ok: bool)
    requires |packet.header| == HEADER_SIZE
    modifies socket
    ensures ok <==> socket.wire == old(socket.wire) + Encode(packet.Framed())
    ensures socket.Failed() <==> old(socket.Failed()) || !ok
  {
    hide Written, Calls, Socket.Failed, Encode;
    var retval, actualSent := SendSplit(socket, packet);
    ok := actualSent == HEADER_SIZE + packet.DataSize();
  }

  /** Sending in pieces likewise. */
  method PiecesChecked(socket: Socket, packet: Packet, pieces: seq<seq<byte>>) returns (ok: bool)
    requires |packet.header| == HEADER_SIZE && Flatten(pieces) == packet.Data()
    modifies socket
    ensures ok <==> socket.wire == old(socket.wire) + Encode(packet.Framed())
    ensures socket.Failed() <==> old(socket.Failed()) || !ok
  {
    hide Flatten, Socket.Failed;
    var retval, actualSent := SendPieces(socket, packet, pieces);
    ok := retval == 0 && actualSent == HEADER_SIZE + packet.DataSize();
    assert old(socket.wire) + packet.header + Flatten(pieces) == old(socket.wire) + Encode(packet.Framed());
  }

  /** After packet_generate () the three modes are interchangeable: when no call fails they put the
      same bytes on the wire, however short the writes. Each succeeds exactly when none of its calls
      fails. */
  method ThreeModesAgree(packet: Packet, pieces: seq<seq<byte>>, s1: Socket, s2: Socket, s3: Socket)
    returns (contiguous: bool, split: bool, inPieces: bool)
    requires |packet.header| == HEADER_SIZE && HEADER_SIZE + packet.DataSize() < SIZE_T_RANGE
    requires Flatten(pieces) == packet.Data()
    requires s1 != s2 && s2 != s3 && s1 != s3
    modifies packet`header, packet`image, s1, s2, s3
    ensures |packet.header| == HEADER_SIZE
    ensures contiguous <==> s1.wire == old(s1.wire) + Encode(packet.Framed())
    ensures split <==> s2.wire == old(s2.wire) + Encode(packet.Framed())
    ensures inPieces <==> s3.wire == old(s3.wire) + Encode(packet.Framed())
    ensures s1.Failed() <==> old(s1.Failed()) || !contiguous
    ensures s2.Failed() <==> old(s2.Failed()) || !split
    ensures s3.Failed() <==> old(s3.Failed()) || !inPieces
    ensures old(s1.wire) == old(s2.wire) == old(s3.wire) && !s1.Failed() && !s2.Failed() && !s3.Failed() ==>
              s1.wire == s2.wire == s3.wire == old(s1.wire) + Encode(packet.Framed())
  {
    hide Flatten, Written, Calls, Socket.Failed, Encode;
    packet.Generate();
    var retval := SendContiguous(s1, packet, false);
    contiguous := retval == 0;
    split := SplitChecked(s2, packet);
    inPieces := PiecesChecked(s3, packet, pieces);
  }

  /** The header goes out, the call for the data fails, and sending in two parts has succeeded. */
  method SplitHidesAFailure(packet: Packet) returns (retval: int, actualSent: nat, wire: seq<byte>)
    requires |packet.header| == HEADER_SIZE && packet.DataSize() > 0
    ensures retval == 0 && actualSent == HEADER_SIZE && wire == packet.header
  {
    hide Written, Calls, Socket.Failed;
    var socket := new Socket((k: nat) => if k == 0 then HEADER_SIZE else -1);
    WrittenStep(socket.results, 0, HEADER_SIZE);
    WrittenStep(socket.results, 1, 0);
    WrittenStep(socket.results, 1, packet.DataSize());
    retval, actualSent := SendSplit(socket, packet);
    wire := socket.wire;
    assert [] + packet.header == packet.header;
    assert |wire| == HEADER_SIZE && packet.header <= wire;
  }
}
