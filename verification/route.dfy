/** packet_route_between_connections () (src/cerver/packets.c:1490-1660): the header is sent, and the
    body goes from one socket to the other through a pipe, at most 4096 bytes at a time. */
module Route {
  import opened Header

  const SPLICE_SIZE: nat := 4096

  /** What the two splice () calls of a round come to: into the pipe, and out of it. 0 and -1 are
      failures. A schedule that ends is one in which nothing more can be read. */
  datatype Round = Round(received: int, moved: int)

  /** The bytes that the first k rounds take from the source. */
  function Got(rounds: seq<Round>, k: nat): int
    requires k <= |rounds|
  {
    if k == 0 then 0 else Got(rounds, k - 1) + rounds[k - 1].received
  }

  /** The bytes that the first k rounds deliver. */
  function Moved(rounds: seq<Round>, k: nat): int
    requires k <= |rounds|
  {
    if k == 0 then 0 else Moved(rounds, k - 1) + rounds[k - 1].moved
  }

  function Limit(left: int): int {
    if left < SPLICE_SIZE then left else SPLICE_SIZE
  }

  /** Neither call of round j fails, after all the rounds before. */
  predicate Fits(rounds: seq<Round>, j: nat, body: nat, available: nat)
    requires j < |rounds|
  {
    var Round(r, m) := rounds[j];
    && 1 <= r <= Limit(body - Got(rounds, j)) && Got(rounds, j) + r <= available
    && 1 <= m <= Limit(body - Got(rounds, j)) && Moved(rounds, j) + m <= Got(rounds, j) + r
  }

  /** The schedule takes the whole body in its first k rounds. */
  ghost predicate Completes(rounds: seq<Round>, k: nat, body: nat, available: nat) {
    && k <= |rounds|
    && Got(rounds, k) == body
    && forall j :: 0 <= j < k ==> Fits(rounds, j, body, available)
  }

  lemma {:induction false} GotGrows(rounds: seq<Round>, j: nat, k: nat, body: nat, available: nat)
    requires j <= k <= |rounds| && forall i :: j <= i < k ==> Fits(rounds, i, body, available)
    ensures Got(rounds, j) + (k - j) <= Got(rounds, k)
    decreases k
  {
    if j == k {
    } else {
      GotGrows(rounds, j, k - 1, body, available);
      assert Fits(rounds, k - 1, body, available);
    }
  }

  lemma GotBounded(rounds: seq<Round>, n: nat, body: nat, available: nat)
    requires 0 < n <= |rounds| && Fits(rounds, n - 1, body, available)
    ensures Got(rounds, n) <= body
  {
  }

  /** Where the loop stops decides: either the body is complete there, or it never is. */
  lemma CompletesAt(rounds: seq<Round>, n: nat, k: nat, body: nat, available: nat)
    requires n <= |rounds| && forall j :: 0 <= j < n ==> Fits(rounds, j, body, available)
    requires Got(rounds, n) == body || (n < |rounds| ==> !Fits(rounds, n, body, available))
    requires Completes(rounds, k, body, available)
    ensures k == n
  {
    hide Fits, Got;
    if k < n {
      GotGrows(rounds, k, n, body, available);
      GotBounded(rounds, n, body, available);
    } else if n < k {
      GotGrows(rounds, n, k, body, available);
    }
  }

  /** If every move drains the pipe, nothing is in it when the body has been taken. */
  lemma {:induction false} DrainingDelivers(rounds: seq<Round>, k: nat)
    requires k <= |rounds| && forall j :: 0 <= j < k ==> rounds[j].moved == rounds[j].received
    ensures Moved(rounds, k) == Got(rounds, k)
    decreases k
  {
    if k == 0 {
    } else {
      DrainingDelivers(rounds, k - 1);
    }
  }

  /** The two sockets and the pipe between them. */
  class Relay {
    var source: seq<byte>   // what can be read from the first connection
    var pipe: seq<byte>
    var wire: seq<byte>     // what the second connection has been sent

    constructor (source: seq<byte>)
      ensures this.source == source && pipe == [] && wire == []
    {
      this.source, pipe, wire := source, [], [];
    }

    /** send () of a header: `result` bytes, if that is possible. */
    method SendHeader(header: seq<byte>, result: int) returns (s: int)
      modifies this`wire
      ensures s == if 1 <= result <= |header| then result else -1
      ensures wire == old(wire) + if s == -1 then [] else header[..s]
    {
      s := result;
      if 1 <= s <= |header| {
        wire := wire + header[..s];
      } else {
        s := -1;
      }
    }

    /** packet_route_between_connections_receive (): -1 and 0 are failures. */
    method Receive(size: nat, result: int) returns (retval: int, received: int)
      modifies this`source, this`pipe
      ensures retval == if 1 <= result <= size && result <= |old(source)| then 0 else 1
      ensures retval == 0 ==>
                && received == result
                && source == old(source)[received..]
                && pipe == old(pipe) + old(source)[..received]
      ensures retval != 0 ==> received <= 0 && source == old(source) && pipe == old(pipe)
    {
      received := result;
      if 1 <= received <= size && received <= |source| {
        source, pipe := source[received..], pipe + source[..received];
        return 0, received;
      }
      return 1, if received == 0 then 0 else -1;
    }

    /** packet_route_between_connections_move (): takes from the front of the pipe. */
    method Move(size: nat, result: int) returns (retval: int, moved: int)
      modifies this`pipe, this`wire
      ensures retval == if 1 <= result <= size && result <= |old(pipe)| then 0 else 1
      ensures retval == 0 ==>
                && moved == result
                && pipe == old(pipe)[moved..]
                && wire == old(wire) + old(pipe)[..moved]
      ensures retval != 0 ==> moved <= 0 && pipe == old(pipe) && wire == old(wire)
    {
      moved := result;
      if 1 <= moved <= size && moved <= |pipe| {
        wire, pipe := wire + pipe[..moved], pipe[moved..];
        return 0, moved;
      }
      return 1, if moved == 0 then 0 else -1;
    }

    /** Of `start`, so much has been taken and so much delivered; the difference is in the pipe. */
    ghost predicate At(start: seq<byte>, base: seq<byte>, taken: nat, delivered: nat)
      reads this
    {
      && delivered <= taken <= |start|
      && source == start[taken..]
      && wire == base + start[..delivered]
      && pipe == start[delivered..taken]
    }

    /** The two splices of a round. */
    method SpliceRound(
        size: nat, result: Round, ghost start: seq<byte>, ghost base: seq<byte>, ghost taken0: nat, ghost delivered0: nat)
      returns (ok: bool, received: int, moved: int, ghost taken: nat, ghost delivered: nat)
      requires At(start, base, taken0, delivered0)
      modifies this
      ensures At(start, base, taken, delivered)
      ensures ok <==>
                && 1 <= result.received <= size && taken0 + result.received <= |start|
                && 1 <= result.moved <= size && delivered0 + result.moved <= taken0 + result.received
      ensures ok ==>
                && received == result.received && taken == taken0 + received
                && moved == result.moved && delivered == delivered0 + moved
      ensures !ok ==> delivered == delivered0 && taken0 <= taken <= taken0 + size
    {
      taken, delivered, moved := taken0, delivered0, 0;
      var failed;
      failed, received := Receive(size, result.received);
      if failed != 0 {
        return false, received, moved, taken, delivered;
      }
      TakenOn(start, delivered, taken, received);
      taken := taken + received;
      failed, moved := Move(size, result.moved);
      if failed != 0 {
        return false, received, moved, taken, delivered;
      }
      MovedOn(start, delivered, taken, moved);
      delivered := delivered + moved;
      return true, received, moved, taken, delivered;
    }

    /** The loop over the body.  The ghost results say how many rounds were completed, how much of the
        body was taken from the source and how much was delivered; the difference is in the pipe, in
        order.  The body is taken exactly when the schedule completes it. */
    method RouteBody(body: nat, sent0: nat, rounds: seq<Round>)
      returns (left: nat, sent: nat, ghost n: nat, ghost taken: nat, ghost delivered: nat)
      requires pipe == []
      modifies this
      ensures delivered <= taken <= body && taken <= |old(source)|
      ensures source == old(source)[taken..]
      ensures wire == old(wire) + old(source)[..delivered]
      ensures pipe == old(source)[delivered..taken]
      ensures sent == sent0 + delivered
      ensures left == 0 <==> Completes(rounds, n, body, |old(source)|)
      ensures left == 0 ==> taken == body && delivered == Moved(rounds, n)
      ensures left > 0 ==> delivered < body
      ensures forall k :: Completes(rounds, k, body, |old(source)|) ==> k == n
    {
      hide Fits, Got, Moved;
      left, sent, taken, delivered := body, sent0, 0, 0;
      n := 0;
      ghost var start, base := source, wire;
      var buffSize := SPLICE_SIZE;
      RoundSteps(rounds, 0, body, |start|);
      var i := 0;
      while left > 0
        invariant i == n <= |rounds| && (forall j :: 0 <= j < n ==> Fits(rounds, j, body, |start|))
        invariant 0 < buffSize <= SPLICE_SIZE && (buffSize == SPLICE_SIZE || left <= buffSize)
        invariant At(start, base, taken, delivered) && left + taken == body
        invariant taken == Got(rounds, n) && delivered == Moved(rounds, n)
        invariant sent == sent0 + delivered
        decreases left
      {
        if buffSize > left {
          buffSize := left;
        }
        RoundSteps(rounds, n, body, |start|);
        var ok, received, moved;
        var result := if i < |rounds| then rounds[i] else Round(0, 0);
        ok, received, moved, taken, delivered := SpliceRound(buffSize, result, start, base, taken, delivered);
        if !ok {
          break;
        }
        sent := sent + moved;
        left := left - received;
        n, i := n + 1, i + 1;
      }
      forall k | Completes(rounds, k, body, |start|) ensures k == n {
        CompletesAt(rounds, n, k, body, |start|);
      }
    }

    /** Routes one packet.  `headerSend` is what the one send () of the header comes to, `piped` whether
        pipe () succeeds, and `rounds` what the splices come to.  Routing succeeds exactly when some of
        the header is sent and the body, if there is one, is completed; the packet arrives as it was
        exactly when all of the header is sent and the last move of the body drains the pipe. */
    method RoutePacket(header: seq<byte>, headerSend: int, piped: bool, rounds: seq<Round>, sent0: nat)
      returns (retval: int, sent: nat, ghost taken: nat, ghost delivered: nat)
      requires |header| == HEADER_SIZE && pipe == []
      modifies this
      ensures retval == 0 || retval == 1
      ensures var body := SizeSub(SizeField(header), HEADER_SIZE);
              var available := |old(source)|;
        && (retval == 0 <==>
              && 1 <= headerSend <= HEADER_SIZE
              && (body == 0 || (piped && exists k :: Completes(rounds, k, body, available))))
        && (body <= available && wire == old(wire) + header + old(source)[..body] <==>
              && headerSend == HEADER_SIZE
              && (body == 0 || (piped && exists k :: Completes(rounds, k, body, available) && Moved(rounds, k) == body)))
        && taken <= body
        && (retval == 0 && body > 0 ==> forall k :: Completes(rounds, k, body, available) ==> delivered == Moved(rounds, k))
        && (retval == 0 ==> taken == body && sent == if body == 0 then headerSend else sent0 + delivered)
      ensures delivered <= taken <= |old(source)|
      ensures source == old(source)[taken..]
      ensures pipe == old(source)[delivered..taken]
      ensures wire == old(wire) + (if 1 <= headerSend <= HEADER_SIZE then header[..headerSend] else [])
                   + old(source)[..delivered]
    {
      hide SizeField, SizeSub, Completes, Moved;
      retval, sent, taken, delivered := 1, sent0, 0, 0;
      ghost var start, base := source, wire;
      ghost var body := SizeSub(SizeField(header), HEADER_SIZE);
      ghost var n: nat := 0;
      var s := SendHeader(header, headerSend);
      if s > 0 {
        var left := SizeSub(SizeField(header), HEADER_SIZE);
        if left > 0 {
          if piped {
            left, sent, n, taken, delivered := RouteBody(left, sent0, rounds);
            if left <= 0 {
              retval := 0;
            }
          }
        } else {
          sent := s;
          retval := 0;
        }
      }
      ArrivesIff(base, header, if s > 0 then s else 0, start, body, delivered);
    }
  }

  /** Got and Moved, one round on. */
  lemma RoundSteps(rounds: seq<Round>, n: nat, body: nat, available: nat)
    requires n <= |rounds|
    ensures n == 0 ==> Got(rounds, n) == Moved(rounds, n) == 0
    ensures n < |rounds| ==>
              && Got(rounds, n + 1) == Got(rounds, n) + rounds[n].received
              && Moved(rounds, n + 1) == Moved(rounds, n) + rounds[n].moved
              && (Fits(rounds, n, body, available) <==>
                    && 1 <= rounds[n].received <= Limit(body - Got(rounds, n))
                    && Got(rounds, n) + rounds[n].received <= available
                    && 1 <= rounds[n].moved <= Limit(body - Got(rounds, n))
                    && Moved(rounds, n) + rounds[n].moved <= Got(rounds, n) + rounds[n].received)
  {
  }

  /** What is on the wire is the packet exactly when no part of it is missing. */
  lemma ArrivesIff(
      wire: seq<byte>, header: seq<byte>, headerSent: nat, source: seq<byte>, body: nat, delivered: nat)
    requires headerSent <= |header| && delivered <= |source| && delivered <= body
    ensures body <= |source| && wire + header[..headerSent] + source[..delivered] == wire + header + source[..body]
       <==> headerSent == |header| && delivered == body
  {
    if headerSent == |header| && delivered == body {
      assert header[..headerSent] == header;
    } else if body <= |source| {
      assert |wire + header[..headerSent] + source[..delivered]| < |wire + header + source[..body]|;
    }
  }

  /** A header that announces `body` bytes. */
  function HeaderFor(body: nat): (s: seq<byte>)
    requires HEADER_SIZE + body < SIZE_T_RANGE
    ensures |s| == HEADER_SIZE && SizeField(s) == HEADER_SIZE + body
  {
    var h := PacketHeader(0, HEADER_SIZE + body, 0, 0, 0, seq(13, _ => 0));
    DecodeEncode(h);
    EncodeHeader(h)
  }

  /** Two bytes go into the pipe, one comes out of it, and the packet has been routed: the other byte
      goes with the pipe. */
  method LosesAByte() returns (retval: int, header: seq<byte>, body: seq<byte>, wire: seq<byte>)
    ensures retval == 0 && |header| == HEADER_SIZE && SizeField(header) == HEADER_SIZE + |body|
    ensures |body| == 2 && wire == header + body[..1]
  {
    hide SizeField;
    header, body := HeaderFor(2), [1, 2];
    var relay := new Relay(body);
    var rounds := [Round(2, 1)];
    assert Got(rounds, 0) == Moved(rounds, 0) == 0 && Got(rounds, 1) == 2 && Moved(rounds, 1) == 1;
    assert Fits(rounds, 0, 2, 2);
    assert Completes(rounds, 1, 2, 2);
    ghost var taken, delivered;
    var sent;
    retval, sent, taken, delivered := relay.RoutePacket(header, HEADER_SIZE, true, rounds, 0);
    assert delivered == Moved(rounds, 1) == 1;
    assert header[..HEADER_SIZE] == header;
    wire := relay.wire;
  }

  /** The one send of the header takes a byte less than there is, and the packet has been routed. */
  method CutsTheHeader() returns (retval: int, header: seq<byte>, wire: seq<byte>)
    ensures retval == 0 && |header| == HEADER_SIZE == SizeField(header)
    ensures wire == header[..HEADER_SIZE - 1]
  {
    hide SizeField;
    header := HeaderFor(0);
    var relay := new Relay([]);
    ghost var taken, delivered;
    var sent;
    retval, sent, taken, delivered := relay.RoutePacket(header, HEADER_SIZE - 1, true, [], 0);
    wire := relay.wire;
  }

  lemma TakenOn(start: seq<byte>, delivered: nat, taken: nat, n: nat)
    requires delivered <= taken && taken + n <= |start|
    ensures start[taken..][n..] == start[taken + n..]
    ensures start[delivered..taken] + start[taken..][..n] == start[delivered..taken + n]
  {
  }

  lemma MovedOn(start: seq<byte>, delivered: nat, taken: nat, n: nat)
    requires delivered + n <= taken <= |start|
    ensures start[delivered..taken][n..] == start[delivered + n..taken]
    ensures forall base: seq<byte> ::
              base + start[..delivered] + start[delivered..taken][..n] == base + start[..delivered + n]
  {
    assert start[..delivered] + start[delivered..taken][..n] == start[..delivered + n];
    forall base: seq<byte>
      ensures base + start[..delivered] + start[delivered..taken][..n] == base + start[..delivered + n]
    {
      assert base + start[..delivered] + start[delivered..taken][..n]
          == base + (start[..delivered] + start[delivered..taken][..n]);
    }
  }
}
