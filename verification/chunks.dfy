/** What one call of the receive machine does, as a function of the bytes it holds, and what a whole
    run of calls amounts to.  The machine itself (module Receive) is proved equal to `Handle`; here
    `Handle` is compared with the one-shot parser. */
module Chunks {
  import opened Header
  import opened Framing

  /** Open: still in step with the stream.  Lost: RECEIVE_HANDLE_STATE_LOST.  Halted: the packet
      handler asked to stop, and the rest of the buffer was dropped.  Stuck: a header with a size from
      1 to 31 was met, whose packet never completes (Receive.UndersizedNeverCompletes). */
  datatype Mode = Open | Lost | Halted | Stuck

  /** The packets handed to the packet handler so far, and the bytes of the next packet that have
      arrived already. */
  datatype View = View(dispatched: seq<Frame>, held: seq<byte>, mode: Mode)

  const START := View([], [], Open)

  datatype Received = Received(buffer: seq<byte>, n: nat)

  /** One recv (): the receive buffer and how many bytes were received into it.  The buffer is at least
      as long as a header and still has old bytes past the first `n`. */
  type Recv = rc: Received | 0 < rc.n <= |rc.buffer| && HEADER_SIZE <= |rc.buffer|
    witness Received(seq(HEADER_SIZE, _ => 0), 1)

  function Bytes(rc: Recv): seq<byte> {
    rc.buffer[..rc.n]
  }

  /** RECEIVE_HANDLE_STATE_SPLIT_HEADER: part of a header is held. */
  predicate SplitHeader(v: View) {
    v.mode == Open && 0 < |v.held| < HEADER_SIZE
  }

  /** The guard the split-header branch does not have: the missing header bytes are all there. */
  predicate Prompt(v: View, rc: Recv) {
    SplitHeader(v) ==> HEADER_SIZE - |v.held| <= rc.n
  }

  /** The bytes that a call gets as far as parsing. */
  predicate Parses(v: View, rc: Recv) {
    v.mode == Open && (SplitHeader(v) ==> HEADER_SIZE - |v.held| < rc.n)
  }

  /** No header of a size below sizeof (PacketHeader) is met. */
  ghost predicate Sized(max: nat, stops: seq<Frame> -> bool, v: View, rc: Recv)
  {
    Parses(v, rc) ==> !Parse(max, stops, v.dispatched, v.held + Bytes(rc)).status.Undersized?
  }

  /** The state a parse leaves the machine in. */
  function After(r: Parsed): View {
    match r.status
    case Waiting => View(r.packets, r.rest, Open)
    case Stopped => View(r.packets, [], Halted)
    case BadSize => View(r.packets, [], Lost)
    case Undersized => View(r.packets, [], Stuck)
  }

  /** One call.  Completing a split header takes the missing bytes from the buffer whatever has been
      received, and only goes on to use them when more bytes follow. */
  function Handle(max: nat, stops: seq<Frame> -> bool, v: View, rc: Recv): View
  {
    if v.mode != Open then v
    else if !Parses(v, rc) then v.(held := v.held + rc.buffer[..HEADER_SIZE - |v.held|])
    else
      After(Parse(max, stops, v.dispatched, v.held + Bytes(rc)))
  }

  function Run(max: nat, stops: seq<Frame> -> bool, v: View, rcs: seq<Recv>): View
    decreases |rcs|
  {
    if rcs == [] then v else Run(max, stops, Handle(max, stops, v, rcs[0]), rcs[1..])
  }

  /** Every call of the run is prompt. */
  ghost predicate PromptRun(max: nat, stops: seq<Frame> -> bool, v: View, rcs: seq<Recv>)
    decreases |rcs|
  {
    rcs != [] ==> Prompt(v, rcs[0]) && PromptRun(max, stops, Handle(max, stops, v, rcs[0]), rcs[1..])
  }

  /** The stream: everything received, in order. */
  function Stream(rcs: seq<Recv>): seq<byte>
  {
    if rcs == [] then [] else Bytes(rcs[0]) + Stream(rcs[1..])
  }

  /** The bytes accounted for: those of dispatched packets and those held. */
  function Accounted(v: View): seq<byte> {
    EncodeAll(v.dispatched) + v.held
  }

  /** A complete header is held that a parser would already have acted on
      (RECEIVE_HANDLE_STATE_COMP_HEADER between calls, for a packet that needs no more bytes). */
  predicate Lagging(max: nat, v: View) {
    && v.mode == Open
    && |v.held| == HEADER_SIZE
    && !(HEADER_SIZE < SizeField(v.held) <= max)
  }

  /** What can be held between calls. */
  ghost predicate Settled(max: nat, stops: seq<Frame> -> bool, v: View) {
    v.mode == Open ==>
      || |v.held| == HEADER_SIZE
      || Parse(max, stops, v.dispatched, v.held) == Parsed(v.dispatched, v.held, Waiting)
  }

  /** Conservation, exactly: a call that stays in step accounts for the bytes it was given if and only
      if a split header found all its missing bytes among them. */
  lemma {:induction false} ConservesIffPrompt(max: nat, stops: seq<Frame> -> bool, v: View, rc: Recv)
    requires v.mode == Open && Handle(max, stops, v, rc).mode == Open
    ensures Accounted(Handle(max, stops, v, rc)) == Accounted(v) + Bytes(rc) <==> Prompt(v, rc)
  {
    if Parses(v, rc) {
      ParseConserves(max, stops, v.dispatched, v.held + Bytes(rc));
      assert Accounted(v) + Bytes(rc) == EncodeAll(v.dispatched) + (v.held + Bytes(rc));
    } else {
      var v' := Handle(max, stops, v, rc);
      assert |Accounted(v')| == |EncodeAll(v.dispatched)| + HEADER_SIZE;
      if Prompt(v, rc) {
        assert rc.n == HEADER_SIZE - |v.held|;
        assert Accounted(v') == Accounted(v) + Bytes(rc);
      }
    }
  }

  function Repeat(b: byte, n: nat): (s: seq<byte>)
    ensures |s| == n
  {
    seq(n, _ => b)
  }

  /** The image of a header-only packet, to be received in pieces. */
  function SampleHeader(): (s: seq<byte>)
    ensures |s| == HEADER_SIZE
  {
    EncodeHeader(PacketHeader(0, HEADER_SIZE, 0, 0, 0, Repeat(0, 13)))
  }

  /** Its first 24 bytes, then one byte while 8 are missing, then one more byte. */
  function UnpromptRecvs(stale: byte): (rcs: seq<Recv>)
    ensures |rcs| == 3
  {
    [ Received(SampleHeader(), 24),
      Received([0] + Repeat(stale, 31), 1),
      Received(Repeat(0, HEADER_SIZE), 1) ]
  }

  lemma {:induction false} RunThree(v: View, a: Recv, b: Recv, c: Recv)
    ensures Stream([a, b, c]) == Bytes(a) + Bytes(b) + Bytes(c)
    ensures Run(100, NEVER, v, [a, b, c])
            == Handle(100, NEVER, Handle(100, NEVER, Handle(100, NEVER, v, a), b), c)
  {
    assert [a, b, c][1..] == [b, c] && [b, c][1..] == [c] && [c][1..] == [];
    assert Stream([c]) == Bytes(c) && Stream([b, c]) == Bytes(b) + Stream([c]);
    var v1 := Handle(100, NEVER, v, a);
    var v2 := Handle(100, NEVER, v1, b);
    assert Run(100, NEVER, v2, [c]) == Run(100, NEVER, Handle(100, NEVER, v2, c), []);
    assert Run(100, NEVER, v1, [b, c]) == Run(100, NEVER, v2, [c]);
  }

  /** One more byte after a complete header-only header dispatches it. */
  lemma {:induction false} HeaderOnlyDispatched(image: seq<byte>, rc: Recv)
    requires |image| == HEADER_SIZE == SizeField(image) && rc.n == 1
    ensures Handle(100, NEVER, View([], image, Open), rc).dispatched == [Frame(image, [])]
  {
    var s := image + Bytes(rc);
    assert s[..HEADER_SIZE] == image && s[HEADER_SIZE..HEADER_SIZE] == [];
    assert [] + [Frame(image, [])] == [Frame(image, [])];
    assert Parse(100, NEVER, [Frame(image, [])], s[HEADER_SIZE..]).packets == [Frame(image, [])];
    assert Parse(100, NEVER, [], s) == Parse(100, NEVER, [Frame(image, [])], s[HEADER_SIZE..]);
  }

  lemma {:induction false} SampleHeaderOnly(image: seq<byte>)
    requires |image| == HEADER_SIZE && image[8..16] == SampleHeader()[8..16]
    ensures SizeField(image) == HEADER_SIZE
  {
    DecodeEncode(PacketHeader(0, HEADER_SIZE, 0, 0, 0, Repeat(0, 13)));
  }

  lemma {:induction false} UnpromptRun(stale: byte)
    ensures Stream(UnpromptRecvs(stale)) == SampleHeader()[..24] + [0] + [0]
    ensures Run(100, NEVER, START, UnpromptRecvs(stale)).dispatched
            == [Frame(SampleHeader()[..24] + [0] + Repeat(stale, 7), [])]
  {
    hide Parse, EncodeAll, SizeField, EncodeHeader, DecodeHeader, LittleEndian, Run, Stream;
    var h := SampleHeader();
    var rcs := UnpromptRecvs(stale);
    RunThree(START, rcs[0], rcs[1], rcs[2]);
    assert Bytes(rcs[1]) == [0] && Bytes(rcs[2]) == [0];
    assert [] + Bytes(rcs[0]) == h[..24];
    ParseShort(100, NEVER, [], h[..24]);
    assert Handle(100, NEVER, START, rcs[0]) == View([], h[..24], Open);
    assert rcs[1].buffer[..8] == [0] + Repeat(stale, 7);
    var image := h[..24] + [0] + Repeat(stale, 7);
    assert h[..24] + ([0] + Repeat(stale, 7)) == image;
    assert image[8..16] == h[8..16];
    SampleHeaderOnly(image);
    HeaderOnlyDispatched(image, rcs[2]);
  }

  /** Without promptness the packets are not a function of the stream: two runs that receive the same
      bytes dispatch packets that differ in what the receive buffer held before. */
  lemma {:induction false} UnpromptRunsDisagree(stale1: byte, stale2: byte)
    requires stale1 != stale2
    ensures Stream(UnpromptRecvs(stale1)) == Stream(UnpromptRecvs(stale2))
    ensures Run(100, NEVER, START, UnpromptRecvs(stale1)).dispatched
            != Run(100, NEVER, START, UnpromptRecvs(stale2)).dispatched
  {
    UnpromptRun(stale1);
    UnpromptRun(stale2);
    var x1 := SampleHeader()[..24] + [0] + Repeat(stale1, 7);
    var x2 := SampleHeader()[..24] + [0] + Repeat(stale2, 7);
    assert x1[25] == stale1 && x2[25] == stale2;
    assert [Frame(x1, [])][0] != [Frame(x2, [])][0];
  }

  lemma {:induction false} HandleSettles(max: nat, stops: seq<Frame> -> bool, v: View, rc: Recv)
    requires Settled(max, stops, v)
    ensures Settled(max, stops, Handle(max, stops, v, rc))
  {
    if Parses(v, rc) {
      ParseRestWaits(max, stops, v.dispatched, v.held + Bytes(rc));
    }
  }

  lemma {:induction false} RunSettles(max: nat, stops: seq<Frame> -> bool, v: View, rcs: seq<Recv>)
    requires Settled(max, stops, v)
    ensures Settled(max, stops, Run(max, stops, v, rcs))
    decreases |rcs|
  {
    if rcs == [] {
    } else {
      HandleSettles(max, stops, v, rcs[0]);
      RunSettles(max, stops, Handle(max, stops, v, rcs[0]), rcs[1..]);
    }
  }

  /** A lost or halted receiver never dispatches again. */
  lemma {:induction false} LostIsAbsorbing(max: nat, stops: seq<Frame> -> bool, v: View, rcs: seq<Recv>)
    requires v.mode != Open
    ensures Run(max, stops, v, rcs) == v
    decreases |rcs|
  {
    if rcs == [] {
    } else {
      LostIsAbsorbing(max, stops, v, rcs[1..]);
    }
  }

  lemma {:induction false} RunAppend(max: nat, stops: seq<Frame> -> bool, v: View, first: seq<Recv>, second: seq<Recv>)
    ensures Run(max, stops, v, first + second) == Run(max, stops, Run(max, stops, v, first), second)
    ensures Stream(first + second) == Stream(first) + Stream(second)
    decreases |first|
  {
    hide Handle;
    if first == [] {
      assert first + second == second;
    } else {
      assert (first + second)[1..] == first[1..] + second;
      RunAppend(max, stops, Handle(max, stops, v, first[0]), first[1..], second);
    }
  }

  /** Chunking independence.  Whatever the chunks of a prompt run, the packets dispatched are those of
      the one-shot parse of the whole stream: parsing what is held at the end finishes that parse. */
  lemma {:induction false} ChunkingIndependence(max: nat, stops: seq<Frame> -> bool, v: View, rcs: seq<Recv>)
    requires v.mode == Open
    requires PromptRun(max, stops, v, rcs)
    ensures var r := Parse(max, stops, v.dispatched, v.held + Stream(rcs));
            var out := Run(max, stops, v, rcs);
            match out.mode
            case Open => Parse(max, stops, out.dispatched, out.held) == r
            case Lost => r.status.BadSize? && out.dispatched == r.packets
            case Halted => r.status.Stopped? && out.dispatched == r.packets
            case Stuck => r.status.Undersized? && out.dispatched == r.packets
    decreases |rcs|
  {
    hide Parse, EncodeAll, SizeField;
    if rcs == [] {
      assert v.held + Stream(rcs) == v.held;
    } else {
      var bytes := Bytes(rcs[0]);
      var rest := Stream(rcs[1..]);
      var v' := Handle(max, stops, v, rcs[0]);
      assert v.held + Stream(rcs) == (v.held + bytes) + rest;
      if Parses(v, rcs[0]) {
        ParseAppend(max, stops, v.dispatched, v.held + bytes, rest);
      }
      if v'.mode == Open {
        ChunkingIndependence(max, stops, v', rcs[1..]);
      } else {
        LostIsAbsorbing(max, stops, v', rcs[1..]);
      }
    }
  }

  /** Chunking independence from the start of a connection, with the lag spelled out: the run has
      dispatched exactly the packets of the stream, except that a packet that is only a header may
      still be waiting for the next call. */
  lemma {:induction false} StreamDispatched(max: nat, stops: seq<Frame> -> bool, rcs: seq<Recv>)
    requires PromptRun(max, stops, START, rcs)
    ensures var r := Parse(max, stops, [], Stream(rcs));
            var out := Run(max, stops, START, rcs);
            if Lagging(max, out) && SizeField(out.held) == HEADER_SIZE <= max
            then r.packets == out.dispatched + [Frame(out.held, [])]
            else r.packets == out.dispatched
  {
    var out := Run(max, stops, START, rcs);
    assert [] + Stream(rcs) == Stream(rcs);
    ChunkingIndependence(max, stops, START, rcs);
    RunSettles(max, stops, START, rcs);
    if out.mode == Open && |out.held| == HEADER_SIZE {
      assert out.held[..HEADER_SIZE] == out.held && out.held[HEADER_SIZE..] == [];
      if SizeField(out.held) == HEADER_SIZE <= max {
        assert out.held[HEADER_SIZE..SizeField(out.held)] == [];
      }
    }
  }

  /** Conservation over a run that stays in step. */
  lemma {:induction false} RunConserves(max: nat, stops: seq<Frame> -> bool, v: View, rcs: seq<Recv>)
    requires v.mode == Open && PromptRun(max, stops, v, rcs)
    requires Run(max, stops, v, rcs).mode == Open
    ensures Accounted(Run(max, stops, v, rcs)) == Accounted(v) + Stream(rcs)
    decreases |rcs|
  {
    if rcs == [] {
      assert Accounted(v) + Stream(rcs) == Accounted(v);
    } else {
      var v' := Handle(max, stops, v, rcs[0]);
      if v'.mode != Open {
        LostIsAbsorbing(max, stops, v', rcs[1..]);
      }
      ConservesIffPrompt(max, stops, v, rcs[0]);
      RunConserves(max, stops, v', rcs[1..]);
      assert (Accounted(v) + Bytes(rcs[0])) + Stream(rcs[1..]) == Accounted(v) + Stream(rcs);
    }
  }

  /** No call that stays in step accounts for fewer bytes than it was given, and an unprompt one
      accounts for more. */
  lemma {:induction false} HandleAtLeast(max: nat, stops: seq<Frame> -> bool, v: View, rc: Recv)
    requires v.mode == Open && Handle(max, stops, v, rc).mode == Open
    ensures |Accounted(Handle(max, stops, v, rc))| >= |Accounted(v)| + |Bytes(rc)|
    ensures |Accounted(Handle(max, stops, v, rc))| == |Accounted(v)| + |Bytes(rc)| <==> Prompt(v, rc)
  {
    hide Parse, EncodeAll;
    if Prompt(v, rc) {
      ConservesIffPrompt(max, stops, v, rc);
    } else {
      assert !Parses(v, rc);
    }
  }

  lemma {:induction false} RunAtLeast(max: nat, stops: seq<Frame> -> bool, v: View, rcs: seq<Recv>)
    requires v.mode == Open && Run(max, stops, v, rcs).mode == Open
    ensures |Accounted(Run(max, stops, v, rcs))| >= |Accounted(v)| + |Stream(rcs)|
    ensures |Accounted(Run(max, stops, v, rcs))| == |Accounted(v)| + |Stream(rcs)| ==> PromptRun(max, stops, v, rcs)
    decreases |rcs|
  {
    hide Handle, Accounted, Prompt;
    if rcs == [] {
    } else {
      var v' := Handle(max, stops, v, rcs[0]);
      if v'.mode != Open {
        LostIsAbsorbing(max, stops, v', rcs[1..]);
      }
      HandleAtLeast(max, stops, v, rcs[0]);
      RunAtLeast(max, stops, v', rcs[1..]);
    }
  }

  /** Conservation over runs, exactly: a run that stays in step accounts for the bytes received if and
      only if every call of it was prompt. */
  lemma {:induction false} RunConservesIff(max: nat, stops: seq<Frame> -> bool, v: View, rcs: seq<Recv>)
    requires v.mode == Open && Run(max, stops, v, rcs).mode == Open
    ensures Accounted(Run(max, stops, v, rcs)) == Accounted(v) + Stream(rcs) <==> PromptRun(max, stops, v, rcs)
  {
    hide Run, PromptRun, Accounted, Stream;
    RunAtLeast(max, stops, v, rcs);
    if PromptRun(max, stops, v, rcs) {
      RunConserves(max, stops, v, rcs);
    }
  }

  /** Chunking independence, exactly: a run that stays in step is in step with the one-shot parse of
      the stream if and only if every call of it was prompt. */
  lemma {:induction false} ChunkingIndependenceIff(max: nat, stops: seq<Frame> -> bool, v: View, rcs: seq<Recv>)
    requires v.mode == Open && Run(max, stops, v, rcs).mode == Open
    ensures var out := Run(max, stops, v, rcs);
            Parse(max, stops, out.dispatched, out.held) == Parse(max, stops, v.dispatched, v.held + Stream(rcs))
            <==> PromptRun(max, stops, v, rcs)
  {
    hide Run, PromptRun, Parse, EncodeAll, Stream;
    var out, s := Run(max, stops, v, rcs), v.held + Stream(rcs);
    if PromptRun(max, stops, v, rcs) {
      ChunkingIndependence(max, stops, v, rcs);
    }
    if Parse(max, stops, out.dispatched, out.held) == Parse(max, stops, v.dispatched, s) {
      ParseConserves(max, stops, out.dispatched, out.held);
      ParseConserves(max, stops, v.dispatched, s);
      assert Accounted(v) + Stream(rcs) == EncodeAll(v.dispatched) + s;
      RunConservesIff(max, stops, v, rcs);
    }
  }

  /** LOST is prefix-safe: once well-formed packets are followed by a header of size 0 or above the
      limit, only those packets are ever dispatched, however the bytes are chunked and whatever
      follows. */
  lemma {:induction false} LostIsPrefixSafe(max: nat, ps: seq<Frame>, bad: seq<byte>, rcs: seq<Recv>)
    requires PromptRun(max, NEVER, START, rcs)
    requires forall p :: p in ps ==> WellFormed(p, max)
    requires |bad| >= HEADER_SIZE && (SizeField(bad[..HEADER_SIZE]) == 0 || SizeField(bad[..HEADER_SIZE]) > max)
    requires Stream(rcs) == EncodeAll(ps) + bad
    ensures Run(max, NEVER, START, rcs).dispatched == ps
    ensures Run(max, NEVER, START, rcs).mode == Lost || Run(max, NEVER, START, rcs).held == bad
  {
    hide Parse, EncodeAll, SizeField, Run, PromptRun, Stream;
    var out := Run(max, NEVER, START, rcs);
    ParseEncoded(max, [], ps, bad);
    ParseHeader(max, NEVER, ps, bad[..HEADER_SIZE], bad[HEADER_SIZE..]);
    assert bad[..HEADER_SIZE] + bad[HEADER_SIZE..] == bad;
    assert [] + ps == ps && [] + Stream(rcs) == Stream(rcs);
    StreamDispatched(max, NEVER, rcs);
    ChunkingIndependence(max, NEVER, START, rcs);
    ParseShort(max, NEVER, [], []);
    RunSettles(max, NEVER, START, rcs);
    if out.mode == Open {
      ParseHeaderAlone(max, NEVER, out.dispatched, out.held);
      EncodeAllEmpty();
      assert Accounted(START) + Stream(rcs) == EncodeAll(ps) + bad;
      RunConserves(max, NEVER, START, rcs);
      assert |out.held| == HEADER_SIZE;
      assert out.held[..HEADER_SIZE] == out.held;
      assert (EncodeAll(ps) + out.held)[|EncodeAll(ps)|..] == out.held;
      assert (EncodeAll(ps) + bad)[|EncodeAll(ps)|..] == bad;
    }
  }
}
