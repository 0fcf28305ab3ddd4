/** End to end: what a list of packets turns into on its way through the sender's socket and the
    receiver's chunks. */
module RoundTrip {
  import opened Header
  import opened Framing
  import opened Chunks

  /** The bytes of the last receive, if there is one. */
  function LastBytes(rcs: seq<Recv>): seq<byte> {
    if rcs == [] then [] else Bytes(rcs[|rcs| - 1])
  }

  /** The one case in which the receiver is behind: the last packet is only a header, and the last
      receive started inside that header. */
  predicate LastHeaderLags(ps: seq<Frame>, rcs: seq<Recv>) {
    ps != [] && ps[|ps| - 1].data == [] && |LastBytes(rcs)| < HEADER_SIZE
  }

  lemma {:induction false} PromptPrefix(max: nat, v: View, rcs: seq<Recv>, n: nat)
    requires n <= |rcs| && PromptRun(max, NEVER, v, rcs)
    ensures PromptRun(max, NEVER, v, rcs[..n])
    ensures n < |rcs| ==> Prompt(Run(max, NEVER, v, rcs[..n]), rcs[n])
    decreases n
  {
    if n == 0 {
    } else {
      assert rcs[..n][1..] == rcs[1..][..n - 1];
      PromptPrefix(max, Handle(max, NEVER, v, rcs[0]), rcs[1..], n - 1);
    }
  }

  /** Well-formed packets never lead out of step. */
  lemma {:induction false} StaysOpen(max: nat, ps: seq<Frame>, rcs: seq<Recv>, t: seq<byte>)
    requires forall p :: p in ps ==> WellFormed(p, max)
    requires PromptRun(max, NEVER, START, rcs)
    requires Stream(rcs) + t == EncodeAll(ps)
    ensures Run(max, NEVER, START, rcs).mode == Open
  {
    hide Run, PromptRun, Stream, Parse, EncodeAll, SizeField;
    assert EncodeAll(ps) + [] == EncodeAll(ps);
    ParseEncoded(max, [], ps, []);
    ParseShort(max, NEVER, [] + ps, []);
    ParseAppend(max, NEVER, [], Stream(rcs), t);
    assert [] + Stream(rcs) == Stream(rcs);
    ChunkingIndependence(max, NEVER, START, rcs);
  }

  /** The state just before the last receive, and what the last receive does to it. */
  lemma {:induction false} LastStep(max: nat, ps: seq<Frame>, rcs: seq<Recv>) returns (w: View, rc: Recv)
    requires forall p :: p in ps ==> WellFormed(p, max)
    requires PromptRun(max, NEVER, START, rcs) && rcs != []
    requires Stream(rcs) == EncodeAll(ps)
    ensures rc == rcs[|rcs| - 1] && LastBytes(rcs) == Bytes(rc) && Prompt(w, rc)
    ensures w.mode == Open && Settled(max, NEVER, w)
    ensures Run(max, NEVER, START, rcs) == Handle(max, NEVER, w, rc)
    ensures Accounted(w) + Bytes(rc) == EncodeAll(ps)
    ensures Parse(max, NEVER, w.dispatched, w.held) == Parse(max, NEVER, [], Accounted(w))
  {
    hide Run, PromptRun, Stream, Parse, EncodeAll, SizeField, Handle;
    var n := |rcs| - 1;
    var front := rcs[..n];
    rc := rcs[n];
    w := Run(max, NEVER, START, front);
    assert rcs == front + [rc];
    PromptPrefix(max, START, rcs, n);
    RunAppend(max, NEVER, START, front, [rc]);
    RunOne(max, w, rc);
    StaysOpen(max, ps, front, Bytes(rc));
    ParseShort(max, NEVER, [], []);
    RunSettles(max, NEVER, START, front);
    RunConserves(max, NEVER, START, front);
    EncodeAllEmpty();
    assert Accounted(START) + Stream(front) == Stream(front) == [] + Stream(front);
    ParseEncoded(max, [], ps, []);
    assert EncodeAll(ps) + [] == EncodeAll(ps);
    ParseShort(max, NEVER, [] + ps, []);
    ParseAppend(max, NEVER, [], Stream(front), Bytes(rc));
    ChunkingIndependence(max, NEVER, START, front);
  }

  lemma {:induction false} RunOne(max: nat, v: View, rc: Recv)
    ensures Run(max, NEVER, v, [rc]) == Handle(max, NEVER, v, rc)
    ensures Stream([rc]) == Bytes(rc)
  {
    assert [rc][1..] == [];
    assert Run(max, NEVER, Handle(max, NEVER, v, rc), []) == Handle(max, NEVER, v, rc);
    assert Bytes(rc) + [] == Bytes(rc);
  }

  /** A receiver that is behind got no more than the rest of a header last. */
  lemma {:induction false} LagOnlyAfterPartOfHeader(max: nat, w: View, rc: Recv)
    requires w.mode == Open && Handle(max, NEVER, w, rc).mode == Open
    requires var held := Handle(max, NEVER, w, rc).held; |held| == HEADER_SIZE == SizeField(held) <= max
    ensures |Bytes(rc)| < HEADER_SIZE
  {
    hide Parse, SizeField;
    if Parses(w, rc) {
      var out := Handle(max, NEVER, w, rc);
      ParseRestWaits(max, NEVER, w.dispatched, w.held + Bytes(rc));
      ParseHeaderAlone(max, NEVER, out.dispatched, out.held);
      assert false;
    }
  }

  /** A stream cut inside a last header-only packet: the machine holds that part of the header. */
  lemma {:induction false} HoldsPartOfHeader(max: nat, ps: seq<Frame>, part: seq<byte>, w: View)
    requires forall p :: p in ps ==> WellFormed(p, max)
    requires 0 < |part| < HEADER_SIZE
    requires w.mode == Open && Settled(max, NEVER, w)
    requires Accounted(w) == EncodeAll(ps) + part
    requires Parse(max, NEVER, w.dispatched, w.held) == Parse(max, NEVER, [], Accounted(w))
    ensures w == View(ps, part, Open)
  {
    hide Parse, SizeField, EncodeAll;
    ParseEncoded(max, [], ps, part);
    assert [] + ps == ps;
    ParseShort(max, NEVER, ps, part);
    if |w.held| == HEADER_SIZE {
      ParseHeaderAlone(max, NEVER, w.dispatched, w.held);
      assert false;
    }
  }

  lemma {:induction false} EndsInsideLastHeader(ps: seq<Frame>, bytes: seq<byte>, before: seq<byte>)
    requires ps != [] && ps[|ps| - 1].data == [] && |ps[|ps| - 1].header| == HEADER_SIZE
    requires before + bytes == EncodeAll(ps) && 0 < |bytes| < HEADER_SIZE
    ensures before == EncodeAll(ps[..|ps| - 1]) + ps[|ps| - 1].header[..HEADER_SIZE - |bytes|]
    ensures bytes == ps[|ps| - 1].header[HEADER_SIZE - |bytes|..]
  {
    var front, header := EncodeAll(ps[..|ps| - 1]), ps[|ps| - 1].header;
    assert before + bytes == front + header;
    var n := |before|;
    assert (before + bytes)[..n] == before && (before + bytes)[n..] == bytes;
    assert (front + header)[..n] == front + header[..HEADER_SIZE - |bytes|];
    assert (front + header)[n..] == header[HEADER_SIZE - |bytes|..];
  }

  /** A receiver that has not dispatched everything is behind by a last header. */
  lemma {:induction false} BehindOnlyByLastHeader(max: nat, ps: seq<Frame>, rcs: seq<Recv>)
    requires forall p :: p in ps ==> WellFormed(p, max)
    requires PromptRun(max, NEVER, START, rcs) && rcs != []
    requires Stream(rcs) == EncodeAll(ps)
    ensures Run(max, NEVER, START, rcs).dispatched == ps || LastHeaderLags(ps, rcs)
  {
    hide Run, PromptRun, Stream, Parse, EncodeAll, SizeField, Handle;
    var out := Run(max, NEVER, START, rcs);
    assert Stream(rcs) + [] == EncodeAll(ps) == EncodeAll(ps) + [];
    StaysOpen(max, ps, rcs, []);
    ParseEncoded(max, [], ps, []);
    assert [] + ps == ps;
    ParseShort(max, NEVER, ps, []);
    StreamDispatched(max, NEVER, rcs);
    if out.dispatched != ps {
      var w, rc := LastStep(max, ps, rcs);
      LagOnlyAfterPartOfHeader(max, w, rc);
      assert ps[|ps| - 1] == Frame(out.held, []);
    }
  }

  /** And then it holds that header, and has dispatched all the others. */
  lemma {:induction false} LateHeaderIsHeld(max: nat, ps: seq<Frame>, rcs: seq<Recv>)
    requires forall p :: p in ps ==> WellFormed(p, max)
    requires PromptRun(max, NEVER, START, rcs) && rcs != []
    requires Stream(rcs) == EncodeAll(ps)
    ensures LastHeaderLags(ps, rcs) ==>
              && Run(max, NEVER, START, rcs).dispatched == ps[..|ps| - 1]
              && Run(max, NEVER, START, rcs).held == ps[|ps| - 1].header
  {
    hide Run, PromptRun, Stream, Parse, EncodeAll, SizeField;
    if LastHeaderLags(ps, rcs) {
      var w, rc := LastStep(max, ps, rcs);
      var front, last := ps[..|ps| - 1], ps[|ps| - 1];
      assert last in ps;
      EndsInsideLastHeader(ps, Bytes(rc), Accounted(w));
      HoldsPartOfHeader(max, front, last.header[..HEADER_SIZE - |Bytes(rc)|], w);
      assert Run(max, NEVER, START, rcs).held == last.header;
    }
  }

  /** The round trip.  Send any well-formed packets and chunk the bytes in any prompt way: the receiver
      has dispatched exactly those packets if and only if the last one did not end in a receive that
      only brought (the rest of) its header, and in that case all but the last, which is held. */
  lemma {:induction false} FramesRoundTrip(max: nat, ps: seq<Frame>, rcs: seq<Recv>)
    requires forall p :: p in ps ==> WellFormed(p, max)
    requires PromptRun(max, NEVER, START, rcs)
    requires Stream(rcs) == EncodeAll(ps)
    ensures var out := Run(max, NEVER, START, rcs);
            && out.mode == Open
            && (out.dispatched == ps <==> !LastHeaderLags(ps, rcs))
            && (LastHeaderLags(ps, rcs) ==>
                  && out.dispatched == ps[..|ps| - 1]
                  && out.held == ps[|ps| - 1].header)
  {
    var out := Run(max, NEVER, START, rcs);
    assert Stream(rcs) + [] == EncodeAll(ps) == EncodeAll(ps) + [];
    StaysOpen(max, ps, rcs, []);
    if rcs == [] {
      if ps != [] {
        EncodeAllLong(max, ps);
        assert false;
      }
    } else {
      hide Run, PromptRun, Stream, EncodeAll, LastHeaderLags;
      BehindOnlyByLastHeader(max, ps, rcs);
      LateHeaderIsHeld(max, ps, rcs);
    }
  }

}
