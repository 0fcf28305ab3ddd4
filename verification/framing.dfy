/** The wire format seen as a pure function of the whole stream: a packet is a header image followed
    by packet_size - sizeof (PacketHeader) data bytes.  `Parse` is the reference that the chunk-driven
    receivers are proved against; it knows nothing about chunks, states or buffers. */
module Framing {
  import opened Header

  datatype Frame = Frame(header: seq<byte>, data: seq<byte>)

  function Encode(p: Frame): seq<byte> {
    p.header + p.data
  }

  function EncodeAll(ps: seq<Frame>): seq<byte> {
    if ps == [] then [] else EncodeAll(ps[..|ps| - 1]) + Encode(ps[|ps| - 1])
  }

  /** A packet whose header tells the truth about its length and passes the receiver's limit. */
  ghost predicate WellFormed(p: Frame, max: nat) {
    && |p.header| == HEADER_SIZE
    && SizeField(p.header) == HEADER_SIZE + |p.data|
    && SizeField(p.header) <= max
  }

  /** Waiting: the rest is a proper prefix of a packet.  BadSize: the rest starts with a header of size 0
      or above the limit.  Stopped: the packet handler asked to stop.  Undersized: the rest starts with
      a header whose size is positive but smaller than the header itself. */
  datatype Status = Waiting | BadSize | Stopped | Undersized

  datatype Parsed = Parsed(packets: seq<Frame>, rest: seq<byte>, status: Status)

  /** One-shot parse of `s`, continuing after the packets `done`.  `stops` is the verdict of the packet
      handler (the stop_handler flag) after the packets handled so far. */
  function Parse(max: nat, stops: seq<Frame> -> bool, done: seq<Frame>, s: seq<byte>): Parsed
    decreases |s|
  {
    if |s| < HEADER_SIZE then Parsed(done, s, Waiting)
    else
      var size := SizeField(s[..HEADER_SIZE]);
      if size == 0 || size > max then Parsed(done, s, BadSize)
      else if size < HEADER_SIZE then Parsed(done, s, Undersized)
      else if |s| < size then Parsed(done, s, Waiting)
      else
        var done' := done + [Frame(s[..HEADER_SIZE], s[HEADER_SIZE..size])];
        if stops(done') then Parsed(done', s[size..], Stopped)
        else Parse(max, stops, done', s[size..])
  }

  lemma {:induction false} ParseShort(max: nat, stops: seq<Frame> -> bool, done: seq<Frame>, s: seq<byte>)
    requires |s| < HEADER_SIZE
    ensures Parse(max, stops, done, s) == Parsed(done, s, Waiting)
  {
  }

  /** One step of `Parse` on a stream that starts with the header image `image`. */
  lemma {:induction false} ParseHeader(
    max: nat, stops: seq<Frame> -> bool, done: seq<Frame>, image: seq<byte>, rest: seq<byte>)
    requires |image| == HEADER_SIZE
    ensures var size := SizeField(image);
            Parse(max, stops, done, image + rest) ==
            if size == 0 || size > max then Parsed(done, image + rest, BadSize)
            else if size < HEADER_SIZE then Parsed(done, image + rest, Undersized)
            else if |rest| < size - HEADER_SIZE then Parsed(done, image + rest, Waiting)
            else
              var done' := done + [Frame(image, rest[..size - HEADER_SIZE])];
              if stops(done') then Parsed(done', rest[size - HEADER_SIZE..], Stopped)
              else Parse(max, stops, done', rest[size - HEADER_SIZE..])
  {
    var s := image + rest;
    assert s[..HEADER_SIZE] == image;
    var size := SizeField(image);
    if HEADER_SIZE <= size <= |s| {
      assert s[HEADER_SIZE..size] == rest[..size - HEADER_SIZE];
      assert s[size..] == rest[size - HEADER_SIZE..];
    }
  }

  /** A header with nothing after it is used up entirely or not at all. */
  lemma {:induction false} ParseHeaderAlone(
    max: nat, stops: seq<Frame> -> bool, done: seq<Frame>, image: seq<byte>)
    requires |image| == HEADER_SIZE
    ensures var r := Parse(max, stops, done, image);
            if SizeField(image) == HEADER_SIZE <= max
            then r.packets == done + [Frame(image, [])] && r.rest == []
            else r.packets == done && r.rest == image
  {
    hide Parse, SizeField;
    assert image + [] == image;
    ParseHeader(max, stops, done, image, []);
    ParseShort(max, stops, done + [Frame(image, [])], []);
  }

  lemma {:induction false} EncodeAllLong(max: nat, ps: seq<Frame>)
    requires forall p :: p in ps ==> WellFormed(p, max)
    requires ps != []
    ensures |EncodeAll(ps)| >= HEADER_SIZE
  {
    assert ps[|ps| - 1] in ps;
  }

  /** No handler ever asks to stop. */
  const NEVER: seq<Frame> -> bool := (ps: seq<Frame>) => false

  lemma {:induction false} EncodeAllEmpty()
    ensures EncodeAll([]) == []
  {
  }

  lemma {:induction false} EncodeAllSnoc(ps: seq<Frame>, p: Frame)
    ensures EncodeAll(ps + [p]) == EncodeAll(ps) + Encode(p)
  {
    assert (ps + [p])[..|ps|] == ps;
  }

  /** Byte conservation of the format: the packets found and the bytes left over are the bytes given. */
  lemma {:induction false} ParseConserves(max: nat, stops: seq<Frame> -> bool, done: seq<Frame>, s: seq<byte>)
    ensures var r := Parse(max, stops, done, s);
            EncodeAll(r.packets) + r.rest == EncodeAll(done) + s
    decreases |s|
  {
    if |s| < HEADER_SIZE {
    } else {
      var size := SizeField(s[..HEADER_SIZE]);
      if HEADER_SIZE <= size <= max && size <= |s| {
        var p := Frame(s[..HEADER_SIZE], s[HEADER_SIZE..size]);
        EncodeAllSnoc(done, p);
        assert s == Encode(p) + s[size..];
        assert (EncodeAll(done) + Encode(p)) + s[size..] == EncodeAll(done) + s;
        if !stops(done + [p]) {
          ParseConserves(max, stops, done + [p], s[size..]);
        }
      }
    }
  }

  /** Every packet parsed is well formed, and the packets found before stay in front. */
  lemma {:induction false} ParseExtends(max: nat, stops: seq<Frame> -> bool, done: seq<Frame>, s: seq<byte>)
    ensures var r := Parse(max, stops, done, s);
            && done <= r.packets
            && (forall i :: |done| <= i < |r.packets| ==> WellFormed(r.packets[i], max))
            && (|s| > 0 && r.rest == [] ==> |r.packets| > |done|)
    decreases |s|
  {
    if |s| < HEADER_SIZE {
    } else {
      var size := SizeField(s[..HEADER_SIZE]);
      if HEADER_SIZE <= size <= max && size <= |s| {
        var done' := done + [Frame(s[..HEADER_SIZE], s[HEADER_SIZE..size])];
        assert WellFormed(done'[|done|], max);
        if !stops(done') {
          ParseExtends(max, stops, done', s[size..]);
        }
      }
    }
  }

  /** The law that makes an incremental parser possible: parsing can be suspended after any prefix.
      A parse that waits resumes from what it holds; one that met a bad size, stopped or undersized is not
      changed by whatever follows. */
  lemma {:induction false} ParseAppend(
    max: nat, stops: seq<Frame> -> bool, done: seq<Frame>, s: seq<byte>, t: seq<byte>)
    ensures var r := Parse(max, stops, done, s);
            Parse(max, stops, done, s + t) ==
            if r.status == Waiting then Parse(max, stops, r.packets, r.rest + t)
            else r.(rest := r.rest + t)
    decreases |s|
  {
    if |s| < HEADER_SIZE {
    } else {
      assert (s + t)[..HEADER_SIZE] == s[..HEADER_SIZE];
      var size := SizeField(s[..HEADER_SIZE]);
      if HEADER_SIZE <= size <= max && size <= |s| {
        assert (s + t)[HEADER_SIZE..size] == s[HEADER_SIZE..size];
        assert (s + t)[size..] == s[size..] + t;
        var done' := done + [Frame(s[..HEADER_SIZE], s[HEADER_SIZE..size])];
        if !stops(done') {
          ParseAppend(max, stops, done', s[size..], t);
        }
      }
    }
  }

  /** What a waiting parse leaves over waits again. */
  lemma {:induction false} ParseRestWaits(max: nat, stops: seq<Frame> -> bool, done: seq<Frame>, s: seq<byte>)
    ensures var r := Parse(max, stops, done, s);
            r.status == Waiting ==> Parse(max, stops, r.packets, r.rest) == r
    decreases |s|
  {
    if |s| < HEADER_SIZE {
    } else {
      var size := SizeField(s[..HEADER_SIZE]);
      if HEADER_SIZE <= size <= max && size <= |s| {
        var done' := done + [Frame(s[..HEADER_SIZE], s[HEADER_SIZE..size])];
        if !stops(done') {
          ParseRestWaits(max, stops, done', s[size..]);
        }
      }
    }
  }

  /** The parser inverts the encoder: a stream that starts with well-formed packets gives exactly
      those packets, and goes on with what follows them. */
  lemma {:induction false} ParseEncoded(max: nat, done: seq<Frame>, ps: seq<Frame>, t: seq<byte>)
    requires forall p :: p in ps ==> WellFormed(p, max)
    ensures Parse(max, NEVER, done, EncodeAll(ps) + t) == Parse(max, NEVER, done + ps, t)
  {
    hide Parse, EncodeAll, SizeField;
    EncodeAllEmpty();
    if ps == [] {
      assert EncodeAll(ps) + t == t && done + ps == done;
    } else {
      var p := ps[|ps| - 1];
      var front := ps[..|ps| - 1];
      assert p in ps && ps == front + [p];
      EncodeAllSnoc(front, p);
      assert EncodeAll(ps) + t == EncodeAll(front) + (Encode(p) + t);
      ParseEncoded(max, done, front, Encode(p) + t);
      assert Encode(p) + t == p.header + (p.data + t);
      ParseHeader(max, NEVER, done + front, p.header, p.data + t);
      assert (p.data + t)[..|p.data|] == p.data && (p.data + t)[|p.data|..] == t;
      assert (done + front) + [p] == done + ps;
    }
  }
}
