/**
 * What is still on its way to a reader: the packets that the bytes in flight, together with what the reader has
 * already buffered, are the image of. Appending a packet's bytes appends the packet; a turn of the reader either
 * leaves the packets as they are, removes the first one, or shortens the data packet at the head.
 */
module YamuxWire {
  import opened Basics
  import opened YamuxFrame
  import opened YamuxReader

  predicate AllSendable(ps: seq<Packet>) { forall i :: 0 <= i < |ps| ==> Sendable(ps[i]) }

  /** The bytes `bs` bring a reader in state `r` exactly the packets `ps`. */
  predicate Carries(r: Reader, bs: seq<byte>, ps: seq<Packet>) {
    && r.Reader? && !r.rst && !r.fin && AllSendable(ps)
    && if r.unread == 0 then r.header + bs == WireBytes(ps)
       else if r.unread > |bs| then false
       else if r.sid == 0 then bs[r.unread..] == WireBytes(ps)
       else ps != [] && ps[0] == PData(r.sid, bs[..r.unread]) && bs[r.unread..] == WireBytes(ps[1..])
  }

  lemma {:induction false} WireAppend(ps: seq<Packet>, p: Packet)
    ensures WireBytes(ps + [p]) == WireBytes(ps) + PacketBytes(p)
  {
    if ps == [] {
      assert ([] + [p])[1..] == [];
    } else {
      assert (ps + [p])[1..] == ps[1..] + [p];
      WireAppend(ps[1..], p);
    }
  }

  /** Cutting off a part that lies within `bs` commutes with appending. */
  lemma CutAppend(bs: seq<byte>, image: seq<byte>, n: nat)
    requires n <= |bs|
    ensures (bs + image)[n..] == bs[n..] + image && (bs + image)[..n] == bs[..n]
  {
  }

  lemma SendableAppend(ps: seq<Packet>, p: Packet)
    requires AllSendable(ps) && Sendable(p)
    ensures AllSendable(ps + [p])
  {
  }

  lemma CarriesAppend(r: Reader, bs: seq<byte>, ps: seq<Packet>, p: Packet)
    requires Carries(r, bs, ps) && Sendable(p)
    ensures Carries(r, bs + PacketBytes(p), ps + [p])
  {
    WireAppend(ps, p);
    if ps != [] {
      WireAppend(ps[1..], p);
      assert (ps + [p])[1..] == ps[1..] + [p];
    }
    SendableAppend(ps, p);
    ImageAppend(r, bs, PacketBytes(p), ps, ps + [p]);
  }

  lemma ImageAppend(r: Reader, bs: seq<byte>, image: seq<byte>, ps: seq<Packet>, all: seq<Packet>)
    requires Carries(r, bs, ps) && AllSendable(all) && WireBytes(all) == WireBytes(ps) + image
    requires ps != [] ==> all != [] && all[0] == ps[0] && WireBytes(all[1..]) == WireBytes(ps[1..]) + image
    ensures Carries(r, bs + image, all)
  {
    if r.unread == 0 {
      Assoc(r.header, bs, image);
    } else {
      CutAppend(bs, image, r.unread);
      assert |bs + image| >= r.unread;
    }
  }

  /** The reader needs more bytes: nothing is taken off. */
  lemma TurnNeedMore(r: Reader, chunk: seq<byte>, rest: seq<byte>, ps: seq<Packet>)
    requires ValidReader(r) && r.Reader? && chunk != [] && r.unread == 0 && |r.header + chunk| < HEADER_LENGTH
    requires Carries(r, chunk + rest, ps)
    ensures var t := ReadTurn(r, chunk); t.event.NeedMore? && Carries(t.reader, t.rest + rest, ps)
  {
    assert r.header + (chunk + rest) == r.header + chunk + rest;
    assert [] + rest == rest;
  }

  lemma HeaderOfSendable(p: Packet)
    requires Sendable(p)
    ensures Announced(HeaderOf(p)) == HeaderOf(p)
    ensures AfterHeader(HeaderOf(p)) == if p.PData? then Reader([], |p.data|, p.sid, false, false) else Fresh
  {
  }

  /** A packet's image is its header, which parses, and its payload. */
  lemma ImageSplits(p: Packet) returns (header: seq<byte>)
    ensures |header| == HEADER_LENGTH && PacketBytes(p) == header + Payload(p) &&
            ParseFrame(header) == Some(HeaderOf(p))
  {
    var h := HeaderOf(p);
    header := FrameBytes(h.version, h.ty, FlagOf(p), h.streamId, h.length);
    FrameRoundTrip(h.version, h.ty, FlagOf(p), h.streamId, h.length, []);
    assert header + [] == header;
  }

  lemma SplitFirst(all: seq<byte>, image: seq<byte>, header: seq<byte>, payload: seq<byte>, tail: seq<byte>)
    requires all == image + tail && image == header + payload && |header| == HEADER_LENGTH
    ensures all[..HEADER_LENGTH] == header && all[HEADER_LENGTH..] == payload + tail
  {
    assert all == header + (payload + tail);
  }

  /** The first packet's header is what the reader parses. */
  lemma FirstHeader(ps: seq<Packet>)
    requires ps != []
    ensures |WireBytes(ps)| >= HEADER_LENGTH
    ensures ParseFrame(WireBytes(ps)[..HEADER_LENGTH]) == Some(HeaderOf(ps[0]))
    ensures WireBytes(ps)[HEADER_LENGTH..] == Payload(ps[0]) + WireBytes(ps[1..])
  {
    var header := ImageSplits(ps[0]);
    SplitFirst(WireBytes(ps), PacketBytes(ps[0]), header, Payload(ps[0]), WireBytes(ps[1..]));
  }

  /** A turn on a complete header, in terms of all the bytes the reader has and will get. */
  lemma HeaderTurn(r: Reader, chunk: seq<byte>, rest: seq<byte>, all: seq<byte>)
    requires ValidReader(r) && r.Reader? && chunk != [] && r.unread == 0 && |r.header + chunk| >= HEADER_LENGTH
    requires all == r.header + (chunk + rest)
    ensures var t := ReadTurn(r, chunk);
            && |all| >= HEADER_LENGTH && t.rest + rest == all[HEADER_LENGTH..]
            && (t.reader, t.event) == HeaderOutcome(all[..HEADER_LENGTH])
  {
    assert all == r.header + chunk + rest;
    assert all[..HEADER_LENGTH] == (r.header + chunk)[..HEADER_LENGTH];
  }

  /** A complete header: a data packet stays due, any other packet is taken off. */
  lemma TurnHeader(r: Reader, chunk: seq<byte>, rest: seq<byte>, ps: seq<Packet>)
    requires ValidReader(r) && r.Reader? && chunk != [] && r.unread == 0 && |r.header + chunk| >= HEADER_LENGTH
    requires Carries(r, chunk + rest, ps)
    ensures ps != [] && Sendable(ps[0])
    ensures var t := ReadTurn(r, chunk);
            t.event == Header(HeaderOf(ps[0])) && Carries(t.reader, t.rest + rest, if ps[0].PData? then ps else ps[1..])
  {
    HeaderTurn(r, chunk, rest, WireBytes(ps));
    assert ps != [];
    FirstHeader(ps);
    HeaderOfSendable(ps[0]);
    AfterFirstHeader(ps);
  }

  lemma AfterFirstHeader(ps: seq<Packet>)
    requires ps != [] && AllSendable(ps)
    ensures Carries(AfterHeader(HeaderOf(ps[0])), Payload(ps[0]) + WireBytes(ps[1..]),
            if ps[0].PData? then ps else ps[1..])
  {
    hide WireBytes, PacketBytes;
    HeaderOfSendable(ps[0]);
    var bs := Payload(ps[0]) + WireBytes(ps[1..]);
    if ps[0].PData? {
      assert bs[..|ps[0].data|] == ps[0].data && bs[|ps[0].data|..] == WireBytes(ps[1..]);
    } else {
      assert [] + bs == bs && bs == WireBytes(ps[1..]);
    }
  }

  /** The packets left when `n` bytes of the data packet at the head are taken. */
  function Shortened(ps: seq<Packet>, n: nat): seq<Packet>
    requires ps != [] && ps[0].PData? && n <= |ps[0].data|
  {
    (if n < |ps[0].data| then [PData(ps[0].sid, ps[0].data[n..])] else []) + ps[1..]
  }

  /** A data segment: the data packet at the head is shortened, or taken off with its last byte. */
  lemma TurnSegment(r: Reader, chunk: seq<byte>, rest: seq<byte>, ps: seq<Packet>)
    requires ValidReader(r) && r.Reader? && chunk != [] && r.unread > 0 && r.sid != 0
    requires Carries(r, chunk + rest, ps)
    ensures ps != [] && ps[0].PData? && ps[0].sid == r.sid && |ps[0].data| == r.unread
    ensures var t := ReadTurn(r, chunk);
            var n := Min(r.unread, |chunk|);
            && t.event == Segment(ps[0].data[..n], r.sid, false, false)
            && Carries(t.reader, t.rest + rest, Shortened(ps, n))
            && Carries(Discard(t.reader), t.rest + rest, ps[1..])
  {
    hide WireBytes, PacketBytes;
    var bs, n, t := chunk + rest, Min(r.unread, |chunk|), ReadTurn(r, chunk);
    assert t.rest + rest == bs[n..];
    assert bs[..r.unread][..n] == chunk[..n];
    if n < r.unread {
      assert bs[n..][..r.unread - n] == bs[..r.unread][n..];
      assert bs[n..][r.unread - n..] == bs[r.unread..];
      var s := Shortened(ps, n);
      assert s[1..] == ps[1..];
    } else {
      assert [] + bs[n..] == bs[n..];
      assert [] + ps[1..] == ps[1..];
    }
  }

  /** Bytes of a discarded message: they were no longer due. */
  lemma TurnDiscarded(r: Reader, chunk: seq<byte>, rest: seq<byte>, ps: seq<Packet>)
    requires ValidReader(r) && r.Reader? && chunk != [] && r.unread > 0 && r.sid == 0
    requires Carries(r, chunk + rest, ps)
    ensures var t := ReadTurn(r, chunk); t.event.Discarded? && Carries(t.reader, t.rest + rest, ps)
  {
    hide WireBytes, PacketBytes;
    var bs, n, t := chunk + rest, Min(r.unread, |chunk|), ReadTurn(r, chunk);
    assert t.rest + rest == bs[n..];
    if n < r.unread {
      assert bs[n..][r.unread - n..] == bs[r.unread..];
    } else {
      assert [] + bs[n..] == bs[n..];
    }
  }

  // ---------------------------------------------------------------------------------------------
  // The bytes on a link say which packets are on their way.

  lemma HeaderDetermines(p: Packet, q: Packet)
    requires Sendable(p) && Sendable(q) && HeaderOf(p) == HeaderOf(q)
    requires p.PData? && q.PData? && |p.data| == |q.data| ==> p.data == q.data
    ensures p == q
  {
    OnlyCode(FlagOf(p), FlagOf(q));
  }

  lemma OnlyCode(f: Flag, g: Flag)
    ensures FlagCode(f) == FlagCode(g) <==> f == g
  {
  }

  lemma FirstDetermined(ps: seq<Packet>, qs: seq<Packet>)
    requires ps != [] && qs != [] && AllSendable(ps) && AllSendable(qs) && WireBytes(ps) == WireBytes(qs)
    ensures ps[0] == qs[0] && WireBytes(ps[1..]) == WireBytes(qs[1..])
  {
    FirstHeader(ps);
    FirstHeader(qs);
    var p, q, tail := ps[0], qs[0], WireBytes(ps)[HEADER_LENGTH..];
    if p.PData? && q.PData? && |p.data| == |q.data| {
      assert p.data == tail[..|p.data|] == q.data;
    }
    HeaderDetermines(p, q);
    assert WireBytes(ps[1..]) == tail[|Payload(p)|..] == WireBytes(qs[1..]);
  }

  lemma {:induction false} WireDetermines(ps: seq<Packet>, qs: seq<Packet>)
    requires AllSendable(ps) && AllSendable(qs) && WireBytes(ps) == WireBytes(qs)
    ensures ps == qs
  {
    if ps != [] && qs != [] {
      FirstDetermined(ps, qs);
      WireDetermines(ps[1..], qs[1..]);
      assert ps == [ps[0]] + ps[1..] && qs == [qs[0]] + qs[1..];
    }
  }

  /** At most one sequence of packets is carried. */
  lemma CarriesOne(r: Reader, bs: seq<byte>, ps: seq<Packet>, qs: seq<Packet>)
    requires Carries(r, bs, ps) && Carries(r, bs, qs)
    ensures ps == qs
  {
    if r.unread > 0 && r.sid != 0 {
      WireDetermines(ps[1..], qs[1..]);
      assert ps == [ps[0]] + ps[1..] && qs == [qs[0]] + qs[1..];
    } else {
      WireDetermines(ps, qs);
    }
  }
}
