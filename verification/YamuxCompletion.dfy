/** Completed writes and reads of one connection of the two. */
module YamuxCompletion {
  import opened Basics
  import opened YamuxFrame
  import opened WriteQueues
  import opened YamuxStreamSpec
  import opened YamuxStreamRuns
  import opened YamuxPair
  import opened YamuxWire
  import opened YamuxConnections
  import opened YamuxWriter
  import opened YamuxSystem
  import opened YamuxSteps

  /** `t` is `x` with its oldest unacknowledged packet gone and the same messages under way. */
  ghost predicate Advanced(x: Conn, t: Conn, y: Conn, dxy: seq<Packet>, dxy': seq<Packet>) {
    && WriterInv(t) && Carries(y.reader, y.chunk + t.out, dxy')
    && Flight(t, dxy') == Flight(x, dxy) && Unacked(t) == x.queue
    && t == x.(queue := t.queue, writing := t.writing, out := t.out, dropped := t.dropped, linkClosed := t.linkClosed)
  }

  lemma AdvanceQueue(x: Conn, y: Conn, dxy: seq<Packet>)
    requires WriterInv(x) && Carries(y.reader, y.chunk + x.out, dxy) && x.writing.Busy? && x.queue != []
    ensures Advanced(x, Advance(x), y, dxy, if x.linkClosed then dxy else dxy + [x.queue[0]])
  {
    var p, t := x.queue[0], Advance(x);
    assert x.queue == [p] + x.queue[1..];
    if x.linkClosed {
      assert dxy + (x.dropped + [p]) + x.queue[1..] == dxy + x.dropped + ([p] + x.queue[1..]);
    } else {
      CarriesAppend(y.reader, y.chunk + x.out, dxy, p);
      Assoc(y.chunk, x.out, PacketBytes(p));
      assert dxy + [p] + [] + x.queue[1..] == dxy + [] + ([p] + x.queue[1..]);
    }
  }

  lemma AdvanceOn(x: Conn, y: Conn, dxy: seq<Packet>) returns (dxy': seq<Packet>)
    requires WriterInv(x) && Carries(y.reader, y.chunk + x.out, dxy) && x.writing.Busy?
    ensures Advanced(x, Advance(x), y, dxy, dxy')
  {
    if x.queue != [] {
      dxy' := if x.linkClosed then dxy else dxy + [x.queue[0]];
      AdvanceQueue(x, y, dxy);
    } else {
      dxy' := dxy;
    }
  }

  /** The sizes still outstanding when the oldest packet is acknowledged. */
  lemma SizesRest(x: Conn, id: u32)
    requires x.writing.Busy?
    ensures var p := x.writing.packet;
            SizesFor(id, Unacked(x)) == if p.PData? && p.sid == id then [|p.data|] + SizesFor(id, x.queue)
              else SizesFor(id, x.queue)
  {
    assert Unacked(x)[1..] == x.queue;
    assert [] + SizesFor(id, x.queue) == SizesFor(id, x.queue);
  }

  /** A packet of a stream that left the table, or one that carries no data. */
  lemma AdvancedAcks(x: Conn, t: Conn)
    requires AckInv(x) && x.writing.Busy? && t.streams == x.streams && t.past == x.past && Unacked(t) == x.queue
    requires x.writing.packet.PData? ==> x.writing.packet.sid !in x.streams
    ensures AckInv(t)
  {
    forall id: u32
      ensures AckOf(t, id)
    {
      assert AckOf(x, id);
      SizesRest(x, id);
    }
  }

  lemma WrittenPlain(x: Conn, y: Conn, dxy: seq<Packet>, dyx: seq<Packet>) returns (dxy': seq<Packet>)
    requires Inv(x, y, dxy, dyx) && x.writing.Busy? && (x.writing.packet.PData? ==> x.writing.packet.sid !in x.streams)
    ensures Inv(WriteDone(x), y, dxy', dyx)
  {
    dxy' := AdvanceOn(x, y, dxy);
    PlainAdvanced(x, Advance(x), y, dxy, dxy', dyx);
  }

  lemma PlainAdvanced(x: Conn, t: Conn, y: Conn, dxy: seq<Packet>, dxy': seq<Packet>, dyx: seq<Packet>)
    requires Inv(x, y, dxy, dyx) && x.writing.Busy? && (x.writing.packet.PData? ==> x.writing.packet.sid !in x.streams)
    requires Advanced(x, t, y, dxy, dxy')
    ensures Inv(t, y, dxy', dyx)
  {
    AdvancedAcks(x, t);
    SameTable(x, t);
    var ms := MsgsFor(0, Flight(x, dxy));
    assert ms + [] == ms;
    InvAgain(x, t, y, dxy, dxy', dyx, dyx, 0, EndOf(x, 0), []);
  }

  /** The acknowledgement of a live stream's packet never finds the stream's books inconsistent. */
  lemma WrittenQuiet(s: Stream, pending: seq<nat>)
    requires ValidStream(s) && s.closeReason.None? && pending != [] && Outstanding(s.queue, pending)
    ensures var e := OnWritten(s, pending[0]);
            Quiet(e.acts) && e.s.closeReason.None? && ValidQueue(e.s.queue) && Outstanding(e.s.queue, pending[1..])
  {
    AckOutstanding(s.queue, pending);
    OnWrittenKept(s, pending[0]);
  }

  lemma UpdatedTable(x: Conn, t: Conn, id: u32, s: Stream)
    requires TableInv(x) && id in x.streams && t.streams == x.streams[id := s] && t.past == x.past &&
             t.opening == x.opening
    requires t.newId == x.newId && t.started == x.started
    ensures TableInv(t) && EndOf(t, id) == Live(s) &&
            forall other: u32 :: other != id ==> EndOf(t, other) == EndOf(x, other)
  {
    assert x.started;
  }

  lemma WrittenAcks(x: Conn, t: Conn, id: u32, s: Stream, rest: seq<nat>)
    requires AckInv(x) && x.writing.Busy? && x.writing.packet.PData? && x.writing.packet.sid == id && id in x.streams
    requires t.streams == x.streams[id := s] && t.past == x.past && Unacked(t) == x.queue
    requires SizesFor(id, x.queue) == rest && ValidQueue(s.queue) && Outstanding(s.queue, rest)
    ensures AckInv(t)
  {
    forall i: u32
      ensures AckOf(t, i)
    {
      assert AckOf(x, i);
      SizesRest(x, i);
    }
  }

  lemma WrittenMoved(x: Conn, t: Conn, y: Conn, dxy: seq<Packet>, dxy': seq<Packet>, id: u32, s: Stream)
    requires ConnInv(x) && x.writing.Busy? && x.writing.packet.PData? && x.writing.packet.sid == id && id in x.streams
    requires Advanced(x.(streams := x.streams[id := s]), t, y, dxy, dxy')
    requires ValidQueue(s.queue) && Outstanding(s.queue, SizesFor(id, x.queue))
    ensures Moved(x, t, y, dxy, dxy', id, Live(s), [])
  {
    UpdatedTable(x, t, id, s);
    WrittenAcks(x, t, id, s, SizesFor(id, x.queue));
    assert Flight(t, dxy') == Flight(x, dxy);
    var ms := MsgsFor(id, Flight(x, dxy));
    assert ms + [] == ms;
  }

  lemma WrittenPair(p: Pair, c: Setting, n: nat)
    requires PairInv(p, c) && p.x.Live? && Quiet(OnWritten(p.x.s, n).acts) && OnWritten(p.x.s, n).s.closeReason.None?
    ensures PairInv(p.(x := Live(OnWritten(p.x.s, n).s)), c)
  {
    var e := Step(p.x.s, Written(n));
    OwnEventKeeps(p, c, Written(n));
    assert p.ox + MsgsOf(e.acts) == p.ox by { QuietMsgs(e.acts); }
  }

  lemma Acknowledged(x: Conn, p: Packet, e: Effect)
    requires p.PData? && p.data != [] && p.sid in x.streams && ValidQueue(x.streams[p.sid].queue)
    requires e == OnWritten(x.streams[p.sid], |p.data|) && Quiet(e.acts)
    ensures Acknowledge(x, p) == x.(streams := x.streams[p.sid := e.s])
  {
    QuietPerform(x.(streams := x.streams[p.sid := e.s]), p.sid, e.acts);
  }

  /** A live stream's data packet is on the link. */
  lemma WrittenData(x: Conn, y: Conn, dxy: seq<Packet>, dyx: seq<Packet>, id: u32) returns (dxy': seq<Packet>)
    requires Inv(x, y, dxy, dyx) && x.writing.Busy? && x.writing.packet.PData? && x.writing.packet.sid == id &&
             id in x.streams
    ensures Inv(WriteDone(x), y, dxy', dyx)
  {
    LiveStream(x, y, dxy, dyx, id);
    var pending := SizesFor(id, Unacked(x));
    assert pending != [] && pending[0] == |x.writing.packet.data| && pending[1..] == SizesFor(id, x.queue) by {
      SizesRest(x, id);
    }
    var e := OnWritten(x.streams[id], pending[0]);
    assert Quiet(e.acts) by { WrittenQuiet(x.streams[id], pending); }
    Acknowledged(x, x.writing.packet, e);
    var x1 := x.(streams := x.streams[id := e.s]);
    dxy' := AdvanceOn(x1, y, dxy);
    WrittenDone(x, Advance(x1), y, dxy, dxy', dyx, id, e.s, pending);
  }

  lemma WrittenDone(x: Conn, t: Conn, y: Conn, dxy: seq<Packet>, dxy': seq<Packet>, dyx: seq<Packet>, id: u32,
                    s: Stream, pending: seq<nat>)
    requires Inv(x, y, dxy, dyx) && x.writing.Busy? && x.writing.packet.PData? && x.writing.packet.sid == id &&
             id in x.streams
    requires Advanced(x.(streams := x.streams[id := s]), t, y, dxy, dxy')
    requires pending != [] && ValidStream(x.streams[id]) && Outstanding(x.streams[id].queue, pending)
    requires s == OnWritten(x.streams[id], pending[0]).s && pending[1..] == SizesFor(id, x.queue)
    ensures Inv(t, y, dxy', dyx)
  {
    LiveStream(x, y, dxy, dyx, id);
    WrittenQuiet(x.streams[id], pending);
    WrittenMoved(x, t, y, dxy, dxy', id, s);
    WrittenPair(View(x, y, dxy, dyx, id), SettingOf(x, y, id), pending[0]);
    var ms := MsgsFor(id, Flight(x, dxy));
    assert ms + [] == ms;
    InvAgain(x, t, y, dxy, dxy', dyx, dyx, id, Live(s), []);
  }

  lemma WriteDoneStep(x: Conn, y: Conn, dxy: seq<Packet>, dyx: seq<Packet>) returns (dxy': seq<Packet>)
    requires Inv(x, y, dxy, dyx) && x.writing.Busy?
    ensures Inv(WriteDone(x), y, dxy', dyx)
  {
    var p := x.writing.packet;
    if p.PData? && p.sid in x.streams {
      dxy' := WrittenData(x, y, dxy, dyx, p.sid);
    } else {
      dxy' := WrittenPlain(x, y, dxy, dyx);
    }
  }

  lemma SameTables(x: Conn, t: Conn)
    requires ConnInv(x) && t == x.(chunk := t.chunk, out := t.out)
    ensures ConnInv(t) && forall id: u32 :: EndOf(t, id) == EndOf(x, id)
  {
    assert Unacked(t) == Unacked(x);
    SameAcks(x, t);
  }

  /** A read takes the first `n` bytes off the link. */
  lemma ReceiveStep(x: Conn, y: Conn, dxy: seq<Packet>, dyx: seq<Packet>, n: nat)
    requires Inv(x, y, dxy, dyx) && x.chunk == [] && n <= |y.out|
    ensures Inv(x.(chunk := y.out[..n]), y.(out := y.out[n..]), dxy, dyx)
  {
    var x1, y1 := x.(chunk := y.out[..n]), y.(out := y.out[n..]);
    assert x1.chunk + y1.out == x.chunk + y.out;
    Received(x, y, x1, y1, dxy, dyx);
  }

  lemma Received(x: Conn, y: Conn, x1: Conn, y1: Conn, dxy: seq<Packet>, dyx: seq<Packet>)
    requires Inv(x, y, dxy, dyx) && x1 == x.(chunk := x1.chunk) && y1 == y.(out := y1.out) &&
             x1.chunk + y1.out == x.chunk + y.out
    ensures Inv(x1, y1, dxy, dyx)
  {
    SameTables(x, x1);
    SameTables(y, y1);
    forall id: u32 | id != 0
      ensures PairInv(View(x1, y1, dxy, dyx, id), SettingOf(x1, y1, id))
    {
      assert View(x1, y1, dxy, dyx, id) == View(x, y, dxy, dyx, id);
      assert SettingOf(x1, y1, id) == SettingOf(x, y, id);
    }
  }
}
