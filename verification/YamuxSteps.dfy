/** Steps of one connection of the two: calls of its application, its timers, and the completion of its writes. */
module YamuxSteps {
  import opened Basics
  import opened YamuxFrame
  import opened WriteQueues
  import opened YamuxStreamSpec
  import opened YamuxStreamRuns
  import opened YamuxPair
  import opened YamuxWire
  import opened YamuxConnections
  import opened YamuxWriter
  import opened YamuxEvents
  import opened YamuxSystem

  /** Flow control keeps every length field within 32 bits. */
  lemma EventFits(p: Pair, c: Setting, e: Effect, got: seq<byte>, credit: nat)
    requires PairInv(p, c) && p.x.Live? && Kept(p.x.s, e, got, credit) && NonEmptyData(e.acts)
    requires credit <= CreditIn(p.oy) && |got| <= |BytesIn(p.oy)|
    requires INITIAL_WINDOW <= c.maxX < 0x1_0000_0000 && INITIAL_WINDOW <= c.maxY < 0x1_0000_0000
    ensures AllFit(e.acts)
  {
    var s := p.x.s;
    assert WindowLeft(p.x) + CreditIn(p.oy) <= c.maxY;
    assert |DataOf(e.acts)| <= s.window + credit;
    assert |s.buffered| + |got| <= s.peersWindow;
    assert CreditOf(e.acts) <= c.maxX;
    FitsFromTotals(e.acts);
  }

  predicate AppCall(ev: Event) { ev.WriteSome? || ev.ReadSome? || ev.CloseIt? || ev.ResetIt? || ev.Adjust? }

  /** What the invariant says about a stream in the table. */
  lemma LiveStream(x: Conn, y: Conn, dxy: seq<Packet>, dyx: seq<Packet>, id: u32)
    requires Inv(x, y, dxy, dyx) && id in x.streams
    ensures id != 0 && PairInv(View(x, y, dxy, dyx, id), SettingOf(x, y, id))
    ensures ValidStream(x.streams[id]) && x.streams[id].closeReason.None?
    ensures ValidQueue(x.streams[id].queue) && Outstanding(x.streams[id].queue, SizesFor(id, Unacked(x)))
  {
    assert PairInv(View(x, y, dxy, dyx, id), SettingOf(x, y, id));
    assert AckOf(x, id);
  }

  /** A call of the application on a stream in the table. */
  lemma AppStep(x: Conn, y: Conn, dxy: seq<Packet>, dyx: seq<Packet>, id: u32, ev: Event, s: Stream)
    returns (dxy': seq<Packet>)
    requires Inv(x, y, dxy, dyx) && id in x.streams && s == x.streams[id] && AppCall(ev) && Allowed(s, ev) &&
             ValidStream(s)
    ensures Inv(Apply(x, id, Step(s, ev)), y, dxy', dyx) && EndOf(Apply(x, id, Step(s, ev)), id) == After(Step(s, ev))
  {
    LiveStream(x, y, dxy, dyx, id);
    AppClean(s, ev, SizesFor(id, Unacked(x)));
    StepKept(s, ev);
    OwnEventKeeps(View(x, y, dxy, dyx, id), SettingOf(x, y, id), ev);
    dxy' := EventStep(x, y, dxy, dyx, id, Step(s, ev));
  }

  lemma EventStep(x: Conn, y: Conn, dxy: seq<Packet>, dyx: seq<Packet>, id: u32, e: Effect) returns (dxy': seq<Packet>)
    requires Inv(x, y, dxy, dyx) && id in x.streams && Clean(e) && Kept(x.streams[id], e, [], 0)
    requires Tracks(x.streams[id], e, SizesFor(id, Unacked(x)))
    requires var p := View(x, y, dxy, dyx, id);
             PairInv(p.(x := After(e), ox := p.ox + MsgsOf(e.acts)), SettingOf(x, y, id))
    ensures Inv(Apply(x, id, e), y, dxy', dyx) && EndOf(Apply(x, id, e), id) == After(e)
  {
    LiveStream(x, y, dxy, dyx, id);
    EventFits(View(x, y, dxy, dyx, id), SettingOf(x, y, id), e, [], 0);
    dxy' := ApplyMoves(x, y, id, e, dxy);
    InvAgain(x, Apply(x, id, e), y, dxy, dxy', dyx, dyx, id, After(e), MsgsOf(e.acts));
  }

  /** `t` is `x` with a packet `p` sent that carries no data. */
  ghost predicate SentPlain(x: Conn, t: Conn, y: Conn, p: Packet, dxy: seq<Packet>, dxy': seq<Packet>) {
    && SentMsg(x, t, y, p, dxy, dxy')
    && t == x.(queue := t.queue, writing := t.writing, out := t.out, dropped := t.dropped)
  }

  ghost predicate SentMsg(x: Conn, t: Conn, y: Conn, p: Packet, dxy: seq<Packet>, dxy': seq<Packet>) {
    && WriterInv(t) && Carries(y.reader, y.chunk + t.out, dxy')
    && (forall id: u32 :: MsgsFor(id, Flight(t, dxy')) == MsgsFor(id, Flight(x, dxy)) + MsgFor(id, p))
    && (forall id: u32 :: SizesFor(id, Unacked(t)) == SizesFor(id, Unacked(x)))
  }

  lemma SendPlain(x: Conn, y: Conn, p: Packet, dxy: seq<Packet>) returns (dxy': seq<Packet>)
    requires WriterInv(x) && Carries(y.reader, y.chunk + x.out, dxy) && Sendable(p) && !p.PData?
    ensures SentPlain(x, SendPacket(x, p), y, p, dxy, dxy')
  {
    dxy' := EnqueueSends(x, p, y.reader, y.chunk, dxy);
    PlainFacts(x, SendPacket(x, p), y, p, dxy, dxy');
  }

  lemma PlainFacts(x: Conn, t: Conn, y: Conn, p: Packet, dxy: seq<Packet>, dxy': seq<Packet>)
    requires Sent(x, t, y.reader, y.chunk, dxy, dxy', [p]) && !p.PData?
    requires t == x.(queue := t.queue, writing := t.writing, out := t.out, dropped := t.dropped)
    ensures SentPlain(x, t, y, p, dxy, dxy')
  {
    forall id: u32
      ensures MsgsFor(id, Flight(t, dxy')) == MsgsFor(id, Flight(x, dxy)) + MsgFor(id, p)
      ensures SizesFor(id, Unacked(t)) == SizesFor(id, Unacked(x))
    {
      FlightGrows(x, t, dxy, dxy', [p], id);
      MsgsForOne(id, p);
      SizesForAppend(id, Unacked(x), [p]);
      assert [p][1..] == [];
    }
  }

  lemma OtherMoved(x: Conn, t: Conn, y: Conn, p: Packet, dxy: seq<Packet>, dxy': seq<Packet>)
    requires ConnInv(x) && SentPlain(x, t, y, p, dxy, dxy') && (p.PPing? || p.PPong? || p.PGoAway?)
    ensures Moved(x, t, y, dxy, dxy', 0, EndOf(x, 0), [])
  {
    SameAcks(x, t);
    SameTable(x, t);
  }

  lemma SameTable(x: Conn, t: Conn)
    requires TableInv(x) && t.streams == x.streams && t.past == x.past && t.opening == x.opening
    requires t.newId == x.newId && t.started == x.started
    ensures TableInv(t) && forall id: u32 :: EndOf(t, id) == EndOf(x, id)
  {
  }

  /** A packet that belongs to no stream. */
  lemma SendOther(x: Conn, y: Conn, p: Packet, dxy: seq<Packet>, dyx: seq<Packet>) returns (dxy': seq<Packet>)
    requires Inv(x, y, dxy, dyx) && (p.PPing? || p.PPong? || p.PGoAway?)
    ensures Inv(SendPacket(x, p), y, dxy', dyx)
  {
    dxy' := SendPlain(x, y, p, dxy);
    OtherMoved(x, SendPacket(x, p), y, p, dxy, dxy');
    InvAgain(x, SendPacket(x, p), y, dxy, dxy', dyx, dyx, 0, EndOf(x, 0), []);
  }

  lemma EraseTable(x: Conn, t: Conn, id: u32)
    requires TableInv(x) && t.streams == x.streams && t.past == x.past && t.opening == x.opening
    requires t.newId == x.newId && t.started == x.started
    ensures TableInv(Erase(t, id))
    ensures forall other: u32 ::
              EndOf(Erase(t, id), other) == if other == id && id in x.streams then Gone(RecordOf(x.streams[id]))
                else EndOf(x, other)
  {
  }

  lemma EraseAcks(x: Conn, t: Conn, id: u32)
    requires AckInv(x) && t.streams == x.streams && t.past == x.past
    requires forall i: u32 :: SizesFor(i, Unacked(t)) == SizesFor(i, Unacked(x))
    ensures AckInv(Erase(t, id))
  {
    var u := Erase(t, id);
    forall i: u32
      ensures AckOf(u, i)
    {
      assert AckOf(x, i) && Unacked(u) == Unacked(t);
    }
  }

  lemma RstMoved(x: Conn, t: Conn, y: Conn, id: u32, dxy: seq<Packet>, dxy': seq<Packet>)
    requires ConnInv(x) && SentPlain(x, t, y, PRst(id), dxy, dxy') && (id in x.streams || id in x.past)
    ensures Moved(x, Erase(t, id), y, dxy, dxy', id,
            if id in x.streams then Gone(RecordOf(x.streams[id])) else EndOf(x, id), [Rst])
  {
    var u := Erase(t, id);
    assert Flight(u, dxy') == Flight(t, dxy');
    EraseTable(x, t, id);
    EraseAcks(x, t, id);
  }

  /** RST for a stream of the table that nobody holds, or from a stream object that already left the table. */
  lemma RstStep(x: Conn, y: Conn, dxy: seq<Packet>, dyx: seq<Packet>, id: u32) returns (dxy': seq<Packet>)
    requires Inv(x, y, dxy, dyx) && (id in x.streams || id in x.past)
    ensures Inv(Erase(SendPacket(x, PRst(id)), id), y, dxy', dyx)
  {
    dxy' := SendPlain(x, y, PRst(id), dxy);
    RstMoved(x, SendPacket(x, PRst(id)), y, id, dxy, dxy');
    var e := if id in x.streams then Gone(RecordOf(x.streams[id])) else EndOf(x, id);
    RstPair(x, y, dxy, dyx, id);
    InvAgain(x, Erase(SendPacket(x, PRst(id)), id), y, dxy, dxy', dyx, dyx, id, e, [Rst]);
  }

  lemma RstPair(x: Conn, y: Conn, dxy: seq<Packet>, dyx: seq<Packet>, id: u32)
    requires Inv(x, y, dxy, dyx) && (id in x.streams || id in x.past)
    ensures id != 0
    ensures var p := View(x, y, dxy, dyx, id);
            var e := if id in x.streams then Gone(RecordOf(x.streams[id])) else EndOf(x, id);
            PairInv(Pair(e, p.y, p.ox + [Rst], p.oy), SettingOf(x, y, id))
  {
    var p, c := View(x, y, dxy, dyx, id), SettingOf(x, y, id);
    assert PairInv(p, c);
    if id in x.streams { LeaveKeeps(p, c, [Rst]); } else { StaleRstKeeps(p, c); }
  }

  function NewEnd(x: Conn, wait: bool): End {
    if wait then Opening else Live(NewStream(x.cfg.maxWindow, QUEUE_LIMIT))
  }

  lemma NewAcks(x: Conn, t: Conn, id: u32, wait: bool)
    requires AckInv(x) && t.streams == x.streams && t.past == x.past && id !in x.streams && id !in x.past
    requires forall i: u32 :: SizesFor(i, Unacked(t)) == SizesFor(i, Unacked(x))
    ensures AckInv(WithNew(t, id, wait))
  {
    var u := WithNew(t, id, wait);
    forall i: u32
      ensures AckOf(u, i)
    {
      assert AckOf(x, i) && Unacked(u) == Unacked(t);
    }
  }

  lemma NewTable(x: Conn, t: Conn, wait: bool)
    requires TableInv(x) && x.started && x.newId + 2 < 0x1_0000_0000
    requires t.streams == x.streams && t.past == x.past && t.opening == x.opening
    requires t.newId == x.newId + 2 && t.started && t.cfg == x.cfg
    ensures x.newId !in x.streams && x.newId !in x.opening && x.newId !in x.past && t.newId % 2 == x.newId % 2
    ensures TableInv(WithNew(t, x.newId, wait))
    ensures forall other: u32 :: EndOf(WithNew(t, x.newId, wait), other) == if other == x.newId then NewEnd(x, wait)
            else EndOf(x, other)
  {
    assert forall id: u32 :: IsOutbound(t.newId, id) == IsOutbound(x.newId, id);
  }

  lemma OpenMoved(x: Conn, t: Conn, u: Conn, y: Conn, dxy: seq<Packet>, dxy': seq<Packet>, id: u32, e: End)
    requires SentMsg(x, t, y, PSyn(id), dxy, dxy') && u == t.(streams := u.streams, opening := u.opening)
    requires TableInv(u) && AckInv(u) && u.newId % 2 == x.newId % 2 && u.cfg == x.cfg
    requires forall other: u32 :: EndOf(u, other) == if other == id then e else EndOf(x, other)
    ensures Moved(x, u, y, dxy, dxy', id, e, [Syn])
  {
    assert Flight(u, dxy') == Flight(t, dxy');
  }

  lemma SameButId(x: Conn, t: Conn, y: Conn, dxy: seq<Packet>, dxy': seq<Packet>, p: Packet, n: u32)
    requires SentMsg(x.(newId := n), t, y, p, dxy, dxy')
    ensures SentMsg(x, t, y, p, dxy, dxy')
  {
    assert Unacked(x.(newId := n)) == Unacked(x) && Flight(x.(newId := n), dxy) == Flight(x, dxy);
  }

  /** `u` is `t` with the new stream `id` in its tables, where `x` had none. */
  ghost predicate Opened(x: Conn, t: Conn, u: Conn, id: u32, e: End) {
    && u == t.(streams := u.streams, opening := u.opening)
    && TableInv(u) && AckInv(u) && u.newId % 2 == x.newId % 2 && u.cfg == x.cfg
    && (forall other: u32 :: EndOf(u, other) == if other == id then e else EndOf(x, other))
  }

  lemma OpenedNew(x: Conn, t: Conn, y: Conn, dxy: seq<Packet>, dxy': seq<Packet>, wait: bool)
    requires ConnInv(x) && x.started && x.newId + 2 < 0x1_0000_0000
    requires SentMsg(x, t, y, PSyn(x.newId), dxy, dxy')
    requires t == x.(newId := x.newId + 2, queue := t.queue, writing := t.writing, out := t.out, dropped := t.dropped)
    ensures Opened(x, t, WithNew(t, x.newId, wait), x.newId, NewEnd(x, wait))
  {
    NewTable(x, t, wait);
    NewAcks(x, t, x.newId, wait);
  }

  lemma OpenGoes(x: Conn, t: Conn, u: Conn, y: Conn, dxy: seq<Packet>, dxy': seq<Packet>, dyx: seq<Packet>, wait: bool)
    requires Inv(x, y, dxy, dyx) && SentMsg(x, t, y, PSyn(x.newId), dxy, dxy')
    requires Opened(x, t, u, x.newId, NewEnd(x, wait)) && t.reader == x.reader && t.chunk == x.chunk
    ensures Inv(u, y, dxy', dyx)
  {
    OpenMoved(x, t, u, y, dxy, dxy', x.newId, NewEnd(x, wait));
    OpenPair(x, y, dxy, dyx, wait);
    InvAgain(x, u, y, dxy, dxy', dyx, dyx, x.newId, NewEnd(x, wait), [Syn]);
  }

  /** Opening a stream. Ids must not be used up. */
  lemma OpenStep(x: Conn, u: Conn, y: Conn, dxy: seq<Packet>, dyx: seq<Packet>, wait: bool) returns (dxy': seq<Packet>)
    requires Inv(x, y, dxy, dyx) && x.newId + 2 < 0x1_0000_0000 && u == Open(x, wait)
    ensures Inv(u, y, dxy', dyx)
  {
    if !x.started || |x.streams| >= x.cfg.maxStreams {
      dxy' := dxy;
    } else {
      dxy' := OpenAllowed(x, y, dxy, dyx, wait);
    }
  }

  lemma OpenAllowed(x: Conn, y: Conn, dxy: seq<Packet>, dyx: seq<Packet>, wait: bool) returns (dxy': seq<Packet>)
    requires Inv(x, y, dxy, dyx) && x.newId + 2 < 0x1_0000_0000 && x.started
    ensures Inv(WithNew(SendPacket(x.(newId := ToU32(x.newId + 2)), PSyn(x.newId)), x.newId, wait), y, dxy', dyx)
  {
    var t;
    dxy', t := OpenSends(x, y, dxy);
    OpenAll(x, t, WithNew(t, x.newId, wait), y, dxy, dxy', dyx, wait);
  }

  lemma OpenAll(x: Conn, t: Conn, u: Conn, y: Conn, dxy: seq<Packet>, dxy': seq<Packet>, dyx: seq<Packet>, wait: bool)
    requires Inv(x, y, dxy, dyx) && x.started && x.newId + 2 < 0x1_0000_0000
    requires SentMsg(x, t, y, PSyn(x.newId), dxy, dxy')
    requires t == x.(newId := x.newId + 2, queue := t.queue, writing := t.writing, out := t.out, dropped := t.dropped)
    requires u == WithNew(t, x.newId, wait)
    ensures Inv(u, y, dxy', dyx)
  {
    OpenedNew(x, t, y, dxy, dxy', wait);
    OpenGoes(x, t, u, y, dxy, dxy', dyx, wait);
  }

  lemma OpenSends(x: Conn, y: Conn, dxy: seq<Packet>) returns (dxy': seq<Packet>, t: Conn)
    requires WriterInv(x) && Carries(y.reader, y.chunk + x.out, dxy) && 0 < x.newId < 0xFFFF_FFFE
    ensures t == SendPacket(x.(newId := ToU32(x.newId + 2)), PSyn(x.newId)) &&
            SentMsg(x, t, y, PSyn(x.newId), dxy, dxy')
    ensures t == x.(newId := x.newId + 2, queue := t.queue, writing := t.writing, out := t.out, dropped := t.dropped)
  {
    var n := ToU32(x.newId + 2);
    dxy' := SendPlain(x.(newId := n), y, PSyn(x.newId), dxy);
    t := SendPacket(x.(newId := n), PSyn(x.newId));
    SameButId(x, t, y, dxy, dxy', PSyn(x.newId), n);
  }

  lemma OpenPair(x: Conn, y: Conn, dxy: seq<Packet>, dyx: seq<Packet>, wait: bool)
    requires Inv(x, y, dxy, dyx)
    ensures var p := View(x, y, dxy, dyx, x.newId);
            PairInv(Pair(NewEnd(x, wait), p.y, p.ox + [Syn], p.oy), SettingOf(x, y, x.newId))
  {
    var p, c := View(x, y, dxy, dyx, x.newId), SettingOf(x, y, x.newId);
    assert PairInv(p, c);
    OpenKeeps(p, c, NewEnd(x, wait), QUEUE_LIMIT);
  }

  // ---------------------------------------------------------------------------------------------
  // Closing the connection: every stream leaves the tables at once.

  /** The ends after closing. */
  function LeftEnd(e: End): End {
    match e
    case Live(s) => Gone(RecordOf(s))
    case Opening => Gone(NOTHING)
    case _ => e
  }

  lemma ClosedEnds(x: Conn, t: Conn, id: u32)
    requires t.streams == map[] && t.opening == {} && t.past == Records(x) && TableInv(x)
    ensures EndOf(t, id) == LeftEnd(EndOf(x, id))
  {
  }

  lemma LeftKeeps(p: Pair, c: Setting)
    requires PairInv(p, c) && c.maxX >= INITIAL_WINDOW
    ensures PairInv(p.(x := LeftEnd(p.x)), c)
  {
    if p.x.Live? || p.x.Opening? {
      LeaveKeeps(p, c, []);
      assert p.ox + [] == p.ox;
    }
  }

  lemma LeftTables(x: Conn, t: Conn)
    requires TableInv(x) && AckInv(x) && t.newId == x.newId && !t.started
    requires t.streams == map[] && t.opening == {} && t.past == Records(x)
    requires forall id: u32 :: SizesFor(id, Unacked(x)) == [] ==> SizesFor(id, Unacked(t)) == []
    ensures TableInv(t) && AckInv(t)
  {
    forall id: u32
      ensures AckOf(t, id)
    {
      assert AckOf(x, id);
    }
  }

  /** All tables emptied, the same messages under way. */
  lemma AllLeft(x: Conn, t: Conn, y: Conn, dxy: seq<Packet>, dxy': seq<Packet>, dyx: seq<Packet>)
    requires Inv(x, y, dxy, dyx) && t.cfg == x.cfg && t.newId == x.newId && t.reader == x.reader && t.chunk == x.chunk
    requires t.streams == map[] && t.opening == {} && t.past == Records(x) && !t.started
    requires WriterInv(t) && Carries(y.reader, y.chunk + t.out, dxy')
    requires forall id: u32 :: MsgsFor(id, Flight(t, dxy')) == MsgsFor(id, Flight(x, dxy))
    requires forall id: u32 :: SizesFor(id, Unacked(x)) == [] ==> SizesFor(id, Unacked(t)) == []
    ensures Inv(t, y, dxy', dyx)
  {
    LeftTables(x, t);
    forall id: u32 | id != 0
      ensures PairInv(View(t, y, dxy', dyx, id), SettingOf(t, y, id))
    {
      ClosedEnds(x, t, id);
      LeftKeeps(View(x, y, dxy, dyx, id), SettingOf(x, y, id));
      assert View(t, y, dxy', dyx, id) == View(x, y, dxy, dyx, id).(x := LeftEnd(EndOf(x, id)));
    }
  }

  lemma CloseStep(x: Conn, y: Conn, dxy: seq<Packet>, dyx: seq<Packet>, reply: Option<u32>) returns (dxy': seq<Packet>)
    requires Inv(x, y, dxy, dyx)
    ensures Inv(CloseConn(x, reply), y, dxy', dyx)
  {
    if !x.started {
      dxy' := dxy;
    } else {
      var x1 := x.(started := false, streams := map[], opening := {}, past := Records(x), closeAfterWrite := true);
      assert Flight(x1, dxy) == Flight(x, dxy) && Unacked(x1) == Unacked(x);
      if reply.Some? {
        AllLeft(x, x1, y, dxy, dxy, dyx);
        dxy' := SendOther(x1, y, PGoAway(reply.value), dxy, dyx);
      } else {
        dxy' := dxy;
        var t := CloseConn(x, reply);
        DropQueue(x1, t, dxy);
        AllLeft(x, t, y, dxy, dxy, dyx);
      }
    }
  }

  /** Throwing the queue away moves it to `dropped`. */
  lemma DropQueue(x: Conn, t: Conn, dxy: seq<Packet>)
    requires t.queue == [] && t.dropped == x.dropped + x.queue && (t.writing == x.writing || t.writing.Stuck?)
    ensures Flight(t, dxy) == Flight(x, dxy)
    ensures forall id: u32 :: SizesFor(id, Unacked(x)) == [] ==> SizesFor(id, Unacked(t)) == []
  {
    forall id: u32 | SizesFor(id, Unacked(x)) == []
      ensures SizesFor(id, Unacked(t)) == []
    {
      var busy := if x.writing.Busy? then [x.writing.packet] else [];
      SizesForAppend(id, busy, x.queue);
      assert Unacked(t) == busy || Unacked(t) == [];
    }
  }

  /** A failed write: the queue is lost, the link and the connection are closed. */
  lemma WriteFailedStep(x: Conn, y: Conn, dxy: seq<Packet>, dyx: seq<Packet>)
    requires Inv(x, y, dxy, dyx) && x.writing.Busy?
    ensures Inv(WriteFailed(x), y, dxy, dyx)
  {
    var x1 := x.(writing := Stuck, queue := [], dropped := x.dropped + x.queue, linkClosed := true);
    var t := WriteFailed(x);
    DropQueue(x, x1, dxy);
    if x.started {
      assert Flight(t, dxy) == Flight(x1, dxy) by { assert x1.dropped + [] == x1.dropped; }
      assert Unacked(t) == [];
      AllLeft(x, t, y, dxy, dxy, dyx);
    } else {
      assert t == x1;
      assert Records(x) == x.past;
      AllLeft(x, t, y, dxy, dxy, dyx);
    }
  }
}
