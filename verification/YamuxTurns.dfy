/** Arrivals that are answered, and the whole turn of the reading loop. */
module YamuxTurns {
  import opened Basics
  import opened YamuxFrame
  import YamuxReader
  import opened WriteQueues
  import opened YamuxStreamSpec
  import opened YamuxStreamRuns
  import opened YamuxPair
  import opened YamuxWire
  import opened YamuxConnections
  import opened YamuxWriter
  import opened YamuxEvents
  import opened YamuxSystem
  import opened YamuxSteps
  import opened YamuxArrivals

  // ---------------------------------------------------------------------------------------------
  // Arrivals that make a stream of the table act.

  lemma MovedFrom(x: Conn, x1: Conn, t: Conn, y: Conn, dxy: seq<Packet>, dxy': seq<Packet>, id: u32, e: End,
                  ms: seq<Msg>)
    requires ConnInv(x) && Moved(x1, t, y, dxy, dxy', id, e, ms) && x1 == x.(reader := x1.reader, chunk := x1.chunk)
    ensures Moved(x, t, y, dxy, dxy', id, e, ms)
  {
    SameTurned(x, x1);
    assert Flight(x1, dxy) == Flight(x, dxy);
  }

  lemma EffectArrives(x: Conn, x1: Conn, y: Conn, dxy: seq<Packet>, dyx: seq<Packet>, dyx': seq<Packet>, id: u32,
                      e: Effect)
    returns (dxy': seq<Packet>)
    requires Turned(x, x1, y, dxy, dyx, dyx') && SameForOthers(y, dyx, dyx', id) && id in x.streams
    requires Clean(e) && AllFit(e.acts) && Tracks(x.streams[id], e, SizesFor(id, Unacked(x)))
    requires var p := View(x, y, dxy, dyx, id);
             PairInv(Pair(After(e), p.y, p.ox + MsgsOf(e.acts), MsgsFor(id, Flight(y, dyx'))), SettingOf(x, y, id))
    ensures Inv(Apply(x1, id, e), y, dxy', dyx')
  {
    SameTurned(x, x1);
    assert Unacked(x1) == Unacked(x);
    dxy' := ApplyMoves(x1, y, id, e, dxy);
    MovedFrom(x, x1, Apply(x1, id, e), y, dxy, dxy', id, After(e), MsgsOf(e.acts));
    InvAgain(x, Apply(x1, id, e), y, dxy, dxy', dyx, dyx', id, After(e), MsgsOf(e.acts));
  }

  lemma WinFits(p: Pair, c: Setting, e: Effect)
    requires PairInv(p, c) && p.x.Live? && p.oy != [] && p.oy[0].Win? && e == IncreaseWindow(p.x.s, p.oy[0].delta) &&
             NonEmptyData(e.acts)
    requires INITIAL_WINDOW <= c.maxX < 0x1_0000_0000 && INITIAL_WINDOW <= c.maxY < 0x1_0000_0000
    ensures AllFit(e.acts)
  {
    IncreaseWindowKept(p.x.s, p.oy[0].delta);
    FirstMsg(p.oy);
    EventFits(p, c, e, [], p.oy[0].delta);
  }

  lemma WinArrives(x: Conn, x1: Conn, y: Conn, dxy: seq<Packet>, dyx: seq<Packet>, id: u32, delta: u32)
    returns (dxy': seq<Packet>)
    requires Taken(x, x1, y, dxy, dyx, PWin(id, delta)) && id in x.streams && ValidQueue(x.streams[id].queue)
    ensures Inv(Apply(x1, id, IncreaseWindow(x.streams[id], delta)), y, dxy', dyx[1..])
  {
    TakenMsg(y, dyx, PWin(id, delta), id, Win(delta));
    LiveStream(x, y, dxy, dyx, id);
    var e := IncreaseWindow(x.streams[id], delta);
    WindowClean(x.streams[id], delta, SizesFor(id, Unacked(x)));
    WinFits(View(x, y, dxy, dyx, id), SettingOf(x, y, id), e);
    WinEvent(View(x, y, dxy, dyx, id), SettingOf(x, y, id), e);
    dxy' := EffectArrives(x, x1, y, dxy, dyx, dyx[1..], id, e);
  }

  // ---------------------------------------------------------------------------------------------
  // Data.

  function LeftOver(dyx: seq<Packet>, n: nat): seq<Packet>
    requires dyx != [] && dyx[0].PData? && n <= |dyx[0].data|
  {
    if n < |dyx[0].data| then [PData(dyx[0].sid, dyx[0].data[n..])] else []
  }

  lemma ShortenedFlight(y: Conn, dyx: seq<Packet>, n: nat, id: u32)
    requires dyx != [] && dyx[0].PData? && n <= |dyx[0].data|
    ensures MsgsFor(id, Flight(y, Shortened(dyx, n)))
         == (if LeftOver(dyx, n) == [] then [] else MsgFor(id, LeftOver(dyx, n)[0])) + MsgsFor(id, Flight(y, dyx[1..]))
  {
    var left, rest := LeftOver(dyx, n), dyx[1..];
    assert left + rest + y.dropped + y.queue == left + (rest + y.dropped + y.queue);
    LeftMsgs(left, Flight(y, rest), id);
  }

  /** Taking `n` bytes of the data packet at the head takes them off the stream's first message. */
  lemma ShortenedMsgs(y: Conn, dyx: seq<Packet>, n: nat, id: u32)
    requires dyx != [] && dyx[0].PData? && dyx[0].sid == id && n <= |dyx[0].data|
    ensures var ms := MsgsFor(id, Flight(y, dyx));
            ms != [] && ms[0] == Data(dyx[0].data) && MsgsFor(id, Flight(y, Shortened(dyx, n))) == TakeData(ms, n)
  {
    HeadMsgs(y, dyx, id);
    ShortenedFlight(y, dyx, n, id);
  }

  lemma LeftMsgs(left: seq<Packet>, rest: seq<Packet>, id: u32)
    requires |left| <= 1
    ensures MsgsFor(id, left + rest) == (if left == [] then [] else MsgFor(id, left[0])) + MsgsFor(id, rest)
  {
    MsgsForAppend(id, left, rest);
    if left != [] {
      assert left == [left[0]];
      MsgsForOne(id, left[0]);
    }
  }

  lemma ShortenedOther(y: Conn, dyx: seq<Packet>, n: nat, id: u32, other: u32)
    requires dyx != [] && dyx[0].PData? && dyx[0].sid == id && n <= |dyx[0].data| && other != id
    ensures MsgsFor(other, Flight(y, Shortened(dyx, n))) == MsgsFor(other, Flight(y, dyx))
  {
    ShortenedFlight(y, dyx, n, other);
    HeadMsgs(y, dyx, other);
    assert MsgFor(other, dyx[0]) == [];
  }

  lemma ShortenedOthers(y: Conn, dyx: seq<Packet>, n: nat, id: u32)
    requires dyx != [] && dyx[0].PData? && dyx[0].sid == id && n <= |dyx[0].data|
    ensures SameForOthers(y, dyx, Shortened(dyx, n), id)
  {
    forall other: u32 | other != id
      ensures MsgsFor(other, Flight(y, Shortened(dyx, n))) == MsgsFor(other, Flight(y, dyx))
    {
      ShortenedOther(y, dyx, n, id, other);
    }
  }

  /** A data segment is taken by its stream: never an overflow, never a reset. */
  lemma DataPair(p: Pair, c: Setting, n: nat, pending: seq<nat>, e: Effect, v: Verdict)
    requires PairInv(p, c) && p.oy != [] && p.oy[0].Data? && p.x.Live? && n <= |p.oy[0].bytes|
    requires (e, v) == OnData(p.x.s, p.oy[0].bytes[..n]) && Outstanding(p.x.s.queue, pending)
    requires INITIAL_WINDOW <= c.maxX < 0x1_0000_0000 && INITIAL_WINDOW <= c.maxY < 0x1_0000_0000
    ensures v.KeepStream? && Clean(e) && AllFit(e.acts) && Tracks(p.x.s, e, pending)
    ensures PairInv(Pair(After(e), p.y, p.ox + MsgsOf(e.acts), TakeData(p.oy, n)), c)
  {
    DataFits(p, c, n);
    DataKeeps(p, c, n);
    DataClean(p.x.s, p.oy[0].bytes[..n], pending);
    assert AllFit(e.acts) by {
      OnDataKept(p.x.s, p.oy[0].bytes[..n]);
      FirstMsg(p.oy);
      EventFits(p, c, e, p.oy[0].bytes[..n], 0);
    }
  }

  lemma DataArrives(x: Conn, x1: Conn, y: Conn, dxy: seq<Packet>, dyx: seq<Packet>, id: u32, n: nat)
    returns (dxy': seq<Packet>)
    requires dyx != [] && dyx[0].PData? && dyx[0].sid == id && n <= |dyx[0].data|
    requires Turned(x, x1, y, dxy, dyx, Shortened(dyx, n)) && id in x.streams
    ensures var (e, v) := OnData(x.streams[id], dyx[0].data[..n]);
            v.KeepStream? && Inv(Apply(x1, id, e), y, dxy', Shortened(dyx, n))
  {
    ShortenedMsgs(y, dyx, n, id);
    ShortenedOthers(y, dyx, n, id);
    LiveStream(x, y, dxy, dyx, id);
    var (e, v) := OnData(x.streams[id], dyx[0].data[..n]);
    DataPair(View(x, y, dxy, dyx, id), SettingOf(x, y, id), n, SizesFor(id, Unacked(x)), e, v);
    dxy' := EffectArrives(x, x1, y, dxy, dyx, Shortened(dyx, n), id, e);
  }

  /** Data for a stream that left the table: the rest of the packet is thrown away as well. */
  lemma DataDropped(x: Conn, x1: Conn, y: Conn, dxy: seq<Packet>, dyx: seq<Packet>, id: u32)
    requires dyx != [] && Taken(x, x1, y, dxy, dyx, dyx[0]) && dyx[0].PData? && dyx[0].sid == id && id !in x.streams
    ensures Inv(x1, y, dxy, dyx[1..])
  {
    TakenMsg(y, dyx, dyx[0], id, Data(dyx[0].data));
    assert PairInv(View(x, y, dxy, dyx, id), SettingOf(x, y, id));
    HeadCases(View(x, y, dxy, dyx, id), SettingOf(x, y, id));
    IgnoredHead(x, x1, y, dxy, dyx, dyx[0], id, Data(dyx[0].data));
  }

  // ---------------------------------------------------------------------------------------------
  // SYN.

  /** The tables changed for `id`, and `p` was sent for it. */
  lemma ReplyMoved(x: Conn, x2: Conn, t: Conn, y: Conn, dxy: seq<Packet>, dxy': seq<Packet>, id: u32, e: End, p: Packet,
                   m: Msg)
    requires SentPlain(x2, t, y, p, dxy, dxy') && MsgFor(id, p) == [m] && TableInv(x2) && AckInv(x2)
    requires x2 == x.(reader := x2.reader, chunk := x2.chunk, streams := x2.streams, opening := x2.opening,
             past := x2.past)
    requires EndOf(x2, id) == e && forall other: u32 :: other != id ==> EndOf(x2, other) == EndOf(x, other)
    ensures Moved(x, t, y, dxy, dxy', id, e, [m])
  {
    assert Flight(x2, dxy) == Flight(x, dxy);
    SameTable(x2, t);
    SameAcks(x2, t);
  }

  lemma SynAnswered(x: Conn, x1: Conn, x2: Conn, y: Conn, dxy: seq<Packet>, dyx: seq<Packet>, id: u32, e: End,
                    p: Packet, m: Msg)
    returns (dxy': seq<Packet>)
    requires Taken(x, x1, y, dxy, dyx, PSyn(id)) && Sendable(p) && MsgFor(id, p) == [m] && !p.PData?
    requires (e == Live(NewLive(x)) && m == Msg.Ack) || (e == Gone(NOTHING) && m == Rst)
    requires x2 == x1.(streams := x2.streams, opening := x2.opening, past := x2.past) && TableInv(x2) && AckInv(x2)
    requires EndOf(x2, id) == e && forall other: u32 :: other != id ==> EndOf(x2, other) == EndOf(x, other)
    ensures Inv(SendPacket(x2, p), y, dxy', dyx[1..])
  {
    TakenMsg(y, dyx, PSyn(id), id, Syn);
    SynPair(x, y, dxy, dyx, id, e, [m]);
    dxy' := SendPlain(x2, y, p, dxy);
    Replied(x, x1, x2, SendPacket(x2, p), y, dxy, dxy', dyx, dyx[1..], id, e, p, m);
  }

  lemma Replied(x: Conn, x1: Conn, x2: Conn, t: Conn, y: Conn, dxy: seq<Packet>, dxy': seq<Packet>, dyx: seq<Packet>,
                dyx': seq<Packet>, id: u32, e: End, p: Packet, m: Msg)
    requires Turned(x, x1, y, dxy, dyx, dyx') && SameForOthers(y, dyx, dyx', id) && id != 0
    requires x2 == x1.(streams := x2.streams, opening := x2.opening, past := x2.past) && TableInv(x2) && AckInv(x2)
    requires EndOf(x2, id) == e && forall other: u32 :: other != id ==> EndOf(x2, other) == EndOf(x, other)
    requires SentPlain(x2, t, y, p, dxy, dxy') && MsgFor(id, p) == [m]
    requires var v := View(x, y, dxy, dyx, id);
             PairInv(Pair(e, v.y, v.ox + [m], MsgsFor(id, Flight(y, dyx'))), SettingOf(x, y, id))
    ensures Inv(t, y, dxy', dyx')
  {
    ReplyMoved(x, x2, t, y, dxy, dxy', id, e, p, m);
    InvAgain(x, t, y, dxy, dxy', dyx, dyx', id, e, [m]);
  }

  lemma SynPair(x: Conn, y: Conn, dxy: seq<Packet>, dyx: seq<Packet>, id: u32, e: End, reply: seq<Msg>)
    requires Inv(x, y, dxy, dyx) && id != 0
    requires var p := View(x, y, dxy, dyx, id); p.oy != [] && p.oy[0].Syn?
    requires (e == Live(NewLive(x)) && reply == [Msg.Ack]) || (e == Gone(NOTHING) && (reply == [Rst] || reply == []))
    ensures var p := View(x, y, dxy, dyx, id); PairInv(Pair(e, p.y, p.ox + reply, p.oy[1..]), SettingOf(x, y, id))
  {
    assert PairInv(View(x, y, dxy, dyx, id), SettingOf(x, y, id));
    SynKeeps(View(x, y, dxy, dyx, id), SettingOf(x, y, id), e, reply, QUEUE_LIMIT);
  }

  /** A SYN always finds an id this side does not know and did not open. */
  lemma SynFindsFree(x: Conn, x1: Conn, y: Conn, dxy: seq<Packet>, dyx: seq<Packet>, id: u32)
    requires Taken(x, x1, y, dxy, dyx, PSyn(id))
    ensures id != 0 && !IsOutbound(x.newId, id) && id !in x.streams && id !in x.opening && id !in x.past
  {
    TakenMsg(y, dyx, PSyn(id), id, Syn);
    assert PairInv(View(x, y, dxy, dyx, id), SettingOf(x, y, id));
    HeadCases(View(x, y, dxy, dyx, id), SettingOf(x, y, id));
  }

  lemma SynAccepted(x: Conn, x1: Conn, y: Conn, dxy: seq<Packet>, dyx: seq<Packet>, id: u32) returns (dxy': seq<Packet>)
    requires Taken(x, x1, y, dxy, dyx, PSyn(id))
    ensures Inv(SendPacket(x1.(streams := x1.streams[id := NewLive(x)]), PAck(id)), y, dxy', dyx[1..])
  {
    SynFindsFree(x, x1, y, dxy, dyx, id);
    var x2 := x1.(streams := x1.streams[id := NewLive(x)]);
    assert x.opening - {id} == x.opening;
    assert Unacked(x2) == Unacked(x);
    CreatedTable(x, x2, id);
    CreatedAcks(x, x2, id);
    dxy' := SynAnswered(x, x1, x2, y, dxy, dyx, id, Live(NewLive(x)), PAck(id), Msg.Ack);
  }

  lemma RefusedTables(x: Conn, x1: Conn, id: u32)
    requires ConnInv(x) && x1 == x.(reader := x1.reader, chunk := x1.chunk)
    requires id != 0 && !IsOutbound(x.newId, id) && id !in x.streams && id !in x.opening && id !in x.past
    ensures var x2 := x1.(past := x1.past[id := NOTHING]);
            TableInv(x2) && AckInv(x2) && EndOf(x2, id) == Gone(NOTHING)
            && forall other: u32 :: other != id ==> EndOf(x2, other) == EndOf(x, other)
  {
    var x2 := x1.(past := x1.past[id := NOTHING]);
    assert Unacked(x2) == Unacked(x);
    assert x.opening - {id} == x.opening && x.streams - {id} == x.streams;
    GoneTable(x, x2, id, NOTHING);
    GoneAcks(x, x2, id, NOTHING);
  }

  lemma SynRefused(x: Conn, x1: Conn, y: Conn, dxy: seq<Packet>, dyx: seq<Packet>, id: u32) returns (dxy': seq<Packet>)
    requires Taken(x, x1, y, dxy, dyx, PSyn(id))
    ensures Inv(SendPacket(x1.(past := x1.past[id := NOTHING]), PRst(id)), y, dxy', dyx[1..])
  {
    SynFindsFree(x, x1, y, dxy, dyx, id);
    RefusedTables(x, x1, id);
    dxy' := SynAnswered(x, x1, x1.(past := x1.past[id := NOTHING]), y, dxy, dyx, id, Gone(NOTHING), PRst(id), Rst);
  }

  /** No handler for incoming streams: the connection is given up. */
  lemma SynUnhandled(x: Conn, x1: Conn, y: Conn, dxy: seq<Packet>, dyx: seq<Packet>, id: u32)
    returns (dxy': seq<Packet>)
    requires Taken(x, x1, y, dxy, dyx, PSyn(id))
    ensures Inv(CloseConn(x1.(past := x1.past[id := NOTHING]), Some(GO_AWAY_INTERNAL_ERROR)), y, dxy', dyx[1..])
  {
    SynFindsFree(x, x1, y, dxy, dyx, id);
    RefusedTables(x, x1, id);
    TakenMsg(y, dyx, PSyn(id), id, Syn);
    SynPair(x, y, dxy, dyx, id, Gone(NOTHING), []);
    var x2, ox := x1.(past := x1.past[id := NOTHING]), View(x, y, dxy, dyx, id).ox;
    assert ox + [] == ox;
    QuietArrival(x, x1, x2, y, dxy, dyx, dyx[1..], id, Gone(NOTHING));
    dxy' := CloseStep(x2, y, dxy, dyx[1..], Some(GO_AWAY_INTERNAL_ERROR));
  }

  // ---------------------------------------------------------------------------------------------
  // The whole turn.

  /** What a header does, packet by packet. */
  function Handled(c: Conn, p: Packet): Conn {
    match p
    case PSyn(sid) => ProcessSyn(c, HeaderOf(p)).0
    case PAck(sid) => ProcessAck(c, HeaderOf(p)).0
    case PFin(sid) => ProcessFin(c, sid)
    case PRst(sid) => ProcessRst(c, sid)
    case PData(_, _) => c
    case PWin(sid, _) => ProcessWindowUpdate(c, HeaderOf(p))
    case PPing(v) => SendPacket(c, PPong(v))
    case PPong(_) => c
    case PGoAway(_) => CloseConn(c, None)
  }

  /** The flags of a packet's header lead to the one handler meant for it. */
  lemma HeaderHandled(c: Conn, p: Packet)
    requires Sendable(p)
    ensures ProcessHeader(c, HeaderOf(p)).0 == Handled(c, p)
  {
    OnlyFlag(FlagOf(p));
  }

  lemma OnlyFlag(f: Flag)
    ensures FlagIsSet(FlagCode(f), SYN) <==> f.SYN?
    ensures FlagIsSet(FlagCode(f), ACK) <==> f.ACK?
    ensures FlagIsSet(FlagCode(f), FIN) <==> f.FIN?
    ensures FlagIsSet(FlagCode(f), RST) <==> f.RST?
  {
  }

  /** The end of the stream a packet at the head belongs to. */
  lemma HeadEnd(x: Conn, x1: Conn, y: Conn, dxy: seq<Packet>, dyx: seq<Packet>, p: Packet, id: u32, m: Msg)
    requires Taken(x, x1, y, dxy, dyx, p) && id != 0 && MsgFor(id, p) == [m]
    ensures m.Ack? || m.Rst? ==> !EndOf(x, id).Absent?
    ensures m.Win? || m.Fin? ==> EndOf(x, id).Live? || EndOf(x, id).Gone?
  {
    TakenMsg(y, dyx, p, id, m);
    assert PairInv(View(x, y, dxy, dyx, id), SettingOf(x, y, id));
    HeadCases(View(x, y, dxy, dyx, id), SettingOf(x, y, id));
  }

  lemma SynTurn(x: Conn, x1: Conn, y: Conn, dxy: seq<Packet>, dyx: seq<Packet>, id: u32) returns (dxy': seq<Packet>)
    requires Taken(x, x1, y, dxy, dyx, PSyn(id))
    ensures Inv(Handled(x1, PSyn(id)), y, dxy', dyx[1..])
  {
    SynFindsFree(x, x1, y, dxy, dyx, id);
    if |x.streams| + |x.opening| > x.cfg.maxStreams {
      dxy' := SynRefused(x, x1, y, dxy, dyx, id);
    } else if !x.hasHandler {
      dxy' := SynUnhandled(x, x1, y, dxy, dyx, id);
    } else {
      dxy' := SynAccepted(x, x1, y, dxy, dyx, id);
    }
  }

  lemma AckTurn(x: Conn, x1: Conn, y: Conn, dxy: seq<Packet>, dyx: seq<Packet>, id: u32) returns (dxy': seq<Packet>)
    requires Taken(x, x1, y, dxy, dyx, PAck(id))
    ensures Inv(Handled(x1, PAck(id)), y, dxy', dyx[1..])
  {
    dxy' := dxy;
    if id in x.opening {
      AckCreates(x, x1, y, dxy, dyx, id);
    } else {
      HeadEnd(x, x1, y, dxy, dyx, PAck(id), id, Msg.Ack);
      IgnoredHead(x, x1, y, dxy, dyx, PAck(id), id, Msg.Ack);
      if id !in x.streams { dxy' := CloseStep(x1, y, dxy, dyx[1..], Some(GO_AWAY_PROTOCOL_ERROR)); }
    }
  }

  lemma FinTurn(x: Conn, x1: Conn, y: Conn, dxy: seq<Packet>, dyx: seq<Packet>, id: u32)
    requires Taken(x, x1, y, dxy, dyx, PFin(id))
    ensures Inv(Handled(x1, PFin(id)), y, dxy, dyx[1..])
  {
    if id in x.streams {
      FinArrives(x, x1, y, dxy, dyx, id);
    } else {
      HeadEnd(x, x1, y, dxy, dyx, PFin(id), id, Fin);
      IgnoredHead(x, x1, y, dxy, dyx, PFin(id), id, Fin);
    }
  }

  lemma RstTurn(x: Conn, x1: Conn, y: Conn, dxy: seq<Packet>, dyx: seq<Packet>, id: u32)
    requires Taken(x, x1, y, dxy, dyx, PRst(id))
    ensures Inv(Handled(x1, PRst(id)), y, dxy, dyx[1..])
  {
    if id in x.streams {
      RstArrives(x, x1, y, dxy, dyx, id);
    } else if id in x.opening {
      RefusalArrives(x, x1, y, dxy, dyx, id);
    } else {
      HeadEnd(x, x1, y, dxy, dyx, PRst(id), id, Rst);
      IgnoredHead(x, x1, y, dxy, dyx, PRst(id), id, Rst);
    }
  }

  lemma WinTurn(x: Conn, x1: Conn, y: Conn, dxy: seq<Packet>, dyx: seq<Packet>, id: u32, delta: u32)
    returns (dxy': seq<Packet>)
    requires Taken(x, x1, y, dxy, dyx, PWin(id, delta))
    ensures Inv(Handled(x1, PWin(id, delta)), y, dxy', dyx[1..])
  {
    if id in x.streams {
      LiveStream(x, y, dxy, dyx, id);
      dxy' := WinArrives(x, x1, y, dxy, dyx, id, delta);
    } else {
      dxy' := dxy;
      HeadEnd(x, x1, y, dxy, dyx, PWin(id, delta), id, Win(delta));
      IgnoredHead(x, x1, y, dxy, dyx, PWin(id, delta), id, Win(delta));
    }
  }

  lemma HeadTurn(x: Conn, x1: Conn, y: Conn, dxy: seq<Packet>, dyx: seq<Packet>, p: Packet) returns (dxy': seq<Packet>)
    requires Taken(x, x1, y, dxy, dyx, p) && !p.PData?
    ensures Inv(Handled(x1, p), y, dxy', dyx[1..])
  {
    dxy' := dxy;
    match p
    case PSyn(id) => dxy' := SynTurn(x, x1, y, dxy, dyx, id);
    case PAck(id) => dxy' := AckTurn(x, x1, y, dxy, dyx, id);
    case PFin(id) => FinTurn(x, x1, y, dxy, dyx, id);
    case PRst(id) => RstTurn(x, x1, y, dxy, dyx, id);
    case PWin(id, delta) => dxy' := WinTurn(x, x1, y, dxy, dyx, id, delta);
    case PPing(v) =>
      NoStream(x, x1, y, dxy, dyx, p);
      dxy' := SendOther(x1, y, PPong(v), dxy, dyx[1..]);
    case PPong(_) => NoStream(x, x1, y, dxy, dyx, p);
    case PGoAway(_) =>
      NoStream(x, x1, y, dxy, dyx, p);
      dxy' := CloseStep(x1, y, dxy, dyx[1..], None);
  }

  /** The connection with its reader moved on by one turn. */
  function AfterTurn(x: Conn): Conn
    requires YamuxReader.ValidReader(x.reader) && x.reader.Reader? && x.chunk != []
  {
    var t := YamuxReader.ReadTurn(x.reader, x.chunk);
    x.(reader := t.reader, chunk := t.rest)
  }

  lemma HeaderStep(x: Conn, y: Conn, dxy: seq<Packet>, dyx: seq<Packet>) returns (dxy': seq<Packet>, dyx': seq<Packet>)
    requires Inv(x, y, dxy, dyx) && x.started && x.chunk != [] && x.reader.unread == 0 &&
             |x.reader.header + x.chunk| >= HEADER_LENGTH
    ensures Inv(ReadStep(x), y, dxy', dyx')
  {
    TurnHeader(x.reader, x.chunk, y.out, dyx);
    var p, x1 := dyx[0], AfterTurn(x);
    HeaderHandled(x1, p);
    if p.PData? {
      dxy', dyx' := dxy, dyx;
      Stutter(x, x1, y, dxy, dyx);
    } else {
      dyx' := dyx[1..];
      dxy' := HeadTurn(x, x1, y, dxy, dyx, p);
    }
  }

  lemma SegmentStep(x: Conn, y: Conn, dxy: seq<Packet>, dyx: seq<Packet>) returns (dxy': seq<Packet>, dyx': seq<Packet>)
    requires Inv(x, y, dxy, dyx) && x.started && x.chunk != [] && x.reader.unread > 0 && x.reader.sid != 0
    ensures Inv(ReadStep(x), y, dxy', dyx')
  {
    TurnSegment(x.reader, x.chunk, y.out, dyx);
    var id, x1, n := x.reader.sid, AfterTurn(x), Min(x.reader.unread, |x.chunk|);
    if id in x.streams {
      dyx' := Shortened(dyx, n);
      dxy' := DataArrives(x, x1, y, dxy, dyx, id, n);
    } else {
      dxy', dyx' := dxy, dyx[1..];
      DataDropped(x, x1.(reader := YamuxReader.Discard(x1.reader)), y, dxy, dyx, id);
    }
  }

  /** One turn of the reading loop. */
  lemma TurnStep(x: Conn, y: Conn, dxy: seq<Packet>, dyx: seq<Packet>) returns (dxy': seq<Packet>, dyx': seq<Packet>)
    requires Inv(x, y, dxy, dyx) && x.started && x.chunk != []
    ensures Inv(ReadStep(x), y, dxy', dyx')
  {
    if x.reader.unread == 0 && |x.reader.header + x.chunk| >= HEADER_LENGTH {
      dxy', dyx' := HeaderStep(x, y, dxy, dyx);
    } else if x.reader.unread > 0 && x.reader.sid != 0 {
      dxy', dyx' := SegmentStep(x, y, dxy, dyx);
    } else {
      dxy', dyx' := dxy, dyx;
      if x.reader.unread == 0 {
        TurnNeedMore(x.reader, x.chunk, y.out, dyx);
      } else {
        TurnDiscarded(x.reader, x.chunk, y.out, dyx);
      }
      Stutter(x, AfterTurn(x), y, dxy, dyx);
    }
  }
}
