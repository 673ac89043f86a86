/**
 * How a connection answers: for every reachable state, what a side's tables hold and which packets it has to write
 * after it opened a stream, met a message of its peer, or closed.
 */
module YamuxAnswers {
  import opened Basics
  import opened YamuxFrame
  import YamuxReader
  import opened WriteQueues
  import opened YamuxStreamSpec
  import opened YamuxPair
  import opened YamuxWire
  import opened YamuxConnections
  import opened YamuxWriter
  import opened YamuxSystem
  import YamuxSteps
  import opened YamuxArrivals
  import opened YamuxTurns
  import opened YamuxRuns
  import opened YamuxTheorems

  /** A stream on which nothing has happened yet. */
  predicate Untouched(s: Stream, cfg: Config) {
    && s.readable && s.writable && !s.finSent && s.closeReason.None? && s.closeCb.None? && s.reading.None?
    && s.window == s.peersWindow == INITIAL_WINDOW && s.maxWindow == cfg.maxWindow
    && s.queue.items == [] && s.queue.limit == QUEUE_LIMIT && s.buffered == []
    && s.accepted == s.sent == s.delivered == []
  }

  /** The packets to be written are those of before, in order, and then `ps`. */
  predicate Adds(x: Conn, t: Conn, ps: seq<Packet>) { Unacked(t) == Unacked(x) + ps }

  /** No other stream is touched. */
  predicate OnlyAt(x: Conn, t: Conn, id: u32) {
    forall other: u32 :: other != id ==> EndOf(t, other) == EndOf(x, other)
  }

  lemma SendAdds(c: Conn, p: Packet)
    requires c.writing.Idle? ==> c.queue == []
    ensures Adds(c, SendPacket(c, p), [p])
  {
    hide PacketBytes;
    assert [] + [p] == [p];
  }

  lemma WriterOf(x: Conn, y: Conn, dxy: seq<Packet>, dyx: seq<Packet>)
    requires Inv(x, y, dxy, dyx)
    ensures (x.writing.Idle? ==> x.queue == []) && TableInv(x)
  {
  }

  // ---------------------------------------------------------------------------------------------
  // Opening.

  /**
   * The next id of this side's parity is opened: the stream is live, or waits for the ACK; its SYN is to be written.
   */
  predicate Opens(x: Conn, t: Conn, wait: bool) {
    && EndOf(x, x.newId).Absent? && OnlyAt(x, t, x.newId) && Adds(x, t, [PSyn(x.newId)])
    && t.newId == x.newId + 2 && t.started
    && (if wait then EndOf(t, x.newId).Opening? else EndOf(t, x.newId).Live? && Untouched(EndOf(t, x.newId).s, x.cfg))
  }

  lemma NewIsUntouched(cfg: Config)
    ensures Untouched(NewStream(cfg.maxWindow, QUEUE_LIMIT), cfg)
  {
  }

  lemma NextIsFree(x: Conn)
    requires TableInv(x)
    ensures EndOf(x, x.newId).Absent?
  {
    assert IsOutbound(x.newId, x.newId);
  }

  lemma OpenOutcome(x: Conn, wait: bool)
    requires TableInv(x) && (x.writing.Idle? ==> x.queue == []) && x.newId + 2 < 0x1_0000_0000
    ensures if x.started && |x.streams| < x.cfg.maxStreams then Opens(x, Open(x, wait), wait) else Open(x, wait) == x
  {
    hide SendPacket, TableInv, NewStream, Untouched;
    NextIsFree(x);
    NewIsUntouched(x.cfg);
    var x1 := x.(newId := ToU32(x.newId + 2));
    SendAdds(x1, PSyn(x.newId));
    SendKeepsTables(x1, PSyn(x.newId));
  }

  /** `newStream` opens a stream on a running connection with room, and changes nothing otherwise. */
  lemma OpensExactly(s: System, left: bool, wait: bool)
    requires Reachable(s) && CanStep(s, Label(left, Dial(wait)))
    ensures var x, t := Near(s, left), Near(Next(s, Label(left, Dial(wait))), left);
            if x.started && |x.streams| < x.cfg.maxStreams then Opens(x, t, wait) else t == x
  {
    hide Inv, Open, Opens, TableInv;
    var dxy, dyx := ReachableInv(s, left);
    WriterOf(Near(s, left), Far(s, left), dxy, dyx);
    OpenOutcome(Near(s, left), wait);
  }

  lemma SendKeepsTables(c: Conn, p: Packet)
    ensures var t := SendPacket(c, p);
            t == c.(queue := t.queue, writing := t.writing, out := t.out, dropped := t.dropped)
  {
    hide PacketBytes;
  }

  // ---------------------------------------------------------------------------------------------
  // Messages.

  /** The next turn meets a header with a flag for stream `id`. */
  predicate Comes(x: Conn, flag: Flag, id: u32) {
    && x.started && x.chunk != [] && YamuxReader.ValidReader(x.reader) && x.reader.Reader?
    && NextEvent(x).Header? && FlagIsSet(NextEvent(x).frame.flags, flag) && NextEvent(x).frame.streamId == id
  }

  function MessageWith(flag: Flag, id: u32): Packet
    requires flag != NONE
  {
    match flag
    case SYN => PSyn(id)
    case ACK => PAck(id)
    case FIN => PFin(id)
    case RST => PRst(id)
  }

  /** `c` is `x` after its reader moved on. */
  predicate ReadOn(x: Conn, c: Conn) { c == x.(reader := c.reader, chunk := c.chunk) }

  lemma ComesFirst(x: Conn, y: Conn, dxy: seq<Packet>, dyx: seq<Packet>, flag: Flag, id: u32) returns (c: Conn)
    requires Inv(x, y, dxy, dyx) && flag != NONE && id != 0 && Comes(x, flag, id)
    ensures ReadOn(x, c) && Taken(x, c, y, dxy, dyx, MessageWith(flag, id))
    ensures ReadStep(x) == Handled(c, MessageWith(flag, id))
    ensures x.started && (x.writing.Idle? ==> x.queue == []) && TableInv(x)
  {
    hide PairInv, WireBytes, PacketBytes, Handled;
    c := AfterTurn(x);
    TurnHeader(x.reader, x.chunk, y.out, dyx);
    OnlyFlag(FlagOf(dyx[0]));
    HeaderHandled(c, dyx[0]);
  }

  /** The answer to a SYN: accepted, reset for lack of room, or the end of the connection for lack of a handler. */
  predicate SynAnswer(x: Conn, t: Conn, id: u32) {
    var room := |x.streams| + |x.opening| <= x.cfg.maxStreams;
    && EndOf(x, id).Absent?
    && (room && x.hasHandler ==>
          && t.started && OnlyAt(x, t, id) && Adds(x, t, [PAck(id)])
          && EndOf(t, id).Live? && Untouched(EndOf(t, id).s, x.cfg))
    && (!room ==> t.started && OnlyAt(x, t, id) && Adds(x, t, [PRst(id)]) && EndOf(t, id) == Gone(NOTHING))
    && (room && !x.hasHandler ==> !t.started && Adds(x, t, [PGoAway(GO_AWAY_INTERNAL_ERROR)]))
  }

  lemma SynHandled(x: Conn, c: Conn, id: u32)
    requires ReadOn(x, c) && x.started && id != 0 && !IsOutbound(x.newId, id) && EndOf(x, id).Absent?
    requires x.writing.Idle? ==> x.queue == []
    ensures SynAnswer(x, Handled(c, PSyn(id)), id)
  {
    hide SendPacket, Records;
    if |c.streams| + |c.opening| > c.cfg.maxStreams {
      var c1 := c.(past := c.past[id := NOTHING]);
      SendAdds(c1, PRst(id));
      SendKeepsTables(c1, PRst(id));
    } else if c.hasHandler {
      var c1 := c.(streams := c.streams[id := NewStream(c.cfg.maxWindow, QUEUE_LIMIT)]);
      SendAdds(c1, PAck(id));
      SendKeepsTables(c1, PAck(id));
    } else {
      CloseAdds(c.(past := c.past[id := NOTHING]), GO_AWAY_INTERNAL_ERROR);
    }
  }

  /**
   * A SYN names an id that is new here. With a handler it is accepted, with a stream in the table and an ACK to be
   * written, exactly if there is room for it; without room it is reset, and with room but no handler the connection
   * ends.
   */
  lemma SynExactly(s: System, left: bool, id: u32)
    requires Reachable(s) && id != 0 && Comes(Near(s, left), SYN, id)
    ensures SynAnswer(Near(s, left), ReadStep(Near(s, left)), id)
  {
    hide Inv, ReadStep, Comes, SynAnswer, Handled, TableInv, Taken;
    var x, y := Near(s, left), Far(s, left);
    var dxy, dyx := ReachableInv(s, left);
    var c := ComesFirst(x, y, dxy, dyx, SYN, id);
    SynFindsFree(x, c, y, dxy, dyx, id);
    SynHandled(x, c, id);
    ComesReads(x, SYN, id);
  }

  lemma ComesReads(x: Conn, flag: Flag, id: u32)
    requires Comes(x, flag, id)
    ensures YamuxReader.ValidReader(x.reader) && x.reader.Reader? && x.chunk != []
  {
  }

  /** Closing with a reason tells it to the peer, last. */
  lemma CloseAdds(c: Conn, code: u32)
    requires c.started && (c.writing.Idle? ==> c.queue == [])
    ensures var t := CloseConn(c, Some(code));
            !t.started && t.streams == map[] && t.opening == {} && t.past == Records(c) && Adds(c, t, [PGoAway(code)])
  {
    hide SendPacket, Records;
    var c1 := c.(started := false, streams := map[], opening := {}, past := Records(c), closeAfterWrite := true);
    SendAdds(c1, PGoAway(code));
    SendKeepsTables(c1, PGoAway(code));
  }

  /** The answer to an ACK. */
  predicate AckAnswer(x: Conn, t: Conn, id: u32) {
    match EndOf(x, id)
    case Opening =>
      && t.started && OnlyAt(x, t, id) && Adds(x, t, []) && EndOf(t, id).Live? && Untouched(EndOf(t, id).s, x.cfg)
    case Live(_) => t.started && OnlyAt(x, t, id) && Adds(x, t, []) && EndOf(t, id) == EndOf(x, id)
    case _ => !t.started && Adds(x, t, [PGoAway(GO_AWAY_PROTOCOL_ERROR)])
  }

  lemma AckHandled(x: Conn, c: Conn, id: u32)
    requires ReadOn(x, c) && x.started && id != 0 && TableInv(x) && (x.writing.Idle? ==> x.queue == [])
    ensures AckAnswer(x, Handled(c, PAck(id)), id)
  {
    hide SendPacket, Records, CloseConn;
    assert Unacked(x) + [] == Unacked(x);
    if !EndOf(x, id).Opening? && !EndOf(x, id).Live? { CloseAdds(c, GO_AWAY_PROTOCOL_ERROR); }
  }

  /**
   * An ACK turns the pending stream into a live one, means nothing to a live one, and ends the connection otherwise.
   */
  lemma AckExactly(s: System, left: bool, id: u32)
    requires Reachable(s) && id != 0 && Comes(Near(s, left), ACK, id)
    ensures AckAnswer(Near(s, left), ReadStep(Near(s, left)), id)
  {
    hide Inv, ReadStep, Comes, AckAnswer, Handled, TableInv, Taken;
    var x, y := Near(s, left), Far(s, left);
    var dxy, dyx := ReachableInv(s, left);
    var c := ComesFirst(x, y, dxy, dyx, ACK, id);
    AckHandled(x, c, id);
    ComesReads(x, ACK, id);
  }

  /** Where a stream is once it is over. */
  function Over(e: End): End {
    match e
    case Live(u) => Gone(RecordOf(u))
    case Opening => Gone(NOTHING)
    case _ => e
  }

  predicate RstAnswer(x: Conn, t: Conn, id: u32) {
    t.started && OnlyAt(x, t, id) && Adds(x, t, []) && EndOf(t, id) == Over(EndOf(x, id))
  }

  lemma RstHandled(x: Conn, c: Conn, id: u32)
    requires ReadOn(x, c) && x.started && TableInv(x)
    requires id in x.streams ==> ValidStream(x.streams[id]) && x.streams[id].closeReason.None?
    ensures RstAnswer(x, Handled(c, PRst(id)), id)
  {
    hide PerformAll, OnRst, ValidStream;
    assert Unacked(x) + [] == Unacked(x);
    if id in c.streams { RstRemoves(c, id); }
  }

  lemma RstRemoves(c: Conn, id: u32)
    requires id in c.streams && ValidStream(c.streams[id]) && c.streams[id].closeReason.None?
    ensures ProcessRst(c, id) == c.(streams := c.streams - {id}, past := c.past[id := RecordOf(c.streams[id])])
  {
    var u := c.streams[id];
    var e := OnRst(u);
    DoCloseQuiet(u, ResetByPeer);
    assert RecordOf(e.s) == RecordOf(u);
    QuietPerform(c.(streams := c.streams - {id}, past := c.past[id := RecordOf(e.s)]), id, e.acts);
  }

  /** A reset takes the stream out of the tables, with what it had delivered, and needs no answer. */
  lemma RstExactly(s: System, left: bool, id: u32)
    requires Reachable(s) && id != 0 && Comes(Near(s, left), RST, id)
    ensures RstAnswer(Near(s, left), ReadStep(Near(s, left)), id)
  {
    hide Inv, ReadStep, Comes, RstAnswer, Handled, TableInv, Taken, ValidStream;
    var x, y := Near(s, left), Far(s, left);
    var dxy, dyx := ReachableInv(s, left);
    var c := ComesFirst(x, y, dxy, dyx, RST, id);
    if id in x.streams { YamuxSteps.LiveStream(x, y, dxy, dyx, id); }
    RstHandled(x, c, id);
    ComesReads(x, RST, id);
  }

  /** A FIN ends a stream this side has closed, and is remembered by one it has not. */
  predicate FinAnswer(x: Conn, t: Conn, id: u32) {
    && t.started && OnlyAt(x, t, id) && Adds(x, t, [])
    && EndOf(t, id) ==
       if EndOf(x, id).Live? && x.streams[id].writable then Live(x.streams[id].(readable := false, reading := None))
       else Over(EndOf(x, id))
  }

  lemma FinHandled(x: Conn, c: Conn, id: u32)
    requires ReadOn(x, c) && x.started && TableInv(x)
    requires id in x.streams ==> ValidStream(x.streams[id]) && x.streams[id].closeReason.None?
    ensures FinAnswer(x, Handled(c, PFin(id)), id)
  {
    hide PerformAll, OnFin, FinAnswer, ValidStream;
    if id in x.streams {
      assert id !in x.opening;
      FinLive(x, c, id);
    } else {
      FinUnknown(x, c, id);
    }
  }

  lemma FinLive(x: Conn, c: Conn, id: u32)
    requires ReadOn(x, c) && x.started && id in x.streams && id !in x.opening
    requires ValidStream(x.streams[id]) && x.streams[id].closeReason.None?
    ensures FinAnswer(x, ProcessFin(c, id), id)
  {
    hide ProcessFin, OnFin, ValidStream;
    var u := c.streams[id];
    var (e, v) := OnFin(u);
    FinTable(c, id, u, e, v);
    FinState(u);
    assert Unacked(x) + [] == Unacked(x);
  }

  lemma FinUnknown(x: Conn, c: Conn, id: u32)
    requires ReadOn(x, c) && x.started && id !in x.streams && TableInv(x)
    ensures FinAnswer(x, ProcessFin(c, id), id)
  {
    hide PerformAll, OnFin;
    assert Unacked(x) + [] == Unacked(x);
  }

  lemma FinState(u: Stream)
    requires u.closeReason.None?
    ensures OnFin(u).1 == (if u.writable then KeepStream else RemoveStream)
    ensures if u.writable then OnFin(u).0.s == u.(readable := false, reading := None)
            else RecordOf(OnFin(u).0.s) == RecordOf(u)
  {
  }

  lemma FinExactly(s: System, left: bool, id: u32)
    requires Reachable(s) && id != 0 && Comes(Near(s, left), FIN, id)
    ensures FinAnswer(Near(s, left), ReadStep(Near(s, left)), id)
  {
    hide Inv, ReadStep, Comes, FinAnswer, Handled, TableInv, Taken, ValidStream;
    var x, y := Near(s, left), Far(s, left);
    var dxy, dyx := ReachableInv(s, left);
    var c := ComesFirst(x, y, dxy, dyx, FIN, id);
    if id in x.streams { YamuxSteps.LiveStream(x, y, dxy, dyx, id); }
    FinHandled(x, c, id);
    ComesReads(x, FIN, id);
  }

  predicate PingAnswer(x: Conn, t: Conn, ps: seq<Packet>) {
    t.started && (forall id: u32 :: EndOf(t, id) == EndOf(x, id)) && Adds(x, t, ps)
  }

  lemma PingHandled(x: Conn, c: Conn, v: u32)
    requires ReadOn(x, c) && x.started && (x.writing.Idle? ==> x.queue == [])
    ensures PingAnswer(x, Handled(c, PPing(v)), [PPong(v)]) && PingAnswer(x, Handled(c, PPong(v)), [])
  {
    hide SendPacket;
    assert Unacked(x) + [] == Unacked(x);
    SendAdds(c, PPong(v));
    SendKeepsTables(c, PPong(v));
  }

  /** A ping is answered with its value, the answer to one with nothing. */
  lemma PingExactly(s: System, left: bool, flag: Flag)
    requires Reachable(s) && (flag == SYN || flag == ACK) && Comes(Near(s, left), flag, 0)
    ensures var x := Near(s, left);
            && NextEvent(x).frame.ty.PING?
            && PingAnswer(x, ReadStep(x), if flag == SYN then [PPong(NextEvent(x).frame.length)] else [])
  {
    hide Handled, PairInv, WireBytes, PacketBytes, PingAnswer;
    var x, y := Near(s, left), Far(s, left);
    var dxy, dyx := ReachableInv(s, left);
    TurnHeader(x.reader, x.chunk, y.out, dyx);
    OnlyFlag(FlagOf(dyx[0]));
    HeaderHandled(AfterTurn(x), dyx[0]);
    PingHandled(x, AfterTurn(x), NextEvent(x).frame.length);
  }

  // ---------------------------------------------------------------------------------------------
  // Dropping.

  predicate ResetAnswer(x: Conn, t: Conn, id: u32) {
    t.started == x.started && OnlyAt(x, t, id) && Adds(x, t, [PRst(id)]) && EndOf(t, id) == Over(EndOf(x, id))
  }

  lemma ResetHandled(x: Conn, id: u32)
    requires id !in x.opening && (x.writing.Idle? ==> x.queue == [])
    ensures ResetAnswer(x, Erase(SendPacket(x, PRst(id)), id), id)
  {
    hide SendPacket;
    SendAdds(x, PRst(id));
    SendKeepsTables(x, PRst(id));
  }

  /** A stream that nobody holds any more, or that is reset after it left the table, is reset at the peer too. */
  lemma DropExactly(s: System, left: bool, id: u32, m: Move)
    requires Reachable(s) && (m == Drop(id) || m == StaleReset(id)) && CanStep(s, Label(left, m))
    ensures ResetAnswer(Near(s, left), Near(Next(s, Label(left, m)), left), id)
  {
    hide Inv, Erase, SendPacket, ResetAnswer;
    var x := Near(s, left);
    var dxy, dyx := ReachableInv(s, left);
    WriterOf(x, Far(s, left), dxy, dyx);
    assert id !in x.opening;
    ResetHandled(x, id);
  }

  // ---------------------------------------------------------------------------------------------
  // Closing.

  predicate ShutdownAnswer(x: Conn, t: Conn, reply: Option<u32>) {
    && !t.started && t.streams == map[] && t.opening == {}
    && (if reply.Some? then Adds(x, t, [PGoAway(reply.value)]) else t.queue == [] && t.linkClosed && t.out == x.out)
    && forall id: u32 :: EndOf(t, id) == Over(EndOf(x, id))
  }

  lemma ShutdownHandled(x: Conn, reply: Option<u32>)
    requires x.started && TableInv(x) && (x.writing.Idle? ==> x.queue == [])
    ensures ShutdownAnswer(x, CloseConn(x, reply), reply)
  {
    hide SendPacket;
    if reply.Some? {
      CloseAdds(x, reply.value);
      var x1 := x.(started := false, streams := map[], opening := {}, past := Records(x), closeAfterWrite := true);
      SendKeepsTables(x1, PGoAway(reply.value));
    }
  }

  /** A side that shuts down with a reason says so last; without one it writes nothing more. Its tables are empty. */
  lemma ShutdownExactly(s: System, left: bool, reply: Option<u32>)
    requires Reachable(s) && CanStep(s, Label(left, Shutdown(reply))) && Near(s, left).started
    ensures ShutdownAnswer(Near(s, left), Near(Next(s, Label(left, Shutdown(reply))), left), reply)
  {
    hide Inv, CloseConn, ShutdownAnswer, TableInv;
    var dxy, dyx := ReachableInv(s, left);
    WriterOf(Near(s, left), Far(s, left), dxy, dyx);
    ShutdownHandled(Near(s, left), reply);
  }
}
