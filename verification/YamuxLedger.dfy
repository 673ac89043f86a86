/**
 * Two joined connections as their applications see them: the bytes that read callbacks were told and the bytes of the
 * writes that were not refused, collected move by move from the calls the streams make.
 */
module YamuxLedger {
  import opened Basics
  import opened YamuxFrame
  import YamuxReader
  import opened WriteQueues
  import opened YamuxStreamSpec
  import YamuxStreamRuns
  import opened YamuxPair
  import opened YamuxWire
  import opened YamuxConnections
  import YamuxWriter
  import opened YamuxSystem
  import opened YamuxSteps
  import opened YamuxArrivals
  import opened YamuxTurns
  import opened YamuxRuns
  import opened YamuxTheorems
  import opened YamuxAnswers

  /** The stream and the event it gets in a move, if the move reads, writes or brings data. */
  function EventFor(x: Conn, y: Conn, m: Move, id: u32): Option<YamuxStreamRuns.Event>
    requires Enabled(x, y, m)
  {
    if id !in x.streams || !ValidStream(x.streams[id]) then None
    else
      match m
      case Call(i, ev) => if i == id then Some(ev) else None
      case Turn => if NextEvent(x).Segment? && NextEvent(x).sid == id then
        Some(YamuxStreamRuns.DataIn(NextEvent(x).data)) else None
      case _ => None
  }

  /** What the read callbacks of stream `id` are told in a move of `x`. */
  function ToldBy(x: Conn, y: Conn, m: Move, id: u32): seq<byte>
    requires Enabled(x, y, m)
  {
    var ev := EventFor(x, y, m, id);
    if ev.Some? && YamuxStreamRuns.Allowed(x.streams[id], ev.value) then
      YamuxStreamRuns.GotOf(YamuxStreamRuns.Step(x.streams[id], ev.value).acts) else []
  }

  /** The data of a write to stream `id` that is not refused in a move of `x`. */
  function TakenBy(x: Conn, y: Conn, m: Move, id: u32): seq<byte>
    requires Enabled(x, y, m)
  {
    var ev := EventFor(x, y, m, id);
    if ev.Some? && ev.value.WriteSome? &&
      YamuxStreamRuns.Refusals(YamuxStreamRuns.Step(x.streams[id], ev.value).acts) == []
    then ev.value.data else []
  }

  /** All that the reads of one side were told about stream `id` in a run. */
  function Told(s: System, ls: seq<Label>, left: bool, id: u32): seq<byte>
    requires IsRun(s, ls)
    decreases |ls|
  {
    if ls == [] then []
    else
      (if ls[0].left == left then ToldBy(Near(s, left), Far(s, left), ls[0].move, id) else []) +
      Told(Next(s, ls[0]), ls[1..], left, id)
  }

  /** All that one side took from its application for stream `id` in a run. */
  function Took(s: System, ls: seq<Label>, left: bool, id: u32): seq<byte>
    requires IsRun(s, ls)
    decreases |ls|
  {
    if ls == [] then []
    else
      (if ls[0].left == left then TakenBy(Near(s, left), Far(s, left), ls[0].move, id) else []) +
      Took(Next(s, ls[0]), ls[1..], left, id)
  }

  // ---------------------------------------------------------------------------------------------
  // One connection.

  /** The records of stream `id` grow by what it told and what it took. */
  predicate Logs(x: Conn, t: Conn, id: u32, told: seq<byte>, taken: seq<byte>) {
    Delivered(t, id) == Delivered(x, id) + told && Accepted(t, id) == Accepted(x, id) + taken
  }

  predicate SameLogs(x: Conn, t: Conn, id: u32) {
    Delivered(t, id) == Delivered(x, id) && Accepted(t, id) == Accepted(x, id)
  }

  lemma NothingLogged(x: Conn, t: Conn, id: u32)
    requires SameLogs(x, t, id)
    ensures Logs(x, t, id, [], [])
  {
    assert Delivered(x, id) + [] == Delivered(x, id) && Accepted(x, id) + [] == Accepted(x, id);
  }

  lemma SendLogs(c: Conn, p: Packet, id: u32)
    ensures SameLogs(c, SendPacket(c, p), id) && SendPacket(c, p).opening == c.opening
  {
    hide SendPacket;
    SendKeepsTables(c, p);
  }

  lemma EraseLogs(c: Conn, sid: u32, id: u32)
    requires sid !in c.opening
    ensures SameLogs(c, Erase(c, sid), id) && Erase(c, sid).opening == c.opening
  {
  }

  lemma PerformLogs(c: Conn, sid: u32, a: Action, id: u32)
    requires sid !in c.opening
    ensures SameLogs(c, Perform(c, sid, a), id) && Perform(c, sid, a).opening == c.opening
  {
    hide SendPacket, Erase, SameLogs;
    LogsItself(c, id);
    match a
    case SendData(data) => SendLogs(c, PData(sid, data), id);
    case SendWindow(delta) => SendLogs(c, PWin(sid, ToU32(delta)), id);
    case SendRst => SendEraseLogs(c, PRst(sid), sid, id);
    case SendFin(_) =>
      SendLogs(c, PFin(sid), id);
      SendEraseLogs(c, PFin(sid), sid, id);
    case _ =>
  }

  lemma SendEraseLogs(c: Conn, p: Packet, sid: u32, id: u32)
    requires sid !in c.opening
    ensures SameLogs(c, Erase(SendPacket(c, p), sid), id) && Erase(SendPacket(c, p), sid).opening == c.opening
  {
    hide SendPacket, Erase, SameLogs;
    var c1 := SendPacket(c, p);
    SendLogs(c, p, id);
    EraseLogs(c1, sid, id);
    LogsTrans(c, c1, Erase(c1, sid), id);
  }

  lemma {:induction false} PerformedLogs(c: Conn, sid: u32, acts: seq<Action>, id: u32)
    requires sid !in c.opening
    ensures SameLogs(c, PerformAll(c, sid, acts), id) && PerformAll(c, sid, acts).opening == c.opening
    decreases |acts|
  {
    hide Perform, SameLogs;
    assert SameLogs(c, c, id) by { LogsItself(c, id); }
    if acts != [] {
      PerformLogs(c, sid, acts[0], id);
      PerformedLogs(Perform(c, sid, acts[0]), sid, acts[1..], id);
      LogsTrans(c, Perform(c, sid, acts[0]), PerformAll(c, sid, acts), id);
    }
  }

  lemma LogsItself(c: Conn, id: u32)
    ensures SameLogs(c, c, id)
  {
  }

  lemma LogsTrans(a: Conn, b: Conn, c: Conn, id: u32)
    requires SameLogs(a, b, id) && SameLogs(b, c, id)
    ensures SameLogs(a, c, id)
  {
  }

  /** A stream of the table gets an event. */
  lemma ApplyLogs(c: Conn, sid: u32, e: Effect, told: seq<byte>, taken: seq<byte>, id: u32)
    requires sid in c.streams && sid !in c.opening
    requires e.s.delivered == c.streams[sid].delivered + told && e.s.accepted == c.streams[sid].accepted + taken
    ensures if id == sid then Logs(c, Apply(c, sid, e), id, told, taken) else SameLogs(c, Apply(c, sid, e), id)
    ensures Apply(c, sid, e).opening == c.opening
  {
    hide PerformAll;
    PerformedLogs(c.(streams := c.streams[sid := e.s]), sid, e.acts, id);
  }

  /** An event of the connection that delivers nothing. */
  lemma QuietLogs(c: Conn, sid: u32, ev: YamuxStreamRuns.Event, id: u32)
    requires sid in c.streams && sid !in c.opening && ValidStream(c.streams[sid])
    requires !ev.ReadSome? && !ev.DataIn? && !ev.WriteSome?
    ensures SameLogs(c, Apply(c, sid, YamuxStreamRuns.Step(c.streams[sid], ev)), id)
    ensures Apply(c, sid, YamuxStreamRuns.Step(c.streams[sid], ev)).opening == c.opening
  {
    hide Apply, ValidStream, YamuxStreamRuns.Step;
    var u := c.streams[sid];
    YamuxStreamRuns.OtherReported(u, ev);
    YamuxStreamRuns.StepAccepts(u, ev);
    assert u.delivered + [] == u.delivered && u.accepted + [] == u.accepted;
    ApplyLogs(c, sid, YamuxStreamRuns.Step(u, ev), [], [], id);
    assert Delivered(c, id) + [] == Delivered(c, id) && Accepted(c, id) + [] == Accepted(c, id);
  }

  lemma OverLogs(x: Conn, t: Conn, id: u32)
    requires EndOf(t, id) == Over(EndOf(x, id)) || EndOf(t, id) == EndOf(x, id)
    ensures SameLogs(x, t, id)
  {
  }

  lemma CloseLogs(x: Conn, reply: Option<u32>, id: u32)
    requires TableInv(x) && (x.writing.Idle? ==> x.queue == [])
    ensures SameLogs(x, CloseConn(x, reply), id)
  {
    hide CloseConn;
    if x.started {
      ShutdownHandled(x, reply);
      OverLogs(x, CloseConn(x, reply), id);
    } else {
      assert CloseConn(x, reply) == x by { StoppedStays(x, reply); }
      LogsItself(x, id);
    }
  }

  lemma StoppedStays(x: Conn, reply: Option<u32>)
    requires !x.started
    ensures CloseConn(x, reply) == x
  {
  }

  // ---------------------------------------------------------------------------------------------
  // Messages.

  /** `c` is `x` after its reader moved on. */
  lemma ReadOnLogs(x: Conn, c: Conn, t: Conn, id: u32)
    requires ReadOn(x, c) && SameLogs(c, t, id)
    ensures SameLogs(x, t, id)
  {
  }

  lemma RefusedLogs(c: Conn, sid: u32, id: u32)
    requires EndOf(c, sid).Absent?
    ensures SameLogs(c, c.(past := c.past[sid := NOTHING]), id)
  {
  }

  lemma SynLogs(x: Conn, c: Conn, sid: u32, id: u32)
    requires ReadOn(x, c) && x.started && sid != 0 && !IsOutbound(x.newId, sid) && EndOf(x, sid).Absent?
    requires TableInv(x) && (x.writing.Idle? ==> x.queue == [])
    ensures SameLogs(x, Handled(c, PSyn(sid)), id)
  {
    hide CloseConn, TableInv;
    SynHandled(x, c, sid);
    if |x.streams| + |x.opening| <= x.cfg.maxStreams && !x.hasHandler {
      var c1 := c.(past := c.past[sid := NOTHING]);
      NoHandlerTable(x, c, sid);
      RefusedLogs(c, sid, id);
      CloseLogs(c1, Some(GO_AWAY_INTERNAL_ERROR), id);
      LogsTrans(c, c1, CloseConn(c1, Some(GO_AWAY_INTERNAL_ERROR)), id);
    }
  }

  lemma NoHandlerTable(x: Conn, c: Conn, sid: u32)
    requires ReadOn(x, c) && sid != 0 && !IsOutbound(x.newId, sid) && EndOf(x, sid).Absent? && TableInv(x)
    ensures TableInv(c.(past := c.past[sid := NOTHING]))
  {
  }

  lemma AckLogs(x: Conn, c: Conn, sid: u32, id: u32)
    requires ReadOn(x, c) && x.started && sid != 0 && TableInv(x) && (x.writing.Idle? ==> x.queue == [])
    ensures SameLogs(x, Handled(c, PAck(sid)), id)
  {
    hide CloseConn, TableInv;
    AckHandled(x, c, sid);
    if !EndOf(x, sid).Opening? && !EndOf(x, sid).Live? {
      assert TableInv(c) by { SameTable(x, c); }
      CloseLogs(c, Some(GO_AWAY_PROTOCOL_ERROR), id);
    }
  }

  lemma SameTable(x: Conn, c: Conn)
    requires ReadOn(x, c) && TableInv(x)
    ensures TableInv(c)
  {
  }

  lemma FinLogs(x: Conn, c: Conn, sid: u32, id: u32)
    requires ReadOn(x, c) && x.started && TableInv(x)
    requires sid in x.streams ==> ValidStream(x.streams[sid]) && x.streams[sid].closeReason.None?
    ensures SameLogs(x, Handled(c, PFin(sid)), id) && SameLogs(x, Handled(c, PRst(sid)), id)
  {
    hide TableInv, ValidStream, Handled;
    FinHandled(x, c, sid);
    RstHandled(x, c, sid);
  }

  lemma WinLogs(x: Conn, c: Conn, sid: u32, delta: u32, id: u32)
    requires ReadOn(x, c) && (sid in x.streams ==> sid !in x.opening && ValidStream(x.streams[sid]))
    ensures SameLogs(x, Handled(c, PWin(sid, delta)), id)
  {
    hide Apply, ValidStream;
    if sid in x.streams {
      assert ValidQueue(c.streams[sid].queue) by { QueueOf(c.streams[sid]); }
      QuietLogs(c, sid, YamuxStreamRuns.WindowIn(delta), id);
    } else {
      LogsItself(c, id);
    }
  }

  lemma QueueOf(s: Stream)
    requires ValidStream(s)
    ensures ValidQueue(s.queue)
  {
  }

  lemma OtherLogs(x: Conn, c: Conn, p: Packet, id: u32)
    requires ReadOn(x, c) && x.started && TableInv(x) && (x.writing.Idle? ==> x.queue == [])
    requires p.PData? || p.PPing? || p.PPong? || p.PGoAway?
    ensures SameLogs(x, Handled(c, p), id)
  {
    hide SendPacket, CloseConn, TableInv;
    LogsItself(c, id);
    assert TableInv(c) by { SameTable(x, c); }
    if p.PPing? { SendLogs(c, PPong(p.value), id); }
    if p.PGoAway? { CloseLogs(c, None, id); }
  }

  /** No message but data changes what was told or taken. */
  lemma HandledLogs(x: Conn, c: Conn, y: Conn, dxy: seq<Packet>, dyx: seq<Packet>, p: Packet, id: u32)
    requires Inv(x, y, dxy, dyx) && x.started && ReadOn(x, c) && dyx != [] && dyx[0] == p && Sendable(p)
    requires !p.PData? ==> YamuxArrivals.Taken(x, c, y, dxy, dyx, p)
    ensures SameLogs(x, Handled(c, p), id)
  {
    hide Inv, Handled, TableInv, ValidStream, SameLogs;
    WriterOf(x, y, dxy, dyx);
    match p
    case PSyn(sid) =>
      SynFindsFree(x, c, y, dxy, dyx, sid);
      SynLogs(x, c, sid, id);
    case PAck(sid) => AckLogs(x, c, sid, id);
    case PFin(sid) =>
      if sid in x.streams { LiveStream(x, y, dxy, dyx, sid); }
      FinLogs(x, c, sid, id);
    case PRst(sid) =>
      if sid in x.streams { LiveStream(x, y, dxy, dyx, sid); }
      FinLogs(x, c, sid, id);
    case PWin(sid, delta) =>
      if sid in x.streams {
        LiveStream(x, y, dxy, dyx, sid);
        LiveNotOpening(x, sid);
      }
      WinLogs(x, c, sid, delta, id);
    case _ => OtherLogs(x, c, p, id);
  }

  lemma LiveNotOpening(x: Conn, sid: u32)
    requires TableInv(x) && sid in x.streams
    ensures sid !in x.opening
  {
  }

  // ---------------------------------------------------------------------------------------------
  // Moves.

  lemma SegmentLogs(x: Conn, c: Conn, sid: u32, data: seq<byte>, id: u32)
    requires ReadOn(x, c) && data != [] && sid in x.streams && sid !in x.opening && ValidStream(x.streams[sid])
    requires OnData(x.streams[sid], data).1.KeepStream?
    ensures var t, got := ProcessSegment(c, data, sid, false, false),
            YamuxStreamRuns.GotOf(OnData(x.streams[sid], data).0.acts);
            if id == sid then Logs(x, t, id, got, []) else SameLogs(x, t, id)
  {
    hide Apply, ValidStream, OnData;
    var u := x.streams[sid];
    var e := OnData(u, data).0;
    var ev := YamuxStreamRuns.DataIn(data);
    YamuxStreamRuns.StepReported(u, ev);
    YamuxStreamRuns.StepAccepts(u, ev);
    assert u.delivered + [] == u.delivered && u.accepted + [] == u.accepted;
    ApplyLogs(c, sid, e, YamuxStreamRuns.GotOf(e.acts), [], id);
  }

  lemma TurnLogs(x: Conn, y: Conn, dxy: seq<Packet>, dyx: seq<Packet>, id: u32)
    requires Inv(x, y, dxy, dyx) && Enabled(x, y, Turn)
    ensures Logs(x, ReadStep(x), id, ToldBy(x, y, Turn, id), [])
  {
    if x.reader.unread == 0 && |x.reader.header + x.chunk| >= HEADER_LENGTH {
      HeaderLogs(x, y, dxy, dyx, id);
    } else if x.reader.unread > 0 && x.reader.sid != 0 {
      DataLogs(x, y, dxy, dyx, id);
    } else {
      IdleLogs(x, y, id);
    }
  }

  lemma IdleLogs(x: Conn, y: Conn, id: u32)
    requires Enabled(x, y, Turn)
    requires x.reader.unread == 0 ==> |x.reader.header + x.chunk| < HEADER_LENGTH
    requires x.reader.unread > 0 ==> x.reader.sid == 0
    ensures Logs(x, ReadStep(x), id, ToldBy(x, y, Turn, id), [])
  {
    hide ProcessHeader, ProcessSegment, CloseConn, YamuxStreamRuns.Step;
    NothingLogged(x, ReadStep(x), id);
  }

  lemma HeaderLogs(x: Conn, y: Conn, dxy: seq<Packet>, dyx: seq<Packet>, id: u32)
    requires Inv(x, y, dxy, dyx) && Enabled(x, y, Turn)
    requires x.reader.unread == 0 && |x.reader.header + x.chunk| >= HEADER_LENGTH
    ensures Logs(x, ReadStep(x), id, ToldBy(x, y, Turn, id), [])
  {
    hide ProcessHeader, ProcessSegment, CloseConn, PairInv, WireBytes, PacketBytes, Handled, YamuxStreamRuns.Step, Logs;
    TurnHeader(x.reader, x.chunk, y.out, dyx);
    var c, p := AfterTurn(x), dyx[0];
    HeaderHandled(c, p);
    HandledLogs(x, c, y, dxy, dyx, p, id);
    NothingLogged(x, ReadStep(x), id);
  }

  lemma DataLogs(x: Conn, y: Conn, dxy: seq<Packet>, dyx: seq<Packet>, id: u32)
    requires Inv(x, y, dxy, dyx) && Enabled(x, y, Turn) && x.reader.unread > 0 && x.reader.sid != 0
    ensures Logs(x, ReadStep(x), id, ToldBy(x, y, Turn, id), [])
  {
    hide Inv, PairInv, WireBytes, PacketBytes, CloseConn, ProcessHeader, ProcessSegment, Logs, ValidStream, OnData;
    TurnSegmentOf(x, y, dxy, dyx);
    var c, data, sid := AfterTurn(x), NextEvent(x).data, x.reader.sid;
    assert ReadStep(x) == ProcessSegment(c, data, sid, false, false);
    if sid in x.streams {
      SegmentLogs(x, c, sid, data, id);
      if id != sid { NothingLogged(x, ReadStep(x), id); }
    } else {
      DroppedLogs(x, c, sid, data, id);
      NothingLogged(x, ReadStep(x), id);
    }
  }

  lemma DroppedLogs(x: Conn, c: Conn, sid: u32, data: seq<byte>, id: u32)
    requires ReadOn(x, c) && sid !in x.streams
    ensures SameLogs(x, ProcessSegment(c, data, sid, false, false), id)
  {
  }

  /** What a turn inside a data message meets. */
  lemma TurnSegmentOf(x: Conn, y: Conn, dxy: seq<Packet>, dyx: seq<Packet>)
    requires Inv(x, y, dxy, dyx) && Enabled(x, y, Turn) && x.reader.unread > 0 && x.reader.sid != 0
    ensures var ev, sid := NextEvent(x), x.reader.sid;
            && ev.Segment? && ev.data != [] && ev.sid == sid && !ev.rst && !ev.fin
            && (sid in x.streams ==>
                  && sid !in x.opening && ValidStream(x.streams[sid]) && x.streams[sid].closeReason.None?
                  && OnData(x.streams[sid], ev.data).1.KeepStream?)
  {
    hide PairInv, WireBytes, PacketBytes, OnData, ValidStream;
    TurnSegment(x.reader, x.chunk, y.out, dyx);
    var sid, n := x.reader.sid, Min(x.reader.unread, |x.chunk|);
    if sid in x.streams {
      LiveStream(x, y, dxy, dyx, sid);
      var sent := DataArrives(x, AfterTurn(x), y, dxy, dyx, sid, n);
    }
  }

  lemma CallLogs(x: Conn, y: Conn, sid: u32, ev: YamuxStreamRuns.Event, id: u32)
    requires TableInv(x) && Enabled(x, y, Call(sid, ev))
    ensures var m := Call(sid, ev); Logs(x, Act(x, y, m).0, id, ToldBy(x, y, m, id), TakenBy(x, y, m, id))
  {
    hide Apply, ValidStream, YamuxStreamRuns.Step;
    LiveNotOpening(x, sid);
    var u := x.streams[sid];
    var e := YamuxStreamRuns.Step(u, ev);
    YamuxStreamRuns.StepReported(u, ev);
    YamuxStreamRuns.StepAccepts(u, ev);
    YamuxStreamRuns.StepSettles(u, ev);
    assert u.delivered + [] == u.delivered && u.accepted + [] == u.accepted;
    var taken := if YamuxStreamRuns.Accepts(u, ev) then ev.data else [];
    ApplyLogs(x, sid, e, YamuxStreamRuns.GotOf(e.acts), taken, id);
    if id != sid { NothingLogged(x, Apply(x, sid, e), id); }
  }

  lemma WriteLogs(x: Conn, y: Conn, dxy: seq<Packet>, dyx: seq<Packet>, id: u32)
    requires Inv(x, y, dxy, dyx) && x.writing.Busy?
    ensures SameLogs(x, WriteDone(x), id)
  {
    hide Inv, Apply, ValidStream, PacketBytes, TableInv;
    WriterOf(x, y, dxy, dyx);
    var p := x.writing.packet;
    var c := Acknowledge(x, p);
    LogsItself(x, id);
    if p.PData? && p.sid in x.streams {
      LiveStream(x, y, dxy, dyx, p.sid);
      LiveNotOpening(x, p.sid);
      QuietLogs(x, p.sid, YamuxStreamRuns.Written(|p.data|), id);
    }
    AdvanceLogs(c, id);
    LogsTrans(x, c, Advance(c), id);
  }

  lemma AdvanceLogs(c: Conn, id: u32)
    ensures SameLogs(c, Advance(c), id)
  {
    hide PacketBytes;
  }

  lemma PlainLogs(x: Conn, y: Conn, dxy: seq<Packet>, dyx: seq<Packet>, m: Move, id: u32)
    requires Inv(x, y, dxy, dyx) && Enabled(x, y, m) && !m.Call? && !m.Turn? && !m.WriteOk?
    ensures SameLogs(x, Act(x, y, m).0, id)
  {
    hide Inv, TableInv, SendPacket, CloseConn, Erase, Open;
    WriterOf(x, y, dxy, dyx);
    LogsItself(x, id);
    match m
    case Dial(wait) => OpenLogs(x, wait, id);
    case StaleReset(sid) =>
      PastNotOpening(x, sid);
      SendEraseLogs(x, PRst(sid), sid, id);
    case Drop(sid) =>
      LiveNotOpening(x, sid);
      SendEraseLogs(x, PRst(sid), sid, id);
    case Ping(v) => SendLogs(x, PPing(v), id);
    case Shutdown(reply) => CloseLogs(x, reply, id);
    case WriteError => FailureLogs(x, id);
    case Receive(n) => ReadOnLogs(x, x.(chunk := y.out[..n]), x.(chunk := y.out[..n]), id);
  }

  lemma OpenLogs(x: Conn, wait: bool, id: u32)
    requires TableInv(x) && (x.writing.Idle? ==> x.queue == []) && x.newId + 2 < 0x1_0000_0000
    ensures SameLogs(x, Open(x, wait), id)
  {
    hide Open, TableInv;
    OpenOutcome(x, wait);
  }

  lemma PastNotOpening(x: Conn, sid: u32)
    requires TableInv(x) && sid in x.past
    ensures sid !in x.opening
  {
  }

  lemma FailureLogs(x: Conn, id: u32)
    requires TableInv(x) && x.writing.Busy?
    ensures SameLogs(x, WriteFailed(x), id)
  {
    hide CloseConn;
    CloseLogs(x.(writing := Stuck, queue := [], dropped := x.dropped + x.queue, linkClosed := true), None, id);
  }

  lemma FarLogs(x: Conn, y: Conn, m: Move, id: u32)
    requires Enabled(x, y, m)
    ensures SameLogs(y, Act(x, y, m).1, id)
  {
    hide Open, Apply, Erase, Abandon, SendPacket, CloseConn, WriteDone, WriteFailed, ReadStep;
  }

  lemma MoveLogs(x: Conn, y: Conn, dxy: seq<Packet>, dyx: seq<Packet>, m: Move, id: u32)
    requires Inv(x, y, dxy, dyx) && Enabled(x, y, m)
    ensures Logs(x, Act(x, y, m).0, id, ToldBy(x, y, m, id), TakenBy(x, y, m, id))
    ensures SameLogs(y, Act(x, y, m).1, id)
  {
    hide Inv, Logs, SameLogs, ToldBy, TakenBy, TableInv;
    FarLogs(x, y, m, id);
    WriterOf(x, y, dxy, dyx);
    match m
    case Call(sid, ev) => CallLogs(x, y, sid, ev, id);
    case Turn =>
      TurnLogs(x, y, dxy, dyx, id);
      QuietMove(x, y, m, id);
    case WriteOk =>
      WriteLogs(x, y, dxy, dyx, id);
      QuietMove(x, y, m, id);
      NothingLogged(x, WriteDone(x), id);
    case _ =>
      PlainLogs(x, y, dxy, dyx, m, id);
      QuietMove(x, y, m, id);
      NothingLogged(x, Act(x, y, m).0, id);
  }

  lemma QuietMove(x: Conn, y: Conn, m: Move, id: u32)
    requires Enabled(x, y, m) && !m.Call?
    ensures TakenBy(x, y, m, id) == [] && (!m.Turn? ==> ToldBy(x, y, m, id) == [])
  {
    hide YamuxStreamRuns.Step, ValidStream;
  }

  /** What the reader that waits takes of data for its stream. */
  function TakenNow(u: Stream, data: seq<byte>): nat {
    if u.reading.Some? then Min(u.reading.value.size, |data|) else 0
  }

  /**
   * The answer to data: a stream of the table gets it, and if a reader takes some of it that much window is granted
   * again; for any other stream it is thrown away without an answer.
   */
  predicate DataAnswer(x: Conn, t: Conn, id: u32, data: seq<byte>) {
    && t.started && OnlyAt(x, t, id)
    && (match EndOf(x, id)
        case Live(u) =>
          var n := TakenNow(u, data);
          && Adds(x, t, if n > 0 then [PWin(id, ToU32(n))] else [])
          && EndOf(t, id)
          == Live(u.(reading := None, delivered := u.delivered + data[..n], buffered := u.buffered + data[n..]))
        case e => Adds(x, t, []) && EndOf(t, id) == e)
  }

  lemma DataEffect(u: Stream, data: seq<byte>)
    requires ValidStream(u) && u.closeReason.None? && data != [] && OnData(u, data).1.KeepStream?
    ensures var n, e := TakenNow(u, data), OnData(u, data).0;
            && e.s == u.(reading := None, delivered := u.delivered + data[..n], buffered := u.buffered + data[n..])
            && (if n > 0 then e.acts != [] && e.acts[0] == SendWindow(n) && Quiet(e.acts[1..]) else Quiet(e.acts))
  {
    hide ValidQueue, Unsent, DoClose;
    var n, all := TakenNow(u, data), u.buffered + data;
    if u.reading.Some? {
      assert all == data && [] + data[n..] == data[n..];
    } else {
      assert all[..0] == [] && all[0..] == all && data[0..] == data && data[..0] == [];
    }
  }

  lemma DataHandled(x: Conn, c: Conn, id: u32, data: seq<byte>)
    requires ReadOn(x, c) && x.started && data != [] && (x.writing.Idle? ==> x.queue == [])
    requires id in x.streams ==>
               && id !in x.opening && ValidStream(x.streams[id]) && x.streams[id].closeReason.None?
               && OnData(x.streams[id], data).1.KeepStream?
    ensures DataAnswer(x, ProcessSegment(c, data, id, false, false), id, data)
  {
    hide ValidStream, OnData, PerformAll, SendPacket;
    assert Unacked(x) + [] == Unacked(x);
    if id in x.streams {
      var u := x.streams[id];
      var n, e := TakenNow(u, data), OnData(u, data).0;
      DataEffect(u, data);
      var c1 := c.(streams := c.streams[id := e.s]);
      if n > 0 {
        GrantPerformed(c1, id, n, e.acts);
        SendAdds(c1, PWin(id, ToU32(n)));
        SendKeepsTables(c1, PWin(id, ToU32(n)));
      } else {
        YamuxWriter.QuietPerform(c1, id, e.acts);
      }
    }
  }

  lemma GrantPerformed(c: Conn, id: u32, n: nat, acts: seq<Action>)
    requires acts != [] && acts[0] == SendWindow(n) && Quiet(acts[1..])
    ensures PerformAll(c, id, acts) == SendPacket(c, PWin(id, ToU32(n)))
  {
    hide SendPacket;
    YamuxWriter.QuietPerform(Perform(c, id, acts[0]), id, acts[1..]);
  }

  lemma DataExactly(s: System, left: bool)
    requires Reachable(s) && Near(s, left).started && Near(s, left).chunk != []
    requires YamuxReader.ValidReader(Near(s, left).reader) && Near(s, left).reader.Reader?
    requires NextEvent(Near(s, left)).Segment?
    ensures var x := Near(s, left); DataAnswer(x, ReadStep(x), NextEvent(x).sid, NextEvent(x).data)
  {
    hide Inv, DataAnswer, ValidStream, OnData, ProcessSegment;
    var x, y := Near(s, left), Far(s, left);
    var dxy, dyx := ReachableInv(s, left);
    TurnSegmentOf(x, y, dxy, dyx);
    WriterOf(x, y, dxy, dyx);
    DataHandled(x, AfterTurn(x), x.reader.sid, NextEvent(x).data);
  }

  // ---------------------------------------------------------------------------------------------
  // Runs.

  lemma StepLogs(s: System, l: Label, left: bool, id: u32)
    requires Good(s) && CanStep(s, l)
    ensures var told := if l.left == left then ToldBy(Near(s, left), Far(s, left), l.move, id) else [];
            var taken := if l.left == left then TakenBy(Near(s, left), Far(s, left), l.move, id) else [];
            Logs(Near(s, left), Near(Next(s, l), left), id, told, taken)
  {
    hide Inv, ToldBy, TakenBy, Act, Logs, SameLogs;
    var x, y := if l.left then s.a else s.b, if l.left then s.b else s.a;
    var dxy, dyx := GoodSide(s, l.left);
    MoveLogs(x, y, dxy, dyx, l.move, id);
    if l.left != left { NothingLogged(Near(s, left), Near(Next(s, l), left), id); }
  }

  lemma GoodSide(s: System, left: bool) returns (dxy: seq<Packet>, dyx: seq<Packet>)
    requires Good(s)
    ensures Inv(Near(s, left), Far(s, left), dxy, dyx)
  {
    hide Inv;
    var p, q :| Inv(s.a, s.b, p, q);
    if left {
      dxy, dyx := p, q;
    } else {
      SwapSides(s.a, s.b, p, q);
      dxy, dyx := q, p;
    }
  }

  lemma {:induction false} RunLogs(s: System, ls: seq<Label>, left: bool, id: u32)
    requires Good(s) && IsRun(s, ls)
    ensures Logs(Near(s, left), Near(Final(s, ls), left), id, Told(s, ls, left, id), Took(s, ls, left, id))
    decreases |ls|
  {
    hide Good, Enabled, Act, ToldBy, TakenBy, SameLogs, Delivered, Accepted;
    if ls == [] {
      assert SameLogs(Near(s, left), Near(s, left), id) by { LogsItself(Near(s, left), id); }
      NothingLogged(Near(s, left), Near(s, left), id);
    } else {
      StepLogs(s, ls[0], left, id);
      StepGood(s, ls[0]);
      RunLogs(Next(s, ls[0]), ls[1..], left, id);
      var told := if ls[0].left == left then ToldBy(Near(s, left), Far(s, left), ls[0].move, id) else [];
      var taken := if ls[0].left == left then TakenBy(Near(s, left), Far(s, left), ls[0].move, id) else [];
      Assoc(Delivered(Near(s, left), id), told, Told(Next(s, ls[0]), ls[1..], left, id));
      Assoc(Accepted(Near(s, left), id), taken, Took(Next(s, ls[0]), ls[1..], left, id));
    }
  }

  /** In every run the records of a stream are exactly what its application was told and what was taken from it. */
  lemma RecordsAreTrue(ca: Config, cb: Config, ha: bool, hb: bool, ls: seq<Label>, left: bool, id: u32)
    requires ValidConfig(ca) && ValidConfig(cb) && IsRun(Start(ca, cb, ha, hb), ls)
    ensures var s, e := Start(ca, cb, ha, hb), Near(Final(Start(ca, cb, ha, hb), ls), left);
            Delivered(e, id) == Told(s, ls, left, id) && Accepted(e, id) == Took(s, ls, left, id)
  {
    hide IsRun, Final, Told, Took, Good;
    var s := Start(ca, cb, ha, hb);
    StartGood(ca, cb, ha, hb);
    RunLogs(s, ls, left, id);
    assert Delivered(Near(s, left), id) == [] && Accepted(Near(s, left), id) == [];
    assert [] + Told(s, ls, left, id) == Told(s, ls, left, id) && [] + Took(s, ls, left, id) == Took(s, ls, left, id);
  }

  /**
   * In order, without loss inside, duplication or mix-up: in every run, what the reads of one side are told about a
   * stream is a prefix of what the writes of the other side that were not refused gave it.
   */
  lemma ToldInOrder(ca: Config, cb: Config, ha: bool, hb: bool, ls: seq<Label>, left: bool, id: u32)
    requires ValidConfig(ca) && ValidConfig(cb) && IsRun(Start(ca, cb, ha, hb), ls)
    ensures var s := Start(ca, cb, ha, hb); Told(s, ls, left, id) <= Took(s, ls, !left, id)
  {
    hide IsRun, Final, Told, Took, Start, Delivered, Accepted;
    var e := Final(Start(ca, cb, ha, hb), ls);
    RecordsAreTrue(ca, cb, ha, hb, ls, left, id);
    RecordsAreTrue(ca, cb, ha, hb, ls, !left, id);
    assert Reachable(e);
    DeliveredInOrder(e, left, id);
  }

  /** Once the peer's FIN has come, a stream still in the table has told, or holds, all the peer's writes gave it. */
  lemma ToldAllAfterFin(ca: Config, cb: Config, ha: bool, hb: bool, ls: seq<Label>, left: bool, id: u32)
    requires ValidConfig(ca) && ValidConfig(cb) && IsRun(Start(ca, cb, ha, hb), ls)
    requires var x := Near(Final(Start(ca, cb, ha, hb), ls), left); id in x.streams && !x.streams[id].readable
    ensures var s, x := Start(ca, cb, ha, hb), Near(Final(Start(ca, cb, ha, hb), ls), left);
            Told(s, ls, left, id) + x.streams[id].buffered == Took(s, ls, !left, id)
  {
    hide IsRun, Final, Told, Took, Start;
    var e := Final(Start(ca, cb, ha, hb), ls);
    RecordsAreTrue(ca, cb, ha, hb, ls, left, id);
    RecordsAreTrue(ca, cb, ha, hb, ls, !left, id);
    assert Reachable(e);
    CompleteAfterFin(e, left, id);
  }
}
