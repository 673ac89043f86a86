/**
 * Runs of a pair of conforming connections, for every configuration, that end where the documentation does not lead
 * one to expect: the connection is closed with a protocol error over a late ACK, a byte that was sent before a clean
 * FIN is dropped unread, and a byte that waits for the window is never sent though `close` reports success.
 */
module YamuxFindings {
  import opened Basics
  import opened YamuxFrame
  import YamuxReader
  import opened WriteQueues
  import opened YamuxStreamSpec
  import YamuxStreamRuns
  import opened YamuxPair
  import opened YamuxWire
  import opened YamuxConnections
  import YamuxArrivals
  import opened YamuxTurns
  import opened YamuxRuns
  import opened YamuxTheorems

  lemma {:induction false} RunSnoc(s: System, ls: seq<Label>, l: Label)
    requires IsRun(s, ls) && CanStep(Final(s, ls), l)
    ensures IsRun(s, ls + [l]) && Final(s, ls + [l]) == Next(Final(s, ls), l)
    decreases |ls|
  {
    hide CanStep, Next;
    if ls == [] {
      assert [] + [l] == [l] && [l][1..] == [];
    } else {
      assert (ls + [l])[1..] == ls[1..] + [l];
      RunSnoc(Next(s, ls[0]), ls[1..], l);
    }
  }

  lemma ReachableNext(s: System, l: Label)
    requires Reachable(s) && CanStep(s, l)
    ensures Reachable(Next(s, l))
  {
    hide CanStep, Next, IsRun, Final, Start;
    var ca, cb, ha, hb, ls :|
      ValidConfig(ca) && ValidConfig(cb) && IsRun(Start(ca, cb, ha, hb), ls) && Final(Start(ca, cb, ha, hb), ls) == s;
    RunSnoc(Start(ca, cb, ha, hb), ls, l);
  }

  lemma ReachableStart(ca: Config, cb: Config, ha: bool, hb: bool)
    requires ValidConfig(ca) && ValidConfig(cb)
    ensures Reachable(Start(ca, cb, ha, hb))
  {
    hide Start;
    var s := Start(ca, cb, ha, hb);
    assert IsRun(s, []) && Final(s, []) == s;
  }

  // ---------------------------------------------------------------------------------------------
  // The left side opens stream 1, the right side accepts it.

  function NewFor(c: Config): Stream { NewStream(c.maxWindow, QUEUE_LIMIT) }

  function Caller(ca: Config): Conn {
    NewConn(ca, true, true).(newId := 3, streams := map[1 := NewFor(ca)], writing := Busy(PSyn(1)))
  }

  function Callee(cb: Config): Conn {
    NewConn(cb, false, true).(streams := map[1 := NewFor(cb)], writing := Busy(PAck(1)), out := PacketBytes(PAck(1)))
  }

  lemma Dialled(ca: Config)
    requires ValidConfig(ca)
    ensures Open(NewConn(ca, true, true), false) == Caller(ca).(out := PacketBytes(PSyn(1)))
  {
    hide PacketBytes, NewStream;
    assert [] + PacketBytes(PSyn(1)) == PacketBytes(PSyn(1));
  }

  /** What the reader makes of the complete image of a packet. */
  lemma HeaderRead(p: Packet, chunk: seq<byte>, rest: seq<byte>)
    requires chunk == PacketBytes(p) + rest && Sendable(p)
    ensures chunk != []
    ensures YamuxReader.ReadTurn(YamuxReader.Fresh, chunk)
         == YamuxReader.Turn(YamuxReader.AfterHeader(HeaderOf(p)), YamuxReader.Header(HeaderOf(p)), Payload(p) + rest)
  {
    hide FlagIsSet, PacketBytes, HeaderOf, ParseFrame, YamuxReader.AfterHeader;
    var header := ImageSplits(p);
    assert chunk == header + (Payload(p) + rest) && [] + chunk == chunk;
    assert chunk[..HEADER_LENGTH] == header && chunk[HEADER_LENGTH..] == Payload(p) + rest;
    HeaderOfSendable(p);
  }

  /** A turn on the complete image of a packet that has no payload. */
  lemma WholeTurn(x: Conn, p: Packet, rest: seq<byte>)
    requires x.reader == YamuxReader.Fresh && x.chunk == PacketBytes(p) + rest && Sendable(p) && !p.PData?
    ensures NextEvent(x) == YamuxReader.Header(HeaderOf(p)) && ReadStep(x) == Handled(x.(chunk := rest), p)
  {
    hide FlagIsSet, PacketBytes, HeaderOf, ParseFrame, ProcessHeader, Handled, YamuxReader.AfterHeader,
      YamuxReader.ReadTurn;
    HeaderRead(p, x.chunk, rest);
    HeaderOfSendable(p);
    assert Payload(p) + rest == rest;
    HeaderHandled(x.(chunk := rest), p);
  }

  lemma Answered(cb: Config, bytes: seq<byte>)
    requires ValidConfig(cb) && bytes == PacketBytes(PSyn(1))
    ensures ReadStep(NewConn(cb, false, true).(chunk := bytes)) == Callee(cb)
  {
    hide PacketBytes, ReadStep, NewStream;
    var x := NewConn(cb, false, true).(chunk := bytes);
    assert bytes + [] == bytes;
    WholeTurn(x, PSyn(1), []);
    assert [] + PacketBytes(PAck(1)) == PacketBytes(PAck(1));
  }

  lemma Opened(ca: Config, cb: Config)
    requires ValidConfig(ca) && ValidConfig(cb)
    ensures Reachable(System(Caller(ca), Callee(cb)))
  {
    hide PacketBytes, ReadStep, Reachable, Open, NewStream;
    var a, b, syn := NewConn(ca, true, true), NewConn(cb, false, true), PacketBytes(PSyn(1));
    ReachableStart(ca, cb, true, true);
    Dialled(ca);
    ReachableNext(System(a, b), Label(true, Dial(false)));
    assert syn[..HEADER_LENGTH] == syn && syn[HEADER_LENGTH..] == [];
    ReachableNext(System(Caller(ca).(out := syn), b), Label(false, Receive(HEADER_LENGTH)));
    Answered(cb, syn);
    ReachableNext(System(Caller(ca), b.(chunk := syn)), Label(false, Turn));
  }

  // ---------------------------------------------------------------------------------------------
  // The late ACK.

  function ResetCaller(ca: Config): Conn {
    Caller(ca).(streams := map[], past := map[1 := NOTHING], queue := [PRst(1)])
  }

  lemma NewIsValid(c: Config)
    requires ValidConfig(c)
    ensures ValidStream(NewFor(c)) && NewFor(c).closeReason.None?
  {
  }

  lemma CallerResets(ca: Config)
    requires ValidConfig(ca)
    ensures Apply(Caller(ca), 1, Reset(NewFor(ca))) == ResetCaller(ca)
  {
    hide PacketBytes;
    var e := Reset(NewFor(ca));
    assert e.acts == [SendRst] && e.acts[1..] == [];
    assert RecordOf(e.s) == NOTHING && [] + [PRst(1)] == [PRst(1)];
    var c := Caller(ca).(streams := Caller(ca).streams[1 := e.s]);
    assert PerformAll(c, 1, e.acts) == Perform(c, 1, SendRst);
    assert c.streams - {1} == map[] && c.past[1 := NOTHING] == map[1 := NOTHING];
  }

  /** An application resets a stream it has just opened; the peer's ACK then ends the whole connection. */
  lemma LateAckEndsConnection(ca: Config, cb: Config) returns (s: System)
    requires ValidConfig(ca) && ValidConfig(cb)
    ensures Reachable(s) && s.a.started && s.a.chunk != [] && s.b.started && 1 in s.b.streams
    ensures YamuxReader.ValidReader(s.a.reader) && s.a.reader.Reader? &&
            NextEvent(s.a) == YamuxReader.Header(HeaderOf(PAck(1)))
    ensures 1 in s.a.past && !ReadStep(s.a).started && PGoAway(GO_AWAY_PROTOCOL_ERROR) in ReadStep(s.a).queue
  {
    hide PacketBytes, ReadStep, Reachable, NewStream, Apply, Reset, ValidStream, Records;
    var ack := PacketBytes(PAck(1));
    Opened(ca, cb);
    NewIsValid(ca);
    CallerResets(ca);
    ReachableNext(System(Caller(ca), Callee(cb)), Label(true, Call(1, YamuxStreamRuns.ResetIt)));
    assert ack[..HEADER_LENGTH] == ack && ack[HEADER_LENGTH..] == [] && ack + [] == ack;
    ReachableNext(System(ResetCaller(ca), Callee(cb)), Label(true, Receive(HEADER_LENGTH)));
    s := System(ResetCaller(ca).(chunk := ack), Callee(cb).(out := []));
    WholeTurn(s.a, PAck(1), []);
  }

  // ---------------------------------------------------------------------------------------------
  // The lost byte.

  /** The stream of the left side after writing one byte, and after `close()`. */
  function Wrote(c: Config, b: byte): Stream {
    NewFor(c).(queue := Queue([Item([b], 0)], 0, 1, QUEUE_LIMIT), window := INITIAL_WINDOW - 1, accepted := [b],
      sent := [b])
  }

  /** A stream after `close()`: its FIN is on the way. */
  function HalfClosed(s: Stream): Stream { s.(writable := false, finSent := true, peersWindow := s.maxWindow) }

  lemma WritesByte(c: Config, b: byte)
    requires ValidConfig(c)
    ensures ValidStream(NewFor(c)) && Write(NewFor(c), [b], 0) == Effect(Wrote(c, b), [SendData([b])])
  {
    NewIsValid(c);
    var q := Enqueue(NewFor(c).queue, [b], 0);
    assert q.items == [Item([b], 0)] && Bytes(q.items[1..]) == [] && Bytes(q.items) == [b];
    assert Unsent(q) == [b] && Chunk(q, INITIAL_WINDOW) == [b];
    var q1 := Dequeue(q, INITIAL_WINDOW);
    assert Pump(q1, INITIAL_WINDOW - 1) == Pumped(q1, INITIAL_WINDOW - 1, []);
    assert Pump(q, INITIAL_WINDOW) == Pumped(q1, INITIAL_WINDOW - 1, [[b]]);
    assert [[b]][1..] == [] && Concat([[b]]) == [b] && SendAll([[b]]) == [SendData([b])];
    assert [] + [b] == [b];
  }

  lemma ClosesAtOnce(s: Stream)
    requires ValidStream(s) && s.closeReason.None? && s.writable && s.readable && s.window > 0 && !s.finSent &&
             s.closeCb.None?
    ensures Close(s, None) == Effect(HalfClosed(s), [SendFin(false)])
  {
    hide ValidQueue, Unsent;
    assert Unsent(s.queue) == [];
    assert Pump(s.queue, s.window) == Pumped(s.queue, s.window, []);
    assert s.sent + [] == s.sent;
  }

  function Sender(ca: Config, b: byte): Conn {
    Caller(ca).(streams := map[1 := Wrote(ca, b)], writing := Busy(PData(1, [b])), out := PacketBytes(PData(1, [b])))
  }

  function Closer(ca: Config, b: byte): Conn {
    Sender(ca, b).(streams := map[1 := HalfClosed(Wrote(ca, b))], queue := [PFin(1)])
  }

  /** The byte and the FIN are on the link. */
  function Finished(ca: Config, b: byte): Conn {
    Closer(ca, b).(streams := map[1 := HalfClosed(Wrote(ca, b)).(queue := EmptyQueue(QUEUE_LIMIT))], queue := [],
                   writing := Busy(PFin(1)), out := PacketBytes(PData(1, [b])) + PacketBytes(PFin(1)))
  }

  lemma OnePerformed(c: Conn, a: Action)
    ensures PerformAll(c, 1, [a]) == Perform(c, 1, a)
  {
    hide Perform;
    assert [a][1..] == [];
  }

  lemma SenderSends(ca: Config, b: byte)
    requires ValidConfig(ca)
    ensures ValidStream(NewFor(ca))
    ensures Apply(Caller(ca).(writing := Idle), 1, Write(NewFor(ca), [b], 0)) == Sender(ca, b)
  {
    hide PacketBytes, Write, ValidStream;
    WritesByte(ca, b);
    var c := Caller(ca).(writing := Idle, streams := map[1 := Wrote(ca, b)]);
    assert Caller(ca).streams[1 := Wrote(ca, b)] == c.streams;
    OnePerformed(c, SendData([b]));
    assert [] + PacketBytes(PData(1, [b])) == PacketBytes(PData(1, [b]));
  }

  lemma WroteIsValid(ca: Config, b: byte)
    requires ValidConfig(ca)
    ensures ValidStream(Wrote(ca, b)) && ValidStream(HalfClosed(Wrote(ca, b)))
  {
    var q := Wrote(ca, b).queue;
    assert Bytes(q.items[1..]) == [] && Bytes(q.items) == [b];
    assert Unsent(q) == [] && [b] + [] == [b];
  }

  lemma SenderCloses(ca: Config, b: byte)
    requires ValidConfig(ca)
    ensures ValidStream(Wrote(ca, b)) && Apply(Sender(ca, b), 1, Close(Wrote(ca, b), None)) == Closer(ca, b)
  {
    hide PacketBytes, Close, ValidStream;
    WroteIsValid(ca, b);
    ClosesAtOnce(Wrote(ca, b));
    var c := Sender(ca, b).(streams := map[1 := HalfClosed(Wrote(ca, b))]);
    assert Sender(ca, b).streams[1 := HalfClosed(Wrote(ca, b))] == c.streams;
    OnePerformed(c, SendFin(false));
    assert [] + [PFin(1)] == [PFin(1)];
  }

  lemma SenderWritten(ca: Config, b: byte)
    requires ValidConfig(ca)
    ensures WriteDone(Closer(ca, b)) == Finished(ca, b)
  {
    hide PacketBytes, ValidStream;
    WroteIsValid(ca, b);
    var s := HalfClosed(Wrote(ca, b));
    var e := OnWritten(s, 1);
    assert s.queue.items[1..] == [] &&
      e == Effect(s.(queue := EmptyQueue(QUEUE_LIMIT)), [WriteCall(0, Some(1), None, false)]);
    var c := Closer(ca, b);
    assert c.streams[1 := e.s] == map[1 := e.s];
    OnePerformed(c.(streams := map[1 := e.s]), e.acts[0]);
    assert Acknowledge(c, PData(1, [b])) == c.(streams := map[1 := e.s]);
    assert [PFin(1)][1..] == [];
  }

  /** The right side has closed its direction; its FIN waits behind the ACK. */
  function Deaf(cb: Config): Conn {
    Callee(cb).(streams := map[1 := HalfClosed(NewFor(cb))], queue := [PFin(1)])
  }

  lemma CalleeCloses(cb: Config)
    requires ValidConfig(cb)
    ensures ValidStream(NewFor(cb)) && Apply(Callee(cb), 1, Close(NewFor(cb), None)) == Deaf(cb)
  {
    hide PacketBytes, Close, ValidStream;
    NewIsValid(cb);
    ClosesAtOnce(NewFor(cb));
    var c := Callee(cb).(streams := map[1 := HalfClosed(NewFor(cb))]);
    assert Callee(cb).streams[1 := HalfClosed(NewFor(cb))] == c.streams;
    OnePerformed(c, SendFin(false));
    assert [] + [PFin(1)] == [PFin(1)];
  }

  lemma DataHeaderTurn(x: Conn, p: Packet, rest: seq<byte>)
    requires x.reader == YamuxReader.Fresh && x.chunk == PacketBytes(p) + rest && Sendable(p) && p.PData?
    ensures ReadStep(x) == x.(reader := YamuxReader.Reader([], |p.data|, p.sid, false, false), chunk := p.data + rest)
  {
    hide FlagIsSet, PacketBytes, HeaderOf, ParseFrame, ProcessHeader, YamuxReader.AfterHeader, YamuxReader.ReadTurn;
    HeaderRead(p, x.chunk, rest);
    HeaderOfSendable(p);
    HeaderHandled(x.(reader := YamuxReader.AfterHeader(HeaderOf(p)), chunk := p.data + rest), p);
  }

  /** The byte has arrived and was not read, and the FIN is next. */
  function Unread(cb: Config, b: byte): Conn {
    Deaf(cb).(streams := map[1 := HalfClosed(NewFor(cb)).(buffered := [b])], chunk := PacketBytes(PFin(1)))
  }

  lemma ByteBuffered(cb: Config, b: byte)
    requires ValidConfig(cb)
    ensures OnData(HalfClosed(NewFor(cb)), [b]) == (Effect(HalfClosed(NewFor(cb)).(buffered := [b]), []), KeepStream)
  {
    var s, none: seq<byte> := HalfClosed(NewFor(cb)), [];
    assert none + [b] == [b] && [b][..0] == [] && [b][0..] == [b] && none + none == none;
    assert OnData(s, [b]).0.s == s.(buffered := [b]);
    assert OnData(s, [b]).0.acts == [];
  }

  lemma ByteArrives(cb: Config, b: byte, fin: seq<byte>)
    requires ValidConfig(cb) && fin == PacketBytes(PFin(1))
    ensures ReadStep(Deaf(cb).(reader := YamuxReader.Reader([], 1, 1, false, false), chunk := [b] + fin)) ==
            Unread(cb, b)
  {
    hide PacketBytes, OnData, NewStream;
    var x := Deaf(cb).(reader := YamuxReader.Reader([], 1, 1, false, false), chunk := [b] + fin);
    assert x.chunk[..1] == [b] && x.chunk[1..] == fin;
    ByteBuffered(cb, b);
    var c := Deaf(cb).(chunk := fin);
    assert c.streams[1 := HalfClosed(NewFor(cb)).(buffered := [b])] == Unread(cb, b).streams;
    assert YamuxReader.ReadTurn(x.reader, x.chunk) ==
      YamuxReader.Turn(YamuxReader.Fresh, YamuxReader.Segment([b], 1, false, false), fin);
  }

  /** The left side's part of the run. */
  lemma SenderRun(ca: Config, cb: Config, b: byte)
    requires ValidConfig(ca) && ValidConfig(cb)
    ensures Reachable(System(Finished(ca, b), Callee(cb)))
  {
    hide PacketBytes, Reachable, NewStream, Apply, Write, Close, ValidStream, WriteDone, ReadStep;
    Opened(ca, cb);
    NewIsValid(ca);
    CallerWritten(ca);
    ReachableNext(System(Caller(ca), Callee(cb)), Label(true, WriteOk));
    SenderSends(ca, b);
    ReachableNext(System(Caller(ca).(writing := Idle), Callee(cb)),
      Label(true, Call(1, YamuxStreamRuns.WriteSome([b], 0))));
    SenderCloses(ca, b);
    ReachableNext(System(Sender(ca, b), Callee(cb)), Label(true, Call(1, YamuxStreamRuns.CloseIt(None))));
    SenderWritten(ca, b);
    ReachableNext(System(Closer(ca, b), Callee(cb)), Label(true, WriteOk));
  }

  lemma CallerWritten(ca: Config)
    ensures WriteDone(Caller(ca)) == Caller(ca).(writing := Idle)
  {
    hide PacketBytes, NewStream;
  }

  /** The right side's part of the run: it closes, and then gets all the bytes in one read. */
  lemma ReceiverCloses(ca: Config, cb: Config, b: byte)
    requires ValidConfig(ca) && ValidConfig(cb)
    ensures Reachable(System(Finished(ca, b).(out := []), Deaf(cb).(chunk := Finished(ca, b).out)))
  {
    hide PacketBytes, Reachable, NewStream, Apply, Close, ValidStream, ReadStep, HalfClosed;
    var a := Finished(ca, b);
    SenderRun(ca, cb, b);
    CalleeCloses(cb);
    ReachableNext(System(a, Callee(cb)), Label(false, Call(1, YamuxStreamRuns.CloseIt(None))));
    assert a.out[..|a.out|] == a.out && a.out[|a.out|..] == [];
    ReachableNext(System(a, Deaf(cb)), Label(false, Receive(|a.out|)));
  }

  lemma TurnReachable(a: Conn, y: Conn, y': Conn)
    requires Reachable(System(a, y)) && y.started && y.chunk != [] && YamuxReader.ValidReader(y.reader) &&
             y.reader.Reader?
    requires ReadStep(y) == y'
    ensures Reachable(System(a, y'))
  {
    hide Reachable, ReadStep;
    ReachableNext(System(a, y), Label(false, Turn));
  }

  lemma ReceiverReads(ca: Config, cb: Config, b: byte)
    requires ValidConfig(ca) && ValidConfig(cb)
    ensures Reachable(System(Finished(ca, b).(out := []), Unread(cb, b)))
  {
    hide PacketBytes, Reachable, NewStream, ReadStep, HalfClosed;
    var fin, a, y := PacketBytes(PFin(1)), Finished(ca, b).(out := []), Deaf(cb).(chunk := Finished(ca, b).out);
    ReceiverCloses(ca, cb, b);
    DataHeaderTurn(y, PData(1, [b]), fin);
    var y1 := Deaf(cb).(reader := YamuxReader.Reader([], 1, 1, false, false), chunk := [b] + fin);
    TurnReachable(a, y, y1);
    ByteArrives(cb, b, fin);
    TurnReachable(a, y1, Unread(cb, b));
  }

  /**
   * The left side writes a byte and closes, the right side has closed before it reads. Both FINs are sent, nobody
   * resets anything, and the byte is in nobody's hands: not read, and no longer readable.
   */
  lemma ByteLostAtFin(ca: Config, cb: Config, b: byte) returns (s: System)
    requires ValidConfig(ca) && ValidConfig(cb)
    ensures Reachable(s) && 1 in s.a.streams && s.a.streams[1].finSent && s.a.streams[1].accepted == [b]
    ensures 1 in s.b.past && s.b.past[1].finSent && 1 !in s.b.streams && Held(s.b, 1) == []
  {
    hide PacketBytes, Reachable, NewStream, ReadStep, Handled, HalfClosed, Held;
    var a, y := Finished(ca, b).(out := []), Unread(cb, b);
    ReceiverReads(ca, cb, b);
    assert PacketBytes(PFin(1)) + [] == PacketBytes(PFin(1));
    WholeTurn(y, PFin(1), []);
    s := System(a, Handled(y.(chunk := []), PFin(1)));
    TurnReachable(a, y, s.b);
    UnreadDropped(cb, b);
    FinishedStream(ca, b);
  }

  lemma FinishedStream(ca: Config, b: byte)
    ensures 1 in Finished(ca, b).streams
    ensures var t := Finished(ca, b).streams[1]; t.finSent && t.accepted == [b]
  {
    hide PacketBytes;
  }

  lemma UnreadDropped(cb: Config, b: byte)
    requires ValidConfig(cb)
    ensures var c := Handled(Unread(cb, b).(chunk := []), PFin(1));
            1 in c.past && c.past[1].finSent && 1 !in c.streams && Held(c, 1) == []
  {
    hide PacketBytes, ProcessFin, OnFin;
    var x, t := Unread(cb, b).(chunk := []), HalfClosed(NewFor(cb)).(buffered := [b]);
    var (e, v) := OnFin(t);
    FinCloses(cb, b, t);
    YamuxArrivals.FinTable(x, 1, t, e, v);
  }

  lemma FinCloses(cb: Config, b: byte, t: Stream)
    requires ValidConfig(cb) && t == HalfClosed(NewFor(cb)).(buffered := [b])
    ensures ValidStream(t) && t.closeReason.None? && OnFin(t).1.RemoveStream?
    ensures OnFin(t).0.s.delivered == [] && OnFin(t).0.s.finSent
  {
  }

  // ---------------------------------------------------------------------------------------------
  // The byte that is never sent.

  /** The stream of the left side after writing one byte more than the window takes, and closing. */
  function Stuffed(c: Config, data: seq<byte>): Stream
    requires |data| == INITIAL_WINDOW + 1
  {
    NewFor(c).(queue := Queue([Item(data, 0)], 0, INITIAL_WINDOW, QUEUE_LIMIT), window := 0, accepted := data,
               sent := data[..INITIAL_WINDOW])
  }

  function StuffedClosed(c: Config, data: seq<byte>, cb: Callback): Stream
    requires |data| == INITIAL_WINDOW + 1
  {
    Stuffed(c, data).(writable := false, closeCb := Some(cb))
  }

  lemma StuffedUnsent(c: Config, data: seq<byte>, cb: Callback)
    requires ValidConfig(c) && |data| == INITIAL_WINDOW + 1
    ensures ValidStream(Stuffed(c, data)) && ValidStream(StuffedClosed(c, data, cb))
    ensures Unsent(Stuffed(c, data).queue) == data[INITIAL_WINDOW..]
  {
    var q := Stuffed(c, data).queue;
    assert q.items[1..] == [] && Bytes(q.items[1..]) == [] && Bytes(q.items) == data + [] == data;
    assert data == data[..INITIAL_WINDOW] + data[INITIAL_WINDOW..];
  }

  lemma StuffedWrite(c: Config, data: seq<byte>)
    requires ValidConfig(c) && |data| == INITIAL_WINDOW + 1
    ensures ValidStream(NewFor(c))
    ensures Write(NewFor(c), data, 0) == Effect(Stuffed(c, data), [SendData(data[..INITIAL_WINDOW])])
  {
    hide Bytes;
    NewIsValid(c);
    StuffedUnsent(c, data, 0);
    var q, first := Enqueue(NewFor(c).queue, data, 0), data[..INITIAL_WINDOW];
    EnqueueKeeps(NewFor(c).queue, data, 0);
    assert q.items == [Item(data, 0)] && NewFor(c).queue.items == [];
    FirstChunk(q, data);
    var q1 := Dequeue(q, INITIAL_WINDOW);
    assert q1 == Stuffed(c, data).queue;
    assert Pump(q1, 0) == Pumped(q1, 0, []);
    assert Pump(q, INITIAL_WINDOW) == Pumped(q1, 0, [first]) by { assert [first] + Pump(q1, 0).chunks == [first]; }
    var chunks: seq<seq<byte>> := [first];
    assert chunks[1..] == [] && Concat([first]) == first && SendAll([first]) == [SendData(first)];
    assert [] + first == first && [] + data == data;
  }

  lemma FirstChunk(q: Queue, data: seq<byte>)
    requires q == Queue([Item(data, 0)], 0, 0, QUEUE_LIMIT) && |data| == INITIAL_WINDOW + 1
    ensures ValidQueue(q) && ChunkSize(q, INITIAL_WINDOW) == INITIAL_WINDOW
    ensures Chunk(q, INITIAL_WINDOW) == data[..INITIAL_WINDOW]
  {
    assert q.items[1..] == [] && Bytes(q.items[1..]) == [] && Bytes(q.items) == data + [] == data;
    assert data[0..] == data;
  }

  lemma StuffedCloses(c: Config, data: seq<byte>, done: Callback)
    requires ValidConfig(c) && |data| == INITIAL_WINDOW + 1
    ensures ValidStream(Stuffed(c, data)) &&
            Close(Stuffed(c, data), Some(done)) == Effect(StuffedClosed(c, data, done), [])
  {
    hide ValidQueue, Unsent;
    StuffedUnsent(c, data, done);
    var q := Stuffed(c, data).queue;
    assert Pump(q, 0) == Pumped(q, 0, []);
    assert data[..INITIAL_WINDOW] + [] == data[..INITIAL_WINDOW];
  }

  /** The left side has written and closed while its SYN is still being written. */
  function Waiting(ca: Config, data: seq<byte>): Conn
    requires |data| == INITIAL_WINDOW + 1
  {
    Caller(ca).(streams := map[1 := Stuffed(ca, data)], queue := [PData(1, data[..INITIAL_WINDOW])])
  }

  function WaitingClosed(ca: Config, data: seq<byte>, done: Callback): Conn
    requires |data| == INITIAL_WINDOW + 1
  {
    Waiting(ca, data).(streams := map[1 := StuffedClosed(ca, data, done)])
  }

  lemma CallerWrites(ca: Config, data: seq<byte>)
    requires ValidConfig(ca) && |data| == INITIAL_WINDOW + 1
    ensures ValidStream(NewFor(ca)) && Apply(Caller(ca), 1, Write(NewFor(ca), data, 0)) == Waiting(ca, data)
  {
    hide PacketBytes, Write, ValidStream;
    StuffedWrite(ca, data);
    var c, p := Caller(ca).(streams := map[1 := Stuffed(ca, data)]), PData(1, data[..INITIAL_WINDOW]);
    assert Caller(ca).streams[1 := Stuffed(ca, data)] == c.streams;
    OnePerformed(c, SendData(data[..INITIAL_WINDOW]));
    assert [] + [p] == [p];
  }

  lemma CallerCloses(ca: Config, data: seq<byte>, done: Callback)
    requires ValidConfig(ca) && |data| == INITIAL_WINDOW + 1
    ensures ValidStream(Stuffed(ca, data))
    ensures Apply(Waiting(ca, data), 1, Close(Stuffed(ca, data), Some(done))) == WaitingClosed(ca, data, done)
  {
    hide PacketBytes, Close, ValidStream;
    StuffedCloses(ca, data, done);
    assert Waiting(ca, data).streams[1 := StuffedClosed(ca, data, done)] == WaitingClosed(ca, data, done).streams;
  }

  /** Both the ACK and the FIN of the right side are on the link. */
  function Deafened(cb: Config): Conn {
    Deaf(cb).(queue := [], writing := Busy(PFin(1)), out := PacketBytes(PAck(1)) + PacketBytes(PFin(1)))
  }

  lemma DeafWrites(cb: Config)
    ensures WriteDone(Deaf(cb)) == Deafened(cb)
  {
    hide PacketBytes, NewStream, HalfClosed;
    assert [PFin(1)][1..] == [];
  }

  lemma CalleeRun(ca: Config, cb: Config)
    requires ValidConfig(ca) && ValidConfig(cb)
    ensures Reachable(System(Caller(ca), Deafened(cb)))
  {
    hide PacketBytes, Reachable, NewStream, Apply, Close, ValidStream, WriteDone, HalfClosed;
    Opened(ca, cb);
    CalleeCloses(cb);
    ReachableNext(System(Caller(ca), Callee(cb)), Label(false, Call(1, YamuxStreamRuns.CloseIt(None))));
    DeafWrites(cb);
    ReachableNext(System(Caller(ca), Deaf(cb)), Label(false, WriteOk));
  }

  lemma CallerRun(ca: Config, cb: Config, data: seq<byte>, done: Callback)
    requires ValidConfig(ca) && ValidConfig(cb) && |data| == INITIAL_WINDOW + 1
    ensures Reachable(System(WaitingClosed(ca, data, done).(chunk := Deafened(cb).out), Deafened(cb).(out := [])))
  {
    hide PacketBytes, Reachable, NewStream, Apply, Write, Close, ValidStream, Stuffed, StuffedClosed, Deaf;
    var b := Deafened(cb);
    CalleeRun(ca, cb);
    CallerWrites(ca, data);
    ReachableNext(System(Caller(ca), b), Label(true, Call(1, YamuxStreamRuns.WriteSome(data, 0))));
    CallerCloses(ca, data, done);
    ReachableNext(System(Waiting(ca, data), b), Label(true, Call(1, YamuxStreamRuns.CloseIt(Some(done)))));
    assert b.out[..|b.out|] == b.out && b.out[|b.out|..] == [];
    ReachableNext(System(WaitingClosed(ca, data, done), b), Label(true, Receive(|b.out|)));
  }

  /** The ACK changes nothing: the stream is in the table. */
  lemma AckTaken(ca: Config, cb: Config, data: seq<byte>, done: Callback)
    requires ValidConfig(ca) && ValidConfig(cb) && |data| == INITIAL_WINDOW + 1
    ensures Reachable(System(WaitingClosed(ca, data, done).(chunk := PacketBytes(PFin(1))), Deafened(cb).(out := [])))
  {
    hide PacketBytes, Reachable, NewStream, ReadStep, StuffedClosed, Deaf, NextEvent;
    var x := WaitingClosed(ca, data, done).(chunk := Deafened(cb).out);
    CallerRun(ca, cb, data, done);
    WholeTurn(x, PAck(1), PacketBytes(PFin(1)));
    ReachableNext(System(x, Deafened(cb).(out := [])), Label(true, Turn));
  }

  lemma StuffedFin(c: Config, data: seq<byte>, done: Callback)
    requires ValidConfig(c) && |data| == INITIAL_WINDOW + 1
    ensures var s := StuffedClosed(c, data, done);
            var (e, v) := OnFin(s);
            && ValidStream(s) && s.closeReason.None? && v.RemoveStream? && CloseCall(done, None, false) in e.acts
            && e.s.accepted == data && e.s.sent == data[..INITIAL_WINDOW] && !e.s.finSent
  {
    hide ValidQueue, Unsent;
    StuffedUnsent(c, data, done);
    YamuxStreamRuns.UnsentLostExactly(StuffedClosed(c, data, done), YamuxStreamRuns.FinIn);
  }

  /**
   * The left side writes one byte more than the window takes and calls `close`; the right side has closed too, but
   * still reads. Its FIN arrives: `close` reports success, the last byte and the FIN are never sent, no reset is sent
   * either, and the right side keeps waiting for them.
   */
  lemma ByteNeverSent(ca: Config, cb: Config, data: seq<byte>, done: Callback) returns (s: System)
    requires ValidConfig(ca) && ValidConfig(cb) && |data| == INITIAL_WINDOW + 1
    ensures Reachable(s) && 1 in s.b.streams && s.b.streams[1].readable
    ensures s.a.chunk != [] && YamuxReader.ValidReader(s.a.reader) && s.a.reader.Reader?
    ensures NextEvent(s.a) == YamuxReader.Header(HeaderOf(PFin(1)))
    ensures 1 in s.a.streams && CloseCall(done, None, false) in OnFin(s.a.streams[1]).0.acts
    ensures var c := ReadStep(s.a);
            && c.started && 1 !in c.streams && c.queue == s.a.queue && 1 in c.past
            && c.past[1].accepted == data && c.past[1].sent == data[..INITIAL_WINDOW] && !c.past[1].finSent
  {
    hide PacketBytes, Reachable, NewStream, ReadStep, StuffedClosed, NextEvent, OnFin, ProcessFin, ValidStream;
    s := System(WaitingClosed(ca, data, done).(chunk := PacketBytes(PFin(1))), Deafened(cb).(out := []));
    AckTaken(ca, cb, data, done);
    assert PacketBytes(PFin(1)) + [] == PacketBytes(PFin(1));
    WholeTurn(s.a, PFin(1), []);
    var t := StuffedClosed(ca, data, done);
    StuffedFin(ca, data, done);
    var (e, v) := OnFin(t);
    YamuxArrivals.FinTable(s.a.(chunk := []), 1, t, e, v);
    NewReads(cb);
  }

  lemma NewReads(c: Config)
    ensures HalfClosed(NewFor(c)).readable
  {
  }
}
