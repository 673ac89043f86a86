/**
 * A Yamux connection (src/muxer/yamux/yamuxed_connection.cpp) as functions on values: the stream table, the
 * packet queue towards the link and the processing of incoming frames. Streams are the values of
 * YamuxStreamSpec. `out` holds the bytes handed to the link and not yet read by the peer; `past` and `dropped`
 * are records of streams that left the table and of packets thrown away when the link is closed.
 */
module YamuxConnections {
  import opened Basics
  import opened YamuxFrame
  import opened YamuxReader
  import opened WriteQueues
  import opened YamuxStreamSpec
  import opened YamuxPair

  const QUEUE_LIMIT: nat := 64 * 1024 * 1024

  datatype Config = Config(maxStreams: nat, maxWindow: nat)

  /** `is_writing_`, with the packet whose completion is awaited; `Stuck` after a failed write. */
  datatype Writing = Idle | Busy(packet: Packet) | Stuck

  datatype Conn = Conn(
    cfg: Config,
    started: bool,
    hasHandler: bool,
    newId: u32,
    streams: map<u32, Stream>,
    opening: set<u32>,
    reader: Reader,
    chunk: seq<byte>,
    queue: seq<Packet>,
    writing: Writing,
    closeAfterWrite: bool,
    linkClosed: bool,
    out: seq<byte>,
    past: map<u32, Record>,
    dropped: seq<Packet>)

  const GO_AWAY_PROTOCOL_ERROR: u32 := 1
  const GO_AWAY_INTERNAL_ERROR: u32 := 2

  predicate ValidConfig(cfg: Config) {
    cfg.maxStreams > 0 && INITIAL_WINDOW <= cfg.maxWindow <= QUEUE_LIMIT
  }

  function NewConn(cfg: Config, initiator: bool, hasHandler: bool): Conn {
    Conn(cfg, true, hasHandler, if initiator then 1 else 2, map[], {}, Fresh, [], [], Idle, false, false, [], map[], [])
  }

  /** Same parity: a stream this side opens. */
  predicate IsOutbound(ourId: u32, id: u32) { ourId % 2 == id % 2 }

  // ---------------------------------------------------------------------------------------------
  // Writing packets.

  function DoWrite(c: Conn, p: Packet): Conn {
    if c.linkClosed then c.(writing := Busy(p), dropped := c.dropped + [p])
    else c.(writing := Busy(p), out := c.out + PacketBytes(p))
  }

  function SendPacket(c: Conn, p: Packet): Conn {
    if c.writing.Idle? then DoWrite(c, p) else c.(queue := c.queue + [p])
  }

  function Erase(c: Conn, sid: u32): Conn {
    if sid in c.streams then c.(streams := c.streams - {sid}, past := c.past[sid := RecordOf(c.streams[sid])]) else c
  }

  /** What the connection does for one call of a stream (`YamuxStreamFeedback`). */
  function Perform(c: Conn, sid: u32, a: Action): Conn {
    match a
    case SendData(data) => SendPacket(c, PData(sid, data))
    case SendWindow(delta) => SendPacket(c, PWin(sid, ToU32(delta)))
    case SendRst => Erase(SendPacket(c, PRst(sid)), sid)
    case SendFin(closedForRead) =>
      if sid !in c.streams then c
      else if closedForRead then Erase(SendPacket(c, PFin(sid)), sid) else SendPacket(c, PFin(sid))
    case _ => c
  }

  function PerformAll(c: Conn, sid: u32, acts: seq<Action>): Conn
    decreases |acts|
  {
    if acts == [] then c else PerformAll(Perform(c, sid, acts[0]), sid, acts[1..])
  }

  /** An event on a stream of the table: its new state and the calls it makes. */
  function Apply(c: Conn, sid: u32, e: Effect): Conn {
    PerformAll(c.(streams := c.streams[sid := e.s]), sid, e.acts)
  }

  // ---------------------------------------------------------------------------------------------
  // Closing.

  function Records(c: Conn): map<u32, Record> {
    c.past + (map id | id in c.opening :: NOTHING) + (map id | id in c.streams :: RecordOf(c.streams[id]))
  }

  /** `close(code, reply)`: everything is failed and leaves the tables. */
  function CloseConn(c: Conn, reply: Option<u32>): Conn {
    if !c.started then c
    else
      var c1 := c.(started := false, streams := map[], opening := {}, past := Records(c), closeAfterWrite := true);
      if reply.Some? then SendPacket(c1, PGoAway(reply.value))
      else c1.(queue := [], dropped := c1.dropped + c1.queue, linkClosed := true)
  }

  // ---------------------------------------------------------------------------------------------
  // Incoming frames.

  function ProcessSyn(c: Conn, f: Frame): (Conn, bool) {
    if f.streamId == 0 then
      if f.ty.PING? then (SendPacket(c, PPong(f.length)), true) else (CloseConn(c, Some(GO_AWAY_PROTOCOL_ERROR)), false)
    else if IsOutbound(c.newId, f.streamId) then (CloseConn(c, Some(GO_AWAY_PROTOCOL_ERROR)), false)
    else if f.streamId in c.streams then (CloseConn(c, Some(GO_AWAY_PROTOCOL_ERROR)), false)
    else if |c.streams| + |c.opening| > c.cfg.maxStreams then
      (SendPacket(c.(past := c.past[f.streamId := NOTHING]), PRst(f.streamId)), true)
    else if !c.hasHandler then
      (CloseConn(c.(past := c.past[f.streamId := NOTHING]), Some(GO_AWAY_INTERNAL_ERROR)), false)
    else
      (SendPacket(c.(streams := c.streams[f.streamId := NewStream(c.cfg.maxWindow, QUEUE_LIMIT)]), PAck(f.streamId)),
        true)
  }

  function ProcessAck(c: Conn, f: Frame): (Conn, bool) {
    if f.streamId == 0 then
      if f.ty.PING? then (c, true) else (CloseConn(c, Some(GO_AWAY_PROTOCOL_ERROR)), false)
    else if f.streamId in c.opening then
      (c.(opening := c.opening - {f.streamId},
        streams := c.streams[f.streamId := NewStream(c.cfg.maxWindow, QUEUE_LIMIT)]), true)
    else if f.streamId in c.streams then (c, true)
    else (CloseConn(c, Some(GO_AWAY_PROTOCOL_ERROR)), false)
  }

  /** The queue of a stream in the table is always valid (see ConnInv); the test only makes the function total. */
  function ProcessWindowUpdate(c: Conn, f: Frame): Conn {
    if f.streamId in c.streams && ValidQueue(c.streams[f.streamId].queue)
    then Apply(c, f.streamId, IncreaseWindow(c.streams[f.streamId], f.length)) else c
  }

  function Forget(c: Conn, id: u32): Conn {
    c.(opening := c.opening - {id}, past := c.past[id := NOTHING])
  }

  function ProcessFin(c: Conn, id: u32): Conn {
    if id in c.streams then
      var (e, v) := OnFin(c.streams[id]);
      var c1 := Apply(c, id, e);
      if v.RemoveStream? then Erase(c1, id) else c1
    else if IsOutbound(c.newId, id) && id in c.opening then Forget(c, id)
    else c
  }

  function ProcessRst(c: Conn, id: u32): Conn {
    if id in c.streams then
      var e := OnRst(c.streams[id]);
      PerformAll(c.(streams := c.streams - {id}, past := c.past[id := RecordOf(e.s)]), id, e.acts)
    else if IsOutbound(c.newId, id) && id in c.opening then Forget(c, id)
    else c
  }

  function ProcessData(c: Conn, data: seq<byte>, id: u32): Conn {
    if id !in c.streams then c.(reader := Discard(c.reader))
    else
      var (e, v) := OnData(c.streams[id], data);
      var c1 := Apply(c, id, e);
      if v.KeepStream? then c1
      else
        var c2 := Erase(c1, id).(reader := Discard(c1.reader));
        if v.RemoveStreamAndSendRst? then SendPacket(c2, PRst(id)) else c2
  }

  function ProcessSegment(c: Conn, data: seq<byte>, id: u32, rst: bool, fin: bool): Conn {
    var c1 := if data != [] then ProcessData(c, data, id) else c;
    var c2 := if rst then ProcessRst(c1, id) else c1;
    if fin then ProcessFin(c2, id) else c2
  }

  /** `processHeader`; the result says whether reading goes on. */
  function ProcessHeader(c: Conn, f: Frame): (Conn, bool) {
    if f.ty.GO_AWAY? then (CloseConn(c, None), false)
    else
      var (c1, ok1) := if FlagIsSet(f.flags, SYN) then ProcessSyn(c, f) else (c, true);
      if !ok1 then (c1, false)
      else
        var (c2, ok2) := if FlagIsSet(f.flags, ACK) then ProcessAck(c1, f) else (c1, true);
        if !ok2 then (c2, false)
        else
          var c3 := if f.ty.WINDOW_UPDATE? then ProcessWindowUpdate(c2, f) else c2;
          var c4 := if FlagIsSet(f.flags, FIN) && f.streamId != 0 then ProcessFin(c3, f.streamId) else c3;
          var c5 := if FlagIsSet(f.flags, RST) && f.streamId != 0 then ProcessRst(c4, f.streamId) else c4;
          (c5, true)
  }

  // ---------------------------------------------------------------------------------------------
  // Completion and failure of writes, reading.

  /** The stream a written packet belongs to learns about its bytes. */
  function Acknowledge(c: Conn, p: Packet): Conn {
    if p.PData? && p.data != [] && p.sid in c.streams && ValidQueue(c.streams[p.sid].queue)
    then Apply(c, p.sid, OnWritten(c.streams[p.sid], |p.data|)) else c
  }

  /** The next packet goes to the link; after the last one of a closed connection the link is closed. */
  function Advance(c: Conn): Conn {
    var c1 := c.(writing := Idle);
    if c1.queue != [] then DoWrite(c1.(queue := c1.queue[1..]), c1.queue[0])
    else if c1.closeAfterWrite then c1.(linkClosed := true) else c1
  }

  /** `onDataWritten` with success. */
  function WriteDone(c: Conn): Conn
    requires c.writing.Busy?
  {
    Advance(Acknowledge(c, c.writing.packet))
  }

  /** `onDataWritten` with an error. */
  function WriteFailed(c: Conn): Conn
    requires c.writing.Busy?
  {
    CloseConn(c.(writing := Stuck, queue := [], dropped := c.dropped + c.queue, linkClosed := true), None)
  }

  /** One turn of the reading loop on the bytes of the current read. */
  function ReadStep(c: Conn): Conn
    requires ValidReader(c.reader) && c.reader.Reader? && c.chunk != []
  {
    var t := ReadTurn(c.reader, c.chunk);
    var c1 := c.(reader := t.reader, chunk := t.rest);
    match t.event
    case NeedMore => c1
    case Discarded(_) => c1
    case BadHeader => CloseConn(c1, Some(GO_AWAY_PROTOCOL_ERROR))
    case Header(f) => ProcessHeader(c1, f).0
    case Segment(data, sid, rst, fin) => ProcessSegment(c1, data, sid, rst, fin)
  }

  // ---------------------------------------------------------------------------------------------
  // Calls of the application.

  /** `newStream`: `wait` for the handler form, which creates the stream only when the ACK arrives. */
  function Open(c: Conn, wait: bool): Conn {
    if !c.started || |c.streams| >= c.cfg.maxStreams then c
    else
      var id := c.newId;
      WithNew(SendPacket(c.(newId := ToU32(id + 2)), PSyn(id)), id, wait)
  }

  function WithNew(c: Conn, id: u32, wait: bool): Conn {
    if wait then c.(opening := c.opening + {id})
    else c.(streams := c.streams[id := NewStream(c.cfg.maxWindow, QUEUE_LIMIT)])
  }

  /** The cleanup timer drops a stream nobody holds any more. */
  function Abandon(c: Conn, id: u32): Conn {
    if id in c.streams then Erase(SendPacket(c, PRst(id)), id) else c
  }

  // ---------------------------------------------------------------------------------------------
  // Invariant of one connection.

  function EndOf(c: Conn, id: u32): End {
    if id in c.streams then Live(c.streams[id])
    else if id in c.opening then Opening
    else if id in c.past then Gone(c.past[id])
    else Absent
  }

  /** Packets whose completion the streams still await, oldest first. */
  function Unacked(c: Conn): seq<Packet> {
    (if c.writing.Busy? then [c.writing.packet] else []) + c.queue
  }

  function SizesFor(id: u32, ps: seq<Packet>): seq<nat> {
    if ps == [] then []
    else (if ps[0].PData? && ps[0].sid == id then [|ps[0].data|] else []) + SizesFor(id, ps[1..])
  }

  /** Which ids are known, and in which one table. */
  ghost predicate TableInv(c: Conn) {
    && c.newId != 0
    && c.streams.Keys !! c.opening && c.streams.Keys !! c.past.Keys && c.opening !! c.past.Keys
    && (forall id :: id in c.streams || id in c.opening || id in c.past ==>
          id != 0 && (IsOutbound(c.newId, id) ==> id < c.newId))
    && (forall id :: id in c.opening ==> IsOutbound(c.newId, id))
    && (!c.started ==> c.streams == map[] && c.opening == {})
  }

  ghost predicate WriterInv(c: Conn) {
    && (c.writing.Idle? ==> c.queue == [])
    && (c.writing.Busy? ==> Sendable(c.writing.packet))
    && (c.closeAfterWrite ==> !c.started)
    && (!c.linkClosed ==> c.dropped == [])
    && (c.linkClosed ==> !c.started)
    && (forall i :: 0 <= i < |c.queue| ==> Sendable(c.queue[i]))
  }

  /**
   * A live stream's outstanding bytes are exactly its unacknowledged packets, in order; no id has any before it is
   * live.
   */
  ghost predicate AckOf(c: Conn, id: u32) {
    if id in c.streams then ValidQueue(c.streams[id].queue) &&
      Outstanding(c.streams[id].queue, SizesFor(id, Unacked(c)))
    else id in c.past || SizesFor(id, Unacked(c)) == []
  }

  ghost predicate AckInv(c: Conn) { forall id: u32 :: AckOf(c, id) }

  lemma SameAcks(x: Conn, t: Conn)
    requires AckInv(x) && t.streams == x.streams && t.past == x.past
    requires forall id: u32 :: SizesFor(id, Unacked(t)) == SizesFor(id, Unacked(x))
    ensures AckInv(t)
  {
    forall id: u32
      ensures AckOf(t, id)
    {
      assert AckOf(x, id);
    }
  }

  ghost predicate ConnInv(c: Conn) {
    ValidConfig(c.cfg) && ValidReader(c.reader) && c.reader.Reader? && TableInv(c) && WriterInv(c) && AckInv(c)
  }
}
