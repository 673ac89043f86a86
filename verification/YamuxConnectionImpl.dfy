/**
 * The connection of src/muxer/yamux/yamuxed_connection.cpp as an object: a table of stream objects, the packet
 * queue and the reading state, updated in place. Every method is proved against the function of YamuxConnections
 * that the theorems about runs are stated on. A stream object makes its application's callbacks itself; of the calls
 * it returns, the connection carries out those addressed to it.
 */
module YamuxConnectionObjects {
  import opened Basics
  import opened YamuxFrame
  import opened YamuxReader
  import opened WriteQueues
  import opened YamuxStreamSpec
  import opened YamuxStreams
  import opened YamuxPair
  import opened YamuxConnections
  import opened YamuxStreamRuns
  import opened YamuxSteps
  import YamuxRuns

  // Codes the streams are closed with.
  const PROTOCOL_ERROR: nat := 1
  const INTERNAL_ERROR: nat := 2
  const CLOSED_BY_PEER: nat := 3

  datatype OpenError = NotActive | TooManyStreams

  type Table = map<u32, YamuxStream>

  ghost predicate Holds(repr: set<object>, s: YamuxStream) { s in repr && s.readBuffer in repr && s.writeQueue in repr }

  predicate Disjoint(s: YamuxStream, t: YamuxStream) {
    s != t && s.readBuffer != t.readBuffer && s.writeQueue != t.writeQueue
  }

  /**
   * Every stream of the table is valid and made of objects in `repr`, streams share neither themselves nor their
   * buffers, and the buffers of stored reads are the readers' own, in `outs`.
   */
  ghost predicate TableOk(m: Table, repr: set<object>, outs: set<object>)
    reads repr
  {
    && (forall a, b :: a in m && b in m && a != b ==> Disjoint(m[a], m[b]))
    && (forall id :: id in m ==> Holds(repr, m[id]) && StreamOk(m[id], outs))
  }

  ghost predicate StreamOk(s: YamuxStream, outs: set<object>)
    reads s, s.readBuffer, s.writeQueue
  {
    s.Valid() && (s.readingOut == null || s.readingOut in outs)
  }

  ghost function Views(m: Table, repr: set<object>, outs: set<object>): map<u32, Stream>
    requires TableOk(m, repr, outs)
    reads repr
  {
    map id | id in m :: m[id].State()
  }

  lemma InTable(m: Table, repr: set<object>, outs: set<object>, id: u32)
    requires TableOk(m, repr, outs) && id in m
    ensures m[id].Valid() && Holds(repr, m[id]) && StreamOk(m[id], outs)
    ensures id in Views(m, repr, outs) && Views(m, repr, outs)[id] == m[id].State()
    ensures ValidStream(m[id].State()) && ValidQueue(m[id].State().queue)
  {
    hide YamuxStream.State, ValidQueue;
  }

  lemma MoreOuts(m: Table, repr: set<object>, outs: set<object>, more: set<object>)
    requires TableOk(m, repr, outs) && outs <= more
    ensures TableOk(m, repr, more) && Views(m, repr, more) == Views(m, repr, outs)
  {
    hide YamuxStream.Valid, YamuxStream.State;
  }

  lemma SameKeys(m: Table, repr: set<object>, outs: set<object>)
    requires TableOk(m, repr, outs)
    ensures Views(m, repr, outs).Keys == m.Keys && |Views(m, repr, outs)| == |m|
  {
    hide StreamOk, YamuxStream.State;
    assert Views(m, repr, outs).Keys == m.Keys;
  }

  lemma TableWithout(m: Table, repr: set<object>, outs: set<object>, id: u32)
    requires TableOk(m, repr, outs)
    ensures TableOk(m - {id}, repr, outs) && Views(m - {id}, repr, outs) == Views(m, repr, outs) - {id}
  {
    hide StreamOk, YamuxStream.State;
  }

  /** A new stream, made of new parts, enters the table. */
  lemma TableWith(m: Table, repr: set<object>, outs: set<object>, id: u32, s: YamuxStream)
    requires TableOk(m, repr, outs) && StreamOk(s, outs)
    requires s !in repr && s.readBuffer !in repr && s.writeQueue !in repr
    ensures var t := m[id := s];
            var r := repr + {s, s.readBuffer, s.writeQueue};
            TableOk(t, r, outs) && Views(t, r, outs) == Views(m, repr, outs)[id := s.State()]
  {
    hide StreamOk, YamuxStream.State;
    var t, r := m[id := s], repr + {s, s.readBuffer, s.writeQueue};
    forall k | k in t
      ensures Holds(r, t[k])
    {
      assert k != id ==> Holds(repr, m[k]);
    }
    forall a, b | a in t && b in t && a != b
      ensures Disjoint(t[a], t[b])
    {
      assert a != id ==> Holds(repr, m[a]);
      assert b != id ==> Holds(repr, m[b]);
      assert a != id && b != id ==> Disjoint(m[a], m[b]);
    }
  }

  ghost predicate Same(s: YamuxStream, outs: set<object>, was: Stream)
    reads s, s.readBuffer, s.writeQueue
  {
    StreamOk(s, outs) && s.State() == was
  }

  /** An event on stream `id` that leaves the others as they were. */
  lemma OneChanged(m: Table, repr: set<object>, outs: set<object>, id: u32, before: map<u32, Stream>)
    requires id in m && before.Keys == m.Keys && StreamOk(m[id], outs)
    requires forall a, b :: a in m && b in m && a != b ==> Disjoint(m[a], m[b])
    requires forall k :: k in m ==> Holds(repr, m[k]) && (k != id ==> Same(m[k], outs, before[k]))
    ensures TableOk(m, repr, outs) && Views(m, repr, outs) == before[id := m[id].State()]
  {
    hide StreamOk, YamuxStream.State;
  }

  lemma AllSame(m: Table, repr: set<object>, outs: set<object>)
    requires TableOk(m, repr, outs)
    ensures Views(m, repr, outs).Keys == m.Keys
    ensures forall a, b :: a in m && b in m && a != b ==> Disjoint(m[a], m[b])
    ensures forall k :: k in m ==> Holds(repr, m[k]) && Same(m[k], outs, Views(m, repr, outs)[k])
  {
    hide StreamOk, YamuxStream.State;
  }

  /** `s` is as it `was` or, once `closed`, has been closed with `code`, whatever it held. */
  ghost predicate Closing(s: YamuxStream, was: Stream, code: nat, closed: bool)
    reads s, s.readBuffer, s.writeQueue
  {
    s.Valid() && s.State() == if closed then DoClose(was, FromConnection(code)).s else was
  }

  ghost predicate AllClosed(m: Table, views: map<u32, Stream>, code: nat)
    requires m.Keys <= views.Keys
    reads set id | id in m :: m[id], set id | id in m :: m[id].readBuffer, set id | id in m :: m[id].writeQueue
  {
    forall id :: id in m ==> Closing(m[id], views[id], code, true)
  }

  lemma NoneClosed(m: Table, repr: set<object>, outs: set<object>, code: nat)
    requires TableOk(m, repr, outs)
    ensures Views(m, repr, outs).Keys == m.Keys
    ensures forall k :: k in m ==> Holds(repr, m[k]) && Closing(m[k], Views(m, repr, outs)[k], code, false)
  {
    hide YamuxStream.Valid, YamuxStream.State;
  }

  method CloseOne(s: YamuxStream, ghost was: Stream, code: nat)
    requires Closing(s, was, code, false)
    modifies s, s.readBuffer, s.writeQueue
    ensures Closing(s, was, code, true)
  {
    var calls := s.ClosedByConnection(code);
  }

  /** Closes every stream of a table, in whatever order. */
  method CloseStreams(m: Table, ghost repr: set<object>, ghost outs: set<object>, code: nat)
    requires TableOk(m, repr, outs)
    modifies repr
    ensures AllClosed(m, old(Views(m, repr, outs)), code)
  {
    hide TableOk, Views, Disjoint, Closing;
    NoneClosed(m, repr, outs, code);
    AllApart(m, repr, outs);
    ghost var views := Views(m, repr, outs);
    var todo := m.Keys;
    while todo != {}
      invariant todo <= m.Keys
      invariant forall k :: k in m ==> Closing(m[k], views[k], code, k !in todo)
    {
      var id :| id in todo;
      ApartFrom(m, id);
      CloseOne(m[id], views[id], code);
      todo := todo - {id};
    }
  }

  lemma AllApart(m: Table, repr: set<object>, outs: set<object>)
    requires TableOk(m, repr, outs)
    ensures forall a, b :: a in m && b in m && a != b ==> Disjoint(m[a], m[b])
  {
    hide StreamOk;
  }

  lemma ApartFrom(m: Table, id: u32)
    requires id in m && forall a, b :: a in m && b in m && a != b ==> Disjoint(m[a], m[b])
    ensures forall k :: k in m && k != id ==>
              m[k] != m[id] && m[k].readBuffer != m[id].readBuffer && m[k].writeQueue != m[id].writeQueue
  {
    assert forall k :: k in m && k != id ==> Disjoint(m[k], m[id]);
  }

  lemma EmptyTable(repr: set<object>, outs: set<object>)
    ensures TableOk(map[], repr, outs) && Views(map[], repr, outs) == map[]
  {
  }

  /** Reading goes on. */
  predicate Reads(c: Conn) { c.started && c.chunk != [] && ValidReader(c.reader) && c.reader.Reader? }

  function ReadTurns(c: Conn, n: nat): Conn
    decreases n
  {
    if n == 0 || !Reads(c) then c else ReadTurns(ReadStep(c), n - 1)
  }

  datatype ReadResult = Got(bytes: seq<byte>) | EndOfFile | ReadError(code: nat)

  /** The error that a failed read closes the connection with: the end of the link is the peer's doing. */
  function CodeOf(res: ReadResult): nat { if res.ReadError? then res.code else CLOSED_BY_PEER }

  function AfterRead(c: Conn, res: ReadResult): Conn {
    if !c.started then c
    else if res.Got? then ReadTurns(c.(chunk := res.bytes), |res.bytes|)
    else CloseConn(c, None)
  }

  function VerdictOf(s: Stream, ev: YamuxStreamRuns.Event): Verdict
    requires ValidStream(s)
  {
    if ev.DataIn? then OnData(s, ev.bytes).1 else if ev.FinIn? then OnFin(s).1 else KeepStream
  }

  lemma OnWindowStep(s: Stream, delta: nat)
    requires ValidStream(s)
    ensures Step(s, WindowIn(delta)) == IncreaseWindow(s, delta)
  {
    hide IncreaseWindow;
  }

  lemma OnWrittenStep(s: Stream, n: nat)
    requires ValidStream(s)
    ensures Step(s, Written(n)) == OnWritten(s, n)
  {
    hide OnWritten;
  }

  lemma OnFinStep(s: Stream)
    requires ValidStream(s)
    ensures (Step(s, FinIn), VerdictOf(s, FinIn)) == OnFin(s)
  {
    hide OnFin;
  }

  lemma OnRstStep(s: Stream)
    requires ValidStream(s)
    ensures Step(s, RstIn) == OnRst(s)
  {
    hide OnRst;
  }

  lemma OnDataStep(s: Stream, data: seq<byte>)
    requires ValidStream(s)
    ensures (Step(s, DataIn(data)), VerdictOf(s, DataIn(data))) == OnData(s, data)
  {
    hide OnData;
  }

  /** The stream method that an event stands for; `buffer` is what a read is to fill. */
  method Invoke(s: YamuxStream, ev: YamuxStreamRuns.Event, buffer: array?<byte>)
    returns (v: Verdict, calls: seq<Action>)
    requires s.Valid() && Allowed(s.State(), ev) && (ev.ReadSome? ==> buffer != null && buffer.Length == ev.size)
    modifies s, s.readBuffer, s.writeQueue, s.readingOut, buffer
    ensures s.Valid() && Effect(s.State(), calls) == Step(old(s.State()), ev) && v == VerdictOf(old(s.State()), ev)
    ensures s.readingOut == null || s.readingOut == old(s.readingOut) || s.readingOut == buffer
  {
    hide ValidStream, Write, Read, Close, Reset, AdjustWindow, IncreaseWindow, OnData, OnFin, OnRst, OnWritten, DoClose;
    v := KeepStream;
    match ev
    case WriteSome(data, cb) => calls := s.WriteSome(data, cb);
    case ReadSome(_, cb) => calls := s.ReadSome(buffer, cb);
    case CloseIt(cb) => calls := s.Close(cb);
    case ResetIt => calls := s.Reset();
    case Adjust(size, cb) => calls := s.AdjustWindowSize(size, cb);
    case WindowIn(delta) => calls := s.IncreaseSendWindow(delta);
    case DataIn(bytes) => v, calls := s.OnDataReceived(bytes);
    case FinIn => v, calls := s.OnFINReceived();
    case RstIn => calls := s.OnRSTReceived();
    case Written(n) => calls := s.OnDataWritten(n);
    case ConnectionClosed(code) => calls := s.ClosedByConnection(code);
  }

  /** The first half of `processHeader`: SYN and ACK. */
  function Introduced(c: Conn, f: Frame): (Conn, bool) {
    var (c1, ok) := if FlagIsSet(f.flags, SYN) then ProcessSyn(c, f) else (c, true);
    if ok && FlagIsSet(f.flags, ACK) then ProcessAck(c1, f) else (c1, ok)
  }

  /** The second half: window update, FIN and RST. */
  function Informed(c: Conn, f: Frame): Conn {
    var c1 := if f.ty.WINDOW_UPDATE? then ProcessWindowUpdate(c, f) else c;
    var c2 := if FlagIsSet(f.flags, FIN) && f.streamId != 0 then ProcessFin(c1, f.streamId) else c1;
    if FlagIsSet(f.flags, RST) && f.streamId != 0 then ProcessRst(c2, f.streamId) else c2
  }

  lemma HeaderHalves(c: Conn, f: Frame)
    requires !f.ty.GO_AWAY?
    ensures var (c1, ok) := Introduced(c, f);
            ProcessHeader(c, f) == if ok then (Informed(c1, f), true) else (c1, false)
  {
    hide ProcessSyn, ProcessAck, ProcessWindowUpdate, ProcessFin, ProcessRst, FlagIsSet;
  }

  class YamuxedConnection {
    const cfg: Config
    const readingState: YamuxReadingState
    var started: bool
    var hasHandler: bool
    var newStreamId: u32
    var streams: Table
    var pending: set<u32>
    var chunk: seq<byte>
    var queue: seq<Packet>
    var writing: Writing
    var closeAfterWrite: bool
    var linkClosed: bool
    ghost var out: seq<byte>
    ghost var past: map<u32, Record>
    ghost var dropped: seq<Packet>
    ghost var repr: set<object>
    ghost var outs: set<array<byte>>

    ghost predicate Valid()
      reads this, readingState, readingState.header, repr
    {
      && ValidConfig(cfg) && readingState.Valid() && TableOk(streams, repr, outs)
      && outs !! repr && this !in repr && readingState !in repr && readingState.header !in repr
    }

    ghost function State(): Conn
      requires Valid()
      reads this, readingState, readingState.header, repr
    {
      Conn(cfg, started, hasHandler, newStreamId, Views(streams, repr, outs), pending, readingState.State(), chunk,
           queue, writing, closeAfterWrite, linkClosed, out, past, dropped)
    }

    constructor (cfg: Config, initiator: bool, hasHandler: bool)
      requires ValidConfig(cfg)
      ensures Valid() && State() == NewConn(cfg, initiator, hasHandler)
      ensures fresh(readingState) && fresh(readingState.header)
    {
      this.cfg, this.hasHandler := cfg, hasHandler;
      readingState := new YamuxReadingState();
      started, newStreamId, streams, pending := true, if initiator then 1 else 2, map[], {};
      chunk, queue, writing, closeAfterWrite, linkClosed := [], [], Idle, false, false;
      out, past, dropped, repr, outs := [], map[], [], {}, {};
    }

    // ---------------------------------------------------------------------------------------------
    // Writing.

    method DoWrite(p: Packet)
      requires Valid() && writing.Idle?
      modifies `writing, `out, `dropped
      ensures Valid() && State() == YamuxConnections.DoWrite(old(State()), p)
    {
      hide TableOk, Views, PacketBytes;
      writing := Busy(p);
      if linkClosed {
        dropped := dropped + [p];
      } else {
        out := out + PacketBytes(p);
      }
    }

    method Enqueue(p: Packet)
      requires Valid()
      modifies `writing, `out, `dropped, `queue
      ensures Valid() && State() == SendPacket(old(State()), p)
    {
      hide TableOk, Views, PacketBytes;
      if writing.Idle? {
        DoWrite(p);
      } else {
        queue := queue + [p];
      }
    }

    method EraseStream(id: u32)
      requires Valid()
      modifies `streams, `past
      ensures Valid() && State() == Erase(old(State()), id) && streams == old(streams) - {id}
    {
      hide TableOk, Views, YamuxStream.Valid, YamuxStream.State;
      SameKeys(streams, repr, outs);
      if id in streams {
        ghost var m := streams;
        InTable(m, repr, outs, id);
        past := past[id := RecordOf(m[id].State())];
        streams := streams - {id};
        TableWithout(m, repr, outs, id);
      } else {
        assert streams - {id} == streams;
      }
    }

    /** `writeStreamData`, `ackReceivedBytes`, `resetStream` and `streamClosed`, as a stream calls them. */
    method Perform(id: u32, a: Action)
      requires Valid()
      modifies `writing, `out, `dropped, `queue, `streams, `past
      ensures Valid() && State() == YamuxConnections.Perform(old(State()), id, a)
    {
      match a
      case SendData(data) => Enqueue(PData(id, data));
      case SendWindow(delta) => Enqueue(PWin(id, ToU32(delta)));
      case SendRst =>
        Enqueue(PRst(id));
        EraseStream(id);
      case SendFin(closedForRead) =>
        if id in streams {
          Enqueue(PFin(id));
          if closedForRead { EraseStream(id); }
        }
      case _ =>
    }

    method PerformAll(id: u32, acts: seq<Action>)
      requires Valid()
      modifies `writing, `out, `dropped, `queue, `streams, `past
      ensures Valid() && State() == YamuxConnections.PerformAll(old(State()), id, acts)
    {
      var i := 0;
      while i < |acts|
        invariant 0 <= i <= |acts| && Valid()
        invariant YamuxConnections.PerformAll(State(), id, acts[i..]) ==
                  YamuxConnections.PerformAll(old(State()), id, acts)
      {
        assert acts[i..][1..] == acts[i + 1..];
        Perform(id, acts[i]);
        i := i + 1;
      }
    }

    /** A new stream object under `id`. */
    method CreateStream(id: u32)
      requires Valid()
      modifies `streams, `repr
      ensures var s := YamuxStreamSpec.NewStream(cfg.maxWindow, QUEUE_LIMIT);
              Valid() && State() == old(State()).(streams := old(State()).streams[id := s])
      ensures id in streams && fresh(streams[id]) && fresh(repr - old(repr)) && old(repr) <= repr
    {
      hide TableOk, Views, YamuxStream.Valid, YamuxStream.State;
      var s := new YamuxStream(cfg.maxWindow, QUEUE_LIMIT);
      ghost var m, r := streams, repr;
      streams, repr := streams[id := s], repr + {s, s.readBuffer, s.writeQueue};
      TableWith(m, r, outs, id, s);
    }

    /** `newStream`: with a handler (`wait`) the stream object is created only when the peer's ACK arrives. */
    method NewStream(wait: bool) returns (error: Option<OpenError>)
      requires Valid()
      modifies `newStreamId, `writing, `out, `dropped, `queue, `streams, `pending, `repr
      ensures Valid() && State() == Open(old(State()), wait) && fresh(repr - old(repr))
      ensures error == (if !old(started) then Some(NotActive)
                        else if |old(streams)| >= cfg.maxStreams then Some(TooManyStreams) else None)
    {
      hide TableOk, Views, SendPacket, WithNew;
      SameKeys(streams, repr, outs);
      if !started { return Some(NotActive); }
      if |streams| >= cfg.maxStreams { return Some(TooManyStreams); }
      Introduce(wait);
      return None;
    }

    method Introduce(wait: bool)
      requires Valid()
      modifies `newStreamId, `writing, `out, `dropped, `queue, `streams, `pending, `repr
      ensures Valid() && fresh(repr - old(repr))
      ensures var c := old(State());
              State() == WithNew(SendPacket(c.(newId := ToU32(c.newId + 2)), PSyn(c.newId)), c.newId, wait)
    {
      hide TableOk, Views, SendPacket;
      var id := TakeId();
      Enqueue(PSyn(id));
      if wait {
        AddPending(id);
      } else {
        CreateStream(id);
      }
    }

    method TakeId() returns (id: u32)
      requires Valid()
      modifies `newStreamId
      ensures Valid() && id == old(newStreamId) && State() == old(State()).(newId := ToU32(id + 2))
    {
      hide TableOk, Views;
      id := newStreamId;
      newStreamId := ToU32(newStreamId + 2);
    }

    method AddPending(id: u32)
      requires Valid()
      modifies `pending
      ensures Valid() && State() == old(State()).(opening := old(State()).opening + {id})
    {
      hide TableOk, Views;
      pending := pending + {id};
    }

    // ---------------------------------------------------------------------------------------------
    // Incoming frames.

    /** An event on the stream `id` of the table; `calls` is what the stream then asks for. */
    method OnStream(id: u32, ev: YamuxStreamRuns.Event, buffer: array?<byte>) returns (v: Verdict, calls: seq<Action>)
      requires Valid() && id in streams && (buffer == null || buffer in outs)
      requires Allowed(streams[id].State(), ev) && (ev.ReadSome? ==> buffer != null && buffer.Length == ev.size)
      modifies repr, outs
      ensures Valid() && id in old(State()).streams
      ensures ValidStream(old(State()).streams[id]) && ValidQueue(old(State()).streams[id].queue)
      ensures var s := old(State()).streams[id];
              && State() == old(State()).(streams := old(State()).streams[id := Step(s, ev).s])
              && calls == Step(s, ev).acts && v == VerdictOf(s, ev)
    {
      hide TableOk, Views, YamuxStream.Valid, YamuxStream.State, Step, VerdictOf, Allowed, ValidStream, ValidQueue;
      InTable(streams, repr, outs, id);
      AllSame(streams, repr, outs);
      var s := streams[id];
      ghost var views := Views(streams, repr, outs);
      v, calls := Invoke(s, ev, buffer);
      forall k | k in streams && k != id
        ensures Same(streams[k], outs, views[k])
      {
        assert Disjoint(streams[k], s) && old(Same(streams[k], outs, views[k]));
      }
      OneChanged(streams, repr, outs, id, views);
    }

    method ProcessWindowUpdate(f: Frame)
      requires Valid()
      modifies `writing, `out, `dropped, `queue, `streams, `past, repr, outs
      ensures Valid() && State() == YamuxConnections.ProcessWindowUpdate(old(State()), f)
    {
      hide TableOk, Views, Step, VerdictOf, ValidStream, ValidQueue, IncreaseWindow, YamuxConnections.PerformAll;
      SameKeys(streams, repr, outs);
      if f.streamId in streams {
        var v, calls := OnStream(f.streamId, WindowIn(f.length), null);
        OnWindowStep(old(State()).streams[f.streamId], f.length);
        PerformAll(f.streamId, calls);
      }
    }

    method ProcessFin(id: u32)
      requires Valid()
      modifies `writing, `out, `dropped, `queue, `streams, `past, `pending, repr, outs
      ensures Valid() && State() == YamuxConnections.ProcessFin(old(State()), id)
    {
      hide TableOk, Views, Step, VerdictOf, OnFin, ValidStream, YamuxConnections.PerformAll, Erase;
      SameKeys(streams, repr, outs);
      if id in streams {
        var v, calls := OnStream(id, FinIn, null);
        OnFinStep(old(State()).streams[id]);
        PerformAll(id, calls);
        if v.RemoveStream? { EraseStream(id); }
      } else if IsOutbound(newStreamId, id) && id in pending {
        ForgetPending(id);
      }
    }

    /** A pending stream was refused. */
    method ForgetPending(id: u32)
      requires Valid()
      modifies `pending, `past
      ensures Valid() && State() == Forget(old(State()), id)
    {
      hide TableOk, Views;
      pending := pending - {id};
      past := past[id := NOTHING];
    }

    /** The stream leaves the table before it learns of the reset. */
    method ProcessRst(id: u32)
      requires Valid()
      modifies `writing, `out, `dropped, `queue, `streams, `past, `pending, repr, outs
      ensures Valid() && State() == YamuxConnections.ProcessRst(old(State()), id)
    {
      hide TableOk, Views, OnRst, ValidStream;
      SameKeys(streams, repr, outs);
      if id in streams {
        var calls := RemoveReset(id);
        PerformAll(id, calls);
      } else if IsOutbound(newStreamId, id) && id in pending {
        ForgetPending(id);
      }
    }

    method RemoveReset(id: u32) returns (calls: seq<Action>)
      requires Valid() && id in streams
      modifies `streams, `past, repr, outs
      ensures Valid() && id in old(State()).streams
      ensures var e := OnRst(old(State()).streams[id]);
              && State() == old(State()).(streams := old(State()).streams - {id},
                                          past := old(State()).past[id := RecordOf(e.s)])
              && calls == e.acts
    {
      hide TableOk, Views, Step, VerdictOf, OnRst, ValidStream;
      var v;
      v, calls := OnStream(id, RstIn, null);
      OnRstStep(old(State()).streams[id]);
      EraseStream(id);
    }

    method ProcessData(data: seq<byte>, id: u32)
      requires Valid()
      modifies `writing, `out, `dropped, `queue, `streams, `past, readingState, repr, outs
      ensures Valid() && State() == YamuxConnections.ProcessData(old(State()), data, id)
    {
      hide TableOk, Views, Step, VerdictOf, OnData, ValidStream, YamuxConnections.PerformAll, Erase, SendPacket;
      SameKeys(streams, repr, outs);
      if id !in streams {
        DiscardMessage();
        return;
      }
      var v, calls := OnStream(id, DataIn(data), null);
      OnDataStep(old(State()).streams[id], data);
      PerformAll(id, calls);
      if !v.KeepStream? { DropStream(id, v); }
    }

    method DropStream(id: u32, v: Verdict)
      requires Valid()
      modifies `writing, `out, `dropped, `queue, `streams, `past, readingState
      ensures Valid()
      ensures var c := Erase(old(State()), id).(reader := Discard(old(State()).reader));
              State() == if v.RemoveStreamAndSendRst? then SendPacket(c, PRst(id)) else c
    {
      hide TableOk, Views, SendPacket;
      EraseStream(id);
      DiscardMessage();
      if v.RemoveStreamAndSendRst? { Enqueue(PRst(id)); }
    }

    method DiscardMessage()
      requires Valid()
      modifies readingState
      ensures Valid() && State() == old(State()).(reader := Discard(old(State()).reader))
    {
      hide TableOk, Views;
      readingState.DiscardDataMessage();
    }

    // ---------------------------------------------------------------------------------------------
    // Closing.

    /** The tables are emptied before anything is told. */
    method TakeTables() returns (table: Table)
      requires Valid() && started
      modifies `started, `streams, `pending, `past
      ensures Valid() && table == old(streams) && streams == map[] && TableOk(table, repr, outs)
      ensures State() == old(State()).(started := false, streams := map[], opening := {}, past := Records(old(State())))
    {
      hide TableOk, Views, Records;
      SameKeys(streams, repr, outs);
      table := streams;
      past := Records(State());
      started, streams, pending := false, map[], {};
      EmptyTable(repr, outs);
    }

    method MarkClosing()
      requires Valid()
      modifies `closeAfterWrite
      ensures Valid() && State() == old(State()).(closeAfterWrite := true)
    {
      hide TableOk, Views;
      closeAfterWrite := true;
    }

    /** Drops the queued packets and closes the link. */
    method DropLink()
      requires Valid()
      modifies `queue, `dropped, `linkClosed
      ensures Valid()
      ensures var c := old(State()); State() == c.(queue := [], dropped := c.dropped + c.queue, linkClosed := true)
    {
      hide TableOk, Views;
      dropped := dropped + queue;
      queue, linkClosed := [], true;
    }

    method CloseTables(code: nat)
      requires Valid() && started
      modifies `started, `streams, `pending, `past, repr
      ensures Valid()
      ensures State() == old(State()).(started := false, streams := map[], opening := {}, past := Records(old(State())))
      ensures old(streams).Keys == old(State()).streams.Keys && AllClosed(old(streams), old(State()).streams, code)
    {
      hide TableOk, Views, Records, AllClosed;
      SameKeys(streams, repr, outs);
      var table := TakeTables();
      CloseStreams(table, repr, outs, code);
      EmptyTable(repr, outs);
    }

    /** `close(code, reply)`. */
    method Close(code: nat, reply: Option<u32>)
      requires Valid()
      modifies `started, `pending, `closeAfterWrite, `linkClosed
      modifies `writing, `out, `dropped, `queue, `streams, `past, repr
      ensures Valid() && State() == CloseConn(old(State()), reply)
      ensures old(started) ==>
                old(streams).Keys == old(State()).streams.Keys && AllClosed(old(streams), old(State()).streams, code)
    {
      hide TableOk, Views, Records, AllClosed, SendPacket;
      if !started { return; }
      CloseTables(code);
      MarkClosing();
      if reply.Some? {
        Enqueue(PGoAway(reply.value));
      } else {
        DropLink();
      }
    }

    // ---------------------------------------------------------------------------------------------
    // Headers.

    /** Notes an inbound stream that is refused. */
    ghost method NoteRefused(id: u32)
      requires Valid()
      modifies `past
      ensures Valid() && State() == old(State()).(past := old(State()).past[id := NOTHING])
    {
      hide TableOk, Views;
      past := past[id := NOTHING];
    }

    method ProcessSyn(f: Frame) returns (ok: bool)
      requires Valid()
      modifies `started, `pending, `closeAfterWrite, `linkClosed
      modifies `writing, `out, `dropped, `queue, `streams, `past, `repr, repr
      ensures Valid() && (State(), ok) == YamuxConnections.ProcessSyn(old(State()), f)
      ensures fresh(repr - old(repr))
    {
      hide TableOk, Views, SendPacket, CloseConn;
      SameKeys(streams, repr, outs);
      if f.streamId == 0 {
        if f.ty.PING? {
          Enqueue(PPong(f.length));
          return true;
        }
      } else if IsOutbound(newStreamId, f.streamId) || f.streamId in streams {
      } else if |streams| + |pending| > cfg.maxStreams {
        NoteRefused(f.streamId);
        Enqueue(PRst(f.streamId));
        return true;
      } else if !hasHandler {
        NoteRefused(f.streamId);
        Close(INTERNAL_ERROR, Some(GO_AWAY_INTERNAL_ERROR));
        return false;
      } else {
        CreateStream(f.streamId);
        Enqueue(PAck(f.streamId));
        return true;
      }
      Close(PROTOCOL_ERROR, Some(GO_AWAY_PROTOCOL_ERROR));
      return false;
    }

    method ProcessAck(f: Frame) returns (ok: bool)
      requires Valid()
      modifies `started, `pending, `closeAfterWrite, `linkClosed
      modifies `writing, `out, `dropped, `queue, `streams, `past, `repr, repr
      ensures Valid() && (State(), ok) == YamuxConnections.ProcessAck(old(State()), f)
      ensures fresh(repr - old(repr))
    {
      hide TableOk, Views, CloseConn;
      SameKeys(streams, repr, outs);
      if f.streamId == 0 {
        if f.ty.PING? { return true; }
      } else if f.streamId in pending {
        RemovePending(f.streamId);
        CreateStream(f.streamId);
        return true;
      } else if f.streamId in streams {
        return true;
      }
      Close(PROTOCOL_ERROR, Some(GO_AWAY_PROTOCOL_ERROR));
      return false;
    }

    method RemovePending(id: u32)
      requires Valid()
      modifies `pending
      ensures Valid() && State() == old(State()).(opening := old(State()).opening - {id})
    {
      hide TableOk, Views;
      pending := pending - {id};
    }

    method ProcessOpening(f: Frame) returns (ok: bool)
      requires Valid()
      modifies `started, `pending, `closeAfterWrite, `linkClosed
      modifies `writing, `out, `dropped, `queue, `streams, `past, `repr, repr
      ensures Valid() && (State(), ok) == Introduced(old(State()), f) && fresh(repr - old(repr))
    {
      hide TableOk, Views,
           YamuxConnections.ProcessSyn, YamuxConnections.ProcessAck, FlagIsSet;
      ok := true;
      if FlagIsSet(f.flags, SYN) { ok := ProcessSyn(f); }
      if ok && FlagIsSet(f.flags, ACK) { ok := ProcessAck(f); }
    }

    method ProcessNews(f: Frame)
      requires Valid()
      modifies `writing, `out, `dropped, `queue, `streams, `past, `pending, repr, outs
      ensures Valid() && State() == Informed(old(State()), f)
    {
      hide TableOk, Views,
           YamuxConnections.ProcessWindowUpdate, YamuxConnections.ProcessFin, YamuxConnections.ProcessRst, FlagIsSet;
      if f.ty.WINDOW_UPDATE? { ProcessWindowUpdate(f); }
      if FlagIsSet(f.flags, FIN) && f.streamId != 0 { ProcessFin(f.streamId); }
      if FlagIsSet(f.flags, RST) && f.streamId != 0 { ProcessRst(f.streamId); }
    }

    /** `processHeader`; the result says whether reading goes on. */
    method ProcessHeader(f: Frame) returns (proceed: bool)
      requires Valid()
      modifies `started, `pending, `closeAfterWrite, `linkClosed
      modifies `writing, `out, `dropped, `queue, `streams, `past, `repr, repr, outs
      ensures Valid() && (State(), proceed) == YamuxConnections.ProcessHeader(old(State()), f)
      ensures fresh(repr - old(repr))
    {
      hide TableOk, Views,
           Introduced, Informed, CloseConn;
      if f.ty.GO_AWAY? {
        Close(CLOSED_BY_PEER, None);
        return false;
      }
      HeaderHalves(State(), f);
      proceed := ProcessOpening(f);
      if proceed { ProcessNews(f); }
    }

    method ProcessSegment(data: seq<byte>, id: u32, rst: bool, fin: bool)
      requires Valid()
      modifies `writing, `out, `dropped, `queue, `streams, `past, `pending, readingState, repr, outs
      ensures Valid() && State() == YamuxConnections.ProcessSegment(old(State()), data, id, rst, fin)
    {
      hide TableOk, Views, YamuxConnections.ProcessData, YamuxConnections.ProcessFin,
           YamuxConnections.ProcessRst;
      if data != [] { ProcessData(data, id); }
      if rst { ProcessRst(id); }
      if fin { ProcessFin(id); }
    }

    // ---------------------------------------------------------------------------------------------
    // Reading.

    method TakeTurn() returns (event: YamuxReader.Event)
      requires Valid() && Reads(State())
      modifies `chunk, readingState, readingState.header
      ensures Valid() && |chunk| < |old(chunk)|
      ensures var t := ReadTurn(old(State()).reader, old(chunk));
              event == t.event && State() == old(State()).(reader := t.reader, chunk := t.rest)
    {
      hide TableOk, Views;
      var rest;
      event, rest := readingState.TakeTurn(chunk, Reply(true, false));
      chunk := rest;
    }

    /** One turn of the reading loop and what it leads to. */
    method Turn()
      requires Valid() && Reads(State())
      modifies `started, `pending, `closeAfterWrite, `linkClosed
      modifies `writing, `out, `dropped, `queue, `streams, `past, `chunk, `repr
      modifies readingState, readingState.header, repr, outs
      ensures Valid() && State() == ReadStep(old(State())) && |chunk| < |old(chunk)| && fresh(repr - old(repr))
    {
      hide TableOk, Views, ReadTurn, CloseConn,
           YamuxConnections.ProcessHeader, YamuxConnections.ProcessSegment;
      var event := TakeTurn();
      match event
      case BadHeader => Close(PROTOCOL_ERROR, Some(GO_AWAY_PROTOCOL_ERROR));
      case Header(f) => var proceed := ProcessHeader(f);
      case Segment(data, sid, rst, fin) => ProcessSegment(data, sid, rst, fin);
      case _ =>
    }

    /** The loop over the bytes of one read: turns until they are used up or the connection is closed. */
    method WorkOff(bytes: seq<byte>)
      requires Valid()
      modifies `started, `pending, `closeAfterWrite, `linkClosed
      modifies `writing, `out, `dropped, `queue, `streams, `past, `chunk, `repr
      modifies readingState, readingState.header, repr, outs
      ensures Valid() && State() == ReadTurns(old(State()).(chunk := bytes), |bytes|) && !Reads(State())
      ensures fresh(repr - old(repr))
    {
      hide TableOk, Views, ReadStep;
      SetChunk(bytes);
      ghost var n := |bytes|;
      while chunk != [] && started && !readingState.failed
        invariant Valid() && |chunk| <= n && fresh(repr - old(repr))
        invariant ReadTurns(State(), n) == ReadTurns(old(State()).(chunk := bytes), |bytes|)
        decreases |chunk|
      {
        MayRead();
        Turn();
        n := n - 1;
      }
      MayRead();
    }

    /** `onRead`: a stopped connection ignores the read, a failed read closes it, and bytes are worked off. */
    method OnRead(res: ReadResult)
      requires Valid() && chunk == []
      modifies `started, `pending, `closeAfterWrite, `linkClosed
      modifies `writing, `out, `dropped, `queue, `streams, `past, `chunk, `repr
      modifies readingState, readingState.header, repr, outs
      ensures Valid() && State() == AfterRead(old(State()), res) && !Reads(State()) && fresh(repr - old(repr))
      ensures old(started) && !res.Got? ==>
                old(streams).Keys == old(State()).streams.Keys &&
                  AllClosed(old(streams), old(State()).streams, CodeOf(res))
    {
      hide TableOk, Views, ReadStep, ReadTurns, CloseConn, AllClosed;
      if !started {
        MayRead();
        return;
      }
      if !res.Got? {
        Close(CodeOf(res), None);
        MayRead();
        return;
      }
      WorkOff(res.bytes);
    }

    method SetChunk(bytes: seq<byte>)
      requires Valid()
      modifies `chunk
      ensures Valid() && State() == old(State()).(chunk := bytes)
    {
      hide TableOk, Views;
      chunk := bytes;
    }

    lemma MayRead()
      requires Valid()
      ensures Reads(State()) <==> chunk != [] && started && !readingState.failed
    {
      hide TableOk, Views;
      SameKeys(streams, repr, outs);
    }

    // ---------------------------------------------------------------------------------------------
    // Completion of writes.

    /** The stream a written packet belongs to learns about its bytes. */
    method AcknowledgePacket(p: Packet)
      requires Valid()
      modifies `writing, `out, `dropped, `queue, `streams, `past, repr, outs
      ensures Valid() && State() == Acknowledge(old(State()), p)
    {
      hide TableOk, Views, Step, VerdictOf, ValidStream, ValidQueue, OnWritten, YamuxConnections.PerformAll;
      SameKeys(streams, repr, outs);
      if p.PData? && p.data != [] && p.sid in streams {
        var v, calls := OnStream(p.sid, Written(|p.data|), null);
        OnWrittenStep(old(State()).streams[p.sid], |p.data|);
        PerformAll(p.sid, calls);
      }
    }

    method SetWriting(w: Writing)
      requires Valid()
      modifies `writing
      ensures Valid() && State() == old(State()).(writing := w)
    {
      hide TableOk, Views;
      writing := w;
    }

    method PopPacket() returns (p: Packet)
      requires Valid() && queue != []
      modifies `queue
      ensures Valid() && p == old(queue)[0] && State() == old(State()).(queue := old(queue)[1..])
    {
      hide TableOk, Views;
      p, queue := queue[0], queue[1..];
    }

    method CloseLink()
      requires Valid()
      modifies `linkClosed
      ensures Valid() && State() == old(State()).(linkClosed := true)
    {
      hide TableOk, Views;
      linkClosed := true;
    }

    /** `onDataWritten`: `code` tells why the write failed. */
    method OnDataWritten(failure: Option<nat>)
      requires Valid() && writing.Busy?
      modifies `started, `pending, `closeAfterWrite, `linkClosed
      modifies `writing, `out, `dropped, `queue, `streams, `past, repr, outs
      ensures Valid() && State() == if failure.Some? then WriteFailed(old(State())) else WriteDone(old(State()))
    {
      hide TableOk, Views, Acknowledge, CloseConn, YamuxConnections.DoWrite;
      if failure.Some? {
        SetWriting(Stuck);
        DropLink();
        Close(failure.value, None);
        return;
      }
      AcknowledgePacket(writing.packet);
      SetWriting(Idle);
      if queue != [] {
        var p := PopPacket();
        DoWrite(p);
      } else if closeAfterWrite {
        CloseLink();
      }
    }

    // ---------------------------------------------------------------------------------------------
    // The application.

    /** A call on a stream of the table, with what the stream then asks of the connection. */
    method CallStream(id: u32, ev: YamuxStreamRuns.Event, buffer: array?<byte>)
      requires Valid() && id in streams && AppCall(ev) && Allowed(streams[id].State(), ev) && buffer !in repr
      requires ev.ReadSome? ==> buffer != null && buffer.Length == ev.size
      modifies `writing, `out, `dropped, `queue, `streams, `past, `outs, repr, outs, buffer
      ensures Valid() && id in old(State()).streams && ValidStream(old(State()).streams[id])
      ensures State() == Apply(old(State()), id, Step(old(State()).streams[id], ev))
    {
      hide TableOk, Views, ValidStream, Step;
      AddBuffer(buffer);
      var v, calls := OnStream(id, ev, buffer);
      PerformAll(id, calls);
    }

    /** From now on `buffer` may be filled by a stream. */
    ghost method AddBuffer(buffer: array?<byte>)
      requires Valid() && buffer !in repr
      modifies `outs
      ensures Valid() && State() == old(State()) && outs == old(outs) + (if buffer == null then {} else {buffer})
    {
      hide TableOk, Views;
      if buffer != null {
        MoreOuts(streams, repr, outs, outs + {buffer});
        outs := outs + {buffer};
      }
    }
  }

  /** What `OnRead` does once the bytes are off the link is a run of moves. */
  lemma {:induction false} ReadTurnsAreMoves(s: YamuxRuns.System, n: nat) returns (ls: seq<YamuxRuns.Label>)
    ensures YamuxRuns.IsRun(s, ls) && YamuxRuns.Final(s, ls) == s.(a := ReadTurns(s.a, n))
    decreases n
  {
    hide ReadStep;
    ls := [];
    if n > 0 && Reads(s.a) {
      var first := YamuxRuns.Label(true, YamuxRuns.Turn);
      var rest := ReadTurnsAreMoves(YamuxRuns.Next(s, first), n - 1);
      ls := [first] + rest;
    }
  }

  /** Every read of a running connection is a run of the two-connection system: its moves are those of YamuxRuns. */
  lemma ReadIsRun(s: YamuxRuns.System, res: ReadResult) returns (ls: seq<YamuxRuns.Label>)
    requires s.a.started && s.a.chunk == [] && (res.Got? ==> res.bytes <= s.b.out)
    ensures YamuxRuns.IsRun(s, ls)
    ensures YamuxRuns.Final(s, ls)
         == YamuxRuns.System(AfterRead(s.a, res), if res.Got? then s.b.(out := s.b.out[|res.bytes|..]) else s.b)
  {
    hide ReadStep, CloseConn, ReadTurns;
    if res.Got? {
      var first := YamuxRuns.Label(true, YamuxRuns.Receive(|res.bytes|));
      assert s.b.out[..|res.bytes|] == res.bytes;
      var rest := ReadTurnsAreMoves(YamuxRuns.Next(s, first), |res.bytes|);
      ls := [first] + rest;
      assert ls[1..] == rest;
    } else {
      ls := [YamuxRuns.Label(true, YamuxRuns.Shutdown(None))];
      assert ls[1..] == [];
    }
  }
}
