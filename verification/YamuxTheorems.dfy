/** What every run of two joined Yamux connections guarantees. */
module YamuxTheorems {
  import opened Basics
  import opened YamuxFrame
  import YamuxReader
  import opened WriteQueues
  import opened YamuxStreamSpec
  import YamuxStreamRuns
  import opened YamuxPair
  import opened YamuxWire
  import opened YamuxConnections
  import opened YamuxWriter
  import opened YamuxSystem
  import opened YamuxSteps
  import opened YamuxCompletion
  import opened YamuxArrivals
  import opened YamuxTurns
  import opened YamuxRuns

  ghost predicate Reachable(s: System) {
    exists ca: Config, cb: Config, ha: bool, hb: bool, ls: seq<Label> ::
      ValidConfig(ca) && ValidConfig(cb) && IsRun(Start(ca, cb, ha, hb), ls) && Final(Start(ca, cb, ha, hb), ls) == s
  }

  function Near(s: System, left: bool): Conn { if left then s.a else s.b }

  function Far(s: System, left: bool): Conn { if left then s.b else s.a }

  /** In every reachable state the invariant holds, seen from either side, for some packets under way. */
  lemma ReachableInv(s: System, left: bool) returns (dxy: seq<Packet>, dyx: seq<Packet>)
    requires Reachable(s)
    ensures Inv(Near(s, left), Far(s, left), dxy, dyx)
  {
    var ca, cb, ha, hb, ls :|
      ValidConfig(ca) && ValidConfig(cb) && IsRun(Start(ca, cb, ha, hb), ls) && Final(Start(ca, cb, ha, hb), ls) == s;
    StartGood(ca, cb, ha, hb);
    RunGood(Start(ca, cb, ha, hb), ls);
    var p, q :| Inv(s.a, s.b, p, q);
    if left {
      dxy, dyx := p, q;
    } else {
      SwapSides(s.a, s.b, p, q);
      dxy, dyx := q, p;
    }
  }

  /** All a side's application has read from stream `id`. */
  function Delivered(c: Conn, id: u32): seq<byte> { History(EndOf(c, id)).delivered }

  /** All a side's application has successfully handed to stream `id` for writing. */
  function Accepted(c: Conn, id: u32): seq<byte> { History(EndOf(c, id)).accepted }

  /** In order, without loss inside, duplication or mix-up: what is read is a prefix of what the peer wrote. */
  lemma DeliveredInOrder(s: System, left: bool, id: u32)
    requires Reachable(s)
    ensures Delivered(Near(s, left), id) <= Accepted(Far(s, left), id)
  {
    var x, y := Near(s, left), Far(s, left);
    var dxy, dyx := ReachableInv(s, left);
    if id != 0 {
      assert PairInv(View(x, y, dxy, dyx, id), SettingOf(x, y, id));
      PrefixDelivered(View(x, y, dxy, dyx, id), SettingOf(x, y, id));
    }
  }

  /** A stream still in the table after the peer's FIN holds, or has handed out, every byte its peer ever accepted. */
  lemma CompleteAfterFin(s: System, left: bool, id: u32)
    requires Reachable(s) && id in Near(s, left).streams && !Near(s, left).streams[id].readable
    ensures var t := Near(s, left).streams[id]; t.delivered + t.buffered == Accepted(Far(s, left), id)
  {
    var x, y := Near(s, left), Far(s, left);
    var dxy, dyx := ReachableInv(s, left);
    LiveStream(x, y, dxy, dyx, id);
    var p, c := View(x, y, dxy, dyx, id), SettingOf(x, y, id);
    SwapInv(p, c);
    CompleteAtFin(Swap(p), SwapSetting(c));
  }

  /** The bytes of stream `id` a side's application has read or can still read. */
  function Held(c: Conn, id: u32): seq<byte> {
    if id in c.streams then c.streams[id].delivered + c.streams[id].buffered else Delivered(c, id)
  }

  /** What the next turn of a side's reading loop meets. */
  function NextEvent(x: Conn): YamuxReader.Event
    requires YamuxReader.ValidReader(x.reader) && x.reader.Reader? && x.chunk != []
  {
    YamuxReader.ReadTurn(x.reader, x.chunk).event
  }

  /** The next turn meets the FIN of stream `id`. */
  predicate FinComes(x: Conn, id: u32) {
    && x.started && x.chunk != [] && YamuxReader.ValidReader(x.reader) && x.reader.Reader?
    && NextEvent(x).Header? && FlagIsSet(NextEvent(x).frame.flags, FIN) && NextEvent(x).frame.streamId == id != 0
  }

  lemma FinIsFirst(x: Conn, y: Conn, dxy: seq<Packet>, dyx: seq<Packet>, id: u32)
    requires Inv(x, y, dxy, dyx) && FinComes(x, id)
    ensures dyx != [] && dyx[0] == PFin(id) && Taken(x, AfterTurn(x), y, dxy, dyx, PFin(id)) &&
            (id in x.streams ==> id !in x.opening)
    ensures ReadStep(x) == ProcessFin(AfterTurn(x), id)
  {
    hide PairInv, WireBytes, PacketBytes, ProcessFin, ProcessSyn, ProcessAck;
    TurnHeader(x.reader, x.chunk, y.out, dyx);
    OnlyFlag(FlagOf(dyx[0]));
    HeaderHandled(AfterTurn(x), dyx[0]);
  }

  lemma FinFindsAll(p: Pair, c: Setting)
    requires PairInv(p, c) && p.oy != [] && p.oy[0].Fin? && p.x.Live?
    ensures p.x.s.delivered + p.x.s.buffered == History(p.y).accepted
  {
    FirstMsg(p.oy);
    assert BytesIn(p.oy) == [] && History(p.y).finSent;
    assert p.x.s.delivered + p.x.s.buffered + [] == p.x.s.delivered + p.x.s.buffered;
  }

  /** What the FIN itself does to the bytes: a stream closed for writing forgets those nobody has read yet. */
  lemma FinKeepsUnread(s: Stream)
    requires ValidStream(s) && s.closeReason.None?
    ensures var t := OnFin(s).0.s;
            && t.delivered == s.delivered && t.buffered == (if s.writable then s.buffered else [])
            && (t.delivered + t.buffered == s.delivered + s.buffered <==> s.writable || s.buffered == [])
  {
    if s.buffered != [] { assert |s.delivered + []| < |s.delivered + s.buffered|; }
  }

  /**
   * When FIN arrives, every byte the peer's application ever wrote is there. They all stay readable exactly if this
   * side has not closed its own direction before, or had nothing unread.
   */
  lemma FinLosesUnread(s: System, left: bool, id: u32)
    requires Reachable(s) && id in Near(s, left).streams && FinComes(Near(s, left), id)
    ensures var x, y := Near(s, left), Far(s, left);
            && Held(x, id) == Accepted(y, id)
            && (Held(ReadStep(x), id) == Accepted(y, id) <==> x.streams[id].writable || x.streams[id].buffered == [])
  {
    var dxy, dyx := ReachableInv(s, left);
    FinAtHead(Near(s, left), Far(s, left), dxy, dyx, id);
  }

  lemma FinAtHead(x: Conn, y: Conn, dxy: seq<Packet>, dyx: seq<Packet>, id: u32)
    requires Inv(x, y, dxy, dyx) && id in x.streams && FinComes(x, id)
    ensures Held(x, id) == Accepted(y, id)
    ensures Held(ReadStep(x), id) == Accepted(y, id) <==> x.streams[id].writable || x.streams[id].buffered == []
  {
    hide Inv, ValidStream, OnFin, ProcessFin, NextEvent, FlagIsSet, PairInv, ReadStep, MsgsFor, Flight,
      YamuxReader.ReadTurn;
    LiveStream(x, y, dxy, dyx, id);
    FinIsFirst(x, y, dxy, dyx, id);
    TakenMsg(y, dyx, PFin(id), id, Fin);
    FinFindsAll(View(x, y, dxy, dyx, id), SettingOf(x, y, id));
    FinKeepsUnread(x.streams[id]);
    FinEnds(AfterTurn(x), id);
    assert x.streams[id].delivered + [] == x.streams[id].delivered;
  }

  /** Where the stream is after its FIN. */
  lemma FinEnds(c: Conn, id: u32)
    requires id in c.streams && ValidStream(c.streams[id]) && c.streams[id].closeReason.None? && id !in c.opening
    ensures var t := OnFin(c.streams[id]).0.s;
            Held(ProcessFin(c, id), id) == if c.streams[id].writable then t.delivered + t.buffered else t.delivered
  {
    hide ProcessFin, PerformAll;
    var (e, v) := OnFin(c.streams[id]);
    FinTable(c, id, c.streams[id], e, v);
  }

  /**
   * What the FIN of the peer does to the other direction of a stream this side has closed: the stream leaves the table,
   * all it accepted has been sent exactly if nothing waited for the window, and its own FIN has exactly if it had
   * before.
   */
  lemma FinLosesUnsent(s: System, left: bool, id: u32)
    requires Reachable(s) && id in Near(s, left).streams && FinComes(Near(s, left), id)
    requires !Near(s, left).streams[id].writable
    ensures var x := Near(s, left);
            var t, c := x.streams[id], ReadStep(x);
            && ValidQueue(t.queue) && id !in c.streams && id in c.past && c.past[id].accepted == t.accepted
            && (c.past[id].sent == t.accepted <==> Unsent(t.queue) == []) && (c.past[id].finSent <==> t.finSent)
  {
    hide Inv, ValidStream, OnFin, ProcessFin, NextEvent, FlagIsSet, ReadStep, YamuxReader.ReadTurn;
    var dxy, dyx := ReachableInv(s, left);
    var x, y := Near(s, left), Far(s, left);
    LiveStream(x, y, dxy, dyx, id);
    FinIsFirst(x, y, dxy, dyx, id);
    FinRecords(AfterTurn(x), id);
  }

  lemma FinRecords(c: Conn, id: u32)
    requires id in c.streams && ValidStream(c.streams[id]) && c.streams[id].closeReason.None? && !c.streams[id].writable
    ensures var t, d := c.streams[id], ProcessFin(c, id);
            && ValidQueue(t.queue) && id !in d.streams && id in d.past && d.past[id].accepted == t.accepted
            && (d.past[id].sent == t.accepted <==> Unsent(t.queue) == []) && (d.past[id].finSent <==> t.finSent)
  {
    hide ProcessFin, PerformAll, Unsent, ValidQueue;
    var (e, v) := OnFin(c.streams[id]);
    FinTable(c, id, c.streams[id], e, v);
    YamuxStreamRuns.UnsentLostExactly(c.streams[id], YamuxStreamRuns.FinIn);
  }

  /** The same for the application's own calls: only the `close()` that finishes a stream drops what was not read. */
  lemma CallLosesUnread(s: System, left: bool, id: u32, ev: YamuxStreamRuns.Event)
    requires Reachable(s) && id in Near(s, left).streams && AppCall(ev) && !ev.ResetIt?
    requires ValidStream(Near(s, left).streams[id]) && YamuxStreamRuns.Allowed(Near(s, left).streams[id], ev)
    ensures var x := Near(s, left);
            var t := x.streams[id];
            Held(Apply(x, id, YamuxStreamRuns.Step(t, ev)), id) == Held(x, id) <==>
              !YamuxStreamRuns.Finishes(t, ev) || t.buffered == []
  {
    hide Apply;
    var x, y := Near(s, left), Far(s, left);
    var dxy, dyx := ReachableInv(s, left);
    LiveStream(x, y, dxy, dyx, id);
    var t := x.streams[id];
    var dxy' := AppStep(x, y, dxy, dyx, id, ev, t);
    YamuxStreamRuns.UnreadLostExactly(t, ev);
    NoErrors(t, ev);
    HeldAtEnd(Apply(x, id, YamuxStreamRuns.Step(t, ev)), id, YamuxStreamRuns.Step(t, ev));
  }

  lemma NoErrors(t: Stream, ev: YamuxStreamRuns.Event)
    requires ValidStream(t) && t.closeReason.None? && AppCall(ev) && !ev.ResetIt? && YamuxStreamRuns.Allowed(t, ev)
    ensures var u := YamuxStreamRuns.Step(t, ev).s;
            (u.closeReason.None? || u.closeReason == Some(ClosedByHost)) && (u.closeReason.Some? ==> u.buffered == [])
  {
    hide Flush, ValidQueue, Unsent, IncreaseWindow, OnData, OnWritten;
    match ev
    case WriteSome(data, cb) =>
      if YamuxStreamRuns.Accepts(t, ev) {
        EnqueueKeeps(t.queue, data, cb);
        EnqueuedSound(t, data, cb);
        YamuxStreamRuns.FlushUnread(t.(queue := Enqueue(t.queue, data, cb), accepted := t.accepted + data));
      }
    case CloseIt(cb) =>
      if t.writable { YamuxStreamRuns.FlushUnread(t.(closeCb := cb, writable := false)); }
    case _ =>
  }

  lemma HeldAtEnd(c: Conn, id: u32, e: Effect)
    requires EndOf(c, id) == After(e) && (e.s.closeReason.Some? ==> e.s.buffered == [])
    ensures Held(c, id) == e.s.delivered + e.s.buffered
  {
    assert e.s.delivered + [] == e.s.delivered;
  }

  // ---------------------------------------------------------------------------------------------
  // Flow control.

  /** Bytes of stream `id` on their way, among the packets `due` at its peer and those still queued at `x`. */
  function BytesUnderWay(x: Conn, due: seq<Packet>, id: u32): nat { |BytesIn(MsgsFor(id, Flight(x, due)))| }

  /** Window updates of stream `id` on their way. */
  function CreditUnderWay(x: Conn, due: seq<Packet>, id: u32): nat { CreditIn(MsgsFor(id, Flight(x, due))) }

  /** The bytes on the links are the image of packets, of one sequence only in each direction. */
  lemma LinksCarry(s: System, left: bool) returns (due: seq<Packet>)
    requires Reachable(s)
    ensures var x, y := Near(s, left), Far(s, left);
            && Carries(y.reader, y.chunk + x.out, due)
            && forall ps :: Carries(y.reader, y.chunk + x.out, ps) ==> ps == due
  {
    var x, y := Near(s, left), Far(s, left);
    var dxy, dyx := ReachableInv(s, left);
    due := dxy;
    forall ps | Carries(y.reader, y.chunk + x.out, ps)
      ensures ps == due
    {
      CarriesOne(y.reader, y.chunk + x.out, ps, due);
    }
  }

  /**
   * Conservation: what the far side may still send, what is on its way, the window updates on their way back and what
   * is buffered here never exceed `peers_window_size_`, and are equal to it until this side sends or receives FIN.
   */
  lemma FlowConserved(s: System, left: bool, id: u32, toNear: seq<Packet>, toFar: seq<Packet>)
    requires Reachable(s) && id in Near(s, left).streams && id in Far(s, left).streams
    requires var x, y := Near(s, left), Far(s, left);
             Carries(x.reader, x.chunk + y.out, toNear) && Carries(y.reader, y.chunk + x.out, toFar)
    ensures var x, y := Near(s, left), Far(s, left);
            var t := x.streams[id];
            var total := y.streams[id].window + BytesUnderWay(y, toNear, id) + CreditUnderWay(x, toFar, id) +
              |t.buffered|;
            total <= t.peersWindow && (t.readable && !t.finSent ==> total == t.peersWindow)
  {
    var x, y := Near(s, left), Far(s, left);
    var dxy, dyx := ReachableInv(s, left);
    CarriesOne(x.reader, x.chunk + y.out, toNear, dyx);
    CarriesOne(y.reader, y.chunk + x.out, toFar, dxy);
    LiveStream(x, y, dxy, dyx, id);
    LiveBalance(x.streams[id], y.streams[id], View(x, y, dxy, dyx, id), SettingOf(x, y, id));
  }

  lemma LiveBalance(t: Stream, u: Stream, p: Pair, c: Setting)
    requires PairInv(p, c) && p.x == Live(t) && p.y == Live(u)
    ensures var total := u.window + |BytesIn(p.oy)| + CreditIn(p.ox) + |t.buffered|;
            total <= t.peersWindow && (t.readable && !t.finSent ==> total == t.peersWindow)
  {
  }

  /** Buffers stay within the window, even counting all the peer may still send. */
  lemma WithinWindow(s: System, left: bool, id: u32)
    requires Reachable(s) && id in Near(s, left).streams
    ensures var t := Near(s, left).streams[id];
            && |t.buffered| <= t.peersWindow <= Near(s, left).cfg.maxWindow
            && (id in Far(s, left).streams ==> Far(s, left).streams[id].window + |t.buffered| <= t.peersWindow)
  {
    var x, y := Near(s, left), Far(s, left);
    var dxy, dyx := ReachableInv(s, left);
    LiveStream(x, y, dxy, dyx, id);
  }

  /** Ids are used once and by the side of their parity; no closed stream is in a table. */
  lemma TablesAreConsistent(s: System, left: bool, id: u32)
    requires Reachable(s)
    ensures var x, y := Near(s, left), Far(s, left);
            && (id in x.streams ==> id !in x.opening && id !in x.past && x.streams[id].closeReason.None?)
            && (id in x.opening ==> id !in x.past && IsOutbound(x.newId, id))
            && (id in x.streams || id in x.opening || id in x.past ==>
                  id != 0 && id < if IsOutbound(x.newId, id) then x.newId else y.newId)
  {
    var x, y := Near(s, left), Far(s, left);
    var dxy, dyx := ReachableInv(s, left);
    if id in x.streams { LiveStream(x, y, dxy, dyx, id); }
    if id != 0 && !IsOutbound(x.newId, id) {
      var p := View(x, y, dxy, dyx, id);
      assert PairInv(p, SettingOf(x, y, id));
      assert p.y.Absent? ==> p.x.Absent?;
    }
  }

  /** The link is drained in both directions. */
  predicate Drained(c: Conn) {
    c.out == [] && c.chunk == [] && c.queue == [] && c.reader == YamuxReader.Fresh
  }

  lemma NothingDue(reader: YamuxReader.Reader, ps: seq<Packet>)
    requires Carries(reader, [], ps) && reader == YamuxReader.Fresh
    ensures ps == []
  {
  }

  lemma DrainedView(x: Conn, y: Conn, dxy: seq<Packet>, dyx: seq<Packet>, id: u32)
    requires Inv(x, y, dxy, dyx) && Drained(x) && Drained(y) && id in x.streams && id in y.streams
    ensures View(x, y, dxy, dyx, id) == Pair(Live(x.streams[id]), Live(y.streams[id]), [], [])
  {
    assert x.started && y.started && [] + y.out == [] && [] + x.out == [];
    NothingDue(x.reader, dyx);
    NothingDue(y.reader, dxy);
  }

  lemma BalancedPair(t: Stream, u: Stream, c: Setting)
    requires PairInv(Pair(Live(t), Live(u), [], []), c)
    ensures t.delivered + t.buffered == u.sent
    ensures t.readable ==> u.window + |t.buffered| == t.promised && (!t.finSent ==> t.promised == t.peersWindow)
    ensures !t.readable ==> u.finSent
  {
    assert t.delivered + t.buffered + [] == t.delivered + t.buffered;
  }

  /** With nothing under way, every byte sent is delivered or buffered and every byte of window is accounted for. */
  lemma DrainedBalance(s: System, left: bool, id: u32)
    requires Reachable(s) && Drained(s.a) && Drained(s.b) && id in Near(s, left).streams && id in Far(s, left).streams
    ensures var t, u := Near(s, left).streams[id], Far(s, left).streams[id];
            && t.delivered + t.buffered == u.sent
            && (t.readable && !t.finSent ==> u.window + |t.buffered| == t.peersWindow)
            && (!t.readable ==> u.finSent)
  {
    hide PairInv;
    var x, y := Near(s, left), Far(s, left);
    var dxy, dyx := ReachableInv(s, left);
    DrainedView(x, y, dxy, dyx, id);
    LiveStream(x, y, dxy, dyx, id);
    BalancedPair(x.streams[id], y.streams[id], SettingOf(x, y, id));
  }

  /**
   * No deadlock in flow control: when nothing is under way and a stream still has bytes to send, or still owes its
   * FIN, its peer sits on a full window of bytes that its own application has not read.
   */
  lemma StalledOnlyByReader(s: System, left: bool, id: u32)
    requires Reachable(s) && Drained(s.a) && Drained(s.b) && id in Near(s, left).streams && id in Far(s, left).streams
    requires var u := Far(s, left).streams[id];
             ValidQueue(u.queue) && (Unsent(u.queue) != [] || (!u.writable && !u.finSent))
    ensures var t := Near(s, left).streams[id];
            |t.buffered| == t.promised >= INITIAL_WINDOW && (!t.finSent ==> |t.buffered| == t.peersWindow)
  {
    var x, y := Near(s, left), Far(s, left);
    var dxy, dyx := ReachableInv(s, left);
    DrainedView(x, y, dxy, dyx, id);
    LiveStream(x, y, dxy, dyx, id);
    StalledPair(x.streams[id], y.streams[id], SettingOf(x, y, id));
  }

  lemma StalledPair(t: Stream, u: Stream, c: Setting)
    requires PairInv(Pair(Live(t), Live(u), [], []), c)
    requires ValidQueue(u.queue) && (Unsent(u.queue) != [] || (!u.writable && !u.finSent))
    ensures |t.buffered| == t.promised >= INITIAL_WINDOW
  {
    BalancedPair(t, u, c);
    assert u.window == 0 && !u.finSent;
  }

  // ---------------------------------------------------------------------------------------------
  // Errors.

  /**
   * The branches for a hostile or broken peer: unparsable header, wrong-way or repeated SYN, overflow, inconsistent
   * books.
   */
  ghost predicate MeetsErrorBranch(x: Conn)
    requires YamuxReader.ValidReader(x.reader) && x.reader.Reader? && x.chunk != []
  {
    match NextEvent(x)
    case BadHeader => true
    case Header(f) => FlagIsSet(f.flags, SYN) && f.streamId != 0 &&
      (IsOutbound(x.newId, f.streamId) || f.streamId in x.streams)
    case Segment(data, id, _, _) => id in x.streams && !OnData(x.streams[id], data).1.KeepStream?
    case _ => false
  }

  lemma HeaderIsClean(x: Conn, y: Conn, dxy: seq<Packet>, dyx: seq<Packet>)
    requires Inv(x, y, dxy, dyx) && x.started && x.chunk != [] && x.reader.unread == 0 &&
             |x.reader.header + x.chunk| >= HEADER_LENGTH
    ensures !MeetsErrorBranch(x)
  {
    hide Carries, WireBytes, PacketBytes, PairInv;
    TurnHeader(x.reader, x.chunk, y.out, dyx);
    OnlyFlag(FlagOf(dyx[0]));
    if dyx[0].PSyn? { SynFindsFree(x, AfterTurn(x), y, dxy, dyx, dyx[0].sid); }
  }

  lemma SegmentIsClean(x: Conn, y: Conn, dxy: seq<Packet>, dyx: seq<Packet>)
    requires Inv(x, y, dxy, dyx) && x.started && x.chunk != [] && x.reader.unread > 0 && x.reader.sid != 0
    ensures !MeetsErrorBranch(x)
  {
    TurnSegment(x.reader, x.chunk, y.out, dyx);
    if x.reader.sid in x.streams {
      var sent := DataArrives(x, AfterTurn(x), y, dxy, dyx, x.reader.sid, Min(x.reader.unread, |x.chunk|));
    }
  }

  /** Between two such connections no reading loop ever takes one of these branches. */
  lemma ErrorBranchesUnreachable(s: System, left: bool)
    requires Reachable(s) && Near(s, left).started && Near(s, left).chunk != []
    ensures YamuxReader.ValidReader(Near(s, left).reader) && Near(s, left).reader.Reader? &&
            !MeetsErrorBranch(Near(s, left))
  {
    var x, y := Near(s, left), Far(s, left);
    var dxy, dyx := ReachableInv(s, left);
    if x.reader.unread == 0 && |x.reader.header + x.chunk| >= HEADER_LENGTH {
      HeaderIsClean(x, y, dxy, dyx);
    } else if x.reader.unread > 0 && x.reader.sid != 0 {
      SegmentIsClean(x, y, dxy, dyx);
    }
  }

  lemma SendStarted(c: Conn, p: Packet)
    ensures SendPacket(c, p).started == c.started && SendPacket(c, p).streams == c.streams
  {
    hide PacketBytes;
  }

  lemma PerformStarted(c: Conn, id: u32, a: Action)
    ensures Perform(c, id, a).started == c.started
  {
    hide SendPacket;
    match a
    case SendData(data) => SendStarted(c, PData(id, data));
    case SendWindow(delta) => SendStarted(c, PWin(id, ToU32(delta)));
    case SendRst => SendStarted(c, PRst(id));
    case SendFin(_) => SendStarted(c, PFin(id));
    case _ =>
  }

  lemma {:induction false} PerformedStarted(c: Conn, id: u32, acts: seq<Action>)
    ensures PerformAll(c, id, acts).started == c.started
    decreases |acts|
  {
    hide Perform;
    if acts != [] {
      PerformStarted(c, id, acts[0]);
      PerformedStarted(Perform(c, id, acts[0]), id, acts[1..]);
    }
  }

  /** The packets that make a connection give up. */
  predicate GivesUp(c: Conn, p: Packet) {
    match p
    case PGoAway(_) => true
    case PAck(id) => id !in c.opening && id !in c.streams
    case PSyn(id) => IsOutbound(c.newId, id) || id in c.streams ||
      (!c.hasHandler && |c.streams| + |c.opening| <= c.cfg.maxStreams)
    case _ => false
  }

  lemma HandledStarted(c: Conn, p: Packet)
    requires c.started && Sendable(p)
    ensures Handled(c, p).started <==> !GivesUp(c, p)
  {
    hide PacketBytes, PerformAll, IncreaseWindow, ProcessFin, ProcessRst;
    match p
    case PFin(id) => FinStarted(c, id);
    case PRst(id) => RstStarted(c, id);
    case PPing(v) => SendStarted(c, PPong(v));
    case PWin(id, delta) =>
      if id in c.streams && ValidQueue(c.streams[id].queue) {
        var e := IncreaseWindow(c.streams[id], delta);
        PerformedStarted(c.(streams := c.streams[id := e.s]), id, e.acts);
      }
    case _ =>
  }

  lemma FinStarted(c: Conn, id: u32)
    ensures ProcessFin(c, id).started == c.started
  {
    hide OnFin, PerformAll;
    if id in c.streams {
      var e := OnFin(c.streams[id]).0;
      PerformedStarted(c.(streams := c.streams[id := e.s]), id, e.acts);
    }
  }

  lemma RstStarted(c: Conn, id: u32)
    ensures ProcessRst(c, id).started == c.started
  {
    hide OnRst, PerformAll;
    if id in c.streams {
      var e := OnRst(c.streams[id]);
      PerformedStarted(c.(streams := c.streams - {id}, past := c.past[id := RecordOf(e.s)]), id, e.acts);
    }
  }

  lemma SegmentStarted(c: Conn, data: seq<byte>, id: u32)
    ensures ProcessSegment(c, data, id, false, false).started == c.started
  {
    hide OnData, PerformAll, SendPacket;
    if data != [] && id in c.streams {
      var e := OnData(c.streams[id], data).0;
      var c1 := Apply(c, id, e);
      PerformedStarted(c.(streams := c.streams[id := e.s]), id, e.acts);
      SendStarted(Erase(c1, id).(reader := YamuxReader.Discard(c1.reader)), PRst(id));
    }
  }

  /**
   * What makes a reading loop close its connection: go-away, no handler for a new stream, an ACK that comes too late.
   */
  predicate EndsConnection(x: Conn, ev: YamuxReader.Event) {
    && ev.Header?
    && var f := ev.frame;
       || f.ty.GO_AWAY?
       || (FlagIsSet(f.flags, SYN) && f.streamId != 0 && !x.hasHandler && |x.streams| + |x.opening| <= x.cfg.maxStreams)
       || (FlagIsSet(f.flags, ACK) && f.streamId != 0 && f.streamId in x.past)
  }

  lemma HeaderEnds(x: Conn, y: Conn, dxy: seq<Packet>, dyx: seq<Packet>)
    requires Inv(x, y, dxy, dyx) && x.started && x.chunk != [] && x.reader.unread == 0 &&
             |x.reader.header + x.chunk| >= HEADER_LENGTH
    ensures !ReadStep(x).started <==> EndsConnection(x, NextEvent(x))
  {
    hide Carries, WireBytes, PacketBytes;
    TurnHeader(x.reader, x.chunk, y.out, dyx);
    var p, x1 := dyx[0], AfterTurn(x);
    HeaderHandled(x1, p);
    HandledStarted(x1, p);
    PacketEnds(x, x1, y, dxy, dyx, p);
  }

  lemma PacketEnds(x: Conn, x1: Conn, y: Conn, dxy: seq<Packet>, dyx: seq<Packet>, p: Packet)
    requires Inv(x, y, dxy, dyx) && dyx != [] && p == dyx[0] && Sendable(p) &&
             x1 == x.(reader := x1.reader, chunk := x1.chunk)
    requires !p.PData? ==> Taken(x, x1, y, dxy, dyx, p)
    ensures GivesUp(x1, p) <==> EndsConnection(x, YamuxReader.Header(HeaderOf(p)))
  {
    OnlyFlag(FlagOf(p));
    match p
    case PSyn(id) => SynFindsFree(x, x1, y, dxy, dyx, id);
    case PAck(id) => HeadEnd(x, x1, y, dxy, dyx, p, id, Msg.Ack);
    case _ =>
  }

  /**
   * The exact condition under which a turn of the reading loop closes the connection. Between two such connections a
   * protocol error arises in one way: the ACK of a stream that this side has already erased.
   */
  lemma ConnectionEndsExactly(s: System, left: bool)
    requires Reachable(s) && Near(s, left).started && Near(s, left).chunk != []
    ensures var x := Near(s, left);
            && YamuxReader.ValidReader(x.reader) && x.reader.Reader?
            && (!ReadStep(x).started <==> EndsConnection(x, NextEvent(x)))
  {
    hide ProcessHeader, ProcessSegment, CloseConn, PairInv;
    var x, y := Near(s, left), Far(s, left);
    var dxy, dyx := ReachableInv(s, left);
    if x.reader.unread == 0 && |x.reader.header + x.chunk| >= HEADER_LENGTH {
      HeaderEnds(x, y, dxy, dyx);
    } else if x.reader.unread > 0 && x.reader.sid != 0 {
      TurnSegment(x.reader, x.chunk, y.out, dyx);
      SegmentStarted(AfterTurn(x), NextEvent(x).data, x.reader.sid);
    }
  }

  /** The completion of a write always matches the oldest bytes its stream still waits for. */
  lemma CompletionsMatch(s: System, left: bool)
    requires Reachable(s) && Near(s, left).writing.Busy?
    ensures var x := Near(s, left); var p := x.writing.packet;
            p.PData? && p.sid in x.streams ==>
              ValidQueue(x.streams[p.sid].queue) && !AckSent(x.streams[p.sid].queue, |p.data|).Inconsistent?
  {
    var x, y := Near(s, left), Far(s, left);
    var dxy, dyx := ReachableInv(s, left);
    var p := x.writing.packet;
    if p.PData? && p.sid in x.streams {
      LiveStream(x, y, dxy, dyx, p.sid);
      SizesRest(x, p.sid);
      AckOutstanding(x.streams[p.sid].queue, SizesFor(p.sid, Unacked(x)));
    }
  }
}
