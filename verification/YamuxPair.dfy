/**
 * One stream seen from both ends. `x` and `y` are the two endpoints' views of the stream, `ox` and `oy` the
 * messages of that stream on their way from `x` to `y` and back. The invariant ties the flow-control windows,
 * the bytes in flight and the bytes delivered together, and every step of either end is proved to keep it.
 */
module YamuxPair {
  import opened Basics
  import opened YamuxFrame
  import opened WriteQueues
  import opened YamuxStreamSpec
  import opened YamuxStreamRuns

  datatype Msg = Syn | Ack | Data(bytes: seq<byte>) | Win(delta: nat) | Fin | Rst

  /** What remains of a stream that left the table. */
  datatype Record = Record(accepted: seq<byte>, sent: seq<byte>, delivered: seq<byte>, finSent: bool)

  /** `Opening`: SYN sent, waiting for the peer's ACK before a stream object exists. */
  datatype End = Absent | Opening | Live(s: Stream) | Gone(r: Record)

  const NOTHING := Record([], [], [], false)

  function RecordOf(s: Stream): Record { Record(s.accepted, s.sent, s.delivered, s.finSent) }

  function History(e: End): Record {
    match e
    case Live(s) => RecordOf(s)
    case Gone(r) => r
    case _ => NOTHING
  }

  /** How much this end may still send. */
  function WindowLeft(e: End): nat {
    match e
    case Live(s) => s.window
    case Gone(_) => 0
    case _ => INITIAL_WINDOW
  }

  function BytesIn(ms: seq<Msg>): seq<byte> {
    if ms == [] then [] else (if ms[0].Data? then ms[0].bytes else []) + BytesIn(ms[1..])
  }

  function CreditIn(ms: seq<Msg>): nat {
    if ms == [] then 0 else (if ms[0].Win? then ms[0].delta else 0) + CreditIn(ms[1..])
  }

  predicate FinIn(ms: seq<Msg>) { ms != [] && (ms[0].Fin? || FinIn(ms[1..])) }

  /** No data and no second FIN behind a FIN. */
  predicate FinOrdered(ms: seq<Msg>) {
    ms != [] ==> if ms[0].Fin? then BytesIn(ms[1..]) == [] && !FinIn(ms[1..]) else FinOrdered(ms[1..])
  }

  predicate Without(ms: seq<Msg>, m: Msg) { forall i :: 0 <= i < |ms| ==> ms[i] != m }

  lemma {:induction false} MsgsAppend(a: seq<Msg>, b: seq<Msg>)
    ensures BytesIn(a + b) == BytesIn(a) + BytesIn(b) && CreditIn(a + b) == CreditIn(a) + CreditIn(b)
    ensures FinIn(a + b) <==> FinIn(a) || FinIn(b)
    ensures FinOrdered(a) && FinOrdered(b) && (FinIn(a) ==> BytesIn(b) == [] && !FinIn(b)) ==> FinOrdered(a + b)
  {
    if a == [] {
      assert a + b == b;
    } else {
      assert (a + b)[1..] == a[1..] + b;
      MsgsAppend(a[1..], b);
      Assoc(if a[0].Data? then a[0].bytes else [], BytesIn(a[1..]), BytesIn(b));
    }
  }

  /** The messages a stream's actions put on the wire. */
  function MsgsOf(acts: seq<Action>): seq<Msg> {
    if acts == [] then []
    else (match acts[0]
          case SendData(d) => [Data(d)]
          case SendWindow(n) => [Win(n)]
          case SendFin(_) => [Fin]
          case SendRst => [Rst]
          case _ => []) + MsgsOf(acts[1..])
  }

  lemma {:induction false} MsgsOfActs(acts: seq<Action>)
    ensures BytesIn(MsgsOf(acts)) == DataOf(acts) && CreditIn(MsgsOf(acts)) == CreditOf(acts)
    ensures FinIn(MsgsOf(acts)) <==> HasFin(acts)
    ensures FinLast(acts) ==> FinOrdered(MsgsOf(acts))
    ensures Without(MsgsOf(acts), Syn) && Without(MsgsOf(acts), Ack)
  {
    if acts != [] {
      MsgsOfActs(acts[1..]);
      var first := MsgsOf(acts)[..|MsgsOf(acts)| - |MsgsOf(acts[1..])|];
      assert MsgsOf(acts) == first + MsgsOf(acts[1..]);
      OneMsg(first);
      MsgsAppend(first, MsgsOf(acts[1..]));
    }
  }

  lemma OneMsg(ms: seq<Msg>)
    requires |ms| <= 1
    ensures BytesIn(ms) == (if |ms| == 1 && ms[0].Data? then ms[0].bytes else [])
    ensures CreditIn(ms) == (if |ms| == 1 && ms[0].Win? then ms[0].delta else 0)
    ensures FinIn(ms) <==> |ms| == 1 && ms[0].Fin?
    ensures FinOrdered(ms)
  {
    if |ms| == 1 { assert ms[1..] == []; }
  }

  lemma {:induction false} QuietMsgs(acts: seq<Action>)
    requires Quiet(acts)
    ensures MsgsOf(acts) == []
  {
    if acts != [] { QuietMsgs(acts[1..]); }
  }

  // ---------------------------------------------------------------------------------------------
  // Invariant.

  predicate EndOk(e: End, max: nat) {
    match e
    case Live(s) => ValidStream(s) && s.closeReason.None? && s.maxWindow == max
    case Gone(r) => r.sent <= r.accepted && (r.finSent ==> r.sent == r.accepted)
    case _ => true
  }

  /** Data flows from `x` to `y`. */
  predicate FlowInv(x: End, y: End, ox: seq<Msg>, oy: seq<Msg>, maxY: nat) {
    var flight := WindowLeft(x) + |BytesIn(ox)| + CreditIn(oy);
    match y
    case Live(s) =>
      && flight + |s.buffered| <= s.promised
      && (!x.Gone? && s.readable ==> flight + |s.buffered| == s.promised)
    case Gone(_) => WindowLeft(x) + CreditIn(oy) <= maxY
    case _ => flight <= INITIAL_WINDOW && (!x.Gone? ==> flight == INITIAL_WINDOW)
  }

  predicate DeliveryInv(x: End, y: End, ox: seq<Msg>) {
    match y
    case Live(s) => s.delivered + s.buffered + BytesIn(ox) == History(x).sent
    case Gone(r) => r.delivered <= History(x).sent
    case _ => BytesIn(ox) == History(x).sent
  }

  /** FIN is last, and once `y` saw it, nothing is left in flight. */
  predicate FinInv(x: End, y: End, ox: seq<Msg>) {
    && FinOrdered(ox) && (FinIn(ox) ==> History(x).finSent)
    && (y.Live? && !y.s.readable ==> History(x).finSent && BytesIn(ox) == [] && !FinIn(ox))
  }

  predicate DirInv(x: End, y: End, ox: seq<Msg>, oy: seq<Msg>, maxY: nat) {
    FlowInv(x, y, ox, oy, maxY) && DeliveryInv(x, y, ox) && FinInv(x, y, ox)
  }

  /** `a` opens the stream, `b` accepts it. */
  predicate Handshake(a: End, b: End, oa: seq<Msg>, ob: seq<Msg>) {
    && Without(oa, Ack) && Without(ob, Syn) && !b.Opening?
    && (a.Absent? ==> b.Absent? && oa == [] && ob == [])
    && (b.Absent? ==> ob == [] && (!a.Absent? ==> oa != [] && oa[0].Syn? && Without(oa[1..], Syn)))
    && (!b.Absent? ==> Without(oa, Syn))
    && (a.Opening? && b.Absent? ==> oa == [Syn])
    && (a.Opening? && !b.Absent? ==> oa == [] && (ob == [] ==> b.Gone?) && (ob != [] ==> ob[0].Ack? || ob[0].Rst?))
  }

  datatype Pair = Pair(x: End, y: End, ox: seq<Msg>, oy: seq<Msg>)

  datatype Setting = Setting(xOpens: bool, maxX: nat, maxY: nat)

  predicate PairInv(p: Pair, c: Setting) {
    && EndOk(p.x, c.maxX) && EndOk(p.y, c.maxY)
    && DirInv(p.x, p.y, p.ox, p.oy, c.maxY) && DirInv(p.y, p.x, p.oy, p.ox, c.maxX)
    && (if c.xOpens then Handshake(p.x, p.y, p.ox, p.oy) else Handshake(p.y, p.x, p.oy, p.ox))
  }

  function Swap(p: Pair): Pair { Pair(p.y, p.x, p.oy, p.ox) }

  function SwapSetting(c: Setting): Setting { Setting(!c.xOpens, c.maxY, c.maxX) }

  lemma SwapInv(p: Pair, c: Setting)
    ensures PairInv(p, c) <==> PairInv(Swap(p), SwapSetting(c))
  {
  }

  // ---------------------------------------------------------------------------------------------
  // Steps of end `x`; the other end's steps are these on the swapped pair.

  /** A stream leaves the table exactly when it is closed. */
  function After(e: Effect): End { if e.s.closeReason.Some? then Gone(RecordOf(e.s)) else Live(e.s) }

  function Before(got: seq<byte>, rest: seq<byte>): seq<byte> { if got == [] then rest else got + rest }

  /** What takes `oy` to `oy'`: nothing, or the arrival of `got` bytes or `credit` at `x`. */
  predicate Consumed(oy: seq<Msg>, oy': seq<Msg>, got: seq<byte>, credit: nat) {
    && BytesIn(oy) == Before(got, BytesIn(oy')) && CreditIn(oy) == credit + CreditIn(oy')
    && (FinIn(oy) <==> FinIn(oy')) && (FinOrdered(oy) ==> FinOrdered(oy'))
  }

  lemma OutgoingDelivery(s: Stream, t: Stream, d: seq<byte>, x': End, y: End, ox: seq<Msg>, ox': seq<Msg>)
    requires DeliveryInv(Live(s), y, ox) && Grows(t.sent, s.sent, d) && BytesIn(ox') == BytesIn(ox) + d
    requires History(x') == RecordOf(t)
    ensures DeliveryInv(x', y, ox')
  {
    assert BytesIn(ox) + [] == BytesIn(ox);
    if y.Live? {
      assert y.s.delivered + y.s.buffered + (BytesIn(ox) + d) == y.s.delivered + y.s.buffered + BytesIn(ox) + d;
    }
  }

  lemma OutgoingFin(s: Stream, e: Effect, x': End, y: End, ox: seq<Msg>)
    requires FinInv(Live(s), y, ox) && FinDiscipline(s, e) && History(x') == RecordOf(e.s)
    ensures FinInv(x', y, ox + MsgsOf(e.acts))
  {
    MsgsOfActs(e.acts);
    MsgsAppend(ox, MsgsOf(e.acts));
  }

  /** An event on a live stream keeps the data flow towards the peer. */
  lemma OutgoingKept(s: Stream, e: Effect, y: End, ox: seq<Msg>, oy: seq<Msg>, oy': seq<Msg>, got: seq<byte>,
                     credit: nat, maxY: nat)
    requires ValidStream(s) && s.closeReason.None? && Kept(s, e, got, credit)
    requires DirInv(Live(s), y, ox, oy, maxY) && CreditIn(oy) == credit + CreditIn(oy')
    ensures DirInv(After(e), y, ox + MsgsOf(e.acts), oy', maxY)
  {
    MsgsOfActs(e.acts);
    MsgsAppend(ox, MsgsOf(e.acts));
    OutgoingDelivery(s, e.s, DataOf(e.acts), After(e), y, ox, ox + MsgsOf(e.acts));
    OutgoingFin(s, e, After(e), y, ox);
    assert FlowInv(After(e), y, ox + MsgsOf(e.acts), oy', maxY);
  }

  lemma JoinBefore(a: seq<byte>, got: seq<byte>, rest: seq<byte>)
    ensures a + Before(got, rest) == Joined(a, got) + rest && Joined(a, got) <= a + Before(got, rest)
  {
    if got != [] { Assoc(a, got, rest); }
  }

  lemma IncomingDelivery(s: Stream, e: Effect, y: End, oy: seq<Msg>, oy': seq<Msg>, got: seq<byte>, credit: nat)
    requires Books(s, e, got, credit) && DeliveryInv(y, Live(s), oy) && BytesIn(oy) == Before(got, BytesIn(oy'))
    ensures DeliveryInv(y, After(e), oy')
  {
    JoinBefore(s.delivered + s.buffered, got, BytesIn(oy'));
  }

  /** An event on a live stream keeps the data flow from the peer, as long as it does not stop reading. */
  lemma IncomingKept(s: Stream, e: Effect, y: End, ox: seq<Msg>, oy: seq<Msg>, oy': seq<Msg>, got: seq<byte>,
                     credit: nat, maxX: nat)
    requires ValidStream(s) && s.closeReason.None? && s.maxWindow == maxX && Kept(s, e, got, credit)
    requires DirInv(y, Live(s), oy, ox, maxX) && Consumed(oy, oy', got, credit)
    requires StaysReadable(s, e)
    ensures DirInv(y, After(e), oy', ox + MsgsOf(e.acts), maxX)
  {
    assert BytesIn(ox + MsgsOf(e.acts)) == BytesIn(ox) + DataOf(e.acts) &&
      CreditIn(ox + MsgsOf(e.acts)) == CreditIn(ox) + CreditOf(e.acts) by {
      MsgsOfActs(e.acts);
      MsgsAppend(ox, MsgsOf(e.acts));
    }
    assert DeliveryInv(y, After(e), oy') by { IncomingDelivery(s, e, y, oy, oy', got, credit); }
    assert FlowInv(y, After(e), oy', ox + MsgsOf(e.acts), maxX);
  }

  /** Whether an event of the application or the connection can be one of `x` acting alone. */
  predicate Own(ev: Event) {
    ev.WriteSome? || ev.ReadSome? || ev.CloseIt? || ev.ResetIt? || ev.Adjust? || ev.Written? || ev.ConnectionClosed?
  }

  /** Only FIN ends reading while the stream stays open. */
  predicate StaysReadable(s: Stream, e: Effect) { e.s.closeReason.None? ==> e.s.readable == s.readable }

  lemma FlushReadable(s: Stream, s1: Stream)
    requires ValidQueue(s1.queue) && s1.readable == s.readable
    ensures StaysReadable(s, Flush(s1))
  {
  }

  lemma DataReadable(s: Stream, bytes: seq<byte>)
    ensures StaysReadable(s, OnData(s, bytes).0)
  {
  }

  lemma WriteReadable(s: Stream, data: seq<byte>, cb: Callback)
    requires ValidQueue(s.queue)
    ensures StaysReadable(s, Write(s, data, cb))
  {
    if data != [] && s.writable && s.closeReason.None? && CanEnqueue(s.queue, |data|) {
      EnqueueKeeps(s.queue, data, cb);
      FlushReadable(s, s.(queue := Enqueue(s.queue, data, cb), accepted := s.accepted + data));
    }
  }

  lemma OwnReadable(s: Stream, ev: Event)
    requires ValidStream(s) && Allowed(s, ev) && Own(ev)
    ensures StaysReadable(s, Step(s, ev))
  {
    match ev
    case WriteSome(data, cb) => WriteReadable(s, data, cb);
    case CloseIt(cb) => if s.closeReason.None? && s.writable { FlushReadable(s, s.(closeCb := cb, writable := false)); }
    case ReadSome(size, cb) =>
    case ResetIt =>
    case Adjust(size, cb) =>
    case Written(n) =>
    case ConnectionClosed(code) =>
  }

  lemma HandshakeKept(x: End, x': End, y: End, ox: seq<Msg>, more: seq<Msg>, oy: seq<Msg>, xOpens: bool)
    requires if xOpens then Handshake(x, y, ox, oy) else Handshake(y, x, oy, ox)
    requires x.Live? || x.Gone?
    requires x'.Live? || x'.Gone?
    requires Without(more, Syn) && Without(more, Ack) &&
             (x.Gone? ==> x'.Gone? && forall i :: 0 <= i < |more| ==> more[i].Rst?)
    ensures if xOpens then Handshake(x', y, ox + more, oy) else Handshake(y, x', oy, ox + more)
  {
    if xOpens && y.Absent? {
      assert (ox + more)[1..] == ox[1..] + more;
    }
  }

  /** Every event in which `x` acts on its own. */
  lemma OwnEventKeeps(p: Pair, c: Setting, ev: Event)
    requires PairInv(p, c) && p.x.Live? && Own(ev) && Allowed(p.x.s, ev)
    ensures var e := Step(p.x.s, ev);
            PairInv(p.(x := After(e), ox := p.ox + MsgsOf(e.acts)), c)
  {
    var e := Step(p.x.s, ev);
    StepKept(p.x.s, ev);
    OwnReadable(p.x.s, ev);
    EventKeeps(p, c, e, p.oy, [], 0);
  }

  lemma EventKeeps(p: Pair, c: Setting, e: Effect, oy': seq<Msg>, got: seq<byte>, credit: nat)
    requires PairInv(p, c) && p.x.Live? && Kept(p.x.s, e, got, credit) && Consumed(p.oy, oy', got, credit)
    requires StaysReadable(p.x.s, e)
    requires if c.xOpens then Handshake(p.x, p.y, p.ox, oy') else Handshake(p.y, p.x, oy', p.ox)
    ensures PairInv(p.(x := After(e), ox := p.ox + MsgsOf(e.acts), oy := oy'), c)
  {
    OutgoingKept(p.x.s, e, p.y, p.ox, p.oy, oy', got, credit, c.maxY);
    IncomingKept(p.x.s, e, p.y, p.ox, p.oy, oy', got, credit, c.maxX);
    MsgsOfActs(e.acts);
    HandshakeKept(p.x, After(e), p.y, p.ox, MsgsOf(e.acts), oy', c.xOpens);
  }

  /** A stream that leaves the table without an event of its own: abandoned, or never more than opening. */
  lemma LeaveKeeps(p: Pair, c: Setting, more: seq<Msg>)
    requires PairInv(p, c) && !p.x.Absent? && (more == [] || (more == [Rst] && !p.x.Opening?))
    requires c.maxX >= INITIAL_WINDOW
    ensures PairInv(p.(x := Gone(History(p.x)), ox := p.ox + more), c)
  {
    RstCarriesNothing(p.ox, more);
    LeaveDirections(p, c, p.ox + more);
    LeaveHandshake(p.x, Gone(History(p.x)), p.y, p.ox, more, p.oy, c.xOpens);
  }

  lemma LeaveHandshake(x: End, x': End, y: End, ox: seq<Msg>, more: seq<Msg>, oy: seq<Msg>, xOpens: bool)
    requires if xOpens then Handshake(x, y, ox, oy) else Handshake(y, x, oy, ox)
    requires !x.Absent? && x'.Gone? && (more == [] || (more == [Rst] && !x.Opening?))
    ensures if xOpens then Handshake(x', y, ox + more, oy) else Handshake(y, x', oy, ox + more)
  {
    if x.Opening? {
      assert ox + more == ox;
      OpeningHandshake(y, ox, oy, x', xOpens);
    } else {
      HandshakeKept(x, x', y, ox, more, oy, xOpens);
    }
  }

  lemma OpeningHandshake(y: End, ox: seq<Msg>, oy: seq<Msg>, x': End, xOpens: bool)
    requires if xOpens then Handshake(Opening, y, ox, oy) else Handshake(y, Opening, oy, ox)
    requires x'.Gone?
    ensures if xOpens then Handshake(x', y, ox, oy) else Handshake(y, x', oy, ox)
  {
  }

  lemma RstCarriesNothing(ox: seq<Msg>, more: seq<Msg>)
    requires (more == [] || more == [Rst]) && FinOrdered(ox)
    ensures BytesIn(ox + more) == BytesIn(ox) && CreditIn(ox + more) == CreditIn(ox)
    ensures FinOrdered(ox + more) && (FinIn(ox + more) <==> FinIn(ox))
  {
    OneMsg(more);
    MsgsAppend(ox, more);
    assert BytesIn(ox) + [] == BytesIn(ox);
  }

  lemma LeaveDirections(p: Pair, c: Setting, ox': seq<Msg>)
    requires EndOk(p.x, c.maxX) && DirInv(p.x, p.y, p.ox, p.oy, c.maxY) && DirInv(p.y, p.x, p.oy, p.ox, c.maxX) &&
             c.maxX >= INITIAL_WINDOW
    requires BytesIn(ox') == BytesIn(p.ox) && CreditIn(ox') == CreditIn(p.ox) && FinOrdered(ox') &&
             (FinIn(ox') <==> FinIn(p.ox))
    ensures EndOk(Gone(History(p.x)), c.maxX)
    ensures DirInv(Gone(History(p.x)), p.y, ox', p.oy, c.maxY) && DirInv(p.y, Gone(History(p.x)), p.oy, ox', c.maxX)
  {
    if p.x.Live? { assert p.x.s.delivered <= p.x.s.delivered + p.x.s.buffered + BytesIn(p.oy); }
  }

  /** Opening a stream, with or without waiting for the acknowledgement. */
  lemma OpenKeeps(p: Pair, c: Setting, x': End, limit: nat)
    requires PairInv(p, c) && c.xOpens && p.x.Absent? && c.maxX >= INITIAL_WINDOW
    requires x' == Opening || x' == Live(NewStream(c.maxX, limit))
    ensures PairInv(p.(x := x', ox := p.ox + [Syn]), c)
  {
    assert p.ox + [Syn] == [Syn];
    OneMsg([Syn]);
  }

  // ---------------------------------------------------------------------------------------------
  // Arrivals at `x`: the first message of `oy`.

  lemma FirstMsg(oy: seq<Msg>)
    requires oy != []
    ensures BytesIn(oy) == (if oy[0].Data? then oy[0].bytes else []) + BytesIn(oy[1..])
    ensures CreditIn(oy) == (if oy[0].Win? then oy[0].delta else 0) + CreditIn(oy[1..])
    ensures FinOrdered(oy) ==> FinOrdered(oy[1..])
    ensures !oy[0].Fin? ==> (FinIn(oy) <==> FinIn(oy[1..]))
    ensures oy[0].Fin? && FinOrdered(oy) ==> BytesIn(oy[1..]) == [] && !FinIn(oy[1..])
  {
    if FinOrdered(oy) && oy[0].Fin? { FinFree(oy[1..]); }
  }

  lemma {:induction false} FinFree(ms: seq<Msg>)
    requires !FinIn(ms)
    ensures FinOrdered(ms)
  {
    if ms != [] { FinFree(ms[1..]); }
  }

  /** The handshake survives the removal of a message other than SYN and ACK, unless `x` waits for an answer. */
  lemma HandshakePop(x: End, y: End, ox: seq<Msg>, oy: seq<Msg>, xOpens: bool)
    requires oy != [] && !oy[0].Syn? && !x.Opening? && !x.Absent?
    requires if xOpens then Handshake(x, y, ox, oy) else Handshake(y, x, oy, ox)
    ensures if xOpens then Handshake(x, y, ox, oy[1..]) else Handshake(y, x, oy[1..], ox)
  {
  }

  /** An ACK to a live stream, or any message but SYN and ACK to one that is gone, changes nothing. */
  lemma IgnoredKeeps(p: Pair, c: Setting)
    requires PairInv(p, c) && p.oy != [] && !p.oy[0].Syn?
    requires (p.x.Live? && p.oy[0].Ack?) || (p.x.Live? && p.oy[0] == Win(0)) || p.x.Gone?
    ensures PairInv(p.(oy := p.oy[1..]), c)
  {
    FirstMsg(p.oy);
    HandshakePop(p.x, p.y, p.ox, p.oy, c.xOpens);
    if p.x.Live? {
      assert [] + BytesIn(p.oy[1..]) == BytesIn(p.oy[1..]);
    }
  }

  /** What can arrive in which state: in particular a SYN always finds the stream absent on the accepting side. */
  lemma HeadCases(p: Pair, c: Setting)
    requires PairInv(p, c) && p.oy != []
    ensures p.oy[0].Syn? ==> !c.xOpens && p.x.Absent?
    ensures p.oy[0].Ack? ==> c.xOpens && !p.x.Absent?
    ensures p.oy[0].Data? || p.oy[0].Win? || p.oy[0].Fin? ==> p.x.Live? || p.x.Gone?
    ensures p.oy[0].Rst? ==> !p.x.Absent?
  {
    assert c.xOpens ==> !p.oy[0].Syn?;
    assert !c.xOpens ==> !p.oy[0].Ack?;
  }

  /** SYN: the stream is created and acknowledged, or refused, with RST unless the connection is given up. */
  lemma SynKeeps(p: Pair, c: Setting, x': End, reply: seq<Msg>, limit: nat)
    requires PairInv(p, c) && p.oy != [] && p.oy[0].Syn? && c.maxX >= INITIAL_WINDOW
    requires (x' == Live(NewStream(c.maxX, limit)) && reply == [Ack]) ||
             (x' == Gone(NOTHING) && (reply == [Rst] || reply == []))
    ensures PairInv(Pair(x', p.y, p.ox + reply, p.oy[1..]), c)
  {
    HeadCases(p, c);
    FirstMsg(p.oy);
    assert p.ox + reply == reply;
    OneMsg(reply);
    SynDirections(p.y, x', reply, p.oy, c);
  }

  lemma SynDirections(y: End, x': End, reply: seq<Msg>, oy: seq<Msg>, c: Setting)
    requires EndOk(y, c.maxY) && DirInv(Absent, y, [], oy, c.maxY) && DirInv(y, Absent, oy, [], c.maxX) &&
             c.maxX >= INITIAL_WINDOW
    requires !y.Absent? && oy != [] && oy[0].Syn? && BytesIn(oy) == BytesIn(oy[1..]) &&
             CreditIn(oy) == CreditIn(oy[1..])
    requires FinOrdered(oy[1..]) && (FinIn(oy) <==> FinIn(oy[1..]))
    requires BytesIn(reply) == [] && CreditIn(reply) == 0 && FinOrdered(reply) && !FinIn(reply)
    requires x' == Gone(NOTHING) || (x'.Live? && exists limit: nat :: x'.s == NewStream(c.maxX, limit))
    ensures DirInv(x', y, reply, oy[1..], c.maxY) && DirInv(y, x', oy[1..], reply, c.maxX)
  {
    assert [] + [] + BytesIn(oy) == BytesIn(oy);
  }

  /** ACK: a waiting end gets its stream. */
  lemma AckKeeps(p: Pair, c: Setting, limit: nat)
    requires PairInv(p, c) && p.oy != [] && p.oy[0].Ack? && p.x.Opening? && c.maxX >= INITIAL_WINDOW
    ensures PairInv(p.(x := Live(NewStream(c.maxX, limit)), oy := p.oy[1..]), c)
  {
    HeadCases(p, c);
    FirstMsg(p.oy);
    assert [] + BytesIn(p.oy[1..]) == BytesIn(p.oy[1..]);
  }

  lemma WinEvent(p: Pair, c: Setting, e: Effect)
    requires PairInv(p, c) && p.oy != [] && p.oy[0].Win? && p.x.Live? && e == IncreaseWindow(p.x.s, p.oy[0].delta)
    ensures PairInv(Pair(After(e), p.y, p.ox + MsgsOf(e.acts), p.oy[1..]), c)
  {
    hide ValidQueue, Flush, Unsent;
    var delta, rest := p.oy[0].delta, p.oy[1..];
    IncreaseWindowKept(p.x.s, delta);
    assert StaysReadable(p.x.s, e) by { if delta > 0 { FlushReadable(p.x.s, p.x.s.(window := p.x.s.window + delta)); } }
    FirstMsg(p.oy);
    assert [] + BytesIn(rest) == BytesIn(rest);
    HandshakePop(p.x, p.y, p.ox, p.oy, c.xOpens);
    EventKeeps(p, c, e, rest, [], delta);
  }

  /** The first `k` bytes of a data message are taken; the rest, if any, stays first. */
  function TakeData(oy: seq<Msg>, k: nat): seq<Msg>
    requires oy != [] && oy[0].Data? && k <= |oy[0].bytes|
  {
    (if k < |oy[0].bytes| then [Data(oy[0].bytes[k..])] else []) + oy[1..]
  }

  lemma CutBytes(b: seq<byte>, k: nat, left: seq<byte>, rest: seq<byte>)
    requires k <= |b| && left == if k < |b| then b[k..] else []
    ensures b + rest == Before(b[..k], left + rest)
  {
    assert b[..k] + left == b;
    Assoc(b[..k], left, rest);
  }

  lemma TakeDataConsumes(oy: seq<Msg>, k: nat)
    requires oy != [] && oy[0].Data? && k <= |oy[0].bytes|
    ensures Consumed(oy, TakeData(oy, k), oy[0].bytes[..k], 0)
  {
    FirstMsg(oy);
    var left := if k < |oy[0].bytes| then [Data(oy[0].bytes[k..])] else [];
    OneMsg(left);
    MsgsAppend(left, oy[1..]);
    CutBytes(oy[0].bytes, k, BytesIn(left), BytesIn(oy[1..]));
  }

  lemma TakeDataWithout(oy: seq<Msg>, k: nat, m: Msg)
    requires oy != [] && oy[0].Data? && k <= |oy[0].bytes| && !m.Data? && Without(oy, m)
    ensures Without(TakeData(oy, k), m)
  {
  }

  lemma DataHandshake(x: End, y: End, ox: seq<Msg>, oy: seq<Msg>, k: nat, xOpens: bool)
    requires oy != [] && oy[0].Data? && k <= |oy[0].bytes| && (x.Live? || x.Gone?)
    requires if xOpens then Handshake(x, y, ox, oy) else Handshake(y, x, oy, ox)
    ensures var oy' := TakeData(oy, k); if xOpens then Handshake(x, y, ox, oy') else Handshake(y, x, oy', ox)
  {
    if Without(oy, Syn) { TakeDataWithout(oy, k, Syn); }
    if Without(oy, Ack) { TakeDataWithout(oy, k, Ack); }
  }

  /** Between two such ends data always fits: the overflow branch is never taken. */
  lemma DataFits(p: Pair, c: Setting, k: nat)
    requires PairInv(p, c) && p.oy != [] && p.oy[0].Data? && p.x.Live? && k <= |p.oy[0].bytes|
    ensures var (e, v) := OnData(p.x.s, p.oy[0].bytes[..k]); v.KeepStream? && e.s.closeReason.None?
  {
    FirstMsg(p.oy);
    OnDataKept(p.x.s, p.oy[0].bytes[..k]);
  }

  lemma DataKeeps(p: Pair, c: Setting, k: nat)
    requires PairInv(p, c) && p.oy != [] && p.oy[0].Data? && p.x.Live? && k <= |p.oy[0].bytes|
    ensures var e := OnData(p.x.s, p.oy[0].bytes[..k]).0;
            PairInv(Pair(After(e), p.y, p.ox + MsgsOf(e.acts), TakeData(p.oy, k)), c)
  {
    var got := p.oy[0].bytes[..k];
    TakeDataConsumes(p.oy, k);
    DataHandshake(p.x, p.y, p.ox, p.oy, k, c.xOpens);
    OnDataKept(p.x.s, got);
    DataReadable(p.x.s, got);
    EventKeeps(p, c, OnData(p.x.s, got).0, TakeData(p.oy, k), got, 0);
  }

  lemma FinIncoming(s: Stream, e: Effect, y: End, ox: seq<Msg>, oy: seq<Msg>, maxX: nat)
    requires ValidStream(s) && s.closeReason.None? && s.maxWindow == maxX && e == OnFin(s).0
    requires DirInv(y, Live(s), oy, ox, maxX) && oy != [] && oy[0].Fin?
    ensures DirInv(y, After(e), oy[1..], ox + MsgsOf(e.acts), maxX)
  {
    OnFinKept(s);
    FirstMsg(oy);
    QuietMsgs(e.acts);
    assert ox + [] == ox;
    assert [] + BytesIn(oy[1..]) == BytesIn(oy[1..]);
    assert s.delivered + s.buffered + [] == s.delivered + s.buffered;
  }

  lemma FinKeeps(p: Pair, c: Setting)
    requires PairInv(p, c) && p.oy != [] && p.oy[0].Fin? && p.x.Live?
    ensures var e := OnFin(p.x.s).0;
            PairInv(Pair(After(e), p.y, p.ox + MsgsOf(e.acts), p.oy[1..]), c)
  {
    var e := OnFin(p.x.s).0;
    OnFinKept(p.x.s);
    FirstMsg(p.oy);
    FinIncoming(p.x.s, e, p.y, p.ox, p.oy, c.maxX);
    OutgoingKept(p.x.s, e, p.y, p.ox, p.oy, p.oy[1..], [], 0, c.maxY);
    HandshakePop(p.x, p.y, p.ox, p.oy, c.xOpens);
    MsgsOfActs(e.acts);
    HandshakeKept(p.x, After(e), p.y, p.ox, MsgsOf(e.acts), p.oy[1..], c.xOpens);
  }

  lemma RstKeeps(p: Pair, c: Setting)
    requires PairInv(p, c) && p.oy != [] && p.oy[0].Rst? && p.x.Live?
    ensures var e := OnRst(p.x.s);
            PairInv(Pair(After(e), p.y, p.ox + MsgsOf(e.acts), p.oy[1..]), c)
  {
    FirstMsg(p.oy);
    HandshakePop(p.x, p.y, p.ox, p.oy, c.xOpens);
    OnRstKept(p.x.s);
    EventKeeps(p, c, OnRst(p.x.s), p.oy[1..], [], 0);
  }

  /** RST to an end that still waits for its stream. */
  lemma RefusedKeeps(p: Pair, c: Setting)
    requires PairInv(p, c) && p.oy != [] && p.oy[0].Rst? && p.x.Opening? && c.maxX >= INITIAL_WINDOW
    ensures PairInv(p.(x := Gone(NOTHING), oy := p.oy[1..]), c)
  {
    FirstMsg(p.oy);
    assert [] + BytesIn(p.oy[1..]) == BytesIn(p.oy[1..]);
  }

  /** A stream object still held by the application sends another RST. */
  lemma StaleRstKeeps(p: Pair, c: Setting)
    requires PairInv(p, c) && p.x.Gone?
    ensures PairInv(p.(ox := p.ox + [Rst]), c)
  {
    RstCarriesNothing(p.ox, [Rst]);
    HandshakeKept(p.x, p.x, p.y, p.ox, [Rst], p.oy, c.xOpens);
  }

  // ---------------------------------------------------------------------------------------------
  // What the invariant gives.

  /** Bytes read at one end are a prefix of the bytes accepted at the other. */
  lemma PrefixDelivered(p: Pair, c: Setting)
    requires PairInv(p, c)
    ensures History(p.x).delivered <= History(p.y).accepted && History(p.y).delivered <= History(p.x).accepted
  {
    OnePrefix(p.x, p.y, p.ox, c.maxX);
    OnePrefix(p.y, p.x, p.oy, c.maxY);
  }

  lemma OnePrefix(x: End, y: End, ox: seq<Msg>, maxX: nat)
    requires EndOk(x, maxX) && DeliveryInv(x, y, ox)
    ensures History(y).delivered <= History(x).accepted
  {
    if y.Live? {
      assert y.s.delivered <= y.s.delivered + y.s.buffered + BytesIn(ox);
    }
  }

  /** An end that saw FIN holds, or has already handed out, everything its peer ever accepted for writing. */
  lemma CompleteAtFin(p: Pair, c: Setting)
    requires PairInv(p, c) && p.y.Live? && !p.y.s.readable
    ensures p.y.s.delivered + p.y.s.buffered == History(p.x).accepted
  {
    assert p.y.s.delivered + p.y.s.buffered + [] == p.y.s.delivered + p.y.s.buffered;
  }
}
