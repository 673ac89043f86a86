/**
 * What a Yamux stream does (src/muxer/yamux/yamux_stream.cpp), as functions on values: each event takes
 * the stream to its next state and yields, in order, the calls it makes, to the connection (data, window
 * updates, FIN, RST) and to the application's callbacks. `accepted`, `sent` and `delivered` record all
 * bytes taken from `writeSome`, handed to the connection, and given to readers; `promised` the window the peer
 * was told of, which `peersWindow` exceeds once this side has sent FIN.
 */
module YamuxStreamSpec {
  import opened Basics
  import opened YamuxFrame
  import opened WriteQueues

  datatype Error =
    | ClosedByHost | ResetByHost | ResetByPeer | NotReadable | NotWritable | InvalidArgument
    | WriteOverflow | ReceiveOverflow | InternalError | InvalidWindowSize | FromConnection(code: nat)

  datatype Reading = Reading(size: nat, cb: Callback)

  datatype Stream = Stream(
    readable: bool,
    writable: bool,
    finSent: bool,
    closeReason: Option<Error>,
    window: nat,
    peersWindow: nat,
    maxWindow: nat,
    queue: Queue,
    buffered: seq<byte>,
    reading: Option<Reading>,
    closeCb: Option<Callback>,
    accepted: seq<byte>,
    sent: seq<byte>,
    delivered: seq<byte>,
    promised: nat)

  /** `deferred` calls are posted to run later, the others run before the event returns. */
  datatype Action =
    | SendData(data: seq<byte>)
    | SendWindow(delta: nat)
    | SendFin(closedForRead: bool)
    | SendRst
    | WriteCall(cb: Callback, written: Option<nat>, error: Option<Error>, deferred: bool)
    | ReadCall(cb: Callback, got: Option<seq<byte>>, error: Option<Error>, deferred: bool)
    | CloseCall(cb: Callback, error: Option<Error>, deferred: bool)
    | WindowCall(cb: Callback, error: Option<Error>)

  datatype Effect = Effect(s: Stream, acts: seq<Action>)

  datatype Verdict = KeepStream | RemoveStream | RemoveStreamAndSendRst

  function NewStream(maxWindow: nat, limit: nat): Stream {
    Stream(true, true, false, None, INITIAL_WINDOW, INITIAL_WINDOW, maxWindow, EmptyQueue(limit),
           [], None, None, [], [], [], INITIAL_WINDOW)
  }

  function FailWrites(items: seq<Item>, e: Error): seq<Action> {
    if items == [] then [] else [WriteCall(items[0].cb, None, Some(e), false)] + FailWrites(items[1..], e)
  }

  /** Answers to every stored write, then to the stored `close`. */
  function ClosingCalls(s: Stream, e: Error): seq<Action> {
    FailWrites(s.queue.items, e) +
    if s.closeCb.Some? then [CloseCall(s.closeCb.value, if e.ClosedByHost? then None else Some(e), false)] else []
  }

  function Closed(s: Stream, e: Error): Stream {
    s.(closeReason := Some(e), readable := false, writable := false, buffered := [],
       queue := EmptyQueue(s.queue.limit), closeCb := None)
  }

  /** The call that answers the stored read, if there is one, with an error. */
  function ReadFailure(s: Stream, e: Error): seq<Action> {
    if s.reading.Some? then [ReadCall(s.reading.value.cb, None, Some(e), false)] else []
  }

  /** `doClose`: fails everything stored; the pending read is answered last. */
  function DoClose(s: Stream, e: Error): Effect {
    if s.closeReason.Some? then Effect(s.(reading := None), ReadFailure(s, e))
    else Effect(Closed(s.(reading := None), e), ClosingCalls(s, e) + ReadFailure(s, e))
  }

  function SendAll(chunks: seq<seq<byte>>): seq<Action> {
    if chunks == [] then [] else [SendData(chunks[0])] + SendAll(chunks[1..])
  }

  /** The closing part of `doWrite()`: FIN once everything is sent and the window is open. */
  function FinishWriting(s: Stream): Effect {
    if s.writable || s.window == 0 then Effect(s, [])
    else
      var fin := if s.finSent then [] else [SendFin(!s.readable)];
      var s1 := s.(finSent := true);
      if !s.readable then
        var c := DoClose(s1, ClosedByHost);
        Effect(c.s, fin + c.acts)
      else Effect(s1.(peersWindow := s.maxWindow), fin)
  }

  /** `doWrite()`. */
  function Flush(s: Stream): Effect
    requires ValidQueue(s.queue)
  {
    if s.closeReason.Some? then Effect(s, [])
    else
      var p := Pump(s.queue, s.window);
      var f := FinishWriting(s.(queue := p.q, window := p.window, sent := s.sent + Concat(p.chunks)));
      Effect(f.s, SendAll(p.chunks) + f.acts)
  }

  /** `writeSome`. */
  function Write(s: Stream, data: seq<byte>, cb: Callback): Effect
    requires ValidQueue(s.queue)
  {
    if data == [] then Effect(s, [WriteCall(cb, None, Some(InvalidArgument), true)])
    else if !s.writable then Effect(s, [WriteCall(cb, None, Some(NotWritable), true)])
    else if s.closeReason.Some? then Effect(s, [WriteCall(cb, None, s.closeReason, true)])
    else if !CanEnqueue(s.queue, |data|) then Effect(s, [WriteCall(cb, None, Some(WriteOverflow), true)])
    else
      EnqueueKeeps(s.queue, data, cb);
      Flush(s.(queue := Enqueue(s.queue, data, cb), accepted := s.accepted + data))
  }

  /** The source aborts on a second read while one is stored. */
  predicate CanRead(s: Stream, size: nat) {
    size > 0 && s.buffered == [] && s.closeReason.None? ==> s.reading.None?
  }

  /** `readSome` into a buffer of `size` bytes. */
  function Read(s: Stream, size: nat, cb: Callback): Effect
    requires CanRead(s, size)
  {
    if size == 0 then Effect(s, [ReadCall(cb, None, Some(InvalidArgument), true)])
    else if s.buffered != [] then
      var n := Min(size, |s.buffered|);
      var data := s.buffered[..n];
      Effect(s.(buffered := s.buffered[n..], delivered := s.delivered + data),
             (if s.readable then [SendWindow(n)] else []) + [ReadCall(cb, Some(data), None, true)])
    else if s.closeReason.Some? then Effect(s, [ReadCall(cb, None, s.closeReason, true)])
    else if !s.readable then Effect(s, [ReadCall(cb, None, Some(NotReadable), true)])
    else Effect(s.(reading := Some(Reading(size, cb))), [])
  }

  function Close(s: Stream, cb: Option<Callback>): Effect
    requires ValidQueue(s.queue)
  {
    if s.closeReason.Some? then
      Effect(s, if cb.Some? then [CloseCall(cb.value, s.closeReason, true)] else [])
    else
      var s1 := s.(closeCb := cb);
      if s.writable then Flush(s1.(writable := false)) else Effect(s1, [])
  }

  function Reset(s: Stream): Effect {
    var c := DoClose(s, ResetByHost);
    Effect(c.s, [SendRst] + c.acts)
  }

  function AdjustWindow(s: Stream, size: nat, cb: Option<Callback>): Effect {
    var error := if s.closeReason.Some? then s.closeReason
                 else if !s.readable then Some(NotReadable)
                 else if size > s.maxWindow || size < s.peersWindow then Some(InvalidWindowSize)
                 else None;
    var call := if cb.Some? then [WindowCall(cb.value, error)] else [];
    if error.None? && size > s.peersWindow then
      Effect(s.(peersWindow := size, promised := s.promised + size - s.peersWindow),
        [SendWindow(size - s.peersWindow)] + call)
    else Effect(s, call)
  }

  function IncreaseWindow(s: Stream, delta: nat): Effect
    requires ValidQueue(s.queue)
  {
    if delta > 0 then Flush(s.(window := s.window + delta)) else Effect(s, [])
  }

  function OnData(s: Stream, bytes: seq<byte>): (Effect, Verdict) {
    if bytes == [] then (Effect(s, []), KeepStream)
    else
      var all := s.buffered + bytes;
      var n := if s.reading.Some? then Min(s.reading.value.size, |all|) else 0;
      var readCall := if s.reading.Some? then [ReadCall(s.reading.value.cb, Some(all[..n]), None, false)] else [];
      var s1 := s.(reading := None, buffered := all[n..], delivered := s.delivered + all[..n]);
      if s.closeReason.Some? then (Effect(s1, readCall), RemoveStreamAndSendRst)
      else if |s1.buffered| > s.peersWindow then
        var c := DoClose(s1, ReceiveOverflow);
        (Effect(c.s, c.acts + readCall), RemoveStreamAndSendRst)
      else (Effect(s1, (if n > 0 then [SendWindow(n)] else []) + readCall), KeepStream)
  }

  function OnFin(s: Stream): (Effect, Verdict) {
    var readCall := ReadFailure(s, ClosedByHost);
    var s1 := s.(reading := None);
    if s.closeReason.Some? then (Effect(s1, readCall), RemoveStreamAndSendRst)
    else
      var s2 := s1.(readable := false);
      if s.writable then (Effect(s2, readCall), KeepStream)
      else
        var c := DoClose(s2, ClosedByHost);
        (Effect(c.s, c.acts + readCall), RemoveStream)
  }

  function OnRst(s: Stream): Effect {
    if s.closeReason.Some? then Effect(s, []) else DoClose(s, ResetByPeer)
  }

  /** `onDataWritten`: the connection reports `n` payload bytes of this stream written to the wire. */
  function OnWritten(s: Stream, n: nat): Effect
    requires ValidQueue(s.queue)
  {
    match AckSent(s.queue, n)
    case Inconsistent =>
      var c := DoClose(s, InternalError);
      Effect(c.s, [SendRst] + c.acts)
    case Partial(q) => Effect(s.(queue := q), [])
    case Completed(q, cb, size) => Effect(s.(queue := q), [WriteCall(cb, Some(size), None, false)])
  }

  // ---------------------------------------------------------------------------------------------
  // The invariant of one stream, whatever its peer and its application do.

  /** What holds also between the change that triggers `doWrite()` and the call itself. */
  predicate Sound(s: Stream) {
    && ValidQueue(s.queue)
    && INITIAL_WINDOW <= s.promised <= s.peersWindow <= s.maxWindow && (!s.finSent ==> s.promised == s.peersWindow)
    && (s.closeReason.Some? ==> !s.readable && !s.writable && s.queue.items == [] && s.reading.None? && s.closeCb.None?)
    && (s.reading.Some? ==> s.buffered == [] && s.readable && s.reading.value.size > 0)
    && s.sent <= s.accepted
    && (s.closeReason.None? ==> s.accepted == s.sent + Unsent(s.queue))
    && (s.finSent ==> !s.writable && s.sent == s.accepted)
    && (s.finSent && s.closeReason.None? ==> s.readable)
  }

  predicate ValidStream(s: Stream) {
    && Sound(s) && (!s.writable && s.closeReason.None? && !s.finSent ==> s.window == 0)
    && (s.closeReason.None? && s.window > 0 ==> Unsent(s.queue) == [])
  }

  function DataOf(acts: seq<Action>): seq<byte> {
    if acts == [] then []
    else (if acts[0].SendData? then acts[0].data else []) + DataOf(acts[1..])
  }

  function CreditOf(acts: seq<Action>): nat {
    if acts == [] then 0
    else (if acts[0].SendWindow? then acts[0].delta else 0) + CreditOf(acts[1..])
  }

  /** Whether FIN is among the actions. */
  predicate HasFin(acts: seq<Action>) {
    acts != [] && (acts[0].SendFin? || HasFin(acts[1..]))
  }

  /** Nothing but callbacks and resets after a FIN. */
  predicate FinLast(acts: seq<Action>) {
    acts != [] ==> if acts[0].SendFin? then DataOf(acts[1..]) == [] && !HasFin(acts[1..]) else FinLast(acts[1..])
  }

  lemma {:induction false} ActsAppend(a: seq<Action>, b: seq<Action>)
    ensures DataOf(a + b) == DataOf(a) + DataOf(b) && CreditOf(a + b) == CreditOf(a) + CreditOf(b)
    ensures HasFin(a + b) <==> HasFin(a) || HasFin(b)
    ensures !HasFin(a) && FinLast(b) ==> FinLast(a + b)
    ensures FinLast(a) && !HasFin(b) && DataOf(b) == [] ==> FinLast(a + b)
  {
    if a == [] {
      assert a + b == b;
      if !HasFin(b) { NoFin(b); }
    } else {
      assert (a + b)[1..] == a[1..] + b;
      ActsAppend(a[1..], b);
      Assoc(if a[0].SendData? then a[0].data else [], DataOf(a[1..]), DataOf(b));
    }
  }

  lemma {:induction false} NoFin(acts: seq<Action>)
    requires !HasFin(acts)
    ensures FinLast(acts)
  {
    if acts != [] { NoFin(acts[1..]); }
  }

  /** Actions that only run callbacks. */
  predicate Quiet(acts: seq<Action>) {
    forall i :: 0 <= i < |acts| ==> !acts[i].SendData? && !acts[i].SendWindow? && !acts[i].SendFin? && !acts[i].SendRst?
  }

  lemma {:induction false} QuietActs(acts: seq<Action>)
    requires Quiet(acts)
    ensures DataOf(acts) == [] && CreditOf(acts) == 0 && !HasFin(acts)
  {
    if acts != [] { QuietActs(acts[1..]); }
  }

  lemma OneAct(a: Action)
    ensures DataOf([a]) == (if a.SendData? then a.data else [])
    ensures CreditOf([a]) == (if a.SendWindow? then a.delta else 0)
    ensures HasFin([a]) == a.SendFin? && FinLast([a])
  {
    assert [a][1..] == [];
  }

  lemma {:induction false} FailWritesQuiet(items: seq<Item>, e: Error)
    ensures Quiet(FailWrites(items, e))
  {
    if items != [] { FailWritesQuiet(items[1..], e); }
  }

  lemma {:induction false} SendAllActs(chunks: seq<seq<byte>>)
    ensures DataOf(SendAll(chunks)) == Concat(chunks) && CreditOf(SendAll(chunks)) == 0 && !HasFin(SendAll(chunks))
  {
    if chunks != [] {
      SendAllActs(chunks[1..]);
      assert SendAll(chunks)[1..] == SendAll(chunks[1..]);
    }
  }

  function Joined(s: seq<byte>, more: seq<byte>): seq<byte> { if more == [] then s else s + more }

  /** `t` is `s` followed by `more`. */
  predicate Grows(t: seq<byte>, s: seq<byte>, more: seq<byte>) { t == Joined(s, more) }

  /**
   * The books of one event: bytes in (`got`), credit in (`credit`), bytes and credit out. As long as the
   * stream is open no byte is lost, the send window pays for every byte sent, and what the peer may still
   * send grows exactly by the credit granted, or by more once the peer's FIN arrived.
   */
  predicate Books(s: Stream, e: Effect, got: seq<byte>, credit: nat) {
    var t := e.s;
    && t.maxWindow == s.maxWindow
    && Grows(t.sent, s.sent, DataOf(e.acts))
    && t.window + |DataOf(e.acts)| == s.window + credit
    && t.delivered <= Joined(s.delivered + s.buffered, got)
    && (s.closeReason.Some? ==> t.closeReason == s.closeReason)
    && (t.closeReason.Some? ==> CreditOf(e.acts) == 0)
    && (t.closeReason.None? ==>
          && Grows(t.delivered + t.buffered, s.delivered + s.buffered, got)
          && t.promised + |s.buffered| + |got| >= s.promised + |t.buffered| + CreditOf(e.acts)
          && (t.readable ==>
                s.readable
                && t.promised + |s.buffered| + |got| == s.promised + |t.buffered| + CreditOf(e.acts)))
  }

  /** FIN is announced exactly when `finSent` is set, after all data of the event; from then on no data is sent. */
  predicate FinDiscipline(s: Stream, e: Effect) {
    && FinLast(e.acts)
    && (HasFin(e.acts) <==> !s.finSent && e.s.finSent)
    && (s.finSent ==> e.s.finSent && DataOf(e.acts) == [])
  }

  /** What every event on a stream keeps and accounts for. */
  predicate Kept(s: Stream, e: Effect, got: seq<byte>, credit: nat) {
    ValidStream(e.s) && Books(s, e, got, credit) && FinDiscipline(s, e)
  }

  /** An event that moves no byte and grants nothing. */
  lemma QuietKept(s: Stream, e: Effect)
    requires Sound(s) && ValidStream(e.s) && Quiet(e.acts)
    requires e.s.maxWindow == s.maxWindow && e.s.sent == s.sent && e.s.window == s.window && e.s.finSent == s.finSent
    requires e.s.delivered == s.delivered && (e.s.closeReason.None? ==> e.s.buffered == s.buffered)
    requires s.closeReason.Some? ==> e.s.closeReason == s.closeReason
    requires e.s.closeReason.None? ==> e.s.promised == s.promised && (e.s.readable ==> s.readable)
    ensures Kept(s, e, [], 0)
  {
    QuietActs(e.acts);
    NoFin(e.acts);
  }

  lemma DoCloseQuiet(s: Stream, e: Error)
    ensures Quiet(DoClose(s, e).acts)
  {
    FailWritesQuiet(s.queue.items, e);
  }

  lemma DoCloseKept(s: Stream, e: Error)
    requires Sound(s)
    ensures Kept(s, DoClose(s, e), [], 0)
  {
    DoCloseQuiet(s, e);
    QuietKept(s, DoClose(s, e));
  }

  lemma FinishWritingValid(s: Stream)
    requires Sound(s) && s.closeReason.None? && (s.window > 0 ==> Unsent(s.queue) == [])
    ensures ValidStream(FinishWriting(s).s)
  {
  }

  lemma FinishWritingActs(s: Stream)
    requires s.closeReason.None?
    ensures var acts := FinishWriting(s).acts;
            && DataOf(acts) == [] && CreditOf(acts) == 0 && FinLast(acts)
            && (HasFin(acts) <==> !s.writable && s.window > 0 && !s.finSent)
  {
    if !s.writable && s.window > 0 {
      var s1 := s.(finSent := true);
      var fin := if s.finSent then [] else [SendFin(!s.readable)];
      var closing := if s.readable then [] else DoClose(s1, ClosedByHost).acts;
      DoCloseQuiet(s1, ClosedByHost);
      QuietActs(closing);
      if fin != [] { OneAct(fin[0]); }
      ActsAppend(fin, closing);
      assert s.readable ==> fin + closing == fin;
    }
  }

  lemma FinishWritingKept(s: Stream)
    requires Sound(s) && s.closeReason.None? && (s.window > 0 ==> Unsent(s.queue) == [])
    ensures Kept(s, FinishWriting(s), [], 0)
    ensures DataOf(FinishWriting(s).acts) == [] && CreditOf(FinishWriting(s).acts) == 0
  {
    FinishWritingValid(s);
    FinishWritingActs(s);
  }

  lemma FlushKept(s: Stream)
    requires Sound(s)
    ensures Kept(s, Flush(s), [], 0)
  {
    hide ValidQueue, FinishWriting;
    if s.closeReason.Some? {
      QuietKept(s, Flush(s));
    } else {
      var p := Pump(s.queue, s.window);
      var s1 := s.(queue := p.q, window := p.window, sent := s.sent + Concat(p.chunks));
      PumpSendsPrefix(s.queue, s.window);
      PumpedSound(s, p);
      FinishWritingKept(s1);
      FlushBooks(s, s1, p.chunks, FinishWriting(s1));
    }
  }

  lemma PumpedSound(s: Stream, p: Pumped)
    requires Sound(s) && s.closeReason.None? && ValidQueue(p.q) && Concat(p.chunks) + Unsent(p.q) == Unsent(s.queue)
    ensures Sound(s.(queue := p.q, window := p.window, sent := s.sent + Concat(p.chunks)))
    ensures s.finSent ==> Concat(p.chunks) == []
  {
    Assoc(s.sent, Concat(p.chunks), Unsent(p.q));
    if s.finSent { assert Unsent(s.queue) == []; }
  }

  lemma FlushBooks(s: Stream, s1: Stream, chunks: seq<seq<byte>>, f: Effect)
    requires Sound(s) && s.closeReason.None? && s1.closeReason.None?
    requires s1 == s.(queue := s1.queue, window := s1.window, sent := s.sent + Concat(chunks))
    requires s1.window + |Concat(chunks)| == s.window && (s.finSent ==> Concat(chunks) == [])
    requires Kept(s1, f, [], 0) && DataOf(f.acts) == [] && CreditOf(f.acts) == 0
    ensures Kept(s, Effect(f.s, SendAll(chunks) + f.acts), [], 0)
  {
    SendAllActs(chunks);
    ActsAppend(SendAll(chunks), f.acts);
    assert Concat(chunks) + [] == Concat(chunks);
    assert s.sent + [] == s.sent;
  }

  lemma EnqueuedSound(s: Stream, data: seq<byte>, cb: Callback)
    requires Sound(s) && data != [] && s.writable && s.closeReason.None?
    ensures Sound(s.(queue := Enqueue(s.queue, data, cb), accepted := s.accepted + data))
  {
    EnqueueKeeps(s.queue, data, cb);
    Assoc(s.sent, Unsent(s.queue), data);
  }

  lemma EnqueuedKept(s: Stream, s1: Stream)
    requires Sound(s1) && s1 == s.(queue := s1.queue, accepted := s1.accepted) && s.closeReason.None?
    ensures Kept(s, Flush(s1), [], 0)
  {
    FlushKept(s1);
  }

  lemma WriteKept(s: Stream, data: seq<byte>, cb: Callback)
    requires ValidStream(s)
    ensures Kept(s, Write(s, data, cb), [], 0)
  {
    if data != [] && s.writable && s.closeReason.None? && CanEnqueue(s.queue, |data|) {
      EnqueuedSound(s, data, cb);
      EnqueuedKept(s, s.(queue := Enqueue(s.queue, data, cb), accepted := s.accepted + data));
    } else {
      QuietKept(s, Write(s, data, cb));
    }
  }

  /** What a credit grant and callbacks amount to. */
  lemma GrantActs(grant: seq<Action>, calls: seq<Action>)
    requires Quiet(calls) && (grant == [] || (|grant| == 1 && grant[0].SendWindow?))
    ensures DataOf(grant + calls) == [] && CreditOf(grant + calls) == (if grant == [] then 0 else grant[0].delta)
    ensures !HasFin(grant + calls) && FinLast(grant + calls)
  {
    QuietActs(calls);
    if grant != [] {
      assert grant == [grant[0]];
      OneAct(grant[0]);
    }
    ActsAppend(grant, calls);
    NoFin(grant + calls);
  }

  lemma ReadKept(s: Stream, size: nat, cb: Callback)
    requires ValidStream(s) && CanRead(s, size)
    ensures Kept(s, Read(s, size, cb), [], 0)
  {
    var e := Read(s, size, cb);
    if size > 0 && s.buffered != [] {
      var n := Min(size, |s.buffered|);
      MoveOver(s.delivered, s.buffered, n);
      GrantActs(if s.readable then [SendWindow(n)] else [], [ReadCall(cb, Some(s.buffered[..n]), None, true)]);
    } else {
      QuietKept(s, e);
    }
  }

  lemma CloseKept(s: Stream, cb: Option<Callback>)
    requires ValidStream(s)
    ensures Kept(s, Close(s, cb), [], 0)
  {
    if s.closeReason.None? && s.writable {
      FlushKept(s.(closeCb := cb, writable := false));
    } else {
      QuietKept(s, Close(s, cb));
    }
  }

  /** RST, then closing. */
  lemma RstAndClose(s: Stream, e: Error)
    requires Sound(s)
    ensures Kept(s, Effect(DoClose(s, e).s, [SendRst] + DoClose(s, e).acts), [], 0)
  {
    DoCloseKept(s, e);
    DoCloseQuiet(s, e);
    QuietActs(DoClose(s, e).acts);
    OneAct(SendRst);
    ActsAppend([SendRst], DoClose(s, e).acts);
  }

  lemma ResetKept(s: Stream)
    requires ValidStream(s)
    ensures Kept(s, Reset(s), [], 0) && Reset(s).s.closeReason.Some?
  {
    RstAndClose(s, ResetByHost);
  }

  lemma AdjustWindowKept(s: Stream, size: nat, cb: Option<Callback>)
    requires ValidStream(s)
    ensures Kept(s, AdjustWindow(s, size, cb), [], 0)
  {
    var e := AdjustWindow(s, size, cb);
    if e.s == s {
      QuietKept(s, e);
    } else {
      GrantActs([SendWindow(size - s.peersWindow)], if cb.Some? then [WindowCall(cb.value, None)] else []);
    }
  }

  lemma IncreaseWindowKept(s: Stream, delta: nat)
    requires ValidStream(s)
    ensures Kept(s, IncreaseWindow(s, delta), [], delta)
  {
    if delta > 0 {
      GrantedKept(s, s.(window := s.window + delta), delta);
    } else {
      QuietKept(s, IncreaseWindow(s, delta));
    }
  }

  lemma GrantedKept(s: Stream, s1: Stream, delta: nat)
    requires ValidStream(s) && s1 == s.(window := s.window + delta)
    ensures Kept(s, Flush(s1), [], delta)
  {
    FlushKept(s1);
  }

  function Buffered(s: Stream, bytes: seq<byte>): Stream {
    var all := s.buffered + bytes;
    var n := if s.reading.Some? then Min(s.reading.value.size, |all|) else 0;
    s.(reading := None, buffered := all[n..], delivered := s.delivered + all[..n])
  }

  lemma BufferedBytes(s: Stream, bytes: seq<byte>)
    requires Sound(s)
    ensures var t := Buffered(s, bytes);
            Sound(t) && t.delivered + t.buffered == s.delivered + s.buffered + bytes
            && |t.buffered| <= |s.buffered| + |bytes|
            && t.delivered <= s.delivered + s.buffered + bytes
  {
    var all := s.buffered + bytes;
    var n := if s.reading.Some? then Min(s.reading.value.size, |all|) else 0;
    MoveOver(s.delivered, all, n);
    Assoc(s.delivered, s.buffered, bytes);
  }

  lemma OnDataKept(s: Stream, bytes: seq<byte>)
    requires ValidStream(s)
    ensures Kept(s, OnData(s, bytes).0, bytes, 0)
    ensures s.closeReason.None? && |s.buffered| + |bytes| <= s.peersWindow
        ==> OnData(s, bytes).1.KeepStream? && OnData(s, bytes).0.s.closeReason.None?
    ensures s.closeReason.None? ==>
            (OnData(s, bytes).0.s.closeReason.Some? <==> OnData(s, bytes).1.RemoveStreamAndSendRst?)
  {
    if bytes == [] {
      QuietKept(s, OnData(s, bytes).0);
    } else {
      BufferedBytes(s, bytes);
      OnDataBooks(s, bytes);
    }
  }

  lemma OnDataBooks(s: Stream, bytes: seq<byte>)
    requires ValidStream(s) && bytes != []
    requires var t := Buffered(s, bytes);
             Sound(t) && t.delivered + t.buffered == s.delivered + s.buffered + bytes &&
               t.delivered <= s.delivered + s.buffered + bytes
    ensures Kept(s, OnData(s, bytes).0, bytes, 0)
  {
    var t, e := Buffered(s, bytes), OnData(s, bytes).0;
    if s.closeReason.Some? || |t.buffered| <= s.peersWindow {
      var all := s.buffered + bytes;
      var n := if s.reading.Some? then Min(s.reading.value.size, |all|) else 0;
      var call := if s.reading.Some? then [ReadCall(s.reading.value.cb, Some(all[..n]), None, false)] else [];
      var grant := if s.closeReason.None? && n > 0 then [SendWindow(n)] else [];
      GrantActs(grant, call);
      assert e.acts == grant + call;
    } else {
      OverflowActs(s, bytes);
    }
  }

  lemma OverflowActs(s: Stream, bytes: seq<byte>)
    requires bytes != [] && s.closeReason.None? && |Buffered(s, bytes).buffered| > s.peersWindow
    ensures var acts := OnData(s, bytes).0.acts;
            DataOf(acts) == [] && CreditOf(acts) == 0 && !HasFin(acts) && FinLast(acts)
  {
    DoCloseQuiet(Buffered(s, bytes), ReceiveOverflow);
    QuietActs(OnData(s, bytes).0.acts);
    NoFin(OnData(s, bytes).0.acts);
  }

  lemma OnFinKept(s: Stream)
    requires ValidStream(s)
    ensures Kept(s, OnFin(s).0, [], 0) && Quiet(OnFin(s).0.acts)
    ensures s.closeReason.None? ==>
            !OnFin(s).0.s.readable && (OnFin(s).0.s.closeReason.Some? <==> OnFin(s).1.RemoveStream?)
  {
    DoCloseQuiet(s.(reading := None, readable := false), ClosedByHost);
    QuietKept(s, OnFin(s).0);
  }

  lemma OnRstKept(s: Stream)
    requires ValidStream(s)
    ensures Kept(s, OnRst(s), [], 0) && OnRst(s).s.closeReason.Some? && Quiet(OnRst(s).acts)
  {
    if s.closeReason.None? {
      DoCloseKept(s, ResetByPeer);
      DoCloseQuiet(s, ResetByPeer);
    } else {
      QuietKept(s, OnRst(s));
    }
  }

  lemma AcknowledgedKept(s: Stream, n: nat)
    requires ValidStream(s) && !AckSent(s.queue, n).Inconsistent?
    ensures Kept(s, OnWritten(s, n), [], 0)
  {
    hide ValidQueue;
    var e := OnWritten(s, n);
    assert ValidQueue(e.s.queue) && Unsent(e.s.queue) == Unsent(s.queue) by { AckKeeps(s.queue, n); }
    AckedQueue(s, e);
  }

  lemma AckedQueue(s: Stream, e: Effect)
    requires ValidStream(s) && s.closeReason.None? && e.s == s.(queue := e.s.queue) && Quiet(e.acts)
    requires ValidQueue(e.s.queue) && Unsent(e.s.queue) == Unsent(s.queue)
    ensures Kept(s, e, [], 0)
  {
    QuietKept(s, e);
  }

  lemma OnWrittenKept(s: Stream, n: nat)
    requires ValidStream(s)
    ensures Kept(s, OnWritten(s, n), [], 0)
    ensures !AckSent(s.queue, n).Inconsistent? ==>
            Quiet(OnWritten(s, n).acts) && OnWritten(s, n).s.closeReason == s.closeReason
  {
    if AckSent(s.queue, n).Inconsistent? {
      RstAndClose(s, InternalError);
    } else {
      AcknowledgedKept(s, n);
    }
  }
}
