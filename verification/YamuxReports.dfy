/**
 * What a Yamux stream tells its callers and its connection, event by event: why it closes, which outcome every callback
 * gets, and how much window it grants. The laws speak of the state before the event and of the event alone.
 */
module YamuxReports {
  import opened Basics
  import opened YamuxFrame
  import opened WriteQueues
  import opened YamuxStreamSpec
  import opened YamuxStreamRuns

  /** An acknowledgement of bytes that the oldest write has not sent. */
  predicate Overacknowledges(q: Queue, n: nat)
    requires ValidQueue(q)
  {
    n == 0 || q.items == [] || q.acked + n > q.sent || q.acked + n > |q.items[0].data|
  }

  /** More than the granted window would be unread, after the waiting reader took what fits its buffer. */
  predicate Overflows(s: Stream, bytes: seq<byte>) {
    bytes != [] && |s.buffered| + |bytes| > s.peersWindow + if s.reading.Some? then s.reading.value.size else 0
  }

  /** Why an open stream closes on an event, if it does. */
  function Ending(s: Stream, ev: Event): Option<Error>
    requires ValidStream(s)
  {
    match ev
    case ResetIt => Some(ResetByHost)
    case RstIn => Some(ResetByPeer)
    case ConnectionClosed(code) => Some(FromConnection(code))
    case Written(n) => if Overacknowledges(s.queue, n) then Some(InternalError) else None
    case DataIn(bytes) => if Overflows(s, bytes) then Some(ReceiveOverflow) else None
    case _ => if Finishes(s, ev) then Some(ClosedByHost) else None
  }

  /** Why a read fails. */
  function ReadError(s: Stream, ev: Event): Option<Error>
    requires ValidStream(s)
  {
    if ev.ReadSome? then
      if ev.size == 0 then Some(InvalidArgument)
      else if s.closeReason.Some? then s.closeReason
      else Some(NotReadable)
    else if ev.FinIn? then Some(ClosedByHost)
    else Ending(s, ev)
  }

  /** Why a write is refused at once. */
  function WriteError(s: Stream, ev: Event): Error
    requires ev.WriteSome?
  {
    if ev.data == [] then InvalidArgument else if !s.writable then NotWritable else WriteOverflow
  }

  /** Why a change of the window is refused. */
  function WindowError(s: Stream, ev: Event): Option<Error>
    requires ev.Adjust?
  {
    if s.closeReason.Some? then s.closeReason
    else if !s.readable then Some(NotReadable)
    else if s.peersWindow <= ev.newSize <= s.maxWindow then None
    else Some(InvalidWindowSize)
  }

  /** The read an event may answer: the one it asks for, or the one that waits. */
  function Asked(s: Stream, ev: Event): Option<Reading> {
    if ev.ReadSome? then Some(Reading(ev.size, ev.cb)) else s.reading
  }

  /** Calls an application makes are answered later, all others before the event is over. */
  predicate ReadLaw(s: Stream, ev: Event, t: Stream, a: Action)
    requires ValidStream(s) && a.ReadCall?
  {
    && Asked(s, ev).Some? && a.cb == Asked(s, ev).value.cb && (a.deferred <==> ev.ReadSome?)
    && (a.got.Some? ==>
          && a.error.None? && 1 <= |a.got.value| <= Asked(s, ev).value.size
          && (|a.got.value| == Asked(s, ev).value.size || t.buffered == []))
    && (a.got.None? ==> a.error.Some? && a.error == ReadError(s, ev))
  }

  predicate WriteLaw(s: Stream, ev: Event, a: Action)
    requires ValidStream(s) && a.WriteCall?
  {
    if a.deferred then ev.WriteSome? && a.cb == ev.cb && a.written.None? && a.error == Some(WriteError(s, ev))
    else if a.error.None? then ev.Written? && a.written.Some?
    else a.written.None? && s.closeReason.None? && a.error == Ending(s, ev)
  }

  predicate CloseLaw(s: Stream, ev: Event, a: Action)
    requires ValidStream(s) && a.CloseCall?
  {
    if a.deferred then ev.CloseIt? && ev.closeCb == Some(a.cb) && s.closeReason.Some? && a.error == s.closeReason
    else
      && s.closeReason.None? && Awaiting(s, ev) == Some(a.cb) && Ending(s, ev).Some?
      && a.error == if Ending(s, ev) == Some(ClosedByHost) then None else Ending(s, ev)
  }

  /** What an action of an event may be. */
  predicate ActLaw(s: Stream, ev: Event, t: Stream, a: Action)
    requires ValidStream(s)
  {
    match a
    case SendData(data) => s.closeReason.None? && (ev.WriteSome? || ev.CloseIt? || ev.WindowIn?)
    case SendWindow(delta) => delta > 0 && t.readable && (ev.ReadSome? || ev.DataIn? || ev.Adjust?)
    case SendFin(closedForRead) => closedForRead == !s.readable
    case SendRst => ev.ResetIt? || (ev.Written? && Overacknowledges(s.queue, ev.count))
    case WriteCall(_, _, _, _) => WriteLaw(s, ev, a)
    case ReadCall(_, _, _, _) => ReadLaw(s, ev, t, a)
    case CloseCall(_, _, _) => CloseLaw(s, ev, a)
    case WindowCall(cb, error) => ev.Adjust? && ev.windowCb == Some(cb) && error == WindowError(s, ev)
  }

  predicate Lawful(s: Stream, ev: Event, t: Stream, acts: seq<Action>)
    requires ValidStream(s)
  {
    forall i :: 0 <= i < |acts| ==> ActLaw(s, ev, t, acts[i])
  }

  lemma LawfulAppend(s: Stream, ev: Event, t: Stream, a: seq<Action>, b: seq<Action>)
    requires ValidStream(s) && Lawful(s, ev, t, a) && Lawful(s, ev, t, b)
    ensures Lawful(s, ev, t, a + b)
  {
  }

  // ---------------------------------------------------------------------------------------------
  // Closing.

  /** The calls that closing makes for the reason `e`. */
  predicate EndCall(s: Stream, e: Error, a: Action) {
    || (a.WriteCall? && a.written.None? && a.error == Some(e) && !a.deferred)
    || (a.CloseCall? && s.closeCb == Some(a.cb) && !a.deferred && a.error == if e.ClosedByHost? then None else Some(e))
    || (a.ReadCall? && s.reading.Some? && a == ReadCall(s.reading.value.cb, None, Some(e), false))
  }

  predicate EndCalls(s: Stream, e: Error, acts: seq<Action>) { forall i :: 0 <= i < |acts| ==> EndCall(s, e, acts[i]) }

  lemma {:induction false} FailsEnd(s: Stream, items: seq<Item>, e: Error)
    ensures EndCalls(s, e, FailWrites(items, e))
  {
    if items != [] { FailsEnd(s, items[1..], e); }
  }

  lemma EndCallsAppend(s: Stream, e: Error, a: seq<Action>, b: seq<Action>)
    requires EndCalls(s, e, a) && EndCalls(s, e, b)
    ensures EndCalls(s, e, a + b)
  {
  }

  lemma DoCloseEnds(s: Stream, e: Error)
    requires s.closeReason.None?
    ensures EndCalls(s, e, DoClose(s, e).acts) && DoClose(s, e).s.closeReason == Some(e)
  {
    hide FailWrites;
    var fails, read := FailWrites(s.queue.items, e), ReadFailure(s, e);
    FailsEnd(s, s.queue.items, e);
    var close := ClosingCalls(s, e)[|fails|..];
    assert ClosingCalls(s, e) == fails + close;
    EndCallsAppend(s, e, fails, close);
    EndCallsAppend(s, e, fails + close, read);
  }

  /** Closing is lawful whenever the event ends the stream for that reason. */
  lemma EndingLawful(s: Stream, ev: Event, t: Stream, u: Stream, e: Error)
    requires ValidStream(s) && s.closeReason.None? && u.closeReason.None? && !ev.ReadSome? && Ending(s, ev) == Some(e)
    requires u.closeCb == Awaiting(s, ev) && (u.reading == s.reading || u.reading.None?)
    ensures Lawful(s, ev, t, DoClose(u, e).acts)
  {
    hide ValidStream, DoClose, Ending;
    DoCloseEnds(u, e);
    var acts := DoClose(u, e).acts;
    forall i | 0 <= i < |acts| ensures ActLaw(s, ev, t, acts[i]) {
      assert EndCall(u, e, acts[i]);
      assert ev.FinIn? ==> e == ClosedByHost by { FinEnding(s, ev); }
    }
  }

  lemma FinEnding(s: Stream, ev: Event)
    requires ValidStream(s)
    ensures ev.FinIn? && Ending(s, ev).Some? ==> Ending(s, ev) == Some(ClosedByHost)
  {
  }

  // ---------------------------------------------------------------------------------------------
  // The operations.

  lemma {:induction false} SendAllLawful(s: Stream, ev: Event, t: Stream, chunks: seq<seq<byte>>)
    requires ValidStream(s) && s.closeReason.None? && (ev.WriteSome? || ev.CloseIt? || ev.WindowIn?)
    ensures Lawful(s, ev, t, SendAll(chunks))
  {
    hide ValidStream;
    if chunks != [] {
      SendAllLawful(s, ev, t, chunks[1..]);
      assert SendAll(chunks)[1..] == SendAll(chunks[1..]);
    }
  }

  /** A flush on the way of an event: `u` is `s` with what the event changed before. */
  lemma FlushLawful(s: Stream, ev: Event, u: Stream)
    requires ValidStream(s) && s.closeReason.None? && (ev.WriteSome? || ev.CloseIt? || ev.WindowIn?)
    requires Sound(u) && u.closeReason.None? && u.readable == s.readable && u.reading == s.reading
    requires u.closeCb == Awaiting(s, ev)
    requires !u.writable && !u.readable && Pump(u.queue, u.window).window > 0 <==> Finishes(s, ev)
    ensures Lawful(s, ev, Flush(u).s, Flush(u).acts)
    ensures Flush(u).s.closeReason == Ending(s, ev)
  {
    hide ValidStream, ValidQueue, DoClose, Lawful, Finishes;
    var p := Pump(u.queue, u.window);
    var u1 := u.(queue := p.q, window := p.window, sent := u.sent + Concat(p.chunks));
    var t := Flush(u).s;
    SendAllLawful(s, ev, t, p.chunks);
    FinishLawful(s, ev, t, u1);
    LawfulAppend(s, ev, t, SendAll(p.chunks), FinishWriting(u1).acts);
  }

  lemma FinishLawful(s: Stream, ev: Event, t: Stream, u: Stream)
    requires ValidStream(s) && s.closeReason.None? && (ev.WriteSome? || ev.CloseIt? || ev.WindowIn?)
    requires u.closeReason.None? && u.readable == s.readable && u.reading == s.reading && u.closeCb == Awaiting(s, ev)
    requires !u.writable && !u.readable && u.window > 0 <==> Finishes(s, ev)
    ensures Lawful(s, ev, t, FinishWriting(u).acts) && FinishWriting(u).s.closeReason == Ending(s, ev)
  {
    hide ValidStream, ValidQueue, DoClose, Lawful, Finishes;
    var u1 := u.(finSent := true);
    var fin := if u.finSent then [] else [SendFin(!u.readable)];
    FinOnly(s, ev, t, fin);
    if Finishes(s, ev) {
      EndingLawful(s, ev, t, u1, ClosedByHost);
      DoCloseEnds(u1, ClosedByHost);
      LawfulAppend(s, ev, t, fin, DoClose(u1, ClosedByHost).acts);
    }
  }

  lemma FinOnly(s: Stream, ev: Event, t: Stream, fin: seq<Action>)
    requires ValidStream(s) && (fin == [] || fin == [SendFin(!s.readable)])
    ensures Lawful(s, ev, t, fin) && Lawful(s, ev, t, [])
  {
  }

  /** An event is lawful, and closes an open stream for the reason it should. */
  ghost predicate Reported(s: Stream, ev: Event, e: Effect)
    requires ValidStream(s)
  {
    Lawful(s, ev, e.s, e.acts) && e.s.closeReason == if s.closeReason.Some? then s.closeReason else Ending(s, ev)
  }

  lemma WriteLawful(s: Stream, data: seq<byte>, cb: Callback)
    requires ValidStream(s)
    ensures Reported(s, WriteSome(data, cb), Write(s, data, cb))
  {
    hide Flush;
    var ev := WriteSome(data, cb);
    if Accepts(s, ev) {
      EnqueueKeeps(s.queue, data, cb);
      EnqueuedSound(s, data, cb);
      FlushLawful(s, ev, s.(queue := Enqueue(s.queue, data, cb), accepted := s.accepted + data));
    }
  }

  lemma CloseLawful(s: Stream, cb: Option<Callback>)
    requires ValidStream(s)
    ensures Reported(s, CloseIt(cb), Close(s, cb))
  {
    hide Flush, Pump, ValidQueue, Unsent;
    if s.closeReason.None? && s.writable {
      PumpSendsPrefix(s.queue, s.window);
      FlushLawful(s, CloseIt(cb), s.(closeCb := cb, writable := false));
    }
  }

  lemma WindowLawful(s: Stream, delta: nat)
    requires ValidStream(s)
    ensures Reported(s, WindowIn(delta), IncreaseWindow(s, delta))
  {
    hide Flush, Pump, ValidQueue, Unsent;
    if s.closeReason.None? && delta > 0 {
      PumpSendsPrefix(s.queue, s.window + delta);
      FlushLawful(s, WindowIn(delta), s.(window := s.window + delta));
    } else if delta > 0 {
      ClosedFlush(s.(window := s.window + delta));
    }
  }

  lemma ClosedFlush(s: Stream)
    requires ValidQueue(s.queue) && s.closeReason.Some?
    ensures Flush(s) == Effect(s, [])
  {
  }

  lemma ReadLawful(s: Stream, size: nat, cb: Callback)
    requires ValidStream(s) && CanRead(s, size)
    ensures Reported(s, ReadSome(size, cb), Read(s, size, cb))
  {
    hide ValidQueue, Unsent;
  }

  lemma AdjustLawful(s: Stream, size: nat, cb: Option<Callback>)
    requires ValidStream(s)
    ensures Reported(s, Adjust(size, cb), AdjustWindow(s, size, cb))
  {
    hide ValidQueue, Unsent;
  }

  lemma WrittenLawful(s: Stream, n: nat)
    requires ValidStream(s)
    ensures Reported(s, Written(n), OnWritten(s, n))
  {
    hide ValidQueue, Unsent, DoClose;
    if s.closeReason.Some? {
      ClosedWritten(s, n);
    } else if Overacknowledges(s.queue, n) {
      EndingLawful(s, Written(n), DoClose(s, InternalError).s, s, InternalError);
      DoCloseEnds(s, InternalError);
    }
  }

  lemma ClosedWritten(s: Stream, n: nat)
    requires ValidStream(s) && s.closeReason.Some?
    ensures OnWritten(s, n) == Effect(s, [SendRst]) && Overacknowledges(s.queue, n)
  {
  }

  lemma FinLawful(s: Stream)
    requires ValidStream(s)
    ensures Reported(s, FinIn, OnFin(s).0)
  {
    hide ValidQueue, Unsent, DoClose;
    var u := s.(reading := None, readable := false);
    if s.closeReason.None? && !s.writable {
      var t := DoClose(u, ClosedByHost).s;
      EndingLawful(s, FinIn, t, u, ClosedByHost);
      DoCloseEnds(u, ClosedByHost);
      LawfulAppend(s, FinIn, t, DoClose(u, ClosedByHost).acts, ReadFailure(s, ClosedByHost));
    }
  }

  lemma DataLawful(s: Stream, bytes: seq<byte>)
    requires ValidStream(s)
    ensures Reported(s, DataIn(bytes), OnData(s, bytes).0)
  {
    hide ValidQueue, Unsent, DoClose;
    var ev, t := DataIn(bytes), Buffered(s, bytes);
    if bytes != [] && s.closeReason.None? && Overflows(s, bytes) {
      var call := OnData(s, bytes).0.acts[|DoClose(t, ReceiveOverflow).acts|..];
      var u := DoClose(t, ReceiveOverflow).s;
      EndingLawful(s, ev, u, t, ReceiveOverflow);
      DoCloseEnds(t, ReceiveOverflow);
      LawfulAppend(s, ev, u, DoClose(t, ReceiveOverflow).acts, call);
    }
  }

  lemma EndLawful(s: Stream, ev: Event)
    requires ValidStream(s) && (ev.ResetIt? || ev.RstIn? || ev.ConnectionClosed?)
    ensures Reported(s, ev, Step(s, ev))
  {
    hide ValidQueue, Unsent, DoClose;
    if s.closeReason.None? {
      var e := Ending(s, ev).value;
      EndingLawful(s, ev, DoClose(s, e).s, s, e);
      DoCloseEnds(s, e);
    } else {
      ClosedDoClose(s, ResetByHost);
      if ev.ConnectionClosed? { ClosedDoClose(s, FromConnection(ev.code)); }
    }
  }

  lemma ClosedDoClose(s: Stream, e: Error)
    requires ValidStream(s) && s.closeReason.Some?
    ensures DoClose(s, e) == Effect(s, [])
  {
  }

  /**
   * Every event on every stream, open or closed: the stream closes for the reason the event gives, and every call it
   * makes has the outcome that state and event determine.
   */
  lemma StepLawful(s: Stream, ev: Event)
    requires ValidStream(s) && Allowed(s, ev)
    ensures var e := Step(s, ev);
            && e.s.closeReason == (if s.closeReason.Some? then s.closeReason else Ending(s, ev))
            && forall i :: 0 <= i < |e.acts| ==> ActLaw(s, ev, e.s, e.acts[i])
  {
    hide ValidStream, Ending, ActLaw;
    match ev
    case WriteSome(data, cb) => WriteLawful(s, data, cb);
    case ReadSome(size, cb) => ReadLawful(s, size, cb);
    case CloseIt(cb) => CloseLawful(s, cb);
    case Adjust(size, cb) => AdjustLawful(s, size, cb);
    case WindowIn(delta) => WindowLawful(s, delta);
    case DataIn(bytes) => DataLawful(s, bytes);
    case FinIn => FinLawful(s);
    case Written(n) => WrittenLawful(s, n);
    case _ => EndLawful(s, ev);
  }

  // ---------------------------------------------------------------------------------------------
  // What must happen.

  /** A read succeeds at once exactly if bytes wait for it, or as soon as bytes come for the read that waits. */
  predicate Succeeds(s: Stream, ev: Event) {
    || (ev.ReadSome? && ev.size > 0 && s.buffered != [])
    || (ev.DataIn? && ev.bytes != [] && s.reading.Some?)
  }

  /** The read that waits after an event. */
  function Waiting(s: Stream, ev: Event): Option<Reading>
    requires ValidStream(s)
  {
    if ev.ReadSome? && ev.size > 0 && s.buffered == [] && s.readable then Some(Reading(ev.size, ev.cb))
    else if ev.FinIn? || (ev.DataIn? && ev.bytes != []) || Ending(s, ev).Some? then None
    else s.reading
  }

  predicate Adjusts(s: Stream, ev: Event) { ev.Adjust? && WindowError(s, ev).None? }

  /** `peers_window_size_` after an event. */
  function WindowAfter(s: Stream, ev: Event, finSent: bool): nat {
    if finSent then s.maxWindow else if Adjusts(s, ev) then ev.newSize else s.peersWindow
  }

  /** Once its FIN is sent an open stream has opened its window as far as it can. */
  predicate Wide(s: Stream) { s.finSent && s.closeReason.None? ==> s.peersWindow == s.maxWindow }

  /**
   * Reads succeed and wait when they should; exactly the bytes reported, and what an accepted change of the window
   * adds, are granted, and only while the peer may still send.
   */
  ghost predicate Happens(s: Stream, ev: Event, e: Effect)
    requires ValidStream(s)
  {
    && (GotOf(e.acts) != [] <==> Succeeds(s, ev))
    && e.s.reading == Waiting(s, ev)
    && e.s.readable == (s.readable && !ev.FinIn? && e.s.closeReason.None?)
    && e.s.writable == (s.writable && !ev.CloseIt? && e.s.closeReason.None?)
    && CreditOf(e.acts)
    == (if e.s.readable then |GotOf(e.acts)| + if Adjusts(s, ev) then ev.newSize - s.peersWindow else 0 else 0)
    && (Wide(s) && e.s.closeReason.None? ==> e.s.peersWindow == WindowAfter(s, ev, e.s.finSent))
  }

  lemma ReadHappens(s: Stream, size: nat, cb: Callback)
    requires ValidStream(s) && CanRead(s, size)
    ensures Happens(s, ReadSome(size, cb), Read(s, size, cb))
  {
    hide ValidQueue, Unsent, GotOf, CreditOf, DataOf, HasFin, FinLast;
    NoActs();
    var e := Read(s, size, cb);
    if size > 0 && s.buffered != [] {
      var n := Min(size, |s.buffered|);
      var grant, call := if s.readable then [SendWindow(n)] else [], ReadCall(cb, Some(s.buffered[..n]), None, true);
      GotAtEnd(grant, cb, s.buffered[..n], true);
      OneAct(call);
      if s.readable { OneAct(SendWindow(n)); }
      ActsAppend(grant, [call]);
    } else if e.acts != [] {
      NothingGot(e.acts);
      OneAct(e.acts[0]);
    }
  }

  /** The call that answers the waiting read with `data`, behind actions that report nothing. */
  lemma AnswerLast(init: seq<Action>, cb: Callback, data: seq<byte>)
    requires NoReadCalls(init)
    ensures GotOf(init + [ReadCall(cb, Some(data), None, false)]) == data
    ensures CreditOf(init + [ReadCall(cb, Some(data), None, false)]) == CreditOf(init)
  {
    var call := ReadCall(cb, Some(data), None, false);
    GotAtEnd(init, cb, data, false);
    OneAct(call);
    ActsAppend(init, [call]);
  }

  lemma DoCloseNoCredit(s: Stream, e: Error)
    ensures CreditOf(DoClose(s, e).acts) == 0
  {
    DoCloseQuiet(s, e);
    QuietActs(DoClose(s, e).acts);
  }

  lemma DataHappens(s: Stream, bytes: seq<byte>)
    requires ValidStream(s)
    ensures Happens(s, DataIn(bytes), OnData(s, bytes).0)
  {
    hide ValidQueue, Unsent, DoClose, GotOf, CreditOf;
    if bytes == [] {
      NoActs();
    } else if s.reading.Some? {
      ReaderHappens(s, bytes);
    } else {
      var t, none: seq<Action> := Buffered(s, bytes), [];
      NoActs();
      assert none + none == none;
      assert (s.buffered + bytes)[0..] == s.buffered + bytes;
      if s.closeReason.None? && Overflows(s, bytes) {
        DoCloseReportless(t, ReceiveOverflow);
        NothingGot(DoClose(t, ReceiveOverflow).acts);
        DoCloseNoCredit(t, ReceiveOverflow);
        ClosedState(t, ReceiveOverflow);
        assert DoClose(t, ReceiveOverflow).acts + [] == DoClose(t, ReceiveOverflow).acts;
      }
    }
  }

  lemma NoActs()
    ensures GotOf([]) == [] && CreditOf([]) == 0
  {
  }

  lemma ClosedState(s: Stream, e: Error)
    requires s.closeReason.None?
    ensures var t := DoClose(s, e).s; !t.readable && !t.writable && t.closeReason == Some(e) && t.reading.None?
  {
  }

  lemma ReaderHappens(s: Stream, bytes: seq<byte>)
    requires ValidStream(s) && bytes != [] && s.reading.Some?
    ensures Happens(s, DataIn(bytes), OnData(s, bytes).0)
  {
    hide ValidQueue, Unsent, DoClose, GotOf, CreditOf;
    var t, all := Buffered(s, bytes), s.buffered + bytes;
    var n := Min(s.reading.value.size, |all|);
    var cb, grant, closing := s.reading.value.cb, [SendWindow(n)], DoClose(t, ReceiveOverflow).acts;
    if Overflows(s, bytes) {
      DoCloseReads(t, ReceiveOverflow);
      DoCloseUnread(t, ReceiveOverflow);
      AnswerLast(closing, cb, all[..n]);
      DoCloseNoCredit(t, ReceiveOverflow);
      ClosedState(t, ReceiveOverflow);
    } else {
      AnswerLast(grant, cb, all[..n]);
      OneAct(SendWindow(n));
    }
  }

  lemma DoCloseUnread(s: Stream, e: Error)
    requires s.closeReason.None? && s.reading.None?
    ensures NoReadCalls(DoClose(s, e).acts)
  {
    FailWritesNoReads(s.queue.items, e);
  }

  lemma FlushModes(s: Stream)
    requires ValidQueue(s.queue)
    ensures var t := Flush(s).s;
            && (t.closeReason.None? ==> t.readable == s.readable && t.writable == s.writable && t.reading == s.reading)
            && (t.closeReason.Some? && s.closeReason.None? ==> !t.readable && !t.writable && t.reading.None?)
            && (Wide(s) && t.closeReason.None? ==>
                  t.peersWindow == if t.finSent then s.maxWindow else s.peersWindow)
  {
  }

  lemma FlushHappens(s: Stream, ev: Event, u: Stream)
    requires ValidStream(s) && Sound(u) && (ev.WriteSome? || ev.CloseIt? || ev.WindowIn?)
    requires s.closeReason.None? && Flush(u).s.closeReason == Ending(s, ev)
    requires u == s.(queue := u.queue, window := u.window, accepted := u.accepted, closeCb := u.closeCb,
                     writable := s.writable && !ev.CloseIt?)
    ensures Happens(s, ev, Flush(u))
  {
    hide ValidStream, ValidQueue, Ending, Flush, GotOf, CreditOf;
    FlushModes(u);
    FlushReportless(u);
    NothingGot(Flush(u).acts);
    FlushNoCredit(u);
    assert Wide(s) ==> Wide(u);
  }

  lemma FlushNoCredit(s: Stream)
    requires Sound(s)
    ensures CreditOf(Flush(s).acts) == 0
  {
    hide FinishWriting, CreditOf, ValidQueue;
    if s.closeReason.None? {
      var p := Pump(s.queue, s.window);
      var s1 := s.(queue := p.q, window := p.window, sent := s.sent + Concat(p.chunks));
      SendAllActs(p.chunks);
      FinishWritingActs(s1);
      ActsAppend(SendAll(p.chunks), FinishWriting(s1).acts);
    } else {
      NoActs();
    }
  }

  lemma WriteHappens(s: Stream, data: seq<byte>, cb: Callback)
    requires ValidStream(s)
    ensures Happens(s, WriteSome(data, cb), Write(s, data, cb))
  {
    hide Flush, GotOf, CreditOf;
    var ev := WriteSome(data, cb);
    if Accepts(s, ev) {
      EnqueueKeeps(s.queue, data, cb);
      EnqueuedSound(s, data, cb);
      WriteLawful(s, data, cb);
      FlushHappens(s, ev, s.(queue := Enqueue(s.queue, data, cb), accepted := s.accepted + data));
    } else {
      OneCall(Write(s, data, cb).acts);
    }
  }

  lemma OneCall(acts: seq<Action>)
    requires |acts| <= 1 && Quiet(acts) && NoReadCalls(acts)
    ensures GotOf(acts) == [] && CreditOf(acts) == 0
  {
    NothingGot(acts);
    QuietActs(acts);
  }

  lemma CloseHappens(s: Stream, cb: Option<Callback>)
    requires ValidStream(s)
    ensures Happens(s, CloseIt(cb), Close(s, cb))
  {
    hide Flush, ValidQueue, Unsent, GotOf, CreditOf;
    CloseLawful(s, cb);
    if s.closeReason.None? && s.writable {
      FlushHappens(s, CloseIt(cb), s.(closeCb := cb, writable := false));
    } else {
      OneCall(Close(s, cb).acts);
    }
  }

  lemma WindowHappens(s: Stream, delta: nat)
    requires ValidStream(s)
    ensures Happens(s, WindowIn(delta), IncreaseWindow(s, delta))
  {
    hide Flush, ValidQueue, Unsent, GotOf, CreditOf;
    NoActs();
    WindowLawful(s, delta);
    if s.closeReason.None? && delta > 0 {
      FlushHappens(s, WindowIn(delta), s.(window := s.window + delta));
    } else if delta > 0 {
      ClosedFlush(s.(window := s.window + delta));
    }
  }

  lemma AdjustHappens(s: Stream, size: nat, cb: Option<Callback>)
    requires ValidStream(s)
    ensures Happens(s, Adjust(size, cb), AdjustWindow(s, size, cb))
    ensures cb.Some? ==> WindowCall(cb.value, WindowError(s, Adjust(size, cb))) in AdjustWindow(s, size, cb).acts
  {
    hide ValidQueue, Unsent, GotOf, CreditOf, DataOf, HasFin, FinLast;
    var e := AdjustWindow(s, size, cb);
    var call := if cb.Some? then [WindowCall(cb.value, WindowError(s, Adjust(size, cb)))] else [];
    OneCall(call);
    if e.s == s {
      assert e.acts == call;
    } else {
      var grant := [SendWindow(size - s.peersWindow)];
      OneAct(grant[0]);
      ActsAppend(grant, call);
      NothingGot(grant + call);
    }
  }

  /** Events that only run callbacks, close the stream or ask for a reset. */
  lemma EndHappens(s: Stream, ev: Event)
    requires ValidStream(s) && (ev.ResetIt? || ev.RstIn? || ev.ConnectionClosed? || ev.Written? || ev.FinIn?)
    ensures Happens(s, ev, Step(s, ev))
  {
    hide ValidQueue, Unsent, GotOf, CreditOf, DataOf, HasFin, FinLast, Reportless, ActLaw, FailWrites;
    OtherReported(s, ev);
    NothingGot(Step(s, ev).acts);
    StepLawful(s, ev);
    StepKept(s, ev);
    EndNoCredit(s, ev);
  }

  lemma EndNoCredit(s: Stream, ev: Event)
    requires ValidStream(s) && (ev.ResetIt? || ev.RstIn? || ev.ConnectionClosed? || ev.Written? || ev.FinIn?)
    ensures CreditOf(Step(s, ev).acts) == 0
  {
    hide ValidQueue, Unsent, DoClose, CreditOf;
    NoActs();
    match ev
    case ResetIt => RstNoCredit(s, ResetByHost);
    case RstIn => DoCloseNoCredit(s, ResetByPeer);
    case ConnectionClosed(code) => DoCloseNoCredit(s, FromConnection(code));
    case Written(n) =>
      RstNoCredit(s, InternalError);
      if !AckSent(s.queue, n).Inconsistent? { OneCall(OnWritten(s, n).acts); }
    case FinIn =>
      OnFinKept(s);
      QuietActs(OnFin(s).0.acts);
  }

  lemma RstNoCredit(s: Stream, e: Error)
    ensures CreditOf([SendRst] + DoClose(s, e).acts) == 0
  {
    DoCloseNoCredit(s, e);
    OneAct(SendRst);
    ActsAppend([SendRst], DoClose(s, e).acts);
  }

  /** Every event on every stream: what must happen does. */
  lemma StepHappens(s: Stream, ev: Event)
    requires ValidStream(s) && Allowed(s, ev)
    ensures Happens(s, ev, Step(s, ev))
  {
    hide ValidStream, Happens;
    match ev
    case WriteSome(data, cb) => WriteHappens(s, data, cb);
    case ReadSome(size, cb) => ReadHappens(s, size, cb);
    case CloseIt(cb) => CloseHappens(s, cb);
    case Adjust(size, cb) => AdjustHappens(s, size, cb);
    case WindowIn(delta) => WindowHappens(s, delta);
    case DataIn(bytes) => DataHappens(s, bytes);
    case _ => EndHappens(s, ev);
  }

  /** A reset always tells the peer, and so does an acknowledgement that cannot be right. */
  lemma RstIsSent(s: Stream, ev: Event)
    requires ValidStream(s) && (ev.ResetIt? || (ev.Written? && Overacknowledges(s.queue, ev.count)))
    ensures Step(s, ev).acts != [] && Step(s, ev).acts[0] == SendRst
  {
  }

  /** The connection drops the stream and resets it exactly on an overflow, or on data or a FIN for a closed stream. */
  lemma Verdicts(s: Stream, bytes: seq<byte>)
    requires ValidStream(s)
    ensures OnData(s, bytes).1.RemoveStreamAndSendRst? <==> bytes != [] && (s.closeReason.Some? || Overflows(s, bytes))
    ensures !OnData(s, bytes).1.RemoveStream?
    ensures OnFin(s).1 == if s.closeReason.Some? then RemoveStreamAndSendRst
                          else if s.writable then KeepStream else RemoveStream
  {
    hide ValidQueue, Unsent;
  }

  // ---------------------------------------------------------------------------------------------
  // Runs.

  /** The call answers a read with no more than it asked for. */
  predicate Told(r: Reading, a: Action) { a.ReadCall? && a.got.Some? && a.cb == r.cb && |a.got.value| <= r.size }

  /** At least one byte is reported, and some read among the events asked for at least as many. */
  ghost predicate FitsARead(evs: seq<Event>, a: Action) {
    a.ReadCall? && a.got.Some? ==> a.got.value != [] && exists r: Reading :: WasAsked(evs, r) && Told(r, a)
  }

  /** The waiting read was asked for among the events. */
  ghost predicate WasAsked(evs: seq<Event>, r: Reading) {
    exists k :: 0 <= k < |evs| && evs[k] == ReadSome(r.size, r.cb)
  }

  ghost predicate Bounded(done: seq<Event>, h: History) {
    && (h.s.closeReason.None? ==> |h.s.buffered| <= h.s.peersWindow) && Wide(h.s)
    && (h.s.reading.Some? ==> WasAsked(done, h.s.reading.value))
    && forall i :: 0 <= i < |h.acts| ==> FitsARead(done, h.acts[i])
  }

  /** The unread bytes stay within the window, whatever the peer sends. */
  lemma StepBounded(s: Stream, ev: Event)
    requires ValidStream(s) && Allowed(s, ev) && Wide(s) && s.closeReason.None? && |s.buffered| <= s.peersWindow
    ensures var t := Step(s, ev).s; Wide(t) && (t.closeReason.None? ==> |t.buffered| <= t.peersWindow)
  {
    hide ValidQueue, Unsent, Step, ActLaw, GotOf, CreditOf, DataOf, HasFin, FinLast;
    StepHappens(s, ev);
    StepLawful(s, ev);
    StepKept(s, ev);
    StepReported(s, ev);
    StepAmount(s, ev);
  }

  /** The waiting reader takes all it can. */
  lemma StepAmount(s: Stream, ev: Event)
    requires ValidStream(s) && Allowed(s, ev) && s.closeReason.None?
    ensures var t := Step(s, ev).s;
            t.closeReason.None? ==>
              |t.buffered| <= |s.buffered| || (ev.DataIn? && !Overflows(s, ev.bytes) && |t.buffered| <= s.peersWindow)
  {
    hide ValidQueue, Unsent, ActLaw, GotOf, CreditOf, DataOf, HasFin, FinLast;
    StepLawful(s, ev);
    if !ev.DataIn? && !ev.ReadSome? {
      UnreadLostExactly(s, ev);
      OtherReported(s, ev);
    }
  }

  lemma AskedGrows(done: seq<Event>, ev: Event, r: Reading)
    requires WasAsked(done, r) || ev == ReadSome(r.size, r.cb)
    ensures WasAsked(done + [ev], r)
  {
    if WasAsked(done, r) {
      var k :| 0 <= k < |done| && done[k] == ReadSome(r.size, r.cb);
      assert (done + [ev])[k] == done[k];
    } else {
      assert (done + [ev])[|done|] == ev;
    }
  }

  lemma FitsGrows(done: seq<Event>, ev: Event, a: Action)
    requires FitsARead(done, a)
    ensures FitsARead(done + [ev], a)
  {
    if a.ReadCall? && a.got.Some? {
      var r: Reading :| WasAsked(done, r) && Told(r, a);
      AskedGrows(done, ev, r);
    }
  }

  lemma FitsNow(done: seq<Event>, s: Stream, ev: Event, t: Stream, a: Action)
    requires ValidStream(s) && ActLaw(s, ev, t, a) && (s.reading.Some? ==> WasAsked(done, s.reading.value))
    ensures FitsARead(done + [ev], a)
  {
    hide ValidStream;
    if a.ReadCall? && a.got.Some? {
      var r := Asked(s, ev).value;
      AskedGrows(done, ev, r);
      assert Told(r, a);
    }
  }

  lemma NextBounded(done: seq<Event>, h: History, ev: Event)
    requires YamuxStreamRuns.RunInv(h) && Allowed(h.s, ev) && Bounded(done, h)
    ensures Bounded(done + [ev], Next(h, ev))
  {
    hide Step, YamuxStreamRuns.RunInv, ValidStream, FitsARead, WasAsked, ActLaw;
    assert ValidStream(h.s) by { RunIsValid(h); }
    var e := Step(h.s, ev);
    StepLawful(h.s, ev);
    StepHappens(h.s, ev);
    if h.s.closeReason.None? { StepBounded(h.s, ev); }
    if e.s.reading.Some? { AskedGrows(done, ev, e.s.reading.value); }
    forall i | 0 <= i < |h.acts + e.acts| ensures FitsARead(done + [ev], (h.acts + e.acts)[i]) {
      if i < |h.acts| {
        FitsGrows(done, ev, h.acts[i]);
      } else {
        FitsNow(done, h.s, ev, e.s, e.acts[i - |h.acts|]);
      }
    }
  }

  lemma RunIsValid(h: History)
    requires YamuxStreamRuns.RunInv(h)
    ensures ValidStream(h.s)
  {
  }

  lemma {:induction false} RunBounded(done: seq<Event>, h: History, evs: seq<Event>)
    requires YamuxStreamRuns.RunInv(h) && AllowedRun(h, evs) && Bounded(done, h)
    ensures Bounded(done + evs, RunOf(h, evs))
    decreases |evs|
  {
    hide ValidStream, Step, Allowed;
    hide YamuxStreamRuns.RunInv, Bounded, Next;
    RunIsValid(h);
    if evs == [] {
      assert done + [] == done;
    } else {
      NextKeeps(h, evs[0]);
      NextBounded(done, h, evs[0]);
      RunBounded(done + [evs[0]], Next(h, evs[0]), evs[1..]);
      assert done + [evs[0]] + evs[1..] == done + evs;
    }
  }

  /**
   * Every run of a new stream, whatever its peer sends: unread bytes never exceed the window granted while the stream
   * is open; every read that succeeds is told at least one byte and no more than it asked for; and the bytes told,
   * joined, are what the stream delivered.
   */
  lemma EveryRunReports(maxWindow: nat, limit: nat, evs: seq<Event>)
    requires maxWindow >= INITIAL_WINDOW && AllowedRun(FreshHistory(maxWindow, limit), evs)
    ensures var e := RunOf(FreshHistory(maxWindow, limit), evs);
            && GotOf(e.acts) == e.s.delivered
            && (e.s.closeReason.None? ==> |e.s.buffered| <= e.s.peersWindow)
            && forall i :: 0 <= i < |e.acts| && e.acts[i].ReadCall? && e.acts[i].got.Some? ==>
                 && e.acts[i].got.value != []
                 && exists r: Reading :: WasAsked(evs, r) && Told(r, e.acts[i])
  {
    hide RunOf, AllowedRun, ValidQueue;
    var h := FreshHistory(maxWindow, limit);
    FreshRun(maxWindow, limit);
    EveryFreshRun(maxWindow, limit, evs);
    RunBounded([], h, evs);
    assert [] + evs == evs;
    forall i | 0 <= i < |RunOf(h, evs).acts| ensures FitsARead(evs, RunOf(h, evs).acts[i]) { }
  }
}
