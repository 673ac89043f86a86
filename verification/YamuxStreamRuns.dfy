/**
 * Whole runs of one Yamux stream, under any application and any peer: FIN discipline, byte accounting, and
 * the fate of every write and read callback.
 */
module YamuxStreamRuns {
  import opened Basics
  import YamuxFrame
  import opened WriteQueues
  import opened YamuxStreamSpec

  /** Everything that can happen to a stream: calls by the application, then calls by the connection. */
  datatype Event =
    | WriteSome(data: seq<byte>, cb: Callback)
    | ReadSome(size: nat, cb: Callback)
    | CloseIt(closeCb: Option<Callback>)
    | ResetIt
    | Adjust(newSize: nat, windowCb: Option<Callback>)
    | WindowIn(delta: nat)
    | DataIn(bytes: seq<byte>)
    | FinIn
    | RstIn
    | Written(count: nat)
    | ConnectionClosed(code: nat)

  predicate Allowed(s: Stream, ev: Event) { ev.ReadSome? ==> CanRead(s, ev.size) }

  function Step(s: Stream, ev: Event): Effect
    requires ValidStream(s) && Allowed(s, ev)
  {
    match ev
    case WriteSome(data, cb) => Write(s, data, cb)
    case ReadSome(size, cb) => Read(s, size, cb)
    case CloseIt(cb) => Close(s, cb)
    case ResetIt => Reset(s)
    case Adjust(size, cb) => AdjustWindow(s, size, cb)
    case WindowIn(delta) => IncreaseWindow(s, delta)
    case DataIn(bytes) => OnData(s, bytes).0
    case FinIn => OnFin(s).0
    case RstIn => OnRst(s)
    case Written(n) => OnWritten(s, n)
    case ConnectionClosed(code) => DoClose(s, FromConnection(code))
  }

  function Incoming(ev: Event): seq<byte> { if ev.DataIn? then ev.bytes else [] }

  function Granted(ev: Event): nat { if ev.WindowIn? then ev.delta else 0 }

  lemma StepKept(s: Stream, ev: Event)
    requires ValidStream(s) && Allowed(s, ev)
    ensures Kept(s, Step(s, ev), Incoming(ev), Granted(ev))
  {
    match ev
    case WriteSome(data, cb) => WriteKept(s, data, cb);
    case ReadSome(size, cb) => ReadKept(s, size, cb);
    case CloseIt(cb) => CloseKept(s, cb);
    case ResetIt => ResetKept(s);
    case Adjust(size, cb) => AdjustWindowKept(s, size, cb);
    case WindowIn(delta) => IncreaseWindowKept(s, delta);
    case DataIn(bytes) => OnDataKept(s, bytes);
    case FinIn => OnFinKept(s);
    case RstIn => OnRstKept(s);
    case Written(n) => OnWrittenKept(s, n);
    case ConnectionClosed(code) => DoCloseKept(s, FromConnection(code));
  }

  // ---------------------------------------------------------------------------------------------
  // Write callbacks.

  /** Calls that answer accepted writes; refused writes are answered by deferred calls. */
  function Answers(acts: seq<Action>): seq<Action> {
    if acts == [] then []
    else (if acts[0].WriteCall? && !acts[0].deferred then [acts[0]] else []) + Answers(acts[1..])
  }

  function Refusals(acts: seq<Action>): seq<Callback> {
    if acts == [] then []
    else (if acts[0].WriteCall? && acts[0].deferred then [acts[0].cb] else []) + Refusals(acts[1..])
  }

  predicate Accepts(s: Stream, ev: Event)
    requires ValidStream(s)
  {
    ev.WriteSome? && ev.data != [] && s.writable && s.closeReason.None? && CanEnqueue(s.queue, |ev.data|)
  }

  function NewItems(s: Stream, ev: Event): seq<Item>
    requires ValidStream(s)
  {
    if Accepts(s, ev) then [Item(ev.data, ev.cb)] else []
  }

  /** The right callback, and on success the whole item. */
  predicate AnswersItem(call: Action, it: Item) {
    call.WriteCall? && !call.deferred && call.cb == it.cb
    && (call.error.None? ==> call.written == Some(|it.data|)) && (call.error.Some? ==> call.written.None?)
  }

  /** `calls` answer the first `|calls|` of `items`, in order; the others are what is `left`. */
  predicate Settles(items: seq<Item>, calls: seq<Action>, left: seq<Item>) {
    && |calls| <= |items| && left == items[|calls|..]
    && (forall i :: 0 <= i < |calls| ==> AnswersItem(calls[i], items[i]))
  }

  lemma {:induction false} AnswersAppend(a: seq<Action>, b: seq<Action>)
    ensures Answers(a + b) == Answers(a) + Answers(b) && Refusals(a + b) == Refusals(a) + Refusals(b)
  {
    if a == [] {
      assert a + b == b;
    } else {
      assert (a + b)[1..] == a[1..] + b;
      AnswersAppend(a[1..], b);
      Assoc(if a[0].WriteCall? && !a[0].deferred then [a[0]] else [], Answers(a[1..]), Answers(b));
      Assoc(if a[0].WriteCall? && a[0].deferred then [a[0].cb] else [], Refusals(a[1..]), Refusals(b));
    }
  }

  predicate NoWriteCalls(acts: seq<Action>) { forall i :: 0 <= i < |acts| ==> !acts[i].WriteCall? }

  lemma {:induction false} NoAnswers(acts: seq<Action>)
    requires NoWriteCalls(acts)
    ensures Answers(acts) == [] && Refusals(acts) == []
  {
    if acts != [] { NoAnswers(acts[1..]); }
  }

  lemma {:induction false} FailWritesSettles(items: seq<Item>, e: Error)
    ensures Answers(FailWrites(items, e)) == FailWrites(items, e) && Refusals(FailWrites(items, e)) == []
    ensures Settles(items, FailWrites(items, e), [])
  {
    if items != [] {
      FailWritesSettles(items[1..], e);
      var tail := FailWrites(items[1..], e);
      assert FailWrites(items, e)[1..] == tail;
      forall i | 0 <= i < |items| ensures AnswersItem(FailWrites(items, e)[i], items[i]) {
        if i > 0 { assert AnswersItem(tail[i - 1], items[1..][i - 1]); }
      }
    }
  }

  /** Closing answers every stored write with the error, in order. */
  lemma DoCloseSettles(s: Stream, e: Error)
    requires Sound(s)
    ensures Settles(s.queue.items, Answers(DoClose(s, e).acts), DoClose(s, e).s.queue.items)
    ensures Refusals(DoClose(s, e).acts) == []
  {
    var acts := DoClose(s, e).acts;
    if s.closeReason.Some? {
      NoAnswers(acts);
    } else {
      var fails := FailWrites(s.queue.items, e);
      FailWritesSettles(s.queue.items, e);
      var tail := acts[|fails|..];
      assert acts == fails + tail;
      NoAnswers(tail);
      AnswersAppend(fails, tail);
      assert Answers(fails) + [] == fails;
    }
  }

  lemma {:induction false} SendAllNoCalls(chunks: seq<seq<byte>>)
    ensures NoWriteCalls(SendAll(chunks)) && NoReadCalls(SendAll(chunks))
  {
    if chunks != [] {
      SendAllNoCalls(chunks[1..]);
      assert SendAll(chunks)[1..] == SendAll(chunks[1..]);
    }
  }

  lemma FlushSettles(s: Stream)
    requires Sound(s)
    ensures Settles(s.queue.items, Answers(Flush(s).acts), Flush(s).s.queue.items)
    ensures Refusals(Flush(s).acts) == []
    ensures s.writable ==> Answers(Flush(s).acts) == []
  {
    hide Answers, Refusals, SendAll, ValidQueue, Unsent;
    NoAnswers([]);
    if s.closeReason.None? {
      var p := Pump(s.queue, s.window);
      PumpSendsPrefix(s.queue, s.window);
      PumpedSound(s, p);
      var s1 := s.(queue := p.q, window := p.window, sent := s.sent + Concat(p.chunks));
      SendAllNoCalls(p.chunks);
      NoAnswers(SendAll(p.chunks));
      var f := FinishWriting(s1);
      AnswersAppend(SendAll(p.chunks), f.acts);
      assert [] + Answers(f.acts) == Answers(f.acts);
      FinishSettles(s1);
    }
  }

  lemma FinishSettles(s: Stream)
    requires Sound(s) && s.closeReason.None? && (s.window > 0 ==> Unsent(s.queue) == [])
    ensures Settles(s.queue.items, Answers(FinishWriting(s).acts), FinishWriting(s).s.queue.items)
    ensures Refusals(FinishWriting(s).acts) == []
  {
    if !s.writable && s.window > 0 {
      var fin := if s.finSent then [] else [SendFin(!s.readable)];
      NoAnswers(fin);
      if !s.readable {
        var s1 := s.(finSent := true, readable := true);
        var c := DoClose(s.(finSent := true), ClosedByHost);
        assert s1.queue == s.queue;
        DoCloseSettles(s1, ClosedByHost);
        assert c.acts == DoClose(s1, ClosedByHost).acts;
        AnswersAppend(fin, c.acts);
        assert [] + Answers(c.acts) == Answers(c.acts);
      }
    }
  }

  /** Stored writes, plus `added`, are answered from the front or still stored; `refused` are turned down. */
  predicate WritesSettled(s: Stream, e: Effect, added: seq<Item>, refused: seq<Callback>) {
    Settles(s.queue.items + added, Answers(e.acts), e.s.queue.items) && Refusals(e.acts) == refused
  }

  lemma SettledAsIs(s: Stream, e: Effect)
    requires Settles(s.queue.items, Answers(e.acts), e.s.queue.items) && Refusals(e.acts) == []
    ensures WritesSettled(s, e, [], [])
  {
    assert s.queue.items + [] == s.queue.items;
  }

  lemma SettledWithoutCalls(s: Stream, e: Effect)
    requires NoWriteCalls(e.acts) && e.s.queue.items == s.queue.items
    ensures WritesSettled(s, e, [], [])
  {
    NoAnswers(e.acts);
    SettledAsIs(s, e);
  }

  lemma OneRefusal(a: Action)
    requires a.WriteCall? && a.deferred
    ensures Answers([a]) == [] && Refusals([a]) == [a.cb]
  {
    assert [a][1..] == [];
  }

  lemma WriteSettles(s: Stream, data: seq<byte>, cb: Callback)
    requires ValidStream(s)
    ensures var ok := Accepts(s, WriteSome(data, cb));
            WritesSettled(s, Write(s, data, cb), if ok then [Item(data, cb)] else [], if ok then [] else [cb])
  {
    if Accepts(s, WriteSome(data, cb)) {
      EnqueueKeeps(s.queue, data, cb);
      assert s.sent + Unsent(s.queue) + data == s.sent + (Unsent(s.queue) + data);
      FlushSettles(s.(queue := Enqueue(s.queue, data, cb), accepted := s.accepted + data));
    } else {
      var e := Write(s, data, cb);
      assert e.acts == [e.acts[0]] && e.s == s;
      OneRefusal(e.acts[0]);
      assert s.queue.items + [] == s.queue.items && s.queue.items[0..] == s.queue.items;
    }
  }

  lemma CloseSettles(s: Stream, cb: Option<Callback>)
    requires ValidStream(s)
    ensures WritesSettled(s, Close(s, cb), [], [])
  {
    if s.closeReason.None? && s.writable {
      var s1 := s.(closeCb := cb, writable := false);
      FlushSettles(s1);
      SettledAsIs(s, Flush(s1));
    } else {
      SettledWithoutCalls(s, Close(s, cb));
    }
  }

  lemma WindowSettles(s: Stream, delta: nat)
    requires ValidStream(s)
    ensures WritesSettled(s, IncreaseWindow(s, delta), [], [])
  {
    if delta > 0 {
      var s1 := s.(window := s.window + delta);
      FlushSettles(s1);
      SettledAsIs(s, Flush(s1));
    } else {
      SettledWithoutCalls(s, IncreaseWindow(s, delta));
    }
  }

  lemma WrittenSettles(s: Stream, n: nat)
    requires ValidStream(s)
    ensures WritesSettled(s, OnWritten(s, n), [], [])
  {
    var e := OnWritten(s, n);
    if AckSent(s.queue, n).Inconsistent? {
      RstSettles(s, InternalError);
      SettledAsIs(s, e);
    } else if AckSent(s.queue, n).Completed? {
      assert e.acts[1..] == [];
      SettledAsIs(s, e);
    } else {
      SettledWithoutCalls(s, e);
    }
  }

  /** One event: every write it touches is accounted for. */
  lemma StepSettles(s: Stream, ev: Event)
    requires ValidStream(s) && Allowed(s, ev)
    ensures WritesSettled(s, Step(s, ev), NewItems(s, ev), if ev.WriteSome? && !Accepts(s, ev) then [ev.cb] else [])
  {
    match ev
    case WriteSome(data, cb) => WriteSettles(s, data, cb);
    case CloseIt(cb) => CloseSettles(s, cb);
    case WindowIn(delta) => WindowSettles(s, delta);
    case Written(n) => WrittenSettles(s, n);
    case ReadSome(size, cb) => ReadSettles(s, size, cb);
    case Adjust(size, cb) => AdjustSettles(s, size, cb);
    case _ => EndingSettles(s, ev);
  }

  lemma ReadSettles(s: Stream, size: nat, cb: Callback)
    requires CanRead(s, size)
    ensures WritesSettled(s, Read(s, size, cb), [], [])
  {
    SettledWithoutCalls(s, Read(s, size, cb));
  }

  lemma AdjustSettles(s: Stream, size: nat, cb: Option<Callback>)
    ensures WritesSettled(s, AdjustWindow(s, size, cb), [], [])
  {
    SettledWithoutCalls(s, AdjustWindow(s, size, cb));
  }

  lemma EndingSettles(s: Stream, ev: Event)
    requires ValidStream(s) && (ev.ResetIt? || ev.DataIn? || ev.FinIn? || ev.RstIn? || ev.ConnectionClosed?)
    ensures WritesSettled(s, Step(s, ev), [], [])
  {
    match ev
    case ResetIt => RstSettles(s, ResetByHost); SettledAsIs(s, Reset(s));
    case DataIn(bytes) => OnDataSettles(s, bytes); SettledAsIs(s, OnData(s, bytes).0);
    case FinIn => OnFinSettles(s); SettledAsIs(s, OnFin(s).0);
    case RstIn => RstInSettles(s);
    case ConnectionClosed(code) => DoCloseSettles(s, FromConnection(code)); SettledAsIs(s, Step(s, ev));
  }

  lemma RstInSettles(s: Stream)
    requires ValidStream(s)
    ensures WritesSettled(s, OnRst(s), [], [])
  {
    if s.closeReason.None? {
      DoCloseSettles(s, ResetByPeer);
      SettledAsIs(s, OnRst(s));
    } else {
      SettledWithoutCalls(s, OnRst(s));
    }
  }

  lemma RstSettles(s: Stream, e: Error)
    requires Sound(s)
    ensures var acts := [SendRst] + DoClose(s, e).acts;
            Settles(s.queue.items, Answers(acts), DoClose(s, e).s.queue.items) && Refusals(acts) == []
  {
    DoCloseSettles(s, e);
    NoAnswers([SendRst]);
    AnswersAppend([SendRst], DoClose(s, e).acts);
    assert [] + Answers(DoClose(s, e).acts) == Answers(DoClose(s, e).acts);
  }

  lemma OnDataSettles(s: Stream, bytes: seq<byte>)
    requires ValidStream(s)
    ensures var e := OnData(s, bytes).0;
            Settles(s.queue.items, Answers(e.acts), e.s.queue.items) && Refusals(e.acts) == []
  {
    hide ValidQueue;
    var t, e := Buffered(s, bytes), OnData(s, bytes).0;
    if bytes != [] && s.closeReason.None? && |t.buffered| > s.peersWindow {
      BufferedBytes(s, bytes);
      DoCloseSettles(t, ReceiveOverflow);
      var closing := DoClose(t, ReceiveOverflow).acts;
      var call := e.acts[|closing|..];
      assert e.acts == closing + call;
      NoAnswers(call);
      AnswersAppend(closing, call);
      assert Answers(closing) + [] == Answers(closing);
    } else {
      NoAnswers(e.acts);
    }
  }

  lemma OnFinSettles(s: Stream)
    requires ValidStream(s)
    ensures var e := OnFin(s).0;
            Settles(s.queue.items, Answers(e.acts), e.s.queue.items) && Refusals(e.acts) == []
  {
    var e := OnFin(s).0;
    if s.closeReason.None? && !s.writable {
      var s2 := s.(reading := None);
      var closing := DoClose(s.(reading := None, readable := false), ClosedByHost).acts;
      DoCloseSettles(s2, ClosedByHost);
      assert closing == DoClose(s2, ClosedByHost).acts;
      var call := e.acts[|closing|..];
      assert e.acts == closing + call;
      NoAnswers(call);
      AnswersAppend(closing, call);
      assert Answers(closing) + [] == Answers(closing);
    } else {
      NoAnswers(e.acts);
    }
  }

  // ---------------------------------------------------------------------------------------------
  // Read callbacks.

  function ReadCallbacks(acts: seq<Action>): seq<Callback> {
    if acts == [] then []
    else (if acts[0].ReadCall? then [acts[0].cb] else []) + ReadCallbacks(acts[1..])
  }

  function StoredRead(s: Stream): seq<Callback> { if s.reading.Some? then [s.reading.value.cb] else [] }

  function NewRead(ev: Event): seq<Callback> { if ev.ReadSome? then [ev.cb] else [] }

  lemma {:induction false} ReadCallbacksAppend(a: seq<Action>, b: seq<Action>)
    ensures ReadCallbacks(a + b) == ReadCallbacks(a) + ReadCallbacks(b)
  {
    if a == [] {
      assert a + b == b;
    } else {
      assert (a + b)[1..] == a[1..] + b;
      ReadCallbacksAppend(a[1..], b);
      Assoc(if a[0].ReadCall? then [a[0].cb] else [], ReadCallbacks(a[1..]), ReadCallbacks(b));
    }
  }

  predicate NoReadCalls(acts: seq<Action>) { forall i :: 0 <= i < |acts| ==> !acts[i].ReadCall? }

  lemma {:induction false} NoReadAnswers(acts: seq<Action>)
    requires NoReadCalls(acts)
    ensures ReadCallbacks(acts) == []
  {
    if acts != [] { NoReadAnswers(acts[1..]); }
  }

  lemma {:induction false} FailWritesNoReads(items: seq<Item>, e: Error)
    ensures NoReadCalls(FailWrites(items, e))
  {
    if items != [] { FailWritesNoReads(items[1..], e); }
  }

  lemma ReadsAtEnd(init: seq<Action>, last: seq<Action>)
    requires NoReadCalls(init)
    ensures ReadCallbacks(init + last) == ReadCallbacks(last)
  {
    NoReadAnswers(init);
    ReadCallbacksAppend(init, last);
    assert [] + ReadCallbacks(last) == ReadCallbacks(last);
  }

  /** The call that answers the stored read, if there is one. */
  predicate AnswersStored(s: Stream, last: seq<Action>) {
    if s.reading.Some? then |last| == 1 && last[0].ReadCall? && last[0].cb == s.reading.value.cb else last == []
  }

  lemma StoredAnswered(s: Stream, last: seq<Action>)
    requires AnswersStored(s, last)
    ensures ReadCallbacks(last) == StoredRead(s)
  {
    if last != [] {
      assert last == [last[0]];
      OneRead(last[0]);
    }
  }

  lemma OneRead(a: Action)
    requires a.ReadCall?
    ensures ReadCallbacks([a]) == [a.cb]
  {
    assert [a][1..] == [];
  }

  lemma DoCloseReads(s: Stream, e: Error)
    ensures ReadCallbacks(DoClose(s, e).acts) == StoredRead(s) && DoClose(s, e).s.reading.None?
  {
    var acts := DoClose(s, e).acts;
    var last := if s.reading.Some? then [ReadCall(s.reading.value.cb, None, Some(e), false)] else [];
    StoredAnswered(s, last);
    if s.closeReason.None? {
      FailWritesNoReads(s.queue.items, e);
      ReadsAtEnd(acts[..|acts| - |last|], last);
      assert acts == acts[..|acts| - |last|] + last;
    }
  }

  /** The stored read is answered, or left as it is; no other read is answered. */
  predicate ReadsKept(s: Stream, e: Effect) {
    || (ReadCallbacks(e.acts) == StoredRead(s) && e.s.reading.None?)
    || (ReadCallbacks(e.acts) == [] && e.s.reading == s.reading)
  }

  lemma FlushReads(s: Stream)
    requires ValidQueue(s.queue)
    ensures ReadsKept(s, Flush(s))
  {
    if s.closeReason.None? {
      var p := Pump(s.queue, s.window);
      var s1 := s.(queue := p.q, window := p.window, sent := s.sent + Concat(p.chunks));
      SendAllNoCalls(p.chunks);
      ReadsAtEnd(SendAll(p.chunks), FinishWriting(s1).acts);
      FinishReads(s1);
    }
  }

  lemma FinishReads(s: Stream)
    requires s.closeReason.None?
    ensures ReadsKept(s, FinishWriting(s))
  {
    if !s.writable && s.window > 0 {
      var fin := if s.finSent then [] else [SendFin(!s.readable)];
      NoReadAnswers(fin);
      if !s.readable {
        DoCloseReads(s.(finSent := true), ClosedByHost);
        ReadsAtEnd(fin, DoClose(s.(finSent := true), ClosedByHost).acts);
      }
    }
  }

  /** Every read asked for is answered once or is the one stored. */
  predicate ReadsSettled(s: Stream, e: Effect, asked: seq<Callback>) {
    multiset(StoredRead(s) + asked) == multiset(ReadCallbacks(e.acts) + StoredRead(e.s))
  }

  lemma ReadsAsIs(s: Stream, e: Effect)
    requires ReadsKept(s, e)
    ensures ReadsSettled(s, e, [])
  {
    assert StoredRead(s) + [] == StoredRead(s) == [] + StoredRead(s);
  }

  lemma ReadsUntouched(s: Stream, e: Effect)
    requires NoReadCalls(e.acts) && e.s.reading == s.reading
    ensures ReadsSettled(s, e, [])
  {
    NoReadAnswers(e.acts);
    ReadsAsIs(s, e);
  }

  lemma WriteReads(s: Stream, data: seq<byte>, cb: Callback)
    requires ValidStream(s)
    ensures ReadsSettled(s, Write(s, data, cb), [])
  {
    if Accepts(s, WriteSome(data, cb)) {
      EnqueueKeeps(s.queue, data, cb);
      assert s.sent + Unsent(s.queue) + data == s.sent + (Unsent(s.queue) + data);
      FlushReads(s.(queue := Enqueue(s.queue, data, cb), accepted := s.accepted + data));
      ReadsAsIs(s, Write(s, data, cb));
    } else {
      ReadsUntouched(s, Write(s, data, cb));
    }
  }

  lemma ReadReads(s: Stream, size: nat, cb: Callback)
    requires ValidStream(s) && CanRead(s, size)
    ensures ReadsSettled(s, Read(s, size, cb), [cb])
  {
    var e := Read(s, size, cb);
    if size > 0 && s.buffered != [] {
      var n := Min(size, |s.buffered|);
      var grant, call := if s.readable then [SendWindow(n)] else [], ReadCall(cb, Some(s.buffered[..n]), None, true);
      assert e.acts == grant + [call];
      AnsweredNow(s, e, grant, call);
    } else if e.acts != [] {
      assert e.acts == [] + [e.acts[0]];
      AnsweredNow(s, e, [], e.acts[0]);
    } else {
      assert StoredRead(s) + [cb] == [] + [cb];
    }
  }

  lemma AnsweredNow(s: Stream, e: Effect, init: seq<Action>, call: Action)
    requires e.acts == init + [call] && call.ReadCall? && NoReadCalls(init) && e.s.reading == s.reading
    ensures ReadsSettled(s, e, [call.cb])
  {
    ReadsAtEnd(init, [call]);
    OneRead(call);
    Swap(StoredRead(s), [call.cb]);
  }

  lemma Swap(a: seq<Callback>, b: seq<Callback>)
    ensures multiset(a + b) == multiset(b + a)
  {
  }

  lemma CloseReads(s: Stream, cb: Option<Callback>)
    requires ValidStream(s)
    ensures ReadsSettled(s, Close(s, cb), [])
  {
    if s.closeReason.None? && s.writable {
      FlushReads(s.(closeCb := cb, writable := false));
      ReadsAsIs(s, Close(s, cb));
    } else {
      ReadsUntouched(s, Close(s, cb));
    }
  }

  lemma WindowReads(s: Stream, delta: nat)
    requires ValidStream(s)
    ensures ReadsSettled(s, IncreaseWindow(s, delta), [])
  {
    if delta > 0 {
      FlushReads(s.(window := s.window + delta));
      ReadsAsIs(s, IncreaseWindow(s, delta));
    } else {
      ReadsUntouched(s, IncreaseWindow(s, delta));
    }
  }

  lemma WrittenReads(s: Stream, n: nat)
    requires ValidStream(s)
    ensures ReadsSettled(s, OnWritten(s, n), [])
  {
    if AckSent(s.queue, n).Inconsistent? {
      RstReads(s, InternalError);
      ReadsAsIs(s, OnWritten(s, n));
    } else {
      ReadsUntouched(s, OnWritten(s, n));
    }
  }

  lemma RstInReads(s: Stream)
    ensures ReadsSettled(s, OnRst(s), [])
  {
    if s.closeReason.None? {
      DoCloseReads(s, ResetByPeer);
      ReadsAsIs(s, OnRst(s));
    } else {
      ReadsUntouched(s, OnRst(s));
    }
  }

  /** One event: every read it touches is accounted for. */
  lemma StepReads(s: Stream, ev: Event)
    requires ValidStream(s) && Allowed(s, ev)
    ensures ReadsSettled(s, Step(s, ev), NewRead(ev))
  {
    match ev
    case WriteSome(data, cb) => WriteReads(s, data, cb);
    case ReadSome(size, cb) => ReadReads(s, size, cb);
    case CloseIt(cb) => CloseReads(s, cb);
    case WindowIn(delta) => WindowReads(s, delta);
    case Written(n) => WrittenReads(s, n);
    case RstIn => RstInReads(s);
    case Adjust(size, cb) => AdjustReads(s, size, cb);
    case _ => EndingReads(s, ev);
  }

  lemma AdjustReads(s: Stream, size: nat, cb: Option<Callback>)
    ensures ReadsSettled(s, AdjustWindow(s, size, cb), [])
  {
    ReadsUntouched(s, AdjustWindow(s, size, cb));
  }

  lemma EndingReads(s: Stream, ev: Event)
    requires ValidStream(s) && (ev.ResetIt? || ev.DataIn? || ev.FinIn? || ev.ConnectionClosed?)
    ensures ReadsSettled(s, Step(s, ev), [])
  {
    match ev
    case ResetIt => RstReads(s, ResetByHost); ReadsAsIs(s, Reset(s));
    case DataIn(bytes) => OnDataReads(s, bytes); ReadsAsIs(s, OnData(s, bytes).0);
    case FinIn => OnFinReads(s); ReadsAsIs(s, OnFin(s).0);
    case ConnectionClosed(code) => DoCloseReads(s, FromConnection(code)); ReadsAsIs(s, Step(s, ev));
  }

  lemma RstReads(s: Stream, e: Error)
    ensures ReadsKept(s, Effect(DoClose(s, e).s, [SendRst] + DoClose(s, e).acts))
  {
    DoCloseReads(s, e);
    ReadsAtEnd([SendRst], DoClose(s, e).acts);
  }

  lemma OnDataReads(s: Stream, bytes: seq<byte>)
    ensures ReadsKept(s, OnData(s, bytes).0)
  {
    if bytes != [] {
      var t, e := Buffered(s, bytes), OnData(s, bytes).0;
      var all := s.buffered + bytes;
      var n := if s.reading.Some? then Min(s.reading.value.size, |all|) else 0;
      var last := if s.reading.Some? then [ReadCall(s.reading.value.cb, Some(all[..n]), None, false)] else [];
      StoredAnswered(s, last);
      if s.closeReason.Some? {
        assert e.acts == last;
      } else if |t.buffered| > s.peersWindow {
        var closing := DoClose(t, ReceiveOverflow).acts;
        FailWritesNoReads(t.queue.items, ReceiveOverflow);
        ReadsAtEnd(closing, last);
        assert e.acts == closing + last;
      } else {
        var grant := if n > 0 then [SendWindow(n)] else [];
        ReadsAtEnd(grant, last);
        assert e.acts == grant + last;
      }
    }
  }

  lemma OnFinReads(s: Stream)
    ensures ReadsKept(s, OnFin(s).0)
  {
    var e, last := OnFin(s).0, ReadFailure(s, ClosedByHost);
    StoredAnswered(s, last);
    if s.closeReason.None? && !s.writable {
      var closing := DoClose(s.(reading := None, readable := false), ClosedByHost).acts;
      FailWritesNoReads(s.queue.items, ClosedByHost);
      ReadsAtEnd(closing, last);
      assert e.acts == closing + last;
    } else {
      assert e.acts == last;
    }
  }

  // ---------------------------------------------------------------------------------------------
  // The bytes that read callbacks are told.

  /** The bytes reported by the reads that succeed, in order. */
  function GotOf(acts: seq<Action>): seq<byte> {
    if acts == [] then []
    else (if acts[0].ReadCall? && acts[0].got.Some? then acts[0].got.value else []) + GotOf(acts[1..])
  }

  lemma {:induction false} GotAppend(a: seq<Action>, b: seq<Action>)
    ensures GotOf(a + b) == GotOf(a) + GotOf(b)
  {
    if a == [] {
      assert a + b == b;
    } else {
      assert (a + b)[1..] == a[1..] + b;
      GotAppend(a[1..], b);
      Assoc(if a[0].ReadCall? && a[0].got.Some? then a[0].got.value else [], GotOf(a[1..]), GotOf(b));
    }
  }

  predicate Reportless(acts: seq<Action>) { forall i :: 0 <= i < |acts| && acts[i].ReadCall? ==> acts[i].got.None? }

  lemma {:induction false} NothingGot(acts: seq<Action>)
    requires Reportless(acts)
    ensures GotOf(acts) == []
  {
    if acts != [] { NothingGot(acts[1..]); }
  }

  lemma GotAtEnd(init: seq<Action>, cb: Callback, data: seq<byte>, deferred: bool)
    requires NoReadCalls(init)
    ensures GotOf(init + [ReadCall(cb, Some(data), None, deferred)]) == data
  {
    var last := [ReadCall(cb, Some(data), None, deferred)];
    NothingGot(init);
    GotAppend(init, last);
    assert last[1..] == [] && data + [] == data && [] + data == data;
  }

  lemma ReportlessAppend(a: seq<Action>, b: seq<Action>)
    requires Reportless(a) && Reportless(b)
    ensures Reportless(a + b)
  {
  }

  lemma DoCloseReportless(s: Stream, e: Error)
    ensures Reportless(DoClose(s, e).acts) && DoClose(s, e).s.delivered == s.delivered
  {
    hide FailWrites;
    var fails, read := FailWrites(s.queue.items, e), ReadFailure(s, e);
    if s.closeReason.None? {
      FailWritesNoReads(s.queue.items, e);
      var close := ClosingCalls(s, e)[|fails|..];
      assert ClosingCalls(s, e) == fails + close;
      ReportlessAppend(fails, close);
      ReportlessAppend(fails + close, read);
    }
  }

  lemma FinishReportless(s: Stream)
    requires s.closeReason.None?
    ensures Reportless(FinishWriting(s).acts) && FinishWriting(s).s.delivered == s.delivered
  {
    hide DoClose, Reportless;
    var s1 := s.(finSent := true);
    var fin := if s.finSent then [] else [SendFin(!s.readable)];
    assert Reportless(fin) && Reportless([]) by { NoReportIn(fin); NoReportIn([]); }
    DoCloseReportless(s1, ClosedByHost);
    ReportlessAppend(fin, DoClose(s1, ClosedByHost).acts);
  }

  lemma NoReportIn(acts: seq<Action>)
    requires NoReadCalls(acts)
    ensures Reportless(acts)
  {
  }

  lemma NothingReports()
    ensures Reportless([])
  {
  }

  lemma FlushReportless(s: Stream)
    requires ValidQueue(s.queue)
    ensures Reportless(Flush(s).acts) && Flush(s).s.delivered == s.delivered
  {
    hide FinishWriting, Reportless, NoReadCalls, ValidQueue;
    if s.closeReason.Some? {
      NothingReports();
    } else {
      var p := Pump(s.queue, s.window);
      var s1 := s.(queue := p.q, window := p.window, sent := s.sent + Concat(p.chunks));
      SendAllNoCalls(p.chunks);
      NoReportIn(SendAll(p.chunks));
      FinishReportless(s1);
      ReportlessAppend(SendAll(p.chunks), FinishWriting(s1).acts);
    }
  }

  /** The stream's record of what it delivered grows by what is reported. */
  ghost predicate Reports(s: Stream, e: Effect) { Grows(e.s.delivered, s.delivered, GotOf(e.acts)) }

  lemma ReadReported(s: Stream, size: nat, cb: Callback)
    requires CanRead(s, size)
    ensures Reports(s, Read(s, size, cb))
  {
    if size > 0 && s.buffered != [] {
      var n := Min(size, |s.buffered|);
      GotAtEnd(if s.readable then [SendWindow(n)] else [], cb, s.buffered[..n], true);
    } else {
      NothingGot(Read(s, size, cb).acts);
    }
  }

  lemma DataReported(s: Stream, bytes: seq<byte>)
    requires ValidStream(s)
    ensures Reports(s, OnData(s, bytes).0)
  {
    hide ValidQueue;
    var t, e := Buffered(s, bytes), OnData(s, bytes).0;
    if bytes != [] && s.reading.Some? {
      var call := e.acts[|e.acts| - 1];
      var init := e.acts[..|e.acts| - 1];
      assert e.acts == init + [call];
      DoCloseReads(t, ReceiveOverflow);
      FailWritesNoReads(t.queue.items, ReceiveOverflow);
      GotAtEnd(init, call.cb, call.got.value, false);
    } else if bytes != [] {
      DoCloseReportless(t, ReceiveOverflow);
      NothingGot(e.acts);
      assert s.delivered + [] == s.delivered;
    }
  }

  lemma OtherReported(s: Stream, ev: Event)
    requires ValidStream(s) && !ev.ReadSome? && !ev.DataIn?
    ensures Reportless(Step(s, ev).acts) && Step(s, ev).s.delivered == s.delivered
  {
    match ev
    case WriteSome(data, cb) => WriteReported(s, data, cb);
    case CloseIt(cb) => CloseReported(s, cb);
    case WindowIn(delta) => WindowReported(s, delta);
    case Written(n) => WrittenReported(s, n);
    case FinIn => FinReported(s);
    case Adjust(size, cb) => AdjustReported(s, size, cb);
    case _ => EndingReported(s, ev);
  }

  lemma CloseReported(s: Stream, cb: Option<Callback>)
    requires ValidStream(s)
    ensures Reportless(Close(s, cb).acts) && Close(s, cb).s.delivered == s.delivered
  {
    hide Flush, ValidQueue;
    FlushReportless(s.(closeCb := cb, writable := false));
  }

  lemma WindowReported(s: Stream, delta: nat)
    requires ValidStream(s)
    ensures Reportless(IncreaseWindow(s, delta).acts) && IncreaseWindow(s, delta).s.delivered == s.delivered
  {
    hide Flush, ValidQueue;
    FlushReportless(s.(window := s.window + delta));
  }

  lemma AdjustReported(s: Stream, size: nat, cb: Option<Callback>)
    ensures Reportless(AdjustWindow(s, size, cb).acts) && AdjustWindow(s, size, cb).s.delivered == s.delivered
  {
  }

  lemma WrittenReported(s: Stream, n: nat)
    requires ValidStream(s)
    ensures Reportless(OnWritten(s, n).acts) && OnWritten(s, n).s.delivered == s.delivered
  {
    hide DoClose, ValidQueue, AckSent;
    DoCloseReportless(s, InternalError);
  }

  lemma FinReported(s: Stream)
    ensures Reportless(OnFin(s).0.acts) && OnFin(s).0.s.delivered == s.delivered
  {
    hide DoClose;
    var s2 := s.(reading := None, readable := false);
    DoCloseReportless(s2, ClosedByHost);
    ReportlessAppend(DoClose(s2, ClosedByHost).acts, ReadFailure(s, ClosedByHost));
  }

  lemma EndingReported(s: Stream, ev: Event)
    requires ValidStream(s) && (ev.ResetIt? || ev.RstIn? || ev.ConnectionClosed?)
    ensures Reportless(Step(s, ev).acts) && Step(s, ev).s.delivered == s.delivered
  {
    hide DoClose, ValidQueue;
    match ev
    case ResetIt => DoCloseReportless(s, ResetByHost);
    case RstIn => DoCloseReportless(s, ResetByPeer);
    case ConnectionClosed(code) => DoCloseReportless(s, FromConnection(code));
  }

  lemma WriteReported(s: Stream, data: seq<byte>, cb: Callback)
    requires ValidStream(s)
    ensures Reportless(Write(s, data, cb).acts) && Write(s, data, cb).s.delivered == s.delivered
  {
    hide Flush;
    if Accepts(s, WriteSome(data, cb)) {
      EnqueueKeeps(s.queue, data, cb);
      FlushReportless(s.(queue := Enqueue(s.queue, data, cb), accepted := s.accepted + data));
    }
  }

  /** One event: what it delivers is what it reports, byte for byte. */
  lemma StepReported(s: Stream, ev: Event)
    requires ValidStream(s) && Allowed(s, ev)
    ensures Reports(s, Step(s, ev))
  {
    hide ValidStream;
    if ev.ReadSome? {
      ReadReported(s, ev.size, ev.cb);
    } else if ev.DataIn? {
      DataReported(s, ev.bytes);
    } else {
      OtherReported(s, ev);
      NothingGot(Step(s, ev).acts);
    }
  }

  // ---------------------------------------------------------------------------------------------
  // Runs.

  /** A run so far: the stream, every action it took, the writes it accepted and the reads it was asked for. */
  datatype History = History(s: Stream, acts: seq<Action>, items: seq<Item>, readCbs: seq<Callback>,
                             refusedWrites: seq<Callback>)

  function Next(h: History, ev: Event): History
    requires ValidStream(h.s) && Allowed(h.s, ev)
  {
    var e := Step(h.s, ev);
    History(e.s, h.acts + e.acts, h.items + NewItems(h.s, ev), h.readCbs + NewRead(ev),
            h.refusedWrites + if ev.WriteSome? && !Accepts(h.s, ev) then [ev.cb] else [])
  }

  /**
   * What every run keeps. Bytes: the data actions carry exactly the bytes recorded as sent. FIN: at most one,
   * announced only when everything accepted was sent before it, with no data after it. Writes: answered in
   * the order accepted, each once, a success with its full size; the unanswered ones are those stored.
   * Reads: each answered once or stored, and what was delivered is what they were told. Refused writes: each answered
   * once. What was accepted is the data of the accepted writes.
   */
  ghost predicate RunInv(h: History) {
    && ValidStream(h.s)
    && h.s.sent == DataOf(h.acts)
    && FinLast(h.acts) && (HasFin(h.acts) <==> h.s.finSent) && (HasFin(h.acts) ==> DataOf(h.acts) == h.s.accepted)
    && Settles(h.items, Answers(h.acts), h.s.queue.items)
    && Refusals(h.acts) == h.refusedWrites
    && multiset(h.readCbs) == multiset(ReadCallbacks(h.acts) + StoredRead(h.s))
    && h.s.delivered == GotOf(h.acts)
    && h.s.accepted == Bytes(h.items)
  }

  /** A new stream; its maximum window is at least the initial one. */
  function FreshHistory(maxWindow: nat, limit: nat): History { History(NewStream(maxWindow, limit), [], [], [], []) }

  lemma FreshRun(maxWindow: nat, limit: nat)
    requires maxWindow >= YamuxFrame.INITIAL_WINDOW
    ensures RunInv(FreshHistory(maxWindow, limit))
  {
  }

  lemma {:induction false} FinLastAppend(a: seq<Action>, b: seq<Action>)
    requires FinLast(a) && FinLast(b) && (HasFin(a) ==> DataOf(b) == [] && !HasFin(b))
    ensures FinLast(a + b)
  {
    ActsAppend(a, b);
  }

  lemma SettlesAppend(items: seq<Item>, calls: seq<Action>, stored: seq<Item>, more: seq<Item>, calls': seq<Action>,
                      left: seq<Item>)
    requires Settles(items, calls, stored) && Settles(stored + more, calls', left)
    ensures Settles(items + more, calls + calls', left)
  {
    assert (items + more)[|calls|..] == stored + more;
    forall i | 0 <= i < |calls + calls'| ensures AnswersItem((calls + calls')[i], (items + more)[i]) {
      if i >= |calls| {
        assert (items + more)[i] == (stored + more)[i - |calls|];
      }
    }
    assert (items + more)[|calls + calls'|..] == (stored + more)[|calls'|..];
  }

  lemma NextKeeps(h: History, ev: Event)
    requires RunInv(h) && Allowed(h.s, ev)
    ensures RunInv(Next(h, ev))
  {
    hide Step, ValidStream, Kept, Answers, Refusals, ReadCallbacks, DataOf, HasFin, FinLast, Bytes;
    var e := Step(h.s, ev);
    StepKept(h.s, ev);
    NextSends(h.s, h.acts, e, Incoming(ev), Granted(ev));
    AnswersAppend(h.acts, e.acts);
    ReadCallbacksAppend(h.acts, e.acts);
    NextWrites(h, ev);
    NextReads(h, ev);
    StepReported(h.s, ev);
    GotAppend(h.acts, e.acts);
    assert GotOf(h.acts) + [] == GotOf(h.acts);
    NextAccepts(h, ev);
  }

  lemma NextAccepts(h: History, ev: Event)
    requires ValidStream(h.s) && Allowed(h.s, ev) && h.s.accepted == Bytes(h.items)
    ensures Next(h, ev).s.accepted == Bytes(Next(h, ev).items)
  {
    hide ValidQueue;
    StepAccepts(h.s, ev);
    BytesAppend(h.items, NewItems(h.s, ev));
    assert h.items + [] == h.items;
    if Accepts(h.s, ev) { assert Bytes([Item(ev.data, ev.cb)]) == ev.data + Bytes([]) == ev.data; }
  }

  lemma FlushAccepted(s: Stream)
    requires ValidQueue(s.queue)
    ensures Flush(s).s.accepted == s.accepted
  {
  }

  lemma StepAccepts(s: Stream, ev: Event)
    requires ValidStream(s) && Allowed(s, ev)
    ensures Step(s, ev).s.accepted == if Accepts(s, ev) then s.accepted + ev.data else s.accepted
  {
    hide ValidQueue, Flush;
    match ev
    case WriteSome(data, cb) =>
      if Accepts(s, ev) {
        EnqueueKeeps(s.queue, data, cb);
        FlushAccepted(s.(queue := Enqueue(s.queue, data, cb), accepted := s.accepted + data));
      }
    case CloseIt(cb) => FlushAccepted(s.(closeCb := cb, writable := false));
    case WindowIn(delta) => FlushAccepted(s.(window := s.window + delta));
    case _ =>
  }

  lemma NextSends(s: Stream, acts: seq<Action>, e: Effect, got: seq<byte>, credit: nat)
    requires ValidStream(s) && Kept(s, e, got, credit) && s.sent == DataOf(acts) && FinLast(acts)
    requires (HasFin(acts) <==> s.finSent) && (HasFin(acts) ==> DataOf(acts) == s.accepted)
    ensures var all := acts + e.acts;
            && e.s.sent == DataOf(all) && FinLast(all) && (HasFin(all) <==> e.s.finSent)
            && (HasFin(all) ==> DataOf(all) == e.s.accepted)
  {
    ActsAppend(acts, e.acts);
    FinLastAppend(acts, e.acts);
    assert DataOf(acts) + [] == DataOf(acts);
  }

  lemma NextWrites(h: History, ev: Event)
    requires ValidStream(h.s) && Allowed(h.s, ev)
    requires Settles(h.items, Answers(h.acts), h.s.queue.items) && Refusals(h.acts) == h.refusedWrites
    ensures Settles(Next(h, ev).items, Answers(h.acts) + Answers(Step(h.s, ev).acts), Step(h.s, ev).s.queue.items)
    ensures Next(h, ev).refusedWrites == Refusals(h.acts) + Refusals(Step(h.s, ev).acts)
  {
    StepSettles(h.s, ev);
    SettlesAppend(h.items, Answers(h.acts), h.s.queue.items, NewItems(h.s, ev), Answers(Step(h.s, ev).acts),
      Step(h.s, ev).s.queue.items);
  }

  lemma NextReads(h: History, ev: Event)
    requires ValidStream(h.s) && Allowed(h.s, ev)
    requires multiset(h.readCbs) == multiset(ReadCallbacks(h.acts) + StoredRead(h.s))
    ensures multiset(h.readCbs + NewRead(ev))
         == multiset(ReadCallbacks(h.acts) + ReadCallbacks(Step(h.s, ev).acts) + StoredRead(Step(h.s, ev).s))
  {
    StepReads(h.s, ev);
    var e := Step(h.s, ev);
    assert multiset(h.readCbs + NewRead(ev)) == multiset(h.readCbs) + multiset(NewRead(ev));
    assert multiset(ReadCallbacks(h.acts) + StoredRead(h.s)) == multiset(ReadCallbacks(h.acts)) +
      multiset(StoredRead(h.s));
    assert multiset(StoredRead(h.s) + NewRead(ev)) == multiset(StoredRead(h.s)) + multiset(NewRead(ev));
  }

  /** A run is allowed when no read is issued while one is stored (the source aborts on that). */
  ghost predicate AllowedRun(h: History, evs: seq<Event>)
    requires ValidStream(h.s)
    decreases |evs|
  {
    evs == [] || (Allowed(h.s, evs[0]) && (StepKept(h.s, evs[0]); AllowedRun(Next(h, evs[0]), evs[1..])))
  }

  ghost function RunOf(h: History, evs: seq<Event>): History
    requires ValidStream(h.s) && AllowedRun(h, evs)
    decreases |evs|
  {
    if evs == [] then h else StepKept(h.s, evs[0]); RunOf(Next(h, evs[0]), evs[1..])
  }

  lemma {:induction false} EveryRun(h: History, evs: seq<Event>)
    requires RunInv(h) && AllowedRun(h, evs)
    ensures RunInv(RunOf(h, evs))
    decreases |evs|
  {
    if evs != [] {
      NextKeeps(h, evs[0]);
      EveryRun(Next(h, evs[0]), evs[1..]);
    }
  }

  /** After closing nothing is left stored: every accepted write and every read asked for was answered exactly once. */
  lemma ClosedRunIsSettled(h: History, evs: seq<Event>)
    requires RunInv(h) && AllowedRun(h, evs) && RunOf(h, evs).s.closeReason.Some?
    ensures var e := RunOf(h, evs);
            && |Answers(e.acts)| == |e.items|
            && (forall i :: 0 <= i < |e.items| ==> AnswersItem(Answers(e.acts)[i], e.items[i]))
            && multiset(e.readCbs) == multiset(ReadCallbacks(e.acts))
  {
    EveryRun(h, evs);
    var e := RunOf(h, evs);
    assert ReadCallbacks(e.acts) + [] == ReadCallbacks(e.acts);
  }

  /**
   * Every run of a new stream. The data it hands to the connection is a prefix of the data of the accepted writes; FIN
   * comes at most once, after all of it, and nothing but resets and callbacks follows. Accepted writes are answered in
   * order, a success with the full size, and the unanswered ones are those stored. Every read asked for was answered
   * once or is the one stored, and the bytes told to the reads are, joined, what the stream has delivered. Once the
   * stream is closed nothing is stored any more.
   */
  lemma EveryFreshRun(maxWindow: nat, limit: nat, evs: seq<Event>)
    requires maxWindow >= YamuxFrame.INITIAL_WINDOW && AllowedRun(FreshHistory(maxWindow, limit), evs)
    ensures var e := RunOf(FreshHistory(maxWindow, limit), evs);
            && DataOf(e.acts) <= Bytes(e.items) == e.s.accepted && GotOf(e.acts) == e.s.delivered
            && FinLast(e.acts) && (HasFin(e.acts) ==> DataOf(e.acts) == Bytes(e.items))
            && Settles(e.items, Answers(e.acts), e.s.queue.items)
            && Refusals(e.acts) == e.refusedWrites
            && multiset(e.readCbs) == multiset(ReadCallbacks(e.acts) + StoredRead(e.s))
            && (e.s.closeReason.Some? ==> e.s.queue.items == [] && StoredRead(e.s) == [])
  {
    hide RunOf, AllowedRun, ValidQueue;
    FreshRun(maxWindow, limit);
    EveryRun(FreshHistory(maxWindow, limit), evs);
  }

  // ---------------------------------------------------------------------------------------------
  // Unread bytes.

  /**
   * The events on which an open stream closes without an error: the peer's FIN after `close()`, `close()` after the
   * peer's FIN, or the window update that lets the FIN of such a `close()` out.
   */
  predicate Finishes(s: Stream, ev: Event) {
    match ev
    case FinIn => !s.writable
    case CloseIt(_) => !s.readable && s.writable && s.window > 0
    case WindowIn(delta) => !s.readable && !s.writable && ValidQueue(s.queue) && delta > |Unsent(s.queue)|
    case _ => false
  }

  /** What a flush does to the bytes received: it forgets the unread ones if it closes the stream. */
  lemma FlushUnread(s: Stream)
    requires Sound(s) && s.closeReason.None?
    ensures var t := Flush(s).s;
            && t.delivered == s.delivered
            && (t.closeReason == Some(ClosedByHost) <==>
              !s.writable && !s.readable && Pump(s.queue, s.window).window > 0)
            && (t.closeReason.Some? ==> t.closeReason == Some(ClosedByHost))
            && t.buffered == if t.closeReason.Some? then [] else s.buffered
  {
  }

  lemma CloseUnread(s: Stream, cb: Option<Callback>)
    requires ValidStream(s) && s.closeReason.None?
    ensures UnreadKept(s, CloseIt(cb), Close(s, cb).s)
  {
    hide Flush, Pump, ValidQueue, Unsent;
    if s.writable {
      FlushUnread(s.(closeCb := cb, writable := false));
      PumpSendsPrefix(s.queue, s.window);
    }
  }

  lemma WindowUnread(s: Stream, delta: nat)
    requires ValidStream(s) && s.closeReason.None?
    ensures UnreadKept(s, WindowIn(delta), IncreaseWindow(s, delta).s)
  {
    hide Flush, Pump, ValidQueue, Unsent;
    if delta > 0 {
      FlushUnread(s.(window := s.window + delta));
      PumpSendsPrefix(s.queue, s.window + delta);
    }
  }

  /** The stream closes cleanly exactly when the event finishes it, and only then are bytes dropped. */
  ghost predicate UnreadKept(s: Stream, ev: Event, t: Stream) {
    && (t.closeReason == Some(ClosedByHost) <==> Finishes(s, ev))
    && (t.closeReason.None? ==> t.delivered + t.buffered == Joined(s.delivered + s.buffered, Incoming(ev)))
    && (Finishes(s, ev) ==> t.delivered == s.delivered && t.buffered == [])
  }

  lemma WriteUnread(s: Stream, data: seq<byte>, cb: Callback)
    requires ValidStream(s) && s.closeReason.None?
    ensures UnreadKept(s, WriteSome(data, cb), Write(s, data, cb).s)
  {
    hide Flush, Pump, ValidQueue, Unsent;
    if Accepts(s, WriteSome(data, cb)) {
      EnqueueKeeps(s.queue, data, cb);
      EnqueuedSound(s, data, cb);
      FlushUnread(s.(queue := Enqueue(s.queue, data, cb), accepted := s.accepted + data));
    }
  }

  lemma ReadUnread(s: Stream, size: nat, cb: Callback)
    requires ValidStream(s) && s.closeReason.None? && CanRead(s, size)
    ensures UnreadKept(s, ReadSome(size, cb), Read(s, size, cb).s)
  {
    hide ValidQueue, Unsent;
    if size > 0 && s.buffered != [] {
      var n := Min(size, |s.buffered|);
      assert s.buffered == s.buffered[..n] + s.buffered[n..];
      Assoc(s.delivered, s.buffered[..n], s.buffered[n..]);
    }
  }

  lemma DataUnread(s: Stream, bytes: seq<byte>)
    requires ValidStream(s) && s.closeReason.None?
    ensures UnreadKept(s, DataIn(bytes), OnData(s, bytes).0.s)
  {
    hide ValidQueue, Unsent;
    if bytes != [] {
      var all := s.buffered + bytes;
      var n := if s.reading.Some? then Min(s.reading.value.size, |all|) else 0;
      assert all == all[..n] + all[n..];
      Assoc(s.delivered, all[..n], all[n..]);
      Assoc(s.delivered, s.buffered, bytes);
    }
  }

  lemma OtherUnread(s: Stream, ev: Event)
    requires ValidStream(s) && s.closeReason.None? && Allowed(s, ev)
    requires !ev.WriteSome? && !ev.ReadSome? && !ev.CloseIt? && !ev.WindowIn? && !ev.DataIn?
    ensures UnreadKept(s, ev, Step(s, ev).s)
  {
    hide ValidQueue, Unsent, AckSent, Write, Read, Close, IncreaseWindow, OnData;
  }

  /**
   * Of an open stream no event loses a byte that was received, unless the stream is reset, broken or told that the
   * connection is gone; a clean close keeps them all exactly if none was left unread.
   */
  lemma UnreadLostExactly(s: Stream, ev: Event)
    requires ValidStream(s) && s.closeReason.None? && Allowed(s, ev)
    ensures var t := Step(s, ev).s;
            && (t.closeReason == Some(ClosedByHost) <==> Finishes(s, ev))
            && (t.closeReason.None? || t.closeReason == Some(ClosedByHost) ==>
                  (t.delivered + t.buffered == Joined(s.delivered + s.buffered, Incoming(ev)) <==>
                     !Finishes(s, ev) || s.buffered == []))
  {
    hide ValidQueue, Unsent, Flush, DoClose, AckSent, Read, OnData, OnFin, AdjustWindow;
    if ev.CloseIt? {
      CloseUnread(s, ev.closeCb);
    } else if ev.WindowIn? {
      WindowUnread(s, ev.delta);
    } else if ev.WriteSome? {
      WriteUnread(s, ev.data, ev.cb);
    } else if ev.ReadSome? {
      ReadUnread(s, ev.size, ev.cb);
    } else if ev.DataIn? {
      DataUnread(s, ev.bytes);
    } else {
      OtherUnread(s, ev);
    }
    assert s.delivered + [] == s.delivered;
    if s.buffered != [] { assert |s.delivered + s.buffered| > |s.delivered|; }
  }

  // ---------------------------------------------------------------------------------------------
  // Unsent bytes.

  /** The callback that a clean close answers. */
  function Awaiting(s: Stream, ev: Event): Option<Callback> { if ev.CloseIt? then ev.closeCb else s.closeCb }

  lemma CleanCloseAnswers(s: Stream)
    requires s.closeReason.None? && s.closeCb.Some?
    ensures CloseCall(s.closeCb.value, None, false) in DoClose(s, ClosedByHost).acts
  {
    var calls := FailWrites(s.queue.items, ClosedByHost);
    assert ClosingCalls(s, ClosedByHost)[|calls|] == CloseCall(s.closeCb.value, None, false);
  }

  /** A flush that closes the stream has sent everything, and the FIN last. */
  lemma FlushUnsent(s: Stream)
    requires Sound(s) && s.closeReason.None? && Flush(s).s.closeReason.Some?
    ensures Flush(s).s.finSent && Flush(s).s.sent == Flush(s).s.accepted
    ensures s.closeCb.Some? ==> CloseCall(s.closeCb.value, None, false) in Flush(s).acts
  {
    hide ValidQueue, DoClose;
    FlushKept(s);
    var p := Pump(s.queue, s.window);
    var s1 := s.(queue := p.q, window := p.window, sent := s.sent + Concat(p.chunks), finSent := true);
    assert Flush(s).s == DoClose(s1, ClosedByHost).s;
    DoCloseSends(s1);
    if s.closeCb.Some? { CleanCloseAnswers(s1); }
  }

  lemma DoCloseSends(s: Stream)
    ensures DoClose(s, ClosedByHost).s.finSent == s.finSent && DoClose(s, ClosedByHost).s.sent == s.sent
    ensures DoClose(s, ClosedByHost).s.accepted == s.accepted
  {
  }

  /**
   * A clean close reports success to whoever waits for it. Everything accepted and the FIN have gone out by then,
   * unless it is the peer's FIN that closes the stream before its own FIN was sent: then that FIN never goes out,
   * and neither does any byte that was still waiting for the window.
   */
  lemma UnsentLostExactly(s: Stream, ev: Event)
    requires ValidStream(s) && s.closeReason.None? && Allowed(s, ev) && Finishes(s, ev)
    ensures var e := Step(s, ev);
            && (e.s.finSent <==> !ev.FinIn? || s.finSent)
            && (e.s.sent == e.s.accepted <==> !ev.FinIn? || Unsent(s.queue) == [])
            && (Awaiting(s, ev).Some? ==> CloseCall(Awaiting(s, ev).value, None, false) in e.acts)
  {
    hide ValidQueue, Flush, DoClose;
    UnreadLostExactly(s, ev);
    match ev
    case FinIn =>
      var s2 := s.(reading := None, readable := false);
      DoCloseSends(s2);
      if s.closeCb.Some? { CleanCloseAnswers(s2); }
      assert s.sent == s.accepted <==> Unsent(s.queue) == [] by {
        assert s.accepted == s.sent + Unsent(s.queue);
        if Unsent(s.queue) == [] { assert s.sent + [] == s.sent; }
      }
    case CloseIt(cb) => FlushUnsent(s.(closeCb := cb, writable := false));
    case WindowIn(delta) => FlushUnsent(s.(window := s.window + delta));
  }
}
