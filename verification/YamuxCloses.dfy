/**
 * The callbacks given to `close()`. A stream stores one; it is answered when the stream closes. A second `close()` on a
 * stream that is still open replaces the stored callback, which is then never called.
 */
module YamuxCloses {
  import opened Basics
  import YamuxFrame
  import opened WriteQueues
  import opened YamuxStreamSpec
  import opened YamuxStreamRuns

  function CloseAnswers(acts: seq<Action>): seq<Callback> {
    if acts == [] then []
    else (if acts[0].CloseCall? then [acts[0].cb] else []) + CloseAnswers(acts[1..])
  }

  function StoredClose(s: Stream): seq<Callback> { if s.closeCb.Some? then [s.closeCb.value] else [] }

  function AskedClose(ev: Event): seq<Callback> { if ev.CloseIt? && ev.closeCb.Some? then [ev.closeCb.value] else [] }

  /** The callback that an event throws away: `close()` on an open stream that has one stored. */
  function Overwritten(s: Stream, ev: Event): seq<Callback> {
    if ev.CloseIt? && s.closeReason.None? then StoredClose(s) else []
  }

  lemma {:induction false} CloseAnswersAppend(a: seq<Action>, b: seq<Action>)
    ensures CloseAnswers(a + b) == CloseAnswers(a) + CloseAnswers(b)
  {
    if a == [] {
      assert a + b == b;
    } else {
      assert (a + b)[1..] == a[1..] + b;
      CloseAnswersAppend(a[1..], b);
      Assoc(if a[0].CloseCall? then [a[0].cb] else [], CloseAnswers(a[1..]), CloseAnswers(b));
    }
  }

  predicate NoCloseCalls(acts: seq<Action>) { forall i :: 0 <= i < |acts| ==> !acts[i].CloseCall? }

  lemma {:induction false} NoneAnswered(acts: seq<Action>)
    requires NoCloseCalls(acts)
    ensures CloseAnswers(acts) == []
  {
    if acts != [] { NoneAnswered(acts[1..]); }
  }

  /** Actions around the closing ones answer no `close()`. */
  lemma Around(before: seq<Action>, acts: seq<Action>, behind: seq<Action>)
    requires NoCloseCalls(before) && NoCloseCalls(behind)
    ensures CloseAnswers(before + acts + behind) == CloseAnswers(acts)
  {
    CloseAnswersAppend(before + acts, behind);
    CloseAnswersAppend(before, acts);
    NoneAnswered(before);
    NoneAnswered(behind);
  }

  lemma {:induction false} FailWritesAnswerNone(items: seq<Item>, e: Error)
    ensures NoCloseCalls(FailWrites(items, e))
  {
    if items != [] { FailWritesAnswerNone(items[1..], e); }
  }

  lemma {:induction false} SendAllAnswersNone(chunks: seq<seq<byte>>)
    ensures NoCloseCalls(SendAll(chunks))
  {
    if chunks != [] { SendAllAnswersNone(chunks[1..]); }
  }

  /** The stored callback is answered and forgotten, or still stored. */
  predicate CloseKept(s: Stream, e: Effect) {
    || (CloseAnswers(e.acts) == StoredClose(s) && e.s.closeCb.None?)
    || (CloseAnswers(e.acts) == [] && e.s.closeCb == s.closeCb)
  }

  lemma DoCloseAnswers(s: Stream, e: Error)
    ensures CloseKept(s, DoClose(s, e))
    ensures s.closeReason.None? ==> CloseAnswers(DoClose(s, e).acts) == StoredClose(s)
  {
    var last := ReadFailure(s, e);
    if s.closeReason.None? {
      var fails, call := FailWrites(s.queue.items, e), ClosingCalls(s, e)[|FailWrites(s.queue.items, e)|..];
      FailWritesAnswerNone(s.queue.items, e);
      assert ClosingCalls(s, e) == fails + call;
      Around(fails, call, last);
      assert call != [] ==> call[1..] == [];
    } else {
      NoneAnswered(last);
    }
  }

  /** The same with further actions around those of the closing. */
  lemma CloseAround(s: Stream, t: Stream, c: Effect, e: Effect, before: seq<Action>, behind: seq<Action>)
    requires CloseKept(t, c) && t.closeCb == s.closeCb && e.s.closeCb == c.s.closeCb
    requires e.acts == before + c.acts + behind && NoCloseCalls(before) && NoCloseCalls(behind)
    ensures CloseKept(s, e)
  {
    Around(before, c.acts, behind);
  }

  lemma CloseThen(s: Stream, t: Stream, c: Effect, e: Effect, behind: seq<Action>)
    requires CloseKept(t, c) && t.closeCb == s.closeCb && e.s.closeCb == c.s.closeCb
    requires e.acts == c.acts + behind && NoCloseCalls(behind)
    ensures CloseKept(s, e)
  {
    CloseAnswersAppend(c.acts, behind);
    NoneAnswered(behind);
  }

  lemma Unanswered(s: Stream, e: Effect)
    requires NoCloseCalls(e.acts) && e.s.closeCb == s.closeCb
    ensures CloseKept(s, e)
  {
    NoneAnswered(e.acts);
  }

  lemma FinishAnswers(s: Stream)
    requires s.closeReason.None?
    ensures CloseKept(s, FinishWriting(s))
  {
    var e := FinishWriting(s);
    if s.writable || s.window == 0 || s.readable {
      Unanswered(s, e);
    } else {
      var fin := if s.finSent then [] else [SendFin(true)];
      var t := s.(finSent := true);
      DoCloseAnswers(t, ClosedByHost);
      assert e.acts == fin + DoClose(t, ClosedByHost).acts + [];
      CloseAround(s, t, DoClose(t, ClosedByHost), e, fin, []);
    }
  }

  lemma FlushAnswers(s: Stream)
    requires ValidQueue(s.queue)
    ensures CloseKept(s, Flush(s))
  {
    hide ValidQueue, FinishWriting;
    if s.closeReason.None? {
      var p := Pump(s.queue, s.window);
      var t := s.(queue := p.q, window := p.window, sent := s.sent + Concat(p.chunks));
      FinishAnswers(t);
      SendAllAnswersNone(p.chunks);
      assert Flush(s).acts == SendAll(p.chunks) + FinishWriting(t).acts + [];
      CloseAround(s, t, FinishWriting(t), Flush(s), SendAll(p.chunks), []);
    } else {
      Unanswered(s, Flush(s));
    }
  }

  /** What `close(cb)` does to an open stream: the new callback is answered or stored, the old one is gone. */
  lemma CloseReplaces(s: Stream, cb: Option<Callback>)
    requires ValidStream(s) && s.closeReason.None?
    ensures CloseKept(s.(closeCb := cb), Close(s, cb))
  {
    hide ValidQueue, Unsent, Flush;
    if s.writable {
      FlushAnswers(s.(closeCb := cb, writable := false));
    } else {
      Unanswered(s.(closeCb := cb), Close(s, cb));
    }
  }

  lemma WriteAnswersNone(s: Stream, data: seq<byte>, cb: Callback)
    requires ValidStream(s)
    ensures CloseKept(s, Write(s, data, cb))
  {
    hide Flush, Unsent;
    if Accepts(s, WriteSome(data, cb)) {
      EnqueueKeeps(s.queue, data, cb);
      FlushAnswers(s.(queue := Enqueue(s.queue, data, cb), accepted := s.accepted + data));
    } else {
      Unanswered(s, Write(s, data, cb));
    }
  }

  lemma DataAnswers(s: Stream, bytes: seq<byte>)
    ensures CloseKept(s, OnData(s, bytes).0)
  {
    hide DoClose;
    var e := OnData(s, bytes).0;
    if bytes != [] && s.closeReason.None? && !OnData(s, bytes).1.KeepStream? {
      var all := s.buffered + bytes;
      var n := if s.reading.Some? then Min(s.reading.value.size, |all|) else 0;
      var call := if s.reading.Some? then [ReadCall(s.reading.value.cb, Some(all[..n]), None, false)] else [];
      var t := s.(reading := None, buffered := all[n..], delivered := s.delivered + all[..n]);
      DoCloseAnswers(t, ReceiveOverflow);
      CloseThen(s, t, DoClose(t, ReceiveOverflow), e, call);
    } else {
      Unanswered(s, e);
    }
  }

  lemma FinAnswers(s: Stream)
    ensures CloseKept(s, OnFin(s).0)
  {
    hide DoClose;
    var e, call := OnFin(s).0, ReadFailure(s, ClosedByHost);
    if s.closeReason.None? && !s.writable {
      var t := s.(reading := None, readable := false);
      DoCloseAnswers(t, ClosedByHost);
      CloseThen(s, t, DoClose(t, ClosedByHost), e, call);
    } else {
      Unanswered(s, e);
    }
  }

  lemma RstAnswers(s: Stream, e: Error)
    ensures CloseKept(s, Effect(DoClose(s, e).s, [SendRst] + DoClose(s, e).acts))
  {
    DoCloseAnswers(s, e);
    assert [SendRst] + DoClose(s, e).acts == [SendRst] + DoClose(s, e).acts + [];
    CloseAround(s, s, DoClose(s, e), Effect(DoClose(s, e).s, [SendRst] + DoClose(s, e).acts), [SendRst], []);
  }

  lemma WrittenAnswers(s: Stream, n: nat)
    requires ValidStream(s)
    ensures CloseKept(s, OnWritten(s, n))
  {
    hide ValidQueue;
    if AckSent(s.queue, n).Inconsistent? { RstAnswers(s, InternalError); } else { Unanswered(s, OnWritten(s, n)); }
  }

  lemma WindowAnswers(s: Stream, delta: nat)
    requires ValidStream(s)
    ensures CloseKept(s, IncreaseWindow(s, delta))
  {
    hide Flush, ValidQueue;
    if delta > 0 { FlushAnswers(s.(window := s.window + delta)); } else { Unanswered(s, IncreaseWindow(s, delta)); }
  }

  lemma OtherAnswers(s: Stream, ev: Event)
    requires ValidStream(s) && Allowed(s, ev) && !ev.CloseIt?
    ensures CloseKept(s, Step(s, ev))
  {
    hide Write, OnData, OnFin, OnWritten, IncreaseWindow, ValidStream, DoClose;
    match ev
    case WriteSome(data, cb) => WriteAnswersNone(s, data, cb);
    case ReadSome(_, _) => Unanswered(s, Step(s, ev));
    case ResetIt => RstAnswers(s, ResetByHost);
    case Adjust(_, _) => Unanswered(s, Step(s, ev));
    case WindowIn(delta) => WindowAnswers(s, delta);
    case DataIn(bytes) => DataAnswers(s, bytes);
    case FinIn => FinAnswers(s);
    case RstIn => if s.closeReason.Some? { Unanswered(s, Step(s, ev)); } else { DoCloseAnswers(s, ResetByPeer); }
    case Written(n) => WrittenAnswers(s, n);
    case ConnectionClosed(code) => DoCloseAnswers(s, FromConnection(code));
  }

  /** One event: every callback it touches is answered, stored or overwritten. */
  lemma StepCloses(s: Stream, ev: Event)
    requires ValidStream(s) && Allowed(s, ev)
    ensures var e := Step(s, ev);
            multiset(StoredClose(s)) + multiset(AskedClose(ev)) ==
            multiset(CloseAnswers(e.acts)) + multiset(StoredClose(e.s)) + multiset(Overwritten(s, ev))
  {
    hide Step, Close, ValidStream;
    if ev.CloseIt? { ClosingCloses(s, ev.closeCb); } else { OtherAnswers(s, ev); }
  }

  lemma ClosingCloses(s: Stream, cb: Option<Callback>)
    requires ValidStream(s)
    ensures var e := Step(s, CloseIt(cb));
            multiset(StoredClose(s)) + multiset(AskedClose(CloseIt(cb))) ==
            multiset(CloseAnswers(e.acts)) + multiset(StoredClose(e.s)) + multiset(Overwritten(s, CloseIt(cb)))
  {
    if s.closeReason.None? { OpenClosing(s, cb); } else { ClosedClosing(s, cb); }
  }

  lemma OpenClosing(s: Stream, cb: Option<Callback>)
    requires ValidStream(s) && s.closeReason.None?
    ensures var e := Close(s, cb);
            multiset(StoredClose(s)) + multiset(AskedClose(CloseIt(cb))) ==
            multiset(CloseAnswers(e.acts)) + multiset(StoredClose(e.s)) + multiset(StoredClose(s))
  {
    hide ValidQueue, Unsent, Close, CloseAnswers;
    CloseReplaces(s, cb);
    var e := Close(s, cb);
    assert multiset(CloseAnswers(e.acts)) + multiset(StoredClose(e.s)) == multiset(AskedClose(CloseIt(cb)));
  }

  lemma ClosedClosing(s: Stream, cb: Option<Callback>)
    requires ValidStream(s) && s.closeReason.Some?
    ensures multiset(StoredClose(s)) + multiset(AskedClose(CloseIt(cb))) ==
            multiset(CloseAnswers(Close(s, cb).acts)) + multiset(StoredClose(Close(s, cb).s)) + multiset([])
  {
    hide ValidQueue, Flush;
    var acts := Close(s, cb).acts;
    assert acts != [] ==> acts[1..] == [];
    assert CloseAnswers(acts) == AskedClose(CloseIt(cb));
  }

  // ---------------------------------------------------------------------------------------------
  // Runs.

  function AskedCloses(evs: seq<Event>): seq<Callback> {
    if evs == [] then [] else AskedClose(evs[0]) + AskedCloses(evs[1..])
  }

  ghost function OverwrittenIn(h: History, evs: seq<Event>): seq<Callback>
    requires ValidStream(h.s) && AllowedRun(h, evs)
    decreases |evs|
  {
    if evs == [] then []
    else StepKept(h.s, evs[0]); Overwritten(h.s, evs[0]) + OverwrittenIn(Next(h, evs[0]), evs[1..])
  }

  /** The callbacks a run has answered or still stores. */
  function Accounted(h: History): multiset<Callback> { multiset(CloseAnswers(h.acts)) + multiset(StoredClose(h.s)) }

  lemma NextCloses(h: History, ev: Event)
    requires ValidStream(h.s) && Allowed(h.s, ev)
    ensures Accounted(h) + multiset(AskedClose(ev)) == Accounted(Next(h, ev)) + multiset(Overwritten(h.s, ev))
  {
    hide ValidStream, Allowed, Step, Overwritten, AskedClose, StoredClose;
    StepCloses(h.s, ev);
    var e := Step(h.s, ev);
    CloseAnswersAppend(h.acts, e.acts);
    assert multiset(CloseAnswers(h.acts + e.acts)) == multiset(CloseAnswers(h.acts)) + multiset(CloseAnswers(e.acts));
    Added(multiset(CloseAnswers(h.acts)), multiset(StoredClose(h.s)), multiset(AskedClose(ev)),
          multiset(CloseAnswers(e.acts)), multiset(StoredClose(e.s)), multiset(Overwritten(h.s, ev)));
  }

  lemma Added(m: multiset<Callback>, a: multiset<Callback>, b: multiset<Callback>, x: multiset<Callback>,
              y: multiset<Callback>, z: multiset<Callback>)
    requires a + b == x + y + z
    ensures m + a + b == m + x + y + z
  {
    assert m + a + b == m + (a + b) && m + x + y + z == m + (x + y + z);
  }

  lemma {:induction false} RunCloses(h: History, evs: seq<Event>)
    requires ValidStream(h.s) && AllowedRun(h, evs)
    ensures Accounted(h) + multiset(AskedCloses(evs)) == Accounted(RunOf(h, evs)) + multiset(OverwrittenIn(h, evs))
    decreases |evs|
  {
    hide ValidStream, Allowed, Step, Overwritten, AskedClose, Accounted;
    if evs != [] {
      StepKept(h.s, evs[0]);
      var h1 := Next(h, evs[0]);
      NextCloses(h, evs[0]);
      RunCloses(h1, evs[1..]);
      Chain(Accounted(h), Accounted(h1), Accounted(RunOf(h1, evs[1..])), AskedClose(evs[0]), AskedCloses(evs[1..]),
            Overwritten(h.s, evs[0]), OverwrittenIn(h1, evs[1..]));
    }
  }

  lemma Chain(a: multiset<Callback>, b: multiset<Callback>, c: multiset<Callback>, first: seq<Callback>,
              rest: seq<Callback>, lost: seq<Callback>, later: seq<Callback>)
    requires a + multiset(first) == b + multiset(lost) && b + multiset(rest) == c + multiset(later)
    ensures a + multiset(first + rest) == c + multiset(lost + later)
  {
    assert multiset(first + rest) == multiset(first) + multiset(rest) &&
      multiset(lost + later) == multiset(lost) + multiset(later);
    assert a + (multiset(first) + multiset(rest)) == a + multiset(first) + multiset(rest);
    assert b + multiset(lost) + multiset(rest) == b + multiset(rest) + multiset(lost);
    assert c + multiset(later) + multiset(lost) == c + (multiset(lost) + multiset(later));
  }

  lemma NoneLost(asked: seq<Callback>, answered: seq<Callback>, lost: seq<Callback>)
    requires multiset(asked) == multiset(answered) + multiset(lost)
    ensures multiset(answered) == multiset(asked) <==> lost == []
  {
    if lost != [] { assert multiset(asked)[lost[0]] > multiset(answered)[lost[0]]; }
  }

  /**
   * In every run of a new stream that ends closed, each callback given to `close()` is answered exactly once if and
   * only if `close()` was never called on the open stream while an earlier callback was stored.
   */
  lemma EveryCloseAnswered(maxWindow: nat, limit: nat, evs: seq<Event>)
    requires maxWindow >= YamuxFrame.INITIAL_WINDOW && AllowedRun(FreshHistory(maxWindow, limit), evs)
    requires RunOf(FreshHistory(maxWindow, limit), evs).s.closeReason.Some?
    ensures multiset(CloseAnswers(RunOf(FreshHistory(maxWindow, limit), evs).acts)) == multiset(AskedCloses(evs)) <==>
            OverwrittenIn(FreshHistory(maxWindow, limit), evs) == []
  {
    hide Step, RunOf, AllowedRun, OverwrittenIn, AskedCloses, ValidQueue;
    var h := FreshHistory(maxWindow, limit);
    FreshRun(maxWindow, limit);
    RunCloses(h, evs);
    EveryRun(h, evs);
    var e := RunOf(h, evs);
    assert e.s.closeCb.None? && Accounted(h) == multiset{} && Accounted(e) == multiset(CloseAnswers(e.acts));
    NoneLost(AskedCloses(evs), CloseAnswers(RunOf(h, evs).acts), OverwrittenIn(h, evs));
  }

  /**
   * It can happen to every stream whose peer has not finished: a second `close()` before that drops the first
   * callback.
   */
  lemma SecondCloseOverwrites(s: Stream, first: Callback, second: Option<Callback>)
    requires ValidStream(s) && s.closeReason.None? && s.writable && s.readable
    ensures Overwritten(Close(s, Some(first)).s, CloseIt(second)) == [first]
  {
    hide ValidQueue, Unsent, Pump;
  }
}
