/**
 * What the connection relies on when it performs a stream's calls: the calls come in an order the connection can
 * follow, the stream is erased by them exactly when it is closed, they fit the frame format, and the bytes the
 * stream counts as sent but unacknowledged are exactly the data packets it handed over.
 */
module YamuxEvents {
  import opened Basics
  import opened YamuxFrame
  import opened WriteQueues
  import opened YamuxStreamSpec
  import opened YamuxStreamRuns
  import opened YamuxConnections
  import opened YamuxWriter

  function DataSizes(acts: seq<Action>): seq<nat> {
    if acts == [] then [] else (if acts[0].SendData? then [|acts[0].data|] else []) + DataSizes(acts[1..])
  }

  lemma {:induction false} DataSizesAppend(a: seq<Action>, b: seq<Action>)
    ensures DataSizes(a + b) == DataSizes(a) + DataSizes(b)
  {
    if a == [] {
      assert a + b == b;
    } else {
      assert (a + b)[1..] == a[1..] + b;
      DataSizesAppend(a[1..], b);
      Assoc(if a[0].SendData? then [|a[0].data|] else [], DataSizes(a[1..]), DataSizes(b));
    }
  }

  lemma {:induction false} PacketSizes(id: u32, acts: seq<Action>)
    ensures SizesFor(id, PacketsOf(id, acts)) == DataSizes(acts)
  {
    if acts != [] {
      PacketSizes(id, acts[1..]);
      var first := PacketFor(id, acts[0]);
      SizesForAppend(id, first, PacketsOf(id, acts[1..]));
      if first != [] { assert first == [first[0]] && first[1..] == []; }
    }
  }

  lemma {:induction false} QuietSizes(acts: seq<Action>)
    requires Quiet(acts)
    ensures DataSizes(acts) == []
  {
    if acts != [] { QuietSizes(acts[1..]); }
  }

  predicate NonEmptyData(acts: seq<Action>) { forall i :: 0 <= i < |acts| && acts[i].SendData? ==> acts[i].data != [] }

  /** Totals within 32 bits keep every single packet within 32 bits. */
  lemma {:induction false} FitsFromTotals(acts: seq<Action>)
    requires NonEmptyData(acts) && |DataOf(acts)| < 0x1_0000_0000 && CreditOf(acts) < 0x1_0000_0000
    ensures AllFit(acts)
  {
    if acts != [] { FitsFromTotals(acts[1..]); }
  }

  /** The calls can be performed in order, and they erase the stream exactly when it is closed. */
  predicate Clean(e: Effect) {
    Orderly(e.acts) && NonEmptyData(e.acts) && (Erases(e.acts) <==> e.s.closeReason.Some?)
  }

  /** Sent and unacknowledged bytes grow by the data handed over. */
  predicate Tracks(s: Stream, e: Effect, pending: seq<nat>) {
    e.s.closeReason.None? ==> ValidQueue(e.s.queue) && Outstanding(e.s.queue, pending + DataSizes(e.acts))
  }

  lemma {:induction false} OrderlyAppend(a: seq<Action>, b: seq<Action>)
    requires Orderly(a) && !Erases(a) && Orderly(b)
    ensures Orderly(a + b) && (Erases(a + b) <==> Erases(b))
  {
    if a == [] {
      assert a + b == b;
    } else {
      assert (a + b)[1..] == a[1..] + b;
      OrderlyAppend(a[1..], b);
    }
  }

  lemma {:induction false} QuietOrderly(acts: seq<Action>)
    requires Quiet(acts)
    ensures Orderly(acts) && !Erases(acts)
  {
    if acts != [] { QuietOrderly(acts[1..]); }
  }

  lemma {:induction false} SendAllOrderly(chunks: seq<seq<byte>>)
    requires forall i :: 0 <= i < |chunks| ==> chunks[i] != []
    ensures Orderly(SendAll(chunks)) && !Erases(SendAll(chunks)) && NonEmptyData(SendAll(chunks))
    ensures DataSizes(SendAll(chunks)) == Sizes(chunks)
  {
    if chunks != [] {
      SendAllOrderly(chunks[1..]);
      assert SendAll(chunks)[1..] == SendAll(chunks[1..]);
    }
  }

  lemma ErasingOnce(a: Action, rest: seq<Action>)
    requires Erasing(a) && Quiet(rest)
    ensures Orderly([a] + rest) && Erases([a] + rest) && NonEmptyData([a] + rest) && DataSizes([a] + rest) == []
  {
    assert ([a] + rest)[1..] == rest;
    QuietSizes(rest);
  }

  lemma FinishClean(s: Stream)
    requires Sound(s) && s.closeReason.None? && (s.window > 0 ==> Unsent(s.queue) == [])
    ensures Clean(FinishWriting(s)) && DataSizes(FinishWriting(s).acts) == []
    ensures FinishWriting(s).s.closeReason.None? ==> FinishWriting(s).s.queue == s.queue
  {
    var f := FinishWriting(s);
    if !s.writable && s.window > 0 {
      var fin := SendFin(!s.readable);
      var closing := DoClose(s.(finSent := true), ClosedByHost).acts;
      DoCloseQuiet(s.(finSent := true), ClosedByHost);
      if !s.readable {
        ErasingOnce(fin, closing);
      } else if !s.finSent {
        assert [fin][1..] == [];
      }
    }
  }

  lemma FlushClean(s: Stream, pending: seq<nat>)
    requires Sound(s) && s.closeReason.None? && Outstanding(s.queue, pending)
    ensures Clean(Flush(s)) && Tracks(s, Flush(s), pending)
  {
    var p := Pump(s.queue, s.window);
    PumpSendsPrefix(s.queue, s.window);
    PumpChunksNonEmpty(s.queue, s.window);
    PumpOutstanding(s.queue, s.window, pending);
    PumpedSound(s, p);
    var s1 := s.(queue := p.q, window := p.window, sent := s.sent + Concat(p.chunks));
    FinishClean(s1);
    FlushJoins(s1, p, pending);
  }

  lemma FlushJoins(s1: Stream, p: Pumped, pending: seq<nat>)
    requires s1.queue == p.q && ValidQueue(p.q) && Outstanding(p.q, pending + Sizes(p.chunks))
    requires forall i :: 0 <= i < |p.chunks| ==> p.chunks[i] != []
    requires Clean(FinishWriting(s1)) && DataSizes(FinishWriting(s1).acts) == []
    requires FinishWriting(s1).s.closeReason.None? ==> FinishWriting(s1).s.queue == s1.queue
    ensures var e := Effect(FinishWriting(s1).s, SendAll(p.chunks) + FinishWriting(s1).acts);
            Clean(e) && Tracks(s1, e, pending)
  {
    var f := FinishWriting(s1);
    SendAllOrderly(p.chunks);
    OrderlyAppend(SendAll(p.chunks), f.acts);
    DataSizesAppend(SendAll(p.chunks), f.acts);
    assert Sizes(p.chunks) + [] == Sizes(p.chunks);
  }

  /** An event that sends nothing and keeps the queue. */
  lemma QuietClean(s: Stream, e: Effect, pending: seq<nat>)
    requires ValidQueue(s.queue) && Outstanding(s.queue, pending) && Quiet(e.acts) && e.s.queue == s.queue &&
             e.s.closeReason.None?
    ensures Clean(e) && Tracks(s, e, pending)
  {
    QuietOrderly(e.acts);
    QuietSizes(e.acts);
    assert pending + [] == pending;
  }

  /** An event that only grants credit, then runs callbacks. */
  lemma GrantClean(s: Stream, e: Effect, grant: Action, rest: seq<Action>, pending: seq<nat>)
    requires ValidQueue(s.queue) && Outstanding(s.queue, pending) && e.acts == [grant] + rest && grant.SendWindow? &&
             Quiet(rest)
    requires e.s.queue == s.queue && e.s.closeReason.None?
    ensures Clean(e) && Tracks(s, e, pending)
  {
    assert e.acts[1..] == rest;
    QuietOrderly(rest);
    QuietSizes(rest);
    assert pending + [] == pending;
  }

  lemma WriteClean(s: Stream, data: seq<byte>, cb: Callback, pending: seq<nat>)
    requires ValidStream(s) && s.closeReason.None? && Outstanding(s.queue, pending)
    ensures Clean(Write(s, data, cb)) && Tracks(s, Write(s, data, cb), pending)
  {
    if data != [] && s.writable && CanEnqueue(s.queue, |data|) {
      EnqueueKeeps(s.queue, data, cb);
      EnqueueOutstanding(s.queue, data, cb, pending);
      assert s.sent + Unsent(s.queue) + data == s.sent + (Unsent(s.queue) + data);
      FlushClean(s.(queue := Enqueue(s.queue, data, cb), accepted := s.accepted + data), pending);
    } else {
      QuietClean(s, Write(s, data, cb), pending);
    }
  }

  lemma ReadClean(s: Stream, size: nat, cb: Callback, pending: seq<nat>)
    requires ValidStream(s) && s.closeReason.None? && CanRead(s, size) && Outstanding(s.queue, pending)
    ensures Clean(Read(s, size, cb)) && Tracks(s, Read(s, size, cb), pending)
  {
    var e := Read(s, size, cb);
    if size > 0 && s.buffered != [] && s.readable {
      var n := Min(size, |s.buffered|);
      GrantClean(s, e, SendWindow(n), [ReadCall(cb, Some(s.buffered[..n]), None, true)], pending);
    } else {
      QuietClean(s, e, pending);
    }
  }

  lemma CloseClean(s: Stream, cb: Option<Callback>, pending: seq<nat>)
    requires ValidStream(s) && s.closeReason.None? && Outstanding(s.queue, pending)
    ensures Clean(Close(s, cb)) && Tracks(s, Close(s, cb), pending)
  {
    if s.writable {
      FlushClean(s.(closeCb := cb, writable := false), pending);
    } else {
      QuietClean(s, Close(s, cb), pending);
    }
  }

  lemma ResetClean(s: Stream, pending: seq<nat>)
    requires ValidStream(s) && s.closeReason.None?
    ensures Clean(Reset(s)) && Tracks(s, Reset(s), pending)
  {
    DoCloseQuiet(s, ResetByHost);
    ErasingOnce(SendRst, DoClose(s, ResetByHost).acts);
  }

  lemma AdjustClean(s: Stream, size: nat, cb: Option<Callback>, pending: seq<nat>)
    requires ValidStream(s) && s.closeReason.None? && Outstanding(s.queue, pending)
    ensures Clean(AdjustWindow(s, size, cb)) && Tracks(s, AdjustWindow(s, size, cb), pending)
  {
    var e := AdjustWindow(s, size, cb);
    if e.s == s {
      QuietClean(s, e, pending);
    } else {
      GrantClean(s, e, SendWindow(size - s.peersWindow), if cb.Some? then [WindowCall(cb.value, None)] else [],
        pending);
    }
  }

  lemma WindowClean(s: Stream, delta: nat, pending: seq<nat>)
    requires ValidStream(s) && s.closeReason.None? && Outstanding(s.queue, pending)
    ensures Clean(IncreaseWindow(s, delta)) && Tracks(s, IncreaseWindow(s, delta), pending)
  {
    if delta > 0 {
      FlushClean(s.(window := s.window + delta), pending);
    } else {
      QuietClean(s, IncreaseWindow(s, delta), pending);
    }
  }

  lemma DataClean(s: Stream, bytes: seq<byte>, pending: seq<nat>)
    requires ValidStream(s) && s.closeReason.None? && Outstanding(s.queue, pending) && OnData(s, bytes).1.KeepStream?
    ensures Clean(OnData(s, bytes).0) && Tracks(s, OnData(s, bytes).0, pending)
  {
    var e := OnData(s, bytes).0;
    if bytes != [] && s.reading.Some? {
      var all := s.buffered + bytes;
      var n := Min(s.reading.value.size, |all|);
      GrantClean(s, e, SendWindow(n), [ReadCall(s.reading.value.cb, Some(all[..n]), None, false)], pending);
    } else {
      QuietClean(s, e, pending);
    }
  }

  /** The calls an application makes on a stream in the table. */
  lemma AppClean(s: Stream, ev: Event, pending: seq<nat>)
    requires ValidStream(s) && s.closeReason.None? && Allowed(s, ev) && Outstanding(s.queue, pending)
    requires ev.WriteSome? || ev.ReadSome? || ev.CloseIt? || ev.ResetIt? || ev.Adjust?
    ensures Clean(Step(s, ev)) && Tracks(s, Step(s, ev), pending)
  {
    match ev
    case WriteSome(data, cb) => WriteClean(s, data, cb, pending);
    case ReadSome(size, cb) => ReadClean(s, size, cb, pending);
    case CloseIt(cb) => CloseClean(s, cb, pending);
    case ResetIt => ResetClean(s, pending);
    case Adjust(size, cb) => AdjustClean(s, size, cb, pending);
  }
}
