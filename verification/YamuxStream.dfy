/**
 * The stream object of src/muxer/yamux/yamux_stream.cpp, built from a `WriteQueue` and a `ReadBuffer`. Every
 * method is proved to do what YamuxStreamSpec says: same next state, same calls in the same order (they are the
 * methods' results), and the bytes it reports are in the application's buffer.
 */
module YamuxStreams {
  import opened Basics
  import opened YamuxFrame
  import opened ReadBuffers
  import opened WriteQueues
  import opened YamuxStreamSpec

  function FailCalls(cbs: seq<Callback>, e: Error): seq<Action> {
    if cbs == [] then [] else [WriteCall(cbs[0], None, Some(e), false)] + FailCalls(cbs[1..], e)
  }

  lemma {:induction false} FailCallsOfItems(items: seq<Item>, e: Error)
    ensures FailCalls(Callbacks(items), e) == FailWrites(items, e)
  {
    if items != [] {
      FailCallsOfItems(items[1..], e);
      assert Callbacks(items)[1..] == Callbacks(items[1..]);
    }
  }

  lemma {:induction false} FailCallsSnoc(cbs: seq<Callback>, i: nat, e: Error)
    requires i < |cbs|
    ensures FailCalls(cbs[..i + 1], e) == FailCalls(cbs[..i], e) + [WriteCall(cbs[i], None, Some(e), false)]
  {
    if i > 0 {
      assert cbs[..i + 1][1..] == cbs[1..][..i] && cbs[..i][1..] == cbs[1..][..i - 1];
      FailCallsSnoc(cbs[1..], i - 1, e);
    } else {
      assert cbs[..1] == [cbs[0]] && cbs[..1][1..] == [] && cbs[..0] == [];
    }
  }

  lemma {:induction false} SendAllSnoc(chunks: seq<seq<byte>>, c: seq<byte>)
    ensures SendAll(chunks + [c]) == SendAll(chunks) + [SendData(c)]
  {
    if chunks == [] {
      assert [c][1..] == [] && chunks + [c] == [c];
    } else {
      assert (chunks + [c])[1..] == chunks[1..] + [c];
      SendAllSnoc(chunks[1..], c);
      Assoc([SendData(chunks[0])], SendAll(chunks[1..]), [SendData(c)]);
    }
  }

  lemma ConcatSnoc(chunks: seq<seq<byte>>, c: seq<byte>)
    ensures Concat(chunks + [c]) == Concat(chunks) + c
  {
    ConcatAppend(chunks, [c]);
    assert [c][1..] == [] && c + [] == c;
  }

  /**
   * The loop of `doWrite()`, from `q0` and `window0`: the chunks `made` were sent, `data` was just taken, `q` and
   * `window` are left; `bytes` is all that was taken and `calls` are the calls for `made`.
   */
  ghost predicate Midway(q0: Queue, window0: nat, made: seq<seq<byte>>, data: seq<byte>, q: Queue, window: nat,
                         bytes: seq<byte>, calls: seq<Action>)
  {
    && ValidQueue(q0) && ValidQueue(q)
    && bytes == Concat(made) + data && calls == SendAll(made)
    && if data == [] then Pump(q0, window0) == Pumped(q, window, made)
       else var p, rest := Pump(q0, window0), Pump(q, window);
            p.q == rest.q && p.window == rest.window && p.chunks == made + [data] + rest.chunks
  }

  lemma MidwayStart(q: Queue, window: nat)
    requires ValidQueue(q)
    ensures var c := Chunk(q, window); Midway(q, window, [], c, Dequeue(q, window), window - |c|, c, [])
  {
    var c := Chunk(q, window);
    assert [] + c == c;
    if c != [] {
      var rest := Pump(Dequeue(q, window), window - |c|).chunks;
      assert [] + [c] + rest == [c] + rest;
    }
  }

  lemma MidwayStep(q0: Queue, window0: nat, made: seq<seq<byte>>, data: seq<byte>, q: Queue, window: nat,
                   bytes: seq<byte>, calls: seq<Action>)
    requires Midway(q0, window0, made, data, q, window, bytes, calls) && data != []
    ensures var c := Chunk(q, window);
            Midway(q0, window0, made + [data], c, Dequeue(q, window), window - |c|, bytes + c, calls + [SendData(data)])
  {
    var c := Chunk(q, window);
    SendAllSnoc(made, data);
    ConcatSnoc(made, data);
    PumpUnfolds(q, window);
    if c == [] {
      assert made + [data] + [] == made + [data];
    } else {
      Reassociate(made, data, c, Pump(Dequeue(q, window), window - |c|).chunks);
    }
  }

  lemma MidwayEnd(q0: Queue, window0: nat, made: seq<seq<byte>>, q: Queue, window: nat, bytes: seq<byte>,
                  calls: seq<Action>)
    requires Midway(q0, window0, made, [], q, window, bytes, calls)
    ensures ValidQueue(q0) && Pump(q0, window0) == Pumped(q, window, made) && bytes == Concat(made) &&
            calls == SendAll(made)
  {
    assert Concat(made) + [] == Concat(made);
  }

  lemma TakenShrinks(q: Queue, window: nat)
    requires ValidQueue(q)
    ensures |Unsent(Dequeue(q, window))| + |Chunk(q, window)| == |Unsent(q)|
  {
  }

  lemma PumpUnfolds(q: Queue, window: nat)
    requires ValidQueue(q)
    ensures var c := Chunk(q, window);
            var p := Pump(q, window);
            if c == [] then p == Pumped(q, window, [])
            else var r := Pump(Dequeue(q, window), window - |c|);
                 p.q == r.q && p.window == r.window && p.chunks == [c] + r.chunks
  {
  }

  lemma Reassociate(made: seq<seq<byte>>, data: seq<byte>, c: seq<byte>, rest: seq<seq<byte>>)
    ensures made + [data] + ([c] + rest) == made + [data] + [c] + rest
  {
  }

  lemma GrantSound(s: Stream, t: Stream, delta: nat)
    requires ValidStream(s) && t == s.(window := s.window + delta) && delta > 0
    ensures Sound(t) && IncreaseWindow(s, delta) == Flush(t)
  {
  }

  class YamuxStream {
    const maxWindow: nat
    const readBuffer: ReadBuffer
    const writeQueue: WriteQueue
    var isReadable: bool
    var isWritable: bool
    var finSent: bool
    var closeReason: Option<Error>
    var windowSize: nat
    var peersWindow: nat
    var readingOut: array?<byte>
    var readingCb: Callback
    var closeCb: Option<Callback>
    ghost var accepted: seq<byte>
    ghost var sent: seq<byte>
    ghost var delivered: seq<byte>
    ghost var promised: nat

    ghost predicate Ok()
      reads this, readBuffer, writeQueue
    {
      readBuffer.Valid() && writeQueue.Valid()
    }

    ghost predicate Valid()
      reads this, readBuffer, writeQueue
    {
      Ok() && ValidStream(State())
    }

    ghost function State(): Stream
      reads this, readBuffer, writeQueue
    {
      Stream(isReadable, isWritable, finSent, closeReason, windowSize, peersWindow, maxWindow, writeQueue.state,
             readBuffer.contents, if readingOut == null then None else Some(Reading(readingOut.Length, readingCb)),
             closeCb, accepted, sent, delivered, promised)
    }

    /** The source asserts that the windows fit and that the queue limit is at least the maximum window. */
    constructor (maxWindow: nat, writeQueueLimit: nat)
      requires INITIAL_WINDOW <= maxWindow <= writeQueueLimit
      ensures Valid() && State() == NewStream(maxWindow, writeQueueLimit)
      ensures fresh(readBuffer) && fresh(writeQueue) && readingOut == null
    {
      this.maxWindow := maxWindow;
      var rb := new ReadBuffer(65536);
      var wq := new WriteQueue(writeQueueLimit);
      readBuffer, writeQueue := rb, wq;
      isReadable, isWritable, finSent, closeReason := true, true, false, None;
      windowSize, peersWindow, readingOut, readingCb, closeCb := INITIAL_WINDOW, INITIAL_WINDOW, null, 0, None;
      accepted, sent, delivered, promised := [], [], [], INITIAL_WINDOW;
    }

    /** Takes the stored read, if any, as the call that will answer it with an error. */
    method TakeReading(e: Error) returns (call: seq<Action>)
      requires Ok()
      modifies `readingOut
      ensures Ok() && State() == old(State()).(reading := None) && call == ReadFailure(old(State()), e)
    {
      call := if readingOut == null then [] else [ReadCall(readingCb, None, Some(e), false)];
      readingOut := null;
    }

    method DoClose(e: Error) returns (calls: seq<Action>)
      requires Ok()
      modifies this, readBuffer, writeQueue
      ensures Ok() && Effect(State(), calls) == YamuxStreamSpec.DoClose(old(State()), e)
      ensures readingOut == old(readingOut) || readingOut == null
    {
      var readCall := TakeReading(e);
      if closeReason.Some? {
        return readCall;
      }
      var closing := CollectCalls(e);
      MarkClosed(e);
      calls := closing + readCall;
    }

    method CollectCalls(e: Error) returns (calls: seq<Action>)
      requires Ok()
      ensures calls == ClosingCalls(State(), e)
    {
      var cbs := writeQueue.GetAllCallbacks();
      FailCallsOfItems(writeQueue.state.items, e);
      calls := CallAll(cbs, e);
      if closeCb.Some? {
        calls := calls + [CloseCall(closeCb.value, if e.ClosedByHost? then None else Some(e), false)];
      }
    }

    /** Sets the closed state and drops what was stored. */
    method MarkClosed(e: Error)
      requires Ok()
      modifies `closeReason, `isReadable, `isWritable, `closeCb, readBuffer, writeQueue
      ensures Ok() && State() == Closed(old(State()), e)
    {
      hide RepresentsQueue, ValidQueue, ReadBuffer.Valid;
      closeReason, isReadable, isWritable, closeCb := Some(e), false, false, None;
      readBuffer.Clear();
      writeQueue.Clear();
    }

    /** Fails the given write callbacks, in order. */
    static method CallAll(cbs: seq<Callback>, e: Error) returns (calls: seq<Action>)
      ensures calls == FailCalls(cbs, e)
    {
      calls := [];
      var i := 0;
      while i < |cbs|
        invariant 0 <= i <= |cbs| && calls == FailCalls(cbs[..i], e)
      {
        FailCallsSnoc(cbs, i, e);
        calls := calls + [WriteCall(cbs[i], None, Some(e), false)];
        i := i + 1;
      }
      assert cbs[..|cbs|] == cbs;
    }

    /** The loop of `doWrite()`: hands chunks to the connection while the window lasts. */
    method SendQueued() returns (calls: seq<Action>, ghost bytes: seq<byte>)
      requires Ok()
      modifies `windowSize, writeQueue
      ensures Ok()
      ensures var p := Pump(old(writeQueue.state), old(windowSize));
              writeQueue.state == p.q && windowSize == p.window && bytes == Concat(p.chunks) &&
                calls == SendAll(p.chunks)
    {
      hide Midway, Pump, Chunk, Dequeue, RepresentsQueue, ValidQueue, Unsent;
      ghost var q0, window0, made: seq<seq<byte>> := writeQueue.state, windowSize, [];
      MidwayStart(q0, window0);
      calls := [];
      var data;
      windowSize, data := writeQueue.Take(windowSize);
      bytes := data;
      while data != []
        invariant writeQueue.Valid()
        invariant Midway(q0, window0, made, data, writeQueue.state, windowSize, bytes, calls)
        decreases |Unsent(writeQueue.state)|, |data|
      {
        MidwayStep(q0, window0, made, data, writeQueue.state, windowSize, bytes, calls);
        TakenShrinks(writeQueue.state, windowSize);
        calls, made := calls + [SendData(data)], made + [data];
        windowSize, data := writeQueue.Take(windowSize);
        bytes := bytes + data;
      }
      MidwayEnd(q0, window0, made, writeQueue.state, windowSize, bytes, calls);
    }

    /** `doWrite()`. */
    method DoWrite() returns (calls: seq<Action>)
      requires Ok() && Sound(State())
      modifies this, readBuffer, writeQueue
      ensures Valid() && Effect(State(), calls) == Flush(old(State()))
      ensures readingOut == old(readingOut) || readingOut == null
    {
      hide RepresentsQueue, ValidQueue, ValidStream;
      assert ValidStream(Flush(State()).s) by { FlushKept(State()); }
      if closeReason.Some? {
        return [];
      }
      ghost var bytes;
      var sending;
      sending, bytes := SendQueued();
      sent := sent + bytes;
      ghost var s, p := old(State()), Pump(old(writeQueue.state), old(windowSize));
      assert State() == s.(queue := p.q, window := p.window, sent := s.sent + Concat(p.chunks));
      var finishing := FinishWriting();
      calls := sending + finishing;
    }

    method FinishWriting() returns (calls: seq<Action>)
      requires Ok() && closeReason.None?
      modifies this, readBuffer, writeQueue
      ensures Ok() && Effect(State(), calls) == YamuxStreamSpec.FinishWriting(old(State()))
      ensures readingOut == old(readingOut) || readingOut == null
    {
      calls := [];
      if !isWritable && windowSize > 0 {
        if !finSent {
          finSent := true;
          calls := [SendFin(!isReadable)];
        }
        if !isReadable {
          var closing := DoClose(ClosedByHost);
          calls := calls + closing;
        } else {
          peersWindow := maxWindow;
        }
      }
    }

    method WriteSome(data: seq<byte>, cb: Callback) returns (calls: seq<Action>)
      requires Valid()
      modifies this, readBuffer, writeQueue
      ensures Valid() && Effect(State(), calls) == Write(old(State()), data, cb)
      ensures readingOut == old(readingOut) || readingOut == null
    {
      if data == [] {
        return [WriteCall(cb, None, Some(InvalidArgument), true)];
      }
      if !isWritable {
        return [WriteCall(cb, None, Some(NotWritable), true)];
      }
      if closeReason.Some? {
        return [WriteCall(cb, None, closeReason, true)];
      }
      var room := writeQueue.HasRoom(|data|);
      if !room {
        return [WriteCall(cb, None, Some(WriteOverflow), true)];
      }
      EnqueueKeeps(writeQueue.state, data, cb);
      assert sent + Unsent(writeQueue.state) + data == sent + (Unsent(writeQueue.state) + data);
      writeQueue.Add(data, cb);
      accepted := accepted + data;
      assert State() == old(State()).(queue := Enqueue(old(State()).queue, data, cb),
        accepted := old(State()).accepted + data);
      calls := DoWrite();
    }

    /** Bytes at hand go to `out`. */
    method TakeBuffered(out: array<byte>) returns (consumed: nat)
      requires Ok() && out.Length > 0 && readBuffer.contents != []
      modifies `delivered, readBuffer, out
      ensures Ok() && consumed == Min(out.Length, |old(State()).buffered|)
      ensures out[..consumed] == old(State()).buffered[..consumed]
      ensures State() == old(State()).(buffered := old(State()).buffered[consumed..],
                                       delivered := old(State()).delivered + old(State()).buffered[..consumed])
    {
      ghost var buffered := readBuffer.contents;
      consumed := readBuffer.Consume(out, 0);
      assert out[..consumed] == buffered[..consumed];
      delivered := delivered + buffered[..consumed];
    }

    /** Keeps the reader's buffer until data arrives. */
    method StoreReading(out: array<byte>, cb: Callback)
      requires Ok()
      modifies `readingOut, `readingCb
      ensures Ok() && State() == old(State()).(reading := Some(Reading(out.Length, cb))) && readingOut == out
    {
      hide RepresentsQueue, ValidQueue, ReadBuffer.Valid;
      readingOut, readingCb := out, cb;
    }

    /** `readSome`. Bytes at hand are in `out` when the method returns; otherwise `out` is kept for later. */
    method ReadSome(out: array<byte>, cb: Callback) returns (calls: seq<Action>)
      requires Valid() && CanRead(State(), out.Length)
      modifies `delivered, `readingOut, `readingCb, readBuffer, out
      ensures Valid() && Effect(State(), calls) == Read(old(State()), out.Length, cb)
      ensures var n := Min(out.Length, |old(State()).buffered|); out[..n] == old(State()).buffered[..n]
      ensures readingOut == old(readingOut) || readingOut == out
    {
      hide RepresentsQueue, RepresentsBuffer, ValidQueue, ValidStream;
      assert ValidStream(Read(State(), out.Length, cb).s) by { ReadKept(State(), out.Length, cb); }
      if out.Length == 0 {
        return [ReadCall(cb, None, Some(InvalidArgument), true)];
      }
      if readBuffer.totalSize > 0 {
        var consumed := TakeBuffered(out);
        return (if isReadable then [SendWindow(consumed)] else []) + [ReadCall(cb, Some(out[..consumed]), None, true)];
      }
      if closeReason.Some? {
        return [ReadCall(cb, None, closeReason, true)];
      }
      if !isReadable {
        return [ReadCall(cb, None, Some(NotReadable), true)];
      }
      StoreReading(out, cb);
      calls := [];
    }

    method Close(cb: Option<Callback>) returns (calls: seq<Action>)
      requires Valid()
      modifies this, readBuffer, writeQueue
      ensures Valid() && Effect(State(), calls) == YamuxStreamSpec.Close(old(State()), cb)
      ensures readingOut == old(readingOut) || readingOut == null
    {
      if closeReason.Some? {
        return if cb.Some? then [CloseCall(cb.value, closeReason, true)] else [];
      }
      closeCb, calls := cb, [];
      if isWritable {
        isWritable := false;
        assert State() == old(State()).(closeCb := cb).(writable := false);
        calls := DoWrite();
      }
    }

    method Reset() returns (calls: seq<Action>)
      requires Valid()
      modifies this, readBuffer, writeQueue
      ensures Valid() && Effect(State(), calls) == YamuxStreamSpec.Reset(old(State()))
      ensures readingOut == old(readingOut) || readingOut == null
    {
      assert ValidStream(YamuxStreamSpec.Reset(State()).s) by { ResetKept(State()); }
      var closing := DoClose(ResetByHost);
      calls := [SendRst] + closing;
    }

    method AdjustWindowSize(newSize: nat, cb: Option<Callback>) returns (calls: seq<Action>)
      requires Valid()
      modifies this
      ensures Valid() && Effect(State(), calls) == AdjustWindow(old(State()), newSize, cb)
      ensures readingOut == old(readingOut) || readingOut == null
    {
      hide RepresentsQueue, RepresentsBuffer, ValidQueue, ValidStream;
      assert ValidStream(AdjustWindow(State(), newSize, cb).s) by { AdjustWindowKept(State(), newSize, cb); }
      var ec := closeReason;
      if ec.None? {
        if !isReadable {
          ec := Some(NotReadable);
        } else if newSize > maxWindow || newSize < peersWindow {
          ec := Some(InvalidWindowSize);
        }
      }
      var call := if cb.Some? then [WindowCall(cb.value, ec)] else [];
      if ec.None? && newSize > peersWindow {
        calls := [SendWindow(newSize - peersWindow)] + call;
        promised := promised + newSize - peersWindow;
        peersWindow := newSize;
      } else {
        calls := call;
      }
    }

    method IncreaseSendWindow(delta: nat) returns (calls: seq<Action>)
      requires Valid()
      modifies this, readBuffer, writeQueue
      ensures Valid() && Effect(State(), calls) == IncreaseWindow(old(State()), delta)
      ensures readingOut == old(readingOut) || readingOut == null
    {
      if delta == 0 {
        return [];
      }
      ghost var s := State();
      windowSize := windowSize + delta;
      GrantSound(s, State(), delta);
      calls := DoWrite();
    }

    /** A stored read gets its bytes at once; the rest is buffered. */
    method Deliver(bytes: seq<byte>) returns (consumed: nat, call: seq<Action>)
      requires Ok() && bytes != []
      modifies this, readBuffer, readingOut
      ensures Ok() && State() == Buffered(old(State()), bytes)
      ensures var s := old(State());
              var all := s.buffered + bytes;
              && consumed == (if s.reading.Some? then Min(s.reading.value.size, |all|) else 0)
              && call == (if s.reading.Some? then [ReadCall(s.reading.value.cb, Some(all[..consumed]), None, false)]
                else [])
              && (old(readingOut) != null ==>
                consumed <= old(readingOut).Length && old(readingOut)[..consumed] == all[..consumed])
      ensures readingOut == old(readingOut) || readingOut == null
    {
      ghost var all := readBuffer.contents + bytes;
      if readingOut != null {
        var out: array<byte> := readingOut;
        readingOut := null;
        consumed := readBuffer.AddAndConsume(bytes, out, 0);
        assert out[..consumed] == all[..consumed];
        call := [ReadCall(readingCb, Some(out[..consumed]), None, false)];
        delivered := delivered + all[..consumed];
      } else {
        consumed, call := 0, [];
        readBuffer.Add(bytes);
        assert delivered + all[..0] == delivered;
      }
    }

    method OnDataReceived(bytes: seq<byte>) returns (v: Verdict, calls: seq<Action>)
      requires Valid()
      modifies this, readBuffer, writeQueue, readingOut
      ensures Valid() && (Effect(State(), calls), v) == OnData(old(State()), bytes)
      ensures old(readingOut) != null && bytes != [] ==>
                var all := old(State()).buffered + bytes;
                var n := Min(old(readingOut).Length, |all|);
                old(readingOut)[..n] == all[..n]
      ensures readingOut == old(readingOut) || readingOut == null
    {
      assert ValidStream(OnData(State(), bytes).0.s) by { OnDataKept(State(), bytes); }
      if bytes == [] {
        return KeepStream, [];
      }
      var consumed, readCall := Deliver(bytes);
      if closeReason.Some? {
        return RemoveStreamAndSendRst, readCall;
      }
      var overflow := readBuffer.totalSize > peersWindow;
      if overflow {
        var closing := DoClose(ReceiveOverflow);
        return RemoveStreamAndSendRst, closing + readCall;
      }
      return KeepStream, (if consumed > 0 then [SendWindow(consumed)] else []) + readCall;
    }

    method OnFINReceived() returns (v: Verdict, calls: seq<Action>)
      requires Valid()
      modifies this, readBuffer, writeQueue
      ensures Valid() && (Effect(State(), calls), v) == OnFin(old(State()))
      ensures readingOut == old(readingOut) || readingOut == null
    {
      hide ValidStream, RepresentsQueue, ValidQueue;
      assert ValidStream(OnFin(State()).0.s) by { OnFinKept(State()); }
      var readCall := TakeReading(ClosedByHost);
      if closeReason.Some? {
        return RemoveStreamAndSendRst, readCall;
      }
      isReadable := false;
      if isWritable {
        return KeepStream, readCall;
      }
      var closing := DoClose(ClosedByHost);
      return RemoveStream, closing + readCall;
    }

    method OnRSTReceived() returns (calls: seq<Action>)
      requires Valid()
      modifies this, readBuffer, writeQueue
      ensures Valid() && Effect(State(), calls) == OnRst(old(State()))
      ensures readingOut == old(readingOut) || readingOut == null
    {
      assert ValidStream(OnRst(State()).s) by { OnRstKept(State()); }
      if closeReason.Some? {
        return [];
      }
      calls := DoClose(ResetByPeer);
    }

    method OnDataWritten(bytes: nat) returns (calls: seq<Action>)
      requires Valid()
      modifies this, readBuffer, writeQueue
      ensures Valid() && Effect(State(), calls) == OnWritten(old(State()), bytes)
      ensures readingOut == old(readingOut) || readingOut == null
    {
      assert ValidStream(OnWritten(State(), bytes).s) by { OnWrittenKept(State(), bytes); }
      var consistent, receipt := writeQueue.AckDataSent(bytes);
      if !consistent {
        var closing := DoClose(InternalError);
        return [SendRst] + closing;
      }
      calls := if receipt.Some? then [WriteCall(receipt.value.0, Some(receipt.value.1), None, false)] else [];
    }

    method ClosedByConnection(code: nat) returns (calls: seq<Action>)
      requires Valid()
      modifies this, readBuffer, writeQueue
      ensures Valid() && Effect(State(), calls) == YamuxStreamSpec.DoClose(old(State()), FromConnection(code))
      ensures readingOut == old(readingOut) || readingOut == null
    {
      assert ValidStream(YamuxStreamSpec.DoClose(State(), FromConnection(code)).s) by {
        DoCloseKept(State(), FromConnection(code));
      }
      calls := DoClose(FromConnection(code));
    }
  }
}
