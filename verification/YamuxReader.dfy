/**
 * The incremental frame reader (src/muxer/yamux/yamux_reading_state.cpp). Bytes arrive in arbitrary
 * chunks; each turn of the reading loop consumes a header, a piece of a header or a data segment and
 * makes at most one callback. The reference is a machine that takes one byte at a time: it cannot
 * depend on chunk boundaries, and the loop is proved to produce exactly its output.
 */
module YamuxReader {
  import opened Basics
  import opened YamuxFrame
  import opened ReadBuffers

  /** `header` holds an incomplete header; `unread` payload bytes of the current data frame are still due. */
  datatype Reader =
    | Reader(header: seq<byte>, unread: nat, sid: u32, rst: bool, fin: bool)
    | Failed   // an unparsable header was met; the header callback ends the connection

  const Fresh := Reader([], 0, 0, false, false)

  predicate ValidReader(r: Reader) {
    r.Reader? ==>
      && |r.header| < HEADER_LENGTH
      && (r.unread > 0 ==> r.header == [])
      && (r.unread == 0 ==> r.sid == 0)
      && (r.sid == 0 ==> !r.rst && !r.fin)
  }

  /** One turn of the loop: what the callbacks see. */
  datatype Event =
    | NeedMore
    | BadHeader
    | Header(frame: Frame)
    | Segment(data: seq<byte>, sid: u32, rst: bool, fin: bool)
    | Discarded(count: nat)

  /** State after a parsed header: a non-empty data frame announces its payload and holds RST and FIN back. */
  function AfterHeader(f: Frame): (r: Reader)
    ensures ValidReader(r)
  {
    if f.ty.DATA? && f.length > 0 then
      if f.streamId != 0 then Reader([], f.length, f.streamId, FlagIsSet(f.flags, RST), FlagIsSet(f.flags, FIN))
      else Reader([], f.length, 0, false, false)
    else Fresh
  }

  /** The header given to the callback: RST and FIN of a non-empty data frame are held back. */
  function Announced(f: Frame): Frame {
    if f.ty.DATA? && f.length > 0 && f.streamId != 0 then f.(flags := WithoutRstFin(f.flags)) else f
  }

  function Discard(r: Reader): (d: Reader)
    ensures ValidReader(r) ==> ValidReader(d)
  {
    if r.Reader? then r.(sid := 0, rst := false, fin := false) else r
  }

  datatype Turn = Turn(reader: Reader, event: Event, rest: seq<byte>)

  /** What a complete header leads to. */
  function HeaderOutcome(h: seq<byte>): (x: (Reader, Event))
    requires |h| == HEADER_LENGTH
    ensures ValidReader(x.0) && (x.1.Header? || x.1.BadHeader?) && (x.1.BadHeader? <==> x.0.Failed?)
  {
    match ParseFrame(h)
    case None => (Failed, BadHeader)
    case Some(f) => (AfterHeader(f), Header(Announced(f)))
  }

  function ReadHeader(r: Reader, bs: seq<byte>): Turn
    requires ValidReader(r) && r.Reader? && r.unread == 0
  {
    var seen := r.header + bs;
    if |seen| < HEADER_LENGTH then Turn(r.(header := seen), NeedMore, [])
    else
      var (reader, event) := HeaderOutcome(seen[..HEADER_LENGTH]);
      Turn(reader, event, seen[HEADER_LENGTH..])
  }

  function ReadData(r: Reader, bs: seq<byte>): Turn
    requires ValidReader(r) && r.Reader? && r.unread > 0
  {
    var n := Min(r.unread, |bs|);
    var last := n == r.unread;
    if r.sid == 0 then
      Turn(if last then Fresh else r.(unread := r.unread - n), Discarded(n), bs[n..])
    else
      Turn(if last then Fresh else r.(unread := r.unread - n), Segment(bs[..n], r.sid, last && r.rst, last && r.fin),
        bs[n..])
  }

  /** One turn of `YamuxReadingState::onDataReceived`. */
  function ReadTurn(r: Reader, bs: seq<byte>): (t: Turn)
    requires ValidReader(r) && r.Reader? && bs != []
    ensures ValidReader(t.reader) && |t.rest| < |bs|
  {
    if r.unread == 0 then ReadHeader(r, bs) else ReadData(r, bs)
  }

  /** The callbacks' reply to an event: whether to go on, and whether the rest of the message is unwanted. */
  datatype Reply = Reply(proceed: bool, discard: bool)

  predicate MakesCallback(e: Event) { e.Header? || e.Segment? || e.BadHeader? }

  datatype Outcome = Outcome(reader: Reader, events: seq<Event>, rest: seq<byte>)

  predicate StopsAfter(e: Event, reply: Reply) {
    e.NeedMore? || e.BadHeader? || (e.Header? && !reply.proceed)
  }

  function Answered(r: Reader, e: Event, reply: Reply): (d: Reader)
    ensures ValidReader(r) ==> ValidReader(d)
  {
    if (e.Header? || e.Segment?) && reply.discard then Discard(r) else r
  }

  /** The whole loop; `env(k)` is the reply to the k-th callback. */
  function ReadLoop(r: Reader, bs: seq<byte>, env: nat -> Reply, k: nat): (o: Outcome)
    requires ValidReader(r)
    ensures ValidReader(o.reader)
    decreases |bs|
  {
    if bs == [] || r.Failed? then Outcome(r, [], bs)
    else
      var t := ReadTurn(r, bs);
      var reader := Answered(t.reader, t.event, env(k));
      if StopsAfter(t.event, env(k)) then Outcome(reader, [t.event], t.rest)
      else
        var o := ReadLoop(reader, t.rest, env, if MakesCallback(t.event) then k + 1 else k);
        o.(events := [t.event] + o.events)
  }

  // ---------------------------------------------------------------------------------------------
  // Reference machine: one byte at a time.

  datatype Atom =
    | BadA
    | HeaderA(frame: Frame)
    | ByteA(sid: u32, b: byte)
    | RstA(sid: u32)
    | FinA(sid: u32)

  function EndAtoms(sid: u32, rst: bool, fin: bool): seq<Atom> {
    (if rst then [RstA(sid)] else []) + (if fin then [FinA(sid)] else [])
  }

  function ByteStep(r: Reader, b: byte): (x: (Reader, seq<Atom>))
    requires ValidReader(r)
    ensures ValidReader(x.0)
  {
    if r.Failed? then (r, [])
    else if r.unread > 0 then
      var last := r.unread == 1;
      (if last then Fresh else r.(unread := r.unread - 1),
       if r.sid == 0 then [] else [ByteA(r.sid, b)] + (if last then EndAtoms(r.sid, r.rst, r.fin) else []))
    else if |r.header| + 1 < HEADER_LENGTH then (r.(header := r.header + [b]), [])
    else
      var (reader, event) := HeaderOutcome(r.header + [b]);
      (reader, AtomsOf(event))
  }

  function ByteRun(r: Reader, bs: seq<byte>): (x: (Reader, seq<Atom>))
    requires ValidReader(r)
    ensures ValidReader(x.0)
    decreases |bs|
  {
    if bs == [] then (r, [])
    else
      var (r1, a1) := ByteStep(r, bs[0]);
      var (r2, a2) := ByteRun(r1, bs[1..]);
      (r2, a1 + a2)
  }

  /** The reference machine does not see chunk boundaries. */
  lemma {:induction false} ByteRunSplit(r: Reader, a: seq<byte>, b: seq<byte>)
    requires ValidReader(r)
    ensures var (r1, x1) := ByteRun(r, a);
            var (r2, x2) := ByteRun(r1, b);
            ByteRun(r, a + b).0 == r2 && ByteRun(r, a + b).1 == x1 + x2
    decreases |a|
  {
    if a == [] {
      assert a + b == b;
    } else {
      assert (a + b)[1..] == a[1..] + b;
      var (r1, x1) := ByteStep(r, a[0]);
      ByteRunSplit(r1, a[1..], b);
      Assoc(x1, ByteRun(r1, a[1..]).1, ByteRun(ByteRun(r1, a[1..]).0, b).1);
    }
  }

  function BytesOf(data: seq<byte>, sid: u32): seq<Atom> {
    seq(|data|, i requires 0 <= i < |data| => ByteA(sid, data[i]))
  }

  function AtomsOf(e: Event): seq<Atom> {
    match e
    case NeedMore => []
    case BadHeader => [BadA]
    case Header(f) => [HeaderA(f)]
    case Segment(data, sid, rst, fin) => BytesOf(data, sid) + EndAtoms(sid, rst, fin)
    case Discarded(_) => []
  }

  function AtomsOfAll(es: seq<Event>): seq<Atom> {
    if es == [] then [] else AtomsOf(es[0]) + AtomsOfAll(es[1..])
  }

  lemma {:induction false} HeaderBytes(r: Reader, bs: seq<byte>)
    requires ValidReader(r) && r.Reader? && r.unread == 0 && |r.header + bs| < HEADER_LENGTH
    ensures ByteRun(r, bs).0 == r.(header := r.header + bs) && ByteRun(r, bs).1 == []
    decreases |bs|
  {
    if bs == [] {
      assert r.header + bs == r.header;
    } else {
      HeaderBytes(r.(header := r.header + [bs[0]]), bs[1..]);
      assert r.header + [bs[0]] + bs[1..] == r.header + bs;
    }
  }

  lemma {:induction false} PayloadBytes(r: Reader, bs: seq<byte>)
    requires ValidReader(r) && r.Reader? && 0 < |bs| <= r.unread
    ensures var last := |bs| == r.unread;
            && ByteRun(r, bs).0 == (if last then Fresh else r.(unread := r.unread - |bs|))
            && ByteRun(r, bs).1 == if r.sid == 0 then []
                                   else BytesOf(bs, r.sid) + (if last then EndAtoms(r.sid, r.rst, r.fin) else [])
    decreases |bs|
  {
    var (r1, a1) := ByteStep(r, bs[0]);
    if |bs| > 1 {
      PayloadBytes(r1, bs[1..]);
      assert BytesOf(bs, r.sid) == [ByteA(r.sid, bs[0])] + BytesOf(bs[1..], r.sid);
    } else {
      assert bs[1..] == [] && BytesOf(bs, r.sid) == [ByteA(r.sid, bs[0])];
    }
  }

  lemma {:induction false} CompleteHeader(r: Reader, bs: seq<byte>)
    requires ValidReader(r) && r.Reader? && r.unread == 0 && |r.header + bs| == HEADER_LENGTH
    ensures ByteRun(r, bs).0 == HeaderOutcome(r.header + bs).0
    ensures ByteRun(r, bs).1 == AtomsOf(HeaderOutcome(r.header + bs).1)
    decreases |bs|
  {
    if |bs| == 1 {
      assert bs == [bs[0]];
      ByteRunOne(r, bs[0]);
    } else {
      var r1 := r.(header := r.header + [bs[0]]);
      assert r1.header + bs[1..] == r.header + bs;
      assert ByteStep(r, bs[0]) == (r1, []);
      CompleteHeader(r1, bs[1..]);
    }
  }

  /** A turn took the first `n` bytes, and the byte machine does the same with them. */
  ghost predicate TurnMatches(r: Reader, bs: seq<byte>, t: Turn, n: nat)
    requires ValidReader(r)
  {
    n <= |bs| && t.rest == bs[n..] && ByteRun(r, bs[..n]).0 == t.reader && ByteRun(r, bs[..n]).1 == AtomsOf(t.event)
  }

  lemma DataTurn(r: Reader, bs: seq<byte>)
    requires ValidReader(r) && r.Reader? && bs != [] && r.unread > 0
    ensures TurnMatches(r, bs, ReadTurn(r, bs), Min(r.unread, |bs|))
  {
    PayloadBytes(r, bs[..Min(r.unread, |bs|)]);
  }

  lemma HeaderTurn(r: Reader, bs: seq<byte>)
    requires ValidReader(r) && r.Reader? && bs != [] && r.unread == 0
    ensures TurnMatches(r, bs, ReadTurn(r, bs), Min(HEADER_LENGTH - |r.header|, |bs|))
  {
    if |r.header + bs| < HEADER_LENGTH {
      assert bs[..|bs|] == bs;
      HeaderBytes(r, bs);
    } else {
      var used := HEADER_LENGTH - |r.header|;
      assert (r.header + bs)[..HEADER_LENGTH] == r.header + bs[..used];
      assert (r.header + bs)[HEADER_LENGTH..] == bs[used..];
      CompleteHeader(r, bs[..used]);
    }
  }

  /** One turn of the loop is a run of the byte machine over the bytes the turn consumed. */
  lemma TurnIsByteRun(r: Reader, bs: seq<byte>) returns (n: nat)
    requires ValidReader(r) && r.Reader? && bs != []
    ensures TurnMatches(r, bs, ReadTurn(r, bs), n)
  {
    if r.unread > 0 {
      n := Min(r.unread, |bs|);
      DataTurn(r, bs);
    } else {
      n := Min(HEADER_LENGTH - |r.header|, |bs|);
      HeaderTurn(r, bs);
    }
  }

  lemma ByteRunOne(r: Reader, b: byte)
    requires ValidReader(r)
    ensures ByteRun(r, [b]).0 == ByteStep(r, b).0 && ByteRun(r, [b]).1 == ByteStep(r, b).1
  {
    assert [b][1..] == [];
  }

  lemma {:induction false} FailedAbsorbs(bs: seq<byte>)
    ensures ByteRun(Failed, bs).0 == Failed && ByteRun(Failed, bs).1 == []
  {
    if bs != [] { FailedAbsorbs(bs[1..]); }
  }

  lemma AtomsOfOne(e: Event)
    ensures AtomsOfAll([e]) == AtomsOf(e)
  {
    assert [e][1..] == [];
  }

  lemma AtomsOfCons(e: Event, es: seq<Event>)
    ensures AtomsOfAll([e] + es) == AtomsOf(e) + AtomsOfAll(es)
  {
    assert ([e] + es)[1..] == es;
  }

  /** With no message discarded and no header refused, the loop is the byte machine, on every input. */
  lemma {:induction false} LoopIsByteRun(r: Reader, bs: seq<byte>, env: nat -> Reply, k: nat)
    requires ValidReader(r)
    requires forall i {:trigger env(i)} :: env(i) == Reply(true, false)
    ensures var o := ReadLoop(r, bs, env, k);
            ByteRun(r, bs).0 == o.reader && ByteRun(r, bs).1 == AtomsOfAll(o.events)
    decreases |bs|
  {
    if bs == [] {
    } else if r.Failed? {
      FailedAbsorbs(bs);
    } else {
      var t := ReadTurn(r, bs);
      var n := TurnIsByteRun(r, bs);
      assert bs == bs[..n] + t.rest;
      ByteRunSplit(r, bs[..n], t.rest);
      assert env(k) == Reply(true, false);
      AtomsOfOne(t.event);
      if t.event.BadHeader? {
        FailedAbsorbs(t.rest);
      } else if !t.event.NeedMore? {
        var k' := if MakesCallback(t.event) then k + 1 else k;
        LoopIsByteRun(t.reader, t.rest, env, k');
        AtomsOfCons(t.event, ReadLoop(t.reader, t.rest, env, k').events);
      } else {
        assert t.rest == [];
      }
    }
  }

  // ---------------------------------------------------------------------------------------------
  // Chunking independence.

  /** Successive reads; `envs` gives each read its callbacks' replies. */
  function ReadChunks(r: Reader, chunks: seq<seq<byte>>, envs: nat -> (nat -> Reply)): (x: (Reader, seq<Event>))
    requires ValidReader(r)
    ensures ValidReader(x.0)
    decreases |chunks|
  {
    if chunks == [] then (r, [])
    else
      var o := ReadLoop(r, chunks[0], envs(|chunks|), 0);
      var (r2, es) := ReadChunks(o.reader, chunks[1..], envs);
      (r2, o.events + es)
  }

  lemma {:induction false} AtomsOfAppend(a: seq<Event>, b: seq<Event>)
    ensures AtomsOfAll(a + b) == AtomsOfAll(a) + AtomsOfAll(b)
  {
    if a == [] {
      assert a + b == b;
    } else {
      assert (a + b)[1..] == a[1..] + b;
      AtomsOfAppend(a[1..], b);
      Assoc(AtomsOf(a[0]), AtomsOfAll(a[1..]), AtomsOfAll(b));
    }
  }

  ghost predicate NeverDiscards(envs: nat -> (nat -> Reply)) {
    forall i, j {:trigger envs(i)(j)} :: envs(i)(j) == Reply(true, false)
  }

  /** However the bytes are split into reads, the same atoms come out and the same state is left. */
  lemma {:induction false} ChunkingIndependence(r: Reader, chunks: seq<seq<byte>>, envs: nat -> (nat -> Reply))
    requires ValidReader(r) && NeverDiscards(envs)
    ensures var (r', events) := ReadChunks(r, chunks, envs);
            ByteRun(r, Concat(chunks)).0 == r' && ByteRun(r, Concat(chunks)).1 == AtomsOfAll(events)
    decreases |chunks|
  {
    if chunks != [] {
      var o := ReadLoop(r, chunks[0], envs(|chunks|), 0);
      LoopIsByteRun(r, chunks[0], envs(|chunks|), 0);
      ChunkingIndependence(o.reader, chunks[1..], envs);
      ByteRunSplit(r, chunks[0], Concat(chunks[1..]));
      AtomsOfAppend(o.events, ReadChunks(o.reader, chunks[1..], envs).1);
    }
  }

  /** A frame with its payload, as any peer may send it: several flags at once are allowed. */
  datatype Message = Message(frame: Frame, payload: seq<byte>)

  predicate ProperMessage(m: Message) {
    |m.payload| == (if m.frame.ty.DATA? then m.frame.length else 0)
  }

  function HeaderImage(f: Frame): (r: seq<byte>)
    ensures |r| == HEADER_LENGTH
  {
    [f.version, TypeCode(f.ty)] + PutU16(f.flags) + PutU32(f.streamId) + PutU32(f.length)
  }

  lemma HeaderImageParses(f: Frame)
    ensures ParseFrame(HeaderImage(f)) == Some(f)
  {
    var b := HeaderImage(f);
    assert b[2..4] == PutU16(f.flags) && b[4..8] == PutU32(f.streamId) && b[8..12] == PutU32(f.length);
    U32RoundTrip(f.streamId);
    U32RoundTrip(f.length);
  }

  function MessageBytes(ms: seq<Message>): seq<byte> {
    if ms == [] then [] else HeaderImage(ms[0].frame) + ms[0].payload + MessageBytes(ms[1..])
  }

  /** What a message means: its header, then its payload on its stream, then the flags held back. */
  function Meaning(m: Message): seq<Atom> {
    [HeaderA(Announced(m.frame))] +
    if m.payload == [] || m.frame.streamId == 0 then []
    else BytesOf(m.payload, m.frame.streamId)
         + EndAtoms(m.frame.streamId, FlagIsSet(m.frame.flags, RST), FlagIsSet(m.frame.flags, FIN))
  }

  function MeaningAll(ms: seq<Message>): seq<Atom> {
    if ms == [] then [] else Meaning(ms[0]) + MeaningAll(ms[1..])
  }

  lemma MessageRun(m: Message)
    requires ProperMessage(m)
    ensures var x := ByteRun(Fresh, HeaderImage(m.frame) + m.payload); x.0 == Fresh && x.1 == Meaning(m)
  {
    var h := HeaderImage(m.frame);
    assert [] + h == h;
    HeaderImageParses(m.frame);
    CompleteHeader(Fresh, h);
    assert ByteRun(Fresh, h).0 == AfterHeader(m.frame) && ByteRun(Fresh, h).1 == [HeaderA(Announced(m.frame))];
    ByteRunSplit(Fresh, h, m.payload);
    if m.payload != [] { PayloadBytes(AfterHeader(m.frame), m.payload); }
  }

  lemma {:induction false} MessagesRun(ms: seq<Message>)
    requires forall m <- ms :: ProperMessage(m)
    ensures var x := ByteRun(Fresh, MessageBytes(ms)); x.0 == Fresh && x.1 == MeaningAll(ms)
  {
    if ms != [] {
      MessageRun(ms[0]);
      MessagesRun(ms[1..]);
      ByteRunSplit(Fresh, HeaderImage(ms[0].frame) + ms[0].payload, MessageBytes(ms[1..]));
    }
  }

  /**
   * Any sequence of well-formed frames, cut into reads in any way, is reported as those frames:
   * headers in order, each payload whole and on its own stream, RST and FIN after the last byte.
   */
  lemma FramesSurviveChunking(ms: seq<Message>, chunks: seq<seq<byte>>, envs: nat -> (nat -> Reply))
    requires forall m <- ms :: ProperMessage(m)
    requires Concat(chunks) == MessageBytes(ms) && NeverDiscards(envs)
    ensures var (r, events) := ReadChunks(Fresh, chunks, envs);
            r == Fresh && AtomsOfAll(events) == MeaningAll(ms)
  {
    MessagesRun(ms);
    ChunkingIndependence(Fresh, chunks, envs);
  }

  // ---------------------------------------------------------------------------------------------
  // Alignment: discarding never moves frame boundaries.

  /** The part of the state that decides where frames begin. */
  function Alignment(r: Reader): (bool, seq<byte>, nat) {
    if r.Failed? then (true, [], 0) else (false, r.header, r.unread)
  }

  function HeadersOf(es: seq<Event>): seq<Frame> {
    if es == [] then []
    else (if es[0].Header? then [es[0].frame] else []) + HeadersOf(es[1..])
  }

  function HeaderAtoms(xs: seq<Atom>): seq<Frame> {
    if xs == [] then []
    else (if xs[0].HeaderA? then [xs[0].frame] else []) + HeaderAtoms(xs[1..])
  }

  lemma {:induction false} HeadersOfAppend(a: seq<Event>, b: seq<Event>)
    ensures HeadersOf(a + b) == HeadersOf(a) + HeadersOf(b)
  {
    if a == [] {
      assert a + b == b;
    } else {
      assert (a + b)[1..] == a[1..] + b;
      HeadersOfAppend(a[1..], b);
      Assoc(if a[0].Header? then [a[0].frame] else [], HeadersOf(a[1..]), HeadersOf(b));
    }
  }

  predicate Structural(e: Event) { e.Header? || e.BadHeader? || e.NeedMore? }

  lemma TurnAlignment(r1: Reader, r2: Reader, bs: seq<byte>)
    requires ValidReader(r1) && ValidReader(r2) && r1.Reader? && bs != [] && Alignment(r1) == Alignment(r2)
    ensures var t1, t2 := ReadTurn(r1, bs), ReadTurn(r2, bs);
            Alignment(t1.reader) == Alignment(t2.reader) && t1.rest == t2.rest
            && (Structural(t1.event) || Structural(t2.event) ==> t1.event == t2.event)
  {
  }

  ghost predicate AlwaysProceeds(env: nat -> Reply) {
    forall i {:trigger env(i)} :: env(i).proceed
  }

  /** Whatever the callbacks discard, the same headers are found at the same places. */
  lemma {:induction false} LoopAlignment(r1: Reader, r2: Reader, bs: seq<byte>, env1: nat -> Reply, env2: nat -> Reply,
                                         k1: nat, k2: nat)
    requires ValidReader(r1) && ValidReader(r2) && Alignment(r1) == Alignment(r2)
    requires AlwaysProceeds(env1) && AlwaysProceeds(env2)
    ensures var o1, o2 := ReadLoop(r1, bs, env1, k1), ReadLoop(r2, bs, env2, k2);
            Alignment(o1.reader) == Alignment(o2.reader) && HeadersOf(o1.events) == HeadersOf(o2.events)
    decreases |bs|
  {
    hide ReadTurn;
    if bs == [] || r1.Failed? {
    } else {
      TurnAlignment(r1, r2, bs);
      var t1, t2 := ReadTurn(r1, bs), ReadTurn(r2, bs);
      assert env1(k1).proceed && env2(k2).proceed;
      if !StopsAfter(t1.event, env1(k1)) {
        var d1, d2 := Answered(t1.reader, t1.event, env1(k1)), Answered(t2.reader, t2.event, env2(k2));
        var n1 := if MakesCallback(t1.event) then k1 + 1 else k1;
        var n2 := if MakesCallback(t2.event) then k2 + 1 else k2;
        LoopAlignment(d1, d2, t1.rest, env1, env2, n1, n2);
        var e1, e2 := ReadLoop(d1, t1.rest, env1, n1).events, ReadLoop(d2, t2.rest, env2, n2).events;
        assert ([t1.event] + e1)[1..] == e1 && ([t2.event] + e2)[1..] == e2;
      }
    }
  }

  ghost predicate AllProceed(envs: nat -> (nat -> Reply)) {
    forall i, j {:trigger envs(i)(j)} :: envs(i)(j).proceed
  }

  lemma {:induction false} ChunksAlignment(r1: Reader, r2: Reader, chunks: seq<seq<byte>>, envs1: nat -> (nat -> Reply),
                                           envs2: nat -> (nat -> Reply))
    requires ValidReader(r1) && ValidReader(r2) && Alignment(r1) == Alignment(r2)
    requires AllProceed(envs1) && AllProceed(envs2)
    ensures var (x1, e1) := ReadChunks(r1, chunks, envs1);
            var (x2, e2) := ReadChunks(r2, chunks, envs2);
            Alignment(x1) == Alignment(x2) && HeadersOf(e1) == HeadersOf(e2)
    decreases |chunks|
  {
    if chunks != [] {
      var v1, v2 := envs1(|chunks|), envs2(|chunks|);
      LoopAlignment(r1, r2, chunks[0], v1, v2, 0, 0);
      var o1, o2 := ReadLoop(r1, chunks[0], v1, 0), ReadLoop(r2, chunks[0], v2, 0);
      ChunksAlignment(o1.reader, o2.reader, chunks[1..], envs1, envs2);
      HeadersOfAppend(o1.events, ReadChunks(o1.reader, chunks[1..], envs1).1);
      HeadersOfAppend(o2.events, ReadChunks(o2.reader, chunks[1..], envs2).1);
    }
  }

  lemma {:induction false} HeaderAtomsAppend(a: seq<Atom>, b: seq<Atom>)
    ensures HeaderAtoms(a + b) == HeaderAtoms(a) + HeaderAtoms(b)
  {
    if a == [] {
      assert a + b == b;
    } else {
      assert (a + b)[1..] == a[1..] + b;
      HeaderAtomsAppend(a[1..], b);
      Assoc(if a[0].HeaderA? then [a[0].frame] else [], HeaderAtoms(a[1..]), HeaderAtoms(b));
    }
  }

  lemma {:induction false} NoHeaderAtoms(xs: seq<Atom>)
    requires forall x <- xs :: !x.HeaderA?
    ensures HeaderAtoms(xs) == []
  {
    if xs != [] { NoHeaderAtoms(xs[1..]); }
  }

  lemma {:induction false} HeadersAsAtoms(es: seq<Event>)
    ensures HeaderAtoms(AtomsOfAll(es)) == HeadersOf(es)
  {
    if es != [] {
      HeadersAsAtoms(es[1..]);
      HeaderAtomsAppend(AtomsOf(es[0]), AtomsOfAll(es[1..]));
      if es[0].Header? {
        assert AtomsOf(es[0])[1..] == [];
      } else {
        NoHeaderAtoms(AtomsOf(es[0]));
      }
    }
  }

  function AnnouncedAll(ms: seq<Message>): seq<Frame> {
    if ms == [] then [] else [Announced(ms[0].frame)] + AnnouncedAll(ms[1..])
  }

  lemma {:induction false} MeaningHeaders(ms: seq<Message>)
    ensures HeaderAtoms(MeaningAll(ms)) == AnnouncedAll(ms)
  {
    if ms != [] {
      MeaningHeaders(ms[1..]);
      HeaderAtomsAppend(Meaning(ms[0]), MeaningAll(ms[1..]));
      var h, tail := HeaderA(Announced(ms[0].frame)), Meaning(ms[0])[1..];
      NoHeaderAtoms(tail);
      assert Meaning(ms[0])[0] == h;
    }
  }

  /** Arbitrary discards and arbitrary chunk boundaries: every header is still found, none is invented. */
  lemma DiscardKeepsAlignment(ms: seq<Message>, chunks: seq<seq<byte>>, envs: nat -> (nat -> Reply))
    requires forall m <- ms :: ProperMessage(m)
    requires Concat(chunks) == MessageBytes(ms) && AllProceed(envs)
    ensures var (r, events) := ReadChunks(Fresh, chunks, envs);
            Alignment(r) == Alignment(Fresh) && HeadersOf(events) == AnnouncedAll(ms)
  {
    var plain: nat -> (nat -> Reply) := i => j => Reply(true, false);
    FramesSurviveChunking(ms, chunks, plain);
    ChunksAlignment(Fresh, Fresh, chunks, plain, envs);
    HeadersAsAtoms(ReadChunks(Fresh, chunks, plain).1);
    MeaningHeaders(ms);
  }

  // ---------------------------------------------------------------------------------------------
  // What a discard hides: the rest of its own message, and nothing else.

  /** For every turn of the loop, whether its callback discarded the message. */
  function Marks(r: Reader, bs: seq<byte>, env: nat -> Reply, k: nat): seq<bool>
    requires ValidReader(r)
    decreases |bs|
  {
    if bs == [] || r.Failed? then []
    else
      var t := ReadTurn(r, bs);
      var mark := (t.event.Header? || t.event.Segment?) && env(k).discard;
      if StopsAfter(t.event, env(k)) then [mark]
      else [mark] + Marks(Answered(t.reader, t.event, env(k)), t.rest, env, if MakesCallback(t.event) then k + 1 else k)
  }

  /** Data is hidden from a discard up to the next header. */
  function Shown(e: Event, gone: bool): Event { if gone && e.Segment? then Discarded(|e.data|) else e }

  function StillGone(e: Event, mark: bool, gone: bool): bool { mark || (gone && !e.Header?) }

  function Masked(es: seq<Event>, marks: seq<bool>, gone: bool): (x: (seq<Event>, bool))
    requires |marks| == |es|
  {
    if es == [] then ([], gone)
    else
      var rest := Masked(es[1..], marks[1..], StillGone(es[0], marks[0], gone));
      ([Shown(es[0], gone)] + rest.0, rest.1)
  }

  lemma {:induction false} MaskedAppend(a: seq<Event>, b: seq<Event>, ma: seq<bool>, mb: seq<bool>, gone: bool)
    requires |ma| == |a| && |mb| == |b|
    ensures var x := Masked(a, ma, gone);
            var y := Masked(b, mb, x.1);
            Masked(a + b, ma + mb, gone).0 == x.0 + y.0 && Masked(a + b, ma + mb, gone).1 == y.1
  {
    if a == [] {
      assert a + b == b && ma + mb == mb;
    } else {
      assert (a + b)[1..] == a[1..] + b && (ma + mb)[1..] == ma[1..] + mb;
      var g := StillGone(a[0], ma[0], gone);
      MaskedAppend(a[1..], b, ma[1..], mb, g);
      Assoc([Shown(a[0], gone)], Masked(a[1..], ma[1..], g).0, Masked(b, mb, Masked(a[1..], ma[1..], g).1).0);
    }
  }

  function Hidden(r: Reader, gone: bool): (h: Reader)
    ensures ValidReader(r) ==> ValidReader(h)
  {
    if gone then Discard(r) else r
  }

  lemma TurnMasked(r: Reader, bs: seq<byte>, gone: bool, reply: Reply)
    requires ValidReader(r) && r.Reader? && bs != []
    ensures var t, h := ReadTurn(r, bs), ReadTurn(Hidden(r, gone), bs);
            var mark := (h.event.Header? || h.event.Segment?) && reply.discard;
            && h.event == Shown(t.event, gone) && h.rest == t.rest
            && Answered(h.reader, h.event, reply) == Hidden(t.reader, StillGone(t.event, mark, gone))
  {
  }

  lemma {:induction false} LoopMasked(r: Reader, gone: bool, bs: seq<byte>, env: nat -> Reply, plain: nat -> Reply,
                                      k: nat, k': nat)
    requires ValidReader(r) && AlwaysProceeds(env)
    requires forall i {:trigger plain(i)} :: plain(i) == Reply(true, false)
    ensures var o, h, marks := ReadLoop(r, bs, plain, k'), ReadLoop(Hidden(r, gone), bs, env, k),
            Marks(Hidden(r, gone), bs, env, k);
            |marks| == |o.events| && h.events == Masked(o.events, marks, gone).0
            && h.reader == Hidden(o.reader, Masked(o.events, marks, gone).1)
    decreases |bs|
  {
    if bs != [] && r.Reader? {
      TurnMasked(r, bs, gone, env(k));
      var t, h := ReadTurn(r, bs), ReadTurn(Hidden(r, gone), bs);
      assert env(k).proceed && plain(k') == Reply(true, false);
      var mark := (h.event.Header? || h.event.Segment?) && env(k).discard;
      var g := StillGone(t.event, mark, gone);
      assert [mark][1..] == [] && [t.event][1..] == [];
      if !StopsAfter(t.event, plain(k')) {
        var n, n' := if MakesCallback(h.event) then k + 1 else k, if MakesCallback(t.event) then k' + 1 else k';
        LoopMasked(t.reader, g, t.rest, env, plain, n, n');
        MaskedCons(t.event, ReadLoop(t.reader, t.rest, plain, n').events, mark,
          Marks(Hidden(t.reader, g), t.rest, env, n), gone);
      }
    }
  }

  lemma MaskedCons(e: Event, es: seq<Event>, mark: bool, marks: seq<bool>, gone: bool)
    requires |marks| == |es|
    ensures var rest := Masked(es, marks, StillGone(e, mark, gone));
            Masked([e] + es, [mark] + marks, gone) == ([Shown(e, gone)] + rest.0, rest.1)
  {
    assert ([e] + es)[1..] == es && ([mark] + marks)[1..] == marks;
  }

  function ChunkMarks(r: Reader, chunks: seq<seq<byte>>, envs: nat -> (nat -> Reply)): seq<bool>
    requires ValidReader(r)
    decreases |chunks|
  {
    if chunks == [] then []
    else
      Marks(r, chunks[0], envs(|chunks|), 0) +
      ChunkMarks(ReadLoop(r, chunks[0], envs(|chunks|), 0).reader, chunks[1..], envs)
  }

  lemma {:induction false} ChunksMasked(r: Reader, gone: bool, chunks: seq<seq<byte>>, envs: nat -> (nat -> Reply),
                                        plain: nat -> (nat -> Reply))
    requires ValidReader(r) && AllProceed(envs) && NeverDiscards(plain)
    ensures var es, marks := ReadChunks(r, chunks, plain).1, ChunkMarks(Hidden(r, gone), chunks, envs);
            |marks| == |es| && ReadChunks(Hidden(r, gone), chunks, envs).1 == Masked(es, marks, gone).0
    decreases |chunks|
  {
    if chunks != [] {
      var env, p, h := envs(|chunks|), plain(|chunks|), Hidden(r, gone);
      LoopMasked(r, gone, chunks[0], env, p, 0, 0);
      var o, marks := ReadLoop(r, chunks[0], p, 0), Marks(h, chunks[0], env, 0);
      var g := Masked(o.events, marks, gone).1;
      ChunksMasked(o.reader, g, chunks[1..], envs, plain);
      MaskedAppend(o.events, ReadChunks(o.reader, chunks[1..], plain).1, marks,
        ChunkMarks(Hidden(o.reader, g), chunks[1..], envs), gone);
    }
  }

  /**
   * Arbitrary discards and arbitrary chunk boundaries: the reader reports the messages just as if nothing was ever
   * discarded, except that data is hidden from each discard up to the next header. So a message nobody discarded
   * arrives whole, with its flags, whatever happened to the messages before it.
   */
  lemma DiscardsHideTheirMessage(ms: seq<Message>, chunks: seq<seq<byte>>, envs: nat -> (nat -> Reply))
    returns (whole: seq<Event>)
    requires forall m <- ms :: ProperMessage(m)
    requires Concat(chunks) == MessageBytes(ms) && AllProceed(envs)
    ensures AtomsOfAll(whole) == MeaningAll(ms)
    ensures var marks := ChunkMarks(Fresh, chunks, envs);
            |marks| == |whole| && ReadChunks(Fresh, chunks, envs).1 == Masked(whole, marks, false).0
  {
    var plain: nat -> (nat -> Reply) := i => j => Reply(true, false);
    FramesSurviveChunking(ms, chunks, plain);
    ChunksMasked(Fresh, false, chunks, envs, plain);
    whole := ReadChunks(Fresh, chunks, plain).1;
  }

  // ---------------------------------------------------------------------------------------------
  // The object.

  class YamuxReadingState {
    const header: FixedBufferCollector
    var unread: nat
    var sid: u32
    var rst: bool
    var fin: bool
    var failed: bool
    /** Callbacks made so far, in order. */
    var events: seq<Event>

    ghost predicate Valid()
      reads this, header
    {
      header.Valid() && (!failed ==> header.expected == HEADER_LENGTH) && ValidReader(State())
    }

    ghost function State(): Reader
      reads this, header
    {
      if failed then Failed else Reader(header.buffer, unread, sid, rst, fin)
    }

    constructor ()
      ensures Valid() && State() == Fresh && events == [] && fresh(header)
    {
      header := new FixedBufferCollector(HEADER_LENGTH);
      unread, sid, rst, fin, failed, events := 0, 0, false, false, false, [];
    }

    method DiscardDataMessage()
      requires Valid()
      modifies this
      ensures Valid() && State() == Discard(old(State())) && events == old(events)
    {
      sid, rst, fin := 0, false, false;
    }

    /** The complete-header branch of `processHeader`. */
    method ProcessHeader(bytes: seq<byte>) returns (proceed: bool, rest: seq<byte>)
      requires Valid() && !failed && unread == 0 && bytes != []
      modifies this, header
      ensures Valid()
      ensures var t := ReadTurn(old(State()), bytes);
              State() == t.reader && rest == t.rest && events == old(events) + [t.event]
              && proceed == t.event.Header?
    {
      hide ParseFrame, FlagIsSet, WithoutRstFin;
      var block;
      block, rest := header.Add(bytes);
      if block.None? {
        events := events + [NeedMore];
        return false, rest;
      }
      var parsed := ParseFrame(block.value);
      if parsed.Some? {
        var frame := parsed.value;
        if frame.ty.DATA? && frame.length > 0 {
          unread, sid := frame.length, frame.streamId;
          if frame.streamId != 0 {
            rst, fin := FlagIsSet(frame.flags, RST), FlagIsSet(frame.flags, FIN);
            frame := frame.(flags := WithoutRstFin(frame.flags));
          }
        }
        header.Expect(HEADER_LENGTH);
        events := events + [Header(frame)];
        return true, rest;
      }
      failed := true;
      events := events + [BadHeader];
      return false, rest;
    }

    method ProcessData(bytes: seq<byte>) returns (rest: seq<byte>)
      requires Valid() && !failed && unread > 0 && bytes != []
      modifies this, header
      ensures Valid()
      ensures var t := ReadTurn(old(State()), bytes);
              State() == t.reader && rest == t.rest && events == old(events) + [t.event]
    {
      var n := Min(unread, |bytes|);
      var head := bytes[..n];
      rest := bytes[n..];
      unread := unread - n;
      if sid == 0 {
        events := events + [Discarded(n)];
        return;
      }
      var streamId, r, f := sid, false, false;
      if unread == 0 {
        r, f := rst, fin;
        header.Expect(HEADER_LENGTH);
        sid, rst, fin := 0, false, false;
      }
      events := events + [Segment(head, streamId, r, f)];
    }

    /** One turn of the loop, with the callback it makes; `reply` is what that callback answers and does. */
    method TakeTurn(bytes: seq<byte>, reply: Reply) returns (event: Event, rest: seq<byte>)
      requires Valid() && !failed && bytes != []
      modifies this, header
      ensures Valid()
      ensures var t := ReadTurn(old(State()), bytes);
              State() == Answered(t.reader, t.event, reply) && event == t.event && rest == t.rest
              && events == old(events) + [t.event]
    {
      if unread == 0 {
        var more;
        more, rest := ProcessHeader(bytes);
      } else {
        rest := ProcessData(bytes);
      }
      event := events[|events| - 1];
      if (event.Header? || event.Segment?) && reply.discard {
        DiscardDataMessage();
      }
    }

    /** `onDataReceived`; `env` stands for the callbacks, which may call `discardDataMessage` or refuse a header. */
    method OnDataReceived(bytes: seq<byte>, env: nat -> Reply) returns (rest: seq<byte>)
      requires Valid()
      modifies this, header
      ensures Valid()
      ensures var o := ReadLoop(old(State()), bytes, env, 0);
              State() == o.reader && events == old(events) + o.events && rest == o.rest
    {
      rest := bytes;
      var proceed, k := true, 0;
      ghost var goal, made: seq<Event> := ReadLoop(State(), bytes, env, 0), [];
      while rest != [] && proceed && !failed
        invariant Valid()
        invariant events == old(events) + made
        invariant Completes(goal, made, State(), rest, proceed, env, k)
        decreases |rest|
      {
        ghost var before, input := State(), rest;
        var event;
        event, rest := TakeTurn(rest, env(k));
        proceed := !StopsAfter(event, env(k));
        CompletesStep(goal, made, before, input, env, k);
        made := made + [event];
        if MakesCallback(event) { k := k + 1; }
      }
    }
  }

  /** The loop, resumed from here, ends in `goal`. */
  ghost predicate Completes(goal: Outcome, made: seq<Event>, r: Reader, rest: seq<byte>, proceed: bool,
                            env: nat -> Reply, k: nat)
    requires ValidReader(r)
  {
    var o := if proceed then ReadLoop(r, rest, env, k) else Outcome(r, [], rest);
    goal.reader == o.reader && goal.events == made + o.events && goal.rest == o.rest
  }

  lemma CompletesStep(goal: Outcome, made: seq<Event>, r: Reader, bs: seq<byte>, env: nat -> Reply, k: nat)
    requires ValidReader(r) && r.Reader? && bs != [] && Completes(goal, made, r, bs, true, env, k)
    ensures var t := ReadTurn(r, bs);
            Completes(goal, made + [t.event], Answered(t.reader, t.event, env(k)), t.rest, !StopsAfter(t.event, env(k)),
                      env, if MakesCallback(t.event) then k + 1 else k)
  {
  }
}
