/** Arrivals at one connection of the two: a turn of its reading loop, whatever packet it meets. */
module YamuxArrivals {
  import opened Basics
  import opened YamuxFrame
  import YamuxReader
  import opened YamuxStreamSpec
  import opened YamuxPair
  import opened YamuxWire
  import opened YamuxConnections
  import opened YamuxWriter
  import opened YamuxSystem
  import opened YamuxSteps
  import opened YamuxCompletion

  /** `x1` is `x` after its reader moved on: the packets still due at it are now `dyx'`. */
  ghost predicate Turned(x: Conn, x1: Conn, y: Conn, dxy: seq<Packet>, dyx: seq<Packet>, dyx': seq<Packet>) {
    && Inv(x, y, dxy, dyx) && x.started
    && x1 == x.(reader := x1.reader, chunk := x1.chunk)
    && YamuxReader.ValidReader(x1.reader) && Carries(x1.reader, x1.chunk + y.out, dyx')
  }

  /** Only the packet at the head was taken off, a message of stream `id` or of none. */
  ghost predicate Taken(x: Conn, x1: Conn, y: Conn, dxy: seq<Packet>, dyx: seq<Packet>, p: Packet) {
    dyx != [] && dyx[0] == p && Sendable(p) && Turned(x, x1, y, dxy, dyx, dyx[1..])
  }

  lemma HeadMsgs(y: Conn, dyx: seq<Packet>, id: u32)
    requires dyx != []
    ensures MsgsFor(id, Flight(y, dyx)) == MsgFor(id, dyx[0]) + MsgsFor(id, Flight(y, dyx[1..]))
  {
    assert Flight(y, dyx)[1..] == Flight(y, dyx[1..]);
  }

  lemma TakenOthers(y: Conn, dyx: seq<Packet>, id: u32)
    requires dyx != [] && forall other: u32 :: other != id ==> MsgFor(other, dyx[0]) == []
    ensures SameForOthers(y, dyx, dyx[1..], id)
  {
    forall other: u32 | other != id
      ensures MsgsFor(other, Flight(y, dyx[1..])) == MsgsFor(other, Flight(y, dyx))
    {
      HeadMsgs(y, dyx, other);
    }
  }

  /** The message of `id` at the head, and what is behind it. */
  lemma TakenHead(y: Conn, dyx: seq<Packet>, id: u32, m: Msg)
    requires dyx != [] && MsgFor(id, dyx[0]) == [m]
    ensures var ms := MsgsFor(id, Flight(y, dyx)); ms != [] && ms[0] == m && ms[1..] == MsgsFor(id, Flight(y, dyx[1..]))
  {
    HeadMsgs(y, dyx, id);
  }

  lemma TakenMsg(y: Conn, dyx: seq<Packet>, p: Packet, id: u32, m: Msg)
    requires dyx != [] && dyx[0] == p && MsgFor(id, p) == [m]
    ensures SameForOthers(y, dyx, dyx[1..], id)
    ensures var ms := MsgsFor(id, Flight(y, dyx)); ms != [] && ms[0] == m && ms[1..] == MsgsFor(id, Flight(y, dyx[1..]))
  {
    TakenOthers(y, dyx, id);
    TakenHead(y, dyx, id, m);
  }

  // ---------------------------------------------------------------------------------------------
  // Steps that send nothing.

  /** Only the tables differ: stream `id` is now `e`. */
  lemma QuietMoved(x: Conn, t: Conn, y: Conn, dxy: seq<Packet>, id: u32, e: End)
    requires ConnInv(x) && Carries(y.reader, y.chunk + x.out, dxy) && TableInv(t) && AckInv(t)
    requires t == x.(reader := t.reader, chunk := t.chunk, streams := t.streams, opening := t.opening, past := t.past)
    requires EndOf(t, id) == e && forall other: u32 :: other != id ==> EndOf(t, other) == EndOf(x, other)
    ensures Moved(x, t, y, dxy, dxy, id, e, [])
  {
    assert Flight(t, dxy) == Flight(x, dxy);
    var ms := MsgsFor(id, Flight(x, dxy));
    assert ms + [] == ms;
  }

  lemma QuietArrival(x: Conn, x1: Conn, t: Conn, y: Conn, dxy: seq<Packet>, dyx: seq<Packet>, dyx': seq<Packet>,
                     id: u32, e: End)
    requires Turned(x, x1, y, dxy, dyx, dyx') && SameForOthers(y, dyx, dyx', id) && TableInv(t) && AckInv(t)
    requires t == x1.(streams := t.streams, opening := t.opening, past := t.past)
    requires EndOf(t, id) == e && forall other: u32 :: other != id ==> EndOf(t, other) == EndOf(x, other)
    requires id != 0 ==> var p := View(x, y, dxy, dyx, id);
                         PairInv(Pair(e, p.y, p.ox, MsgsFor(id, Flight(y, dyx'))), SettingOf(x, y, id))
    ensures Inv(t, y, dxy, dyx')
  {
    QuietMoved(x, t, y, dxy, id, e);
    var ms := MsgsFor(id, Flight(x, dxy));
    assert ms + [] == ms;
    InvAgain(x, t, y, dxy, dxy, dyx, dyx', id, e, []);
  }

  lemma SameTurned(x: Conn, x1: Conn)
    requires ConnInv(x) && x1 == x.(reader := x1.reader, chunk := x1.chunk)
    ensures TableInv(x1) && AckInv(x1) && forall id: u32 :: EndOf(x1, id) == EndOf(x, id)
  {
    assert Unacked(x1) == Unacked(x);
    SameAcks(x, x1);
  }

  /** The turn concerned no stream, or its message changes nothing. */
  lemma Ignored(x: Conn, x1: Conn, y: Conn, dxy: seq<Packet>, dyx: seq<Packet>, dyx': seq<Packet>, id: u32)
    requires Turned(x, x1, y, dxy, dyx, dyx') && SameForOthers(y, dyx, dyx', id)
    requires id != 0 ==> PairInv(View(x, y, dxy, dyx, id).(oy := MsgsFor(id, Flight(y, dyx'))), SettingOf(x, y, id))
    ensures Inv(x1, y, dxy, dyx')
  {
    SameTurned(x, x1);
    QuietArrival(x, x1, x1, y, dxy, dyx, dyx', id, EndOf(x, id));
  }

  /** A turn that takes nothing off. */
  lemma Stutter(x: Conn, x1: Conn, y: Conn, dxy: seq<Packet>, dyx: seq<Packet>)
    requires Turned(x, x1, y, dxy, dyx, dyx)
    ensures Inv(x1, y, dxy, dyx)
  {
    Ignored(x, x1, y, dxy, dyx, dyx, 0);
  }

  /** A packet that belongs to no stream. */
  lemma NoStream(x: Conn, x1: Conn, y: Conn, dxy: seq<Packet>, dyx: seq<Packet>, p: Packet)
    requires Taken(x, x1, y, dxy, dyx, p) && (p.PPing? || p.PPong? || p.PGoAway?)
    ensures Inv(x1, y, dxy, dyx[1..])
  {
    TakenOthers(y, dyx, 0);
    Ignored(x, x1, y, dxy, dyx, dyx[1..], 0);
  }

  /** A message the pair ignores. */
  lemma IgnoredHead(x: Conn, x1: Conn, y: Conn, dxy: seq<Packet>, dyx: seq<Packet>, p: Packet, id: u32, m: Msg)
    requires Taken(x, x1, y, dxy, dyx, p) && id != 0 && MsgFor(id, p) == [m]
    requires forall other: u32 :: other != id ==> MsgFor(other, p) == []
    requires (EndOf(x, id).Live? && m.Ack?) || (EndOf(x, id).Gone? && !m.Syn?)
    ensures Inv(x1, y, dxy, dyx[1..])
  {
    TakenOthers(y, dyx, id);
    TakenHead(y, dyx, id, m);
    IgnoredKeeps(View(x, y, dxy, dyx, id), SettingOf(x, y, id));
    Ignored(x, x1, y, dxy, dyx, dyx[1..], id);
  }

  // ---------------------------------------------------------------------------------------------
  // Arrivals that change a stream of the table without sending.

  function NewLive(x: Conn): Stream { NewStream(x.cfg.maxWindow, QUEUE_LIMIT) }

  /** An id with no data under way gets a fresh stream. */
  lemma CreatedTable(x: Conn, t: Conn, id: u32)
    requires TableInv(x) && x.started && id != 0 && id !in x.streams && id !in x.past &&
             (IsOutbound(x.newId, id) ==> id < x.newId)
    requires t.streams == x.streams[id := NewLive(x)] && t.opening == x.opening - {id} && t.past == x.past
    requires t.newId == x.newId && t.started
    ensures TableInv(t) && EndOf(t, id) == Live(NewLive(x))
    ensures forall other: u32 :: other != id ==> EndOf(t, other) == EndOf(x, other)
  {
  }

  lemma CreatedAcks(x: Conn, t: Conn, id: u32)
    requires AckInv(x) && id !in x.streams && id !in x.past
    requires t.streams == x.streams[id := NewLive(x)] && t.past == x.past
    requires forall i: u32 :: SizesFor(i, Unacked(t)) == SizesFor(i, Unacked(x))
    ensures AckInv(t)
  {
    forall i: u32
      ensures AckOf(t, i)
    {
      assert AckOf(x, i);
    }
  }

  lemma AckCreates(x: Conn, x1: Conn, y: Conn, dxy: seq<Packet>, dyx: seq<Packet>, id: u32)
    requires Taken(x, x1, y, dxy, dyx, PAck(id)) && id in x.opening
    ensures Inv(x1.(opening := x1.opening - {id}, streams := x1.streams[id := NewLive(x)]), y, dxy, dyx[1..])
  {
    var t := x1.(opening := x1.opening - {id}, streams := x1.streams[id := NewLive(x)]);
    TakenMsg(y, dyx, PAck(id), id, Msg.Ack);
    assert Unacked(t) == Unacked(x);
    CreatedTable(x, t, id);
    CreatedAcks(x, t, id);
    YamuxPair.AckKeeps(View(x, y, dxy, dyx, id), SettingOf(x, y, id), QUEUE_LIMIT);
    QuietArrival(x, x1, t, y, dxy, dyx, dyx[1..], id, Live(NewLive(x)));
  }

  lemma KnownId(x: Conn, id: u32)
    requires TableInv(x) && (id in x.streams || id in x.opening)
    ensures id != 0 && id !in x.past && (IsOutbound(x.newId, id) ==> id < x.newId)
    ensures id in x.streams ==> x.opening - {id} == x.opening
    ensures id in x.opening ==> x.streams - {id} == x.streams
  {
  }

  /** Stream `id` left the table, with record `r`. */
  lemma GoneTable(x: Conn, t: Conn, id: u32, r: Record)
    requires TableInv(x) && id != 0 && id !in x.past && (IsOutbound(x.newId, id) ==> id < x.newId)
    requires t.streams == x.streams - {id} && t.opening == x.opening - {id} && t.past == x.past[id := r]
    requires t.newId == x.newId && t.started == x.started
    ensures TableInv(t) && EndOf(t, id) == Gone(r) &&
            forall other: u32 :: other != id ==> EndOf(t, other) == EndOf(x, other)
  {
  }

  lemma GoneAcks(x: Conn, t: Conn, id: u32, r: Record)
    requires AckInv(x) && t.streams == x.streams - {id} && t.past == x.past[id := r]
    requires forall i: u32 :: SizesFor(i, Unacked(t)) == SizesFor(i, Unacked(x))
    ensures AckInv(t)
  {
    forall i: u32
      ensures AckOf(t, i)
    {
      assert AckOf(x, i);
    }
  }

  /** The stream is given up on its peer's word; nothing is sent. */
  lemma GoneArrival(x: Conn, x1: Conn, t: Conn, y: Conn, dxy: seq<Packet>, dyx: seq<Packet>, dyx': seq<Packet>, id: u32,
                    r: Record)
    requires Turned(x, x1, y, dxy, dyx, dyx') && SameForOthers(y, dyx, dyx', id)
    requires id != 0 && id !in x.past && (IsOutbound(x.newId, id) ==> id < x.newId)
    requires t == x1.(streams := t.streams, opening := t.opening, past := x1.past[id := r])
    requires t.streams == x1.streams - {id} && t.opening == x1.opening - {id}
    requires var p := View(x, y, dxy, dyx, id);
             PairInv(Pair(Gone(r), p.y, p.ox, MsgsFor(id, Flight(y, dyx'))), SettingOf(x, y, id))
    ensures Inv(t, y, dxy, dyx')
  {
    assert Unacked(t) == Unacked(x);
    GoneTable(x, t, id, r);
    GoneAcks(x, t, id, r);
    QuietArrival(x, x1, t, y, dxy, dyx, dyx', id, Gone(r));
  }

  lemma UpdatedAcks(x: Conn, t: Conn, id: u32, s: Stream)
    requires AckInv(x) && id in x.streams && t.streams == x.streams[id := s] && t.past == x.past &&
             s.queue == x.streams[id].queue
    requires forall i: u32 :: SizesFor(i, Unacked(t)) == SizesFor(i, Unacked(x))
    ensures AckInv(t)
  {
    forall i: u32
      ensures AckOf(t, i)
    {
      assert AckOf(x, i);
    }
  }

  lemma UpdatedArrival(x: Conn, x1: Conn, t: Conn, y: Conn, dxy: seq<Packet>, dyx: seq<Packet>, dyx': seq<Packet>,
                       id: u32, s: Stream)
    requires Turned(x, x1, y, dxy, dyx, dyx') && SameForOthers(y, dyx, dyx', id)
    requires id in x.streams && s.queue == x.streams[id].queue && t == x1.(streams := x1.streams[id := s])
    requires var p := View(x, y, dxy, dyx, id);
             PairInv(Pair(Live(s), p.y, p.ox, MsgsFor(id, Flight(y, dyx'))), SettingOf(x, y, id))
    ensures Inv(t, y, dxy, dyx')
  {
    assert Unacked(t) == Unacked(x);
    UpdatedTable(x, t, id, s);
    UpdatedAcks(x, t, id, s);
    QuietArrival(x, x1, t, y, dxy, dyx, dyx', id, Live(s));
  }

  lemma FinTable(x1: Conn, id: u32, s: Stream, e: Effect, v: Verdict)
    requires id in x1.streams && x1.streams[id] == s && ValidStream(s) && s.closeReason.None? && (e, v) == OnFin(s)
    ensures v.RemoveStream? ==>
              ProcessFin(x1, id) == x1.(streams := x1.streams - {id}, past := x1.past[id := RecordOf(e.s)])
    ensures !v.RemoveStream? ==> ProcessFin(x1, id) == x1.(streams := x1.streams[id := e.s]) && e.s.queue == s.queue
  {
    OnFinKept(s);
    QuietPerform(x1.(streams := x1.streams[id := e.s]), id, e.acts);
    assert x1.streams[id := e.s] - {id} == x1.streams - {id};
  }

  /** FIN to a stream of the table. */
  lemma FinArrives(x: Conn, x1: Conn, y: Conn, dxy: seq<Packet>, dyx: seq<Packet>, id: u32)
    requires Taken(x, x1, y, dxy, dyx, PFin(id)) && id in x.streams
    ensures Inv(ProcessFin(x1, id), y, dxy, dyx[1..])
  {
    TakenMsg(y, dyx, PFin(id), id, Fin);
    var (e, v) := OnFin(x.streams[id]);
    assert ValidStream(x.streams[id]) && x.streams[id].closeReason.None? by { LiveStream(x, y, dxy, dyx, id); }
    assert e.s.closeReason.Some? <==> v.RemoveStream? by { OnFinKept(x.streams[id]); }
    FinView(x, y, dxy, dyx, id, e);
    FinTable(x1, id, x.streams[id], e, v);
    EndLands(x, x1, ProcessFin(x1, id), y, dxy, dyx, dyx[1..], id, e);
  }

  lemma FinView(x: Conn, y: Conn, dxy: seq<Packet>, dyx: seq<Packet>, id: u32, e: Effect)
    requires Inv(x, y, dxy, dyx) && id in x.streams && e == OnFin(x.streams[id]).0
    requires var p := View(x, y, dxy, dyx, id); p.oy != [] && p.oy[0].Fin?
    ensures var p := View(x, y, dxy, dyx, id); PairInv(Pair(After(e), p.y, p.ox, p.oy[1..]), SettingOf(x, y, id))
  {
    LiveStream(x, y, dxy, dyx, id);
    FinPair(View(x, y, dxy, dyx, id), SettingOf(x, y, id), e);
  }

  lemma RstView(x: Conn, y: Conn, dxy: seq<Packet>, dyx: seq<Packet>, id: u32, e: Effect)
    requires Inv(x, y, dxy, dyx) && id in x.streams && e == OnRst(x.streams[id])
    requires var p := View(x, y, dxy, dyx, id); p.oy != [] && p.oy[0].Rst?
    ensures var p := View(x, y, dxy, dyx, id);
            PairInv(Pair(Gone(RecordOf(e.s)), p.y, p.ox, p.oy[1..]), SettingOf(x, y, id))
    ensures ValidStream(x.streams[id]) && e.s.closeReason.Some?
  {
    LiveStream(x, y, dxy, dyx, id);
    OnRstKept(x.streams[id]);
    RstPairLive(View(x, y, dxy, dyx, id), SettingOf(x, y, id), e);
  }

  lemma EndLands(x: Conn, x1: Conn, t: Conn, y: Conn, dxy: seq<Packet>, dyx: seq<Packet>, dyx': seq<Packet>, id: u32,
                 e: Effect)
    requires Turned(x, x1, y, dxy, dyx, dyx') && SameForOthers(y, dyx, dyx', id) && id in x.streams
    requires e.s.closeReason.Some? ==> t == x1.(streams := x1.streams - {id}, past := x1.past[id := RecordOf(e.s)])
    requires e.s.closeReason.None? ==> t == x1.(streams := x1.streams[id := e.s]) && e.s.queue == x.streams[id].queue
    requires var p := View(x, y, dxy, dyx, id);
             PairInv(Pair(After(e), p.y, p.ox, MsgsFor(id, Flight(y, dyx'))), SettingOf(x, y, id))
    ensures Inv(t, y, dxy, dyx')
  {
    if e.s.closeReason.Some? {
      KnownId(x, id);
      GoneArrival(x, x1, t, y, dxy, dyx, dyx', id, RecordOf(e.s));
    } else {
      UpdatedArrival(x, x1, t, y, dxy, dyx, dyx', id, e.s);
    }
  }

  lemma FinPair(p: Pair, c: Setting, e: Effect)
    requires PairInv(p, c) && p.oy != [] && p.oy[0].Fin? && p.x.Live? && e == OnFin(p.x.s).0
    ensures PairInv(Pair(After(e), p.y, p.ox, p.oy[1..]), c)
  {
    FinKeeps(p, c);
    OnFinKept(p.x.s);
    assert p.ox + MsgsOf(e.acts) == p.ox by { QuietMsgs(e.acts); }
  }

  lemma RstPairLive(p: Pair, c: Setting, e: Effect)
    requires PairInv(p, c) && p.oy != [] && p.oy[0].Rst? && p.x.Live? && e == OnRst(p.x.s)
    ensures PairInv(Pair(Gone(RecordOf(e.s)), p.y, p.ox, p.oy[1..]), c)
  {
    RstKeeps(p, c);
    OnRstKept(p.x.s);
    assert p.ox + MsgsOf(e.acts) == p.ox by { QuietMsgs(e.acts); }
  }

  lemma RstTable(x1: Conn, id: u32, s: Stream, e: Effect)
    requires id in x1.streams && x1.streams[id] == s && ValidStream(s) && e == OnRst(s)
    ensures ProcessRst(x1, id) == x1.(streams := x1.streams - {id}, past := x1.past[id := RecordOf(e.s)])
  {
    OnRstKept(s);
    QuietPerform(x1.(streams := x1.streams - {id}, past := x1.past[id := RecordOf(e.s)]), id, e.acts);
  }

  /** RST to a stream of the table. */
  lemma RstArrives(x: Conn, x1: Conn, y: Conn, dxy: seq<Packet>, dyx: seq<Packet>, id: u32)
    requires Taken(x, x1, y, dxy, dyx, PRst(id)) && id in x.streams
    ensures Inv(ProcessRst(x1, id), y, dxy, dyx[1..])
  {
    TakenMsg(y, dyx, PRst(id), id, Rst);
    var e := OnRst(x.streams[id]);
    RstView(x, y, dxy, dyx, id, e);
    RstTable(x1, id, x.streams[id], e);
    EndLands(x, x1, ProcessRst(x1, id), y, dxy, dyx, dyx[1..], id, e);
  }

  /** RST to a stream that waits for its acknowledgement. */
  lemma RefusalArrives(x: Conn, x1: Conn, y: Conn, dxy: seq<Packet>, dyx: seq<Packet>, id: u32)
    requires Taken(x, x1, y, dxy, dyx, PRst(id)) && id in x.opening
    ensures Inv(Forget(x1, id), y, dxy, dyx[1..])
  {
    TakenMsg(y, dyx, PRst(id), id, Rst);
    RefusedKeeps(View(x, y, dxy, dyx, id), SettingOf(x, y, id));
    KnownId(x, id);
    GoneArrival(x, x1, Forget(x1, id), y, dxy, dyx, dyx[1..], id, NOTHING);
  }
}
