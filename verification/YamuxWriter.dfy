/**
 * The sending side of a connection, seen by the peer: performing the calls of a stream appends exactly that
 * stream's messages to what is in flight, whether they go to the link, into the queue, or are lost with a closed
 * link; and a stream leaves the table exactly when it is closed.
 */
module YamuxWriter {
  import opened Basics
  import opened YamuxFrame
  import opened YamuxReader
  import opened YamuxStreamSpec
  import opened YamuxStreamRuns
  import opened YamuxPair
  import opened YamuxWire
  import opened YamuxConnections

  function MsgFor(id: u32, p: Packet): seq<Msg> {
    match p
    case PSyn(s) => if s == id then [Syn] else []
    case PAck(s) => if s == id then [Msg.Ack] else []
    case PFin(s) => if s == id then [Fin] else []
    case PRst(s) => if s == id then [Rst] else []
    case PData(s, d) => if s == id then [Data(d)] else []
    case PWin(s, n) => if s == id then [Win(n)] else []
    case _ => []
  }

  function MsgsFor(id: u32, ps: seq<Packet>): seq<Msg> {
    if ps == [] then [] else MsgFor(id, ps[0]) + MsgsFor(id, ps[1..])
  }

  lemma {:induction false} MsgsForAppend(id: u32, a: seq<Packet>, b: seq<Packet>)
    ensures MsgsFor(id, a + b) == MsgsFor(id, a) + MsgsFor(id, b)
  {
    if a == [] {
      assert a + b == b;
    } else {
      assert (a + b)[1..] == a[1..] + b;
      MsgsForAppend(id, a[1..], b);
      Assoc(MsgFor(id, a[0]), MsgsFor(id, a[1..]), MsgsFor(id, b));
    }
  }

  lemma MsgsForOne(id: u32, p: Packet)
    ensures MsgsFor(id, [p]) == MsgFor(id, p)
  {
    assert [p][1..] == [];
  }

  lemma {:induction false} SizesForAppend(id: u32, a: seq<Packet>, b: seq<Packet>)
    ensures SizesFor(id, a + b) == SizesFor(id, a) + SizesFor(id, b)
  {
    if a == [] {
      assert a + b == b;
    } else {
      assert (a + b)[1..] == a[1..] + b;
      SizesForAppend(id, a[1..], b);
      Assoc(if a[0].PData? && a[0].sid == id then [|a[0].data|] else [], SizesFor(id, a[1..]), SizesFor(id, b));
    }
  }

  /** Everything under way from `x`: what its peer will still read, then what never reached the link. */
  function Flight(x: Conn, due: seq<Packet>): seq<Packet> { due + x.dropped + x.queue }

  /** `t` is `x` with the packets `ps` sent after everything else; `due` becomes `due'`. */
  ghost predicate Sent(x: Conn, t: Conn, reader: Reader, chunk: seq<byte>, due: seq<Packet>, due': seq<Packet>,
                       ps: seq<Packet>) {
    && WriterInv(t) && Carries(reader, chunk + t.out, due')
    && Flight(t, due') == Flight(x, due) + ps
    && Unacked(t) == Unacked(x) + ps
  }

  lemma ToLink(x: Conn, p: Packet, reader: Reader, chunk: seq<byte>, due: seq<Packet>)
    requires WriterInv(x) && Carries(reader, chunk + x.out, due) && Sendable(p) && x.writing.Idle? && !x.linkClosed
    ensures Sent(x, SendPacket(x, p), reader, chunk, due, due + [p], [p])
  {
    var t := SendPacket(x, p);
    CarriesAppend(reader, chunk + x.out, due, p);
    Assoc(chunk, x.out, PacketBytes(p));
    assert Flight(x, due) == due && Flight(t, due + [p]) == due + [p];
    assert Unacked(x) == [] && Unacked(t) == [p];
  }

  lemma ToQueue(x: Conn, p: Packet, reader: Reader, chunk: seq<byte>, due: seq<Packet>)
    requires WriterInv(x) && Carries(reader, chunk + x.out, due) && Sendable(p) && (!x.writing.Idle? || x.linkClosed)
    ensures Sent(x, SendPacket(x, p), reader, chunk, due, due, [p])
  {
    var t := SendPacket(x, p);
    if x.writing.Idle? {
      assert x.queue == [] && t.dropped == x.dropped + [p];
      assert Flight(t, due) == Flight(x, due) + [p];
      assert Unacked(x) == [] && Unacked(t) == [p];
    } else {
      assert Flight(t, due) == Flight(x, due) + [p];
      assert Unacked(t) == Unacked(x) + [p];
    }
  }

  lemma EnqueueSends(x: Conn, p: Packet, reader: Reader, chunk: seq<byte>, due: seq<Packet>) returns (due': seq<Packet>)
    requires WriterInv(x) && Carries(reader, chunk + x.out, due) && Sendable(p)
    ensures Sent(x, SendPacket(x, p), reader, chunk, due, due', [p])
  {
    if x.writing.Idle? && !x.linkClosed {
      due' := due + [p];
      ToLink(x, p, reader, chunk, due);
    } else {
      due' := due;
      ToQueue(x, p, reader, chunk, due);
    }
  }

  function PacketFor(id: u32, a: Action): seq<Packet> {
    match a
    case SendData(data) => [PData(id, data)]
    case SendWindow(delta) => [PWin(id, ToU32(delta))]
    case SendRst => [PRst(id)]
    case SendFin(_) => [PFin(id)]
    case _ => []
  }

  function PacketsOf(id: u32, acts: seq<Action>): seq<Packet> {
    if acts == [] then [] else PacketFor(id, acts[0]) + PacketsOf(id, acts[1..])
  }

  /** The packet of an action can be sent and means the action's message. */
  predicate Fits(a: Action) {
    match a
    case SendData(data) => 0 < |data| < 0x1_0000_0000
    case SendWindow(delta) => delta < 0x1_0000_0000
    case _ => true
  }

  predicate AllFit(acts: seq<Action>) { forall i :: 0 <= i < |acts| ==> Fits(acts[i]) }

  lemma PacketMeans(id: u32, other: u32, a: Action)
    requires Fits(a)
    ensures MsgsOf([a]) == MsgsFor(id, PacketFor(id, a))
    ensures other != id ==> MsgsFor(other, PacketFor(id, a)) == [] && SizesFor(other, PacketFor(id, a)) == []
  {
    assert [a][1..] == [];
    var ps := PacketFor(id, a);
    if ps != [] {
      assert ps == [ps[0]] && ps[1..] == [];
      MsgsForOne(id, ps[0]);
      MsgsForOne(other, ps[0]);
    }
  }

  lemma {:induction false} MsgsOfAppend(a: seq<Action>, b: seq<Action>)
    ensures MsgsOf(a + b) == MsgsOf(a) + MsgsOf(b)
  {
    if a == [] {
      assert a + b == b;
    } else {
      assert (a + b)[1..] == a[1..] + b;
      MsgsOfAppend(a[1..], b);
    }
  }

  lemma {:induction false} PacketsMean(id: u32, other: u32, acts: seq<Action>)
    requires AllFit(acts)
    ensures MsgsFor(id, PacketsOf(id, acts)) == MsgsOf(acts)
    ensures other != id ==> MsgsFor(other, PacketsOf(id, acts)) == [] && SizesFor(other, PacketsOf(id, acts)) == []
  {
    if acts != [] {
      PacketsMean(id, other, acts[1..]);
      PacketMeans(id, other, acts[0]);
      assert acts == [acts[0]] + acts[1..];
      MsgsOfAppend([acts[0]], acts[1..]);
      MsgsForAppend(id, PacketFor(id, acts[0]), PacketsOf(id, acts[1..]));
      MsgsForAppend(other, PacketFor(id, acts[0]), PacketsOf(id, acts[1..]));
      SizesForAppend(other, PacketFor(id, acts[0]), PacketsOf(id, acts[1..]));
    }
  }

  /** Actions after which the connection erases the stream. */
  predicate Erasing(a: Action) { a.SendRst? || (a.SendFin? && a.closedForRead) }

  predicate Erases(acts: seq<Action>) { acts != [] && (Erasing(acts[0]) || Erases(acts[1..])) }

  /** Nothing is sent after an erasing action. */
  predicate Orderly(acts: seq<Action>) {
    acts != [] ==> if Erasing(acts[0]) then Quiet(acts[1..]) else Orderly(acts[1..])
  }

  lemma {:induction false} QuietPerform(c: Conn, id: u32, acts: seq<Action>)
    requires Quiet(acts)
    ensures PerformAll(c, id, acts) == c && PacketsOf(id, acts) == [] && !Erases(acts) && Orderly(acts)
    decreases |acts|
  {
    if acts != [] {
      assert Perform(c, id, acts[0]) == c;
      QuietPerform(c, id, acts[1..]);
    }
  }

  /** The tables after performing `acts`. */
  function Removed(c: Conn, id: u32, gone: bool): (map<u32, Stream>, map<u32, Record>) {
    if gone && id in c.streams then (c.streams - {id}, c.past[id := RecordOf(c.streams[id])]) else (c.streams, c.past)
  }

  predicate TablesAre(c: Conn, t: Conn, tables: (map<u32, Stream>, map<u32, Record>)) {
    t == c.(queue := t.queue, writing := t.writing, out := t.out, dropped := t.dropped, streams := tables.0,
      past := tables.1)
  }

  /** One action: its packet is sent, and an erasing one takes the stream out of the table. */
  lemma PerformOne(x: Conn, id: u32, a: Action, reader: Reader, chunk: seq<byte>, due: seq<Packet>)
    returns (due': seq<Packet>)
    requires WriterInv(x) && Carries(reader, chunk + x.out, due) && id != 0 && Fits(a) && id in x.streams
    ensures Sent(x, Perform(x, id, a), reader, chunk, due, due', PacketFor(id, a))
    ensures TablesAre(x, Perform(x, id, a), Removed(x, id, Erasing(a)))
  {
    hide Carries, PacketBytes, WriterInv, Unacked, Flight;
    if PacketFor(id, a) == [] {
      due' := due;
      assert Flight(x, due) + [] == Flight(x, due) && Unacked(x) + [] == Unacked(x);
    } else {
      var p := PacketFor(id, a)[0];
      due' := EnqueueSends(x, p, reader, chunk, due);
      assert PacketFor(id, a) == [p];
      SentErased(x, SendPacket(x, p), id, reader, chunk, due, due', [p]);
    }
  }

  lemma SentErased(x: Conn, t: Conn, id: u32, reader: Reader, chunk: seq<byte>, due: seq<Packet>, due': seq<Packet>,
                   ps: seq<Packet>)
    requires Sent(x, t, reader, chunk, due, due', ps)
    ensures Sent(x, Erase(t, id), reader, chunk, due, due', ps)
  {
  }

  lemma {:induction false} PerformSends(x: Conn, id: u32, acts: seq<Action>, reader: Reader, chunk: seq<byte>,
                                        due: seq<Packet>)
    returns (due': seq<Packet>)
    requires WriterInv(x) && Carries(reader, chunk + x.out, due) && id != 0 && AllFit(acts) && Orderly(acts) &&
             id in x.streams
    ensures Sent(x, PerformAll(x, id, acts), reader, chunk, due, due', PacketsOf(id, acts))
    ensures TablesAre(x, PerformAll(x, id, acts), Removed(x, id, Erases(acts)))
    decreases |acts|
  {
    if acts == [] {
      due' := due;
      assert Flight(x, due) + [] == Flight(x, due) && Unacked(x) + [] == Unacked(x);
    } else {
      var x1 := Perform(x, id, acts[0]);
      var due1 := PerformOne(x, id, acts[0], reader, chunk, due);
      if Erasing(acts[0]) {
        QuietPerform(x1, id, acts[1..]);
        due' := due1;
        assert PacketFor(id, acts[0]) + [] == PacketFor(id, acts[0]);
      } else {
        due' := PerformSends(x1, id, acts[1..], reader, chunk, due1);
        SentTrans(x, x1, PerformAll(x, id, acts), reader, chunk, due, due1, due', PacketFor(id, acts[0]),
          PacketsOf(id, acts[1..]));
      }
    }
  }

  lemma SentTrans(x: Conn, y: Conn, z: Conn, reader: Reader, chunk: seq<byte>,
                  d1: seq<Packet>, d2: seq<Packet>, d3: seq<Packet>, ps: seq<Packet>, qs: seq<Packet>)
    requires Sent(x, y, reader, chunk, d1, d2, ps) && Sent(y, z, reader, chunk, d2, d3, qs)
    ensures Sent(x, z, reader, chunk, d1, d3, ps + qs)
  {
    assert Flight(x, d1) + ps + qs == Flight(x, d1) + (ps + qs);
    assert Unacked(x) + ps + qs == Unacked(x) + (ps + qs);
  }
}
