/**
 * Two Yamux connections over a pair of reliable byte channels. Every step of either connection, with any
 * application behind it and any cut of the bytes into reads, projects for every stream id onto a step of the
 * two-end protocol of YamuxPair, so its invariant holds in every reachable state.
 */
module YamuxSystem {
  import opened Basics
  import opened YamuxFrame
  import opened YamuxReader
  import opened YamuxStreamSpec
  import opened YamuxPair
  import opened YamuxWire
  import opened YamuxConnections
  import opened YamuxWriter
  import opened YamuxEvents

  /** Stream `id` as the two connections and the packets between them show it. */
  function View(x: Conn, y: Conn, dxy: seq<Packet>, dyx: seq<Packet>, id: u32): Pair {
    Pair(EndOf(x, id), EndOf(y, id), MsgsFor(id, Flight(x, dxy)), MsgsFor(id, Flight(y, dyx)))
  }

  function SettingOf(x: Conn, y: Conn, id: u32): Setting {
    Setting(IsOutbound(x.newId, id), x.cfg.maxWindow, y.cfg.maxWindow)
  }

  /** `dxy` and `dyx` are the packets still due at `y` and at `x`. */
  ghost predicate Inv(x: Conn, y: Conn, dxy: seq<Packet>, dyx: seq<Packet>) {
    && ConnInv(x) && ConnInv(y)
    && Carries(y.reader, y.chunk + x.out, dxy) && Carries(x.reader, x.chunk + y.out, dyx)
    && x.newId % 2 != y.newId % 2
    && (forall id: u32 :: id != 0 ==> PairInv(View(x, y, dxy, dyx, id), SettingOf(x, y, id)))
  }

  lemma SwapSides(x: Conn, y: Conn, dxy: seq<Packet>, dyx: seq<Packet>)
    requires Inv(x, y, dxy, dyx)
    ensures Inv(y, x, dyx, dxy)
  {
    forall id: u32 | id != 0
      ensures PairInv(View(y, x, dyx, dxy, id), SettingOf(y, x, id))
    {
      SwapInv(View(x, y, dxy, dyx, id), SettingOf(x, y, id));
      assert SettingOf(y, x, id) == SwapSetting(SettingOf(x, y, id));
    }
  }

  /**
   * `t` is `x` after a step that concerns stream `id` only: its end is now `e` and it sent the messages `ms`.
   * The table, writer and acknowledgement invariants hold again.
   */
  ghost predicate Moved(x: Conn, t: Conn, y: Conn, dxy: seq<Packet>, dxy': seq<Packet>, id: u32, e: End, ms: seq<Msg>) {
    && TableInv(t) && WriterInv(t) && AckInv(t)
    && Carries(y.reader, y.chunk + t.out, dxy') && t.newId % 2 == x.newId % 2 && t.cfg == x.cfg
    && EndOf(t, id) == e && MsgsFor(id, Flight(t, dxy')) == MsgsFor(id, Flight(x, dxy)) + ms
    && (forall other: u32 :: other != id ==>
          EndOf(t, other) == EndOf(x, other) && MsgsFor(other, Flight(t, dxy')) == MsgsFor(other, Flight(x, dxy)))
  }

  /** Streams other than `id` have the same messages under way from `y`. */
  ghost predicate SameForOthers(y: Conn, dyx: seq<Packet>, dyx': seq<Packet>, id: u32) {
    forall other: u32 :: other != id ==> MsgsFor(other, Flight(y, dyx')) == MsgsFor(other, Flight(y, dyx))
  }

  lemma InvAgain(x: Conn, t: Conn, y: Conn, dxy: seq<Packet>, dxy': seq<Packet>, dyx: seq<Packet>, dyx': seq<Packet>,
                 id: u32, e: End, ms: seq<Msg>)
    requires Inv(x, y, dxy, dyx) && Moved(x, t, y, dxy, dxy', id, e, ms) && SameForOthers(y, dyx, dyx', id)
    requires ValidReader(t.reader) && Carries(t.reader, t.chunk + y.out, dyx')
    requires id != 0 ==> var p := View(x, y, dxy, dyx, id);
                         PairInv(Pair(e, p.y, p.ox + ms, MsgsFor(id, Flight(y, dyx'))), SettingOf(x, y, id))
    ensures Inv(t, y, dxy', dyx')
  {
    forall other: u32 | other != 0
      ensures PairInv(View(t, y, dxy', dyx', other), SettingOf(t, y, other))
    {
      assert PairInv(View(x, y, dxy, dyx, other), SettingOf(x, y, other));
      if other != id {
        assert View(t, y, dxy', dyx', other) == View(x, y, dxy, dyx, other);
      } else {
        var p := View(x, y, dxy, dyx, id);
        assert View(t, y, dxy', dyx', other) == Pair(e, p.y, p.ox + ms, MsgsFor(id, Flight(y, dyx')));
      }
    }
  }

  /** The packets sent for `id` are messages of `id` only. */
  lemma FlightGrows(x: Conn, t: Conn, dxy: seq<Packet>, dxy': seq<Packet>, ps: seq<Packet>, id: u32)
    requires Flight(t, dxy') == Flight(x, dxy) + ps
    ensures MsgsFor(id, Flight(t, dxy')) == MsgsFor(id, Flight(x, dxy)) + MsgsFor(id, ps)
  {
    MsgsForAppend(id, Flight(x, dxy), ps);
  }

  // ---------------------------------------------------------------------------------------------
  // An event on a stream of the table.

  /** Only the entry of `id` changed: it holds `e.s`, or the stream is closed and left the table. */
  ghost predicate TableStep(x: Conn, t: Conn, id: u32, e: Effect) {
    && (forall other: u32 :: other in t.streams ==> other in x.streams)
    && (forall other: u32 :: other in t.streams && other != id ==> t.streams[other] == x.streams[other])
    && (id in t.streams ==> t.streams[id] == e.s && e.s.closeReason.None?)
    && (forall other: u32 :: other in x.streams || other in x.past ==> other in t.streams || other in t.past)
  }

  lemma ApplyTable(x: Conn, t: Conn, id: u32, e: Effect)
    requires TableInv(x) && id in x.streams && Clean(e)
    requires TablesAre(x.(streams := x.streams[id := e.s]), t,
             Removed(x.(streams := x.streams[id := e.s]), id, Erases(e.acts)))
    ensures TableInv(t) && TableStep(x, t, id, e)
    ensures EndOf(t, id) == After(e) && forall other: u32 :: other != id ==> EndOf(t, other) == EndOf(x, other)
  {
    assert x.started;
  }

  lemma ApplyAcks(x: Conn, t: Conn, id: u32, e: Effect, ps: seq<Packet>)
    requires AckInv(x) && id in x.streams && Tracks(x.streams[id], e, SizesFor(id, Unacked(x))) &&
             TableStep(x, t, id, e)
    requires Unacked(t) == Unacked(x) + ps && SizesFor(id, ps) == DataSizes(e.acts)
    requires forall other: u32 :: other != id ==> SizesFor(other, ps) == []
    ensures AckInv(t)
  {
    forall other: u32
      ensures AckOf(t, other)
    {
      assert AckOf(x, other);
      SizesForAppend(other, Unacked(x), ps);
      assert SizesFor(other, Unacked(x)) + [] == SizesFor(other, Unacked(x));
    }
  }

  lemma ApplyFlight(x: Conn, t: Conn, id: u32, acts: seq<Action>, dxy: seq<Packet>, dxy': seq<Packet>, other: u32)
    requires AllFit(acts) && Flight(t, dxy') == Flight(x, dxy) + PacketsOf(id, acts)
    ensures MsgsFor(other, Flight(t, dxy')) == MsgsFor(other, Flight(x, dxy)) + if other == id then MsgsOf(acts) else []
    ensures other != id ==> SizesFor(other, PacketsOf(id, acts)) == []
  {
    PacketsMean(id, other, acts);
    FlightGrows(x, t, dxy, dxy', PacketsOf(id, acts), other);
  }

  lemma ApplyMoves(x: Conn, y: Conn, id: u32, e: Effect, dxy: seq<Packet>) returns (dxy': seq<Packet>)
    requires TableInv(x) && WriterInv(x) && AckInv(x) && Carries(y.reader, y.chunk + x.out, dxy)
    requires id in x.streams && Clean(e) && AllFit(e.acts) && Tracks(x.streams[id], e, SizesFor(id, Unacked(x)))
    ensures Moved(x, Apply(x, id, e), y, dxy, dxy', id, After(e), MsgsOf(e.acts))
    ensures Apply(x, id, e).reader == x.reader && Apply(x, id, e).chunk == x.chunk
  {
    var x1, t := x.(streams := x.streams[id := e.s]), Apply(x, id, e);
    dxy' := PerformSends(x1, id, e.acts, y.reader, y.chunk, dxy);
    ApplyMoved(x, t, y, id, e, dxy, dxy');
  }

  lemma ApplyMoved(x: Conn, t: Conn, y: Conn, id: u32, e: Effect, dxy: seq<Packet>, dxy': seq<Packet>)
    requires TableInv(x) && AckInv(x) && id in x.streams && Clean(e) && AllFit(e.acts)
    requires Tracks(x.streams[id], e, SizesFor(id, Unacked(x)))
    requires var x1 := x.(streams := x.streams[id := e.s]);
             Sent(x1, t, y.reader, y.chunk, dxy, dxy', PacketsOf(id, e.acts)) &&
               TablesAre(x1, t, Removed(x1, id, Erases(e.acts)))
    ensures Moved(x, t, y, dxy, dxy', id, After(e), MsgsOf(e.acts))
  {
    var ps := PacketsOf(id, e.acts);
    ApplyTable(x, t, id, e);
    forall other: u32
      ensures other != id ==> SizesFor(other, ps) == []
      ensures MsgsFor(other, Flight(t, dxy')) == MsgsFor(other, Flight(x, dxy)) + if other == id then MsgsOf(e.acts)
              else []
    {
      ApplyFlight(x, t, id, e.acts, dxy, dxy', other);
    }
    assert AckInv(t) by {
      PacketSizes(id, e.acts);
      ApplyAcks(x, t, id, e, ps);
    }
  }
}
