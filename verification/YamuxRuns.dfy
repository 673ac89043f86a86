/**
 * Every run of two Yamux connections joined by reliable byte channels: any interleaving of the two sides'
 * application calls, timers, write completions and failures, and reads that cut the bytes anywhere.
 */
module YamuxRuns {
  import opened Basics
  import opened YamuxFrame
  import YamuxReader
  import opened YamuxStreamSpec
  import opened YamuxStreamRuns
  import opened YamuxPair
  import opened YamuxConnections
  import opened YamuxSystem
  import opened YamuxSteps
  import opened YamuxCompletion
  import opened YamuxTurns

  datatype Move =
    | Dial(wait: bool)                       // newStream, with or without a handler
    | Call(id: u32, call: YamuxStreamRuns.Event)  // the application uses a stream of the table
    | StaleReset(id: u32)                    // reset() on a stream object that already left the table
    | Drop(id: u32)                          // the cleanup timer finds a stream nobody holds
    | Ping(value: u32)
    | Shutdown(reply: Option<u32>)           // close(), the inactivity timer, a failed read
    | WriteOk
    | WriteError
    | Receive(count: nat)
    | Turn

  /** `x` acts, `y` is its peer. */
  predicate Enabled(x: Conn, y: Conn, m: Move) {
    match m
    case Dial(_) => x.newId + 2 < 0x1_0000_0000
    case Call(id, ev) => id in x.streams && AppCall(ev) && Allowed(x.streams[id], ev) && ValidStream(x.streams[id])
    case StaleReset(id) => id in x.past
    case Drop(id) => id in x.streams
    case Ping(_) => x.started
    case Shutdown(_) => true
    case WriteOk => x.writing.Busy?
    case WriteError => x.writing.Busy?
    case Receive(n) => x.started && x.chunk == [] && n <= |y.out|
    case Turn => x.started && x.chunk != [] && YamuxReader.ValidReader(x.reader) && x.reader.Reader?
  }

  function Act(x: Conn, y: Conn, m: Move): (Conn, Conn)
    requires Enabled(x, y, m)
  {
    match m
    case Dial(wait) => (Open(x, wait), y)
    case Call(id, ev) => (Apply(x, id, Step(x.streams[id], ev)), y)
    case StaleReset(id) => (Erase(SendPacket(x, PRst(id)), id), y)
    case Drop(id) => (Abandon(x, id), y)
    case Ping(v) => (SendPacket(x, PPing(v)), y)
    case Shutdown(reply) => (CloseConn(x, reply), y)
    case WriteOk => (WriteDone(x), y)
    case WriteError => (WriteFailed(x), y)
    case Receive(n) => (x.(chunk := y.out[..n]), y.(out := y.out[n..]))
    case Turn => (ReadStep(x), y)
  }

  datatype System = System(a: Conn, b: Conn)

  datatype Label = Label(left: bool, move: Move)

  predicate CanStep(s: System, l: Label) { if l.left then Enabled(s.a, s.b, l.move) else Enabled(s.b, s.a, l.move) }

  function Next(s: System, l: Label): System
    requires CanStep(s, l)
  {
    if l.left then var (a, b) := Act(s.a, s.b, l.move); System(a, b)
    else var (b, a) := Act(s.b, s.a, l.move); System(a, b)
  }

  predicate IsRun(s: System, ls: seq<Label>)
    decreases |ls|
  {
    ls != [] ==> CanStep(s, ls[0]) && IsRun(Next(s, ls[0]), ls[1..])
  }

  function Final(s: System, ls: seq<Label>): System
    requires IsRun(s, ls)
    decreases |ls|
  {
    if ls == [] then s else Final(Next(s, ls[0]), ls[1..])
  }

  function Start(ca: Config, cb: Config, ha: bool, hb: bool): System {
    System(NewConn(ca, true, ha), NewConn(cb, false, hb))
  }

  ghost predicate Good(s: System) {
    exists dxy: seq<Packet>, dyx: seq<Packet> :: Inv(s.a, s.b, dxy, dyx)
  }

  lemma StartGood(ca: Config, cb: Config, ha: bool, hb: bool)
    requires ValidConfig(ca) && ValidConfig(cb)
    ensures Good(Start(ca, cb, ha, hb))
  {
    var s := Start(ca, cb, ha, hb);
    assert Unacked(s.a) == [] && Unacked(s.b) == [] && [] + s.a.out == [] && [] + s.b.out == [];
    forall id: u32 | id != 0
      ensures PairInv(View(s.a, s.b, [], [], id), SettingOf(s.a, s.b, id))
    {
      assert View(s.a, s.b, [], [], id) == Pair(Absent, Absent, [], []);
    }
    assert Inv(s.a, s.b, [], []);
  }

  /** Any move of either side keeps the invariant, for suitable packets in flight. */
  lemma ActKeeps(x: Conn, y: Conn, dxy: seq<Packet>, dyx: seq<Packet>, m: Move)
    returns (dxy': seq<Packet>, dyx': seq<Packet>)
    requires Inv(x, y, dxy, dyx) && Enabled(x, y, m)
    ensures Inv(Act(x, y, m).0, Act(x, y, m).1, dxy', dyx')
  {
    dxy', dyx' := dxy, dyx;
    match m
    case Dial(wait) => dxy' := OpenStep(x, Open(x, wait), y, dxy, dyx, wait);
    case Call(id, ev) => dxy' := AppStep(x, y, dxy, dyx, id, ev, x.streams[id]);
    case StaleReset(id) => dxy' := RstStep(x, y, dxy, dyx, id);
    case Drop(id) => dxy' := RstStep(x, y, dxy, dyx, id);
    case Ping(v) => dxy' := SendOther(x, y, PPing(v), dxy, dyx);
    case Shutdown(reply) => dxy' := CloseStep(x, y, dxy, dyx, reply);
    case WriteOk => dxy' := WriteDoneStep(x, y, dxy, dyx);
    case WriteError => WriteFailedStep(x, y, dxy, dyx);
    case Receive(n) => ReceiveStep(x, y, dxy, dyx, n);
    case Turn => dxy', dyx' := TurnStep(x, y, dxy, dyx);
  }

  lemma StepGood(s: System, l: Label)
    requires Good(s) && CanStep(s, l)
    ensures Good(Next(s, l))
  {
    var dxy, dyx :| Inv(s.a, s.b, dxy, dyx);
    if l.left {
      var dxy', dyx' := ActKeeps(s.a, s.b, dxy, dyx, l.move);
    } else {
      SwapSides(s.a, s.b, dxy, dyx);
      var dyx', dxy' := ActKeeps(s.b, s.a, dyx, dxy, l.move);
      SwapSides(Next(s, l).b, Next(s, l).a, dyx', dxy');
    }
  }

  lemma {:induction false} RunGood(s: System, ls: seq<Label>)
    requires Good(s) && IsRun(s, ls)
    ensures Good(Final(s, ls))
    decreases |ls|
  {
    if ls != [] {
      StepGood(s, ls[0]);
      RunGood(Next(s, ls[0]), ls[1..]);
    }
  }
}
