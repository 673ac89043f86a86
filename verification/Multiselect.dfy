/**
 * Protocol negotiation (src/protocol_muxer/multiselect/multiselect_instance.cpp) at the level of messages: two
 * instances joined by a pair of reliable channels, any grouping of messages into reads, failures and timeouts at
 * any moment, and instances used again for later negotiations.
 */
module Multiselect {
  import opened Basics

  type Proto = string

  /**
   * The multistream opening, a protocol name, the refusal, and anything else, an opening of another version included.
   */
  datatype Token = Version | Name(p: Proto) | NA | Other

  datatype Cause = Violation | Exhausted | TimedOut | Broken

  datatype Result = Pending | Chosen(p: Proto) | Failed(cause: Cause)

  datatype Instance = Instance(
    initiator: bool,
    protocols: seq<Proto>,
    negotiated: bool,          // multistream_negotiated_
    waiting: bool,             // wait_for_protocol_reply_
    closed: bool,
    current: nat,              // current_protocol_
    reply: Option<nat>,        // wait_for_reply_sent_
    queue: seq<seq<Token>>,
    writing: bool,
    round: nat,
    result: Result,
    sent: seq<Token>)          // record of everything handed to the connection

  /** An instance that was never used. */
  const Idle := Instance(false, [], false, false, true, 0, None, [], false, 0, Pending, [])

  /** The new instance and what it hands to the connection. */
  datatype Turn = Turn(i: Instance, out: seq<Token>)

  function Send(i: Instance, packet: seq<Token>): Turn {
    if i.writing then Turn(i.(queue := i.queue + [packet]), [])
    else Turn(i.(writing := true, sent := i.sent + packet), packet)
  }

  function Close(i: Instance, r: Result): Instance {
    i.(closed := true, round := i.round + 1, queue := [], result := r)
  }

  function ProposalOf(i: Instance): seq<Token>
    requires i.current < |i.protocols|
  {
    if i.negotiated then [Name(i.protocols[i.current])] else [Version, Name(i.protocols[i.current])]
  }

  function Propose(i: Instance): Turn
    requires i.current < |i.protocols|
  {
    var t := Send(i, ProposalOf(i));
    t.(i := t.i.(waiting := true))
  }

  /** Everything but the round is set anew. */
  function Begun(i: Instance, protocols: seq<Proto>, initiator: bool, negotiate: bool): Instance {
    Instance(initiator, protocols, !negotiate, false, false, 0, None, [], false, i.round, Pending, [])
  }

  /** `selectOneOf` on a fresh or an idle instance. */
  function Select(i: Instance, protocols: seq<Proto>, initiator: bool, negotiate: bool): Turn
    requires protocols != []
  {
    var i1 := Begun(i, protocols, initiator, negotiate);
    if initiator then Propose(i1) else if negotiate then Send(i1, [Version]) else Turn(i1, [])
  }

  /** First index of `p`. */
  function IndexOf(ps: seq<Proto>, p: Proto): (r: Option<nat>)
    ensures r.Some? ==> r.value < |ps| && ps[r.value] == p
    ensures r.None? <==> p !in ps
  {
    if ps == [] then None
    else if ps[0] == p then Some(0)
    else match IndexOf(ps[1..], p)
      case None => None
      case Some(k) => Some(k + 1)
  }

  /** `handleProposal`; the result, if any, closes the instance. */
  function OnName(i: Instance, p: Proto): (Turn, Result) {
    if i.initiator then
      if i.waiting && i.current < |i.protocols| && i.protocols[i.current] == p then (Turn(i, []), Chosen(p))
      else (Turn(i, []), Failed(Violation))
    else
      match IndexOf(i.protocols, p)
      case Some(k) => (Send(i.(reply := Some(k), queue := []), [Name(p)]), Pending)
      case None => (if i.reply.None? then Send(i, [NA]) else Turn(i, []), Pending)
  }

  /** `handleNA`. */
  function OnNA(i: Instance): (Turn, Result) {
    if i.initiator then
      var i1 := i.(current := i.current + 1);
      if i1.current < |i1.protocols| then (Propose(i1), Pending) else (Turn(i1, []), Failed(Exhausted))
    else (Turn(i, []), Failed(Violation))
  }

  function OnToken(i: Instance, t: Token): (Turn, Result) {
    match t
    case Version => (Turn(i.(negotiated := true), []), Pending)
    case Name(p) => OnName(i, p)
    case NA => OnNA(i)
    case Other => (Turn(i, []), Failed(Violation))
  }

  /** `processMessages`: stops at the first message that decides. */
  function OnTokens(i: Instance, ts: seq<Token>): (Turn, Result)
    decreases |ts|
  {
    if ts == [] then (Turn(i, []), Pending)
    else
      var (t, r) := OnToken(i, ts[0]);
      if !r.Pending? then (t, r)
      else
        var (t2, r2) := OnTokens(t.i, ts[1..]);
        (Turn(t2.i, t.out + t2.out), r2)
  }

  /** `onDataRead` of a group of messages. */
  function OnRead(i: Instance, ts: seq<Token>): Turn {
    var (t, r) := OnTokens(i, ts);
    if r.Pending? then t else t.(i := Close(t.i, r))
  }

  /** Whether a read is outstanding. */
  predicate Reading(i: Instance) { !i.closed && i.reply.None? }

  /** `onDataWritten` with success. */
  function OnWritten(i: Instance): Turn {
    var i1 := i.(writing := false);
    if i.closed then Turn(i1, [])
    else if i.queue != [] then
      var t := Send(i1, i.queue[0]);
      t.(i := t.i.(queue := i.queue[1..]))
    else if i.reply.Some? && i.reply.value < |i.protocols| then Turn(Close(i1, Chosen(i.protocols[i.reply.value])), [])
    else Turn(i1, [])
  }

  // ---------------------------------------------------------------------------------------------
  // Two instances.

  /** `toB` and `toA` are on their way; `a` is the initiator of the current negotiation. */
  datatype System = System(a: Instance, b: Instance, toB: seq<Token>, toA: seq<Token>)

  datatype Event =
    | Begin(initiator: seq<Proto>, listener: seq<Proto>, negotiateA: bool, negotiateB: bool)
    | Deliver(toA: bool, count: nat)
    | Written(byA: bool, round: nat)
    | Fail(atA: bool, cause: Cause)   // timeout, failed read, failed write

  predicate Enabled(s: System, e: Event) {
    match e
    case Begin(ps, qs, _, _) => s.a.closed && s.b.closed && ps != [] && qs != []
    case Deliver(true, n) => Reading(s.a) && 0 < n <= |s.toA|
    case Deliver(false, n) => Reading(s.b) && 0 < n <= |s.toB|
    case Written(true, r) => r <= s.a.round && (r == s.a.round ==> s.a.writing)
    case Written(false, r) => r <= s.b.round && (r == s.b.round ==> s.b.writing)
    case Fail(true, c) => !s.a.closed && (c.TimedOut? || c.Broken?)
    case Fail(false, c) => !s.b.closed && (c.TimedOut? || c.Broken?)
  }

  /** A completion of an earlier round finds another round current and is ignored. */
  function Step(s: System, e: Event): System
    requires Enabled(s, e)
  {
    match e
    case Begin(ps, qs, na, nb) =>
      var (a, b) := (Select(s.a, ps, true, na), Select(s.b, qs, false, nb));
      System(a.i, b.i, a.out, b.out)
    case Deliver(true, n) =>
      var t := OnRead(s.a, s.toA[..n]);
      s.(a := t.i, toA := s.toA[n..], toB := s.toB + t.out)
    case Deliver(false, n) =>
      var t := OnRead(s.b, s.toB[..n]);
      s.(b := t.i, toB := s.toB[n..], toA := s.toA + t.out)
    case Written(true, r) =>
      if r != s.a.round then s else var t := OnWritten(s.a); s.(a := t.i, toB := s.toB + t.out)
    case Written(false, r) =>
      if r != s.b.round then s else var t := OnWritten(s.b); s.(b := t.i, toA := s.toA + t.out)
    case Fail(true, c) => s.(a := Close(s.a, Failed(c)))
    case Fail(false, c) => s.(b := Close(s.b, Failed(c)))
  }

  const Fresh := System(Idle, Idle, [], [])

  predicate IsRun(s: System, es: seq<Event>)
    decreases |es|
  {
    es != [] ==> Enabled(s, es[0]) && IsRun(Step(s, es[0]), es[1..])
  }

  function Final(s: System, es: seq<Event>): System
    requires IsRun(s, es)
    decreases |es|
  {
    if es == [] then s else Final(Step(s, es[0]), es[1..])
  }

  // ---------------------------------------------------------------------------------------------
  // What is on its way, openings aside.

  function Talk(ts: seq<Token>): seq<Token> {
    if ts == [] then [] else (if ts[0].Version? then [] else [ts[0]]) + Talk(ts[1..])
  }

  lemma {:induction false} TalkAppend(a: seq<Token>, b: seq<Token>)
    ensures Talk(a + b) == Talk(a) + Talk(b)
  {
    if a == [] {
      assert a + b == b;
    } else {
      assert (a + b)[1..] == a[1..] + b;
      TalkAppend(a[1..], b);
      Assoc(if a[0].Version? then [] else [a[0]], Talk(a[1..]), Talk(b));
    }
  }

  /** What the peer of `i` will still see of it: on the wire, then queued. */
  function Coming(wire: seq<Token>, i: Instance): seq<Token> { Talk(wire + Concat(i.queue)) }

  /** The protocol under discussion. */
  predicate About(a: Instance, p: Proto) { a.current < |a.protocols| && a.protocols[a.current] == p }

  predicate AllNo(a: Instance, b: Instance) {
    a.current <= |a.protocols| && forall j :: 0 <= j < a.current ==> a.protocols[j] !in b.protocols
  }

  /** A queued packet carries one answer or proposal, and only while a write is under way. */
  predicate QueueOk(i: Instance) {
    && (forall k :: 0 <= k < |i.queue| ==> |Talk(i.queue[k])| == 1)
    && (i.queue != [] ==> i.writing)
    && (i.closed ==> i.queue == [])
  }

  /**
   * The listener's answer is decided: its echo is the last thing it says, and a write is under way until it is
   * closed.
   */
  predicate Echoing(b: Instance) {
    b.reply.Some? && !b.result.Failed? ==>
      var all := Talk(b.sent + Concat(b.queue));
      && b.reply.value < |b.protocols| && all != [] && all[|all| - 1] == Name(b.protocols[b.reply.value])
      && (b.closed || b.writing)
  }

  predicate InitiatorOk(a: Instance) {
    && a.initiator && a.reply.None? && QueueOk(a) && a.current <= |a.protocols|
    && (!a.closed ==> a.result.Pending? && a.waiting && a.current < |a.protocols|)
    && (a.closed ==> !a.result.Pending?) && a.result != Failed(Violation)
    && (a.result.Chosen? ==> About(a, a.result.p))
    && (a.result == Failed(Exhausted) ==> a.current == |a.protocols|)
  }

  predicate ListenerOk(b: Instance) {
    && !b.initiator && QueueOk(b) && Echoing(b) && (b.reply.Some? ==> b.reply.value < |b.protocols|)
    && (b.closed <==> !b.result.Pending?) && b.result != Failed(Violation)
    && (b.result.Chosen? ==> b.reply.Some? && b.result.p == b.protocols[b.reply.value] && !b.writing)
  }

  /** Of the two directions together, at most one message that matters is on its way, and it fits both sides' state. */
  predicate Dialogue(a: Instance, b: Instance, n: seq<Token>, r: seq<Token>) {
    && AllNo(a, b) && |n| + |r| <= 1
    && (n != [] ==>
      a.current < |a.protocols| && n == [Name(a.protocols[a.current])] && b.reply.None? && !a.result.Chosen?)
    && (r == [NA] ==>
      a.current < |a.protocols| && a.protocols[a.current] !in b.protocols && b.reply.None? && !a.result.Chosen?)
    && (r != [] && r != [NA] ==>
      b.reply.Some? && b.reply.value < |b.protocols| && r == [Name(b.protocols[b.reply.value])] && !a.result.Chosen?)
    && (b.reply.Some? ==> b.reply.value < |b.protocols| && About(a, b.protocols[b.reply.value]) && n == [])
    && (a.result.Chosen? ==> b.reply.Some?)
    && (!a.closed && !b.result.Failed? ==> |n| + |r| == 1)
  }

  predicate Negotiating(s: System) {
    InitiatorOk(s.a) && ListenerOk(s.b) && Dialogue(s.a, s.b, Coming(s.toB, s.a), Coming(s.toA, s.b))
  }

  predicate Inv(s: System) { s == Fresh || Negotiating(s) }

  // ---------------------------------------------------------------------------------------------
  // Sending.

  lemma SendComing(i: Instance, wire: seq<Token>, packet: seq<Token>)
    requires QueueOk(i)
    ensures var t := Send(i, packet);
            && Coming(wire + t.out, t.i) == Coming(wire, i) + Talk(packet)
            && Talk(t.i.sent + Concat(t.i.queue)) == Talk(i.sent + Concat(i.queue)) + Talk(packet)
  {
    ConcatAppend(i.queue, [packet]);
    assert Concat([packet]) == packet by { assert [packet][1..] == [] && packet + [] == packet; }
    TalkAppend(wire + Concat(i.queue), packet);
    TalkAppend(i.sent + Concat(i.queue), packet);
    if i.writing {
      Assoc(wire, Concat(i.queue), packet);
      Assoc(i.sent, Concat(i.queue), packet);
      assert wire + [] == wire;
    } else {
      assert wire + [] == wire && wire + packet + [] == wire + packet;
      assert i.sent + [] == i.sent && i.sent + packet + [] == i.sent + packet;
    }
  }

  lemma SendQueue(i: Instance, packet: seq<Token>)
    requires QueueOk(i) && |Talk(packet)| == 1 && !i.closed
    ensures QueueOk(Send(i, packet).i)
  {
  }

  /** With nothing coming, nothing is queued. */
  lemma NothingQueued(i: Instance, wire: seq<Token>)
    requires QueueOk(i) && Coming(wire, i) == []
    ensures i.queue == []
  {
    TalkAppend(wire, Concat(i.queue));
    if i.queue != [] {
      TalkAppend(i.queue[0], Concat(i.queue[1..]));
    }
  }

  lemma TakeComing(wire: seq<Token>, i: Instance)
    requires wire != []
    ensures Coming(wire, i) == (if wire[0].Version? then [] else [wire[0]]) + Coming(wire[1..], i)
  {
    assert (wire + Concat(i.queue))[1..] == wire[1..] + Concat(i.queue);
  }

  lemma TalkOfProposal(i: Instance)
    requires i.current < |i.protocols|
    ensures Talk(ProposalOf(i)) == [Name(i.protocols[i.current])]
  {
    var p := Name(i.protocols[i.current]);
    TalkOne(p);
    assert [Version, p][1..] == [p];
  }

  lemma TalkOne(t: Token)
    requires !t.Version?
    ensures Talk([t]) == [t]
  {
    assert [t][1..] == [];
  }

  // ---------------------------------------------------------------------------------------------
  // One message at the initiator.

  /** The system after the initiator took the first message on its wire. */
  function AfterA(s: System, t: Turn): System
    requires s.toA != []
  {
    s.(a := t.i, toA := s.toA[1..], toB := s.toB + t.out)
  }

  lemma NameAtA(s: System)
    requires Negotiating(s) && !s.a.closed && s.toA != [] && s.toA[0].Name?
    ensures OnName(s.a, s.toA[0].p) == (Turn(s.a, []), Chosen(s.toA[0].p))
    ensures Negotiating(s.(a := Close(s.a, Chosen(s.toA[0].p)), toA := s.toA[1..]))
  {
    TakeComing(s.toA, s.b);
    var n, r := Coming(s.toB, s.a), Coming(s.toA, s.b);
    assert r == [s.toA[0]] && n == [];
    NothingQueued(s.a, s.toB);
  }

  lemma NAAtA(s: System)
    requires Negotiating(s) && !s.a.closed && s.toA != [] && s.toA[0].NA?
    ensures var (t, r) := OnNA(s.a);
            if r.Pending? then Negotiating(AfterA(s, t))
            else r == Failed(Exhausted) && t.out == [] && Negotiating(s.(a := Close(t.i, r), toA := s.toA[1..]))
  {
    TakeComing(s.toA, s.b);
    assert Coming(s.toA, s.b) == [NA] && Coming(s.toB, s.a) == [] && Coming(s.toA[1..], s.b) == [];
    if s.a.current + 1 < |s.a.protocols| { NextProposal(s); } else { NoMoreProposals(s); }
  }

  lemma NoMoreProposals(s: System)
    requires Negotiating(s) && !s.a.closed && s.toA != [] && s.a.current + 1 == |s.a.protocols|
    requires Coming(s.toA, s.b) == [NA] && Coming(s.toB, s.a) == [] && Coming(s.toA[1..], s.b) == []
    ensures Negotiating(s.(a := Close(s.a.(current := s.a.current + 1), Failed(Exhausted)), toA := s.toA[1..]))
  {
    NothingQueued(s.a, s.toB);
  }

  lemma NextProposal(s: System)
    requires Negotiating(s) && !s.a.closed && s.toA != [] && s.toA[0].NA? && s.a.current + 1 < |s.a.protocols|
    requires Coming(s.toA, s.b) == [NA] && Coming(s.toB, s.a) == [] && Coming(s.toA[1..], s.b) == []
    ensures Negotiating(AfterA(s, Propose(s.a.(current := s.a.current + 1))))
  {
    var i := s.a.(current := s.a.current + 1);
    var t := Propose(i);
    assert QueueOk(t.i) && Coming(s.toB + t.out, t.i) == [Name(i.protocols[i.current])] by {
      TalkOfProposal(i);
      SendComing(i, s.toB, ProposalOf(i));
      SendQueue(i, ProposalOf(i));
    }
    ProposedAgain(s, t);
  }

  lemma ProposedAgain(s: System, t: Turn)
    requires Negotiating(s) && !s.a.closed && s.toA != [] && s.toA[0].NA? && Coming(s.toA, s.b) == [NA] &&
             Coming(s.toA[1..], s.b) == []
    requires s.a.current + 1 < |s.a.protocols| && QueueOk(t.i)
    requires t.i == s.a.(current := s.a.current + 1, waiting := true, queue := t.i.queue, writing := t.i.writing,
             sent := t.i.sent)
    requires Coming(s.toB + t.out, t.i) == [Name(t.i.protocols[t.i.current])]
    ensures Negotiating(AfterA(s, t))
  {
  }

  lemma VersionAtA(s: System)
    requires Negotiating(s) && s.toA != [] && s.toA[0].Version?
    ensures Negotiating(s.(a := s.a.(negotiated := true), toA := s.toA[1..]))
  {
    TakeComing(s.toA, s.b);
    assert [] + Coming(s.toA[1..], s.b) == Coming(s.toA[1..], s.b);
  }

  // ---------------------------------------------------------------------------------------------
  // One message at the listener.

  function AfterB(s: System, t: Turn): System
    requires s.toB != []
  {
    s.(b := t.i, toB := s.toB[1..], toA := s.toA + t.out)
  }

  lemma VersionAtB(s: System)
    requires Negotiating(s) && s.toB != [] && s.toB[0].Version?
    ensures Negotiating(s.(b := s.b.(negotiated := true), toB := s.toB[1..]))
  {
    TakeComing(s.toB, s.a);
    assert [] + Coming(s.toB[1..], s.a) == Coming(s.toB[1..], s.a);
  }

  /** A proposal arrives while the listener has said all it had to say: clearing its queue drops nothing. */
  lemma ProposalFindsEmptyQueue(s: System)
    requires Negotiating(s) && s.toB != [] && !s.toB[0].Version?
    ensures s.b.queue == [] && s.b.reply.None? && Coming(s.toA, s.b) == [] && Coming(s.toB[1..], s.a) == []
    ensures s.a.current < |s.a.protocols| && s.toB[0] == Name(s.a.protocols[s.a.current])
  {
    TakeComing(s.toB, s.a);
    assert Coming(s.toB, s.a)[0] == s.toB[0];
    NothingQueued(s.b, s.toA);
  }

  /** The listener answers with one message. */
  lemma Answered(s: System, b1: Instance, m: Token)
    requires Negotiating(s) && s.toB != [] && !s.b.closed && !m.Version?
    requires s.b.queue == [] && s.b.reply.None? && Coming(s.toA, s.b) == [] && Coming(s.toB[1..], s.a) == []
    requires s.a.current < |s.a.protocols| && !s.a.result.Chosen? && b1 == s.b.(reply := b1.reply)
    requires if b1.reply.None? then m == NA && s.a.protocols[s.a.current] !in s.b.protocols
             else
               && b1.reply.value < |s.b.protocols| && s.b.protocols[b1.reply.value] == s.a.protocols[s.a.current]
               && m == Name(s.a.protocols[s.a.current])
    ensures Negotiating(AfterB(s, Send(b1, [m])))
  {
    TalkOne(m);
    SendComing(b1, s.toA, [m]);
    SendQueue(b1, [m]);
    var t := Send(b1, [m]);
    AnsweredEcho(b1, t.i, m);
    assert Coming(s.toA + t.out, t.i) == [m];
  }

  lemma AnsweredEcho(b1: Instance, b2: Instance, m: Token)
    requires b2 == b1.(queue := b2.queue, writing := b2.writing, sent := b2.sent) && b2.writing
    requires Talk(b2.sent + Concat(b2.queue)) == Talk(b1.sent + Concat(b1.queue)) + [m]
    requires b1.reply.Some? ==> b1.reply.value < |b1.protocols| && m == Name(b1.protocols[b1.reply.value])
    ensures Echoing(b2)
  {
  }

  lemma NameAtB(s: System)
    requires Negotiating(s) && !s.b.closed && s.toB != [] && !s.toB[0].Version?
    ensures s.toB[0].Name? && OnName(s.b, s.toB[0].p).1.Pending? && Negotiating(AfterB(s, OnName(s.b, s.toB[0].p).0))
  {
    assert !s.a.result.Chosen? by { TakeComing(s.toB, s.a); }
    ProposalFindsEmptyQueue(s);
    match IndexOf(s.b.protocols, s.toB[0].p)
    case Some(k) =>
      var b1 := s.b.(reply := Some(k));
      assert s.b.(reply := Some(k), queue := []) == b1;
      Answered(s, b1, s.toB[0]);
    case None => Answered(s, s.b, NA);
  }

  // ---------------------------------------------------------------------------------------------
  // A group of messages.

  /** The system after the initiator processed the group `ts` at the front of its wire. */
  function ReadA(s: System, ts: seq<Token>): System
    requires |ts| <= |s.toA|
  {
    var t := OnRead(s.a, ts);
    s.(a := t.i, toA := s.toA[|ts|..], toB := s.toB + t.out)
  }

  lemma DropQuiet(wire: seq<Token>, k: nat, i: Instance)
    requires k <= |wire| && Coming(wire, i) == []
    ensures Coming(wire[k..], i) == []
  {
    assert wire + Concat(i.queue) == wire[..k] + (wire[k..] + Concat(i.queue));
    TalkAppend(wire[..k], wire[k..] + Concat(i.queue));
  }

  /** A message that decides: the rest of the group is dropped, and was of no importance. */
  lemma DecidedAtA(s: System, ts: seq<Token>, i: Instance)
    requires ts != [] && |ts| <= |s.toA| && !s.toA[0].Version? && Negotiating(s)
    requires Negotiating(s.(a := i, toA := s.toA[1..])) && i.closed
    ensures Negotiating(s.(a := i, toA := s.toA[|ts|..]))
  {
    TakeComing(s.toA, s.b);
    DropQuiet(s.toA[1..], |ts| - 1, s.b);
    assert s.toA[1..][|ts| - 1..] == s.toA[|ts|..];
  }

  /** The first message of a group. */
  lemma FirstAtA(s: System, ts: seq<Token>)
    requires Negotiating(s) && !s.a.closed && ts != [] && |ts| <= |s.toA| && ts == s.toA[..|ts|]
    ensures var (t, r) := OnToken(s.a, ts[0]);
            if r.Pending? then Negotiating(AfterA(s, t)) && !t.i.closed
            else t.out == [] && Negotiating(s.(a := Close(t.i, r), toA := s.toA[|ts|..]))
  {
    var (t, r) := OnToken(s.a, ts[0]);
    if ts[0].Version? {
      VersionAtA(s);
      assert s.toB + [] == s.toB;
    } else if ts[0].NA? {
      NAAtA(s);
      if !r.Pending? { DecidedAtA(s, ts, Close(t.i, r)); }
    } else {
      NoOtherAtA(s);
      NameAtA(s);
      DecidedAtA(s, ts, Close(t.i, r));
    }
  }

  lemma NoOtherAtA(s: System)
    requires Negotiating(s) && !s.a.closed && s.toA != []
    ensures !s.toA[0].Other?
  {
    TakeComing(s.toA, s.b);
    var r := Coming(s.toA, s.b);
    assert !s.toA[0].Version? ==> r != [] && r[0] == s.toA[0];
  }

  lemma {:induction false} ReadAKeeps(s: System, ts: seq<Token>)
    requires Negotiating(s) && !s.a.closed && |ts| <= |s.toA| && ts == s.toA[..|ts|]
    ensures Negotiating(ReadA(s, ts))
    decreases |ts|
  {
    assert s.toB + [] == s.toB;
    if ts == [] {
      assert s.toA[0..] == s.toA;
    } else {
      var (t, r) := OnToken(s.a, ts[0]);
      FirstAtA(s, ts);
      if r.Pending? {
        var s1 := AfterA(s, t);
        assert ts[1..] == s1.toA[..|ts| - 1];
        ReadAKeeps(s1, ts[1..]);
        ReadAJoin(s, s1, ts, t);
      }
    }
  }

  lemma ReadAJoin(s: System, s1: System, ts: seq<Token>, t: Turn)
    requires ts != [] && |ts| <= |s.toA| && OnToken(s.a, ts[0]) == (t, Pending) && s1 == AfterA(s, t)
    ensures ReadA(s1, ts[1..]) == ReadA(s, ts)
  {
    var (t2, r2) := OnTokens(t.i, ts[1..]);
    Assoc(s.toB, t.out, t2.out);
    assert s.toA[1..][|ts| - 1..] == s.toA[|ts|..];
  }

  function ReadB(s: System, ts: seq<Token>): System
    requires |ts| <= |s.toB|
  {
    var t := OnRead(s.b, ts);
    s.(b := t.i, toB := s.toB[|ts|..], toA := s.toA + t.out)
  }

  lemma {:induction false} ReadBKeeps(s: System, ts: seq<Token>)
    requires Negotiating(s) && !s.b.closed && |ts| <= |s.toB| && ts == s.toB[..|ts|]
    ensures Negotiating(ReadB(s, ts))
    decreases |ts|
  {
    if ts == [] {
      assert s.toB[0..] == s.toB && s.toA + [] == s.toA;
    } else {
      var (t, r) := OnToken(s.b, ts[0]);
      assert s.toA + [] == s.toA;
      if ts[0].Version? { VersionAtB(s); } else { NameAtB(s); }
      var s1 := AfterB(s, t);
      assert ts[1..] == s1.toB[..|ts| - 1];
      ReadBKeeps(s1, ts[1..]);
      ReadBJoin(s, s1, ts, t);
    }
  }

  lemma ReadBJoin(s: System, s1: System, ts: seq<Token>, t: Turn)
    requires ts != [] && |ts| <= |s.toB| && OnToken(s.b, ts[0]) == (t, Pending) && s1 == AfterB(s, t)
    ensures ReadB(s1, ts[1..]) == ReadB(s, ts)
  {
    var (t2, r2) := OnTokens(t.i, ts[1..]);
    Assoc(s.toA, t.out, t2.out);
    assert s.toB[1..][|ts| - 1..] == s.toB[|ts|..];
  }

  // ---------------------------------------------------------------------------------------------
  // Completed writes, failures, new negotiations.

  lemma QueueMoves(i: Instance, wire: seq<Token>)
    requires QueueOk(i) && i.queue != [] && !i.closed
    ensures var t := OnWritten(i);
            && QueueOk(t.i) && Coming(wire + t.out, t.i) == Coming(wire, i)
            && Talk(t.i.sent + Concat(t.i.queue)) == Talk(i.sent + Concat(i.queue))
            && t.i == i.(queue := t.i.queue, writing := true, sent := t.i.sent)
  {
    Assoc(wire, i.queue[0], Concat(i.queue[1..]));
    Assoc(i.sent, i.queue[0], Concat(i.queue[1..]));
  }

  lemma WrittenA(s: System)
    requires Negotiating(s) && s.a.writing
    ensures var t := OnWritten(s.a); Negotiating(s.(a := t.i, toB := s.toB + t.out))
  {
    assert s.toB + [] == s.toB;
    if s.a.queue != [] { QueueMoves(s.a, s.toB); }
  }

  lemma WrittenB(s: System)
    requires Negotiating(s) && s.b.writing
    ensures var t := OnWritten(s.b); Negotiating(s.(b := t.i, toA := s.toA + t.out))
  {
    hide Coming, Talk;
    assert s.toA + [] == s.toA;
    if s.b.queue != [] { QueueMoves(s.b, s.toA); } else { IdleB(s); }
  }

  lemma IdleB(s: System)
    requires Negotiating(s) && s.b.writing && s.b.queue == []
    ensures Negotiating(s.(b := OnWritten(s.b).i)) && OnWritten(s.b).out == []
  {
  }

  /** Dropping its queue, an instance takes back at most the end of what was coming. */
  lemma QueueDropped(wire: seq<Token>, i: Instance)
    ensures Talk(wire) <= Coming(wire, i) && Coming(wire, i.(queue := [])) == Talk(wire)
  {
    TalkAppend(wire, Concat(i.queue));
    assert wire + [] == wire;
  }

  lemma FailA(s: System, c: Cause)
    requires Negotiating(s) && !s.a.closed && (c.TimedOut? || c.Broken?)
    ensures Negotiating(s.(a := Close(s.a, Failed(c))))
  {
    QueueDropped(s.toB, s.a);
    assert Coming(s.toB, Close(s.a, Failed(c))) == Talk(s.toB);
  }

  lemma FailB(s: System, c: Cause)
    requires Negotiating(s) && !s.b.closed && (c.TimedOut? || c.Broken?)
    ensures Negotiating(s.(b := Close(s.b, Failed(c))))
  {
    QueueDropped(s.toA, s.b);
    assert Coming(s.toA, Close(s.b, Failed(c))) == Talk(s.toA);
  }

  lemma BeginKeeps(s: System, ps: seq<Proto>, qs: seq<Proto>, na: bool, nb: bool)
    requires ps != [] && qs != []
    ensures var (a, b) := (Select(s.a, ps, true, na), Select(s.b, qs, false, nb));
            Negotiating(System(a.i, b.i, a.out, b.out))
  {
    var (a, b) := (Select(s.a, ps, true, na), Select(s.b, qs, false, nb));
    TalkOfProposal(a.i.(negotiated := !na));
    assert a.out + [] == a.out && b.out + [] == b.out;
    assert Talk([Version]) == [] by { assert [Version][1..] == []; }
  }

  lemma StepKeeps(s: System, e: Event)
    requires Inv(s) && Enabled(s, e)
    ensures Inv(Step(s, e))
  {
    match e
    case Begin(ps, qs, na, nb) => BeginKeeps(s, ps, qs, na, nb);
    case Deliver(true, n) => ReadAKeeps(s, s.toA[..n]);
    case Deliver(false, n) => ReadBKeeps(s, s.toB[..n]);
    case Written(true, r) => if r == s.a.round { WrittenA(s); }
    case Written(false, r) => if r == s.b.round { WrittenB(s); }
    case Fail(true, c) => FailA(s, c);
    case Fail(false, c) => FailB(s, c);
  }

  lemma {:induction false} RunKeeps(s: System, es: seq<Event>)
    requires Inv(s) && IsRun(s, es)
    ensures Inv(Final(s, es))
    decreases |es|
  {
    if es != [] {
      StepKeeps(s, es[0]);
      RunKeeps(Step(s, es[0]), es[1..]);
    }
  }

  // ---------------------------------------------------------------------------------------------
  // What every run guarantees.

  /** The initiator ends with its first protocol the listener supports, and that is what the listener chose. */
  lemma Agreement(es: seq<Event>)
    requires IsRun(Fresh, es)
    ensures var s := Final(Fresh, es);
            s.a.result.Chosen? ==>
              && s.a.current < |s.a.protocols| && s.a.protocols[s.a.current] == s.a.result.p
              && s.a.result.p in s.b.protocols
              && (forall j :: 0 <= j < s.a.current ==> s.a.protocols[j] !in s.b.protocols)
              && s.b.reply.Some? && s.b.reply.value < |s.b.protocols| && s.b.protocols[s.b.reply.value] == s.a.result.p
              && (s.b.result.Chosen? ==> s.b.result.p == s.a.result.p)
  {
    RunKeeps(Fresh, es);
  }

  /** The listener succeeds only after its echo, the last thing it says, was written, and with a proposed protocol. */
  lemma SuccessAfterEcho(es: seq<Event>)
    requires IsRun(Fresh, es)
    ensures var s := Final(Fresh, es);
            s.b.result.Chosen? ==>
              && !s.b.writing && s.b.queue == []
              && Talk(s.b.sent) != [] && Talk(s.b.sent)[|Talk(s.b.sent)| - 1] == Name(s.b.result.p)
              && s.b.result.p in s.a.protocols && s.b.result.p in s.b.protocols
  {
    RunKeeps(Fresh, es);
    var s := Final(Fresh, es);
    if s.b.result.Chosen? { EchoWritten(s.b); }
  }

  lemma EchoWritten(b: Instance)
    requires ListenerOk(b) && b.result.Chosen?
    ensures Talk(b.sent) != [] && Talk(b.sent)[|Talk(b.sent)| - 1] == Name(b.result.p)
  {
    assert b.sent + [] == b.sent;
  }

  /** Two such instances never accuse each other, and the initiator gives up only if nothing is supported. */
  lemma OnlyHonestFailures(es: seq<Event>)
    requires IsRun(Fresh, es)
    ensures var s := Final(Fresh, es);
            && s.a.result != Failed(Violation) && s.b.result != Failed(Violation)
            && (s.a.result == Failed(Exhausted) ==>
              forall j :: 0 <= j < |s.a.protocols| ==> s.a.protocols[j] !in s.b.protocols)
  {
    RunKeeps(Fresh, es);
  }

  /**
   * A negotiation cannot get stuck: with nothing on its way and no write under way, a side is still open only if the
   * other one failed, and then only its timer or the end of the connection can end it.
   */
  lemma NeverStuck(es: seq<Event>)
    requires IsRun(Fresh, es)
    requires var s := Final(Fresh, es); s.toA == [] && s.toB == [] && !s.a.writing && !s.b.writing
    ensures var s := Final(Fresh, es);
            && (!s.a.closed ==> s.b.closed && s.b.result.Failed?)
            && (!s.b.closed ==> s.a.closed && s.a.result.Failed?)
            && (s.a.result.Chosen? ==> s.b.closed)
  {
    RunKeeps(Fresh, es);
    var s := Final(Fresh, es);
    if s != Fresh {
      assert s.a.queue == [] && s.b.queue == [];
      assert Coming(s.toB, s.a) == [] && Coming(s.toA, s.b) == [];
    }
  }
}
