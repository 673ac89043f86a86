/**
 * One negotiating instance facing any peer, honest or not: what the initiator ends with and says depends on the
 * messages it gets and on nothing else, however they are grouped into reads and whenever its writes complete; and
 * what a listener answers to each message.
 */
module MultiselectPeer {
  import opened Basics
  import opened Multiselect

  // ---------------------------------------------------------------------------------------------
  // The initiator.

  /** What a peer's messages, openings aside, make of the protocols still to be proposed, the first of which is. */
  function Verdict(ps: seq<Proto>, ts: seq<Token>): Result {
    if ts == [] || ps == [] then Pending
    else if ts[0] == NA then if |ps| == 1 then Failed(Exhausted) else Verdict(ps[1..], ts[1..])
    else if ts[0] == Name(ps[0]) then Chosen(ps[0])
    else Failed(Violation)
  }

  /** All that an instance has said or is about to say, openings aside. */
  function Said(i: Instance): seq<Token> { Talk(i.sent + Concat(i.queue)) }

  function Names(ps: seq<Proto>): seq<Token> { seq(|ps|, k requires 0 <= k < |ps| => Name(ps[k])) }

  predicate Proposing(i: Instance) {
    i.initiator && i.waiting && i.current < |i.protocols| && (i.queue != [] ==> i.writing)
  }

  lemma SendSays(i: Instance, packet: seq<Token>)
    requires i.queue != [] ==> i.writing
    ensures var t := Send(i, packet).i; Said(t) == Said(i) + Talk(packet) && t.writing
  {
    if i.writing {
      ConcatAppend(i.queue, [packet]);
      assert Concat([packet]) == packet + Concat([]) == packet by { assert [packet][1..] == []; }
      Assoc(i.sent, Concat(i.queue), packet);
      TalkAppend(i.sent + Concat(i.queue), packet);
    } else {
      assert i.sent + packet + [] == i.sent + packet && i.sent + [] == i.sent;
      TalkAppend(i.sent, packet);
    }
  }

  lemma NextProposal(i: Instance)
    requires Proposing(i) && i.current + 1 < |i.protocols|
    ensures var t := Propose(i.(current := i.current + 1)).i;
            && Proposing(t) && t.protocols == i.protocols && t.current == i.current + 1
            && Said(t) == Said(i) + [Name(i.protocols[i.current + 1])]
  {
    var i1 := i.(current := i.current + 1);
    TalkOfProposal(i1);
    SendSays(i1, ProposalOf(i1));
  }

  /** What the messages of one read lead to: the verdict on what is left to propose, and the proposals it takes. */
  predicate Led(i: Instance, ts: seq<Token>, t: Instance, r: Result) {
    && i.current < |i.protocols| && r == Verdict(i.protocols[i.current..], Talk(ts))
    && (r.Pending? ==>
          && Proposing(t) && t.protocols == i.protocols && t.current == i.current + |Talk(ts)|
          && Said(t) == Said(i) + Names(i.protocols[i.current + 1..t.current + 1]))
  }

  lemma TalkCons(ts: seq<Token>)
    requires ts != []
    ensures ts[0].Version? ==> Talk(ts) == Talk(ts[1..])
    ensures !ts[0].Version? ==> Talk(ts) != [] && Talk(ts)[0] == ts[0] && Talk(ts)[1..] == Talk(ts[1..])
  {
    if ts[0].Version? { assert [] + Talk(ts[1..]) == Talk(ts[1..]); }
  }

  /** The messages of one read. */
  lemma {:induction false} InitiatorTokens(i: Instance, ts: seq<Token>)
    requires Proposing(i)
    ensures Led(i, ts, OnTokens(i, ts).0.i, OnTokens(i, ts).1)
    decreases |ts|
  {
    hide Said, Propose, Names, Led;
    if ts == [] {
      LedNowhere(i);
    } else if ts[0].Version? {
      var i1 := i.(negotiated := true);
      InitiatorTokens(i1, ts[1..]);
      LedByOpening(i, i1, ts, OnTokens(i, ts).0.i, OnTokens(i, ts).1);
    } else if ts[0].NA? && i.current + 1 < |i.protocols| {
      NextProposal(i);
      var i1 := Propose(i.(current := i.current + 1)).i;
      InitiatorTokens(i1, ts[1..]);
      LedByRefusal(i, i1, ts, OnTokens(i, ts).0.i, OnTokens(i, ts).1);
    } else {
      Decides(i, ts);
    }
  }

  lemma LedNowhere(i: Instance)
    requires Proposing(i)
    ensures Led(i, [], i, Pending)
  {
    assert i.protocols[i.current + 1..i.current + 1] == [];
    assert Names([]) == [] && Said(i) + [] == Said(i);
  }

  lemma LedByOpening(i: Instance, i1: Instance, ts: seq<Token>, t: Instance, r: Result)
    requires Proposing(i) && i1 == i.(negotiated := true) && ts != [] && ts[0].Version? && Led(i1, ts[1..], t, r)
    ensures Led(i, ts, t, r)
  {
    hide Talk, Names;
    TalkCons(ts);
  }

  lemma LedByRefusal(i: Instance, i1: Instance, ts: seq<Token>, t: Instance, r: Result)
    requires Proposing(i) && ts != [] && ts[0].NA? && Led(i1, ts[1..], t, r) && i1.protocols == i.protocols
    requires i1.current == i.current + 1 < |i.protocols| && Said(i1) == Said(i) + [Name(i.protocols[i1.current])]
    ensures Led(i, ts, t, r)
  {
    hide Talk, Names, Said;
    TalkCons(ts);
    assert i.protocols[i.current..][1..] == i.protocols[i1.current..];
    if r.Pending? { NamesJoin(i.protocols, i.current + 1, t.current + 1, Said(i)); }
  }

  /** A message that decides. */
  lemma Decides(i: Instance, ts: seq<Token>)
    requires Proposing(i) && ts != [] && !ts[0].Version? && !(ts[0].NA? && i.current + 1 < |i.protocols|)
    ensures Led(i, ts, OnTokens(i, ts).0.i, OnTokens(i, ts).1)
  {
    TalkCons(ts);
  }

  lemma NamesJoin(ps: seq<Proto>, k: nat, n: nat, said: seq<Token>)
    requires k < n <= |ps|
    ensures said + [Name(ps[k])] + Names(ps[k + 1..n]) == said + Names(ps[k..n])
  {
    assert Names(ps[k..n]) == [Name(ps[k])] + Names(ps[k + 1..n]);
    Assoc(said, [Name(ps[k])], Names(ps[k + 1..n]));
  }

  /** A completed write says nothing new. */
  lemma WrittenSays(i: Instance)
    requires Proposing(i) && i.writing && !i.closed && i.reply.None?
    ensures var t := OnWritten(i).i;
            && Proposing(t) && t.protocols == i.protocols && t.current == i.current && Said(t) == Said(i)
            && !t.closed && t.reply.None? && t.result == i.result
  {
    if i.queue != [] {
      assert Concat(i.queue) == i.queue[0] + Concat(i.queue[1..]);
      Assoc(i.sent, i.queue[0], Concat(i.queue[1..]));
    }
  }

  /** What happens to an instance: messages arrive, or its write completes. */
  datatype Input = Got(ts: seq<Token>) | Wrote

  predicate CanTake(i: Instance, x: Input) { if x.Got? then Reading(i) else i.writing && !i.closed }

  function Take(i: Instance, x: Input): Instance { if x.Got? then OnRead(i, x.ts).i else OnWritten(i).i }

  predicate CanTakeAll(i: Instance, xs: seq<Input>)
    decreases |xs|
  {
    xs != [] ==> CanTake(i, xs[0]) && CanTakeAll(Take(i, xs[0]), xs[1..])
  }

  function TakeAll(i: Instance, xs: seq<Input>): Instance
    requires CanTakeAll(i, xs)
    decreases |xs|
  {
    if xs == [] then i else TakeAll(Take(i, xs[0]), xs[1..])
  }

  /** All messages that came, openings aside. */
  function Heard(xs: seq<Input>): seq<Token> {
    if xs == [] then [] else (if xs[0].Got? then Talk(xs[0].ts) else []) + Heard(xs[1..])
  }

  /** Only refusals so far, or the matter is decided. */
  predicate Standing(ps: seq<Proto>, heard: seq<Token>, i: Instance) {
    && i.protocols == ps && i.result == Verdict(ps, heard) && (i.closed <==> !i.result.Pending?)
    && (!i.closed ==>
          && Proposing(i) && i.reply.None? && i.current == |heard| && (forall k :: 0 <= k < |heard| ==> heard[k] == NA)
          && Said(i) == Names(ps[..|heard| + 1]))
  }

  lemma {:induction false} VerdictSplits(ps: seq<Proto>, a: seq<Token>, b: seq<Token>)
    requires |a| < |ps| && forall k :: 0 <= k < |a| ==> a[k] == NA
    ensures Verdict(ps, a).Pending? && Verdict(ps, a + b) == Verdict(ps[|a|..], b)
    decreases |a|
  {
    if a == [] {
      assert a + b == b && ps[0..] == ps;
    } else {
      assert (a + b)[0] == a[0] && (a + b)[1..] == a[1..] + b;
      VerdictSplits(ps[1..], a[1..], b);
      assert ps[1..][|a| - 1..] == ps[|a|..];
    }
  }

  lemma {:induction false} PendingIsRefusals(ps: seq<Proto>, ts: seq<Token>)
    requires ps != [] && Verdict(ps, ts).Pending?
    ensures |ts| < |ps| && forall k :: 0 <= k < |ts| ==> ts[k] == NA
    decreases |ts|
  {
    if ts != [] {
      PendingIsRefusals(ps[1..], ts[1..]);
      assert forall k :: 1 <= k < |ts| ==> ts[k] == ts[1..][k - 1];
    }
  }

  lemma TokensKeepReply(i: Instance, ts: seq<Token>)
    requires Proposing(i) && i.reply.None? && !i.closed
    ensures var t := OnTokens(i, ts).0.i;
            t.reply.None? && !t.closed && t.result == i.result && t.protocols == i.protocols
    decreases |ts|
  {
    if ts != [] {
      var (t, r) := OnToken(i, ts[0]);
      if r.Pending? {
        if ts[0].NA? { NextProposal(i); }
        TokensKeepReply(t.i, ts[1..]);
      }
    }
  }

  lemma StandingGot(ps: seq<Proto>, heard: seq<Token>, i: Instance, ts: seq<Token>)
    requires Standing(ps, heard, i) && Reading(i)
    ensures Standing(ps, heard + Talk(ts), OnRead(i, ts).i)
  {
    hide Said, Talk, Verdict, Proposing;
    hide OnTokens;
    InitiatorTokens(i, ts);
    TokensKeepReply(i, ts);
    VerdictSplits(ps, heard, Talk(ts));
    var (t, r) := OnTokens(i, ts);
    if r.Pending? {
      var n := |heard| + |Talk(ts)|;
      PendingIsRefusals(ps, heard + Talk(ts));
      assert Names(ps[..n + 1]) == Names(ps[..|heard| + 1]) + Names(ps[|heard| + 1..n + 1]);
    }
  }

  lemma StandingWrote(ps: seq<Proto>, heard: seq<Token>, i: Instance)
    requires Standing(ps, heard, i) && i.writing && !i.closed
    ensures Standing(ps, heard, OnWritten(i).i)
  {
    WrittenSays(i);
  }

  lemma {:induction false} RunStands(ps: seq<Proto>, heard: seq<Token>, i: Instance, xs: seq<Input>)
    requires Standing(ps, heard, i) && CanTakeAll(i, xs)
    ensures Standing(ps, heard + Heard(xs), TakeAll(i, xs))
    decreases |xs|
  {
    hide Standing, OnRead, OnWritten;
    if xs == [] {
      assert heard + [] == heard;
    } else {
      var more := if xs[0].Got? then Talk(xs[0].ts) else [];
      if xs[0].Got? {
        StandingGot(ps, heard, i, xs[0].ts);
      } else {
        StandingWrote(ps, heard, i);
        assert heard + [] == heard;
      }
      RunStands(ps, heard + more, Take(i, xs[0]), xs[1..]);
      Assoc(heard, more, Heard(xs[1..]));
    }
  }

  lemma BeginsStanding(i: Instance, ps: seq<Proto>, negotiate: bool)
    requires ps != []
    ensures Standing(ps, [], Select(i, ps, true, negotiate).i)
  {
    var i1 := Begun(i, ps, true, negotiate);
    TalkOfProposal(i1);
    SendSays(i1, ProposalOf(i1));
    assert [] + [Name(ps[0])] == [Name(ps[0])] && Names(ps[..1]) == [Name(ps[0])];
    assert Said(i1) == [];
  }

  /**
   * An initiator facing any peer. Its result is the one its peer's messages call for: the protocol whose name comes
   * back after refusals of exactly those before it, exhaustion after as many refusals as it has protocols, and a
   * violation otherwise. Until then it has proposed one protocol more than were refused, in order.
   */
  lemma InitiatorExactly(i: Instance, ps: seq<Proto>, negotiate: bool, xs: seq<Input>)
    requires ps != [] && CanTakeAll(Select(i, ps, true, negotiate).i, xs)
    ensures var t, heard := TakeAll(Select(i, ps, true, negotiate).i, xs), Heard(xs);
            && t.result == Verdict(ps, heard) && (t.closed <==> !t.result.Pending?)
            && (t.result.Pending? ==> |heard| < |ps| && Said(t) == Names(ps[..|heard| + 1]))
  {
    hide Select, Standing;
    BeginsStanding(i, ps, negotiate);
    RunStands(ps, [], Select(i, ps, true, negotiate).i, xs);
    assert [] + Heard(xs) == Heard(xs);
    Stands(ps, Heard(xs), TakeAll(Select(i, ps, true, negotiate).i, xs));
  }

  lemma Stands(ps: seq<Proto>, heard: seq<Token>, t: Instance)
    requires Standing(ps, heard, t)
    ensures t.result == Verdict(ps, heard) && (t.closed <==> !t.result.Pending?)
    ensures t.result.Pending? ==> |heard| < |ps| && Said(t) == Names(ps[..|heard| + 1])
  {
  }

  /** What an instance begins with: the opening if it is to be negotiated, and the initiator's first proposal. */
  lemma BeginsWith(i: Instance, ps: seq<Proto>, initiator: bool, negotiate: bool)
    requires ps != []
    ensures Select(i, ps, initiator, negotiate).out
         == (if negotiate then [Version] else []) + if initiator then [Name(ps[0])] else []
  {
  }

  /** The opening goes with every proposal until the peer's own opening has come. */
  lemma {:induction false} OpenedExactly(i: Instance, ts: seq<Token>)
    requires Proposing(i) && OnTokens(i, ts).1.Pending?
    ensures OnTokens(i, ts).0.i.negotiated == (i.negotiated || Version in ts)
    decreases |ts|
  {
    if ts != [] {
      assert ts == [ts[0]] + ts[1..];
      if ts[0].NA? { NextProposal(i); }
      OpenedExactly(OnToken(i, ts[0]).0.i, ts[1..]);
    }
  }

  lemma ProposalPacket(i: Instance)
    requires i.current < |i.protocols|
    ensures var t, packet := Propose(i), (if i.negotiated then [] else [Version]) + [Name(i.protocols[i.current])];
            if i.writing then t.out == [] && t.i.queue == i.queue + [packet]
            else t.out == packet && t.i.sent == i.sent + packet && t.i.writing
  {
    var name := [Name(i.protocols[i.current])];
    assert [] + name == name && [Version] + name == [Version, name[0]];
  }

  // ---------------------------------------------------------------------------------------------
  // The listener.

  /** A listener that has accepted nothing yet. */
  predicate Listening(b: Instance) { !b.initiator && Reading(b) && (b.queue != [] ==> b.writing) }

  /** What a listener says to names it does not know, openings aside. */
  function Refusing(n: nat): seq<Token> { seq(n, k => NA) }

  predicate Unknown(qs: seq<Proto>, ts: seq<Token>) {
    forall k :: 0 <= k < |ts| ==> ts[k].Version? || (ts[k].Name? && ts[k].p !in qs)
  }

  lemma {:induction false} ListenerRefuses(b: Instance, ts: seq<Token>, rest: seq<Token>)
    requires Listening(b) && Unknown(b.protocols, ts)
    ensures var (t, r) := OnTokens(b, ts);
            && r.Pending? && Listening(t.i) && t.i.protocols == b.protocols && t.i.result == b.result
            && Said(t.i) == Said(b) + Refusing(|Talk(ts)|)
            && OnTokens(b, ts + rest).0.i == OnTokens(t.i, rest).0.i
            && OnTokens(b, ts + rest).1 == OnTokens(t.i, rest).1
    decreases |ts|
  {
    if ts == [] {
      assert [] + rest == rest && Refusing(0) == [] && Said(b) + [] == Said(b);
    } else {
      var b1 := OnToken(b, ts[0]).0.i;
      assert (ts + rest)[0] == ts[0] && (ts + rest)[1..] == ts[1..] + rest;
      if ts[0].Name? {
        SendSays(b, [NA]);
        assert Talk([NA]) == [NA] by { TalkOne(NA); }
      }
      ListenerRefuses(b1, ts[1..], rest);
      var n := |Talk(ts[1..])|;
      if ts[0].Name? {
        assert [NA] + Refusing(n) == Refusing(n + 1);
        Assoc(Said(b), [NA], Refusing(n));
      } else {
        assert Talk(ts) == [] + Talk(ts[1..]) == Talk(ts[1..]);
      }
    }
  }

  /**
   * A listener facing any peer. It answers every name it does not know with a refusal; the first one it knows with that
   * name, as the last thing it says; and takes a refusal, or anything that is no name, for a violation.
   */
  lemma ListenerExactly(b: Instance, ts: seq<Token>, last: Token, rest: seq<Token>)
    requires Listening(b) && Unknown(b.protocols, ts) && !last.Version? && !(last.Name? && last.p !in b.protocols)
    ensures last.Name? ==>
              var t := OnRead(b, ts + [last]).i;
              && !t.closed && t.reply.Some? && t.reply.value < |b.protocols| && b.protocols[t.reply.value] == last.p
              && Said(t) != [] && Said(t)[|Said(t)| - 1] == last && t.writing
    ensures !last.Name? ==>
              OnRead(b, ts + ([last] + rest)).i.closed && OnRead(b, ts + ([last] + rest)).i.result == Failed(Violation)
  {
    ListenerRefuses(b, ts, [last]);
    ListenerRefuses(b, ts, [last] + rest);
    var b1 := OnTokens(b, ts).0.i;
    assert ([last] + rest)[0] == last && [last][1..] == [];
    if last.Name? {
      var b2 := b1.(reply := IndexOf(b1.protocols, last.p), queue := []);
      SendSays(b2, [last]);
      TalkOne(last);
    }
  }
}
