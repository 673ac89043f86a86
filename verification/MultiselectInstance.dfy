/** The negotiation instance as an object, proved against the functions of Multiselect. */
module MultiselectObjects {
  import opened Basics
  import opened Multiselect

  /** Methods yield what they hand to the connection. */
  class MultiselectInstance {
    var isInitiator: bool
    var protocols: seq<Proto>
    var multistreamNegotiated: bool
    var waitForProtocolReply: bool
    var closed: bool
    var currentProtocol: nat
    var waitForReplySent: Option<nat>
    var writeQueue: seq<seq<Token>>
    var isWriting: bool
    var currentRound: nat
    var result: Result
    ghost var sent: seq<Token>

    ghost function State(): Instance
      reads this
    {
      Instance(isInitiator, protocols, multistreamNegotiated, waitForProtocolReply, closed, currentProtocol,
               waitForReplySent, writeQueue, isWriting, currentRound, result, sent)
    }

    constructor ()
      ensures State() == Idle
    {
      isInitiator, protocols, multistreamNegotiated, waitForProtocolReply, closed := false, [], false, false, true;
      currentProtocol, waitForReplySent, writeQueue, isWriting, currentRound, result, sent := 0, None, [], false, 0,
        Pending, [];
    }

    method SelectOneOf(names: seq<Proto>, initiator: bool, negotiate: bool) returns (out: seq<Token>)
      requires names != []
      modifies this
      ensures Turn(State(), out) == Select(old(State()), names, initiator, negotiate)
    {
      Reset(names, initiator, negotiate);
      out := [];
      if isInitiator {
        var ok;
        ok, out := SendProposal();
      } else if negotiate {
        out := SendPacket([Version]);
      }
    }

    method Reset(names: seq<Proto>, initiator: bool, negotiate: bool)
      modifies this
      ensures State() == Begun(old(State()), names, initiator, negotiate)
    {
      protocols, isInitiator, multistreamNegotiated := names, initiator, !negotiate;
      waitForProtocolReply, closed, currentProtocol := false, false, 0;
      waitForReplySent, writeQueue, isWriting, result, sent := None, [], false, Pending, [];
    }

    method SendPacket(packet: seq<Token>) returns (out: seq<Token>)
      modifies `writeQueue, `isWriting, `sent
      ensures Turn(State(), out) == Send(old(State()), packet)
    {
      if isWriting {
        writeQueue := writeQueue + [packet];
        return [];
      }
      isWriting, sent := true, sent + packet;
      return packet;
    }

    method SendProposal() returns (ok: bool, out: seq<Token>)
      modifies `writeQueue, `isWriting, `sent, `waitForProtocolReply
      ensures ok == (old(currentProtocol) < |old(protocols)|)
      ensures Turn(State(), out) == if ok then Propose(old(State())) else Turn(old(State()), [])
    {
      if currentProtocol >= |protocols| {
        return false, [];
      }
      if !multistreamNegotiated {
        out := SendPacket([Version, Name(protocols[currentProtocol])]);
      } else {
        out := SendPacket([Name(protocols[currentProtocol])]);
      }
      waitForProtocolReply := true;
      ok := true;
    }

    method CloseWith(r: Result)
      modifies this
      ensures State() == Close(old(State()), r)
    {
      closed := true;
      currentRound := currentRound + 1;
      writeQueue := [];
      result := r;
    }

    method OnDataWritten() returns (out: seq<Token>)
      requires waitForReplySent.Some? ==> waitForReplySent.value < |protocols|
      modifies this
      ensures Turn(State(), out) == OnWritten(old(State()))
    {
      isWriting := false;
      out := [];
      if !closed {
        if |writeQueue| > 0 {
          out := SendPacket(writeQueue[0]);
          writeQueue := writeQueue[1..];
          return;
        }
        if waitForReplySent.Some? {
          CloseWith(Chosen(protocols[waitForReplySent.value]));
        }
      }
    }

    /** The server side's search for a proposed name. */
    method Find(p: Proto) returns (r: Option<nat>)
      ensures r == IndexOf(protocols, p)
    {
      hide IndexOf;
      var idx := 0;
      assert protocols[0..] == protocols;
      while idx < |protocols|
        invariant 0 <= idx <= |protocols|
        invariant IndexOf(protocols, p) == Shifted(IndexOf(protocols[idx..], p), idx)
      {
        IndexFrom(protocols, idx, p);
        if protocols[idx] == p {
          return Some(idx);
        }
        idx := idx + 1;
      }
      return None;
    }

    method HandleProposal(p: Proto) returns (out: seq<Token>, r: Result)
      requires isInitiator && waitForProtocolReply ==> currentProtocol < |protocols|
      modifies this
      ensures (Turn(State(), out), r) == OnName(old(State()), p)
    {
      if isInitiator {
        if waitForProtocolReply {
          if protocols[currentProtocol] == p {
            return [], Chosen(p);
          }
        }
        return [], Failed(Violation);
      }
      out, r := [], Pending;
      var idx := Find(p);
      if idx.Some? {
        waitForReplySent := idx;
        writeQueue := [];
        out := SendPacket([Name(p)]);
      } else if waitForReplySent.None? {
        out := SendPacket([NA]);
      }
    }

    method HandleNA() returns (out: seq<Token>, r: Result)
      modifies this
      ensures (Turn(State(), out), r) == OnNA(old(State()))
    {
      if isInitiator {
        currentProtocol := currentProtocol + 1;
        var ok;
        ok, out := SendProposal();
        r := if ok then Pending else Failed(Exhausted);
        return;
      }
      return [], Failed(Violation);
    }

    /** The initiator's assertion: while it waits for an answer there is a current protocol. */
    method ProcessMessages(msgs: seq<Token>) returns (out: seq<Token>, r: Result)
      requires isInitiator && waitForProtocolReply ==> currentProtocol < |protocols|
      modifies this
      ensures (Turn(State(), out), r) == OnTokens(old(State()), msgs)
    {
      out, r := [], Pending;
      var i := 0;
      assert msgs[0..] == msgs;
      ghost var goal := OnTokens(State(), msgs);
      assert [] + goal.0.out == goal.0.out;
      while i < |msgs|
        invariant 0 <= i <= |msgs| && r.Pending?
        invariant isInitiator && waitForProtocolReply ==> currentProtocol < |protocols|
        invariant Rest(goal, out, OnTokens(State(), msgs[i..]))
      {
        assert msgs[i..][1..] == msgs[i + 1..];
        ghost var rest := OnTokens(State(), msgs[i..]);
        ghost var before := out;
        var more: seq<Token> := [];
        match msgs[i] {
          case Name(p) => more, r := HandleProposal(p);
          case Version => multistreamNegotiated := true;
          case NA => more, r := HandleNA();
          case Other => r := Failed(Violation);
        }
        out := out + more;
        if !r.Pending? {
          return;
        }
        Assoc(before, more, OnTokens(State(), msgs[i + 1..]).0.out);
        i := i + 1;
      }
      assert out + [] == out;
    }

    method OnDataRead(msgs: seq<Token>) returns (out: seq<Token>)
      requires isInitiator && waitForProtocolReply ==> currentProtocol < |protocols|
      modifies this
      ensures Turn(State(), out) == OnRead(old(State()), msgs)
    {
      var r;
      out, r := ProcessMessages(msgs);
      if !r.Pending? {
        CloseWith(r);
      }
    }
  }

  function Shifted(r: Option<nat>, n: nat): Option<nat> { if r.None? then None else Some(r.value + n) }

  lemma IndexFrom(ps: seq<Proto>, k: nat, p: Proto)
    requires k < |ps|
    ensures IndexOf(ps[k..], p) == if ps[k] == p then Some(0) else Shifted(IndexOf(ps[k + 1..], p), 1)
  {
    assert ps[k..][1..] == ps[k + 1..];
  }

  /** `goal` is what is reached by saying `said` and then doing `rest`. */
  predicate Rest(goal: (Turn, Result), said: seq<Token>, rest: (Turn, Result)) {
    goal.0.i == rest.0.i && goal.0.out == said + rest.0.out && goal.1 == rest.1
  }
}
