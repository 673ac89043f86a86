/**
 * The dialer as its callers and the transports see it: what answer a request gets, told from the events alone, which
 * addresses a dial goes through, and that its records say what the transports said.
 */
module DialerRequests {
  import opened Basics
  import opened Dialer

  // ---------------------------------------------------------------------------------------------
  // Answers.

  /** The request waits at the dial of the peer it asked for. */
  predicate Waits(s: State, cb: Cb) {
    cb < |s.asked| && s.asked[cb] in s.dialing && cb in s.dialing[s.asked[cb]].waiters
  }

  /** The request was one of a dial that is over, all of whose requests asked for the same peer. */
  predicate Served(s: State, cb: Cb, k: nat) {
    && k < |s.log| && cb in s.log[k].waiters && cb < |s.asked|
    && forall i :: 0 <= i < |s.log[k].waiters| ==>
         s.log[k].waiters[i] < |s.asked| && s.asked[s.log[k].waiters[i]] == s.asked[cb]
  }

  /** The request shares a dial, which goes on or is over. */
  ghost predicate Shares(s: State, cb: Cb) { Waits(s, cb) || exists k: nat :: Served(s, cb, k) }

  /** The answer of the request is decided. */
  predicate Decided(s: State, cb: Cb, r: Result) { cb in s.fate && s.fate[cb] == r }

  /** Requests that wait asked for the peer they wait for, and have no answer yet. */
  ghost predicate Open(s: State) {
    forall p, i :: p in s.dialing && 0 <= i < |s.dialing[p].waiters| ==>
      var cb := s.dialing[p].waiters[i]; cb !in s.fate && cb < |s.asked| && s.asked[cb] == p
  }

  lemma InvOpen(s: State)
    requires Inv(s)
    ensures Open(s)
  {
    forall p, i | p in s.dialing && 0 <= i < |s.dialing[p].waiters|
      ensures var cb := s.dialing[p].waiters[i]; cb !in s.fate && cb < |s.asked| && s.asked[cb] == p
    {
      WaiterCount(s, p, s.dialing[p].waiters[i]);
      assert CbInv(s, s.dialing[p].waiters[i]);
    }
  }

  /** Nothing that was decided, and no dial a request shares, is forgotten. */
  ghost predicate Remembers(s: State, t: State, cb: Cb) {
    && (forall r: Result :: Decided(s, cb, r) ==> Decided(t, cb, r))
    && (Shares(s, cb) ==> Shares(t, cb))
  }

  lemma RemembersTrans(a: State, b: State, c: State, cb: Cb)
    requires Remembers(a, b, cb) && Remembers(b, c, cb)
    ensures Remembers(a, c, cb)
  {
  }

  /** Steps that keep requests, answers and finished dials, and only add to what waits. */
  lemma PlainRemembers(s: State, t: State, cb: Cb)
    requires t.asked == s.asked && t.fate == s.fate && t.log == s.log
    requires forall p :: p in s.dialing ==> p in t.dialing && s.dialing[p].waiters <= t.dialing[p].waiters
    ensures Remembers(s, t, cb)
  {
    if k: nat :| Served(s, cb, k) { assert Served(t, cb, k); }
  }

  lemma CompleteRemembers(s: State, p: Peer, r: Result, cb: Cb)
    requires Open(s)
    ensures Remembers(s, Complete(s, p, r), cb)
  {
    if p in s.dialing {
      var c, t := s.dialing[p], Complete(s, p, r);
      if k: nat :| Served(s, cb, k) { assert Served(t, cb, k); }
      if cb in c.waiters {
        var i :| 0 <= i < |c.waiters| && c.waiters[i] == cb;
        assert t.log[|s.log|].waiters == c.waiters;
        assert Served(t, cb, |s.log|);
      }
    }
  }

  lemma RotateRemembers(s: State, p: Peer, found: bool, cb: Cb)
    requires Open(s)
    ensures Remembers(s, DoRotate(s, p, found), cb)
  {
    hide Complete, Remembers;
    if p in s.dialing && s.dialing[p].queue == [] {
      var c := s.dialing[p];
      CompleteRemembers(s, p, if !c.dialled then Failed(FamilyNotSupported) else if c.result.Some? then c.result.value
                              else Failed(HostUnreachable), cb);
    } else {
      PlainRemembers(s, DoRotate(s, p, found), cb);
    }
  }

  lemma DialledRemembers(s: State, a: Attempt, r: Result, cb: Cb)
    requires Open(s)
    ensures Remembers(s, OnDialled(s, a, r), cb)
  {
    hide Complete, Remembers;
    if a.peer in s.dialing {
      var c := s.dialing[a.peer];
      var s1 := s.(dialing := s.dialing[a.peer := c.(tries := c.tries + [Dialled(a.addr, r)])]);
      PlainRemembers(s, s1, cb);
      if r.Connected? {
        CompleteRemembers(s1, a.peer, r, cb);
        RemembersTrans(s, s1, Complete(s1, a.peer, r), cb);
      } else {
        PlainRemembers(s, OnDialled(s, a, r), cb);
      }
    } else {
      PlainRemembers(s, s, cb);
    }
  }

  /** A new request changes nothing for the others. */
  lemma AskRemembers(s: State, p: Peer, addrs: seq<Addr>, best: Option<Conn>, found: bool, cb: Cb)
    requires Open(s) && cb < |s.asked|
    ensures Remembers(s, Dial(s, p, addrs, best, found), cb)
  {
    hide DoRotate, Remembers;
    var n, s1 := |s.asked|, s.(asked := s.asked + [p]);
    AskedRemembers(s, s1, p, cb);
    if best.Some? {
      NowRemembers(s1, n, Connected(best.value), cb);
      RemembersTrans(s, s1, AnswerNow(s1, n, Connected(best.value)), cb);
    } else if p in s.dialing {
      PlainRemembers(s1, Dial(s, p, addrs, best, found), cb);
      RemembersTrans(s, s1, Dial(s, p, addrs, best, found), cb);
    } else if addrs == [] {
      NowRemembers(s1, n, Failed(AddressRequired), cb);
      RemembersTrans(s, s1, AnswerNow(s1, n, Failed(AddressRequired)), cb);
    } else {
      var s2 := s1.(dialing := s.dialing[p := Ctx(addrs, ToSet(addrs), [n], None, false, addrs, [], |addrs|)]);
      PlainRemembers(s1, s2, cb);
      RemembersTrans(s, s1, s2, cb);
      BeginRemembers(s2, p, found, cb);
      RemembersTrans(s, s2, DoRotate(s2, p, found), cb);
    }
  }

  lemma AskedRemembers(s: State, s1: State, p: Peer, cb: Cb)
    requires s1 == s.(asked := s.asked + [p]) && cb < |s.asked|
    ensures Remembers(s, s1, cb)
  {
    if k: nat :| Served(s, cb, k) { assert Served(s1, cb, k); }
  }

  lemma NowRemembers(s: State, n: Cb, r: Result, cb: Cb)
    requires n != cb
    ensures Remembers(s, AnswerNow(s, n, r), cb)
  {
    if k: nat :| Served(s, cb, k) { assert Served(AnswerNow(s, n, r), cb, k); }
  }

  /** The first turn of a new dial finds an address in its queue. */
  lemma BeginRemembers(s: State, p: Peer, found: bool, cb: Cb)
    requires p in s.dialing && s.dialing[p].queue != []
    ensures Remembers(s, DoRotate(s, p, found), cb)
  {
    PlainRemembers(s, DoRotate(s, p, found), cb);
  }

  lemma CutOpen(s: State, t: State)
    requires Open(s) && t.dialing == s.dialing && t.fate == s.fate && t.asked == s.asked
    ensures Open(t)
  {
  }

  lemma StepRemembers(s: State, e: Event, cb: Cb)
    requires Inv(s) && Enabled(s, e) && cb < |s.asked|
    ensures Remembers(s, Step(s, e), cb)
  {
    hide Inv, Open, Remembers, Dial, DoRotate, OnDialled;
    InvOpen(s);
    match e
    case Ask(p, addrs, best, found) => AskRemembers(s, p, addrs, best, found, cb);
    case Work(i, found) =>
      var s1 := s.(tasks := Cut(s.tasks, i));
      PlainRemembers(s, s1, cb);
      CutOpen(s, s1);
      if s.tasks[i].Rotate? {
        RotateRemembers(s1, s.tasks[i].peer, found, cb);
        RemembersTrans(s, s1, DoRotate(s1, s.tasks[i].peer, found), cb);
      } else {
        PlainRemembers(s, Step(s, e), cb);
      }
    case Done(i, r) =>
      var s1 := s.(attempts := Cut(s.attempts, i));
      PlainRemembers(s, s1, cb);
      CutOpen(s, s1);
      DialledRemembers(s1, s.attempts[i], r, cb);
      RemembersTrans(s, s1, OnDialled(s1, s.attempts[i], r), cb);
  }

  lemma StepAsked(s: State, e: Event)
    requires Enabled(s, e)
    ensures |Step(s, e).asked| == |s.asked| + (if e.Ask? then 1 else 0) && s.asked <= Step(s, e).asked
  {
  }

  lemma {:induction false} RunRemembers(s: State, es: seq<Event>, cb: Cb)
    requires Inv(s) && IsRun(s, es) && cb < |s.asked|
    ensures Remembers(s, Final(s, es), cb) && s.asked <= Final(s, es).asked
    decreases |es|
  {
    hide Inv, Remembers, Step;
    if es == [] {
      PlainRemembers(s, s, cb);
    } else {
      StepKeeps(s, es[0]);
      StepRemembers(s, es[0], cb);
      StepAsked(s, es[0]);
      RunRemembers(Step(s, es[0]), es[1..], cb);
      RemembersTrans(s, Step(s, es[0]), Final(s, es), cb);
    }
  }

  // ---------------------------------------------------------------------------------------------
  // What a request is answered.

  /** A request that finds a connection, or neither a connection nor a dial nor an address, starts nothing. */
  predicate Immediate(s: State, e: Event)
    requires e.Ask?
  {
    e.best.Some? || (e.peer !in s.dialing && e.addrs == [])
  }

  function ImmediateAnswer(e: Event): Result
    requires e.Ask?
  {
    if e.best.Some? then Connected(e.best.value) else Failed(AddressRequired)
  }

  lemma AskOutcome(s: State, e: Event)
    requires Inv(s) && e.Ask?
    ensures var t, cb := Step(s, e), |s.asked|;
            && t.asked == s.asked + [e.peer]
            && (Immediate(s, e) ==>
                  && Decided(t, cb, ImmediateAnswer(e))
                  && t.dialing == s.dialing && t.attempts == s.attempts && t.log == s.log)
            && (!Immediate(s, e) ==> Waits(t, cb))
  {
    hide Inv, NewAddrs, ToSet;
    if e.best.None? && e.peer in s.dialing {
      var c := s.dialing[e.peer];
      assert (c.waiters + [|s.asked|])[|c.waiters|] == |s.asked|;
    } else if e.best.None? && e.addrs != [] {
      assert [|s.asked|][0] == |s.asked|;
    }
  }

  lemma {:induction false} RunSplit(s: State, a: seq<Event>, b: seq<Event>)
    requires IsRun(s, a + b)
    ensures IsRun(s, a) && IsRun(Final(s, a), b) && Final(s, a + b) == Final(Final(s, a), b)
    decreases |a|
  {
    if a == [] {
      assert a + b == b;
    } else {
      assert (a + b)[0] == a[0] && (a + b)[1..] == a[1..] + b;
      RunSplit(Step(s, a[0]), a[1..], b);
    }
  }

  /** The answer of request `cb` is the one result of a dial for its peer, shared by all its requests. */
  ghost predicate DialAnswer(s: State, cb: Cb, r: Result) {
    exists k: nat :: Served(s, cb, k) && s.log[k].result == r
  }

  /**
   * Every request in every run. Asked while there was a connection, it is answered with that connection; asked with no
   * connection, no dial going on and no address, it is told that an address is required; neither starts a dial or an
   * attempt. Any other request gets the result of a dial for its peer.
   */
  lemma AnsweredAsAsked(before: seq<Event>, e: Event, after: seq<Event>, i: nat)
    requires IsRun(Start, before + ([e] + after)) && e.Ask?
    requires IsRun(Start, before) && i < |Final(Start, before + ([e] + after)).given|
    requires Final(Start, before + ([e] + after)).given[i].0 == |Final(Start, before).asked|
    ensures var s, t := Final(Start, before), Final(Start, before + ([e] + after));
            var cb, r := t.given[i].0, t.given[i].1;
            && (Immediate(s, e) ==>
                  && r == ImmediateAnswer(e)
                  && Step(s, e).dialing == s.dialing && Step(s, e).attempts == s.attempts)
            && (!Immediate(s, e) ==> DialAnswer(t, cb, r) && t.asked[cb] == e.peer)
  {
    hide Inv, IsRun, Final, Step;
    RunSplit(Start, before, [e] + after);
    var s, cb := Final(Start, before), |Final(Start, before).asked|;
    StartInv();
    RunKeeps(Start, before);
    FirstStep(s, e, after);
    var s1, t := Step(s, e), Final(Start, before + ([e] + after));
    AskOutcome(s, e);
    StepKeeps(s, e);
    RunKeeps(s1, after);
    RunRemembers(s1, after, cb);
    GivenIsDecided(t, i);
    if !Immediate(s, e) { GivenIsServed(t, i); }
  }

  lemma FirstStep(s: State, e: Event, after: seq<Event>)
    requires IsRun(s, [e] + after)
    ensures Enabled(s, e) && IsRun(Step(s, e), after) && Final(s, [e] + after) == Final(Step(s, e), after)
  {
    assert ([e] + after)[1..] == after;
  }

  lemma GivenIsDecided(t: State, i: nat)
    requires Inv(t) && i < |t.given|
    ensures Decided(t, t.given[i].0, t.given[i].1)
  {
    assert CbInv(t, t.given[i].0);
  }

  lemma GivenIsServed(t: State, i: nat)
    requires Inv(t) && i < |t.given| && Shares(t, t.given[i].0)
    ensures DialAnswer(t, t.given[i].0, t.given[i].1)
  {
    var cb := t.given[i].0;
    assert CbInv(t, cb);
    assert Receivers(t.given)[i] == cb;
    if Waits(t, cb) { InvOpen(t); }
    var k: nat :| Served(t, cb, k);
    var j :| 0 <= j < |t.log[k].waiters| && t.log[k].waiters[j] == cb;
  }

  // ---------------------------------------------------------------------------------------------
  // Addresses and attempts.

  /** Of the addresses of a later request those are queued, in order, that were neither seen nor listed before. */
  lemma {:induction false} NewAddrsSnoc(seen: set<Addr>, addrs: seq<Addr>, a: Addr)
    ensures NewAddrs(seen, []) == []
    ensures NewAddrs(seen, addrs + [a]) == NewAddrs(seen, addrs) + if a in seen || a in addrs then [] else [a]
    decreases |addrs|
  {
    if addrs == [] {
      assert [] + [a] == [a] && [a][1..] == [];
    } else {
      assert (addrs + [a])[1..] == addrs[1..] + [a];
      if addrs[0] in seen {
        NewAddrsSnoc(seen, addrs[1..], a);
      } else {
        NewAddrsSnoc(seen + {addrs[0]}, addrs[1..], a);
        Assoc([addrs[0]], NewAddrs(seen + {addrs[0]}, addrs[1..]), if a in seen || a in addrs then [] else [a]);
      }
    }
  }

  /** All dials but that of `p` are as they were. */
  predicate OnlyAt(s: State, t: State, p: Peer) { s.dialing - {p} == t.dialing - {p} }

  /** The dial of `p` is over, with everything its context held; `tries` became of its addresses. */
  predicate Ends(s: State, t: State, p: Peer, tries: seq<Try>) {
    && p in s.dialing && p !in t.dialing && |t.log| == |s.log| + 1 && s.log <= t.log
    && var x := t.log[|s.log|];
       && x.tries == tries && x.added == s.dialing[p].added && x.waiters == s.dialing[p].waiters
       && x.first == s.dialing[p].first
  }

  /** The dial of `p` goes on, with `queue` to try and `tries` behind it. */
  predicate GoesOn(s: State, t: State, p: Peer, queue: seq<Addr>, tries: seq<Try>) {
    && p in s.dialing && p in t.dialing && t.log == s.log && t.dialing[p].queue == queue && t.dialing[p].tries == tries
    && t.dialing[p].added == s.dialing[p].added && t.dialing[p].waiters == s.dialing[p].waiters
    && t.dialing[p].first == s.dialing[p].first
  }

  /** What a transport answers becomes of the address it was asked for; a success ends the dial. */
  lemma TransportAnswers(s: State, i: nat, r: Result)
    requires Inv(s) && Enabled(s, Done(i, r))
    ensures var t, a := Step(s, Done(i, r)), s.attempts[i];
            && a.peer in s.dialing && OnlyAt(s, t, a.peer) && t.attempts == Cut(s.attempts, i)
            && var tries := s.dialing[a.peer].tries + [Dialled(a.addr, r)];
               if r.Connected? then Ends(s, t, a.peer, tries) && t.log[|s.log|].result == r
               else GoesOn(s, t, a.peer, s.dialing[a.peer].queue, tries)
  {
    AttemptPresent(s.attempts, i);
    assert PeerInv(s, s.attempts[i].peer);
  }

  /** A dial's turn takes the next address to its transport or, without one, notes that; with none left it ends. */
  predicate Turns(s: State, t: State, p: Peer, found: bool) {
    && p in s.dialing && OnlyAt(s, t, p)
    && var c := s.dialing[p];
       if c.queue == [] then Ends(s, t, p, c.tries) && t.attempts == s.attempts
       else if found then GoesOn(s, t, p, c.queue[1..], c.tries) && t.attempts == s.attempts + [Attempt(p, c.queue[0])]
       else GoesOn(s, t, p, c.queue[1..], c.tries + [NoTransport(c.queue[0])]) && t.attempts == s.attempts
  }

  lemma TurnsInOrder(s: State, i: nat, found: bool)
    requires Inv(s) && i < |s.tasks| && s.tasks[i].Rotate?
    ensures Turns(s, Step(s, Work(i, found)), s.tasks[i].peer, found)
  {
    TaskPresent(s.tasks, s.tasks[i]);
    assert PeerInv(s, s.tasks[i].peer);
  }

  /** A request that joins a dial adds its new addresses behind the others. */
  lemma JoinsDial(s: State, p: Peer, addrs: seq<Addr>, found: bool)
    requires p in s.dialing
    ensures var t, more := Step(s, Ask(p, addrs, None, found)), NewAddrs(s.dialing[p].seen, addrs);
            && OnlyAt(s, t, p) && t.attempts == s.attempts && t.log == s.log && p in t.dialing
            && t.dialing[p].queue == s.dialing[p].queue + more && t.dialing[p].added == s.dialing[p].added + more
            && t.dialing[p].tries == s.dialing[p].tries && t.dialing[p].waiters == s.dialing[p].waiters + [|s.asked|]
  {
  }

  /** A request that begins a dial has its first address tried at once, and the others queued in order. */
  lemma BeginsDial(s: State, p: Peer, addrs: seq<Addr>, found: bool)
    requires p !in s.dialing && addrs != []
    ensures var t := Step(s, Ask(p, addrs, None, found));
            && OnlyAt(s, t, p) && t.log == s.log && p in t.dialing
            && t.dialing[p].queue == addrs[1..] && t.dialing[p].added == addrs && t.dialing[p].first == |addrs|
            && t.dialing[p].waiters == [|s.asked|] && t.dialing[p].seen == ToSet(addrs)
            && t.dialing[p].tries == (if found then [] else [NoTransport(addrs[0])])
            && t.attempts == s.attempts + if found then [Attempt(p, addrs[0])] else []
  {
  }
}
