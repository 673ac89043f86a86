/** The dialer as an object, proved against the functions of Dialer. */
module DialerObjects {
  import opened Basics
  import opened Dialer
  import DialerRequests

  class DialerImpl {
    var dialingPeers: map<Peer, Ctx>
    /** Work given to the scheduler and transports that have not answered yet. */
    var tasks: seq<Task>
    var attempts: seq<Attempt>
    var asked: seq<Peer>
    ghost var given: seq<(Cb, Result)>
    ghost var fate: map<Cb, Result>
    ghost var log: seq<Session>

    ghost function Now(): State
      reads this
    {
      State(dialingPeers, tasks, attempts, asked, given, fate, log)
    }

    constructor ()
      ensures Now() == Start
    {
      dialingPeers, tasks, attempts, asked, given, fate, log := map[], [], [], [], [], map[], [];
    }

    method AnswerLater(cb: Cb, r: Result)
      modifies `tasks, `fate
      ensures Now() == AnswerNow(old(Now()), cb, r)
    {
      tasks := tasks + [Answer(cb, r)];
      fate := fate[cb := r];
    }

    /** The addresses a running dial has not seen yet. */
    method Unseen(known: set<Addr>, addrs: seq<Addr>) returns (more: seq<Addr>, seen: set<Addr>)
      ensures more == NewAddrs(known, addrs) && seen == known + ToSet(addrs)
    {
      more, seen := [], known;
      var i := 0;
      while i < |addrs|
        invariant 0 <= i <= |addrs|
        invariant more == NewAddrs(known, addrs[..i]) && seen == known + ToSet(addrs[..i])
      {
        DialerRequests.NewAddrsSnoc(known, addrs[..i], addrs[i]);
        assert addrs[..i + 1] == addrs[..i] + [addrs[i]];
        assert ToSet(addrs[..i + 1]) == ToSet(addrs[..i]) + {addrs[i]};
        if addrs[i] !in seen {
          seen := seen + {addrs[i]};
          more := more + [addrs[i]];
        }
        i := i + 1;
      }
      assert addrs[..|addrs|] == addrs;
    }

    method DialPeer(p: Peer, addrs: seq<Addr>, best: Option<Conn>, found: bool)
      modifies this
      ensures Now() == Dial(old(Now()), p, addrs, best, found)
    {
      var cb := |asked|;
      asked := asked + [p];
      if best.Some? {
        AnswerLater(cb, Connected(best.value));
        return;
      }
      if p in dialingPeers {
        var c := dialingPeers[p];
        var more, seen := Unseen(c.seen, addrs);
        dialingPeers := dialingPeers[p := c.(queue := c.queue + more, seen := seen, waiters := c.waiters + [cb],
          added := c.added + more)];
        return;
      }
      if |addrs| == 0 {
        AnswerLater(cb, Failed(AddressRequired));
        return;
      }
      var all := set a | a in addrs;
      dialingPeers := dialingPeers[p := Ctx(addrs, all, [cb], None, false, addrs, [], |addrs|)];
      RotatePeer(p, found);
    }

    method RotatePeer(p: Peer, found: bool)
      modifies this
      ensures Now() == DoRotate(old(Now()), p, found)
    {
      if p !in dialingPeers {
        return;
      }
      var c := dialingPeers[p];
      if |c.queue| == 0 {
        if !c.dialled {
          CompleteDial(p, Failed(FamilyNotSupported));
          return;
        }
        if c.result.Some? {
          CompleteDial(p, c.result.value);
          return;
        }
        CompleteDial(p, Failed(HostUnreachable));
        return;
      }
      var addr := c.queue[0];
      c := c.(queue := c.queue[1..]);
      if found {
        dialingPeers := dialingPeers[p := c.(dialled := true)];
        attempts := attempts + [Attempt(p, addr)];
      } else {
        dialingPeers := dialingPeers[p := c.(tries := c.tries + [NoTransport(addr)])];
        tasks := tasks + [Rotate(p)];
      }
    }

    method OnDialResult(a: Attempt, r: Result)
      modifies this
      ensures Now() == OnDialled(old(Now()), a, r)
    {
      if a.peer !in dialingPeers {
        return;
      }
      var c := dialingPeers[a.peer];
      c := c.(tries := c.tries + [Dialled(a.addr, r)]);
      if r.Connected? {
        dialingPeers := dialingPeers[a.peer := c];
        CompleteDial(a.peer, r);
        return;
      }
      dialingPeers := dialingPeers[a.peer := c.(result := Some(r))];
      tasks := tasks + [Rotate(a.peer)];
    }

    method CompleteDial(p: Peer, r: Result)
      modifies this
      ensures Now() == Complete(old(Now()), p, r)
    {
      if p in dialingPeers {
        var c := dialingPeers[p];
        var i := 0;
        assert Answers([], r) == [] && tasks + [] == tasks;
        while i < |c.waiters|
          invariant 0 <= i <= |c.waiters|
          invariant tasks == old(tasks) + Answers(c.waiters[..i], r)
          modifies `tasks
        {
          assert Answers(c.waiters[..i + 1], r) == Answers(c.waiters[..i], r) + [Answer(c.waiters[i], r)];
          Assoc(old(tasks), Answers(c.waiters[..i], r), [Answer(c.waiters[i], r)]);
          tasks := tasks + [Answer(c.waiters[i], r)];
          i := i + 1;
        }
        assert c.waiters[..|c.waiters|] == c.waiters;
        dialingPeers := dialingPeers - {p};
        fate := fate + Fates(c.waiters, r);
        log := log + [Session(c.added, c.tries, c.waiters, r, c.first)];
      }
    }
  }
}
