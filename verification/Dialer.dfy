/**
 * The dialer (src/network/impl/dialer_impl.cpp): concurrent requests for one peer share one dial, which tries the
 * known addresses one after the other and answers all requests with one result. Transports answer later, once per
 * attempt; posted work runs later, in any order.
 */
module Dialer {
  import opened Basics

  type Peer = nat
  type Addr = nat
  type Conn = nat
  type Cb = nat

  datatype Error = AddressRequired | FamilyNotSupported | HostUnreachable | DialError(code: nat)

  datatype Result = Connected(c: Conn) | Failed(e: Error)

  /** What became of one address. */
  datatype Try = NoTransport(addr: Addr) | Dialled(addr: Addr, r: Result)

  /**
   * `added`, `tries` and `first` are records: every address ever queued, what became of those taken off the queue, and
   * how many came with the request that began the dial.
   */
  datatype Ctx = Ctx(
    queue: seq<Addr>,
    seen: set<Addr>,
    waiters: seq<Cb>,
    result: Option<Result>,
    dialled: bool,
    added: seq<Addr>,
    tries: seq<Try>,
    first: nat)

  datatype Task = Rotate(peer: Peer) | Answer(cb: Cb, r: Result)

  datatype Attempt = Attempt(peer: Peer, addr: Addr)

  datatype Session = Session(added: seq<Addr>, tries: seq<Try>, waiters: seq<Cb>, result: Result, first: nat)

  /**
   * `asked` gives each request's peer; requests are numbered. `given` are the answers handed out, `log` the finished
   * dials.
   */
  datatype State = State(
    dialing: map<Peer, Ctx>,
    tasks: seq<Task>,
    attempts: seq<Attempt>,
    asked: seq<Peer>,
    given: seq<(Cb, Result)>,
    fate: map<Cb, Result>,
    log: seq<Session>)

  const Start := State(map[], [], [], [], [], map[], [])

  // ---------------------------------------------------------------------------------------------
  // Operations.

  function Answers(cbs: seq<Cb>, r: Result): seq<Task> { seq(|cbs|, i requires 0 <= i < |cbs| => Answer(cbs[i], r)) }

  function Fates(cbs: seq<Cb>, r: Result): map<Cb, Result> { map cb | cb in cbs :: r }

  function Complete(s: State, p: Peer, r: Result): State {
    if p !in s.dialing then s
    else
      var c := s.dialing[p];
      s.(tasks := s.tasks + Answers(c.waiters, r), dialing := s.dialing - {p},
         fate := s.fate + Fates(c.waiters, r), log := s.log + [Session(c.added, c.tries, c.waiters, r, c.first)])
  }

  /** `rotate`; `found` tells whether a transport handles the address at the head of the queue. */
  function DoRotate(s: State, p: Peer, found: bool): State {
    if p !in s.dialing then s
    else
      var c := s.dialing[p];
      if c.queue == [] then
        Complete(s, p, if !c.dialled then Failed(FamilyNotSupported) else if c.result.Some? then c.result.value
          else Failed(HostUnreachable))
      else
        var addr, c1 := c.queue[0], c.(queue := c.queue[1..]);
        if found then s.(dialing := s.dialing[p := c1.(dialled := true)], attempts := s.attempts + [Attempt(p, addr)])
        else s.(dialing := s.dialing[p := c1.(tries := c1.tries + [NoTransport(addr)])], tasks := s.tasks + [Rotate(p)])
  }

  /** The addresses not seen yet, in order, each once. */
  function NewAddrs(seen: set<Addr>, addrs: seq<Addr>): seq<Addr>
    decreases |addrs|
  {
    if addrs == [] then []
    else if addrs[0] in seen then NewAddrs(seen, addrs[1..])
    else [addrs[0]] + NewAddrs(seen + {addrs[0]}, addrs[1..])
  }

  function ToSet(addrs: seq<Addr>): set<Addr> { set a | a in addrs }

  function AnswerNow(s: State, cb: Cb, r: Result): State {
    s.(tasks := s.tasks + [Answer(cb, r)], fate := s.fate[cb := r])
  }

  /** `dial`; `best` is the connection the connection manager has for the peer, if any. */
  function Dial(s: State, p: Peer, addrs: seq<Addr>, best: Option<Conn>, found: bool): State {
    var cb, s1 := |s.asked|, s.(asked := s.asked + [p]);
    if best.Some? then AnswerNow(s1, cb, Connected(best.value))
    else if p in s.dialing then
      var c := s.dialing[p];
      var more := NewAddrs(c.seen, addrs);
      s1.(dialing := s.dialing[p := c.(queue := c.queue + more, seen := c.seen + ToSet(addrs),
                                       waiters := c.waiters + [cb], added := c.added + more)])
    else if addrs == [] then AnswerNow(s1, cb, Failed(AddressRequired))
    else DoRotate(s1.(dialing := s.dialing[p := Ctx(addrs, ToSet(addrs), [cb], None, false, addrs, [], |addrs|)]), p,
      found)
  }

  /** The handler of a transport's dial. */
  function OnDialled(s: State, a: Attempt, r: Result): State {
    if a.peer !in s.dialing then s
    else
      var c := s.dialing[a.peer];
      var c1 := c.(tries := c.tries + [Dialled(a.addr, r)]);
      if r.Connected? then Complete(s.(dialing := s.dialing[a.peer := c1]), a.peer, r)
      else s.(dialing := s.dialing[a.peer := c1.(result := Some(r))], tasks := s.tasks + [Rotate(a.peer)])
  }

  function RunTask(s: State, t: Task, found: bool): State {
    match t
    case Rotate(p) => DoRotate(s, p, found)
    case Answer(cb, r) => s.(given := s.given + [(cb, r)])
  }

  function Cut<T>(xs: seq<T>, i: nat): seq<T>
    requires i < |xs|
  {
    xs[..i] + xs[i + 1..]
  }

  datatype Event =
    | Ask(peer: Peer, addrs: seq<Addr>, best: Option<Conn>, found: bool)
    | Work(index: nat, found: bool)
    | Done(index: nat, r: Result)

  predicate Enabled(s: State, e: Event) {
    match e
    case Ask(_, _, _, _) => true
    case Work(i, _) => i < |s.tasks|
    case Done(i, r) => i < |s.attempts| && (r.Failed? ==> r.e.DialError?)
  }

  function Step(s: State, e: Event): State
    requires Enabled(s, e)
  {
    match e
    case Ask(p, addrs, best, found) => Dial(s, p, addrs, best, found)
    case Work(i, found) => RunTask(s.(tasks := Cut(s.tasks, i)), s.tasks[i], found)
    case Done(i, r) => OnDialled(s.(attempts := Cut(s.attempts, i)), s.attempts[i], r)
  }

  predicate IsRun(s: State, es: seq<Event>)
    decreases |es|
  {
    es != [] ==> Enabled(s, es[0]) && IsRun(Step(s, es[0]), es[1..])
  }

  function Final(s: State, es: seq<Event>): State
    requires IsRun(s, es)
    decreases |es|
  {
    if es == [] then s else Final(Step(s, es[0]), es[1..])
  }

  // ---------------------------------------------------------------------------------------------
  // Reference: what a dial should end with.

  function Addrs(ts: seq<Try>): seq<Addr> { seq(|ts|, i requires 0 <= i < |ts| => ts[i].addr) }

  predicate NoSuccess(ts: seq<Try>) { forall i :: 0 <= i < |ts| && ts[i].Dialled? ==> ts[i].r.Failed? }

  function LastDial(ts: seq<Try>): Option<Result> {
    if ts == [] then None
    else if ts[|ts| - 1].Dialled? then Some(ts[|ts| - 1].r) else LastDial(ts[..|ts| - 1])
  }

  /** The first success; without one the error of the last attempt; without any attempt a wrong address family. */
  function Verdict(ts: seq<Try>): Result {
    match LastDial(ts)
    case Some(r) => r
    case None => Failed(FamilyNotSupported)
  }

  /** A finished dial: it stopped at the first success, or else it went through every address. */
  predicate SessionOk(x: Session) {
    && x.result == Verdict(x.tries) && x.waiters != []
    && Addrs(x.tries) <= x.added
    && (x.result.Failed? ==> NoSuccess(x.tries) && Addrs(x.tries) == x.added)
    && (x.result.Connected? ==>
          && x.tries != [] && NoSuccess(x.tries[..|x.tries| - 1])
          && x.tries[|x.tries| - 1] == Dialled(x.tries[|x.tries| - 1].addr, x.result))
    && x.result != Failed(HostUnreachable)
  }

  // ---------------------------------------------------------------------------------------------
  // Counting.

  function Rots(ts: seq<Task>): seq<Peer> {
    if ts == [] then [] else (if ts[0].Rotate? then [ts[0].peer] else []) + Rots(ts[1..])
  }

  function Cbs(ts: seq<Task>): seq<Cb> {
    if ts == [] then [] else (if ts[0].Answer? then [ts[0].cb] else []) + Cbs(ts[1..])
  }

  function Peers(xs: seq<Attempt>): seq<Peer> { seq(|xs|, i requires 0 <= i < |xs| => xs[i].peer) }

  function Receivers(xs: seq<(Cb, Result)>): seq<Cb> { seq(|xs|, i requires 0 <= i < |xs| => xs[i].0) }

  lemma {:induction false} TasksAppend(a: seq<Task>, b: seq<Task>)
    ensures Rots(a + b) == Rots(a) + Rots(b) && Cbs(a + b) == Cbs(a) + Cbs(b)
  {
    if a == [] {
      assert a + b == b;
    } else {
      assert (a + b)[1..] == a[1..] + b;
      TasksAppend(a[1..], b);
      Assoc(if a[0].Rotate? then [a[0].peer] else [], Rots(a[1..]), Rots(b));
      Assoc(if a[0].Answer? then [a[0].cb] else [], Cbs(a[1..]), Cbs(b));
    }
  }

  lemma OneTask(t: Task)
    ensures Rots([t]) == (if t.Rotate? then [t.peer] else []) && Cbs([t]) == if t.Answer? then [t.cb] else []
  {
    assert [t][1..] == [];
  }

  ghost function RotCount(ts: seq<Task>, p: Peer): nat { multiset(Rots(ts))[p] }

  ghost function CbCount(ts: seq<Task>, cb: Cb): nat { multiset(Cbs(ts))[cb] }

  ghost function AttemptCount(xs: seq<Attempt>, p: Peer): nat { multiset(Peers(xs))[p] }

  lemma AddTask(ts: seq<Task>, t: Task, p: Peer, cb: Cb)
    ensures RotCount(ts + [t], p) == RotCount(ts, p) + if t == Rotate(p) then 1 else 0
    ensures CbCount(ts + [t], cb) == CbCount(ts, cb) + if t.Answer? && t.cb == cb then 1 else 0
  {
    TasksAppend(ts, [t]);
    OneTask(t);
  }

  lemma CutTask(ts: seq<Task>, i: nat, p: Peer, cb: Cb)
    requires i < |ts|
    ensures RotCount(ts, p) == RotCount(Cut(ts, i), p) + if ts[i] == Rotate(p) then 1 else 0
    ensures CbCount(ts, cb) == CbCount(Cut(ts, i), cb) + if ts[i].Answer? && ts[i].cb == cb then 1 else 0
  {
    assert ts == ts[..i] + [ts[i]] + ts[i + 1..];
    TasksAppend(ts[..i] + [ts[i]], ts[i + 1..]);
    TasksAppend(ts[..i], ts[i + 1..]);
    AddTask(ts[..i], ts[i], p, cb);
  }

  lemma CutAttempt(xs: seq<Attempt>, i: nat, p: Peer)
    requires i < |xs|
    ensures AttemptCount(xs, p) == AttemptCount(Cut(xs, i), p) + if xs[i].peer == p then 1 else 0
    ensures forall j :: 0 <= j < |Cut(xs, i)| ==> Cut(xs, i)[j] in xs
  {
    assert Peers(xs) == Peers(xs[..i]) + [xs[i].peer] + Peers(xs[i + 1..]);
    assert Peers(Cut(xs, i)) == Peers(xs[..i]) + Peers(xs[i + 1..]);
  }

  lemma AddAttempt(xs: seq<Attempt>, a: Attempt, p: Peer)
    ensures AttemptCount(xs + [a], p) == AttemptCount(xs, p) + if a.peer == p then 1 else 0
  {
    assert Peers(xs + [a]) == Peers(xs) + [a.peer];
  }

  lemma AttemptPresent(xs: seq<Attempt>, i: nat)
    requires i < |xs|
    ensures AttemptCount(xs, xs[i].peer) > 0
  {
    assert Peers(xs)[i] == xs[i].peer;
  }

  lemma {:induction false} AnswersCount(cbs: seq<Cb>, r: Result)
    ensures Rots(Answers(cbs, r)) == [] && Cbs(Answers(cbs, r)) == cbs
  {
    if cbs != [] {
      AnswersCount(cbs[1..], r);
      assert Answers(cbs, r)[1..] == Answers(cbs[1..], r);
    }
  }

  lemma {:induction false} TaskPresent(ts: seq<Task>, t: Task)
    requires t in ts
    ensures t.Rotate? ==> RotCount(ts, t.peer) > 0
    ensures t.Answer? ==> CbCount(ts, t.cb) > 0
  {
    var i :| 0 <= i < |ts| && ts[i] == t;
    CutTask(ts, i, if t.Rotate? then t.peer else 0, if t.Answer? then t.cb else 0);
  }

  // ---------------------------------------------------------------------------------------------
  // Invariants.

  ghost function Continuations(s: State, p: Peer): nat { RotCount(s.tasks, p) + AttemptCount(s.attempts, p) }

  /**
   * The records of a dial agree with its fields; what is queued, in flight (`now`) and done makes up what was added.
   */
  predicate CtxOk(c: Ctx, now: seq<Addr>) {
    && c.waiters != [] && NoSuccess(c.tries) && c.result == LastDial(c.tries)
    && (c.result.Some? ==> c.result.value.Failed? && c.result.value.e.DialError?)
    && Addrs(c.tries) + now + c.queue == c.added
    && (c.dialled <==> now != [] || c.result.Some?)
  }

  /** A peer that is being dialled has exactly one continuation, another peer none. */
  ghost predicate PeerInv(s: State, p: Peer) {
    && Continuations(s, p) == (if p in s.dialing then 1 else 0)
    && (p in s.dialing ==>
          && (RotCount(s.tasks, p) == 1 ==> CtxOk(s.dialing[p], []))
          && (forall i :: 0 <= i < |s.attempts| && s.attempts[i].peer == p ==>
            CtxOk(s.dialing[p], [s.attempts[i].addr])))
  }

  ghost function WaitCount(s: State, cb: Cb): nat {
    if cb < |s.asked| && s.asked[cb] in s.dialing then multiset(s.dialing[s.asked[cb]].waiters)[cb] else 0
  }

  ghost function GivenCount(s: State, cb: Cb): nat { multiset(Receivers(s.given))[cb] }

  /** A request waits at its own peer's dial, or its answer is posted, or it has its answer; one of these, once. */
  ghost predicate CbInv(s: State, cb: Cb) {
    && WaitCount(s, cb) + CbCount(s.tasks, cb) + GivenCount(s, cb) == (if cb < |s.asked| then 1 else 0)
    && (WaitCount(s, cb) > 0 || cb >= |s.asked| ==> cb !in s.fate)
    && (forall i :: 0 <= i < |s.tasks| && s.tasks[i].Answer? && s.tasks[i].cb == cb ==>
      cb in s.fate && s.tasks[i].r == s.fate[cb])
    && (forall i :: 0 <= i < |s.given| && s.given[i].0 == cb ==> cb in s.fate && s.given[i].1 == s.fate[cb])
  }

  /** Requests wait at the dial of the peer they asked for. */
  ghost predicate WaitersOk(s: State) {
    forall p, i :: p in s.dialing && 0 <= i < |s.dialing[p].waiters| ==>
      s.dialing[p].waiters[i] < |s.asked| && s.asked[s.dialing[p].waiters[i]] == p
  }

  /** Every finished dial ended as it should, and all its requests share its result. */
  ghost predicate LogOk(s: State) {
    forall k :: 0 <= k < |s.log| ==>
      SessionOk(s.log[k]) && forall i :: 0 <= i < |s.log[k].waiters| ==>
        s.log[k].waiters[i] in s.fate && s.fate[s.log[k].waiters[i]] == s.log[k].result
  }

  ghost predicate Books(s: State) { WaitersOk(s) && LogOk(s) && forall cb: Cb :: CbInv(s, cb) }

  ghost predicate Inv(s: State) { Books(s) && forall p: Peer :: PeerInv(s, p) }

  /** Everything but the peer `p`, whose continuation is running. */
  ghost predicate Others(s: State, p: Peer) { Continuations(s, p) == 0 && forall q: Peer :: q != p ==> PeerInv(s, q) }

  // ---------------------------------------------------------------------------------------------
  // Completing a dial.

  lemma WaiterCount(s: State, p: Peer, cb: Cb)
    requires p in s.dialing && WaitersOk(s)
    ensures multiset(s.dialing[p].waiters)[cb] == if cb < |s.asked| && s.asked[cb] == p then WaitCount(s, cb) else 0
    ensures cb in s.dialing[p].waiters <==> multiset(s.dialing[p].waiters)[cb] > 0
  {
    if cb in s.dialing[p].waiters {
      var i :| 0 <= i < |s.dialing[p].waiters| && s.dialing[p].waiters[i] == cb;
    }
  }

  lemma CompleteCounts(s: State, p: Peer, r: Result, cb: Cb)
    requires p in s.dialing && WaitersOk(s)
    ensures var t := Complete(s, p, r);
            && CbCount(t.tasks, cb) == CbCount(s.tasks, cb) + multiset(s.dialing[p].waiters)[cb]
            && WaitCount(t, cb) == WaitCount(s, cb) - multiset(s.dialing[p].waiters)[cb]
  {
    var c := s.dialing[p];
    TasksAppend(s.tasks, Answers(c.waiters, r));
    AnswersCount(c.waiters, r);
    WaiterCount(s, p, cb);
  }

  lemma CompleteCb(s: State, p: Peer, r: Result, cb: Cb)
    requires p in s.dialing && CbInv(s, cb) && WaitersOk(s)
    ensures CbInv(Complete(s, p, r), cb)
  {
    var c, t := s.dialing[p], Complete(s, p, r);
    CompleteCounts(s, p, r, cb);
    WaiterCount(s, p, cb);
    forall i | 0 <= i < |t.tasks| && t.tasks[i].Answer? && t.tasks[i].cb == cb
      ensures cb in t.fate && t.tasks[i].r == t.fate[cb]
    {
      if i < |s.tasks| {
        TaskPresent(s.tasks, s.tasks[i]);
      } else {
        assert t.tasks[i] == Answer(c.waiters[i - |s.tasks|], r);
      }
    }
    forall i | 0 <= i < |t.given| && t.given[i].0 == cb
      ensures cb in t.fate && t.given[i].1 == t.fate[cb]
    {
      assert Receivers(s.given)[i] == cb;
      assert GivenCount(s, cb) > 0;
    }
  }

  lemma CompleteLog(s: State, p: Peer, r: Result)
    requires p in s.dialing && Books(s) &&
             SessionOk(Session(s.dialing[p].added, s.dialing[p].tries, s.dialing[p].waiters, r, s.dialing[p].first))
    ensures LogOk(Complete(s, p, r))
  {
    var c, t := s.dialing[p], Complete(s, p, r);
    forall k | 0 <= k < |s.log|
      ensures forall i :: 0 <= i < |s.log[k].waiters| ==>
              s.log[k].waiters[i] in t.fate && t.fate[s.log[k].waiters[i]] == s.log[k].result
    {
      forall i | 0 <= i < |s.log[k].waiters|
        ensures s.log[k].waiters[i] !in c.waiters
      {
        assert CbInv(s, s.log[k].waiters[i]);
        WaiterCount(s, p, s.log[k].waiters[i]);
      }
    }
  }

  lemma CompletePeer(s: State, p: Peer, r: Result, q: Peer)
    requires p in s.dialing && Others(s, p)
    ensures PeerInv(Complete(s, p, r), q)
  {
    var c := s.dialing[p];
    TasksAppend(s.tasks, Answers(c.waiters, r));
    AnswersCount(c.waiters, r);
    assert RotCount(Complete(s, p, r).tasks, q) == RotCount(s.tasks, q);
    assert q != p ==> PeerInv(s, q);
  }

  lemma CompleteKeeps(s: State, p: Peer, r: Result)
    requires p in s.dialing && Books(s) && Others(s, p)
    requires SessionOk(Session(s.dialing[p].added, s.dialing[p].tries, s.dialing[p].waiters, r, s.dialing[p].first))
    ensures Inv(Complete(s, p, r))
  {
    CompleteLog(s, p, r);
    forall cb: Cb ensures CbInv(Complete(s, p, r), cb) { CompleteCb(s, p, r, cb); }
    forall q: Peer ensures PeerInv(Complete(s, p, r), q) { CompletePeer(s, p, r, q); }
  }

  // ---------------------------------------------------------------------------------------------
  // One turn of a dial.

  /** Requests and answers are as before. */
  predicate SameBooks(s: State, t: State, p: Peer) {
    && p in s.dialing && p in t.dialing && t.dialing == s.dialing[p := t.dialing[p]]
    && t.dialing[p].waiters == s.dialing[p].waiters
    && t.asked == s.asked && t.given == s.given && t.fate == s.fate && t.log == s.log
    && (t.tasks == s.tasks || t.tasks == s.tasks + [Rotate(p)])
  }

  lemma SameBooksKeep(s: State, t: State, p: Peer)
    requires Books(s) && SameBooks(s, t, p)
    ensures Books(t)
  {
    forall cb: Cb ensures CbInv(t, cb) {
      assert CbInv(s, cb);
      AddTask(s.tasks, Rotate(p), p, cb);
      assert WaitCount(t, cb) == WaitCount(s, cb);
    }
  }

  lemma OtherPeer(s: State, t: State, p: Peer, q: Peer)
    requires PeerInv(s, q) && q != p && p in s.dialing && p in t.dialing && t.dialing == s.dialing[p := t.dialing[p]]
    requires t.tasks == s.tasks || t.tasks == s.tasks + [Rotate(p)]
    requires t.attempts == s.attempts || (exists addr: Addr :: t.attempts == s.attempts + [Attempt(p, addr)])
    ensures PeerInv(t, q)
  {
    AddTask(s.tasks, Rotate(p), q, 0);
    if t.attempts != s.attempts {
      var addr: Addr :| t.attempts == s.attempts + [Attempt(p, addr)];
      AddAttempt(s.attempts, Attempt(p, addr), q);
    }
  }

  lemma NoAttempts(s: State, p: Peer, i: nat)
    requires AttemptCount(s.attempts, p) == 0 && i < |s.attempts|
    ensures s.attempts[i].peer != p
  {
    AttemptPresent(s.attempts, i);
  }

  /** A new rotation is posted. */
  lemma Posted(s: State, t: State, p: Peer)
    requires Books(s) && Others(s, p) && SameBooks(s, t, p)
    requires t.tasks == s.tasks + [Rotate(p)] && t.attempts == s.attempts && CtxOk(t.dialing[p], [])
    ensures Inv(t)
  {
    SameBooksKeep(s, t, p);
    forall q: Peer ensures PeerInv(t, q) {
      if q != p {
        assert PeerInv(s, q);
        OtherPeer(s, t, p, q);
      } else {
        AddTask(s.tasks, Rotate(p), p, 0);
        forall i | 0 <= i < |t.attempts| ensures t.attempts[i].peer != p { NoAttempts(s, p, i); }
      }
    }
  }

  /** A transport is dialling. */
  lemma Launched(s: State, t: State, p: Peer, addr: Addr)
    requires Books(s) && Others(s, p) && SameBooks(s, t, p)
    requires t.tasks == s.tasks && t.attempts == s.attempts + [Attempt(p, addr)] && CtxOk(t.dialing[p], [addr])
    ensures Inv(t)
  {
    SameBooksKeep(s, t, p);
    forall q: Peer ensures PeerInv(t, q) {
      if q != p {
        assert PeerInv(s, q);
        OtherPeer(s, t, p, q);
      } else {
        AddAttempt(s.attempts, Attempt(p, addr), p);
        forall i | 0 <= i < |t.attempts| && t.attempts[i].peer == p ensures t.attempts[i].addr == addr {
          if i < |s.attempts| { NoAttempts(s, p, i); }
        }
      }
    }
  }

  lemma TriesSnoc(ts: seq<Try>, x: Try)
    ensures Addrs(ts + [x]) == Addrs(ts) + [x.addr]
    ensures LastDial(ts + [x]) == if x.Dialled? then Some(x.r) else LastDial(ts)
    ensures NoSuccess(ts) && (x.Dialled? ==> x.r.Failed?) ==> NoSuccess(ts + [x])
  {
    assert (ts + [x])[..|ts|] == ts;
  }

  /** Taking the address at the head of the queue. */
  lemma HeadTaken(c: Ctx)
    requires CtxOk(c, []) && c.queue != []
    ensures CtxOk(c.(queue := c.queue[1..], dialled := true), [c.queue[0]])
    ensures CtxOk(c.(queue := c.queue[1..], tries := c.tries + [NoTransport(c.queue[0])]), [])
  {
    var done, q := Addrs(c.tries), c.queue;
    assert done + [] + q == done + [q[0]] + q[1..];
    TriesSnoc(c.tries, NoTransport(q[0]));
    assert done + [q[0]] + [] == done + [q[0]];
  }

  /** With no address left the stored error is the verdict: `host_unreachable` is never reported. */
  lemma Exhausted(c: Ctx)
    requires CtxOk(c, []) && c.queue == []
    ensures c.dialled ==> c.result.Some?
    ensures SessionOk(Session(c.added, c.tries, c.waiters,
            if !c.dialled then Failed(FamilyNotSupported) else c.result.value, c.first))
  {
    assert Addrs(c.tries) + [] + [] == Addrs(c.tries);
  }

  lemma RotateKeeps(s: State, p: Peer, found: bool)
    requires p in s.dialing && Books(s) && Others(s, p) && CtxOk(s.dialing[p], [])
    ensures Inv(DoRotate(s, p, found))
  {
    var c, t := s.dialing[p], DoRotate(s, p, found);
    if c.queue == [] {
      Exhausted(c);
      CompleteKeeps(s, p, if !c.dialled then Failed(FamilyNotSupported) else c.result.value);
    } else {
      HeadTaken(c);
      if found { Launched(s, t, p, c.queue[0]); } else { Posted(s, t, p); }
    }
  }

  /** A success closes the books of the dial. */
  lemma Succeeded(c: Ctx, addr: Addr, r: Result)
    requires CtxOk(c, [addr]) && r.Connected?
    ensures SessionOk(Session(c.added, c.tries + [Dialled(addr, r)], c.waiters, r, c.first))
  {
    TriesSnoc(c.tries, Dialled(addr, r));
    var ts := c.tries + [Dialled(addr, r)];
    assert ts[..|ts| - 1] == c.tries && ts[|ts| - 1] == Dialled(addr, r);
    assert Addrs(ts) <= Addrs(ts) + c.queue;
  }

  lemma FailedTry(c: Ctx, addr: Addr, r: Result)
    requires CtxOk(c, [addr]) && r.Failed? && r.e.DialError?
    ensures CtxOk(c.(tries := c.tries + [Dialled(addr, r)], result := Some(r)), [])
  {
    TriesSnoc(c.tries, Dialled(addr, r));
    assert Addrs(c.tries) + [addr] + [] == Addrs(c.tries) + [addr];
  }

  lemma DialledKeeps(s: State, a: Attempt, r: Result)
    requires a.peer in s.dialing && Books(s) && Others(s, a.peer) && CtxOk(s.dialing[a.peer], [a.addr])
    requires r.Failed? ==> r.e.DialError?
    ensures Inv(OnDialled(s, a, r))
  {
    var p := a.peer;
    var c := s.dialing[p];
    if r.Connected? {
      Succeeded(c, a.addr, r);
      var s1 := s.(dialing := s.dialing[p := c.(tries := c.tries + [Dialled(a.addr, r)])]);
      SameBooksKeep(s, s1, p);
      forall q: Peer | q != p ensures PeerInv(s1, q) {
        assert PeerInv(s, q);
        OtherPeer(s, s1, p, q);
      }
      CompleteKeeps(s1, p, r);
    } else {
      FailedTry(c, a.addr, r);
      Posted(s, OnDialled(s, a, r), p);
    }
  }

  // ---------------------------------------------------------------------------------------------
  // Steps.

  lemma CutMembers<T>(xs: seq<T>, i: nat, j: nat)
    requires i < |xs| && j < |xs| - 1
    ensures Cut(xs, i)[j] == xs[if j < i then j else j + 1]
  {
  }

  lemma CutCb(s: State, i: nat, cb: Cb)
    requires i < |s.tasks| && s.tasks[i].Rotate? && CbInv(s, cb)
    ensures CbInv(s.(tasks := Cut(s.tasks, i)), cb)
  {
    CutTask(s.tasks, i, 0, cb);
    var t := s.(tasks := Cut(s.tasks, i));
    assert WaitCount(t, cb) == WaitCount(s, cb) && GivenCount(t, cb) == GivenCount(s, cb);
    forall j | 0 <= j < |t.tasks| && t.tasks[j].Answer? && t.tasks[j].cb == cb
      ensures cb in t.fate && t.tasks[j].r == t.fate[cb]
    {
      CutMembers(s.tasks, i, j);
    }
  }

  lemma CutPeer(s: State, i: nat, q: Peer)
    requires i < |s.tasks| && s.tasks[i] != Rotate(q) && PeerInv(s, q)
    ensures PeerInv(s.(tasks := Cut(s.tasks, i)), q)
  {
    CutTask(s.tasks, i, q, 0);
  }

  lemma RotateStep(s: State, i: nat, found: bool)
    requires Inv(s) && i < |s.tasks| && s.tasks[i].Rotate?
    ensures Inv(DoRotate(s.(tasks := Cut(s.tasks, i)), s.tasks[i].peer, found))
  {
    var p, s1 := s.tasks[i].peer, s.(tasks := Cut(s.tasks, i));
    assert PeerInv(s, p);
    CutTask(s.tasks, i, p, 0);
    forall cb: Cb ensures CbInv(s1, cb) { CutCb(s, i, cb); }
    forall q: Peer | q != p ensures PeerInv(s1, q) { CutPeer(s, i, q); }
    RotateKeeps(s1, p, found);
  }

  lemma GiveCb(s: State, i: nat, cb: Cb)
    requires i < |s.tasks| && s.tasks[i].Answer? && CbInv(s, cb)
    ensures CbInv(s.(tasks := Cut(s.tasks, i), given := s.given + [(s.tasks[i].cb, s.tasks[i].r)]), cb)
  {
    var x := (s.tasks[i].cb, s.tasks[i].r);
    var t := s.(tasks := Cut(s.tasks, i), given := s.given + [x]);
    CutTask(s.tasks, i, 0, cb);
    assert Receivers(t.given) == Receivers(s.given) + [x.0];
    assert GivenCount(t, cb) == GivenCount(s, cb) + if x.0 == cb then 1 else 0;
    assert WaitCount(t, cb) == WaitCount(s, cb);
    forall j | 0 <= j < |t.tasks| && t.tasks[j].Answer? && t.tasks[j].cb == cb
      ensures cb in t.fate && t.tasks[j].r == t.fate[cb]
    {
      CutMembers(s.tasks, i, j);
    }
  }

  lemma AnswerStep(s: State, i: nat)
    requires Inv(s) && i < |s.tasks| && s.tasks[i].Answer?
    ensures Inv(s.(tasks := Cut(s.tasks, i), given := s.given + [(s.tasks[i].cb, s.tasks[i].r)]))
  {
    var t := s.(tasks := Cut(s.tasks, i), given := s.given + [(s.tasks[i].cb, s.tasks[i].r)]);
    forall cb: Cb ensures CbInv(t, cb) { GiveCb(s, i, cb); }
    forall q: Peer ensures PeerInv(t, q) { assert PeerInv(s, q); CutTask(s.tasks, i, q, 0); }
  }

  lemma LandedPeer(s: State, i: nat, q: Peer)
    requires i < |s.attempts| && s.attempts[i].peer != q && PeerInv(s, q)
    ensures PeerInv(s.(attempts := Cut(s.attempts, i)), q)
  {
    CutAttempt(s.attempts, i, q);
    forall j | 0 <= j < |s.attempts| - 1 && Cut(s.attempts, i)[j].peer == q
      ensures q in s.dialing ==> CtxOk(s.dialing[q], [Cut(s.attempts, i)[j].addr])
    {
      CutMembers(s.attempts, i, j);
    }
  }

  lemma DoneStep(s: State, i: nat, r: Result)
    requires Inv(s) && i < |s.attempts| && (r.Failed? ==> r.e.DialError?)
    ensures Inv(OnDialled(s.(attempts := Cut(s.attempts, i)), s.attempts[i], r))
  {
    var a, s1 := s.attempts[i], s.(attempts := Cut(s.attempts, i));
    assert PeerInv(s, a.peer);
    AttemptPresent(s.attempts, i);
    CutAttempt(s.attempts, i, a.peer);
    forall cb: Cb ensures CbInv(s1, cb) { assert CbInv(s, cb); }
    forall q: Peer | q != a.peer ensures PeerInv(s1, q) { LandedPeer(s, i, q); }
    DialledKeeps(s1, a, r);
  }

  // ---------------------------------------------------------------------------------------------
  // New requests.

  /** A request answered at once. */
  lemma NowCb(s: State, p: Peer, r: Result, cb: Cb)
    requires CbInv(s, cb) && CbInv(s, |s.asked|) && WaitersOk(s)
    ensures CbInv(AnswerNow(s.(asked := s.asked + [p]), |s.asked|, r), cb)
  {
    var n, t := |s.asked|, AnswerNow(s.(asked := s.asked + [p]), |s.asked|, r);
    AddTask(s.tasks, Answer(n, r), 0, cb);
    assert GivenCount(t, cb) == GivenCount(s, cb);
    if cb != n {
      assert WaitCount(t, cb) == WaitCount(s, cb);
    } else {
      assert CbCount(s.tasks, n) == 0 && GivenCount(s, n) == 0;
      NewUnknown(s, n);
      if p in s.dialing { WaiterCount(s, p, n); }
    }
  }

  /** No answer is posted or given for a number not yet used. */
  lemma NewUnknown(s: State, n: Cb)
    requires CbInv(s, n) && n >= |s.asked|
    ensures forall i :: 0 <= i < |s.tasks| ==> !(s.tasks[i].Answer? && s.tasks[i].cb == n)
    ensures forall i :: 0 <= i < |s.given| ==> s.given[i].0 != n
  {
    forall i | 0 <= i < |s.tasks| ensures !(s.tasks[i].Answer? && s.tasks[i].cb == n) {
      TaskPresent(s.tasks, s.tasks[i]);
    }
    forall i | 0 <= i < |s.given| ensures s.given[i].0 != n {
      assert Receivers(s.given)[i] == s.given[i].0;
    }
  }

  lemma NowKeeps(s: State, p: Peer, r: Result)
    requires Inv(s)
    ensures Inv(AnswerNow(s.(asked := s.asked + [p]), |s.asked|, r))
  {
    var n, t := |s.asked|, AnswerNow(s.(asked := s.asked + [p]), |s.asked|, r);
    assert CbInv(s, n);
    forall cb: Cb ensures CbInv(t, cb) { assert CbInv(s, cb); NowCb(s, p, r, cb); }
    forall q: Peer ensures PeerInv(t, q) { assert PeerInv(s, q); AddTask(s.tasks, Answer(n, r), q, 0); }
  }

  /** A request joins the dial of its peer, which may be a new one. */
  predicate Joined(s: State, t: State, p: Peer) {
    && t.asked == s.asked + [p] && p in t.dialing && t.dialing == s.dialing[p := t.dialing[p]]
    && t.dialing[p].waiters == (if p in s.dialing then s.dialing[p].waiters else []) + [|s.asked|]
    && t.tasks == s.tasks && t.attempts == s.attempts && t.given == s.given && t.fate == s.fate && t.log == s.log
  }

  lemma JoinedCb(s: State, t: State, p: Peer, cb: Cb)
    requires CbInv(s, cb) && WaitersOk(s) && Joined(s, t, p)
    ensures CbInv(t, cb)
  {
    var n := |s.asked|;
    if p in s.dialing { WaiterCount(s, p, n); }
    assert WaitCount(t, cb) == WaitCount(s, cb) + if cb == n then 1 else 0;
    assert GivenCount(t, cb) == GivenCount(s, cb);
  }

  lemma JoinedBooks(s: State, t: State, p: Peer)
    requires Books(s) && Joined(s, t, p)
    ensures Books(t)
  {
    forall cb: Cb ensures CbInv(t, cb) {
      assert CbInv(s, cb);
      JoinedCb(s, t, p, cb);
    }
  }

  lemma MergeKeeps(s: State, t: State, p: Peer, more: seq<Addr>)
    requires Inv(s) && p in s.dialing && Joined(s, t, p)
    requires t.dialing[p] == s.dialing[p].(queue := s.dialing[p].queue + more, added := s.dialing[p].added + more,
                                           seen := t.dialing[p].seen, waiters := t.dialing[p].waiters)
    ensures Inv(t)
  {
    JoinedBooks(s, t, p);
    forall q: Peer ensures PeerInv(t, q) {
      assert PeerInv(s, q);
      if q == p {
        MergedCtx(s.dialing[p], t.dialing[p], more, []);
        forall i | 0 <= i < |s.attempts| && s.attempts[i].peer == p ensures CtxOk(t.dialing[p], [s.attempts[i].addr]) {
          MergedCtx(s.dialing[p], t.dialing[p], more, [s.attempts[i].addr]);
        }
      }
    }
  }

  lemma MergedCtx(c: Ctx, d: Ctx, more: seq<Addr>, now: seq<Addr>)
    requires d == c.(queue := c.queue + more, added := c.added + more, seen := d.seen, waiters := d.waiters) &&
             d.waiters != []
    ensures CtxOk(c, now) ==> CtxOk(d, now)
  {
    Assoc(Addrs(c.tries) + now, c.queue, more);
  }

  lemma NewCtx(addrs: seq<Addr>, cb: Cb)
    ensures CtxOk(Ctx(addrs, ToSet(addrs), [cb], None, false, addrs, [], |addrs|), [])
  {
    assert Addrs([]) + [] + addrs == addrs;
  }

  lemma NewDialKeeps(s: State, t: State, p: Peer, addrs: seq<Addr>, found: bool)
    requires Inv(s) && p !in s.dialing && Joined(s, t, p) && addrs != []
    requires t.dialing[p] == Ctx(addrs, ToSet(addrs), [|s.asked|], None, false, addrs, [], |addrs|)
    ensures Inv(DoRotate(t, p, found))
  {
    JoinedBooks(s, t, p);
    assert PeerInv(s, p);
    forall q: Peer | q != p ensures PeerInv(t, q) { assert PeerInv(s, q); }
    NewCtx(addrs, |s.asked|);
    RotateKeeps(t, p, found);
  }

  lemma AskStep(s: State, p: Peer, addrs: seq<Addr>, best: Option<Conn>, found: bool)
    requires Inv(s)
    ensures Inv(Dial(s, p, addrs, best, found))
  {
    var cb, s1 := |s.asked|, s.(asked := s.asked + [p]);
    if best.Some? {
      NowKeeps(s, p, Connected(best.value));
    } else if p in s.dialing {
      MergeKeeps(s, Dial(s, p, addrs, best, found), p, NewAddrs(s.dialing[p].seen, addrs));
    } else if addrs == [] {
      NowKeeps(s, p, Failed(AddressRequired));
    } else {
      NewDialKeeps(s, s1.(dialing := s.dialing[p := Ctx(addrs, ToSet(addrs), [cb], None, false, addrs, [], |addrs|)]),
        p, addrs, found);
    }
  }

  lemma StepKeeps(s: State, e: Event)
    requires Inv(s) && Enabled(s, e)
    ensures Inv(Step(s, e))
  {
    match e
    case Ask(p, addrs, best, found) => AskStep(s, p, addrs, best, found);
    case Work(i, found) => if s.tasks[i].Rotate? { RotateStep(s, i, found); } else { AnswerStep(s, i); }
    case Done(i, r) => DoneStep(s, i, r);
  }

  lemma {:induction false} RunKeeps(s: State, es: seq<Event>)
    requires Inv(s) && IsRun(s, es)
    ensures Inv(Final(s, es))
    decreases |es|
  {
    if es != [] {
      StepKeeps(s, es[0]);
      RunKeeps(Step(s, es[0]), es[1..]);
    }
  }

  lemma StartInv()
    ensures Inv(Start)
  {
  }

  // ---------------------------------------------------------------------------------------------
  // What every run guarantees.

  /** While a peer is being dialled exactly one continuation is pending for it; otherwise none is. */
  lemma OneContinuation(es: seq<Event>, p: Peer)
    requires IsRun(Start, es)
    ensures var s := Final(Start, es); Continuations(s, p) == if p in s.dialing then 1 else 0
  {
    StartInv();
    RunKeeps(Start, es);
    assert PeerInv(Final(Start, es), p);
  }

  /** Every request is waiting, about to be answered or answered, exactly one of these and once. */
  lemma AnsweredOnce(es: seq<Event>, cb: Cb)
    requires IsRun(Start, es)
    ensures var s := Final(Start, es);
            WaitCount(s, cb) + CbCount(s.tasks, cb) + GivenCount(s, cb) == if cb < |s.asked| then 1 else 0
  {
    StartInv();
    RunKeeps(Start, es);
    assert CbInv(Final(Start, es), cb);
  }

  /**
   * Every finished dial tried addresses in the order they were queued, each at most as often as queued, stopped at
   * the first success or went through all of them, and gave every one of its requests the same result: that success,
   * else the last error, else that no transport fits.
   */
  lemma OneResultForAll(es: seq<Event>, k: nat, i: nat)
    requires IsRun(Start, es) && k < |Final(Start, es).log| && i < |Final(Start, es).given|
    ensures var s := Final(Start, es);
            && SessionOk(s.log[k]) && |s.log[k].tries| <= |s.log[k].added|
            && (s.given[i].0 in s.log[k].waiters ==> s.given[i].1 == s.log[k].result)
  {
    StartInv();
    RunKeeps(Start, es);
    var s := Final(Start, es);
    assert CbInv(s, s.given[i].0);
    if s.given[i].0 in s.log[k].waiters {
      var j :| 0 <= j < |s.log[k].waiters| && s.log[k].waiters[j] == s.given[i].0;
    }
  }

  // ---------------------------------------------------------------------------------------------
  // Merged addresses.

  /** No address that came with a later request is queued twice. */
  predicate LaterOnce(added: seq<Addr>, first: nat) {
    first <= |added| && forall i, j :: 0 <= i < j < |added| && first <= j ==> added[i] != added[j]
  }

  ghost predicate Merges(s: State) {
    && (forall p :: p in s.dialing ==>
      s.dialing[p].seen == ToSet(s.dialing[p].added) && LaterOnce(s.dialing[p].added, s.dialing[p].first))
    && (forall k :: 0 <= k < |s.log| ==> LaterOnce(s.log[k].added, s.log[k].first))
  }

  lemma {:induction false} NewAddrsFresh(seen: set<Addr>, addrs: seq<Addr>)
    ensures var more := NewAddrs(seen, addrs);
            && seen + ToSet(more) == seen + ToSet(addrs)
            && (forall i :: 0 <= i < |more| ==> more[i] !in seen)
            && (forall i, j :: 0 <= i < j < |more| ==> more[i] != more[j])
    decreases |addrs|
  {
    if addrs != [] {
      assert ToSet(addrs) == {addrs[0]} + ToSet(addrs[1..]);
      if addrs[0] in seen {
        NewAddrsFresh(seen, addrs[1..]);
      } else {
        NewAddrsFresh(seen + {addrs[0]}, addrs[1..]);
        var rest := NewAddrs(seen + {addrs[0]}, addrs[1..]);
        assert ToSet([addrs[0]] + rest) == {addrs[0]} + ToSet(rest);
      }
    }
  }

  lemma MergeOnce(added: seq<Addr>, first: nat, addrs: seq<Addr>)
    requires LaterOnce(added, first)
    ensures var more := NewAddrs(ToSet(added), addrs);
            LaterOnce(added + more, first) && ToSet(added + more) == ToSet(added) + ToSet(addrs)
  {
    NewAddrsFresh(ToSet(added), addrs);
    var more := NewAddrs(ToSet(added), addrs);
    assert ToSet(added + more) == ToSet(added) + ToSet(more);
    forall i, j | 0 <= i < j < |added + more| && first <= j
      ensures (added + more)[i] != (added + more)[j]
    {
      if j >= |added| {
        assert more[j - |added|] !in ToSet(added);
        if i >= |added| { assert more[i - |added|] != more[j - |added|]; }
      }
    }
  }

  lemma RotateMerges(s: State, p: Peer, found: bool)
    requires Merges(s)
    ensures Merges(DoRotate(s, p, found))
  {
  }

  lemma AskMerges(s: State, p: Peer, addrs: seq<Addr>, best: Option<Conn>, found: bool)
    requires Merges(s)
    ensures Merges(Dial(s, p, addrs, best, found))
  {
    hide DoRotate, LaterOnce, NewAddrs, ToSet;
    var cb, s1 := |s.asked|, s.(asked := s.asked + [p]);
    if best.None? && p in s.dialing {
      MergeOnce(s.dialing[p].added, s.dialing[p].first, addrs);
    } else if best.None? && addrs != [] {
      FirstOnce(addrs);
      RotateMerges(s1.(dialing := s.dialing[p := Ctx(addrs, ToSet(addrs), [cb], None, false, addrs, [], |addrs|)]), p,
        found);
    }
  }

  lemma FirstOnce(addrs: seq<Addr>)
    ensures LaterOnce(addrs, |addrs|)
  {
  }

  lemma {:induction false} RunMerges(s: State, es: seq<Event>)
    requires Merges(s) && IsRun(s, es)
    ensures Merges(Final(s, es))
    decreases |es|
  {
    hide DoRotate, LaterOnce, NewAddrs, ToSet, Dial;
    if es != [] {
      match es[0] {
        case Ask(p, addrs, best, found) => AskMerges(s, p, addrs, best, found);
        case Work(i, found) => if s.tasks[i].Rotate? {
          RotateMerges(s.(tasks := Cut(s.tasks, i)), s.tasks[i].peer, found);
        }
        case Done(_, _) =>
      }
      RunMerges(Step(s, es[0]), es[1..]);
    }
  }

  predicate Distinct(addrs: seq<Addr>) { forall i, j :: 0 <= i < j < |addrs| ==> addrs[i] != addrs[j] }

  /**
   * However many requests a dial merges, an address is queued twice only if the request that began the dial listed it
   * twice: the addresses of a dial are distinct exactly when those of that request were.
   */
  lemma MergedOnce(es: seq<Event>, p: Peer)
    requires IsRun(Start, es) && p in Final(Start, es).dialing
    ensures var c := Final(Start, es).dialing[p];
            && c.first <= |c.added| && c.seen == ToSet(c.added)
            && (Distinct(c.added) <==> Distinct(c.added[..c.first]))
  {
    RunMerges(Start, es);
    DistinctParts(Final(Start, es).dialing[p].added, Final(Start, es).dialing[p].first);
  }

  /** The same for a finished dial: then no address was tried twice. */
  lemma TriedOnce(es: seq<Event>, k: nat)
    requires IsRun(Start, es) && k < |Final(Start, es).log|
    ensures var x := Final(Start, es).log[k];
            && x.first <= |x.added|
            && (Distinct(x.added) <==> Distinct(x.added[..x.first]))
            && (Distinct(x.added[..x.first]) ==> Distinct(Addrs(x.tries)))
  {
    RunMerges(Start, es);
    StartInv();
    RunKeeps(Start, es);
    var x := Final(Start, es).log[k];
    DistinctParts(x.added, x.first);
    assert SessionOk(x);
    assert forall i :: 0 <= i < |x.tries| ==> Addrs(x.tries)[i] == x.added[i];
  }

  lemma DistinctParts(added: seq<Addr>, first: nat)
    requires LaterOnce(added, first)
    ensures Distinct(added) <==> Distinct(added[..first])
  {
  }

  /** With nothing pending every request has its answer. */
  lemma NobodyForgotten(es: seq<Event>, cb: Cb)
    requires IsRun(Start, es) && Final(Start, es).tasks == [] && Final(Start, es).attempts == []
    ensures var s := Final(Start, es); s.dialing == map[] && (cb < |s.asked| ==> GivenCount(s, cb) == 1)
  {
    AnsweredOnce(es, cb);
    var s := Final(Start, es);
    forall p: Peer ensures p !in s.dialing { OneContinuation(es, p); }
  }
}
