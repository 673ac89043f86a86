/**
 * The scheduler (src/basic/scheduler/scheduler_impl.cpp) on the manual backend
 * (src/basic/scheduler/manual_scheduler_backend.cpp): one timer serves a multimap of deadlines, insertion and
 * erasure are posted to run later, and every callback may schedule and cancel others while it runs.
 *
 * Tasks are numbered in the order they are scheduled. What the callbacks do is the `script`: each callback that
 * runs takes the first entry of the script as the calls it makes, so a script stands for any application. `ran`,
 * `dropped`, `cancelled` and `asked` are records.
 */
module Scheduler {
  import opened Basics

  /** `due` is the key in the multimap, 0 for tasks without a delay; `handled` if a handle was asked for. */
  datatype Task = Task(due: nat, handled: bool)

  datatype Posted = Insert(id: nat) | Erase(id: nat)

  datatype Entry = Entry(at: nat, id: nat)

  datatype Run = Run(id: nat, time: nat)

  /** A call of `schedule`: when it was made and for how long after. */
  datatype Ask = Ask(at: nat, delay: int)

  datatype Cmd = Schedule(delay: int, handled: bool) | Cancel(id: nat)

  datatype State = State(
    threshold: nat,
    clock: nat,
    expires: Option<int>,       // the backend's timer
    timer: int,                 // the scheduler's idea of it
    deferred: seq<Posted>,
    callbacks: seq<Entry>,      // the multimap in iteration order
    tasks: seq<Task>,
    flagged: set<nat>,          // cancelled flags that are set
    inserted: set<nat>,         // cancel records that hold an iterator
    script: seq<seq<Cmd>>,
    ran: seq<Run>,
    dropped: seq<nat>,
    cancelled: set<nat>,
    asked: seq<Ask>)

  /** The clock of the manual backend starts at 1; the constructor leaves `timer_` as it finds it. */
  function Start(threshold: nat, timer: int): State {
    State(threshold, 1, None, timer, [], [], [], {}, {}, [], [], [], {}, [])
  }

  predicate Handled(s: State, id: nat) { id < |s.tasks| && s.tasks[id].handled }

  // ---------------------------------------------------------------------------------------------
  // Calls of the application.

  function DoSchedule(s: State, delay: int, handled: bool): State {
    var due := if delay > 0 then s.clock + delay else 0;
    s.(deferred := s.deferred + [Insert(|s.tasks|)], tasks := s.tasks + [Task(due, handled)],
       asked := s.asked + [Ask(s.clock, delay)])
  }

  /** The cancel record lives as long as a posted insertion or an entry of the multimap refers to it. */
  predicate Alive(s: State, id: nat) {
    Insert(id) in s.deferred || exists i :: 0 <= i < |s.callbacks| && s.callbacks[i].id == id
  }

  function DoCancel(s: State, id: nat): State {
    if Handled(s, id) && Alive(s, id) && id !in s.flagged
    then s.(flagged := s.flagged + {id}, deferred := s.deferred + [Erase(id)], cancelled := s.cancelled + {id})
    else s
  }

  function DoCmd(s: State, c: Cmd): State {
    match c
    case Schedule(delay, handled) => DoSchedule(s, delay, handled)
    case Cancel(id) => DoCancel(s, id)
  }

  function DoCmds(s: State, cs: seq<Cmd>): State
    decreases |cs|
  {
    if cs == [] then s else DoCmds(DoCmd(s, cs[0]), cs[1..])
  }

  /** Running the callback of `id`. */
  function Exec(s: State, id: nat): State {
    var s1 := s.(ran := s.ran + [Run(id, s.clock)]);
    if s.script == [] then s1 else DoCmds(s1.(script := s.script[1..]), s.script[0])
  }

  // ---------------------------------------------------------------------------------------------
  // The scheduler.

  /** One extracted entry. */
  function Fire(s: State, id: nat): State {
    if Handled(s, id) then
      if id in s.flagged then s.(dropped := s.dropped + [id]) else Exec(s.(flagged := s.flagged + {id}), id)
    else Exec(s, id)
  }

  lemma {:induction false} CmdsKeepCallbacks(s: State, cs: seq<Cmd>)
    ensures var t := DoCmds(s, cs);
            t.callbacks == s.callbacks && t.clock == s.clock && t.script == s.script && t.ran == s.ran &&
              t.dropped == s.dropped
            && t.timer == s.timer && t.expires == s.expires && t.threshold == s.threshold && t.inserted == s.inserted
    decreases |cs|
  {
    if cs != [] { CmdsKeepCallbacks(DoCmd(s, cs[0]), cs[1..]); }
  }

  lemma FireKeepsCallbacks(s: State, id: nat)
    ensures var t := Fire(s, id);
            t.callbacks == s.callbacks && t.clock == s.clock && t.timer == s.timer && t.expires == s.expires
            && t.threshold == s.threshold && t.inserted == s.inserted
  {
    var s1 := if Handled(s, id) then s.(flagged := s.flagged + {id}) else s;
    if s.script != [] {
      CmdsKeepCallbacks(s1.(ran := s1.ran + [Run(id, s1.clock)], script := s1.script[1..]), s1.script[0]);
    }
  }

  function CallReady(s: State, now: nat): State
    decreases |s.callbacks|
  {
    if s.callbacks == [] || s.callbacks[0].at > now then s
    else
      var s1 := s.(callbacks := s.callbacks[1..]);
      FireKeepsCallbacks(s1, s.callbacks[0].id);
      CallReady(Fire(s1, s.callbacks[0].id), now)
  }

  function Arm(s: State): State
    requires s.callbacks != []
  {
    var min := s.callbacks[0].at;
    if s.clock < s.timer && s.timer <= min + s.threshold then s
    else
      var t := Max(s.clock + s.threshold, min);
      s.(timer := t, expires := Some(t))
  }

  /** The loop of `pulse`: a second round finds nothing ready, since the clock stands still. */
  function Pulse(s: State): State {
    var s1 := CallReady(CallReady(s, 0), s.clock);
    if s1.callbacks == [] then s1 else Arm(s1)
  }

  /** Behind all entries with the same key. */
  function Emplace(es: seq<Entry>, e: Entry): seq<Entry> {
    if es == [] || e.at < es[0].at then [e] + es else [es[0]] + Emplace(es[1..], e)
  }

  function Without(es: seq<Entry>, id: nat): seq<Entry> {
    if es == [] then [] else if es[0].id == id then es[1..] else [es[0]] + Without(es[1..], id)
  }

  function DoInsert(s: State, id: nat): State
    requires id < |s.tasks|
  {
    if Handled(s, id) && id in s.flagged then s.(dropped := s.dropped + [id])
    else
      Pulse(s.(callbacks := Emplace(s.callbacks, Entry(s.tasks[id].due, id)),
               inserted := if Handled(s, id) then s.inserted + {id} else s.inserted))
  }

  function DoErase(s: State, id: nat): State {
    if Alive(s, id) && id in s.inserted then s.(callbacks := Without(s.callbacks, id), dropped := s.dropped + [id])
      else s
  }

  function Perform(s: State, p: Posted): State {
    match p
    case Insert(id) => if id < |s.tasks| then DoInsert(s, id) else s
    case Erase(id) => DoErase(s, id)
  }

  /** Posted work plus all the calls still to come from the script: what bounds the loop over posted work. */
  function Work(s: State): nat { |s.deferred| + Sum(s.script) }

  function Sum(script: seq<seq<Cmd>>): nat {
    if script == [] then 0 else |script[0]| + Sum(script[1..])
  }

  lemma {:induction false} CmdsWork(s: State, cs: seq<Cmd>)
    ensures |DoCmds(s, cs).deferred| <= |s.deferred| + |cs|
    decreases |cs|
  {
    if cs != [] { CmdsWork(DoCmd(s, cs[0]), cs[1..]); }
  }

  lemma FireWork(s: State, id: nat)
    ensures Work(Fire(s, id)) <= Work(s)
  {
    var s1 := if Handled(s, id) then s.(flagged := s.flagged + {id}) else s;
    if s.script != [] {
      var s2 := s1.(ran := s1.ran + [Run(id, s1.clock)], script := s1.script[1..]);
      CmdsWork(s2, s1.script[0]);
      CmdsKeepCallbacks(s2, s1.script[0]);
    }
  }

  lemma {:induction false} CallReadyWork(s: State, now: nat)
    ensures Work(CallReady(s, now)) <= Work(s)
    decreases |s.callbacks|
  {
    if s.callbacks != [] && s.callbacks[0].at <= now {
      var s1 := s.(callbacks := s.callbacks[1..]);
      FireKeepsCallbacks(s1, s.callbacks[0].id);
      FireWork(s1, s.callbacks[0].id);
      CallReadyWork(Fire(s1, s.callbacks[0].id), now);
    }
  }

  lemma PerformWork(s: State, p: Posted)
    ensures Work(Perform(s, p)) <= Work(s)
  {
    if p.Insert? && p.id < |s.tasks| && !(Handled(s, p.id) && p.id in s.flagged) {
      var s1 := s.(callbacks := Emplace(s.callbacks, Entry(s.tasks[p.id].due, p.id)),
                   inserted := if Handled(s, p.id) then s.inserted + {p.id} else s.inserted);
      CallReadyWork(s1, 0);
      CallReadyWork(CallReady(s1, 0), s1.clock);
    }
  }

  /** `callDeferred`. */
  function CallDeferred(s: State): State
    decreases Work(s)
  {
    if s.deferred == [] then s
    else
      var s1 := s.(deferred := s.deferred[1..]);
      PerformWork(s1, s.deferred[0]);
      CallDeferred(Perform(s1, s.deferred[0]))
  }

  function FireTimer(s: State): State {
    if s.expires.Some? && s.expires.value <= s.clock then Pulse(s.(expires := None)) else s
  }

  function Advance(s: State, delta: int): State { s.(clock := s.clock + if delta > 0 then delta else 0) }

  /** `shift`: the clock moves once, in between the posted work before and after. */
  function Shift(s: State, delta: int): State { CallDeferred(FireTimer(Advance(CallDeferred(s), delta))) }

  // ---------------------------------------------------------------------------------------------
  // Where a task is.

  function Inserting(ps: seq<Posted>): seq<nat> {
    if ps == [] then [] else (if ps[0].Insert? then [ps[0].id] else []) + Inserting(ps[1..])
  }

  function Ids(es: seq<Entry>): seq<nat> { seq(|es|, i requires 0 <= i < |es| => es[i].id) }

  function RanIds(rs: seq<Run>): seq<nat> { seq(|rs|, i requires 0 <= i < |rs| => rs[i].id) }

  ghost function Posts(s: State, id: nat): nat { multiset(Inserting(s.deferred))[id] }

  ghost function Pends(s: State, id: nat): nat { multiset(Ids(s.callbacks))[id] }

  ghost function Runs(s: State, id: nat): nat { multiset(RanIds(s.ran))[id] }

  ghost function Drops(s: State, id: nat): nat { multiset(s.dropped)[id] }

  /**
   * A task is posted, pending, run or dropped, in exactly one of these places and once. It is dropped only if its
   * cancellation took effect, and then it never runs. The flag is set by the cancellation or by the run, and a
   * cancel record holds an iterator while the task is pending but not while it is posted.
   */
  ghost predicate TaskInv(s: State, id: nat) {
    && Posts(s, id) + Pends(s, id) + Runs(s, id) + Drops(s, id) == (if id < |s.tasks| then 1 else 0)
    && (id in s.flagged <==> id in s.cancelled || (Handled(s, id) && Runs(s, id) > 0))
    && (id in s.cancelled ==> Handled(s, id) && Runs(s, id) == 0)
    && (Drops(s, id) > 0 || Erase(id) in s.deferred ==> id in s.cancelled)
    && (id in s.inserted ==> Handled(s, id) && Posts(s, id) == 0)
    && (Handled(s, id) && Pends(s, id) > 0 ==> id in s.inserted)
  }

  predicate Sorted(es: seq<Entry>) { forall i, j :: 0 <= i < j < |es| ==> es[i].at <= es[j].at }

  /** Entries are keyed by the due time of their task. */
  predicate Keyed(s: State) {
    forall i :: 0 <= i < |s.callbacks| ==>
      s.callbacks[i].id < |s.tasks| && s.callbacks[i].at == s.tasks[s.callbacks[i].id].due
  }

  /** No callback ran before it was due. */
  predicate NotEarly(s: State) {
    forall i :: 0 <= i < |s.ran| ==> s.ran[i].id < |s.tasks| && s.tasks[s.ran[i].id].due <= s.ran[i].time <= s.clock
  }

  ghost predicate Inv(s: State) {
    Sorted(s.callbacks) && Keyed(s) && NotEarly(s) && forall id: nat :: TaskInv(s, id)
  }

  // ---------------------------------------------------------------------------------------------
  // Counting.

  lemma {:induction false} InsertingSnoc(ps: seq<Posted>, p: Posted)
    ensures Inserting(ps + [p]) == Inserting(ps) + if p.Insert? then [p.id] else []
  {
    if ps == [] {
      assert ([] + [p])[1..] == [];
    } else {
      assert (ps + [p])[1..] == ps[1..] + [p];
      InsertingSnoc(ps[1..], p);
      Assoc(if ps[0].Insert? then [ps[0].id] else [], Inserting(ps[1..]), if p.Insert? then [p.id] else []);
    }
  }

  lemma {:induction false} InsertingIn(ps: seq<Posted>, id: nat)
    ensures id in Inserting(ps) <==> Insert(id) in ps
  {
    if ps != [] {
      InsertingIn(ps[1..], id);
      assert ps == [ps[0]] + ps[1..];
    }
  }

  lemma IdsCons(es: seq<Entry>)
    requires es != []
    ensures Ids(es) == [es[0].id] + Ids(es[1..])
  {
  }

  lemma IdsIn(es: seq<Entry>, id: nat)
    ensures id in Ids(es) <==> exists i :: 0 <= i < |es| && es[i].id == id
  {
    if i :| 0 <= i < |es| && es[i].id == id { assert Ids(es)[i] == id; }
  }

  lemma RanSnoc(rs: seq<Run>, r: Run)
    ensures RanIds(rs + [r]) == RanIds(rs) + [r.id]
  {
  }

  lemma {:induction false} EmplaceIds(es: seq<Entry>, e: Entry)
    ensures multiset(Ids(Emplace(es, e))) == multiset(Ids(es)) + multiset{e.id}
  {
    IdsCons(Emplace(es, e));
    if es == [] || e.at < es[0].at {
      assert Emplace(es, e)[1..] == es;
    } else {
      EmplaceIds(es[1..], e);
      IdsCons(es);
      assert Emplace(es, e)[1..] == Emplace(es[1..], e);
    }
  }

  lemma {:induction false} WithoutIds(es: seq<Entry>, id: nat)
    ensures multiset(Ids(Without(es, id))) == multiset(Ids(es)) - multiset{id}
  {
    if es != [] {
      IdsCons(es);
      if es[0].id != id {
        WithoutIds(es[1..], id);
        IdsCons(Without(es, id));
        assert Without(es, id)[1..] == Without(es[1..], id);
      }
    }
  }

  /** Elements of `es` with `e` put in. */
  lemma {:induction false} EmplaceMembers(es: seq<Entry>, e: Entry)
    ensures forall i :: 0 <= i < |Emplace(es, e)| ==> Emplace(es, e)[i] == e || Emplace(es, e)[i] in es
  {
    if es != [] && e.at >= es[0].at { EmplaceMembers(es[1..], e); }
  }

  lemma {:induction false} EmplaceSorted(es: seq<Entry>, e: Entry)
    requires Sorted(es)
    ensures Sorted(Emplace(es, e))
  {
    if es != [] && e.at >= es[0].at {
      EmplaceSorted(es[1..], e);
      EmplaceMembers(es[1..], e);
      var r := Emplace(es[1..], e);
      forall j | 0 <= j < |r| ensures es[0].at <= r[j].at {
        if r[j] != e { var k :| 0 <= k < |es[1..]| && es[1..][k] == r[j]; }
      }
    }
  }

  lemma {:induction false} WithoutMembers(es: seq<Entry>, id: nat)
    ensures forall i :: 0 <= i < |Without(es, id)| ==> Without(es, id)[i] in es
  {
    if es != [] && es[0].id != id { WithoutMembers(es[1..], id); }
  }

  lemma {:induction false} WithoutSorted(es: seq<Entry>, id: nat)
    requires Sorted(es)
    ensures Sorted(Without(es, id))
  {
    if es != [] && es[0].id != id {
      WithoutSorted(es[1..], id);
      WithoutMembers(es[1..], id);
      var r := Without(es[1..], id);
      forall j | 0 <= j < |r| ensures es[0].at <= r[j].at {
        var k :| 0 <= k < |es[1..]| && es[1..][k] == r[j];
      }
    }
  }

  // ---------------------------------------------------------------------------------------------
  // Every step keeps the invariant.

  lemma ScheduleTask(s: State, delay: int, handled: bool, id: nat)
    requires TaskInv(s, id) && TaskInv(s, |s.tasks|)
    ensures TaskInv(DoSchedule(s, delay, handled), id)
  {
    var n, t := |s.tasks|, DoSchedule(s, delay, handled);
    InsertingSnoc(s.deferred, Insert(n));
    assert Posts(t, id) == Posts(s, id) + if id == n then 1 else 0;
    assert Erase(id) in t.deferred <==> Erase(id) in s.deferred;
    assert id != n ==> (Handled(t, id) <==> Handled(s, id));
    assert Pends(t, id) == Pends(s, id) && Runs(t, id) == Runs(s, id) && Drops(t, id) == Drops(s, id);
  }

  lemma ScheduleKeeps(s: State, delay: int, handled: bool)
    requires Inv(s)
    ensures Inv(DoSchedule(s, delay, handled))
  {
    forall id: nat ensures TaskInv(DoSchedule(s, delay, handled), id) {
      ScheduleTask(s, delay, handled, id);
    }
  }

  lemma AliveCounts(s: State, id: nat)
    ensures Alive(s, id) <==> Posts(s, id) + Pends(s, id) > 0
  {
    InsertingIn(s.deferred, id);
    IdsIn(s.callbacks, id);
    assert Posts(s, id) > 0 <==> id in Inserting(s.deferred);
    assert Pends(s, id) > 0 <==> id in Ids(s.callbacks);
  }

  lemma CancelTask(s: State, c: nat, id: nat)
    requires TaskInv(s, id)
    ensures TaskInv(DoCancel(s, c), id)
  {
    var t := DoCancel(s, c);
    if t != s {
      AliveCounts(s, c);
      assert Posts(t, id) == Posts(s, id) by { InsertingSnoc(s.deferred, Erase(c)); }
      assert Erase(id) in t.deferred <==> Erase(id) in s.deferred || id == c;
    }
  }

  lemma CancelKeeps(s: State, c: nat)
    requires Inv(s)
    ensures Inv(DoCancel(s, c))
  {
    forall id: nat ensures TaskInv(DoCancel(s, c), id) {
      CancelTask(s, c, id);
    }
  }

  lemma {:induction false} CmdsKeep(s: State, cs: seq<Cmd>)
    requires Inv(s)
    ensures Inv(DoCmds(s, cs))
    decreases |cs|
  {
    if cs != [] {
      match cs[0] {
        case Schedule(delay, handled) => ScheduleKeeps(s, delay, handled);
        case Cancel(id) => CancelKeeps(s, id);
      }
      CmdsKeep(DoCmd(s, cs[0]), cs[1..]);
    }
  }

  /** The state after the first entry was extracted and its callback is about to make its calls. */
  function Starting(s: State): State
    requires s.callbacks != []
  {
    var id := s.callbacks[0].id;
    s.(callbacks := s.callbacks[1..], flagged := if Handled(s, id) then s.flagged + {id} else s.flagged,
       ran := s.ran + [Run(id, s.clock)])
  }

  predicate Skipped(s: State, id: nat) { Handled(s, id) && id in s.flagged }

  function Skip(s: State): State
    requires s.callbacks != []
  {
    s.(callbacks := s.callbacks[1..], dropped := s.dropped + [s.callbacks[0].id])
  }

  lemma PopPends(s: State, id: nat)
    requires s.callbacks != []
    ensures multiset(Ids(s.callbacks[1..]))[id] == Pends(s, id) - if s.callbacks[0].id == id then 1 else 0
  {
    IdsCons(s.callbacks);
  }

  lemma StartingTask(s: State, id: nat)
    requires s.callbacks != [] && TaskInv(s, id) && !Skipped(s, s.callbacks[0].id)
    ensures TaskInv(Starting(s), id)
  {
    PopPends(s, id);
    RanSnoc(s.ran, Run(s.callbacks[0].id, s.clock));
    var t := Starting(s);
    assert Runs(t, id) == Runs(s, id) + if s.callbacks[0].id == id then 1 else 0;
  }

  lemma SkipTask(s: State, id: nat)
    requires s.callbacks != [] && TaskInv(s, id) && Skipped(s, s.callbacks[0].id)
    ensures TaskInv(Skip(s), id)
  {
    PopPends(s, id);
    assert Drops(Skip(s), id) == Drops(s, id) + if s.callbacks[0].id == id then 1 else 0;
  }

  lemma TakeKeeps(s: State)
    requires Inv(s) && s.callbacks != [] && s.callbacks[0].at <= s.clock
    ensures Inv(if Skipped(s, s.callbacks[0].id) then Skip(s) else Starting(s))
  {
    var t := if Skipped(s, s.callbacks[0].id) then Skip(s) else Starting(s);
    forall id: nat ensures TaskInv(t, id) {
      if Skipped(s, s.callbacks[0].id) { SkipTask(s, id); } else { StartingTask(s, id); }
    }
  }

  lemma FireKeeps(s: State)
    requires Inv(s) && s.callbacks != [] && s.callbacks[0].at <= s.clock
    ensures Inv(Fire(s.(callbacks := s.callbacks[1..]), s.callbacks[0].id))
  {
    TakeKeeps(s);
    if !Skipped(s, s.callbacks[0].id) && s.script != [] {
      ScriptKeeps(Starting(s), s.script[1..]);
      CmdsKeep(Starting(s).(script := s.script[1..]), s.script[0]);
    }
  }

  lemma ScriptKeeps(s: State, script: seq<seq<Cmd>>)
    requires Inv(s)
    ensures Inv(s.(script := script))
  {
    forall id: nat ensures TaskInv(s.(script := script), id) { assert TaskInv(s, id); }
  }

  lemma {:induction false} CallReadyKeeps(s: State, now: nat)
    requires Inv(s) && now <= s.clock
    ensures Inv(CallReady(s, now)) && CallReady(s, now).clock == s.clock
    ensures CallReady(s, now).callbacks != [] ==> CallReady(s, now).callbacks[0].at > now
    decreases |s.callbacks|
  {
    if s.callbacks != [] && s.callbacks[0].at <= now {
      var s1 := s.(callbacks := s.callbacks[1..]);
      FireKeepsCallbacks(s1, s.callbacks[0].id);
      FireKeeps(s);
      CallReadyKeeps(Fire(s1, s.callbacks[0].id), now);
    }
  }

  lemma TimersKeep(s: State, timer: int, expires: Option<int>, clock: nat)
    requires Inv(s) && s.clock <= clock
    ensures Inv(s.(timer := timer, expires := expires, clock := clock))
  {
    var t := s.(timer := timer, expires := expires, clock := clock);
    forall id: nat ensures TaskInv(t, id) { assert TaskInv(s, id); }
  }

  lemma PulseKeeps(s: State)
    requires Inv(s)
    ensures Inv(Pulse(s)) && Pulse(s).clock == s.clock
  {
    CallReadyKeeps(s, 0);
    var s1 := CallReady(s, 0);
    CallReadyKeeps(s1, s1.clock);
    var s2 := CallReady(s1, s1.clock);
    TimersKeep(s2, Pulse(s).timer, Pulse(s).expires, s2.clock);
  }

  function Popped(s: State): State
    requires s.deferred != []
  {
    s.(deferred := s.deferred[1..])
  }

  /** A posted insertion on its way into the multimap. */
  function Inserted(s: State, id: nat): State
    requires id < |s.tasks|
  {
    s.(callbacks := Emplace(s.callbacks, Entry(s.tasks[id].due, id)),
      inserted := if Handled(s, id) then s.inserted + {id} else s.inserted)
  }

  lemma PoppedPosts(s: State, id: nat)
    requires s.deferred != []
    ensures Posts(Popped(s), id) == Posts(s, id) - if s.deferred[0] == Insert(id) then 1 else 0
    ensures Erase(id) in Popped(s).deferred ==> Erase(id) in s.deferred
  {
    assert Inserting(s.deferred) == (if s.deferred[0].Insert? then [s.deferred[0].id] else []) +
      Inserting(s.deferred[1..]);
  }

  lemma InsertedTask(s: State, id: nat, other: nat)
    requires s.deferred != [] && s.deferred[0] == Insert(id) && id < |s.tasks| && !Skipped(s, id) && TaskInv(s, other)
    ensures TaskInv(Inserted(Popped(s), id), other)
  {
    PoppedPosts(s, other);
    EmplaceIds(s.callbacks, Entry(s.tasks[id].due, id));
    var t := Inserted(Popped(s), id);
    assert Pends(t, other) == Pends(s, other) + if other == id then 1 else 0;
  }

  lemma InsertedKeeps(s: State, id: nat)
    requires Inv(s) && s.deferred != [] && s.deferred[0] == Insert(id) && id < |s.tasks| && !Skipped(s, id)
    ensures Inv(Inserted(Popped(s), id))
  {
    var e := Entry(s.tasks[id].due, id);
    EmplaceSorted(s.callbacks, e);
    EmplaceMembers(s.callbacks, e);
    forall other: nat ensures TaskInv(Inserted(Popped(s), id), other) { InsertedTask(s, id, other); }
  }

  lemma DiscardedTask(s: State, id: nat, other: nat)
    requires s.deferred != [] && s.deferred[0] == Insert(id) && Skipped(s, id) && TaskInv(s, other)
    ensures TaskInv(Popped(s).(dropped := s.dropped + [id]), other)
  {
    PoppedPosts(s, other);
    var t := Popped(s).(dropped := s.dropped + [id]);
    assert Drops(t, other) == Drops(s, other) + if other == id then 1 else 0;
  }

  lemma DiscardedKeeps(s: State, id: nat)
    requires Inv(s) && s.deferred != [] && s.deferred[0] == Insert(id) && Skipped(s, id)
    ensures Inv(Popped(s).(dropped := s.dropped + [id]))
  {
    forall other: nat ensures TaskInv(Popped(s).(dropped := s.dropped + [id]), other) { DiscardedTask(s, id, other); }
  }

  /** A posted erasure finds the entry its iterator refers to, or nothing is left to erase. */
  lemma ErasePresent(s: State, id: nat)
    requires TaskInv(s, id) && Alive(s, id) && id in s.inserted
    ensures exists i :: 0 <= i < |s.callbacks| && s.callbacks[i].id == id
  {
    AliveCounts(s, id);
    IdsIn(s.callbacks, id);
    assert Pends(s, id) > 0;
    assert id in Ids(s.callbacks);
  }

  lemma ErasedTask(s: State, id: nat, other: nat)
    requires s.deferred != [] && s.deferred[0] == Erase(id) && TaskInv(s, id) && TaskInv(s, other)
    ensures TaskInv(DoErase(Popped(s), id), other)
  {
    PoppedPosts(s, other);
    PoppedPosts(s, id);
    var p, t := Popped(s), DoErase(Popped(s), id);
    if t != p {
      AliveCounts(p, id);
      WithoutIds(s.callbacks, id);
      assert Pends(t, other) == Pends(s, other) - if other == id then 1 else 0;
      assert Drops(t, other) == Drops(s, other) + if other == id then 1 else 0;
    }
  }

  lemma ErasedKeeps(s: State, id: nat)
    requires Inv(s) && s.deferred != [] && s.deferred[0] == Erase(id)
    ensures Inv(DoErase(Popped(s), id))
  {
    WithoutSorted(s.callbacks, id);
    WithoutMembers(s.callbacks, id);
    forall other: nat ensures TaskInv(DoErase(Popped(s), id), other) {
      assert TaskInv(s, id);
      ErasedTask(s, id, other);
    }
  }

  lemma PerformKeeps(s: State)
    requires Inv(s) && s.deferred != []
    ensures Inv(Perform(Popped(s), s.deferred[0])) && Perform(Popped(s), s.deferred[0]).clock == s.clock
  {
    match s.deferred[0]
    case Insert(id) =>
      assert TaskInv(s, id) && Posts(s, id) > 0;
      if Skipped(s, id) {
        DiscardedKeeps(s, id);
      } else {
        InsertedKeeps(s, id);
        PulseKeeps(Inserted(Popped(s), id));
      }
    case Erase(id) => ErasedKeeps(s, id);
  }

  lemma {:induction false} CallDeferredKeeps(s: State)
    requires Inv(s)
    ensures Inv(CallDeferred(s)) && CallDeferred(s).deferred == [] && CallDeferred(s).clock == s.clock
    decreases Work(s)
  {
    if s.deferred != [] {
      PerformWork(Popped(s), s.deferred[0]);
      PerformKeeps(s);
      CallDeferredKeeps(Perform(Popped(s), s.deferred[0]));
    }
  }

  lemma ShiftThreshold(s: State, delta: int)
    ensures Shift(s, delta).threshold == s.threshold
  {
    DeferredThreshold(s);
    var s1 := Advance(CallDeferred(s), delta);
    PulseThreshold(s1.(expires := None));
    DeferredThreshold(FireTimer(s1));
  }

  lemma {:induction false} DeferredThreshold(s: State)
    ensures CallDeferred(s).threshold == s.threshold
    decreases Work(s)
  {
    if s.deferred != [] {
      var s1, p := Popped(s), s.deferred[0];
      PerformWork(s1, p);
      if p.Insert? && p.id < |s.tasks| { PulseThreshold(Inserted(s1, p.id)); }
      DeferredThreshold(Perform(s1, p));
    }
  }

  lemma PulseThreshold(s: State)
    ensures Pulse(s).threshold == s.threshold
  {
    CallReadyTimers(s, 0);
    CallReadyTimers(CallReady(s, 0), s.clock);
  }

  lemma FireTimerKeeps(s: State)
    requires Inv(s)
    ensures Inv(FireTimer(s)) && FireTimer(s).clock == s.clock
  {
    if s.expires.Some? && s.expires.value <= s.clock {
      TimersKeep(s, s.timer, None, s.clock);
      PulseKeeps(s.(expires := None));
    }
  }

  lemma ShiftKeeps(s: State, delta: int)
    requires Inv(s)
    ensures Inv(Shift(s, delta)) && Shift(s, delta).deferred == []
    ensures Shift(s, delta).clock == s.clock + if delta > 0 then delta else 0
  {
    CallDeferredKeeps(s);
    var s1 := CallDeferred(s);
    TimersKeep(s1, s1.timer, s1.expires, Advance(s1, delta).clock);
    FireTimerKeeps(Advance(s1, delta));
    CallDeferredKeeps(FireTimer(Advance(s1, delta)));
  }

  // ---------------------------------------------------------------------------------------------
  // The timer.

  /** The scheduler and the backend agree on a timer that is still to come. */
  predicate InStep(s: State) {
    (s.expires.Some? ==> s.expires.value == s.timer) && (s.clock < s.timer ==> s.expires == Some(s.timer))
  }

  /** With callbacks pending the timer is armed, in the future and no later than allowed. */
  predicate Armed(s: State) {
    InStep(s) && (s.callbacks != [] ==>
      s.expires == Some(s.timer) && s.clock < s.timer <= s.callbacks[0].at + s.threshold)
  }

  lemma {:induction false} CallReadyTimers(s: State, now: nat)
    ensures var t := CallReady(s, now);
            t.timer == s.timer && t.expires == s.expires && t.clock == s.clock && t.threshold == s.threshold
            && (t.callbacks != [] ==> t.callbacks[0].at > now)
    decreases |s.callbacks|
  {
    if s.callbacks != [] && s.callbacks[0].at <= now {
      var s1 := s.(callbacks := s.callbacks[1..]);
      FireKeepsCallbacks(s1, s.callbacks[0].id);
      CallReadyTimers(Fire(s1, s.callbacks[0].id), now);
    }
  }

  /** Whenever `pulse` returns, the timer serves whatever is pending. */
  lemma PulseArms(s: State)
    requires InStep(s)
    ensures Armed(Pulse(s)) && Pulse(s).clock == s.clock && Pulse(s).threshold == s.threshold
    ensures var t := Pulse(s);
            t.timer != s.timer ==> t.callbacks != [] && t.timer >= t.callbacks[0].at && t.timer >= s.clock + s.threshold
  {
    CallReadyTimers(s, 0);
    CallReadyTimers(CallReady(s, 0), s.clock);
  }

  lemma {:induction false} WithoutFirst(es: seq<Entry>, id: nat)
    requires Sorted(es)
    ensures Without(es, id) != [] ==> es != [] && es[0].at <= Without(es, id)[0].at
  {
    if es != [] { WithoutMembers(es, id); }
  }

  lemma PerformArms(s: State)
    requires Inv(s) && Armed(s) && s.deferred != []
    ensures var t := Perform(Popped(s), s.deferred[0]); Armed(t) && t.threshold == s.threshold
  {
    match s.deferred[0]
    case Insert(id) =>
      if id < |s.tasks| && !Skipped(s, id) { PulseArms(Inserted(Popped(s), id)); }
    case Erase(id) => WithoutFirst(s.callbacks, id);
  }

  lemma {:induction false} CallDeferredArms(s: State)
    requires Inv(s) && Armed(s)
    ensures Armed(CallDeferred(s)) && CallDeferred(s).threshold == s.threshold
    decreases Work(s)
  {
    if s.deferred != [] {
      PerformWork(Popped(s), s.deferred[0]);
      PerformKeeps(s);
      PerformArms(s);
      CallDeferredArms(Perform(Popped(s), s.deferred[0]));
    }
  }

  lemma FireTimerArms(s: State)
    requires InStep(s) && (s.callbacks != [] ==>
             s.expires == Some(s.timer) && s.timer <= s.callbacks[0].at + s.threshold)
    ensures Armed(FireTimer(s)) && FireTimer(s).threshold == s.threshold
  {
    if s.expires.Some? && s.expires.value <= s.clock { PulseArms(s.(expires := None)); }
  }

  lemma ShiftArms(s: State, delta: int)
    requires Inv(s) && Armed(s)
    ensures Armed(Shift(s, delta)) && Shift(s, delta).threshold == s.threshold
  {
    CallDeferredKeeps(s);
    CallDeferredArms(s);
    var s1 := CallDeferred(s);
    TimersKeep(s1, s1.timer, s1.expires, Advance(s1, delta).clock);
    FireTimerKeeps(Advance(s1, delta));
    FireTimerArms(Advance(s1, delta));
    CallDeferredArms(FireTimer(Advance(s1, delta)));
  }

  // ---------------------------------------------------------------------------------------------
  // Every run.

  /** What the application does between callbacks; a shift comes with what the callbacks it runs will do. */
  datatype Op = Do(cmd: Cmd) | Move(delta: int, script: seq<seq<Cmd>>)

  function Step(s: State, op: Op): State {
    match op
    case Do(c) => DoCmd(s, c)
    case Move(delta, script) => Shift(s.(script := script), delta)
  }

  function Final(s: State, ops: seq<Op>): State
    decreases |ops|
  {
    if ops == [] then s else Final(Step(s, ops[0]), ops[1..])
  }

  lemma StepKeeps(s: State, op: Op)
    requires Inv(s)
    ensures Inv(Step(s, op)) && Step(s, op).threshold == s.threshold
    ensures Armed(s) ==> Armed(Step(s, op))
  {
    match op
    case Do(c) =>
      CmdsKeep(s, [c]);
      assert DoCmds(s, [c]) == DoCmd(s, c) by { assert [c][1..] == []; }
    case Move(delta, script) =>
      ScriptKeeps(s, script);
      ShiftKeeps(s.(script := script), delta);
      ShiftThreshold(s.(script := script), delta);
      if Armed(s) { ShiftArms(s.(script := script), delta); }
  }

  lemma {:induction false} RunKeeps(s: State, ops: seq<Op>)
    requires Inv(s)
    ensures Inv(Final(s, ops)) && Final(s, ops).threshold == s.threshold
    ensures Armed(s) ==> Armed(Final(s, ops))
    decreases |ops|
  {
    if ops != [] {
      StepKeeps(s, ops[0]);
      RunKeeps(Step(s, ops[0]), ops[1..]);
    }
  }

  /** Every pending callback is less than the threshold overdue. */
  predicate Punctual(s: State) { forall i :: 0 <= i < |s.callbacks| ==> s.clock < s.callbacks[i].at + s.threshold }

  lemma StartInv(threshold: nat, timer: int)
    ensures Inv(Start(threshold, timer)) && (timer <= 1 ==> Armed(Start(threshold, timer)))
  {
    var s := Start(threshold, timer);
    assert Inserting(s.deferred) == [] && Ids(s.callbacks) == [] && RanIds(s.ran) == [] && s.dropped == [];
    forall id: nat ensures TaskInv(s, id) {
      assert Posts(s, id) == 0 && Pends(s, id) == 0 && Runs(s, id) == 0 && Drops(s, id) == 0;
    }
  }

  /** Over every run each task is in one place, runs at most once, not before it is due, and not once cancelled. */
  lemma EveryTaskInOnePlace(threshold: nat, timer: int, ops: seq<Op>, id: nat)
    ensures var s := Final(Start(threshold, timer), ops);
            && TaskInv(s, id) && Sorted(s.callbacks) && NotEarly(s)
            && Runs(s, id) <= 1 && (id in s.cancelled ==> Runs(s, id) == 0)
            && (id < |s.tasks| && id !in s.cancelled ==> Posts(s, id) + Pends(s, id) + Runs(s, id) == 1)
  {
    StartInv(threshold, timer);
    RunKeeps(Start(threshold, timer), ops);
    assert TaskInv(Final(Start(threshold, timer), ops), id);
  }

  lemma PunctualWhenArmed(s: State)
    requires Inv(s) && Armed(s)
    ensures Punctual(s)
  {
    forall i | 0 <= i < |s.callbacks| ensures s.clock < s.callbacks[i].at + s.threshold {
      assert i > 0 ==> s.callbacks[0].at <= s.callbacks[i].at;
    }
  }

  /**
   * A first timer value in the future keeps the scheduler from arming the timer for an early enough deadline: a
   * callback can be overdue by any amount.
   */
  lemma LateFromStaleTimer(threshold: nat, timer: int, late: nat)
    requires timer > 1
    ensures var s := Final(Start(threshold, timer), [Do(Schedule(timer, false)), Move(timer + threshold + late, [])]);
            s.callbacks != [] && s.clock >= s.callbacks[0].at + threshold + late && !Punctual(s)
  {
    var s0, delta := Start(threshold, timer), timer + threshold + late;
    var s1 := DoSchedule(s0, timer, false);
    var ops := [Do(Schedule(timer, false)), Move(delta, [])];
    assert ops[1..] == [Move(delta, [])] && ops[1..][1..] == [];
    var e := Entry(timer + 1, 0);
    var s2 := s1.(deferred := [], callbacks := [e]);
    assert s1.deferred == [Insert(0)] && s1.deferred[1..] == [];
    assert Inserted(Popped(s1), 0) == s2;
    assert Pulse(s2) == s2;
    assert CallDeferred(s1) == s2;
    var s3 := Advance(s2, delta);
    assert FireTimer(s3) == s3 && CallDeferred(s3) == s3;
    assert Shift(s1, delta) == s3;
    assert Step(s1, ops[1]) == s3;
    assert Final(s3, []) == s3 && Final(s1, ops[1..]) == s3 && Final(s0, ops) == s3;
    assert s3.callbacks[0] == e;
  }

  /** The lateness bound holds in every run exactly when `timer_` does not start in the future. */
  lemma LatenessBound(threshold: nat, timer: int)
    ensures (forall ops: seq<Op> :: Punctual(Final(Start(threshold, timer), ops))) <==> timer <= 1
  {
    StartInv(threshold, timer);
    if timer <= 1 {
      forall ops: seq<Op> ensures Punctual(Final(Start(threshold, timer), ops)) {
        RunKeeps(Start(threshold, timer), ops);
        PunctualWhenArmed(Final(Start(threshold, timer), ops));
      }
    } else {
      LateFromStaleTimer(threshold, timer, 0);
    }
  }

  // ---------------------------------------------------------------------------------------------
  // Order.

  /** The ids `done`, in this order, were each run (`runs`) or passed over (`drops`). */
  predicate Interleaves(done: seq<nat>, runs: seq<nat>, drops: seq<nat>)
    decreases |done|
  {
    if done == [] then runs == [] && drops == []
    else || (runs != [] && runs[0] == done[0] && Interleaves(done[1..], runs[1..], drops))
         || (drops != [] && drops[0] == done[0] && Interleaves(done[1..], runs, drops[1..]))
  }

  /** How many entries at the front are ready. */
  function Ready(es: seq<Entry>, now: nat): (n: nat)
    ensures n <= |es|
  {
    if es == [] || es[0].at > now then 0 else 1 + Ready(es[1..], now)
  }

  lemma FireRecords(s: State, id: nat)
    ensures var t := Fire(s, id);
            || (t.ran == s.ran + [Run(id, s.clock)] && t.dropped == s.dropped)
            || (t.ran == s.ran && t.dropped == s.dropped + [id])
  {
    var s1 := if Handled(s, id) then s.(flagged := s.flagged + {id}) else s;
    if s.script != [] {
      CmdsKeepCallbacks(s1.(ran := s1.ran + [Run(id, s1.clock)], script := s1.script[1..]), s1.script[0]);
    }
  }

  /** What was added at the end of a record. */
  function Since<T>(now: seq<T>, before: seq<T>): seq<T>
    requires before <= now
  {
    now[|before|..]
  }

  lemma SinceTrans<T>(a: seq<T>, x: T, c: seq<T>)
    requires a + [x] <= c
    ensures a <= c && Since(c, a) == [x] + Since(c, a + [x])
  {
    assert c[|a|] == (a + [x])[|a|];
  }

  lemma RanIdsCons(r: Run, rs: seq<Run>)
    ensures RanIds([r] + rs) == [r.id] + RanIds(rs)
  {
  }

  /**
   * `callReady` takes exactly the entries at the front that are ready, in the order of the multimap (InsertionOrder);
   * each is run or, if cancelled by then, passed over.
   */
  lemma {:induction false} CallReadyOrder(s: State, now: nat)
    ensures var t, n := CallReady(s, now), Ready(s.callbacks, now);
            && t.callbacks == s.callbacks[n..] && s.ran <= t.ran && s.dropped <= t.dropped
            && Interleaves(Ids(s.callbacks[..n]), RanIds(Since(t.ran, s.ran)), Since(t.dropped, s.dropped))
    decreases |s.callbacks|
  {
    var n := Ready(s.callbacks, now);
    if n > 0 {
      var e, rest := s.callbacks[0], s.callbacks[1..];
      var u := Fire(s.(callbacks := rest), e.id);
      var t := CallReady(s, now);
      FireKeepsCallbacks(s.(callbacks := rest), e.id);
      FireRecords(s.(callbacks := rest), e.id);
      CallReadyOrder(u, now);
      assert s.callbacks[..n][1..] == rest[..n - 1] && s.callbacks[n..] == rest[n - 1..];
      IdsCons(s.callbacks[..n]);
      if u.dropped == s.dropped {
        SinceTrans(s.ran, Run(e.id, s.clock), t.ran);
        RanIdsCons(Run(e.id, s.clock), Since(t.ran, u.ran));
      } else {
        SinceTrans(s.dropped, e.id, t.dropped);
      }
    }
  }

  /** Earlier deadlines first, and for equal deadlines the task scheduled first. */
  predicate Ahead(d: Entry, e: Entry) { d.at < e.at || (d.at == e.at && d.id < e.id) }

  predicate Queued(es: seq<Entry>) { forall i, j :: 0 <= i < j < |es| ==> Ahead(es[i], es[j]) }

  predicate Rising(ids: seq<nat>) { forall i, j :: 0 <= i < j < |ids| ==> ids[i] < ids[j] }

  predicate EntriesBelow(es: seq<Entry>, n: nat) { forall i :: 0 <= i < |es| ==> es[i].id < n }

  predicate IdsWithin(ids: seq<nat>, es: seq<Entry>, n: nat) {
    forall i :: 0 <= i < |ids| ==> ids[i] < n && EntriesBelow(es, ids[i])
  }

  /** Insertions are posted in the order of scheduling, and all of them come after the entries of the multimap. */
  predicate Fifo(s: State) {
    && Queued(s.callbacks) && EntriesBelow(s.callbacks, |s.tasks|)
    && Rising(Inserting(s.deferred)) && IdsWithin(Inserting(s.deferred), s.callbacks, |s.tasks|)
  }

  lemma {:induction false} EmplaceQueued(es: seq<Entry>, e: Entry)
    requires Queued(es) && EntriesBelow(es, e.id)
    ensures Queued(Emplace(es, e))
  {
    if es == [] {
    } else if e.at < es[0].at {
      forall j | 0 <= j < |es| ensures Ahead(e, es[j]) { assert j > 0 ==> Ahead(es[0], es[j]); }
    } else {
      var r := Emplace(es[1..], e);
      EmplaceQueued(es[1..], e);
      EmplaceMembers(es[1..], e);
      forall j | 0 <= j < |r| ensures Ahead(es[0], r[j]) {
        if r[j] != e { var k :| 0 <= k < |es[1..]| && es[1..][k] == r[j]; }
      }
    }
  }

  lemma {:induction false} WithoutQueued(es: seq<Entry>, id: nat)
    requires Queued(es)
    ensures Queued(Without(es, id))
  {
    if es != [] && es[0].id != id {
      var r := Without(es[1..], id);
      WithoutQueued(es[1..], id);
      WithoutMembers(es[1..], id);
      forall j | 0 <= j < |r| ensures Ahead(es[0], r[j]) {
        var k :| 0 <= k < |es[1..]| && es[1..][k] == r[j];
      }
    }
  }

  lemma {:induction false} CmdsFifo(s: State, cs: seq<Cmd>)
    requires Fifo(s)
    ensures Fifo(DoCmds(s, cs))
    decreases |cs|
  {
    if cs != [] {
      InsertingSnoc(s.deferred, match cs[0] case Schedule(_, _) => Insert(|s.tasks|) case Cancel(id) => Erase(id));
      CmdsFifo(DoCmd(s, cs[0]), cs[1..]);
    }
  }

  lemma FireFifo(s: State, id: nat)
    requires Fifo(s)
    ensures Fifo(Fire(s, id))
  {
    var s1 := if Handled(s, id) then s.(flagged := s.flagged + {id}) else s;
    if s.script != [] {
      CmdsFifo(s1.(ran := s1.ran + [Run(id, s1.clock)], script := s1.script[1..]), s1.script[0]);
    }
  }

  lemma {:induction false} CallReadyFifo(s: State, now: nat)
    requires Fifo(s)
    ensures Fifo(CallReady(s, now))
    decreases |s.callbacks|
  {
    if s.callbacks != [] && s.callbacks[0].at <= now {
      var s1 := s.(callbacks := s.callbacks[1..]);
      FireKeepsCallbacks(s1, s.callbacks[0].id);
      FireFifo(s1, s.callbacks[0].id);
      CallReadyFifo(Fire(s1, s.callbacks[0].id), now);
    }
  }

  lemma PulseFifo(s: State)
    requires Fifo(s)
    ensures Fifo(Pulse(s))
  {
    CallReadyFifo(s, 0);
    CallReadyFifo(CallReady(s, 0), s.clock);
  }

  lemma PoppedFifo(s: State)
    requires Fifo(s) && s.deferred != []
    ensures Fifo(Popped(s))
    ensures s.deferred[0].Insert? ==>
              && s.deferred[0].id < |s.tasks| && EntriesBelow(s.callbacks, s.deferred[0].id)
              && forall i :: 0 <= i < |Inserting(s.deferred[1..])| ==> s.deferred[0].id < Inserting(s.deferred[1..])[i]
  {
    var ids, rest := Inserting(s.deferred), Inserting(s.deferred[1..]);
    if s.deferred[0].Insert? {
      assert ids[0] == s.deferred[0].id;
      assert forall i :: 0 <= i < |rest| ==> rest[i] == ids[i + 1];
    } else {
      assert rest == ids;
    }
  }

  lemma InsertedFifo(s: State, id: nat)
    requires Fifo(s) && id < |s.tasks| && EntriesBelow(s.callbacks, id)
    requires forall i :: 0 <= i < |Inserting(s.deferred)| ==> id < Inserting(s.deferred)[i]
    ensures Fifo(Inserted(s, id))
  {
    hide Inserting, Emplace, Queued;
    var e := Entry(s.tasks[id].due, id);
    EmplaceQueued(s.callbacks, e);
    EmplaceBelow(s.callbacks, e, |s.tasks|);
    forall i | 0 <= i < |Inserting(s.deferred)|
      ensures EntriesBelow(Emplace(s.callbacks, e), Inserting(s.deferred)[i])
    {
      EmplaceBelow(s.callbacks, e, Inserting(s.deferred)[i]);
    }
  }

  lemma EmplaceBelow(es: seq<Entry>, e: Entry, n: nat)
    requires EntriesBelow(es, n) && e.id < n
    ensures EntriesBelow(Emplace(es, e), n)
  {
    EmplaceMembers(es, e);
  }

  lemma WithoutBelow(es: seq<Entry>, id: nat, n: nat)
    requires EntriesBelow(es, n)
    ensures EntriesBelow(Without(es, id), n)
  {
    WithoutMembers(es, id);
  }

  lemma ErasedFifo(s: State, id: nat)
    requires Fifo(s)
    ensures Fifo(DoErase(s, id))
  {
    hide Inserting, Without, Queued;
    WithoutQueued(s.callbacks, id);
    WithoutBelow(s.callbacks, id, |s.tasks|);
    forall i | 0 <= i < |Inserting(s.deferred)|
      ensures EntriesBelow(Without(s.callbacks, id), Inserting(s.deferred)[i])
    {
      WithoutBelow(s.callbacks, id, Inserting(s.deferred)[i]);
    }
  }

  lemma PerformFifo(s: State)
    requires Fifo(s) && s.deferred != []
    ensures Fifo(Perform(Popped(s), s.deferred[0]))
  {
    hide Inserting, Pulse, Queued, Rising, IdsWithin, EntriesBelow;
    PoppedFifo(s);
    match s.deferred[0]
    case Insert(id) =>
      if !Skipped(s, id) {
        InsertedFifo(Popped(s), id);
        PulseFifo(Inserted(Popped(s), id));
      }
    case Erase(id) => ErasedFifo(Popped(s), id);
  }

  lemma {:induction false} DeferredFifo(s: State)
    requires Fifo(s)
    ensures Fifo(CallDeferred(s))
    decreases Work(s)
  {
    if s.deferred != [] {
      PerformWork(Popped(s), s.deferred[0]);
      PerformFifo(s);
      DeferredFifo(Perform(Popped(s), s.deferred[0]));
    }
  }

  lemma StepFifo(s: State, op: Op)
    requires Fifo(s)
    ensures Fifo(Step(s, op))
  {
    match op
    case Do(c) =>
      CmdsFifo(s, [c]);
      assert DoCmds(s, [c]) == DoCmd(s, c) by { assert [c][1..] == []; }
    case Move(delta, script) =>
      var s0 := s.(script := script);
      DeferredFifo(s0);
      var s1 := Advance(CallDeferred(s0), delta);
      PulseFifo(s1.(expires := None));
      DeferredFifo(FireTimer(s1));
  }

  lemma {:induction false} RunFifo(s: State, ops: seq<Op>)
    requires Fifo(s)
    ensures Fifo(Final(s, ops))
    decreases |ops|
  {
    if ops != [] {
      StepFifo(s, ops[0]);
      RunFifo(Step(s, ops[0]), ops[1..]);
    }
  }

  /**
   * Over every run the multimap lists the pending tasks by deadline and, for equal deadlines, as they were scheduled.
   */
  lemma InsertionOrder(threshold: nat, timer: int, ops: seq<Op>, i: nat, j: nat)
    requires i < j < |Final(Start(threshold, timer), ops).callbacks|
    ensures var es := Final(Start(threshold, timer), ops).callbacks;
            es[i].at <= es[j].at && (es[i].at == es[j].at ==> es[i].id < es[j].id)
  {
    RunFifo(Start(threshold, timer), ops);
    assert Ahead(Final(Start(threshold, timer), ops).callbacks[i], Final(Start(threshold, timer), ops).callbacks[j]);
  }

  // ---------------------------------------------------------------------------------------------
  // Deadlines.

  /** The moment a call asked for; without a delay, any. */
  function Wanted(a: Ask): int { if a.delay > 0 then a.at + a.delay else 0 }

  /** Every task is due when its call asked for, and the calls and the runs of their tasks follow each other in time. */
  predicate Stored(s: State) {
    && |s.asked| == |s.tasks| && EntriesBelow(s.callbacks, |s.tasks|)
    && (forall id :: 0 <= id < |s.tasks| ==> s.tasks[id].due == Wanted(s.asked[id]) && s.asked[id].at <= s.clock)
    && (forall i :: 0 <= i < |s.ran| ==> s.ran[i].id < |s.asked| && s.asked[s.ran[i].id].at <= s.ran[i].time)
  }

  /** Moreover no task without a delay waits in the multimap. */
  predicate AsAsked(s: State) { Stored(s) && forall i :: 0 <= i < |s.callbacks| ==> s.callbacks[i].at > 0 }

  lemma {:induction false} CmdsStored(s: State, cs: seq<Cmd>)
    requires Stored(s)
    ensures Stored(DoCmds(s, cs))
    decreases |cs|
  {
    if cs != [] { CmdsStored(DoCmd(s, cs[0]), cs[1..]); }
  }

  lemma FireStored(s: State, id: nat)
    requires Stored(s) && id < |s.tasks|
    ensures Stored(Fire(s, id))
  {
    var s1 := if Handled(s, id) then s.(flagged := s.flagged + {id}) else s;
    var s2 := s1.(ran := s1.ran + [Run(id, s1.clock)]);
    assert Stored(s2);
    if s.script != [] { CmdsStored(s2.(script := s1.script[1..]), s1.script[0]); }
  }

  lemma {:induction false} CallReadyStored(s: State, now: nat)
    requires Stored(s)
    ensures Stored(CallReady(s, now))
    decreases |s.callbacks|
  {
    if s.callbacks != [] && s.callbacks[0].at <= now {
      var s1 := s.(callbacks := s.callbacks[1..]);
      FireKeepsCallbacks(s1, s.callbacks[0].id);
      FireStored(s1, s.callbacks[0].id);
      CallReadyStored(Fire(s1, s.callbacks[0].id), now);
    }
  }

  /** `pulse` leaves nothing that is due, so nothing without a delay. */
  lemma PulseAsked(s: State)
    requires Stored(s) && Inv(s)
    ensures AsAsked(Pulse(s))
  {
    hide Inv;
    CallReadyStored(s, 0);
    CallReadyStored(CallReady(s, 0), s.clock);
    CallReadyTimers(s, 0);
    CallReadyTimers(CallReady(s, 0), s.clock);
    PulseKeeps(s);
    var t := Pulse(s);
    assert Sorted(t.callbacks) by { InvSorted(t); }
    forall i | 0 <= i < |t.callbacks| ensures t.callbacks[i].at > 0 {
      assert i > 0 ==> t.callbacks[0].at <= t.callbacks[i].at;
    }
  }

  lemma InvSorted(s: State)
    requires Inv(s)
    ensures Sorted(s.callbacks)
  {
  }

  lemma PerformAsked(s: State)
    requires Inv(s) && AsAsked(s) && s.deferred != []
    ensures AsAsked(Perform(Popped(s), s.deferred[0]))
  {
    hide Inv, Pulse;
    match s.deferred[0]
    case Insert(id) =>
      if id < |s.tasks| && !Skipped(s, id) {
        InsertedKeeps(s, id);
        EmplaceBelow(s.callbacks, Entry(s.tasks[id].due, id), |s.tasks|);
        PulseAsked(Inserted(Popped(s), id));
      }
    case Erase(id) =>
      WithoutMembers(s.callbacks, id);
      WithoutBelow(s.callbacks, id, |s.tasks|);
  }

  lemma {:induction false} DeferredAsked(s: State)
    requires Inv(s) && AsAsked(s)
    ensures AsAsked(CallDeferred(s))
    decreases Work(s)
  {
    hide Inv, AsAsked;
    if s.deferred != [] {
      PerformWork(Popped(s), s.deferred[0]);
      PerformKeeps(s);
      PerformAsked(s);
      DeferredAsked(Perform(Popped(s), s.deferred[0]));
    }
  }

  lemma FireTimerAsked(s: State)
    requires Inv(s) && AsAsked(s)
    ensures AsAsked(FireTimer(s))
  {
    hide Inv, Pulse;
    if s.expires.Some? && s.expires.value <= s.clock {
      TimersKeep(s, s.timer, None, s.clock);
      PulseAsked(s.(expires := None));
    }
  }

  lemma StepAsked(s: State, op: Op)
    requires Inv(s) && AsAsked(s)
    ensures AsAsked(Step(s, op))
  {
    hide Inv, CallDeferred, FireTimer;
    match op
    case Do(c) =>
      CmdsStored(s, [c]);
      assert DoCmds(s, [c]) == DoCmd(s, c) by { assert [c][1..] == []; }
    case Move(delta, script) =>
      var s0 := s.(script := script);
      ScriptKeeps(s, script);
      DeferredAsked(s0);
      CallDeferredKeeps(s0);
      var s1 := CallDeferred(s0);
      var s2 := Advance(s1, delta);
      TimersKeep(s1, s1.timer, s1.expires, s2.clock);
      FireTimerAsked(s2);
      FireTimerKeeps(s2);
      DeferredAsked(FireTimer(s2));
  }

  lemma {:induction false} RunAsked(s: State, ops: seq<Op>)
    requires Inv(s) && AsAsked(s)
    ensures AsAsked(Final(s, ops))
    decreases |ops|
  {
    hide Inv, AsAsked;
    if ops != [] {
      StepKeeps(s, ops[0]);
      StepAsked(s, ops[0]);
      RunAsked(Step(s, ops[0]), ops[1..]);
    }
  }

  lemma StartedAsAsked(threshold: nat, timer: int, ops: seq<Op>)
    ensures var s := Final(Start(threshold, timer), ops); Inv(s) && AsAsked(s) && s.threshold == threshold
    ensures timer <= 1 ==> Punctual(Final(Start(threshold, timer), ops))
  {
    hide Inv;
    StartInv(threshold, timer);
    RunKeeps(Start(threshold, timer), ops);
    RunAsked(Start(threshold, timer), ops);
    if timer <= 1 { PunctualWhenArmed(Final(Start(threshold, timer), ops)); }
  }

  /** In every run no task starts before the moment its call asked for, counted from the call, or before the call. */
  lemma NeverBeforeAsked(threshold: nat, timer: int, ops: seq<Op>, i: nat)
    requires i < |Final(Start(threshold, timer), ops).ran|
    ensures var s := Final(Start(threshold, timer), ops);
            var r := s.ran[i];
            r.id < |s.asked| && s.asked[r.id].at <= r.time && s.asked[r.id].at + s.asked[r.id].delay <= r.time
  {
    hide Inv;
    StartedAsAsked(threshold, timer, ops);
    InvNotEarly(Final(Start(threshold, timer), ops));
  }

  lemma InvNotEarly(s: State)
    requires Inv(s)
    ensures NotEarly(s) && Keyed(s)
  {
  }

  /**
   * In every run no pending task is overdue by the threshold, counted from its call, if `timer_` starts in the past.
   */
  lemma PendingInTime(threshold: nat, timer: int, ops: seq<Op>, i: nat)
    requires timer <= 1 && i < |Final(Start(threshold, timer), ops).callbacks|
    ensures var s := Final(Start(threshold, timer), ops);
            var id := s.callbacks[i].id;
            id < |s.asked| && s.asked[id].delay > 0 && s.clock < s.asked[id].at + s.asked[id].delay + threshold
  {
    hide Inv;
    StartedAsAsked(threshold, timer, ops);
    InvNotEarly(Final(Start(threshold, timer), ops));
  }

  /** Once the posted work is done, a task asked for without a delay has run, unless it was cancelled. */
  lemma AtOnce(threshold: nat, timer: int, ops: seq<Op>, delta: int, script: seq<seq<Cmd>>, id: nat)
    requires id < |Final(Start(threshold, timer), ops + [Move(delta, script)]).asked|
    requires Final(Start(threshold, timer), ops + [Move(delta, script)]).asked[id].delay <= 0
    ensures var s := Final(Start(threshold, timer), ops + [Move(delta, script)]); Runs(s, id) == 1 || id in s.cancelled
  {
    hide Inv;
    var all := ops + [Move(delta, script)];
    var s := Final(Start(threshold, timer), all);
    StartedAsAsked(threshold, timer, all);
    EveryTaskInOnePlace(threshold, timer, all, id);
    StartInv(threshold, timer);
    EndsWithMove(Start(threshold, timer), ops, delta, script);
    assert Posts(s, id) == 0;
    if Pends(s, id) > 0 {
      IdsIn(s.callbacks, id);
      var i :| 0 <= i < |s.callbacks| && s.callbacks[i].id == id;
      InvNotEarly(s);
    }
  }

  lemma {:induction false} EndsWithMove(s: State, ops: seq<Op>, delta: int, script: seq<seq<Cmd>>)
    requires Inv(s)
    ensures Final(s, ops + [Move(delta, script)]).deferred == []
    decreases |ops|
  {
    hide Inv;
    var all := ops + [Move(delta, script)];
    if ops == [] {
      assert all == [Move(delta, script)] && all[1..] == [];
      ScriptKeeps(s, script);
      ShiftKeeps(s.(script := script), delta);
    } else {
      assert all[0] == ops[0] && all[1..] == ops[1..] + [Move(delta, script)];
      StepKeeps(s, ops[0]);
      EndsWithMove(Step(s, ops[0]), ops[1..], delta, script);
    }
  }

  // ---------------------------------------------------------------------------------------------
  // Cancellation.

  /** Cancelling a task with a handle that has not run always takes effect. */
  lemma CancelTakesEffect(s: State, id: nat)
    requires TaskInv(s, id) && Handled(s, id) && Runs(s, id) == 0
    ensures id in DoCancel(s, id).cancelled
  {
    AliveCounts(s, id);
  }

  lemma {:induction false} CmdsKeepCancelled(s: State, cs: seq<Cmd>)
    ensures s.cancelled <= DoCmds(s, cs).cancelled
    decreases |cs|
  {
    if cs != [] { CmdsKeepCancelled(DoCmd(s, cs[0]), cs[1..]); }
  }

  lemma FireKeepsCancelled(s: State, id: nat)
    ensures s.cancelled <= Fire(s, id).cancelled
  {
    var s1 := if Handled(s, id) then s.(flagged := s.flagged + {id}) else s;
    if s.script != [] {
      CmdsKeepCancelled(s1.(ran := s1.ran + [Run(id, s1.clock)], script := s1.script[1..]), s1.script[0]);
    }
  }

  lemma {:induction false} CallReadyKeepsCancelled(s: State, now: nat)
    ensures s.cancelled <= CallReady(s, now).cancelled
    decreases |s.callbacks|
  {
    if s.callbacks != [] && s.callbacks[0].at <= now {
      var s1 := s.(callbacks := s.callbacks[1..]);
      FireKeepsCallbacks(s1, s.callbacks[0].id);
      FireKeepsCancelled(s1, s.callbacks[0].id);
      CallReadyKeepsCancelled(Fire(s1, s.callbacks[0].id), now);
    }
  }

  lemma PulseKeepsCancelled(s: State)
    ensures s.cancelled <= Pulse(s).cancelled
  {
    CallReadyKeepsCancelled(s, 0);
    CallReadyKeepsCancelled(CallReady(s, 0), s.clock);
  }

  lemma {:induction false} DeferredKeepsCancelled(s: State)
    ensures s.cancelled <= CallDeferred(s).cancelled
    decreases Work(s)
  {
    if s.deferred != [] {
      var s1, p := Popped(s), s.deferred[0];
      PerformWork(s1, p);
      if p.Insert? && p.id < |s.tasks| { PulseKeepsCancelled(Inserted(s1, p.id)); }
      DeferredKeepsCancelled(Perform(s1, p));
    }
  }

  lemma StepKeepsCancelled(s: State, op: Op)
    ensures s.cancelled <= Step(s, op).cancelled
  {
    if op.Move? {
      var s0 := s.(script := op.script);
      DeferredKeepsCancelled(s0);
      var s1 := Advance(CallDeferred(s0), op.delta);
      PulseKeepsCancelled(s1.(expires := None));
      DeferredKeepsCancelled(FireTimer(s1));
    }
  }

  /** Once a cancellation took effect the callback never starts, whatever happens later. */
  lemma {:induction false} CancelledNeverRuns(s: State, ops: seq<Op>, id: nat)
    requires Inv(s) && id in s.cancelled
    ensures id in Final(s, ops).cancelled && Runs(Final(s, ops), id) == 0
    decreases |ops|
  {
    if ops == [] {
      assert TaskInv(s, id);
    } else {
      StepKeeps(s, ops[0]);
      StepKeepsCancelled(s, ops[0]);
      CancelledNeverRuns(Step(s, ops[0]), ops[1..], id);
    }
  }

  // ---------------------------------------------------------------------------------------------
  // A cancelled task leaves the multimap.

  /** Entry `j` of the posted work erases task `id`, and no insertion of it comes later. */
  predicate ErasedAt(ps: seq<Posted>, id: nat, j: nat) { j < |ps| && ps[j] == Erase(id) && Insert(id) !in ps[j..] }

  ghost predicate WillErase(s: State, id: nat) {
    id in s.cancelled && Alive(s, id) ==> exists j: nat :: ErasedAt(s.deferred, id, j)
  }

  ghost predicate Erasing(s: State) { forall id: nat :: WillErase(s, id) }

  lemma AppendErased(ps: seq<Posted>, p: Posted, id: nat)
    requires p != Insert(id)
    ensures (exists j: nat :: ErasedAt(ps, id, j)) ==> exists j: nat :: ErasedAt(ps + [p], id, j)
  {
    if j: nat :| ErasedAt(ps, id, j) {
      assert (ps + [p])[j..] == ps[j..] + [p];
      assert ErasedAt(ps + [p], id, j);
    }
  }

  lemma CmdErases(s: State, c: Cmd, id: nat)
    requires Inv(s) && WillErase(s, id)
    ensures WillErase(DoCmd(s, c), id)
  {
    assert TaskInv(s, id);
    match c
    case Schedule(delay, handled) => if id < |s.tasks| { AppendErased(s.deferred, Insert(|s.tasks|), id); }
    case Cancel(k) =>
      AppendErased(s.deferred, Erase(k), id);
      var all := s.deferred + [Erase(k)];
      if k == id { assert all[|s.deferred|..] == [Erase(id)] && ErasedAt(all, id, |s.deferred|); }
  }

  lemma {:induction false} CmdsErase(s: State, cs: seq<Cmd>)
    requires Inv(s) && Erasing(s)
    ensures Erasing(DoCmds(s, cs))
    decreases |cs|
  {
    hide Inv, WillErase;
    if cs != [] {
      forall id: nat ensures WillErase(DoCmd(s, cs[0]), id) { CmdErases(s, cs[0], id); }
      CmdsKeep(s, [cs[0]]);
      assert DoCmds(s, [cs[0]]) == DoCmd(s, cs[0]) by { assert [cs[0]][1..] == []; }
      CmdsErase(DoCmd(s, cs[0]), cs[1..]);
    }
  }

  lemma FireErases(s: State)
    requires Inv(s) && Erasing(s) && s.callbacks != [] && s.callbacks[0].at <= s.clock
    ensures Erasing(Fire(s.(callbacks := s.callbacks[1..]), s.callbacks[0].id))
  {
    hide Inv;
    TakeKeeps(s);
    var t := if Skipped(s, s.callbacks[0].id) then Skip(s) else Starting(s);
    assert Erasing(t) by {
      forall id: nat ensures WillErase(t, id) {
        assert WillErase(s, id);
        assert Alive(t, id) ==> Alive(s, id);
      }
    }
    if !Skipped(s, s.callbacks[0].id) && s.script != [] {
      var u := Starting(s).(script := s.script[1..]);
      ScriptKeeps(Starting(s), s.script[1..]);
      assert Erasing(u) by { forall id: nat ensures WillErase(u, id) { assert WillErase(t, id); } }
      CmdsErase(u, s.script[0]);
    }
  }

  lemma {:induction false} CallReadyErases(s: State, now: nat)
    requires Inv(s) && Erasing(s) && now <= s.clock
    ensures Erasing(CallReady(s, now))
    decreases |s.callbacks|
  {
    hide Inv, Erasing;
    if s.callbacks != [] && s.callbacks[0].at <= now {
      var s1 := s.(callbacks := s.callbacks[1..]);
      FireKeepsCallbacks(s1, s.callbacks[0].id);
      FireKeeps(s);
      FireErases(s);
      CallReadyErases(Fire(s1, s.callbacks[0].id), now);
    }
  }

  lemma TimersErase(s: State, timer: int, expires: Option<int>, clock: nat, script: seq<seq<Cmd>>)
    requires Erasing(s)
    ensures Erasing(s.(timer := timer, expires := expires, clock := clock, script := script))
  {
    var t := s.(timer := timer, expires := expires, clock := clock, script := script);
    forall id: nat ensures WillErase(t, id) { assert WillErase(s, id); }
  }

  lemma PulseErases(s: State)
    requires Inv(s) && Erasing(s)
    ensures Erasing(Pulse(s))
  {
    hide Inv, Erasing;
    CallReadyKeeps(s, 0);
    CallReadyErases(s, 0);
    var s1 := CallReady(s, 0);
    CallReadyErases(s1, s1.clock);
    var s2 := CallReady(s1, s1.clock);
    TimersErase(s2, Pulse(s).timer, Pulse(s).expires, s2.clock, s2.script);
  }

  lemma PoppedErased(ps: seq<Posted>, id: nat)
    requires ps != [] && exists j: nat :: ErasedAt(ps, id, j)
    ensures (exists j: nat :: ErasedAt(ps[1..], id, j)) || (ps[0] == Erase(id) && Insert(id) !in ps[1..])
  {
    var j: nat :| ErasedAt(ps, id, j);
    if j > 0 {
      assert ps[1..][j - 1..] == ps[j..];
      assert ErasedAt(ps[1..], id, j - 1);
    }
  }

  lemma InsertErases(s: State, id: nat, other: nat)
    requires Inv(s) && s.deferred != [] && s.deferred[0] == Insert(id) && id < |s.tasks| && WillErase(s, other)
    ensures WillErase(if Skipped(s, id) then Popped(s).(dropped := s.dropped + [id]) else Inserted(Popped(s), id),
            other)
  {
    assert TaskInv(s, other);
    var t := if Skipped(s, id) then Popped(s).(dropped := s.dropped + [id]) else Inserted(Popped(s), id);
    if other in s.cancelled && Alive(t, other) {
      AliveCounts(t, other);
      PoppedPosts(s, other);
      if !Skipped(s, id) { EmplaceIds(s.callbacks, Entry(s.tasks[id].due, id)); }
      assert Posts(t, other) == Posts(Popped(s), other);
      AliveCounts(s, other);
      PoppedErased(s.deferred, other);
    }
  }

  lemma EraseErases(s: State, id: nat, other: nat)
    requires Inv(s) && s.deferred != [] && s.deferred[0] == Erase(id) && WillErase(s, other)
    ensures WillErase(DoErase(Popped(s), id), other)
  {
    assert TaskInv(s, other) && TaskInv(s, id);
    var p, t := Popped(s), DoErase(Popped(s), id);
    if other in s.cancelled && Alive(t, other) {
      AliveCounts(t, other);
      AliveCounts(p, id);
      PoppedPosts(s, other);
      WithoutIds(s.callbacks, id);
      AliveCounts(s, other);
      PoppedErased(s.deferred, other);
      InsertingIn(s.deferred[1..], other);
    }
  }

  lemma PerformErases(s: State)
    requires Inv(s) && Erasing(s) && s.deferred != []
    ensures Erasing(Perform(Popped(s), s.deferred[0]))
  {
    hide Pulse, WillErase;
    match s.deferred[0]
    case Insert(id) =>
      assert TaskInv(s, id) && Posts(s, id) > 0;
      var t := if Skipped(s, id) then Popped(s).(dropped := s.dropped + [id]) else Inserted(Popped(s), id);
      forall other: nat ensures WillErase(t, other) { InsertErases(s, id, other); }
      if !Skipped(s, id) {
        InsertedKeeps(s, id);
        PulseErases(t);
      }
    case Erase(id) =>
      forall other: nat ensures WillErase(DoErase(Popped(s), id), other) { EraseErases(s, id, other); }
  }

  lemma {:induction false} DeferredErases(s: State)
    requires Inv(s) && Erasing(s)
    ensures Erasing(CallDeferred(s))
    decreases Work(s)
  {
    hide Inv, Erasing;
    if s.deferred != [] {
      PerformWork(Popped(s), s.deferred[0]);
      PerformKeeps(s);
      PerformErases(s);
      DeferredErases(Perform(Popped(s), s.deferred[0]));
    }
  }

  lemma StepErases(s: State, op: Op)
    requires Inv(s) && Erasing(s)
    ensures Erasing(Step(s, op))
  {
    hide Inv, Erasing, CallDeferred, Pulse;
    match op
    case Do(c) =>
      CmdsErase(s, [c]);
      assert DoCmds(s, [c]) == DoCmd(s, c) by { assert [c][1..] == []; }
    case Move(delta, script) =>
      var s0 := s.(script := script);
      ScriptKeeps(s, script);
      TimersErase(s, s.timer, s.expires, s.clock, script);
      DeferredErases(s0);
      CallDeferredKeeps(s0);
      var s1 := CallDeferred(s0);
      var s2 := Advance(s1, delta);
      TimersKeep(s1, s1.timer, s1.expires, s2.clock);
      TimersErase(s1, s1.timer, s1.expires, s2.clock, s1.script);
      TimersKeep(s2, s2.timer, None, s2.clock);
      TimersErase(s2, s2.timer, None, s2.clock, s2.script);
      PulseErases(s2.(expires := None));
      FireTimerKeeps(s2);
      DeferredErases(FireTimer(s2));
  }

  lemma {:induction false} RunErases(s: State, ops: seq<Op>)
    requires Inv(s) && Erasing(s)
    ensures Erasing(Final(s, ops))
    decreases |ops|
  {
    hide Inv, Erasing;
    if ops != [] {
      StepKeeps(s, ops[0]);
      StepErases(s, ops[0]);
      RunErases(Step(s, ops[0]), ops[1..]);
    }
  }

  /** Once the posted work is done a cancelled task has left the multimap, however far its deadline is. */
  lemma CancelledIsGone(threshold: nat, timer: int, ops: seq<Op>, delta: int, script: seq<seq<Cmd>>, id: nat)
    requires id in Final(Start(threshold, timer), ops + [Move(delta, script)]).cancelled
    ensures var s := Final(Start(threshold, timer), ops + [Move(delta, script)]);
            Drops(s, id) == 1 && forall i :: 0 <= i < |s.callbacks| ==> s.callbacks[i].id != id
  {
    hide Inv;
    var all := ops + [Move(delta, script)];
    var s := Final(Start(threshold, timer), all);
    StartInv(threshold, timer);
    assert Erasing(Start(threshold, timer));
    RunErases(Start(threshold, timer), all);
    assert WillErase(s, id);
    EndsWithMove(Start(threshold, timer), ops, delta, script);
    AliveCounts(s, id);
    EveryTaskInOnePlace(threshold, timer, all, id);
  }
}
