/** The scheduler's objects, with their loops, proved against the functions of Scheduler. */
module SchedulerObjects {
  import opened Basics
  import opened Scheduler

  lemma {:induction false} CallReadyTwice(s: State, now: nat)
    requires s.callbacks != [] ==> s.callbacks[0].at > now
    ensures CallReady(s, now) == s
  {
  }

  /** `SchedulerImpl` together with the manual backend it runs on. */
  class SchedulerImpl {
    const threshold: nat
    var clock: nat
    var expires: Option<int>
    var timer: int
    var deferred: seq<Posted>
    var callbacks: seq<Entry>
    var tasks: seq<Task>
    var flagged: set<nat>
    var inserted: set<nat>
    var script: seq<seq<Cmd>>
    ghost var ran: seq<Run>
    ghost var dropped: seq<nat>
    ghost var cancelled: set<nat>
    ghost var asked: seq<Ask>

    ghost function Now(): State
      reads this
    {
      State(threshold, clock, expires, timer, deferred, callbacks, tasks, flagged, inserted, script, ran, dropped,
        cancelled, asked)
    }

    constructor (threshold: nat, garbage: int)
      ensures Now() == Start(threshold, garbage)
    {
      this.threshold := threshold;
      clock, expires, timer, deferred, callbacks, tasks := 1, None, garbage, [], [], [];
      flagged, inserted, script, ran, dropped, cancelled, asked := {}, {}, [], [], [], {}, [];
    }

    method ScheduleImpl(delay: int, handled: bool) returns (id: nat)
      modifies this
      ensures id == |old(tasks)| && Now() == DoSchedule(old(Now()), delay, handled)
    {
      var due := 0;
      if 0 < delay {
        due := clock + delay;
      }
      id := |tasks|;
      tasks := tasks + [Task(due, handled)];
      asked := asked + [Ask(clock, delay)];
      deferred := deferred + [Insert(id)];
    }

    predicate HasRecord(id: nat)
      reads this
    {
      Insert(id) in deferred || exists i :: 0 <= i < |callbacks| && callbacks[i].id == id
    }

    /** The function behind a handle. */
    method CancelHandle(id: nat)
      modifies this
      ensures Now() == DoCancel(old(Now()), id)
    {
      if id < |tasks| && tasks[id].handled && HasRecord(id) {
        if id in flagged {
          return;
        }
        flagged, cancelled := flagged + {id}, cancelled + {id};
        deferred := deferred + [Erase(id)];
      }
    }

    /** A callback runs and makes its calls. */
    method RunCallback(id: nat)
      modifies this
      ensures Now() == Exec(old(Now()), id)
    {
      ran := ran + [Run(id, clock)];
      if |script| > 0 {
        var calls := script[0];
        script := script[1..];
        var i := 0;
        assert calls[0..] == calls;
        while i < |calls|
          invariant 0 <= i <= |calls|
          invariant DoCmds(Now(), calls[i..]) == Exec(old(Now()), id)
        {
          assert calls[i..][1..] == calls[i + 1..];
          match calls[i] {
            case Schedule(delay, handled) => var _ := ScheduleImpl(delay, handled);
            case Cancel(c) => CancelHandle(c);
          }
          i := i + 1;
        }
      }
    }

    method CallReady(now: nat) returns (removed: nat)
      modifies this
      ensures Now() == Scheduler.CallReady(old(Now()), now)
      ensures removed == |old(callbacks)| - |callbacks|
      ensures callbacks != [] ==> callbacks[0].at > now
      ensures removed == 0 ==> Now() == old(Now())
    {
      removed := 0;
      while |callbacks| > 0 && callbacks[0].at <= now
        invariant Scheduler.CallReady(Now(), now) == Scheduler.CallReady(old(Now()), now)
        invariant removed + |callbacks| == |old(callbacks)| && (removed == 0 ==> Now() == old(Now()))
        decreases |callbacks|
      {
        var id := callbacks[0].id;
        FireKeepsCallbacks(Now().(callbacks := callbacks[1..]), id);
        callbacks := callbacks[1..];
        removed := removed + 1;
        if id < |tasks| && tasks[id].handled {
          if id in flagged {
            dropped := dropped + [id];
            continue;
          }
          flagged := flagged + {id};
        }
        RunCallback(id);
      }
    }

    method Pulse()
      modifies this
      ensures Now() == Scheduler.Pulse(old(Now()))
    {
      var _ := CallReady(0);
      CallReadyTimers(old(Now()), 0);
      ghost var goal := Scheduler.CallReady(Now(), clock);
      while |callbacks| > 0
        invariant Scheduler.CallReady(Now(), clock) == goal && clock == old(clock)
        decreases |callbacks|
      {
        CallReadyTimers(Now(), clock);
        var removed := CallReady(clock);
        CallReadyTwice(Now(), clock);
        if removed != 0 {
          continue;
        }
        var min := callbacks[0].at;
        if clock < timer && timer <= min + threshold {
          return;
        }
        timer := Max(clock + threshold, min);
        expires := Some(timer);
        return;
      }
    }

    /** Runs one posted piece of work. */
    method RunPosted(p: Posted)
      modifies this
      ensures Now() == Perform(old(Now()), p)
    {
      match p {
        case Insert(id) =>
          if id < |tasks| {
            if tasks[id].handled {
              if id in flagged {
                dropped := dropped + [id];
                return;
              }
              inserted := inserted + {id};
            }
            callbacks := Emplace(callbacks, Entry(tasks[id].due, id));
            Pulse();
          }
        case Erase(id) =>
          if HasRecord(id) && id in inserted {
            callbacks := Without(callbacks, id);
            dropped := dropped + [id];
          }
      }
    }

    method CallDeferred()
      modifies this
      ensures Now() == Scheduler.CallDeferred(old(Now()))
    {
      while |deferred| > 0
        invariant Scheduler.CallDeferred(Now()) == Scheduler.CallDeferred(old(Now()))
        decreases Work(Now())
      {
        var p := deferred[0];
        PerformWork(Now().(deferred := deferred[1..]), p);
        deferred := deferred[1..];
        RunPosted(p);
      }
    }

    method Shift(delta: int)
      modifies this
      ensures Now() == Scheduler.Shift(old(Now()), delta)
    {
      CallDeferred();
      clock := clock + if delta > 0 then delta else 0;
      ghost var s := Now();
      assert s == Advance(Scheduler.CallDeferred(old(Now())), delta);
      Tick();
      assert Now() == FireTimer(s);
      CallDeferred();
    }

    /** The timer fires once its time has come. */
    method Tick()
      modifies this
      ensures Now() == FireTimer(old(Now()))
    {
      if expires.Some? && expires.value <= clock {
        expires := None;
        Pulse();
      }
    }
  }
}
