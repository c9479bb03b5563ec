/** Properties of whole runs of the eventcount scheduler. */
module TaskingRuns {
  import opened Tasking

  /** States tr[0], tr[1], ... where each is obtained from the one before by an enabled step. */
  ghost predicate IsRun(tr: seq<State>, steps: seq<Step>) {
    && |tr| == |steps| + 1
    && Inv(tr[0])
    && forall i :: 0 <= i < |steps| ==> Enabled(tr[i], steps[i]) && tr[i + 1] == Next(tr[i], steps[i])
  }

  lemma {:induction false} RunKeepsInv(tr: seq<State>, steps: seq<Step>, i: nat)
    requires IsRun(tr, steps) && i <= |steps|
    ensures Inv(tr[i]) && tr[i].etime == tr[0].etime
  {
    if i > 0 {
      RunKeepsInv(tr, steps, i - 1);
      assert tr[i - 1 + 1] == Next(tr[i - 1], steps[i - 1]);
      StepOk(tr[i - 1], steps[i - 1]);
    }
  }

  ghost predicate Forward(s: State, r: State) {
    HasClock(s) && HasClock(r) && Time(s) <= Time(r)
  }

  ghost predicate NegativePause(step: Step) {
    step.Pause? && step.n < 0
  }

  /** The clock never goes back over a run exactly when no task pauses for a negative time. */
  lemma ClockIsMonotone(tr: seq<State>, steps: seq<Step>)
    requires IsRun(tr, steps)
    ensures (forall i, j :: 0 <= i <= j < |tr| ==> Forward(tr[i], tr[j]))
            <==> (forall i :: 0 <= i < |steps| ==> !NegativePause(steps[i]))
  {
    forall i | 0 <= i < |steps| ensures Forward(tr[i], tr[i + 1]) <==> !NegativePause(steps[i]) {
      RunKeepsInv(tr, steps, i);
      StepForward(tr[i], steps[i]);
    }
    if forall i :: 0 <= i < |steps| ==> !NegativePause(steps[i]) {
      forall i, j | 0 <= i <= j < |tr| ensures Forward(tr[i], tr[j]) {
        ClockMovesForward(tr, steps, i, j);
      }
    } else {
      var i :| 0 <= i < |steps| && NegativePause(steps[i]);
      assert !Forward(tr[i], tr[i + 1]);
    }
  }

  /** A task that runs alone at time 5 and pauses for -1 runs on at time 4. */
  lemma ClockGoesBack(t: Task, etime: EventCount) returns (s: State)
    ensures Inv(s) && Enabled(s, Pause(-1)) && Time(s) == 5
    ensures HasClock(Next(s, Pause(-1))) && Time(Next(s, Pause(-1))) == 4
  {
    s := State(t, null, etime, map[etime := Event(5, [])]);
  }

  lemma RunHasClock(tr: seq<State>, steps: seq<Step>, i: nat)
    requires IsRun(tr, steps) && i <= |steps|
    ensures HasClock(tr[i])
  {
    RunKeepsInv(tr, steps, i);
  }

  lemma RunForward(tr: seq<State>, steps: seq<Step>, i: nat)
    requires IsRun(tr, steps) && i < |steps| && !NegativePause(steps[i])
    ensures Forward(tr[i], tr[i + 1])
  {
    RunKeepsInv(tr, steps, i);
    StepForward(tr[i], steps[i]);
  }

  lemma {:induction false} ClockMovesForward(tr: seq<State>, steps: seq<Step>, i: nat, j: nat)
    requires IsRun(tr, steps) && i <= j <= |steps|
    requires forall m :: 0 <= m < |steps| ==> !NegativePause(steps[m])
    ensures Forward(tr[i], tr[j])
  {
    RunHasClock(tr, steps, j);
    if i < j {
      ClockMovesForward(tr, steps, i, j - 1);
      RunForward(tr, steps, j - 1);
    }
  }

  lemma StepForward(s: State, step: Step)
    requires Inv(s) && Enabled(s, step)
    ensures Forward(s, Next(s, step)) <==> !NegativePause(step)
  {
    StepOk(s, step);
  }

  /** No task is ever in two places: two list positions that hold t are the same position, and t is
      not running while it is on a list. */
  lemma OnePlace(tr: seq<State>, steps: seq<Step>, m: nat, t: Task, e: EventCount, i: nat, f: EventCount, j: nat)
    requires IsRun(tr, steps) && m <= |steps|
    requires e in tr[m].events && i < |tr[m].events[e].queue| && tr[m].events[e].queue[i].task == t
    requires f in tr[m].events && j < |tr[m].events[f].queue| && tr[m].events[f].queue[j].task == t
    ensures e == f && i == j && tr[m].cur != t
  {
    RunKeepsInv(tr, steps, m);
    assert t in TasksOf(tr[m].events[e].queue) && t in TasksOf(tr[m].events[f].queue);
    assert EventOk(tr[m].events[e], e == tr[m].etime);
  }

  /** Tasks created by the steps i..j. */
  ghost function Created(steps: seq<Step>, i: nat, j: nat): set<Task>
    requires i <= j <= |steps|
  {
    set m | i <= m < j && steps[m].Create? :: steps[m].task
  }

  /** Until one of them finishes, exactly the tasks there were and those created since are there. */
  lemma TasksConserved(tr: seq<State>, steps: seq<Step>, i: nat, j: nat)
    requires IsRun(tr, steps) && i <= j <= |steps|
    requires forall m :: i <= m < j ==> !steps[m].Finish?
    ensures AllTasks(tr[j]) == AllTasks(tr[i]) + Created(steps, i, j)
  {
    var all := seq(|tr|, m requires 0 <= m < |tr| => AllTasks(tr[m]));
    forall m | i <= m < j ensures all[m + 1] == all[m] + CreatedBy(steps[m]) {
      RunTasks(tr, steps, m);
    }
    SetsGrow(all, steps, i, j);
  }

  ghost function CreatedBy(step: Step): set<Task> {
    if step.Create? then {step.task} else {}
  }

  lemma {:induction false} SetsGrow(all: seq<set<Task>>, steps: seq<Step>, i: nat, j: nat)
    requires i <= j <= |steps| && |all| == |steps| + 1
    requires forall m :: i <= m < j ==> all[m + 1] == all[m] + CreatedBy(steps[m])
    ensures all[j] == all[i] + Created(steps, i, j)
  {
    if i < j {
      SetsGrow(all, steps, i, j - 1);
      CreatedLast(steps, i, j);
      assert all[j - 1 + 1] == all[j - 1] + CreatedBy(steps[j - 1]);
    }
  }

  lemma RunTasks(tr: seq<State>, steps: seq<Step>, i: nat)
    requires IsRun(tr, steps) && i < |steps| && !steps[i].Finish?
    ensures AllTasks(tr[i + 1]) == AllTasks(tr[i]) + CreatedBy(steps[i])
  {
    RunKeepsInv(tr, steps, i);
    StepTasks(tr[i], steps[i]);
  }

  lemma StepTasks(s: State, step: Step)
    requires Inv(s) && Enabled(s, step) && !step.Finish?
    ensures AllTasks(Next(s, step)) == AllTasks(s) + CreatedBy(step)
  {
    StepOk(s, step);
  }

  lemma CreatedLast(steps: seq<Step>, i: nat, j: nat)
    requires i < j <= |steps|
    ensures Created(steps, i, j) == Created(steps, i, j - 1) + CreatedBy(steps[j - 1])
  {
  }

  // ----- tasks on the time list run exactly when due

  ghost predicate Waits(s: State, ec: EventCount, t: Task, v: int) {
    ec in s.events && Entry(t, v) in s.events[ec].queue
  }

  ghost predicate Due(s: State, t: Task, c: int) {
    Waits(s, s.etime, t, c)
  }

  /** t does not run at any of the states i+1 .. j-1. */
  ghost predicate Asleep(tr: seq<State>, t: Task, i: nat, j: nat)
    requires j <= |tr|
  {
    forall m :: i < m < j ==> tr[m].cur != t
  }

  lemma {:induction false} InsertMembers(q: seq<Entry>, e: Entry, x: Entry)
    ensures x in Insert(q, e) <==> x in q || x == e
  {
    if q != [] && e.count >= q[0].count {
      InsertMembers(q[1..], e, x);
      assert q == [q[0]] + q[1..];
    }
  }

  lemma DispatchKeepsDue(s: State, t: Task, c: int)
    requires HasClock(s) && Due(s, t, c)
    ensures Due(Dispatch(s), t, c) || (Dispatch(s).cur == t && Time(Dispatch(s)) == c)
  {
    var q := Ready(s);
    var i :| 0 <= i < |q| && q[i] == Entry(t, c);
    if i > 0 {
      assert q[1..][i - 1] == q[i];
    }
  }

  lemma SwitchParks(s: State, ec: EventCount, value: int)
    requires Inv(s) && ec in s.events && s.cur != null && s.events[ec].count < value
    ensures ec != s.etime ==> Waits(Switch(s, ec, value), ec, s.cur, value)
    ensures ec == s.etime ==> var r := Switch(s, ec, value);
                              Due(r, s.cur, value) || (r.cur == s.cur && Time(r) == value)
  {
    var p := Parked(s, ec, value);
    InsertMembers(s.events[ec].queue, Entry(s.cur, value), Entry(s.cur, value));
    if ec == s.etime {
      DispatchKeepsDue(p, s.cur, value);
    }
  }

  lemma SwitchKeeps(s: State, ec: EventCount, value: int, e: EventCount, t: Task, c: int)
    requires HasClock(s) && ec in s.events && s.cur != null && Waits(s, e, t, c)
    ensures var r := Switch(s, ec, value);
            if e == s.etime then Due(r, t, c) || (r.cur == t && Time(r) == c) else Waits(r, e, t, c)
  {
    InsertMembers(s.events[ec].queue, Entry(s.cur, value), Entry(t, c));
    var p := Parked(s, ec, value);
    assert Waits(p, e, t, c);
    if e == s.etime {
      DispatchKeepsDue(p, t, c);
    }
  }

  lemma ReleaseKeepsDue(s: State, ec: EventCount, t: Task, c: int)
    requires HasClock(s) && ec in s.events && ec != s.etime && Due(s, t, c)
    ensures Due(DoAdvance(s, ec), t, c)
  {
    var k := Woken(s.events[ec].queue, s.events[ec].count + 1);
    assert Entry(t, c) in Stamp(s.events[ec].queue[..k], Time(s)) + Ready(s);
  }

  /** A task on the time list stays there with its count until it runs, at that time. */
  lemma StepKeepsDue(s: State, step: Step, t: Task, c: int)
    requires Inv(s) && Enabled(s, step) && Due(s, t, c)
    ensures var r := Next(s, step); Due(r, t, c) || (r.cur == t && Time(r) == c)
  {
    match step
    case Await(ec, value) =>
      if s.events[ec].count < value { SwitchKeeps(s, ec, value, s.etime, t, c); }
    case Pause(n) =>
      var q := Ready(s);
      if q != [] && Time(s) + n > q[0].count { SwitchKeeps(s, s.etime, Time(s) + n, s.etime, t, c); }
    case Advance(ec) => ReleaseKeepsDue(s, ec, t, c);
    case Create(_) =>
    case NewEvent(_, _) =>
    case Finish => DispatchKeepsDue(s, t, c);
  }

  lemma RunningIsNotQueued(s: State, e: EventCount, t: Task, c: int)
    requires Inv(s) && Waits(s, e, t, c)
    ensures s.cur != t
  {
    var i :| 0 <= i < |s.events[e].queue| && s.events[e].queue[i] == Entry(t, c);
    assert t in TasksOf(s.events[e].queue);
  }

  lemma {:induction false} RunsWhenDue(tr: seq<State>, steps: seq<Step>, t: Task, c: int, i: nat, j: nat)
    requires IsRun(tr, steps) && i <= j <= |steps|
    requires Due(tr[i], t, c) && Asleep(tr, t, i, j) && tr[j].cur == t
    ensures HasClock(tr[j]) && Time(tr[j]) == c
    decreases j - i
  {
    RunKeepsInv(tr, steps, i);
    RunningIsNotQueued(tr[i], tr[i].etime, t, c);
    RunKeepsInv(tr, steps, i + 1);
    StepKeepsDue(tr[i], steps[i], t, c);
    if i + 1 < j {
      assert tr[i + 1].cur != t;
      RunsWhenDue(tr, steps, t, c, i + 1, j);
    } else if Due(tr[j], t, c) {
      RunningIsNotQueued(tr[j], tr[j].etime, t, c);
    }
  }

  /** A pause of n lasts exactly n, whether or not another task ran meanwhile. */
  lemma PauseIsExact(tr: seq<State>, steps: seq<Step>, n: int, i: nat, j: nat)
    requires IsRun(tr, steps) && i < j <= |steps| && steps[i] == Pause(n)
    requires tr[j].cur == tr[i].cur && Asleep(tr, tr[i].cur, i, j)
    ensures HasClock(tr[i]) && HasClock(tr[j]) && Time(tr[j]) == Time(tr[i]) + n
  {
    RunKeepsInv(tr, steps, i);
    RunKeepsInv(tr, steps, i + 1);
    var s, q := tr[i], Ready(tr[i]);
    if q == [] || Time(s) + n <= q[0].count {
      assert tr[i + 1].cur == s.cur;
    } else {
      AwaitClockIsExact(tr, steps, Time(s) + n, i, j);
    }
  }

  /** A task that went to sleep on the clock until v runs again exactly at v. */
  lemma AwaitClockIsExact(tr: seq<State>, steps: seq<Step>, v: int, i: nat, j: nat)
    requires IsRun(tr, steps) && i < j <= |steps|
    requires HasClock(tr[i]) && tr[i].cur != null && Time(tr[i]) < v
    requires tr[i + 1] == DoAwait(tr[i], tr[i].etime, v)
    requires tr[j].cur == tr[i].cur && Asleep(tr, tr[i].cur, i, j)
    ensures HasClock(tr[j]) && Time(tr[j]) == v
  {
    RunKeepsInv(tr, steps, i);
    SwitchParks(tr[i], tr[i].etime, v);
    if Due(tr[i + 1], tr[i].cur, v) {
      RunsWhenDue(tr, steps, tr[i].cur, v, i + 1, j);
    }
  }

  // ----- eventcounts: no lost and no early wakeups

  lemma AdvanceWakes(s: State, ec: EventCount, t: Task, v: int)
    requires Inv(s) && ec in s.events && ec != s.etime && Waits(s, ec, t, v)
    ensures var r := DoAdvance(s, ec);
            if r.events[ec].count < v then Waits(r, ec, t, v)
            else r.events[ec].count == v && Due(r, t, Time(s)) && Time(r) == Time(s)
  {
    var ev := s.events[ec];
    var k := Woken(ev.queue, ev.count + 1);
    var i :| 0 <= i < |ev.queue| && ev.queue[i] == Entry(t, v);
    WokenExactly(ev, i);
    if i < k {
      assert Stamp(ev.queue[..k], Time(s))[i] == Entry(t, Time(s));
      assert (Stamp(ev.queue[..k], Time(s)) + Ready(s))[i] == Entry(t, Time(s));
    } else {
      assert ev.queue[k..][i - k] == Entry(t, v);
    }
  }

  /** One step either leaves a waiter waiting below its threshold, or is the advance that reaches
      the threshold and makes the waiter due at once. */
  lemma StepKeepsWaiter(s: State, step: Step, ec: EventCount, t: Task, v: int)
    requires Inv(s) && Enabled(s, step) && ec != s.etime && Waits(s, ec, t, v)
    ensures var r := Next(s, step);
            && ec in r.events
            && if r.events[ec].count < v then Waits(r, ec, t, v)
               else step == Advance(ec) && r.events[ec].count == v && Due(r, t, Time(s)) && Time(r) == Time(s)
  {
    var i :| 0 <= i < |s.events[ec].queue| && s.events[ec].queue[i] == Entry(t, v);
    assert EventOk(s.events[ec], false);
    match step
    case Await(e, value) =>
      if s.events[e].count < value { SwitchKeeps(s, e, value, ec, t, v); }
    case Pause(n) =>
      var q := Ready(s);
      if q != [] && Time(s) + n > q[0].count { SwitchKeeps(s, s.etime, Time(s) + n, ec, t, v); }
    case Advance(e) =>
      if e == ec { AdvanceWakes(s, ec, t, v); }
    case Create(_) =>
    case NewEvent(_, _) =>
    case Finish =>
  }

  /** A waiter is never lost and never early: when it next runs, its eventcount was brought to its
      threshold by some advance in between, and the clock still shows the time of that advance. */
  lemma {:induction false} WaiterRunsWhenReached(tr: seq<State>, steps: seq<Step>, ec: EventCount, t: Task, v: int, i: nat, j: nat)
    returns (m: nat)
    requires IsRun(tr, steps) && i <= j <= |steps|
    requires ec != tr[0].etime && Waits(tr[i], ec, t, v) && Asleep(tr, t, i, j) && tr[j].cur == t
    ensures i <= m < j && steps[m] == Advance(ec)
    ensures ec in tr[m + 1].events && tr[m + 1].events[ec].count == v
    ensures HasClock(tr[m]) && HasClock(tr[j]) && Time(tr[j]) == Time(tr[m])
    decreases j - i
  {
    RunKeepsInv(tr, steps, i);
    RunningIsNotQueued(tr[i], ec, t, v);
    RunKeepsInv(tr, steps, i + 1);
    StepKeepsWaiter(tr[i], steps[i], ec, t, v);
    if tr[i + 1].events[ec].count < v {
      RunningIsNotQueued(tr[i + 1], ec, t, v);
      m := WaiterRunsWhenReached(tr, steps, ec, t, v, i + 1, j);
    } else {
      m := i;
      RunsWhenDue(tr, steps, t, Time(tr[i]), i + 1, j);
    }
  }

  /** Step m is the advance that brings ec to v; in state j the task t is due at the time of that step,
      which the clock has not passed. */
  ghost predicate WokenBy(tr: seq<State>, steps: seq<Step>, ec: EventCount, t: Task, v: int, m: nat, j: nat) {
    && m < j < |tr| && m < |steps| && steps[m] == Advance(ec)
    && ec in tr[m + 1].events && tr[m + 1].events[ec].count == v
    && HasClock(tr[m]) && HasClock(tr[j]) && Due(tr[j], t, Time(tr[m])) && Time(tr[j]) <= Time(tr[m])
  }

  lemma DueIsNotPast(s: State, t: Task, c: int)
    requires Inv(s) && Due(s, t, c)
    ensures Time(s) <= c
  {
    assert EventOk(s.events[s.etime], true);
  }

  /** While it has not run again, a waiter is where it should be: on its eventcount's list as long
      as the count is below the threshold, and then due at the time of the advance that reached it. */
  lemma {:induction false} WaiterNotForgotten(tr: seq<State>, steps: seq<Step>, ec: EventCount, t: Task, v: int, i: nat, j: nat)
    requires IsRun(tr, steps) && i <= j <= |steps|
    requires ec != tr[0].etime && Waits(tr[i], ec, t, v) && Asleep(tr, t, i, j + 1)
    ensures ec in tr[j].events
    ensures tr[j].events[ec].count < v ==> Waits(tr[j], ec, t, v)
    ensures tr[j].events[ec].count >= v ==> exists m :: i <= m && WokenBy(tr, steps, ec, t, v, m, j)
    decreases j - i
  {
    RunKeepsInv(tr, steps, i);
    if i < j {
      RunKeepsInv(tr, steps, i + 1);
      StepKeepsWaiter(tr[i], steps[i], ec, t, v);
      if tr[i + 1].events[ec].count < v {
        WaiterNotForgotten(tr, steps, ec, t, v, i + 1, j);
      } else {
        CountsGrow(tr, steps, ec, i + 1, j);
        StaysDue(tr, steps, t, Time(tr[i]), i + 1, j);
        RunKeepsInv(tr, steps, j);
        DueIsNotPast(tr[j], t, Time(tr[i]));
        assert WokenBy(tr, steps, ec, t, v, i, j);
      }
    } else {
      var k :| 0 <= k < |tr[i].events[ec].queue| && tr[i].events[ec].queue[k] == Entry(t, v);
      assert EventOk(tr[i].events[ec], false);
    }
  }

  lemma {:induction false} CountsGrow(tr: seq<State>, steps: seq<Step>, ec: EventCount, i: nat, j: nat)
    requires IsRun(tr, steps) && i <= j <= |steps| && ec != tr[0].etime && ec in tr[i].events
    ensures ec in tr[j].events && tr[i].events[ec].count <= tr[j].events[ec].count
    decreases j - i
  {
    if i < j {
      RunKeepsInv(tr, steps, i);
      assert tr[i + 1] == Next(tr[i], steps[i]);
      CountsGrow(tr, steps, ec, i + 1, j);
    }
  }

  lemma {:induction false} StaysDue(tr: seq<State>, steps: seq<Step>, t: Task, c: int, i: nat, j: nat)
    requires IsRun(tr, steps) && i <= j <= |steps| && Due(tr[i], t, c) && Asleep(tr, t, i, j + 1)
    ensures Due(tr[j], t, c)
    decreases j - i
  {
    if i < j {
      RunKeepsInv(tr, steps, i);
      StepKeepsDue(tr[i], steps[i], t, c);
      assert tr[i + 1].cur != t;
      StaysDue(tr, steps, t, c, i + 1, j);
    }
  }

  /** `await(ec, v)` does what it promises: its caller next runs only with ec at v or beyond. */
  lemma AwaitReturnsInTime(tr: seq<State>, steps: seq<Step>, ec: EventCount, v: int, i: nat, j: nat)
    requires IsRun(tr, steps) && i < j <= |steps| && steps[i] == Await(ec, v)
    requires tr[j].cur == tr[i].cur && Asleep(tr, tr[i].cur, i, j)
    ensures ec in tr[j].events && tr[j].events[ec].count >= v
  {
    RunKeepsInv(tr, steps, i);
    RunKeepsInv(tr, steps, i + 1);
    RunKeepsInv(tr, steps, j);
    assert tr[i + 1] == DoAwait(tr[i], ec, v);
    if tr[i].events[ec].count >= v {
      assert tr[i + 1].cur == tr[i].cur;
    } else if ec == tr[i].etime {
      AwaitClockIsExact(tr, steps, v, i, j);
    } else {
      SwitchParks(tr[i], ec, v);
      var m := WaiterRunsWhenReached(tr, steps, ec, tr[i].cur, v, i + 1, j);
      CountsGrow(tr, steps, ec, m + 1, j);
    }
  }
}
