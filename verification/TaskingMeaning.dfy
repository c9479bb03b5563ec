/** What the steps of the scheduler do, in terms of the positions on the lists, and the order in which
    tasks run. */
module TaskingMeaning {
  import opened Tasking
  import opened TaskingRuns

  // ----- single steps

  /** If the time list is empty nobody runs any more; otherwise its head runs, at its count, and the
      rest remains. */
  ghost predicate RunsHead(list: seq<Entry>, s: State, r: State) {
    && HasClock(s) && HasClock(r)
    && (list == [] ==> r.cur == null && Ready(r) == [] && Time(r) == Time(s))
    && (list != [] ==> r.cur == list[0].task && Time(r) == list[0].count && Ready(r) == list[1..])
  }

  /** list is q with e at position k, behind everyone who is not later and before everyone who is. */
  ghost predicate Joins(q: seq<Entry>, e: Entry, k: nat, list: seq<Entry>) {
    && k <= |q| && list == q[..k] + [e] + q[k..]
    && (forall i :: 0 <= i < k ==> q[i].count <= e.count)
    && forall i :: k <= i < |q| ==> q[i].count > e.count
  }

  /** Nothing changes on the eventcounts but e and the clock. */
  ghost predicate OthersStay(s: State, r: State, e: EventCount) {
    && r.etime == s.etime && r.events.Keys == s.events.Keys
    && forall f :: f in s.events && f != e && f != s.etime ==> r.events[f] == s.events[f]
  }

  lemma JoinsAt(q: seq<Entry>, e: Entry) returns (k: nat)
    requires Sorted(q)
    ensures Joins(q, e, k, Insert(q, e))
  {
    k := InsertPoint(q, e);
    InsertAt(q, e, k);
  }

  /** An await whose count is not reached puts the caller on the list, and runs the head of the time list,
      which is the caller itself if it waits on the clock and nobody is before it. */
  lemma SleepMeaning(s: State, ec: EventCount, v: int) returns (k: nat, list: seq<Entry>)
    requires Inv(s) && Enabled(s, Await(ec, v)) && s.events[ec].count < v
    ensures Joins(s.events[ec].queue, Entry(s.cur, v), k, list)
    ensures var r := Next(s, Await(ec, v));
            && OthersStay(s, r, ec)
            && RunsHead(if ec == s.etime then list else Ready(s), s, r)
            && (ec != s.etime ==> r.events[ec] == Event(s.events[ec].count, list))
  {
    assert EventOk(s.events[ec], ec == s.etime);
    list := Insert(s.events[ec].queue, Entry(s.cur, v));
    k := JoinsAt(s.events[ec].queue, Entry(s.cur, v));
  }

  /** An await whose count is reached changes nothing. */
  lemma AwaitReached(s: State, ec: EventCount, v: int)
    requires Enabled(s, Await(ec, v)) && s.events[ec].count >= v
    ensures Next(s, Await(ec, v)) == s
  {
  }

  /** Nobody is due before the given time. */
  ghost predicate Alone(q: seq<Entry>, until: int) {
    forall i :: 0 <= i < |q| ==> q[i].count >= until
  }

  /** A pause moves the clock and nothing else if nobody is due before its end, and otherwise puts the
      caller on the time list and runs the head. */
  lemma PauseMeaning(s: State, n: int) returns (k: nat, list: seq<Entry>)
    requires Inv(s) && Enabled(s, Pause(n))
    ensures var r, until := Next(s, Pause(n)), Time(s) + n;
            && OthersStay(s, r, s.etime)
            && (Alone(Ready(s), until) ==>
                  r.cur == s.cur && r.hint == s.hint && HasClock(r) && Time(r) == until && Ready(r) == Ready(s))
            && (!Alone(Ready(s), until) ==> Joins(Ready(s), Entry(s.cur, until), k, list) && RunsHead(list, s, r))
  {
    var until := Time(s) + n;
    assert EventOk(s.events[s.etime], true);
    if Alone(Ready(s), until) {
      k, list := 0, [];
    } else {
      assert Next(s, Pause(n)) == Next(s, Await(s.etime, until));
      k, list := SleepMeaning(s, s.etime, until);
    }
  }

  /** A task that ends leaves the rest to the head of the time list. */
  lemma FinishMeaning(s: State)
    requires Enabled(s, Finish)
    ensures OthersStay(s, Next(s, Finish), s.etime) && RunsHead(Ready(s), s, Next(s, Finish))
  {
  }

  /** The first k waiters of the list have moved, in their order, to the front of the time list, due now,
      and the count is one higher. */
  ghost predicate MovesFirst(s: State, ec: EventCount, k: nat, r: State)
    requires HasClock(s) && ec in s.events
  {
    var q := s.events[ec].queue;
    && OthersStay(s, r, ec) && r.cur == s.cur && r.hint == s.hint && HasClock(r) && ec in r.events
    && k <= |q| && r.events[ec] == Event(s.events[ec].count + 1, q[k..]) && Time(r) == Time(s)
    && |Ready(r)| == k + |Ready(s)| && Ready(r)[k..] == Ready(s)
    && forall i :: 0 <= i < k ==> Ready(r)[i] == Entry(q[i].task, Time(s))
  }

  lemma ReleaseMoves(s: State, ec: EventCount, k: nat)
    requires HasClock(s) && ec in s.events && ec != s.etime && k <= |s.events[ec].queue|
    ensures MovesFirst(s, ec, k, Release(s, ec, k))
  {
  }

  lemma WokenAre(ev: Event)
    requires EventOk(ev, false)
    ensures forall i :: 0 <= i < |ev.queue| ==> (i < Woken(ev.queue, ev.count + 1) <==> ev.queue[i].count == ev.count + 1)
  {
    forall i | 0 <= i < |ev.queue| ensures i < Woken(ev.queue, ev.count + 1) <==> ev.queue[i].count == ev.count + 1 {
      WokenExactly(ev, i);
    }
  }

  /** An advance moves the waiters for exactly the count that it reaches, who are the first on the list.
      The caller runs on. */
  lemma AdvanceMeaning(s: State, ec: EventCount) returns (k: nat)
    requires Inv(s) && Enabled(s, Advance(ec))
    ensures MovesFirst(s, ec, k, Next(s, Advance(ec)))
    ensures var q, c := s.events[ec].queue, s.events[ec].count + 1;
            forall i :: 0 <= i < |q| ==> (i < k <==> q[i].count == c)
  {
    assert EventOk(s.events[ec], false);
    k := Woken(s.events[ec].queue, s.events[ec].count + 1);
    WokenAre(s.events[ec]);
    ReleaseMoves(s, ec, k);
  }

  /** A new task is due now, in front of everyone; the creator runs on. */
  lemma CreateMeaning(s: State, t: Task)
    requires Enabled(s, Create(t))
    ensures var r := Next(s, Create(t));
            && OthersStay(s, r, s.etime) && r.cur == s.cur && r.hint == s.hint
            && HasClock(r) && Time(r) == Time(s) && Ready(r) == [Entry(t, Time(s))] + Ready(s)
  {
  }

  lemma NewEventMeaning(s: State, ec: EventCount, count: int)
    requires Enabled(s, NewEvent(ec, count))
    ensures var r := Next(s, NewEvent(ec, count));
            && r.cur == s.cur && r.hint == s.hint && r.etime == s.etime
            && r.events.Keys == s.events.Keys + {ec} && r.events[ec] == Event(count, [])
            && forall f :: f in s.events ==> r.events[f] == s.events[f]
  {
  }

  // ----- runs

  lemma StepLeavesNoWork(s: State, step: Step)
    requires Inv(s) && Enabled(s, step)
    ensures var r := Next(s, step); HasClock(r) && (r.cur == null ==> Ready(r) == [])
  {
    match step {
      case Await(ec, v) =>
        if s.events[ec].count < v {
          var k, list := SleepMeaning(s, ec, v);
        }
      case Pause(n) => var k, list := PauseMeaning(s, n);
      case Finish => FinishMeaning(s);
      case _ =>
    }
  }

  lemma SomebodyRuns(tr: seq<State>, steps: seq<Step>, m: nat)
    requires IsRun(tr, steps) && m < |steps|
    ensures tr[m].cur != null
  {
  }

  /** The simulation ends only when the time list is empty. */
  lemma EndsWithoutWork(tr: seq<State>, steps: seq<Step>, m: nat)
    requires IsRun(tr, steps) && m <= |steps| && tr[0].cur != null && tr[m].cur == null
    ensures m == |steps| && HasClock(tr[m]) && Ready(tr[m]) == []
  {
    RunKeepsInv(tr, steps, m - 1);
    StepLeavesNoWork(tr[m - 1], steps[m - 1]);
    assert tr[m - 1 + 1] == Next(tr[m - 1], steps[m - 1]);
    if m < |steps| {
      SomebodyRuns(tr, steps, m);
    }
  }

  /** a is before b on the time list. */
  ghost predicate Before(s: State, a: Entry, b: Entry) {
    HasClock(s) && exists i, j :: 0 <= i < j < |Ready(s)| && Ready(s)[i] == a && Ready(s)[j] == b
  }

  lemma JoinsKeepsOrder(q: seq<Entry>, e: Entry, k: nat, list: seq<Entry>, i: nat, j: nat) returns (x: nat, y: nat)
    requires Joins(q, e, k, list) && i < j < |q|
    ensures x < y < |list| && list[x] == q[i] && list[y] == q[j]
  {
    x, y := if i < k then i else i + 1, if j < k then j else j + 1;
  }

  /** The head of list runs: it was a, or a is still before b. */
  lemma HeadKeepsOrder(list: seq<Entry>, s: State, r: State, a: Entry, b: Entry, i: nat, j: nat)
    requires RunsHead(list, s, r) && i < j < |list| && list[i] == a && list[j] == b
    ensures r.cur == a.task || Before(r, a, b)
  {
    if i > 0 {
      assert Ready(r)[i - 1] == a && Ready(r)[j - 1] == b;
    }
  }

  lemma SleepKeepsOrder(s: State, ec: EventCount, v: int, a: Entry, b: Entry, i: nat, j: nat)
    requires Inv(s) && Enabled(s, Await(ec, v)) && s.events[ec].count < v
    requires i < j < |Ready(s)| && Ready(s)[i] == a && Ready(s)[j] == b
    ensures var r := Next(s, Await(ec, v)); r.cur == a.task || Before(r, a, b)
  {
    var k, list := SleepMeaning(s, ec, v);
    if ec == s.etime {
      var x, y := JoinsKeepsOrder(Ready(s), Entry(s.cur, v), k, list, i, j);
      HeadKeepsOrder(list, s, Next(s, Await(ec, v)), a, b, x, y);
    } else {
      HeadKeepsOrder(Ready(s), s, Next(s, Await(ec, v)), a, b, i, j);
    }
  }

  lemma PauseKeepsOrder(s: State, n: int, a: Entry, b: Entry, i: nat, j: nat)
    requires Inv(s) && Enabled(s, Pause(n))
    requires i < j < |Ready(s)| && Ready(s)[i] == a && Ready(s)[j] == b
    ensures var r := Next(s, Pause(n)); r.cur == a.task || Before(r, a, b)
  {
    var k, list := PauseMeaning(s, n);
    if !Alone(Ready(s), Time(s) + n) {
      var x, y := JoinsKeepsOrder(Ready(s), Entry(s.cur, Time(s) + n), k, list, i, j);
      HeadKeepsOrder(list, s, Next(s, Pause(n)), a, b, x, y);
    }
  }

  lemma AdvanceKeepsOrder(s: State, ec: EventCount, a: Entry, b: Entry, i: nat, j: nat)
    requires Inv(s) && Enabled(s, Advance(ec))
    requires i < j < |Ready(s)| && Ready(s)[i] == a && Ready(s)[j] == b
    ensures Before(Next(s, Advance(ec)), a, b)
  {
    var k := AdvanceMeaning(s, ec);
    var q := Ready(Next(s, Advance(ec)));
    assert q[k..][i] == q[k + i] && q[k..][j] == q[k + j];
  }

  lemma CreateKeepsOrder(s: State, t: Task, a: Entry, b: Entry, i: nat, j: nat)
    requires Enabled(s, Create(t))
    requires i < j < |Ready(s)| && Ready(s)[i] == a && Ready(s)[j] == b
    ensures Before(Next(s, Create(t)), a, b)
  {
    CreateMeaning(s, t);
    var q := Ready(Next(s, Create(t)));
    assert q[i + 1] == a && q[j + 1] == b;
  }

  lemma SameListKeepsOrder(s: State, r: State, a: Entry, b: Entry)
    requires Before(s, a, b) && HasClock(r) && Ready(r) == Ready(s)
    ensures Before(r, a, b)
  {
  }

  lemma StepKeepsOrder(s: State, step: Step, a: Entry, b: Entry)
    requires Inv(s) && Enabled(s, step) && Before(s, a, b)
    ensures Next(s, step).cur == a.task || Before(Next(s, step), a, b)
  {
    var i, j :| 0 <= i < j < |Ready(s)| && Ready(s)[i] == a && Ready(s)[j] == b;
    match step {
      case Await(ec, v) =>
        if s.events[ec].count < v {
          SleepKeepsOrder(s, ec, v, a, b, i, j);
        } else {
          AwaitReached(s, ec, v);
        }
      case Pause(n) => PauseKeepsOrder(s, n, a, b, i, j);
      case Advance(ec) => AdvanceKeepsOrder(s, ec, a, b, i, j);
      case Create(t) => CreateKeepsOrder(s, t, a, b, i, j);
      case NewEvent(ec, count) =>
        NewEventMeaning(s, ec, count);
        SameListKeepsOrder(s, Next(s, step), a, b);
      case Finish =>
        FinishMeaning(s);
        HeadKeepsOrder(Ready(s), s, Next(s, step), a, b, i, j);
    }
  }

  /** Tasks run in the order of the time list, also those with equal counts: when b runs, a has run
      before, if a was before it. */
  lemma {:induction false} RunsInOrder(tr: seq<State>, steps: seq<Step>, a: Entry, b: Entry, i: nat, j: nat) returns (m: nat)
    requires IsRun(tr, steps) && i < j <= |steps|
    requires Before(tr[i], a, b) && Asleep(tr, b.task, i, j) && tr[j].cur == b.task
    ensures i < m < j && tr[m].cur == a.task
    decreases j - i
  {
    RunKeepsInv(tr, steps, i);
    RunKeepsInv(tr, steps, i + 1);
    assert tr[i + 1] == Next(tr[i], steps[i]);
    StepKeepsOrder(tr[i], steps[i], a, b);
    if i + 1 < j {
      if tr[i + 1].cur == a.task {
        m := i + 1;
      } else {
        m := RunsInOrder(tr, steps, a, b, i + 1, j);
      }
    } else {
      BeforeMeansApart(tr[i], a, b);
      if Before(tr[j], a, b) {
        BeforeMeansApart(tr[j], a, b);
      }
      assert false;
    }
  }

  lemma BeforeMeansApart(s: State, a: Entry, b: Entry)
    requires Inv(s) && Before(s, a, b)
    ensures a.task != b.task && s.cur != b.task
  {
    var i, j :| 0 <= i < j < |Ready(s)| && Ready(s)[i] == a && Ready(s)[j] == b;
    assert EventOk(s.events[s.etime], true);
    RunningIsNotQueued(s, s.etime, b.task, b.count);
  }

  /** A created task next runs at the time of its creation. */
  lemma CreatedRunsNow(tr: seq<State>, steps: seq<Step>, t: Task, i: nat, j: nat)
    requires IsRun(tr, steps) && i < j <= |steps| && steps[i] == Create(t)
    requires Asleep(tr, t, i, j) && tr[j].cur == t
    ensures HasClock(tr[i]) && HasClock(tr[j]) && Time(tr[j]) == Time(tr[i])
  {
    RunKeepsInv(tr, steps, i);
    assert tr[i + 1] == Next(tr[i], steps[i]);
    CreateMeaning(tr[i], t);
    assert Ready(tr[i + 1])[0] == Entry(t, Time(tr[i]));
    RunsWhenDue(tr, steps, t, Time(tr[i]), i + 1, j);
  }
}
