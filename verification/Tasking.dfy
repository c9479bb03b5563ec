/** The eventcount scheduler as a state machine over its steps.

    Tasks wait on eventcounts; the distinguished eventcount `etime` is the global clock, and its
    queue is the list of tasks that are ready or paused. The lists are sequences here; the class
    in Scheduler.dfy keeps them as the linked lists of the source and is proved against `Next`. */
module Tasking {

  class Task {
    var tasklist: Task?
    var count: int

    constructor ()
      ensures tasklist == null && count == 0
    {
      tasklist, count := null, 0;
    }
  }

  class EventCount {
    var tasklist: Task?
    var count: int

    constructor (count: int)
      ensures tasklist == null && this.count == count
    {
      tasklist, this.count := null, count;
    }
  }

  /** A task on a list together with the count it waits for. */
  datatype Entry = Entry(task: Task, count: int)

  datatype Event = Event(count: int, queue: seq<Entry>)

  /** `cur` is null once the simulation has run out of ready tasks and exited. */
  datatype State = State(cur: Task?, hint: Task?, etime: EventCount, events: map<EventCount, Event>)

  datatype Step =
    | Await(ec: EventCount, value: int)
    | Pause(n: int)
    | Advance(ec: EventCount)
    | Create(task: Task)
    | NewEvent(ec: EventCount, count: int)
    | Finish

  // ----- lists of entries

  ghost function TasksOf(q: seq<Entry>): set<Task> {
    set i | 0 <= i < |q| :: q[i].task
  }

  ghost predicate Distinct(q: seq<Entry>) {
    forall i, j :: 0 <= i < j < |q| ==> q[i].task != q[j].task
  }

  ghost predicate Sorted(q: seq<Entry>) {
    forall i, j :: 0 <= i < j < |q| ==> q[i].count <= q[j].count
  }

  ghost predicate AtLeast(q: seq<Entry>, bound: int) {
    forall i :: 0 <= i < |q| ==> bound <= q[i].count
  }

  /** Plain insertion from the head: the new entry goes after every entry that is not later. */
  ghost function Insert(q: seq<Entry>, e: Entry): seq<Entry> {
    if q == [] || e.count < q[0].count then [e] + q else [q[0]] + Insert(q[1..], e)
  }

  /** How many leading entries one `advance` to count c takes off the list. */
  ghost function Woken(q: seq<Entry>, c: int): (k: nat)
    ensures k <= |q|
  {
    if q == [] || q[0].count > c then 0 else 1 + Leading(q[1..], c)
  }

  ghost function Leading(q: seq<Entry>, c: int): (k: nat)
    ensures k <= |q|
    ensures forall i :: 0 <= i < k ==> q[i].count == c
    ensures k < |q| ==> q[k].count != c
  {
    if q == [] || q[0].count != c then 0 else 1 + Leading(q[1..], c)
  }

  ghost function Stamp(q: seq<Entry>, time: int): (r: seq<Entry>)
    ensures |r| == |q|
    ensures forall i :: 0 <= i < |q| ==> r[i] == Entry(q[i].task, time)
  {
    seq(|q|, i requires 0 <= i < |q| => Entry(q[i].task, time))
  }

  // ----- the steps

  ghost predicate HasClock(s: State) {
    s.etime in s.events
  }

  ghost function Time(s: State): int
    requires HasClock(s)
  {
    s.events[s.etime].count
  }

  ghost function Ready(s: State): seq<Entry>
    requires HasClock(s)
  {
    s.events[s.etime].queue
  }

  /** Take the head of the time list as the current task and move the clock to its count. */
  ghost function Dispatch(s: State): State
    requires HasClock(s)
  {
    var q := Ready(s);
    if q == [] then s.(cur := null)
    else s.(cur := q[0].task,
            hint := if s.hint == q[0].task then null else s.hint,
            events := s.events[s.etime := Event(q[0].count, q[1..])])
  }

  /** The current task on ec's list; it becomes the hint unless it went to the head of the time list. */
  ghost function Parked(s: State, ec: EventCount, value: int): State
    requires HasClock(s) && ec in s.events && s.cur != null
  {
    var q := s.events[ec].queue;
    s.(events := s.events[ec := Event(s.events[ec].count, Insert(q, Entry(s.cur, value)))],
       hint := if ec == s.etime && q != [] && q[0].count <= value then s.cur else s.hint)
  }

  ghost function Switch(s: State, ec: EventCount, value: int): State
    requires HasClock(s) && ec in s.events && s.cur != null
  {
    Dispatch(Parked(s, ec, value))
  }

  ghost function DoAwait(s: State, ec: EventCount, value: int): State
    requires HasClock(s) && ec in s.events && s.cur != null
  {
    if s.events[ec].count >= value then s else Switch(s, ec, value)
  }

  ghost function DoPause(s: State, n: int): State
    requires HasClock(s) && s.cur != null
  {
    var q := Ready(s);
    if q == [] || Time(s) + n <= q[0].count then
      s.(events := s.events[s.etime := Event(Time(s) + n, q)])
    else
      DoAwait(s, s.etime, Time(s) + n)
  }

  /** The first k waiters of ec go to the front of the time list, due now. */
  ghost function Release(s: State, ec: EventCount, k: nat): State
    requires HasClock(s) && ec in s.events && k <= |s.events[ec].queue|
  {
    var ev := s.events[ec];
    s.(events := s.events[ec := Event(ev.count + 1, ev.queue[k..])]
                         [s.etime := Event(Time(s), Stamp(ev.queue[..k], Time(s)) + Ready(s))])
  }

  ghost function DoAdvance(s: State, ec: EventCount): State
    requires HasClock(s) && ec in s.events && ec != s.etime
  {
    Release(s, ec, Woken(s.events[ec].queue, s.events[ec].count + 1))
  }

  ghost function DoCreate(s: State, t: Task): State
    requires HasClock(s)
  {
    s.(events := s.events[s.etime := Event(Time(s), [Entry(t, Time(s))] + Ready(s))])
  }

  ghost predicate Enabled(s: State, step: Step) {
    && HasClock(s)
    && s.cur != null
    && match step
       case Await(ec, _) => ec in s.events
       case Advance(ec) => ec in s.events && ec != s.etime
       case Create(t) => t !in AllTasks(s)
       case NewEvent(ec, _) => ec !in s.events
       case _ => true
  }

  ghost function Next(s: State, step: Step): State
    requires Enabled(s, step)
  {
    match step
    case Await(ec, value) => DoAwait(s, ec, value)
    case Pause(n) => DoPause(s, n)
    case Advance(ec) => DoAdvance(s, ec)
    case Create(t) => DoCreate(s, t)
    case NewEvent(ec, count) => s.(events := s.events[ec := Event(count, [])])
    case Finish => Dispatch(s)
  }

  // ----- the invariant

  ghost function Queued(s: State): set<Task> {
    set e, t | e in s.events && t in TasksOf(s.events[e].queue) :: t
  }

  ghost function AllTasks(s: State): set<Task> {
    Queued(s) + (if s.cur == null then {} else {s.cur})
  }

  /** Lists are sorted and duplicate free; the clock's waiters are not in the past and every other
      waiter's threshold is strictly ahead of its eventcount. */
  ghost predicate EventOk(ev: Event, clock: bool) {
    Sorted(ev.queue) && Distinct(ev.queue) && AtLeast(ev.queue, if clock then ev.count else ev.count + 1)
  }

  ghost predicate Ordered(s: State) {
    forall e :: e in s.events ==> EventOk(s.events[e], e == s.etime)
  }

  ghost predicate Exclusive(s: State) {
    forall e, f :: e in s.events && f in s.events && e != f
                   ==> TasksOf(s.events[e].queue) !! TasksOf(s.events[f].queue)
  }

  ghost predicate ListsOk(s: State) {
    && HasClock(s)
    && Ordered(s)
    && Exclusive(s)
    && (s.hint != null ==> s.hint in TasksOf(Ready(s)))
  }

  /** Every list is in order, no task is in two places, and the hint is on the time list. */
  ghost predicate Inv(s: State) {
    ListsOk(s) && (s.cur != null ==> s.cur !in Queued(s))
  }

  // ----- lemmas about lists

  lemma TasksConcat(a: seq<Entry>, b: seq<Entry>)
    ensures TasksOf(a + b) == TasksOf(a) + TasksOf(b)
  {
    forall t | t in TasksOf(b) ensures t in TasksOf(a + b) {
      var i :| 0 <= i < |b| && b[i].task == t;
      assert (a + b)[|a| + i].task == t;
    }
    forall t | t in TasksOf(a) ensures t in TasksOf(a + b) {
      var i :| 0 <= i < |a| && a[i].task == t;
      assert (a + b)[i].task == t;
    }
  }

  lemma DistinctConcat(a: seq<Entry>, b: seq<Entry>)
    ensures Distinct(a + b) <==> Distinct(a) && Distinct(b) && TasksOf(a) !! TasksOf(b)
  {
    var c := a + b;
    assert forall i :: 0 <= i < |a| ==> c[i] == a[i] && a[i].task in TasksOf(a);
    assert forall i :: 0 <= i < |b| ==> c[|a| + i] == b[i] && b[i].task in TasksOf(b);
    if Distinct(c) {
      forall i, j | 0 <= i < j < |b| ensures b[i].task != b[j].task {
        assert c[|a| + i] == b[i] && c[|a| + j] == b[j];
      }
      forall i, j | 0 <= i < |a| && 0 <= j < |b| ensures a[i].task != b[j].task {
        assert c[i] == a[i] && c[|a| + j] == b[j];
      }
    }
  }

  /** Splitting a list without repetitions splits its set of tasks. */
  lemma SplitFacts(q: seq<Entry>, k: nat)
    requires k <= |q|
    ensures TasksOf(q) == TasksOf(q[..k]) + TasksOf(q[k..])
    ensures Distinct(q) ==> Distinct(q[..k]) && Distinct(q[k..]) && TasksOf(q[..k]) !! TasksOf(q[k..])
  {
    assert q == q[..k] + q[k..];
    TasksConcat(q[..k], q[k..]);
    DistinctConcat(q[..k], q[k..]);
  }

  lemma InsertSorted(q: seq<Entry>, e: Entry)
    requires Sorted(q)
    ensures Sorted(Insert(q, e))
  {
    var k := InsertPoint(q, e);
    InsertAt(q, e, k);
    SortedAt(q, e, k);
  }

  lemma SortedAt(q: seq<Entry>, e: Entry, k: nat)
    requires Sorted(q) && k <= |q|
    requires k > 0 ==> q[k - 1].count <= e.count
    requires k < |q| ==> e.count < q[k].count
    ensures Sorted(q[..k] + [e] + q[k..])
  {
    var r := q[..k] + [e] + q[k..];
    forall i | 0 <= i < |r| ensures r[i] == if i < k then q[i] else if i == k then e else q[i - 1] {
    }
  }

  lemma {:induction false} InsertFacts(q: seq<Entry>, e: Entry)
    ensures TasksOf(Insert(q, e)) == TasksOf(q) + {e.task}
    ensures Distinct(q) && e.task !in TasksOf(q) ==> Distinct(Insert(q, e))
  {
    if q == [] || e.count < q[0].count {
      Singleton(e);
      TasksConcat([e], q);
      DistinctConcat([e], q);
    } else {
      Singleton(q[0]);
      SplitFacts(q, 1);
      assert q[..1] == [q[0]];
      InsertFacts(q[1..], e);
      TasksConcat([q[0]], Insert(q[1..], e));
      DistinctConcat([q[0]], Insert(q[1..], e));
    }
  }

  lemma Singleton(e: Entry)
    ensures TasksOf([e]) == {e.task}
  {
    assert [e][0].task == e.task;
  }

  ghost function InsertPoint(q: seq<Entry>, e: Entry): (k: nat)
    ensures k <= |q|
    ensures forall i :: 0 <= i < k ==> q[i].count <= e.count
    ensures k < |q| ==> e.count < q[k].count
  {
    if q == [] || e.count < q[0].count then 0 else 1 + InsertPoint(q[1..], e)
  }

  lemma Split(q: seq<Entry>, k: nat)
    requires 0 < k <= |q|
    ensures q[..k] == [q[0]] + q[1..][..k - 1] && q[k..] == q[1..][k - 1..]
  {
  }

  /** Where a walk may stop: any position after which the list is later and before which it is not
      is the one plain insertion finds, wherever the walk began. */
  lemma {:induction false} InsertAt(q: seq<Entry>, e: Entry, k: nat)
    requires Sorted(q) && k <= |q|
    requires k > 0 ==> q[k - 1].count <= e.count
    requires k < |q| ==> e.count < q[k].count
    ensures Insert(q, e) == q[..k] + [e] + q[k..]
  {
    if k > 0 {
      assert q[0].count <= q[k - 1].count;
      InsertAt(q[1..], e, k - 1);
      Split(q, k);
    }
  }

  // ----- every step keeps the invariant, the clock and the tasks

  lemma HeadTaken(ev: Event)
    requires EventOk(ev, true) && ev.queue != []
    ensures var q := ev.queue;
            && EventOk(Event(q[0].count, q[1..]), true) && ev.count <= q[0].count
            && q[0].task in TasksOf(q) && TasksOf(q[1..]) == TasksOf(q) - {q[0].task}
  {
    var q := ev.queue;
    SplitFacts(q, 1);
    assert q[..1] == [q[0]];
    Singleton(q[0]);
  }

  lemma QueuedLess(s: State, d: State, t: Task)
    requires d.events.Keys == s.events.Keys
    requires forall e :: e in s.events ==> TasksOf(d.events[e].queue) == TasksOf(s.events[e].queue) - {t}
    ensures Queued(d) == Queued(s) - {t}
  {
    forall x ensures x in Queued(d) <==> x in Queued(s) - {t} {
      if x in Queued(d) {
        var e :| e in d.events && x in TasksOf(d.events[e].queue);
        assert x in TasksOf(s.events[e].queue);
      }
      if x in Queued(s) && x != t {
        var e :| e in s.events && x in TasksOf(s.events[e].queue);
        assert x in TasksOf(d.events[e].queue);
      }
    }
  }

  lemma DispatchOk(s: State)
    requires ListsOk(s)
    ensures Inv(Dispatch(s))
    ensures Time(s) <= Time(Dispatch(s))
    ensures AllTasks(Dispatch(s)) == Queued(s)
  {
    var q, d := Ready(s), Dispatch(s);
    if q != [] {
      assert EventOk(s.events[s.etime], true);
      HeadTaken(s.events[s.etime]);
      forall e | e in d.events ensures TasksOf(d.events[e].queue) == TasksOf(s.events[e].queue) - {q[0].task} {
        if e != s.etime {
          assert q[0].task !in TasksOf(s.events[e].queue);
        }
      }
      assert q[0].task in Queued(s);
      QueuedLess(s, d, q[0].task);
    }
  }

  /** Replacing one list by one that holds one more task. */
  lemma GrownTasks(s: State, ec: EventCount, ev: Event, t: Task, r: State)
    requires ec in s.events && t !in Queued(s)
    requires TasksOf(ev.queue) == TasksOf(s.events[ec].queue) + {t}
    requires r.events == s.events[ec := ev]
    ensures forall e :: e in s.events ==> t !in TasksOf(s.events[e].queue)
    ensures forall e :: e in r.events
                        ==> TasksOf(r.events[e].queue) == TasksOf(s.events[e].queue) + (if e == ec then {t} else {})
    ensures Queued(r) == Queued(s) + {t}
  {
    assert r.events[ec] == ev;
    assert TasksOf(r.events[ec].queue) <= Queued(r);
  }

  lemma QueueGrows(s: State, ec: EventCount, ev: Event, t: Task, r: State)
    requires ListsOk(s) && ec in s.events && t !in Queued(s)
    requires EventOk(ev, ec == s.etime)
    requires TasksOf(ev.queue) == TasksOf(s.events[ec].queue) + {t}
    requires r.events == s.events[ec := ev] && r.etime == s.etime
    requires r.hint == s.hint || (ec == s.etime && r.hint == t)
    ensures ListsOk(r)
    ensures Queued(r) == Queued(s) + {t}
  {
    GrownTasks(s, ec, ev, t, r);
    assert Ordered(r) by {
      assert r.events[ec] == ev;
    }
  }

  lemma InsertOk(ev: Event, clock: bool, e: Entry)
    requires EventOk(ev, clock) && ev.count < e.count && e.task !in TasksOf(ev.queue)
    ensures EventOk(Event(ev.count, Insert(ev.queue, e)), clock)
    ensures TasksOf(Insert(ev.queue, e)) == TasksOf(ev.queue) + {e.task}
  {
    InsertFacts(ev.queue, e);
    InsertSorted(ev.queue, e);
    InsertAtLeast(ev.queue, e, if clock then ev.count else ev.count + 1);
  }

  lemma {:induction false} InsertAtLeast(q: seq<Entry>, e: Entry, bound: int)
    requires AtLeast(q, bound) && bound <= e.count
    ensures AtLeast(Insert(q, e), bound)
  {
    if q != [] && e.count >= q[0].count {
      InsertAtLeast(q[1..], e, bound);
    }
  }

  lemma SwitchOk(s: State, ec: EventCount, value: int)
    requires Inv(s) && ec in s.events && s.cur != null && s.events[ec].count < value
    ensures Inv(Switch(s, ec, value))
    ensures Time(s) <= Time(Switch(s, ec, value))
    ensures AllTasks(Switch(s, ec, value)) == AllTasks(s)
  {
    var ev, e := s.events[ec], Entry(s.cur, value);
    assert e.task !in TasksOf(ev.queue);
    InsertOk(ev, ec == s.etime, e);
    var r := Parked(s, ec, value);
    QueueGrows(s, ec, Event(ev.count, Insert(ev.queue, e)), s.cur, r);
    assert Queued(r) == AllTasks(s);
    DispatchOk(r);
  }

  /** An advance takes exactly the waiters whose threshold is the new count. */
  lemma WokenExactly(ev: Event, i: nat)
    requires EventOk(ev, false) && i < |ev.queue|
    ensures i < Woken(ev.queue, ev.count + 1) <==> ev.queue[i].count == ev.count + 1
  {
    var q, c := ev.queue, ev.count + 1;
    if q[0].count == c {
      var k := Leading(q[1..], c);
      if 1 + k <= i {
        assert q[1..][k].count > c;
      }
    }
  }

  lemma StampFacts(q: seq<Entry>, time: int)
    ensures TasksOf(Stamp(q, time)) == TasksOf(q)
    ensures Distinct(q) ==> Distinct(Stamp(q, time))
  {
    var r := Stamp(q, time);
    forall t | t in TasksOf(q) ensures t in TasksOf(r) {
      var i :| 0 <= i < |q| && q[i].task == t;
      assert r[i].task == t;
    }
  }

  /** Entries due now may be put in front of a time list. */
  lemma PrependOk(front: seq<Entry>, ev: Event)
    requires EventOk(ev, true) && Distinct(front) && TasksOf(front) !! TasksOf(ev.queue)
    requires forall i :: 0 <= i < |front| ==> front[i].count == ev.count
    ensures EventOk(Event(ev.count, front + ev.queue), true)
    ensures TasksOf(front + ev.queue) == TasksOf(front) + TasksOf(ev.queue)
  {
    TasksConcat(front, ev.queue);
    DistinctConcat(front, ev.queue);
  }

  lemma ReleaseLists(ev: Event, clock: Event, k: nat)
    requires EventOk(ev, false) && EventOk(clock, true) && TasksOf(ev.queue) !! TasksOf(clock.queue)
    requires k <= |ev.queue|
    ensures EventOk(Event(clock.count, Stamp(ev.queue[..k], clock.count) + clock.queue), true)
    ensures TasksOf(Stamp(ev.queue[..k], clock.count) + clock.queue) == TasksOf(ev.queue[..k]) + TasksOf(clock.queue)
    ensures TasksOf(ev.queue) == TasksOf(ev.queue[..k]) + TasksOf(ev.queue[k..])
    ensures TasksOf(ev.queue[..k]) !! TasksOf(ev.queue[k..])
  {
    SplitFacts(ev.queue, k);
    StampFacts(ev.queue[..k], clock.count);
    PrependOk(Stamp(ev.queue[..k], clock.count), clock);
  }

  lemma ReleaseQueued(s: State, ec: EventCount, k: nat)
    requires Inv(s) && ec in s.events && ec != s.etime && k <= |s.events[ec].queue|
    ensures Queued(Release(s, ec, k)) == Queued(s)
  {
    var r, q := Release(s, ec, k), s.events[ec].queue;
    ReleaseLists(s.events[ec], s.events[s.etime], k);
    forall t | t in Queued(s) ensures t in Queued(r) {
      var e: EventCount :| e in s.events && t in TasksOf(s.events[e].queue);
      assert t in TasksOf(r.events[if e == ec && t in TasksOf(q[..k]) then s.etime else e].queue);
    }
    forall t | t in Queued(r) ensures t in Queued(s) {
      var e: EventCount :| e in r.events && t in TasksOf(r.events[e].queue);
      assert t in TasksOf(s.events[if e == s.etime && t in TasksOf(q[..k]) then ec else e].queue);
    }
  }

  lemma ReleaseOrdered(s: State, ec: EventCount, k: nat)
    requires Inv(s) && ec in s.events && ec != s.etime && k <= |s.events[ec].queue|
    requires forall i :: k <= i < |s.events[ec].queue| ==> s.events[ec].queue[i].count > s.events[ec].count + 1
    ensures Ordered(Release(s, ec, k))
  {
    SplitFacts(s.events[ec].queue, k);
    ReleaseLists(s.events[ec], s.events[s.etime], k);
  }

  lemma ReleaseExclusive(s: State, ec: EventCount, k: nat)
    requires Inv(s) && ec in s.events && ec != s.etime && k <= |s.events[ec].queue|
    ensures Exclusive(Release(s, ec, k))
    ensures TasksOf(Ready(s)) <= TasksOf(Ready(Release(s, ec, k)))
  {
    var r := Release(s, ec, k);
    var moved := TasksOf(s.events[ec].queue[..k]);
    ReleaseLists(s.events[ec], s.events[s.etime], k);
    forall e | e in r.events
      ensures TasksOf(r.events[e].queue)
              == (if e == s.etime then moved else {}) + TasksOf(s.events[e].queue) - (if e == ec then moved else {})
    {
    }
  }

  lemma ReleaseOk(s: State, ec: EventCount, k: nat)
    requires Inv(s) && ec in s.events && ec != s.etime && k <= |s.events[ec].queue|
    requires forall i :: k <= i < |s.events[ec].queue| ==> s.events[ec].queue[i].count > s.events[ec].count + 1
    ensures Inv(Release(s, ec, k))
    ensures AllTasks(Release(s, ec, k)) == AllTasks(s)
  {
    ReleaseOrdered(s, ec, k);
    ReleaseExclusive(s, ec, k);
    ReleaseQueued(s, ec, k);
  }

  lemma RestIsLater(ev: Event)
    requires EventOk(ev, false)
    ensures forall i :: Woken(ev.queue, ev.count + 1) <= i < |ev.queue| ==> ev.queue[i].count > ev.count + 1
  {
    forall i | Woken(ev.queue, ev.count + 1) <= i < |ev.queue| ensures ev.queue[i].count > ev.count + 1 {
      WokenExactly(ev, i);
    }
  }

  lemma AdvanceOk(s: State, ec: EventCount)
    requires Inv(s) && ec in s.events && ec != s.etime
    ensures Inv(DoAdvance(s, ec))
    ensures Time(DoAdvance(s, ec)) == Time(s)
    ensures AllTasks(DoAdvance(s, ec)) == AllTasks(s)
  {
    var k := Woken(s.events[ec].queue, s.events[ec].count + 1);
    assert DoAdvance(s, ec) == Release(s, ec, k);
    assert EventOk(s.events[ec], false);
    RestIsLater(s.events[ec]);
    ReleaseOk(s, ec, k);
  }

  lemma CreateOk(s: State, t: Task)
    requires Inv(s) && t !in AllTasks(s)
    ensures Inv(DoCreate(s, t))
    ensures Time(DoCreate(s, t)) == Time(s)
    ensures AllTasks(DoCreate(s, t)) == AllTasks(s) + {t}
  {
    var ev := s.events[s.etime];
    var front := [Entry(t, ev.count)];
    Singleton(front[0]);
    PrependOk(front, ev);
    QueueGrows(s, s.etime, Event(ev.count, front + ev.queue), t, DoCreate(s, t));
  }

  /** A pause either moves the clock itself, when nobody is due before, or waits on it. */
  lemma PauseOk(s: State, n: int)
    requires Inv(s) && s.cur != null
    ensures Inv(DoPause(s, n))
    ensures Time(s) <= Time(DoPause(s, n)) <==> 0 <= n
    ensures AllTasks(DoPause(s, n)) == AllTasks(s)
  {
    var q := Ready(s);
    if q == [] || Time(s) + n <= q[0].count {
      var r := DoPause(s, n);
      forall e | e in r.events ensures r.events[e].queue == s.events[e].queue {
      }
    } else {
      SwitchOk(s, s.etime, Time(s) + n);
    }
  }

  /** The tasks a step leaves in the system. */
  ghost function TasksAfter(s: State, step: Step): set<Task> {
    match step
    case Create(t) => AllTasks(s) + {t}
    case Finish => Queued(s)
    case _ => AllTasks(s)
  }

  lemma StepOk(s: State, step: Step)
    requires Inv(s) && Enabled(s, step)
    ensures Inv(Next(s, step))
    ensures AllTasks(Next(s, step)) == TasksAfter(s, step)
    ensures Time(s) <= Time(Next(s, step)) <==> !(step.Pause? && step.n < 0)
    ensures Next(s, step).etime == s.etime
  {
    match step
    case Await(ec, value) =>
      if s.events[ec].count < value { SwitchOk(s, ec, value); }
    case Pause(n) => PauseOk(s, n);
    case Advance(ec) => AdvanceOk(s, ec);
    case Create(t) => CreateOk(s, t);
    case NewEvent(ec, count) =>
      var r := Next(s, step);
      assert TasksOf([]) == {};
      forall e | e in s.events ensures r.events[e] == s.events[e] {
      }
      assert Queued(r) == Queued(s);
    case Finish => DispatchOk(s);
  }
}
