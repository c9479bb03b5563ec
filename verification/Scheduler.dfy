/** The scheduler with the linked lists of the source: each eventcount heads a list of tasks that
    are chained through their own `tasklist` fields. Every method is proved to take the step of
    Tasking that it implements. */
module Schedulers {
  import opened Tasking

  ghost function At(q: seq<Entry>, i: nat): Task? {
    if i < |q| then q[i].task else null
  }

  /** The eventcount e holds ev's count, and the chain that starts at its head is ev's list. */
  ghost predicate Holds(e: EventCount, ev: Event, repr: set<object>)
    reads repr
  {
    && e in repr && e.count == ev.count && e.tasklist == At(ev.queue, 0)
    && forall i :: 0 <= i < |ev.queue| ==>
         && ev.queue[i].task in repr
         && ev.queue[i].task.count == ev.queue[i].count
         && ev.queue[i].task.tasklist == At(ev.queue, i + 1)
  }

  ghost predicate Chained(events: map<EventCount, Event>, repr: set<object>)
    reads repr
  {
    forall e :: e in events ==> Holds(e, events[e], repr)
  }

  class Scheduler {
    const etime: EventCount
    var curtask: Task?
    var hint: Task?
    var lastEc: EventCount?
    var lastValue: int

    ghost var model: State
    ghost var repr: set<object>

    /** The fields and the linked lists are those of `model`. */
    ghost predicate Wired()
      reads this, repr
    {
      && this !in repr
      && HasClock(model)
      && model.etime == etime && model.cur == curtask && model.hint == hint
      && (curtask != null ==> curtask in repr)
      && Chained(model.events, repr)
    }

    ghost predicate Valid()
      reads this, repr
    {
      Wired() && Inv(model)
    }

    constructor (inittask: Task)
      ensures Valid() && fresh(repr - {inittask})
      ensures model == State(inittask, null, etime, map[etime := Event(0, [])])
      ensures lastEc == null
    {
      var ec := new EventCount(0);
      etime, curtask, hint, lastEc, lastValue := ec, inittask, null, null, 0;
      model := State(inittask, null, ec, map[ec := Event(0, [])]);
      repr := {ec, inittask};
    }

    /** Every list but e's is as in `model`. */
    ghost predicate ChainedBut(e: EventCount)
      reads this, repr
    {
      forall f :: f in model.events && f != e ==> Holds(f, model.events[f], repr)
    }

    /** Record in `model` the count and list that e now holds. */
    ghost method Record(e: EventCount, ev: Event)
      requires this !in repr && e in model.events && ChainedBut(e) && Holds(e, ev, repr)
      modifies this`model
      ensures model == old(model).(events := old(model).events[e := ev])
      ensures Chained(model.events, repr)
    {
      model := model.(events := model.events[e := ev]);
    }

    /** Unlink the head of the time list and set the clock to its count. */
    method PopReady(head: Task)
      requires this !in repr && HasClock(model) && model.etime == etime && Chained(model.events, repr)
      requires Ready(model) != [] && head == Ready(model)[0].task
      modifies this`model, etime
      ensures model == old(model).(events := old(model).events[etime := Event(old(Ready(model))[0].count, old(Ready(model))[1..])])
      ensures Chained(model.events, repr)
    {
      ghost var q := Ready(model);
      assert Holds(etime, model.events[etime], repr);
      etime.tasklist := head.tasklist;
      etime.count := head.count;
      DropAt(q, 1);
      forall f | f in model.events && f != etime ensures Holds(f, model.events[f], repr) {
        assert old(Holds(f, model.events[f], repr));
      }
      Record(etime, Event(q[0].count, q[1..]));
    }

    /** Take the head of the time list as the current task; without one the simulation exits. */
    method TakeHead()
      requires Wired() && AtLeast(Ready(model), Time(model))
      modifies this`curtask, this`hint, this`model, etime
      ensures Wired() && model == Dispatch(old(model))
    {
      ghost var s, q := model, Ready(model);
      assert Holds(etime, s.events[etime], repr);
      curtask := etime.tasklist;
      assert curtask == At(q, 0);
      hint := if hint == curtask then null else hint;
      if curtask != null {
        assert curtask.count >= etime.count;
        PopReady(curtask);
        model := State(curtask, hint, etime, model.events);
        assert model == Dispatch(s);
      } else {
        model := model.(cur := null);
        assert model == Dispatch(s);
      }
    }

    /** Link the current task into ec's list between its neighbours pptr and ptr, or at the head
        when there is no pptr. */
    method LinkIn(ec: EventCount, pptr: Task?, ptr: Task?, value: int, ghost k: nat)
      requires Wired() && curtask != null && ec in model.events
      requires k <= |model.events[ec].queue| && Loose(model, curtask)
      requires pptr != null ==> OnlyAt(model, pptr, ec, k - 1)
      requires ptr == At(model.events[ec].queue, k)
      requires pptr == if k == 0 then null else model.events[ec].queue[k - 1].task
      modifies this`model, ec, curtask, pptr
      ensures var ev := old(model).events[ec];
              model == old(model).(events := old(model).events[ec := Event(ev.count, Spliced(ev.queue, k, Entry(curtask, value)))])
      ensures Chained(model.events, repr)
    {
      ghost var q, ev := model.events[ec].queue, model.events;
      assert Holds(ec, ev[ec], repr);
      if pptr == null {
        ec.tasklist := curtask;
      } else {
        pptr.tasklist := curtask;
      }
      curtask.tasklist := ptr;
      curtask.count := value;
      ghost var r := Spliced(q, k, Entry(curtask, value));
      forall i | 0 <= i < |r|
        ensures r[i].task in repr && r[i].task.count == r[i].count && r[i].task.tasklist == At(r, i + 1)
      {
        SplicedAt(q, k, Entry(curtask, value), i);
        if i < k {
          assert old(q[i].task.tasklist) == At(q, i + 1);
        } else if i > k {
          assert old(q[i - 1].task.tasklist) == At(q, i);
        }
      }
      forall f | f in ev && f != ec ensures Holds(f, ev[f], repr) {
        assert old(Holds(f, model.events[f], repr));
      }
      Record(ec, Event(ev[ec].count, r));
    }

    /** Link the current task in; behind a neighbour on the time list it becomes the hint. */
    method LinkHinted(ec: EventCount, pptr: Task?, ptr: Task?, value: int, ghost k: nat)
      requires Wired() && curtask != null && ec in model.events
      requires k <= |model.events[ec].queue| && Loose(model, curtask)
      requires pptr != null ==> OnlyAt(model, pptr, ec, k - 1)
      requires ptr == At(model.events[ec].queue, k)
      requires pptr == if k == 0 then null else model.events[ec].queue[k - 1].task
      modifies this`hint, this`model, ec, curtask, pptr
      ensures Wired() && model == Linked(old(model), ec, value, k)
    {
      ghost var s := model;
      LinkIn(ec, pptr, ptr, value, k);
      hint := if ec == etime && pptr != null then curtask else hint;
      model := State(curtask, hint, etime, model.events);
      assert model == Linked(s, ec, value, k);
    }

    /** Walk on from the list position k - 1, whose task is not later, to the first later task. */
    method Scan(ghost ec: EventCount, start: Task, value: int, ghost from: nat)
      returns (pptr: Task, ptr: Task?, ghost k: nat)
      requires Chained(model.events, repr) && ec in model.events
      requires from < |model.events[ec].queue| && start == model.events[ec].queue[from].task && start.count <= value
      ensures 0 < k <= |model.events[ec].queue| && ptr == At(model.events[ec].queue, k)
      ensures pptr == model.events[ec].queue[k - 1].task && model.events[ec].queue[k - 1].count <= value
      ensures k < |model.events[ec].queue| ==> value < model.events[ec].queue[k].count
    {
      ghost var q := model.events[ec].queue;
      assert Holds(ec, model.events[ec], repr);
      pptr, ptr, k := start, start.tasklist, from + 1;
      while ptr != null && value >= ptr.count
        invariant 0 < k <= |q| && pptr == q[k - 1].task && ptr == At(q, k) && q[k - 1].count <= value
        decreases |q| - k
      {
        pptr, ptr, k := ptr, ptr.tasklist, k + 1;
      }
    }

    /** Find the neighbours between which the current task belongs on ec's list. On the time list the
        walk starts at the hint when the hint is not later. */
    method Walk(ec: EventCount, value: int) returns (pptr: Task?, ptr: Task?, ghost k: nat)
      requires Wired() && ec in model.events
      requires hint != null ==> hint in TasksOf(Ready(model))
      ensures Fits(model.events[ec].queue, value, k) && ptr == At(model.events[ec].queue, k)
      ensures pptr == if k == 0 then null else model.events[ec].queue[k - 1].task
    {
      ghost var q := model.events[ec].queue;
      assert Holds(ec, model.events[ec], repr);
      pptr, ptr, k := null, ec.tasklist, 0;
      if ptr != null && value >= ptr.count {
        if ec == etime && hint != null && value >= hint.count {
          pptr, ptr, k := Scan(ec, hint, value, HintIndex(model));
        } else {
          pptr, ptr, k := Scan(ec, ptr, value, 0);
        }
      }
    }

    /** Save the current task on ec's list, sorted by count and behind equal counts. */
    method Park(ec: EventCount, value: int) returns (ghost k: nat)
      requires Wired() && curtask != null && ec in model.events
      requires hint != null ==> hint in TasksOf(Ready(model))
      requires Loose(model, curtask)
      requires forall j :: 0 <= j < |model.events[ec].queue| ==> OnlyAt(model, model.events[ec].queue[j].task, ec, j)
      modifies this`hint, this`model, repr
      ensures Wired() && Fits(old(model).events[ec].queue, value, k)
      ensures model == Linked(old(model), ec, value, k)
    {
      assert Holds(ec, model.events[ec], repr);
      var pptr, ptr;
      pptr, ptr, k := Walk(ec, value);
      LinkHinted(ec, pptr, ptr, value, k);
    }

    /** Save the current task on ec's list and take the next task to run. */
    method FindNextTask(ec: EventCount, value: int)
      requires Valid() && curtask != null && ec in model.events && ec.count < value
      modifies this`curtask, this`hint, this`model, repr
      ensures Valid() && model == Switch(old(model), ec, value)
    {
      ghost var s := model;
      assert Holds(ec, s.events[ec], repr) && Holds(etime, s.events[etime], repr);
      AllApart(s, ec);
      var k := Park(ec, value);
      HintedInsertion(s, ec, value, k);
      TimesAhead(s, ec, value);
      TakeHead();
      SwitchOk(s, ec, value);
    }

    /** Set the count of the waiters that the count of ec enables to the current time. */
    method StampEnabled(ec: EventCount, ghost q: seq<Entry>, ghost nodes: set<Task>)
      returns (pptr: Task, ptr: Task?, ghost k: nat)
      requires ec != etime && Distinct(q) && q != [] && q[0].count <= ec.count
      requires Holds(ec, Event(ec.count, q), repr)
      requires forall i :: 0 <= i < |q| ==> q[i].task in nodes
      modifies nodes`count
      ensures Enables(q, ec.count, k) && pptr == q[k - 1].task && ptr == At(q, k)
      ensures forall i :: 0 <= i < k ==> q[i].task.count == etime.count
      ensures forall i :: k <= i < |q| ==> q[i].task.count == q[i].count
    {
      ptr := ec.tasklist;
      ptr.count := etime.count;
      pptr, ptr, k := ptr, ptr.tasklist, 1;
      while ptr != null && ptr.count == ec.count
        invariant 0 < k <= |q| && pptr == q[k - 1].task && ptr == At(q, k)
        invariant forall i :: 0 <= i < k ==> q[i].task.count == etime.count
        invariant forall i :: k <= i < |q| ==> q[i].task.count == q[i].count
        invariant forall i :: 1 <= i < k ==> q[i].count == ec.count
        decreases |q| - k
      {
        ptr.count := etime.count;
        pptr, ptr, k := ptr, ptr.tasklist, k + 1;
      }
    }

    /** ec's list q is still chained, its first k counts are the current time, and the other lists
        but the time list are as in `model`. */
    ghost predicate Stamped(ec: EventCount, k: nat)
      requires ec in model.events
      reads this, repr, etime
    {
      var q := model.events[ec].queue;
      && 0 < k <= |q| && ec in repr && ec.count == model.events[ec].count + 1
      && (forall i :: 0 <= i < |q| ==> q[i].task in repr)
      && (forall i :: k <= i < |q| ==> q[i].task.tasklist == At(q, i + 1) && q[i].task.count == q[i].count)
      && (forall i :: 0 <= i < k ==> q[i].task.count == etime.count)
      && (forall i :: 0 <= i < k - 1 ==> q[i].task.tasklist == At(q, i + 1))
      && (forall f :: f in model.events && f != ec && f != etime ==> Holds(f, model.events[f], repr))
    }

    /** Put the first k nodes of ec's list, which end at pptr, in front of the time list. */
    method PrependReady(ec: EventCount, pptr: Task, ghost k: nat)
      requires this !in repr && HasClock(model) && model.etime == etime && ec in model.events && ec != etime
      requires OnlyAt(model, pptr, ec, k - 1)
      requires Stamped(ec, k) && Holds(etime, model.events[etime], repr)
      requires pptr == model.events[ec].queue[k - 1].task && ec.tasklist == model.events[ec].queue[0].task
      modifies etime`tasklist, pptr`tasklist
      ensures Stamped(ec, k)
      ensures Holds(etime, Event(etime.count, Stamp(model.events[ec].queue[..k], etime.count) + Ready(model)), repr)
    {
      ghost var q := model.events[ec].queue;
      pptr.tasklist := etime.tasklist;
      etime.tasklist := ec.tasklist;
      ghost var r := Stamp(q[..k], etime.count) + Ready(model);
      forall i | 0 <= i < |r|
        ensures r[i].task in repr && r[i].task.count == r[i].count && r[i].task.tasklist == At(r, i + 1)
      {
        FrontAt(q, k, etime.count, Ready(model), i);
      }
      forall f | f in model.events && f != ec && f != etime ensures Holds(f, model.events[f], repr) {
        assert old(Holds(f, model.events[f], repr));
      }
    }

    /** Leave ec the rest of its list. */
    method LeaveRest(ec: EventCount, ptr: Task?, ghost k: nat)
      requires this !in repr && ec in model.events && ec != etime
      requires Stamped(ec, k) && ptr == At(model.events[ec].queue, k)
      modifies ec`tasklist
      ensures Holds(ec, Event(ec.count, model.events[ec].queue[k..]), repr)
      ensures forall f :: f in model.events && f != ec && f != etime ==> Holds(f, model.events[f], repr)
    {
      ec.tasklist := ptr;
      DropAt(model.events[ec].queue, k);
      forall f | f in model.events && f != ec && f != etime ensures Holds(f, model.events[f], repr) {
        assert old(Holds(f, model.events[f], repr));
      }
    }

    ghost method RecordRelease(ec: EventCount, k: nat)
      requires this !in repr && HasClock(model) && model.etime == etime && ec in model.events && ec != etime
      requires k <= |model.events[ec].queue|
      requires Holds(ec, Release(model, ec, k).events[ec], repr)
      requires Holds(etime, Release(model, ec, k).events[etime], repr)
      requires forall f :: f in model.events && f != ec && f != etime ==> Holds(f, model.events[f], repr)
      modifies this`model
      ensures model == Release(old(model), ec, k) && Chained(model.events, repr)
    {
      model := Release(model, ec, k);
    }

    method DropEnabled(ec: EventCount, ptr: Task?, ghost k: nat)
      requires this !in repr && HasClock(model) && model.etime == etime && ec in model.events && ec != etime
      requires Stamped(ec, k) && ptr == At(model.events[ec].queue, k) && etime.count == Time(model)
      requires Holds(etime, Event(etime.count, Stamp(model.events[ec].queue[..k], etime.count) + Ready(model)), repr)
      modifies this`model, ec`tasklist
      ensures model == Release(old(model), ec, k) && Chained(model.events, repr)
    {
      LeaveRest(ec, ptr, k);
      RecordRelease(ec, k);
    }

    method WakeEnabled(ec: EventCount, ghost q: seq<Entry>) returns (ghost k: nat)
      requires this !in repr && HasClock(model) && model.etime == etime && ec in model.events && ec != etime
      requires q == model.events[ec].queue && q != [] && q[0].count <= ec.count
      requires ec.count == model.events[ec].count + 1 && Holds(ec, Event(ec.count, q), repr)
      requires ChainedBut(ec) && Distinct(q) && Separate(model, ec)
      modifies this`model, repr
      ensures Enables(q, old(ec.count), k)
      ensures model == Release(old(model), ec, k) && Chained(model.events, repr)
    {
      assert TasksOf(q) <= repr;
      SoleOwner(model, ec);
      var pptr, ptr;
      pptr, ptr, k := StampEnabled(ec, q, TasksOf(q));
      forall f | f in model.events && f != ec ensures Holds(f, model.events[f], repr) {
        assert old(Holds(f, model.events[f], repr));
      }
      PrependReady(ec, pptr, k);
      DropEnabled(ec, ptr, k);
    }

    method AdvanceLists(ec: EventCount, ghost q: seq<Entry>)
      requires this !in repr && HasClock(model) && model.etime == etime && ec in model.events && ec != etime
      requires Chained(model.events, repr) && q == model.events[ec].queue && Distinct(q) && Separate(model, ec)
      modifies this`model, repr
      ensures model == DoAdvance(old(model), ec) && Chained(model.events, repr)
    {
      ghost var s := model;
      assert Holds(ec, s.events[ec], repr);
      ec.count := ec.count + 1;
      assert Holds(ec, Event(ec.count, q), repr);
      forall f | f in model.events && f != ec ensures Holds(f, model.events[f], repr) {
        assert old(Holds(f, model.events[f], repr));
      }
      if ec.tasklist == null || ec.tasklist.count > ec.count {
        NothingReleased(s, ec);
        Record(ec, Event(ec.count, q));
      } else {
        var k := WakeEnabled(ec, q);
        AdvanceIs(s, ec, k);
      }
    }

    /** advance: one more event, and the waiters for exactly this count become due now. */
    method Advance(ec: EventCount)
      requires Valid() && curtask != null && ec in model.events && ec != etime
      modifies this`model, repr
      ensures Valid() && model == DoAdvance(old(model), ec)
    {
      AdvanceOk(model, ec);
      OthersApart(model, ec);
      assert EventOk(model.events[ec], false);
      AdvanceLists(ec, model.events[ec].queue);
    }

    /** Choose the next task: park the current one first if it asked to wait. */
    method ContextSelect()
      requires Valid() && curtask != null
      requires lastEc != null ==> lastEc in model.events && lastEc.count < lastValue
      modifies this, repr
      ensures Valid() && lastEc == null && repr == old(repr)
      ensures model == if old(lastEc) != null then Switch(old(model), old(lastEc), old(lastValue)) else Dispatch(old(model))
    {
      if lastEc != null {
        FindNextTask(lastEc, lastValue);
        lastEc := null;
      } else {
        DispatchOk(model);
        assert EventOk(model.events[etime], true);
        TakeHead();
      }
    }

    method SwitchContext(ec: EventCount, value: int)
      requires Valid() && curtask != null && ec in model.events && ec.count < value
      modifies this, repr
      ensures Valid() && lastEc == null && repr == old(repr)
      ensures model == Switch(old(model), ec, value)
    {
      lastEc, lastValue := ec, value;
      ContextSelect();
    }

    /** await: go on at once if the count is reached, otherwise sleep until it is. */
    method Await(ec: EventCount, value: int)
      requires Valid() && curtask != null && lastEc == null && ec in model.events
      modifies this, repr
      ensures Valid() && lastEc == null && repr == old(repr)
      ensures model == DoAwait(old(model), ec, value)
    {
      assert Holds(ec, model.events[ec], repr);
      if ec.count >= value {
        return;
      }
      SwitchContext(ec, value);
    }

    /** Set the clock without a switch. */
    method MoveClock(time: int)
      requires Wired()
      modifies this`model, etime`count
      ensures Wired() && model == ClockAt(old(model), time)
    {
      assert Holds(etime, model.events[etime], repr);
      etime.count := time;
      forall f | f in model.events && f != etime ensures Holds(f, model.events[f], repr) {
        assert old(Holds(f, model.events[f], repr));
      }
      Record(etime, Event(time, Ready(model)));
    }

    /** epause: wait n time units, without a switch when no other task is due before. */
    method EPause(n: int)
      requires Valid() && curtask != null && lastEc == null
      modifies this, repr
      ensures Valid() && lastEc == null && repr == old(repr)
      ensures model == DoPause(old(model), n)
    {
      assert Holds(etime, model.events[etime], repr);
      if etime.tasklist == null || etime.count + n <= etime.tasklist.count {
        RunOn(n);
      } else {
        SleepOn(n);
      }
    }

    /** Somebody is due before: wait on the clock. */
    method SleepOn(n: int)
      requires Valid() && curtask != null && lastEc == null
      requires Ready(model) != [] && Time(model) + n > Ready(model)[0].count
      modifies this, repr
      ensures Valid() && lastEc == null && repr == old(repr)
      ensures model == DoPause(old(model), n)
    {
      PauseAwaits(model, n);
      ClockShown();
      SleepUntil(etime.count + n, DoPause(model, n));
    }

    lemma ClockShown()
      requires Wired()
      ensures etime.count == Time(model)
    {
      assert Holds(etime, model.events[etime], repr);
    }

    method SleepUntil(until: int, ghost after: State)
      requires Valid() && curtask != null && lastEc == null && after == DoAwait(model, etime, until)
      modifies this, repr
      ensures Valid() && lastEc == null && repr == old(repr) && model == after
    {
      Await(etime, until);
    }

    /** Nobody is due before: the current task keeps running and moves the clock itself. */
    method RunOn(n: int)
      requires Valid() && curtask != null
      requires Ready(model) == [] || Time(model) + n <= Ready(model)[0].count
      modifies this`model, etime`count
      ensures Valid() && model == DoPause(old(model), n)
    {
      ghost var after := DoPause(model, n);
      PauseRunsOn(model, n);
      ClockShown();
      MoveClock(etime.count + n);
      assert model == after;
    }

    /** create_task: a new task, due now, in front of the time list. */
    method CreateTask() returns (t: Task)
      requires Valid() && curtask != null
      modifies this`model, this`repr, etime
      ensures Valid() && fresh(t) && repr == old(repr) + {t}
      ensures t !in AllTasks(old(model)) && model == DoCreate(old(model), t)
    {
      t := new Task();
      AllInRepr();
      CreateOk(model, t);
      LinkNew(t);
    }

    method LinkNew(t: Task)
      requires Wired() && t !in repr && Loose(model, t)
      modifies this`model, this`repr, etime`tasklist, t
      ensures Wired() && repr == old(repr) + {t} && model == DoCreate(old(model), t)
    {
      ghost var q, ev, e, after := Ready(model), model.events, Entry(t, etime.count), DoCreate(model, t);
      assert Holds(etime, ev[etime], repr);
      t.count := etime.count;
      t.tasklist := etime.tasklist;
      etime.tasklist := t;
      repr := repr + {t};
      ghost var r := Spliced(q, 0, e);
      forall i | 0 <= i < |r|
        ensures r[i].task in repr && r[i].task.count == r[i].count && r[i].task.tasklist == At(r, i + 1)
      {
        SplicedAt(q, 0, e, i);
        if i > 0 {
          assert old(q[i - 1].task.tasklist) == At(q, i);
        }
      }
      forall f | f in ev && f != etime ensures Holds(f, ev[f], repr) {
        assert old(Holds(f, model.events[f], repr));
      }
      assert r == [e] + q;
      Record(etime, Event(etime.count, r));
      assert model == after;
    }

    lemma AllInRepr()
      requires Wired()
      ensures forall t :: t in AllTasks(model) ==> t in repr
      ensures forall e :: e in model.events ==> e in repr
    {
      forall e | e in model.events ensures e in repr && forall t :: t in TasksOf(model.events[e].queue) ==> t in repr {
        assert Holds(e, model.events[e], repr);
      }
    }

    /** new_eventcount */
    method NewEventcount(count: int) returns (ec: EventCount)
      requires Valid() && curtask != null
      modifies this`model, this`repr
      ensures Valid() && fresh(ec) && repr == old(repr) + {ec}
      ensures Enabled(old(model), NewEvent(ec, count)) && model == Next(old(model), NewEvent(ec, count))
    {
      ec := new EventCount(count);
      AllInRepr();
      StepOk(model, NewEvent(ec, count));
      Enlist(ec);
    }

    ghost method Enlist(ec: EventCount)
      requires Wired() && ec !in repr && ec !in model.events && ec.tasklist == null
      modifies this`model, this`repr
      ensures Wired() && repr == old(repr) + {ec}
      ensures model == old(model).(events := old(model).events[ec := Event(ec.count, [])])
    {
      repr := repr + {ec};
      model := model.(events := model.events[ec := Event(ec.count, [])]);
      forall f | f in model.events ensures Holds(f, model.events[f], repr) {
        if f != ec {
          assert old(Holds(f, model.events[f], repr));
        }
      }
    }

    /** The current task ends: it is on no list, and the next one is taken. */
    method FinishTask()
      requires Valid() && curtask != null
      modifies this, repr
      ensures Valid() && lastEc == null && repr == old(repr)
      ensures model == Dispatch(old(model))
    {
      lastEc := null;
      ContextSelect();
    }
  }

  ghost function ClockAt(s: State, time: int): State
    requires HasClock(s)
  {
    s.(events := s.events[s.etime := Event(time, Ready(s))])
  }

  /** Nobody is due before: the current task keeps running and moves the clock itself. */
  lemma PauseRunsOn(s: State, n: int)
    requires Inv(s) && s.cur != null && (Ready(s) == [] || Time(s) + n <= Ready(s)[0].count)
    ensures DoPause(s, n) == ClockAt(s, Time(s) + n) && Inv(ClockAt(s, Time(s) + n))
  {
    PauseOk(s, n);
  }

  lemma PauseAwaits(s: State, n: int)
    requires Inv(s) && s.cur != null && Ready(s) != [] && Time(s) + n > Ready(s)[0].count
    ensures DoPause(s, n) == DoAwait(s, s.etime, Time(s) + n)
  {
  }

  /** No task of ec's list is on another list. */
  ghost predicate Separate(s: State, ec: EventCount)
    requires ec in s.events
  {
    forall f, i :: f in s.events && f != ec && 0 <= i < |s.events[f].queue|
                   ==> s.events[f].queue[i].task !in TasksOf(s.events[ec].queue)
  }

  lemma SoleOwner(s: State, ec: EventCount)
    requires ec in s.events && Separate(s, ec) && Distinct(s.events[ec].queue)
    ensures forall j :: 0 <= j < |s.events[ec].queue| ==> OnlyAt(s, s.events[ec].queue[j].task, ec, j)
  {
    var q := s.events[ec].queue;
    assert forall j :: 0 <= j < |q| ==> q[j].task in TasksOf(q);
  }

  lemma OthersApart(s: State, ec: EventCount)
    requires Inv(s) && ec in s.events
    ensures Separate(s, ec)
  {
    forall f, i | f in s.events && f != ec && 0 <= i < |s.events[f].queue|
      ensures s.events[f].queue[i].task !in TasksOf(s.events[ec].queue)
    {
      assert s.events[f].queue[i].task in TasksOf(s.events[f].queue);
    }
  }

  lemma AdvanceIs(s: State, ec: EventCount, k: nat)
    requires HasClock(s) && ec in s.events && ec != s.etime
    requires var q, c := s.events[ec].queue, s.events[ec].count + 1; Enables(q, c, k) && q[0].count <= c
    ensures DoAdvance(s, ec) == Release(s, ec, k)
  {
    WokenIs(s.events[ec].queue, s.events[ec].count + 1, k);
  }

  lemma NothingReleased(s: State, ec: EventCount)
    requires HasClock(s) && ec in s.events && ec != s.etime
    requires var q := s.events[ec].queue; q == [] || q[0].count > s.events[ec].count + 1
    ensures DoAdvance(s, ec) == s.(events := s.events[ec := Event(s.events[ec].count + 1, s.events[ec].queue)])
  {
    var q := s.events[ec].queue;
    assert q[..0] == [] && q[0..] == q;
    assert Stamp([], Time(s)) + Ready(s) == Ready(s);
  }

  lemma FrontAt(q: seq<Entry>, k: nat, time: int, ready: seq<Entry>, i: nat)
    requires k <= |q| && i < k + |ready|
    ensures var r := Stamp(q[..k], time) + ready;
            && |r| == k + |ready|
            && r[i] == (if i < k then Entry(q[i].task, time) else ready[i - k])
            && At(r, i + 1) == (if i + 1 < k then q[i + 1].task else At(ready, i + 1 - k))
  {
  }

  lemma DropAt(q: seq<Entry>, k: nat)
    requires k <= |q|
    ensures forall i :: 0 <= i < |q| - k ==> q[k..][i] == q[k + i] && At(q[k..], i + 1) == At(q, k + i + 1)
    ensures At(q[k..], 0) == At(q, k)
  {
    forall i | 0 <= i < |q| - k ensures q[k..][i] == q[k + i] && At(q[k..], i + 1) == At(q, k + i + 1) {
      if i + 1 < |q| - k {
        assert q[k..][i + 1] == q[k + i + 1];
      }
    }
  }

  /** Past the first entry, exactly the entries up to k in a row have count c. */
  ghost predicate Enables(q: seq<Entry>, c: int, k: nat) {
    0 < k <= |q| && (forall i :: 1 <= i < k ==> q[i].count == c) && (k < |q| ==> q[k].count != c)
  }

  lemma {:induction false} LeadingIs(q: seq<Entry>, c: int, k: nat)
    requires k <= |q| && (forall i :: 0 <= i < k ==> q[i].count == c) && (k < |q| ==> q[k].count != c)
    ensures Leading(q, c) == k
  {
    if k > 0 {
      LeadingIs(q[1..], c, k - 1);
    }
  }

  lemma WokenIs(q: seq<Entry>, c: int, k: nat)
    requires Enables(q, c, k) && q[0].count <= c
    ensures Woken(q, c) == k
  {
    LeadingIs(q[1..], c, k - 1);
  }

  /** Where on the time list the hint is. */
  ghost function HintIndex(s: State): (k: nat)
    requires HasClock(s) && s.hint != null && s.hint in TasksOf(Ready(s))
    ensures k < |Ready(s)| && Ready(s)[k].task == s.hint
  {
    var k :| 0 <= k < |Ready(s)| && Ready(s)[k].task == s.hint;
    k
  }

  lemma TimesAhead(s: State, ec: EventCount, value: int)
    requires Inv(s) && ec in s.events && s.cur != null && s.events[ec].count < value
    ensures AtLeast(Ready(Parked(s, ec, value)), Time(Parked(s, ec, value)))
  {
    if ec == s.etime {
      InsertAtLeast(Ready(s), Entry(s.cur, value), Time(s));
    }
  }

  ghost function Spliced(q: seq<Entry>, k: nat, e: Entry): seq<Entry>
    requires k <= |q|
  {
    q[..k] + [e] + q[k..]
  }

  /** Position k has no later entry before it and no entry that is not later behind it. */
  ghost predicate Fits(q: seq<Entry>, value: int, k: nat) {
    k <= |q| && (k > 0 ==> q[k - 1].count <= value) && (k < |q| ==> value < q[k].count)
  }

  ghost function Linked(s: State, ec: EventCount, value: int, k: nat): State
    requires ec in s.events && s.cur != null && k <= |s.events[ec].queue|
  {
    var ev := s.events[ec];
    s.(events := s.events[ec := Event(ev.count, Spliced(ev.queue, k, Entry(s.cur, value)))],
       hint := if ec == s.etime && k > 0 then s.cur else s.hint)
  }

  /** Linking in at a fitting position, wherever the walk to it began, is plain insertion. */
  lemma HintedInsertion(s: State, ec: EventCount, value: int, k: nat)
    requires Inv(s) && ec in s.events && s.cur != null && Fits(s.events[ec].queue, value, k)
    ensures Linked(s, ec, value, k) == Parked(s, ec, value)
  {
    var q := s.events[ec].queue;
    assert EventOk(s.events[ec], ec == s.etime);
    assert k > 0 ==> q[0].count <= q[k - 1].count;
    InsertAt(q, Entry(s.cur, value), k);
  }

  lemma SplicedAt(q: seq<Entry>, k: nat, e: Entry, i: nat)
    requires k <= |q| && i <= |q|
    ensures Spliced(q, k, e)[i] == if i < k then q[i] else if i == k then e else q[i - 1]
    ensures At(Spliced(q, k, e), i + 1) == if i + 1 < k then q[i + 1].task else if i + 1 == k then e.task else At(q, i)
  {
  }

  /** Of all list positions only position j of ec's list may hold t. */
  ghost predicate OnlyAt(s: State, t: Task, ec: EventCount, j: int) {
    forall f, i :: f in s.events && 0 <= i < |s.events[f].queue| && (f != ec || i != j) ==> s.events[f].queue[i].task != t
  }

  ghost predicate Loose(s: State, t: Task) {
    forall f, i :: f in s.events && 0 <= i < |s.events[f].queue| ==> s.events[f].queue[i].task != t
  }

  /** The current task is on no list, and no task is in two places. */
  lemma AllApart(s: State, ec: EventCount)
    requires Inv(s) && ec in s.events && s.cur != null
    ensures Loose(s, s.cur)
    ensures forall j :: 0 <= j < |s.events[ec].queue| ==> OnlyAt(s, s.events[ec].queue[j].task, ec, j)
  {
    OthersApart(s, ec);
    assert EventOk(s.events[ec], ec == s.etime);
    SoleOwner(s, ec);
    forall f, i | f in s.events && 0 <= i < |s.events[f].queue| ensures s.events[f].queue[i].task != s.cur {
      assert s.events[f].queue[i].task in TasksOf(s.events[f].queue);
    }
  }
}
