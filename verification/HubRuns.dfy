/** The hub among the tasks that feed and drain it, over whole runs. */
module HubRuns {
  import opened CacheAddress
  import opened HubIommu
  import opened HubMap
  import opened Sequences

  datatype Packet = Packet(id: nat, address: nat)

  /** The number of top queues, the queue limit, the geometry of the GPU caches, and what the MMU
      answers on the way down and on the way up. */
  datatype Setup = Setup(n: nat, queueSize: nat, geometry: Geometry, down: nat -> nat, up: nat -> nat) {
    predicate Ok() {
      n >= 1 && geometry.Ok() && geometry.logBlock <= geometry.width
    }

    function MapOf(address: nat): (to: nat)
      requires Ok()
      ensures to < n
    {
      MapInRange(geometry, n, address);
      CacheMap(geometry, n, address)
    }

    /** The outgoing queue for a packet from queue q: a top queue for one from the bottom queue n,
        and the bottom queue for the others. */
    function Target(q: nat, address: nat): (t: nat)
      requires Ok()
      ensures t <= n
    {
      if q == n then MapOf(address) else n
    }

    function Translate(q: nat, address: nat): nat {
      if q == n then up(address) else down(address)
    }
  }

  /** Waiting for a packet, or in the pause before a packet of queue q is moved. */
  datatype Phase = Idle | Moving(q: nat)

  /** Incoming and outgoing queues, the next queue to look at, the event count of arrivals, and the
      hub's own count. */
  datatype State = State(rx: seq<seq<Packet>>, tx: seq<seq<Packet>>, next: nat, phase: Phase, count: nat, step: nat)

  datatype Step =
    | Arrive(q: nat, packet: Packet)
    | Depart(t: nat)
    | Choose(q: nat)
    | Move

  function Full(rx: seq<seq<Packet>>): (full: seq<bool>)
    ensures |full| == |rx| && forall i :: 0 <= i < |rx| ==> full[i] == (rx[i] != [])
  {
    if rx == [] then [] else Full(rx[..|rx| - 1]) + [rx[|rx| - 1] != []]
  }

  ghost predicate Shaped(u: Setup, s: State) {
    && u.Ok() && |s.rx| == |s.tx| == u.n + 1 && s.next <= u.n
    && (s.phase.Moving? ==> s.phase.q <= u.n && s.rx[s.phase.q] != [])
  }

  ghost predicate Enabled(u: Setup, s: State, step: Step) {
    && Shaped(u, s)
    && match step
       case Arrive(q, p) => q <= u.n && u.geometry.IsWord(p.address)
       case Depart(t) => t <= u.n && s.tx[t] != []
       case Choose(q) => s.phase == Idle && s.step <= s.count && IsPick(Full(s.rx), s.next, q)
       case Move => s.phase.Moving?
  }

  /** The room is checked before the pause, for the address as it then is; the packet is translated
      and moved after the pause. Packets arrive and depart at any time. */
  ghost function Next(u: Setup, s: State, step: Step): State
    requires Enabled(u, s, step)
  {
    match step
    case Arrive(q, p) => s.(rx := s.rx[q := s.rx[q] + [p]], count := s.count + 1)
    case Depart(t) => s.(tx := s.tx[t := s.tx[t][1..]])
    case Choose(q) =>
      var room := |s.tx[u.Target(q, s.rx[q][0].address)]| <= u.queueSize;
      s.(next := After(u.n, q), phase := if room then Moving(q) else Idle)
    case Move =>
      var q := s.phase.q;
      var p := s.rx[q][0];
      var moved := p.(address := u.Translate(q, p.address));
      var t := u.Target(q, moved.address);
      s.(rx := s.rx[q := s.rx[q][1..]], tx := s.tx[t := s.tx[t] + [moved]], phase := Idle, step := s.step + 1)
  }

  // ----- the invariant

  function Length(): seq<Packet> -> nat {
    (q: seq<Packet>) => |q|
  }

  /** No outgoing queue is longer than the limit by more than one, and the queue that a packet under
      way was checked for still has room. */
  ghost predicate Bounded(u: Setup, s: State)
    requires Shaped(u, s)
  {
    && (forall t :: 0 <= t <= u.n ==> |s.tx[t]| <= u.queueSize + 1)
    && (s.phase.Moving? ==> |s.tx[u.Target(s.phase.q, s.rx[s.phase.q][0].address)]| <= u.queueSize)
  }

  /** The event count counts the packets that came, the hub's count those that it moved. */
  ghost predicate Counted(s: State) {
    Sum(s.rx, Length()) + s.step == s.count + 1
  }

  ghost predicate WordsOnly(u: Setup, s: State) {
    forall q, i :: 0 <= q < |s.rx| && 0 <= i < |s.rx[q]| ==> u.geometry.IsWord(s.rx[q][i].address)
  }

  ghost predicate Inv(u: Setup, s: State) {
    Shaped(u, s) && Bounded(u, s) && Counted(s) && WordsOnly(u, s)
  }

  /** Translation on the way up leaves the packet with the same GPU cache. */
  ghost predicate KeepsMap(u: Setup)
    requires u.Ok()
  {
    forall a: nat | u.geometry.IsWord(a) :: u.MapOf(u.up(a)) == u.MapOf(a)
  }

  /** It does if it keeps the page offset of an address word, and the map reads offset bits only. */
  lemma OffsetKeepsMap(u: Setup, logPage: nat)
    requires u.Ok() && (u.n - 1) * Bits.Pow2(u.geometry.logBlock) < Bits.Pow2(logPage)
    requires forall a: nat | u.geometry.IsWord(a) :: u.geometry.IsWord(u.up(a)) && SameOffset(logPage, a, u.up(a))
    ensures KeepsMap(u)
  {
    forall a: nat | u.geometry.IsWord(a) ensures u.MapOf(u.up(a)) == u.MapOf(a) {
      MapKept(u.geometry, u.n, logPage, a, u.up(a));
    }
  }

  ghost predicate Init(u: Setup, s: State) {
    && u.Ok() && |s.rx| == |s.tx| == u.n + 1
    && (forall i :: 0 <= i <= u.n ==> s.rx[i] == [] && s.tx[i] == [])
    && s.next == 0 && s.phase == Idle && s.count == 0 && s.step == 1
  }

  lemma InitOk(u: Setup, s: State)
    requires Init(u, s)
    ensures Inv(u, s)
  {
    SumZero(s.rx, Length());
  }

  lemma CountedKept(u: Setup, s: State, step: Step)
    requires Inv(u, s) && Enabled(u, s, step)
    ensures Counted(Next(u, s, step))
  {
    match step {
      case Arrive(q, p) => SumUpdate(s.rx, q, s.rx[q] + [p], Length());
      case Depart(_) =>
      case Choose(_) =>
      case Move => SumUpdate(s.rx, s.phase.q, s.rx[s.phase.q][1..], Length());
    }
  }

  lemma StepOk(u: Setup, s: State, step: Step)
    requires Inv(u, s) && KeepsMap(u) && Enabled(u, s, step)
    ensures Inv(u, Next(u, s, step))
  {
    CountedKept(u, s, step);
    if step.Move? {
      var a := s.rx[s.phase.q][0].address;
      assert u.MapOf(u.up(a)) == u.MapOf(a);
    }
  }

  ghost predicate IsRun(u: Setup, states: seq<State>, steps: seq<Step>) {
    && |states| == |steps| + 1 && Init(u, states[0])
    && forall i :: 0 <= i < |steps| ==> Enabled(u, states[i], steps[i]) && states[i + 1] == Next(u, states[i], steps[i])
  }

  /** In every run, with a translation that keeps the map, no outgoing queue ever holds more than the
      limit and one packet. */
  lemma {:induction false} QueuesStayBounded(u: Setup, states: seq<State>, steps: seq<Step>, i: nat)
    requires IsRun(u, states, steps) && KeepsMap(u) && i < |states|
    ensures Inv(u, states[i])
    ensures forall t :: 0 <= t <= u.n ==> |states[i].tx[t]| <= u.queueSize + 1
  {
    if i == 0 {
      InitOk(u, states[0]);
    } else {
      QueuesStayBounded(u, states, steps, i - 1);
      StepOk(u, states[i - 1], steps[i - 1]);
    }
  }

  // ----- translation that changes the map

  /** Address a is sent to another GPU cache than the one that room is looked for in. */
  ghost predicate Strays(u: Setup, a: nat) {
    u.Ok() && u.geometry.IsWord(a) && u.MapOf(u.up(a)) != u.MapOf(a)
  }

  /** The hub is idle and has moved k packets for address a, none of which has departed. */
  ghost predicate Piled(u: Setup, a: nat, s: State, k: nat)
    requires u.Ok()
  {
    && |s.rx| == |s.tx| == u.n + 1 && (forall i :: 0 <= i <= u.n ==> s.rx[i] == [])
    && |s.tx[u.MapOf(u.up(a))]| == k && s.tx[u.MapOf(a)] == []
    && s.next == 0 && s.phase == Idle && s.count == k && s.step == k + 1
  }

  /** The hub takes one more reply with address a. */
  lemma PileOn(u: Setup, a: nat, s: State, k: nat) returns (chosen: State, moving: State, done: State)
    requires Strays(u, a) && Piled(u, a, s, k)
    ensures Enabled(u, s, Arrive(u.n, Packet(k, a))) && chosen == Next(u, s, Arrive(u.n, Packet(k, a)))
    ensures Enabled(u, chosen, Choose(u.n)) && moving == Next(u, chosen, Choose(u.n))
    ensures Enabled(u, moving, Move) && done == Next(u, moving, Move)
    ensures Piled(u, a, done, k + 1)
  {
    chosen := Next(u, s, Arrive(u.n, Packet(k, a)));
    assert chosen.rx[u.n] == [Packet(k, a)];
    moving := Next(u, chosen, Choose(u.n));
    done := Next(u, moving, Move);
  }

  /** A run with one more step. */
  lemma Longer(u: Setup, before: seq<State>, first: seq<Step>, step: Step, last: State) returns (states: seq<State>, steps: seq<Step>)
    requires IsRun(u, before, first) && Enabled(u, before[|first|], step) && last == Next(u, before[|first|], step)
    ensures IsRun(u, states, steps) && states[0] == before[0] && |steps| == |first| + 1 && states[|steps|] == last
  {
    states, steps := before + [last], first + [step];
  }

  /** If translation changes the map of some address, runs pile up any number of packets in one
      outgoing queue: the queue that is checked is not the one that grows. */
  lemma {:induction false} Overrun(u: Setup, a: nat, start: State, k: nat) returns (states: seq<State>, steps: seq<Step>)
    requires Strays(u, a) && Init(u, start)
    ensures IsRun(u, states, steps) && states[0] == start && |steps| == 3 * k
    ensures Piled(u, a, states[|steps|], k)
  {
    if k == 0 {
      states, steps := [start], [];
    } else {
      var before, first := Overrun(u, a, start, k - 1);
      var chosen, moving, done := PileOn(u, a, before[|first|], k - 1);
      states, steps := Longer(u, before, first, Arrive(u.n, Packet(k - 1, a)), chosen);
      states, steps := Longer(u, states, steps, Choose(u.n), moving);
      states, steps := Longer(u, states, steps, Move, done);
    }
  }

  ghost predicate WithinLimit(u: Setup, s: State) {
    forall t :: 0 <= t < |s.tx| ==> |s.tx[t]| <= u.queueSize + 1
  }

  ghost predicate RunsWithinLimit(u: Setup) {
    forall states: seq<State>, steps: seq<Step>, i ::
      IsRun(u, states, steps) && 0 <= i < |states| ==> WithinLimit(u, states[i])
  }

  lemma InitExists(u: Setup) returns (s: State)
    requires u.Ok()
    ensures Init(u, s)
  {
    s := State(seq(u.n + 1, i => []), seq(u.n + 1, i => []), 0, Idle, 0, 1);
  }

  /** Every run keeps every outgoing queue within the limit and one packet if and only if translation
      on the way up keeps the GPU cache of every address. */
  lemma BoundNeedsMap(u: Setup)
    requires u.Ok()
    ensures KeepsMap(u) <==> RunsWithinLimit(u)
  {
    if KeepsMap(u) {
      forall states, steps, i | IsRun(u, states, steps) && 0 <= i < |states| ensures WithinLimit(u, states[i]) {
        QueuesStayBounded(u, states, steps, i);
      }
    } else {
      var a: nat :| u.geometry.IsWord(a) && u.MapOf(u.up(a)) != u.MapOf(a);
      var start := InitExists(u);
      var states, steps := Overrun(u, a, start, u.queueSize + 2);
      assert !WithinLimit(u, states[|steps|]);
    }
  }

  /** A translation by pages: words to words, with the same page offset. */
  ghost predicate ByPages(g: Geometry, logPage: nat, up: nat -> nat) {
    forall a: nat | g.IsWord(a) :: g.IsWord(up(a)) && SameOffset(logPage, a, up(a))
  }

  /** All runs keep the bound, whichever translation by pages there is. */
  ghost predicate PagesKeepBound(u: Setup, logPage: nat) {
    forall up: nat -> nat :: ByPages(u.geometry, logPage, up) ==> RunsWithinLimit(u.(up := up))
  }

  lemma SmallSpan(u: Setup, logPage: nat, up: nat -> nat)
    requires u.Ok() && (u.n - 1) * Bits.Pow2(u.geometry.logBlock) < Bits.Pow2(logPage)
    requires ByPages(u.geometry, logPage, up)
    ensures RunsWithinLimit(u.(up := up))
  {
    OffsetKeepsMap(u.(up := up), logPage);
    BoundNeedsMap(u.(up := up));
  }

  /** A translation that only moves address 0, and to another GPU cache. */
  lemma LargeSpan(u: Setup, logPage: nat) returns (up: nat -> nat)
    requires u.Ok()
    requires Bits.Pow2(logPage) <= (u.n - 1) * Bits.Pow2(u.geometry.logBlock) < Bits.Pow2(u.geometry.width)
    ensures ByPages(u.geometry, logPage, up) && Strays(u.(up := up), 0)
  {
    var b := MapLost(u.geometry, u.n, logPage);
    up := a => if a == 0 then b else a;
  }

  lemma StrayBreaks(u: Setup, a: nat)
    requires Strays(u, a)
    ensures !RunsWithinLimit(u)
  {
    BoundNeedsMap(u);
  }

  /** With every translation by pages all runs keep the bound if and only if the caches, a block each,
      span less than a page beyond the first. */
  lemma PagesKeepBoundExactly(u: Setup, logPage: nat)
    requires u.Ok() && (u.n - 1) * Bits.Pow2(u.geometry.logBlock) < Bits.Pow2(u.geometry.width)
    ensures PagesKeepBound(u, logPage) <==> (u.n - 1) * Bits.Pow2(u.geometry.logBlock) < Bits.Pow2(logPage)
  {
    if (u.n - 1) * Bits.Pow2(u.geometry.logBlock) < Bits.Pow2(logPage) {
      forall up: nat -> nat | ByPages(u.geometry, logPage, up) ensures RunsWithinLimit(u.(up := up)) {
        SmallSpan(u, logPage, up);
      }
    } else {
      var up := LargeSpan(u, logPage);
      StrayBreaks(u.(up := up), 0);
    }
  }

  /** Whenever the hub is woken, some queue holds a packet: its search ends, with a definite queue. */
  lemma SearchEnds(u: Setup, s: State) returns (q: nat)
    requires Inv(u, s) && s.phase == Idle && s.step <= s.count
    ensures Enabled(u, s, Choose(q))
    ensures forall r :: Enabled(u, s, Choose(r)) ==> r == q
  {
    var j := SumPositive(s.rx, Length());
    q := PickExists(Full(s.rx), s.next, j);
    forall r | Enabled(u, s, Choose(r)) ensures r == q {
      PickIsUnique(Full(s.rx), s.next, q, r);
    }
  }

  // ----- fairness

  function IsChoice(): Step -> bool {
    (s: Step) => s.Choose?
  }

  /** While queue j holds a packet and is not chosen, every choice brings the hub closer to it. */
  lemma ChoiceComesCloser(u: Setup, s: State, step: Step, j: nat)
    requires Enabled(u, s, step) && j <= u.n && s.rx[j] != [] && step != Choose(j)
    ensures Distance(u.n, Next(u, s, step).next, j) <= Distance(u.n, s.next, j) - (if step.Choose? then 1 else 0)
  {
    if step.Choose? {
      PickComesCloser(Full(s.rx), s.next, step.q, j);
    }
  }

  /** A stretch of a run in which queue j holds a packet and is not chosen. */
  ghost predicate PassesOver(u: Setup, states: seq<State>, steps: seq<Step>, j: nat) {
    && u.Ok() && |states| == |steps| + 1 && j <= u.n && states[0].next <= u.n
    && forall i :: 0 <= i < |steps| ==>
         && Enabled(u, states[i], steps[i]) && states[i + 1] == Next(u, states[i], steps[i])
         && states[i].rx[j] != [] && steps[i] != Choose(j)
  }

  lemma PassesOverPrefix(u: Setup, states: seq<State>, steps: seq<Step>, j: nat, k: nat)
    requires PassesOver(u, states, steps, j) && k <= |steps|
    ensures PassesOver(u, states[..k + 1], steps[..k], j)
  {
  }

  /** However long such a stretch is, the hub chooses at most n times in it, whatever it finds room
      for. */
  lemma {:induction false} WaitIsBounded(u: Setup, states: seq<State>, steps: seq<Step>, j: nat)
    requires PassesOver(u, states, steps, j)
    ensures states[|steps|].next <= u.n
    ensures Tally(steps, IsChoice()) <= Distance(u.n, states[0].next, j) - Distance(u.n, states[|steps|].next, j)
    ensures Tally(steps, IsChoice()) <= u.n
  {
    if steps != [] {
      var k := |steps| - 1;
      PassesOverPrefix(u, states, steps, j, k);
      WaitIsBounded(u, states[..k + 1], steps[..k], j);
      ChoiceComesCloser(u, states[k], steps[k], j);
      NextInRange(u, states[k], steps[k]);
    }
  }

  lemma NextInRange(u: Setup, s: State, step: Step)
    requires Enabled(u, s, step)
    ensures Next(u, s, step).next <= u.n
  {
  }

  // ----- what the hub's own steps do, and progress

  /** The queue that is d <= n places on from p in the cycle of the n top queues and the bottom queue n. */
  function Onwards(n: nat, p: nat, d: nat): nat {
    if p + d <= n then p + d else p + d - n - 1
  }

  /** The hub chooses the first queue with a packet, going round from the next one, and goes on past it;
      the packet will be moved if and only if its outgoing queue is within the limit. */
  lemma ChooseMeaning(u: Setup, s: State, q: nat)
    requires Enabled(u, s, Choose(q))
    ensures var n := Next(u, s, Choose(q));
            && s.rx[q] != [] && n.next == Onwards(u.n, q, 1)
            && n.rx == s.rx && n.tx == s.tx && n.count == s.count && n.step == s.step
            && n.phase == (if |s.tx[if q == u.n then u.MapOf(s.rx[q][0].address) else u.n]| <= u.queueSize then Moving(q) else Idle)
    ensures exists d :: 0 <= d <= u.n && q == Onwards(u.n, s.next, d)
                        && forall e :: 0 <= e < d ==> s.rx[Onwards(u.n, s.next, e)] == []
  {
    var d := Distance(u.n, s.next, q);
    RoundTo(u.n, s.next, q);
    assert Full(s.rx)[q];
    forall e | 0 <= e < d ensures s.rx[Onwards(u.n, s.next, e)] == [] {
      RoundBack(u.n, s.next, e);
      assert !Full(s.rx)[Onwards(u.n, s.next, e)];
    }
  }

  lemma RoundTo(n: nat, p: nat, q: nat)
    requires p <= n && q <= n
    ensures 0 <= Distance(n, p, q) <= n && Onwards(n, p, Distance(n, p, q)) == q && Onwards(n, q, 1) == After(n, q)
  {
  }

  lemma RoundBack(n: nat, p: nat, e: nat)
    requires p <= n && e <= n
    ensures Onwards(n, p, e) <= n && Distance(n, p, Onwards(n, p, e)) == e
  {
  }

  /** After the pause the head of the chosen queue is moved: translated, to the end of the bottom queue if
      it came from above, and of the queue of its GPU cache if it came from below. */
  lemma MoveMeaning(u: Setup, s: State)
    requires Enabled(u, s, Move)
    ensures var n, q := Next(u, s, Move), s.phase.q;
            && s.rx[q] == [s.rx[q][0]] + n.rx[q] && (forall r :: 0 <= r <= u.n && r != q ==> n.rx[r] == s.rx[r])
            && n.phase == Idle && n.next == s.next && n.count == s.count && n.step == s.step + 1
    ensures var n, q := Next(u, s, Move), s.phase.q;
            var p := s.rx[q][0];
            var to := if q == u.n then u.MapOf(u.up(p.address)) else u.n;
            && n.tx[to] == s.tx[to] + [Packet(p.id, if q == u.n then u.up(p.address) else u.down(p.address))]
            && forall t :: 0 <= t <= u.n && t != to ==> n.tx[t] == s.tx[t]
  {
  }

  function IsHubStep(): Step -> bool {
    (s: Step) => s.Choose? || s.Move?
  }

  /** While a packet waits, the hub can take a step. */
  lemma HubCanStep(u: Setup, s: State, j: nat) returns (step: Step)
    requires Inv(u, s) && j <= u.n && s.rx[j] != []
    ensures IsHubStep()(step) && Enabled(u, s, step)
  {
    if s.phase == Idle {
      SumAt(s.rx, Length(), j);
      var q := SearchEnds(u, s);
      step := Choose(q);
    } else {
      step := Move;
    }
  }

  /** Queue j holds a packet, and the outgoing queue of its head is within the limit. */
  ghost predicate HasRoomFor(u: Setup, s: State, j: nat) {
    && Shaped(u, s) && j <= u.n && s.rx[j] != []
    && |s.tx[u.Target(j, s.rx[j][0].address)]| <= u.queueSize
  }

  /** A stretch of a run in which queue j always has a packet with room, and none is moved. */
  ghost predicate Unmoved(u: Setup, states: seq<State>, steps: seq<Step>, j: nat) {
    && |states| == |steps| + 1 && (forall i :: 0 <= i < |states| ==> HasRoomFor(u, states[i], j))
    && forall i :: 0 <= i < |steps| ==>
         && Enabled(u, states[i], steps[i]) && states[i + 1] == Next(u, states[i], steps[i])
         && !(steps[i] == Move && states[i].phase == Moving(j))
  }

  /** What the hub has yet to do before it moves the head of queue j. */
  function Remaining(u: Setup, s: State, j: nat): int
    requires Shaped(u, s) && j <= u.n
  {
    if s.phase == Moving(j) then -1 else 2 * Distance(u.n, s.next, j) + (if s.phase.Moving? then 1 else 0)
  }

  lemma StepComesCloser(u: Setup, s: State, step: Step, j: nat)
    requires HasRoomFor(u, s, j) && Enabled(u, s, step) && HasRoomFor(u, Next(u, s, step), j)
    requires !(step == Move && s.phase == Moving(j))
    ensures Remaining(u, Next(u, s, step), j) <= Remaining(u, s, j) - (if IsHubStep()(step) then 1 else 0)
  {
    if step.Choose? {
      RoundTo(u.n, s.next, j);
      if step.q != j {
        PickComesCloser(Full(s.rx), s.next, step.q, j);
      }
    }
  }

  /** Progress: however long such a stretch is, the hub takes at most 2 * n + 2 steps of its own in it. So
      a packet whose outgoing queue stays within the limit is moved at the latest by the hub's next step. */
  lemma {:induction false} MovedInTime(u: Setup, states: seq<State>, steps: seq<Step>, j: nat)
    requires Unmoved(u, states, steps, j)
    ensures Tally(steps, IsHubStep()) <= Remaining(u, states[0], j) - Remaining(u, states[|steps|], j) <= 2 * u.n + 2
  {
    assert HasRoomFor(u, states[0], j) && HasRoomFor(u, states[|steps|], j);
    RoundTo(u.n, states[0].next, j);
    RoundTo(u.n, states[|steps|].next, j);
    if steps != [] {
      var k := |steps| - 1;
      assert Unmoved(u, states[..k + 1], steps[..k], j);
      MovedInTime(u, states[..k + 1], steps[..k], j);
      assert HasRoomFor(u, states[k], j) && HasRoomFor(u, states[k + 1], j);
      StepComesCloser(u, states[k], steps[k], j);
    }
  }

  // ----- conservation

  function HasId(id: nat): Packet -> bool {
    (p: Packet) => p.id == id
  }

  function CopiesIn(id: nat): seq<Packet> -> nat {
    (q: seq<Packet>) => Tally(q, HasId(id))
  }

  function Copies(s: State, id: nat): nat {
    Sum(s.rx, CopiesIn(id)) + Sum(s.tx, CopiesIn(id))
  }

  lemma TallyHead(q: seq<Packet>, id: nat)
    requires q != []
    ensures Tally(q[1..], HasId(id)) == Tally(q, HasId(id)) - (if q[0].id == id then 1 else 0)
  {
    TallyDrop(q, 0, HasId(id));
    assert Drop(q, 0) == q[1..];
  }

  /** Packets enter only on arrival and leave only on departure; a routing step neither loses nor
      duplicates one. */
  lemma Conserved(u: Setup, s: State, step: Step, id: nat)
    requires Enabled(u, s, step)
    ensures Copies(Next(u, s, step), id) ==
            Copies(s, id)
            + (if step.Arrive? && step.packet.id == id then 1 else 0)
            - (if step.Depart? && s.tx[step.t][0].id == id then 1 else 0)
  {
    match step {
      case Arrive(q, p) =>
        TallyAppend(s.rx[q], p, HasId(id));
        SumUpdate(s.rx, q, s.rx[q] + [p], CopiesIn(id));
      case Depart(t) =>
        TallyHead(s.tx[t], id);
        SumUpdate(s.tx, t, s.tx[t][1..], CopiesIn(id));
      case Choose(_) =>
      case Move =>
        var q := s.phase.q;
        var p := s.rx[q][0];
        var moved := p.(address := u.Translate(q, p.address));
        var t := u.Target(q, moved.address);
        TallyHead(s.rx[q], id);
        SumUpdate(s.rx, q, s.rx[q][1..], CopiesIn(id));
        TallyAppend(s.tx[t], moved, HasId(id));
        SumUpdate(s.tx, t, s.tx[t] + [moved], CopiesIn(id));
    }
  }

  /** No two packets in the hub have the same id. */
  ghost predicate Unique(s: State) {
    forall id: nat :: Copies(s, id) <= 1
  }

  /** Ids stay unique if packets arrive with new ones. */
  lemma UniqueKept(u: Setup, s: State, step: Step)
    requires Enabled(u, s, step) && Unique(s) && (step.Arrive? ==> Copies(s, step.packet.id) == 0)
    ensures Unique(Next(u, s, step))
  {
    forall id: nat ensures Copies(Next(u, s, step), id) <= 1 {
      Conserved(u, s, step, id);
    }
  }

  /** With unique ids, no other place in the hub holds a packet with the id of a queue's head. */
  lemma UniqueHead(s: State, q: nat, id: nat)
    requires Unique(s) && q < |s.rx| && s.rx[q] != [] && s.rx[q][0].id == id
    ensures forall i :: 0 < i < |s.rx[q]| ==> s.rx[q][i].id != id
    ensures forall r, i :: 0 <= r < |s.rx| && r != q && 0 <= i < |s.rx[r]| ==> s.rx[r][i].id != id
    ensures forall t, i :: 0 <= t < |s.tx| && 0 <= i < |s.tx[t]| ==> s.tx[t][i].id != id
  {
    TallyHas(s.rx[q], HasId(id), 0);
    SumAt(s.rx, CopiesIn(id), q);
    assert Copies(s, id) <= 1;
    forall i | 0 < i < |s.rx[q]| ensures s.rx[q][i].id != id {
      if s.rx[q][i].id == id {
        TallyAtTwo(s.rx[q], HasId(id), 0, i);
      }
    }
    forall r, i | 0 <= r < |s.rx| && r != q && 0 <= i < |s.rx[r]| ensures s.rx[r][i].id != id {
      if s.rx[r][i].id == id {
        TallyHas(s.rx[r], HasId(id), i);
        SumAtTwo(s.rx, CopiesIn(id), if r < q then r else q, if r < q then q else r);
      }
    }
    forall t, i | 0 <= t < |s.tx| && 0 <= i < |s.tx[t]| ensures s.tx[t][i].id != id {
      if s.tx[t][i].id == id {
        TallyHas(s.tx[t], HasId(id), i);
        SumAt(s.tx, CopiesIn(id), t);
      }
    }
  }

  /** The packet that was chosen is the one that is moved, whatever arrives and departs during the
      pause. */
  lemma ChosenIsMoved(u: Setup, s: State, step: Step)
    requires Inv(u, s) && s.phase.Moving? && Enabled(u, s, step) && !step.Move?
    ensures var n := Next(u, s, step);
            Shaped(u, n) && n.phase == s.phase && n.rx[s.phase.q][0] == s.rx[s.phase.q][0] && n.step == s.step
  {
  }
}
