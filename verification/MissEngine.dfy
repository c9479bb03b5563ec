/** The misses of a first-level cache over whole runs: the table of outstanding requests, the
    coalescer, the retry queue and the requests below, driven by the fetch, load, store and
    write-block handlers. */
module MissEngine {
  import Lru = LruOrder
  import opened Ort
  import opened Sequences

  /** A request sent to the next level, and the way that is kept transient for its block. */
  datatype Flight = Flight(packet: Packet, way: nat)

  datatype State = State(rows: seq<Row>, parked: seq<Packet>, retry: seq<Packet>, inflight: seq<Flight>)

  datatype Step =
    | FreshHit
    | FreshMiss(packet: Packet, way: nat)
    | RetryHit
    /** A retried request misses; a store that meets a shared block counts as a new miss. */
    | RetryMiss(upgrade: bool, way: nat)
    | Complete(index: nat)

  // ----- tests

  function Is(tag: nat, set_: nat): Flight -> bool {
    (f: Flight) => f.packet.tag == tag && f.packet.set_ == set_
  }

  function In(set_: nat): Flight -> bool {
    (f: Flight) => f.packet.set_ == set_
  }

  function ConflictIs(tag: nat, set_: nat): Packet -> bool {
    (p: Packet) => p.conflict && p.tag == tag && p.set_ == set_
  }

  function ConflictIn(set_: nat): Packet -> bool {
    (p: Packet) => p.conflict && p.set_ == set_
  }

  /** No request below keeps the way for its block. */
  predicate IsFree(s: State, set_: nat, way: nat) {
    forall i :: 0 <= i < |s.inflight| && s.inflight[i].packet.set_ == set_ ==> s.inflight[i].way != way
  }

  predicate SomeFree(s: State, set_: nat, assoc: nat) {
    exists way :: 0 <= way < assoc && IsFree(s, set_, way)
  }

  // ----- steps

  /** The request that a retry treats as a miss. */
  function Retried(s: State): Packet
    requires s.retry != []
  {
    s.retry[0].(coalesced := false)
  }

  predicate IsSent(s: State, p: Packet, assoc: nat)
    requires FirstEmpty(s.rows) < |s.rows|
  {
    !Check(s.rows, assoc, p).packet.coalesced
  }

  /** The victim way, if the request is sent, is a way that is not transient, if there is one. */
  predicate PicksWay(s: State, p: Packet, way: nat, assoc: nat) {
    (FirstEmpty(s.rows) < |s.rows| && IsSent(s, p, assoc) && SomeFree(s, p.set_, assoc)) ==>
      way < assoc && IsFree(s, p.set_, way)
  }

  /** When the cache can make a step. It takes a retry before anything else, and a new request only
      while a row of the table is free. */
  predicate Enabled(s: State, step: Step, assoc: nat) {
    match step
    case FreshHit => s.retry == [] && FirstEmpty(s.rows) < |s.rows|
    case FreshMiss(p, way) =>
      && s.retry == [] && FirstEmpty(s.rows) < |s.rows|
      && !p.coalesced && !p.conflict && !p.retried && PicksWay(s, p, way, assoc)
    case RetryHit => s.retry != []
    case RetryMiss(upgrade, way) =>
      s.retry != [] && (s.retry[0].coalesced ==> upgrade) && PicksWay(s, Retried(s), way, assoc)
    case Complete(i) => s.retry == [] && i < |s.inflight|
  }

  /** What the code asserts on the way: a row is free for a miss, a victim way exists for a request
      that is sent, and a row that is cleared exists. */
  predicate AssertionsHold(s: State, step: Step, assoc: nat)
    requires Enabled(s, step, assoc)
  {
    match step
    case FreshHit => true
    case FreshMiss(p, _) => IsSent(s, p, assoc) ==> SomeFree(s, p.set_, assoc)
    case RetryHit =>
      var r := Choose(s.parked, s.retry[0].tag, s.retry[0].set_);
      r.Conflict? ==> FirstMatch(s.rows, s.parked[r.index].tag, s.parked[r.index].set_) < |s.rows|
    case RetryMiss(_, _) =>
      FirstEmpty(s.rows) < |s.rows| && (IsSent(s, Retried(s), assoc) ==> SomeFree(s, Retried(s).set_, assoc))
    case Complete(i) =>
      FirstMatch(s.rows, s.inflight[i].packet.tag, s.inflight[i].packet.set_) < |s.rows|
  }

  /** A request that is sent below is no retry any more. */
  function Sent(p: Packet): Packet {
    p.(retried := false)
  }

  /** A miss is checked against the table and goes below or to the coalescer. */
  function Miss(s: State, p: Packet, way: nat, assoc: nat): State
    requires FirstEmpty(s.rows) < |s.rows|
  {
    var c := Check(s.rows, assoc, p);
    if c.packet.coalesced then State(c.rows, s.parked + [c.packet], [], s.inflight)
    else State(c.rows, s.parked, [], s.inflight + [Flight(Sent(c.packet), way)])
  }

  /** A retried request that hits lets one parked request go and leaves. */
  function Hit(s: State): State
    requires Enabled(s, RetryHit, 0) && AssertionsHold(s, RetryHit, 0)
  {
    var r := Choose(s.parked, s.retry[0].tag, s.retry[0].set_);
    match r
    case Nothing => s.(retry := [])
    case Merged(k) => s.(parked := Drop(s.parked, k), retry := [AsReleased(r, s.parked[k])])
    case Conflict(k) =>
      var p := s.parked[k];
      State(ClearRow(s.rows, p.tag, p.set_), Drop(s.parked, k), [AsReleased(r, p)], s.inflight)
  }

  /** The block of a request below arrives. */
  function Arrive(s: State, i: nat): State
    requires Enabled(s, Complete(i), 0) && AssertionsHold(s, Complete(i), 0)
  {
    var p := s.inflight[i].packet;
    State(ClearRow(s.rows, p.tag, p.set_), s.parked, [p.(retried := true)], Drop(s.inflight, i))
  }

  function Next(s: State, step: Step, assoc: nat): State
    requires Enabled(s, step, assoc) && AssertionsHold(s, step, assoc)
  {
    match step
    case FreshHit => s
    case FreshMiss(p, way) => Miss(s, p, way, assoc)
    case RetryHit => Hit(s)
    case RetryMiss(_, way) => Miss(s, Retried(s), way, assoc)
    case Complete(i) => Arrive(s, i)
  }

  // ----- the invariant

  /** The rows are the requests below together with the requests parked for a conflict. */
  ghost predicate RowsMatch(s: State) {
    && (forall t: nat, u: nat :: Tally(s.rows, Holds(t, u)) == Tally(s.inflight, Is(t, u)) + Tally(s.parked, ConflictIs(t, u)))
    && (forall u: nat :: CountSet(s.rows, u) == Tally(s.inflight, In(u)) + Tally(s.parked, ConflictIn(u)))
  }

  ghost predicate FlagsOk(s: State) {
    && (forall i :: 0 <= i < |s.parked| ==> s.parked[i].coalesced)
    && (forall i :: 0 <= i < |s.inflight| ==> !s.inflight[i].packet.coalesced && !s.inflight[i].packet.conflict)
  }

  /** The retried request has no row, but one is left for it. */
  ghost predicate RetryOk(s: State) {
    && |s.retry| <= 1
    && Occupied(s.rows) + |s.retry| <= |s.rows|
    && (s.retry != [] ==> Tally(s.rows, Holds(s.retry[0].tag, s.retry[0].set_)) == 0)
  }

  predicate Awaited(s: State, p: Packet) {
    || Tally(s.rows, Holds(p.tag, p.set_)) > 0
    || (s.retry != [] && SamePair(s.retry[0], p.tag, p.set_))
  }

  /** A request merged with a miss waits for a block that is outstanding or about to be retried. */
  ghost predicate MergedOk(s: State) {
    forall i :: 0 <= i < |s.parked| && !s.parked[i].conflict ==> Awaited(s, s.parked[i])
  }

  /** How many requests of a set are under way. */
  function Tokens(s: State, set_: nat): nat {
    Tally(s.inflight, In(set_)) + (if s.retry != [] && s.retry[0].set_ == set_ then 1 else 0)
  }

  ghost predicate WaysOk(s: State, assoc: nat) {
    && (forall u: nat :: Tokens(s, u) <= assoc)
    && (forall i :: 0 <= i < |s.inflight| ==> s.inflight[i].way < assoc)
    && (forall i, j :: 0 <= i < j < |s.inflight| && s.inflight[i].packet.set_ == s.inflight[j].packet.set_
          ==> s.inflight[i].way != s.inflight[j].way)
  }

  ghost predicate Inv(s: State, assoc: nat) {
    Proper(s.rows) && RowsMatch(s) && FlagsOk(s) && RetryOk(s) && MergedOk(s) && WaysOk(s, assoc)
  }

  ghost predicate Init(s: State) {
    s == State(s.rows, [], [], []) && forall i :: 0 <= i < |s.rows| ==> s.rows[i] == NO_ROW
  }

  lemma {:induction false} NoRows(rows: seq<Row>, test: Row -> bool)
    requires forall i :: 0 <= i < |rows| ==> rows[i] == NO_ROW
    requires !test(NO_ROW)
    ensures Tally(rows, test) == 0
  {
    if rows != [] {
      NoRows(rows[..|rows| - 1], test);
    }
  }

  lemma InitOk(s: State, assoc: nat)
    requires Init(s)
    ensures Inv(s, assoc)
  {
    NoRows(s.rows, Filled());
    forall t: nat, u: nat ensures Tally(s.rows, Holds(t, u)) == 0 {
      NoRows(s.rows, Holds(t, u));
    }
    forall u: nat ensures CountSet(s.rows, u) == 0 {
      NoRows(s.rows, OfSet(u));
    }
  }

  // ----- a miss keeps the invariant

  /** A request that may miss: a new one, or the retried one. */
  ghost predicate Comes(s: State, p: Packet) {
    && !p.coalesced
    && (s.retry == [] ==> !p.conflict)
    && (s.retry != [] ==> p == Retried(s))
  }

  lemma RowFree(s: State, assoc: nat)
    requires Inv(s, assoc)
    ensures FirstEmpty(s.rows) < |s.rows| <==> Occupied(s.rows) < |s.rows|
  {
    StatusMeansFull(s.rows);
  }

  /** The three ways of a miss. */
  lemma MissCases(s: State, p: Packet, assoc: nat)
    requires Inv(s, assoc) && Comes(s, p) && FirstEmpty(s.rows) < |s.rows|
    ensures var c, member := Check(s.rows, assoc, p), Tally(s.rows, Holds(p.tag, p.set_)) > 0;
            && (member ==> s.retry == [] && c == Checked(s.rows, p.(coalesced := true)))
            && (!member && (p.conflict || CountSet(s.rows, p.set_) < assoc) ==>
                  c == Checked(SetRow(s.rows, p.tag, p.set_), p.(conflict := false)))
            && (!member && !p.conflict && CountSet(s.rows, p.set_) >= assoc ==>
                  c == Checked(SetRow(s.rows, p.tag, p.set_), p.(coalesced := true, conflict := true)))
  {
    SearchFindsMembers(s.rows, p.tag, p.set_);
  }

  lemma MissProper(s: State, p: Packet, way: nat, assoc: nat)
    requires Inv(s, assoc) && Comes(s, p) && FirstEmpty(s.rows) < |s.rows|
    ensures Proper(Miss(s, p, way, assoc).rows)
  {
    MissCases(s, p, assoc);
    SearchFindsMembers(s.rows, p.tag, p.set_);
    SetRowProper(s.rows, p.tag, p.set_);
  }

  lemma MissTallies(s: State, p: Packet, way: nat, assoc: nat, t: nat, u: nat)
    requires Inv(s, assoc) && Comes(s, p) && FirstEmpty(s.rows) < |s.rows|
    ensures var n := Miss(s, p, way, assoc);
            && Tally(n.rows, Holds(t, u)) == Tally(n.inflight, Is(t, u)) + Tally(n.parked, ConflictIs(t, u))
            && CountSet(n.rows, u) == Tally(n.inflight, In(u)) + Tally(n.parked, ConflictIn(u))
  {
    MissCases(s, p, assoc);
    SetRowAdds(s.rows, p.tag, p.set_, t, u);
    var q := Check(s.rows, assoc, p).packet;
    TallyAppend(s.inflight, Flight(Sent(q), way), Is(t, u));
    TallyAppend(s.inflight, Flight(Sent(q), way), In(u));
    TallyAppend(s.parked, q, ConflictIs(t, u));
    TallyAppend(s.parked, q, ConflictIn(u));
  }

  lemma MissFlags(s: State, p: Packet, way: nat, assoc: nat)
    requires Inv(s, assoc) && Comes(s, p) && FirstEmpty(s.rows) < |s.rows|
    ensures FlagsOk(Miss(s, p, way, assoc))
  {
    MissCases(s, p, assoc);
  }

  lemma MissRetry(s: State, p: Packet, way: nat, assoc: nat)
    requires Inv(s, assoc) && Comes(s, p) && FirstEmpty(s.rows) < |s.rows|
    ensures RetryOk(Miss(s, p, way, assoc))
  {
    MissCases(s, p, assoc);
    RowFree(s, assoc);
    SetRowAdds(s.rows, p.tag, p.set_, 0, 0);
  }

  /** After a miss the block of the request has a row, and no row is lost. */
  lemma MissRows(s: State, p: Packet, way: nat, assoc: nat, t: nat, u: nat)
    requires Inv(s, assoc) && Comes(s, p) && FirstEmpty(s.rows) < |s.rows|
    ensures var n := Miss(s, p, way, assoc);
            && Tally(n.rows, Holds(t, u)) >= Tally(s.rows, Holds(t, u))
            && (SamePair(p, t, u) ==> Tally(n.rows, Holds(t, u)) > 0)
  {
    MissCases(s, p, assoc);
    SetRowAdds(s.rows, p.tag, p.set_, t, u);
  }

  lemma MissMerged(s: State, p: Packet, way: nat, assoc: nat)
    requires Inv(s, assoc) && Comes(s, p) && FirstEmpty(s.rows) < |s.rows|
    ensures MergedOk(Miss(s, p, way, assoc))
  {
    var n := Miss(s, p, way, assoc);
    MissCases(s, p, assoc);
    forall i | 0 <= i < |n.parked| && !n.parked[i].conflict ensures Awaited(n, n.parked[i]) {
      var q := n.parked[i];
      MissRows(s, p, way, assoc, q.tag, q.set_);
      if i < |s.parked| {
        assert n.parked[i] == s.parked[i];
        assert Awaited(s, s.parked[i]);
      }
    }
  }

  /** A request is sent only when fewer than assoc other requests of its set are under way. */
  lemma SentHasRoom(s: State, p: Packet, assoc: nat)
    requires Inv(s, assoc) && Comes(s, p) && FirstEmpty(s.rows) < |s.rows| && IsSent(s, p, assoc)
    ensures Tally(s.inflight, In(p.set_)) < assoc
  {
    MissCases(s, p, assoc);
    assert Tokens(s, p.set_) <= assoc;
    assert CountSet(s.rows, p.set_) >= Tally(s.inflight, In(p.set_));
  }

  lemma MissWays(s: State, p: Packet, way: nat, assoc: nat)
    requires Inv(s, assoc) && Comes(s, p) && FirstEmpty(s.rows) < |s.rows|
    requires IsSent(s, p, assoc) ==> way < assoc && IsFree(s, p.set_, way)
    ensures WaysOk(Miss(s, p, way, assoc), assoc)
  {
    var n := Miss(s, p, way, assoc);
    MissCases(s, p, assoc);
    forall u: nat ensures Tokens(n, u) <= assoc {
      assert Tokens(s, u) <= assoc;
      var c := Check(s.rows, assoc, p);
      if IsSent(s, p, assoc) {
        SentHasRoom(s, p, assoc);
        TallyAppend(s.inflight, Flight(Sent(c.packet), way), In(u));
      }
    }
  }

  lemma MissOk(s: State, p: Packet, way: nat, assoc: nat)
    requires Inv(s, assoc) && Comes(s, p) && FirstEmpty(s.rows) < |s.rows|
    requires IsSent(s, p, assoc) ==> way < assoc && IsFree(s, p.set_, way)
    ensures Inv(Miss(s, p, way, assoc), assoc)
  {
    var n := Miss(s, p, way, assoc);
    MissProper(s, p, way, assoc);
    MissFlags(s, p, way, assoc);
    MissRetry(s, p, way, assoc);
    MissMerged(s, p, way, assoc);
    MissWays(s, p, way, assoc);
    assert RowsMatch(n) by {
      forall t: nat, u: nat
        ensures Tally(n.rows, Holds(t, u)) == Tally(n.inflight, Is(t, u)) + Tally(n.parked, ConflictIs(t, u))
      {
        MissTallies(s, p, way, assoc, t, u);
      }
      forall u: nat ensures CountSet(n.rows, u) == Tally(n.inflight, In(u)) + Tally(n.parked, ConflictIn(u)) {
        MissTallies(s, p, way, assoc, 0, u);
      }
    }
  }

  // ----- a free way

  /** The ways kept for requests of a set, and how many there are. */
  function KeptWays(fs: seq<Flight>, set_: nat): set<nat> {
    if fs == [] then {} else
      KeptWays(fs[..|fs| - 1], set_) + (if fs[|fs| - 1].packet.set_ == set_ then {fs[|fs| - 1].way} else {})
  }

  lemma {:induction false} KeptWaysAre(fs: seq<Flight>, set_: nat)
    ensures |KeptWays(fs, set_)| <= Tally(fs, In(set_))
    ensures forall i :: 0 <= i < |fs| && fs[i].packet.set_ == set_ ==> fs[i].way in KeptWays(fs, set_)
  {
    if fs != [] {
      KeptWaysAre(fs[..|fs| - 1], set_);
    }
  }

  lemma Pigeonhole(kept: set<nat>, assoc: nat) returns (way: nat)
    requires |kept| < assoc
    ensures way < assoc && way !in kept
  {
    if Lru.Below(assoc) <= kept {
      Lru.SubsetLeq(Lru.Below(assoc), kept);
    }
    way :| way in Lru.Below(assoc) && way !in kept;
  }

  /** Fewer than assoc requests of a set below leave a way that is not transient. */
  lemma RoomMeansWay(s: State, set_: nat, assoc: nat)
    requires Tally(s.inflight, In(set_)) < assoc
    ensures SomeFree(s, set_, assoc)
  {
    KeptWaysAre(s.inflight, set_);
    var way := Pigeonhole(KeptWays(s.inflight, set_), assoc);
    assert IsFree(s, set_, way);
  }

  /** When a request is sent, the replacement policy finds a victim for its block, whatever the order
      of the ways: a way of the set that is kept for no other request. */
  lemma SentFindsVictim(s: State, p: Packet, assoc: nat, ways: Lru.LruState)
    requires Inv(s, assoc) && Comes(s, p) && FirstEmpty(s.rows) < |s.rows| && IsSent(s, p, assoc)
    requires Lru.Ok(ways, assoc)
    requires forall w: nat :: w < assoc ==> (ways.transient[w] <==> !IsFree(s, p.set_, w)) && !ways.pending[w]
    ensures 0 <= Lru.VictimOf(ways) < assoc && IsFree(s, p.set_, Lru.VictimOf(ways))
  {
    SentHasRoom(s, p, assoc);
    RoomMeansWay(s, p.set_, assoc);
    var w: nat :| w < assoc && IsFree(s, p.set_, w);
    Lru.OrderHasAll(ways.order, assoc, w);
    assert Lru.Eligible(ways, w);
    Lru.ScanMeaning(ways, |ways.order|);
  }

  // ----- a hit keeps the invariant

  /** The retried request lets no conflict packet go as if it were merged, and a conflict packet it
      does let go has a row. */
  lemma ChosenOk(s: State, assoc: nat)
    requires Inv(s, assoc) && s.retry != []
    ensures var r := Choose(s.parked, s.retry[0].tag, s.retry[0].set_);
            && (r.Merged? ==> !s.parked[r.index].conflict && SamePair(s.parked[r.index], s.retry[0].tag, s.retry[0].set_))
            && (r.Conflict? ==>
                  && Tally(s.rows, Holds(s.parked[r.index].tag, s.parked[r.index].set_)) == 1
                  && FirstMatch(s.rows, s.parked[r.index].tag, s.parked[r.index].set_) < |s.rows|)
  {
    var r := Choose(s.parked, s.retry[0].tag, s.retry[0].set_);
    if r != Nothing && s.parked[r.index].conflict {
      var p := s.parked[r.index];
      TallyHas(s.parked, ConflictIs(p.tag, p.set_), r.index);
      assert Tally(s.rows, Holds(p.tag, p.set_)) == Tally(s.inflight, Is(p.tag, p.set_)) + Tally(s.parked, ConflictIs(p.tag, p.set_));
      SearchFindsMembers(s.rows, p.tag, p.set_);
    }
  }

  ghost predicate HitReady(s: State, assoc: nat) {
    Inv(s, assoc) && s.retry != [] && AssertionsHold(s, RetryHit, assoc)
  }

  lemma HitTallies(s: State, assoc: nat, t: nat, u: nat)
    requires HitReady(s, assoc)
    ensures var n := Hit(s);
            && Tally(n.rows, Holds(t, u)) == Tally(n.inflight, Is(t, u)) + Tally(n.parked, ConflictIs(t, u))
            && CountSet(n.rows, u) == Tally(n.inflight, In(u)) + Tally(n.parked, ConflictIn(u))
            && Tally(n.rows, Holds(t, u)) <= Tally(s.rows, Holds(t, u))
  {
    ChosenOk(s, assoc);
    var r := Choose(s.parked, s.retry[0].tag, s.retry[0].set_);
    if r != Nothing {
      var p := s.parked[r.index];
      TallyDrop(s.parked, r.index, ConflictIs(t, u));
      TallyDrop(s.parked, r.index, ConflictIn(u));
      if r.Conflict? {
        ClearRowTakes(s.rows, p.tag, p.set_, t, u);
      }
    }
  }

  lemma HitProper(s: State, assoc: nat)
    requires HitReady(s, assoc)
    ensures Proper(Hit(s).rows)
  {
    var r := Choose(s.parked, s.retry[0].tag, s.retry[0].set_);
    if r.Conflict? {
      ClearRowProper(s.rows, s.parked[r.index].tag, s.parked[r.index].set_);
    }
  }

  lemma HitFlags(s: State, assoc: nat)
    requires HitReady(s, assoc)
    ensures FlagsOk(Hit(s))
  {
    var r := Choose(s.parked, s.retry[0].tag, s.retry[0].set_);
    if r != Nothing {
      DropKeeps(s.parked, r.index);
    }
  }

  lemma DropKeeps(parked: seq<Packet>, k: nat)
    requires k < |parked| && forall i :: 0 <= i < |parked| ==> parked[i].coalesced
    ensures forall i :: 0 <= i < |parked| - 1 ==> Drop(parked, k)[i].coalesced
  {
  }

  lemma HitRetry(s: State, assoc: nat)
    requires HitReady(s, assoc)
    ensures RetryOk(Hit(s))
  {
    ChosenOk(s, assoc);
    var r := Choose(s.parked, s.retry[0].tag, s.retry[0].set_);
    if r.Conflict? {
      var p := s.parked[r.index];
      ClearRowTakes(s.rows, p.tag, p.set_, p.tag, p.set_);
    }
  }

  /** A merged request that stays parked is still awaited. */
  lemma HitAwaited(s: State, assoc: nat, q: Packet)
    requires HitReady(s, assoc) && Awaited(s, q)
    requires Choose(s.parked, s.retry[0].tag, s.retry[0].set_).Merged? || !SamePair(q, s.retry[0].tag, s.retry[0].set_)
    ensures Awaited(Hit(s), q)
  {
    ChosenOk(s, assoc);
    var r := Choose(s.parked, s.retry[0].tag, s.retry[0].set_);
    if r.Conflict? {
      ClearRowTakes(s.rows, s.parked[r.index].tag, s.parked[r.index].set_, q.tag, q.set_);
    }
  }

  lemma HitMerged(s: State, assoc: nat)
    requires HitReady(s, assoc)
    ensures MergedOk(Hit(s))
  {
    var n := Hit(s);
    var r := Choose(s.parked, s.retry[0].tag, s.retry[0].set_);
    forall i | 0 <= i < |n.parked| && !n.parked[i].conflict ensures Awaited(n, n.parked[i]) {
      var k := if r != Nothing && i >= r.index then i + 1 else i;
      assert n.parked[i] == s.parked[k];
      HitAwaited(s, assoc, s.parked[k]);
    }
  }

  lemma HitWays(s: State, assoc: nat)
    requires HitReady(s, assoc)
    ensures WaysOk(Hit(s), assoc)
  {
    ChosenOk(s, assoc);
    forall u: nat ensures Tokens(Hit(s), u) <= assoc {
      assert Tokens(s, u) <= assoc;
    }
  }

  lemma HitOk(s: State, assoc: nat)
    requires HitReady(s, assoc)
    ensures Inv(Hit(s), assoc)
  {
    var n := Hit(s);
    HitProper(s, assoc);
    HitFlags(s, assoc);
    HitRetry(s, assoc);
    HitMerged(s, assoc);
    HitWays(s, assoc);
    assert RowsMatch(n) by {
      forall t: nat, u: nat
        ensures Tally(n.rows, Holds(t, u)) == Tally(n.inflight, Is(t, u)) + Tally(n.parked, ConflictIs(t, u))
      {
        HitTallies(s, assoc, t, u);
      }
      forall u: nat ensures CountSet(n.rows, u) == Tally(n.inflight, In(u)) + Tally(n.parked, ConflictIn(u)) {
        HitTallies(s, assoc, 0, u);
      }
    }
  }

  // ----- an arrival keeps the invariant

  lemma ArrivalHasRow(s: State, i: nat, assoc: nat)
    requires Inv(s, assoc) && i < |s.inflight|
    ensures var p := s.inflight[i].packet;
            FirstMatch(s.rows, p.tag, p.set_) < |s.rows| && Tally(s.rows, Holds(p.tag, p.set_)) == 1
  {
    var p := s.inflight[i].packet;
    TallyHas(s.inflight, Is(p.tag, p.set_), i);
    assert Tally(s.rows, Holds(p.tag, p.set_)) == Tally(s.inflight, Is(p.tag, p.set_)) + Tally(s.parked, ConflictIs(p.tag, p.set_));
    SearchFindsMembers(s.rows, p.tag, p.set_);
  }

  ghost predicate ArriveReady(s: State, i: nat, assoc: nat) {
    Inv(s, assoc) && s.retry == [] && i < |s.inflight| && AssertionsHold(s, Complete(i), assoc)
  }

  lemma ArriveTallies(s: State, i: nat, assoc: nat, t: nat, u: nat)
    requires ArriveReady(s, i, assoc)
    ensures var n := Arrive(s, i);
            && Tally(n.rows, Holds(t, u)) == Tally(n.inflight, Is(t, u)) + Tally(n.parked, ConflictIs(t, u))
            && CountSet(n.rows, u) == Tally(n.inflight, In(u)) + Tally(n.parked, ConflictIn(u))
            && Tokens(n, u) == Tokens(s, u)
            && (SamePair(n.retry[0], t, u) || Tally(n.rows, Holds(t, u)) == Tally(s.rows, Holds(t, u)))
  {
    var p := s.inflight[i].packet;
    TallyDrop(s.inflight, i, Is(t, u));
    TallyDrop(s.inflight, i, In(u));
    ClearRowTakes(s.rows, p.tag, p.set_, t, u);
  }

  lemma ArriveFlags(s: State, i: nat, assoc: nat)
    requires ArriveReady(s, i, assoc)
    ensures FlagsOk(Arrive(s, i)) && RetryOk(Arrive(s, i)) && Proper(Arrive(s, i).rows)
  {
    var p := s.inflight[i].packet;
    ArrivalHasRow(s, i, assoc);
    ClearRowTakes(s.rows, p.tag, p.set_, p.tag, p.set_);
    ClearRowProper(s.rows, p.tag, p.set_);
  }

  lemma ArriveOk(s: State, i: nat, assoc: nat)
    requires ArriveReady(s, i, assoc)
    ensures Inv(Arrive(s, i), assoc)
  {
    var n := Arrive(s, i);
    ArriveFlags(s, i, assoc);
    assert RowsMatch(n) by {
      forall t: nat, u: nat
        ensures Tally(n.rows, Holds(t, u)) == Tally(n.inflight, Is(t, u)) + Tally(n.parked, ConflictIs(t, u))
      {
        ArriveTallies(s, i, assoc, t, u);
      }
      forall u: nat ensures CountSet(n.rows, u) == Tally(n.inflight, In(u)) + Tally(n.parked, ConflictIn(u)) {
        ArriveTallies(s, i, assoc, 0, u);
      }
    }
    assert MergedOk(n) by {
      forall j | 0 <= j < |n.parked| && !n.parked[j].conflict ensures Awaited(n, n.parked[j]) {
        assert Awaited(s, s.parked[j]);
        ArriveTallies(s, i, assoc, n.parked[j].tag, n.parked[j].set_);
      }
    }
    assert WaysOk(n, assoc) by {
      forall u: nat ensures Tokens(n, u) <= assoc {
        ArriveTallies(s, i, assoc, 0, u);
      }
    }
  }

  // ----- every step

  lemma AssertionsOk(s: State, step: Step, assoc: nat)
    requires Inv(s, assoc) && Enabled(s, step, assoc)
    ensures AssertionsHold(s, step, assoc)
  {
    match step {
      case FreshHit =>
      case FreshMiss(p, _) =>
        if IsSent(s, p, assoc) {
          SentHasRoom(s, p, assoc);
          RoomMeansWay(s, p.set_, assoc);
        }
      case RetryHit => ChosenOk(s, assoc);
      case RetryMiss(_, _) =>
        RowFree(s, assoc);
        if IsSent(s, Retried(s), assoc) {
          SentHasRoom(s, Retried(s), assoc);
          RoomMeansWay(s, Retried(s).set_, assoc);
        }
      case Complete(i) => ArrivalHasRow(s, i, assoc);
    }
  }

  lemma StepOk(s: State, step: Step, assoc: nat)
    requires Inv(s, assoc) && Enabled(s, step, assoc)
    ensures AssertionsHold(s, step, assoc) && Inv(Next(s, step, assoc), assoc)
  {
    AssertionsOk(s, step, assoc);
    match step {
      case FreshHit =>
      case FreshMiss(p, way) => MissOk(s, p, way, assoc);
      case RetryHit => HitOk(s, assoc);
      case RetryMiss(_, way) => MissOk(s, Retried(s), way, assoc);
      case Complete(i) => ArriveOk(s, i, assoc);
    }
  }

  // ----- runs

  /** A run: every step is possible, and has its effect if no assertion fails. */
  ghost predicate IsRun(states: seq<State>, steps: seq<Step>, assoc: nat) {
    && |states| == |steps| + 1
    && forall i :: 0 <= i < |steps| ==>
         && Enabled(states[i], steps[i], assoc)
         && (AssertionsHold(states[i], steps[i], assoc) ==> states[i + 1] == Next(states[i], steps[i], assoc))
  }

  /** In no run from the empty cache does an assertion of the table or of the victim selection fail;
      the invariant holds all along. */
  lemma {:induction false} RunOk(states: seq<State>, steps: seq<Step>, assoc: nat, i: nat)
    requires IsRun(states, steps, assoc) && Init(states[0]) && i < |states|
    ensures Inv(states[i], assoc)
    ensures i < |steps| ==> AssertionsHold(states[i], steps[i], assoc)
  {
    if i == 0 {
      InitOk(states[0], assoc);
    } else {
      RunOk(states, steps, assoc, i - 1);
      StepOk(states[i - 1], steps[i - 1], assoc);
    }
    if i < |steps| {
      AssertionsOk(states[i], steps[i], assoc);
    }
  }

  // ----- requests are neither lost nor duplicated

  function Id(id: nat): Packet -> bool {
    (p: Packet) => p.id == id
  }

  function FlightId(id: nat): Flight -> bool {
    (f: Flight) => f.packet.id == id
  }

  /** How often a request is in the cache or below it. */
  function Copies(s: State, id: nat): nat {
    Tally(s.parked, Id(id)) + Tally(s.retry, Id(id)) + Tally(s.inflight, FlightId(id))
  }

  lemma TallyOne<T>(v: T, test: T -> bool)
    ensures Tally([v], test) == if test(v) then 1 else 0
  {
    assert [v][..0] == [];
  }

  lemma MissCopies(s: State, p: Packet, way: nat, assoc: nat, id: nat)
    requires FirstEmpty(s.rows) < |s.rows|
    ensures Copies(Miss(s, p, way, assoc), id) == Copies(s.(retry := []), id) + (if p.id == id then 1 else 0)
  {
    var q := Check(s.rows, assoc, p).packet;
    assert q.id == p.id;
    if q.coalesced {
      TallyAppend(s.parked, q, Id(id));
    } else {
      TallyAppend(s.inflight, Flight(Sent(q), way), FlightId(id));
    }
  }

  lemma HitCopies(s: State, id: nat)
    requires |s.retry| == 1 && AssertionsHold(s, RetryHit, 0)
    ensures Copies(Hit(s), id) == Copies(s.(retry := []), id)
  {
    var r := Choose(s.parked, s.retry[0].tag, s.retry[0].set_);
    if r != Nothing {
      TallyDrop(s.parked, r.index, Id(id));
      TallyOne(AsReleased(r, s.parked[r.index]), Id(id));
    }
  }

  /** A new miss adds its request, a hit of a retry returns its request to the processor, and every
      other request stays exactly as often in the cache or below it as it was. */
  lemma Conserved(s: State, step: Step, assoc: nat, id: nat)
    requires Inv(s, assoc) && Enabled(s, step, assoc) && AssertionsHold(s, step, assoc)
    ensures Copies(Next(s, step, assoc), id) ==
            Copies(s, id)
            + (if step.FreshMiss? && step.packet.id == id then 1 else 0)
            - (if step.RetryHit? && s.retry[0].id == id then 1 else 0)
  {
    if s.retry != [] {
      assert s.retry == [s.retry[0]];
      TallyOne(s.retry[0], Id(id));
    }
    match step {
      case FreshHit =>
      case FreshMiss(p, way) => MissCopies(s, p, way, assoc, id);
      case RetryHit => HitCopies(s, id);
      case RetryMiss(_, way) => MissCopies(s, Retried(s), way, assoc, id);
      case Complete(i) =>
        TallyDrop(s.inflight, i, FlightId(id));
        TallyOne(s.inflight[i].packet.(retried := true), Id(id));
    }
  }

  // ----- parked requests keep their order

  /** Two requests that wait for the same: for one block, or for room in one set. */
  predicate Rivals(p: Packet, q: Packet) {
    p.set_ == q.set_ && p.conflict == q.conflict && (p.conflict || p.tag == q.tag)
  }

  ghost predicate Ahead(parked: seq<Packet>, p: Packet, q: Packet) {
    exists i, j :: 0 <= i < j < |parked| && parked[i] == p && parked[j] == q
  }

  /** A parked request as it is retried. */
  function AsRetried(p: Packet): Packet {
    if p.conflict then p.(coalesced := false, retried := true) else p.(retried := true)
  }

  /** A request that is parked comes last. */
  lemma ParkedLast(s: State, p: Packet, way: nat, assoc: nat)
    requires FirstEmpty(s.rows) < |s.rows| && !IsSent(s, p, assoc)
    ensures var n := Miss(s, p, way, assoc);
            && |n.parked| == |s.parked| + 1 && n.parked[..|s.parked|] == s.parked
            && n.parked[|s.parked|].id == p.id
  {
  }

  lemma DropKeepsAhead(parked: seq<Packet>, k: nat, i: nat, j: nat)
    requires i < j < |parked| && k < |parked| && k != i && k != j
    ensures Ahead(Drop(parked, k), parked[i], parked[j])
  {
    var rest, x, y := Drop(parked, k), if i < k then i else i - 1, if j < k then j else j - 1;
    assert rest[x] == parked[i] && rest[y] == parked[j];
  }

  lemma HitKeepsAhead(s: State, assoc: nat, p: Packet, q: Packet)
    requires HitReady(s, assoc) && Ahead(s.parked, p, q) && Rivals(p, q)
    ensures Ahead(Hit(s).parked, p, q) || Hit(s).retry == [AsRetried(p)]
  {
    var i, j :| 0 <= i < j < |s.parked| && s.parked[i] == p && s.parked[j] == q;
    var r := Choose(s.parked, s.retry[0].tag, s.retry[0].set_);
    ChosenOk(s, assoc);
    ChooseMeaning(s.parked, s.retry[0].tag, s.retry[0].set_);
    if r != Nothing && r.index != i {
      DropKeepsAhead(s.parked, r.index, i, j);
    }
  }

  lemma StepKeepsAhead(s: State, step: Step, assoc: nat, p: Packet, q: Packet)
    requires Inv(s, assoc) && Enabled(s, step, assoc) && AssertionsHold(s, step, assoc)
    requires Ahead(s.parked, p, q) && Rivals(p, q)
    ensures var n := Next(s, step, assoc); Ahead(n.parked, p, q) || n.retry == [AsRetried(p)]
  {
    match step {
      case RetryHit => HitKeepsAhead(s, assoc, p, q);
      case _ =>
        var i, j :| 0 <= i < j < |s.parked| && s.parked[i] == p && s.parked[j] == q;
        assert Next(s, step, assoc).parked[i] == p && Next(s, step, assoc).parked[j] == q;
    }
  }

  /** Requests that wait for the same are retried in the order in which they were parked: the one behind
      stays behind until the one ahead has come to be retried. */
  lemma {:induction false} RetriedInOrder(states: seq<State>, steps: seq<Step>, assoc: nat, p: Packet, q: Packet, k: nat)
    requires IsRun(states, steps, assoc) && Inv(states[0], assoc) && k < |states|
    requires Ahead(states[0].parked, p, q) && Rivals(p, q)
    ensures Inv(states[k], assoc)
    ensures Ahead(states[k].parked, p, q) || exists m :: 0 < m <= k && states[m].retry == [AsRetried(p)]
  {
    if k > 0 {
      RetriedInOrder(states, steps, assoc, p, q, k - 1);
      StepOk(states[k - 1], steps[k - 1], assoc);
      if Ahead(states[k - 1].parked, p, q) {
        StepKeepsAhead(states[k - 1], steps[k - 1], assoc, p, q);
      }
    }
  }

  // ----- what the steps do, in terms of the blocks in the table

  /** A miss is sent below if it retries after a conflict, or if its block is not outstanding and fewer
      than assoc blocks of its set are; otherwise it is parked behind the others, for its block if that is
      outstanding and for room in its set if not. Its block is outstanding afterwards. */
  lemma MissMeaning(s: State, p: Packet, way: nat, assoc: nat)
    requires Inv(s, assoc) && Comes(s, p) && FirstEmpty(s.rows) < |s.rows|
    ensures var n, member, others := Miss(s, p, way, assoc), (p.tag, p.set_) in Members(s.rows), |MembersOf(s.rows, p.set_)|;
            && n.retry == [] && Members(n.rows) == Members(s.rows) + {(p.tag, p.set_)}
            && if p.conflict || (!member && others < assoc) then
                 && n.parked == s.parked
                 && n.inflight == s.inflight + [Flight(Packet(p.id, p.tag, p.set_, false, false, false), way)]
               else
                 && n.inflight == s.inflight
                 && n.parked == s.parked + [Packet(p.id, p.tag, p.set_, true, !member, p.retried)]
  {
    CheckMeaning(s.rows, assoc, p);
    CheckKeepsSet(s.rows, assoc, p);
  }

  /** Request k is the first one parked for the block, or, if none is, the first one parked for room in
      its set. */
  ghost predicate IsNext(parked: seq<Packet>, tag: nat, set_: nat, k: nat) {
    && k < |parked|
    && if exists i :: 0 <= i < |parked| && SamePair(parked[i], tag, set_) then
         SamePair(parked[k], tag, set_) && forall i :: 0 <= i < k ==> !SamePair(parked[i], tag, set_)
       else
         && parked[k].set_ == set_ && parked[k].conflict
         && forall i :: 0 <= i < k ==> !(parked[i].set_ == set_ && parked[i].conflict)
  }

  /** The k-th parked request is retried, and gives its row back if it was parked for room. */
  ghost predicate TakesOut(s: State, n: State, k: nat) {
    && k < |s.parked| && n.parked == s.parked[..k] + s.parked[k + 1..] && n.retry == [AsRetried(s.parked[k])]
    && var p := s.parked[k];
       Members(n.rows) == Members(s.rows) - if p.conflict then {(p.tag, p.set_)} else {}
  }

  /** A retry that hits leaves, and the next request that waits for it, if there is one, is retried. */
  lemma HitMeaning(s: State, assoc: nat)
    requires HitReady(s, assoc)
    ensures var n, p := Hit(s), s.retry[0];
            && n.inflight == s.inflight
            && (n.retry == [] <==> forall k :: 0 <= k < |s.parked| ==> !IsNext(s.parked, p.tag, p.set_, k))
            && (n.retry == [] ==> n.parked == s.parked && n.rows == s.rows)
            && (n.retry != [] ==> exists k :: 0 <= k < |s.parked| && IsNext(s.parked, p.tag, p.set_, k) && TakesOut(s, n, k))
  {
    var p := s.retry[0];
    var r := Choose(s.parked, p.tag, p.set_);
    ChosenOk(s, assoc);
    ChooseMeaning(s.parked, p.tag, p.set_);
    if r != Nothing {
      if r.Conflict? {
        ClearRowProper(s.rows, s.parked[r.index].tag, s.parked[r.index].set_);
      }
      assert IsNext(s.parked, p.tag, p.set_, r.index) && TakesOut(s, Hit(s), r.index);
    }
  }

  /** The request whose block arrives is retried, and its block is outstanding no more. */
  lemma ArriveMeaning(s: State, i: nat, assoc: nat)
    requires Inv(s, assoc) && Enabled(s, Complete(i), 0) && AssertionsHold(s, Complete(i), 0)
    ensures var n, p := Arrive(s, i), s.inflight[i].packet;
            && n.retry == [p.(retried := true)] && n.parked == s.parked
            && n.inflight == s.inflight[..i] + s.inflight[i + 1..]
            && Members(n.rows) == Members(s.rows) - {(p.tag, p.set_)}
  {
    ClearRowProper(s.rows, s.inflight[i].packet.tag, s.inflight[i].packet.set_);
  }

  // ----- who wakes the parked requests

  /** Some request of each set with a request parked for a conflict is under way, so that its end
      can let the parked one go. */
  ghost predicate Live(s: State) {
    forall u: nat :: Tally(s.parked, ConflictIn(u)) > 0 ==> Tokens(s, u) > 0
  }

  /** The retried request is itself parked for a conflict, and was the last of its set under way. */
  predicate Strands(s: State, step: Step, assoc: nat)
    requires Enabled(s, step, assoc) && AssertionsHold(s, step, assoc)
  {
    step.RetryMiss? && !IsSent(s, Retried(s), assoc) && Tokens(s, Retried(s).set_) == 1
  }

  lemma MissTokens(s: State, p: Packet, way: nat, assoc: nat, u: nat)
    requires Inv(s, assoc) && Comes(s, p) && FirstEmpty(s.rows) < |s.rows|
    ensures var n, sent := Miss(s, p, way, assoc), IsSent(s, p, assoc);
            && Tokens(n, u) == Tally(s.inflight, In(u)) + (if sent && p.set_ == u then 1 else 0)
            && Tally(n.parked, ConflictIn(u)) ==
               Tally(s.parked, ConflictIn(u))
               + (if !sent && p.set_ == u && Tally(s.rows, Holds(p.tag, p.set_)) == 0 then 1 else 0)
  {
    MissCases(s, p, assoc);
    var q := Check(s.rows, assoc, p).packet;
    TallyAppend(s.parked, q, ConflictIn(u));
    TallyAppend(s.inflight, Flight(Sent(q), way), In(u));
  }

  lemma FreshLive(s: State, p: Packet, way: nat, assoc: nat)
    requires Inv(s, assoc) && Live(s) && assoc > 0 && Enabled(s, FreshMiss(p, way), assoc)
    ensures Live(Miss(s, p, way, assoc))
  {
    forall u: nat | Tally(Miss(s, p, way, assoc).parked, ConflictIn(u)) > 0 ensures Tokens(Miss(s, p, way, assoc), u) > 0 {
      MissTokens(s, p, way, assoc, u);
      MissCases(s, p, assoc);
      assert CountSet(s.rows, u) == Tally(s.inflight, In(u)) + Tally(s.parked, ConflictIn(u));
    }
  }

  lemma RetryLive(s: State, step: Step, assoc: nat)
    requires Inv(s, assoc) && Live(s) && Enabled(s, step, assoc) && AssertionsHold(s, step, assoc) && step.RetryMiss?
    ensures Live(Next(s, step, assoc)) <==> !Strands(s, step, assoc)
  {
    var p, n := Retried(s), Next(s, step, assoc);
    forall u: nat | u != p.set_ && Tally(n.parked, ConflictIn(u)) > 0 ensures Tokens(n, u) > 0 {
      MissTokens(s, p, step.way, assoc, u);
    }
    MissTokens(s, p, step.way, assoc, p.set_);
  }

  lemma HitLive(s: State, assoc: nat)
    requires HitReady(s, assoc) && Live(s)
    ensures Live(Hit(s))
  {
    ChosenOk(s, assoc);
    var n, r := Hit(s), Choose(s.parked, s.retry[0].tag, s.retry[0].set_);
    forall u: nat | Tally(n.parked, ConflictIn(u)) > 0 ensures Tokens(n, u) > 0 {
      if r == Nothing {
        var i := TallyWhere(n.parked, ConflictIn(u));
      } else {
        TallyDrop(s.parked, r.index, ConflictIn(u));
      }
    }
  }

  /** A step keeps every parked conflict wakeable exactly when it does not park the last request of
      the set under way. */
  lemma LiveKept(s: State, step: Step, assoc: nat)
    requires Inv(s, assoc) && Live(s) && assoc > 0 && Enabled(s, step, assoc) && AssertionsHold(s, step, assoc)
    ensures Live(Next(s, step, assoc)) <==> !Strands(s, step, assoc)
  {
    match step {
      case FreshHit =>
      case FreshMiss(p, way) => FreshLive(s, p, way, assoc);
      case RetryHit => HitLive(s, assoc);
      case RetryMiss(_, _) => RetryLive(s, step, assoc);
      case Complete(i) =>
        forall u: nat | Tally(s.parked, ConflictIn(u)) > 0 ensures Tokens(Next(s, step, assoc), u) > 0 {
          ArriveTallies(s, i, assoc, 0, u);
        }
    }
  }

  // ----- the engine drains

  /** What is left to do: a parked request may still have to be let go, sent below, retried and returned. */
  function Work(s: State): nat {
    4 * |s.parked| + 2 * |s.inflight|
    + (if s.retry == [] then 0 else if s.retry[0].conflict then 3 else 1)
  }

  /** The steps that bring requests on: arrivals, hits of retries, and conflict retries that are sent. */
  predicate Drains(s: State, step: Step)
    requires step.RetryMiss? ==> s.retry != []
  {
    step.Complete? || step.RetryHit? || (step.RetryMiss? && s.retry[0].conflict)
  }

  /** What a step may add: a new miss, or an upgrade that a retried store turns out to need. */
  function Added(s: State, step: Step): nat
    requires step.RetryMiss? ==> s.retry != []
  {
    if step.FreshMiss? then 4 else if step.RetryMiss? && !s.retry[0].conflict then 3 else 0
  }

  lemma WorkStep(s: State, step: Step, assoc: nat)
    requires Inv(s, assoc) && Enabled(s, step, assoc) && AssertionsHold(s, step, assoc)
    ensures Work(Next(s, step, assoc)) + (if Drains(s, step) then 1 else 0) <= Work(s) + Added(s, step)
  {
    match step {
      case FreshHit =>
      case FreshMiss(p, _) => MissCases(s, p, assoc);
      case RetryHit => ChosenOk(s, assoc);
      case RetryMiss(_, _) => MissCases(s, Retried(s), assoc);
      case Complete(_) =>
    }
  }

  /** How many of the first k steps of a run drain, and what they add together. */
  ghost function DrainCount(states: seq<State>, steps: seq<Step>, assoc: nat, k: nat): nat
    requires IsRun(states, steps, assoc) && k <= |steps|
  {
    if k == 0 then 0
    else DrainCount(states, steps, assoc, k - 1) + (if Drains(states[k - 1], steps[k - 1]) then 1 else 0)
  }

  ghost function AddedWork(states: seq<State>, steps: seq<Step>, assoc: nat, k: nat): nat
    requires IsRun(states, steps, assoc) && k <= |steps|
  {
    if k == 0 then 0 else AddedWork(states, steps, assoc, k - 1) + Added(states[k - 1], steps[k - 1])
  }

  /** In every run the draining steps are bounded by the work there was and the work that was added. */
  lemma {:induction false} DrainsAreBounded(states: seq<State>, steps: seq<Step>, assoc: nat, k: nat)
    requires IsRun(states, steps, assoc) && Inv(states[0], assoc) && k <= |steps|
    ensures Inv(states[k], assoc)
    ensures DrainCount(states, steps, assoc, k) + Work(states[k]) <= Work(states[0]) + AddedWork(states, steps, assoc, k)
  {
    if k > 0 {
      DrainsAreBounded(states, steps, assoc, k - 1);
      StepOk(states[k - 1], steps[k - 1], assoc);
      WorkStep(states[k - 1], steps[k - 1], assoc);
    }
  }

  /** When no draining step is left, a live engine is empty: no request is parked, retried or below. */
  lemma LiveDrainsToEmpty(s: State, assoc: nat)
    requires Inv(s, assoc) && Live(s)
    ensures (forall step :: Enabled(s, step, assoc) ==> !Drains(s, step))
            <==> s.parked == [] && s.retry == [] && s.inflight == []
  {
    if s.retry != [] {
      assert Enabled(s, RetryHit, assoc) && Drains(s, RetryHit);
    } else if s.inflight != [] {
      assert Enabled(s, Complete(0), assoc) && Drains(s, Complete(0));
    } else {
      NothingWaits(s, assoc);
    }
  }

  ghost predicate OnlyDrains(states: seq<State>, steps: seq<Step>, assoc: nat, k: nat)
    requires IsRun(states, steps, assoc) && k <= |steps|
  {
    forall i :: 0 <= i < k ==> Drains(states[i], steps[i])
  }

  lemma {:induction false} DrainingRun(states: seq<State>, steps: seq<Step>, assoc: nat, k: nat)
    requires IsRun(states, steps, assoc) && k <= |steps| && OnlyDrains(states, steps, assoc, k)
    requires Inv(states[0], assoc) && Live(states[0]) && assoc > 0
    ensures Inv(states[k], assoc) && Live(states[k])
    ensures k + Work(states[k]) <= Work(states[0])
  {
    if k > 0 {
      DrainingRun(states, steps, assoc, k - 1);
      var s, step := states[k - 1], steps[k - 1];
      StepOk(s, step, assoc);
      WorkStep(s, step, assoc);
      LiveKept(s, step, assoc);
    }
  }

  /** From a live engine without new requests, letting it drain takes at most as many steps as there is
      work, whatever their order, and ends exactly with every request returned. */
  lemma EngineDrains(states: seq<State>, steps: seq<Step>, assoc: nat)
    requires IsRun(states, steps, assoc) && OnlyDrains(states, steps, assoc, |steps|)
    requires Inv(states[0], assoc) && Live(states[0]) && assoc > 0
    ensures |steps| <= Work(states[0])
    ensures var last := states[|steps|];
            (forall step :: Enabled(last, step, assoc) ==> !Drains(last, step))
            <==> last.parked == [] && last.retry == [] && last.inflight == []
  {
    DrainingRun(states, steps, assoc, |steps|);
    LiveDrainsToEmpty(states[|steps|], assoc);
  }

  /** With nothing retried or below, no request of a live engine is parked. */
  lemma NothingWaits(s: State, assoc: nat)
    requires Inv(s, assoc) && Live(s) && s.retry == [] && s.inflight == []
    ensures s.parked == []
  {
    if s.parked != [] {
      var p := s.parked[0];
      if p.conflict {
        TallyHas(s.parked, ConflictIn(p.set_), 0);
      } else {
        assert Awaited(s, p);
        assert Tally(s.rows, Holds(p.tag, p.set_)) == Tally(s.parked, ConflictIs(p.tag, p.set_));
        var i := TallyWhere(s.parked, ConflictIs(p.tag, p.set_));
        TallyHas(s.parked, ConflictIn(p.set_), i);
      }
      assert false;
    }
  }

  // ----- sets that are stuck

  /** No request of the set is under way, and the table leaves no room in it. */
  predicate Stuck(s: State, set_: nat, assoc: nat) {
    Tokens(s, set_) == 0 && CountSet(s.rows, set_) >= assoc
  }

  /** The request that is parked last without a request under way makes its set stuck. */
  lemma StrandsMakesStuck(s: State, step: Step, assoc: nat)
    requires Inv(s, assoc) && Enabled(s, step, assoc) && AssertionsHold(s, step, assoc) && Strands(s, step, assoc)
    ensures Stuck(Next(s, step, assoc), Retried(s).set_, assoc)
  {
    var p := Retried(s);
    MissCases(s, p, assoc);
    MissTokens(s, p, step.way, assoc, p.set_);
    SetRowAdds(s.rows, p.tag, p.set_, p.tag, p.set_);
  }

  /** The requests of the set that are parked. */
  function ParkedOf(parked: seq<Packet>, set_: nat): seq<Packet> {
    if parked == [] then []
    else ParkedOf(parked[..|parked| - 1], set_)
         + (if parked[|parked| - 1].set_ == set_ then [parked[|parked| - 1]] else [])
  }

  lemma {:induction false} ParkedOfDrop(parked: seq<Packet>, k: nat, set_: nat)
    requires k < |parked| && parked[k].set_ != set_
    ensures ParkedOf(Drop(parked, k), set_) == ParkedOf(parked, set_)
  {
    var n := |parked| - 1;
    if k == n {
      assert Drop(parked, k) == parked[..n];
    } else {
      ParkedOfDrop(parked[..n], k, set_);
      assert Drop(parked, k)[..n - 1] == Drop(parked[..n], k);
    }
  }

  /** Once a set is stuck, every step leaves it stuck and its parked requests parked. */
  lemma StuckStep(s: State, step: Step, set_: nat, assoc: nat)
    requires Inv(s, assoc) && Stuck(s, set_, assoc) && Enabled(s, step, assoc) && AssertionsHold(s, step, assoc)
    ensures Stuck(Next(s, step, assoc), set_, assoc)
    ensures ParkedOf(s.parked, set_) <= ParkedOf(Next(s, step, assoc).parked, set_)
  {
    match step {
      case FreshHit =>
      case FreshMiss(p, way) => StuckMiss(s, p, way, set_, assoc);
      case RetryMiss(_, way) => StuckMiss(s, Retried(s), way, set_, assoc);
      case RetryHit =>
        ChosenOk(s, assoc);
        var r := Choose(s.parked, s.retry[0].tag, s.retry[0].set_);
        if r != Nothing {
          ParkedOfDrop(s.parked, r.index, set_);
          if r.Conflict? {
            ClearRowTakes(s.rows, s.parked[r.index].tag, s.parked[r.index].set_, 0, set_);
          }
        }
      case Complete(i) =>
        var p := s.inflight[i].packet;
        if p.set_ == set_ {
          TallyHas(s.inflight, In(set_), i);
        }
        TallyDrop(s.inflight, i, In(set_));
        ClearRowTakes(s.rows, p.tag, p.set_, 0, set_);
    }
  }

  lemma StuckMiss(s: State, p: Packet, way: nat, set_: nat, assoc: nat)
    requires Inv(s, assoc) && Comes(s, p) && FirstEmpty(s.rows) < |s.rows| && Stuck(s, set_, assoc)
    ensures Stuck(Miss(s, p, way, assoc), set_, assoc)
    ensures ParkedOf(s.parked, set_) <= ParkedOf(Miss(s, p, way, assoc).parked, set_)
  {
    var q := Check(s.rows, assoc, p).packet;
    MissCases(s, p, assoc);
    MissTokens(s, p, way, assoc, set_);
    SetRowAdds(s.rows, p.tag, p.set_, p.tag, set_);
    assert (s.parked + [q])[..|s.parked|] == s.parked;
  }

  /** A stuck set stays stuck over every run: the requests parked in it never leave. */
  lemma {:induction false} StuckForever(states: seq<State>, steps: seq<Step>, set_: nat, assoc: nat, i: nat)
    requires IsRun(states, steps, assoc) && Inv(states[0], assoc) && Stuck(states[0], set_, assoc) && i < |states|
    ensures Inv(states[i], assoc) && Stuck(states[i], set_, assoc)
    ensures ParkedOf(states[0].parked, set_) <= ParkedOf(states[i].parked, set_)
  {
    if i > 0 {
      StuckForever(states, steps, set_, assoc, i - 1);
      StepOk(states[i - 1], steps[i - 1], assoc);
      StuckStep(states[i - 1], steps[i - 1], set_, assoc);
    }
  }

  // ----- a run that strands requests

  lemma TallyTwo<T>(a: T, b: T, test: T -> bool)
    ensures Tally([a, b], test) == (if test(a) then 1 else 0) + (if test(b) then 1 else 0)
  {
    assert [a, b][..1] == [a];
    TallyOne(a, test);
  }

  /** A direct-mapped cache with two rows, and requests of its set 0: a load of block A, a load of
      block B, and a store to A. */
  const LOAD_A := Packet(1, 1, 0, false, false, false)
  const LOAD_B := Packet(2, 2, 0, false, false, false)
  const STORE_A := Packet(3, 1, 0, false, false, false)
  const WAITING_B := LOAD_B.(coalesced := true, conflict := true)
  const ROW_A := Row(1, 0, 1)
  const ROW_B := Row(2, 0, 1)

  /** The states of the run. */
  const START := State([NO_ROW, NO_ROW], [], [], [])
  const SENT_A := State([ROW_A, NO_ROW], [], [], [Flight(LOAD_A, 0)])
  const MERGED_A := State([ROW_A, NO_ROW], [STORE_A.(coalesced := true)], [], [Flight(LOAD_A, 0)])
  const PARKED_B := State([ROW_A, ROW_B], [STORE_A.(coalesced := true), WAITING_B], [], [Flight(LOAD_A, 0)])
  const RETRY_LOAD := State([NO_ROW, ROW_B], [STORE_A.(coalesced := true), WAITING_B], [LOAD_A.(retried := true)], [])
  const RETRY_STORE := State([NO_ROW, ROW_B], [WAITING_B], [STORE_A.(coalesced := true, retried := true)], [])
  const STRANDED :=
    State([ROW_A, ROW_B], [WAITING_B, STORE_A.(coalesced := true, conflict := true, retried := true)], [], [])

  ghost predicate Goes(s: State, step: Step, n: State) {
    Enabled(s, step, 1) && AssertionsHold(s, step, 1) && n == Next(s, step, 1)
  }

  /** The load of A is sent, the store to A is merged with it, and the load of B waits for room. */
  lemma StrandingMisses()
    ensures Goes(START, FreshMiss(LOAD_A, 0), SENT_A)
    ensures Goes(SENT_A, FreshMiss(STORE_A, 0), MERGED_A)
    ensures Goes(MERGED_A, FreshMiss(LOAD_B, 0), PARKED_B)
  {
    TallyTwo(NO_ROW, NO_ROW, OfSet(0));
    assert IsFree(START, 0, 0);
    TallyTwo(ROW_A, NO_ROW, OfSet(0));
  }

  /** Block A arrives shared. */
  lemma StrandingArrival()
    ensures Goes(PARKED_B, Complete(0), RETRY_LOAD)
  {
    assert Drop([Flight(LOAD_A, 0)], 0) == [];
  }

  /** The load of A hits and lets the store go. */
  lemma StrandingHit()
    ensures Goes(RETRY_LOAD, RetryHit, RETRY_STORE)
  {
    assert Drop([STORE_A.(coalesced := true), WAITING_B], 0) == [WAITING_B];
  }

  /** The store is an upgrade miss, and is parked for lack of room in the set. */
  lemma StrandingStore()
    ensures Goes(RETRY_STORE, RetryMiss(true, 0), STRANDED)
  {
    TallyTwo(NO_ROW, ROW_B, OfSet(0));
  }

  lemma StrandedIsStuck()
    ensures Stuck(STRANDED, 0, 1) && ParkedOf(STRANDED.parked, 0) == STRANDED.parked
  {
    TallyTwo(ROW_A, ROW_B, OfSet(0));
    assert STRANDED.parked[..1] == [WAITING_B] && STRANDED.parked[..1][..0] == [];
    assert ParkedOf(STRANDED.parked[..1], 0) == ParkedOf(STRANDED.parked[..1][..0], 0) + [WAITING_B];
  }

  ghost predicate Leads(states: seq<State>, steps: seq<Step>, last: State) {
    IsRun(states, steps, 1) && states[0] == START && states[|steps|] == last
  }

  lemma Then(states: seq<State>, steps: seq<Step>, last: State, step: Step, n: State)
    returns (longer: seq<State>, more: seq<Step>)
    requires Leads(states, steps, last) && Goes(last, step, n)
    ensures Leads(longer, more, n)
  {
    longer, more := states + [n], steps + [step];
  }

  lemma StrandingFirstHalf() returns (states: seq<State>, steps: seq<Step>)
    ensures Leads(states, steps, PARKED_B)
  {
    StrandingMisses();
    states, steps := Then([START], [], START, FreshMiss(LOAD_A, 0), SENT_A);
    states, steps := Then(states, steps, SENT_A, FreshMiss(STORE_A, 0), MERGED_A);
    states, steps := Then(states, steps, MERGED_A, FreshMiss(LOAD_B, 0), PARKED_B);
  }

  lemma StrandingSecondHalf(first: seq<State>, firstSteps: seq<Step>) returns (states: seq<State>, steps: seq<Step>)
    requires Leads(first, firstSteps, PARKED_B)
    ensures Leads(states, steps, STRANDED)
  {
    StrandingArrival();
    StrandingHit();
    states, steps := Then(first, firstSteps, PARKED_B, Complete(0), RETRY_LOAD);
    states, steps := Then(states, steps, RETRY_LOAD, RetryHit, RETRY_STORE);
    StrandingStore();
    states, steps := Then(states, steps, RETRY_STORE, RetryMiss(true, 0), STRANDED);
  }

  /** From the empty direct-mapped cache, a run leads to a set with two parked requests that no later
      run lets go. */
  lemma StrandingRun() returns (states: seq<State>, steps: seq<Step>)
    ensures IsRun(states, steps, 1) && Init(states[0])
    ensures Stuck(states[|steps|], 0, 1) && |ParkedOf(states[|steps|].parked, 0)| == 2
  {
    states, steps := StrandingFirstHalf();
    states, steps := StrandingSecondHalf(states, steps);
    StrandedIsStuck();
  }
}
