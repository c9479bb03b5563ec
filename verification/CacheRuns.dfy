/** The runs of a first-level cache with the blocks and the ways of its sets: the miss engine chooses
    its victims by the replacement policy, hits find valid blocks, and everything that the handlers
    assert on the way is proved. */
module CacheRuns {
  import E = MissEngine
  import Lru = LruOrder
  import opened Ort
  import opened Sequences

  /** A set: the replacement state with the transient ways, and tag and validity of each block. */
  datatype Ways = Ways(lru: Lru.LruState, tags: seq<nat>, valid: seq<bool>)

  datatype Option<T> = None | Some(value: T)

  datatype State = State(engine: E.State, sets: seq<Ways>)

  /** A miss that is sent needs a victim for its block, or the upgrade of the block that it found. */
  datatype Kind = Victim | Upgrade(way: nat)

  datatype Step =
    | NewHit
    | NewMiss(packet: Packet, kind: Kind)
    | RetryHit
    | RetryMiss(kind: Kind)
    | Complete(index: nat)
    /** A request is refused below and sent again. */
    | Nack(index: nat)
    /** A hit, of whichever request, rotates the way list. */
    | Rotate(set_: nat, way: nat)
    /** A flush, a downgrade or an invalidation from below. */
    | Invalidate(set_: nat, way: nat)
    /** A block comes back from the write-back buffer. */
    | Restore(set_: nat, way: nat, tag: nat)

  predicate HasBlock(w: Ways, tag: nat) {
    exists x :: 0 <= x < |w.valid| && x < |w.tags| && w.valid[x] && w.tags[x] == tag
  }

  ghost predicate Shaped(s: State, assoc: nat) {
    && (forall u :: 0 <= u < |s.sets| ==> Lru.Ok(s.sets[u].lru, assoc) && |s.sets[u].tags| == |s.sets[u].valid| == assoc)
    && (forall i :: 0 <= i < |s.engine.parked| ==> s.engine.parked[i].set_ < |s.sets|)
    && (forall i :: 0 <= i < |s.engine.retry| ==> s.engine.retry[i].set_ < |s.sets|)
    && forall i :: 0 <= i < |s.engine.inflight| ==>
         s.engine.inflight[i].packet.set_ < |s.sets| && s.engine.inflight[i].way < assoc
  }

  /** An upgrade is of a valid block of the request. */
  ghost predicate KindOk(w: Ways, tag: nat, kind: Kind, assoc: nat) {
    match kind
    case Victim => true
    case Upgrade(x) => x < assoc && |w.tags| == |w.valid| == assoc && w.valid[x] && w.tags[x] == tag
  }

  /** When a step can be made. With a retry waiting, only the retry is worked on; it hits exactly if its
      block is valid, and misses, but for an upgrade, exactly if it is not. */
  ghost predicate Enabled(s: State, step: Step, assoc: nat)
    requires Shaped(s, assoc)
  {
    var e := s.engine;
    match step
    case NewHit => e.retry == [] && FirstEmpty(e.rows) < |e.rows|
    case NewMiss(p, kind) =>
      && e.retry == [] && FirstEmpty(e.rows) < |e.rows|
      && !p.coalesced && !p.conflict && !p.retried
      && p.set_ < |s.sets| && KindOk(s.sets[p.set_], p.tag, kind, assoc)
    case RetryHit => e.retry != [] && HasBlock(s.sets[e.retry[0].set_], e.retry[0].tag)
    case RetryMiss(kind) =>
      && e.retry != [] && KindOk(s.sets[e.retry[0].set_], e.retry[0].tag, kind, assoc)
      && (kind == Victim ==> !HasBlock(s.sets[e.retry[0].set_], e.retry[0].tag))
    case Complete(i) => e.retry == [] && i < |e.inflight|
    case Nack(i) => e.retry == [] && i < |e.inflight|
    case Rotate(u, x) => u < |s.sets| && x < assoc
    case Invalidate(u, x) => e.retry == [] && u < |s.sets| && x < assoc
    case Restore(u, x, tag) =>
      && u < |s.sets| && x < assoc && !s.sets[u].lru.transient[x]
      && (e.retry != [] ==> SamePair(e.retry[0], tag, u))
  }

  /** The way of a request that is sent. */
  ghost function WayFor(w: Ways, kind: Kind): nat {
    match kind
    case Upgrade(x) => x
    case Victim => if Lru.VictimOf(w.lru) >= 0 then Lru.VictimOf(w.lru) else 0
  }

  /** A miss: the table has a free row, and a request that is sent for a block finds a victim. */
  ghost predicate MissAsserts(s: State, p: Packet, kind: Kind, assoc: nat)
    requires p.set_ < |s.sets|
  {
    && FirstEmpty(s.engine.rows) < |s.engine.rows|
    && (E.IsSent(s.engine, p, assoc) && kind == Victim ==> Lru.VictimOf(s.sets[p.set_].lru) != -1)
  }

  /** A reply finds the row of its request. */
  ghost predicate HasRow(s: State, i: nat)
    requires i < |s.engine.inflight|
  {
    var p := s.engine.inflight[i].packet;
    FirstMatch(s.engine.rows, p.tag, p.set_) < |s.engine.rows|
  }

  /** Everything that the handlers assert. A miss is not marked as coalesced, where an upgrade clears
      the mark first; an arriving block finds its way transient for its tag. */
  ghost predicate AssertionsHold(s: State, step: Step, assoc: nat)
    requires Shaped(s, assoc) && Enabled(s, step, assoc)
  {
    var e := s.engine;
    match step
    case NewMiss(p, kind) => MissAsserts(s, p, kind, assoc)
    case RetryHit => E.AssertionsHold(e, E.RetryHit, assoc)
    case RetryMiss(kind) =>
      (kind == Victim ==> !e.retry[0].coalesced) && MissAsserts(s, E.Retried(e), kind, assoc)
    case Complete(i) =>
      var f := e.inflight[i];
      var lru := s.sets[f.packet.set_].lru;
      HasRow(s, i) && lru.transient[f.way] && lru.tags[f.way] == f.packet.tag
    case Nack(i) => HasRow(s, i) && !e.inflight[i].packet.coalesced && !e.inflight[i].packet.conflict
    case _ => true
  }

  /** The set after a request was sent: the victim's block is evicted and its way kept for the new one,
      or the way of the block to upgrade is kept. */
  ghost function Reserve(w: Ways, tag: nat, kind: Kind, assoc: nat): Ways
    requires Lru.Ok(w.lru, assoc) && |w.valid| == assoc
    requires kind == Victim ==> Lru.VictimOf(w.lru) != -1
    requires kind.Upgrade? ==> kind.way < assoc
  {
    match kind
    case Victim =>
      Lru.VictimNext(w.lru, tag, assoc);
      Ways(Lru.Next(w.lru, Lru.Victim(tag), assoc), w.tags, w.valid[Lru.VictimOf(w.lru) := false])
    case Upgrade(x) => w.(lru := Lru.Next(w.lru, Lru.Hold(x), assoc))
  }

  /** The set after a block was written. */
  ghost function Write(w: Ways, x: nat, tag: nat, assoc: nat): Ways
    requires Lru.Ok(w.lru, assoc) && |w.tags| == |w.valid| == assoc && x < assoc
  {
    Ways(Lru.Next(w.lru, Lru.Fill(x, tag), assoc), w.tags[x := tag], w.valid[x := true])
  }

  ghost function AfterMiss(s: State, p: Packet, kind: Kind, assoc: nat): State
    requires Shaped(s, assoc) && p.set_ < |s.sets| && MissAsserts(s, p, kind, assoc)
    requires KindOk(s.sets[p.set_], p.tag, kind, assoc)
  {
    var w := s.sets[p.set_];
    State(E.Miss(s.engine, p, WayFor(w, kind), assoc),
          if E.IsSent(s.engine, p, assoc) then s.sets[p.set_ := Reserve(w, p.tag, kind, assoc)] else s.sets)
  }

  ghost function Next(s: State, step: Step, assoc: nat): State
    requires Shaped(s, assoc) && Enabled(s, step, assoc) && AssertionsHold(s, step, assoc)
  {
    var e := s.engine;
    match step
    case NewHit => s
    case NewMiss(p, kind) => AfterMiss(s, p, kind, assoc)
    case RetryHit => s.(engine := E.Hit(e))
    case RetryMiss(kind) => AfterMiss(s, E.Retried(e), kind, assoc)
    case Complete(i) =>
      var f := e.inflight[i];
      State(E.Arrive(e, i), s.sets[f.packet.set_ := Write(s.sets[f.packet.set_], f.way, f.packet.tag, assoc)])
    case Nack(_) => s
    case Rotate(u, x) =>
      s.(sets := s.sets[u := s.sets[u].(lru := Lru.Next(s.sets[u].lru, Lru.Hit(x), assoc))])
    case Invalidate(u, x) => s.(sets := s.sets[u := s.sets[u].(valid := s.sets[u].valid[x := false])])
    case Restore(u, x, tag) => s.(sets := s.sets[u := Write(s.sets[u], x, tag, assoc)])
  }

  // ----- the invariant

  /** The transient ways of set u are those kept for requests below, with their tags; a valid block has
      the tag that its way last was to hold. */
  ghost predicate SetOk(e: E.State, u: nat, w: Ways, assoc: nat) {
    && Lru.Ok(w.lru, assoc) && |w.tags| == |w.valid| == assoc
    && (forall x :: 0 <= x < assoc ==>
          && (w.lru.transient[x] <==> !E.IsFree(e, u, x))
          && !w.lru.pending[x]
          && (w.valid[x] ==> w.tags[x] == w.lru.tags[x]))
    && forall i :: 0 <= i < |e.inflight| && e.inflight[i].packet.set_ == u ==>
         e.inflight[i].way < assoc && w.lru.tags[e.inflight[i].way] == e.inflight[i].packet.tag
  }

  /** A request that was let go as merged finds its block valid when it is retried. */
  ghost predicate BlockStays(s: State) {
    forall i :: 0 <= i < |s.engine.retry| && s.engine.retry[i].coalesced ==>
      s.engine.retry[i].set_ < |s.sets| && HasBlock(s.sets[s.engine.retry[i].set_], s.engine.retry[i].tag)
  }

  ghost predicate Inv(s: State, assoc: nat) {
    && Shaped(s, assoc) && E.Inv(s.engine, assoc) && BlockStays(s)
    && forall u :: 0 <= u < |s.sets| ==> SetOk(s.engine, u, s.sets[u], assoc)
  }

  ghost predicate Init(s: State, assoc: nat) {
    && E.Init(s.engine)
    && forall u :: 0 <= u < |s.sets| ==>
         var w := s.sets[u];
         && Lru.Ok(w.lru, assoc) && |w.tags| == |w.valid| == assoc
         && forall x :: 0 <= x < assoc ==> !w.lru.transient[x] && !w.lru.pending[x] && !w.valid[x]
  }

  lemma InitOk(s: State, assoc: nat)
    requires Init(s, assoc)
    ensures Inv(s, assoc)
  {
    E.InitOk(s.engine, assoc);
    forall u | 0 <= u < |s.sets| ensures SetOk(s.engine, u, s.sets[u], assoc) {
      forall x | 0 <= x < assoc ensures E.IsFree(s.engine, u, x) {
      }
    }
  }

  // ----- what the steps find

  /** A request that is sent has a way that is kept for no other request: the victim of the replacement
      policy, which exists, or the way of the block to upgrade. */
  lemma SentWay(s: State, p: Packet, kind: Kind, assoc: nat)
    requires Inv(s, assoc) && E.Comes(s.engine, p) && FirstEmpty(s.engine.rows) < |s.engine.rows|
    requires p.set_ < |s.sets| && KindOk(s.sets[p.set_], p.tag, kind, assoc) && E.IsSent(s.engine, p, assoc)
    ensures kind == Victim ==> Lru.VictimOf(s.sets[p.set_].lru) != -1
    ensures WayFor(s.sets[p.set_], kind) < assoc && E.IsFree(s.engine, p.set_, WayFor(s.sets[p.set_], kind))
  {
    var e, w := s.engine, s.sets[p.set_];
    assert SetOk(e, p.set_, w, assoc);
    match kind {
      case Victim => E.SentFindsVictim(e, p, assoc, w.lru);
      case Upgrade(x) =>
        if !E.IsFree(e, p.set_, x) {
          var i :| 0 <= i < |e.inflight| && e.inflight[i].packet.set_ == p.set_ && e.inflight[i].way == x;
          E.ArrivalHasRow(e, i, assoc);
          E.MissCases(e, p, assoc);
          assert false;
        }
    }
  }

  /** A retry that misses for want of its block was not let go as merged. */
  lemma MissIsNotCoalesced(s: State, assoc: nat)
    requires Inv(s, assoc) && Enabled(s, RetryMiss(Victim), assoc)
    ensures !s.engine.retry[0].coalesced
  {
  }

  lemma ReplyFinds(s: State, i: nat, assoc: nat)
    requires Inv(s, assoc) && i < |s.engine.inflight|
    ensures var f := s.engine.inflight[i];
            var lru := s.sets[f.packet.set_].lru;
            && HasRow(s, i) && !f.packet.coalesced && !f.packet.conflict
            && lru.transient[f.way] && lru.tags[f.way] == f.packet.tag
  {
    var f := s.engine.inflight[i];
    E.ArrivalHasRow(s.engine, i, assoc);
    assert SetOk(s.engine, f.packet.set_, s.sets[f.packet.set_], assoc);
    assert !E.IsFree(s.engine, f.packet.set_, f.way);
  }

  lemma AssertionsOk(s: State, step: Step, assoc: nat)
    requires Inv(s, assoc) && Enabled(s, step, assoc)
    ensures AssertionsHold(s, step, assoc)
  {
    var e := s.engine;
    match step {
      case NewMiss(p, kind) =>
        if E.IsSent(e, p, assoc) {
          SentWay(s, p, kind, assoc);
        }
      case RetryHit => E.AssertionsOk(e, E.RetryHit, assoc);
      case RetryMiss(kind) =>
        E.RowFree(e, assoc);
        if kind == Victim {
          MissIsNotCoalesced(s, assoc);
        }
        if E.IsSent(e, E.Retried(e), assoc) {
          SentWay(s, E.Retried(e), kind, assoc);
        }
      case Complete(i) => ReplyFinds(s, i, assoc);
      case Nack(i) => ReplyFinds(s, i, assoc);
      case _ =>
    }
  }

  /** When every way of the set is kept, a request waits, even one whose block is in the write-back
      buffer. */
  lemma NoWayMeansParked(s: State, p: Packet, assoc: nat)
    requires Inv(s, assoc) && E.Comes(s.engine, p) && FirstEmpty(s.engine.rows) < |s.engine.rows| && p.set_ < |s.sets|
    requires forall x :: 0 <= x < assoc ==> s.sets[p.set_].lru.transient[x]
    ensures !E.IsSent(s.engine, p, assoc)
  {
    if E.IsSent(s.engine, p, assoc) {
      SentWay(s, p, Victim, assoc);
    }
  }

  // ----- the ways that are kept

  /** Sending a request keeps its way. */
  lemma FreeAfterSend(e: E.State, f: E.Flight, e': E.State, u: nat, x: nat)
    requires e'.inflight == e.inflight + [f]
    ensures E.IsFree(e', u, x) <==> E.IsFree(e, u, x) && !(f.packet.set_ == u && f.way == x)
  {
    assert forall i :: 0 <= i < |e.inflight| ==> e'.inflight[i] == e.inflight[i];
    assert e'.inflight[|e.inflight|] == f;
  }

  /** An arrival frees the way of its request. */
  lemma FreeAfterArrival(e: E.State, k: nat, e': E.State, u: nat, x: nat, assoc: nat)
    requires E.WaysOk(e, assoc) && k < |e.inflight| && e'.inflight == Drop(e.inflight, k)
    ensures var f := e.inflight[k];
            E.IsFree(e', u, x) <==> E.IsFree(e, u, x) || (f.packet.set_ == u && f.way == x)
  {
    var f := e.inflight[k];
    forall i | 0 <= i < |e'.inflight| ensures e'.inflight[i] == e.inflight[if i < k then i else i + 1] {
    }
    if !E.IsFree(e, u, x) && !(f.packet.set_ == u && f.way == x) {
      var i :| 0 <= i < |e.inflight| && e.inflight[i].packet.set_ == u && e.inflight[i].way == x;
      assert e'.inflight[if i < k then i else i - 1] == e.inflight[i];
    }
  }

  lemma SameFree(e: E.State, e': E.State, u: nat, w: Ways, assoc: nat)
    requires SetOk(e, u, w, assoc) && e'.inflight == e.inflight
    ensures SetOk(e', u, w, assoc)
  {
    assert forall x: nat :: E.IsFree(e', u, x) <==> E.IsFree(e, u, x);
  }

  lemma OtherSetAfterSend(e: E.State, f: E.Flight, e': E.State, u: nat, w: Ways, assoc: nat)
    requires SetOk(e, u, w, assoc) && e'.inflight == e.inflight + [f] && f.packet.set_ != u
    ensures SetOk(e', u, w, assoc)
  {
    forall x | 0 <= x < assoc ensures E.IsFree(e', u, x) <==> E.IsFree(e, u, x) {
      FreeAfterSend(e, f, e', u, x);
    }
  }

  lemma SetAfterSend(e: E.State, f: E.Flight, e': E.State, w: Ways, kind: Kind, assoc: nat)
    requires SetOk(e, f.packet.set_, w, assoc) && e'.inflight == e.inflight + [f]
    requires KindOk(w, f.packet.tag, kind, assoc) && (kind == Victim ==> Lru.VictimOf(w.lru) != -1)
    requires f.way == WayFor(w, kind) < assoc && E.IsFree(e, f.packet.set_, f.way)
    ensures SetOk(e', f.packet.set_, Reserve(w, f.packet.tag, kind, assoc), assoc)
  {
    var u, r := f.packet.set_, Reserve(w, f.packet.tag, kind, assoc);
    Reserved(w, f.packet.tag, kind, assoc);
    forall x | 0 <= x < assoc
      ensures (r.lru.transient[x] <==> !E.IsFree(e', u, x)) && !r.lru.pending[x] && (r.valid[x] ==> r.tags[x] == r.lru.tags[x])
    {
      FreeAfterSend(e, f, e', u, x);
    }
    forall i | 0 <= i < |e'.inflight| && e'.inflight[i].packet.set_ == u
      ensures e'.inflight[i].way < assoc && r.lru.tags[e'.inflight[i].way] == e'.inflight[i].packet.tag
    {
      if i < |e.inflight| {
        assert e'.inflight[i] == e.inflight[i];
        assert e.inflight[i].way != f.way;
      }
    }
  }

  /** What a reservation changes: the way becomes transient for the tag, and no block becomes valid. */
  lemma Reserved(w: Ways, tag: nat, kind: Kind, assoc: nat)
    requires Lru.Ok(w.lru, assoc) && |w.tags| == |w.valid| == assoc
    requires KindOk(w, tag, kind, assoc) && (kind == Victim ==> Lru.VictimOf(w.lru) != -1)
    requires forall x :: 0 <= x < assoc && w.valid[x] ==> w.tags[x] == w.lru.tags[x]
    ensures var r, v := Reserve(w, tag, kind, assoc), WayFor(w, kind);
            && Lru.Ok(r.lru, assoc) && v < assoc && |r.tags| == |r.valid| == assoc
            && r.lru.pending == w.lru.pending && r.tags == w.tags
            && r.lru.transient == w.lru.transient[v := true]
            && r.lru.tags == w.lru.tags[v := tag]
            && (kind == Victim ==> r.valid == w.valid[v := false])
            && (kind.Upgrade? ==> r.valid == w.valid)
  {
    match kind {
      case Victim =>
        Lru.VictimNext(w.lru, tag, assoc);
        Lru.NextOk(w.lru, Lru.Victim(tag), assoc);
      case Upgrade(x) =>
        Lru.NextOk(w.lru, Lru.Hold(x), assoc);
        assert w.lru.tags[x := tag] == w.lru.tags;
    }
  }

  lemma OtherSetAfterArrival(e: E.State, k: nat, e': E.State, u: nat, w: Ways, assoc: nat)
    requires E.WaysOk(e, assoc) && k < |e.inflight| && e'.inflight == Drop(e.inflight, k)
    requires SetOk(e, u, w, assoc) && e.inflight[k].packet.set_ != u
    ensures SetOk(e', u, w, assoc)
  {
    forall x | 0 <= x < assoc ensures E.IsFree(e', u, x) <==> E.IsFree(e, u, x) {
      FreeAfterArrival(e, k, e', u, x, assoc);
    }
    forall i | 0 <= i < |e'.inflight| ensures e'.inflight[i] == e.inflight[if i < k then i else i + 1] {
    }
  }

  lemma SetAfterArrival(e: E.State, k: nat, e': E.State, w: Ways, assoc: nat)
    requires E.WaysOk(e, assoc) && k < |e.inflight| && e'.inflight == Drop(e.inflight, k)
    requires SetOk(e, e.inflight[k].packet.set_, w, assoc)
    ensures var f := e.inflight[k]; SetOk(e', f.packet.set_, Write(w, f.way, f.packet.tag, assoc), assoc)
  {
    var f := e.inflight[k];
    var u, r := f.packet.set_, Write(w, f.way, f.packet.tag, assoc);
    Lru.NextOk(w.lru, Lru.Fill(f.way, f.packet.tag), assoc);
    forall x | 0 <= x < assoc
      ensures (r.lru.transient[x] <==> !E.IsFree(e', u, x)) && !r.lru.pending[x] && (r.valid[x] ==> r.tags[x] == r.lru.tags[x])
    {
      FreeAfterArrival(e, k, e', u, x, assoc);
    }
    forall i | 0 <= i < |e'.inflight| && e'.inflight[i].packet.set_ == u
      ensures e'.inflight[i].way < assoc && r.lru.tags[e'.inflight[i].way] == e'.inflight[i].packet.tag
    {
      var j := if i < k then i else i + 1;
      assert e'.inflight[i] == e.inflight[j];
      assert e.inflight[j].way != f.way;
    }
  }

  /** A block written to a way that is kept for no request leaves the set in order. */
  lemma SetAfterRestore(e: E.State, u: nat, w: Ways, x: nat, tag: nat, assoc: nat)
    requires SetOk(e, u, w, assoc) && x < assoc && !w.lru.transient[x]
    ensures SetOk(e, u, Write(w, x, tag, assoc), assoc)
  {
    Lru.NextOk(w.lru, Lru.Fill(x, tag), assoc);
  }

  lemma SetAfterRotate(e: E.State, u: nat, w: Ways, x: nat, assoc: nat)
    requires SetOk(e, u, w, assoc) && x < assoc
    ensures SetOk(e, u, w.(lru := Lru.Next(w.lru, Lru.Hit(x), assoc)), assoc)
  {
    Lru.NextOk(w.lru, Lru.Hit(x), assoc);
  }

  // ----- every step

  lemma MissKeepsSets(s: State, p: Packet, kind: Kind, assoc: nat)
    requires Inv(s, assoc) && E.Comes(s.engine, p) && p.set_ < |s.sets| && MissAsserts(s, p, kind, assoc)
    requires KindOk(s.sets[p.set_], p.tag, kind, assoc)
    ensures var n := AfterMiss(s, p, kind, assoc);
            forall u :: 0 <= u < |n.sets| ==> SetOk(n.engine, u, n.sets[u], assoc)
  {
    var e, w, n := s.engine, s.sets[p.set_], AfterMiss(s, p, kind, assoc);
    forall u | 0 <= u < |n.sets| ensures SetOk(n.engine, u, n.sets[u], assoc) {
      assert SetOk(e, u, s.sets[u], assoc);
      if E.IsSent(e, p, assoc) {
        var f := E.Flight(E.Sent(Check(e.rows, assoc, p).packet), WayFor(w, kind));
        SentWay(s, p, kind, assoc);
        if u == p.set_ {
          SetAfterSend(e, f, n.engine, w, kind, assoc);
        } else {
          OtherSetAfterSend(e, f, n.engine, u, s.sets[u], assoc);
        }
      } else {
        SameFree(e, n.engine, u, s.sets[u], assoc);
      }
    }
  }

  lemma MissOk(s: State, p: Packet, kind: Kind, assoc: nat)
    requires Inv(s, assoc) && E.Comes(s.engine, p) && p.set_ < |s.sets| && MissAsserts(s, p, kind, assoc)
    requires KindOk(s.sets[p.set_], p.tag, kind, assoc)
    ensures Inv(AfterMiss(s, p, kind, assoc), assoc)
  {
    var n := AfterMiss(s, p, kind, assoc);
    if E.IsSent(s.engine, p, assoc) {
      SentWay(s, p, kind, assoc);
    }
    E.MissOk(s.engine, p, WayFor(s.sets[p.set_], kind), assoc);
    MissKeepsSets(s, p, kind, assoc);
    assert forall u :: 0 <= u < |n.sets| ==> SetOk(n.engine, u, n.sets[u], assoc);
    MissShape(s, p, kind, assoc);
  }

  lemma MissShape(s: State, p: Packet, kind: Kind, assoc: nat)
    requires Shaped(s, assoc) && p.set_ < |s.sets| && MissAsserts(s, p, kind, assoc)
    requires KindOk(s.sets[p.set_], p.tag, kind, assoc)
    requires var n := AfterMiss(s, p, kind, assoc); forall u :: 0 <= u < |n.sets| ==> SetOk(n.engine, u, n.sets[u], assoc)
    ensures Shaped(AfterMiss(s, p, kind, assoc), assoc)
  {
    var n := AfterMiss(s, p, kind, assoc);
    forall i | 0 <= i < |n.engine.inflight| ensures n.engine.inflight[i].packet.set_ < |n.sets| && n.engine.inflight[i].way < assoc {
      assert i < |s.engine.inflight| ==> n.engine.inflight[i] == s.engine.inflight[i];
      assert n.engine.inflight[i].packet.set_ < |n.sets|;
      assert SetOk(n.engine, n.engine.inflight[i].packet.set_, n.sets[n.engine.inflight[i].packet.set_], assoc);
    }
  }

  lemma HitShape(s: State, assoc: nat)
    requires Shaped(s, assoc) && Enabled(s, RetryHit, assoc) && AssertionsHold(s, RetryHit, assoc)
    ensures Shaped(s.(engine := E.Hit(s.engine)), assoc)
  {
    var e, n := s.engine, E.Hit(s.engine);
    var r := Choose(e.parked, e.retry[0].tag, e.retry[0].set_);
    if r != Nothing {
      forall i | 0 <= i < |n.parked| ensures n.parked[i].set_ < |s.sets| {
        assert n.parked[i] == e.parked[if i < r.index then i else i + 1];
      }
    }
  }

  lemma HitBlocks(s: State, assoc: nat)
    requires E.Inv(s.engine, assoc) && Shaped(s, assoc) && Enabled(s, RetryHit, assoc) && AssertionsHold(s, RetryHit, assoc)
    ensures BlockStays(s.(engine := E.Hit(s.engine)))
  {
    E.ChosenOk(s.engine, assoc);
  }

  lemma HitOk(s: State, assoc: nat)
    requires Inv(s, assoc) && Enabled(s, RetryHit, assoc) && AssertionsHold(s, RetryHit, assoc)
    ensures Inv(s.(engine := E.Hit(s.engine)), assoc)
  {
    E.HitOk(s.engine, assoc);
    HitShape(s, assoc);
    HitBlocks(s, assoc);
    forall u | 0 <= u < |s.sets| ensures SetOk(E.Hit(s.engine), u, s.sets[u], assoc) {
      SameFree(s.engine, E.Hit(s.engine), u, s.sets[u], assoc);
    }
  }

  lemma ArriveSets(s: State, i: nat, assoc: nat)
    requires E.WaysOk(s.engine, assoc) && Shaped(s, assoc) && Enabled(s, Complete(i), assoc) && AssertionsHold(s, Complete(i), assoc)
    requires forall u :: 0 <= u < |s.sets| ==> SetOk(s.engine, u, s.sets[u], assoc)
    ensures var n := Next(s, Complete(i), assoc);
            forall u :: 0 <= u < |n.sets| ==> SetOk(n.engine, u, n.sets[u], assoc)
  {
    var e, f, n := s.engine, s.engine.inflight[i], Next(s, Complete(i), assoc);
    forall u | 0 <= u < |n.sets| ensures SetOk(n.engine, u, n.sets[u], assoc) {
      if u == f.packet.set_ {
        SetAfterArrival(e, i, n.engine, s.sets[u], assoc);
      } else {
        OtherSetAfterArrival(e, i, n.engine, u, s.sets[u], assoc);
      }
    }
  }

  lemma ArriveShape(s: State, i: nat, assoc: nat)
    requires Shaped(s, assoc) && Enabled(s, Complete(i), assoc) && AssertionsHold(s, Complete(i), assoc)
    requires E.FlagsOk(s.engine)
    ensures Shaped(Next(s, Complete(i), assoc), assoc) && BlockStays(Next(s, Complete(i), assoc))
  {
    var e, f, n := s.engine, s.engine.inflight[i], Next(s, Complete(i), assoc);
    Lru.NextOk(s.sets[f.packet.set_].lru, Lru.Fill(f.way, f.packet.tag), assoc);
    forall j | 0 <= j < |n.engine.inflight| ensures n.engine.inflight[j] == e.inflight[if j < i then j else j + 1] {
    }
  }

  lemma ArriveOk(s: State, i: nat, assoc: nat)
    requires Inv(s, assoc) && Enabled(s, Complete(i), assoc) && AssertionsHold(s, Complete(i), assoc)
    ensures Inv(Next(s, Complete(i), assoc), assoc)
  {
    E.ArriveOk(s.engine, i, assoc);
    ArriveSets(s, i, assoc);
    ArriveShape(s, i, assoc);
  }

  /** A change of one set that leaves it in order, and leaves the block of a waiting retry valid. */
  lemma SetChangeOk(s: State, u: nat, w: Ways, assoc: nat)
    requires Inv(s, assoc) && u < |s.sets| && SetOk(s.engine, u, w, assoc)
    requires forall i :: 0 <= i < |s.engine.retry| && s.engine.retry[i].coalesced && s.engine.retry[i].set_ == u ==>
               HasBlock(w, s.engine.retry[i].tag)
    ensures Inv(s.(sets := s.sets[u := w]), assoc)
  {
    var n := s.(sets := s.sets[u := w]);
    forall v | 0 <= v < |n.sets| ensures SetOk(n.engine, v, n.sets[v], assoc) {
      assert SetOk(s.engine, v, s.sets[v], assoc);
    }
  }

  lemma RotateOk(s: State, u: nat, x: nat, assoc: nat)
    requires Inv(s, assoc) && Enabled(s, Rotate(u, x), assoc)
    ensures Inv(Next(s, Rotate(u, x), assoc), assoc)
  {
    var w := s.sets[u].(lru := Lru.Next(s.sets[u].lru, Lru.Hit(x), assoc));
    SetAfterRotate(s.engine, u, s.sets[u], x, assoc);
    forall i | 0 <= i < |s.engine.retry| && s.engine.retry[i].coalesced && s.engine.retry[i].set_ == u
      ensures HasBlock(w, s.engine.retry[i].tag)
    {
      var y :| 0 <= y < |s.sets[u].valid| && y < |s.sets[u].tags| && s.sets[u].valid[y] && s.sets[u].tags[y] == s.engine.retry[i].tag;
      assert w.valid[y];
    }
    SetChangeOk(s, u, w, assoc);
  }

  lemma InvalidateOk(s: State, u: nat, x: nat, assoc: nat)
    requires Inv(s, assoc) && Enabled(s, Invalidate(u, x), assoc)
    ensures Inv(Next(s, Invalidate(u, x), assoc), assoc)
  {
    assert SetOk(s.engine, u, s.sets[u], assoc);
    SetChangeOk(s, u, s.sets[u].(valid := s.sets[u].valid[x := false]), assoc);
  }

  lemma RestoreOk(s: State, u: nat, x: nat, tag: nat, assoc: nat)
    requires Inv(s, assoc) && Enabled(s, Restore(u, x, tag), assoc)
    ensures Inv(Next(s, Restore(u, x, tag), assoc), assoc)
  {
    var w := Write(s.sets[u], x, tag, assoc);
    SetAfterRestore(s.engine, u, s.sets[u], x, tag, assoc);
    assert w.valid[x] && w.tags[x] == tag;
    SetChangeOk(s, u, w, assoc);
  }

  lemma StepOk(s: State, step: Step, assoc: nat)
    requires Inv(s, assoc) && Enabled(s, step, assoc)
    ensures AssertionsHold(s, step, assoc) && Inv(Next(s, step, assoc), assoc)
  {
    AssertionsOk(s, step, assoc);
    match step {
      case NewHit =>
      case NewMiss(p, kind) => MissOk(s, p, kind, assoc);
      case RetryHit => HitOk(s, assoc);
      case RetryMiss(kind) => MissOk(s, E.Retried(s.engine), kind, assoc);
      case Complete(i) => ArriveOk(s, i, assoc);
      case Nack(_) =>
      case Rotate(u, x) => RotateOk(s, u, x, assoc);
      case Invalidate(u, x) => InvalidateOk(s, u, x, assoc);
      case Restore(u, x, tag) => RestoreOk(s, u, x, tag, assoc);
    }
  }

  /** A reply makes the block of its request valid in the way that was kept for it; every other block and
      way stays as it was, and the request is retried. */
  lemma ArrivedBlock(s: State, i: nat, assoc: nat)
    requires Shaped(s, assoc) && Enabled(s, Complete(i), assoc) && AssertionsHold(s, Complete(i), assoc)
    ensures var n, f := Next(s, Complete(i), assoc), s.engine.inflight[i];
            var w, m := s.sets[f.packet.set_], n.sets[f.packet.set_];
            && n.engine.retry == [f.packet.(retried := true)] && |n.sets| == |s.sets|
            && (forall u :: 0 <= u < |s.sets| && u != f.packet.set_ ==> n.sets[u] == s.sets[u])
            && m.lru.order == w.lru.order && |m.tags| == |m.valid| == assoc
            && m.valid[f.way] && m.tags[f.way] == f.packet.tag && !m.lru.transient[f.way]
            && forall x :: 0 <= x < assoc && x != f.way ==>
                 m.valid[x] == w.valid[x] && m.tags[x] == w.tags[x] && m.lru.transient[x] == w.lru.transient[x]
  {
  }

  // ----- runs

  /** Step i is possible, and has its effect if no assertion fails. */
  ghost predicate StepAt(states: seq<State>, steps: seq<Step>, assoc: nat, i: nat) {
    && i < |steps| && i + 1 < |states|
    && Shaped(states[i], assoc) && Enabled(states[i], steps[i], assoc)
    && (AssertionsHold(states[i], steps[i], assoc) ==> states[i + 1] == Next(states[i], steps[i], assoc))
  }

  ghost predicate IsRun(states: seq<State>, steps: seq<Step>, assoc: nat) {
    |states| == |steps| + 1 && forall i: nat :: i < |steps| ==> StepAt(states, steps, assoc, i)
  }

  lemma RunStep(states: seq<State>, steps: seq<Step>, assoc: nat, i: nat)
    requires IsRun(states, steps, assoc) && i < |steps| && Inv(states[i], assoc)
    ensures StepAt(states, steps, assoc, i) && AssertionsHold(states[i], steps[i], assoc)
    ensures states[i + 1] == Next(states[i], steps[i], assoc) && Inv(states[i + 1], assoc)
  {
    assert StepAt(states, steps, assoc, i);
    StepOk(states[i], steps[i], assoc);
  }

  /** In no run from the empty cache does an assertion of the handlers fail: on the size of the table, a
      row to clear, the victim, a request marked as coalesced, or the way of an arriving block. The
      transient ways are those of the requests below all along. */
  lemma {:induction false} RunOk(states: seq<State>, steps: seq<Step>, assoc: nat, i: nat)
    requires IsRun(states, steps, assoc) && Init(states[0], assoc) && i < |states|
    ensures Inv(states[i], assoc)
    ensures i < |steps| ==> StepAt(states, steps, assoc, i) && AssertionsHold(states[i], steps[i], assoc)
  {
    if i == 0 {
      InitOk(states[0], assoc);
    } else {
      RunOk(states, steps, assoc, i - 1);
      RunStep(states, steps, assoc, i - 1);
    }
    if i < |steps| {
      RunStep(states, steps, assoc, i);
    }
  }

  /** The step of the miss engine that a step is, if it is one. */
  ghost function EngineStep(s: State, step: Step, assoc: nat): Option<E.Step>
    requires Shaped(s, assoc) && Enabled(s, step, assoc)
  {
    match step
    case NewHit => Some(E.FreshHit)
    case NewMiss(p, kind) => Some(E.FreshMiss(p, WayFor(s.sets[p.set_], kind)))
    case RetryHit => Some(E.RetryHit)
    case RetryMiss(kind) => Some(E.RetryMiss(kind.Upgrade?, WayFor(s.sets[s.engine.retry[0].set_], kind)))
    case Complete(i) => Some(E.Complete(i))
    case _ => None
  }

  /** Every step is a step of the miss engine, or leaves the engine as it is: what holds over the runs of
      the engine holds over the runs of the cache. */
  lemma StepIsEngineStep(s: State, step: Step, assoc: nat)
    requires Inv(s, assoc) && Enabled(s, step, assoc) && AssertionsHold(s, step, assoc)
    ensures match EngineStep(s, step, assoc)
            case Some(es) =>
              && E.Enabled(s.engine, es, assoc) && E.AssertionsHold(s.engine, es, assoc)
              && Next(s, step, assoc).engine == E.Next(s.engine, es, assoc)
            case None => Next(s, step, assoc).engine == s.engine
  {
    var e := s.engine;
    match step {
      case NewMiss(p, kind) =>
        if E.IsSent(e, p, assoc) {
          SentWay(s, p, kind, assoc);
        }
        E.AssertionsOk(e, E.FreshMiss(p, WayFor(s.sets[p.set_], kind)), assoc);
      case RetryMiss(kind) =>
        var p := E.Retried(e);
        if E.IsSent(e, p, assoc) {
          SentWay(s, p, kind, assoc);
        }
        E.AssertionsOk(e, E.RetryMiss(kind.Upgrade?, WayFor(s.sets[p.set_], kind)), assoc);
      case _ =>
    }
  }

  lemma StuckStep(s: State, step: Step, set_: nat, assoc: nat)
    requires Inv(s, assoc) && E.Stuck(s.engine, set_, assoc) && Enabled(s, step, assoc) && AssertionsHold(s, step, assoc)
    ensures var n := Next(s, step, assoc);
            E.Stuck(n.engine, set_, assoc) && E.ParkedOf(s.engine.parked, set_) <= E.ParkedOf(n.engine.parked, set_)
  {
    StepIsEngineStep(s, step, assoc);
    var es := EngineStep(s, step, assoc);
    if es.Some? {
      E.StuckStep(s.engine, es.value, set_, assoc);
    }
  }

  /** With its blocks, too, a stuck set stays stuck over every run, and its parked requests parked. */
  lemma {:induction false} StuckForever(states: seq<State>, steps: seq<Step>, set_: nat, assoc: nat, i: nat)
    requires IsRun(states, steps, assoc) && Inv(states[0], assoc) && E.Stuck(states[0].engine, set_, assoc) && i < |states|
    ensures Inv(states[i], assoc) && E.Stuck(states[i].engine, set_, assoc)
    ensures E.ParkedOf(states[0].engine.parked, set_) <= E.ParkedOf(states[i].engine.parked, set_)
  {
    if i > 0 {
      StuckForever(states, steps, set_, assoc, i - 1);
      RunStep(states, steps, assoc, i - 1);
      StuckStep(states[i - 1], steps[i - 1], set_, assoc);
    }
  }

  // ----- the stranding run

  const EMPTY_WAY := Ways(Lru.LruState([0], [false], [0], [false]), [0], [false])
  const KEPT_FOR_A := Ways(Lru.LruState([0], [true], [1], [false]), [0], [false])
  const HOLDS_A := Ways(Lru.LruState([0], [false], [1], [false]), [1], [true])

  ghost predicate Goes(s: State, step: Step, n: State) {
    Shaped(s, 1) && Enabled(s, step, 1) && AssertionsHold(s, step, 1) && n == Next(s, step, 1)
  }

  lemma EmptyVictim()
    ensures Lru.VictimOf(EMPTY_WAY.lru) == 0
    ensures Reserve(EMPTY_WAY, 1, Victim, 1) == KEPT_FOR_A
  {
    var lru := EMPTY_WAY.lru;
    assert lru.order[0] == 0 && Lru.Eligible(lru, lru.order[0]);
    assert Lru.Scan(lru, 1) == 0;
    Lru.VictimNext(lru, 1, 1);
    assert Lru.Position(lru.order, 0) == 0;
    assert Lru.ToHead(lru.order, 0) == [0];
  }

  lemma StrandingSent()
    ensures Goes(State(E.START, [EMPTY_WAY]), NewMiss(E.LOAD_A, Victim), State(E.SENT_A, [KEPT_FOR_A]))
  {
    E.StrandingMisses();
    EmptyVictim();
  }

  lemma StrandingParked()
    ensures Goes(State(E.SENT_A, [KEPT_FOR_A]), NewMiss(E.STORE_A, Victim), State(E.MERGED_A, [KEPT_FOR_A]))
    ensures Goes(State(E.MERGED_A, [KEPT_FOR_A]), NewMiss(E.LOAD_B, Victim), State(E.PARKED_B, [KEPT_FOR_A]))
  {
    E.StrandingMisses();
  }

  lemma WriteA()
    ensures Write(KEPT_FOR_A, 0, 1, 1) == HOLDS_A
  {
    assert [true][0 := false] == [false] && [1][0 := 1] == [1];
    assert [0][0 := 1] == [1] && [false][0 := true] == [true];
  }

  lemma StrandingArrival()
    ensures Goes(State(E.PARKED_B, [KEPT_FOR_A]), Complete(0), State(E.RETRY_LOAD, [HOLDS_A]))
  {
    E.StrandingArrival();
    WriteA();
    assert [KEPT_FOR_A][0 := HOLDS_A] == [HOLDS_A];
  }

  lemma StrandingHit()
    ensures Goes(State(E.RETRY_LOAD, [HOLDS_A]), RetryHit, State(E.RETRY_STORE, [HOLDS_A]))
  {
    E.StrandingHit();
    assert HOLDS_A.valid[0] && HOLDS_A.tags[0] == 1;
  }

  lemma StrandingStore()
    ensures Goes(State(E.RETRY_STORE, [HOLDS_A]), RetryMiss(Upgrade(0)), State(E.STRANDED, [HOLDS_A]))
  {
    E.StrandingStore();
  }

  ghost predicate Leads(states: seq<State>, steps: seq<Step>, last: State) {
    IsRun(states, steps, 1) && states[0] == State(E.START, [EMPTY_WAY]) && states[|steps|] == last
  }

  lemma Then(states: seq<State>, steps: seq<Step>, last: State, step: Step, n: State)
    returns (longer: seq<State>, more: seq<Step>)
    requires Leads(states, steps, last) && Goes(last, step, n)
    ensures Leads(longer, more, n)
  {
    longer, more := states + [n], steps + [step];
    forall i: nat | i < |more| ensures StepAt(longer, more, 1, i) {
      if i < |steps| {
        assert StepAt(states, steps, 1, i);
      }
    }
  }

  lemma StrandingFirstHalf() returns (states: seq<State>, steps: seq<Step>)
    ensures Leads(states, steps, State(E.PARKED_B, [KEPT_FOR_A]))
  {
    StrandingSent();
    StrandingParked();
    var sent, merged, parked :=
      State(E.SENT_A, [KEPT_FOR_A]), State(E.MERGED_A, [KEPT_FOR_A]), State(E.PARKED_B, [KEPT_FOR_A]);
    states, steps := [State(E.START, [EMPTY_WAY])], [];
    states, steps := Then(states, steps, State(E.START, [EMPTY_WAY]), NewMiss(E.LOAD_A, Victim), sent);
    states, steps := Then(states, steps, sent, NewMiss(E.STORE_A, Victim), merged);
    states, steps := Then(states, steps, merged, NewMiss(E.LOAD_B, Victim), parked);
  }

  lemma StrandingSecondHalf(first: seq<State>, firstSteps: seq<Step>) returns (states: seq<State>, steps: seq<Step>)
    requires Leads(first, firstSteps, State(E.PARKED_B, [KEPT_FOR_A]))
    ensures Leads(states, steps, State(E.STRANDED, [HOLDS_A]))
  {
    StrandingArrival();
    StrandingHit();
    StrandingStore();
    var load, store := State(E.RETRY_LOAD, [HOLDS_A]), State(E.RETRY_STORE, [HOLDS_A]);
    states, steps := Then(first, firstSteps, State(E.PARKED_B, [KEPT_FOR_A]), Complete(0), load);
    states, steps := Then(states, steps, load, RetryHit, store);
    states, steps := Then(states, steps, store, RetryMiss(Upgrade(0)), State(E.STRANDED, [HOLDS_A]));
  }

  lemma StartIsInit()
    ensures Init(State(E.START, [EMPTY_WAY]), 1)
  {
  }

  /** The run of the miss engine that strands two requests is one of the cache with its blocks: the
      block of the load arrives valid, the store meets it, and is parked for lack of room. */
  lemma StrandingRun() returns (states: seq<State>, steps: seq<Step>)
    ensures IsRun(states, steps, 1) && Init(states[0], 1)
    ensures E.Stuck(states[|steps|].engine, 0, 1) && |E.ParkedOf(states[|steps|].engine.parked, 0)| == 2
  {
    states, steps := StrandingFirstHalf();
    states, steps := StrandingSecondHalf(states, steps);
    StartIsInit();
    E.StrandedIsStuck();
  }
}
