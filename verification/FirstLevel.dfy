/** What the fetch, load, store and write-block handlers of a first-level cache do to its table,
    its queues and its requests, proved to be the steps of the miss engine. */
module FirstLevel {
  import opened Caches
  import opened MissEngine
  import opened Ort
  import opened Sequences

  ghost predicate Disjoint(a: seq<Request>, b: seq<Request>) {
    forall i, j :: 0 <= i < |a| && 0 <= j < |b| ==> a[i] != b[j]
  }

  /** The requests below are those of the flights. */
  ghost predicate Flying(below: seq<Request>, flights: seq<Flight>, nodes: set<Request>)
    reads nodes
  {
    && |below| == |flights|
    && (forall i :: 0 <= i < |below| ==> below[i] in nodes && below[i].View() == flights[i].packet)
    && forall i, j :: 0 <= i < j < |below| ==> below[i] != below[j]
  }

  /** The requests are of kinds that can be retried, and were probed from their own addresses. */
  ghost predicate Sound(c: Cache, nodes: set<Request>)
    requires c.geometry.Ok()
    reads nodes`tag, nodes`set_
  {
    forall r :: r in nodes ==> c.RetryState(r).Just? && c.Probed(r)
  }

  /** Table, coalescer and requests below, without the retry queue. */
  ghost predicate Base(c: Cache, s: State, below: seq<Request>, nodes: set<Request>)
    reads c, c.ort, nodes
  {
    && c.Valid() && c.rows == s.rows && Sound(c, nodes)
    && Views(c.queues[OrtList], s.parked, nodes)
    && Flying(below, s.inflight, nodes)
    && Disjoint(c.queues[OrtList], below)
  }

  /** The cache and the requests below it are in state s. */
  ghost predicate Represents(c: Cache, s: State, below: seq<Request>, nodes: set<Request>)
    reads c, c.ort, nodes
  {
    && Base(c, s, below, nodes)
    && Views(c.queues[Retry], s.retry, nodes)
    && Disjoint(c.queues[Retry], c.queues[OrtList]) && Disjoint(c.queues[Retry], below)
  }

  /** A request that is neither parked nor below. */
  ghost predicate InHand(c: Cache, r: Request, below: seq<Request>, nodes: set<Request>)
    reads c
  {
    && OrtList in c.queues && r in nodes
    && Disjoint([r], c.queues[OrtList]) && Disjoint([r], below)
  }

  /** A request that enters the cache, probed and of a kind that can be retried, is in hand. */
  lemma RequestEnters(c: Cache, s: State, below: seq<Request>, nodes: set<Request>, r: Request)
    requires Represents(c, s, below, nodes) && r !in nodes && c.RetryState(r).Just? && c.Probed(r)
    ensures Represents(c, s, below, nodes + {r}) && InHand(c, r, below, nodes + {r})
  {
    assert Views(c.queues[OrtList], s.parked, nodes + {r});
  }

  /** Moves a request from the queue it came from to the queue towards the next level. */
  method PutIoDownQueue(c: Cache, r: Request)
    requires c.lastQueue in c.queues && TxBottom in c.queues && c.lastQueue != TxBottom
    modifies c`queues
    ensures c.queues == old(c.queues)[c.lastQueue := RemoveFirst(old(c.queues)[c.lastQueue], r)]
                                     [TxBottom := old(c.queues)[TxBottom] + [r]]
  {
    c.queues := c.queues[c.lastQueue := RemoveFirst(c.queues[c.lastQueue], r)];
    c.queues := c.queues[TxBottom := c.queues[TxBottom] + [r]];
  }

  /** What the scheduler takes, the engine allows: a new request only without a retry and with a free
      row, a reply only without a retry, and a retry whenever there is one. */
  lemma ScheduleMeansEnabled(c: Cache, s: State, below: seq<Request>, nodes: set<Request>)
    requires Represents(c, s, below, nodes)
    ensures var choice := Schedule(c.StatusNow(), c.limits);
            && (choice == Head(RxTop) ==> Enabled(s, FreshHit, c.assoc) && s.retry == [] && FirstEmpty(s.rows) < |s.rows|)
            && (choice == Head(RxBottom) ==> forall i :: 0 <= i < |s.inflight| ==> Enabled(s, Complete(i), c.assoc))
            && (choice == Head(Retry) <==> Enabled(s, RetryHit, c.assoc))
  {
    AdmissionMeansRoom(c.StatusNow(), c.limits, c.rows);
  }

  /** The request r, last seen as p, was put at the end of the coalescer's list. */
  lemma Parked(c: Cache, r: Request, p: Packet, s: State, way: nat, below: seq<Request>, nodes: set<Request>, list: seq<Request>)
    requires FirstEmpty(s.rows) < |s.rows|
    requires Views(list, s.parked, nodes) && Flying(below, s.inflight, nodes) && Disjoint(list, below)
    requires r in nodes && Disjoint([r], list) && Disjoint([r], below)
    requires c.Valid() && Sound(c, nodes) && c.queues[OrtList] == list + [r] && c.queues[Retry] == []
    requires var k := Check(s.rows, c.assoc, p); c.rows == k.rows && r.View() == k.packet && k.packet.coalesced
    ensures Represents(c, Miss(s, p, way, c.assoc), below, nodes)
  {
    assert [r][0] == r;
  }

  /** The request r, last seen as p, was sent below. */
  lemma Below(c: Cache, r: Request, p: Packet, s: State, way: nat, below: seq<Request>, nodes: set<Request>, list: seq<Request>)
    requires FirstEmpty(s.rows) < |s.rows|
    requires Views(list, s.parked, nodes) && Flying(below, s.inflight, nodes) && Disjoint(list, below)
    requires r in nodes && Disjoint([r], list) && Disjoint([r], below)
    requires c.Valid() && Sound(c, nodes) && c.queues[OrtList] == list && c.queues[Retry] == []
    requires var k := Check(s.rows, c.assoc, p); c.rows == k.rows && r.View() == Sent(k.packet) && !k.packet.coalesced
    ensures Represents(c, Miss(s, p, way, c.assoc), below + [r], nodes)
  {
    assert [r][0] == r;
  }

  /** A request that is not parked goes to the next level. */
  method Send(c: Cache, r: Request, sentAs: Access, ghost p: Packet,
              ghost s: State, ghost way: nat, ghost below: seq<Request>, ghost nodes: set<Request>, ghost list: seq<Request>)
    returns (ghost below': seq<Request>)
    requires FirstEmpty(s.rows) < |s.rows| && !IsRetry(sentAs)
    requires Views(list, s.parked, nodes) && Flying(below, s.inflight, nodes) && Disjoint(list, below)
    requires r in nodes && Disjoint([r], list) && Disjoint([r], below)
    requires c.Valid() && Sound(c, nodes) && c.queues[OrtList] == list && c.lastQueue in {RxTop, Retry}
    requires c.lastQueue == RxTop ==> c.queues[Retry] == []
    requires c.lastQueue == Retry ==> c.queues[Retry] == [r]
    requires var k := Check(s.rows, c.assoc, p); c.rows == k.rows && r.View() == k.packet && !k.packet.coalesced
    modifies c`queues, r`access
    ensures Represents(c, Miss(s, p, way, c.assoc), below', nodes)
    ensures c.queues[TxBottom] == old(c.queues[TxBottom]) + [r]
    ensures c.queues[c.lastQueue] == RemoveFirst(old(c.queues[c.lastQueue]), r)
  {
    r.access := sentAs;
    PutIoDownQueue(c, r);
    below' := below + [r];
    forall i | 0 <= i < |list| ensures list[i] in nodes && list[i].View() == s.parked[i] {
      assert [r][0] != list[i] && old(list[i].View()) == s.parked[i];
    }
    forall i | 0 <= i < |below| ensures below[i] in nodes && below[i].View() == s.inflight[i].packet {
      assert [r][0] != below[i] && old(below[i].View()) == s.inflight[i].packet;
    }
    Below(c, r, p, s, way, below, nodes, list);
  }

  /** The miss path: the request is checked and either waits in the coalescer or is sent below, as a
      request of the kind that the handler chose. */
  method HandleMiss(c: Cache, r: Request, sentAs: Access,
                    ghost s: State, ghost way: nat, ghost below: seq<Request>, ghost nodes: set<Request>)
    returns (ghost below': seq<Request>)
    requires Base(c, s, below, nodes) && InHand(c, r, below, nodes)
    requires c.lastQueue in {RxTop, Retry} && Retry in c.queues && (c.lastQueue == RxTop ==> c.queues[Retry] == [])
    requires c.lastQueue == Retry ==> c.queues[Retry] == [r]
    requires !r.coalesced && FirstEmpty(s.rows) < |s.rows| && !IsRetry(sentAs)
    modifies c`rows, c`queues, c.ort, r`coalesced, r`conflict, r`access
    ensures Represents(c, Miss(s, old(r.View()), way, c.assoc), below', nodes)
    ensures c.queues[TxBottom] == old(c.queues[TxBottom]) + (if r.coalesced then [] else [r])
    ensures c.queues[c.lastQueue] == RemoveFirst(old(c.queues[c.lastQueue]), r)
  {
    below' := below;
    ghost var list, p := c.queues[OrtList], r.View();
    c.CheckOrt(r);
    forall i | 0 <= i < |list| ensures list[i] in nodes && list[i].View() == s.parked[i] {
      assert [r][0] != list[i] && old(list[i].View()) == s.parked[i];
    }
    forall i | 0 <= i < |below| ensures below[i] in nodes && below[i].View() == s.inflight[i].packet {
      assert [r][0] != below[i] && old(below[i].View()) == s.inflight[i].packet;
    }
    if r.coalesced {
      Parked(c, r, p, s, way, below, nodes, list);
    } else {
      below' := Send(c, r, sentAs, p, s, way, below, nodes, list);
    }
  }

  /** A new request misses. */
  method FreshMissStep(c: Cache, r: Request, sentAs: Access,
                       ghost s: State, ghost way: nat, ghost below: seq<Request>, ghost nodes: set<Request>)
    returns (ghost below': seq<Request>)
    requires Represents(c, s, below, nodes) && InHand(c, r, below, nodes) && Inv(s, c.assoc)
    requires c.lastQueue == RxTop && c.queues[RxTop] != [] && r == c.queues[RxTop][0]
    requires !IsRetry(sentAs) && Enabled(s, FreshMiss(r.View(), way), c.assoc)
    modifies c`rows, c`queues, c.ort, r`coalesced, r`conflict, r`access
    ensures AssertionsHold(s, FreshMiss(old(r.View()), way), c.assoc)
    ensures Represents(c, Next(s, FreshMiss(old(r.View()), way), c.assoc), below', nodes)
    ensures c.queues[RxTop] == old(c.queues[RxTop])[1..]
    ensures c.queues[TxBottom] == old(c.queues[TxBottom]) + (if r.coalesced then [] else [r])
  {
    AssertionsOk(s, FreshMiss(r.View(), way), c.assoc);
    below' := HandleMiss(c, r, sentAs, s, way, below, nodes);
  }

  method RetryMissMoves(c: Cache, r: Request, sentAs: Access, upgrade: bool,
                        ghost s: State, ghost way: nat, ghost below: seq<Request>, ghost nodes: set<Request>)
    returns (ghost below': seq<Request>)
    requires Base(c, s, below, nodes) && InHand(c, r, below, nodes) && s.retry != [] && r.View() == s.retry[0]
    requires c.lastQueue == Retry && c.queues[Retry] == [r] && (r.coalesced ==> upgrade)
    requires FirstEmpty(s.rows) < |s.rows| && !IsRetry(sentAs)
    modifies c`rows, c`queues, c.ort, r`coalesced, r`conflict, r`access
    ensures Represents(c, Miss(s, Retried(s), way, c.assoc), below', nodes)
    ensures c.queues[TxBottom] == old(c.queues[TxBottom]) + (if r.coalesced then [] else [r])
  {
    ghost var list := c.queues[OrtList];
    if upgrade && r.coalesced {
      r.coalesced := false;
    }
    forall i | 0 <= i < |list| ensures list[i] in nodes && list[i].View() == s.parked[i] {
      assert [r][0] != list[i] && old(list[i].View()) == s.parked[i];
    }
    forall i | 0 <= i < |below| ensures below[i] in nodes && below[i].View() == s.inflight[i].packet {
      assert [r][0] != below[i] && old(below[i].View()) == s.inflight[i].packet;
    }
    below' := HandleMiss(c, r, sentAs, s, way, below, nodes);
  }

  /** A retried request misses; a store that met a shared block is treated as a new miss. */
  method RetryMissStep(c: Cache, r: Request, sentAs: Access, upgrade: bool,
                       ghost s: State, ghost way: nat, ghost below: seq<Request>, ghost nodes: set<Request>)
    returns (ghost below': seq<Request>)
    requires Represents(c, s, below, nodes) && Inv(s, c.assoc)
    requires c.lastQueue == Retry && c.queues[Retry] != [] && r == c.queues[Retry][0]
    requires !IsRetry(sentAs) && Enabled(s, RetryMiss(upgrade, way), c.assoc)
    modifies c`rows, c`queues, c.ort, r`coalesced, r`conflict, r`access
    ensures AssertionsHold(s, RetryMiss(upgrade, way), c.assoc)
    ensures Represents(c, Next(s, RetryMiss(upgrade, way), c.assoc), below', nodes)
    ensures c.queues[TxBottom] == old(c.queues[TxBottom]) + (if r.coalesced then [] else [r])
  {
    AssertionsOk(s, RetryMiss(upgrade, way), c.assoc);
    assert c.queues[Retry] == [r] && r.View() == s.retry[0];
    below' := RetryMissMoves(c, r, sentAs, upgrade, s, way, below, nodes);
  }

  /** The parked requests of list, after one of them was let go as the engine chooses. */
  ghost predicate LetGo(c: Cache, s: State, list: seq<Request>, nodes: set<Request>)
    requires s.retry != []
    reads c, nodes
  {
    var r := Choose(s.parked, s.retry[0].tag, s.retry[0].set_);
    && OrtList in c.queues && Retry in c.queues && |list| == |s.parked|
    && c.queues[OrtList] == (if r == Nothing then list else Drop(list, r.index))
    && c.queues[Retry] == (if r == Nothing then [] else [list[r.index]])
    && (forall i :: 0 <= i < |list| ==> list[i] in nodes)
    && forall i :: 0 <= i < |list| ==>
         list[i].View() == if r != Nothing && i == r.index then AsReleased(r, s.parked[i]) else s.parked[i]
  }

  ghost predicate Apart(list: seq<Request>) {
    forall i, j :: 0 <= i < j < |list| ==> list[i] != list[j]
  }

  lemma ApartDrop(list: seq<Request>, k: nat)
    requires k < |list| && Apart(list)
    ensures Apart(Drop(list, k))
  {
  }

  /** The list without one request shows the packets without the one at its place. */
  lemma ViewsDrop(list: seq<Request>, packets: seq<Packet>, k: nat, nodes: set<Request>)
    requires |list| == |packets| && k < |list| && Apart(list)
    requires forall i :: 0 <= i < |list| && i != k ==> list[i] in nodes && list[i].View() == packets[i]
    ensures Views(Drop(list, k), Drop(packets, k), nodes)
  {
    ApartDrop(list, k);
    var rest, left := Drop(list, k), Drop(packets, k);
    forall i | 0 <= i < |rest| ensures rest[i] in nodes && rest[i].View() == left[i] {
      var j := if i < k then i else i + 1;
      assert rest[i] == list[j] && left[i] == packets[j];
    }
  }

  lemma LetGoParked(c: Cache, s: State, list: seq<Request>, nodes: set<Request>)
    requires s.retry != [] && AssertionsHold(s, RetryHit, c.assoc)
    requires LetGo(c, s, list, nodes) && Apart(list)
    ensures Views(c.queues[OrtList], Hit(s).parked, nodes)
  {
    var r := Choose(s.parked, s.retry[0].tag, s.retry[0].set_);
    if r != Nothing {
      ViewsDrop(list, s.parked, r.index, nodes);
    }
  }

  lemma LetGoViews(c: Cache, s: State, list: seq<Request>, nodes: set<Request>)
    requires s.retry != [] && AssertionsHold(s, RetryHit, c.assoc)
    requires LetGo(c, s, list, nodes) && Apart(list)
    ensures Views(c.queues[Retry], Hit(s).retry, nodes)
    ensures Disjoint(c.queues[Retry], c.queues[OrtList])
  {
  }

  lemma LetGoDisjoint(c: Cache, s: State, list: seq<Request>, below: seq<Request>, nodes: set<Request>)
    requires s.retry != [] && LetGo(c, s, list, nodes) && Disjoint(list, below)
    ensures Disjoint(c.queues[OrtList], below) && Disjoint(c.queues[Retry], below)
  {
    var r := Choose(s.parked, s.retry[0].tag, s.retry[0].set_);
    if r != Nothing {
      forall i, j | 0 <= i < |list| - 1 && 0 <= j < |below| ensures Drop(list, r.index)[i] != below[j] {
        assert Drop(list, r.index)[i] == list[if i < r.index then i else i + 1];
      }
    }
  }

  /** The coalescer lets a request go, and the retried request r leaves its queue. */
  method LeaveRetry(c: Cache, r: Request, ghost s: State, ghost list: seq<Request>, ghost nodes: set<Request>)
    requires c.Valid() && c.rows == s.rows && Views(list, s.parked, nodes) && list == c.queues[OrtList]
    requires |s.retry| == 1 && AssertionsHold(s, RetryHit, c.assoc)
    requires c.lastQueue == Retry && c.queues[Retry] == [r] && r.tag == s.retry[0].tag && r.set_ == s.retry[0].set_
    requires Sound(c, nodes)
    modifies c`rows, c`queues, c`advanced, c.ort
    modifies nodes`tag, nodes`set_, nodes`offset, nodes`coalesced, nodes`conflict, nodes`access
    ensures c.Valid() && c.rows == Hit(s).rows && LetGo(c, s, list, nodes) && Sound(c, nodes)
    ensures forall x :: x in nodes && Disjoint([x], list) ==> x.View() == old(x.View())
  {
    ghost var k := Choose(s.parked, r.tag, r.set_);
    c.CoalescedRetry(r.tag, r.set_, s.parked, nodes);
    forall i | 0 <= i < |list|
      ensures list[i].View() == if k != Nothing && i == k.index then AsReleased(k, s.parked[i]) else s.parked[i]
    {
      assert old(list[i].View()) == s.parked[i];
    }
    forall x | x in nodes && Disjoint([x], list) ensures x.View() == old(x.View()) {
      assert [x][0] == x;
    }
    forall x | x in nodes ensures c.RetryState(x).Just? && c.Probed(x) {
      assert old(c.Probed(x)) && x.tag == old(x.tag) && x.set_ == old(x.set_);
    }
    c.queues := c.queues[c.lastQueue := RemoveFirst(c.queues[c.lastQueue], r)];
  }

  lemma HitRepresents(c: Cache, s: State, list: seq<Request>, below: seq<Request>, nodes: set<Request>)
    requires s.retry != [] && AssertionsHold(s, RetryHit, c.assoc)
    requires c.Valid() && Sound(c, nodes) && c.rows == Hit(s).rows && LetGo(c, s, list, nodes) && Apart(list)
    requires Flying(below, s.inflight, nodes) && Disjoint(list, below)
    ensures Represents(c, Hit(s), below, nodes)
  {
    LetGoParked(c, s, list, nodes);
    LetGoViews(c, s, list, nodes);
    LetGoDisjoint(c, s, list, below, nodes);
  }

  method RetryHitMoves(c: Cache, r: Request, ghost s: State, ghost below: seq<Request>, ghost nodes: set<Request>)
    requires Base(c, s, below, nodes) && |s.retry| == 1 && AssertionsHold(s, RetryHit, c.assoc)
    requires c.lastQueue == Retry && c.queues[Retry] == [r] && r.View() == s.retry[0]
    modifies c`rows, c`queues, c`advanced, c.ort
    modifies nodes`tag, nodes`set_, nodes`offset, nodes`coalesced, nodes`conflict, nodes`access
    ensures Represents(c, Hit(s), below, nodes)
  {
    ghost var list := c.queues[OrtList];
    LeaveRetry(c, r, s, list, nodes);
    forall i | 0 <= i < |below| ensures below[i] in nodes && below[i].View() == s.inflight[i].packet {
      assert Disjoint([below[i]], list);
      assert old(below[i].View()) == s.inflight[i].packet;
    }
    HitRepresents(c, s, list, below, nodes);
  }

  /** A retried request hits: it lets a parked request go, and leaves for the processor. */
  method RetryHitStep(c: Cache, r: Request, ghost s: State, ghost below: seq<Request>, ghost nodes: set<Request>)
    requires Represents(c, s, below, nodes) && Inv(s, c.assoc)
    requires c.lastQueue == Retry && c.queues[Retry] != [] && r == c.queues[Retry][0]
    modifies c`rows, c`queues, c`advanced, c.ort
    modifies nodes`tag, nodes`set_, nodes`offset, nodes`coalesced, nodes`conflict, nodes`access
    ensures AssertionsHold(s, RetryHit, c.assoc)
    ensures Represents(c, Next(s, RetryHit, c.assoc), below, nodes)
  {
    AssertionsOk(s, RetryHit, c.assoc);
    assert c.queues[Retry] == [r] && r.View() == s.retry[0];
    RetryHitMoves(c, r, s, below, nodes);
  }

  /** Empties the row of a request and moves the request to the retry queue. */
  method MoveToRetry(c: Cache, r: Request)
    requires c.Valid() && c.Probed(r) && c.RetryState(r).Just? && FirstMatch(c.rows, r.tag, r.set_) < |c.rows|
    requires c.lastQueue == RxBottom && c.queues[Retry] == []
    modifies c`rows, c`queues, c.ort, r`tag, r`set_, r`offset, r`access
    ensures c.Valid() && c.rows == ClearRow(old(c.rows), old(r.tag), old(r.set_))
    ensures r.View() == old(r.View()).(retried := true)
    ensures c.queues[Retry] == [r] && c.queues[OrtList] == old(c.queues[OrtList])
    ensures c.queues[RxBottom] == RemoveFirst(old(c.queues[RxBottom]), r)
  {
    c.OrtClear(r);
    r.access := c.RetryState(r).value;
    c.queues := c.queues[c.lastQueue := RemoveFirst(c.queues[c.lastQueue], r)];
    c.queues := c.queues[Retry := c.queues[Retry] + [r]];
  }

  lemma ArrivedRepresents(c: Cache, r: Request, s: State, i: nat, below: seq<Request>, nodes: set<Request>)
    requires s.retry == [] && i < |s.inflight| == |below| && AssertionsHold(s, Complete(i), c.assoc)
    requires c.Valid() && Sound(c, nodes) && c.rows == Arrive(s, i).rows && r == below[i] && Apart(below)
    requires Views(c.queues[OrtList], s.parked, nodes) && Disjoint(c.queues[OrtList], below) && c.queues[Retry] == [r]
    requires forall j :: 0 <= j < |below| ==> below[j] in nodes
    requires forall j :: 0 <= j < |below| && j != i ==> below[j].View() == s.inflight[j].packet
    requires r.View() == s.inflight[i].packet.(retried := true)
    ensures Represents(c, Arrive(s, i), Drop(below, i), nodes)
  {
    var rest, flights := Drop(below, i), Drop(s.inflight, i);
    forall j | 0 <= j < |rest| ensures rest[j] in nodes && rest[j].View() == flights[j].packet && rest[j] != r {
      assert rest[j] == below[if j < i then j else j + 1];
    }
    assert Disjoint(c.queues[OrtList], rest) by {
      forall j, k | 0 <= j < |c.queues[OrtList]| && 0 <= k < |rest| ensures c.queues[OrtList][j] != rest[k] {
        assert rest[k] == below[if k < i then k else k + 1];
      }
    }
  }

  method ArriveMoves(c: Cache, r: Request,
                     ghost s: State, ghost i: nat, ghost below: seq<Request>, ghost nodes: set<Request>)
    requires Base(c, s, below, nodes) && s.retry == [] && i < |s.inflight| && AssertionsHold(s, Complete(i), c.assoc)
    requires c.lastQueue == RxBottom && c.queues[Retry] == [] && r == below[i]
    modifies c`rows, c`queues, c.ort, r`tag, r`set_, r`offset, r`access
    ensures Represents(c, Arrive(s, i), Drop(below, i), nodes)
    ensures c.queues[RxBottom] == RemoveFirst(old(c.queues[RxBottom]), r)
  {
    ghost var list := c.queues[OrtList];
    assert r.View() == s.inflight[i].packet;
    MoveToRetry(c, r);
    forall j | 0 <= j < |list| ensures list[j] in nodes && list[j].View() == s.parked[j] {
      assert list[j] != below[i] && old(list[j].View()) == s.parked[j];
    }
    forall j | 0 <= j < |below| && j != i ensures below[j].View() == s.inflight[j].packet {
      assert below[j] != below[i] && old(below[j].View()) == s.inflight[j].packet;
    }
    forall x | x in nodes ensures c.RetryState(x).Just? && c.Probed(x) {
      assert old(c.Probed(x));
    }
    ArrivedRepresents(c, r, s, i, below, nodes);
  }

  /** The block of the request r below arrives: its row is emptied, and the request is retried. */
  method WriteBlockStep(c: Cache, r: Request,
                        ghost s: State, ghost i: nat, ghost below: seq<Request>, ghost nodes: set<Request>)
    requires Represents(c, s, below, nodes) && Inv(s, c.assoc) && Enabled(s, Complete(i), c.assoc)
    requires c.lastQueue == RxBottom && c.queues[RxBottom] != [] && r == c.queues[RxBottom][0] == below[i]
    modifies c`rows, c`queues, c.ort, r`tag, r`set_, r`offset, r`access
    ensures AssertionsHold(s, Complete(i), c.assoc)
    ensures Represents(c, Next(s, Complete(i), c.assoc), Drop(below, i), nodes)
    ensures c.queues[RxBottom] == old(c.queues[RxBottom])[1..]
  {
    AssertionsOk(s, Complete(i), c.assoc);
    ArriveMoves(c, r, s, i, below, nodes);
  }
}
