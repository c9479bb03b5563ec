/** The hub between the GPU's L2 caches and the memory system: a round-robin multiplexer. */
module HubIommu {
  import opened CacheAddress
  import opened HubMap
  import opened Sequences

  // ----- the cycle of the queues: the top queues 0 to n - 1, then the bottom queue at n

  function After(n: nat, p: nat): nat {
    if p == n then 0 else p + 1
  }

  /** How many rotations lead from one queue to another. */
  function Distance(n: nat, from: nat, to: nat): int {
    if from <= to then to - from else to + n + 1 - from
  }

  /** The first queue with a packet, going round from p. */
  ghost predicate IsPick(full: seq<bool>, p: nat, q: nat) {
    && p < |full| && q < |full| && full[q]
    && forall j :: 0 <= j < |full| && Distance(|full| - 1, p, j) < Distance(|full| - 1, p, q) ==> !full[j]
  }

  lemma PickIsUnique(full: seq<bool>, p: nat, q: nat, r: nat)
    requires IsPick(full, p, q) && IsPick(full, p, r)
    ensures q == r
  {
  }

  lemma PickExists(full: seq<bool>, p: nat, j: nat) returns (q: nat)
    requires p < |full| && j < |full| && full[j]
    ensures IsPick(full, p, q)
    decreases Distance(|full| - 1, p, j)
  {
    if i :| 0 <= i < |full| && full[i] && Distance(|full| - 1, p, i) < Distance(|full| - 1, p, j) {
      q := PickExists(full, p, i);
    } else {
      q := j;
    }
  }

  /** A queue that is not yet the pick is followed by one that is a step closer. */
  lemma Onward(full: seq<bool>, start: nat, at: nat, q: nat)
    requires IsPick(full, start, q) && at < |full| && !full[at]
    requires var n := |full| - 1; Distance(n, start, at) <= Distance(n, start, q)
    ensures var n := |full| - 1;
            Distance(n, start, After(n, at)) == Distance(n, start, at) + 1 <= Distance(n, start, q) <= n
  {
  }

  lemma Arrived(full: seq<bool>, start: nat, at: nat, q: nat)
    requires IsPick(full, start, q) && at < |full| && full[at]
    requires var n := |full| - 1; Distance(n, start, at) <= Distance(n, start, q)
    ensures at == q
  {
  }

  /** Each call that passes over a queue with a packet comes closer to it. */
  lemma PickComesCloser(full: seq<bool>, p: nat, q: nat, j: nat)
    requires IsPick(full, p, q) && j < |full| && full[j] && q != j
    ensures Distance(|full| - 1, After(|full| - 1, q), j) < Distance(|full| - 1, p, j)
  {
    assert Distance(|full| - 1, p, j) >= Distance(|full| - 1, p, q);
  }

  /** Successive calls: what each finds in the queues, where it starts and what it picks. */
  ghost predicate AreCalls(fulls: seq<seq<bool>>, starts: seq<nat>, picks: seq<nat>, n: nat) {
    && |starts| == |fulls| == |picks|
    && (forall i :: 0 <= i < |fulls| ==> |fulls[i]| == n + 1 && IsPick(fulls[i], starts[i], picks[i]))
    && forall i :: 0 < i < |fulls| ==> starts[i] == After(n, picks[i - 1])
  }

  /** A queue that keeps a packet is picked after at most as many calls as it is away, whatever the
      other queues hold and whether or not the packets picked are routed. */
  lemma {:induction false} PickedInTime(fulls: seq<seq<bool>>, starts: seq<nat>, picks: seq<nat>, n: nat, j: nat, from: nat)
    returns (i: nat)
    requires AreCalls(fulls, starts, picks, n) && j <= n && from < |fulls|
    requires forall k :: from <= k < |fulls| ==> fulls[k][j]
    requires from + Distance(n, starts[from], j) < |fulls|
    ensures from <= i <= from + Distance(n, starts[from], j) && picks[i] == j
    decreases Distance(n, starts[from], j)
  {
    assert IsPick(fulls[from], starts[from], picks[from]);
    if picks[from] == j {
      i := from;
    } else {
      PickComesCloser(fulls[from], starts[from], picks[from], j);
      assert IsPick(fulls[from + 1], starts[from + 1], picks[from + 1]);
      i := PickedInTime(fulls, starts, picks, n, j, from + 1);
    }
  }

  /** Bounded waiting: among any n + 1 calls, a queue that keeps a packet is picked. */
  lemma Fairness(fulls: seq<seq<bool>>, starts: seq<nat>, picks: seq<nat>, n: nat, j: nat) returns (i: nat)
    requires AreCalls(fulls, starts, picks, n) && |fulls| == n + 1 && j <= n
    requires forall k :: 0 <= k <= n ==> fulls[k][j]
    ensures i <= n && picks[i] == j
  {
    assert IsPick(fulls[0], starts[0], picks[0]);
    i := PickedInTime(fulls, starts, picks, n, j, 0);
  }

  // ----- the hub

  class Message {
    const id: nat
    const l2CacheId: int
    var address: nat
    var gpuCacheId: int

    constructor (id: nat, l2CacheId: int, address: nat)
      ensures this.id == id && this.l2CacheId == l2CacheId && this.address == address
    {
      this.id, this.l2CacheId, this.address, gpuCacheId := id, l2CacheId, address, -1;
    }
  }

  /** The number that the name of the bottom queue stands for. */
  const BOTTOM := 8

  class Hub {
    const n: nat
    const queueSize: nat
    const geometry: Geometry
    const rxTop: array<seq<Message>>
    const txTop: array<seq<Message>>
    var rxBottom: seq<Message>
    var txBottom: seq<Message>
    var nextQueue: nat
    var lastQueue: nat

    ghost predicate Valid()
      reads this
    {
      && 1 <= n <= 8 && rxTop.Length == n && txTop.Length == n && rxTop != txTop
      && geometry.Ok() && geometry.logBlock <= geometry.width
      && IsNumber(nextQueue) && IsNumber(lastQueue)
    }

    predicate IsNumber(num: nat) {
      num < n || num == BOTTOM
    }

    /** The place of a queue in the cycle. */
    function Position(num: nat): nat {
      if num == BOTTOM then n else num
    }

    function Rx(num: nat): seq<Message>
      requires rxTop.Length == n && IsNumber(num)
      reads this`rxBottom, rxTop
    {
      if num == BOTTOM then rxBottom else rxTop[num]
    }

    /** full says which incoming queues hold a packet. */
    ghost predicate Shows(full: seq<bool>)
      requires rxTop.Length == n
      reads this`rxBottom, rxTop
    {
      && |full| == n + 1 && (full[n] <==> rxBottom != [])
      && forall i :: 0 <= i < n ==> (full[i] <==> rxTop[i] != [])
    }

    constructor (n: nat, queueSize: nat, geometry: Geometry)
      requires 1 <= n <= 8 && geometry.Ok() && geometry.logBlock <= geometry.width
      ensures Valid() && fresh(rxTop) && fresh(txTop) && this.n == n && this.queueSize == queueSize && this.geometry == geometry
      ensures rxBottom == [] && txBottom == [] && nextQueue == 0
      ensures forall i :: 0 <= i < n ==> rxTop[i] == [] && txTop[i] == []
    {
      this.n, this.queueSize, this.geometry := n, queueSize, geometry;
      rxTop := new seq<Message>[n](i => []);
      txTop := new seq<Message>[n](i => []);
      rxBottom, txBottom, nextQueue, lastQueue := [], [], 0, 0;
    }

    /** The queue after the current one. */
    method Rotate()
      requires Valid()
      modifies this`nextQueue
      ensures Valid() && Position(nextQueue) == After(n, old(Position(nextQueue)))
    {
      var current := nextQueue;
      if current < n - 1 {
        current := current + 1;
        nextQueue := current;
      } else if current == n - 1 {
        nextQueue := BOTTOM;
      } else {
        assert current == n || current == BOTTOM;
        nextQueue := 0;
      }
    }

    /** The first packet of a queue, or null. */
    function Head(num: nat): Message?
      requires rxTop.Length == n && IsNumber(num)
      reads this`rxBottom, rxTop
    {
      if Rx(num) == [] then null else Rx(num)[0]
    }

    /** Looks at the next queue, remembers it, and rotates. */
    method ProbeNext(ghost full: seq<bool>) returns (message: Message?)
      requires Valid() && Shows(full)
      modifies this`nextQueue, this`lastQueue
      ensures Valid() && lastQueue == old(nextQueue) && Position(nextQueue) == After(n, Position(lastQueue))
      ensures message == Head(lastQueue) && (message != null <==> full[Position(lastQueue)])
    {
      message := Head(nextQueue);
      lastQueue := nextQueue;
      Rotate();
    }

    /** Goes round the queues until one holds a packet, which takes at most n + 1 probes, and leaves
        the next search to start just past it. */
    method GetFromQueue(ghost full: seq<bool>) returns (message: Message?, ghost probes: nat)
      requires Valid() && Shows(full) && exists j :: 0 <= j <= n && full[j]
      modifies this`nextQueue, this`lastQueue
      ensures Valid() && IsPick(full, old(Position(nextQueue)), Position(lastQueue))
      ensures message != null && message == Head(lastQueue)
      ensures Position(nextQueue) == After(n, Position(lastQueue))
      ensures probes == Distance(n, old(Position(nextQueue)), Position(lastQueue)) + 1 <= n + 1
    {
      ghost var start := Position(nextQueue);
      ghost var j :| 0 <= j <= n && full[j];
      ghost var q := PickExists(full, start, j);
      message := ProbeNext(full);
      probes := 1;
      while message == null
        invariant Valid() && message == Head(lastQueue)
        invariant message != null <==> full[Position(lastQueue)]
        invariant probes == Distance(n, start, Position(lastQueue)) + 1
        invariant Position(nextQueue) == After(n, Position(lastQueue))
        invariant Distance(n, start, Position(lastQueue)) <= Distance(n, start, q)
        decreases Distance(n, start, q) - Distance(n, start, Position(lastQueue))
      {
        Onward(full, start, Position(lastQueue), q);
        message := ProbeNext(full);
        probes := probes + 1;
      }
      Arrived(full, start, Position(lastQueue), q);
    }

    /** The first half of routing, up to the pause for the hub's latency: whether the queue that the
        packet will go to has room. */
    method HasRoom(message: Message) returns (room: bool)
      requires Valid()
      ensures room <==>
              |if lastQueue == BOTTOM
               then MapInRange(geometry, n, message.address); txTop[CacheMap(geometry, n, message.address)]
               else txBottom| <= queueSize
    {
      if lastQueue < n && lastQueue != BOTTOM {
        room := |txBottom| <= queueSize;
      } else {
        MapInRange(geometry, n, message.address);
        room := |txTop[CacheMap(geometry, n, message.address)]| <= queueSize;
      }
    }

    method Dequeue(message: Message)
      requires Valid()
      modifies this`rxBottom, rxTop
      ensures Rx(lastQueue) == RemoveFirst(old(Rx(lastQueue)), message)
      ensures forall num :: IsNumber(num) && num != lastQueue ==> Rx(num) == old(Rx(num))
    {
      if lastQueue == BOTTOM {
        rxBottom := RemoveFirst(rxBottom, message);
      } else {
        rxTop[lastQueue] := RemoveFirst(rxTop[lastQueue], message);
      }
    }

    /** The second half: the address is translated, and the packet leaves its queue for exactly one
        of the outgoing queues. The MMU's answer is a parameter. */
    method Route(message: Message, translated: nat)
      requires Valid()
      modifies this`rxBottom, this`txBottom, rxTop, txTop, message`address, message`gpuCacheId
      ensures Valid() && message.address == translated
      ensures Rx(lastQueue) == RemoveFirst(old(Rx(lastQueue)), message)
      ensures forall num :: IsNumber(num) && num != lastQueue ==> Rx(num) == old(Rx(num))
      ensures lastQueue == BOTTOM ==>
                var to := CacheMap(geometry, n, translated);
                && to < n && txBottom == old(txBottom) && message.gpuCacheId == old(message.gpuCacheId)
                && forall i :: 0 <= i < n ==> txTop[i] == old(txTop[i]) + (if i == to then [message] else [])
      ensures lastQueue != BOTTOM ==>
                && txBottom == old(txBottom) + [message] && message.gpuCacheId == message.l2CacheId
                && forall i :: 0 <= i < n ==> txTop[i] == old(txTop[i])
    {
      if lastQueue != BOTTOM {
        message.gpuCacheId := message.l2CacheId;
        message.address := translated;
        Dequeue(message);
        txBottom := txBottom + [message];
      } else {
        message.address := translated;
        Dequeue(message);
        var to := CacheMap(geometry, n, message.address);
        MapInRange(geometry, n, message.address);
        txTop[to] := txTop[to] + [message];
      }
    }
  }
}
