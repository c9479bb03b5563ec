/** The hub's control loop on its queues of mutable messages, proved to take the steps of the runs. */
module HubSteps {
  import opened HubIommu
  import opened HubMap
  import opened HubRuns
  import opened Sequences

  /** The messages of a queue are these packets. */
  ghost predicate Shown(list: seq<Message>, packets: seq<Packet>, nodes: set<Message>)
    reads nodes
  {
    && |packets| == |list|
    && forall i :: 0 <= i < |list| ==> list[i] in nodes && packets[i] == Packet(list[i].id, list[i].address)
  }

  /** The hub's queues are those of s. */
  ghost predicate Queues(h: Hub, s: State, nodes: set<Message>)
    requires h.rxTop.Length == h.txTop.Length == h.n
    reads h`rxBottom, h`txBottom, h.rxTop, h.txTop, nodes
  {
    && |s.rx| == |s.tx| == h.n + 1
    && Shown(h.rxBottom, s.rx[h.n], nodes) && Shown(h.txBottom, s.tx[h.n], nodes)
    && (forall i :: 0 <= i < h.n ==> Shown(h.rxTop[i], s.rx[i], nodes))
    && forall i :: 0 <= i < h.n ==> Shown(h.txTop[i], s.tx[i], nodes)
  }

  ghost predicate Represents(h: Hub, u: Setup, s: State, nodes: set<Message>)
    reads h, h.rxTop, h.txTop, nodes
  {
    && h.Valid() && h.n == u.n && h.queueSize == u.queueSize && h.geometry == u.geometry
    && Queues(h, s, nodes)
    && h.Position(h.nextQueue) == s.next
    && (s.phase.Moving? ==> h.Position(h.lastQueue) == s.phase.q)
  }

  lemma ShowsFull(h: Hub, s: State, nodes: set<Message>)
    requires h.rxTop.Length == h.txTop.Length == h.n && Queues(h, s, nodes)
    ensures h.Shows(Full(s.rx))
  {
  }

  /** Woken by a new packet, the hub picks a queue and looks whether its first packet has room. */
  method ChooseStep(h: Hub, ghost u: Setup, ghost s: State, ghost nodes: set<Message>) returns (message: Message?, room: bool, ghost q: nat)
    requires Represents(h, u, s, nodes) && Inv(u, s) && s.phase == Idle && s.step <= s.count
    modifies h`nextQueue, h`lastQueue
    ensures Enabled(u, s, Choose(q)) && Represents(h, u, Next(u, s, Choose(q)), nodes)
    ensures message != null && message == h.Head(h.lastQueue)
    ensures room <==> Next(u, s, Choose(q)).phase == Moving(q)
  {
    q := SearchEnds(u, s);
    ShowsFull(h, s, nodes);
    ghost var probes;
    message, probes := h.GetFromQueue(Full(s.rx));
    PickIsUnique(Full(s.rx), s.next, q, h.Position(h.lastQueue));
    room := h.HasRoom(message);
  }

  /** The message is at the head of the last queue and in no other place. */
  ghost predicate Sole(h: Hub, m: Message)
    requires h.rxTop.Length == h.txTop.Length == h.n && h.IsNumber(h.lastQueue)
    reads h, h.rxTop, h.txTop
  {
    && h.Rx(h.lastQueue) != [] && h.Rx(h.lastQueue)[0] == m
    && (forall i :: 0 < i < |h.Rx(h.lastQueue)| ==> h.Rx(h.lastQueue)[i] != m)
    && (forall num, i :: h.IsNumber(num) && num != h.lastQueue && 0 <= i < |h.Rx(num)| ==> h.Rx(num)[i] != m)
    && (forall i :: 0 <= i < |h.txBottom| ==> h.txBottom[i] != m)
    && forall t, i :: 0 <= t < h.n && 0 <= i < |h.txTop[t]| ==> h.txTop[t][i] != m
  }

  /** Since ids are unique, the head of the last queue is nowhere else. */
  lemma HeadIsSole(h: Hub, u: Setup, s: State, nodes: set<Message>, m: Message)
    requires Represents(h, u, s, nodes) && Unique(s) && h.Head(h.lastQueue) == m
    ensures Sole(h, m)
  {
    var q := h.Position(h.lastQueue);
    assert h.Rx(h.lastQueue)[0] == m;
    assert s.rx[q][0] == Packet(m.id, m.address);
    UniqueHead(s, q, m.id);
    forall num, i | h.IsNumber(num) && num != h.lastQueue && 0 <= i < |h.Rx(num)| ensures h.Rx(num)[i] != m {
      assert s.rx[h.Position(num)][i].id == h.Rx(num)[i].id;
    }
    forall i | 0 <= i < |h.txBottom| ensures h.txBottom[i] != m {
      assert s.tx[h.n][i].id == h.txBottom[i].id;
    }
    forall t, i | 0 <= t < h.n && 0 <= i < |h.txTop[t]| ensures h.txTop[t][i] != m {
      assert s.tx[t][i].id == h.txTop[t][i].id;
    }
  }

  function Tail<T>(s: seq<T>): seq<T> {
    if s == [] then [] else s[1..]
  }

  /** The lists of the queues and the packets on them, but for the head of queue q. */
  ghost predicate Lists(rxTop: seq<seq<Message>>, rxBottom: seq<Message>, txTop: seq<seq<Message>>, txBottom: seq<Message>,
                        s: State, n: nat, q: nat, others: set<Message>)
    reads others
  {
    && |rxTop| == |txTop| == n && |s.rx| == |s.tx| == n + 1 && q <= n
    && (if q == n then Shown(Tail(rxBottom), Tail(s.rx[n]), others) else Shown(rxBottom, s.rx[n], others))
    && Shown(txBottom, s.tx[n], others)
    && (forall i :: 0 <= i < n ==>
          if i == q then Shown(Tail(rxTop[i]), Tail(s.rx[i]), others) else Shown(rxTop[i], s.rx[i], others))
    && forall i :: 0 <= i < n ==> Shown(txTop[i], s.tx[i], others)
  }

  lemma SoleLists(h: Hub, m: Message, s: State, nodes: set<Message>)
    requires h.Valid() && Queues(h, s, nodes) && Sole(h, m)
    ensures m in nodes
    ensures Lists(h.rxTop[..], h.rxBottom, h.txTop[..], h.txBottom, s, h.n, h.Position(h.lastQueue), nodes - {m})
  {
    assert h.Rx(h.lastQueue)[0] in nodes;
    assert h.lastQueue != BOTTOM ==> h.Rx(BOTTOM) == h.rxBottom;
    forall i | 0 <= i < h.n && i != h.lastQueue ensures Shown(h.rxTop[i], s.rx[i], nodes - {m}) {
      assert h.Rx(i) == h.rxTop[i];
    }
  }

  lemma Wider(list: seq<Message>, packets: seq<Packet>, others: set<Message>, nodes: set<Message>)
    requires Shown(list, packets, others) && others <= nodes
    ensures Shown(list, packets, nodes)
  {
  }

  lemma Joined(list: seq<Message>, packets: seq<Packet>, m: Message, others: set<Message>, nodes: set<Message>)
    requires Shown(list, packets, others) && others <= nodes && m in nodes
    ensures Shown(list + [m], packets + [Packet(m.id, m.address)], nodes)
  {
  }

  /** The message m has left the head of queue q for the end of queue t. */
  lemma Moved(h: Hub, m: Message, rxTop: seq<seq<Message>>, rxBottom: seq<Message>, txTop: seq<seq<Message>>, txBottom: seq<Message>,
              s: State, q: nat, t: nat, n: State, nodes: set<Message>)
    requires h.rxTop.Length == h.txTop.Length == h.n && t <= h.n && m in nodes
    requires Lists(rxTop, rxBottom, txTop, txBottom, s, h.n, q, nodes - {m})
    requires n.rx == s.rx[q := Tail(s.rx[q])] && n.tx == s.tx[t := s.tx[t] + [Packet(m.id, m.address)]]
    requires h.rxBottom == (if q == h.n then Tail(rxBottom) else rxBottom)
    requires h.txBottom == (if t == h.n then txBottom + [m] else txBottom)
    requires forall i :: 0 <= i < h.n ==> h.rxTop[i] == if i == q then Tail(rxTop[i]) else rxTop[i]
    requires forall i :: 0 <= i < h.n ==> h.txTop[i] == if i == t then txTop[i] + [m] else txTop[i]
    ensures Queues(h, n, nodes)
  {
    var others := nodes - {m};
    Wider(h.rxBottom, n.rx[h.n], others, nodes);
    forall i | 0 <= i < h.n ensures Shown(h.rxTop[i], n.rx[i], nodes) {
      Wider(h.rxTop[i], n.rx[i], others, nodes);
    }
    forall i | 0 <= i < h.n ensures Shown(h.txTop[i], n.tx[i], nodes) {
      if i == t {
        Joined(txTop[i], s.tx[i], m, others, nodes);
      } else {
        Wider(txTop[i], s.tx[i], others, nodes);
      }
    }
    if t == h.n {
      Joined(txBottom, s.tx[h.n], m, others, nodes);
    } else {
      Wider(txBottom, s.tx[h.n], others, nodes);
    }
  }

  /** The queues after the message has moved, in terms of those before. */
  method Relink(h: Hub, message: Message, translated: nat, ghost q: nat) returns (ghost t: nat)
    requires h.Valid() && h.Head(h.lastQueue) == message && h.Position(h.lastQueue) == q
    modifies h`rxBottom, h`txBottom, h.rxTop, h.txTop, message`address, message`gpuCacheId
    ensures h.Valid() && message.address == translated
    ensures t == if q == h.n then CacheMap(h.geometry, h.n, translated) else h.n
    ensures t <= h.n
    ensures h.rxBottom == (if q == h.n then Tail(old(h.rxBottom)) else old(h.rxBottom))
    ensures h.txBottom == (if t == h.n then old(h.txBottom) + [message] else old(h.txBottom))
    ensures forall i :: 0 <= i < h.n ==> h.rxTop[i] == if i == q then Tail(old(h.rxTop[i])) else old(h.rxTop[i])
    ensures forall i :: 0 <= i < h.n ==> h.txTop[i] == if i == t then old(h.txTop[i]) + [message] else old(h.txTop[i])
  {
    t := if h.lastQueue == BOTTOM then CacheMap(h.geometry, h.n, translated) else h.n;
    assert RemoveFirst(h.Rx(h.lastQueue), message) == Tail(h.Rx(h.lastQueue));
    h.Route(message, translated);
    assert h.Rx(BOTTOM) == h.rxBottom;
    forall i | 0 <= i < h.n ensures h.rxTop[i] == if i == q then Tail(old(h.rxTop[i])) else old(h.rxTop[i]) {
      assert h.Rx(i) == h.rxTop[i];
    }
  }

  /** After the pause the packet is translated and moved. */
  method MoveStep(h: Hub, message: Message, translated: nat, ghost u: Setup, ghost s: State, ghost nodes: set<Message>)
    requires Represents(h, u, s, nodes) && Inv(u, s) && Unique(s) && s.phase.Moving? && h.Head(h.lastQueue) == message
    requires translated == u.Translate(s.phase.q, message.address)
    modifies h`rxBottom, h`txBottom, h.rxTop, h.txTop, message`address, message`gpuCacheId
    ensures Enabled(u, s, Move) && Represents(h, u, Next(u, s, Move), nodes)
  {
    ghost var q := s.phase.q;
    ghost var rxTop, rxBottom, txTop, txBottom := h.rxTop[..], h.rxBottom, h.txTop[..], h.txBottom;
    HeadIsSole(h, u, s, nodes, message);
    SoleLists(h, message, s, nodes);
    HeadIs(h, message, s, nodes);
    ghost var t := Relink(h, message, translated, q);
    assert Lists(rxTop, rxBottom, txTop, txBottom, s, h.n, q, nodes - {message});
    Moved(h, message, rxTop, rxBottom, txTop, txBottom, s, q, t, Next(u, s, Move), nodes);
  }

  lemma HeadIs(h: Hub, m: Message, s: State, nodes: set<Message>)
    requires h.Valid() && Queues(h, s, nodes) && Sole(h, m)
    ensures var q := h.Position(h.lastQueue); s.rx[q] != [] && s.rx[q][0] == Packet(m.id, m.address)
  {
  }
}
