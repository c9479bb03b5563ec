/** Recency orders of the ways of a set. */
module LruOrder {

  /** order lists the ways 0 .. n-1, each once. */
  ghost predicate IsOrder(order: seq<nat>, n: nat) {
    && |order| == n
    && (forall i :: 0 <= i < n ==> order[i] < n)
    && (forall i, j :: 0 <= i < j < n ==> order[i] != order[j])
  }

  ghost function Below(n: nat): (s: set<nat>)
    ensures |s| == n && forall w: nat :: w in s <==> w < n
  {
    if n == 0 then {} else Below(n - 1) + {n - 1}
  }

  /** n different ways below n are all of them. */
  lemma OrderHasAll(order: seq<nat>, n: nat, w: nat)
    requires IsOrder(order, n) && w < n
    ensures w in order
  {
    var seen := set i | 0 <= i < n :: order[i];
    ElementsSize(order);
    SubsetSize(seen, Below(n));
    assert w in Below(n);
  }

  lemma {:induction false} ElementsSize(s: seq<nat>)
    requires forall i, j :: 0 <= i < j < |s| ==> s[i] != s[j]
    ensures |set i | 0 <= i < |s| :: s[i]| == |s|
  {
    if s != [] {
      var k := |s| - 1;
      ElementsSize(s[..k]);
      assert (set i | 0 <= i < |s| :: s[i]) == (set i | 0 <= i < |s[..k]| :: s[..k][i]) + {s[k]};
    }
  }

  lemma SubsetSize(a: set<nat>, b: set<nat>)
    requires a <= b && |a| == |b|
    ensures a == b
  {
    if x :| x in b && x !in a {
      assert |a + {x}| == |a| + 1;
      SubsetLeq(a + {x}, b);
    }
  }

  lemma {:induction false} SubsetLeq(a: set<nat>, b: set<nat>)
    requires a <= b
    ensures |a| <= |b|
  {
    if x :| x in a {
      SubsetLeq(a - {x}, b - {x});
    }
  }

  ghost function InitialOrder(n: nat): (order: seq<nat>)
    ensures |order| == n && forall i :: 0 <= i < n ==> order[i] == i
  {
    seq(n, i => i)
  }

  ghost function Position(order: seq<nat>, w: nat): (k: nat)
    requires w in order
    ensures k < |order| && order[k] == w
  {
    var k :| 0 <= k < |order| && order[k] == w;
    k
  }

  ghost function Without(order: seq<nat>, w: nat): seq<nat>
    requires w in order
  {
    var k := Position(order, w);
    order[..k] + order[k + 1..]
  }

  ghost function ToHead(order: seq<nat>, w: nat): seq<nat>
    requires w in order
  {
    [w] + Without(order, w)
  }

  ghost function ToTail(order: seq<nat>, w: nat): seq<nat>
    requires w in order
  {
    Without(order, w) + [w]
  }

  lemma ToHeadAt(order: seq<nat>, w: nat, n: nat)
    requires IsOrder(order, n) && w in order
    ensures var k, r := Position(order, w), ToHead(order, w);
            |r| == n && r[0] == w
            && (forall i :: 1 <= i <= k ==> r[i] == order[i - 1])
            && (forall i :: k < i < n ==> r[i] == order[i])
  {
  }

  lemma ToHeadIsOrder(order: seq<nat>, w: nat, n: nat)
    requires IsOrder(order, n) && w in order
    ensures IsOrder(ToHead(order, w), n)
  {
  }

  // ----- a set of ways under hits and victim requests

  /** order lists the ways from head to tail of the list; the rest is per way. */
  datatype LruState = LruState(order: seq<nat>, transient: seq<bool>, tags: seq<int>, pending: seq<bool>)

  /** Hit is what the handlers do when they find a block, Access what the replacement engine offers for
      it, and Hold keeps the way of a block that waits for an upgrade. */
  datatype Op =
    | Hit(way: nat)
    | Access(way: nat)
    | Victim(tag: int)
    | Fill(way: nat, tag: int)
    | Hold(way: nat)
    | Pend(way: nat, pending: bool)

  ghost predicate Ok(s: LruState, n: nat) {
    IsOrder(s.order, n) && |s.transient| == n && |s.tags| == n && |s.pending| == n
  }

  ghost predicate Eligible(s: LruState, w: nat) {
    w < |s.transient| && w < |s.pending| && !s.transient[w] && !s.pending[w]
  }

  /** The last eligible way among the first k of the order, or -1. */
  ghost function Scan(s: LruState, k: nat): int
    requires k <= |s.order|
  {
    if k == 0 then -1 else if Eligible(s, s.order[k - 1]) then s.order[k - 1] else Scan(s, k - 1)
  }

  ghost function VictimOf(s: LruState): int {
    Scan(s, |s.order|)
  }

  lemma {:induction false} ScanMeaning(s: LruState, k: nat)
    requires k <= |s.order|
    ensures Scan(s, k) == -1 ==> forall i :: 0 <= i < k ==> !Eligible(s, s.order[i])
    ensures Scan(s, k) != -1 ==> exists p :: 0 <= p < k && s.order[p] == Scan(s, k) && Eligible(s, s.order[p])
                                             && forall i :: p < i < k ==> !Eligible(s, s.order[i])
  {
    if k > 0 && !Eligible(s, s.order[k - 1]) {
      ScanMeaning(s, k - 1);
    }
  }

  lemma {:induction false} ScanSkips(s: LruState, k: nat, m: nat)
    requires k <= m <= |s.order| && forall i :: k <= i < m ==> !Eligible(s, s.order[i])
    ensures Scan(s, m) == Scan(s, k)
  {
    if k < m {
      ScanSkips(s, k, m - 1);
    }
  }

  /** What the handlers do to the list on a hit: they move its tail, not the way that was hit. */
  ghost function HitRotation(order: seq<nat>): seq<nat>
    requires order != []
  {
    ToHead(order, order[|order| - 1])
  }

  ghost predicate Enabled(s: LruState, op: Op, n: nat) {
    match op
    case Hit(w) => w < n
    case Access(w) => w < n
    case Victim(_) => true
    case Fill(w, _) => w < n
    case Hold(w) => w < n
    case Pend(w, _) => w < n
  }

  ghost function Next(s: LruState, op: Op, n: nat): LruState
    requires Ok(s, n) && Enabled(s, op, n)
  {
    match op
    case Hit(_) => s.(order := HitRotation(s.order))
    case Access(w) => OrderHasAll(s.order, n, w); s.(order := ToHead(s.order, w))
    case Victim(tag) =>
      ScanMeaning(s, n);
      var v := VictimOf(s);
      if v == -1 then s
      else LruState(ToHead(s.order, v), s.transient[v := true], s.tags[v := tag], s.pending)
    case Fill(w, tag) => s.(transient := s.transient[w := false], tags := s.tags[w := tag])
    case Hold(w) => s.(transient := s.transient[w := true])
    case Pend(w, b) => s.(pending := s.pending[w := b])
  }

  lemma VictimNext(s: LruState, tag: int, n: nat)
    requires Ok(s, n) && VictimOf(s) != -1
    ensures 0 <= VictimOf(s) < n && VictimOf(s) in s.order
    ensures var v := VictimOf(s);
            Next(s, Victim(tag), n) == LruState(ToHead(s.order, v), s.transient[v := true], s.tags[v := tag], s.pending)
  {
    ScanMeaning(s, n);
  }

  /** The way an operation uses, or -1. */
  ghost function Used(s: LruState, op: Op): int {
    match op
    case Hit(w) => w
    case Access(w) => w
    case Victim(_) => VictimOf(s)
    case _ => -1
  }

  /** The way an operation moves to the head, or -1. */
  ghost function Promoted(s: LruState, op: Op): int {
    match op
    case Hit(_) => if s.order == [] then -1 else s.order[|s.order| - 1]
    case _ => Used(s, op)
  }

  lemma PromotedIsWay(s: LruState, op: Op, n: nat)
    requires Ok(s, n) && Enabled(s, op, n) && Promoted(s, op) != -1
    ensures 0 <= Promoted(s, op) < n && Promoted(s, op) in s.order
  {
    ScanMeaning(s, n);
    OrderHasAll(s.order, n, Promoted(s, op));
  }

  /** An operation moves at most one way to the head. */
  lemma NextOk(s: LruState, op: Op, n: nat)
    requires Ok(s, n) && Enabled(s, op, n)
    ensures Ok(Next(s, op, n), n)
    ensures Promoted(s, op) == -1 ==> Next(s, op, n).order == s.order
    ensures Promoted(s, op) != -1 ==>
              && 0 <= Promoted(s, op) < n && Promoted(s, op) in s.order
              && Next(s, op, n).order == ToHead(s.order, Promoted(s, op))
  {
    var u := Promoted(s, op);
    if u != -1 {
      PromotedIsWay(s, op, n);
      ToHeadIsOrder(s.order, u, n);
    }
  }

  /** The k-th way of the order is taken out and put at the head. */
  ghost predicate ComesFirst(order: seq<nat>, k: nat, after: seq<nat>) {
    k < |order| && after == [order[k]] + order[..k] + order[k + 1..]
  }

  lemma HeadComesFirst(order: seq<nat>, w: nat, n: nat)
    requires IsOrder(order, n) && w in order
    ensures ComesFirst(order, Position(order, w), ToHead(order, w))
    ensures w == order[n - 1] ==> Position(order, w) == n - 1
  {
  }

  /** Which way comes first: on a hit the last one, on an access the one accessed. */
  lemma OrderAfter(s: LruState, op: Op, n: nat)
    requires Ok(s, n) && Enabled(s, op, n)
    ensures var t := Next(s, op, n);
            && (op.Fill? || op.Hold? || op.Pend? ==> t.order == s.order)
            && (op.Hit? ==> ComesFirst(s.order, n - 1, t.order))
            && (op.Access? ==> exists k :: 0 <= k < n && s.order[k] == op.way && ComesFirst(s.order, k, t.order))
  {
    match op {
      case Hit(_) => HeadComesFirst(s.order, s.order[n - 1], n);
      case Access(w) =>
        OrderHasAll(s.order, n, w);
        HeadComesFirst(s.order, w, n);
      case _ =>
    }
  }

  /** The last way of the order that is neither transient nor pending. */
  ghost predicate IsLastFree(s: LruState, k: nat) {
    && k < |s.order| && Eligible(s, s.order[k])
    && forall i :: k < i < |s.order| ==> !Eligible(s, s.order[i])
  }

  /** A victim request takes the last way that is free, marks it transient for the tag and puts it first;
      without a free way it changes nothing. */
  lemma VictimMeaning(s: LruState, tag: int, n: nat)
    requires Ok(s, n)
    ensures var t := Next(s, Victim(tag), n);
            && (VictimOf(s) == -1 <==> forall v: nat :: v < n ==> s.transient[v] || s.pending[v])
            && (VictimOf(s) == -1 ==> t == s)
            && (VictimOf(s) != -1 ==> exists k :: 0 <= k < n && IsLastFree(s, k) && VictimOf(s) == s.order[k]
                                                && ComesFirst(s.order, k, t.order))
  {
    ScanMeaning(s, n);
    if VictimOf(s) == -1 {
      forall v: nat | v < n ensures s.transient[v] || s.pending[v] {
        OrderHasAll(s.order, n, v);
        var k :| 0 <= k < n && s.order[k] == v;
        assert !Eligible(s, s.order[k]);
      }
    } else {
      VictimNext(s, tag, n);
      HeadComesFirst(s.order, VictimOf(s), n);
    }
  }

  /** The marks of a way after an operation. */
  lemma MarksAfter(s: LruState, op: Op, n: nat, w: nat)
    requires Ok(s, n) && Enabled(s, op, n) && w < n
    ensures var t := Next(s, op, n);
            var taken := op.Victim? && VictimOf(s) == w;
            && Ok(t, n)
            && t.transient[w] == (taken || op == Hold(w) || (s.transient[w] && !(op.Fill? && op.way == w)))
            && t.tags[w] == (if taken || (op.Fill? && op.way == w) then op.tag else s.tags[w])
            && t.pending[w] == (if op.Pend? && op.way == w then op.pending else s.pending[w])
  {
    NextOk(s, op, n);
  }

  // ----- runs

  ghost predicate IsRun(tr: seq<LruState>, ops: seq<Op>, n: nat) {
    && |tr| == |ops| + 1
    && tr[0].order == InitialOrder(n) && Ok(tr[0], n)
    && forall i :: 0 <= i < |ops| ==> Ok(tr[i], n) && Enabled(tr[i], ops[i], n) && tr[i + 1] == Next(tr[i], ops[i], n)
  }

  lemma RunOk(tr: seq<LruState>, ops: seq<Op>, n: nat, m: nat)
    requires IsRun(tr, ops, n) && m <= |ops|
    ensures Ok(tr[m], n)
  {
    if m > 0 {
      assert tr[m - 1 + 1] == Next(tr[m - 1], ops[m - 1], n);
      NextOk(tr[m - 1], ops[m - 1], n);
    }
  }

  /** When way w was last moved to the head before the m-th state: the number of the operation, counted
      from 1; ways never moved rank below all others, way 0 first. */
  ghost function LastMove(tr: seq<LruState>, ops: seq<Op>, m: nat, w: nat): int
    requires |tr| == |ops| + 1 && m <= |ops|
  {
    if m == 0 then -1 - w
    else if Promoted(tr[m - 1], ops[m - 1]) == w then m
    else LastMove(tr, ops, m - 1, w)
  }

  /** When way w was last used, likewise. */
  ghost function LastUse(tr: seq<LruState>, ops: seq<Op>, m: nat, w: nat): int
    requires |tr| == |ops| + 1 && m <= |ops|
  {
    if m == 0 then -1 - w
    else if Used(tr[m - 1], ops[m - 1]) == w then m
    else LastUse(tr, ops, m - 1, w)
  }

  lemma {:induction false} LastBound(tr: seq<LruState>, ops: seq<Op>, m: nat, w: nat)
    requires |tr| == |ops| + 1 && m <= |ops|
    ensures LastMove(tr, ops, m, w) <= m && LastUse(tr, ops, m, w) <= m
  {
    if m > 0 {
      LastBound(tr, ops, m - 1, w);
    }
  }

  /** In every state of every run the list is in the order of the moves. */
  lemma {:induction false} OrderIsMoves(tr: seq<LruState>, ops: seq<Op>, n: nat, m: nat, i: nat, j: nat)
    requires IsRun(tr, ops, n) && m <= |ops| && i < j < n
    ensures Ok(tr[m], n)
    ensures LastMove(tr, ops, m, tr[m].order[i]) > LastMove(tr, ops, m, tr[m].order[j])
  {
    if m > 0 {
      var s, op := tr[m - 1], ops[m - 1];
      var u := Promoted(s, op);
      assert tr[m - 1 + 1] == Next(s, op, n);
      NextOk(s, op, n);
      if u == -1 {
        OrderIsMoves(tr, ops, n, m - 1, i, j);
      } else {
        ToHeadAt(s.order, u, n);
        var k := Position(s.order, u);
        var i', j' := if i <= k then i - 1 else i, if j <= k then j - 1 else j;
        LastBound(tr, ops, m - 1, tr[m].order[j]);
        if i > 0 {
          OrderIsMoves(tr, ops, n, m - 1, i', j');
        }
      }
    }
  }

  /** Every hit among the first m operations met the way at the tail. */
  ghost predicate HitsMeetTail(tr: seq<LruState>, ops: seq<Op>, m: nat)
    requires |tr| == |ops| + 1 && m <= |ops|
  {
    forall k :: 0 <= k < m && ops[k].Hit? ==> Promoted(tr[k], ops[k]) == ops[k].way
  }

  /** The first m + 1 states list the ways from most to least recently used. */
  ghost predicate InRecency(tr: seq<LruState>, ops: seq<Op>, m: nat)
    requires |tr| == |ops| + 1 && m <= |ops|
  {
    forall k, i, j :: 0 <= k <= m && 0 <= i < j < |tr[k].order| ==>
      LastUse(tr, ops, k, tr[k].order[i]) > LastUse(tr, ops, k, tr[k].order[j])
  }

  lemma {:induction false} UseIsMove(tr: seq<LruState>, ops: seq<Op>, m: nat, w: nat)
    requires |tr| == |ops| + 1 && m <= |ops| && HitsMeetTail(tr, ops, m)
    ensures LastUse(tr, ops, m, w) == LastMove(tr, ops, m, w)
  {
    if m > 0 {
      UseIsMove(tr, ops, m - 1, w);
    }
  }

  /** A hit that does not meet the tail leaves the way that was just used behind another. */
  lemma StrayHit(tr: seq<LruState>, ops: seq<Op>, n: nat, k: nat) returns (j: nat)
    requires IsRun(tr, ops, n) && k < |ops| && ops[k].Hit? && Promoted(tr[k], ops[k]) != ops[k].way
    ensures 0 < j < |tr[k + 1].order|
    ensures LastUse(tr, ops, k + 1, tr[k + 1].order[0]) < LastUse(tr, ops, k + 1, tr[k + 1].order[j])
  {
    var s, op := tr[k], ops[k];
    NextOk(s, op, n);
    ToHeadAt(s.order, Promoted(s, op), n);
    OrderHasAll(tr[k + 1].order, n, op.way);
    j := Position(tr[k + 1].order, op.way);
    LastBound(tr, ops, k, tr[k + 1].order[0]);
  }

  /** Over every run, the list is in the order of recency in all its states if and only if every hit met
      the way at the tail. */
  lemma OrderIsRecency(tr: seq<LruState>, ops: seq<Op>, n: nat, m: nat)
    requires IsRun(tr, ops, n) && m <= |ops|
    ensures InRecency(tr, ops, m) <==> HitsMeetTail(tr, ops, m)
  {
    if HitsMeetTail(tr, ops, m) {
      forall k, i, j | 0 <= k <= m && 0 <= i < j < |tr[k].order|
        ensures LastUse(tr, ops, k, tr[k].order[i]) > LastUse(tr, ops, k, tr[k].order[j])
      {
        RunOk(tr, ops, n, k);
        OrderIsMoves(tr, ops, n, k, i, j);
        UseIsMove(tr, ops, k, tr[k].order[i]);
        UseIsMove(tr, ops, k, tr[k].order[j]);
      }
    } else {
      var k :| 0 <= k < m && ops[k].Hit? && Promoted(tr[k], ops[k]) != ops[k].way;
      var j := StrayHit(tr, ops, n, k);
    }
  }

  /** An eligible way is either the victim or behind it in the order. */
  lemma EligibleBehindVictim(s: LruState, n: nat, w: nat)
    requires Ok(s, n) && w < n && Eligible(s, w)
    ensures VictimOf(s) != -1
    ensures w != VictimOf(s) ==> exists q, p :: 0 <= q < p < n && s.order[q] == w && s.order[p] == VictimOf(s)
  {
    ScanMeaning(s, n);
    OrderHasAll(s.order, n, w);
    var q := Position(s.order, w);
    assert VictimOf(s) != -1;
    var p :| 0 <= p < n && s.order[p] == VictimOf(s) && forall i :: p < i < n ==> !Eligible(s, s.order[i]);
    assert q <= p;
  }

  /** In every run, with hits as the handlers treat them, the victim is the eligible way that was moved
      to the head least recently, and none is found only when no way is eligible. */
  lemma VictimIsLeastMoved(tr: seq<LruState>, ops: seq<Op>, n: nat, m: nat)
    requires IsRun(tr, ops, n) && m <= |ops|
    ensures Ok(tr[m], n)
    ensures VictimOf(tr[m]) == -1 <==> forall w :: 0 <= w < n ==> !Eligible(tr[m], w)
    ensures VictimOf(tr[m]) != -1 ==>
              && 0 <= VictimOf(tr[m]) < n && Eligible(tr[m], VictimOf(tr[m]))
              && forall w :: 0 <= w < n && w != VictimOf(tr[m]) && Eligible(tr[m], w)
                             ==> LastMove(tr, ops, m, VictimOf(tr[m])) < LastMove(tr, ops, m, w)
  {
    RunOk(tr, ops, n, m);
    var s, v := tr[m], VictimOf(tr[m]);
    ScanMeaning(s, n);
    forall w | 0 <= w < n && Eligible(s, w)
      ensures v != -1 && (w != v ==> LastMove(tr, ops, m, v) < LastMove(tr, ops, m, w))
    {
      EligibleBehindVictim(s, n, w);
      if w != v {
        var q, p :| 0 <= q < p < n && s.order[q] == w && s.order[p] == v;
        OrderIsMoves(tr, ops, n, m, q, p);
      }
    }
  }

  /** The victim of state m is the least recently used eligible way. */
  ghost predicate VictimIsLru(tr: seq<LruState>, ops: seq<Op>, n: nat, m: nat)
    requires |tr| == |ops| + 1 && m <= |ops|
  {
    forall w: nat :: w < n && w != VictimOf(tr[m]) && Eligible(tr[m], w) ==>
      && VictimOf(tr[m]) >= 0
      && LastUse(tr, ops, m, VictimOf(tr[m])) < LastUse(tr, ops, m, w)
  }

  /** In a run whose hits all met the tail, it is. */
  lemma VictimIsLeastRecent(tr: seq<LruState>, ops: seq<Op>, n: nat, m: nat)
    requires IsRun(tr, ops, n) && m <= |ops| && HitsMeetTail(tr, ops, m)
    ensures VictimIsLru(tr, ops, n, m)
  {
    VictimIsLeastMoved(tr, ops, n, m);
    forall w: nat | w < n && w != VictimOf(tr[m]) && Eligible(tr[m], w)
      ensures VictimOf(tr[m]) >= 0 && LastUse(tr, ops, m, VictimOf(tr[m])) < LastUse(tr, ops, m, w)
    {
      UseIsMove(tr, ops, m, VictimOf(tr[m]));
      UseIsMove(tr, ops, m, w);
    }
  }

  /** Only the chosen way's transient fields change, and it becomes the most recently used way. */
  lemma VictimEffect(s: LruState, tag: int, n: nat, w: nat)
    requires Ok(s, n) && w < n
    ensures var r, v := Next(s, Victim(tag), n), VictimOf(s);
            && r.pending == s.pending
            && (v == -1 ==> r == s)
            && (v == w ==> r.transient[w] && r.tags[w] == tag && r.order[0] == w && !Eligible(r, w))
            && (v != w ==> r.transient[w] == s.transient[w] && r.tags[w] == s.tags[w])
  {
    ScanMeaning(s, n);
  }

  /** A hit on w makes w the most recently used way exactly when w was the least recently used
      one; every other hit leaves w with one more way in front of it. */
  lemma HitRotationMeaning(order: seq<nat>, n: nat, w: nat)
    requires IsOrder(order, n) && w in order
    ensures HitRotation(order)[0] == w <==> order[n - 1] == w
    ensures order[n - 1] != w ==> Position(order, w) + 1 < n && HitRotation(order)[Position(order, w) + 1] == w
  {
    ToHeadAt(order, order[n - 1], n);
  }

  /** With two ways, a hit on way 0 makes way 0, just used, the next victim, and spares way 1, never
      used. */
  lemma HitRotationFails() returns (tr: seq<LruState>, ops: seq<Op>)
    ensures IsRun(tr, ops, 2) && ops == [Hit(0)]
    ensures VictimOf(tr[1]) == 0 && !VictimIsLru(tr, ops, 2, 1)
  {
    var s := LruState(InitialOrder(2), [false, false], [0, 0], [false, false]);
    assert s.order[1] == 1;
    assert Position(s.order, 1) == 1;
    var t := s.(order := [1, 0]);
    tr, ops := [s, t], [Hit(0)];
    assert HitRotation(s.order) == [1, 0];
    assert Eligible(t, t.order[1]) && Scan(t, 2) == 0;
    assert Eligible(t, 1);
    assert LastUse(tr, ops, 1, 1) == LastUse(tr, ops, 0, 1) == -2;
  }
}
