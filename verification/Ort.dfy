/** The outstanding request table of a cache, as a finite set of (tag, set) pairs. */
module Ort {
  import opened Sequences

  // ----- rows

  /** A row of the table: tag, set, and the bit that says that the request is not to be joined. */
  datatype Row = Row(tag: int, set_: int, flag: int) {
    predicate Empty() {
      tag == -1 && set_ == -1
    }

    /** Wholly empty or wholly filled. */
    predicate Whole() {
      this == NO_ROW || (tag >= 0 && set_ >= 0 && flag >= 0)
    }
  }

  const NO_ROW := Row(-1, -1, -1)

  function Holds(tag: int, set_: int): Row -> bool {
    (r: Row) => r.tag == tag && r.set_ == set_
  }

  function OfSet(set_: int): Row -> bool {
    (r: Row) => r.set_ == set_
  }

  function Filled(): Row -> bool {
    (r: Row) => r.tag != -1
  }

  /** How many rows belong to a set. */
  function CountSet(rows: seq<Row>, set_: int): nat {
    Tally(rows, OfSet(set_))
  }

  function Occupied(rows: seq<Row>): nat {
    Tally(rows, Filled())
  }

  ghost predicate AllWhole(rows: seq<Row>) {
    forall i :: 0 <= i < |rows| ==> rows[i].Whole()
  }

  /** Every row is whole and no pair has two rows. */
  ghost predicate Proper(rows: seq<Row>) {
    AllWhole(rows) && forall tag: nat, set_: nat :: Tally(rows, Holds(tag, set_)) <= 1
  }

  /** The set of (tag, set) pairs that the table stands for. */
  ghost function Members(rows: seq<Row>): set<(int, int)> {
    set i | 0 <= i < |rows| && rows[i].tag != -1 :: (rows[i].tag, rows[i].set_)
  }

  /** The first empty row, or the number of rows. */
  function FirstEmpty(rows: seq<Row>): (k: nat)
    ensures k <= |rows|
    ensures forall j :: 0 <= j < k ==> !rows[j].Empty()
    ensures k < |rows| ==> rows[k].Empty()
  {
    if rows == [] || rows[0].Empty() then 0 else 1 + FirstEmpty(rows[1..])
  }

  /** The first row that holds the pair, or the number of rows. */
  function FirstMatch(rows: seq<Row>, tag: int, set_: int): (k: nat)
    ensures k <= |rows|
    ensures forall j :: 0 <= j < k ==> !(rows[j].tag == tag && rows[j].set_ == set_)
    ensures k < |rows| ==> rows[k].tag == tag && rows[k].set_ == set_
  {
    if rows == [] || (rows[0].tag == tag && rows[0].set_ == set_) then 0 else 1 + FirstMatch(rows[1..], tag, set_)
  }

  /** The search succeeds exactly on members. */
  lemma SearchFindsMembers(rows: seq<Row>, tag: nat, set_: nat)
    ensures FirstMatch(rows, tag, set_) < |rows| <==> (tag, set_) in Members(rows)
    ensures (tag, set_) in Members(rows) <==> Tally(rows, Holds(tag, set_)) > 0
  {
    var k := FirstMatch(rows, tag, set_);
    if k < |rows| {
      TallyHas(rows, Holds(tag, set_), k);
    }
    if Tally(rows, Holds(tag, set_)) > 0 {
      var i := TallyWhere(rows, Holds(tag, set_));
    }
  }

  /** The status, the index of the first empty row, is the number of rows exactly when all rows are
      filled; otherwise it only bounds the number of filled rows from below. */
  lemma StatusMeansFull(rows: seq<Row>)
    requires AllWhole(rows)
    ensures FirstEmpty(rows) == |rows| <==> Occupied(rows) == |rows|
    ensures FirstEmpty(rows) <= Occupied(rows) <= |rows|
  {
    var k := FirstEmpty(rows);
    TallyFull(rows, Filled());
    TallyFull(rows[..k], Filled());
    TallyPrefix(rows, k, Filled());
  }

  /** The status is no occupancy count: here it is 0 with a filled row. */
  lemma StatusIsNoCount()
    ensures var rows := [NO_ROW, Row(7, 3, 1)];
            AllWhole(rows) && FirstEmpty(rows) == 0 && Occupied(rows) == 1
  {
    var rows := [NO_ROW, Row(7, 3, 1)];
    assert rows[..1] == [NO_ROW] && rows[..1][..0] == [];
    assert Tally(rows[..1], Filled()) == Tally(rows[..1][..0], Filled()) == 0;
  }

  lemma ProperPrefix(rows: seq<Row>)
    requires Proper(rows) && rows != []
    ensures Proper(rows[..|rows| - 1])
    ensures var last := rows[|rows| - 1]; last.tag != -1 ==> (last.tag, last.set_) !in Members(rows[..|rows| - 1])
  {
    var init, last := rows[..|rows| - 1], rows[|rows| - 1];
    if last.tag != -1 {
      assert Tally(rows, Holds(last.tag, last.set_)) <= 1;
      SearchFindsMembers(init, last.tag, last.set_);
    }
  }

  ghost function MembersOf(rows: seq<Row>, set_: int): set<(int, int)> {
    set p | p in Members(rows) && p.1 == set_
  }

  /** The reported sizes are cardinalities of the set. */
  lemma {:induction false} SizesAreCardinalities(rows: seq<Row>, set_: nat)
    requires Proper(rows)
    ensures Occupied(rows) == |Members(rows)|
    ensures CountSet(rows, set_) == |MembersOf(rows, set_)|
  {
    if rows == [] {
      assert Members(rows) == {} && MembersOf(rows, set_) == {};
    } else {
      var init, last := rows[..|rows| - 1], rows[|rows| - 1];
      ProperPrefix(rows);
      SizesAreCardinalities(init, set_);
      MembersOfLast(rows);
      assert last.Whole();
      LastOfSet(Members(rows), Members(init), last, set_);
    }
  }

  lemma LastOfSet(all: set<(int, int)>, init: set<(int, int)>, last: Row, set_: nat)
    requires all == if last.tag != -1 then init + {(last.tag, last.set_)} else init
    requires last.Whole() && (last.tag != -1 ==> (last.tag, last.set_) !in init)
    ensures |all| == |init| + (if last.tag != -1 then 1 else 0)
    ensures var before, after := set p | p in init && p.1 == set_, set p | p in all && p.1 == set_;
            |after| == |before| + (if last.set_ == set_ then 1 else 0)
  {
    var before, after := set p | p in init && p.1 == set_, set p | p in all && p.1 == set_;
    if last.set_ == set_ {
      assert after == before + {(last.tag, last.set_)};
    } else {
      assert after == before;
    }
  }

  lemma MembersOfLast(rows: seq<Row>)
    requires rows != []
    ensures var init, last := rows[..|rows| - 1], rows[|rows| - 1];
            Members(rows) == if last.tag != -1 then Members(init) + {(last.tag, last.set_)} else Members(init)
  {
    var init, last := rows[..|rows| - 1], rows[|rows| - 1];
    var all := if last.tag != -1 then Members(init) + {(last.tag, last.set_)} else Members(init);
    forall p | p in all ensures p in Members(rows) {
      if p in Members(init) {
        var i :| 0 <= i < |init| && init[i].tag != -1 && p == (init[i].tag, init[i].set_);
        assert rows[i] == init[i];
      }
    }
    forall p | p in Members(rows) ensures p in all {
      var i :| 0 <= i < |rows| && rows[i].tag != -1 && p == (rows[i].tag, rows[i].set_);
      if i < |rows| - 1 {
        assert init[i] == rows[i];
      }
    }
  }

  // ----- changing the table

  function SetRow(rows: seq<Row>, tag: int, set_: int): seq<Row>
    requires FirstEmpty(rows) < |rows|
  {
    rows[FirstEmpty(rows) := Row(tag, set_, 1)]
  }

  function ClearRow(rows: seq<Row>, tag: int, set_: int): seq<Row>
    requires FirstMatch(rows, tag, set_) < |rows|
  {
    rows[FirstMatch(rows, tag, set_) := NO_ROW]
  }

  /** Setting a row adds the pair once. */
  lemma SetRowAdds(rows: seq<Row>, tag: nat, set_: nat, t: nat, s: nat)
    requires FirstEmpty(rows) < |rows|
    ensures var after := SetRow(rows, tag, set_);
            && (AllWhole(rows) ==> AllWhole(after))
            && Occupied(after) == Occupied(rows) + 1
            && Tally(after, Holds(t, s)) == Tally(rows, Holds(t, s)) + (if t == tag && s == set_ then 1 else 0)
            && CountSet(after, s) == CountSet(rows, s) + (if s == set_ then 1 else 0)
  {
    TallyUpdate(rows, FirstEmpty(rows), Row(tag, set_, 1), Filled());
    TallyUpdate(rows, FirstEmpty(rows), Row(tag, set_, 1), Holds(t, s));
    TallyUpdate(rows, FirstEmpty(rows), Row(tag, set_, 1), OfSet(s));
  }

  /** Clearing a row takes the pair away once. */
  lemma ClearRowTakes(rows: seq<Row>, tag: nat, set_: nat, t: nat, s: nat)
    requires FirstMatch(rows, tag, set_) < |rows|
    ensures var after := ClearRow(rows, tag, set_);
            && (AllWhole(rows) ==> AllWhole(after))
            && Occupied(after) == Occupied(rows) - 1
            && Tally(after, Holds(t, s)) == Tally(rows, Holds(t, s)) - (if t == tag && s == set_ then 1 else 0)
            && CountSet(after, s) == CountSet(rows, s) - (if s == set_ then 1 else 0)
  {
    TallyUpdate(rows, FirstMatch(rows, tag, set_), NO_ROW, Filled());
    TallyUpdate(rows, FirstMatch(rows, tag, set_), NO_ROW, Holds(t, s));
    TallyUpdate(rows, FirstMatch(rows, tag, set_), NO_ROW, OfSet(s));
  }

  /** As a set, the table gains the pair; its rows stay distinct exactly when the pair was no member. */
  lemma SetRowProper(rows: seq<Row>, tag: nat, set_: nat)
    requires FirstEmpty(rows) < |rows| && Proper(rows)
    ensures Proper(SetRow(rows, tag, set_)) <==> (tag, set_) !in Members(rows)
    ensures Members(SetRow(rows, tag, set_)) == Members(rows) + {(tag, set_)}
  {
    var k, after := FirstEmpty(rows), SetRow(rows, tag, set_);
    forall t: nat, s: nat
      ensures Tally(after, Holds(t, s)) == Tally(rows, Holds(t, s)) + (if t == tag && s == set_ then 1 else 0)
    {
      SetRowAdds(rows, tag, set_, t, s);
    }
    SetRowAdds(rows, tag, set_, tag, set_);
    SearchFindsMembers(rows, tag, set_);
    if Proper(after) {
      assert Tally(after, Holds(tag, set_)) <= 1;
    }
    SetRowMembers(rows, tag, set_);
  }

  lemma SetRowMembers(rows: seq<Row>, tag: nat, set_: nat)
    requires FirstEmpty(rows) < |rows| && AllWhole(rows)
    ensures Members(SetRow(rows, tag, set_)) == Members(rows) + {(tag, set_)}
  {
    var k, after := FirstEmpty(rows), SetRow(rows, tag, set_);
    forall p | p in Members(rows) + {(tag, set_)} ensures p in Members(after) {
      if p in Members(rows) {
        var i :| 0 <= i < |rows| && rows[i].tag != -1 && p == (rows[i].tag, rows[i].set_);
        assert after[i] == rows[i];
      } else {
        assert after[k].tag != -1;
      }
    }
    forall p | p in Members(after) ensures p in Members(rows) + {(tag, set_)} {
      var i :| 0 <= i < |after| && after[i].tag != -1 && p == (after[i].tag, after[i].set_);
      if i != k {
        assert after[i] == rows[i];
      }
    }
  }

  /** As a set, the table loses the pair. */
  lemma ClearRowProper(rows: seq<Row>, tag: nat, set_: nat)
    requires FirstMatch(rows, tag, set_) < |rows| && Proper(rows)
    ensures Proper(ClearRow(rows, tag, set_))
    ensures Members(ClearRow(rows, tag, set_)) == Members(rows) - {(tag, set_)}
  {
    var k, after := FirstMatch(rows, tag, set_), ClearRow(rows, tag, set_);
    forall t: nat, s: nat ensures Tally(after, Holds(t, s)) <= 1 {
      ClearRowTakes(rows, tag, set_, t, s);
    }
    ClearRowTakes(rows, tag, set_, tag, set_);
    SearchFindsMembers(after, tag, set_);
    forall p | p in Members(rows) - {(tag, set_)} ensures p in Members(after) {
      var i :| 0 <= i < |rows| && rows[i].tag != -1 && p == (rows[i].tag, rows[i].set_);
      assert after[i] == rows[i];
    }
    forall p | p in Members(after) ensures p in Members(rows) - {(tag, set_)} {
      var i :| 0 <= i < |after| && after[i].tag != -1 && p == (after[i].tag, after[i].set_);
      assert after[i] == rows[i];
    }
  }

  // ----- requests

  /** A request in the cache. A request that comes back from the levels below, or out of the
      coalescer, is marked as retried. */
  datatype Packet = Packet(id: nat, tag: nat, set_: nat, coalesced: bool, conflict: bool, retried: bool)

  /** The request is for the block (tag, set). */
  predicate SamePair(p: Packet, tag: nat, set_: nat) {
    p.tag == tag && p.set_ == set_
  }

  /** What becomes of a request that misses, and of the table. */
  datatype Checked = Checked(rows: seq<Row>, packet: Packet)

  /** A request that missed is sent on, parked behind the misses of its set, or merged with a miss
      of its own block. */
  function Check(rows: seq<Row>, assoc: nat, p: Packet): Checked
    requires FirstEmpty(rows) < |rows|
  {
    var hit := FirstMatch(rows, p.tag, p.set_) < |rows|;
    if (!hit && CountSet(rows, p.set_) < assoc) || p.conflict then
      Checked(SetRow(rows, p.tag, p.set_), p.(conflict := false))
    else if !hit then
      Checked(SetRow(rows, p.tag, p.set_), p.(coalesced := true, conflict := true))
    else
      Checked(rows, p.(coalesced := true))
  }

  /** The table stays a set exactly when a conflict retry arrives with its own row cleared, and
      gains at most the pair of the request. */
  lemma CheckKeepsSet(rows: seq<Row>, assoc: nat, p: Packet)
    requires Proper(rows) && FirstEmpty(rows) < |rows|
    ensures var c := Check(rows, assoc, p);
            && (Proper(c.rows) <==> !(p.conflict && (p.tag, p.set_) in Members(rows)))
            && Members(c.rows) == Members(rows) + {(p.tag, p.set_)}
  {
    SearchFindsMembers(rows, p.tag, p.set_);
    SetRowProper(rows, p.tag, p.set_);
  }

  /** The three ways of a request that misses, in terms of the set that the table stands for: it is sent
      if it retries after a conflict, or if its block is not outstanding and fewer than assoc blocks of its
      set are; it is merged if its block is outstanding; otherwise it waits for room in the set. Sent and
      waiting requests enter the first empty row, as requests that may be joined. */
  lemma CheckMeaning(rows: seq<Row>, assoc: nat, p: Packet)
    requires Proper(rows) && FirstEmpty(rows) < |rows|
    ensures var c, member, others := Check(rows, assoc, p), (p.tag, p.set_) in Members(rows), |MembersOf(rows, p.set_)|;
            && (p.conflict || (!member && others < assoc) ==>
                  c.packet == p.(conflict := false) && Entered(rows, p, c.rows))
            && (!p.conflict && !member && others >= assoc ==>
                  c.packet == p.(coalesced := true, conflict := true) && Entered(rows, p, c.rows))
            && (!p.conflict && member ==>
                  c.packet == p.(coalesced := true) && c.rows == rows)
  {
    SearchFindsMembers(rows, p.tag, p.set_);
    SizesAreCardinalities(rows, p.set_);
  }

  /** after is rows with the pair of the request in the first row that was empty. */
  ghost predicate Entered(rows: seq<Row>, p: Packet, after: seq<Row>) {
    exists k :: 0 <= k < |rows| && rows[k] == NO_ROW && after == rows[k := Row(p.tag, p.set_, 1)]
                && forall j :: 0 <= j < k ==> rows[j] != NO_ROW
  }

  // ----- the coalescer

  /** The first parked request for the block, or the number of parked requests. */
  function FirstMerged(parked: seq<Packet>, tag: nat, set_: nat): (k: nat)
    ensures k <= |parked|
    ensures forall j :: 0 <= j < k ==> !(parked[j].tag == tag && parked[j].set_ == set_)
    ensures k < |parked| ==> parked[k].tag == tag && parked[k].set_ == set_
  {
    if parked == [] || (parked[0].tag == tag && parked[0].set_ == set_) then 0 else 1 + FirstMerged(parked[1..], tag, set_)
  }

  /** The first request parked for a conflict in the set, or the number of parked requests. */
  function FirstConflict(parked: seq<Packet>, set_: nat): (k: nat)
    ensures k <= |parked|
    ensures forall j :: 0 <= j < k ==> !(parked[j].set_ == set_ && parked[j].conflict)
    ensures k < |parked| ==> parked[k].set_ == set_ && parked[k].conflict
  {
    if parked == [] || (parked[0].set_ == set_ && parked[0].conflict) then 0 else 1 + FirstConflict(parked[1..], set_)
  }

  datatype Released = Nothing | Merged(index: nat) | Conflict(index: nat)

  /** Which parked request a finished access to (tag, set) lets go: first one for the same block,
      then one that waited for room in the set. */
  function Choose(parked: seq<Packet>, tag: nat, set_: nat): (r: Released)
    ensures r.Merged? ==> r.index < |parked|
    ensures r.Conflict? ==> r.index < |parked| && parked[r.index].conflict && parked[r.index].set_ == set_
  {
    if FirstMerged(parked, tag, set_) < |parked| then Merged(FirstMerged(parked, tag, set_))
    else if FirstConflict(parked, set_) < |parked| then Conflict(FirstConflict(parked, set_))
    else Nothing
  }

  /** The choice by positions: the first parked request for the block; if there is none, the first that
      waits for room in the set; and none only if there is neither. */
  lemma ChooseMeaning(parked: seq<Packet>, tag: nat, set_: nat)
    ensures var r := Choose(parked, tag, set_);
            && (r.Merged? <==> exists i :: 0 <= i < |parked| && SamePair(parked[i], tag, set_))
            && (r.Merged? ==>
                  && r.index < |parked| && SamePair(parked[r.index], tag, set_)
                  && forall i :: 0 <= i < r.index ==> !SamePair(parked[i], tag, set_))
            && (r.Conflict? ==>
                  && r.index < |parked| && parked[r.index].set_ == set_ && parked[r.index].conflict
                  && (forall i :: 0 <= i < r.index ==> !(parked[i].set_ == set_ && parked[i].conflict))
                  && forall i :: 0 <= i < |parked| ==> !SamePair(parked[i], tag, set_))
            && (r.Nothing? <==> forall i :: 0 <= i < |parked| ==>
                  !SamePair(parked[i], tag, set_) && !(parked[i].set_ == set_ && parked[i].conflict))
  {
    var k := FirstMerged(parked, tag, set_);
    if k < |parked| {
      assert SamePair(parked[k], tag, set_);
    }
  }

  /** The request as it enters the retry queue. */
  function AsReleased(r: Released, p: Packet): Packet {
    match r
    case Conflict(_) => p.(coalesced := false, conflict := true, retried := true)
    case _ => p.(retried := true)
  }

  /** A released request is a retry; after a conflict it is no longer marked as coalesced but still as in
      conflict, so that the miss that follows is sent, and a merged one keeps its marks. */
  lemma ReleasedMeaning(r: Released, p: Packet)
    ensures var q := AsReleased(r, p);
            && q.id == p.id && q.tag == p.tag && q.set_ == p.set_ && q.retried
            && (r.Conflict? ==> !q.coalesced && q.conflict)
            && (r.Merged? ==> q.coalesced == p.coalesced && q.conflict == p.conflict)
  {
  }

  /** Requests that a finished access to (tag, set) could let go. */
  function Waiting(tag: nat, set_: nat): Packet -> bool {
    (p: Packet) => p.set_ == set_ && (p.tag == tag || p.conflict)
  }

  /** Each release takes one waiting request out of the coalescer, until no request is waiting. */
  lemma ReleaseDrains(parked: seq<Packet>, tag: nat, set_: nat)
    ensures var r := Choose(parked, tag, set_);
            if r == Nothing then Tally(parked, Waiting(tag, set_)) == 0
            else Tally(Drop(parked, r.index), Waiting(tag, set_)) == Tally(parked, Waiting(tag, set_)) - 1
  {
    var r := Choose(parked, tag, set_);
    if r == Nothing {
      if Tally(parked, Waiting(tag, set_)) > 0 {
        var i := TallyWhere(parked, Waiting(tag, set_));
      }
    } else {
      TallyDrop(parked, r.index, Waiting(tag, set_));
    }
  }
}
