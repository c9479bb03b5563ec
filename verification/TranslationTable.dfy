/** The hub's table of virtual addresses, as a partial map from slots to addresses. */
module TranslationTables {
  import opened Sequences

  /** All ones in a 32-bit word: the mark of a free slot. */
  const FREE := 0xFFFF_FFFF

  predicate IsAddress(v: int) {
    0 <= v <= FREE
  }

  function Live(): int -> bool {
    (v: int) => v != FREE
  }

  function Size(slots: seq<int>): nat {
    Tally(slots, Live())
  }

  /** The partial map that the slots stand for. */
  ghost function Contents(slots: seq<int>): map<nat, int> {
    map i: nat | i < |slots| && slots[i] != FREE :: slots[i]
  }

  /** The first free slot, or the number of slots. */
  function FirstFree(slots: seq<int>): (k: nat)
    ensures k <= |slots|
    ensures forall j :: 0 <= j < k ==> slots[j] != FREE
    ensures k < |slots| ==> slots[k] == FREE
  {
    if slots == [] || slots[0] == FREE then 0 else 1 + FirstFree(slots[1..])
  }

  /** A slot is free exactly when the table is not full. */
  lemma FullMeansNoFree(slots: seq<int>)
    ensures FirstFree(slots) < |slots| <==> Size(slots) < |slots|
  {
    TallyFull(slots, Live());
  }

  lemma {:induction false} SizeIsCardinality(slots: seq<int>)
    ensures Size(slots) == |Contents(slots)|
  {
    if slots == [] {
      assert Contents(slots) == map[];
    } else {
      var n := |slots| - 1;
      SizeIsCardinality(slots[..n]);
      if slots[n] == FREE {
        assert Contents(slots) == Contents(slots[..n]);
      } else {
        assert Contents(slots).Keys == Contents(slots[..n]).Keys + {n};
        assert |Contents(slots).Keys| == |Contents(slots[..n]).Keys| + 1;
        assert |Contents(slots)| == |Contents(slots).Keys| && |Contents(slots[..n])| == |Contents(slots[..n]).Keys|;
      }
    }
  }

  // ----- runs

  datatype Op = Insert(address: int, slot: nat) | Get(slot: nat, address: int)

  /** What the assertions demand: a slot is free for an insertion, and holds an address for a get. */
  predicate Allowed(slots: seq<int>, op: Op) {
    match op
    case Insert(a, k) => IsAddress(a) && k == FirstFree(slots) < |slots|
    case Get(k, a) => k < |slots| && slots[k] != FREE && a == slots[k]
  }

  function Apply(slots: seq<int>, op: Op): seq<int>
    requires Allowed(slots, op)
  {
    match op
    case Insert(a, k) => slots[k := a]
    case Get(k, _) => slots[k := FREE]
  }

  /** On the map, an insertion of any address but the mark adds a fresh slot, and a get takes its slot
      away; the mark itself adds nothing. */
  lemma OpMeaning(slots: seq<int>, op: Op)
    requires Allowed(slots, op)
    ensures var m, n := Contents(slots), Contents(Apply(slots, op));
            match op
            case Insert(a, k) => k !in m && n == if a == FREE then m else m[k := a]
            case Get(k, a) => k in m && m[k] == a && n == m - {k}
  {
  }

  lemma OpSize(slots: seq<int>, op: Op)
    requires Allowed(slots, op)
    ensures Size(Apply(slots, op)) ==
            match op
            case Insert(a, _) => Size(slots) + (if a == FREE then 0 else 1)
            case Get(_, _) => Size(slots) - 1
  {
    match op {
      case Insert(a, k) => TallyUpdate(slots, k, a, Live());
      case Get(k, _) => TallyUpdate(slots, k, FREE, Live());
    }
  }

  ghost predicate IsRun(tables: seq<seq<int>>, ops: seq<Op>) {
    && |tables| == |ops| + 1
    && forall i :: 0 <= i < |ops| ==> Allowed(tables[i], ops[i]) && tables[i + 1] == Apply(tables[i], ops[i])
  }

  function Inserts(): Op -> bool {
    (op: Op) => op.Insert? && op.address != FREE
  }

  function Gets(): Op -> bool {
    (op: Op) => op.Get?
  }

  lemma RunPrefix(tables: seq<seq<int>>, ops: seq<Op>, k: nat)
    requires IsRun(tables, ops) && k <= |ops|
    ensures IsRun(tables[..k + 1], ops[..k])
  {
  }

  /** Over every run, the size is the number of insertions less the number of gets; insertions of the
      mark do not count. */
  lemma {:induction false} SizeCounts(tables: seq<seq<int>>, ops: seq<Op>)
    requires IsRun(tables, ops)
    ensures Size(tables[|ops|]) == Size(tables[0]) + Tally(ops, Inserts()) - Tally(ops, Gets())
  {
    if ops != [] {
      var k := |ops| - 1;
      RunPrefix(tables, ops, k);
      SizeCounts(tables[..k + 1], ops[..k]);
      assert tables[..k + 1][k] == tables[k];
      OpSize(tables[k], ops[k]);
    }
  }

  predicate Touches(op: Op, slot: nat) {
    op.slot == slot
  }

  /** Until a get of its slot, an address that was inserted stays where it is, and no insertion is
      given the same slot, whatever else happens in between. */
  lemma {:induction false} StaysUntilGot(tables: seq<seq<int>>, ops: seq<Op>, slot: nat)
    requires IsRun(tables, ops) && slot < |tables[0]| && tables[0][slot] != FREE
    requires forall i :: 0 <= i < |ops| ==> !(ops[i].Get? && ops[i].slot == slot)
    ensures slot < |tables[|ops|]| && tables[|ops|][slot] == tables[0][slot]
    ensures forall i :: 0 <= i < |ops| ==> !Touches(ops[i], slot)
  {
    if ops != [] {
      var k := |ops| - 1;
      RunPrefix(tables, ops, k);
      StaysUntilGot(tables[..k + 1], ops[..k], slot);
      assert tables[..k + 1][k] == tables[k];
      forall i | 0 <= i < |ops| ensures !Touches(ops[i], slot) {
        if i < k {
          assert ops[..k][i] == ops[i];
        }
      }
    }
  }

  /** An address comes back exactly as it was inserted, from the slot that the insertion gave, if it
      is not the mark, however other slots are used in between. */
  lemma RoundTrip(tables: seq<seq<int>>, ops: seq<Op>)
    requires IsRun(tables, ops) && |ops| >= 2
    requires ops[0].Insert? && ops[0].address != FREE
    requires ops[|ops| - 1].Get? && ops[|ops| - 1].slot == ops[0].slot
    requires forall i :: 0 < i < |ops| - 1 ==> !(ops[i].Get? && ops[i].slot == ops[0].slot)
    ensures ops[|ops| - 1].address == ops[0].address
  {
    var k := |ops| - 1;
    var middle, between := tables[1..k + 1], ops[1..k];
    assert IsRun(middle, between);
    StaysUntilGot(middle, between, ops[0].slot);
    assert middle[|between|] == tables[k];
  }

  /** The mark itself cannot be stored: a get of the slot that its insertion gave is refused. */
  lemma MarkIsLost(slots: seq<int>, address: int)
    requires IsAddress(address) && FirstFree(slots) < |slots|
    ensures var k := FirstFree(slots);
            (exists a :: Allowed(Apply(slots, Insert(address, k)), Get(k, a))) <==> address != FREE
  {
    var k := FirstFree(slots);
    var after := Apply(slots, Insert(address, k));
    if address != FREE {
      assert Allowed(after, Get(k, address));
    }
  }

  // ----- the table

  class Table {
    /** The second column of the table; the first is not used by these functions. */
    const slots: array<int>

    constructor (size: nat)
      ensures fresh(slots) && slots.Length == size && Size(slots[..]) == 0
      ensures forall i :: 0 <= i < size ==> slots[i] == FREE
    {
      slots := new int[size](i => FREE);
      new;
      AllFree(slots[..]);
    }

    method GetSize() returns (j: nat)
      ensures j == Size(slots[..])
    {
      j := 0;
      for i := 0 to slots.Length
        invariant j == Size(slots[..i])
      {
        assert slots[..i + 1] == slots[..i] + [slots[i]];
        TallyAppend(slots[..i], slots[i], Live());
        if slots[i] != FREE {
          j := j + 1;
        }
      }
      assert slots[..slots.Length] == slots[..];
    }

    /** Stores the address in the first free slot. */
    method InsertAddress(address: int) returns (i: nat)
      requires IsAddress(address) && Size(slots[..]) < slots.Length
      modifies slots
      ensures Allowed(old(slots[..]), Insert(address, i))
      ensures slots[..] == Apply(old(slots[..]), Insert(address, i))
    {
      var size := GetSize();
      assert 0 <= size < slots.Length;
      FullMeansNoFree(slots[..]);
      i := 0;
      while i < slots.Length
        invariant i <= slots.Length && slots[..] == old(slots[..])
        invariant forall j :: 0 <= j < i ==> slots[j] != FREE
      {
        if slots[i] == FREE {
          break;
        }
        i := i + 1;
      }
      assert i == FirstFree(slots[..]);
      slots[i] := address;
    }

    /** Takes the address out of a slot that holds one. */
    method GetAddress(id: nat) returns (address: int)
      requires id < slots.Length && slots[id] != FREE
      modifies slots
      ensures Allowed(old(slots[..]), Get(id, address))
      ensures slots[..] == Apply(old(slots[..]), Get(id, address))
    {
      address := slots[id];
      slots[id] := FREE;
    }
  }

  lemma {:induction false} AllFree(slots: seq<int>)
    requires forall i :: 0 <= i < |slots| ==> slots[i] == FREE
    ensures Size(slots) == 0
  {
    if slots != [] {
      AllFree(slots[..|slots| - 1]);
    }
  }
}
