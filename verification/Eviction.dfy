/** Eviction from the shared L3 cache: the directory's presence bits decide which caches above must
    flush the block. */
module L3Eviction {
  import opened BlockStates
  import opened Bits
  import opened CacheAddress

  datatype Destination = ToL2(core: nat) | ToHub

  datatype WriteBack = WriteBack(id: nat, address: nat, state: BlockState, flushPending: bool)

  datatype Flush = Flush(evictId: nat, writeBackId: nat, address: nat, state: BlockState, victimWay: int, dest: Destination)

  /** A block with its directory entry, one presence bit per core and one for the hub. */
  datatype Block = Block(tag: nat, state: BlockState, entry: nat)

  /** How many of the bits below n of v are set. */
  function Count(v: nat, n: nat): nat {
    if n == 0 then 0 else Count(v, n - 1) + (if Bit(v, n - 1) then 1 else 0)
  }

  /** The flushes for the presence bits below n, in the order of the bits. */
  function Flushes(v: nat, n: nat, cores: nat, id: nat, proto: Flush): seq<Flush> {
    if n == 0 then []
    else Flushes(v, n - 1, cores, id, proto)
         + (if Bit(v, n - 1) then [proto.(evictId := id + Count(v, n - 1), dest := Route(n - 1, cores))] else [])
  }

  function Route(i: nat, cores: nat): Destination {
    if i < cores then ToL2(i) else ToHub
  }

  lemma {:induction false} CountSplit(v: nat, n: nat)
    ensures Count(v, n + 1) == v % 2 + Count(v / 2, n)
  {
    if n > 0 {
      CountSplit(v, n - 1);
    }
  }

  /** Counting by shifting until nothing is left counts the bits below any bound on v. */
  lemma {:induction false} PopcountIsCount(v: nat, n: nat)
    requires v < Pow2(n)
    ensures Popcount(v) == Count(v, n)
  {
    if n > 0 {
      PopcountIsCount(v / 2, n - 1);
      CountSplit(v, n - 1);
    }
  }

  ghost predicate AllBits(v: nat, n: nat) {
    forall i :: 0 <= i < n ==> Bit(v, i)
  }

  lemma {:induction false} CountIsFull(v: nat, n: nat)
    ensures Count(v, n) <= n
    ensures Count(v, n) == n <==> AllBits(v, n)
  {
    if n > 0 {
      CountIsFull(v, n - 1);
      assert AllBits(v, n) <==> AllBits(v, n - 1) && Bit(v, n - 1) by {
        if AllBits(v, n - 1) && Bit(v, n - 1) {
          forall i | 0 <= i < n ensures Bit(v, i) {
          }
        }
      }
    }
  }

  lemma {:induction false} FlushCount(v: nat, n: nat, cores: nat, id: nat, proto: Flush)
    ensures |Flushes(v, n, cores, id, proto)| == Count(v, n)
  {
    if n > 0 {
      FlushCount(v, n - 1, cores, id, proto);
    }
  }

  /** The presence bit a destination belongs to. */
  function Core(d: Destination, cores: nat): nat {
    match d
    case ToL2(core) => core
    case ToHub => cores
  }

  /** The flushes go to different destinations, in the order of the presence bits, each for a bit
      that is set, numbered in a row, and are otherwise alike. */
  lemma {:induction false} FlushesDistinct(v: nat, n: nat, cores: nat, id: nat, proto: Flush)
    requires n <= cores + 1
    ensures var fs := Flushes(v, n, cores, id, proto);
            && (forall p :: 0 <= p < |fs| ==> Core(fs[p].dest, cores) < n && Bit(v, Core(fs[p].dest, cores)))
            && (forall p, q :: 0 <= p < q < |fs| ==> Core(fs[p].dest, cores) < Core(fs[q].dest, cores))
            && (forall p :: 0 <= p < |fs| ==> fs[p] == proto.(evictId := id + p, dest := Route(Core(fs[p].dest, cores), cores)))
  {
    FlushCount(v, n, cores, id, proto);
    if n > 0 {
      FlushCount(v, n - 1, cores, id, proto);
      FlushesDistinct(v, n - 1, cores, id, proto);
    }
  }

  /** Every set presence bit has its flush. */
  lemma {:induction false} FlushForSharer(v: nat, n: nat, cores: nat, id: nat, proto: Flush, i: nat) returns (p: nat)
    requires i < n <= cores + 1 && Bit(v, i)
    ensures p < |Flushes(v, n, cores, id, proto)| && Flushes(v, n, cores, id, proto)[p].dest == Route(i, cores)
  {
    if i == n - 1 {
      p := |Flushes(v, n - 1, cores, id, proto)|;
    } else {
      p := FlushForSharer(v, n - 1, cores, id, proto, i);
    }
  }

  lemma {:induction false} CountMasked(v: nat, total: nat, n: nat)
    requires n <= total
    ensures Count(And(v, Pow2(total) - 1), n) == Count(v, n)
  {
    if n > 0 {
      CountMasked(v, total, n - 1);
      AndBit(v, Pow2(total) - 1, n - 1);
      MaskBit(total, n - 1);
    }
  }

  lemma {:induction false} FlushesMasked(v: nat, total: nat, n: nat, cores: nat, id: nat, proto: Flush)
    requires n <= total
    ensures Flushes(And(v, Pow2(total) - 1), n, cores, id, proto) == Flushes(v, n, cores, id, proto)
  {
    if n > 0 {
      FlushesMasked(v, total, n - 1, cores, id, proto);
      CountMasked(v, total, n - 1);
      AndBit(v, Pow2(total) - 1, n - 1);
      MaskBit(total, n - 1);
    }
  }

  /** The number of sharers that the directory reports. */
  lemma SharersAreBits(entry: nat, total: nat)
    ensures Popcount(And(entry, Pow2(total) - 1)) == Count(entry, total)
  {
    SplitAt(entry, total);
    PopcountIsCount(And(entry, Pow2(total) - 1), total);
    CountMasked(entry, total, total);
  }

  /** The eviction asserts that the number of sharers is at most the number of cores, although the
      hub can share the block too: for the reported number the assertion holds exactly when some
      core or the hub does not hold the block. */
  lemma SharersAssertion(entry: nat, cores: nat)
    ensures Popcount(And(entry, Pow2(cores + 1) - 1)) <= cores <==> !AllBits(entry, cores + 1)
  {
    SharersAreBits(entry, cores + 1);
    CountIsFull(entry, cores + 1);
  }

  /** With four cores, a block shared by all of them and the hub trips the assertion. */
  lemma SharersAssertionFails()
    ensures Popcount(And(0x1F, Pow2(4 + 1) - 1)) == 5 > 4
  {
    SharersAreBits(0x1F, 5);
    assert Bit(0x1F, 0) && Bit(0x1F, 1) && Bit(0x1F, 2) && Bit(0x1F, 3) && Bit(0x1F, 4);
    CountIsFull(0x1F, 5);
  }

  // ----- what an eviction sends

  /** The presence bits below n that are set. */
  ghost function Sharers(v: nat, n: nat): (ids: set<nat>) {
    set i: nat | i < n && Bit(v, i)
  }

  lemma {:induction false} CountIsCardinality(v: nat, n: nat)
    ensures Count(v, n) == |Sharers(v, n)|
  {
    if n > 0 {
      CountIsCardinality(v, n - 1);
      assert Sharers(v, n) == Sharers(v, n - 1) + if Bit(v, n - 1) then {n - 1} else {};
    }
  }

  /** The address of the first byte of the block: it probes to its set and tag, for every set and tag
      that a probe yields. */
  ghost predicate IsAddressOf(g: Geometry, address: nat, set_: nat, tag: nat) {
    g.Ok() && set_ < Pow2(g.logSet) && tag < g.Tags() ==>
      && address == tag * Pow2(g.logBlock + g.logSet) + set_ * Pow2(g.logBlock)
      && (tag < g.Tags() - 1 && (g.Shift() == 0 ==> tag < Pow2(g.width - 1)) ==>
            g.IsWord(address) && Probe(g, address) == Decoded(Probed(set_, tag, 0)))
  }

  lemma BuiltIsAddressOf(g: Geometry, set_: nat, tag: nat)
    ensures IsAddressOf(g, BuildAddress(g, set_, tag), set_, tag)
  {
    if g.Ok() && set_ < Pow2(g.logSet) && tag < g.Tags() {
      BuildIs(g, set_, tag);
      if tag < g.Tags() - 1 && (g.Shift() == 0 ==> tag < Pow2(g.width - 1)) {
        BuildThenProbe(g, set_, tag);
      }
    }
  }

  /** The flush tells of the block, of its way, and of the next write-back. */
  ghost predicate Tells(f: Flush, address: nat, b: Block, victimWay: int, writeBackId: nat) {
    f.address == address && f.state == b.state && f.victimWay == victimWay && f.writeBackId == writeBackId
  }

  /** One flush of the block to the L2 cache of each core below cores whose presence bit is set, and
      one to the hub if bit cores is set, and no other. */
  ghost predicate OnePerSharer(fs: seq<Flush>, entry: nat, cores: nat) {
    && |fs| == |Sharers(entry, cores + 1)|
    && (forall i: nat :: (i < cores && Bit(entry, i)) <==> exists p :: 0 <= p < |fs| && fs[p].dest == ToL2(i))
    && (Bit(entry, cores) <==> exists p :: 0 <= p < |fs| && fs[p].dest == ToHub)
    && forall p, q :: 0 <= p < q < |fs| ==> fs[p].dest != fs[q].dest
  }

  /** The flushes of a block at an address, numbered in a row. */
  ghost predicate AreFlushesOf(fs: seq<Flush>, address: nat, b: Block, cores: nat, victimWay: int, writeBackId: nat, evictId: nat) {
    && OnePerSharer(fs, b.entry, cores)
    && forall p :: 0 <= p < |fs| ==> fs[p].evictId == evictId + p && Tells(fs[p], address, b, victimWay, writeBackId)
  }

  lemma FlushesPerSharer(b: Block, cores: nat, id: nat, proto: Flush)
    requires proto.state == b.state
    ensures AreFlushesOf(Flushes(b.entry, cores + 1, cores, id, proto), proto.address, b, cores,
                         proto.victimWay, proto.writeBackId, id)
  {
    var v := b.entry;
    var fs := Flushes(v, cores + 1, cores, id, proto);
    FlushCount(v, cores + 1, cores, id, proto);
    CountIsCardinality(v, cores + 1);
    FlushesDistinct(v, cores + 1, cores, id, proto);
    forall i: nat ensures (i < cores && Bit(v, i)) <==> exists p :: 0 <= p < |fs| && fs[p].dest == ToL2(i) {
      if i < cores && Bit(v, i) {
        var p := FlushForSharer(v, cores + 1, cores, id, proto, i);
      }
    }
    if Bit(v, cores) {
      var p := FlushForSharer(v, cores + 1, cores, id, proto, cores);
    }
  }

  // ----- the directory as a set of sharers

  /** v with bit i set. */
  function SetBit(v: nat, i: nat): nat {
    if i == 0 then v - v % 2 + 1 else 2 * SetBit(v / 2, i - 1) + v % 2
  }

  lemma {:induction false} SetBitMeaning(v: nat, i: nat, j: nat)
    ensures Bit(SetBit(v, i), j) <==> i == j || Bit(v, j)
  {
    if i > 0 && j > 0 {
      SetBitMeaning(v / 2, i - 1, j - 1);
    }
  }

  /** The entry after clearing it and adding the sharers ids one by one. */
  function Entered(ids: seq<nat>): nat {
    if ids == [] then 0 else SetBit(Entered(ids[..|ids| - 1]), ids[|ids| - 1])
  }

  lemma {:induction false} EnteredMeaning(ids: seq<nat>, j: nat)
    ensures Bit(Entered(ids), j) <==> j in ids
  {
    if ids == [] {
      ZeroBit(j);
    } else {
      EnteredMeaning(ids[..|ids| - 1], j);
      SetBitMeaning(Entered(ids[..|ids| - 1]), ids[|ids| - 1], j);
      assert ids == ids[..|ids| - 1] + [ids[|ids| - 1]];
    }
  }

  /** An eviction flushes exactly the caches that were entered as sharers, however often and in
      whatever order they were, each once. */
  lemma SharersAreFlushed(ids: seq<nat>, cores: nat, id: nat, proto: Flush, i: nat)
    requires i <= cores
    ensures var fs := Flushes(Entered(ids), cores + 1, cores, id, proto);
            && ((exists p :: 0 <= p < |fs| && fs[p].dest == Route(i, cores)) <==> i in ids)
            && forall p, q :: 0 <= p < q < |fs| ==> fs[p].dest != fs[q].dest
  {
    var fs := Flushes(Entered(ids), cores + 1, cores, id, proto);
    FlushesDistinct(Entered(ids), cores + 1, cores, id, proto);
    EnteredMeaning(ids, i);
    if i in ids {
      var p := FlushForSharer(Entered(ids), cores + 1, cores, id, proto, i);
    }
  }

  // ----- the cache

  datatype Processor = Cpu | Gpu

  /** One more presence bit in the shifted-out part. */
  lemma ShiftOut(v: nat, i: nat)
    ensures Shr(v, i + 1) == Shr(v, i) / 2
    ensures Bit(v, i) <==> Shr(v, i) % 2 == 1
  {
    ShrShr(v, i, 1);
    assert Shr(Shr(v, i), 1) == Shr(v, i) / 2 by {
      assert Shr(Shr(v, i) / 2, 0) == Shr(v, i) / 2;
    }
    ShrBit(v, i, 0);
  }

  lemma {:induction false} NoSharers(n: nat)
    ensures Count(0, n) == 0
  {
    if n > 0 {
      NoSharers(n - 1);
      ZeroBit(n - 1);
    }
  }

  /** The entries of the blocks that an eviction can meet: a flush carries one of the states
      Modified, Exclusive and Shared, and a Modified or Exclusive block has at most one sharer. */
  predicate Evictable(b: Block, total: nat, sharers: nat) {
    && (b.state in {Modified, Exclusive} ==> sharers <= 1)
    && (Count(b.entry, total) > 0 ==> b.state in {Modified, Exclusive, Shared})
  }

  class L3Cache {
    const geometry: Geometry
    const numCores: nat
    const blocks: array2<Block>
    var shareMask: nat
    var writeBackBuffer: seq<WriteBack>
    var txQueueTop: seq<Flush>
    /** How often the upward event count was advanced. */
    var advanced: nat
    var writeBackId: nat
    var evictId: nat

    ghost predicate Valid()
      reads this
    {
      shareMask == Pow2(numCores + 1) - 1
    }

    constructor (geometry: Geometry, numCores: nat, sets: nat, assoc: nat)
      ensures Valid() && fresh(blocks)
      ensures this.geometry == geometry && this.numCores == numCores
      ensures blocks.Length0 == sets && blocks.Length1 == assoc
      ensures forall s, w :: 0 <= s < sets && 0 <= w < assoc ==> blocks[s, w] == Block(0, Invalid, 0)
      ensures writeBackBuffer == [] && txQueueTop == []
    {
      this.geometry, this.numCores := geometry, numCores;
      blocks := new Block[sets, assoc]((s, w) => Block(0, Invalid, 0));
      shareMask, writeBackBuffer, txQueueTop, advanced, writeBackId, evictId := 0, [], [], 0, 0, 0;
      new;
      BuildShareMask();
    }

    /** The mask becomes all ones, one bit for each core and one for the hub. */
    method BuildShareMask()
      requires shareMask == 0
      modifies this`shareMask
      ensures Valid()
    {
      var totalCores := numCores + 1;
      for l := 0 to totalCores
        invariant shareMask == if l == totalCores then Pow2(totalCores) - 1 else Pow2(l + 1) - 2
      {
        shareMask := shareMask + 1;
        if l < totalCores - 1 {
          shareMask := shareMask * 2;
        }
      }
    }

    /** The number of presence bits in the entry of a block. */
    method GetNumShares(processor: Processor, numCus: nat, set_: nat, way: nat) returns (sharers: nat)
      requires Valid() && set_ < blocks.Length0 && way < blocks.Length1
      ensures processor == Cpu ==> sharers == Count(blocks[set_, way].entry, numCores + 1)
      ensures processor == Gpu && numCus <= numCores + 1 ==> sharers == Count(blocks[set_, way].entry, numCus)
      ensures processor == Gpu && numCus > numCores + 1 ==> sharers == Count(blocks[set_, way].entry, numCores + 1)
    {
      ghost var total := numCores + 1;
      ghost var entry := blocks[set_, way].entry;
      sharers := 0;
      var bitVector := And(blocks[set_, way].entry, shareMask);
      ghost var masked := bitVector;
      match processor {
        case Cpu =>
          while bitVector > 0
            invariant sharers + Popcount(bitVector) == Popcount(masked)
          {
            if bitVector % 2 == 1 {
              sharers := sharers + 1;
            }
            bitVector := bitVector / 2;
          }
          SharersAreBits(entry, total);
        case Gpu =>
          for i := 0 to numCus
            invariant bitVector == Shr(masked, i) && sharers == Count(masked, i)
          {
            ShiftOut(masked, i);
            if bitVector % 2 == 1 {
              sharers := sharers + 1;
            }
            bitVector := bitVector / 2;
          }
          CountBeyond(entry, total, numCus);
      }
    }

    /** The block goes to the write-back buffer if it is Modified or Exclusive; the write-back waits
        for a flush if and only if some cache above holds the block. */
    method BufferVictim(set_: nat, way: nat, sharers: nat)
      requires set_ < blocks.Length0 && way < blocks.Length1
      modifies this`writeBackBuffer, this`writeBackId
      ensures var b := blocks[set_, way];
              if b.state in {Modified, Exclusive} then
                && writeBackId == old(writeBackId) + 1
                && writeBackBuffer == old(writeBackBuffer)
                   + [WriteBack(old(writeBackId), BuildAddress(geometry, set_, b.tag), b.state, sharers > 0)]
              else
                writeBackId == old(writeBackId) && writeBackBuffer == old(writeBackBuffer)
    {
      var victim := blocks[set_, way];
      if victim.state == Modified || victim.state == Exclusive {
        var packet := WriteBack(writeBackId, BuildAddress(geometry, set_, victim.tag), victim.state, false);
        writeBackId := writeBackId + 1;
        if sharers > 0 {
          packet := packet.(flushPending := true);
        }
        writeBackBuffer := writeBackBuffer + [packet];
      }
    }

    /** What every flush of this eviction has in common. */
    function Prototype(set_: nat, b: Block, victimWay: int): Flush
      reads this
    {
      Flush(0, writeBackId, BuildAddress(geometry, set_, b.tag), b.state, victimWay, ToHub)
    }

    /** One flush for each presence bit. */
    method SendFlushes(set_: nat, way: nat, victimWay: int) returns (messages: nat)
      requires Valid() && set_ < blocks.Length0 && way < blocks.Length1
      modifies this`txQueueTop, this`evictId, this`advanced
      ensures var b, total := blocks[set_, way], numCores + 1;
              && messages == Count(b.entry, total)
              && txQueueTop == old(txQueueTop) + Flushes(b.entry, total, numCores, old(evictId), old(Prototype(set_, b, victimWay)))
      ensures evictId == old(evictId) + messages && advanced == old(advanced) + messages
    {
      var total := numCores + 1;
      var victim := blocks[set_, way];
      var bitVector := And(victim.entry, shareMask);
      ghost var masked, proto := bitVector, Prototype(set_, victim, victimWay);
      messages := 0;
      if bitVector > 0 {
        for i := 0 to total
          invariant bitVector == Shr(masked, i) && messages == Count(masked, i)
          invariant txQueueTop == old(txQueueTop) + Flushes(masked, i, numCores, old(evictId), proto)
          invariant evictId == old(evictId) + messages && advanced == old(advanced) + messages
        {
          ShiftOut(masked, i);
          if bitVector % 2 == 1 {
            var dest := if i < numCores then ToL2(i) else ToHub;
            var packet := Flush(evictId, writeBackId, BuildAddress(geometry, set_, victim.tag), victim.state, victimWay, dest);
            evictId := evictId + 1;
            txQueueTop := txQueueTop + [packet];
            advanced := advanced + 1;
            messages := messages + 1;
          }
          bitVector := bitVector / 2;
        }
      } else {
        NoSharers(total);
        FlushCount(0, total, numCores, evictId, proto);
      }
      CountMasked(victim.entry, total, total);
      FlushesMasked(victim.entry, total, total, numCores, old(evictId), proto);
    }

    lemma FlushesAre(set_: nat, b: Block, victimWay: int, id: nat)
      ensures AreFlushesOf(Flushes(b.entry, numCores + 1, numCores, id, Prototype(set_, b, victimWay)),
                           BuildAddress(geometry, set_, b.tag), b, numCores, victimWay, writeBackId, id)
      ensures IsAddressOf(geometry, BuildAddress(geometry, set_, b.tag), set_, b.tag)
    {
      var proto := Prototype(set_, b, victimWay);
      FlushesPerSharer(b, numCores, id, proto);
      BuiltIsAddressOf(geometry, set_, b.tag);
    }

    /** Evicts a block that sharers caches above are said to hold. The block is flushed from exactly
        the caches whose presence bits are set; the eviction completes, and leaves the block
        invalid, if and only if there are as many of them as the caller said. */
    method EvictBlock(set_: nat, way: nat, sharers: nat, victimWay: int) returns (ok: bool)
      requires Valid() && set_ < blocks.Length0 && way < blocks.Length1
      requires sharers <= numCores && Evictable(blocks[set_, way], numCores + 1, sharers)
      modifies this`writeBackBuffer, this`writeBackId, this`txQueueTop, this`evictId, this`advanced, blocks
      ensures var b := old(blocks[set_, way]);
              && (ok <==> sharers == Count(b.entry, numCores + 1))
              && blocks[set_, way] == (if ok then b.(state := Invalid) else b)
              && (writeBackBuffer == old(writeBackBuffer)
                  + if b.state in {Modified, Exclusive}
                    then [WriteBack(old(writeBackId), BuildAddress(geometry, set_, b.tag), b.state, sharers > 0)] else [])
              && writeBackId == old(writeBackId) + (if b.state in {Modified, Exclusive} then 1 else 0)
              && txQueueTop == old(txQueueTop) + Flushes(b.entry, numCores + 1, numCores, old(evictId), Prototype(set_, b, victimWay))
              && evictId == old(evictId) + Count(b.entry, numCores + 1)
              && advanced == old(advanced) + Count(b.entry, numCores + 1)
      ensures var b, sent := old(blocks[set_, way]), |old(txQueueTop)|;
              exists address ::
                && IsAddressOf(geometry, address, set_, b.tag)
                && AreFlushesOf(txQueueTop[sent..], address, b, numCores, victimWay, writeBackId, old(evictId))
                && forall w :: w in writeBackBuffer[|old(writeBackBuffer)|..] ==> w.address == address
      ensures forall s, w :: 0 <= s < blocks.Length0 && 0 <= w < blocks.Length1 && (s, w) != (set_, way)
                ==> blocks[s, w] == old(blocks[s, w])
    {
      BufferVictim(set_, way, sharers);
      FlushesAre(set_, blocks[set_, way], victimWay, evictId);
      var messages := SendFlushes(set_, way, victimWay);
      ok := messages == sharers;
      if ok {
        blocks[set_, way] := blocks[set_, way].(state := Invalid);
      }
    }

    method ClearDir(set_: nat, way: nat)
      requires set_ < blocks.Length0 && way < blocks.Length1
      modifies blocks
      ensures blocks[set_, way] == old(blocks[set_, way]).(entry := 0)
      ensures forall s, w :: 0 <= s < blocks.Length0 && 0 <= w < blocks.Length1 && (s, w) != (set_, way)
                ==> blocks[s, w] == old(blocks[s, w])
    {
      blocks[set_, way] := blocks[set_, way].(entry := 0);
    }

    /** Records a sharer; ids other than 0 to 31 are refused. */
    method SetDir(set_: nat, way: nat, cacheId: int) returns (ok: bool)
      requires set_ < blocks.Length0 && way < blocks.Length1
      modifies blocks
      ensures ok <==> 0 <= cacheId <= 31
      ensures var b := old(blocks[set_, way]);
              && blocks[set_, way].tag == b.tag && blocks[set_, way].state == b.state
              && forall j: nat :: Bit(blocks[set_, way].entry, j) <==> (ok && j == cacheId) || Bit(b.entry, j)
      ensures forall s, w :: 0 <= s < blocks.Length0 && 0 <= w < blocks.Length1 && (s, w) != (set_, way)
                ==> blocks[s, w] == old(blocks[s, w])
    {
      ok := 0 <= cacheId <= 31;
      if ok {
        ghost var v := blocks[set_, way].entry;
        forall j: nat ensures Bit(SetBit(v, cacheId), j) <==> cacheId == j || Bit(v, j) {
          SetBitMeaning(v, cacheId, j);
        }
        blocks[set_, way] := blocks[set_, way].(entry := SetBit(blocks[set_, way].entry, cacheId));
      }
    }

    /** Making room for a new block, as the handlers do: a valid victim is evicted with the number of
        sharers that its own directory entry shows, and the entry is cleared. With that number the
        eviction always completes. */
    method MakeRoom(set_: nat, way: nat) returns (ok: bool)
      requires Valid() && set_ < blocks.Length0 && way < blocks.Length1
      requires var b := blocks[set_, way];
               b.state != Invalid ==>
                 !AllBits(b.entry, numCores + 1) && Evictable(b, numCores + 1, Count(b.entry, numCores + 1))
      modifies this`writeBackBuffer, this`writeBackId, this`txQueueTop, this`evictId, this`advanced, blocks
      ensures ok && blocks[set_, way] == Block(old(blocks[set_, way]).tag, Invalid, 0)
      ensures var b := old(blocks[set_, way]);
              && (b.state == Invalid ==> txQueueTop == old(txQueueTop) && writeBackBuffer == old(writeBackBuffer))
              && (b.state != Invalid ==>
                    && txQueueTop == old(txQueueTop)
                       + Flushes(b.entry, numCores + 1, numCores, old(evictId), Prototype(set_, b, 0))
                    && writeBackBuffer == old(writeBackBuffer)
                       + if b.state in {Modified, Exclusive}
                         then [WriteBack(old(writeBackId), BuildAddress(geometry, set_, b.tag), b.state, Count(b.entry, numCores + 1) > 0)]
                         else [])
    {
      ok := true;
      if blocks[set_, way].state != Invalid {
        CountIsFull(blocks[set_, way].entry, numCores + 1);
        var sharers := GetNumShares(Cpu, 0, set_, way);
        ok := EvictBlock(set_, way, sharers, 0);
      }
      ClearDir(set_, way);
    }
  }

  /** Bits above the mask do not count. */
  lemma {:induction false} CountBeyond(v: nat, total: nat, n: nat)
    ensures Count(And(v, Pow2(total) - 1), n) == Count(v, if n <= total then n else total)
  {
    if n <= total {
      CountMasked(v, total, n);
    } else {
      CountBeyond(v, total, n - 1);
      AndBit(v, Pow2(total) - 1, n - 1);
      MaskBit(total, n - 1);
    }
  }
}
