/** Which GPU L2 cache an address belongs to, and when translation by pages keeps that. */
module HubMap {
  import opened Bits
  import opened CacheAddress

  /** The block number of the address, masked with the number of caches less one. */
  function CacheMap(g: Geometry, caches: nat, addr: nat): nat
    requires caches > 0 && g.Ok() && g.logBlock <= g.width
  {
    MaskIsNat(g);
    And(Shr(And(addr, g.BlockAddressMask()), g.logBlock), caches - 1)
  }

  lemma MaskIsNat(g: Geometry)
    requires g.logBlock <= g.width
    ensures g.BlockAddressMask() >= 0 && g.BlockAddressMask() == Pow2(g.width) - Pow2(g.logBlock)
  {
    PowMono(g.logBlock, g.width);
  }

  /** The map names one of the caches. */
  lemma MapInRange(g: Geometry, caches: nat, addr: nat)
    requires caches > 0 && g.Ok() && g.logBlock <= g.width
    ensures CacheMap(g, caches, addr) < caches
  {
    MaskIsNat(g);
    AndBelow(Shr(And(addr, g.BlockAddressMask()), g.logBlock), caches - 1);
  }

  /** The bits of the map are address bits above the block offset. */
  lemma MapBit(g: Geometry, caches: nat, addr: nat, i: nat)
    requires caches > 0 && g.Ok() && g.logBlock <= g.width && g.IsWord(addr)
    ensures Bit(CacheMap(g, caches, addr), i) <==> Bit(addr, g.logBlock + i) && Bit(caches - 1, i)
  {
    MaskIsNat(g);
    var high := And(addr, g.BlockAddressMask());
    AndBit(Shr(high, g.logBlock), caches - 1, i);
    AndHigh(addr, g.logBlock, g.width);
    SplitAt(addr, g.logBlock);
    SplitUnique(high, g.logBlock, Shr(addr, g.logBlock), 0);
    ShrBit(addr, g.logBlock, i);
  }

  predicate SameOffset(logPage: nat, a: nat, b: nat) {
    And(a, Pow2(logPage) - 1) == And(b, Pow2(logPage) - 1)
  }

  lemma OffsetBit(logPage: nat, a: nat, b: nat, i: nat)
    requires SameOffset(logPage, a, b) && i < logPage
    ensures Bit(a, i) <==> Bit(b, i)
  {
    AndBit(a, Pow2(logPage) - 1, i);
    AndBit(b, Pow2(logPage) - 1, i);
    MaskBit(logPage, i);
  }

  lemma TimesPow(v: nat, i: nat, b: nat)
    requires Pow2(i) <= v
    ensures Pow2(i + b) <= v * Pow2(b)
  {
    PowAdd(i, b);
    if Pow2(i) < v {
      MulMono(Pow2(i), v, Pow2(b));
    }
  }

  /** Addresses with the same page offset map to the same cache if the map reads offset bits only. */
  lemma MapKept(g: Geometry, caches: nat, logPage: nat, a: nat, b: nat)
    requires caches > 0 && g.Ok() && g.logBlock <= g.width && g.IsWord(a) && g.IsWord(b)
    requires (caches - 1) * Pow2(g.logBlock) < Pow2(logPage) && SameOffset(logPage, a, b)
    ensures CacheMap(g, caches, a) == CacheMap(g, caches, b)
  {
    forall i: nat ensures Bit(CacheMap(g, caches, a), i) <==> Bit(CacheMap(g, caches, b), i) {
      MapBit(g, caches, a, i);
      MapBit(g, caches, b, i);
      if Bit(caches - 1, i) {
        BitBound(caches - 1, i);
        TimesPow(caches - 1, i, g.logBlock);
        if i + g.logBlock >= logPage {
          PowMono(logPage, i + g.logBlock);
        }
        OffsetBit(logPage, a, b, i + g.logBlock);
      }
    }
    SameBits(CacheMap(g, caches, a), CacheMap(g, caches, b));
  }

  lemma {:induction false} ProductBelow(v: nat, b: nat, k: nat)
    requires v * Pow2(b) >= Pow2(k)
    ensures exists i: nat :: Bit(v, i) && i + b >= k
  {
    if v == 0 {
      assert false;
    } else if k <= b {
      var i := HighBit(v, 0);
    } else {
      PowAdd(k - b, b);
      if v < Pow2(k - b) {
        MulMono(v, Pow2(k - b), Pow2(b));
      }
      var i := HighBit(v, k - b);
    }
  }

  /** Otherwise address 0 and some address at the start of another page map to different caches. */
  lemma MapLost(g: Geometry, caches: nat, logPage: nat) returns (b: nat)
    requires caches > 0 && g.Ok() && g.logBlock <= g.width
    requires Pow2(logPage) <= (caches - 1) * Pow2(g.logBlock) < Pow2(g.width)
    ensures g.IsWord(b) && SameOffset(logPage, 0, b) && CacheMap(g, caches, 0) != CacheMap(g, caches, b)
  {
    ProductBelow(caches - 1, g.logBlock, logPage);
    var i: nat :| Bit(caches - 1, i) && i + g.logBlock >= logPage;
    b := Pow2(i + g.logBlock);
    BitBound(caches - 1, i);
    TimesPow(caches - 1, i, g.logBlock);
    assert SameOffset(logPage, 0, b) by {
      var rest := i + g.logBlock - logPage;
      PowAdd(rest, logPage);
      SplitUnique(b, logPage, Pow2(rest), 0);
    }
    MapBit(g, caches, 0, i);
    MapBit(g, caches, b, i);
    PowBit(i + g.logBlock, i + g.logBlock);
    ZeroBit(i + g.logBlock);
  }

  ghost predicate PagesKeepMap(g: Geometry, caches: nat, logPage: nat)
    requires caches > 0 && g.Ok() && g.logBlock <= g.width
  {
    forall a: nat, b: nat | g.IsWord(a) && g.IsWord(b) && SameOffset(logPage, a, b) ::
      CacheMap(g, caches, a) == CacheMap(g, caches, b)
  }

  /** Every translation that keeps the page offset keeps the cache exactly when the caches, a block
      each, span less than a page beyond the first. */
  lemma MapKeptExactly(g: Geometry, caches: nat, logPage: nat)
    requires caches > 0 && g.Ok() && g.logBlock <= g.width && (caches - 1) * Pow2(g.logBlock) < Pow2(g.width)
    ensures (caches - 1) * Pow2(g.logBlock) < Pow2(logPage) <==>
            PagesKeepMap(g, caches, logPage)
  {
    if (caches - 1) * Pow2(g.logBlock) < Pow2(logPage) {
      forall a: nat, b: nat | g.IsWord(a) && g.IsWord(b) && SameOffset(logPage, a, b)
        ensures CacheMap(g, caches, a) == CacheMap(g, caches, b)
      {
        MapKept(g, caches, logPage, a, b);
      }
    } else {
      var b := MapLost(g, caches, logPage);
    }
  }
}
