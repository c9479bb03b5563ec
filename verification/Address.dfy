/** Splitting a 32-bit address into tag, set and block offset, and putting it together again. */
module CacheAddress {
  import opened Bits

  /** The width of an address word (32 in the simulator) and the logarithms of the block size and of
      the number of sets. */
  datatype Geometry = Geometry(width: nat, logBlock: nat, logSet: nat) {
    function Shift(): nat {
      logBlock + logSet
    }

    predicate Ok() {
      Shift() < width
    }

    predicate IsWord(v: int) {
      0 <= v < Pow2(width)
    }

    function BlockMask(): nat {
      Pow2(logBlock) - 1
    }

    function SetMask(): nat {
      Pow2(logSet) - 1
    }

    /** All ones but for the block offset. */
    function BlockAddressMask(): int {
      Pow2(width) - 1 - BlockMask()
    }

    /** How many tags there are. */
    function Tags(): nat
      requires Ok()
    {
      Pow2(width - Shift())
    }

    /** An unsigned word stored in a signed integer of the same width. */
    function AsInt(v: nat): int
      requires Ok()
    {
      if v < Pow2(width - 1) then v else v - Pow2(width)
    }
  }

  datatype Probed = Probed(set_: nat, tag: nat, offset: nat)

  datatype ProbeResult = Decoded(p: Probed) | AssertionFailed

  /** Tag, set and offset; the tag is asserted to lie below the all-ones tag. */
  function Probe(g: Geometry, addr: nat): ProbeResult
    requires g.Ok() && g.IsWord(addr)
  {
    var tag := g.AsInt(Shr(addr, g.Shift()));
    var set_ := And(Shr(addr, g.logBlock), g.SetMask());
    var offset := And(addr, g.BlockMask());
    if 0 <= tag < Shr(Pow2(g.width) - 1, g.Shift()) then Decoded(Probed(set_, tag, offset)) else AssertionFailed
  }

  /** The address of the first byte of a block, truncated to a word. */
  function BuildAddress(g: Geometry, set_: nat, tag: nat): nat {
    Or(Shl(tag, g.Shift()) % Pow2(g.width), Shl(set_, g.logBlock) % Pow2(g.width))
  }

  lemma Nested(r: nat, t: nat, s: nat, o: nat, l: nat, b: nat, p: nat)
    requires r == t * l + s && p == l * b
    ensures r * b + o == t * p + s * b + o
  {
    assert r * b == t * l * b + s * b;
    assert t * l * b == t * (l * b);
  }

  lemma QuotientBound(t: nat, bound: nat, p: nat, rest: nat)
    requires t * p + rest < bound * p
    ensures t < bound
  {
    if t > bound {
      MulMono(bound, t, p);
    }
  }

  /** The tag and the part of the address below it. */
  lemma TagAndRest(g: Geometry, addr: nat)
    requires g.Ok() && g.IsWord(addr)
    ensures addr == Shr(addr, g.Shift()) * Pow2(g.Shift()) + And(addr, Pow2(g.Shift()) - 1)
    ensures And(addr, Pow2(g.Shift()) - 1) < Pow2(g.Shift()) && Shr(addr, g.Shift()) < g.Tags()
  {
    SplitAt(addr, g.Shift());
    TagBound(g, addr, Shr(addr, g.Shift()), And(addr, Pow2(g.Shift()) - 1));
  }

  /** Tag, set and offset are the digits of the address. */
  lemma Digits(g: Geometry, addr: nat)
    requires g.Ok() && g.IsWord(addr)
    ensures var t, s, o := Shr(addr, g.Shift()), And(Shr(addr, g.logBlock), g.SetMask()), And(addr, g.BlockMask());
            && addr == t * Pow2(g.Shift()) + s * Pow2(g.logBlock) + o
            && t < g.Tags() && s < Pow2(g.logSet) && o < Pow2(g.logBlock)
  {
    var b, l := g.logBlock, g.logSet;
    var r := Shr(addr, b);
    TagAndRest(g, addr);
    SplitAt(addr, b);
    SplitAt(r, l);
    ShrShr(addr, b, l);
    PowAdd(l, b);
    Nested(r, Shr(r, l), And(r, Pow2(l) - 1), And(addr, Pow2(b) - 1), Pow2(l), Pow2(b), Pow2(l + b));
  }

  lemma TagBound(g: Geometry, addr: nat, t: nat, rest: nat)
    requires g.Ok() && g.IsWord(addr) && addr == t * Pow2(g.Shift()) + rest
    ensures t < g.Tags()
  {
    PowAdd(g.width - g.Shift(), g.Shift());
    QuotientBound(t, g.Tags(), Pow2(g.Shift()), rest);
  }

  /** Set and offset together stay below one tag step. */
  lemma LowPart(g: Geometry, s: nat, o: nat)
    requires s < Pow2(g.logSet) && o < Pow2(g.logBlock)
    ensures s * Pow2(g.logBlock) + o < Pow2(g.Shift())
  {
    MulMono(s, Pow2(g.logSet), Pow2(g.logBlock));
    PowAdd(g.logSet, g.logBlock);
  }

  lemma AllOnesTag(g: Geometry)
    requires g.Ok()
    ensures Shr(Pow2(g.width) - 1, g.Shift()) == g.Tags() - 1
    ensures (g.Tags() - 1) * Pow2(g.Shift()) == Pow2(g.width) - Pow2(g.Shift())
  {
    var k := g.Shift();
    PowAdd(g.width - k, k);
    PredTimes(g.Tags(), Pow2(k));
    SplitUnique(Pow2(g.width) - 1, k, g.Tags() - 1, Pow2(k) - 1);
  }

  lemma PredTimes(t: int, p: int)
    ensures (t - 1) * p == t * p - p
  {
  }

  lemma TagsFitInt(g: Geometry)
    requires g.Ok() && g.Shift() > 0
    ensures g.Tags() <= Pow2(g.width - 1)
  {
    var t, q := g.Tags(), Pow2(g.Shift() - 1);
    PowAdd(g.width - g.Shift(), g.Shift() - 1);
    if q > 1 {
      MulMono(1, q, t);
    }
  }

  lemma BelowAllOnes(g: Geometry, addr: nat)
    requires g.Ok() && g.IsWord(addr)
    ensures Shr(addr, g.Shift()) < g.Tags() - 1 <==> addr < Pow2(g.width) - Pow2(g.Shift())
  {
    TagAndRest(g, addr);
    AllOnesTag(g);
    if Shr(addr, g.Shift()) < g.Tags() - 1 {
      MulMono(Shr(addr, g.Shift()), g.Tags() - 1, Pow2(g.Shift()));
    }
  }

  /** The probe's assertion holds exactly below the last 2^shift addresses; without any set or
      offset bits it also excludes the upper half, whose tags would be negative. */
  lemma ProbeDomain(g: Geometry, addr: nat)
    requires g.Ok() && g.IsWord(addr)
    ensures Probe(g, addr).Decoded? <==>
            addr < Pow2(g.width) - Pow2(g.Shift()) && (g.Shift() == 0 ==> addr < Pow2(g.width - 1))
  {
    BelowAllOnes(g, addr);
    AllOnesTag(g);
    TagAndRest(g, addr);
    if g.Shift() > 0 {
      TagsFitInt(g);
    }
  }

  /** Rebuilding the address from the probed set and tag and adding the offset gives it back. */
  lemma ProbeThenBuild(g: Geometry, addr: nat)
    requires g.Ok() && g.IsWord(addr) && Probe(g, addr).Decoded?
    ensures var p := Probe(g, addr).p; BuildAddress(g, p.set_, p.tag) + p.offset == addr
  {
    TagIs(g, addr);
    Digits(g, addr);
    BuildIs(g, Probe(g, addr).p.set_, Shr(addr, g.Shift()));
  }

  /** The probe splits the address: tag, set and offset weigh 2^shift, one block and one byte. */
  lemma ProbeIs(g: Geometry, addr: nat)
    requires g.Ok() && g.IsWord(addr) && Probe(g, addr).Decoded?
    ensures var p := Probe(g, addr).p;
            && addr == p.tag * Pow2(g.logBlock + g.logSet) + p.set_ * Pow2(g.logBlock) + p.offset
            && p.set_ < Pow2(g.logSet) && p.offset < Pow2(g.logBlock)
  {
    TagIs(g, addr);
    Digits(g, addr);
  }

  lemma TagIs(g: Geometry, addr: nat)
    requires g.Ok() && g.IsWord(addr) && Probe(g, addr).Decoded?
    ensures Probe(g, addr).p.tag == Shr(addr, g.Shift())
  {
    ShrLeq(addr, g.Shift());
  }

  lemma {:induction false} ShrLeq(v: nat, k: nat)
    ensures Shr(v, k) <= v
  {
    if k > 0 {
      ShrLeq(v / 2, k - 1);
    }
  }

  lemma ModSmall(v: nat, m: nat)
    requires v < m
    ensures v % m == v
  {
  }

  lemma PartsFit(g: Geometry, s: nat, t: nat)
    requires g.Ok() && s < Pow2(g.logSet) && t < g.Tags()
    ensures t * Pow2(g.Shift()) + s * Pow2(g.logBlock) + Pow2(g.logBlock) <= Pow2(g.width)
    ensures s * Pow2(g.logBlock) < Pow2(g.Shift())
  {
    LowPart(g, s, Pow2(g.logBlock) - 1);
    PowAdd(g.width - g.Shift(), g.Shift());
    MulMono(t, g.Tags(), Pow2(g.Shift()));
  }

  /** Or-ing the shifted parts adds them, and nothing is truncated. */
  lemma BuildIs(g: Geometry, s: nat, t: nat)
    requires g.Ok() && s < Pow2(g.logSet) && t < g.Tags()
    ensures BuildAddress(g, s, t) == t * Pow2(g.Shift()) + s * Pow2(g.logBlock)
    ensures BuildAddress(g, s, t) + Pow2(g.logBlock) <= Pow2(g.width)
  {
    var hi, lo, word := t * Pow2(g.Shift()), s * Pow2(g.logBlock), Pow2(g.width);
    PartsFit(g, s, t);
    ShlIs(t, g.Shift());
    ShlIs(s, g.logBlock);
    ModSmall(hi, word);
    ModSmall(lo, word);
    OrIsAdd(t, g.Shift(), lo);
  }

  /** Probing a rebuilt address gives the set and tag it was built from and offset 0. */
  lemma BuildThenProbe(g: Geometry, s: nat, t: nat)
    requires g.Ok() && s < Pow2(g.logSet) && t < g.Tags() - 1 && (g.Shift() == 0 ==> t < Pow2(g.width - 1))
    ensures g.IsWord(BuildAddress(g, s, t))
    ensures Probe(g, BuildAddress(g, s, t)) == Decoded(Probed(s, t, 0))
  {
    var addr := BuildAddress(g, s, t);
    BuildIs(g, s, t);
    AllOnesTag(g);
    if g.Shift() > 0 {
      TagsFitInt(g);
    }
    BuiltDigits(g, addr, s, t);
  }

  lemma BuiltDigits(g: Geometry, addr: nat, s: nat, t: nat)
    requires g.Ok() && s < Pow2(g.logSet) && addr == t * Pow2(g.Shift()) + s * Pow2(g.logBlock)
    ensures Shr(addr, g.Shift()) == t
    ensures And(Shr(addr, g.logBlock), g.SetMask()) == s && And(addr, g.BlockMask()) == 0
  {
    var b, l := g.logBlock, g.logSet;
    LowPart(g, s, 0);
    SplitUnique(addr, g.Shift(), t, s * Pow2(b));
    PowAdd(l, b);
    Nested(t * Pow2(l) + s, t, s, 0, Pow2(l), Pow2(b), Pow2(g.Shift()));
    SplitUnique(addr, b, t * Pow2(l) + s, 0);
    SplitUnique(t * Pow2(l) + s, l, t, s);
  }

  /** Two addresses have the same tag and set exactly when they lie in the same block. */
  lemma SameBlock(g: Geometry, a: nat, c: nat)
    requires g.Ok() && g.IsWord(a) && g.IsWord(c) && Probe(g, a).Decoded? && Probe(g, c).Decoded?
    ensures g.BlockAddressMask() >= 0
    ensures Probe(g, a).p.tag == Probe(g, c).p.tag && Probe(g, a).p.set_ == Probe(g, c).p.set_
            <==> And(a, g.BlockAddressMask()) == And(c, g.BlockAddressMask())
  {
    BlockAddress(g, a);
    BlockAddress(g, c);
    ProbeThenBuild(g, a);
    ProbeThenBuild(g, c);
    BlockProbe(g, a);
    BlockProbe(g, c);
  }

  /** The block address is the rebuilt address. */
  lemma BlockAddress(g: Geometry, a: nat)
    requires g.Ok() && g.IsWord(a) && Probe(g, a).Decoded?
    ensures g.BlockAddressMask() >= 0
    ensures And(a, g.BlockAddressMask()) == BuildAddress(g, Probe(g, a).p.set_, Probe(g, a).p.tag)
  {
    AndHigh(a, g.logBlock, g.width);
    ProbeThenBuild(g, a);
  }

  lemma BlockProbe(g: Geometry, a: nat)
    requires g.Ok() && g.IsWord(a) && Probe(g, a).Decoded?
    ensures var p := Probe(g, a).p;
            g.IsWord(BuildAddress(g, p.set_, p.tag)) && Probe(g, BuildAddress(g, p.set_, p.tag)) == Decoded(Probed(p.set_, p.tag, 0))
  {
    Digits(g, a);
    TagIs(g, a);
    AllOnesTag(g);
    BuildThenProbe(g, Probe(g, a).p.set_, Probe(g, a).p.tag);
  }
}
