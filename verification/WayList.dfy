/** The LRU way list of a cache set: a doubly linked list through the blocks of the set, most
    recently used block first. */
module WayLists {
  import opened BlockStates
  import opened LruOrder
  import opened Sequences

  datatype Where = Head | Tail

  class Block {
    const way: nat
    var wayNext: Block?
    var wayPrev: Block?
    var tag: int
    var state: BlockState
    var transient: bool
    var transientTag: int
    var pending: bool

    constructor (way: nat)
      ensures this.way == way && state == Invalid && !transient && !pending
    {
      this.way, tag, state := way, 0, Invalid;
      wayNext, wayPrev, transient, transientTag, pending := null, null, false, 0, false;
    }
  }

  ghost function Nth(r: seq<Block>, i: int): Block? {
    if 0 <= i < |r| then r[i] else null
  }

  /** The links of each block of r lead to its neighbours in r. */
  ghost predicate Links(r: seq<Block>, nodes: set<Block>)
    reads nodes`wayNext, nodes`wayPrev
  {
    forall i :: 0 <= i < |r| ==> r[i] in nodes && r[i].wayNext == Nth(r, i + 1) && r[i].wayPrev == Nth(r, i - 1)
  }

  lemma DropAt(r: seq<Block>, k: nat, i: nat)
    requires k < |r| && i < |r| - 1
    ensures var rest, j := Drop(r, k), if i < k then i else i + 1;
            && rest[i] == r[j]
            && Nth(rest, i + 1) == Nth(r, if i + 1 < k then i + 1 else i + 2)
            && Nth(rest, i - 1) == Nth(r, if i - 1 < k then i - 1 else i)
  {
  }

  ghost predicate Apart(r: seq<Block>) {
    forall i, j :: 0 <= i < j < |r| ==> r[i] != r[j]
  }

  /** order names the ways of the blocks of r. */
  ghost predicate Names(order: seq<nat>, r: seq<Block>) {
    |order| == |r| && forall i :: 0 <= i < |r| ==> order[i] == r[i].way
  }

  /** r consists of blocks of the set. */
  ghost predicate OfSet(r: seq<Block>, blocks: seq<Block>) {
    forall i :: 0 <= i < |r| ==> r[i].way < |blocks| && r[i] == blocks[r[i].way]
  }

  method LinkInOrder(blks: seq<Block>, ghost nodes: set<Block>)
    requires forall i :: 0 <= i < |blks| ==> blks[i].way == i && blks[i] in nodes
    modifies nodes`wayNext, nodes`wayPrev
    ensures Links(blks, nodes)
  {
    OrderApart(blks);
    for w := 0 to |blks|
      invariant forall i :: 0 <= i < w ==> blks[i].wayNext == Nth(blks, i + 1) && blks[i].wayPrev == Nth(blks, i - 1)
    {
      LinkBlock(blks[w], if w > 0 then blks[w - 1] else null, if w < |blks| - 1 then blks[w + 1] else null);
    }
  }

  method LinkBlock(blk: Block, prev: Block?, next: Block?)
    modifies blk`wayNext, blk`wayPrev
    ensures blk.wayPrev == prev && blk.wayNext == next
  {
    blk.wayPrev := prev;
    blk.wayNext := next;
  }

  class CacheSet {
    const blocks: seq<Block>
    ghost const nodes: set<Block>
    var wayHead: Block
    var wayTail: Block
    /** The blocks from most to least recently used. */
    ghost var list: seq<Block>

    /** wayHead and wayTail are the ends of the linked list r. */
    ghost predicate Ends(r: seq<Block>)
      reads this
    {
      r != [] && wayHead == r[0] && wayTail == r[|r| - 1]
    }

    ghost predicate Valid()
      reads this, nodes`wayNext, nodes`wayPrev
    {
      && (forall i :: 0 <= i < |blocks| ==> blocks[i].way == i && blocks[i] in nodes)
      && |list| == |blocks| && OfSet(list, blocks) && Apart(list)
      && Ends(list) && Links(list, nodes)
    }

    method UnlinkHead(blk: Block, ghost r: seq<Block>)
      requires Links(r, nodes) && Apart(r) && Ends(r) && |r| > 1 && blk == r[0]
      modifies this`wayHead, blk.wayNext`wayPrev
      ensures Links(r[1..], nodes) && Ends(r[1..])
    {
      wayHead := blk.wayNext;
      blk.wayNext.wayPrev := null;
    }

    method UnlinkTail(prev: Block, ghost r: seq<Block>)
      requires Links(r, nodes) && Apart(r) && Ends(r) && |r| > 1 && prev == r[|r| - 2]
      modifies this`wayTail, prev`wayNext
      ensures Links(r[..|r| - 1], nodes) && Ends(r[..|r| - 1])
    {
      wayTail := prev;
      prev.wayNext := null;
      ghost var rest := r[..|r| - 1];
      forall i | 0 <= i < |rest|
        ensures rest[i] in nodes && rest[i].wayNext == Nth(rest, i + 1) && rest[i].wayPrev == Nth(rest, i - 1)
      {
        assert rest[i] == prev <==> i == |rest| - 1;
      }
    }

    method UnlinkInner(prev: Block, next: Block, ghost r: seq<Block>, ghost k: nat)
      requires Links(r, nodes) && Apart(r) && Ends(r) && 0 < k < |r| - 1 && prev == r[k - 1] && next == r[k + 1]
      modifies prev`wayNext, next`wayPrev
      ensures Links(Drop(r, k), nodes) && Ends(Drop(r, k))
    {
      prev.wayNext := next;
      next.wayPrev := prev;
      ghost var rest := Drop(r, k);
      forall i | 0 <= i < |rest|
        ensures rest[i] in nodes && rest[i].wayNext == Nth(rest, i + 1) && rest[i].wayPrev == Nth(rest, i - 1)
      {
        DropAt(r, k, i);
        if i == k - 1 {
          assert rest[i] == prev;
        } else if i == k {
          assert rest[i] == next;
        } else {
          assert rest[i] != prev && rest[i] != next;
        }
      }
    }

    method PushHead(blk: Block, ghost r: seq<Block>)
      requires Links(r, nodes) && Apart(r) && Ends(r) && blk !in r && blk in nodes
      modifies this`wayHead, blk`wayNext, blk`wayPrev, wayHead`wayPrev
      ensures Links([blk] + r, nodes) && Ends([blk] + r)
    {
      blk.wayNext := wayHead;
      blk.wayPrev := null;
      wayHead.wayPrev := blk;
      wayHead := blk;
    }

    method PushTail(blk: Block, ghost r: seq<Block>)
      requires Links(r, nodes) && Apart(r) && Ends(r) && blk !in r && blk in nodes
      modifies this`wayTail, blk`wayNext, blk`wayPrev, wayTail`wayNext
      ensures Links(r + [blk], nodes) && Ends(r + [blk])
    {
      blk.wayPrev := wayTail;
      blk.wayNext := null;
      wayTail.wayNext := blk;
      wayTail := blk;
    }

    /** A new set lists its ways in index order. */
    constructor (blks: seq<Block>, ghost nodes': set<Block>)
      requires blks != [] && forall i :: 0 <= i < |blks| ==> blks[i].way == i && blks[i] in nodes'
      modifies nodes'`wayNext, nodes'`wayPrev
      ensures Valid() && blocks == blks && nodes == nodes' && Names(InitialOrder(|blks|), list)
    {
      blocks, wayHead, wayTail, list := blks, blks[0], blks[|blks| - 1], blks;
      nodes := nodes';
      new;
      LinkInOrder(blks, nodes');
    }

    /** Take a block out of its list, unless it is alone or already where it should go. */
    method Detach(blk: Block, to: Where, ghost r: seq<Block>, ghost k: nat) returns (stays: bool)
      requires Links(r, nodes) && Apart(r) && Ends(r) && k < |r| && blk == r[k]
      modifies this`wayHead, this`wayTail, nodes`wayNext, nodes`wayPrev
      ensures stays <==> |r| == 1 || (if to == Head then k == 0 else k == |r| - 1)
      ensures stays ==> Links(r, nodes) && Ends(r)
      ensures !stays ==> Links(Drop(r, k), nodes) && Ends(Drop(r, k))
    {
      if blk.wayPrev == null && blk.wayNext == null {
        assert wayHead == blk && wayTail == blk;
        return true;
      } else if blk.wayPrev == null {
        assert wayHead == blk && wayTail != blk;
        if to == Head {
          return true;
        }
        assert Drop(r, k) == r[1..];
        UnlinkHead(blk, r);
      } else if blk.wayNext == null {
        assert wayHead != blk && wayTail == blk;
        if to == Tail {
          return true;
        }
        assert Drop(r, k) == r[..|r| - 1];
        UnlinkTail(blk.wayPrev, r);
      } else {
        assert wayHead != blk && wayTail != blk;
        UnlinkInner(blk.wayPrev, blk.wayNext, r, k);
      }
      return false;
    }

    method Move(blk: Block, to: Where, ghost r: seq<Block>, ghost k: nat)
      requires Links(r, nodes) && Apart(r) && Ends(r) && k < |r| && blk == r[k]
      modifies this`wayHead, this`wayTail, nodes`wayNext, nodes`wayPrev
      ensures Links(Moved(r, k, to), nodes) && Ends(Moved(r, k, to))
    {
      var stays := Detach(blk, to, r, k);
      if stays {
        assert Moved(r, k, to) == r;
      } else if to == Head {
        DropApart(r, k);
        PushHead(blk, Drop(r, k));
      } else {
        DropApart(r, k);
        PushTail(blk, Drop(r, k));
      }
    }

    /** Move a block to one end of the list; the other blocks keep their order. */
    method UpdateWaylist(blk: Block, to: Where)
      requires Valid() && blk in list
      modifies this`wayHead, this`wayTail, this`list, nodes`wayNext, nodes`wayPrev
      ensures Valid() && list == Moved(old(list), Place(old(list), blk), to)
    {
      ghost var r, k := list, Place(list, blk);
      MovedOk(blocks, r, k, to);
      Move(blk, to, r, k);
      list := Moved(r, k, to);
    }

    /** The block may not be replaced. */
    predicate Kept(block: Block)
      reads block`transient, block`pending
    {
      block.transient || block.pending
    }

    /** The k-th block of the list is the last one that may be replaced. */
    ghost predicate LastFree(k: nat)
      reads this`list, nodes`transient, nodes`pending
      requires forall i :: 0 <= i < |list| ==> list[i] in nodes
    {
      k < |list| && !Kept(list[k]) && forall i :: k < i < |list| ==> Kept(list[i])
    }

    /** The fields of the blocks are those of the abstract set s. */
    ghost predicate Fields(s: LruState)
      reads nodes`transient, nodes`transientTag, nodes`pending
    {
      && |s.transient| == |s.tags| == |s.pending| == |blocks|
      && forall i :: 0 <= i < |blocks| ==>
           && blocks[i] in nodes
           && blocks[i].transient == s.transient[i]
           && blocks[i].transientTag == s.tags[i]
           && blocks[i].pending == s.pending[i]
    }

    ghost predicate Shows(s: LruState)
      reads this, nodes`transient, nodes`transientTag, nodes`pending
    {
      Names(s.order, list) && Fields(s)
    }

    /** An access makes the block the most recently used one. */
    method AccessBlock(way: nat, ghost s: LruState)
      requires Valid() && Shows(s) && way < |blocks|
      modifies this`wayHead, this`wayTail, this`list, nodes`wayNext, nodes`wayPrev
      ensures Ok(s, |blocks|) && Valid() && Shows(Next(s, Access(way), |blocks|))
    {
      ShownOk(blocks, list, s);
      FindPlace(blocks, list, way);
      MovedNames(blocks, list, s.order, Place(list, blocks[way]));
      ghost var t := Next(s, Access(way), |blocks|);
      assert t == s.(order := ToHead(s.order, way));
      if blocks[way].wayPrev != null {
        MoveToFront(blocks[way], s);
      } else {
        assert Moved(list, Place(list, blocks[way]), Head) == list;
        assert Names(t.order, list);
      }
    }

    /** What the handlers do on a hit: the block at the tail, whichever was hit, moves to the head. */
    method HitBlock(ghost way: nat, ghost s: LruState)
      requires Valid() && Shows(s) && way < |blocks|
      modifies this`wayHead, this`wayTail, this`list, nodes`wayNext, nodes`wayPrev
      ensures Ok(s, |blocks|) && Valid() && Shows(Next(s, Hit(way), |blocks|))
    {
      ShownOk(blocks, list, s);
      ghost var t := Next(s, Hit(way), |blocks|);
      MoveToFront(wayTail, s);
      assert Names(t.order, list);
    }

    lemma KeptMeans(s: LruState, i: nat)
      requires OfSet(list, blocks) && Names(s.order, list) && Fields(s) && i < |list|
      ensures Kept(list[i]) <==> !Eligible(s, s.order[i])
    {
      assert list[i] == blocks[s.order[i]];
    }

    /** The last block that may be replaced is the abstract victim. */
    lemma LastFreeIsVictim(s: LruState, k: nat)
      requires OfSet(list, blocks) && Names(s.order, list) && Fields(s)
      requires forall i :: 0 <= i < |list| ==> list[i] in nodes
      requires LastFree(k)
      ensures VictimOf(s) == list[k].way
    {
      forall i | k <= i < |list| ensures Eligible(s, s.order[i]) <==> i == k {
        KeptMeans(s, i);
      }
      ScanSkips(s, k + 1, |list|);
    }

    lemma NoneFree(s: LruState)
      requires OfSet(list, blocks) && Names(s.order, list) && Fields(s)
      requires forall i :: 0 <= i < |list| ==> list[i] in nodes && Kept(list[i])
      ensures VictimOf(s) == -1
    {
      forall i | 0 <= i < |list| ensures !Eligible(s, s.order[i]) {
        KeptMeans(s, i);
      }
      ScanSkips(s, 0, |list|);
    }

    /** Walk from the tail of the list to the first block that is neither transient nor
        pending. */
    method FindVictim(ghost s: LruState) returns (block: Block?, ghost k: nat)
      requires Valid() && Shows(s)
      ensures VictimOf(s) == if block == null then -1 else block.way
      ensures block == null <==> forall i :: 0 <= i < |list| ==> Kept(list[i])
      ensures block != null ==> k < |list| && list[k] == block && LastFree(k)
    {
      block, k := LastFreeBlock();
      if block == null {
        NoneFree(s);
      } else {
        LastFreeIsVictim(s, k);
      }
    }

    method LastFreeBlock() returns (block: Block?, ghost k: nat)
      requires Links(list, nodes) && Ends(list) && |list| == |blocks|
      ensures block == null ==> forall i :: 0 <= i < |list| ==> Kept(list[i])
      ensures block != null ==> k < |list| && list[k] == block && LastFree(k)
    {
      ghost var n := |list|;
      block, k := wayTail, n - 1;
      var i := 0;
      while i < |blocks|
        invariant 0 <= i <= n && block == Nth(list, n - 1 - i) && (i < n ==> k == n - 1 - i)
        invariant forall j :: n - i <= j < n ==> Kept(list[j])
        decreases n - i
      {
        if !block.transient && !block.pending {
          return;
        }
        if block.wayPrev != null {
          block := block.wayPrev;
          k := k - 1;
        } else {
          assert |blocks| == i + 1;
          block := null;
        }
        i := i + 1;
      }
    }

    /** Choose a victim, mark it transient for the incoming tag and make it most recently used. */
    method GetVictim(tranTag: int, ghost s: LruState) returns (way: int)
      requires Valid() && Shows(s)
      modifies this`wayHead, this`wayTail, this`list, nodes`wayNext, nodes`wayPrev, nodes`transient, nodes`transientTag
      ensures Ok(s, |blocks|) && Valid() && Shows(Next(s, Victim(tranTag), |blocks|))
      ensures way == VictimOf(s)
    {
      ShownOk(blocks, list, s);
      var block, _ := FindVictim(s);
      if block == null {
        return -1;
      }
      TakeVictim(block, tranTag, s);
      return block.way;
    }

    method TakeVictim(block: Block, tranTag: int, ghost s: LruState)
      requires Valid() && Shows(s) && Ok(s, |blocks|) && block in list && block.way == VictimOf(s)
      modifies this`wayHead, this`wayTail, this`list, nodes`wayNext, nodes`wayPrev, nodes`transient, nodes`transientTag
      ensures Valid() && Shows(Next(s, Victim(tranTag), |blocks|))
    {
      VictimNext(s, tranTag, |blocks|);
      SetTransient(block.way, true, tranTag, s);
      MoveToFront(block, s.(transient := s.transient[block.way := true], tags := s.tags[block.way := tranTag]));
    }

    method MoveToFront(block: Block, ghost s: LruState)
      requires Valid() && Shows(s) && block in list
      modifies this`wayHead, this`wayTail, this`list, nodes`wayNext, nodes`wayPrev
      ensures block.way in s.order && Valid() && Shows(s.(order := ToHead(s.order, block.way)))
    {
      MovedNames(blocks, list, s.order, Place(list, block));
      UpdateWaylist(block, Head);
    }

    method SetTransient(way: nat, transient: bool, tag: int, ghost s: LruState)
      requires Links(list, nodes) && Fields(s) && way < |blocks|
      requires forall i :: 0 <= i < |blocks| ==> blocks[i].way == i
      modifies nodes`transient, nodes`transientTag
      ensures Links(list, nodes)
      ensures Fields(s.(transient := s.transient[way := transient], tags := s.tags[way := tag]))
    {
      blocks[way].transient := transient;
      blocks[way].transientTag := tag;
    }

    /** A block is filled: it has the tag and the state, and its way is no longer transient; the tags and
        states of the other blocks stay. */
    method SetBlock(way: nat, tag: int, state: BlockState, ghost s: LruState)
      requires Valid() && Shows(s) && way < |blocks|
      modifies nodes`transient, nodes`transientTag, nodes`tag, nodes`state
      ensures Ok(s, |blocks|) && Valid() && Shows(Next(s, Fill(way, tag), |blocks|))
      ensures blocks[way].tag == tag && blocks[way].state == state
      ensures forall i :: 0 <= i < |blocks| && i != way ==>
                blocks[i].tag == old(blocks[i].tag) && blocks[i].state == old(blocks[i].state)
    {
      SetTagAndState(way, tag, state);
      EndTransient(way, tag, s);
    }

    method EndTransient(way: nat, tag: int, ghost s: LruState)
      requires Valid() && Shows(s) && way < |blocks|
      modifies nodes`transient, nodes`transientTag
      ensures Ok(s, |blocks|) && Valid() && Shows(Next(s, Fill(way, tag), |blocks|))
    {
      ShownOk(blocks, list, s);
      ghost var t := Next(s, Fill(way, tag), |blocks|);
      SetTransient(way, false, tag, s);
      assert Fields(t);
    }

    method SetTagAndState(way: nat, tag: int, state: BlockState)
      requires way < |blocks| && forall i :: 0 <= i < |blocks| ==> blocks[i].way == i && blocks[i] in nodes
      modifies nodes`tag, nodes`state
      ensures blocks[way].tag == tag && blocks[way].state == state
      ensures forall i :: 0 <= i < |blocks| && i != way ==>
                blocks[i].tag == old(blocks[i].tag) && blocks[i].state == old(blocks[i].state)
    {
      blocks[way].tag := tag;
      blocks[way].state := state;
    }

    /** The way of a block that waits for an upgrade is kept. */
    method HoldBlock(way: nat, ghost s: LruState)
      requires Valid() && Shows(s) && way < |blocks|
      modifies nodes`transient
      ensures Ok(s, |blocks|) && Valid() && Shows(Next(s, Hold(way), |blocks|))
    {
      ShownOk(blocks, list, s);
      ghost var t := Next(s, Hold(way), |blocks|);
      KeepWay(way, s);
      assert Fields(t);
    }

    method KeepWay(way: nat, ghost s: LruState)
      requires Links(list, nodes) && Fields(s) && way < |blocks|
      requires forall i :: 0 <= i < |blocks| ==> blocks[i].way == i
      modifies nodes`transient
      ensures Links(list, nodes)
      ensures Fields(s.(transient := s.transient[way := true]))
    {
      blocks[way].transient := true;
    }
  }

  lemma ShownOk(blocks: seq<Block>, r: seq<Block>, s: LruState)
    requires OfSet(r, blocks) && Apart(r) && |r| == |blocks| && Names(s.order, r)
    requires |s.transient| == |s.tags| == |s.pending| == |blocks|
    ensures Ok(s, |blocks|)
  {
  }

  lemma FindPlace(blocks: seq<Block>, r: seq<Block>, w: nat)
    requires OfSet(r, blocks) && Apart(r) && |r| == |blocks| && w < |blocks|
    requires forall i :: 0 <= i < |blocks| ==> blocks[i].way == i
    ensures blocks[w] in r
  {
    var order := seq(|r|, i requires 0 <= i < |r| => r[i].way);
    OrderHasAll(order, |blocks|, w);
    var k :| 0 <= k < |r| && order[k] == w;
    assert r[k] == blocks[w];
  }

  lemma OrderApart(r: seq<Block>)
    requires forall i, j :: 0 <= i < j < |r| ==> r[i].way != r[j].way
    ensures Apart(r)
  {
  }

  ghost function Place(r: seq<Block>, blk: Block): (k: nat)
    requires blk in r
    ensures k < |r| && r[k] == blk
  {
    var k :| 0 <= k < |r| && r[k] == blk;
    k
  }

  ghost function Moved(r: seq<Block>, k: nat, to: Where): seq<Block>
    requires k < |r|
  {
    if to == Head then [r[k]] + Drop(r, k) else Drop(r, k) + [r[k]]
  }

  /** The block goes to the head or the tail, past the others, which keep their order. */
  lemma MovedMeaning(r: seq<Block>, k: nat, to: Where)
    requires k < |r|
    ensures to == Head ==> Moved(r, k, to) == [r[k]] + r[..k] + r[k + 1..]
    ensures to == Tail ==> Moved(r, k, to) == r[..k] + r[k + 1..] + [r[k]]
  {
  }

  lemma DropApart(r: seq<Block>, k: nat)
    requires k < |r| && Apart(r)
    ensures Apart(Drop(r, k)) && r[k] !in Drop(r, k)
    ensures forall i :: 0 <= i < |r| - 1 ==> Drop(r, k)[i] in r
  {
  }

  lemma PrependOk(blocks: seq<Block>, blk: Block, rest: seq<Block>)
    requires OfSet(rest, blocks) && Apart(rest) && OfSet([blk], blocks) && blk !in rest
    ensures OfSet([blk] + rest, blocks) && Apart([blk] + rest)
  {
    forall i | 0 <= i < |rest| ensures rest[i] != blk && ([blk] + rest)[i + 1] == rest[i] {
    }
  }

  lemma AppendOk(blocks: seq<Block>, blk: Block, rest: seq<Block>)
    requires OfSet(rest, blocks) && Apart(rest) && OfSet([blk], blocks) && blk !in rest
    ensures OfSet(rest + [blk], blocks) && Apart(rest + [blk])
  {
    forall i | 0 <= i < |rest| ensures rest[i] != blk && (rest + [blk])[i] == rest[i] {
    }
  }

  lemma MovedOk(blocks: seq<Block>, r: seq<Block>, k: nat, to: Where)
    requires OfSet(r, blocks) && Apart(r) && k < |r|
    ensures OfSet(Moved(r, k, to), blocks) && Apart(Moved(r, k, to)) && |Moved(r, k, to)| == |r|
  {
    DropApart(r, k);
    if to == Head {
      PrependOk(blocks, r[k], Drop(r, k));
    } else {
      AppendOk(blocks, r[k], Drop(r, k));
    }
  }

  /** In terms of ways, a move takes one way to an end of the order and keeps the rest. */
  lemma MovedNames(blocks: seq<Block>, r: seq<Block>, order: seq<nat>, k: nat)
    requires OfSet(r, blocks) && Apart(r) && Names(order, r) && k < |r|
    ensures r[k].way in order
    ensures Names(ToHead(order, r[k].way), Moved(r, k, Head))
    ensures Names(ToTail(order, r[k].way), Moved(r, k, Tail))
  {
    assert order[k] == r[k].way;
    assert Position(order, r[k].way) == k;
  }
}
