/** The list of RAM blocks: offsets, order and lookup (qemu/exec.c:817-853, 1203-1237,
    1385-1436, 1606-1623).

    Offsets are 64-bit; no block wraps, and all but the first are placed by
    find_ram_offset. */
module RamList {
  import opened Bytes

  const RAM_ADDR_MAX: nat := 0xFFFF_FFFF_FFFF_FFFF

  datatype Block = Block(offset: nat, length: nat)

  function End(b: Block): nat
  {
    b.offset + b.length
  }

  predicate Holds(b: Block, addr: nat)
  {
    b.offset <= addr < End(b)
  }

  /** The test of the code, in 64-bit arithmetic that wraps. */
  predicate Hit(b: Block, addr: nat)
  {
    (addr - b.offset) % (RAM_ADDR_MAX + 1) < b.length
  }

  lemma HitHolds(b: Block, addr: nat)
    requires addr <= RAM_ADDR_MAX && End(b) <= RAM_ADDR_MAX
    ensures Hit(b, addr) <==> Holds(b, addr)
  {
    if addr < b.offset {
      assert (addr - b.offset) % (RAM_ADDR_MAX + 1) == addr - b.offset + RAM_ADDR_MAX + 1;
    } else {
      assert (addr - b.offset) % (RAM_ADDR_MAX + 1) == addr - b.offset;
    }
  }

  ghost predicate Apart(a: Block, b: Block)
  {
    End(a) <= b.offset || End(b) <= a.offset
  }

  ghost predicate BlocksOk(blocks: seq<Block>)
  {
    && (forall i :: 0 <= i < |blocks| ==> 0 < blocks[i].length && End(blocks[i]) <= RAM_ADDR_MAX)
    && (forall i, j :: 0 <= i < j < |blocks| ==> Apart(blocks[i], blocks[j]))
  }

  ghost predicate LargestFirst(blocks: seq<Block>)
  {
    forall i, j :: 0 <= i < j < |blocks| ==> blocks[i].length >= blocks[j].length
  }

  /** The smallest offset of a block at or after `end`, or the end of the address space. */
  function NextAfter(blocks: seq<Block>, end: nat): (r: nat)
    ensures r <= RAM_ADDR_MAX
    ensures forall i :: 0 <= i < |blocks| && blocks[i].offset >= end ==> r <= blocks[i].offset
    ensures r == RAM_ADDR_MAX || exists i :: 0 <= i < |blocks| && blocks[i].offset == r >= end
  {
    if blocks == [] then RAM_ADDR_MAX
    else
      var init, b := blocks[..|blocks| - 1], blocks[|blocks| - 1];
      var r := NextAfter(init, end);
      assert forall i :: 0 <= i < |init| ==> init[i] == blocks[i];
      if b.offset >= end && b.offset < r then b.offset else r
  }

  /** The free space right after block `i`. */
  function Gap(blocks: seq<Block>, i: nat): int
    requires i < |blocks|
  {
    NextAfter(blocks, End(blocks[i])) - End(blocks[i])
  }

  /** Block `i` is followed by the smallest gap of at least `size`, and is the first such. */
  ghost predicate BestAfter(blocks: seq<Block>, size: nat, i: nat)
  {
    && i < |blocks| && Gap(blocks, i) >= size
    && (forall j :: 0 <= j < |blocks| && Gap(blocks, j) >= size ==> Gap(blocks, i) <= Gap(blocks, j))
    && (forall j :: 0 <= j < i && Gap(blocks, j) >= size ==> Gap(blocks, i) < Gap(blocks, j))
  }

  /** What follows a block up to the next one is free. */
  lemma GapIsFree(blocks: seq<Block>, i: nat, size: nat, j: nat)
    requires BlocksOk(blocks) && i < |blocks| && j < |blocks| && 0 < size <= Gap(blocks, i)
    ensures Apart(Block(End(blocks[i]), size), blocks[j]) && End(blocks[i]) + size <= RAM_ADDR_MAX
  {
    if blocks[j].offset < End(blocks[i]) && i != j {
      assert Apart(blocks[if i < j then i else j], blocks[if i < j then j else i]);
    }
  }

  /** The block of an address, by the list. */
  function Scan(blocks: seq<Block>, addr: nat): (r: Option<Block>)
    ensures r.Some? ==> r.value in blocks && Holds(r.value, addr)
    ensures r.None? ==> forall b :: b in blocks ==> !Holds(b, addr)
  {
    if blocks == [] then None
    else if Holds(blocks[0], addr) then Some(blocks[0])
    else Scan(blocks[1..], addr)
  }

  lemma OnlyOne(blocks: seq<Block>, a: Block, b: Block, addr: nat)
    requires BlocksOk(blocks) && a in blocks && b in blocks && Holds(a, addr) && Holds(b, addr)
    ensures a == b
  {
    var i :| 0 <= i < |blocks| && blocks[i] == a;
    var j :| 0 <= j < |blocks| && blocks[j] == b;
    assert i == j;
  }

  /** The list with `b` before the first block that is shorter. */
  function Before(blocks: seq<Block>, b: Block): seq<Block>
  {
    if blocks == [] || blocks[0].length < b.length then [b] + blocks else [blocks[0]] + Before(blocks[1..], b)
  }

  lemma {:induction false} BeforeIs(blocks: seq<Block>, b: Block, i: nat)
    requires i <= |blocks| && forall j :: 0 <= j < i ==> blocks[j].length >= b.length
    requires i < |blocks| ==> blocks[i].length < b.length
    ensures Before(blocks, b) == blocks[..i] + [b] + blocks[i..]
    decreases i
  {
    if i > 0 {
      BeforeIs(blocks[1..], b, i - 1);
      assert blocks[1..][..i - 1] == blocks[1..i] && [blocks[0]] + blocks[1..i] == blocks[..i];
    }
  }

  /** The list without the first block at offset `addr`. */
  function Without(blocks: seq<Block>, addr: nat): seq<Block>
  {
    if blocks == [] then []
    else if blocks[0].offset == addr then blocks[1..]
    else [blocks[0]] + Without(blocks[1..], addr)
  }

  lemma {:induction false} WithoutIs(blocks: seq<Block>, addr: nat, i: nat)
    requires i <= |blocks| && (forall j :: 0 <= j < i ==> blocks[j].offset != addr)
    requires i < |blocks| ==> blocks[i].offset == addr
    ensures Without(blocks, addr) == if i < |blocks| then blocks[..i] + blocks[i + 1..] else blocks
    decreases i
  {
    if i > 0 {
      WithoutIs(blocks[1..], addr, i - 1);
      assert blocks[1..][..i - 1] == blocks[1..i] && [blocks[0]] + blocks[1..i] == blocks[..i];
    }
  }

  class List {
    var blocks: seq<Block>
    var mru: Option<Block>
    var version: nat

    ghost predicate Valid()
      reads this
    {
      BlocksOk(blocks) && LargestFirst(blocks) && (mru.Some? ==> mru.value in blocks)
    }

    constructor ()
      ensures Valid() && blocks == []
    {
      blocks, mru, version := [], None, 0;
    }

    /** find_ram_offset: the start of the smallest gap that is large enough and follows a
        block.  It gives up exactly when there is none; space below the first block is not
        looked at. */
    method FindRamOffset(size: nat) returns (r: Option<nat>)
      requires Valid() && 0 < size <= RAM_ADDR_MAX
      ensures blocks == [] ==> r == Some(0)
      ensures blocks != [] && r.Some? ==> exists i: nat :: BestAfter(blocks, size, i) && r.value == End(blocks[i])
      ensures r.None? <==> blocks != [] && forall i :: 0 <= i < |blocks| ==> Gap(blocks, i) < size
      ensures r.Some? ==> r.value + size <= RAM_ADDR_MAX && forall b :: b in blocks ==> Apart(Block(r.value, size), b)
    {
      if blocks == [] {
        return Some(0);
      }
      hide BlocksOk, LargestFirst, Found, Gap, NextAfter, BestAfter;
      var offset: nat, mingap: nat := RAM_ADDR_MAX, RAM_ADDR_MAX;
      ghost var best: nat := 0;
      assert Found(blocks, size, 0, offset, mingap, best) by { FoundNothing(blocks, size); }
      var i := 0;
      while i < |blocks|
        invariant 0 <= i <= |blocks| && best < |blocks|
        invariant Found(blocks, size, i, offset, mingap, best)
      {
        var gap := GapAfter(i);
        FoundNext(blocks, size, i, offset, mingap, best, gap);
        if gap >= size && gap < mingap {
          offset, mingap, best := End(blocks[i]), gap, i;
        }
        i := i + 1;
      }
      FoundAll(blocks, size, offset, mingap, best);
      r := if offset == RAM_ADDR_MAX then None else Some(offset);
    }

    method GapAfter(i: nat) returns (gap: int)
      requires BlocksOk(blocks) && i < |blocks|
      ensures gap == Gap(blocks, i) && 0 < End(blocks[i]) && End(blocks[i]) + gap <= RAM_ADDR_MAX
    {
      var next := FindNext(End(blocks[i]));
      gap := next - End(blocks[i]);
    }

    /** The inner loop of find_ram_offset. */
    method FindNext(end: nat) returns (next: nat)
      ensures next == NextAfter(blocks, end)
    {
      next := RAM_ADDR_MAX;
      var j := 0;
      while j < |blocks|
        invariant 0 <= j <= |blocks| && next == NextAfter(blocks[..j], end)
      {
        assert blocks[..j + 1][..j] == blocks[..j];
        if blocks[j].offset >= end && blocks[j].offset < next {
          next := blocks[j].offset;
        }
        j := j + 1;
      }
      assert blocks[..j] == blocks;
    }

    /** ram_block_add: the new block goes before the first shorter one, at the offset that
        find_ram_offset finds. */
    method Add(size: nat) returns (r: Option<nat>)
      requires Valid() && 0 < size <= RAM_ADDR_MAX
      modifies this
      ensures Valid() && mru == if r.Some? then None else old(mru)
      ensures version == if r.Some? then old(version) + 1 else old(version)
      ensures blocks == if r.Some? then Before(old(blocks), Block(r.value, size)) else old(blocks)
      ensures r.Some? ==> multiset(blocks) == multiset(old(blocks)) + multiset{Block(r.value, size)}
      ensures r.None? <==> old(blocks) != [] && forall i :: 0 <= i < |old(blocks)| ==> Gap(old(blocks), i) < size
      ensures old(blocks) == [] ==> r == Some(0)
      ensures old(blocks) != [] && r.Some? ==>
                exists i: nat :: BestAfter(old(blocks), size, i) && r.value == End(old(blocks)[i])
    {
      hide BlocksOk, LargestFirst, Gap, BestAfter;
      r := FindRamOffset(size);
      if r.None? {
        return;
      }
      var i := 0;
      while i < |blocks| && blocks[i].length >= size
        invariant 0 <= i <= |blocks| && forall j :: 0 <= j < i ==> blocks[j].length >= size
      {
        i := i + 1;
      }
      Inserted(blocks, Block(r.value, size), i);
      BeforeIs(blocks, Block(r.value, size), i);
      blocks := blocks[..i] + [Block(r.value, size)] + blocks[i..];
      mru, version := None, version + 1;
    }

    /** qemu_ram_free */
    method Free(addr: nat)
      requires Valid()
      modifies this
      ensures Valid() && blocks == Without(old(blocks), addr)
      ensures forall b :: b in blocks <==> b in old(blocks) && b.offset != addr
      ensures if exists b :: b in old(blocks) && b.offset == addr then mru == None && version == old(version) + 1
              else mru == old(mru) && version == old(version)
    {
      var i := 0;
      while i < |blocks| && blocks[i].offset != addr
        invariant 0 <= i <= |blocks| && forall j :: 0 <= j < i ==> blocks[j].offset != addr
      {
        i := i + 1;
      }
      WithoutIs(blocks, addr, i);
      if i < |blocks| {
        Removed(blocks, i);
        blocks := blocks[..i] + blocks[i + 1..];
        mru, version := None, version + 1;
      }
    }

    /** qemu_get_ram_block: the shortcut gives what the scan of the list gives. */
    method GetRamBlock(addr: nat) returns (r: Option<Block>)
      requires Valid() && addr <= RAM_ADDR_MAX
      modifies this`mru
      ensures Valid() && r == Scan(blocks, addr) && (r.Some? ==> mru == r)
    {
      if mru.Some? {
        HitHolds(mru.value, addr);
      }
      if mru.Some? && Hit(mru.value, addr) {
        r := mru;
        OnlyOne(blocks, mru.value, Scan(blocks, addr).value, addr);
        return;
      }
      var i := 0;
      assert blocks[0..] == blocks;
      while i < |blocks|
        invariant 0 <= i <= |blocks| && mru == old(mru) && Scan(blocks, addr) == Scan(blocks[i..], addr)
      {
        assert blocks[i..][1..] == blocks[i + 1..];
        HitHolds(blocks[i], addr);
        if Hit(blocks[i], addr) {
          mru := Some(blocks[i]);
          return mru;
        }
        i := i + 1;
      }
      return None;
    }
  }

  /** The lower half of the address space, and a block above it that ends one byte short of the
      end. */
  function Low(): Block
  {
    Block(0, 0x8000_0000_0000_0000)
  }

  function High(): Block
  {
    Block(0x8000_0000_0000_0000, 0x7FFF_FFFF_FFFF_FFFE)
  }

  lemma NoGapAbove()
    ensures BlocksOk([High()]) && LargestFirst([High()])
    ensures Gap([High()], 0) < 2 && Apart(Block(0, 2), High())
  {
    assert NextAfter([], End(High())) == RAM_ADDR_MAX;
  }

  lemma GapAboveLow()
    ensures Gap([Low()], 0) == 0x7FFF_FFFF_FFFF_FFFF
    ensures Before([], Low()) == [Low()] && Before([Low()], High()) == [Low(), High()]
    ensures Without([Low(), High()], 0) == [High()]
  {
    assert NextAfter([], End(Low())) == RAM_ADDR_MAX;
    assert [Low()][1..] == [] && Before([], High()) == [High()];
  }

  /** find_ram_offset gives up although the lower half is free: two blocks are added and the
      lower one is freed again. */
  method GivesUp() returns (l: List, r: Option<nat>)
    ensures fresh(l) && l.Valid() && l.blocks == [High()] && Apart(Block(0, 2), High()) && r == None
  {
    hide BlocksOk, LargestFirst, Gap, Before, Without;
    NoGapAbove();
    GapAboveLow();
    l := new List();
    r := l.Add(0x8000_0000_0000_0000);
    r := l.Add(0x7FFF_FFFF_FFFF_FFFE);
    l.Free(0);
    r := l.FindRamOffset(2);
  }

  /** The best gap among those after the first `n` blocks, if there is one. */
  ghost predicate Found(blocks: seq<Block>, size: nat, n: nat, offset: nat, mingap: nat, best: nat)
    requires n <= |blocks|
  {
    if offset == RAM_ADDR_MAX then mingap == RAM_ADDR_MAX && forall j :: 0 <= j < n ==> Gap(blocks, j) < size
    else
      && best < n && offset == End(blocks[best]) && mingap == Gap(blocks, best) >= size
      && (forall j :: 0 <= j < n && Gap(blocks, j) >= size ==> mingap <= Gap(blocks, j))
      && (forall j :: 0 <= j < best && Gap(blocks, j) >= size ==> mingap < Gap(blocks, j))
  }

  lemma FoundNothing(blocks: seq<Block>, size: nat)
    ensures Found(blocks, size, 0, RAM_ADDR_MAX, RAM_ADDR_MAX, 0)
  {
  }

  lemma FoundNext(blocks: seq<Block>, size: nat, i: nat, offset: nat, mingap: nat, best: nat, g: int)
    requires 0 < size && i < |blocks| && Found(blocks, size, i, offset, mingap, best)
    requires g == Gap(blocks, i) && 0 < End(blocks[i]) && End(blocks[i]) + g <= RAM_ADDR_MAX
    ensures if size <= g < mingap then Found(blocks, size, i + 1, End(blocks[i]), g, i)
            else Found(blocks, size, i + 1, offset, mingap, best)
  {
    hide Gap, End;
  }

  lemma FoundAll(blocks: seq<Block>, size: nat, offset: nat, mingap: nat, best: nat)
    requires BlocksOk(blocks) && 0 < size && blocks != [] && Found(blocks, size, |blocks|, offset, mingap, best)
    ensures offset == RAM_ADDR_MAX <==> forall i :: 0 <= i < |blocks| ==> Gap(blocks, i) < size
    ensures offset != RAM_ADDR_MAX ==>
              BestAfter(blocks, size, best) && offset == End(blocks[best]) && offset + size <= RAM_ADDR_MAX
    ensures offset != RAM_ADDR_MAX ==> forall b :: b in blocks ==> Apart(Block(offset, size), b)
  {
    hide Gap;
    if offset != RAM_ADDR_MAX {
      assert Gap(blocks, best) >= size;
      GapIsFree(blocks, best, size, best);
      forall b | b in blocks ensures Apart(Block(offset, size), b) {
        var j :| 0 <= j < |blocks| && blocks[j] == b;
        GapIsFree(blocks, best, size, j);
      }
    }
  }

  lemma Inserted(blocks: seq<Block>, b: Block, i: nat)
    requires BlocksOk(blocks) && LargestFirst(blocks) && i <= |blocks|
    requires 0 < b.length && End(b) <= RAM_ADDR_MAX && forall a :: a in blocks ==> Apart(b, a)
    requires (forall j :: 0 <= j < i ==> blocks[j].length >= b.length) && (i < |blocks| ==> blocks[i].length < b.length)
    ensures var r := blocks[..i] + [b] + blocks[i..];
            BlocksOk(r) && LargestFirst(r) && multiset(r) == multiset(blocks) + multiset{b}
  {
    hide Apart, End;
    var r := blocks[..i] + [b] + blocks[i..];
    InsertedMembers(blocks, b, i);
    forall k | 0 <= k < |r| ensures 0 < r[k].length && End(r[k]) <= RAM_ADDR_MAX {
      if k != i {
        assert r[k] == blocks[if k < i then k else k - 1];
      }
    }
    forall k, l | 0 <= k < l < |r| ensures Apart(r[k], r[l]) && r[k].length >= r[l].length {
      InsertedPair(blocks, b, i, k, l);
    }
  }

  lemma InsertedMembers(blocks: seq<Block>, b: Block, i: nat)
    requires i <= |blocks|
    ensures multiset(blocks[..i] + [b] + blocks[i..]) == multiset(blocks) + multiset{b}
  {
    assert blocks == blocks[..i] + blocks[i..];
  }

  lemma InsertedPair(blocks: seq<Block>, b: Block, i: nat, k: nat, l: nat)
    requires BlocksOk(blocks) && LargestFirst(blocks) && i <= |blocks| && k < l <= |blocks|
    requires forall a :: a in blocks ==> Apart(b, a)
    requires (forall j :: 0 <= j < i ==> blocks[j].length >= b.length) && (i < |blocks| ==> blocks[i].length < b.length)
    ensures var r := blocks[..i] + [b] + blocks[i..]; Apart(r[k], r[l]) && r[k].length >= r[l].length
  {
    hide End;
    if k == i {
      assert blocks[l - 1] in blocks && Apart(b, blocks[l - 1]);
      assert i < l - 1 ==> blocks[i].length >= blocks[l - 1].length;
    } else if l == i {
      assert blocks[k] in blocks && Apart(b, blocks[k]);
    } else {
      var k', l' := if k < i then k else k - 1, if l < i then l else l - 1;
      assert Apart(blocks[k'], blocks[l']) && blocks[k'].length >= blocks[l'].length;
    }
  }

  lemma Removed(blocks: seq<Block>, i: nat)
    requires BlocksOk(blocks) && LargestFirst(blocks) && i < |blocks|
    ensures var r := blocks[..i] + blocks[i + 1..];
            BlocksOk(r) && LargestFirst(r) && forall b :: b in r <==> b in blocks && b.offset != blocks[i].offset
  {
    hide Apart, End;
    var r := blocks[..i] + blocks[i + 1..];
    forall k | 0 <= k < |r| ensures 0 < r[k].length && End(r[k]) <= RAM_ADDR_MAX {
      assert r[k] == blocks[if k < i then k else k + 1];
    }
    forall k, l | 0 <= k < l < |r| ensures Apart(r[k], r[l]) && r[k].length >= r[l].length {
      RemovedPair(blocks, i, k, l);
    }
    forall b ensures b in r <==> b in blocks && b.offset != blocks[i].offset {
      RemovedMember(blocks, i, b);
    }
  }

  lemma RemovedPair(blocks: seq<Block>, i: nat, k: nat, l: nat)
    requires BlocksOk(blocks) && LargestFirst(blocks) && i < |blocks| && k < l < |blocks| - 1
    ensures var r := blocks[..i] + blocks[i + 1..]; Apart(r[k], r[l]) && r[k].length >= r[l].length
  {
    hide Apart, End;
    var k', l' := if k < i then k else k + 1, if l < i then l else l + 1;
    assert Apart(blocks[k'], blocks[l']) && blocks[k'].length >= blocks[l'].length;
  }

  lemma OffsetsDiffer(blocks: seq<Block>, i: nat, j: nat)
    requires BlocksOk(blocks) && i < j < |blocks|
    ensures blocks[i].offset != blocks[j].offset
  {
    assert Apart(blocks[i], blocks[j]);
  }

  lemma RemovedMember(blocks: seq<Block>, i: nat, b: Block)
    requires BlocksOk(blocks) && i < |blocks|
    ensures b in blocks[..i] + blocks[i + 1..] <==> b in blocks && b.offset != blocks[i].offset
  {
    hide BlocksOk;
    var r := blocks[..i] + blocks[i + 1..];
    if b in r {
      var k :| 0 <= k < |r| && r[k] == b;
      var k' := if k < i then k else k + 1;
      assert b == blocks[k'];
      if k' < i {
        OffsetsDiffer(blocks, k', i);
      } else {
        OffsetsDiffer(blocks, i, k');
      }
    }
    if b in blocks && b.offset != blocks[i].offset {
      var k :| 0 <= k < |blocks| && blocks[k] == b;
      assert r[if k < i then k else k - 1] == b;
    }
  }
}
