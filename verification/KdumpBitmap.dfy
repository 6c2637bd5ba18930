/** Writing the two bitmaps of a kdump-compressed dump through one buffer
    (qemu/dump.c:935-990, 1045-1093, 1511-1515).  The buffer is bytes, changed bit by bit. */
module KdumpBitmap {
  import opened Bytes
  import opened Words
  import opened KdumpFile
  import opened Kdump

  /** len_dump_bitmap: whole pages. */
  function LengthOf(maxPfn: nat): nat
  {
    ((maxPfn + 7) / 8 + PAGE_SIZE - 1) / PAGE_SIZE * PAGE_SIZE
  }

  /** The bitmap is exactly as many buffers as the last page needs. */
  lemma LengthInChunks(last: nat)
    ensures LengthOf(last + 1) == (last / PFN_BUFBITMAP + 1) * BUFSIZE_BITMAP
  {
    var c := last / PFN_BUFBITMAP;
    assert c * PFN_BUFBITMAP <= last < (c + 1) * PFN_BUFBITMAP;
    var bytes := (last + 1 + 7) / 8;
    assert c * BUFSIZE_BITMAP < bytes <= (c + 1) * BUFSIZE_BITMAP;
  }

  /** A reader's view of bit `p` of a bitmap at `at`. */
  predicate FileBit(f: File, at: nat, p: nat)
  {
    TestBit(Get(f, at + p / 8, 1)[0], p % 8)
  }

  ghost predicate InBlock(blocks: seq<Block>, p: nat)
  {
    exists b :: 0 <= b < |blocks| && blocks[b].first <= p < blocks[b].first + |blocks[b].pages|
  }

  lemma {:induction false} SetIsInBlock(blocks: seq<Block>, p: nat)
    ensures IsSet(Items(blocks), |Items(blocks)|, p) <==> InBlock(blocks, p)
    decreases |blocks|
  {
    if blocks != [] {
      var init, last := blocks[..|blocks| - 1], blocks[|blocks| - 1];
      SetIsInBlock(init, p);
      AppendedSet(Items(init), last, p);
      AppendedBlock(init, last, p);
      assert blocks == init + [last];
    }
  }

  lemma AppendedSet(items: seq<Item>, b: Block, p: nat)
    ensures var all := items + ItemsOf(b);
            IsSet(all, |all|, p) <==> IsSet(items, |items|, p) || b.first <= p < b.first + |b.pages|
  {
    var all := items + ItemsOf(b);
    if IsSet(items, |items|, p) {
      var i :| 0 <= i < |items| && items[i].pfn == p;
      assert all[i].pfn == p;
    }
    if b.first <= p < b.first + |b.pages| {
      assert all[|items| + (p - b.first)].pfn == p;
    }
    if IsSet(all, |all|, p) {
      var i :| 0 <= i < |all| && all[i].pfn == p;
      assert i < |items| ==> items[i].pfn == p;
      assert i >= |items| ==> all[i] == ItemsOf(b)[i - |items|];
    }
  }

  lemma AppendedBlock(blocks: seq<Block>, b: Block, p: nat)
    ensures InBlock(blocks + [b], p) <==> InBlock(blocks, p) || b.first <= p < b.first + |b.pages|
  {
    var all := blocks + [b];
    if InBlock(blocks, p) {
      var i :| 0 <= i < |blocks| && blocks[i].first <= p < blocks[i].first + |blocks[i].pages|;
      assert all[i] == blocks[i];
    }
    if b.first <= p < b.first + |b.pages| {
      assert all[|blocks|] == b;
    }
  }

  /** Held parts read back bit by bit. */
  lemma ReadBit(f: File, at: nat, items: seq<Item>, k: nat, n: nat, p: nat)
    requires k <= |items| && ChunksHeld(f, at, items, k, n) && p < n * PFN_BUFBITMAP
    ensures FileBit(f, at, p) <==> IsSet(items, k, p)
  {
    var c, q := p / PFN_BUFBITMAP, p % PFN_BUFBITMAP;
    var bits := Chunk(items, k, c);
    PlaceOf(at, p, c, q, n);
    PackBits(bits, q);
    assert bits[q] == IsSet(items, k, c * PFN_BUFBITMAP + q);
    hide Pack, Chunk, IsSet, TestBit, Holds, Get;
    assert Holds(f, ChunkAt(at, c), Pack(bits));
    GetHeld(f, ChunkAt(at, c), Pack(bits), q / 8, 1);
    assert Pack(bits)[q / 8..q / 8 + 1][0] == Pack(bits)[q / 8];
  }

  lemma PlaceOf(at: nat, p: nat, c: nat, q: nat, n: nat)
    requires c == p / PFN_BUFBITMAP && q == p % PFN_BUFBITMAP && p < n * PFN_BUFBITMAP
    ensures c < n && c * PFN_BUFBITMAP + q == p && p % 8 == q % 8 && at + p / 8 == ChunkAt(at, c) + q / 8
  {
  }

  class Bitmaps {
    const out: Output
    const blocks: seq<Block>
    const at: nat
    const len: nat
    const buf: array<Byte>
    var numDumpable: nat

    ghost predicate Valid()
    {
      BlocksOk(blocks) && len == LengthOf(EndOf(blocks)) && buf.Length == BUFSIZE_BITMAP
    }

    /** The parts before the `c`-th are in both copies. */
    ghost predicate Written(k: nat, c: nat)
      requires k <= |Items(blocks)|
      reads out
    {
      ChunksHeld(out.file, at, Items(blocks), k, c) && ChunksHeld(out.file, at + len, Items(blocks), k, c)
    }

    /** The buffer is the `c`-th part. */
    ghost predicate Holding(k: nat, c: nat)
      requires k <= |Items(blocks)|
      reads buf
    {
      buf[..] == Pack(Chunk(Items(blocks), k, c))
    }

    constructor (out0: Output, blocks0: seq<Block>, at0: nat)
      requires BlocksOk(blocks0)
      ensures Valid() && fresh(buf)
      ensures out == out0 && blocks == blocks0 && at == at0 && len == LengthOf(EndOf(blocks0))
    {
      out, blocks, at, len := out0, blocks0, at0, LengthOf(EndOf(blocks0));
      buf := new Byte[BUFSIZE_BITMAP];
      numDumpable := 0;
    }

    /** memset */
    method ClearBuffer()
      modifies buf
      ensures buf[..] == seq(buf.Length, _ => 0)
    {
      forall i | 0 <= i < buf.Length {
        buf[i] := 0;
      }
    }

    /** One turn of set_dump_bitmap's loop: the buffer goes to both copies. */
    method FlushChunk(c: nat, ghost k: nat) returns (ok: bool)
      requires Valid() && k <= |Items(blocks)| && Written(k, c) && Holding(k, c) && (c + 1) * BUFSIZE_BITMAP <= len
      modifies out, buf
      ensures out.failed == (old(out.failed) || !ok)
      ensures ok ==> Written(k, c + 1) && buf[..] == seq(BUFSIZE_BITMAP, _ => 0)
      ensures ok ==> SameOutside(old(out.file), out.file, at, at + 2 * len)
    {
      hide Pack, Chunk, Holds, SameOutside, ChunksHeld, Items, Put;
      ghost var f, items := out.file, Items(blocks);
      ghost var at1, at2 := ChunkAt(at, c), ChunkAt(at + len, c);
      assert ChunkAt(at, c + 1) == at1 + BUFSIZE_BITMAP <= at + len <= at2;
      ok := out.WriteBuffer(at + c * BUFSIZE_BITMAP, buf[..]);
      if !ok {
        return;
      }
      ghost var g := out.file;
      OneMoreChunk(f, g, at, items, k, c);
      ChunksStill(f, g, at1, at1 + BUFSIZE_BITMAP, at + len, items, k, c);
      Wider(f, g, at1, at1 + BUFSIZE_BITMAP, at, at + 2 * len);
      ok := out.WriteBuffer(at + len + c * BUFSIZE_BITMAP, buf[..]);
      if !ok {
        return;
      }
      OneMoreChunk(g, out.file, at + len, items, k, c);
      ChunksStill(g, out.file, at2, at2 + BUFSIZE_BITMAP, at, items, k, c + 1);
      Wider(g, out.file, at2, at2 + BUFSIZE_BITMAP, at, at + 2 * len);
      Compose(f, g, out.file, at, at + 2 * len);
      ClearBuffer();
    }

    /** set_dump_bitmap, for a page number not before `last`, the highest so far: it writes out
        the parts that are behind, and changes one bit of the buffer. */
    method SetDumpBitmap(last: nat, pfn: nat, value: bool, ghost k: nat) returns (ok: bool)
      requires Valid() && k <= |Items(blocks)| && last <= pfn && Below(Items(blocks), k, last)
      requires Written(k, last / PFN_BUFBITMAP) && Holding(k, last / PFN_BUFBITMAP)
      requires pfn / PFN_BUFBITMAP * BUFSIZE_BITMAP <= len
      modifies out, buf
      ensures out.failed == (old(out.failed) || !ok)
      ensures ok ==> Written(k, pfn / PFN_BUFBITMAP) && SameOutside(old(out.file), out.file, at, at + 2 * len)
      ensures ok ==> buf[..] == Pack(Chunk(Items(blocks), k, pfn / PFN_BUFBITMAP)[pfn % PFN_BUFBITMAP := value])
    {
      hide Pack, Chunk, Holds, SameOutside, ChunksHeld, Items, Put, SetBit, BlocksOk;
      var c, end := last / PFN_BUFBITMAP, pfn / PFN_BUFBITMAP;
      ok := true;
      Unchanged(out.file, at, at + 2 * len);
      while c < end
        invariant last / PFN_BUFBITMAP <= c <= end && ok && Written(k, c) && Holding(k, c)
        invariant out.failed == old(out.failed)
        invariant SameOutside(old(out.file), out.file, at, at + 2 * len)
      {
        ghost var f := out.file;
        ok := FlushChunk(c, k);
        if !ok {
          return;
        }
        Compose(old(out.file), f, out.file, at, at + 2 * len);
        BeyondIsEmpty(Items(blocks), k, last, c + 1);
        PackZero();
        c := c + 1;
      }
      ghost var bits := Chunk(Items(blocks), k, end);
      var byte, bit := pfn % PFN_BUFBITMAP / 8, pfn % PFN_BUFBITMAP % 8;
      PackUpdate(bits, pfn % PFN_BUFBITMAP, value);
      buf[byte] := SetBit(buf[byte], bit, value);
      assert buf[..] == Pack(bits)[byte := SetBit(Pack(bits)[byte], bit, value)];
    }

    /** The first `k` pages, of which the last is page `last`, are in the file or the buffer. */
    ghost predicate Marked(k: nat, last: nat)
      reads out, buf
    {
      && k <= |Items(blocks)| && last == (if k > 0 then Items(blocks)[k - 1].pfn else 0)
      && Below(Items(blocks), k, last)
      && Written(k, last / PFN_BUFBITMAP) && Holding(k, last / PFN_BUFBITMAP)
    }

    /** One turn of write_dump_bitmap's loop. */
    method MarkNext(last: nat, pfn: nat, ghost k: nat) returns (ok: bool)
      requires Valid() && Marked(k, last) && k < |Items(blocks)| && pfn == Items(blocks)[k].pfn
      modifies out, buf
      ensures out.failed == (old(out.failed) || !ok)
      ensures ok ==> Marked(k + 1, pfn) && SameOutside(old(out.file), out.file, at, at + 2 * len)
    {
      ItemsAscend(blocks);
      hide Pack, Chunk, Holds, SameOutside, Items, Put, BlocksOk, Ascending, AllBelow, LengthOf;
      ghost var items := Items(blocks);
      NextFits(items, k, last, EndOf(blocks));
      ok := SetDumpBitmap(last, pfn, true, k);
      if ok {
        NextPage(items, k);
        SameChunks(out.file, at, items, k, pfn / PFN_BUFBITMAP);
        SameChunks(out.file, at + len, items, k, pfn / PFN_BUFBITMAP);
      }
    }

    /** The loop of write_dump_bitmap. */
    method MarkAll() returns (ok: bool, last: nat)
      requires Valid()
      modifies out, buf, this`numDumpable
      ensures out.failed == (old(out.failed) || !ok)
      ensures ok ==> numDumpable == |Items(blocks)| && Marked(numDumpable, last)
      ensures ok ==> SameOutside(old(out.file), out.file, at, at + 2 * len)
    {
      ClearBuffer();
      numDumpable, last, ok := 0, 0, true;
      Start(Items(blocks));
      PackZero();
      Unchanged(out.file, at, at + 2 * len);
      AtStart(blocks);
      assert Marked(0, 0);
      hide Marked, At, Items, SameOutside, BlocksOk;
      var b, pfn: nat, more, page := -1, 0, true, ZeroPage();
      ghost var k: nat := 0;
      while more
        invariant out.failed == old(out.failed)
        invariant ok && k <= |Items(blocks)| && numDumpable == k && (more ==> At(blocks, b, pfn, k))
        invariant (!more ==> k == |Items(blocks)|)
        invariant Marked(k, last) && SameOutside(old(out.file), out.file, at, at + 2 * len)
        decreases more, |Items(blocks)| - k
      {
        ghost var f := out.file;
        more, b, pfn, page := GetNextPage(blocks, b, pfn, k);
        if more {
          ok := MarkNext(last, pfn, k);
          if !ok {
            return;
          }
          Compose(old(out.file), f, out.file, at, at + 2 * len);
          last, numDumpable, k := pfn, numDumpable + 1, k + 1;
        }
      }
    }

    /** The last call of set_dump_bitmap, which only writes out the buffer. */
    method MarkDone(last: nat) returns (ok: bool)
      requires Valid() && numDumpable == |Items(blocks)| && Marked(numDumpable, last)
      modifies out, buf
      ensures out.failed == (old(out.failed) || !ok)
      ensures ok ==> SameOutside(old(out.file), out.file, at, at + 2 * len)
      ensures ok ==> len == LengthOf(last + 1) && Written(numDumpable, last / PFN_BUFBITMAP + 1)
    {
      NoItems(blocks);
      ItemsAscend(blocks);
      hide Pack, Chunk, Holds, SameOutside, Items, Put, BlocksOk, LengthOf, Ascending, AllBelow;
      LengthInChunks(last);
      Advance(last);
      ok := SetDumpBitmap(last, last + PFN_BUFBITMAP, false, numDumpable);
    }

    lemma Both(last: nat)
      requires Valid() && len == LengthOf(last + 1) && Written(|Items(blocks)|, last / PFN_BUFBITMAP + 1)
      ensures BitmapOf(blocks, out.file, at, len) && BitmapOf(blocks, out.file, at + len, len)
    {
      BitmapRead(blocks, out.file, at, last);
      BitmapRead(blocks, out.file, at + len, last);
    }

    /** write_dump_bitmap: afterwards each copy has exactly the bits of the pages that exist. */
    method WriteDumpBitmap() returns (ok: bool)
      requires Valid()
      modifies out, buf, this`numDumpable
      ensures out.failed == (old(out.failed) || !ok)
      ensures ok ==> numDumpable == |Items(blocks)| && SameOutside(old(out.file), out.file, at, at + 2 * len)
      ensures ok ==> BitmapOf(blocks, out.file, at, len) && BitmapOf(blocks, out.file, at + len, len)
    {
      hide SameOutside, Items, BlocksOk, BitmapOf, LengthOf, Marked;
      SomeItems(blocks);
      var last;
      ok, last := MarkAll();
      if ok && numDumpable > 0 {
        ghost var f := out.file;
        ok := MarkDone(last);
        if ok {
          Compose(old(out.file), f, out.file, at, at + 2 * len);
          Both(last);
        }
      }
    }
  }

  /** None of the first `k` pages is after page `last`. */
  ghost predicate Below(items: seq<Item>, k: nat, last: nat)
    requires k <= |items|
  {
    forall i :: 0 <= i < k ==> items[i].pfn <= last
  }

  lemma BeyondIsEmpty(items: seq<Item>, k: nat, last: nat, c: nat)
    requires k <= |items| && Below(items, k, last) && last / PFN_BUFBITMAP < c
    ensures Chunk(items, k, c) == seq(PFN_BUFBITMAP, _ => false)
  {
    hide Chunk;
    assert last < c * PFN_BUFBITMAP;
    EmptyChunk(items, k, c);
  }

  lemma PackZero()
    ensures Pack(seq(PFN_BUFBITMAP, _ => false)) == seq(BUFSIZE_BITMAP, _ => 0)
  {
    var bits, zero: seq<Byte> := seq(PFN_BUFBITMAP, _ => false), seq(BUFSIZE_BITMAP, _ => 0);
    forall i | 0 <= i < BUFSIZE_BITMAP ensures Pack(bits)[i] == zero[i] {
      assert bits[8 * i..8 * i + 8] == seq(8, _ => false);
    }
  }

  /** Changing a bit and packing is packing and changing the bit in its byte. */
  lemma PackUpdate(bits: seq<bool>, p: nat, value: bool)
    requires |bits| % 8 == 0 && p < |bits|
    ensures Pack(bits[p := value]) == Pack(bits)[p / 8 := SetBit(Pack(bits)[p / 8], p % 8, value)]
  {
    var bits', byte, bit := bits[p := value], p / 8, p % 8;
    forall i | 0 <= i < |bits| / 8
      ensures Pack(bits')[i] == if i == byte then SetBit(Pack(bits)[i], bit, value) else Pack(bits)[i]
    {
      if i == byte {
        assert bits'[8 * i..8 * i + 8] == bits[8 * i..8 * i + 8][bit := value];
        PackByteUpdate(bits[8 * i..8 * i + 8], bit, value);
      } else {
        assert bits'[8 * i..8 * i + 8] == bits[8 * i..8 * i + 8];
      }
    }
  }

  lemma PackByteUpdate(s: seq<bool>, k: nat, value: bool)
    requires |s| == 8 && k < 8
    ensures PackByte(s[k := value]) == SetBit(PackByte(s), k, value)
  {
    PackedBit(s, k);
    hide TestBit, PackByte;
    if s[k] == value {
      assert s[k := value] == s;
    } else {
      PackChanged(s, k, value);
    }
  }

  lemma PackChanged(s: seq<bool>, k: nat, value: bool)
    requires |s| == 8 && k < 8 && s[k] != value
    ensures PackByte(s[k := value]) as int == PackByte(s) as int + (if value then 1 else -1) * Power2(k)
  {
    hide Bit;
    assert Bit(value) == (if value then 1 else 0) && Bit(s[k]) == if value then 0 else 1;
  }

  lemma SomeItems(blocks: seq<Block>)
    requires BlocksOk(blocks)
    ensures 0 < |Items(blocks)|
  {
    ItemsAscend(blocks);
  }

  lemma Start(items: seq<Item>)
    ensures Chunk(items, 0, 0) == seq(PFN_BUFBITMAP, _ => false) && Below(items, 0, 0)
    ensures forall f: File, at: nat :: ChunksHeld(f, at, items, 0, 0)
  {
    EmptyChunk(items, 0, 0);
  }

  lemma NextFits(items: seq<Item>, k: nat, last: nat, end: nat)
    requires k < |items| && Ascending(items) && AllBelow(items, end) && Below(items, k, last)
    requires last == if k > 0 then items[k - 1].pfn else 0
    ensures last <= items[k].pfn && Below(items, k + 1, items[k].pfn)
    ensures items[k].pfn / PFN_BUFBITMAP * BUFSIZE_BITMAP <= LengthOf(end)
  {
    LengthInChunks(end - 1);
  }

  lemma Advance(last: nat)
    ensures (last + PFN_BUFBITMAP) / PFN_BUFBITMAP == last / PFN_BUFBITMAP + 1
  {
  }

  lemma SameChunks(f: File, at: nat, items: seq<Item>, k: nat, n: nat)
    requires k < |items| && ChunksHeld(f, at, items, k, n)
    requires forall c: nat :: c < n ==> Chunk(items, k + 1, c) == Chunk(items, k, c)
    ensures ChunksHeld(f, at, items, k + 1, n)
  {
    hide Pack, Chunk, Holds;
  }

  /** The `len` bytes at `at` are the bitmap of the pages that exist. */
  ghost predicate BitmapOf(blocks: seq<Block>, f: File, at: nat, len: nat)
  {
    forall p: nat :: p < 8 * len ==> (FileBit(f, at, p) <==> InBlock(blocks, p))
  }

  lemma BitmapRead(blocks: seq<Block>, f: File, at: nat, last: nat)
    requires BlocksOk(blocks) && ChunksHeld(f, at, Items(blocks), |Items(blocks)|, last / PFN_BUFBITMAP + 1)
    ensures BitmapOf(blocks, f, at, LengthOf(last + 1))
  {
    hide FileBit, InBlock, Items, BlocksOk, ChunksHeld;
    LengthInChunks(last);
    forall p: nat | p < 8 * LengthOf(last + 1) ensures FileBit(f, at, p) <==> InBlock(blocks, p) {
      ReadBit(f, at, Items(blocks), |Items(blocks)|, last / PFN_BUFBITMAP + 1, p);
      SetIsInBlock(blocks, p);
    }
  }
}
