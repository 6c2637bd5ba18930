/** The kdump-compressed dump: the bitmaps of dumped pages, the page descriptors and the page
    data (qemu/dump.c:935-1093, 1160-1326, 1511-1515).

    Memory comes in blocks of whole pages, by ascending page frame number.  What a compressor
    makes of a page is left open; the reader undoes it with `inflate`. */
module Kdump {
  import opened Bytes
  import opened Words
  import opened KdumpFile

  const BUFSIZE_BITMAP: nat := 4096
  const PFN_BUFBITMAP: nat := 32768
  const DESC_SIZE: nat := 24

  datatype Block = Block(first: nat, pages: seq<Page>)

  datatype Item = Item(pfn: nat, page: Page)

  ghost predicate BlocksOk(blocks: seq<Block>)
  {
    && blocks != [] && (forall i :: 0 <= i < |blocks| ==> blocks[i].pages != [])
    && (forall i, j :: 0 <= i < j < |blocks| ==> blocks[i].first + |blocks[i].pages| <= blocks[j].first)
  }

  function ItemsOf(b: Block): (r: seq<Item>)
    ensures |r| == |b.pages|
  {
    seq(|b.pages|, i requires 0 <= i < |b.pages| => Item(b.first + i, b.pages[i]))
  }

  /** All pages, in the order of the dump. */
  function Items(blocks: seq<Block>): seq<Item>
  {
    if blocks == [] then [] else Items(blocks[..|blocks| - 1]) + ItemsOf(blocks[|blocks| - 1])
  }

  lemma {:induction false} ItemsPrefix(blocks: seq<Block>, b: nat, j: nat)
    requires b < |blocks| && j < |blocks[b].pages|
    ensures var k := |Items(blocks[..b])| + j;
            k < |Items(blocks)| && Items(blocks)[k] == Item(blocks[b].first + j, blocks[b].pages[j])
    decreases |blocks|
  {
    var init := blocks[..|blocks| - 1];
    if b < |init| {
      ItemsPrefix(init, b, j);
      assert init[..b] == blocks[..b];
    } else {
      assert blocks[..b] == init;
    }
  }

  lemma ItemsNext(blocks: seq<Block>, b: nat)
    requires b < |blocks|
    ensures |Items(blocks[..b + 1])| == |Items(blocks[..b])| + |blocks[b].pages|
  {
    assert blocks[..b + 1][..b] == blocks[..b];
  }

  /** The iterator has returned `k` pages, the last of them page `pfn` of block `b`. */
  ghost predicate At(blocks: seq<Block>, b: int, pfn: nat, k: nat)
  {
    if b == -1 then k == 0
    else
      && 0 <= b < |blocks| && blocks[b].first <= pfn < blocks[b].first + |blocks[b].pages|
      && k == |Items(blocks[..b])| + (pfn - blocks[b].first) + 1
  }

  /** get_next_page */
  method GetNextPage(blocks: seq<Block>, b: int, pfn: nat, ghost k: nat)
    returns (more: bool, b': int, pfn': nat, page: Page)
    requires BlocksOk(blocks) && At(blocks, b, pfn, k)
    ensures more <==> k < |Items(blocks)|
    ensures more ==> b' != -1 && At(blocks, b', pfn', k + 1) && Items(blocks)[k] == Item(pfn', page)
    ensures !more ==> k == |Items(blocks)|
  {
    hide Items, BlocksOk;
    page := ZeroPage();
    if b == -1 {
      NoItems(blocks);
      b', pfn' := 0, FirstPfn(blocks, 0);
      page := FirstPage(blocks, 0);
      ItemsPrefix(blocks, 0, 0);
      return true, b', pfn', page;
    }
    pfn' := pfn + 1;
    if pfn' < blocks[b].first + |blocks[b].pages| {
      ItemsPrefix(blocks, b, pfn' - blocks[b].first);
      return true, b, pfn', blocks[b].pages[pfn' - blocks[b].first];
    }
    ItemsNext(blocks, b);
    b' := b + 1;
    if b' == |blocks| {
      assert blocks[..b'] == blocks;
      return false, b', pfn', page;
    }
    pfn', page := FirstPfn(blocks, b'), FirstPage(blocks, b');
    ItemsPrefix(blocks, b', 0);
    return true, b', pfn', page;
  }

  function FirstPfn(blocks: seq<Block>, b: nat): (r: nat)
    requires BlocksOk(blocks) && b < |blocks|
    ensures r == blocks[b].first && blocks[b].pages != []
  {
    blocks[b].first
  }

  function FirstPage(blocks: seq<Block>, b: nat): (r: Page)
    requires BlocksOk(blocks) && b < |blocks|
    ensures blocks[b].pages != [] && r == blocks[b].pages[0]
  {
    blocks[b].pages[0]
  }

  lemma AtStart(blocks: seq<Block>)
    ensures At(blocks, -1, 0, 0)
  {
  }

  lemma NoItems(blocks: seq<Block>)
    requires BlocksOk(blocks)
    ensures Items(blocks[..0]) == [] && 0 < |blocks|
  {
  }

  // ---- Order of the pages -----------------------------------------------------------

  ghost predicate Ascending(items: seq<Item>)
  {
    forall i, j :: 0 <= i < j < |items| ==> items[i].pfn < items[j].pfn
  }

  ghost predicate AllBelow(items: seq<Item>, n: nat)
  {
    forall i :: 0 <= i < |items| ==> items[i].pfn < n
  }

  function EndOf(blocks: seq<Block>): nat
  {
    if blocks == [] then 0 else blocks[|blocks| - 1].first + |blocks[|blocks| - 1].pages|
  }

  lemma {:induction false} ItemsAscend(blocks: seq<Block>)
    requires blocks == [] || BlocksOk(blocks)
    ensures Ascending(Items(blocks)) && AllBelow(Items(blocks), EndOf(blocks))
    ensures blocks != [] ==> Items(blocks) != [] && Items(blocks)[|Items(blocks)| - 1].pfn == EndOf(blocks) - 1
  {
    if blocks != [] {
      var init, last := blocks[..|blocks| - 1], blocks[|blocks| - 1];
      assert init != [] ==> BlocksOk(init);
      ItemsAscend(init);
      assert EndOf(init) <= last.first;
      assert last.pages != [];
      hide BlocksOk;
      AppendAscends(Items(init), last, EndOf(init));
    }
  }

  lemma AppendAscends(items: seq<Item>, b: Block, n: nat)
    requires Ascending(items) && AllBelow(items, n) && n <= b.first
    ensures Ascending(items + ItemsOf(b)) && AllBelow(items + ItemsOf(b), b.first + |b.pages|)
  {
  }

  // ---- The bitmaps ------------------------------------------------------------------

  function Bit(b: bool): (r: nat)
    ensures r < 2 && (r == 1 <==> b)
  {
    if b then 1 else 0
  }

  /** Eight bits, the first the least significant. */
  function PackByte(s: seq<bool>): Byte
    requires |s| == 8
  {
    (Bit(s[0]) + 2 * Bit(s[1]) + 4 * Bit(s[2]) + 8 * Bit(s[3])
     + 16 * Bit(s[4]) + 32 * Bit(s[5]) + 64 * Bit(s[6]) + 128 * Bit(s[7])) as Byte
  }

  predicate TestBit(b: Byte, k: nat)
    requires k < 8
  {
    b as int / Power2(k) % 2 == 1
  }

  lemma PackedBit(s: seq<bool>, k: nat)
    requires |s| == 8 && k < 8
    ensures TestBit(PackByte(s), k) == s[k]
  {
    hide Bit;
    ByteBits(PackByte(s) as int, Bit(s[0]), Bit(s[1]), Bit(s[2]), Bit(s[3]),
             Bit(s[4]), Bit(s[5]), Bit(s[6]), Bit(s[7]));
  }

  lemma ByteBits(n: nat, b0: nat, b1: nat, b2: nat, b3: nat, b4: nat, b5: nat, b6: nat, b7: nat)
    requires b0 < 2 && b1 < 2 && b2 < 2 && b3 < 2 && b4 < 2 && b5 < 2 && b6 < 2 && b7 < 2
    requires n == b0 + 2 * b1 + 4 * b2 + 8 * b3 + 16 * b4 + 32 * b5 + 64 * b6 + 128 * b7
    ensures n / 1 % 2 == b0 && n / 2 % 2 == b1 && n / 4 % 2 == b2 && n / 8 % 2 == b3
    ensures n / 16 % 2 == b4 && n / 32 % 2 == b5 && n / 64 % 2 == b6 && n / 128 % 2 == b7
  {
    Middle(n, 1, 0, b0, b1 + 2 * b2 + 4 * b3 + 8 * b4 + 16 * b5 + 32 * b6 + 64 * b7);
    Middle(n, 2, b0, b1, b2 + 2 * b3 + 4 * b4 + 8 * b5 + 16 * b6 + 32 * b7);
    Middle(n, 4, b0 + 2 * b1, b2, b3 + 2 * b4 + 4 * b5 + 8 * b6 + 16 * b7);
    Middle(n, 8, b0 + 2 * b1 + 4 * b2, b3, b4 + 2 * b5 + 4 * b6 + 8 * b7);
    Middle(n, 16, b0 + 2 * b1 + 4 * b2 + 8 * b3, b4, b5 + 2 * b6 + 4 * b7);
    Middle(n, 32, b0 + 2 * b1 + 4 * b2 + 8 * b3 + 16 * b4, b5, b6 + 2 * b7);
    Middle(n, 64, b0 + 2 * b1 + 4 * b2 + 8 * b3 + 16 * b4 + 32 * b5, b6, b7);
    Middle(n, 128, b0 + 2 * b1 + 4 * b2 + 8 * b3 + 16 * b4 + 32 * b5 + 64 * b6, b7, 0);
  }

  lemma Middle(n: nat, p: nat, lo: nat, bit: nat, hi: nat)
    requires 0 < p && lo < p && bit < 2 && n == lo + p * (bit + 2 * hi)
    ensures n / p % 2 == bit
  {
    Quotient(n, p, lo, bit + 2 * hi);
  }

  lemma Quotient(n: nat, p: nat, r: nat, q: nat)
    requires 0 < p && r < p && n == r + p * q
    ensures n / p == q
  {
    var d := n / p;
    assert p * (d - q) == r - n % p;
    if d != q {
      Grows(p, d - q);
    }
  }

  lemma Grows(p: int, x: int)
    requires 0 < p && x != 0
    ensures p * x >= p || p * x <= -p
  {
    if x > 0 {
      assert p * (x - 1) >= 0;
    } else {
      assert p * (-1 - x) >= 0;
    }
  }

  function Pack(bits: seq<bool>): (r: seq<Byte>)
    requires |bits| % 8 == 0
    ensures |r| == |bits| / 8
  {
    seq(|bits| / 8, i requires 0 <= i < |bits| / 8 => PackByte(bits[8 * i..8 * i + 8]))
  }

  lemma PackBits(bits: seq<bool>, p: nat)
    requires |bits| % 8 == 0 && p < |bits|
    ensures TestBit(Pack(bits)[p / 8], p % 8) == bits[p]
  {
    var i := p / 8;
    PackedBit(bits[8 * i..8 * i + 8], p % 8);
  }

  /** A byte with one bit changed: `b |= 1 << k` or `b &= ~(1 << k)`. */
  function SetBit(b: Byte, k: nat, value: bool): Byte
    requires k < 8
  {
    if TestBit(b, k) == value then b
    else if value then (b as int + Power2(k)) as Byte
    else (b as int - Power2(k)) as Byte
  }

  /** One of the first `k` pages has this number. */
  ghost predicate IsSet(items: seq<Item>, k: nat, p: nat)
    requires k <= |items|
  {
    exists i :: 0 <= i < k && items[i].pfn == p
  }

  /** The part of the bitmap that fills the buffer for the `c`-th time. */
  ghost function Chunk(items: seq<Item>, k: nat, c: nat): (r: seq<bool>)
    requires k <= |items|
    ensures |r| == PFN_BUFBITMAP
  {
    seq(PFN_BUFBITMAP, i requires 0 <= i < PFN_BUFBITMAP => IsSet(items, k, c * PFN_BUFBITMAP + i))
  }

  function ChunkAt(at: nat, c: nat): nat
  {
    at + c * BUFSIZE_BITMAP
  }

  /** The first `n` parts are in the file. */
  ghost predicate ChunksHeld(f: File, at: nat, items: seq<Item>, k: nat, n: nat)
    requires k <= |items|
  {
    forall c :: 0 <= c < n ==> Holds(f, ChunkAt(at, c), Pack(Chunk(items, k, c)))
  }

  lemma OneMoreChunk(f: File, f': File, at: nat, items: seq<Item>, k: nat, n: nat)
    requires k <= |items| && ChunksHeld(f, at, items, k, n) && f' == Put(f, ChunkAt(at, n), Pack(Chunk(items, k, n)))
    ensures ChunksHeld(f', at, items, k, n + 1)
  {
    hide Pack, Chunk;
    var at' := ChunkAt(at, n);
    forall c | 0 <= c < n + 1 ensures Holds(f', ChunkAt(at, c), Pack(Chunk(items, k, c))) {
      if c < n {
        assert ChunkAt(at, c) + BUFSIZE_BITMAP <= at';
        StillHeld(f, f', at', at' + BUFSIZE_BITMAP, ChunkAt(at, c), Pack(Chunk(items, k, c)));
      }
    }
  }

  lemma ChunksStill(f: File, f': File, lo: nat, hi: nat, at: nat, items: seq<Item>, k: nat, n: nat)
    requires k <= |items| && ChunksHeld(f, at, items, k, n) && SameOutside(f, f', lo, hi)
    requires ChunkAt(at, n) <= lo || hi <= at
    ensures ChunksHeld(f', at, items, k, n)
  {
    hide Pack, Chunk;
    forall c | 0 <= c < n ensures Holds(f', ChunkAt(at, c), Pack(Chunk(items, k, c))) {
      assert ChunkAt(at, c) + BUFSIZE_BITMAP <= ChunkAt(at, n);
      StillHeld(f, f', lo, hi, ChunkAt(at, c), Pack(Chunk(items, k, c)));
    }
  }

  /** Beyond the part of the last page nothing is set yet. */
  lemma EmptyChunk(items: seq<Item>, k: nat, c: nat)
    requires k <= |items| && forall i :: 0 <= i < k ==> items[i].pfn < c * PFN_BUFBITMAP
    ensures Chunk(items, k, c) == seq(PFN_BUFBITMAP, _ => false)
  {
    forall p: nat | c * PFN_BUFBITMAP <= p ensures !IsSet(items, k, p) {
    }
    var chunk := Chunk(items, k, c);
    forall i | 0 <= i < PFN_BUFBITMAP ensures !chunk[i] {
      assert !IsSet(items, k, c * PFN_BUFBITMAP + i);
    }
  }

  /** The next page sets one bit of its part, and none of the parts before. */
  lemma NextPage(items: seq<Item>, k: nat)
    requires k < |items|
    ensures var pfn := items[k].pfn;
            Chunk(items, k + 1, pfn / PFN_BUFBITMAP) ==
            Chunk(items, k, pfn / PFN_BUFBITMAP)[pfn % PFN_BUFBITMAP := true]
    ensures forall c: nat :: c < items[k].pfn / PFN_BUFBITMAP ==> Chunk(items, k + 1, c) == Chunk(items, k, c)
  {
    var pfn := items[k].pfn;
    forall p: nat ensures IsSet(items, k + 1, p) <==> IsSet(items, k, p) || p == pfn {
      if p == pfn {
        assert items[k].pfn == p;
      }
    }
    var c' := pfn / PFN_BUFBITMAP;
    var old_, new_ := Chunk(items, k, c'), Chunk(items, k + 1, c');
    forall i | 0 <= i < PFN_BUFBITMAP ensures new_[i] == old_[pfn % PFN_BUFBITMAP := true][i] {
      assert new_[i] == IsSet(items, k + 1, c' * PFN_BUFBITMAP + i);
    }
    forall c: nat | c < c' ensures Chunk(items, k + 1, c) == Chunk(items, k, c) {
      assert (c + 1) * PFN_BUFBITMAP <= pfn;
    }
  }
}
