/** The sending side of a live migration of RAM, together with what the records it has
    sent make of the destination (qemu/arch_init.c:199-231, 353-444, 617-751, 840-1033).

    `dest` is the destination's memory once everything sent so far is loaded.  The guest
    runs meanwhile: a page that the dirty log holds may read as anything. */
module RamMigration {
  import opened Bytes
  import opened MigrationBitmap
  import opened DirtyPages
  import opened RamSearch
  import opened PageCache
  import Xbzrle

  datatype Kind = Zero | Full(data: Page) | Delta(code: seq<Byte>)

  /** One record of the stream.  `cont` is the flag that the block is that of the record
      before. */
  datatype Record = Record(block: nat, page: nat, kind: Kind, cont: bool)

  /** What loading a record makes of the page it is for. */
  function Loaded(kind: Kind, page: Page): Option<Page>
  {
    match kind
    case Zero => Some(ZeroPage())
    case Full(data) => Some(data)
    case Delta(code) =>
      var r := Xbzrle.Decode(code, page);
      if r.Failed? then None else Some(r.page)
  }

  predicate Fits(blocks: seq<Block>, r: Record)
  {
    r.block < |blocks| && r.page < blocks[r.block].pages && (r.kind.Delta? ==> |r.kind.code| <= PAGE_SIZE)
  }

  /** The records follow each other as the continue flag says, and `sent` is the block of
      the last one. */
  ghost predicate ContOk(blocks: seq<Block>, stream: seq<Record>, sent: int)
  {
    && (forall i :: 0 <= i < |stream| ==> Fits(blocks, stream[i]))
    && (forall i :: 0 <= i < |stream| && stream[i].cont ==> i > 0 && stream[i - 1].block == stream[i].block)
    && sent == if stream == [] then -1 else stream[|stream| - 1].block
  }

  /** The destination after loading a stream into `dest0`, if every record loads. */
  ghost function Replay(blocks: seq<Block>, dest0: seq<Page>, stream: seq<Record>): Option<seq<Page>>
  {
    if stream == [] then Some(dest0)
    else
      var r, before := stream[|stream| - 1], Replay(blocks, dest0, stream[..|stream| - 1]);
      if before == None || r.block >= |blocks| || blocks[r.block].base + r.page >= |before.value| then None
      else
        var p := blocks[r.block].base + r.page;
        var page := Loaded(r.kind, before.value[p]);
        if page == None then None else Some(before.value[p := page.value])
  }

  ghost predicate Delivered(ram: seq<Page>, dest: seq<Page>, log: seq<bool>, p: nat)
    requires p < |ram| == |dest| == |log|
  {
    dest[p] == ram[p] || log[p]
  }

  /** A page in neither the bitmap nor the log is equal on both sides, except perhaps page
      `lost`. */
  ghost predicate NothingLost(blocks: seq<Block>, ram: seq<Page>, dest: seq<Page>, log: seq<bool>, bits: seq<bool>,
                              lost: int)
  {
    && |ram| == |dest| == |log| == |bits|
    && forall p :: 0 <= p < |bits| && Used(blocks, p) && !bits[p] && p != lost ==> Delivered(ram, dest, log, p)
  }

  /** A cached page is the destination's copy.  In the last stage the cache is no longer
      kept up, and this matters only for pages still to be sent, and for page `now`. */
  ghost predicate Coherent(items: seq<Item>, dest: seq<Page>, bits: seq<bool>, last: bool, now: int)
  {
    && |items| > 0 && |dest| == |bits|
    && forall q :: 0 <= q < |dest| && Find(items, q).Some? && (!last || bits[q] || q == now) ==>
         Find(items, q).value == dest[q]
  }

  lemma ReplayMore(blocks: seq<Block>, dest0: seq<Page>, stream: seq<Record>, r: Record, dest: seq<Page>, page: Page)
    requires Replay(blocks, dest0, stream) == Some(dest)
    requires r.block < |blocks| && blocks[r.block].base + r.page < |dest|
    requires Loaded(r.kind, dest[blocks[r.block].base + r.page]) == Some(page)
    ensures Replay(blocks, dest0, stream + [r]) == Some(dest[blocks[r.block].base + r.page := page])
  {
    hide Loaded;
    assert (stream + [r])[..|stream|] == stream;
  }

  lemma DeltaLoads(prev: Page, cur: Page, code: seq<Byte>)
    requires code == Xbzrle.Encode(prev, cur)
    ensures Loaded(Delta(code), prev) == Some(cur)
  {
    Xbzrle.RoundTrip(prev, cur);
  }

  /** Only pages of some block are logged. */
  ghost predicate LogInUse(blocks: seq<Block>, log: seq<bool>)
  {
    forall p :: 0 <= p < |log| && log[p] ==> Used(blocks, p)
  }

  /** The page is in neither the bitmap nor the log. */
  ghost predicate Forgotten(bits: seq<bool>, log: seq<bool>, p: int)
  {
    0 <= p < |bits| == |log| && !bits[p] && !log[p]
  }

  function LastPage(blocks: seq<Block>): int
  {
    if blocks == [] then -1 else blocks[|blocks| - 1].base + blocks[|blocks| - 1].pages - 1
  }

  class Source {
    const tracker: Tracker
    const useXbzrle: bool
    var cache: Cache
    var ram: seq<Page>
    var bulk: bool
    var lastSeen: int
    var lastOffset: nat
    var lastSent: int
    var syncCount: nat
    var stream: seq<Record>
    ghost const dest0: seq<Page>
    ghost var dest: seq<Page>
    /** The page that was cleared and neither sent nor written since, or -1. */
    ghost var lost: int

    ghost predicate Shape()
      reads this, tracker, cache
    {
      && tracker.Shape() && cache.Valid()
      && |ram| == |dest| == |tracker.bits| && 0 < |tracker.blocks|
      && Replay(tracker.blocks, dest0, stream) == Some(dest)
    }

    /** Where the next search starts is sound. */
    ghost predicate Placed()
      requires tracker.Shape()
      reads this, tracker
    {
      && -1 <= lastSeen < |tracker.blocks|
      && (lastSeen == -1 ==> bulk && lastOffset == 0)
      && (lastSeen >= 0 ==> lastOffset <= tracker.blocks[lastSeen].pages)
      && (bulk ==> BulkOk(tracker.bits, tracker.blocks, lastSeen, lastOffset))
    }

    ghost predicate CacheEmpty()
      requires cache.Valid()
      reads this, cache
    {
      forall a: nat :: Find(cache.items, a) == None
    }

    /** What holds between any two calls; `last` once the last stage has begun. */
    ghost predicate Inv(last: bool)
      reads this, tracker, cache
    {
      && Shape() && Placed() && ContOk(tracker.blocks, stream, lastSent)
      && (bulk || !useXbzrle ==> CacheEmpty())
      && Coherent(cache.items, dest, tracker.bits, last, -1)
      && (lost == -1 || (!bulk && lost == LastPage(tracker.blocks) && Forgotten(tracker.bits, tracker.log, lost)))
    }

    ghost predicate Safe()
      reads this, tracker
    {
      NothingLost(tracker.blocks, ram, dest, tracker.log, tracker.bits, lost)
    }

    /** ram_save_setup */
    constructor (blocks: seq<Block>, ramPages: nat, log: seq<bool>, ram0: seq<Page>, ghost there: seq<Page>,
                 xbzrle: bool, cachePages: nat)
      requires |log| % BITS_PER_LONG == 0 && ramPages <= |log| && BlocksOk(blocks, ramPages) && 0 < |blocks|
      requires |ram0| == |there| == |log| && cachePages > 0
      ensures Inv(false) && Safe() && bulk && lost == lastSeen == -1 && fresh(tracker) && fresh(cache)
      ensures tracker.blocks == blocks && ram == ram0 && dest == dest0 == there && stream == []
      ensures forall p :: 0 <= p < |tracker.log| && Used(blocks, p) ==> tracker.bits[p] && !tracker.log[p]
      ensures LogInUse(blocks, log) ==> tracker.CounterOk() && LogInUse(blocks, tracker.log)
      ensures syncCount == 1
    {
      tracker := new Tracker(blocks, ramPages, log);
      cache := new Cache(cachePages);
      useXbzrle, ram := xbzrle, ram0;
      dest0, dest := there, there;
      bulk, lastSeen, lastOffset, lastSent, syncCount, stream, lost := true, -1, 0, -1, 0, [], -1;
      new;
      tracker.Sync();
      syncCount := syncCount + 1;
    }

    /** What the migration thread sees of a guest page: torn or stale data only if the
        guest wrote the page, and then the log holds it. */
    method GuestRead(p: nat) returns (v: Page)
      requires Shape() && p < |ram|
      ensures v == ram[p] || tracker.log[p]
    {
      v := ram[p];
    }

    /** save_page_header and the payload. */
    method Emit(b: nat, off: nat, kind: Kind, ghost page: Page)
      requires Shape() && b < |tracker.blocks| && off < tracker.blocks[b].pages
      requires Loaded(kind, dest[tracker.blocks[b].base + off]) == Some(page)
      modifies this`stream, this`dest
      ensures Shape()
      ensures stream == old(stream) + [Record(b, off, kind, b == lastSent)]
      ensures dest == old(dest)[tracker.blocks[b].base + off := page]
    {
      hide Replay, Loaded;
      ReplayMore(tracker.blocks, dest0, stream, Record(b, off, kind, b == lastSent), dest, page);
      stream := stream + [Record(b, off, kind, b == lastSent)];
      dest := dest[tracker.blocks[b].base + off := page];
    }

    /** There was no room for the page: its slot held one used lately, or no memory was left. */
    ghost predicate NoSlot(items: seq<Item>, p: nat)
      reads this, cache
    {
      && 0 < |items|
      && (Fresh(items[p % |items|], p, syncCount) || (items[p % |items|].Empty? && cache.noMemory))
    }

    /** xbzrle_cache_zero_page: a zero page sent outside the bulk stage replaces a cached
        copy, or becomes one if there is room. */
    method CacheZeroPage(p: nat)
      requires Shape() && p < |dest|
      modifies cache
      ensures cache.Valid()
      ensures bulk || !useXbzrle ==> cache.items == old(cache.items)
      ensures !bulk && useXbzrle && old(Find(cache.items, p)).Some? ==> Find(cache.items, p) == Some(ZeroPage())
      ensures Find(cache.items, p) == Some(ZeroPage()) || Find(cache.items, p) == old(Find(cache.items, p))
      ensures !bulk && useXbzrle && Find(cache.items, p) == None ==> NoSlot(old(cache.items), p)
      ensures forall a: nat :: a != p ==>
                Find(cache.items, a) == old(Find(cache.items, a)) || Find(cache.items, a) == None
    {
      if bulk || !useXbzrle {
        return;
      }
      var r := cache.Insert(p, ZeroPage(), syncCount);
    }

    /** The hit path of save_xbzrle_page. */
    method SaveDelta(b: nat, off: nat, last: bool, prev: Page, cur: Page) returns (pages: int, data: Page)
      requires Shape() && b < |tracker.blocks| && off < tracker.blocks[b].pages
      requires var p := tracker.blocks[b].base + off;
               && Find(cache.items, p) == Some(prev) && prev == dest[p] && (cur == ram[p] || tracker.log[p])
      modifies this`stream, this`dest, cache
      ensures Shape() && pages in {-1, 0, 1}
      ensures SavedPage(tracker.blocks[b].base + off, b, off, pages, data,
                        old(stream), old(dest), old(cache.items), last)
      ensures ChosenBy(prev, cur, pages)
      ensures pages == 1 ==> stream == old(stream) + [Record(b, off, Delta(Xbzrle.Encode(prev, cur)), b == lastSent)]
      ensures last || pages == 0 ==> cache.items == old(cache.items)
      ensures !last && pages != 0 ==>
                Find(cache.items, tracker.blocks[b].base + off) == Some(if pages == 1 then cur else data)
    {
      hide Replay, Loaded, Xbzrle.Encode, Xbzrle.Decode;
      var p := tracker.blocks[b].base + off;
      data := cur;
      var len, code := Xbzrle.EncodeBuffer(prev, cur, PAGE_SIZE);
      Xbzrle.EmptyMeansSame(prev, cur);
      if len == 0 {
        return 0, data;
      }
      if len == -1 {
        data := GuestRead(p);
        if !last {
          cache.Overwrite(p, data);
        }
        return -1, data;
      }
      if !last {
        cache.Overwrite(p, cur);
      }
      DeltaLoads(prev, cur, code);
      Emit(b, off, Delta(code), cur);
      return 1, data;
    }

    /** What saving page `p` may have done so far: `pages` as save_xbzrle_page returns it,
        with `data` still to be sent if it is -1. */
    ghost predicate SavedPage(p: nat, b: nat, off: nat, pages: int, data: Page,
                              stream0: seq<Record>, dest1: seq<Page>, items0: seq<Item>, last: bool)
      reads this, tracker, cache
    {
      && p < |dest1| == |ram| == |dest| == |tracker.log| && 0 < |items0| && 0 < |cache.items|
      && (pages == 1 ==> Extends(stream0, stream, b, off, lastSent))
      && (pages != 1 ==> stream == stream0)
      && dest == dest1[p := dest[p]] && (pages != 1 ==> dest == dest1)
      && (if pages == -1 then data == ram[p] || tracker.log[p] else Delivered(ram, dest, tracker.log, p))
      && CacheFollows(items0, cache.items, p, last, if pages == -1 then data else dest[p])
    }

    /** save_xbzrle_page: 1 if a delta was sent, 0 if the page is what was sent before, -1
        if the page must be sent whole, as `data`. */
    method SaveXbzrlePage(b: nat, off: nat, last: bool) returns (pages: int, data: Page, ghost seen: Page)
      requires Shape() && b < |tracker.blocks| && off < tracker.blocks[b].pages
      requires Coherent(cache.items, dest, tracker.bits, last, tracker.blocks[b].base + off)
      modifies this`stream, this`dest, cache
      ensures Shape() && pages in {-1, 0, 1}
      ensures SavedPage(tracker.blocks[b].base + off, b, off, pages, data,
                        old(stream), old(dest), old(cache.items), last)
      ensures var cached := old(Find(cache.items, tracker.blocks[b].base + off));
              && (cached == None ==> pages == -1)
              && (cached.Some? ==> ChosenBy(cached.value, seen, pages))
              && (pages == 1 ==>
                    && cached.Some?
                    && stream ==
                       old(stream) + [Record(b, off, Delta(Xbzrle.Encode(cached.value, seen)), b == lastSent)])
      ensures seen == ram[tracker.blocks[b].base + off] || tracker.log[tracker.blocks[b].base + off]
      ensures last ==> forall a: nat :: Find(cache.items, a) == old(Find(cache.items, a))
      ensures !last && Find(cache.items, tracker.blocks[b].base + off) == None ==>
                NoSlot(old(cache.items), tracker.blocks[b].base + off)
    {
      hide Replay, Xbzrle.Encode, Xbzrle.NoRoom;
      var p := tracker.blocks[b].base + off;
      data := GuestRead(p);
      seen := data;
      var hit := cache.IsCached(p, syncCount);
      if !hit {
        if !last {
          var r := cache.Insert(p, data, syncCount);
          if r == -1 {
            data := GuestRead(p);
          }
        }
        return -1, data, seen;
      }
      var prev := Find(cache.items, p).value;
      pages, data := SaveDelta(b, off, last, prev, data);
    }

    lemma XbzrleSaved(p: nat, b: nat, off: nat, pages: int, data: Page,
                      stream0: seq<Record>, dest1: seq<Page>, items0: seq<Item>, last: bool)
      requires SavedPage(p, b, off, pages, data, stream0, dest1, items0, last)
      requires |dest1| == |tracker.bits| && Coherent(items0, dest1, tracker.bits, last, p) && !tracker.bits[p]
      ensures pages == 1 ==> Extends(stream0, stream, b, off, lastSent)
      ensures pages != 1 ==> stream == stream0 && dest == dest1
      ensures dest == dest1[p := dest[p]]
      ensures if pages == -1 then data == ram[p] || tracker.log[p] else Delivered(ram, dest, tracker.log, p)
      ensures Coherent(cache.items, if pages == -1 then dest[p := data] else dest, tracker.bits, last, -1)
    {
      CoherentAfter(items0, cache.items, dest1, tracker.bits, last, p, if pages == -1 then data else dest[p]);
    }

    /** ram_save_page: afterwards the destination's copy of the page is what was read here,
        or the page was unchanged; the cache follows.  `first` is what the test for zeros saw,
        `seen` what the encoder saw. */
    method SavePage(b: nat, off: nat, last: bool) returns (pages: int, ghost first: Page, ghost seen: Page)
      requires Shape() && b < |tracker.blocks| && off < tracker.blocks[b].pages
      requires Coherent(cache.items, dest, tracker.bits, last, tracker.blocks[b].base + off)
      requires !tracker.bits[tracker.blocks[b].base + off] && (bulk || !useXbzrle ==> CacheEmpty())
      modifies this`stream, this`dest, cache
      ensures Shape() && pages in {0, 1}
      ensures pages == 1 ==> Extends(old(stream), stream, b, off, lastSent)
      ensures pages == 0 ==> stream == old(stream) && dest == old(dest)
      ensures dest == old(dest)[tracker.blocks[b].base + off := dest[tracker.blocks[b].base + off]]
      ensures Delivered(ram, dest, tracker.log, tracker.blocks[b].base + off)
      ensures Coherent(cache.items, dest, tracker.bits, last, -1)
      ensures bulk || !useXbzrle ==> CacheEmpty()
      ensures old(Find(cache.items, tracker.blocks[b].base + off)) == None ==> pages == 1
      ensures var p := tracker.blocks[b].base + off; (first == ram[p] && seen == ram[p]) || tracker.log[p]
      ensures RightKind(!bulk && useXbzrle, old(Find(cache.items, tracker.blocks[b].base + off)), first, seen, pages,
                        if pages == 1 then stream[|stream| - 1].kind else Zero,
                        dest[tracker.blocks[b].base + off])
    {
      hide Replay, SavedPage, Xbzrle.Decode, Xbzrle.Encode, Xbzrle.NoRoom;
      var p := tracker.blocks[b].base + off;
      ghost var items0, dest1, stream0 := cache.items, dest, stream;
      pages := -1;
      var data := GuestRead(p);
      first, seen := data, data;
      if data == ZeroPage() {
        Emit(b, off, Zero, ZeroPage());
        pages := 1;
        CacheZeroPage(p);
        CoherentAfter(items0, cache.items, dest1, tracker.bits, last, p, ZeroPage());
      } else {
        if !bulk && useXbzrle {
          pages, data, seen := SaveXbzrlePage(b, off, last);
          XbzrleSaved(p, b, off, pages, data, stream0, dest1, items0, last);
        } else {
          data := GuestRead(p);
          CoherentAfter(items0, cache.items, dest1, tracker.bits, last, p, data);
        }
        if pages == -1 {
          Emit(b, off, Full(data), data);
          pages := 1;
        }
      }
    }

    /** The page the last search stopped at is clean. */
    ghost predicate AtRest()
      requires tracker.Shape() && -1 <= lastSeen < |tracker.blocks|
      reads this, tracker
    {
      && lastSeen >= 0
      && (lastOffset < tracker.blocks[lastSeen].pages ==> !tracker.bits[tracker.blocks[lastSeen].base + lastOffset])
    }

    /** The state from which a search would clear a page and not send it. */
    ghost predicate LossyNow()
      requires tracker.Shape() && -1 <= lastSeen < |tracker.blocks|
      reads this, tracker
    {
      Lossy(tracker.bits, tracker.blocks, bulk, lastSeen, lastOffset)
    }

    /** Clears the bit found and saves the page. */
    method TakePage(b: nat, off: nat, last: bool) returns (pages: int)
      requires Shape() && ContOk(tracker.blocks, stream, lastSent) && b < |tracker.blocks|
      requires off < tracker.blocks[b].pages
      requires !tracker.bits[tracker.blocks[b].base + off]
      requires Coherent(cache.items, dest, tracker.bits[tracker.blocks[b].base + off := true], last, -1)
      requires bulk || !useXbzrle ==> CacheEmpty()
      modifies this`stream, this`dest, this`lastSent, cache
      ensures Shape() && pages in {0, 1} && ContOk(tracker.blocks, stream, lastSent)
      ensures Coherent(cache.items, dest, tracker.bits, last, -1)
      ensures bulk || !useXbzrle ==> CacheEmpty()
      ensures pages == 0 ==> stream == old(stream) && dest == old(dest)
      ensures var before := tracker.bits[tracker.blocks[b].base + off := true];
              NothingLost(tracker.blocks, ram, old(dest), tracker.log, before, lost) ==> Safe()
      ensures old(Find(cache.items, tracker.blocks[b].base + off)) == None ==> pages == 1
    {
      hide Replay;
      ghost var x := tracker.blocks[b].base + off;
      CoherentClear(cache.items, dest, tracker.bits, last, x);
      ghost var dest1, stream0 := dest, stream;
      ghost var first, seen;
      pages, first, seen := SavePage(b, off, last);
      LostNothing(tracker.blocks, ram, dest1, dest, tracker.log, tracker.bits, x, lost);
      if pages > 0 {
        ContMore(tracker.blocks, stream0, stream, b, off, lastSent);
        lastSent := b;
      }
    }

    /** Between two turns of the search loop. */
    ghost predicate Midway(last: bool, wasBulk: bool, complete: bool, b: nat, off: nat)
      reads this, tracker, cache
    {
      && Shape() && Searching(tracker.bits, tracker.blocks, lastSeen, lastOffset, wasBulk, complete, bulk, b, off)
      && ContOk(tracker.blocks, stream, lastSent) && Coherent(cache.items, dest, tracker.bits, last, -1)
      && (wasBulk || !useXbzrle ==> CacheEmpty())
    }

    /** After the search loop, at page `off` of block `b`. */
    ghost predicate Ended(last: bool, b: nat, off: nat)
      reads this, tracker, cache
    {
      && Shape() && ContOk(tracker.blocks, stream, lastSent) && Coherent(cache.items, dest, tracker.bits, last, -1)
      && (bulk || !useXbzrle ==> CacheEmpty())
      && b < |tracker.blocks| && off <= tracker.blocks[b].pages
      && (bulk ==> BulkOk(tracker.bits, tracker.blocks, b, off))
      && (off < tracker.blocks[b].pages ==> !tracker.bits[tracker.blocks[b].base + off])
    }

    /** One turn of the search loop of ram_find_and_save_block. */
    method SearchTurn(last: bool, ghost wasBulk: bool, complete: bool, b: nat, off: nat)
      returns (pages: int, done: bool, complete': bool, b': nat, off': nat)
      requires Midway(last, wasBulk, complete, b, off)
      modifies this`stream, this`dest, this`lastSent, this`bulk, tracker`bits, tracker`count, cache
      ensures Shrunk(old(tracker.bits), tracker.bits) && pages in {0, 1}
      ensures old(tracker.CounterOk()) ==> tracker.CounterOk()
      ensures !done ==> Midway(last, wasBulk, complete', b', off') && pages == 0 && (old(Safe()) ==> Safe())
      ensures !done && wasBulk ==> tracker.bits == old(tracker.bits) && dest == old(dest)
      ensures !done ==>
                || (complete' && !complete)
                || (complete' == complete && b < b')
                || (complete' == complete && b == b'
                    && Count(tracker.bits, tracker.blocks, |tracker.bits|) <
                         Count(old(tracker.bits), tracker.blocks, |tracker.bits|))
      ensures done ==> Ended(last, b', off')
      ensures tracker.Shape() && -1 <= lastSeen < |tracker.blocks| && b' < |tracker.blocks|
      ensures done ==> Outcome(old(Safe()), wasBulk, old(tracker.bits), old(dest), pages)
      ensures Fewer(tracker.blocks, old(tracker.bits), tracker.bits, done && pages == 1)
      ensures LossyAt(old(tracker.bits), wasBulk) ==> wasBulk
      ensures !wasBulk ==> !bulk
      ensures old(Ordered(tracker.bits, tracker.blocks, lastSeen, lastOffset, bulk, false, b, off)) ==>
                && Ordered(old(tracker.bits), tracker.blocks, lastSeen, lastOffset, bulk, done, b', off')
                && (done && HasNext(old(tracker.bits), tracker.blocks, lastSeen, lastOffset) ==> pages == 1)
      ensures done && pages == 1 ==> Took(old(tracker.bits), b', off')
      ensures Moves(old(tracker.bits), tracker.bits, tracker.blocks, complete, b, off, complete', b', off')
      ensures done && pages == 1 && !bulk ==> RoundDone(wasBulk, complete', b', off')
    {
      hide Replay, Searching, Coherent, NothingLost, ContOk, Lossy, BulkOk, NoneDirty, Count, BlocksOk,
           HasNext, Ordered, Ended, Outcome, CleanRound, Moves;
      ghost var bits1, seen, from := tracker.bits, lastSeen, lastOffset;
      var blocks := tracker.blocks;
      BoundsOf(bits1, blocks, seen, from, wasBulk, complete, bulk, b, off);
      OnlyBulkLossy(bits1, blocks, wasBulk, seen, from);
      FoundDirty(bits1, blocks, seen, from, wasBulk, complete, bulk, b, off);
      TurnInOrder(bits1, blocks, seen, from, wasBulk, complete, bulk, b, off);
      pages, done, complete', b' := 0, false, complete, b;
      off' := tracker.FindAndResetDirty(blocks[b], off, bulk);
      MovesOn(bits1, tracker.bits, blocks, complete, b, off, off');
      if complete && b == lastSeen && off' >= lastOffset {
        TurnOver(last, wasBulk, b, off, off', bits1);
        done := true;
        return;
      }
      if off' >= blocks[b].pages {
        complete', b' := BlockDone(last, wasBulk, complete, b, off);
        MovesNext(bits1, blocks, complete, b, off, complete', b');
        off' := 0;
        return;
      }
      pages, done := FoundTurn(last, wasBulk, complete, b, off, off', bits1);
    }

    /** The page just taken is the next dirty one in the round. */
    ghost predicate RoundDone(wasBulk: bool, complete: bool, b: nat, off: nat)
      reads this, tracker
    {
      if wasBulk then complete && CleanRound(tracker.bits, tracker.blocks, |tracker.blocks|, 0, true, b, off)
      else && complete == !NotAfter(lastSeen, lastOffset, b, off)
           && CleanRound(tracker.bits, tracker.blocks, lastSeen, lastOffset, complete, b, off)
    }

    /** The turn of the loop that has come round to where the search began. */
    lemma TurnOver(last: bool, wasBulk: bool, b: nat, off: nat, next: nat, bits1: seq<bool>)
      requires Shape() && !bulk && Searching(bits1, tracker.blocks, lastSeen, lastOffset, wasBulk, true, false, b, off)
      requires b < |tracker.blocks| && off <= tracker.blocks[b].pages
      requires tracker.blocks[b].base + tracker.blocks[b].pages <= |bits1|
      requires next == Next(bits1, tracker.blocks[b], off, false) && Exhausted(true, b, next, lastSeen, lastOffset)
      requires tracker.bits ==
               if next < tracker.blocks[b].pages then bits1[tracker.blocks[b].base + next := false] else bits1
      requires ContOk(tracker.blocks, stream, lastSent) && Coherent(cache.items, dest, bits1, last, -1)
      requires !useXbzrle ==> CacheEmpty()
      ensures Ended(last, b, next) && Fewer(tracker.blocks, bits1, tracker.bits, false)
      ensures -1 <= lastSeen < |tracker.blocks|
      ensures Outcome(NothingLost(tracker.blocks, ram, dest, tracker.log, bits1, lost), wasBulk, bits1, dest, 0)
    {
      hide Replay, Searching, Coherent, NothingLost, ContOk, Lossy, BulkOk, NoneDirty, Count, BlocksOk;
      CoherentShrunk(cache.items, dest, bits1, tracker.bits, last);
      FewerShrunk(tracker.blocks, bits1, tracker.bits, |bits1|);
      BoundsOf(bits1, tracker.blocks, lastSeen, lastOffset, wasBulk, true, false, b, off);
      OnlyBulkLossy(bits1, tracker.blocks, wasBulk, lastSeen, lastOffset);
      SearchOver(bits1, tracker.blocks, lastSeen, lastOffset, wasBulk, b, off);
    }

    /** The turn of the loop that has come to the end of block `b`. */
    method BlockDone(ghost last: bool, ghost wasBulk: bool, complete: bool, b: nat, ghost off: nat)
      returns (complete': bool, b': nat)
      requires Midway(last, wasBulk, complete, b, off)
      requires tracker.blocks[b].base + tracker.blocks[b].pages <= |tracker.bits|
      requires Next(tracker.bits, tracker.blocks[b], off, bulk) >= tracker.blocks[b].pages
      requires !Exhausted(complete, b, Next(tracker.bits, tracker.blocks[b], off, bulk), lastSeen, lastOffset)
      modifies this`bulk
      ensures Midway(last, wasBulk, complete', b', 0) && (!wasBulk ==> !bulk) && b' < |tracker.blocks|
      ensures (complete' && !complete) || (complete' == complete && b < b')
      ensures bulk == (old(bulk) && b + 1 < |tracker.blocks|) && b' == if b + 1 < |tracker.blocks| then b + 1 else 0
    {
      hide Replay, Searching, Coherent, ContOk, Lossy, BulkOk, Count, BlocksOk;
      BoundsOf(tracker.bits, tracker.blocks, lastSeen, lastOffset, wasBulk, complete, bulk, b, off);
      if b + 1 < |tracker.blocks| {
        SearchNextBlock(tracker.bits, tracker.blocks, lastSeen, lastOffset, wasBulk, complete, bulk, b, off);
        complete', b' := complete, b + 1;
      } else {
        SearchWrap(tracker.bits, tracker.blocks, lastSeen, lastOffset, wasBulk, complete, bulk, b, off);
        complete', b', bulk := true, 0, false;
      }
    }

    /** The turn of the loop that has found page `next` of block `b`. */
    method FoundTurn(last: bool, ghost wasBulk: bool, complete: bool, b: nat, ghost off: nat, next: nat,
                     ghost bits1: seq<bool>)
      returns (pages: int, done: bool)
      requires Shape() && b < |tracker.blocks| && off <= tracker.blocks[b].pages && next < tracker.blocks[b].pages
      requires Searching(bits1, tracker.blocks, lastSeen, lastOffset, wasBulk, complete, bulk, b, off)
      requires tracker.blocks[b].base + tracker.blocks[b].pages <= |bits1|
      requires next == Next(bits1, tracker.blocks[b], off, bulk) && !Exhausted(complete, b, next, lastSeen, lastOffset)
      requires bits1[tracker.blocks[b].base + next] && tracker.bits == bits1[tracker.blocks[b].base + next := false]
      requires ContOk(tracker.blocks, stream, lastSent) && Coherent(cache.items, dest, bits1, last, -1)
      requires wasBulk || !useXbzrle ==> CacheEmpty()
      modifies this`stream, this`dest, this`lastSent, cache
      ensures pages in {0, 1} && -1 <= lastSeen < |tracker.blocks|
      ensures NothingLost(tracker.blocks, ram, old(dest), tracker.log, bits1, lost) ==> Safe()
      ensures !done ==> Midway(last, wasBulk, complete, b, next) && pages == 0 && !wasBulk
      ensures Count(tracker.bits, tracker.blocks, |tracker.bits|) < Count(bits1, tracker.blocks, |bits1|)
      ensures done ==> pages == 1 && Ended(last, b, next)
      ensures done && !bulk ==> RoundDone(wasBulk, complete, b, next)
      ensures done ==>
                Outcome(NothingLost(tracker.blocks, ram, old(dest), tracker.log, bits1, lost), wasBulk, bits1,
                        old(dest), 1)
    {
      hide Replay, Searching, Coherent, NothingLost, ContOk, Lossy, BulkOk, NoneDirty, Count, BlocksOk,
           HasNext, InOrder, CleanRound;
      ghost var seen, from := lastSeen, lastOffset;
      if !bulk {
        RoundSoFar(bits1, tracker.blocks, seen, from, wasBulk, complete, b, off);
      }
      ghost var x := tracker.blocks[b].base + next;
      BoundsOf(bits1, tracker.blocks, seen, from, wasBulk, complete, bulk, b, off);
      assert tracker.bits[x := true] == bits1;
      CountUpdate(bits1, tracker.blocks, |bits1|, x, false);
      assert Used(tracker.blocks, x) by { assert In(tracker.blocks[b], x); }
      pages := TakePage(b, next, last);
      done := pages > 0;
      if done {
        SearchSent(bits1, tracker.blocks, seen, from, wasBulk, complete, bulk, b, off, x);
      } else {
        SearchSkip(bits1, tracker.blocks, seen, from, complete, b, off, x);
      }
    }

    /** The loop of ram_find_and_save_block; it stops at page `off` of block `b`. */
    method SearchLoop(last: bool) returns (pages: int, b: nat, off: nat)
      requires Inv(last)
      modifies this`stream, this`dest, this`lastSent, this`bulk, tracker`bits, tracker`count, cache
      ensures Ended(last, b, off) && Shrunk(old(tracker.bits), tracker.bits)
      ensures old(tracker.CounterOk()) ==> tracker.CounterOk()
      ensures Outcome(old(Safe()), old(bulk), old(tracker.bits), old(dest), pages)
      ensures Fewer(tracker.blocks, old(tracker.bits), tracker.bits, pages == 1) && (!old(bulk) ==> !bulk)
      ensures old(bulk) ==>
                && Ordered(old(tracker.bits), tracker.blocks, lastSeen, lastOffset, bulk, true, b, off)
                && (HasNext(old(tracker.bits), tracker.blocks, lastSeen, lastOffset) ==>
                      pages == 1 && Took(old(tracker.bits), b, off))
      ensures pages == 1 && !bulk ==> NextInRound(old(tracker.bits), tracker.bits, tracker.blocks,
                                                  if old(bulk) then |tracker.blocks| else lastSeen,
                                                  if old(bulk) then 0 else lastOffset, b, off)
    {
      hide Replay, Searching, Coherent, NothingLost, ContOk, Lossy, BulkOk, NoneDirty, Count, BlocksOk,
           HasNext, Ordered, CleanRound, Swept, Moves;
      ghost var bits0, seen, from, wasBulk, safe := tracker.bits, lastSeen, lastOffset, bulk, Safe();
      var complete, done := false, false;
      b, off, pages := if lastSeen == -1 then 0 else lastSeen, lastOffset, 0;
      SearchStart(tracker.bits, tracker.blocks, seen, from, bulk);
      assert wasBulk ==> Ordered(bits0, tracker.blocks, seen, from, true, false, b, off) by {
        StartInOrder(bits0, tracker.blocks, seen, from);
      }
      OnlyBulkLossy(tracker.bits, tracker.blocks, bulk, seen, from);
      SweepStart(bits0, tracker.blocks, seen, from, false, b, off);
      while !done
        invariant !done ==> Midway(last, wasBulk, complete, b, off) && pages == 0 && (safe ==> Safe())
        invariant !done && wasBulk ==> tracker.bits == bits0 && dest == old(dest)
        invariant done ==> Ended(last, b, off)
        invariant (!wasBulk ==> !bulk) && Shrunk(bits0, tracker.bits) && tracker.Shape()
        invariant old(tracker.CounterOk()) ==> tracker.CounterOk()
        invariant Fewer(tracker.blocks, bits0, tracker.bits, done && pages == 1)
        invariant done ==> Outcome(safe, wasBulk, bits0, old(dest), pages)
        invariant wasBulk ==> Ordered(bits0, tracker.blocks, seen, from, bulk, done, b, off)
        invariant wasBulk && done && HasNext(bits0, tracker.blocks, seen, from) ==> pages == 1
        invariant wasBulk && done && pages == 1 ==> Took(bits0, b, off)
        invariant !wasBulk ==> Swept(bits0, tracker.bits, tracker.blocks, seen, from, complete, b, off)
        invariant !wasBulk && !done && !complete ==> NotAfter(seen, from, b, off)
        invariant done && pages == 1 && !bulk ==> RoundDone(wasBulk, complete, b, off)
        decreases !done, !complete, |tracker.blocks| - b, Count(tracker.bits, tracker.blocks, |tracker.bits|)
      {
        ghost var bits1, complete1, b1, off1 := tracker.bits, complete, b, off;
        pages, done, complete, b, off := SearchTurn(last, wasBulk, complete, b, off);
        if !wasBulk {
          SweepOn(bits0, bits1, tracker.bits, tracker.blocks, seen, from, complete1, b1, off1, complete, b, off);
          if !done {
            StillOn(tracker.bits, tracker.blocks, seen, from, complete, b, off);
          }
        }
      }
      if wasBulk && pages == 1 && !bulk {
        TookSwept(bits0, tracker.blocks, b, off);
      }
    }

    /** ram_find_and_save_block: sends one page, or nothing.  If it returns 0, no page in
        use is dirty.  It clears no bit without sending the page or finding it unchanged,
        except in exactly the state `LossyNow`, where it loses the page it last sent, unless
        the log holds that page again. */
    method FindAndSaveBlock(last: bool) returns (pages: int)
      requires Inv(last)
      modifies this`stream, this`dest, this`lastSent, this`lastSeen, this`lastOffset, this`bulk, this`lost,
               tracker`bits, tracker`count, cache
      ensures Inv(last) && pages in {0, 1}
      ensures old(tracker.CounterOk()) ==> tracker.CounterOk()
      ensures old(Safe()) ==> Safe()
      ensures pages == 0 ==> NoneDirty(tracker.bits, tracker.blocks)
      ensures !old(LossyNow()) ==> lost == old(lost)
      ensures !old(bulk) ==> !bulk && !old(LossyNow())
      ensures old(bulk) && old(HasNext(tracker.bits, tracker.blocks, lastSeen, lastOffset)) ==>
                && bulk && pages == 1
                && InOrder(old(tracker.bits), tracker.blocks, old(lastSeen), old(lastOffset), true,
                           lastSeen, lastOffset)
                && Took(old(tracker.bits), lastSeen, lastOffset)
      ensures old(bulk) && !old(HasNext(tracker.bits, tracker.blocks, lastSeen, lastOffset)) ==> !bulk
      ensures pages == 1 && !bulk ==> NextInRound(old(tracker.bits), tracker.bits, tracker.blocks,
                                                  if old(bulk) then |tracker.blocks| else old(lastSeen),
                                                  if old(bulk) then 0 else old(lastOffset), lastSeen, lastOffset)
      ensures old(LossyNow()) ==>
                && pages == 0 && dest == old(dest) && Forgets(tracker.log, lost)
                && tracker.blocks[old(lastSeen)].base + old(lastOffset) == LastPage(tracker.blocks)
                && tracker.bits == old(tracker.bits)[tracker.blocks[old(lastSeen)].base + old(lastOffset) := false]
      ensures Shrunk(old(tracker.bits), tracker.bits) && AtRest()
      ensures Fewer(tracker.blocks, old(tracker.bits), tracker.bits, pages == 1)
    {
      hide Replay, Coherent, NothingLost, ContOk, Lossy, BulkOk, NoneDirty, Count, BlocksOk, Shrunk, Fewer,
           HasNext, InOrder, NextInRound;
      ghost var bits0, wasBulk := tracker.bits, bulk;
      OnlyBulkLossy(tracker.bits, tracker.blocks, bulk, lastSeen, lastOffset);
      var b, off;
      pages, b, off := SearchLoop(last);
      ForgottenStill(bits0, tracker.bits, tracker.log, lost);
      if LossyAt(bits0, wasBulk) {
        LostOne(tracker.blocks, ram, dest, tracker.log, bits0, wasBulk, lastSeen, lastOffset, lost);
        lost := if tracker.log[LastPage(tracker.blocks)] then -1 else LastPage(tracker.blocks);
      }
      lastSeen, lastOffset := b, off;
    }

    /** Of the bits of `bits0` exactly that of page `off` of block `b` was cleared. */
    ghost predicate Took(bits0: seq<bool>, b: nat, off: nat)
      reads this, tracker
    {
      && b < |tracker.blocks| && off < tracker.blocks[b].pages && tracker.blocks[b].base + off < |bits0|
      && tracker.bits == bits0[tracker.blocks[b].base + off := false]
    }

    /** What a search that began with the bitmap `bits0` has done by its end. */
    ghost predicate Outcome(safe: bool, wasBulk: bool, bits0: seq<bool>, dest1: seq<Page>, pages: int)
      requires tracker.Shape() && |bits0| == |tracker.bits| && -1 <= lastSeen < |tracker.blocks|
      reads this, tracker
    {
      && pages in {0, 1}
      && if LossyAt(bits0, wasBulk) then
           && pages == 0 && !bulk && dest == dest1
           && 0 <= lastSeen && tracker.blocks[lastSeen].base + lastOffset < |bits0|
           && tracker.bits == bits0[tracker.blocks[lastSeen].base + lastOffset := false]
         else
           && (safe ==> Safe())
           && (pages == 0 ==> NoneDirty(tracker.bits, tracker.blocks))
    }

    /** The last page is lost unless the log has it. */
    ghost predicate Forgets(log: seq<bool>, lost': int)
      reads this
    {
      && 0 <= LastPage(tracker.blocks) < |log|
      && lost' == if log[LastPage(tracker.blocks)] then -1 else LastPage(tracker.blocks)
    }

    ghost predicate LossyAt(bits: seq<bool>, wasBulk: bool)
      reads this
      requires BlocksOk(tracker.blocks, |bits|) && -1 <= lastSeen < |tracker.blocks|
    {
      Lossy(bits, tracker.blocks, wasBulk, lastSeen, lastOffset)
    }
  }

  /** How the delta encoder decides: 0 for a page unchanged, -1 if the encoding has no room. */
  ghost predicate ChosenBy(prev: Page, seen: Page, pages: int)
  {
    (pages == 0 <==> prev == seen) && (pages == -1 <==> Xbzrle.NoRoom(prev, seen, PAGE_SIZE))
  }

  /** A zero page goes as such; one with a cached copy as a delta, or not at all if it is
      unchanged, or whole if the delta has no room; any other whole. */
  ghost predicate RightKind(useDelta: bool, cached: Option<Page>, first: Page, seen: Page, pages: int, kind: Kind,
                            now: Page)
  {
    if first == ZeroPage() then pages == 1 && kind == Zero
    else if useDelta && cached.Some? then
      && (pages == 0 <==> cached.value == seen)
      && (pages == 1 ==> kind == if Xbzrle.NoRoom(cached.value, seen, PAGE_SIZE) then Full(now)
                                 else Delta(Xbzrle.Encode(cached.value, seen)))
    else pages == 1 && kind == Full(now)
  }

  ghost predicate Extends(stream0: seq<Record>, stream: seq<Record>, b: nat, off: nat, sent: int)
  {
    && |stream| == |stream0| + 1 && stream[..|stream0|] == stream0
    && var r := stream[|stream0|];
       && r.block == b && r.page == off && r.cont == (b == sent)
       && (r.kind.Delta? ==> |r.kind.code| <= PAGE_SIZE)
  }

  /** Other pages keep their copy or lose it; page `p` has the copy `page` or, unless this
      is the last stage, none. */
  ghost predicate CacheFollows(items0: seq<Item>, items: seq<Item>, p: nat, last: bool, page: Page)
    requires 0 < |items0| && 0 < |items|
  {
    && (forall a: nat :: a != p ==> Find(items, a) == Find(items0, a) || Find(items, a) == None)
    && (!last ==> Find(items, p) == None || Find(items, p) == Some(page))
  }

  /** Coherence survives the sending of page `p`. */
  lemma CoherentAfter(items0: seq<Item>, items: seq<Item>, dest: seq<Page>, bits: seq<bool>, last: bool, p: nat,
                      page: Page)
    requires p < |dest| && 0 < |items| && Coherent(items0, dest, bits, last, p) && !bits[p]
    requires CacheFollows(items0, items, p, last, page)
    ensures Coherent(items, dest[p := page], bits, last, -1)
  {
  }

  lemma CoherentClear(items: seq<Item>, dest: seq<Page>, bits: seq<bool>, last: bool, x: nat)
    requires x < |bits| && Coherent(items, dest, bits[x := true], last, -1)
    ensures Coherent(items, dest, bits, last, x)
  {
  }

  lemma LostNothing(blocks: seq<Block>, ram: seq<Page>, dest: seq<Page>, dest': seq<Page>, log: seq<bool>,
                    bits: seq<bool>, x: nat, lost: int)
    requires x < |bits| == |ram| == |dest| == |dest'| == |log| && dest' == dest[x := dest'[x]]
    requires Delivered(ram, dest', log, x)
    ensures NothingLost(blocks, ram, dest, log, bits[x := true], lost) ==>
              NothingLost(blocks, ram, dest', log, bits, lost)
  {
  }

  lemma LostOne(blocks: seq<Block>, ram: seq<Page>, dest: seq<Page>, log: seq<bool>, bits: seq<bool>, bulk: bool,
                seen: int, from: nat, lost: int)
    requires BlocksOk(blocks, |bits|) && -1 <= seen < |blocks| && Lossy(bits, blocks, bulk, seen, from)
    ensures blocks[seen].base + from == LastPage(blocks) < |bits|
    ensures NoneDirty(bits[LastPage(blocks) := false], blocks)
    ensures lost == -1 && NothingLost(blocks, ram, dest, log, bits, lost) ==>
              var bits' := bits[LastPage(blocks) := false];
              NothingLost(blocks, ram, dest, log, bits', if log[LastPage(blocks)] then -1 else LastPage(blocks))
  {
  }

  lemma ContMore(blocks: seq<Block>, stream0: seq<Record>, stream: seq<Record>, b: nat, off: nat, sent: int)
    requires ContOk(blocks, stream0, sent) && Extends(stream0, stream, b, off, sent)
    requires b < |blocks| && off < blocks[b].pages
    ensures ContOk(blocks, stream, b)
  {
    assert forall i :: 0 <= i < |stream0| ==> stream[i] == stream0[i];
  }

  ghost predicate Shrunk(bits0: seq<bool>, bits: seq<bool>)
  {
    |bits| == |bits0| && forall p :: 0 <= p < |bits| && bits[p] ==> bits0[p]
  }

  lemma ForgottenStill(bits0: seq<bool>, bits: seq<bool>, log: seq<bool>, p: int)
    requires Shrunk(bits0, bits)
    ensures Forgotten(bits0, log, p) ==> Forgotten(bits, log, p)
  {
  }

  lemma CoherentShrunk(items: seq<Item>, dest: seq<Page>, bits: seq<bool>, bits': seq<bool>, last: bool)
    requires Coherent(items, dest, bits, last, -1) && Shrunk(bits, bits')
    ensures Coherent(items, dest, bits', last, -1)
  {
  }

  /** No more dirty pages than before; fewer if `strictly`. */
  ghost predicate Fewer(blocks: seq<Block>, bits0: seq<bool>, bits: seq<bool>, strictly: bool)
  {
    && Count(bits, blocks, |bits|) <= Count(bits0, blocks, |bits0|)
    && (strictly ==> Count(bits, blocks, |bits|) < Count(bits0, blocks, |bits0|))
  }

  lemma {:induction false} FewerShrunk(blocks: seq<Block>, bits0: seq<bool>, bits: seq<bool>, n: nat)
    requires Shrunk(bits0, bits) && n <= |bits|
    ensures Count(bits, blocks, n) <= Count(bits0, blocks, n)
    decreases n
  {
    if n > 0 {
      FewerShrunk(blocks, bits0, bits, n - 1);
    }
  }
}
