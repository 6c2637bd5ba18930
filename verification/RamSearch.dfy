/** The order in which dirty pages are looked for (qemu/arch_init.c:447-469, 698-751).

    The facts about the search loop of ram_find_and_save_block, without the sending:
    `seen` and `from` are where the last call stopped, `wasBulk` says that the call began
    in the bulk stage. */
module RamSearch {
  import opened MigrationBitmap

  ghost predicate CleanIn(bits: seq<bool>, b: Block, lo: nat, hi: nat)
    requires b.base + hi <= |bits|
  {
    forall p :: b.base + lo <= p < b.base + hi ==> !bits[p]
  }

  /** All pages of the blocks `[lo, hi)` are clean. */
  ghost predicate CleanBlocks(bits: seq<bool>, blocks: seq<Block>, lo: nat, hi: nat)
    requires hi <= |blocks| && BlocksOk(blocks, |bits|)
  {
    forall i :: lo <= i < hi ==> CleanIn(bits, blocks[i], 0, blocks[i].pages)
  }

  ghost predicate AllSet(bits: seq<bool>, b: Block, lo: nat)
    requires b.base + b.pages <= |bits|
  {
    forall p :: b.base + lo <= p < b.base + b.pages ==> bits[p]
  }

  /** In the bulk stage nothing after the last page sent has been cleared. */
  ghost predicate BulkOk(bits: seq<bool>, blocks: seq<Block>, seen: int, from: nat)
    requires BlocksOk(blocks, |bits|) && -1 <= seen < |blocks|
  {
    && (seen >= 0 ==> from < blocks[seen].pages && AllSet(bits, blocks[seen], from + 1))
    && (forall i :: seen < i < |blocks| ==> AllSet(bits, blocks[i], 0))
  }

  ghost predicate NoneDirty(bits: seq<bool>, blocks: seq<Block>)
  {
    forall p :: 0 <= p < |bits| && Used(blocks, p) ==> !bits[p]
  }

  /** The only dirty page is the last one of the last block, and the last one sent. */
  ghost predicate BulkLast(bits: seq<bool>, blocks: seq<Block>, seen: int, from: nat)
    requires BlocksOk(blocks, |bits|) && 0 <= seen < |blocks| && from < blocks[seen].pages
  {
    && seen == |blocks| - 1 && 0 < from == blocks[seen].pages - 1 && bits[blocks[seen].base + from]
    && NoneDirty(bits[blocks[seen].base + from := false], blocks)
  }

  /** The state in which a call clears a page without sending it. */
  ghost predicate Lossy(bits: seq<bool>, blocks: seq<Block>, bulk: bool, seen: int, from: nat)
    requires BlocksOk(blocks, |bits|) && -1 <= seen < |blocks|
  {
    bulk && seen >= 0 && from < blocks[seen].pages && BulkLast(bits, blocks, seen, from)
  }

  /** Where the loop stands before it looks at block `b` from page `off` on. */
  ghost predicate Searching(bits: seq<bool>, blocks: seq<Block>, seen: int, from: nat, wasBulk: bool,
                            complete: bool, bulk: bool, b: nat, off: nat)
  {
    && BlocksOk(blocks, |bits|) && -1 <= seen < |blocks| && b < |blocks| && off <= blocks[b].pages
    && (seen >= 0 ==> from <= blocks[seen].pages)
    && (bulk ==> && wasBulk && !complete && BulkOk(bits, blocks, seen, from)
                 && ((b == seen && off == from) || (b == seen + 1 && off == 0)))
    && (!bulk && !complete ==> !wasBulk && 0 <= seen <= b && (b == seen ==> from <= off)
                               && CleanSince(bits, blocks, seen, from, b, off))
    && (complete ==> 0 <= b <= seen && (b == seen ==> off == 0 || off < from)
                     && CleanBlocks(bits, blocks, 0, b) && CleanIn(bits, blocks[b], 0, off)
                     && FirstPassDone(bits, blocks, seen, from, wasBulk))
  }

  /** Everything from where the last call stopped up to here is clean. */
  ghost predicate CleanSince(bits: seq<bool>, blocks: seq<Block>, seen: nat, from: nat, b: nat, off: nat)
    requires BlocksOk(blocks, |bits|) && seen <= b < |blocks| && off <= blocks[b].pages && from <= blocks[seen].pages
  {
    if b == seen then CleanIn(bits, blocks[b], from, off)
    else
      && CleanIn(bits, blocks[seen], from, blocks[seen].pages)
      && CleanBlocks(bits, blocks, seen + 1, b)
      && CleanIn(bits, blocks[b], 0, off)
  }

  /** What is known once the search has wrapped around. */
  ghost predicate FirstPassDone(bits: seq<bool>, blocks: seq<Block>, seen: int, from: nat, wasBulk: bool)
    requires BlocksOk(blocks, |bits|) && 0 <= seen < |blocks| && from <= blocks[seen].pages
  {
    if wasBulk then
      && seen == |blocks| - 1
      && (CleanIn(bits, blocks[seen], 0, blocks[seen].pages) || 0 < from == blocks[seen].pages - 1)
    else
      && CleanIn(bits, blocks[seen], from, blocks[seen].pages)
      && CleanBlocks(bits, blocks, seen + 1, |blocks|)
  }

  /** The page the loop takes next in block `b`. */
  function Next(bits: seq<bool>, blk: Block, off: nat, bulk: bool): nat
    requires off <= blk.pages && blk.base + blk.pages <= |bits|
  {
    if bulk && off > 0 then off + 1 else FindNext(bits, blk.base + off, blk.base + blk.pages) - blk.base
  }

  /** The end of the search: back at the start, with nothing found before it. */
  ghost predicate Exhausted(complete: bool, b: nat, next: nat, seen: int, from: nat)
  {
    complete && b == seen && next >= from
  }

  lemma SearchStart(bits: seq<bool>, blocks: seq<Block>, seen: int, from: nat, bulk: bool)
    requires BlocksOk(blocks, |bits|) && -1 <= seen < |blocks| && 0 < |blocks|
    requires seen >= 0 ==> from <= blocks[seen].pages
    requires seen == -1 ==> bulk && from == 0
    requires bulk ==> BulkOk(bits, blocks, seen, from)
    ensures Searching(bits, blocks, seen, from, bulk, false, bulk, if seen == -1 then 0 else seen, from)
  {
  }

  /** A page taken is dirty, even where the bulk stage does not look. */
  lemma FoundDirty(bits: seq<bool>, blocks: seq<Block>, seen: int, from: nat, wasBulk: bool,
                   complete: bool, bulk: bool, b: nat, off: nat)
    requires Searching(bits, blocks, seen, from, wasBulk, complete, bulk, b, off)
    ensures Next(bits, blocks[b], off, bulk) <= blocks[b].pages
    ensures Next(bits, blocks[b], off, bulk) < blocks[b].pages ==>
              bits[blocks[b].base + Next(bits, blocks[b], off, bulk)]
  {
  }

  /** A block without another dirty page is left behind. */
  lemma SearchNextBlock(bits: seq<bool>, blocks: seq<Block>, seen: int, from: nat, wasBulk: bool,
                        complete: bool, bulk: bool, b: nat, off: nat)
    requires Searching(bits, blocks, seen, from, wasBulk, complete, bulk, b, off)
    requires Next(bits, blocks[b], off, bulk) >= blocks[b].pages && b + 1 < |blocks|
    requires !Exhausted(complete, b, Next(bits, blocks[b], off, bulk), seen, from)
    ensures Searching(bits, blocks, seen, from, wasBulk, complete, bulk, b + 1, 0)
  {
    CleanRest(bits, blocks[b], off, bulk);
    if !bulk {
      var lo := if !complete && b == seen then from else 0;
      assert CleanIn(bits, blocks[b], lo, blocks[b].pages);
    }
  }

  lemma CleanRest(bits: seq<bool>, blk: Block, off: nat, bulk: bool)
    requires off <= blk.pages && blk.base + blk.pages <= |bits|
    ensures !(bulk && off > 0) && Next(bits, blk, off, bulk) >= blk.pages ==> CleanIn(bits, blk, off, blk.pages)
  {
  }

  /** After the last block the search goes on from the first, no longer in bulk. */
  lemma SearchWrap(bits: seq<bool>, blocks: seq<Block>, seen: int, from: nat, wasBulk: bool,
                   complete: bool, bulk: bool, b: nat, off: nat)
    requires Searching(bits, blocks, seen, from, wasBulk, complete, bulk, b, off)
    requires Next(bits, blocks[b], off, bulk) >= blocks[b].pages && b + 1 == |blocks|
    requires !Exhausted(complete, b, Next(bits, blocks[b], off, bulk), seen, from)
    ensures !complete
    ensures Searching(bits, blocks, seen, from, wasBulk, true, false, 0, 0)
  {
    CleanRest(bits, blocks[b], off, bulk);
    FoundDirty(bits, blocks, seen, from, wasBulk, complete, bulk, b, off);
  }

  lemma StillClean(bits: seq<bool>, blocks: seq<Block>, x: nat, lo: nat, hi: nat)
    requires hi <= |blocks| && BlocksOk(blocks, |bits|) && x < |bits| && CleanBlocks(bits, blocks, lo, hi)
    ensures CleanBlocks(bits[x := false], blocks, lo, hi)
  {
    forall i | lo <= i < hi
      ensures CleanIn(bits[x := false], blocks[i], 0, blocks[i].pages)
    {
      assert CleanIn(bits, blocks[i], 0, blocks[i].pages);
    }
  }

  /** A page found unchanged leaves the search where it is, one page cleaner. */
  lemma SearchSkip(bits: seq<bool>, blocks: seq<Block>, seen: int, from: nat, complete: bool, b: nat, off: nat, x: nat)
    requires Searching(bits, blocks, seen, from, false, complete, false, b, off)
    requires Next(bits, blocks[b], off, false) < blocks[b].pages
    requires x == blocks[b].base + Next(bits, blocks[b], off, false)
    requires !Exhausted(complete, b, Next(bits, blocks[b], off, false), seen, from)
    ensures Searching(bits[x := false], blocks, seen, from, false, complete, false, b,
                      Next(bits, blocks[b], off, false))
  {
    var next := Next(bits, blocks[b], off, false);
    assert CleanIn(bits[x := false], blocks[b], if !complete && b == seen then from else 0, next);
    if complete {
      StillClean(bits, blocks, x, 0, b);
      StillClean(bits, blocks, x, seen + 1, |blocks|);
    } else if seen < b {
      StillClean(bits, blocks, x, seen + 1, b);
    }
  }

  /** After sending in the bulk stage, everything ahead is still dirty. */
  lemma BulkSent(bits: seq<bool>, blocks: seq<Block>, seen: int, from: nat, b: nat, off: nat, x: nat)
    requires Searching(bits, blocks, seen, from, true, false, true, b, off)
    requires Next(bits, blocks[b], off, true) < blocks[b].pages
    requires x == blocks[b].base + Next(bits, blocks[b], off, true)
    ensures BulkOk(bits[x := false], blocks, b, Next(bits, blocks[b], off, true))
  {
    var next := Next(bits, blocks[b], off, true);
    forall i | b < i < |blocks|
      ensures AllSet(bits[x := false], blocks[i], 0)
    {
      assert AllSet(bits, blocks[i], 0);
      assert In(blocks[b], x);
    }
    if b == seen + 1 {
      assert AllSet(bits, blocks[b], 0);
    }
  }

  /** A search that began in the bulk stage and ends either has seen every page clean,
      or has just cleared the one page of `Lossy`. */
  lemma ExhaustedBulk(bits: seq<bool>, blocks: seq<Block>, seen: int, from: nat, b: nat, off: nat)
    requires Searching(bits, blocks, seen, from, true, true, false, b, off)
    requires Exhausted(true, b, Next(bits, blocks[b], off, false), seen, from)
    ensures Next(bits, blocks[b], off, false) < blocks[b].pages ==>
              Next(bits, blocks[b], off, false) == from && BulkLast(bits, blocks, seen, from)
    ensures Next(bits, blocks[b], off, false) == blocks[b].pages ==> NoneDirty(bits, blocks)
  {
    var blk := blocks[b];
    var next := Next(bits, blk, off, false);
    forall p | 0 <= p < |bits| && Used(blocks, p) && !(blk.base + next <= p < blk.base + blk.pages)
      ensures !bits[p]
    {
      var i :| 0 <= i < |blocks| && In(blocks[i], p);
      if i < b {
        assert CleanIn(bits, blocks[i], 0, blocks[i].pages);
      }
    }
  }

  /** A call that finds a page to send is not the one that loses a page. */
  lemma FoundNotLossy(bits: seq<bool>, blocks: seq<Block>, seen: int, from: nat,
                      complete: bool, bulk: bool, b: nat, off: nat)
    requires Searching(bits, blocks, seen, from, true, complete, bulk, b, off)
    requires Next(bits, blocks[b], off, bulk) < blocks[b].pages
    requires !Exhausted(complete, b, Next(bits, blocks[b], off, bulk), seen, from)
    ensures !Lossy(bits, blocks, true, seen, from)
  {
    FoundDirty(bits, blocks, seen, from, true, complete, bulk, b, off);
    var x := blocks[b].base + Next(bits, blocks[b], off, bulk);
    assert In(blocks[b], x);
    if Lossy(bits, blocks, true, seen, from) {
      assert Used(blocks, x);
      assert In(blocks[seen], blocks[seen].base + from);
    }
  }

  /** A search outside the bulk stage that ends has seen every page clean. */
  lemma ExhaustedClean(bits: seq<bool>, blocks: seq<Block>, seen: int, from: nat, b: nat, off: nat)
    requires Searching(bits, blocks, seen, from, false, true, false, b, off)
    requires Exhausted(true, b, Next(bits, blocks[b], off, false), seen, from)
    ensures Next(bits, blocks[b], off, false) == blocks[b].pages
    ensures NoneDirty(bits, blocks)
  {
    var blk := blocks[b];
    forall p | 0 <= p < |bits| && Used(blocks, p)
      ensures !bits[p]
    {
      var i :| 0 <= i < |blocks| && In(blocks[i], p);
      if i != b {
        assert CleanIn(bits, blocks[i], 0, blocks[i].pages);
      }
    }
  }

  lemma BoundsOf(bits: seq<bool>, blocks: seq<Block>, seen: int, from: nat, wasBulk: bool,
                 complete: bool, bulk: bool, b: nat, off: nat)
    requires Searching(bits, blocks, seen, from, wasBulk, complete, bulk, b, off)
    ensures BlocksOk(blocks, |bits|) && -1 <= seen < |blocks|
    ensures b < |blocks| && off <= blocks[b].pages && (bulk ==> off < blocks[b].pages)
    ensures blocks[b].base + blocks[b].pages <= |bits| && (bulk ==> wasBulk && !complete)
  {
  }

  /** The search has come round: either every page in use is clean, or this is the lossy
      case and the page just found is the one lost. */
  lemma SearchOver(bits: seq<bool>, blocks: seq<Block>, seen: int, from: nat, wasBulk: bool, b: nat, off: nat)
    requires Searching(bits, blocks, seen, from, wasBulk, true, false, b, off)
    requires Exhausted(true, b, Next(bits, blocks[b], off, false), seen, from)
    ensures var next := Next(bits, blocks[b], off, false);
            if next == blocks[b].pages then NoneDirty(bits, blocks) && !Lossy(bits, blocks, wasBulk, seen, from)
            else wasBulk && next == from && Lossy(bits, blocks, true, seen, from)
  {
    if wasBulk {
      ExhaustedBulk(bits, blocks, seen, from, b, off);
    } else {
      ExhaustedClean(bits, blocks, seen, from, b, off);
    }
    if NoneDirty(bits, blocks) && Lossy(bits, blocks, wasBulk, seen, from) {
      assert In(blocks[seen], blocks[seen].base + from);
    }
  }

  /** A page was found and sent: this was not the lossy case, and the bulk stage goes on
      as it should. */
  lemma SearchSent(bits: seq<bool>, blocks: seq<Block>, seen: int, from: nat, wasBulk: bool,
                   complete: bool, bulk: bool, b: nat, off: nat, x: nat)
    requires Searching(bits, blocks, seen, from, wasBulk, complete, bulk, b, off)
    requires Next(bits, blocks[b], off, bulk) < blocks[b].pages
    requires x == blocks[b].base + Next(bits, blocks[b], off, bulk)
    requires !Exhausted(complete, b, Next(bits, blocks[b], off, bulk), seen, from)
    ensures !Lossy(bits, blocks, wasBulk, seen, from)
    ensures bulk ==> BulkOk(bits[x := false], blocks, b, Next(bits, blocks[b], off, bulk))
  {
    if wasBulk {
      FoundNotLossy(bits, blocks, seen, from, complete, bulk, b, off);
    }
    if bulk {
      BulkSent(bits, blocks, seen, from, b, off, x);
    }
  }

  lemma OnlyBulkLossy(bits: seq<bool>, blocks: seq<Block>, bulk: bool, seen: int, from: nat)
    requires BlocksOk(blocks, |bits|) && -1 <= seen < |blocks|
    ensures Lossy(bits, blocks, bulk, seen, from) ==> bulk && 0 <= seen && from < blocks[seen].pages
  {
  }

  /** In the bulk stage there is a page left after the last one sent. */
  ghost predicate HasNext(bits: seq<bool>, blocks: seq<Block>, seen: int, from: nat)
  {
    && BlocksOk(blocks, |bits|) && -1 <= seen < |blocks| && 0 < |blocks|
    && (seen >= 0 ==> from <= blocks[seen].pages)
    && (seen == -1 || seen + 1 < |blocks| || Next(bits, blocks[seen], from, true) < blocks[seen].pages)
  }

  /** The bulk stage takes the pages in order: the search that stopped at page `from` of
      block `seen` goes on in that block while it has a page left, and then to the first
      page of the next block. */
  ghost predicate InOrder(bits: seq<bool>, blocks: seq<Block>, seen: int, from: nat, found: bool, b: int, off: int)
  {
    && BlocksOk(blocks, |bits|) && -1 <= seen < |blocks| && (seen >= 0 ==> from <= blocks[seen].pages)
    && if seen >= 0 && b == seen then off == if found then Next(bits, blocks[seen], from, true) else from
       else b == seen + 1 && off == 0 && (seen >= 0 ==> Next(bits, blocks[seen], from, true) >= blocks[seen].pages)
  }

  /** Where a search that began in the bulk stage stands: while there is a page left it
      stays in that stage and takes the page next in order, and otherwise it leaves the
      stage without taking one. */
  ghost predicate Ordered(bits: seq<bool>, blocks: seq<Block>, seen: int, from: nat, bulk: bool, found: bool, b: int,
                          off: int)
  {
    if HasNext(bits, blocks, seen, from) then bulk && InOrder(bits, blocks, seen, from, found, b, off)
    else !bulk || (!found && InOrder(bits, blocks, seen, from, false, b, off))
  }

  lemma StartInOrder(bits: seq<bool>, blocks: seq<Block>, seen: int, from: nat)
    requires BlocksOk(blocks, |bits|) && -1 <= seen < |blocks| && (seen >= 0 ==> from <= blocks[seen].pages)
    requires seen == -1 ==> from == 0
    ensures Ordered(bits, blocks, seen, from, true, false, if seen == -1 then 0 else seen, from)
  {
  }

  lemma TurnInOrder(bits: seq<bool>, blocks: seq<Block>, seen: int, from: nat, wasBulk: bool,
                    complete: bool, bulk: bool, b: nat, off: nat)
    requires Searching(bits, blocks, seen, from, wasBulk, complete, bulk, b, off)
    ensures BlocksOk(blocks, |bits|) && off <= blocks[b].pages
    ensures Ordered(bits, blocks, seen, from, bulk, false, b, off) ==>
              var next := Next(bits, blocks[b], off, bulk);
              if !bulk then
                !HasNext(bits, blocks, seen, from)
                && forall found, b, off :: Ordered(bits, blocks, seen, from, false, found, b, off)
              else if next < blocks[b].pages then
                HasNext(bits, blocks, seen, from) && Ordered(bits, blocks, seen, from, true, true, b, next)
              else Ordered(bits, blocks, seen, from, b + 1 < |blocks|, false, if b + 1 < |blocks| then b + 1 else 0, 0)
  {
  }

  // ---- The order outside the bulk stage ---------------------------------------------

  /** Page `o` of block `i` is not after page `off` of block `b`. */
  ghost predicate NotAfter(i: int, o: nat, b: int, off: nat)
  {
    i < b || (i == b && o <= off)
  }

  /** What a search from page `from` of block `seen` to page `off` of block `b` passes, both
      included; `complete` says that it has wrapped around. */
  ghost predicate Passed(seen: int, from: nat, complete: bool, b: int, off: nat, i: int, o: nat)
  {
    if complete then NotAfter(seen, from, i, o) || NotAfter(i, o, b, off)
    else NotAfter(seen, from, i, o) && NotAfter(i, o, b, off)
  }

  /** Only pages passed have changed. */
  ghost predicate Swept(bits0: seq<bool>, bits: seq<bool>, blocks: seq<Block>, seen: int, from: nat, complete: bool,
                        b: int, off: nat)
  {
    && BlocksOk(blocks, |bits|) && |bits0| == |bits|
    && forall i, o: nat :: 0 <= i < |blocks| && o < blocks[i].pages && !Passed(seen, from, complete, b, off, i, o) ==>
         bits[blocks[i].base + o] == bits0[blocks[i].base + o]
  }

  /** All pages passed are clean. */
  ghost predicate CleanRound(bits: seq<bool>, blocks: seq<Block>, seen: int, from: nat, complete: bool, b: int,
                             off: nat)
  {
    && BlocksOk(blocks, |bits|)
    && forall i, o: nat :: 0 <= i < |blocks| && o < blocks[i].pages && Passed(seen, from, complete, b, off, i, o) ==>
         !bits[blocks[i].base + o]
  }

  /** The search went round from page `from` of block `seen` and took the first dirty page that
      was not found unchanged: everything passed is clean now, and everything else as before. */
  ghost predicate NextInRound(bits0: seq<bool>, bits: seq<bool>, blocks: seq<Block>, seen: int, from: nat, b: int,
                              off: nat)
  {
    var complete := !NotAfter(seen, from, b, off);
    Swept(bits0, bits, blocks, seen, from, complete, b, off) && CleanRound(bits, blocks, seen, from, complete, b, off)
  }

  /** One turn: on without a change, or to a page whose bit is cleared. */
  ghost predicate Moves(bits: seq<bool>, bits': seq<bool>, blocks: seq<Block>, complete: bool, b: nat, off: nat,
                        complete': bool, b': nat, off': nat)
  {
    || (bits' == bits && ((complete' && !complete) || (complete' == complete && NotAfter(b, off, b', off'))))
    || (&& complete' == complete && b' == b < |blocks| && off <= off' < blocks[b].pages
        && blocks[b].base + off' < |bits| && bits' == bits[blocks[b].base + off' := false])
  }

  lemma MovesOn(bits: seq<bool>, bits': seq<bool>, blocks: seq<Block>, complete: bool, b: nat, off: nat, off': nat)
    requires BlocksOk(blocks, |bits|) && b < |blocks| && off <= off'
    requires blocks[b].base + blocks[b].pages <= |bits|
    requires bits' == if off' < blocks[b].pages then bits[blocks[b].base + off' := false] else bits
    ensures Moves(bits, bits', blocks, complete, b, off, complete, b, off')
  {
  }

  lemma MovesNext(bits: seq<bool>, blocks: seq<Block>, complete: bool, b: nat, off: nat, complete': bool, b': nat)
    requires (complete' && !complete) || (complete' == complete && b < b')
    ensures Moves(bits, bits, blocks, complete, b, off, complete', b', 0)
  {
  }

  lemma SweepOn(bits0: seq<bool>, bits: seq<bool>, bits': seq<bool>, blocks: seq<Block>, seen: int, from: nat,
                complete: bool, b: nat, off: nat, complete': bool, b': nat, off': nat)
    requires Swept(bits0, bits, blocks, seen, from, complete, b, off) && (complete || NotAfter(seen, from, b, off))
    requires Moves(bits, bits', blocks, complete, b, off, complete', b', off')
    ensures Swept(bits0, bits', blocks, seen, from, complete', b', off')
  {
    forall i, o: nat | 0 <= i < |blocks| && o < blocks[i].pages && !Passed(seen, from, complete', b', off', i, o)
      ensures bits'[blocks[i].base + o] == bits0[blocks[i].base + o]
    {
      assert !Passed(seen, from, complete, b, off, i, o);
      if bits' != bits {
        Apart(blocks, |bits|, b, off', i, o);
      }
    }
  }

  lemma SweepStart(bits: seq<bool>, blocks: seq<Block>, seen: int, from: nat, complete: bool, b: int, off: nat)
    requires BlocksOk(blocks, |bits|)
    ensures Swept(bits, bits, blocks, seen, from, complete, b, off)
  {
  }

  lemma TookSwept(bits: seq<bool>, blocks: seq<Block>, b: nat, off: nat)
    requires BlocksOk(blocks, |bits|) && b < |blocks| && off < blocks[b].pages
    ensures Swept(bits, bits[blocks[b].base + off := false], blocks, |blocks|, 0, true, b, off)
  {
    SweepStart(bits, blocks, |blocks|, 0, true, b, off);
    SweepOn(bits, bits, bits[blocks[b].base + off := false], blocks, |blocks|, 0, true, b, off, true, b, off);
  }

  lemma StillOn(bits: seq<bool>, blocks: seq<Block>, seen: int, from: nat, complete: bool, b: nat, off: nat)
    requires Searching(bits, blocks, seen, from, false, complete, false, b, off)
    ensures !complete ==> NotAfter(seen, from, b, off)
  {
  }

  lemma Apart(blocks: seq<Block>, n: nat, b: nat, off: nat, i: nat, o: nat)
    requires BlocksOk(blocks, n) && b < |blocks| && off < blocks[b].pages && i < |blocks| && o < blocks[i].pages
    ensures blocks[b].base + off == blocks[i].base + o ==> b == i && off == o
  {
    assert In(blocks[b], blocks[b].base + off) && In(blocks[i], blocks[i].base + o);
  }

  /** Where the search stands when it takes page `next` of block `b`, outside the bulk stage. */
  lemma RoundSoFar(bits: seq<bool>, blocks: seq<Block>, seen: int, from: nat, wasBulk: bool, complete: bool, b: nat,
                   off: nat)
    requires Searching(bits, blocks, seen, from, wasBulk, complete, false, b, off)
    requires Next(bits, blocks[b], off, false) < blocks[b].pages
    requires !Exhausted(complete, b, Next(bits, blocks[b], off, false), seen, from)
    ensures var next, bits' := Next(bits, blocks[b], off, false),
                               bits[blocks[b].base + Next(bits, blocks[b], off, false) := false];
            && (!wasBulk ==> complete == !NotAfter(seen, from, b, next)
                             && CleanRound(bits', blocks, seen, from, complete, b, next))
            && (wasBulk ==> complete && CleanRound(bits', blocks, |blocks|, 0, true, b, next))
  {
    var next := Next(bits, blocks[b], off, false);
    var bits' := bits[blocks[b].base + next := false];
    var start, first := if wasBulk then |blocks| else seen, if wasBulk then 0 else from;
    forall i, o: nat | 0 <= i < |blocks| && o < blocks[i].pages && Passed(start, first, complete, b, next, i, o)
      ensures !bits'[blocks[i].base + o]
    {
      if i == b && NotAfter(i, o, b, next) && (complete || o >= off || b != seen) {
        assert CleanIn(bits, blocks[b], if complete || b != seen then 0 else from, off);
      } else if complete && i < b {
        assert CleanIn(bits, blocks[i], 0, blocks[i].pages);
      } else if i == seen {
        assert CleanIn(bits, blocks[seen], from, if !complete && b == seen then off else blocks[seen].pages);
      } else {
        assert CleanIn(bits, blocks[i], 0, blocks[i].pages);
      }
    }
  }
}
