/** The migration bitmap, the dirty log and the counter of dirty pages, updated in place
    (qemu/arch_init.c:447-516, 556-558, 888-901). */
module DirtyPages {
  import opened MigrationBitmap

  /** The end of the pages that one call of migration_bitmap_sync_range covers: whole
      words if the range starts one, which may run past it. */
  function SyncEnd(base: nat, pages: nat): nat
  {
    if base % BITS_PER_LONG == 0
    then base + (pages + BITS_PER_LONG - 1) / BITS_PER_LONG * BITS_PER_LONG
    else base + pages
  }

  lemma SyncEndFits(base: nat, pages: nat, n: nat)
    requires base + pages <= n && n % BITS_PER_LONG == 0
    ensures base + pages <= SyncEnd(base, pages) <= n
  {
  }

  class Tracker {
    const blocks: seq<Block>
    var bits: seq<bool>
    var log: seq<bool>
    var count: int

    ghost predicate Shape()
      reads this
    {
      |bits| == |log| && |bits| % BITS_PER_LONG == 0 && BlocksOk(blocks, |bits|)
    }

    ghost predicate CounterOk()
      reads this
      requires Shape()
    {
      count == Count(bits, blocks, |bits|)
    }

    /** ram_save_setup: every bit up to the last RAM page is set, gaps included; the
        counter is the number of pages in use. */
    constructor (blocks0: seq<Block>, ramPages: nat, log0: seq<bool>)
      requires |log0| % BITS_PER_LONG == 0 && ramPages <= |log0| && BlocksOk(blocks0, ramPages)
      ensures blocks == blocks0 && log == log0 && Shape() && CounterOk()
      ensures forall p :: 0 <= p < |bits| ==> bits[p] == (p < ramPages)
    {
      blocks, log := blocks0, log0;
      bits := seq(|log0|, p => p < ramPages);
      count := TotalPages(blocks0);
      new;
      CountAll(bits, blocks0, ramPages);
      CountBeyond(bits, blocks0, ramPages, |bits|);
    }

    /** migration_bitmap_find_and_reset_dirty; in the bulk stage the page after `start`
        is taken without looking. */
    method FindAndResetDirty(b: Block, start: nat, bulk: bool) returns (next: nat)
      requires Shape() && b in blocks && start <= b.pages && (bulk ==> start < b.pages)
      modifies this`bits, this`count
      ensures Shape() && next <= b.pages
      ensures next ==
              if bulk && start > 0 then start + 1 else FindNext(old(bits), b.base + start, b.base + b.pages) - b.base
      ensures bits == if next < b.pages then old(bits)[b.base + next := false] else old(bits)
      ensures old(CounterOk()) && (next < b.pages ==> old(bits)[b.base + next]) ==> CounterOk()
    {
      var i :| 0 <= i < |blocks| && blocks[i] == b;
      if bulk && start > 0 {
        next := start + 1;
      } else {
        next := FindNext(bits, b.base + start, b.base + b.pages) - b.base;
      }
      if next < b.pages {
        assert In(blocks[i], b.base + next);
        CountUpdate(bits, blocks, |bits|, b.base + next, false);
        bits := bits[b.base + next := false];
        count := count - 1;
      }
    }

    /** migration_bitmap_set_dirty */
    method SetDirty(p: nat) returns (was: bool)
      requires Shape() && p < |bits|
      modifies this`bits, this`count
      ensures was == old(bits)[p] && bits == old(bits)[p := true] && count == old(count) + if was then 0 else 1
    {
      was := bits[p];
      bits := bits[p := true];
      if !was {
        count := count + 1;
      }
    }

    /** The word path of migration_bitmap_sync_range, for words `[first, last)`. */
    method SyncWords(first: nat, last: nat)
      requires Shape() && first <= last && last * BITS_PER_LONG <= |bits|
      modifies this`bits, this`log, this`count
      ensures Joined(old(bits), old(log), first * BITS_PER_LONG, last * BITS_PER_LONG, bits, log, count - old(count))
    {
      hide Joined, New;
      ghost var bits0, log0 := bits, log;
      var k := first;
      JoinedNone(bits, log, first * BITS_PER_LONG);
      while k < last
        invariant first <= k <= last && |bits| == |log| == |bits0|
        invariant Joined(bits0, log0, first * BITS_PER_LONG, k * BITS_PER_LONG, bits, log, count - old(count))
      {
        var lo, hi := k * BITS_PER_LONG, (k + 1) * BITS_PER_LONG;
        JoinedMore(bits0, log0, first * BITS_PER_LONG, lo, hi, bits, log, count - old(count));
        if SomeLogged(log, lo, hi) {
          count := count + New(bits, log, lo, hi);
          bits, log := Merge(bits, log, lo, hi), Cleared(log, lo, hi);
        } else {
          NoneLogged(bits, log, lo, hi);
        }
        k := k + 1;
      }
    }

    /** The page path. */
    method SyncPages(base: nat, end: nat)
      requires Shape() && base <= end <= |bits|
      modifies this`bits, this`log, this`count
      ensures Joined(old(bits), old(log), base, end, bits, log, count - old(count))
    {
      hide Joined, New, BlocksOk;
      ghost var bits0, log0 := bits, log;
      var p := base;
      JoinedNone(bits, log, base);
      while p < end
        invariant base <= p <= end && Shape() && |bits| == |bits0|
        invariant Joined(bits0, log0, base, p, bits, log, count - old(count))
      {
        JoinedMore(bits0, log0, base, p, p + 1, bits, log, count - old(count));
        OneBit(bits, log, p);
        if log[p] {
          log := log[p := false];
          var was := SetDirty(p);
        }
        p := p + 1;
      }
    }

    /** migration_bitmap_sync_range: both paths join the log into the bitmap, clear it,
        and add what is new to the counter.  The counter stays right if and only if the
        words of the word path hold no logged page that is outside every block and not
        in the bitmap. */
    method SyncRange(base: nat, pages: nat)
      requires Shape() && base + pages <= |bits|
      modifies this`bits, this`log, this`count
      ensures Shape() && |bits| == |old(bits)| && base + pages <= SyncEnd(base, pages) <= |bits|
      ensures bits == Merge(old(bits), old(log), base, SyncEnd(base, pages))
      ensures log == Cleared(old(log), base, SyncEnd(base, pages))
      ensures old(CounterOk()) ==>
                (CounterOk() <==> !Stale(old(bits), old(log), blocks, base, SyncEnd(base, pages)))
    {
      hide Count, New, NewUsed, Stale;
      SyncEndFits(base, pages, |bits|);
      ghost var bits0, log0, end := bits, log, SyncEnd(base, pages);
      if base % BITS_PER_LONG == 0 {
        SyncWords(base / BITS_PER_LONG, base / BITS_PER_LONG + (pages + BITS_PER_LONG - 1) / BITS_PER_LONG);
      } else {
        SyncPages(base, base + pages);
      }
      assert Joined(bits0, log0, base, end, bits, log, count - old(count));
      CountMerge(bits0, log0, blocks, base, end, |bits0|);
      NewIsUsed(bits0, log0, blocks, base, end);
    }

    /** migration_bitmap_sync: afterwards the bitmap holds every page in use that was in
        it or in the log, and the log holds no page in use. */
    method Sync()
      requires Shape()
      modifies this`bits, this`log, this`count
      ensures Shape() && Synced(blocks, old(bits), old(log), bits, log)
      ensures old(CounterOk()) && NoStale(blocks, old(bits), old(log)) ==> CounterOk() && NoStale(blocks, bits, log)
    {
      hide Count, Used;
      ghost var bits0, log0 := bits, log;
      ghost var fine := CounterOk() && NoStale(blocks, bits, log);
      var i := 0;
      while i < |blocks|
        invariant 0 <= i <= |blocks| && Shape()
        invariant Between(bits0, log0, bits, log)
        invariant forall j, p: nat :: 0 <= j < i && In(blocks[j], p) ==> !log[p]
        invariant fine ==> CounterOk() && NoStale(blocks, bits, log)
      {
        ghost var bits1, log1 := bits, log;
        SyncRange(blocks[i].base, blocks[i].pages);
        BetweenMore(bits0, log0, bits1, log1, blocks[i].base, SyncEnd(blocks[i].base, blocks[i].pages));
        i := i + 1;
      }
      AllSynced(blocks, bits0, log0, bits, log);
    }
  }

  /** Part of the log has moved to the bitmap. */
  ghost predicate Between(bits0: seq<bool>, log0: seq<bool>, bits: seq<bool>, log: seq<bool>)
  {
    && |bits0| == |log0| == |bits| == |log|
    && forall p :: 0 <= p < |bits| ==>
         (bits0[p] ==> bits[p]) && (log[p] ==> log0[p]) && (bits[p] || log[p] <==> bits0[p] || log0[p])
  }

  lemma BetweenMore(bits0: seq<bool>, log0: seq<bool>, bits: seq<bool>, log: seq<bool>, lo: nat, hi: nat)
    requires Between(bits0, log0, bits, log)
    ensures Between(bits0, log0, Merge(bits, log, lo, hi), Cleared(log, lo, hi))
  {
  }

  ghost predicate Synced(blocks: seq<Block>, bits0: seq<bool>, log0: seq<bool>, bits: seq<bool>, log: seq<bool>)
  {
    && Between(bits0, log0, bits, log)
    && forall p :: 0 <= p < |bits| && Used(blocks, p) ==> !log[p]
  }

  lemma AllSynced(blocks: seq<Block>, bits0: seq<bool>, log0: seq<bool>, bits: seq<bool>, log: seq<bool>)
    requires Between(bits0, log0, bits, log)
    requires BlocksOk(blocks, |bits|) && forall j, p: nat :: 0 <= j < |blocks| && In(blocks[j], p) ==> !log[p]
    ensures Synced(blocks, bits0, log0, bits, log)
  {
  }

  /** No logged page is outside every block and missing from the bitmap. */
  ghost predicate NoStale(blocks: seq<Block>, bits: seq<bool>, log: seq<bool>)
  {
    |bits| == |log| && forall p :: 0 <= p < |bits| && log[p] && !Used(blocks, p) ==> bits[p]
  }

  /** A page of an unplugged block that is still logged makes the counter drift: after a
      sync, page 12, next to a block of ten pages, is counted too. */
  method CounterDrifts() returns (t: Tracker)
    ensures fresh(t) && t.Shape() && t.blocks == [Block([], 0, 10)] && !t.CounterOk()
  {
    hide Count;
    t := new Tracker([Block([], 0, 10)], 10, seq(64, p => p == 12));
    ghost var bits, log := t.bits, t.log;
    t.SyncRange(0, 10);
    assert log[12] && !bits[12] && !Used(t.blocks, 12);
  }

  predicate SomeLogged(log: seq<bool>, lo: nat, hi: nat)
    requires hi <= |log|
  {
    exists p :: lo <= p < hi && log[p]
  }

  lemma {:induction false} NoneLogged(bits: seq<bool>, log: seq<bool>, lo: nat, hi: nat)
    requires hi <= |bits| == |log| && !SomeLogged(log, lo, hi)
    ensures Merge(bits, log, lo, hi) == bits && Cleared(log, lo, hi) == log && New(bits, log, lo, hi) == 0
    decreases hi
  {
    if hi > lo {
      assert !log[hi - 1] && !SomeLogged(log, lo, hi - 1);
      NoneLogged(bits, log, lo, hi - 1);
    }
  }

  lemma JoinedNone(bits: seq<bool>, log: seq<bool>, lo: nat)
    requires lo <= |bits| == |log|
    ensures Joined(bits, log, lo, lo, bits, log, 0)
  {
    assert bits == Merge(bits, log, lo, lo) && log == Cleared(log, lo, lo);
  }

  ghost predicate Joined(bits0: seq<bool>, log0: seq<bool>, lo: nat, hi: nat, bits: seq<bool>, log: seq<bool>,
                         added: int)
  {
    && |bits0| == |log0| && hi <= |bits0|
    && bits == Merge(bits0, log0, lo, hi) && log == Cleared(log0, lo, hi) && added == New(bits0, log0, lo, hi)
  }

  lemma JoinedMore(bits0: seq<bool>, log0: seq<bool>, lo: nat, mid: nat, hi: nat, bits: seq<bool>, log: seq<bool>,
                   added: int)
    requires lo <= mid <= hi <= |bits0| && Joined(bits0, log0, lo, mid, bits, log, added)
    ensures |bits| == |log| == |bits0|
    ensures Joined(bits0, log0, lo, hi, Merge(bits, log, mid, hi), Cleared(log, mid, hi),
                   added + New(bits, log, mid, hi))
  {
    MergeAdds(bits0, log0, lo, mid, hi);
    NewAdds(bits0, log0, lo, mid, hi);
  }

  lemma OneBit(bits: seq<bool>, log: seq<bool>, p: nat)
    requires p < |bits| == |log|
    ensures Merge(bits, log, p, p + 1) == if log[p] then bits[p := true] else bits
    ensures Cleared(log, p, p + 1) == if log[p] then log[p := false] else log
    ensures New(bits, log, p, p + 1) == if log[p] && !bits[p] then 1 else 0
  {
    assert New(bits, log, p, p) == 0;
  }

  lemma {:induction false} CountBeyond(bits: seq<bool>, blocks: seq<Block>, lo: nat, hi: nat)
    requires lo <= hi <= |bits| && forall p :: lo <= p < hi ==> !bits[p]
    ensures Count(bits, blocks, hi) == Count(bits, blocks, lo)
    decreases hi
  {
    if hi > lo {
      CountBeyond(bits, blocks, lo, hi - 1);
    }
  }
}
