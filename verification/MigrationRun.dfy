/** A live migration of RAM as a whole: rounds of sending, syncs of the dirty log and guest
    writes in any order, and then the last stage with the guest stopped
    (qemu/arch_init.c:199-231, 913-1033). */
module MigrationRun {
  import opened Bytes
  import opened MigrationBitmap
  import opened DirtyPages
  import opened RamSearch
  import opened PageCache
  import opened RamMigration
  import opened BulkStage

  ghost predicate Possible(e: Event, blocks: seq<Block>, n: nat)
  {
    match e
    case Write(p, _) => p < n && Used(blocks, p)
    case Resize(k) => 0 < k
    case _ => true
  }

  function Wrote(ram: seq<Page>, e: Event): (r: seq<Page>)
    ensures |r| == |ram|
  {
    if e.Write? && e.page < |ram| then ram[e.page := e.data] else ram
  }

  /** The guest's memory after the events. */
  function Written(ram: seq<Page>, events: seq<Event>): (r: seq<Page>)
    ensures |r| == |ram|
  {
    if events == [] then ram else Wrote(Written(ram, events[..|events| - 1]), events[|events| - 1])
  }

  ghost predicate Counted(s: Source)
    requires s.tracker.Shape()
    reads s, s.tracker
  {
    s.tracker.CounterOk() && LogInUse(s.tracker.blocks, s.tracker.log)
  }

  /** The guest writes a page, and the dirty log records it. */
  method GuestWrite(s: Source, p: nat, data: Page)
    requires s.Inv(false) && p < |s.ram|
    modifies s`ram, s`lost, s.tracker`log
    ensures s.Inv(false) && s.ram == old(s.ram)[p := data] && s.tracker.log == old(s.tracker.log)[p := true]
    ensures s.lost == if p == old(s.lost) then -1 else old(s.lost)
    ensures old(s.Safe()) ==> s.Safe()
    ensures old(Counted(s)) && Used(s.tracker.blocks, p) ==> Counted(s)
  {
    hide Replay, ContOk, BulkOk, BlocksOk, Coherent, Count;
    s.ram := s.ram[p := data];
    s.tracker.log := s.tracker.log[p := true];
    if p == s.lost {
      s.lost := -1;
    }
  }

  /** migration_bitmap_sync */
  method BitmapSync(s: Source)
    requires s.Inv(false)
    modifies s`syncCount, s.tracker`bits, s.tracker`log, s.tracker`count
    ensures s.Inv(false) && (old(s.Safe()) ==> s.Safe()) && s.syncCount == old(s.syncCount) + 1
    ensures Synced(s.tracker.blocks, old(s.tracker.bits), old(s.tracker.log), s.tracker.bits, s.tracker.log)
    ensures old(Counted(s)) ==> Counted(s)
  {
    hide Replay, ContOk, Count;
    s.syncCount := s.syncCount + 1;
    s.tracker.Sync();
  }

  /** xbzrle_cache_resize, to a different number of pages. */
  method CacheResize(s: Source, n: nat, ghost last: bool)
    requires s.Inv(last) && n > 0
    modifies s`cache
    ensures s.Inv(last) && fresh(s.cache) && s.CacheEmpty()
  {
    hide Replay, ContOk, BulkOk, BlocksOk;
    s.cache := new Cache(n);
  }

  ghost predicate Follows(s: Source, t: Stage)
    reads s, s.tracker
  {
    Tracks(s.tracker.blocks, s.tracker.bits, s.tracker.log, s.bulk, s.lastSeen, s.lastOffset, s.lost, t)
  }

  method Step(s: Source, e: Event, ghost t: Stage)
    requires s.Inv(false) && s.Safe() && Possible(e, s.tracker.blocks, |s.ram|)
    requires StageOk(s.tracker.blocks, t) && Follows(s, t)
    modifies s, s.tracker, s.cache
    ensures s.Inv(false) && s.Safe() && s.ram == Wrote(old(s.ram), e) && (s.cache == old(s.cache) || fresh(s.cache))
    ensures old(Counted(s)) ==> Counted(s)
    ensures Follows(s, OneEvent(s.tracker.blocks, t, e))
  {
    hide Replay, ContOk, BulkOk, BlocksOk, Coherent, Count, NothingLost, Synced, LogInUse, Used,
         StageOk, Searched, Tracks;
    ghost var bits, log, lost := s.tracker.bits, s.tracker.log, s.lost;
    match e
    case Write(p, data) =>
      TracksWrite(s.tracker.blocks, bits, log, s.bulk, s.lastSeen, s.lastOffset, lost, t, p, data);
      GuestWrite(s, p, data);
    case Sync =>
      BitmapSync(s);
      TracksSync(s.tracker.blocks, bits, log, s.bulk, s.lastSeen, s.lastOffset, lost, t, s.tracker.bits, s.tracker.log);
    case Resize(n) => CacheResize(s, n, false);
    case Save =>
      var pages := SearchOnce(s, false, t);
  }

  /** One search goes as the bulk stage says. */
  method SearchOnce(s: Source, last: bool, ghost t: Stage) returns (pages: int)
    requires s.Inv(last) && s.Safe() && StageOk(s.tracker.blocks, t) && Follows(s, t)
    modifies s`stream, s`dest, s`lastSent, s`lastSeen, s`lastOffset, s`bulk, s`lost,
             s.tracker`bits, s.tracker`count, s.cache
    ensures s.Inv(last) && s.Safe() && pages in {0, 1} && s.AtRest()
    ensures old(s.tracker.CounterOk()) ==> s.tracker.CounterOk()
    ensures pages == 0 ==> NoneDirty(s.tracker.bits, s.tracker.blocks)
    ensures Follows(s, Searched(s.tracker.blocks, t))
    ensures s.lost != old(s.lost) ==> pages == 0 && s.dest == old(s.dest)
  {
    hide Replay, ContOk, BulkOk, BlocksOk, Coherent, Count, NothingLost, Lossy, HasNext, InOrder, NoneDirty, Searched,
         StageOk, Tracks;
    ghost var bits, log, bulk, seen, from, lost :=
      s.tracker.bits, s.tracker.log, s.bulk, s.lastSeen, s.lastOffset, s.lost;
    pages := s.FindAndSaveBlock(last);
    BulkPlaced(s.tracker.bits, s.tracker.blocks, s.bulk, s.lastSeen, s.lastOffset);
    TracksSearch(s.tracker.blocks, bits, log, bulk, seen, from, lost, t,
                 s.tracker.bits, s.bulk, s.lastSeen, s.lastOffset, s.lost);
  }

  lemma BulkPlaced(bits: seq<bool>, blocks: seq<Block>, bulk: bool, seen: int, from: nat)
    requires BlocksOk(blocks, |bits|) && 0 <= seen < |blocks| && (bulk ==> BulkOk(bits, blocks, seen, from))
    ensures bulk ==> from < blocks[seen].pages
  {
  }

  /** Whatever the order of events, a page that is not equal on both sides is in the bitmap
      or in the log, with at most one exception: the page that the bulk stage loses by these
      events. */
  method Run(s: Source, events: seq<Event>, ghost t: Stage)
    requires s.Inv(false) && s.Safe() && forall e :: e in events ==> Possible(e, s.tracker.blocks, |s.ram|)
    requires StageOk(s.tracker.blocks, t) && Follows(s, t)
    modifies s, s.tracker, s.cache
    ensures s.Inv(false) && s.Safe() && (s.cache == old(s.cache) || fresh(s.cache))
    ensures old(Counted(s)) ==> Counted(s)
    ensures s.ram == Written(old(s.ram), events) && Follows(s, After(s.tracker.blocks, t, events))
  {
    hide Possible, Counted, Replay, ContOk, BulkOk, BlocksOk, Coherent, NothingLost, Follows, StageOk, OneEvent;
    var i := 0;
    while i < |events|
      invariant 0 <= i <= |events| && s.Inv(false) && s.Safe() && s.ram == Written(old(s.ram), events[..i])
      invariant s.cache == old(s.cache) || fresh(s.cache)
      invariant old(Counted(s)) ==> Counted(s)
      invariant Follows(s, After(s.tracker.blocks, t, events[..i]))
    {
      assert events[..i + 1][..i] == events[..i];
      Step(s, events[i], After(s.tracker.blocks, t, events[..i]));
      i := i + 1;
    }
    assert events[..i] == events;
  }

  ghost predicate Same(blocks: seq<Block>, ram: seq<Page>, dest: seq<Page>, lost: int)
  {
    |ram| == |dest| && forall p :: 0 <= p < |ram| && Used(blocks, p) && p != lost ==> dest[p] == ram[p]
  }

  lemma AllEqual(blocks: seq<Block>, ram: seq<Page>, dest: seq<Page>, log: seq<bool>, bits: seq<bool>, lost: int)
    requires NothingLost(blocks, ram, dest, log, bits, lost) && NoneDirty(bits, blocks)
    requires forall p :: 0 <= p < |log| && Used(blocks, p) ==> !log[p]
    ensures Same(blocks, ram, dest, lost)
  {
  }

  lemma RestIsNotLossy(bits: seq<bool>, blocks: seq<Block>, bulk: bool, seen: int, from: nat)
    requires BlocksOk(blocks, |bits|) && 0 <= seen < |blocks|
    requires from < blocks[seen].pages ==> !bits[blocks[seen].base + from]
    ensures !Lossy(bits, blocks, bulk, seen, from)
  {
  }

  /** ram_save_complete: with the guest stopped, afterwards the destination has the guest's
      memory, except for a page lost before and not written since, or lost by this call, which
      loses what a sync and one search lose. */
  method Complete(s: Source, ghost t: Stage)
    requires s.Inv(false) && s.Safe() && StageOk(s.tracker.blocks, t) && Follows(s, t)
    modifies s, s.tracker, s.cache
    ensures s.Inv(true) && s.ram == old(s.ram) && NoneDirty(s.tracker.bits, s.tracker.blocks)
    ensures Same(s.tracker.blocks, s.ram, s.dest, s.lost)
    ensures s.lost == After(s.tracker.blocks, t, [Sync, Save]).lost
    ensures s.lost != old(s.lost) ==> s.dest == old(s.dest)
    ensures old(Counted(s)) ==> s.tracker.count == 0
  {
    hide Replay, ContOk, BulkOk, BlocksOk, Coherent, NothingLost, Count, NoneDirty, LogInUse, StageOk, Searched, Tracks,
         After;
    var blocks := s.tracker.blocks;
    ghost var bits, log := s.tracker.bits, s.tracker.log;
    BitmapSync(s);
    TracksSync(blocks, bits, log, s.bulk, s.lastSeen, s.lastOffset, s.lost, t, s.tracker.bits, s.tracker.log);
    LastStage(s, OneEvent(blocks, t, Sync));
    AfterBoth(blocks, t, Sync, Save);
    AllEqual(blocks, s.ram, s.dest, s.tracker.log, s.tracker.bits, s.lost);
    CountZero(s.tracker.bits, blocks, |s.tracker.bits|);
  }

  lemma AfterBoth(blocks: seq<Block>, t: Stage, e: Event, f: Event)
    requires StageOk(blocks, t)
    ensures After(blocks, t, [e, f]) == OneEvent(blocks, OneEvent(blocks, t, e), f)
  {
    hide StageOk, OneEvent;
    assert [e, f][..1] == [e] && [e][..0] == [];
    assert After(blocks, t, [e]) == OneEvent(blocks, t, e);
  }

  lemma {:induction false} CountZero(bits: seq<bool>, blocks: seq<Block>, n: nat)
    requires NoneDirty(bits, blocks) && n <= |bits|
    ensures Count(bits, blocks, n) == 0
    decreases n
  {
    if n > 0 {
      CountZero(bits, blocks, n - 1);
    }
  }

  /** The loop of ram_save_complete. */
  method LastStage(s: Source, ghost t: Stage)
    requires s.Inv(false) && s.Safe() && StageOk(s.tracker.blocks, t) && Follows(s, t)
    modifies s`stream, s`dest, s`lastSent, s`lastSeen, s`lastOffset, s`bulk, s`lost,
             s.tracker`bits, s.tracker`count, s.cache
    ensures s.Inv(true) && s.Safe() && NoneDirty(s.tracker.bits, s.tracker.blocks)
    ensures s.lost == Searched(s.tracker.blocks, t).lost && (s.lost != old(s.lost) ==> s.dest == old(s.dest))
    ensures old(s.tracker.CounterOk()) ==> s.tracker.CounterOk()
  {
    hide Replay, ContOk, BulkOk, BlocksOk, NothingLost, Lossy, Count, NoneDirty, Searched, StageOk;
    var pages := SearchOnce(s, true, t);
    ghost var lost := s.lost;
    while pages != 0
      invariant s.Inv(true) && s.Safe() && pages in {0, 1} && s.AtRest()
      invariant pages == 0 ==> NoneDirty(s.tracker.bits, s.tracker.blocks)
      invariant s.lost == lost && (lost != old(s.lost) ==> pages == 0 && s.dest == old(s.dest))
      invariant old(s.tracker.CounterOk()) ==> s.tracker.CounterOk()
      decreases Count(s.tracker.bits, s.tracker.blocks, |s.tracker.bits|) + pages
    {
      RestIsNotLossy(s.tracker.bits, s.tracker.blocks, s.bulk, s.lastSeen, s.lastOffset);
      pages := s.FindAndSaveBlock(true);
    }
  }

  /** A whole migration: loaded at the destination, the stream makes its memory what the
      guest's was when it stopped, except for the page lost, if any; and that is what the
      bulk stage loses by the events, a last sync and a last search. */
  method Migrate(blocks: seq<Block>, ramPages: nat, log: seq<bool>, ram0: seq<Page>, ghost there: seq<Page>,
                 xbzrle: bool, cachePages: nat, events: seq<Event>) returns (s: Source)
    requires |log| % BITS_PER_LONG == 0 && ramPages <= |log| && BlocksOk(blocks, ramPages) && 0 < |blocks|
    requires |ram0| == |there| == |log| && cachePages > 0
    requires forall e :: e in events ==> Possible(e, blocks, |ram0|)
    ensures fresh(s) && Replay(blocks, there, s.stream) == Some(s.dest) && ContOk(blocks, s.stream, s.lastSent)
    ensures Same(blocks, Written(ram0, events), s.dest, s.lost)
    ensures BlocksOk(blocks, |log|) && s.lost == LostBy(blocks, |log|, events + [Sync, Save])
    ensures LogInUse(blocks, log) ==> s.tracker.count == 0
  {
    hide BulkOk, Coherent, NothingLost, Possible, Lossy, NoneDirty, Count, Replay, ContOk, OneEvent;
    s := new Source(blocks, ramPages, log, ram0, there, xbzrle, cachePages);
    ghost var t := Start(|log|);
    Run(s, events, t);
    Complete(s, After(blocks, t, events));
    AfterMore(blocks, t, events, Sync, Save);
  }

  lemma AfterMore(blocks: seq<Block>, t: Stage, events: seq<Event>, e: Event, f: Event)
    requires StageOk(blocks, t)
    ensures After(blocks, t, events + [e, f]) == After(blocks, After(blocks, t, events), [e, f])
  {
    AfterBoth(blocks, After(blocks, t, events), e, f);
    assert (events + [e, f])[..|events| + 1] == events + [e] && (events + [e])[..|events|] == events;
  }

  function Two(): seq<Block>
  {
    [Block([], 0, 2)]
  }

  lemma TwoPages(p: nat)
    ensures Used(Two(), p) <==> p < 2
    ensures BlocksOk(Two(), 2)
  {
    assert p < 2 ==> In(Two()[0], p);
  }

  lemma FirstOfTwo(bits: seq<bool>)
    requires |bits| == 64
    ensures HasNext(bits, Two(), -1, 0)
    ensures forall b, off :: InOrder(bits, Two(), -1, 0, true, b, off) ==> b == 0 && off == 0
  {
  }

  lemma SecondOfTwo(bits: seq<bool>)
    requires |bits| == 64 && !bits[0] && BlocksOk(Two(), |bits|) && BulkOk(bits, Two(), 0, 0)
    ensures HasNext(bits, Two(), 0, 0)
    ensures forall b, off :: InOrder(bits, Two(), 0, 0, true, b, off) ==> b == 0 && off == 1
  {
    assert Two()[0] == Block([], 0, 2) && bits[1];
    assert FindNext(bits, 0, 2) == 1;
  }

  lemma WrittenAgain(t: Stage)
    requires |t.dirty| == |t.logged| == 64 && StageOk(Two(), t) && t.bulk && t.seen == 0 && t.from == 1
    requires !t.dirty[0] && !t.dirty[1] && !t.logged[0] && t.logged[1]
    ensures After(Two(), t, [Sync, Save]).lost == 1
  {
    hide HasNext, Used;
    AfterBoth(Two(), t, Sync, Save);
    var all := OneEvent(Two(), t, Sync).dirty;
    forall p | 0 <= p < 64 && Used(Two(), p) ensures !all[1 := false][p] {
      TwoPages(p);
    }
    assert Two()[0] == Block([], 0, 2) && all[1];
    LossyIsLast(Two(), all, 0, 1);
  }

  /** A page can be lost: two pages are sent, the guest writes the second again, and the
      last stage clears its bit and does not send it. */
  method LosesPage(data: Page) returns (s: Source)
    requires data != ZeroPage()
    ensures fresh(s) && s.Inv(true) && s.lost == 1 && |s.dest| == 64 && s.dest[1] != s.ram[1]
  {
    hide BulkOk, Coherent, Possible, Lossy, NoneDirty, Count, Replay, ContOk, Used, HasNext, InOrder, BlocksOk;
    var quiet, zero: seq<Page> := seq(64, _ => false), seq(64, _ => ZeroPage());
    TwoPages(0);
    TwoPages(1);
    s := new Source(Two(), 2, quiet, zero, zero, false, 1);
    FirstOfTwo(s.tracker.bits);
    var pages := s.FindAndSaveBlock(false);
    assert s.lastSeen == 0 && s.lastOffset == 0;
    SecondOfTwo(s.tracker.bits);
    pages := s.FindAndSaveBlock(false);
    assert s.lastSeen == 0 && s.lastOffset == 1;
    assert s.dest[1] == ZeroPage();
    GuestWrite(s, 1, data);
    ghost var t := Stage(s.bulk, s.lastSeen, s.lastOffset, s.tracker.bits, s.tracker.log, s.lost);
    WrittenAgain(t);
    Complete(s, t);
  }
}
