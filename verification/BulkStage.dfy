/** The bulk stage of a migration, as the blocks and the events alone decide it
    (qemu/arch_init.c:447-469, 698-751).

    While that stage is on, which page a search takes does not depend on what the pages
    hold.  It ends with the search that finds no page after the last one; that search is the
    only one that can lose a page. */
module BulkStage {
  import opened Bytes
  import opened MigrationBitmap
  import opened DirtyPages
  import opened RamSearch
  import opened RamMigration

  datatype Event =
    | Write(page: nat, data: Page)
    | Sync
    | Resize(pages: nat)
    | Save

  /** The state of the stage: where the last search stopped, the dirty and the logged pages
      (once the stage is over, as they were at its end), and the page lost, or -1. */
  datatype Stage = Stage(bulk: bool, seen: int, from: nat, dirty: seq<bool>, logged: seq<bool>, lost: int)

  ghost predicate StageOk(blocks: seq<Block>, t: Stage)
  {
    && BlocksOk(blocks, |t.dirty|) && |t.dirty| == |t.logged| && 0 < |blocks|
    && -1 <= t.seen < |blocks| && (t.seen >= 0 ==> t.from < blocks[t.seen].pages)
  }

  /** Every page dirty, none logged, nothing sent. */
  function Start(n: nat): Stage
  {
    Stage(true, -1, 0, seq(n, _ => true), seq(n, _ => false), -1)
  }

  /** The page that a search in the bulk stage takes: the next one of the block, if there is
      one, and otherwise the first one of the next block. */
  ghost function Taken(blocks: seq<Block>, t: Stage): (r: (nat, nat))
    requires StageOk(blocks, t) && HasNext(t.dirty, blocks, t.seen, t.from)
    ensures r.0 < |blocks| && r.1 < blocks[r.0].pages
  {
    if t.seen >= 0 && Next(t.dirty, blocks[t.seen], t.from, true) < blocks[t.seen].pages
    then (t.seen, Next(t.dirty, blocks[t.seen], t.from, true))
    else (t.seen + 1, 0)
  }

  ghost function Searched(blocks: seq<Block>, t: Stage): (t': Stage)
    requires StageOk(blocks, t)
    ensures StageOk(blocks, t') && |t'.dirty| == |t.dirty|
  {
    if !t.bulk then t
    else if HasNext(t.dirty, blocks, t.seen, t.from) then
      var (b, off) := Taken(blocks, t);
      t.(seen := b, from := off, dirty := t.dirty[blocks[b].base + off := false])
    else
      var last := LastPage(blocks);
      t.(bulk := false,
         lost := if Lossy(t.dirty, blocks, true, t.seen, t.from) && !t.logged[last] then last else t.lost)
  }

  /** A write makes up for the loss of the page.  A sync makes the logged pages dirty. */
  ghost function OneEvent(blocks: seq<Block>, t: Stage, e: Event): (t': Stage)
    requires StageOk(blocks, t)
    ensures StageOk(blocks, t') && |t'.dirty| == |t.dirty|
  {
    match e
    case Write(p, _) =>
      if p < |t.logged| then t.(logged := t.logged[p := true], lost := if p == t.lost then -1 else t.lost) else t
    case Sync => t.(dirty := Merge(t.dirty, t.logged, 0, |t.dirty|), logged := Cleared(t.logged, 0, |t.logged|))
    case Resize(_) => t
    case Save => Searched(blocks, t)
  }

  ghost function After(blocks: seq<Block>, t: Stage, events: seq<Event>): (t': Stage)
    requires StageOk(blocks, t)
    ensures StageOk(blocks, t') && |t'.dirty| == |t.dirty|
  {
    if events == [] then t
    else OneEvent(blocks, After(blocks, t, events[..|events| - 1]), events[|events| - 1])
  }

  /** The page lost by the events of a migration, or -1. */
  ghost function LostBy(blocks: seq<Block>, n: nat, events: seq<Event>): int
    requires BlocksOk(blocks, n) && 0 < |blocks|
  {
    After(blocks, Start(n), events).lost
  }

  /** The last page was sent last of all in the stage, and is not dirty since. */
  ghost predicate Unwritten(blocks: seq<Block>, t: Stage)
    requires StageOk(blocks, t)
  {
    && t.lost == -1 && !t.logged[LastPage(blocks)]
    && (t.seen >= 0 && blocks[t.seen].base + t.from == LastPage(blocks) ==> !t.dirty[LastPage(blocks)])
  }

  lemma {:induction false} UnwrittenStays(blocks: seq<Block>, n: nat, events: seq<Event>)
    requires BlocksOk(blocks, n) && 0 < |blocks|
    requires forall e :: e in events ==> !(e.Write? && e.page == LastPage(blocks))
    ensures Unwritten(blocks, After(blocks, Start(n), events))
    decreases |events|
  {
    if events != [] {
      var init, e := events[..|events| - 1], events[|events| - 1];
      UnwrittenStays(blocks, n, init);
      UnwrittenStill(blocks, After(blocks, Start(n), init), e);
    }
  }

  lemma UnwrittenStill(blocks: seq<Block>, t: Stage, e: Event)
    requires StageOk(blocks, t) && Unwritten(blocks, t) && !(e.Write? && e.page == LastPage(blocks))
    ensures Unwritten(blocks, OneEvent(blocks, t, e))
  {
    hide HasNext;
    assert t.seen == |blocks| - 1 && t.from == blocks[t.seen].pages - 1 ==>
             blocks[t.seen].base + t.from == LastPage(blocks);
  }

  lemma {:induction false} OneOrNone(blocks: seq<Block>, n: nat, events: seq<Event>)
    requires BlocksOk(blocks, n) && 0 < |blocks|
    ensures var lost := LostBy(blocks, n, events);
            lost == -1 || (lost == LastPage(blocks) && blocks[|blocks| - 1].pages > 1)
    decreases |events|
  {
    hide HasNext, BlocksOk;
    if events != [] {
      OneOrNone(blocks, n, events[..|events| - 1]);
    }
  }

  /** A page is lost only if the last block has several pages, and then only its last page,
      and only if the guest wrote that page. */
  lemma LossNeedsWrite(blocks: seq<Block>, n: nat, events: seq<Event>)
    requires BlocksOk(blocks, n) && 0 < |blocks|
    ensures var lost := LostBy(blocks, n, events);
            lost == -1 || (lost == LastPage(blocks) && blocks[|blocks| - 1].pages > 1
                           && exists e :: e in events && e.Write? && e.page == lost)
  {
    OneOrNone(blocks, n, events);
    if forall e :: e in events ==> !(e.Write? && e.page == LastPage(blocks)) {
      UnwrittenStays(blocks, n, events);
    }
  }

  // ---- The stage depends on pages in use only ---------------------------------------

  /** The bitmaps agree on the pages in use. */
  ghost predicate Alike(blocks: seq<Block>, bits: seq<bool>, bits': seq<bool>)
  {
    |bits| == |bits'| && forall p :: 0 <= p < |bits| && Used(blocks, p) ==> bits[p] == bits'[p]
  }

  lemma AlikeIn(blocks: seq<Block>, bits: seq<bool>, bits': seq<bool>, b: nat, off: nat, bulk: bool)
    requires Alike(blocks, bits, bits') && BlocksOk(blocks, |bits|) && b < |blocks| && off <= blocks[b].pages
    ensures Next(bits, blocks[b], off, bulk) == Next(bits', blocks[b], off, bulk)
  {
    var blk := blocks[b];
    forall p | blk.base <= p < blk.base + blk.pages ensures bits[p] == bits'[p] {
      assert In(blk, p);
    }
  }

  /** Whether a search loses a page depends on pages in use only. */
  lemma LossyInUse(bits: seq<bool>, bits': seq<bool>, blocks: seq<Block>, bulk: bool, seen: int, from: nat)
    requires Alike(blocks, bits, bits') && BlocksOk(blocks, |bits|) && -1 <= seen < |blocks|
    ensures Lossy(bits, blocks, bulk, seen, from) ==> Lossy(bits', blocks, bulk, seen, from)
  {
    if Lossy(bits, blocks, bulk, seen, from) {
      assert In(blocks[seen], blocks[seen].base + from);
    }
  }

  lemma HasNextInUse(bits: seq<bool>, bits': seq<bool>, blocks: seq<Block>, seen: int, from: nat)
    requires Alike(blocks, bits, bits')
    ensures HasNext(bits, blocks, seen, from) ==> HasNext(bits', blocks, seen, from)
  {
    if HasNext(bits, blocks, seen, from) && seen >= 0 {
      AlikeIn(blocks, bits, bits', seen, from, true);
    }
  }

  /** The page taken in order is the one that the stage says. */
  lemma OrderIsTaken(blocks: seq<Block>, bits: seq<bool>, t: Stage, b: int, off: int)
    requires StageOk(blocks, t) && Alike(blocks, bits, t.dirty) && HasNext(t.dirty, blocks, t.seen, t.from)
    requires InOrder(bits, blocks, t.seen, t.from, true, b, off) && 0 <= b < |blocks| && 0 <= off < blocks[b].pages
    ensures Taken(blocks, t) == (b, off)
  {
    if t.seen >= 0 {
      AlikeIn(blocks, bits, t.dirty, t.seen, t.from, true);
    }
  }

  lemma LossyIsLast(blocks: seq<Block>, bits: seq<bool>, seen: int, from: nat)
    requires BlocksOk(blocks, |bits|) && -1 <= seen < |blocks|
    ensures Lossy(bits, blocks, true, seen, from) ==> !HasNext(bits, blocks, seen, from)
  {
  }

  /** What a search does to bitmap, position and lost page, as far as the stage shows it. */
  ghost predicate SearchDone(blocks: seq<Block>, bits: seq<bool>, log: seq<bool>, seen: int, from: nat, lost: int,
                             bits': seq<bool>, bulk': bool, seen': int, from': nat, lost': int)
    requires BlocksOk(blocks, |bits|) && -1 <= seen < |blocks| && |bits| == |log|
  {
    && bulk' == HasNext(bits, blocks, seen, from)
    && (bulk' ==> && InOrder(bits, blocks, seen, from, true, seen', from')
                  && 0 <= seen' < |blocks| && from' < blocks[seen'].pages && blocks[seen'].base + from' < |bits|
                  && bits' == bits[blocks[seen'].base + from' := false])
    && (if Lossy(bits, blocks, true, seen, from) then
          0 <= LastPage(blocks) < |log| && lost' == if log[LastPage(blocks)] then -1 else LastPage(blocks)
        else lost' == lost)
  }

  /** A source is in the bulk stage exactly if `t` is, with the same pages in use dirty and
      logged, and has lost the same page. */
  ghost predicate Tracks(blocks: seq<Block>, bits: seq<bool>, log: seq<bool>, bulk: bool, seen: int, from: nat,
                         lost: int, t: Stage)
  {
    && StageOk(blocks, t) && |t.dirty| == |bits| == |log| && t.bulk == bulk && t.lost == lost && (bulk ==> lost == -1)
    && (bulk ==> t.seen == seen && t.from == from && Alike(blocks, bits, t.dirty) && Alike(blocks, log, t.logged))
  }

  lemma TracksWrite(blocks: seq<Block>, bits: seq<bool>, log: seq<bool>, bulk: bool, seen: int, from: nat, lost: int,
                    t: Stage, p: nat, data: Page)
    requires Tracks(blocks, bits, log, bulk, seen, from, lost, t) && p < |log|
    ensures Tracks(blocks, bits, log[p := true], bulk, seen, from, if p == lost then -1 else lost,
                   OneEvent(blocks, t, Write(p, data)))
  {
    hide BlocksOk, Used;
  }

  lemma TracksSync(blocks: seq<Block>, bits: seq<bool>, log: seq<bool>, bulk: bool, seen: int, from: nat, lost: int,
                   t: Stage, bits': seq<bool>, log': seq<bool>)
    requires Tracks(blocks, bits, log, bulk, seen, from, lost, t) && Synced(blocks, bits, log, bits', log')
    ensures Tracks(blocks, bits', log', bulk, seen, from, lost, OneEvent(blocks, t, Sync))
  {
    hide BlocksOk, Used;
  }

  /** A search that begins where the stage stands ends where the stage says. */
  lemma TracksSearch(blocks: seq<Block>, bits: seq<bool>, log: seq<bool>, bulk: bool, seen: int, from: nat, lost: int,
                     t: Stage, bits': seq<bool>, bulk': bool, seen': int, from': nat, lost': int)
    requires Tracks(blocks, bits, log, bulk, seen, from, lost, t) && |bits'| == |bits|
    requires if bulk then SearchDone(blocks, bits, log, seen, from, lost, bits', bulk', seen', from', lost')
             else !bulk' && lost' == lost
    ensures Tracks(blocks, bits', log, bulk', seen', from', lost', Searched(blocks, t))
  {
    hide HasNext, Lossy, BlocksOk, InOrder, Used;
    if bulk {
      LossyIsLast(blocks, bits, seen, from);
      LossyInUse(bits, t.dirty, blocks, true, seen, from);
      LossyInUse(t.dirty, bits, blocks, true, seen, from);
      HasNextInUse(bits, t.dirty, blocks, seen, from);
      HasNextInUse(t.dirty, bits, blocks, seen, from);
      if bulk' {
        OrderIsTaken(blocks, bits, t, seen', from');
        AlikeUpdate(blocks, bits, t.dirty, blocks[seen'].base + from');
      } else {
        LastInUse(blocks, |bits|);
      }
    }
  }

  lemma AlikeUpdate(blocks: seq<Block>, bits: seq<bool>, bits': seq<bool>, p: nat)
    requires Alike(blocks, bits, bits') && p < |bits|
    ensures Alike(blocks, bits[p := false], bits'[p := false])
  {
  }

  lemma LastInUse(blocks: seq<Block>, n: nat)
    requires BlocksOk(blocks, n) && 0 < |blocks|
    ensures 0 <= LastPage(blocks) < n && Used(blocks, LastPage(blocks))
  {
    assert In(blocks[|blocks| - 1], LastPage(blocks));
  }
}
