/** The first section of the RAM stream: the names and lengths of the source's blocks, and
    what the loader makes of them (qemu/arch_init.c:905-918, 1143-1179, qemu/exec.c:1347-1383). */
module RamSetup {
  import opened Bytes
  import opened Words
  import opened MigrationBitmap
  import opened RamMigration
  import opened RamStream

  /** A block of the destination that cannot be resized has the source's length already. */
  ghost predicate Accepts(src: seq<Block>, dst: seq<Block>, fixed: seq<bool>, used: seq<nat>)
    requires Linked(src, dst) && |dst| == |fixed| == |used|
  {
    forall i :: 0 <= i < |src| && fixed[Twin(dst, src[i])] ==> used[Twin(dst, src[i])] == src[i].pages * PAGE_SIZE
  }

  /** The lengths in use once those of the blocks from the `k`-th on have arrived. */
  ghost function UsedFrom(src: seq<Block>, dst: seq<Block>, used: seq<nat>, k: nat): (r: seq<nat>)
    requires Linked(src, dst) && |dst| == |used| && k <= |src|
    ensures |r| == |used|
    decreases |src| - k
  {
    if k == |src| then used else UsedFrom(src, dst, used[Twin(dst, src[k]) := src[k].pages * PAGE_SIZE], k + 1)
  }

  lemma TwinsApart(src: seq<Block>, dst: seq<Block>, i: nat, j: nat)
    requires Linked(src, dst) && i < |src| && j < |src|
    ensures Twin(dst, src[i]) == Twin(dst, src[j]) ==> i == j
  {
    assert dst[Twin(dst, src[i])].id == src[i].id && dst[Twin(dst, src[j])].id == src[j].id;
  }

  /** Each of these blocks has the source's length; the others have theirs. */
  lemma {:induction false} UsedFromIs(src: seq<Block>, dst: seq<Block>, used: seq<nat>, k: nat)
    requires Linked(src, dst) && |dst| == |used| && k <= |src|
    ensures forall i :: k <= i < |src| ==> UsedFrom(src, dst, used, k)[Twin(dst, src[i])] == src[i].pages * PAGE_SIZE
    ensures forall t :: 0 <= t < |dst| && (forall i :: k <= i < |src| ==> Twin(dst, src[i]) != t) ==>
              UsedFrom(src, dst, used, k)[t] == used[t]
    decreases |src| - k
  {
    if k < |src| {
      UsedFromIs(src, dst, used[Twin(dst, src[k]) := src[k].pages * PAGE_SIZE], k + 1);
      forall i | k < i < |src| ensures Twin(dst, src[i]) != Twin(dst, src[k]) {
        TwinsApart(src, dst, i, k);
      }
    }
  }

  lemma StillAccepts(src: seq<Block>, dst: seq<Block>, fixed: seq<bool>, used: seq<nat>, k: nat)
    requires Linked(src, dst) && |dst| == |fixed| == |used| && Accepts(src, dst, fixed, used) && k < |src|
    ensures Accepts(src, dst, fixed, used[Twin(dst, src[k]) := src[k].pages * PAGE_SIZE])
  {
    forall i | 0 <= i < |src| ensures Twin(dst, src[i]) == Twin(dst, src[k]) ==> i == k {
      TwinsApart(src, dst, i, k);
    }
  }

  /** The destination has a block of that name, which has the length already or can take it. */
  ghost predicate TakesLength(dst: seq<Block>, fixed: seq<bool>, used: seq<nat>, b: Block)
    requires |dst| == |fixed| == |used|
  {
    var t := FindBlock(dst, b.id, 0);
    t >= 0 && (used[t] == b.pages * PAGE_SIZE || (!fixed[t] && b.pages <= dst[t].pages))
  }

  /** A whole number of pages is taken exactly if the block has that length already, or may be
      resized and has room. */
  lemma ResizedIs(dst: seq<Block>, fixed: seq<bool>, used: seq<nat>, t: nat, pages: nat)
    requires t < |dst| == |fixed| == |used| && pages * PAGE_SIZE < WORD_MAX
    ensures Resized(dst, fixed, used, t, pages * PAGE_SIZE) ==
            if used[t] == pages * PAGE_SIZE || (!fixed[t] && pages <= dst[t].pages)
            then Some(used[t := pages * PAGE_SIZE]) else None
  {
    WholePages(pages);
    assert used[t] == pages * PAGE_SIZE ==> used[t := pages * PAGE_SIZE] == used;
  }

  lemma WholePages(n: nat)
    requires n * PAGE_SIZE < WORD_MAX
    ensures (n * PAGE_SIZE + PAGE_SIZE - 1) % WORD_MAX / PAGE_SIZE * PAGE_SIZE == n * PAGE_SIZE
  {
    assert n < WORD_MAX / PAGE_SIZE;
    assert n * PAGE_SIZE + PAGE_SIZE - 1 < WORD_MAX;
  }

  lemma NamedAccepted(src: seq<Block>, dst: seq<Block>, fixed: seq<bool>, used: seq<nat>, k: nat)
    requires Linked(src, dst) && |dst| == |fixed| == |used| && Accepts(src, dst, fixed, used) && k < |src|
    requires src[k].pages * PAGE_SIZE < WORD_MAX
    ensures 0 < src[k].pages && |src[k].id| < 256 && (0 as Byte) !in src[k].id
    ensures FindBlock(dst, src[k].id, 0) == Twin(dst, src[k]) >= 0
    ensures TakesLength(dst, fixed, used, src[k])
  {
    assert src[k].pages > 0;
    FoundByName(src, dst, Record(k, 0, Zero, false));
  }

  /** One entry of the section is read back: the block of that name gets the length, or the
      load fails. */
  lemma EntryRead(dst: seq<Block>, fixed: seq<bool>, used: seq<nat>, input: seq<Byte>, pos: nat, total: nat, b: Block)
    requires |b.id| < 256 && (0 as Byte) !in b.id && At(input, pos, Entry(b))
    requires |dst| == |fixed| == |used| && b.pages * PAGE_SIZE <= total < WORD_MAX
    ensures EntryAt(dst, fixed, used, input, pos, total) ==
            if TakesLength(dst, fixed, used, b)
            then OneEntry(used[FindBlock(dst, b.id, 0) := b.pages * PAGE_SIZE], total - b.pages * PAGE_SIZE,
                          pos + |Entry(b)|)
            else Torn
  {
    hide FindBlock, CString, UnBe, Be, Resized;
    var name, size := Name(b), Be(b.pages * PAGE_SIZE, 8);
    AtParts(input, pos, name, size);
    Slice(input, pos, name, 1, |name|);
    assert input[pos] == name[0] && name[1..] == b.id;
    CStringWhole(b.id);
    WordRoundTrip(b.pages * PAGE_SIZE);
    var t := FindBlock(dst, b.id, 0);
    if t >= 0 {
      ResizedIs(dst, fixed, used, t, b.pages);
    }
  }

  /** Pages of the blocks from the `k`-th on. */
  ghost function PagesFrom(src: seq<Block>, k: nat): nat
    requires k <= |src|
    decreases |src| - k
  {
    if k == |src| then 0 else src[k].pages + PagesFrom(src, k + 1)
  }

  lemma {:induction false} PagesAdd(src: seq<Block>, k: nat)
    requires k <= |src|
    ensures TotalPages(src) == TotalPages(src[..k]) + PagesFrom(src, k)
    decreases |src| - k
  {
    if k == |src| {
      assert src[..k] == src;
    } else {
      PagesAdd(src, k + 1);
      assert src[..k + 1][..k] == src[..k];
    }
  }

  /** The entries of the blocks from the `k`-th on, read back. */
  lemma {:induction false} LengthsLoad(src: seq<Block>, dst: seq<Block>, fixed: seq<bool>, used: seq<nat>,
                                       input: seq<Byte>, pos: nat, k: nat)
    requires Linked(src, dst) && |dst| == |fixed| == |used| && Accepts(src, dst, fixed, used) && k <= |src|
    requires PagesFrom(src, k) * PAGE_SIZE < WORD_MAX && At(input, pos, Entries(src, k))
    ensures LengthsFrom(dst, fixed, used, input, pos, PagesFrom(src, k) * PAGE_SIZE) ==
            Lengths(UsedFrom(src, dst, used, k), pos + |Entries(src, k)|)
    decreases |src| - k
  {
    hide Linked, Accepts, Twin, EntryAt, At, LengthsFrom, PagesFrom, UsedFrom, Entries, NamesOk;
    if k == |src| {
      NoEntries(src, dst, fixed, used, input, pos);
    } else {
      var entry, used1 := EntryLoads(src, dst, fixed, used, input, pos, k);
      var total, left := PagesFrom(src, k) * PAGE_SIZE, PagesFrom(src, k + 1) * PAGE_SIZE;
      LengthsMore(dst, fixed, used, input, pos, total, used1, left, pos + |entry|);
      LengthsLoad(src, dst, fixed, used1, input, pos + |entry|, k + 1);
    }
  }

  lemma NoEntries(src: seq<Block>, dst: seq<Block>, fixed: seq<bool>, used: seq<nat>, input: seq<Byte>, pos: nat)
    requires Linked(src, dst) && |dst| == |used| == |fixed|
    ensures PagesFrom(src, |src|) * PAGE_SIZE == 0 && NamesOk(src) && Entries(src, |src|) == []
    ensures UsedFrom(src, dst, used, |src|) == used
    ensures LengthsFrom(dst, fixed, used, input, pos, 0) == Lengths(used, pos)
  {
  }

  lemma LengthsMore(dst: seq<Block>, fixed: seq<bool>, used: seq<nat>, input: seq<Byte>, pos: nat, total: nat,
                    used1: seq<nat>, left: nat, next: nat)
    requires |dst| == |used| == |fixed| && total != 0
    requires EntryAt(dst, fixed, used, input, pos, total) == OneEntry(used1, left, next)
    ensures |used1| == |used|
    ensures LengthsFrom(dst, fixed, used, input, pos, total) == LengthsFrom(dst, fixed, used1, input, next, left)
  {
    hide EntryAt;
  }

  lemma EntryLoads(src: seq<Block>, dst: seq<Block>, fixed: seq<bool>, used: seq<nat>, input: seq<Byte>, pos: nat,
                   k: nat)
    returns (entry: seq<Byte>, used1: seq<nat>)
    requires Linked(src, dst) && |dst| == |fixed| == |used| && Accepts(src, dst, fixed, used) && k < |src|
    requires PagesFrom(src, k) * PAGE_SIZE < WORD_MAX && At(input, pos, Entries(src, k))
    ensures NamesOk(src) && Entries(src, k) == entry + Entries(src, k + 1)
    ensures At(input, pos + |entry|, Entries(src, k + 1)) && 0 <= PagesFrom(src, k + 1) < PagesFrom(src, k)
    ensures |used1| == |used| && Accepts(src, dst, fixed, used1)
    ensures UsedFrom(src, dst, used, k) == UsedFrom(src, dst, used1, k + 1)
    ensures EntryAt(dst, fixed, used, input, pos, PagesFrom(src, k) * PAGE_SIZE) ==
            OneEntry(used1, PagesFrom(src, k + 1) * PAGE_SIZE, pos + |entry|)
  {
    LinkedNames(src, dst);
    assert Entries(src, k) == Entry(src[k]) + Entries(src, k + 1);
    assert PagesFrom(src, k) == src[k].pages + PagesFrom(src, k + 1);
    hide Linked, NamesOk, Accepts, TakesLength, Twin, EntryAt, At, Entries, PagesFrom, Entry;
    entry := Entry(src[k]);
    AtParts(input, pos, entry, Entries(src, k + 1));
    NamedAccepted(src, dst, fixed, used, k);
    StillAccepts(src, dst, fixed, used, k);
    used1 := used[Twin(dst, src[k]) := src[k].pages * PAGE_SIZE];
    EntryRead(dst, fixed, used, input, pos, PagesFrom(src, k) * PAGE_SIZE, src[k]);
  }

  /** The first section gives each block of the destination that the source named the source's
      length, and leaves the rest alone. */
  lemma SetupLoads(src: seq<Block>, dst: seq<Block>, fixed: seq<bool>, input: seq<Byte>, pos: nat, st: State)
    requires Linked(src, dst) && StateOk(dst, fixed, st) && Accepts(src, dst, fixed, st.used)
    requires TotalPages(src) * PAGE_SIZE < WORD_MAX && At(input, pos, SetupBytes(src))
    ensures LoadFrom(dst, fixed, input, pos, st) ==
            Done(st.(used := UsedFrom(src, dst, st.used, 0)), pos + |SetupBytes(src)|)
  {
    hide Linked, NamesOk, Accepts, Entries, SetupBytes, Be, At, LengthsFrom, UsedFrom, BlocksOk, RecordAt, TotalPages,
         PagesFrom, LoadFrom, StateOk;
    LinkedNames(src, dst);
    SameLengths(dst, fixed, st);
    SetupParts(src, input, pos);
    AllPages(src);
    LengthsLoad(src, dst, fixed, st.used, input, pos + 8, 0);
    SizesRead(dst, input, pos, TotalPages(src), st.block);
    var used, next := UsedFrom(src, dst, st.used, 0), pos + 8 + |Entries(src, 0)|;
    SizesLoad(dst, fixed, input, pos, st, TotalPages(src) * PAGE_SIZE, used, next);
    AtEnd(dst, fixed, input, next, st.(used := used));
  }

  /** Two names do not lead to one block. */
  lemma NamesApart(dst: seq<Block>, b: Block, c: Block)
    requires b.id != c.id && FindBlock(dst, b.id, 0) >= 0
    ensures FindBlock(dst, b.id, 0) != FindBlock(dst, c.id, 0)
  {
  }

  /** If the entries of the blocks from the `k`-th on load, then every one was taken. */
  lemma {:induction false} LengthsTaken(src: seq<Block>, dst: seq<Block>, fixed: seq<bool>, used: seq<nat>,
                                        input: seq<Byte>, pos: nat, k: nat)
    requires NamesOk(src) && (forall i :: 0 <= i < |src| ==> src[i].pages > 0)
    requires |dst| == |fixed| == |used| && k <= |src|
    requires PagesFrom(src, k) * PAGE_SIZE < WORD_MAX && At(input, pos, Entries(src, k))
    requires LengthsFrom(dst, fixed, used, input, pos, PagesFrom(src, k) * PAGE_SIZE).Lengths?
    ensures forall i :: k <= i < |src| ==> TakesLength(dst, fixed, used, src[i])
    decreases |src| - k
  {
    hide NamesOk, At, Entries, PagesFrom, LengthsFrom, FindBlock, TakesLength;
    if k < |src| {
      var used1, next := OneTaken(src, dst, fixed, used, input, pos, k);
      LengthsTaken(src, dst, fixed, used1, input, next, k + 1);
      forall i | k < i < |src| ensures TakesLength(dst, fixed, used, src[i]) {
        NamesDiffer(src, k, i);
        StillTaken(dst, fixed, used, src[k], src[i]);
      }
    }
  }

  lemma OneTaken(src: seq<Block>, dst: seq<Block>, fixed: seq<bool>, used: seq<nat>, input: seq<Byte>, pos: nat, k: nat)
    returns (used1: seq<nat>, next: nat)
    requires NamesOk(src) && |dst| == |fixed| == |used| && k < |src| && src[k].pages > 0
    requires PagesFrom(src, k) * PAGE_SIZE < WORD_MAX && At(input, pos, Entries(src, k))
    requires LengthsFrom(dst, fixed, used, input, pos, PagesFrom(src, k) * PAGE_SIZE).Lengths?
    ensures TakesLength(dst, fixed, used, src[k]) && 0 <= FindBlock(dst, src[k].id, 0)
    ensures used1 == used[FindBlock(dst, src[k].id, 0) := src[k].pages * PAGE_SIZE]
    ensures PagesFrom(src, k + 1) * PAGE_SIZE < WORD_MAX && At(input, next, Entries(src, k + 1))
    ensures LengthsFrom(dst, fixed, used1, input, next, PagesFrom(src, k + 1) * PAGE_SIZE).Lengths?
  {
    assert |src[k].id| < 256 && (0 as Byte) !in src[k].id;
    assert PagesFrom(src, k) == src[k].pages + PagesFrom(src, k + 1);
    assert Entries(src, k) == Entry(src[k]) + Entries(src, k + 1);
    hide NamesOk, EntryAt, At, Entries, Entry, FindBlock, PagesFrom, LengthsFrom;
    var total, left := PagesFrom(src, k) * PAGE_SIZE, PagesFrom(src, k + 1) * PAGE_SIZE;
    AtParts(input, pos, Entry(src[k]), Entries(src, k + 1));
    EntryRead(dst, fixed, used, input, pos, total, src[k]);
    assert total != 0;
    Unrefused(dst, fixed, used, input, pos, total);
    used1, next := used[FindBlock(dst, src[k].id, 0) := src[k].pages * PAGE_SIZE], pos + |Entry(src[k])|;
    LengthsMore(dst, fixed, used, input, pos, total, used1, left, next);
  }

  lemma Unrefused(dst: seq<Block>, fixed: seq<bool>, used: seq<nat>, input: seq<Byte>, pos: nat, total: nat)
    requires |dst| == |used| == |fixed| && total != 0 && LengthsFrom(dst, fixed, used, input, pos, total).Lengths?
    ensures EntryAt(dst, fixed, used, input, pos, total).OneEntry?
  {
    hide EntryAt;
  }

  lemma NamesDiffer(src: seq<Block>, i: nat, j: nat)
    requires NamesOk(src) && i < j < |src|
    ensures src[i].id != src[j].id
  {
  }

  lemma StillTaken(dst: seq<Block>, fixed: seq<bool>, used: seq<nat>, b: Block, c: Block)
    requires |dst| == |fixed| == |used| && FindBlock(dst, b.id, 0) >= 0 && b.id != c.id
    requires TakesLength(dst, fixed, used[FindBlock(dst, b.id, 0) := b.pages * PAGE_SIZE], c)
    ensures TakesLength(dst, fixed, used, c)
  {
    NamesApart(dst, b, c);
  }

  /** Where no length in use exceeds its block, taking every length is what the destination
      must fulfil for the rest of the stream, too. */
  lemma AllTaken(src: seq<Block>, dst: seq<Block>, fixed: seq<bool>, used: seq<nat>)
    requires NamesOk(src) && NamesOk(dst) && (forall i :: 0 <= i < |src| ==> src[i].pages > 0)
    requires |dst| == |fixed| == |used| && forall t :: 0 <= t < |dst| ==> used[t] <= dst[t].pages * PAGE_SIZE
    requires forall i :: 0 <= i < |src| ==> TakesLength(dst, fixed, used, src[i])
    ensures Linked(src, dst) && Accepts(src, dst, fixed, used)
  {
    forall i | 0 <= i < |src|
      ensures Twin(dst, src[i]) >= 0
      ensures fixed[Twin(dst, src[i])] ==> used[Twin(dst, src[i])] == src[i].pages * PAGE_SIZE
    {
      var t := FindBlock(dst, src[i].id, 0);
      assert TakesLength(dst, fixed, used, src[i]) && src[i].pages <= dst[t].pages;
      assert dst[t].id == src[i].id && dst[t].pages > src[i].pages - 1;
    }
  }

  /** The first section loads exactly if every block of the source has one of its name in the
      destination that is long enough, and one that cannot be resized has the source's length
      already. */
  lemma SetupLoadsExactly(src: seq<Block>, dst: seq<Block>, fixed: seq<bool>, input: seq<Byte>, pos: nat, st: State)
    requires NamesOk(src) && NamesOk(dst) && (forall i :: 0 <= i < |src| ==> src[i].pages > 0)
    requires StateOk(dst, fixed, st) && forall t :: 0 <= t < |dst| ==> st.used[t] <= dst[t].pages * PAGE_SIZE
    requires TotalPages(src) * PAGE_SIZE < WORD_MAX && At(input, pos, SetupBytes(src))
    ensures LoadFrom(dst, fixed, input, pos, st).Done? <==> Linked(src, dst) && Accepts(src, dst, fixed, st.used)
  {
    hide *;
    SameLengths(dst, fixed, st);
    if LoadFrom(dst, fixed, input, pos, st).Done? {
      SetupParts(src, input, pos);
      AllPages(src);
      SizesRead(dst, input, pos, TotalPages(src), st.block);
      SizesTaken(dst, fixed, input, pos, st, TotalPages(src) * PAGE_SIZE);
      LengthsTaken(src, dst, fixed, st.used, input, pos + 8, 0);
      AllTaken(src, dst, fixed, st.used);
    } else if Linked(src, dst) && Accepts(src, dst, fixed, st.used) {
      SetupLoads(src, dst, fixed, input, pos, st);
    }
  }

  lemma SizesTaken(dst: seq<Block>, fixed: seq<bool>, input: seq<Byte>, pos: nat, st: State, total: nat)
    requires StateOk(dst, fixed, st) && RecordAt(dst, input, pos, st.block) == Sizes(total, pos + 8)
    requires LoadFrom(dst, fixed, input, pos, st).Done?
    ensures LengthsFrom(dst, fixed, st.used, input, pos + 8, total).Lengths?
  {
    hide RecordAt, LengthsFrom, BlocksOk;
  }

  lemma SetupParts(src: seq<Block>, input: seq<Byte>, pos: nat)
    requires NamesOk(src) && At(input, pos, SetupBytes(src))
    ensures At(input, pos, Be(TotalPages(src) * PAGE_SIZE + MEM_SIZE, 8)) && At(input, pos + 8, Entries(src, 0))
    ensures At(input, pos + 8 + |Entries(src, 0)|, Be(EOS, 8)) && |SetupBytes(src)| == 8 + |Entries(src, 0)| + 8
  {
    hide Be, At, Entries, TotalPages;
    var word, entries := Be(TotalPages(src) * PAGE_SIZE + MEM_SIZE, 8), Entries(src, 0);
    AtParts(input, pos, word + entries, Be(EOS, 8));
    AtParts(input, pos, word, entries);
  }

  lemma SameLengths(dst: seq<Block>, fixed: seq<bool>, st: State)
    requires StateOk(dst, fixed, st)
    ensures |dst| == |fixed| == |st.used| && -1 <= st.block < |dst|
  {
  }

  lemma SizesLoad(dst: seq<Block>, fixed: seq<bool>, input: seq<Byte>, pos: nat, st: State, total: nat, used: seq<nat>,
                  next: nat)
    requires StateOk(dst, fixed, st) && RecordAt(dst, input, pos, st.block) == Sizes(total, pos + 8)
    requires LengthsFrom(dst, fixed, st.used, input, pos + 8, total) == Lengths(used, next)
    ensures StateOk(dst, fixed, st.(used := used))
    ensures LoadFrom(dst, fixed, input, pos, st) == LoadFrom(dst, fixed, input, next, st.(used := used))
  {
    hide RecordAt, LengthsFrom, BlocksOk;
  }

  lemma AllPages(src: seq<Block>)
    ensures PagesFrom(src, 0) == TotalPages(src)
  {
    PagesAdd(src, 0);
    assert src[..0] == [];
  }

  lemma SizesRead(dst: seq<Block>, input: seq<Byte>, pos: nat, total: nat, block: int)
    requires -1 <= block < |dst| && total * PAGE_SIZE < WORD_MAX && At(input, pos, Be(total * PAGE_SIZE + MEM_SIZE, 8))
    ensures RecordAt(dst, input, pos, block) == Sizes(total * PAGE_SIZE, pos + 8)
  {
    hide Be, UnBe, HostAt, ContentAt;
    assert total < WORD_MAX / PAGE_SIZE;
    WordRoundTrip(total * PAGE_SIZE + MEM_SIZE);
    LowBits(total, MEM_SIZE);
  }

  /** Blocks apart from each other have no more pages than the memory. */
  lemma TotalFits(blocks: seq<Block>, n: nat)
    requires BlocksOk(blocks, n)
    ensures TotalPages(blocks) <= n
  {
    var bits := seq(n, _ => true);
    CountAll(bits, blocks, n);
    CountAtMost(bits, blocks, n);
  }

  lemma {:induction false} CountAtMost(bits: seq<bool>, blocks: seq<Block>, n: nat)
    requires n <= |bits|
    ensures Count(bits, blocks, n) <= n
    decreases n
  {
    if n > 0 {
      CountAtMost(bits, blocks, n - 1);
    }
  }
}
