/** The software TLB: a direct-mapped table and a small victim table for each MMU mode, and
    one region that covers every large page (qemu/cputlb.c:51-122, 224-332,
    qemu/softmmu_template.h:119-141). */
module SoftTlb {
  import opened MachineWords

  type Address = bv64

  const TLB_SIZE: nat := 256
  const VTLB_SIZE: nat := 8
  const ALL_ONES: Address := 0xFFFF_FFFF_FFFF_FFFF
  const PAGE_MASK: Address := 0xFFFF_FFFF_FFFF_F000
  const INVALID_MASK: Address := 0x8

  datatype Entry = Entry(read: Address, write: Address, code: Address)

  function Empty(): Entry
  {
    Entry(ALL_ONES, ALL_ONES, ALL_ONES)
  }

  function Page(a: Address): Address
  {
    a & PAGE_MASK
  }

  /** The comparison that an access makes. */
  predicate Hits(tag: Address, page: Address)
  {
    page == tag & (PAGE_MASK | INVALID_MASK)
  }

  predicate Matches(e: Entry, page: Address)
  {
    Hits(e.read, page) || Hits(e.write, page) || Hits(e.code, page)
  }

  datatype Access = Read | Write | Fetch

  function Tag(e: Entry, kind: Access): Address
  {
    match kind
    case Read => e.read
    case Write => e.write
    case Fetch => e.code
  }

  /** No two pages share the entry. */
  ghost predicate OnePage(e: Entry)
  {
    forall a, b :: Matches(e, Page(a)) && Matches(e, Page(b)) ==> Page(a) == Page(b)
  }

  function Index(a: Address): (i: nat)
    ensures i < TLB_SIZE
  {
    (a & 0xFF) as nat
  }

  function Slot(a: Address): (i: nat)
    ensures i < TLB_SIZE
  {
    Index((a >> 12) & 0xFF)
  }

  /** Two addresses have the same slot exactly if the low eight bits of their page numbers
      agree. */
  lemma SlotsApart(a: Address, b: Address)
    ensures Slot(a) == Slot(b) <==> (a ^ b) & 0xF_F000 == 0
  {
    var x, y := (a >> 12) & 0xFF, (b >> 12) & 0xFF;
    IndexApart(x, y);
    assert x & 0xFF == x && y & 0xFF == y;
    assert x == y <==> (a ^ b) & 0xF_F000 == 0;
    hide Index;
  }

  lemma IndexApart(x: Address, y: Address)
    ensures Index(x) == Index(y) <==> x & 0xFF == y & 0xFF
  {
  }

  /** A tag made from `vaddr` and low flag bits, or none. */
  ghost predicate TagFor(tag: Address, vaddr: Address)
  {
    tag == ALL_ONES || tag & PAGE_MASK == vaddr & PAGE_MASK
  }

  lemma EmptyMatchesNothing(a: Address)
    ensures !Matches(Empty(), Page(a))
  {
  }

  /** A page that a tag hits is the page the tag was made for. */
  lemma HitsOwnPage(tag: Address, vaddr: Address, a: Address)
    requires TagFor(tag, vaddr) && Hits(tag, Page(a))
    ensures Page(a) == Page(vaddr) && Slot(Page(a)) == Slot(vaddr)
  {
    hide Index;
    HitBits(tag, vaddr, a);
  }

  lemma HitBits(tag: Address, vaddr: Address, a: Address)
    requires TagFor(tag, vaddr) && Hits(tag, Page(a))
    ensures Page(a) == Page(vaddr) && (Page(a) >> 12) & 0xFF == (vaddr >> 12) & 0xFF
  {
  }

  // ---- Masks ------------------------------------------------------------------------

  /** If a bit is set then so are all above it. */
  ghost predicate HighMask(m: Address)
  {
    m & (m << 1) == m << 1
  }

  ghost predicate PowerOfTwo(size: Address)
  {
    size != 0 && size & (size - 1) == 0
  }

  function MaskOf(size: Address): Address
  {
    !(size - 1)
  }

  lemma SizeMask(size: Address)
    requires PowerOfTwo(size)
    ensures HighMask(MaskOf(size))
  {
  }

  function Twice(m: Address): Address
  {
    m << 1
  }

  function And(a: Address, b: Address): Address
  {
    a & b
  }

  ghost predicate Within(m: Address, m0: Address)
  {
    And(m, m0) == m
  }

  predicate Differ(x: Address, y: Address, m: Address)
  {
    (x ^ y) & m != 0
  }

  /** Shifting a high mask leaves one inside it. */
  lemma ShiftInside(m: Address, m0: Address)
    requires HighMask(m) && Within(m, m0)
    ensures HighMask(Twice(m)) && Within(Twice(m), m0)
  {
  }

  /** Each shift clears one more bit, so there are at most 64. */
  lemma ShiftClears(m: Address, k: nat)
    requires And(m, Ones(k)) == 0
    ensures And(Twice(m), Ones(k + 1)) == 0
  {
    ShiftBits(m, Ones(k));
  }

  lemma ShiftBits(m: Address, o: Address)
    requires m & o == 0
    ensures (m << 1) & ((o << 1) | 1) == 0
  {
  }

  lemma AllCleared(x: Address, y: Address, m: Address)
    requires And(m, Ones(64)) == 0
    ensures !Differ(x, y, m)
  {
    Ones32();
    assert Ones(40) == 0xFF_FFFF_FFFF && Ones(48) == 0xFFFF_FFFF_FFFF && Ones(56) == 0xFF_FFFF_FFFF_FFFF;
    assert Ones(64) == ALL_ONES;
    Nothing(x, y, m);
  }

  lemma Ones32()
    ensures Ones(32) == 0xFFFF_FFFF
  {
    assert Ones(8) == 0xFF && Ones(16) == 0xFFFF && Ones(24) == 0xFF_FFFF;
  }

  lemma Nothing(x: Address, y: Address, m: Address)
    requires m & ALL_ONES == 0
    ensures (x ^ y) & m == 0
  {
  }

  /** The loop of tlb_add_large_page: the widest high mask inside `m0` under which the two
      addresses agree. */
  method Widen(x: Address, y: Address, m0: Address) returns (m: Address)
    requires HighMask(m0)
    ensures HighMask(m) && Within(m, m0) && !Differ(x, y, m)
    ensures Widest(x, y, m0, m)
  {
    hide HighMask, Within, Differ, Twice, And, Widest, Ones;
    m := m0;
    WithinSelf(m0);
    WidestStart(x, y, m0);
    ghost var k := 0;
    while Differ(x, y, m)
      invariant HighMask(m) && Within(m, m0) && Widest(x, y, m0, m)
      invariant k <= 64 && And(m, Ones(k)) == 0
      decreases 64 - k
    {
      if k == 64 {
        AllCleared(x, y, m);
      }
      ShiftInside(m, m0);
      StillWidest(x, y, m, m0);
      ShiftClears(m, k);
      m := Twice(m);
      k := k + 1;
    }
  }

  /** No high mask inside `m0` under which the two addresses agree has more bits. */
  ghost predicate Widest(x: Address, y: Address, m0: Address, m: Address)
  {
    forall k: Address :: HighMask(k) && Within(k, m0) && !Differ(x, y, k) ==> Within(k, m)
  }

  lemma WidestStart(x: Address, y: Address, m0: Address)
    ensures Widest(x, y, m0, m0) && And(m0, Ones(0)) == 0
  {
  }

  lemma StillWidest(x: Address, y: Address, m: Address, m0: Address)
    requires HighMask(m) && Differ(x, y, m) && Widest(x, y, m0, m)
    ensures Widest(x, y, m0, Twice(m))
  {
    hide HighMask, Within, Differ, Twice;
    forall k: Address | HighMask(k) && Within(k, m0) && !Differ(x, y, k) ensures Within(k, Twice(m)) {
      NextWithin(x, y, m, k);
    }
  }

  lemma WithinSelf(m: Address)
    ensures Within(m, m)
  {
  }

  lemma NextWithin(x: Address, y: Address, m: Address, k: Address)
    requires HighMask(m) && HighMask(k) && Within(k, m) && Differ(x, y, m) && !Differ(x, y, k)
    ensures Within(k, Twice(m))
  {
  }

  /** A large page that holds `vaddr`. */
  datatype Large = Large(vaddr: Address, size: Address)

  ghost predicate InLarge(a: Address, p: Large)
  {
    And(a, MaskOf(p.size)) == And(p.vaddr, MaskOf(p.size))
  }

  predicate InRegion(a: Address, addr: Address, mask: Address)
  {
    And(a, mask) == addr
  }

  ghost predicate IsLarge(p: Large)
  {
    PowerOfTwo(p.size) && p.size > 0x1000
  }

  /** The region covers the large page. */
  ghost predicate Covered(addr: Address, mask: Address, p: Large)
  {
    Within(mask, MaskOf(p.size)) && InRegion(p.vaddr, addr, mask)
  }

  /** A set region, as against the mark that there is none. */
  ghost predicate IsRegion(addr: Address, mask: Address)
  {
    HighMask(mask) && InRegion(addr, addr, mask) && addr != ALL_ONES
  }

  /** The region covers every large page. */
  ghost predicate CoversAll(addr: Address, mask: Address, large: seq<Large>)
  {
    IsRegion(addr, mask) && forall p :: p in large ==> Covered(addr, mask, p)
  }

  /** No region that covers every large page is smaller. */
  ghost predicate Tight(mask: Address, large: seq<Large>)
  {
    forall addr: Address, k: Address :: CoversAll(addr, k, large) ==> Within(k, mask)
  }

  /** The address is in every region that covers all large pages, and there is one of these. */
  ghost predicate InHull(a: Address, large: seq<Large>)
  {
    large != [] && forall addr: Address, k: Address :: CoversAll(addr, k, large) ==> InRegion(a, addr, k)
  }

  /** The smallest region holds exactly what all regions hold. */
  lemma TightIsHull(a: Address, addr: Address, mask: Address, large: seq<Large>)
    requires CoversAll(addr, mask, large) && Tight(mask, large) && large != []
    ensures InRegion(a, addr, mask) <==> InHull(a, large)
  {
    hide And, MaskOf, HighMask, Within;
    var p := large[0];
    if InRegion(a, addr, mask) {
      forall addr': Address, k: Address | CoversAll(addr', k, large) ensures InRegion(a, addr', k) {
        assert Covered(addr', k, p) && Covered(addr, mask, p);
        AndNarrow(a, mask, k);
        AndNarrow(p.vaddr, mask, k);
      }
    }
  }

  lemma OneLarge(a: Address, p: Large)
    requires IsLarge(p)
    ensures InHull(a, [p]) <==> InLarge(a, p)
  {
    FirstRegion(p);
    FirstTight(p);
    TightIsHull(a, And(p.vaddr, MaskOf(p.size)), MaskOf(p.size), [p]);
  }

  lemma FirstTight(p: Large)
    ensures Tight(MaskOf(p.size), [p])
  {
    hide And, MaskOf, HighMask, Within;
    forall addr: Address, k: Address | CoversAll(addr, k, [p]) ensures Within(k, MaskOf(p.size)) {
      assert Covered(addr, k, p);
    }
  }

  /** The widest mask under which the region and the new page agree is that of the smallest
      region around both. */
  lemma StillTight(addr: Address, mask: Address, large: seq<Large>, p: Large, m: Address)
    requires CoversAll(addr, mask, large) && Tight(mask, large) && large != []
    requires Widest(addr, p.vaddr, And(MaskOf(p.size), mask), m)
    ensures Tight(m, large + [p])
  {
    hide And, MaskOf, HighMask, Within, Differ;
    var q, all := large[0], large + [p];
    assert all[|large|] == p;
    forall addr': Address, k: Address | CoversAll(addr', k, all) ensures Within(k, m) {
      assert CoversAll(addr', k, large) by {
        assert forall r :: r in large ==> r in all;
      }
      assert Covered(addr', k, p) && Covered(addr', k, q) && Covered(addr, mask, q);
      AndNarrow(q.vaddr, mask, k);
      Agree(addr, p.vaddr, k);
      InBoth(k, MaskOf(p.size), mask);
    }
  }

  lemma NoRegion(a: Address)
    ensures !InRegion(a, ALL_ONES, 0) && !InHull(a, [])
  {
  }

  lemma Agree(x: Address, y: Address, m: Address)
    requires And(x, m) == And(y, m)
    ensures !Differ(x, y, m)
  {
  }

  lemma InBoth(m: Address, k: Address, l: Address)
    requires Within(m, k) && Within(m, l)
    ensures Within(m, And(k, l))
  {
  }

  lemma LargeInRegion(a: Address, addr: Address, mask: Address, p: Large)
    requires Covered(addr, mask, p) && InLarge(a, p)
    ensures InRegion(a, addr, mask)
  {
    hide And, MaskOf;
    AndTwice(a, p.vaddr, MaskOf(p.size), mask);
  }

  lemma AndTwice(a: Address, v: Address, m: Address, k: Address)
    requires Within(k, m) && And(a, m) == And(v, m)
    ensures And(a, k) == And(v, k)
  {
  }

  lemma FirstRegion(p: Large)
    requires IsLarge(p)
    ensures IsRegion(And(p.vaddr, MaskOf(p.size)), MaskOf(p.size))
    ensures Covered(And(p.vaddr, MaskOf(p.size)), MaskOf(p.size), p)
  {
    hide And, MaskOf, PowerOfTwo, HighMask;
    var m := MaskOf(p.size);
    SizeMask(p.size);
    WithinSelf(m);
    AndAgain(p.vaddr, m);
    Masked(p.vaddr, p.size, m);
  }

  lemma AndAgain(a: Address, m: Address)
    ensures And(And(a, m), m) == And(a, m)
  {
  }

  /** Under the mask of a large page no address is the mark. */
  lemma Masked(v: Address, size: Address, m: Address)
    requires PowerOfTwo(size) && size > 0x1000 && Within(m, MaskOf(size))
    ensures And(v, m) != ALL_ONES
  {
  }

  lemma StartMask(mask: Address, p: Large)
    requires HighMask(mask) && IsLarge(p)
    ensures HighMask(And(MaskOf(p.size), mask))
  {
    hide And, MaskOf, HighMask, PowerOfTwo;
    SizeMask(p.size);
    BothHigh(MaskOf(p.size), mask);
  }

  lemma BothHigh(m: Address, k: Address)
    requires HighMask(m) && HighMask(k)
    ensures HighMask(And(m, k))
  {
  }

  /** Widening the region keeps what it covers and takes in the new page. */
  lemma Widened(addr: Address, mask: Address, p: Large, m: Address)
    requires IsRegion(addr, mask) && HighMask(m) && Within(m, And(MaskOf(p.size), mask)) && !Differ(addr, p.vaddr, m)
    requires IsLarge(p)
    ensures IsRegion(And(addr, m), m) && Covered(And(addr, m), m, p)
    ensures forall q: Large :: Covered(addr, mask, q) ==> Covered(And(addr, m), m, q)
  {
    hide And, MaskOf, PowerOfTwo, HighMask, Within, Differ;
    WithinBoth(m, MaskOf(p.size), mask);
    AndAgain(addr, m);
    SameUnder(addr, p.vaddr, m);
    Masked(addr, p.size, m);
    forall q: Large | Covered(addr, mask, q) ensures Covered(And(addr, m), m, q) {
      WithinWithin(m, mask, MaskOf(q.size));
      AndNarrow(q.vaddr, mask, m);
    }
  }

  lemma WithinBoth(m: Address, k: Address, l: Address)
    requires Within(m, And(k, l))
    ensures Within(m, k) && Within(m, l)
  {
  }

  lemma SameUnder(x: Address, y: Address, m: Address)
    requires !Differ(x, y, m)
    ensures And(y, m) == And(x, m)
  {
  }

  lemma WithinWithin(m: Address, k: Address, l: Address)
    requires Within(m, k) && Within(k, l)
    ensures Within(m, l)
  {
  }

  lemma AndNarrow(v: Address, mask: Address, m: Address)
    requires Within(m, mask)
    ensures And(v, m) == And(And(v, mask), m)
  {
  }

  function Flushed(e: Entry, page: Address): Entry
  {
    if Matches(e, page) then Empty() else e
  }

  /** The entry is for one page at most, and the page has been set. */
  ghost predicate EntryOk(e: Entry, mapped: set<Address>)
  {
    OnePage(e) && forall a :: Matches(e, Page(a)) ==> Page(a) in mapped
  }

  ghost predicate InSlot(e: Entry, i: int)
  {
    forall a :: Matches(e, Page(a)) ==> i == Slot(Page(a))
  }

  /** The two tables of a mode: in the main one an entry is in the slot of its page. */
  ghost predicate TablesOk(main: seq<Entry>, victim: seq<Entry>, mapped: set<Address>)
  {
    && (forall i :: 0 <= i < |main| ==> EntryOk(main[i], mapped) && InSlot(main[i], i))
    && (forall k :: 0 <= k < |victim| ==> EntryOk(victim[k], mapped))
  }

  lemma EmptyOk(mapped: set<Address>)
    ensures EntryOk(Empty(), mapped) && forall i :: InSlot(Empty(), i)
  {
    hide Matches, Page, Slot;
    forall a ensures !Matches(Empty(), Page(a)) {
      EmptyMatchesNothing(a);
    }
  }

  lemma MoreMapped(main: seq<Entry>, victim: seq<Entry>, mapped: set<Address>, mapped': set<Address>)
    requires TablesOk(main, victim, mapped) && mapped <= mapped'
    ensures TablesOk(main, victim, mapped')
  {
    hide OnePage, Matches, Page, InSlot;
  }

  lemma NewEntryOk(e: Entry, vaddr: Address, mapped: set<Address>)
    requires TagFor(e.read, vaddr) && TagFor(e.write, vaddr) && TagFor(e.code, vaddr) && Page(vaddr) in mapped
    ensures EntryOk(e, mapped) && InSlot(e, Slot(vaddr))
  {
    hide Matches, Page, Slot, TagFor;
    forall a | Matches(e, Page(a)) ensures Page(a) == Page(vaddr) && Slot(Page(a)) == Slot(vaddr) {
      OwnPage(e, vaddr, a);
    }
  }

  lemma SetTables(main: seq<Entry>, victim: seq<Entry>, mapped: set<Address>, vaddr: Address, v: nat, e: Entry)
    requires TablesOk(main, victim, mapped) && |main| == TLB_SIZE && v < |victim|
    requires TagFor(e.read, vaddr) && TagFor(e.write, vaddr) && TagFor(e.code, vaddr)
    ensures TablesOk(main[Slot(vaddr) := e], victim[v := main[Slot(vaddr)]], mapped + {Page(vaddr)})
  {
    NewEntryOk(e, vaddr, mapped + {Page(vaddr)});
    MoreMapped(main, victim, mapped, mapped + {Page(vaddr)});
    hide EntryOk, InSlot, Slot, Page, TagFor;
  }

  lemma SwapTables(main: seq<Entry>, victim: seq<Entry>, mapped: set<Address>, addr: Address, k: nat, kind: Access)
    requires TablesOk(main, victim, mapped) && |main| == TLB_SIZE && k < |victim| && Tag(victim[k], kind) == Page(addr)
    ensures TablesOk(main[Slot(addr) := victim[k]], victim[k := main[Slot(addr)]], mapped)
  {
    assert InSlot(victim[k], Slot(addr)) by {
      TagMatches(victim[k], kind, addr);
      hide Matches, Page, Slot;
      assert OnePage(victim[k]);
    }
    hide EntryOk, InSlot, Slot, Page;
  }

  lemma FlushTables(main: seq<Entry>, victim: seq<Entry>, main': seq<Entry>, victim': seq<Entry>,
                    mapped: set<Address>, a: Address)
    requires TablesOk(main, victim, mapped) && |main| == |main'| && |victim| == |victim'|
    requires forall i :: 0 <= i < |main| ==> main'[i] == Flushed(main[i], Page(a))
    requires forall k :: 0 <= k < |victim| ==> victim'[k] == Flushed(victim[k], Page(a))
    ensures TablesOk(main', victim', mapped - {Page(a)})
  {
    hide EntryOk, InSlot, Flushed, Page;
    forall i | 0 <= i < |main| ensures EntryOk(main'[i], mapped - {Page(a)}) && InSlot(main'[i], i) {
      FlushedOk(main[i], i, mapped, a);
    }
    forall k | 0 <= k < |victim| ensures EntryOk(victim'[k], mapped - {Page(a)}) {
      FlushedOk(victim[k], k, mapped, a);
    }
  }

  lemma OtherSlots(main: seq<Entry>, victim: seq<Entry>, mapped: set<Address>, a: Address)
    requires TablesOk(main, victim, mapped)
    ensures forall i :: 0 <= i < |main| && i != Slot(Page(a)) ==> Flushed(main[i], Page(a)) == main[i]
  {
    hide EntryOk, Matches, Page, Slot;
  }

  lemma FlushedOk(e: Entry, i: int, mapped: set<Address>, a: Address)
    requires EntryOk(e, mapped)
    ensures EntryOk(Flushed(e, Page(a)), mapped - {Page(a)})
    ensures InSlot(e, i) ==> InSlot(Flushed(e, Page(a)), i)
  {
    hide Matches, Page, Slot;
    EmptyOk(mapped - {Page(a)});
  }

  class Tlb {
    const modes: nat
    var main: seq<seq<Entry>>
    var victim: seq<seq<Entry>>
    var vtlbIndex: nat
    var flushAddr: Address
    var flushMask: Address
    /** The large pages added since the last full flush. */
    ghost var large: seq<Large>
    /** The pages set since they were last flushed. */
    ghost var mapped: set<Address>

    ghost predicate Sized()
      reads this
    {
      && |main| == |victim| == modes
      && (forall m :: 0 <= m < modes ==> |main[m]| == TLB_SIZE)
      && (forall m :: 0 <= m < modes ==> |victim[m]| == VTLB_SIZE)
    }

    /** The region is the smallest one that covers every large page. */
    ghost predicate RegionOk()
      reads this
    {
      if large == [] then flushAddr == ALL_ONES && flushMask == 0
      else CoversAll(flushAddr, flushMask, large) && Tight(flushMask, large)
    }

    ghost predicate Valid()
      reads this
    {
      && Sized() && RegionOk()
      && forall m :: 0 <= m < modes ==> TablesOk(main[m], victim[m], mapped)
    }

    ghost predicate NoEntry(page: Address)
      requires Sized()
      reads this
    {
      && (forall m, i :: 0 <= m < modes && 0 <= i < TLB_SIZE ==> !Matches(main[m][i], page))
      && (forall m, k :: 0 <= m < modes && 0 <= k < VTLB_SIZE ==> !Matches(victim[m][k], page))
    }

    ghost predicate AllEmpty()
      requires Sized()
      reads this
    {
      && (forall m, i :: 0 <= m < modes && 0 <= i < TLB_SIZE ==> main[m][i] == Empty())
      && (forall m, k :: 0 <= m < modes && 0 <= k < VTLB_SIZE ==> victim[m][k] == Empty())
    }

    constructor (modes0: nat)
      ensures Valid() && AllEmpty() && modes == modes0 && large == [] && mapped == {} && vtlbIndex == 0
    {
      modes := modes0;
      main := seq(modes0, _ => seq(TLB_SIZE, _ => Empty()));
      victim := seq(modes0, _ => seq(VTLB_SIZE, _ => Empty()));
      vtlbIndex, flushAddr, flushMask, large, mapped := 0, ALL_ONES, 0, [], {};
      new;
      hide Matches, Page, TablesOk;
      NothingHere();
    }

    lemma NothingHere()
      requires Sized() && AllEmpty()
      ensures (forall a :: NoEntry(Page(a))) && forall m :: 0 <= m < modes ==> TablesOk(main[m], victim[m], {})
    {
      EmptyOk({});
      hide Matches, Page, EntryOk, InSlot;
      forall a ensures NoEntry(Page(a)) {
        EmptyMatchesNothing(a);
      }
    }

    lemma EntryMapped(a: Address)
      requires Valid() && !NoEntry(Page(a))
      ensures Page(a) in mapped
    {
      hide Matches, Page, Slot;
    }

    /** tlb_flush */
    method Flush()
      requires Sized()
      modifies this
      ensures Valid() && AllEmpty() && large == [] && mapped == {} && vtlbIndex == 0
    {
      hide Matches, Page, TablesOk;
      main := seq(modes, _ => seq(TLB_SIZE, _ => Empty()));
      victim := seq(modes, _ => seq(VTLB_SIZE, _ => Empty()));
      vtlbIndex, flushAddr, flushMask, large, mapped := 0, ALL_ONES, 0, [], {};
      NothingHere();
    }

    /** tlb_add_large_page */
    method AddLargePage(p: Large)
      requires RegionOk() && IsLarge(p)
      modifies this`flushAddr, this`flushMask, this`large
      ensures RegionOk() && large == old(large) + [p]
      ensures old(large) == [] ==> flushAddr == And(p.vaddr, MaskOf(p.size)) && flushMask == MaskOf(p.size)
      ensures old(large) != [] ==>
                Widest(old(flushAddr), p.vaddr, And(MaskOf(p.size), old(flushMask)), flushMask)
    {
      hide IsRegion, Covered, IsLarge, Within, HighMask, Differ, MaskOf, InRegion, And, Tight, Widest;
      if flushAddr == ALL_ONES {
        FirstRegion(p);
        FirstTight(p);
        assert large == [] by {
          assert large != [] ==> IsRegion(flushAddr, flushMask);
          RegionIsSet(flushAddr, flushMask);
        }
        assert large + [p] == [p];
        flushAddr, flushMask := And(p.vaddr, MaskOf(p.size)), MaskOf(p.size);
      } else {
        assert HighMask(flushMask) by { RegionIsSet(flushAddr, flushMask); }
        StartMask(flushMask, p);
        var mask := Widen(flushAddr, p.vaddr, And(MaskOf(p.size), flushMask));
        Widened(flushAddr, flushMask, p, mask);
        StillTight(flushAddr, flushMask, large, p, mask);
        flushAddr, flushMask := And(flushAddr, mask), mask;
      }
      large := large + [p];
    }

    /** tlb_flush_page: afterwards no entry of any mode is for the page; the whole TLB goes
        exactly if the address lies in the smallest region around all large pages. */
    method FlushPage(a: Address)
      requires Valid()
      modifies this
      ensures Valid() && NoEntry(Page(a))
      ensures (exists p :: p in old(large) && InLarge(a, p)) ==> AllEmpty() && InHull(a, old(large))
      ensures old(InRegion(a, flushAddr, flushMask)) <==> InHull(a, old(large))
      ensures if InHull(a, old(large)) then AllEmpty() && mapped == {} && large == []
              else Removed(old(main), main, Page(a)) && Removed(old(victim), victim, Page(a))
                   && mapped == old(mapped) - {Page(a)} && large == old(large) && vtlbIndex == old(vtlbIndex)
    {
      hide Matches, Page, Slot, InLarge, InRegion, IsRegion, Covered, TablesOk, Flushed, Tight, InHull;
      forall p | p in large && InLarge(a, p) ensures InRegion(a, flushAddr, flushMask) {
        LargeInRegion(a, flushAddr, flushMask, p);
      }
      if large == [] {
        NoRegion(a);
      } else {
        TightIsHull(a, flushAddr, flushMask, large);
      }
      if InRegion(a, flushAddr, flushMask) {
        Flush();
        NothingHere();
        return;
      }
      var page := Page(a);
      FlushMain(page);
      FlushVictims(page);
      mapped := mapped - {page};
      NoneLeft(a);
      forall m | 0 <= m < modes
        ensures (forall i :: 0 <= i < TLB_SIZE ==> main[m][i] == Flushed(old(main)[m][i], page))
                && TablesOk(main[m], victim[m], mapped) {
        OtherSlots(old(main)[m], old(victim)[m], old(mapped), a);
        FlushTables(old(main)[m], old(victim)[m], main[m], victim[m], old(mapped), a);
      }
    }

    /** The slot of the page, in every mode. */
    method FlushMain(page: Address)
      requires Sized()
      modifies this`main
      ensures Sized()
      ensures forall m, i :: 0 <= m < modes && 0 <= i < TLB_SIZE ==>
                main[m][i] == if i == Slot(page) then Flushed(old(main)[m][i], page) else old(main)[m][i]
    {
      hide Matches, Slot, Flushed;
      var i := Slot(page);
      var m := 0;
      while m < modes
        invariant 0 <= m <= modes && |main| == modes && forall n :: 0 <= n < modes ==> |main[n]| == TLB_SIZE
        invariant forall n, k :: 0 <= n < modes && 0 <= k < TLB_SIZE ==>
                    main[n][k] == if n < m && k == i then Flushed(old(main)[n][k], page) else old(main)[n][k]
      {
        main := main[m := main[m][i := Flushed(main[m][i], page)]];
        m := m + 1;
      }
    }

    /** Every victim, in every mode. */
    method FlushVictims(page: Address)
      requires Sized()
      modifies this`victim
      ensures Sized()
      ensures forall m, k :: 0 <= m < modes && 0 <= k < VTLB_SIZE ==> victim[m][k] == Flushed(old(victim)[m][k], page)
    {
      hide Matches, Slot, Flushed;
      var m := 0;
      while m < modes
        invariant 0 <= m <= modes && |victim| == modes && forall n :: 0 <= n < modes ==> |victim[n]| == VTLB_SIZE
        invariant forall n, k :: 0 <= n < modes && 0 <= k < VTLB_SIZE ==>
                    victim[n][k] == if n < m then Flushed(old(victim)[n][k], page) else old(victim)[n][k]
      {
        var k, row := 0, victim[m];
        while k < VTLB_SIZE
          invariant 0 <= k <= VTLB_SIZE && |row| == VTLB_SIZE
          invariant forall j :: 0 <= j < VTLB_SIZE ==>
                      row[j] == if j < k then Flushed(victim[m][j], page) else victim[m][j]
        {
          row := row[k := Flushed(row[k], page)];
          k := k + 1;
        }
        victim := victim[m := row];
        m := m + 1;
      }
    }

    /** tlb_set_page: the old entry of the slot becomes a victim.  The new tags are `vaddr` with
        flag bits below the page bits, or absent. */
    method SetPage(vaddr: Address, mode: nat, size: Address, read: Address, write: Address, code: Address)
      requires Valid() && mode < modes && (size == 0x1000 || IsLarge(Large(vaddr, size)))
      requires TagFor(read, vaddr) && TagFor(write, vaddr) && TagFor(code, vaddr)
      modifies this
      ensures Valid() && mapped == old(mapped) + {Page(vaddr)}
      ensures large == if size == 0x1000 then old(large) else old(large) + [Large(vaddr, size)]
      ensures main == old(main)[mode := old(main)[mode][Slot(vaddr) := Entry(read, write, code)]]
      ensures var evicted := old(main)[mode][Slot(vaddr)];
              victim == old(victim)[mode := old(victim)[mode][old(vtlbIndex) % VTLB_SIZE := evicted]]
      ensures vtlbIndex == old(vtlbIndex) + 1
      ensures forall a :: AtMostOne(main[mode], victim[mode], Page(a)) <==>
                StaysOne(old(main)[mode], old(victim)[mode], old(vtlbIndex) % VTLB_SIZE,
                         Entry(read, write, code), Page(a))
    {
      hide Matches, Page, Slot, TagFor, IsLarge, IsRegion, Covered, AtMostOne, StaysOne, TablesOk;
      var vidx := vtlbIndex % VTLB_SIZE;
      OneAfterSet(main[mode], victim[mode], mapped, vaddr, vidx, Entry(read, write, code));
      SetTables(main[mode], victim[mode], mapped, vaddr, vidx, Entry(read, write, code));
      forall m | 0 <= m < modes ensures TablesOk(main[m], victim[m], mapped + {Page(vaddr)}) {
        MoreMapped(main[m], victim[m], mapped, mapped + {Page(vaddr)});
      }
      vtlbIndex := vtlbIndex + 1;
      if size != 0x1000 {
        AddLargePage(Large(vaddr, size));
      }
      var index := Slot(vaddr);
      var te := main[mode][index];
      victim := victim[mode := victim[mode][vidx := te]];
      main := main[mode := main[mode][index := Entry(read, write, code)]];
      mapped := mapped + {Page(vaddr)};
    }

    /** VICTIM_TLB_HIT: the last victim with this tag changes places with the entry of the slot,
        which then is for the page; without one nothing changes. */
    method VictimHit(addr: Address, mode: nat, kind: Access) returns (hit: bool)
      requires Valid() && mode < modes
      modifies this`main, this`victim
      ensures Valid() && hit == exists e :: e in old(victim)[mode] && Tag(e, kind) == Page(addr)
      ensures if hit then exists k :: LastTagged(old(victim)[mode], kind, Page(addr), k)
                                      && Swapped(old(main), old(victim), main, victim, mode, Slot(addr), k)
              else main == old(main) && victim == old(victim)
      ensures hit ==> Matches(main[mode][Slot(addr)], Page(addr))
      ensures forall page :: AtMostOne(main[mode], victim[mode], page) <==>
                AtMostOne(old(main)[mode], old(victim)[mode], page)
    {
      hide Matches, Page, Slot, IsRegion, Covered, AtMostOne, TablesOk;
      var vidx := VTLB_SIZE - 1;
      while vidx >= 0 && Tag(victim[mode][vidx], kind) != Page(addr)
        invariant -1 <= vidx < VTLB_SIZE
        invariant forall k :: vidx < k < VTLB_SIZE ==> Tag(victim[mode][k], kind) != Page(addr)
      {
        vidx := vidx - 1;
      }
      hit := vidx >= 0;
      if hit {
        assert LastTagged(victim[mode], kind, Page(addr), vidx);
        var index := Slot(addr);
        ghost var main0, victim0 := main, victim;
        TagMatches(victim[mode][vidx], kind, addr);
        SwapTables(main[mode], victim[mode], mapped, addr, vidx, kind);
        SwapKeepsOne(main[mode], victim[mode], index, vidx);
        var te := main[mode][index];
        main := main[mode := main[mode][index := victim[mode][vidx]]];
        victim := victim[mode := victim[mode][vidx := te]];
        assert Swapped(main0, victim0, main, victim, mode, index, vidx);
      }
    }
  }

  // ---- One entry for a page ---------------------------------------------------------

  /** The page has at most one entry in a mode's two tables. */
  ghost predicate AtMostOne(main: seq<Entry>, victim: seq<Entry>, page: Address)
  {
    && (forall i, j :: 0 <= i < j < |main| ==> !(Matches(main[i], page) && Matches(main[j], page)))
    && (forall i, j :: 0 <= i < j < |victim| ==> !(Matches(victim[i], page) && Matches(victim[j], page)))
    && (forall i, k :: 0 <= i < |main| && 0 <= k < |victim| ==> !(Matches(main[i], page) && Matches(victim[k], page)))
  }

  /** Once victim `v` is gone the page has at most one entry, and none at all if the new entry
      is for it. */
  ghost predicate StaysOne(main: seq<Entry>, victim: seq<Entry>, v: nat, e: Entry, page: Address)
    requires v < |victim|
  {
    && AtMostOne(main, victim[v := Empty()], page)
    && (Matches(e, page) ==>
          && (forall i :: 0 <= i < |main| ==> !Matches(main[i], page))
          && (forall k :: 0 <= k < |victim| && k != v ==> !Matches(victim[k], page)))
  }

  /** The exact condition for one entry at most: tlb_set_page moves the old entry of the slot
      to victim `v` whatever page it is for. */
  lemma AtMostOneAfter(main: seq<Entry>, victim: seq<Entry>, slot: nat, v: nat, e: Entry, page: Address)
    requires slot < |main| && v < |victim| && !Matches(Empty(), page)
    requires Matches(e, page) ==> forall i :: 0 <= i < |main| && Matches(main[i], page) ==> i == slot
    ensures AtMostOne(main[slot := e], victim[v := main[slot]], page) <==> StaysOne(main, victim, v, e, page)
  {
    hide Matches;
    var main', victim', rest := main[slot := e], victim[v := main[slot]], victim[v := Empty()];
    assert forall i :: 0 <= i < |main| && i != slot ==> main'[i] == main[i];
    assert forall k :: 0 <= k < |victim| && k != v ==> victim'[k] == victim[k] == rest[k];
    assert main'[slot] == e && victim'[v] == main[slot] && rest[v] == Empty();
  }

  lemma OneAfterSet(main: seq<Entry>, victim: seq<Entry>, mapped: set<Address>, vaddr: Address, v: nat, e: Entry)
    requires TablesOk(main, victim, mapped) && |main| == TLB_SIZE && v < |victim|
    requires TagFor(e.read, vaddr) && TagFor(e.write, vaddr) && TagFor(e.code, vaddr)
    ensures forall a :: AtMostOne(main[Slot(vaddr) := e], victim[v := main[Slot(vaddr)]], Page(a)) <==>
              StaysOne(main, victim, v, e, Page(a))
  {
    hide Matches, Page, Slot, TagFor, AtMostOne, StaysOne, EntryOk;
    forall a ensures AtMostOne(main[Slot(vaddr) := e], victim[v := main[Slot(vaddr)]], Page(a)) <==>
                     StaysOne(main, victim, v, e, Page(a)) {
      EmptyMatchesNothing(a);
      if Matches(e, Page(a)) {
        OwnPage(e, vaddr, a);
      }
      AtMostOneAfter(main, victim, Slot(vaddr), v, e, Page(a));
    }
  }

  /** Entry `k` is the last one with this tag. */
  ghost predicate LastTagged(row: seq<Entry>, kind: Access, page: Address, k: int)
  {
    && 0 <= k < |row| && Tag(row[k], kind) == page
    && forall j :: k < j < |row| ==> Tag(row[j], kind) != page
  }

  /** Victim `k` of a mode and entry `i` of its main table have changed places. */
  ghost predicate Swapped(main: seq<seq<Entry>>, victim: seq<seq<Entry>>, main': seq<seq<Entry>>,
                          victim': seq<seq<Entry>>, mode: nat, i: nat, k: int)
  {
    && mode < |main| == |victim| && i < |main[mode]| && 0 <= k < |victim[mode]|
    && main' == main[mode := main[mode][i := victim[mode][k]]]
    && victim' == victim[mode := victim[mode][k := main[mode][i]]]
  }

  /** Changing places makes no entry more and none less. */
  lemma SwapKeepsOne(main: seq<Entry>, victim: seq<Entry>, i: nat, k: nat)
    requires i < |main| && k < |victim|
    ensures forall page :: AtMostOne(main[i := victim[k]], victim[k := main[i]], page) <==>
              AtMostOne(main, victim, page)
  {
    hide Matches;
    var main', victim' := main[i := victim[k]], victim[k := main[i]];
    assert main'[i := victim'[k]] == main && victim'[k := main'[i]] == victim;
    forall page ensures AtMostOne(main', victim', page) <==> AtMostOne(main, victim, page) {
      if AtMostOne(main, victim, page) {
        SwapOne(main, victim, i, k, page);
      }
      if AtMostOne(main', victim', page) {
        SwapOne(main', victim', i, k, page);
      }
    }
  }

  lemma SwapOne(main: seq<Entry>, victim: seq<Entry>, i: nat, k: nat, page: Address)
    requires i < |main| && k < |victim| && AtMostOne(main, victim, page)
    ensures AtMostOne(main[i := victim[k]], victim[k := main[i]], page)
  {
    hide Matches;
  }

  lemma TagMatches(e: Entry, kind: Access, addr: Address)
    requires Tag(e, kind) == Page(addr)
    ensures Matches(e, Page(addr)) && Slot(Page(addr)) == Slot(addr)
  {
    PageBits(addr);
    hide Index, Page;
  }

  lemma PageBits(addr: Address)
    ensures Hits(Page(addr), Page(addr)) && (Page(addr) >> 12) & 0xFF == (addr >> 12) & 0xFF
  {
  }

  /** A page can have two entries: set it twice. */
  method TwoEntries() returns (t: Tlb)
    ensures fresh(t) && t.Valid() && t.modes == 1
    ensures Matches(t.main[0][Slot(0x1000)], Page(0x1000)) && Matches(t.victim[0][1], Page(0x1000))
    ensures !AtMostOne(t.main[0], t.victim[0], Page(0x1000))
  {
    hide Slot, TablesOk;
    var e := Entry(0x1000, ALL_ONES, ALL_ONES);
    t := new Tlb(1);
    t.SetPage(0x1000, 0, 0x1000, 0x1000, ALL_ONES, ALL_ONES);
    assert t.main[0][Slot(0x1000)] == e;
    t.SetPage(0x1000, 0, 0x1000, 0x1000, ALL_ONES, ALL_ONES);
    assert t.main[0][Slot(0x1000)] == e && t.victim[0][1] == e;
    assert Matches(e, Page(0x1000));
  }

  lemma NoneLeft(a: Address)
    ensures forall e: Entry :: !Matches(Flushed(e, Page(a)), Page(a))
    ensures forall e: Entry, b: Address :: Matches(Flushed(e, Page(a)), Page(b)) ==> Flushed(e, Page(a)) == e
  {
    hide Matches, Page;
    EmptyMatchesNothing(a);
    forall b: Address {
      EmptyMatchesNothing(b);
    }
  }

  lemma OwnPage(e: Entry, vaddr: Address, a: Address)
    requires TagFor(e.read, vaddr) && TagFor(e.write, vaddr) && TagFor(e.code, vaddr) && Matches(e, Page(a))
    ensures Page(a) == Page(vaddr) && Slot(Page(a)) == Slot(vaddr)
  {
    hide TagFor, Hits, Page, Slot;
    if Hits(e.read, Page(a)) {
      HitsOwnPage(e.read, vaddr, a);
    } else if Hits(e.write, Page(a)) {
      HitsOwnPage(e.write, vaddr, a);
    } else {
      HitsOwnPage(e.code, vaddr, a);
    }
  }

  /** Entries are as before, except that some that matched are now empty, and none matches. */
  ghost predicate Removed(before: seq<seq<Entry>>, after: seq<seq<Entry>>, page: Address)
  {
    && |before| == |after|
    && forall m :: 0 <= m < |after| ==>
         |before[m]| == |after[m]| && forall i :: 0 <= i < |after[m]| ==> after[m][i] == Flushed(before[m][i], page)
  }

  lemma RegionIsSet(addr: Address, mask: Address)
    ensures IsRegion(addr, mask) ==> addr != ALL_ONES && HighMask(mask)
  {
  }

  // ---- Runs -------------------------------------------------------------------------

  datatype Op =
    | Set(vaddr: Address, mode: nat, size: Address, read: Address, write: Address, code: Address)
    | Refill(addr: Address, mode: nat, kind: Access)
    | FlushOne(addr: Address)
    | FlushAll

  ghost predicate OpOk(op: Op, modes: nat)
  {
    && (op.Refill? ==> op.mode < modes)
    && (op.Set? ==>
          && op.mode < modes && (op.size == 0x1000 || IsLarge(Large(op.vaddr, op.size)))
          && TagFor(op.read, op.vaddr) && TagFor(op.write, op.vaddr) && TagFor(op.code, op.vaddr))
  }

  /** Operation `op` drops what operation `set_` has set. */
  ghost predicate Drops(op: Op, set_: Op)
  {
    set_.Set? && (op.FlushAll? || (op.FlushOne? && InLarge(op.addr, Large(set_.vaddr, set_.size))))
  }

  /** Operation `k` sets a page, and nothing since drops it. */
  ghost predicate Live(ops: seq<Op>, k: nat)
  {
    k < |ops| && ops[k].Set? && forall j :: k < j < |ops| ==> !Drops(ops[j], ops[k])
  }

  ghost predicate LiveFor(ops: seq<Op>, k: nat, page: Address)
  {
    Live(ops, k) && Page(ops[k].vaddr) == page
  }

  ghost predicate HasOrigin(ops: seq<Op>, from: nat, page: Address)
  {
    exists k: nat :: from <= k && LiveFor(ops, k, page)
  }

  /** Every page that may have an entry stems from a live operation since the last full
      flush, which came before operation `from`. */
  ghost predicate Accounted(mapped: set<Address>, large: seq<Large>, ops: seq<Op>, from: nat)
  {
    && (forall p :: p in mapped ==> HasOrigin(ops, from, p))
    && (forall k :: from <= k < |ops| && ops[k].Set? && ops[k].size != 0x1000 ==>
          Large(ops[k].vaddr, ops[k].size) in large)
  }

  lemma SmallIsPage(b: Address, v: Address)
    ensures InLarge(b, Large(v, 0x1000)) <==> Page(b) == Page(v)
  {
    SmallMask();
    hide MaskOf;
    assert InLarge(b, Large(v, 0x1000)) <==> And(b, PAGE_MASK) == And(v, PAGE_MASK);
    assert And(b, PAGE_MASK) == Page(b) && And(v, PAGE_MASK) == Page(v);
  }

  lemma SmallMask()
    ensures MaskOf(0x1000) == PAGE_MASK
  {
  }

  /** Whatever the order of operations, an entry for a page stems from an operation that set
      the page and that no flush since covers. */
  method Run(modes: nat, ops: seq<Op>) returns (t: Tlb)
    requires forall op :: op in ops ==> OpOk(op, modes)
    ensures fresh(t) && t.Valid() && t.modes == modes
    ensures forall a :: !t.NoEntry(Page(a)) ==> exists k: nat :: LiveFor(ops, k, Page(a))
  {
    hide Page, InLarge, Matches, TagFor, IsLarge, IsRegion, Covered, TablesOk;
    t := new Tlb(modes);
    var i := 0;
    ghost var from: nat := 0;
    while i < |ops|
      invariant 0 <= i <= |ops| && from <= i && fresh(t) && t.Valid() && t.modes == modes
      invariant Accounted(t.mapped, t.large, ops[..i], from)
    {
      assert OpOk(ops[i], modes);
      from := Apply(t, ops[..i], ops[i], from);
      assert ops[..i + 1] == ops[..i] + [ops[i]];
      i := i + 1;
    }
    assert ops[..i] == ops;
    forall a | !t.NoEntry(Page(a)) ensures HasOrigin(ops, from, Page(a)) {
      t.EntryMapped(a);
    }
  }

  lemma NotDropped(ops: seq<Op>, b: Address, large: seq<Large>, k: nat, page: Address)
    requires LiveFor(ops, k, page) && page != Page(b) && forall p :: p in large ==> !InLarge(b, p)
    requires ops[k].size != 0x1000 ==> Large(ops[k].vaddr, ops[k].size) in large
    ensures LiveFor(ops + [FlushOne(b)], k, page)
  {
    hide Page, InLarge;
    SmallIsPage(b, ops[k].vaddr);
    assert !Drops(FlushOne(b), ops[k]);
  }

  lemma OneFlushed(mapped: set<Address>, large: seq<Large>, ops: seq<Op>, from: nat, b: Address)
    requires Accounted(mapped, large, ops, from) && from <= |ops| && forall p :: p in large ==> !InLarge(b, p)
    ensures Accounted(mapped - {Page(b)}, large, ops + [FlushOne(b)], from)
  {
    hide Page, InLarge, LiveFor;
    forall p | p in mapped - {Page(b)} ensures HasOrigin(ops + [FlushOne(b)], from, p) {
      var k: nat :| from <= k && LiveFor(ops, k, p);
      LiveIsSet(ops, k, p);
      NotDropped(ops, b, large, k, p);
    }
  }

  lemma LiveIsSet(ops: seq<Op>, k: nat, page: Address)
    requires LiveFor(ops, k, page)
    ensures k < |ops| && ops[k].Set?
  {
  }

  lemma DropsNothing(ops: seq<Op>, op: Op, k: nat, page: Address)
    requires LiveFor(ops, k, page) && (op.Set? || op.Refill?)
    ensures LiveFor(ops + [op], k, page)
  {
    hide Page, InLarge;
    assert !Drops(op, ops[k]);
  }

  lemma OneSet(mapped: set<Address>, large: seq<Large>, ops: seq<Op>, from: nat, op: Op, large': seq<Large>)
    requires Accounted(mapped, large, ops, from) && from <= |ops| && op.Set?
    requires large' == if op.size == 0x1000 then large else large + [Large(op.vaddr, op.size)]
    ensures Accounted(mapped + {Page(op.vaddr)}, large', ops + [op], from)
  {
    hide Page, InLarge, LiveFor;
    JustSet(ops, op);
    forall p | p in mapped ensures HasOrigin(ops + [op], from, p) {
      var k: nat :| from <= k && LiveFor(ops, k, p);
      DropsNothing(ops, op, k, p);
    }
    assert op.size != 0x1000 ==> large'[|large|] == Large(op.vaddr, op.size);
    assert forall p :: p in large ==> p in large';
  }

  lemma OneRefilled(mapped: set<Address>, large: seq<Large>, ops: seq<Op>, from: nat, op: Op)
    requires Accounted(mapped, large, ops, from) && from <= |ops| && op.Refill?
    ensures Accounted(mapped, large, ops + [op], from)
  {
    hide Page, InLarge, LiveFor;
    forall p | p in mapped ensures HasOrigin(ops + [op], from, p) {
      var k: nat :| from <= k && LiveFor(ops, k, p);
      DropsNothing(ops, op, k, p);
    }
  }

  lemma JustSet(ops: seq<Op>, op: Op)
    requires op.Set?
    ensures LiveFor(ops + [op], |ops|, Page(op.vaddr))
  {
  }

  method Apply(t: Tlb, ghost ops: seq<Op>, op: Op, ghost from: nat) returns (ghost from': nat)
    requires t.Valid() && OpOk(op, t.modes) && from <= |ops| && Accounted(t.mapped, t.large, ops, from)
    modifies t
    ensures t.Valid() && from' <= |ops| + 1 && Accounted(t.mapped, t.large, ops + [op], from')
  {
    hide Page, InLarge, Matches, TagFor, IsLarge, IsRegion, Covered, InRegion, HasOrigin, TablesOk;
    from' := from;
    match op
    case FlushAll =>
      t.Flush();
      from' := |ops| + 1;
    case FlushOne(b) =>
      if InRegion(b, t.flushAddr, t.flushMask) {
        from' := |ops| + 1;
      } else {
        forall p | p in t.large ensures !InLarge(b, p) {
          if InLarge(b, p) {
            LargeInRegion(b, t.flushAddr, t.flushMask, p);
          }
        }
        OneFlushed(t.mapped, t.large, ops, from, b);
      }
      t.FlushPage(b);
    case Refill(a, mode, kind) =>
      OneRefilled(t.mapped, t.large, ops, from, op);
      var _ := t.VictimHit(a, mode, kind);
    case Set(v, mode, size, read, write, code) =>
      OneSet(t.mapped, t.large, ops, from, op, if size == 0x1000 then t.large else t.large + [Large(v, size)]);
      t.SetPage(v, mode, size, read, write, code);
  }
}
