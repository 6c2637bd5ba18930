/** The dispatch table of an address space between mem_begin and mem_commit
    (qemu/exec.c:227-234, 285-342, 951-1062, 2063-2112). */
module AddressSpace {
  import opened PageKeys
  import opened PhysPageTree
  import opened PhysPageCompact
  import opened PhysPageMap
  import opened MemoryDispatch

  const PAGES: nat := 0x10_0000_0000_0000

  /** The section number the page map holds for each page, by the plain walk. */
  ghost function SectionMap(nodes: seq<Node>, root: Entry): nat -> nat
  {
    (p: nat) => if Key(p, P_L2_LEVELS) == 0 then Lookup(nodes, root, P_L2_LEVELS, p) else PHYS_SECTION_UNASSIGNED
  }

  /** phys_page_find: the walk, then the check that the section covers the address. */
  function FindSection(nodes: seq<Node>, root: Entry, sections: seq<Section>, addr: nat): nat
  {
    var s := Walk(nodes, root, P_L2_LEVELS, addr / PAGE).ptr;
    if s < |sections| && Contains(sections[s], addr) then s else PHYS_SECTION_UNASSIGNED
  }

  /** address_space_lookup_region with subpages resolved, and the offset into the
      region that address_space_translate_internal computes from it. */
  function Translate(nodes: seq<Node>, root: Entry, t: Tables, addr: nat): Target
  {
    var s0 := FindSection(nodes, root, t.sections, addr);
    var s := if s0 < |t.sections| && t.sections[s0].mr.SubpageIo?
                && t.sections[s0].mr.id < |t.subpages| && |t.subpages[t.sections[s0].mr.id].sub| == PAGE
             then t.subpages[t.sections[s0].mr.id].sub[addr % PAGE] else s0;
    if s == 0 || s >= |t.sections| then Unassigned
    else At(t.sections[s].mr, addr - t.sections[s].start + t.sections[s].offset)
  }

  lemma KeyOfAddress(p: nat)
    requires p < PAGES
    ensures Key(p, P_L2_LEVELS) == 0
  {
    assert Key(p, 1) == p / 512;
    assert Key(p, 2) == Key(p, 1) / 512;
    assert Key(p, 3) == Key(p, 2) / 512;
    assert Key(p, 4) == Key(p, 3) / 512;
    assert Key(p, 5) == Key(p, 4) / 512;
  }

  lemma InPages(s: Section, addr: nat)
    requires Paged(s)
    ensures Within(s, addr) <==> PageOf(s, addr / PAGE)
  {
  }

  /** A section in use does not cover the addresses of an unmapped page. */
  lemma NotCovered(t: Tables, of: nat -> nat, s: nat, addr: nat)
    requires PagesOk(t, of) && of(addr / PAGE) == 0 && addr < ADDRESSES
    requires s != 0 && InUse(of, s)
    ensures s < |t.sections| && !Contains(t.sections[s], addr)
  {
    var q: nat :| of(q) == s;
    InPages(t.sections[s], addr);
    assert !PageOf(t.sections[of(q)], addr / PAGE);
  }

  /** The range check makes a sound tree exact: compacted or not, the section found
      for an address is the one its page was given, and section 0 if it has none. */
  lemma FindExact(nodes: seq<Node>, place: seq<Place>, root: Entry, t: Tables, of: nat -> nat, addr: nat)
    requires Sound(nodes, place, of, root, P_L2_LEVELS, 0)
    requires 4 <= |t.sections| && t.sections[..4] == Dummies && PagesOk(t, of) && addr < ADDRESSES
    ensures FindSection(nodes, root, t.sections, addr) == of(addr / PAGE)
  {
    var p := addr / PAGE;
    KeyOfAddress(p);
    WalkSound(nodes, place, of, root, P_L2_LEVELS, 0, p);
    var s := Walk(nodes, root, P_L2_LEVELS, p).ptr;
    if of(p) != 0 {
      InPages(t.sections[s], addr);
    } else if s != 0 {
      NotCovered(t, of, s, addr);
    } else {
      assert t.sections[0] == Dummies[0];
    }
  }

  lemma TranslateExact(nodes: seq<Node>, place: seq<Place>, root: Entry, t: Tables, of: nat -> nat, addr: nat)
    requires Sound(nodes, place, of, root, P_L2_LEVELS, 0)
    requires 4 <= |t.sections| && t.sections[..4] == Dummies && PagesOk(t, of) && addr < ADDRESSES
    ensures Translate(nodes, root, t, addr) == TargetAt(t, of, addr)
  {
    FindExact(nodes, place, root, t, of, addr);
  }

  class Dispatch {
    const tree: PhysMap
    var physMap: Entry
    var sections: seq<Section>
    var subpages: seq<Subpage>

    ghost function Of(): nat -> nat
      reads this, tree
    {
      SectionMap(tree.nodes, physMap)
    }

    function Both(): Tables
      reads this
    {
      Tables(sections, subpages)
    }

    /** The tree is as the set operations build it, with few enough nodes for its
        sections that the node counter stays below PHYS_MAP_NODE_NIL. */
    ghost predicate TreeOk()
      reads this, tree
    {
      && tree.Valid()
      && physMap.skip == 1 && EntryShape(physMap, tree.place, P_L2_LEVELS, 0)
      && |tree.nodes| <= 11 * |sections|
    }

    ghost predicate Valid()
      reads this, tree
    {
      TreeOk() && TablesOk(Both(), Of())
    }

    /** mem_begin */
    constructor ()
      ensures Valid() && fresh(tree)
      ensures forall a: nat :: TargetAt(Both(), Of(), a) == Unassigned
    {
      tree := new PhysMap();
      physMap, sections, subpages := NilEntry, Dummies, [];
    }

    /** phys_page_set: the pages of `[index, index + nb)` get section `leaf`, and at
        most 2 * P_L2_LEVELS - 1 of the 3 * P_L2_LEVELS reserved nodes are used. */
    method PhysPageSet(index: nat, nb: nat, leaf: nat)
      requires TreeOk() && |tree.nodes| + 11 <= PHYS_MAP_NODE_NIL
      requires nb > 0 && index + nb <= PAGES && leaf != 0 && leaf != PHYS_MAP_NODE_NIL
      requires forall p: nat :: index <= p < index + nb ==> Of()(p) == 0
      modifies this`physMap, tree
      ensures tree.Valid() && physMap.skip == 1 && EntryShape(physMap, tree.place, P_L2_LEVELS, 0)
      ensures |tree.nodes| <= |old(tree.nodes)| + 2 * P_L2_LEVELS - 1
      ensures MapSet(old(Of()), Of(), index, index + nb, leaf)
    {
      UnassignedBelow(tree.nodes, physMap, Of(), index, index + nb);
      tree.NodeReserve(3 * P_L2_LEVELS);
      KeyOfAddress(index);
      var done, left;
      physMap, done, left := tree.SetLevel(physMap, index, nb, leaf, P_L2_LEVELS - 1);
      StepOfLevels();
      forall p: nat
        ensures Of()(p) == if index <= p < index + nb then leaf else old(Of())(p)
      {
        if index <= p < index + nb {
          KeyOfAddress(p);
        }
      }
    }

    /** phys_section_add; false stands for the assertion that the section number
        fits below the page size. */
    method SectionAdd(s: Section) returns (ok: bool, n: nat)
      modifies this`sections
      ensures ok == (|old(sections)| < SECTIONS_MAX)
      ensures ok ==> n == |old(sections)| && sections == old(sections) + [s]
      ensures !ok ==> sections == old(sections)
    {
      ok, n := |sections| < SECTIONS_MAX, |sections|;
      if ok {
        sections := sections + [s];
      }
    }

    /** register_multipage, for a free section of whole pages. */
    method RegisterMultipage(s: Section) returns (ok: bool)
      requires Valid() && Paged(s) && s.mr.Guest?
      requires FreeRange(Both(), Of(), s.start, s.start + s.size)
      modifies this`physMap, this`sections, tree
      ensures ok ==> Valid() && Added(old(Both()), old(Of()), Both(), Of(), s)
      ensures !ok ==> |sections| == SECTIONS_MAX
    {
      PagesFree(Both(), Of(), s);
      ghost var t, of := Both(), Of();
      var n;
      ok, n := SectionAdd(s);
      if ok {
        var pages := s.size / PAGE;
        assert pages > 0;
        PhysPageSet(s.start / PAGE, pages, n);
        assert s.start / PAGE + pages == (s.start + s.size) / PAGE;
        AddPages(t, of, Of(), s);
      }
    }

    /** phys_page_find */
    method PhysPageFind(addr: nat, ghost of: nat -> nat) returns (s: nat)
      requires Sound(tree.nodes, tree.place, of, physMap, P_L2_LEVELS, 0)
      requires 4 <= |sections| && sections[..4] == Dummies && PagesOk(Both(), of) && addr < ADDRESSES
      ensures s == FindSection(tree.nodes, physMap, sections, addr) == of(addr / PAGE)
    {
      FindExact(tree.nodes, tree.place, physMap, Both(), of, addr);
      s := tree.FindLeaf(physMap, addr / PAGE, of);
      var inside := s < |sections| && (sections[s].size >= ADDRESSES
                                       || sections[s].start <= addr < sections[s].start + sections[s].size);
      if !inside {
        s := PHYS_SECTION_UNASSIGNED;
      }
    }

    /** subpage_register */
    method SubpageRegister(id: nat, start: nat, end: nat, n: nat) returns (r: int)
      requires id < |subpages| && |subpages[id].sub| == PAGE
      modifies this`subpages
      ensures start >= PAGE || end >= PAGE ==> r == -1 && subpages == old(subpages)
      ensures start < PAGE && end < PAGE ==>
                r == 0 && subpages ==
                  old(subpages)[id := old(subpages)[id].(sub := Filled(old(subpages)[id].sub, start, end + 1, n))]
    {
      if start >= PAGE || end >= PAGE {
        return -1;
      }
      var idx, sub := start, subpages[id].sub;
      while idx <= end
        invariant start <= idx && (idx <= end + 1 || idx == start)
        invariant |sub| == PAGE
        invariant forall i :: 0 <= i < PAGE ==> sub[i] == if start <= i < idx then n else subpages[id].sub[i]
      {
        sub := sub[idx := n];
        idx := idx + 1;
      }
      assert sub == Filled(subpages[id].sub, start, end + 1, n);
      subpages := subpages[id := subpages[id].(sub := sub)];
      return 0;
    }

    /** The first half of register_subpage: gives the unmapped page at `base` a
        subpage with no byte assigned. */
    method OpenSubpage(base: nat, ghost p: nat) returns (ok: bool, id: nat)
      requires Valid() && base == p * PAGE && p < PAGES && Of()(p) == 0
      modifies this, tree
      ensures ok == (|old(sections)| < SECTIONS_MAX) && (!ok ==> sections == old(sections))
      ensures ok ==> TreeOk() && id == |old(subpages)| && Both() == SubpageOpened(old(Both()), p)
      ensures ok ==> MapSet(old(Of()), Of(), p, p + 1, |old(sections)|)
    {
      id := |subpages|;
      var n;
      ok, n := SectionAdd(Section(SubpageIo(id), base, 0, PAGE));
      if ok {
        subpages := subpages + [Subpage(base, seq(PAGE, _ => 0))];
        PhysPageSet(base / PAGE, 1, n);
      }
    }

    /** The second half: the section's bytes enter the subpage's table. */
    method FillSubpage(id: nat, s: Section, ghost p: nat) returns (ok: bool)
      requires TreeOk() && InPage(s, p) && id < |subpages| && |subpages[id].sub| == PAGE
      modifies this`sections, this`subpages
      ensures ok == (|old(sections)| < SECTIONS_MAX) && (!ok ==> sections == old(sections))
      ensures ok ==> TreeOk() && Both() == SubpageAdded(old(Both()), id, s)
    {
      var n;
      ok, n := SectionAdd(s);
      if ok {
        var start := s.start % PAGE;
        var r := SubpageRegister(id, start, start + s.size - 1, n);
      }
    }

    /** register_subpage, for a free section inside one page.  The page is either
        unmapped or already split: the assertion on the existing section holds. */
    method RegisterSubpage(s: Section, ghost p: nat) returns (ok: bool)
      requires Valid() && InPage(s, p) && s.mr.Guest?
      requires FreeRange(Both(), Of(), s.start, s.start + s.size)
      modifies this, tree
      ensures ok ==> Valid() && Added(old(Both()), old(Of()), Both(), Of(), s)
      ensures !ok ==> |sections| == SECTIONS_MAX
    {
      ghost var t, of := Both(), Of();
      BuiltIsSound(tree.nodes, tree.place, of, physMap, P_L2_LEVELS, 0);
      var base := s.start / PAGE * PAGE;
      NotWhole(t, of, s, p);
      var existing := PhysPageFind(base, of);
      assert sections[existing].mr.SubpageIo? || sections[existing].mr == IoUnassigned by {
        assert sections[0] == Dummies[0];
      }
      if !sections[existing].mr.SubpageIo? {
        var id;
        ok, id := OpenSubpage(base, p);
        if ok {
          ok := FillSubpage(id, s, p);
        }
        if ok {
          AddNewSubpage(t, of, Of(), p, s);
        }
      } else {
        ghost var id := sections[existing].mr.id;
        assert SubpageOk(t, t.subpages[id]);
        ok := FillSubpage(sections[existing].mr.id, s, p);
        if ok {
          AddToSubpage(t, of, p, id, s);
        }
      }
    }

    /** One turn of the loop of mem_add: registers the next piece of what remains. */
    method AddPiece(remain: Section) returns (ok: bool, now: Section)
      requires Valid() && remain.mr.Guest? && 0 < remain.size && remain.start + remain.size <= ADDRESSES
      requires remain.start % PAGE == 0
      requires FreeRange(Both(), Of(), remain.start, remain.start + remain.size)
      modifies this, tree
      ensures ok ==> Valid() && Added(old(Both()), old(Of()), Both(), Of(), now)
      ensures !ok ==> |sections| == SECTIONS_MAX
      ensures now == remain.(size := now.size) && 0 < now.size <= remain.size
      ensures now.size < remain.size ==> (remain.start + now.size) % PAGE == 0
      ensures remain.size >= PAGE ==> now.size == remain.size / PAGE * PAGE && subpages == old(subpages)
    {
      now := remain;
      if remain.size < PAGE {
        ok := RegisterSubpage(now, now.start / PAGE);
      } else if remain.start % PAGE != 0 {
        assert false;
      } else {
        now := now.(size := now.size / PAGE * PAGE);
        ok := RegisterMultipage(now);
      }
    }

    /** The start of mem_add: registers the part before the first page boundary. */
    method AddHead(s: Section) returns (ok: bool, now: Section)
      requires Valid() && s.mr.Guest? && 0 < s.size && s.start + s.size <= ADDRESSES
      requires FreeRange(Both(), Of(), s.start, s.start + s.size)
      modifies this, tree
      ensures ok ==> Valid() && Upto(old(Both()), old(Of()), Both(), Of(), s, s.start + now.size)
      ensures !ok ==> |sections| == SECTIONS_MAX
      ensures Pieces(s, s, now)
    {
      now, ok := s, true;
      if now.start % PAGE != 0 {
        var left := ((now.start + PAGE - 1) / PAGE * PAGE % ADDRESSES - now.start) % ADDRESSES;
        HeadLength(now.start, left);
        now := now.(size := if left < now.size then left else now.size);
        ok := RegisterSubpage(now, now.start / PAGE);
      } else {
        now := now.(size := 0);
      }
    }

    /** mem_add: splits a free section into a head inside one page, whole pages, and
        a tail inside one page, and registers the pieces. */
    method MemAdd(s: Section) returns (ok: bool)
      requires Valid() && s.mr.Guest? && 0 < s.size && s.start + s.size <= ADDRESSES
      requires FreeRange(Both(), Of(), s.start, s.start + s.size)
      modifies this, tree
      ensures ok ==> Valid() && Added(old(Both()), old(Of()), Both(), Of(), s)
      ensures !ok ==> |sections| == SECTIONS_MAX
    {
      var now, remain;
      ghost var t, of := Both(), Of();
      ok, now := AddHead(s);
      remain := s;
      while ok && remain.size != now.size
        invariant Pieces(s, remain, now)
        invariant ok ==> Valid() && Upto(t, of, Both(), Of(), s, remain.start + now.size)
        invariant !ok ==> |sections| == SECTIONS_MAX
        decreases ok, remain.size - now.size
      {
        ghost var t1, of1 := Both(), Of();
        remain := Rest(remain, now);
        RestFree(t, of, t1, of1, s, remain.start);
        ok, now := AddPiece(remain);
        if ok {
          UptoMore(t, of, t1, of1, Both(), Of(), s, now);
        }
      }
    }

    /** mem_commit: compacts the tree as far as it goes.  Every page keeps the section it had. */
    method MemCommit()
      requires Valid()
      modifies this`physMap, tree
      ensures Both() == old(Both())
      ensures Sound(tree.nodes, tree.place, old(Of()), physMap, P_L2_LEVELS, 0)
      ensures Dense(tree.nodes, tree.place, physMap, P_L2_LEVELS)
    {
      ghost var of := Of();
      BuiltIsSound(tree.nodes, tree.place, of, physMap, P_L2_LEVELS, 0);
      if physMap.skip != 0 {
        physMap := tree.Compact(physMap, of, P_L2_LEVELS, 0);
      }
    }

    /** address_space_lookup_region with subpages resolved, then the offset into the
        region; `of` is what the tree was built to hold. */
    method LookupRegion(addr: nat, ghost of: nat -> nat) returns (r: Target)
      requires Sound(tree.nodes, tree.place, of, physMap, P_L2_LEVELS, 0)
      requires TablesOk(Both(), of) && addr < ADDRESSES
      ensures r == Translate(tree.nodes, physMap, Both(), addr) == TargetAt(Both(), of, addr)
    {
      TranslateExact(tree.nodes, tree.place, physMap, Both(), of, addr);
      var s := PhysPageFind(addr, of);
      assert sections[0] == Dummies[0];
      if sections[s].mr.SubpageIo? {
        assert SubpageOk(Both(), subpages[sections[s].mr.id]);
        s := subpages[sections[s].mr.id].sub[addr % PAGE];
      }
      r := if s == 0 then Unassigned else At(sections[s].mr, addr - sections[s].start + sections[s].offset);
    }
  }

  ghost predicate Disjoint(list: seq<Section>)
  {
    forall i, j, a: nat :: 0 <= i < j < |list| && Within(list[i], a) ==> !Within(list[j], a)
  }

  /** A whole update of an address space: every address then translates to the one
      section of `list` that contains it, at the offset that section gives it, and to
      the unassigned section if none does. */
  method Rebuild(list: seq<Section>) returns (ok: bool, d: Dispatch)
    requires forall s :: s in list ==> s.mr.Guest? && 0 < s.size && s.start + s.size <= ADDRESSES
    requires Disjoint(list)
    ensures ok ==> forall addr: nat :: addr < ADDRESSES ==>
              Translate(d.tree.nodes, d.physMap, d.Both(), addr) == Listed(list, addr)
    ensures !ok ==> |d.sections| == SECTIONS_MAX
  {
    hide Sound, Dense, Translate, TreeShape, EntryShape, PagesOk, SubpageOk;
    d := new Dispatch();
    ok := true;
    var i := 0;
    while i < |list| && ok
      invariant 0 <= i <= |list| && fresh(d) && fresh(d.tree)
      invariant ok ==> d.Valid() && forall a: nat :: TargetAt(d.Both(), d.Of(), a) == Listed(list[..i], a)
      invariant !ok ==> |d.sections| == SECTIONS_MAX
    {
      ListedFree(list, i);
      ok := d.MemAdd(list[i]);
      ListedMore(list, i);
      i := i + 1;
    }
    if ok {
      assert list[..i] == list;
      ghost var of := d.Of();
      d.MemCommit();
      forall addr: nat | addr < ADDRESSES
        ensures Translate(d.tree.nodes, d.physMap, d.Both(), addr) == Listed(list, addr)
      {
        TranslateExact(d.tree.nodes, d.tree.place, d.physMap, d.Both(), of, addr);
      }
    }
  }

  lemma {:induction false} ListedAt(list: seq<Section>, a: nat)
    ensures Listed(list, a) != Unassigned <==> exists j :: 0 <= j < |list| && Within(list[j], a)
    ensures Disjoint(list) ==> forall j :: 0 <= j < |list| && Within(list[j], a) ==>
              Listed(list, a) == At(list[j].mr, a - list[j].start + list[j].offset)
    decreases |list|
  {
    if list != [] {
      var init := list[..|list| - 1];
      ListedAt(init, a);
      assert Disjoint(list) ==> Disjoint(init);
      forall j | 0 <= j < |list| && Within(list[j], a) && Disjoint(list)
        ensures Listed(list, a) == At(list[j].mr, a - list[j].start + list[j].offset)
      {
        if j < |init| {
          assert Within(init[j], a) && !Within(list[|list| - 1], a);
        }
      }
    }
  }

  lemma ListedFree(list: seq<Section>, i: nat)
    requires i < |list| && Disjoint(list)
    ensures forall a: nat :: Within(list[i], a) ==> Listed(list[..i], a) == Unassigned
  {
    forall a: nat | Within(list[i], a)
      ensures Listed(list[..i], a) == Unassigned
    {
      ListedAt(list[..i], a);
    }
  }

  lemma ListedMore(list: seq<Section>, i: nat)
    requires i < |list|
    ensures forall a: nat :: Listed(list[..i + 1], a) ==
              if Within(list[i], a) then At(list[i].mr, a - list[i].start + list[i].offset) else Listed(list[..i], a)
  {
    assert list[..i + 1][..i] == list[..i];
  }

  function Rest(remain: Section, now: Section): Section
    requires now.size <= remain.size
  {
    remain.(size := remain.size - now.size, start := remain.start + now.size, offset := remain.offset + now.size)
  }

  /** The distance to the next page boundary, as 64-bit arithmetic computes it even in
      the last page. */
  lemma HeadLength(start: nat, left: int)
    requires start < ADDRESSES && start % PAGE != 0
    requires left == ((start + PAGE - 1) / PAGE * PAGE % ADDRESSES - start) % ADDRESSES
    ensures left == PAGE - start % PAGE
  {
  }

  /** How the pieces of mem_add lie in the section: `now` is the piece last
      registered (or empty), at the start of what remained before it. */
  ghost predicate Pieces(s: Section, remain: Section, now: Section)
  {
    && now.start == remain.start && 0 <= now.size <= remain.size
    && s.start <= remain.start && remain.start + remain.size == s.start + s.size
    && remain.mr == s.mr && remain.offset - remain.start == s.offset - s.start
    && (now.size < remain.size ==> (remain.start + now.size) % PAGE == 0)
  }

  /** The section's addresses below `end` are in place and nothing else changed. */
  ghost predicate Upto(t: Tables, of: nat -> nat, t': Tables, of': nat -> nat, s: Section, end: nat)
  {
    forall a: nat :: TargetAt(t', of', a) ==
      if s.start <= a < end then At(s.mr, a - s.start + s.offset) else TargetAt(t, of, a)
  }

  lemma RestFree(t: Tables, of: nat -> nat, t': Tables, of': nat -> nat, s: Section, end: nat)
    requires Upto(t, of, t', of', s, end) && s.start <= end <= s.start + s.size
    requires FreeRange(t, of, s.start, s.start + s.size)
    ensures FreeRange(t', of', end, s.start + s.size)
  {
    forall a: nat | end <= a < s.start + s.size
      ensures TargetAt(t', of', a) == Unassigned
    {
      assert TargetAt(t, of, a) == Unassigned;
    }
  }

  lemma UptoMore(t: Tables,
                 of: nat -> nat, t1: Tables, of1: nat -> nat, t2: Tables, of2: nat -> nat, s: Section, now: Section)
    requires s.start <= now.start && now.mr == s.mr && now.offset - now.start == s.offset - s.start
    requires Upto(t, of, t1, of1, s, now.start) && Added(t1, of1, t2, of2, now)
    ensures Upto(t, of, t2, of2, s, now.start + now.size)
  {
    forall a: nat
      ensures TargetAt(t2, of2, a) ==
              if s.start <= a < now.start + now.size then At(s.mr, a - s.start + s.offset) else TargetAt(t, of, a)
    {
      assert TargetAt(t1, of1, a) ==
             if s.start <= a < now.start then At(s.mr, a - s.start + s.offset) else TargetAt(t, of, a);
    }
  }

  /** What the sections of `list` say about an address: the last of them to contain
      it and the offset into its region. */
  ghost function Listed(list: seq<Section>, addr: nat): Target
  {
    if list == [] then Unassigned
    else if Within(list[|list| - 1], addr) then
      At(list[|list| - 1].mr, addr - list[|list| - 1].start + list[|list| - 1].offset)
    else Listed(list[..|list| - 1], addr)
  }

  lemma UnassignedBelow(nodes: seq<Node>, root: Entry, of: nat -> nat, lo: nat, hi: nat)
    requires of == SectionMap(nodes, root) && forall p: nat :: lo <= p < hi ==> of(p) == 0
    ensures AllUnassigned(nodes, root, P_L2_LEVELS, 0, lo, hi)
  {
    forall p: nat | lo <= p < hi && Key(p, P_L2_LEVELS) == 0
      ensures Lookup(nodes, root, P_L2_LEVELS, p) == 0
    {
      assert of(p) == 0;
    }
  }

  /** A page with a free byte is not wholly mapped to one guest section. */
  lemma NotWhole(t: Tables, of: nat -> nat, s: Section, p: nat)
    requires TablesOk(t, of) && InPage(s, p) && FreeRange(t, of, s.start, s.start + s.size)
    ensures s.start / PAGE == p
    ensures of(p) == 0 || t.sections[of(p)].mr.SubpageIo?
  {
    if of(p) != 0 {
      assert TargetAt(t, of, s.start) == Unassigned;
    }
  }

  lemma StepOfLevels()
    ensures Step(P_L2_LEVELS) >= PAGES
  {
    assert Step(1) == 512 * Step(0);
    assert Step(2) == 512 * Step(1);
    assert Step(3) == 512 * Step(2);
    assert Step(4) == 512 * Step(3);
    assert Step(5) == 512 * Step(4);
  }
}
