/** What a byte address resolves to: sections, subpage tables and the page map
    together (qemu/exec.c:298-342, 951-1062, 1982-2041).

    `of(p)` is the section number the page map holds for page `p`.  All facts here
    are about `of` and the tables; the page map itself is tied to `of` elsewhere. */
module MemoryDispatch {

  const PAGE: nat := 4096
  const ADDRESSES: nat := 0x1_0000_0000_0000_0000
  const SECTIONS_MAX: nat := 4096

  datatype Region = IoUnassigned | IoNotDirty | IoRom | IoWatch | SubpageIo(id: nat) | Guest(name: nat)

  /** A range of `size` addresses from `start`, backed by `mr` from `offset` on. */
  datatype Section = Section(mr: Region, start: nat, offset: nat, size: nat)

  /** One page split between sections: `sub[i]` serves the byte `base + i`. */
  datatype Subpage = Subpage(base: nat, sub: seq<nat>)

  datatype Tables = Tables(sections: seq<Section>, subpages: seq<Subpage>)

  datatype Target = Unassigned | At(mr: Region, xlat: int)

  predicate Contains(s: Section, addr: nat)
  {
    s.size >= ADDRESSES || s.start <= addr < s.start + s.size
  }

  predicate Within(s: Section, addr: nat)
  {
    s.start <= addr < s.start + s.size
  }

  const Dummies: seq<Section> :=
    [Section(IoUnassigned, 0, 0, ADDRESSES), Section(IoNotDirty, 0, 0, ADDRESSES),
     Section(IoRom, 0, 0, ADDRESSES), Section(IoWatch, 0, 0, ADDRESSES)]

  /** The section number that serves `addr`, subpages resolved. */
  ghost function Resolve(t: Tables, of: nat -> nat, addr: nat): nat
  {
    var s := of(addr / PAGE);
    if s < |t.sections| && t.sections[s].mr.SubpageIo?
       && t.sections[s].mr.id < |t.subpages| && |t.subpages[t.sections[s].mr.id].sub| == PAGE
    then t.subpages[t.sections[s].mr.id].sub[addr % PAGE]
    else s
  }

  ghost function TargetAt(t: Tables, of: nat -> nat, addr: nat): Target
  {
    var s := Resolve(t, of, addr);
    if s == 0 || s >= |t.sections| then Unassigned
    else At(t.sections[s].mr, addr - t.sections[s].start + t.sections[s].offset)
  }

  /** A section that may stand in the page map: whole pages below the end of the
      address space. */
  ghost predicate Paged(s: Section)
  {
    s.start % PAGE == 0 && s.size % PAGE == 0 && 0 < s.size && s.start + s.size <= ADDRESSES
  }

  ghost predicate PageOf(s: Section, p: nat)
  {
    s.start / PAGE <= p < (s.start + s.size) / PAGE
  }

  /** The page map agrees with the sections: a mapped page belongs to its section,
      and the section owns all its pages. */
  ghost predicate PagesOk(t: Tables, of: nat -> nat)
  {
    && (forall p: nat :: of(p) != 0 ==>
          4 <= of(p) < |t.sections| && Paged(t.sections[of(p)]) && PageOf(t.sections[of(p)], p))
    && (forall p: nat, q: nat :: of(p) != 0 && PageOf(t.sections[of(p)], q) ==> of(q) == of(p))
  }

  ghost predicate SubpageOk(t: Tables, sp: Subpage)
  {
    && |sp.sub| == PAGE && sp.base % PAGE == 0
    && forall i :: 0 <= i < PAGE && sp.sub[i] != 0 ==>
         4 <= sp.sub[i] < |t.sections| && t.sections[sp.sub[i]].mr.Guest? && Within(t.sections[sp.sub[i]], sp.base + i)
  }

  ghost predicate SomeUsed(sp: Subpage)
  {
    exists i :: 0 <= i < |sp.sub| && sp.sub[i] != 0
  }

  /** Each mapped page is either wholly one guest section's or split by its own,
      non-empty subpage. */
  ghost predicate MappedOk(t: Tables, s: Section)
  {
    || s.mr.Guest?
    || (&& s.mr.SubpageIo? && s.mr.id < |t.subpages| && s.size == PAGE
        && t.subpages[s.mr.id].base == s.start && SomeUsed(t.subpages[s.mr.id]))
  }

  ghost predicate TablesOk(t: Tables, of: nat -> nat)
  {
    && 4 <= |t.sections| <= SECTIONS_MAX && t.sections[..4] == Dummies
    && PagesOk(t, of)
    && (forall p: nat :: of(p) != 0 ==> MappedOk(t, t.sections[of(p)]))
    && (forall i :: 0 <= i < |t.subpages| ==> SubpageOk(t, t.subpages[i]))
  }

  ghost predicate FreeRange(t: Tables, of: nat -> nat, lo: nat, hi: nat)
  {
    forall a: nat :: lo <= a < hi ==> TargetAt(t, of, a) == Unassigned
  }

  /** Some byte of a mapped page has a target. */
  lemma MappedPageUsed(t: Tables, of: nat -> nat, p: nat) returns (a: nat)
    requires TablesOk(t, of) && of(p) != 0
    ensures p * PAGE <= a < (p + 1) * PAGE && TargetAt(t, of, a) != Unassigned
  {
    var s := t.sections[of(p)];
    a := p * PAGE;
    if s.mr.SubpageIo? {
      var sp := t.subpages[s.mr.id];
      var i :| 0 <= i < |sp.sub| && sp.sub[i] != 0;
      assert SubpageOk(t, sp);
      a := p * PAGE + i;
      assert a / PAGE == p && a % PAGE == i;
    }
  }

  /** A page whose bytes are all free is not in the page map. */
  lemma FreePage(t: Tables, of: nat -> nat, p: nat)
    requires TablesOk(t, of) && FreeRange(t, of, p * PAGE, (p + 1) * PAGE)
    ensures of(p) == 0
  {
    if of(p) != 0 {
      var a := MappedPageUsed(t, of, p);
    }
  }

  ghost predicate Added(t: Tables, of: nat -> nat, t': Tables, of': nat -> nat, s: Section)
  {
    forall a: nat :: TargetAt(t', of', a) ==
      if Within(s, a) then At(s.mr, a - s.start + s.offset) else TargetAt(t, of, a)
  }

  ghost predicate MapSet(of: nat -> nat, of': nat -> nat, lo: nat, hi: nat, s: nat)
  {
    forall p: nat :: of'(p) == if lo <= p < hi then s else of(p)
  }

  lemma PagesFree(t: Tables, of: nat -> nat, s: Section)
    requires TablesOk(t, of) && Paged(s) && FreeRange(t, of, s.start, s.start + s.size)
    ensures forall p: nat :: PageOf(s, p) ==> of(p) == 0
  {
    forall p: nat | PageOf(s, p)
      ensures of(p) == 0
    {
      assert s.start <= p * PAGE && (p + 1) * PAGE <= s.start + s.size;
      FreePage(t, of, p);
    }
  }

  lemma PagesOkSet(t: Tables, of: nat -> nat, of': nat -> nat, s: Section)
    requires PagesOk(t, of) && Paged(s) && 4 <= |t.sections|
    requires forall p: nat :: PageOf(s, p) ==> of(p) == 0
    requires MapSet(of, of', s.start / PAGE, (s.start + s.size) / PAGE, |t.sections|)
    ensures PagesOk(t.(sections := t.sections + [s]), of')
  {
    var t' := t.(sections := t.sections + [s]);
    forall p: nat, q: nat | of'(p) != 0 && PageOf(t'.sections[of'(p)], q)
      ensures of'(q) == of'(p)
    {
      if !PageOf(s, p) {
        assert of(p) != 0 && of(q) == of(p);
      }
    }
  }

  /** A section of whole free pages enters the page map under the next number. */
  lemma AddPages(t: Tables, of: nat -> nat, of': nat -> nat, s: Section)
    requires TablesOk(t, of) && |t.sections| < SECTIONS_MAX
    requires Paged(s) && s.mr.Guest? && FreeRange(t, of, s.start, s.start + s.size)
    requires MapSet(of, of', s.start / PAGE, (s.start + s.size) / PAGE, |t.sections|)
    ensures TablesOk(t.(sections := t.sections + [s]), of')
    ensures Added(t, of, t.(sections := t.sections + [s]), of', s)
  {
    var t' := t.(sections := t.sections + [s]);
    PagesFree(t, of, s);
    PagesOkSet(t, of, of', s);
    forall i | 0 <= i < |t.subpages|
      ensures SubpageOk(t', t.subpages[i])
    {
      assert SubpageOk(t, t.subpages[i]);
    }
    forall a: nat
      ensures TargetAt(t', of', a) == if Within(s, a) then At(s.mr, a - s.start + s.offset) else TargetAt(t, of, a)
    {
      AddPagesAt(t, of, of', s, a);
    }
  }

  lemma AddPagesAt(t: Tables, of: nat -> nat, of': nat -> nat, s: Section, a: nat)
    requires TablesOk(t, of) && Paged(s) && s.mr.Guest?
    requires MapSet(of, of', s.start / PAGE, (s.start + s.size) / PAGE, |t.sections|)
    ensures TargetAt(t.(sections := t.sections + [s]), of', a) ==
            if Within(s, a) then At(s.mr, a - s.start + s.offset) else TargetAt(t, of, a)
  {
    var t' := t.(sections := t.sections + [s]);
    assert PageOf(s, a / PAGE) <==> Within(s, a);
    var n := of(a / PAGE);
    if !PageOf(s, a / PAGE) && n != 0 {
      assert t'.sections[n] == t.sections[n];
      if t.sections[n].mr.SubpageIo? {
        assert SubpageOk(t, t.subpages[t.sections[n].mr.id]);
      }
    }
  }

  /** subpage_register: the bytes `[lo, hi)` of the page now belong to section `n`. */
  function Filled(sub: seq<nat>, lo: nat, hi: nat, n: nat): seq<nat>
  {
    seq(|sub|, i requires 0 <= i < |sub| => if lo <= i < hi then n else sub[i])
  }

  ghost predicate InPage(s: Section, p: nat)
  {
    0 < s.size && p * PAGE <= s.start && s.start + s.size <= (p + 1) * PAGE <= ADDRESSES
  }

  function SubpageAdded(t: Tables, id: nat, s: Section): Tables
    requires id < |t.subpages|
  {
    var sp := t.subpages[id];
    Tables(t.sections + [s],
           t.subpages[id := sp.(sub := Filled(sp.sub, s.start % PAGE, s.start % PAGE + s.size, |t.sections|))])
  }

  lemma FilledOk(t: Tables, id: nat, s: Section, p: nat)
    requires 4 <= |t.sections| && id < |t.subpages| && SubpageOk(t, t.subpages[id]) && t.subpages[id].base == p * PAGE
    requires InPage(s, p) && s.mr.Guest?
    ensures SubpageOk(SubpageAdded(t, id, s), SubpageAdded(t, id, s).subpages[id])
    ensures SomeUsed(SubpageAdded(t, id, s).subpages[id])
  {
    var sp' := SubpageAdded(t, id, s).subpages[id];
    assert sp'.sub[s.start % PAGE] == |t.sections|;
  }

  /** A section inside one page enters that page's subpage table. */
  lemma AddToSubpage(t: Tables, of: nat -> nat, p: nat, id: nat, s: Section)
    requires TablesOk(t, of) && |t.sections| < SECTIONS_MAX
    requires of(p) != 0 && t.sections[of(p)].mr == SubpageIo(id)
    requires InPage(s, p) && s.mr.Guest?
    ensures id < |t.subpages| && TablesOk(SubpageAdded(t, id, s), of)
    ensures Added(t, of, SubpageAdded(t, id, s), of, s)
  {
    var t' := SubpageAdded(t, id, s);
    assert SubpageOk(t, t.subpages[id]);
    FilledOk(t, id, s, p);
    forall i | 0 <= i < |t'.subpages|
      ensures SubpageOk(t', t'.subpages[i])
    {
      assert SubpageOk(t, t.subpages[i]);
    }
    forall a: nat
      ensures TargetAt(t', of, a) == if Within(s, a) then At(s.mr, a - s.start + s.offset) else TargetAt(t, of, a)
    {
      AddToSubpageAt(t, of, p, id, s, a);
    }
    assert PagesOk(t', of);
  }

  lemma AddToSubpageAt(t: Tables, of: nat -> nat, p: nat, id: nat, s: Section, a: nat)
    requires TablesOk(t, of) && of(p) != 0 && t.sections[of(p)].mr == SubpageIo(id) && id < |t.subpages|
    requires InPage(s, p) && s.mr.Guest?
    ensures TargetAt(SubpageAdded(t, id, s), of, a) ==
            if Within(s, a) then At(s.mr, a - s.start + s.offset) else TargetAt(t, of, a)
  {
    var t' := SubpageAdded(t, id, s);
    var n := of(a / PAGE);
    if a / PAGE == p {
      assert SubpageOk(t, t.subpages[id]);
      assert Within(s, a) <==> s.start % PAGE <= a % PAGE < s.start % PAGE + s.size;
    } else {
      assert !Within(s, a);
      if n != 0 {
        assert t'.sections[n] == t.sections[n];
        if t.sections[n].mr.SubpageIo? {
          assert SubpageOk(t, t.subpages[t.sections[n].mr.id]);
          assert t.sections[n].mr.id != id;
        }
      }
    }
  }

  /** The tables once page `p` has a subpage of its own, with no byte assigned yet. */
  function SubpageOpened(t: Tables, p: nat): Tables
  {
    Tables(t.sections + [Section(SubpageIo(|t.subpages|), p * PAGE, 0, PAGE)],
           t.subpages + [Subpage(p * PAGE, seq(PAGE, _ => 0))])
  }

  lemma SubpagesExtend(t: Tables, t': Tables)
    requires t.sections <= t'.sections
    requires forall i :: 0 <= i < |t.subpages| ==> SubpageOk(t, t.subpages[i])
    ensures forall i :: 0 <= i < |t.subpages| ==> SubpageOk(t', t.subpages[i])
  {
    forall i | 0 <= i < |t.subpages|
      ensures SubpageOk(t', t.subpages[i])
    {
      assert SubpageOk(t, t.subpages[i]);
    }
  }

  lemma PagesExtend(t: Tables, t': Tables, of: nat -> nat)
    requires t.sections <= t'.sections && PagesOk(t, of)
    ensures PagesOk(t', of)
  {
  }

  /** A section inside an unmapped page opens a subpage for it. */
  lemma AddNewSubpage(t: Tables, of: nat -> nat, of': nat -> nat, p: nat, s: Section)
    requires TablesOk(t, of) && |t.sections| + 2 <= SECTIONS_MAX
    requires of(p) == 0 && MapSet(of, of', p, p + 1, |t.sections|)
    requires InPage(s, p) && s.mr.Guest?
    ensures TablesOk(SubpageAdded(SubpageOpened(t, p), |t.subpages|, s), of')
    ensures Added(t, of, SubpageAdded(SubpageOpened(t, p), |t.subpages|, s), of', s)
  {
    AddNewSubpageOk(t, of, of', p, s);
    forall a: nat
      ensures TargetAt(SubpageAdded(SubpageOpened(t, p), |t.subpages|, s), of', a) ==
              if Within(s, a) then At(s.mr, a - s.start + s.offset) else TargetAt(t, of, a)
    {
      AddNewSubpageAt(t, of, of', p, s, a);
    }
  }

  lemma AddNewSubpageOk(t: Tables, of: nat -> nat, of': nat -> nat, p: nat, s: Section)
    requires TablesOk(t, of) && |t.sections| + 2 <= SECTIONS_MAX
    requires of(p) == 0 && MapSet(of, of', p, p + 1, |t.sections|)
    requires InPage(s, p) && s.mr.Guest?
    ensures TablesOk(SubpageAdded(SubpageOpened(t, p), |t.subpages|, s), of')
  {
    var t1 := SubpageOpened(t, p);
    var id := |t.subpages|;
    var t' := SubpageAdded(t1, id, s);
    var holder := t1.sections[|t.sections|];
    assert forall q: nat :: PageOf(holder, q) <==> q == p;
    PagesOkSet(t, of, of', holder);
    PagesExtend(t1, t', of');
    assert SubpageOk(t1, t1.subpages[id]);
    FilledOk(t1, id, s, p);
    SubpagesExtend(t, t');
    assert t'.sections[|t.sections|] == holder;
  }

  lemma AddNewSubpageAt(t: Tables, of: nat -> nat, of': nat -> nat, p: nat, s: Section, a: nat)
    requires TablesOk(t, of)
    requires of(p) == 0 && MapSet(of, of', p, p + 1, |t.sections|)
    requires InPage(s, p) && s.mr.Guest?
    ensures TargetAt(SubpageAdded(SubpageOpened(t, p), |t.subpages|, s), of', a) ==
            if Within(s, a) then At(s.mr, a - s.start + s.offset) else TargetAt(t, of, a)
  {
    var t1 := SubpageOpened(t, p);
    var t' := SubpageAdded(t1, |t.subpages|, s);
    var n := of(a / PAGE);
    if a / PAGE == p {
      assert Within(s, a) <==> s.start % PAGE <= a % PAGE < s.start % PAGE + s.size;
      assert t'.sections[|t.sections|] == t1.sections[|t.sections|];
      assert t1.subpages[|t.subpages|].sub[a % PAGE] == 0;
    } else {
      assert !Within(s, a);
      if n != 0 {
        assert t'.sections[n] == t.sections[n];
        if t.sections[n].mr.SubpageIo? {
          assert SubpageOk(t, t.subpages[t.sections[n].mr.id]);
        }
      }
    }
  }
}
