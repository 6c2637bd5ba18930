/** The ELF dump of guest memory: where the program headers say memory is, and where it is
    written (qemu/dump.c:341-465, 575-628, 1399-1425, 1549-1589; the System V ABI, chapter 5,
    "Program Header").

    Of the headers only the lengths and the fields that place memory are modelled. */
module DumpElf {
  import opened Bytes

  const UINT16_MAX: nat := 0xFFFF
  const UINT32_MAX: nat := 0xFFFF_FFFF
  const PN_XNUM: nat := 0xFFFF

  /** A range of guest physical memory and its contents. */
  datatype Range = Range(start: nat, end: nat, host: seq<Byte>)

  datatype Filter = Everything | Window(begin: nat, length: nat)

  datatype Mapping = Mapping(phys: nat, length: nat)

  /** What a program header of a mapping says about its memory. */
  datatype Load = Load(offset: int, filesz: nat, paddr: nat, memsz: nat)

  ghost predicate BlockOk(b: Range)
  {
    b.start <= b.end && |b.host| == b.end - b.start
  }

  ghost predicate AllOk(blocks: seq<Range>)
  {
    forall i :: 0 <= i < |blocks| ==> BlockOk(blocks[i])
  }

  /** The blocks do not overlap. */
  ghost predicate RangesOk(blocks: seq<Range>)
  {
    && AllOk(blocks)
    && (forall i, j :: 0 <= i < j < |blocks| ==> blocks[i].end <= blocks[j].start || blocks[j].end <= blocks[i].start)
  }

  ghost predicate InFilter(f: Filter, p: nat)
  {
    f.Window? ==> f.begin <= p < f.begin + f.length
  }

  /** The block has the address, and the filter lets it through. */
  ghost predicate Dumps(b: Range, f: Filter, p: nat)
  {
    b.start <= p < b.end && InFilter(f, p)
  }

  /** Those of the first `n` bytes of a block that the filter lets through. */
  ghost function Kept(b: Range, f: Filter, n: nat): seq<Byte>
    requires n <= |b.host|
  {
    if n == 0 then [] else Kept(b, f, n - 1) + if InFilter(f, b.start + n - 1) then [b.host[n - 1]] else []
  }

  /** The memory of a dump: of every block, in order, what the filter lets through. */
  ghost function Pieces(blocks: seq<Range>, f: Filter): seq<Byte>
    requires AllOk(blocks)
  {
    if blocks == [] then [] else Pieces(blocks[..|blocks| - 1], f) + Piece(blocks[|blocks| - 1], f)
  }

  ghost function Piece(b: Range, f: Filter): seq<Byte>
    requires BlockOk(b)
  {
    Kept(b, f, |b.host|)
  }

  // ---- What the code computes -------------------------------------------------------

  predicate OutOfRange(b: Range, f: Filter)
  {
    f.Window? && (b.start >= f.begin + f.length || b.end <= f.begin)
  }

  /** Some block has its end after the beginning of the filter, and its start before the end. */
  ghost predicate Reaches(blocks: seq<Range>, f: Filter)
  {
    exists b :: b in blocks && (f.Window? ==> b.start < f.begin + f.length && f.begin < b.end)
  }

  /** The part of a block inside the filter. */
  function Lo(b: Range, f: Filter): nat
  {
    if f.Window? && f.begin > b.start then f.begin else b.start
  }

  function Hi(b: Range, f: Filter): nat
  {
    if f.Window? && f.begin + f.length < b.end then f.begin + f.length else b.end
  }

  /** The block's part of the dump, by the code's comparisons. */
  lemma DumpsBy(b: Range, f: Filter, p: nat)
    ensures Dumps(b, f, p) <==> !OutOfRange(b, f) && Lo(b, f) <= p < Hi(b, f)
  {
  }

  lemma {:induction false} KeptIs(b: Range, f: Filter, n: nat)
    requires BlockOk(b) && n <= |b.host|
    ensures Kept(b, f, n) ==
            if OutOfRange(b, f) || b.start + n <= Lo(b, f) then []
            else if b.start + n <= Hi(b, f) then b.host[Lo(b, f) - b.start..n]
            else b.host[Lo(b, f) - b.start..Hi(b, f) - b.start]
    decreases n
  {
    if n > 0 {
      KeptIs(b, f, n - 1);
      DumpsBy(b, f, b.start + n - 1);
    }
  }

  lemma PieceIs(b: Range, f: Filter)
    requires BlockOk(b)
    ensures !OutOfRange(b, f) ==> b.start <= Lo(b, f) <= Hi(b, f) <= b.end
    ensures Piece(b, f) == if OutOfRange(b, f) then [] else b.host[Lo(b, f) - b.start..Hi(b, f) - b.start]
  {
    KeptIs(b, f, |b.host|);
  }

  lemma PieceLength(b: Range, f: Filter)
    requires BlockOk(b)
    ensures !OutOfRange(b, f) ==> b.start <= Lo(b, f) <= Hi(b, f) <= b.end
    ensures |Piece(b, f)| == if OutOfRange(b, f) then 0 else Hi(b, f) - Lo(b, f)
  {
    PieceIs(b, f);
  }

  /** The piece as dump_iterate cuts it. */
  lemma PieceAt(b: Range, f: Filter, start: nat, size: int)
    requires BlockOk(b) && !OutOfRange(b, f) && start == Lo(b, f) - b.start
    requires size == if f.Everything? then b.end - b.start
                     else b.end - b.start - start
                          - (if f.begin + f.length < b.end then b.end - (f.begin + f.length) else 0)
    ensures 0 <= size && start + size <= |b.host| && b.host[start..start + size] == Piece(b, f)
  {
    hide Piece;
    PieceIs(b, f);
    assert start + size == Hi(b, f) - b.start;
  }

  lemma {:induction false} PieceLies(blocks: seq<Range>, f: Filter, k: nat)
    requires k < |blocks| && AllOk(blocks)
    ensures var head, piece, all := Pieces(blocks[..k], f), Piece(blocks[k], f), Pieces(blocks, f);
            |head| + |piece| <= |all| && all[|head|..|head| + |piece|] == piece
    decreases |blocks|
  {
    hide Piece;
    var init, last := blocks[..|blocks| - 1], blocks[|blocks| - 1];
    if k < |init| {
      PieceLies(init, f, k);
      assert init[..k] == blocks[..k];
      Prefix(Pieces(init, f), Piece(last, f), |Pieces(blocks[..k], f)|,
             |Pieces(blocks[..k], f)| + |Piece(blocks[k], f)|);
    } else {
      assert blocks[..k] == init;
    }
  }

  lemma Prefix(a: seq<Byte>, b: seq<Byte>, i: nat, j: nat)
    requires i <= j <= |a|
    ensures (a + b)[i..j] == a[i..j]
  {
  }

  /** The guest's byte at a physical address. */
  ghost function GuestByte(blocks: seq<Range>, p: nat): Option<Byte>
    requires AllOk(blocks)
  {
    if blocks == [] then None
    else if blocks[0].start <= p < blocks[0].end then Some(blocks[0].host[p - blocks[0].start])
    else GuestByte(blocks[1..], p)
  }

  lemma {:induction false} GuestByteIn(blocks: seq<Range>, k: nat, p: nat)
    requires RangesOk(blocks) && k < |blocks| && blocks[k].start <= p < blocks[k].end
    ensures GuestByte(blocks, p) == Some(blocks[k].host[p - blocks[k].start])
    decreases |blocks|
  {
    if k > 0 {
      GuestByteIn(blocks[1..], k - 1, p);
    }
  }

  /** Some block is dumped at an address exactly if the guest has memory there and the filter
      lets it through. */
  lemma {:induction false} GuestDumped(blocks: seq<Range>, f: Filter, p: nat)
    requires AllOk(blocks)
    ensures (exists i :: 0 <= i < |blocks| && Dumps(blocks[i], f, p)) <==>
            GuestByte(blocks, p).Some? && InFilter(f, p)
    decreases |blocks|
  {
    if blocks != [] {
      GuestDumped(blocks[1..], f, p);
      assert forall i :: 1 <= i < |blocks| ==> blocks[i] == blocks[1..][i - 1];
      if exists i :: 0 <= i < |blocks[1..]| && Dumps(blocks[1..][i], f, p) {
        var i :| 0 <= i < |blocks[1..]| && Dumps(blocks[1..][i], f, p);
        assert Dumps(blocks[i + 1], f, p);
      }
    }
  }

  /** What a program header promises: it has no offset exactly if the address is not in guest
      memory or not let through; otherwise the bytes there are the guest's bytes from the
      physical address on, and they stop short of the mapping only where the block, or the
      filter, ends. */
  ghost predicate LoadOk(blocks: seq<Range>, f: Filter, m: Mapping, l: Load, memoryOffset: nat)
    requires AllOk(blocks)
  {
    && l.paddr == m.phys && l.memsz == m.length
    && (l.offset == -1 <==> !(GuestByte(blocks, m.phys).Some? && InFilter(f, m.phys)))
    && if l.offset == -1 then l.filesz == 0
       else exists k :: 0 <= k < |blocks| && LoadIn(blocks, f, m, l, memoryOffset, k)
  }

  ghost predicate LoadIn(blocks: seq<Range>, f: Filter, m: Mapping, l: Load, memoryOffset: nat, k: nat)
    requires k < |blocks| && AllOk(blocks)
  {
    && Dumps(blocks[k], f, m.phys)
    && (forall p :: m.phys <= p < m.phys + l.filesz ==> Dumps(blocks[k], f, p))
    && l.filesz <= m.length && (l.filesz == m.length || !Dumps(blocks[k], f, m.phys + l.filesz))
    && memoryOffset <= l.offset && l.offset + l.filesz <= memoryOffset + |Pieces(blocks, f)|
    && forall p :: m.phys <= p < m.phys + l.filesz ==>
         GuestByte(blocks, p) == Some(Pieces(blocks, f)[l.offset - memoryOffset + (p - m.phys)])
  }

  lemma FoundLoad(blocks: seq<Range>, f: Filter, m: Mapping, l: Load, memoryOffset: nat, k: nat)
    requires RangesOk(blocks) && k < |blocks| && AllOk(blocks)
    requires Dumps(blocks[k], f, m.phys)
    requires l.offset == m.phys - Lo(blocks[k], f) + memoryOffset + |Pieces(blocks[..k], f)|
    requires l.filesz == if m.phys + m.length <= Hi(blocks[k], f) then m.length else Hi(blocks[k], f) - m.phys
    ensures LoadIn(blocks, f, m, l, memoryOffset, k)
  {
    hide Pieces, GuestByte, RangesOk, Kept;
    PieceLies(blocks, f, k);
    PieceIs(blocks[k], f);
    forall p: nat
      ensures Dumps(blocks[k], f, p) <==> !OutOfRange(blocks[k], f) && Lo(blocks[k], f) <= p < Hi(blocks[k], f)
    {
      DumpsBy(blocks[k], f, p);
    }
    forall p | m.phys <= p < m.phys + l.filesz
      ensures GuestByte(blocks, p) == Some(Pieces(blocks, f)[l.offset - memoryOffset + (p - m.phys)])
    {
      FoundByte(blocks, f, k, p, l.offset - memoryOffset + (p - m.phys));
    }
  }

  lemma FoundByte(blocks: seq<Range>, f: Filter, k: nat, p: nat, at: nat)
    requires RangesOk(blocks) && k < |blocks| && AllOk(blocks) && Dumps(blocks[k], f, p)
    requires at == |Pieces(blocks[..k], f)| + (p - Lo(blocks[k], f))
    ensures at < |Pieces(blocks, f)| && GuestByte(blocks, p) == Some(Pieces(blocks, f)[at])
  {
    hide Pieces, GuestByte, RangesOk, Kept;
    GuestByteIn(blocks, k, p);
    PieceLies(blocks, f, k);
    PieceIs(blocks[k], f);
    DumpsBy(blocks[k], f, p);
    var b, all, head, piece := blocks[k], Pieces(blocks, f), |Pieces(blocks[..k], f)|, Piece(blocks[k], f);
    var x := p - Lo(b, f);
    assert all[at] == all[head..head + |piece|][x] == piece[x] == b.host[p - b.start];
  }

  /** Every byte of guest memory that the filter lets through is in the dump. */
  lemma ByteDumped(blocks: seq<Range>, f: Filter, p: nat) returns (at: nat)
    requires RangesOk(blocks) && GuestByte(blocks, p).Some? && InFilter(f, p)
    ensures at < |Pieces(blocks, f)| && GuestByte(blocks, p) == Some(Pieces(blocks, f)[at])
  {
    hide Pieces, GuestByte, Dumps, RangesOk;
    assert AllOk(blocks) by { BlocksOf(blocks); }
    GuestDumped(blocks, f, p);
    var k :| 0 <= k < |blocks| && Dumps(blocks[k], f, p);
    DumpsBy(blocks[k], f, p);
    at := |Pieces(blocks[..k], f)| + (p - Lo(blocks[k], f));
    FoundByte(blocks, f, k, p, at);
  }

  lemma BlocksOf(blocks: seq<Range>)
    requires RangesOk(blocks)
    ensures AllOk(blocks)
  {
  }

  lemma OnePiece(blocks: seq<Range>, f: Filter, k: nat)
    requires k < |blocks| && AllOk(blocks)
    ensures Pieces(blocks[..k + 1], f) == Pieces(blocks[..k], f) + Piece(blocks[k], f)
  {
    assert blocks[..k + 1][..k] == blocks[..k];
  }

  lemma {:induction false} NoPieces(blocks: seq<Range>, f: Filter, i: nat, j: nat)
    requires i <= j <= |blocks| && AllOk(blocks) && forall k :: i <= k < j ==> OutOfRange(blocks[k], f)
    ensures Pieces(blocks[..j], f) == Pieces(blocks[..i], f)
    decreases j
  {
    hide Pieces, Kept;
    if i < j {
      NoPieces(blocks, f, i, j - 1);
      OnePiece(blocks, f, j - 1);
      PieceIs(blocks[j - 1], f);
    }
  }

  lemma NotDumped(blocks: seq<Range>, f: Filter, p: nat)
    requires AllOk(blocks) && InFilter(f, p) && forall k :: 0 <= k < |blocks| ==> OutOfRange(blocks[k], f)
    ensures GuestByte(blocks, p) == None
  {
    GuestDumped(blocks, f, p);
    forall k | 0 <= k < |blocks| ensures !Dumps(blocks[k], f, p) {
      DumpsBy(blocks[k], f, p);
    }
    hide OutOfRange;
  }

  function EhdrSize(is64: bool): nat
  {
    if is64 then 64 else 52
  }

  function PhdrSize(is64: bool): nat
  {
    if is64 then 56 else 32
  }

  function ShdrSize(is64: bool): nat
  {
    if is64 then 64 else 40
  }

  /** One dump.  `pos` counts the bytes written to the file, `mem` are those of them that are
      memory, and `memStart` is where they begin. */
  class Dump {
    const blocks: seq<Range>
    const filter: Filter
    const is64: bool
    const mappings: seq<Mapping>
    const noteSize: nat
    var nextBlock: nat
    var start: nat
    var phdrNum: nat
    var haveSection: bool
    var shInfo: nat
    var memoryOffset: nat
    var pos: nat
    var loads: seq<Load>
    var mem: seq<Byte>
    ghost var memStart: nat
    /** Some write has failed. */
    ghost var failed: bool

    ghost predicate Valid()
    {
      RangesOk(blocks) && blocks != []
    }

    /** The next block to be written, and where in it the filter begins. */
    ghost predicate AtBlock()
      requires Valid()
      reads this
    {
      && nextBlock < |blocks| && !OutOfRange(blocks[nextBlock], filter)
      && start == Lo(blocks[nextBlock], filter) - blocks[nextBlock].start
      && mem == Pieces(blocks[..nextBlock], filter)
    }

    constructor (blocks0: seq<Range>, filter0: Filter, is64_: bool, mappings0: seq<Mapping>, noteSize0: nat)
      requires RangesOk(blocks0) && blocks0 != []
      ensures Valid() && blocks == blocks0 && filter == filter0 && mappings == mappings0 && pos == 0 && mem == []
      ensures loads == [] && !failed
    {
      blocks, filter, is64, mappings, noteSize := blocks0, filter0, is64_, mappings0, noteSize0;
      nextBlock, start, phdrNum, haveSection, shInfo := 0, 0, 0, false, 0;
      memoryOffset, pos, loads, mem, memStart, failed := 0, 0, [], [], 0, false;
    }

    /** get_start_block: the first block that the filter reaches, if there is one. */
    method GetStartBlock() returns (found: bool)
      requires Valid() && mem == []
      modifies this`nextBlock, this`start
      ensures found == Reaches(blocks, filter)
      ensures found ==> AtBlock()
      ensures !found ==>
                Pieces(blocks, filter) == [] && forall p :: InFilter(filter, p) ==> GuestByte(blocks, p) == None
    {
      if filter.Everything? {
        nextBlock, start := 0, 0;
        assert !OutOfRange(blocks[0], filter);
        return true;
      }
      var i := 0;
      while i < |blocks|
        invariant 0 <= i <= |blocks| && forall k :: 0 <= k < i ==> OutOfRange(blocks[k], filter)
      {
        if !OutOfRange(blocks[i], filter) {
          nextBlock := i;
          start := if filter.begin > blocks[i].start then filter.begin - blocks[i].start else 0;
          NoPieces(blocks, filter, 0, i);
          return true;
        }
        i := i + 1;
      }
      NoPieces(blocks, filter, 0, i);
      assert blocks[..i] == blocks;
      forall p | InFilter(filter, p) ensures GuestByte(blocks, p) == None {
        NotDumped(blocks, filter, p);
      }
      return false;
    }

    /** The layout of dump_init. */
    method Layout()
      modifies this`phdrNum, this`haveSection, this`shInfo, this`memoryOffset
      ensures LaidOut() && phdrNum <= UINT16_MAX && shInfo <= UINT32_MAX && (phdrNum == PN_XNUM <==> haveSection)
    {
      phdrNum, shInfo := 1, 0;
      if |mappings| < UINT16_MAX - 2 {
        phdrNum := phdrNum + |mappings|;
        haveSection := false;
      } else {
        haveSection := true;
        phdrNum := PN_XNUM;
        shInfo := 1;
        if |mappings| <= UINT32_MAX - 1 {
          shInfo := shInfo + |mappings|;
        } else {
          shInfo := UINT32_MAX;
        }
      }
      if haveSection {
        memoryOffset := EhdrSize(is64) + PhdrSize(is64) * shInfo + ShdrSize(is64) + noteSize;
      } else {
        memoryOffset := EhdrSize(is64) + PhdrSize(is64) * phdrNum + noteSize;
      }
    }

    /** How many program headers there are, the note's included: one more than the mappings, as
        far as 32 bits go. */
    function Headers(): (n: nat)
      ensures n <= UINT32_MAX && n <= 1 + |mappings| && (n < UINT32_MAX ==> n == 1 + |mappings|)
    {
      if |mappings| <= UINT32_MAX - 1 then 1 + |mappings| else UINT32_MAX
    }

    ghost predicate LaidOut()
      reads this
    {
      && haveSection == (|mappings| >= UINT16_MAX - 2)
      && (if haveSection then shInfo else phdrNum) == Headers() && (haveSection ==> phdrNum == PN_XNUM)
      && memoryOffset ==
           EhdrSize(is64) + PhdrSize(is64) * Headers() + (if haveSection then ShdrSize(is64) else 0) + noteSize
    }

    /** fd_write_vmcore */
    method Write(n: nat) returns (ok: bool)
      modifies this`pos, this`failed
      ensures failed == (old(failed) || !ok)
      ensures ok ==> pos == old(pos) + n
    {
      pos := pos + n;
      ok := true;
    }

    /** get_offset_range */
    method GetOffsetRange(m: Mapping) returns (offset: int, filesz: nat)
      requires Valid()
      ensures LoadOk(blocks, filter, m, Load(offset, filesz, m.phys, m.length), memoryOffset)
      ensures filesz <= m.length
    {
      hide Pieces, Piece, GuestByte, LoadIn, Dumps;
      GuestDumped(blocks, filter, m.phys);
      offset, filesz := -1, 0;
      if filter.Window? && (m.phys < filter.begin || m.phys >= filter.begin + filter.length) {
        return;
      }
      var at := memoryOffset;
      var i := 0;
      assert at == memoryOffset + |Pieces(blocks[..0], filter)| by { NoneBefore(blocks, filter); }
      while i < |blocks|
        invariant 0 <= i <= |blocks| && at == memoryOffset + |Pieces(blocks[..i], filter)|
        invariant forall k :: 0 <= k < i ==> !Dumps(blocks[k], filter, m.phys)
      {
        var b := blocks[i];
        OnePiece(blocks, filter, i);
        PieceLength(b, filter);
        DumpsBy(b, filter, m.phys);
        if !OutOfRange(b, filter) {
          var from := Lo(b, filter);
          var size := Hi(b, filter) - from;
          if m.phys >= from && m.phys < from + size {
            offset := m.phys - from + at;
            filesz := if m.phys + m.length <= from + size then m.length else size - (m.phys - from);
            FoundLoad(blocks, filter, m, Load(offset, filesz, m.phys, m.length), memoryOffset, i);
            return;
          }
          at := at + size;
        }
        i := i + 1;
      }
    }

    /** write_elf_loads */
    method WriteElfLoads() returns (ok: bool)
      requires Valid() && LaidOut() && loads == []
      modifies this`pos, this`loads, this`failed
      ensures failed == (old(failed) || !ok)
      ensures ok ==> |loads| == Headers() - 1 && pos == old(pos) + PhdrSize(is64) * |loads|
      ensures forall i :: 0 <= i < |loads| && i < |mappings| ==>
                LoadOk(blocks, filter, mappings[i], loads[i], memoryOffset)
      ensures |loads| <= |mappings|
    {
      hide LoadOk;
      var index, i := 1, 0;
      var most := if haveSection then shInfo else phdrNum;
      ok := true;
      while ok && i < |mappings|
        invariant 0 <= i <= |mappings| && |loads| <= i
        invariant ok ==> |loads| == i && index == i + 1 <= Headers() && pos == old(pos) + PhdrSize(is64) * i
        invariant forall k :: 0 <= k < |loads| ==> LoadOk(blocks, filter, mappings[k], loads[k], memoryOffset)
        invariant ok && i < |mappings| ==> index < Headers()
        invariant failed == (old(failed) || !ok)
        decreases ok, |mappings| - i
      {
        var offset, filesz := GetOffsetRange(mappings[i]);
        ok := Write(PhdrSize(is64));
        if !ok {
          return;
        }
        loads := loads + [Load(offset, filesz, mappings[i].phys, mappings[i].length)];
        i, index := i + 1, index + 1;
        if index >= most {
          break;
        }
      }
    }

    /** dump_begin: it writes as many bytes as `memoryOffset` says. */
    method DumpBegin() returns (ok: bool)
      requires Valid() && LaidOut() && loads == [] && pos == 0
      modifies this`pos, this`loads, this`failed
      ensures failed == (old(failed) || !ok)
      ensures ok ==> pos == memoryOffset && |loads| == Headers() - 1
      ensures |loads| <= |mappings|
      ensures forall i :: 0 <= i < |loads| ==> LoadOk(blocks, filter, mappings[i], loads[i], memoryOffset)
    {
      hide LoadOk;
      ok := Write(EhdrSize(is64));
      if !ok {
        return;
      }
      ok := Write(PhdrSize(is64));
      if !ok {
        return;
      }
      ok := WriteElfLoads();
      if !ok {
        return;
      }
      if haveSection {
        ok := Write(ShdrSize(is64));
        if !ok {
          return;
        }
      }
      ok := Write(noteSize);
    }

    /** write_data: it goes on from `at`. */
    method WriteData(ghost before: seq<Byte>, host: seq<Byte>, ghost from: nat, at: nat, next: nat) returns (ok: bool)
      requires from <= at <= next <= |host| && mem == before + host[from..at]
      modifies this`pos, this`mem, this`failed
      ensures failed == (old(failed) || !ok)
      ensures ok ==> mem == before + host[from..next] && pos == old(pos) + (next - at)
    {
      ok := Write(next - at);
      if ok {
        mem := mem + host[at..next];
        Glue(before, host, from, at, next);
      }
    }

    /** write_memory: a page at a time, and the rest. */
    method WriteMemory(b: Range, from: nat, size: nat) returns (ok: bool)
      requires BlockOk(b) && from + size <= |b.host|
      modifies this`pos, this`mem, this`failed
      ensures failed == (old(failed) || !ok)
      ensures ok ==> mem == old(mem) + b.host[from..from + size] && pos == old(pos) + size
    {
      var i, at := 0, from;
      ok := true;
      assert mem == old(mem) + b.host[from..from];
      while i < size / PAGE_SIZE
        invariant failed == old(failed)
        invariant 0 <= i <= size / PAGE_SIZE && ok && at == from + i * PAGE_SIZE
        invariant mem == old(mem) + b.host[from..at] && pos == old(pos) + (at - from)
      {
        ok := WriteData(old(mem), b.host, from, at, at + PAGE_SIZE);
        if !ok {
          return;
        }
        i, at := i + 1, at + PAGE_SIZE;
      }
      if size % PAGE_SIZE != 0 {
        ok := WriteData(old(mem), b.host, from, at, at + size % PAGE_SIZE);
      }
    }

    /** get_next_block; all the blocks passed over are outside the filter. */
    method GetNextBlock() returns (done: bool)
      requires Valid() && nextBlock < |blocks| && mem == Pieces(blocks[..nextBlock + 1], filter)
      modifies this`nextBlock, this`start
      ensures done ==> mem == Pieces(blocks, filter)
      ensures !done ==> AtBlock() && old(nextBlock) < nextBlock
    {
      hide Pieces;
      var i := nextBlock + 1;
      while i < |blocks|
        invariant nextBlock == old(nextBlock) || nextBlock < |blocks|
        invariant old(nextBlock) < i <= |blocks|
        invariant forall k :: old(nextBlock) < k < i ==> OutOfRange(blocks[k], filter)
      {
        start, nextBlock := 0, i;
        if !OutOfRange(blocks[i], filter) {
          if filter.Window? && filter.begin > blocks[i].start {
            start := filter.begin - blocks[i].start;
          }
          NoPieces(blocks, filter, old(nextBlock) + 1, i);
          return false;
        }
        i := i + 1;
      }
      NoPieces(blocks, filter, old(nextBlock) + 1, i);
      assert blocks[..i] == blocks;
      return true;
    }

    /** dump_iterate: it writes exactly the pieces of the blocks inside the filter. */
    method DumpIterate() returns (ok: bool)
      requires Valid() && AtBlock()
      modifies this`nextBlock, this`start, this`pos, this`mem, this`failed
      ensures failed == (old(failed) || !ok)
      ensures ok ==> mem == Pieces(blocks, filter) && pos == old(pos) + |mem| - |old(mem)|
    {
      hide Pieces, Piece;
      var done := false;
      ok := true;
      while !done
        invariant ok && failed == old(failed) && pos == old(pos) + |mem| - |old(mem)|
        invariant !done ==> AtBlock()
        invariant done ==> mem == Pieces(blocks, filter)
        decreases !done, |blocks| - nextBlock
      {
        var b := blocks[nextBlock];
        assert BlockOk(b);
        var size := b.end - b.start;
        if filter.Window? {
          size := size - start;
          if filter.begin + filter.length < b.end {
            size := size - (b.end - (filter.begin + filter.length));
          }
        }
        PieceAt(b, filter, start, size);
        ok := WriteMemory(b, start, size);
        if !ok {
          return;
        }
        OnePiece(blocks, filter, nextBlock);
        done := GetNextBlock();
      }
    }

    /** create_vmcore, with what dump_init prepares: it succeeds exactly if the filter reaches
        a block and every write succeeds, and then every program header written is true of the
        file written. */
    method CreateVmcore() returns (ok: bool)
      requires Valid() && pos == 0 && mem == [] && loads == [] && !failed
      modifies this
      ensures ok == (Reaches(blocks, filter) && !failed)
      ensures ok ==>
                && |loads| == Headers() - 1 && |loads| <= |mappings|
                && mem == Pieces(blocks, filter) && pos == memStart + |mem|
                && forall i :: 0 <= i < |loads| ==> LoadOk(blocks, filter, mappings[i], loads[i], memStart)
    {
      hide Pieces, LoadOk;
      ok := GetStartBlock();
      if !ok {
        return;
      }
      Layout();
      ok := DumpBegin();
      if !ok {
        return;
      }
      memStart := pos;
      assert |mem| == 0;
      ok := DumpIterate();
    }
  }

  lemma Glue(before: seq<Byte>, host: seq<Byte>, from: nat, at: nat, next: nat)
    requires from <= at <= next <= |host|
    ensures before + host[from..at] + host[at..next] == before + host[from..next]
  {
  }

  lemma NoneBefore(blocks: seq<Range>, f: Filter)
    requires AllOk(blocks)
    ensures |Pieces(blocks[..0], f)| == 0
  {
  }
}
