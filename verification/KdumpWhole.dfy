/** A kdump-compressed dump as a whole: headers, bitmaps, descriptors and page data in one file
    (qemu/dump.c:722-815, 1350-1398). */
module KdumpWhole {
  import opened Bytes
  import opened Words
  import opened KdumpFile
  import opened Kdump
  import opened KdumpBitmap
  import opened KdumpPages

  function DivRoundUp(n: nat, d: nat): nat
    requires d > 0
  {
    (n + d - 1) / d
  }

  /** sub_hdr_size: the blocks of the sub-header and the notes after it. */
  function SubBlocks(sub: seq<Byte>, notes: seq<Byte>): nat
  {
    DivRoundUp(|sub| + |notes|, PAGE_SIZE)
  }

  /** offset_dump_bitmap, after one header block and the sub-header. */
  function BitmapOffset(subHeader: nat): nat
  {
    (1 + subHeader) * PAGE_SIZE
  }

  /** offset_page, after both bitmaps. */
  function PageOffset(subHeader: nat, len: nat): nat
  {
    (1 + subHeader + DivRoundUp(len, PAGE_SIZE) * 2) * PAGE_SIZE
  }

  /** The pages begin where the second bitmap ends. */
  lemma NoGap(subHeader: nat, maxPfn: nat)
    ensures PageOffset(subHeader, LengthOf(maxPfn)) == BitmapOffset(subHeader) + 2 * LengthOf(maxPfn)
  {
    var n := ((maxPfn + 7) / 8 + PAGE_SIZE - 1) / PAGE_SIZE;
    assert LengthOf(maxPfn) == n * PAGE_SIZE;
    assert DivRoundUp(n * PAGE_SIZE, PAGE_SIZE) == n;
  }

  lemma BitmapStill(blocks: seq<Block>, f: File, f': File, at: nat, len: nat, lo: nat, hi: nat)
    requires BitmapOf(blocks, f, at, len) && SameOutside(f, f', lo, hi) && at + len <= lo
    ensures BitmapOf(blocks, f', at, len)
  {
    hide InBlock, TestBit;
    forall p: nat | p < 8 * len ensures FileBit(f', at, p) <==> InBlock(blocks, p) {
      assert FileBit(f, at, p) <==> InBlock(blocks, p);
      assert Get(f, at + p / 8, 1) == Get(f', at + p / 8, 1);
    }
  }

  /** Header, sub-header and notes are in the file, each where its reader looks for it. */
  ghost predicate HeadersIn(f: File, header: seq<Byte>, sub: seq<Byte>, notes: seq<Byte>)
  {
    Holds(f, 0, header) && Holds(f, PAGE_SIZE, sub) && Holds(f, PAGE_SIZE + |sub|, notes)
  }

  /** What is written from the bitmaps on leaves them alone. */
  lemma HeadersStill(f: File, f': File, header: seq<Byte>, sub: seq<Byte>, notes: seq<Byte>, lo: nat, hi: nat)
    requires HeadersIn(f, header, sub, notes) && SameOutside(f, f', lo, hi)
    requires |header| <= PAGE_SIZE && BitmapOffset(SubBlocks(sub, notes)) <= lo
    ensures HeadersIn(f', header, sub, notes)
  {
    hide Holds, SameOutside;
    assert PAGE_SIZE + |sub| + |notes| <= BitmapOffset(SubBlocks(sub, notes));
    StillHeld(f, f', lo, hi, 0, header);
    StillHeld(f, f', lo, hi, PAGE_SIZE, sub);
    StillHeld(f, f', lo, hi, PAGE_SIZE + |sub|, notes);
  }

  /** The writes of create_header32 and create_header64. */
  method WriteHeaders(out: Output, header: seq<Byte>, sub: seq<Byte>, notes: seq<Byte>) returns (ok: bool)
    requires |header| <= PAGE_SIZE
    modifies out
    ensures out.failed == (old(out.failed) || !ok)
    ensures ok ==> HeadersIn(out.file, header, sub, notes)
  {
    hide Holds, SameOutside, Put;
    ok := out.WriteBuffer(0, header);
    if !ok {
      return;
    }
    ghost var f := out.file;
    ok := out.WriteBuffer(PAGE_SIZE, sub);
    if !ok {
      return;
    }
    ghost var g := out.file;
    StillHeld(f, g, PAGE_SIZE, PAGE_SIZE + |sub|, 0, header);
    ok := out.WriteBuffer(PAGE_SIZE + |sub|, notes);
    if ok {
      StillHeld(g, out.file, PAGE_SIZE + |sub|, PAGE_SIZE + |sub| + |notes|, 0, header);
      StillHeld(g, out.file, PAGE_SIZE + |sub|, PAGE_SIZE + |sub| + |notes|, PAGE_SIZE, sub);
    }
  }

  /** It succeeds exactly if every write does, and then everything can be read back: the
      headers, which pages exist from each bitmap, and the pages in order from the
      descriptors. */
  method CreateKdump(blocks: seq<Block>, header: seq<Byte>, sub: seq<Byte>, notes: seq<Byte>, big: bool, flag: nat,
                     inflate: Codec)
    returns (ok: bool, out: Output)
    requires BlocksOk(blocks) && 0 < flag < 0x1_0000_0000 && |header| <= PAGE_SIZE
    requires PageOffset(SubBlocks(sub, notes), LengthOf(EndOf(blocks))) + DESC_SIZE * |Items(blocks)|
             + PAGE_SIZE * (|Items(blocks)| + 1) < WORD_MAX
    ensures ok == !out.failed
    ensures ok ==>
              var len, at, pages := LengthOf(EndOf(blocks)), BitmapOffset(SubBlocks(sub, notes)),
                                    PageOffset(SubBlocks(sub, notes), LengthOf(EndOf(blocks)));
              && HeadersIn(out.file, header, sub, notes)
              && BitmapOf(blocks, out.file, at, len) && BitmapOf(blocks, out.file, at + len, len)
              && forall i :: 0 <= i < |Items(blocks)| ==>
                   PageAt(out.file, pages, i, big, inflate) == Items(blocks)[i].page
  {
    hide Items, BlocksOk, LengthOf, PageOffset, BitmapOffset, BitmapOf, PageAt, SameOutside, Holds, DescsBytes,
         ZerosShared, HeadersIn, SubBlocks;
    var len, at := LengthOf(EndOf(blocks)), BitmapOffset(SubBlocks(sub, notes));
    var pages := PageOffset(SubBlocks(sub, notes), len);
    NoGap(SubBlocks(sub, notes), EndOf(blocks));
    out := new Output();
    ok := WriteHeaders(out, header, sub, notes);
    if !ok {
      return;
    }
    ghost var e := out.file;
    var bitmaps := new Bitmaps(out, blocks, at);
    ok := bitmaps.WriteDumpBitmap();
    if !ok {
      return;
    }
    ghost var f := out.file;
    HeadersStill(e, f, header, sub, notes, at, at + 2 * len);
    var writer := new PageWriter(out, blocks, pages, big, flag, inflate);
    ok := writer.WriteDumpPages();
    if ok {
      ghost var end := writer.Base() + PAGE_SIZE * (writer.count + 1);
      BitmapStill(blocks, f, out.file, at, len, pages, end);
      BitmapStill(blocks, f, out.file, at + len, len, pages, end);
      HeadersStill(f, out.file, header, sub, notes, pages, end);
    }
  }
}
