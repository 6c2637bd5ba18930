/** Page descriptors and page data of a kdump-compressed dump, written side by side through
    two buffers (qemu/dump.c:1160-1326). */
module KdumpPages {
  import opened Bytes
  import opened Words
  import opened KdumpFile
  import opened Kdump

  datatype Desc = Desc(offset: nat, size: nat, flags: nat)

  ghost predicate DescOk(d: Desc)
  {
    d.offset < WORD_MAX && d.size < 0x1_0000_0000 && d.flags < 0x1_0000_0000
  }

  function DescBytes(d: Desc, big: bool): (r: seq<Byte>)
    ensures |r| == DESC_SIZE
  {
    Number(d.offset, 8, big) + Number(d.size, 4, big) + Number(d.flags, 4, big) + Number(0, 8, big)
  }

  function DescOf(s: seq<Byte>, big: bool): Desc
    requires |s| == DESC_SIZE
  {
    Desc(UnNumber(s[..8], big), UnNumber(s[8..12], big), UnNumber(s[12..16], big))
  }

  lemma DescRoundTrip(d: Desc, big: bool)
    requires DescOk(d)
    ensures DescOf(DescBytes(d, big), big) == d
  {
    hide Number, UnNumber;
    var a, b, c, e := Number(d.offset, 8, big), Number(d.size, 4, big), Number(d.flags, 4, big), Number(0, 8, big);
    Powers();
    NumberRoundTrip(d.offset, 8, big);
    NumberRoundTrip(d.size, 4, big);
    NumberRoundTrip(d.flags, 4, big);
    var s := a + b + c + e;
    assert s[..8] == a && s[8..12] == b && s[12..16] == c;
  }

  lemma Powers()
    ensures Power256(4) == 0x1_0000_0000 && Power256(8) == WORD_MAX
  {
    assert Power256(2) == 0x1_0000 && Power256(6) == 0x1_0000_0000_0000;
  }

  ghost function DescsBytes(descs: seq<Desc>, big: bool): (r: seq<Byte>)
    ensures |r| == DESC_SIZE * |descs|
  {
    if descs == [] then [] else DescsBytes(descs[..|descs| - 1], big) + DescBytes(descs[|descs| - 1], big)
  }

  lemma DescsMore(descs: seq<Desc>, d: Desc, big: bool)
    ensures DescsBytes(descs + [d], big) == DescsBytes(descs, big) + DescBytes(d, big)
  {
    assert (descs + [d])[..|descs|] == descs;
  }

  lemma {:induction false} DescLies(descs: seq<Desc>, i: nat, big: bool)
    requires i < |descs|
    ensures DescsBytes(descs, big)[DESC_SIZE * i..DESC_SIZE * i + DESC_SIZE] == DescBytes(descs[i], big)
    decreases |descs|
  {
    hide DescBytes;
    var init, last := descs[..|descs| - 1], descs[|descs| - 1];
    var a, b := DescsBytes(init, big), DescBytes(last, big);
    if i < |init| {
      DescLies(init, i, big);
      assert (a + b)[DESC_SIZE * i..DESC_SIZE * i + DESC_SIZE] == a[DESC_SIZE * i..DESC_SIZE * i + DESC_SIZE];
    } else {
      assert (a + b)[|a|..|a| + DESC_SIZE] == b;
    }
  }

  type Codec = (nat, seq<Byte>) -> seq<Byte>

  /** How a reader turns stored bytes into a page. */
  function Unpacked(inflate: Codec, flags: nat, bytes: seq<Byte>): seq<Byte>
  {
    if flags == 0 then bytes else inflate(flags, bytes)
  }

  /** The descriptor leads to the page. */
  ghost predicate Stored(inflate: Codec, d: Desc, data: seq<Byte>, base: nat, page: Page)
  {
    && DescOk(d) && base <= d.offset && d.offset - base + d.size <= |data|
    && Unpacked(inflate, d.flags, data[d.offset - base..d.offset - base + d.size]) == page
  }

  ghost predicate AllStored(inflate: Codec, descs: seq<Desc>, items: seq<Item>, data: seq<Byte>, base: nat)
  {
    |descs| <= |items| && forall i :: 0 <= i < |descs| ==> Stored(inflate, descs[i], data, base, items[i].page)
  }

  lemma StoredMore(inflate: Codec, d: Desc, data: seq<Byte>, more: seq<Byte>, base: nat, page: Page)
    requires Stored(inflate, d, data, base, page)
    ensures Stored(inflate, d, data + more, base, page)
  {
    var i, j := d.offset - base, d.offset - base + d.size;
    assert (data + more)[i..j] == data[i..j];
  }

  lemma AllStoredMore(inflate: Codec, descs: seq<Desc>, items: seq<Item>, data: seq<Byte>, more: seq<Byte>, base: nat)
    requires AllStored(inflate, descs, items, data, base)
    ensures AllStored(inflate, descs, items, data + more, base)
  {
    hide Stored;
    forall i | 0 <= i < |descs| ensures Stored(inflate, descs[i], data + more, base, items[i].page) {
      StoredMore(inflate, descs[i], data, more, base, items[i].page);
    }
  }

  lemma JustStored(inflate: Codec, d: Desc, data: seq<Byte>, bytes: seq<Byte>, base: nat, page: Page)
    requires d == Desc(base + |data|, |bytes|, d.flags) && DescOk(d) && Unpacked(inflate, d.flags, bytes) == page
    ensures Stored(inflate, d, data + bytes, base, page)
  {
    assert (data + bytes)[|data|..|data| + |bytes|] == bytes;
  }

  /** What a reader finds for the `i`-th page. */
  function PageAt(f: File, at: nat, i: nat, big: bool, inflate: Codec): seq<Byte>
  {
    var d := DescOf(Get(f, at + DESC_SIZE * i, DESC_SIZE), big);
    Unpacked(inflate, d.flags, Get(f, d.offset, d.size))
  }

  lemma ReadPage(f: File, at: nat, base: nat, descs: seq<Desc>, items: seq<Item>, data: seq<Byte>, i: nat, big: bool,
                 inflate: Codec)
    requires Holds(f, at, DescsBytes(descs, big)) && Holds(f, base, data)
    requires AllStored(inflate, descs, items, data, base) && i < |descs|
    ensures PageAt(f, at, i, big, inflate) == items[i].page
  {
    hide Get, Holds, DescOf, DescsBytes, AllStored, Unpacked;
    var d := descs[i];
    StoredAt(inflate, descs, items, data, base, i);
    ReadDesc(f, at, descs, i, big);
    GetHeld(f, base, data, d.offset - base, d.size);
    assert base + (d.offset - base) == d.offset;
  }

  lemma StoredAt(inflate: Codec, descs: seq<Desc>, items: seq<Item>, data: seq<Byte>, base: nat, i: nat)
    requires AllStored(inflate, descs, items, data, base) && i < |descs|
    ensures i < |items| && Stored(inflate, descs[i], data, base, items[i].page)
  {
  }

  lemma ReadDesc(f: File, at: nat, descs: seq<Desc>, i: nat, big: bool)
    requires Holds(f, at, DescsBytes(descs, big)) && i < |descs| && DescOk(descs[i])
    ensures DescOf(Get(f, at + DESC_SIZE * i, DESC_SIZE), big) == descs[i]
  {
    hide Get, Holds, DescOf, DescBytes, DescsBytes;
    GetHeld(f, at, DescsBytes(descs, big), DESC_SIZE * i, DESC_SIZE);
    DescLies(descs, i, big);
    DescRoundTrip(descs[i], big);
  }

  /** The descriptors of zero pages lead to the one page at `base`. */
  ghost predicate ZerosShared(descs: seq<Desc>, items: seq<Item>, base: nat)
  {
    forall i :: 0 <= i < |descs| && i < |items| && items[i].page == ZeroPage() ==> descs[i] == Desc(base, PAGE_SIZE, 0)
  }

  class PageWriter {
    const out: Output
    const blocks: seq<Block>
    const at: nat
    const count: nat
    const big: bool
    const flag: nat
    const inflate: Codec
    var descCache: Cache
    var dataCache: Cache
    ghost var before: File
    ghost var descsOut: seq<Byte>
    ghost var dataOut: seq<Byte>
    ghost var descs: seq<Desc>
    ghost var data: seq<Byte>
    /** The last attempt to compress a page has made it smaller. */
    ghost var smaller: bool

    /** Where the page data begins: right after the descriptors. */
    function Base(): nat
    {
      at + DESC_SIZE * count
    }

    ghost predicate Valid()
    {
      && BlocksOk(blocks) && count == |Items(blocks)| && 0 < flag < 0x1_0000_0000
      && at + DESC_SIZE * count + PAGE_SIZE * (count + 1) < WORD_MAX
    }

    /** Both areas are in the file or in their buffers, and apart. */
    ghost predicate Areas()
      reads `before, `descs, `descsOut, `descCache, `data, `dataOut, `dataCache, out
    {
      && |descs| <= count
      && Cached(out.file, at, descsOut, descCache) && descsOut + descCache.buf == DescsBytes(descs, big)
      && Cached(out.file, Base(), dataOut, dataCache) && dataOut + dataCache.buf == data
      && SameOutside(before, out.file, at, Base() + |data|)
    }

    constructor (out0: Output, blocks0: seq<Block>, at0: nat, big0: bool, flag0: nat, inflate0: Codec)
      requires BlocksOk(blocks0) && 0 < flag0 < 0x1_0000_0000
      requires at0 + DESC_SIZE * |Items(blocks0)| + PAGE_SIZE * (|Items(blocks0)| + 1) < WORD_MAX
      ensures Valid() && out == out0 && blocks == blocks0 && at == at0 && big == big0 && inflate == inflate0
    {
      out, blocks, at, count, big, flag, inflate := out0, blocks0, at0, |Items(blocks0)|, big0, flag0, inflate0;
      descCache, dataCache := Cache([], 0), Cache([], 0);
      before, descsOut, dataOut, descs, data, smaller := map[], [], [], [], [], false;
    }

    method PutData(bytes: seq<Byte>) returns (ok: bool)
      requires Areas() && |bytes| <= PAGE_SIZE
      modifies out, this`dataCache, this`dataOut, this`data
      ensures out.failed == (old(out.failed) || !ok)
      ensures ok ==> Areas() && data == old(data) + bytes
    {
      hide Holds, SameOutside, DescsBytes;
      ghost var f := out.file;
      ok, dataCache, dataOut := out.WriteCache(dataCache, bytes, false, Base(), dataOut);
      if ok {
        CachedStill(f, out.file, old(dataCache).offset, old(dataCache).offset + |old(dataCache).buf|,
                    at, descsOut, descCache);
        Inside(before, f, out.file, old(dataCache).offset, old(dataCache).offset + |old(dataCache).buf|,
               at, Base() + |data|, Base() + |data| + |bytes|);
        data := data + bytes;
      }
    }

    method PutDesc(d: Desc) returns (ok: bool)
      requires Areas() && |descs| < count
      modifies out, this`descCache, this`descsOut, this`descs
      ensures out.failed == (old(out.failed) || !ok)
      ensures ok ==> Areas() && descs == old(descs) + [d]
    {
      hide Holds, SameOutside, DescsBytes, DescBytes;
      ghost var f := out.file;
      DescsMore(descs, d, big);
      ok, descCache, descsOut := out.WriteCache(descCache, DescBytes(d, big), false, at, descsOut);
      if ok {
        CachedStill(f, out.file, old(descCache).offset, old(descCache).offset + |old(descCache).buf|,
                    Base(), dataOut, dataCache);
        Inside(before, f, out.file, old(descCache).offset, old(descCache).offset + |old(descCache).buf|,
               at, Base() + |data|, Base() + |data|);
        descs := descs + [d];
      }
    }

    /** The first `k` pages have their descriptors, and the shared zero page is in place. */
    ghost predicate Progress(k: nat)
      reads `before, `descs, `descsOut, `descCache, `data, `dataOut, `dataCache, out
    {
      && Areas() && |descs| == k && AllStored(inflate, descs, Items(blocks), data, Base())
      && PAGE_SIZE <= |data| <= PAGE_SIZE * (k + 1) && data[..PAGE_SIZE] == ZeroPage()
      && ZerosShared(descs, Items(blocks), Base())
    }

    /** One of the compressors; it may fail, or not make the page smaller. */
    method TryCompress(page: Page) returns (ok: bool, bytes: seq<Byte>)
      modifies this`smaller
      ensures ok ==> inflate(flag, bytes) == page
      ensures smaller == (ok && |bytes| < PAGE_SIZE)
    {
      ok, bytes, smaller := false, [], false;
    }

    /** A page that is zero: its descriptor is the shared one. */
    method PutZeroPage(ghost k: nat) returns (ok: bool)
      requires Valid() && Progress(k) && k < count && Items(blocks)[k].page == ZeroPage()
      modifies out, this`descCache, this`descsOut, this`descs
      ensures out.failed == (old(out.failed) || !ok)
      ensures ok ==> Progress(k + 1)
    {
      hide Areas, Items, BlocksOk, Stored;
      var d := Desc(Base(), PAGE_SIZE, 0);
      ZeroStored(inflate, d, data, Base());
      ghost var descs0 := descs;
      ok := PutDesc(d);
      if ok {
        OneStored(inflate, descs0, Items(blocks), data, Base(), d);
      }
    }

    /** Any other page: compressed if that helps, and its descriptor after its data. */
    method PutOtherPage(page: Page, offsetData: nat, ghost k: nat) returns (ok: bool, size: nat)
      requires Valid() && Progress(k) && k < count && Items(blocks)[k].page == page && offsetData == Base() + |data|
      requires page != ZeroPage()
      modifies out, this`descCache, this`descsOut, this`descs, this`dataCache, this`dataOut, this`data, this`smaller
      ensures out.failed == (old(out.failed) || !ok)
      ensures ok ==> Progress(k + 1) && offsetData + size == Base() + |data|
      ensures ok ==> descs == old(descs) + [Desc(offsetData, size, if smaller then flag else 0)]
      ensures smaller <==> size < PAGE_SIZE
    {
      hide Areas, Items, BlocksOk, Stored;
      var bytes, flags;
      ok, bytes := TryCompress(page);
      if ok && |bytes| < PAGE_SIZE {
        flags := flag;
      } else {
        flags, bytes := 0, page;
      }
      size := |bytes|;
      ghost var data0, descs0 := data, descs;
      ok := PutData(bytes);
      if !ok {
        return;
      }
      var d := Desc(offsetData, size, flags);
      AllStoredMore(inflate, descs, Items(blocks), data0, bytes, Base());
      JustStored(inflate, d, data0, bytes, Base(), page);
      ok := PutDesc(d);
      if ok {
        OneStored(inflate, descs0, Items(blocks), data, Base(), d);
      }
    }

    /** The zero page, which all zero pages share. */
    method Begin() returns (ok: bool)
      requires Valid()
      modifies out, this
      ensures out.failed == (old(out.failed) || !ok)
      ensures ok ==> Progress(0) && |data| == PAGE_SIZE && before == old(out.file)
    {
      hide Items, BlocksOk;
      descCache, dataCache := Cache([], at), Cache([], Base());
      descsOut, dataOut, descs, data, before := [], [], [], [], out.file;
      Unchanged(out.file, at, Base());
      ok := PutData(ZeroPage());
    }

    /** The loop of write_dump_pages. */
    method PutAll() returns (ok: bool)
      requires Valid() && Progress(0) && |data| == PAGE_SIZE
      modifies out, this`descCache, this`descsOut, this`descs, this`dataCache, this`dataOut, this`data, this`smaller
      ensures out.failed == (old(out.failed) || !ok)
      ensures ok ==> Progress(count)
    {
      hide Progress, Items, BlocksOk, At;
      var b, pfn: nat, more, page := -1, 0, true, ZeroPage();
      var offsetData := Base() + PAGE_SIZE;
      ghost var k: nat := 0;
      AtStart(blocks);
      ok := true;
      while more
        invariant out.failed == old(out.failed)
        invariant ok && k <= count && (more ==> At(blocks, b, pfn, k)) && (!more ==> k == count)
        invariant Progress(k) && offsetData == Base() + |data|
        decreases more, count - k
      {
        more, b, pfn, page := GetNextPage(blocks, b, pfn, k);
        if more {
          if page == ZeroPage() {
            ok := PutZeroPage(k);
          } else {
            var size;
            ok, size := PutOtherPage(page, offsetData, k);
            offsetData := offsetData + size;
          }
          if !ok {
            return;
          }
          k := k + 1;
        }
      }
    }

    /** The two final synchronisations: everything is in the file. */
    method Sync() returns (ok: bool)
      requires Areas()
      modifies out, this`descCache, this`descsOut, this`dataCache, this`dataOut
      ensures out.failed == (old(out.failed) || !ok)
      ensures ok ==> Holds(out.file, at, DescsBytes(descs, big)) && Holds(out.file, Base(), data)
      ensures ok ==> SameOutside(before, out.file, at, Base() + |data|)
    {
      hide Holds, SameOutside, DescsBytes;
      ghost var f := out.file;
      ok, descCache, descsOut := out.WriteCache(descCache, [], true, at, descsOut);
      if !ok {
        return;
      }
      ghost var g := out.file;
      CachedStill(f, g, old(descCache).offset, old(descCache).offset + |old(descCache).buf|,
                  Base(), dataOut, dataCache);
      Inside(before, f, g, old(descCache).offset, old(descCache).offset + |old(descCache).buf|,
             at, Base() + |data|, Base() + |data|);
      ok, dataCache, dataOut := out.WriteCache(dataCache, [], true, Base(), dataOut);
      if ok {
        CachedStill(g, out.file, old(dataCache).offset, old(dataCache).offset + |old(dataCache).buf|,
                    at, descsOut, descCache);
        Inside(before, g, out.file, old(dataCache).offset, old(dataCache).offset + |old(dataCache).buf|,
               at, Base() + |data|, Base() + |data|);
      }
    }

    /** write_dump_pages: afterwards the `i`-th descriptor leads to the `i`-th page, all zero pages
        share one, and nothing before the descriptors has changed. */
    method WriteDumpPages() returns (ok: bool)
      requires Valid()
      modifies out, this
      ensures out.failed == (old(out.failed) || !ok)
      ensures ok ==> forall i :: 0 <= i < count ==> PageAt(out.file, at, i, big, inflate) == Items(blocks)[i].page
      ensures ok ==> SameOutside(old(out.file), out.file, at, Base() + PAGE_SIZE * (count + 1))
      ensures ok ==> Holds(out.file, at, DescsBytes(descs, big)) && ZerosShared(descs, Items(blocks), Base())
    {
      hide Items, BlocksOk, PageAt, AllStored, Holds, SameOutside, DescsBytes;
      ok := Begin();
      if !ok {
        return;
      }
      ok := PutAll();
      if !ok {
        return;
      }
      ok := Sync();
      if ok {
        Wider(before, out.file, at, Base() + |data|, at, Base() + PAGE_SIZE * (count + 1));
        forall i | 0 <= i < count ensures PageAt(out.file, at, i, big, inflate) == Items(blocks)[i].page {
          ReadPage(out.file, at, Base(), descs, Items(blocks), data, i, big, inflate);
        }
      }
    }
  }

  lemma ZeroStored(inflate: Codec, d: Desc, data: seq<Byte>, base: nat)
    requires d == Desc(base, PAGE_SIZE, 0) && base < WORD_MAX && PAGE_SIZE <= |data| && data[..PAGE_SIZE] == ZeroPage()
    ensures Stored(inflate, d, data, base, ZeroPage())
  {
  }

  lemma OneStored(inflate: Codec, descs: seq<Desc>, items: seq<Item>, data: seq<Byte>, base: nat, d: Desc)
    requires AllStored(inflate, descs, items, data, base) && |descs| < |items|
    requires Stored(inflate, d, data, base, items[|descs|].page)
    ensures AllStored(inflate, descs + [d], items, data, base)
  {
    hide Stored;
  }

  lemma Inside(f: File, g: File, h: File, lo: nat, hi: nat, lo': nat, hi': nat, hi'': nat)
    requires SameOutside(f, g, lo', hi') && SameOutside(g, h, lo, hi) && lo' <= lo && hi <= hi'' && hi' <= hi''
    ensures SameOutside(f, h, lo', hi'')
  {
    hide SameOutside;
    Wider(f, g, lo', hi', lo', hi'');
    Wider(g, h, lo, hi, lo', hi'');
    Compose(f, g, h, lo', hi'');
  }
}
