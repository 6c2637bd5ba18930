/** The read-modify-write cycle of one request, step by step (qemu/block.c:3036-3119,
    3321-3372, 3381-3503).

    `Image` is the device as its driver sees it.  What the driver returns for bytes
    past the end of the image is arbitrary (`junk`). */
module AlignedIo {
  import opened Alignment
  import opened TrackedRequests
  import opened Bytes
  import opened BlockWrites

  function Max(a: int, b: int): int { if a > b then a else b }

  class Image {
    var disk: seq<Byte>
    var totalSectors: nat

    constructor (d: seq<Byte>, sectors: nat)
      ensures disk == d && totalSectors == sectors
    {
      disk, totalSectors := d, sectors;
    }

    /** The driver's readv into the first `n` sectors of `buf`.  It is asked for nothing past
        the block of `unit` sectors in which the image ends. */
    method DriverReadv(sector: nat, n: nat, ghost unit: nat, buf: array<Byte>, junk: nat -> Byte)
      requires n * SECTOR <= buf.Length && (n > 0 ==> sector < totalSectors && sector + n < totalSectors + unit)
      modifies buf
      ensures forall i :: 0 <= i < n * SECTOR ==>
                buf[i] ==
                  (if sector * SECTOR + i < totalSectors * SECTOR then At(disk, sector * SECTOR + i) else junk(i))
    {
      forall i | 0 <= i < n * SECTOR {
        buf[i] := if sector * SECTOR + i < totalSectors * SECTOR then At(disk, sector * SECTOR + i) else junk(i);
      }
    }

    /** bdrv_aligned_preadv without copy-on-read: zeros past the end of the image,
        whatever the driver returns there, and the driver is not asked for more than the
        block in which the image ends. */
    method AlignedPreadv(offset: nat, align: nat, buf: array<Byte>, junk: nat -> Byte)
      requires align > 0 && offset % SECTOR == 0 && buf.Length % SECTOR == 0 && align % SECTOR == 0
      modifies buf
      ensures buf[..] == ReadBlock(disk, totalSectors * SECTOR, offset, buf.Length)
    {
      var sector, n := offset / SECTOR, buf.Length / SECTOR;
      var total := totalSectors;
      var maxSectors := RoundUp(Max(0, total - sector), align / SECTOR);
      ghost var unit := SectorsLeft(total, sector, align, maxSectors);
      if n < maxSectors {
        DriverReadv(sector, n, unit, buf, junk);
      } else if maxSectors > 0 {
        DriverReadv(sector, maxSectors, unit, buf, junk);
      }
      if total < sector + n {
        var from := Max(0, total - sector) * SECTOR;
        forall i | from <= i < buf.Length {
          buf[i] := 0;
        }
      }
      assert forall i :: 0 <= i < buf.Length ==> buf[i] == Seen(disk, total * SECTOR, offset + i);
    }

    /** The driver's writev, then the new length (bdrv_aligned_pwritev). */
    method AlignedPwritev(offset: nat, qiov: seq<Byte>)
      requires offset % SECTOR == 0 && |qiov| % SECTOR == 0
      modifies this
      ensures forall p: nat :: At(disk, p) ==
                if offset <= p < offset + |qiov| then qiov[p - offset] else At(old(disk), p)
      ensures totalSectors * SECTOR == Max(old(totalSectors) * SECTOR, offset + |qiov|)
    {
      var i := 0;
      while i < |qiov|
        invariant 0 <= i <= |qiov| && totalSectors == old(totalSectors)
        invariant forall p: nat :: At(disk, p) ==
                    if offset <= p < offset + i then qiov[p - offset] else At(old(disk), p)
      {
        disk := Put(disk, offset + i, qiov[i]);
        i := i + 1;
      }
      totalSectors := Max(totalSectors, offset / SECTOR + |qiov| / SECTOR);
    }

    /** The reads of the cycle and the vector assembled from them. */
    method PadVector(offset0: nat, data: seq<Byte>, align: nat, junk: nat -> Byte)
      returns (offset: nat, bytes: nat, qiov: seq<Byte>, head: seq<Byte>, tail: seq<Byte>)
      requires align > 0 && align % SECTOR == 0
      ensures offset == Down(offset0, align)
      ensures (offset0 % align == 0 ==> head == []) && ((offset0 + |data|) % align == 0 ==> tail == [])
      ensures offset0 % align != 0 ==> head == ReadBlock(disk, totalSectors * SECTOR, offset, align)
      ensures (offset0 + |data|) % align != 0 ==>
                tail == ReadBlock(disk, totalSectors * SECTOR, Down(offset0 + |data|, align), align)
      ensures qiov == Vector(offset0, data, head, tail, align) && bytes == |qiov|
    {
      offset, bytes, head, tail, qiov := offset0, |data|, [], [], data;
      if offset % align != 0 {
        var headBuf := new Byte[align];
        MultipleOf(Down(offset, align), align);
        AlignedPreadv(Down(offset, align), align, headBuf, junk);
        head := headBuf[..];
        qiov := headBuf[..offset % align] + data;
        bytes := bytes + offset % align;
        offset := Down(offset, align);
      }
      assert offset + bytes == offset0 + |data|;
      if (offset + bytes) % align != 0 {
        var tailBuf := new Byte[align];
        MultipleOf(Down(offset + bytes, align), align);
        AlignedPreadv(Down(offset + bytes, align), align, tailBuf, junk);
        tail := tailBuf[..];
        var tailBytes := (offset + bytes) % align;
        qiov := qiov + tailBuf[tailBytes..];
        RoundUpShift(offset, bytes, align);
        RoundUpOfMultiple(offset + bytes, align);
        bytes := RoundUp(bytes, align);
      }
    }

    /** bdrv_co_do_pwritev on a device with no other request in flight, for any offset, length
        and alignment: the request's own bytes become its data; of the other bytes of its blocks
        those past the end of the image become zero; nothing else changes. */
    method CoDoPwritev(offset0: nat, data: seq<Byte>, align: nat, junk: nat -> Byte)
      requires align > 0 && align % SECTOR == 0
      modifies this
      ensures forall p: nat :: At(disk, p) ==
                if offset0 <= p < offset0 + |data| then data[p - offset0]
                else if Down(offset0, align) <= p < RoundUp(offset0 + |data|, align) then
                  Seen(old(disk), old(totalSectors) * SECTOR, p)
                else At(old(disk), p)
      ensures totalSectors * SECTOR == Max(old(totalSectors) * SECTOR, RoundUp(offset0 + |data|, align))
    {
      hide Qiov, Vector, ReadBlock;
      var offset, bytes, qiov, head, tail;
      offset, bytes, qiov, head, tail := PadVector(offset0, data, align, junk);
      ghost var t := Task(0, Begun(offset0, |data|), Write(data), head, 0, tail, 0, WriteIo({}));
      VectorIsQiov(t, align);
      PaddingRead(t, align, disk, totalSectors * SECTOR);
      WholeSectors(t, align);
      ghost var before, total := disk, totalSectors * SECTOR;
      AlignedPwritev(offset, qiov);
      OwnBytesOnly(t, align, before, total, disk);
    }
  }

  /** How far a read goes at most: nowhere from the end of the image on, and otherwise into the
      block in which the image ends. */
  lemma SectorsLeft(total: nat, sector: nat, align: nat, most: nat) returns (unit: nat)
    requires align > 0 && align % SECTOR == 0 && most == RoundUp(Max(0, total - sector), align / SECTOR)
    ensures unit == align / SECTOR
    ensures if sector < total then total <= sector + most < total + unit else most == 0
  {
    unit := align / SECTOR;
    if total <= sector {
      RoundUpOfMultiple(0, unit);
    }
  }

  lemma OwnBytesOnly(t: Task, align: nat, disk: seq<Byte>, total: nat, disk': seq<Byte>)
    requires align > 0 && t.op.Write? && t.req.bytes == |t.op.data|
    requires forall p: nat :: At(disk', p) ==
               if Lo(t, align) <= p < Hi(t, align) then Qiov(t, align, p) else At(disk, p)
    requires forall p: nat :: Lo(t, align) <= p < Hi(t, align) && Carried(t, p) ==>
               Qiov(t, align, p) == Seen(disk, total, p)
    ensures forall p: nat :: At(disk', p) ==
              if t.req.offset <= p < t.req.offset + |t.op.data| then t.op.data[p - t.req.offset]
              else if Lo(t, align) <= p < Hi(t, align) then Seen(disk, total, p)
              else At(disk, p)
  {
  }

  /** The bytes around the data are written back as they were read: zero past the end. */
  lemma PaddingRead(t: Task, align: nat, disk: seq<Byte>, total: nat)
    requires align > 0 && t.op.Write? && t.req.bytes == |t.op.data|
    requires HasHead(t, align) ==> t.head == ReadBlock(disk, total, Lo(t, align), align)
    requires HasTail(t, align) ==> t.tail == ReadBlock(disk, total, Down(t.req.offset + t.req.bytes, align), align)
    ensures forall p: nat :: Lo(t, align) <= p < Hi(t, align) && Carried(t, p) ==>
              Qiov(t, align, p) == Seen(disk, total, p)
  {
    RoundUpOfMultiple(t.req.offset + t.req.bytes, align);
  }

  lemma WholeSectors(t: Task, align: nat)
    requires align > 0 && align % SECTOR == 0
    ensures Lo(t, align) % SECTOR == 0 && (Hi(t, align) - Lo(t, align)) % SECTOR == 0
  {
    MultipleOf(Lo(t, align), align);
    MultipleOf(Hi(t, align), align);
    Between(Lo(t, align), Hi(t, align));
  }

  lemma Between(lo: nat, hi: nat)
    requires lo % SECTOR == 0 && hi % SECTOR == 0
    ensures (hi - lo) % SECTOR == 0
  {
  }

  lemma MultipleOf(x: nat, align: nat)
    requires align > 0 && align % SECTOR == 0 && x % align == 0
    ensures x % SECTOR == 0
  {
    var q, c := x / align, align / SECTOR;
    assert x == q * (SECTOR * c) == SECTOR * (q * c);
    ModOf(q * c, SECTOR, 0);
  }

  /** The vector as the code assembles it: the start of the head block, the data, the
      end of the tail block. */
  function Vector(offset: nat, data: seq<Byte>, head: seq<Byte>, tail: seq<Byte>, align: nat): seq<Byte>
    requires align > 0
    requires offset % align != 0 ==> |head| == align
    requires (offset + |data|) % align != 0 ==> |tail| == align
  {
    var h, e := offset % align, (offset + |data|) % align;
    (if h != 0 then head[..h] else []) + data + (if e != 0 then tail[e..] else [])
  }

  /** The vector is the one of the concurrent model, byte for byte. */
  lemma VectorIsQiov(t: Task, align: nat)
    requires align > 0 && t.op.Write? && t.req.bytes == |t.op.data|
    requires t.req.offset % align != 0 ==> |t.head| == align
    requires (t.req.offset + |t.op.data|) % align != 0 ==> |t.tail| == align
    ensures var v := Vector(t.req.offset, t.op.data, t.head, t.tail, align);
            && |v| == Hi(t, align) - Lo(t, align)
            && forall p: nat :: Lo(t, align) <= p < Hi(t, align) ==> v[p - Lo(t, align)] == Qiov(t, align, p)
  {
    RoundUpOfMultiple(t.req.offset + t.req.bytes, align);
  }
}
