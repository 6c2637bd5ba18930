/** The bitmap of pages still to be sent and its counter (qemu/arch_init.c:447-516,
    556-558, 888-901). */
module MigrationBitmap {
  import opened Bytes

  const BITS_PER_LONG: nat := 64

  /** A RAM block: its name, its first page and its number of pages. */
  datatype Block = Block(id: seq<Byte>, base: nat, pages: nat)

  predicate In(b: Block, p: nat)
  {
    b.base <= p < b.base + b.pages
  }

  predicate Used(blocks: seq<Block>, p: nat)
  {
    exists i :: 0 <= i < |blocks| && In(blocks[i], p)
  }

  ghost predicate BlocksOk(blocks: seq<Block>, n: nat)
  {
    && (forall i :: 0 <= i < |blocks| ==> 0 < blocks[i].pages && blocks[i].base + blocks[i].pages <= n)
    && (forall i, j, p: nat :: 0 <= i < j < |blocks| && In(blocks[i], p) ==> !In(blocks[j], p))
  }

  /** find_next_bit: the first set bit of `[from, end)`, or `end`. */
  function FindNext(bits: seq<bool>, from: nat, end: nat): (r: nat)
    requires from <= end <= |bits|
    ensures from <= r <= end
    ensures r < end ==> bits[r]
    ensures forall p :: from <= p < r ==> !bits[p]
    decreases end - from
  {
    if from == end || bits[from] then from else FindNext(bits, from + 1, end)
  }

  /** Set bits over used pages below `n`. */
  function Count(bits: seq<bool>, blocks: seq<Block>, n: nat): nat
    requires n <= |bits|
  {
    if n == 0 then 0 else Count(bits, blocks, n - 1) + if bits[n - 1] && Used(blocks, n - 1) then 1 else 0
  }

  lemma {:induction false} CountUpdate(bits: seq<bool>, blocks: seq<Block>, n: nat, p: nat, v: bool)
    requires n <= |bits| && p < |bits|
    ensures Count(bits[p := v], blocks, n) ==
            Count(bits, blocks, n)
            + (if p < n && Used(blocks, p) then (if v then 1 else 0) - (if bits[p] then 1 else 0) else 0)
    decreases n
  {
    if n > 0 {
      CountUpdate(bits, blocks, n - 1, p, v);
    }
  }

  lemma {:induction false} CountSame(bits: seq<bool>, bits': seq<bool>, blocks: seq<Block>, n: nat)
    requires n <= |bits| == |bits'|
    requires forall p :: 0 <= p < n && Used(blocks, p) ==> bits[p] == bits'[p]
    ensures Count(bits, blocks, n) == Count(bits', blocks, n)
    decreases n
  {
    if n > 0 {
      CountSame(bits, bits', blocks, n - 1);
    }
  }

  function TotalPages(blocks: seq<Block>): nat
  {
    if blocks == [] then 0 else TotalPages(blocks[..|blocks| - 1]) + blocks[|blocks| - 1].pages
  }

  /** Counting a bitmap that is set everywhere, one block at a time. */
  lemma {:induction false} CountAdds(bits: seq<bool>, blocks: seq<Block>, b: Block, n: nat)
    requires n <= |bits| && forall p :: 0 <= p < n ==> bits[p]
    requires forall p: nat :: In(b, p) ==> !Used(blocks, p)
    ensures Count(bits, blocks + [b], n) == Count(bits, blocks, n) + Below(b, n)
    decreases n
  {
    if n > 0 {
      CountAdds(bits, blocks, b, n - 1);
      UsedSplit(blocks, b, n - 1);
    }
  }

  function Below(b: Block, n: nat): nat
  {
    if n <= b.base then 0 else if n <= b.base + b.pages then n - b.base else b.pages
  }

  lemma UsedSplit(blocks: seq<Block>, b: Block, p: nat)
    ensures Used(blocks + [b], p) <==> Used(blocks, p) || In(b, p)
  {
    var all := blocks + [b];
    if Used(blocks, p) {
      var i :| 0 <= i < |blocks| && In(blocks[i], p);
      assert all[i] == blocks[i];
    }
    if In(b, p) {
      assert all[|blocks|] == b;
    }
    if Used(all, p) && !In(b, p) {
      var i :| 0 <= i < |all| && In(all[i], p);
      assert blocks[i] == all[i];
    }
  }

  lemma {:induction false} CountNone(bits: seq<bool>, n: nat)
    requires n <= |bits|
    ensures Count(bits, [], n) == 0
    decreases n
  {
    if n > 0 {
      CountNone(bits, n - 1);
    }
  }

  /** The counter starts right: with every bit set, the set bits over used pages are the
      pages of all blocks. */
  lemma {:induction false} CountAll(bits: seq<bool>, blocks: seq<Block>, n: nat)
    requires n <= |bits| && (forall p :: 0 <= p < n ==> bits[p]) && BlocksOk(blocks, n)
    ensures Count(bits, blocks, n) == TotalPages(blocks)
    decreases |blocks|
  {
    if blocks == [] {
      CountNone(bits, n);
    } else {
      var init, b := blocks[..|blocks| - 1], blocks[|blocks| - 1];
      assert blocks == init + [b];
      CountAll(bits, init, n);
      CountAdds(bits, init, b, n);
    }
  }

  /** The bits of `[lo, hi)` joined with the log. */
  function Merge(bits: seq<bool>, log: seq<bool>, lo: nat, hi: nat): (r: seq<bool>)
    requires |bits| == |log|
    ensures |r| == |bits|
    ensures forall p :: 0 <= p < |r| ==> r[p] == (bits[p] || (lo <= p < hi && log[p]))
  {
    seq(|bits|, p requires 0 <= p < |bits| => bits[p] || (lo <= p < hi && log[p]))
  }

  function Cleared(log: seq<bool>, lo: nat, hi: nat): (r: seq<bool>)
    ensures |r| == |log|
    ensures forall p :: 0 <= p < |r| ==> r[p] == (log[p] && !(lo <= p < hi))
  {
    seq(|log|, p requires 0 <= p < |log| => log[p] && !(lo <= p < hi))
  }

  /** Pages of `[lo, hi)` that the log adds to the bitmap, or those of them in use. */
  function New(bits: seq<bool>, log: seq<bool>, lo: nat, hi: nat): nat
    requires hi <= |bits| == |log|
    decreases hi
  {
    if hi <= lo then 0 else New(bits, log, lo, hi - 1) + if log[hi - 1] && !bits[hi - 1] then 1 else 0
  }

  function NewUsed(bits: seq<bool>, log: seq<bool>, blocks: seq<Block>, lo: nat, hi: nat): nat
    requires hi <= |bits| == |log|
    decreases hi
  {
    if hi <= lo then 0
    else NewUsed(bits, log, blocks, lo, hi - 1) + if log[hi - 1] && !bits[hi - 1] && Used(blocks, hi - 1) then 1 else 0
  }

  /** The log would set a bit outside every block that the bitmap does not have. */
  ghost predicate Stale(bits: seq<bool>, log: seq<bool>, blocks: seq<Block>, lo: nat, hi: nat)
    requires hi <= |bits| == |log|
  {
    exists p :: lo <= p < hi && log[p] && !bits[p] && !Used(blocks, p)
  }

  lemma {:induction false} NewIsUsed(bits: seq<bool>, log: seq<bool>, blocks: seq<Block>, lo: nat, hi: nat)
    requires hi <= |bits| == |log|
    ensures NewUsed(bits, log, blocks, lo, hi) <= New(bits, log, lo, hi)
    ensures New(bits, log, lo, hi) == NewUsed(bits, log, blocks, lo, hi) <==> !Stale(bits, log, blocks, lo, hi)
    decreases hi
  {
    if hi > lo {
      NewIsUsed(bits, log, blocks, lo, hi - 1);
      if Stale(bits, log, blocks, lo, hi) && !(log[hi - 1] && !bits[hi - 1] && !Used(blocks, hi - 1)) {
        var p :| lo <= p < hi && log[p] && !bits[p] && !Used(blocks, p);
        assert lo <= p < hi - 1;
      }
    }
  }

  lemma {:induction false} CountMerge(bits: seq<bool>, log: seq<bool>, blocks: seq<Block>, lo: nat, hi: nat, n: nat)
    requires n <= |bits| == |log| && lo <= hi
    ensures Count(Merge(bits, log, lo, hi), blocks, n) ==
            Count(bits, blocks, n) + NewUsed(bits, log, blocks, lo, if hi < n then hi else n)
    decreases n
  {
    if n > 0 {
      CountMerge(bits, log, blocks, lo, hi, n - 1);
    }
  }

  lemma {:induction false} NewAdds(bits: seq<bool>, log: seq<bool>, lo: nat, mid: nat, hi: nat)
    requires lo <= mid <= hi <= |bits| == |log|
    ensures New(bits, log, lo, hi) ==
            New(bits, log, lo, mid) + New(Merge(bits, log, lo, mid), Cleared(log, lo, mid), mid, hi)
    decreases hi
  {
    if hi > mid {
      NewAdds(bits, log, lo, mid, hi - 1);
    }
  }

  lemma MergeAdds(bits: seq<bool>, log: seq<bool>, lo: nat, mid: nat, hi: nat)
    requires lo <= mid <= hi && |bits| == |log|
    ensures Merge(Merge(bits, log, lo, mid), Cleared(log, lo, mid), mid, hi) == Merge(bits, log, lo, hi)
    ensures Cleared(Cleared(log, lo, mid), mid, hi) == Cleared(log, lo, hi)
  {
  }
}
