/** Merging of write requests that touch (qemu/block.c:4570-4658, qemu/util/iov.c:298-338).

    An I/O vector is its pieces; what a list of requests does to the disk is given byte by
    byte, later requests over earlier ones. */
module Multiwrite {
  import opened Bytes

  const IOV_MAX: nat := 1024

  type Vector = seq<seq<Byte>>

  datatype Req = Req(sector: int, sectors: nat, qiov: Vector)

  // ---- Vectors ----------------------------------------------------------------------

  function Flat(v: Vector): seq<Byte>
  {
    if v == [] then [] else v[0] + Flat(v[1..])
  }

  function Min(a: nat, b: nat): nat
  {
    if a < b then a else b
  }

  /** The pieces of `v` for `n` bytes from `off` on, or to its end. */
  function Sub(v: Vector, off: nat, n: nat): Vector
  {
    if v == [] || n == 0 then []
    else if off < |v[0]| then
      var len := Min(|v[0]| - off, n);
      [v[0][off..off + len]] + Sub(v[1..], 0, n - len)
    else Sub(v[1..], off - |v[0]|, n)
  }

  lemma {:induction false} FlatConcat(v: Vector, w: Vector)
    ensures Flat(v + w) == Flat(v) + Flat(w)
  {
    if v == [] {
      assert v + w == w;
    } else {
      var first, rest := v[0], v[1..];
      FlatConcat(rest, w);
      assert (v + w)[0] == first && (v + w)[1..] == rest + w;
      Assoc(first, Flat(rest), Flat(w));
    }
  }

  lemma Assoc(a: seq<Byte>, b: seq<Byte>, c: seq<Byte>)
    ensures a + (b + c) == (a + b) + c
  {
  }

  lemma {:induction false} SubFlat(v: Vector, off: nat, n: nat)
    requires off <= |Flat(v)|
    ensures Flat(Sub(v, off, n)) == Flat(v)[off..Min(off + n, |Flat(v)|)]
    decreases |v|
  {
    if v != [] && n != 0 {
      if off < |v[0]| {
        var len := Min(|v[0]| - off, n);
        SubFlat(v[1..], 0, n - len);
        SubFirst(v, off, n, len);
      } else {
        SubFlat(v[1..], off - |v[0]|, n);
        CutSecond(v[0], Flat(v[1..]), off, Min(off + n, |Flat(v)|));
      }
    }
  }

  lemma SubFirst(v: Vector, off: nat, n: nat, len: nat)
    requires v != [] && n != 0 && off < |v[0]| && len == Min(|v[0]| - off, n)
    requires Flat(Sub(v[1..], 0, n - len)) == Flat(v[1..])[..Min(n - len, |Flat(v[1..])|)]
    ensures Flat(Sub(v, off, n)) == Flat(v)[off..Min(off + n, |Flat(v)|)]
  {
    var rest, more := Flat(v[1..]), Sub(v[1..], 0, n - len);
    var s := [v[0][off..off + len]] + more;
    assert s[0] == v[0][off..off + len] && s[1..] == more;
    CutBoth(v[0], rest, off, len, Min(n - len, |rest|));
  }

  lemma CutSecond(a: seq<Byte>, b: seq<Byte>, i: nat, j: nat)
    requires |a| <= i <= j <= |a + b|
    ensures (a + b)[i..j] == b[i - |a|..j - |a|]
  {
  }

  lemma CutBoth(a: seq<Byte>, b: seq<Byte>, off: nat, len: nat, k: nat)
    requires off + len <= |a| && k <= |b| && (off + len == |a| || k == 0)
    ensures (a + b)[off..off + len + k] == a[off..off + len] + b[..k]
  {
  }

  lemma {:induction false} SubCount(v: Vector, off: nat, n: nat)
    ensures |Sub(v, off, n)| <= |v|
    decreases |v|
  {
    if v != [] && n != 0 {
      if off < |v[0]| {
        SubCount(v[1..], 0, n - Min(|v[0]| - off, n));
      } else {
        SubCount(v[1..], off - |v[0]|, n);
      }
    }
  }

  /** A head and a later tail of a vector share at most one of its pieces. */
  lemma {:induction false} HeadAndTail(v: Vector, x: nat, y: nat, n: nat)
    requires x <= y
    ensures |Sub(v, 0, x)| + |Sub(v, y, n)| <= |v| + 1
    decreases |v|
  {
    if v != [] {
      var k := |v[0]|;
      if y < k {
        SubCount(v[1..], 0, n - Min(k - y, n));
        assert Sub(v[1..], 0, x - Min(k, x)) == [];
      } else if x <= k {
        SubCount(v[1..], y - k, n);
        assert Sub(v[1..], 0, x - Min(k, x)) == [];
      } else {
        HeadAndTail(v[1..], x - k, y - k, n);
      }
    }
  }

  /** One piece of a vector, taken from offset `off` on or passed over. */
  lemma SubHead(v: Vector, off: nat, n: nat)
    requires v != [] && n > 0
    ensures |Flat(v)| == |v[0]| + |Flat(v[1..])|
    ensures Sub(v, off, n) ==
            if off < |v[0]| then var len := Min(|v[0]| - off, n); [v[0][off..off + len]] + Sub(v[1..], 0, n - len)
            else Sub(v[1..], off - |v[0]|, n)
  {
  }

  lemma NothingLeft(v: Vector, off: nat, n: nat)
    requires v == [] || n == 0
    ensures Sub(v, off, n) == [] && (v == [] ==> Flat(v) == [])
  {
  }

  /** qemu_iovec_concat; an offset beyond the end would abort. */
  method Concat(dst: Vector, src: Vector, soffset: nat, sbytes: nat) returns (r: Vector)
    requires soffset <= |Flat(src)|
    ensures r == dst + Sub(src, soffset, sbytes)
  {
    hide Flat, Sub;
    r := dst;
    if sbytes == 0 {
      NothingLeft(src, soffset, sbytes);
      return;
    }
    var i: nat, done: nat, off: nat := 0, 0, soffset;
    assert src[0..] == src;
    while done < sbytes && i < |src|
      invariant 0 <= i <= |src| && done <= sbytes
      invariant r + Sub(src[i..], off, sbytes - done) == dst + Sub(src, soffset, sbytes)
      invariant off <= |Flat(src[i..])| && (done > 0 ==> off == 0)
    {
      var rest := src[i..];
      assert rest[0] == src[i] && rest[1..] == src[i + 1..];
      SubHead(rest, off, sbytes - done);
      if off < |src[i]| {
        var len := Min(|src[i]| - off, sbytes - done);
        r := r + [src[i][off..off + len]];
        done := done + len;
        off := 0;
      } else {
        off := off - |src[i]|;
      }
      i := i + 1;
    }
    NothingLeft(src[i..], off, sbytes - done);
    assert off == 0;
  }

  // ---- Requests ---------------------------------------------------------------------

  ghost predicate Sized(r: Req)
  {
    |Flat(r.qiov)| == r.sectors * SECTOR
  }

  ghost predicate Covers(r: Req, x: int)
    requires Sized(r)
  {
    r.sector * SECTOR <= x < (r.sector + r.sectors) * SECTOR
  }

  /** The byte at `x` after one write. */
  ghost function Written(r: Req, x: int, before: Byte): Byte
    requires Sized(r)
  {
    if Covers(r, x) then Flat(r.qiov)[x - r.sector * SECTOR] else before
  }

  ghost predicate AllSized(reqs: seq<Req>)
  {
    forall i :: 0 <= i < |reqs| ==> Sized(reqs[i])
  }

  /** The byte at `x` after all writes, in order. */
  ghost function WrittenAll(reqs: seq<Req>, x: int, before: Byte): Byte
    requires AllSized(reqs)
  {
    if reqs == [] then before else Written(reqs[|reqs| - 1], x, WrittenAll(reqs[..|reqs| - 1], x, before))
  }

  ghost predicate SameDisk(a: seq<Req>, b: seq<Req>)
  {
    && AllSized(a) && AllSized(b)
    && forall x: int, before: Byte :: WrittenAll(a, x, before) == WrittenAll(b, x, before)
  }

  ghost predicate Sorted(reqs: seq<Req>)
  {
    forall i, j :: 0 <= i < j < |reqs| ==> reqs[i].sector <= reqs[j].sector
  }

  /** What the code builds for two requests that touch. */
  function Joined(a: Req, b: Req): Vector
    requires a.sector <= b.sector
  {
    var size := (b.sector - a.sector) * SECTOR;
    var v := Sub(a.qiov, 0, size) + Sub(b.qiov, 0, |Flat(b.qiov)|);
    v + Sub(a.qiov, |Flat(v)|, |Flat(a.qiov)| - Min(|Flat(v)|, |Flat(a.qiov)|))
  }

  ghost predicate Touch(a: Req, b: Req)
  {
    a.sector <= b.sector <= a.sector + a.sectors
  }

  /** The first request up to the second, the second, and the rest of the first. */
  lemma JoinedFlat(a: Req, b: Req)
    requires Sized(a) && Sized(b) && Touch(a, b)
    ensures var size := (b.sector - a.sector) * SECTOR;
            var top := size + |Flat(b.qiov)|;
            Flat(Joined(a, b)) ==
            Flat(a.qiov)[..size] + Flat(b.qiov) + (if top < |Flat(a.qiov)| then Flat(a.qiov)[top..] else [])
    ensures |Joined(a, b)| <= |a.qiov| + |b.qiov| + 1
  {
    var fa, fb := Flat(a.qiov), Flat(b.qiov);
    var size := (b.sector - a.sector) * SECTOR;
    assert size <= |fa|;
    var v := Sub(a.qiov, 0, size) + Sub(b.qiov, 0, |fb|);
    var top := |Flat(v)|;
    var rest := Sub(a.qiov, top, |fa| - Min(top, |fa|));
    assert Joined(a, b) == v + rest;
    hide Flat, Sub, Joined;
    HeadFlat(a.qiov, b.qiov, size);
    TailFlat(a.qiov, top, |fa| - Min(top, |fa|));
    FlatConcat(v, rest);
    HeadAndTail(a.qiov, size, top, |fa| - Min(top, |fa|));
    SubCount(b.qiov, 0, |fb|);
  }

  lemma HeadFlat(a: Vector, b: Vector, size: nat)
    requires size <= |Flat(a)|
    ensures Flat(Sub(a, 0, size) + Sub(b, 0, |Flat(b)|)) == Flat(a)[..size] + Flat(b)
  {
    hide Flat, Sub;
    SubFlat(a, 0, size);
    SubFlat(b, 0, |Flat(b)|);
    FlatConcat(Sub(a, 0, size), Sub(b, 0, |Flat(b)|));
  }

  lemma TailFlat(a: Vector, top: nat, n: nat)
    requires n == |Flat(a)| - Min(top, |Flat(a)|)
    ensures Flat(Sub(a, top, n)) == if top < |Flat(a)| then Flat(a)[top..] else []
  {
    if top < |Flat(a)| {
      SubFlat(a, top, n);
    }
  }

  /** One merged request writes what the two write one after the other. */
  lemma JoinWrites(a: Req, b: Req, r: Req, x: int, before: Byte)
    requires Sized(a) && Sized(b) && Touch(a, b)
    requires r.sector == a.sector && r.qiov == Joined(a, b) && r.sectors == |Flat(r.qiov)| / SECTOR
    ensures Sized(r) && r.sectors <= a.sectors + b.sectors && b.sector + b.sectors <= r.sector + r.sectors
    ensures Written(r, x, before) == Written(b, x, Written(a, x, before))
  {
    hide Joined;
    JoinedFlat(a, b);
    var gap := b.sector - a.sector;
    var most := if gap + b.sectors < a.sectors then a.sectors else gap + b.sectors;
    assert |Flat(r.qiov)| == most * SECTOR;
    assert r.sectors == most;
    hide Flat;
    Overlay(Flat(a.qiov), Flat(b.qiov), Flat(r.qiov), gap * SECTOR, x - a.sector * SECTOR);
  }

  lemma Overlay(fa: seq<Byte>, fb: seq<Byte>, f: seq<Byte>, size: nat, k: int)
    requires size <= |fa|
    requires f == fa[..size] + fb + (if size + |fb| < |fa| then fa[size + |fb|..] else [])
    ensures 0 <= k < |f| <==> 0 <= k < |fa| || size <= k < size + |fb|
    ensures size <= k < size + |fb| ==> f[k] == fb[k - size]
    ensures 0 <= k < |fa| && !(size <= k < size + |fb|) ==> f[k] == fa[k]
  {
  }

  /** Replacing the end of a list of requests by one that writes the same. */
  lemma LastJoined(done: seq<Req>, r: Req, orig: seq<Req>, b: Req)
    requires done != [] && SameDisk(done, orig) && Sized(b) && Touch(done[|done| - 1], b)
    requires r.sector == done[|done| - 1].sector && r.qiov == Joined(done[|done| - 1], b)
    requires r.sectors == |Flat(r.qiov)| / SECTOR
    ensures Sized(r) && SameDisk(done[|done| - 1 := r], orig + [b])
  {
    hide Joined, Written, Sized;
    var a, init, done', orig' := done[|done| - 1], done[..|done| - 1], done[|done| - 1 := r], orig + [b];
    JoinWrites(a, b, r, 0, 0);
    assert done'[..|done| - 1] == init && orig'[..|orig|] == orig;
    assert forall i :: 0 <= i < |orig'| ==> orig'[i] == if i < |orig| then orig[i] else b;
    forall x: int, before: Byte ensures WrittenAll(done', x, before) == WrittenAll(orig', x, before) {
      JoinWrites(a, b, r, x, WrittenAll(init, x, before));
    }
  }

  lemma OneMore(done: seq<Req>, orig: seq<Req>, b: Req)
    requires SameDisk(done, orig) && Sized(b)
    ensures SameDisk(done + [b], orig + [b])
  {
    hide Written, Sized;
    var done', orig' := done + [b], orig + [b];
    assert done'[..|done|] == done && orig'[..|orig|] == orig;
    assert forall i :: 0 <= i < |orig'| ==> orig'[i] == if i < |orig| then orig[i] else b;
    assert forall i :: 0 <= i < |done'| ==> done'[i] == if i < |done| then done[i] else b;
    forall x: int, before: Byte ensures WrittenAll(done', x, before) == WrittenAll(orig', x, before) {
      assert WrittenAll(done, x, before) == WrittenAll(orig, x, before);
    }
  }

  /** Within the driver's limits; `most` is 0 if it has none. */
  ghost predicate Within(r: Req, most: nat)
  {
    |r.qiov| <= IOV_MAX && (most != 0 ==> r.sectors <= most)
  }

  /** Two requests with a gap between them, or too large for the driver as one. */
  ghost predicate KeptApart(a: Req, b: Req, most: nat)
  {
    || a.sector + a.sectors < b.sector
    || |a.qiov| + |b.qiov| + 1 > IOV_MAX
    || (most != 0 && a.sectors + b.sectors > most)
  }

  /** A request and the first one that went into `next` were kept apart. */
  ghost predicate BeganApart(a: Req, next: Req, orig: seq<Req>, most: nat)
  {
    exists b :: b in orig && b.sector == next.sector && KeptApart(a, b, most)
  }

  ghost predicate AllApart(done: seq<Req>, orig: seq<Req>, most: nat)
  {
    forall k :: 0 < k < |done| ==> BeganApart(done[k - 1], done[k], orig, most)
  }

  /** multiwrite_merge, once the requests are sorted: what is left writes the same, in the
      same order of sectors, is within the limits if the requests were, and nothing is left
      apart that could be one. */
  method Merge(reqs: array<Req>, most: nat) returns (n: nat)
    requires reqs.Length > 0 && AllSized(reqs[..]) && Sorted(reqs[..])
    modifies reqs
    ensures 1 <= n <= reqs.Length
    ensures SameDisk(reqs[..n], old(reqs[..])) && Sorted(reqs[..n])
    ensures (forall i :: 0 <= i < reqs.Length ==> Within(old(reqs[i]), most)) ==>
              forall i :: 0 <= i < n ==> Within(reqs[i], most)
    ensures AllApart(reqs[..n], old(reqs[..]), most)
  {
    hide Joined, Sized, SameDisk, AllSized, Sorted, Merged, Flat, AllApart;
    ghost var orig := reqs[..];
    var outidx := 0;
    Begun(orig, most);
    assert reqs[..1] == orig[..1];
    var i := 1;
    while i < reqs.Length
      invariant 0 <= outidx < i <= reqs.Length && AllSized(orig) && Sorted(orig)
      invariant forall k :: i <= k < reqs.Length ==> reqs[k] == orig[k]
      invariant Merged(reqs[..outidx + 1], orig, i, most)
    {
      var a, b := reqs[outidx], reqs[i];
      ghost var done := reqs[..outidx + 1];
      assert a == done[|done| - 1] && b == orig[i];
      NextFits(done, orig, i, most);
      if b.sector <= a.sector + a.sectors && |a.qiov| + |b.qiov| + 1 <= IOV_MAX
         && (most == 0 || a.sectors + b.sectors <= most) {
        var qiov := MergeVectors(a, b);
        var r := Req(a.sector, |Flat(qiov)| / SECTOR, qiov);
        MergedJoin(done, orig, i, most, r);
        reqs[outidx] := r;
        assert reqs[..outidx + 1] == done[outidx := r];
      } else {
        MergedMore(done, orig, i, most);
        outidx := outidx + 1;
        reqs[outidx] := b;
        assert reqs[..outidx + 1] == done + [b];
      }
      i := i + 1;
    }
    n := outidx + 1;
    MergedAll(reqs[..n], orig, most);
  }

  /** The first `i` requests have become `done`. */
  ghost predicate Merged(done: seq<Req>, orig: seq<Req>, i: nat, most: nat)
  {
    && 0 < |done| && 0 < i <= |orig|
    && SameDisk(done, orig[..i]) && Sorted(done) && done[|done| - 1].sector <= orig[i - 1].sector
    && ((forall k :: 0 <= k < |orig| ==> Within(orig[k], most)) ==>
          forall k :: 0 <= k < |done| ==> Within(done[k], most))
    && AllApart(done, orig, most)
  }

  lemma Begun(orig: seq<Req>, most: nat)
    requires 0 < |orig| && AllSized(orig)
    ensures Merged(orig[..1], orig, 1, most)
  {
    hide WrittenAll;
    assert orig[..1][0] == orig[0];
  }

  lemma NextFits(done: seq<Req>, orig: seq<Req>, i: nat, most: nat)
    requires Merged(done, orig, i, most) && i < |orig| && AllSized(orig) && Sorted(orig)
    ensures Sized(done[|done| - 1]) && Sized(orig[i]) && done[|done| - 1].sector <= orig[i].sector
  {
    hide WrittenAll;
    assert orig[i - 1].sector <= orig[i].sector;
  }

  lemma ApartJoin(done: seq<Req>, orig: seq<Req>, most: nat, r: Req)
    requires AllApart(done, orig, most) && done != [] && r.sector == done[|done| - 1].sector
    ensures AllApart(done[|done| - 1 := r], orig, most)
  {
    var done' := done[|done| - 1 := r];
    forall k | 0 < k < |done'| ensures BeganApart(done'[k - 1], done'[k], orig, most) {
      assert BeganApart(done[k - 1], done[k], orig, most);
    }
  }

  lemma ApartMore(done: seq<Req>, orig: seq<Req>, most: nat, b: Req)
    requires AllApart(done, orig, most) && done != [] && b in orig && KeptApart(done[|done| - 1], b, most)
    ensures AllApart(done + [b], orig, most)
  {
    var done' := done + [b];
    assert BeganApart(done[|done| - 1], b, orig, most);
    hide BeganApart;
    forall k | 0 < k < |done'| ensures BeganApart(done'[k - 1], done'[k], orig, most) {
      assert done'[k - 1] == done[k - 1] && done'[k] == if k < |done| then done[k] else b;
    }
  }

  lemma MergedJoin(done: seq<Req>, orig: seq<Req>, i: nat, most: nat, r: Req)
    requires Merged(done, orig, i, most) && i < |orig| && AllSized(orig) && Sorted(orig)
    requires var a, b := done[|done| - 1], orig[i];
             && Touch(a, b) && |a.qiov| + |b.qiov| + 1 <= IOV_MAX && (most == 0 || a.sectors + b.sectors <= most)
             && r.sector == a.sector && r.qiov == Joined(a, b) && r.sectors == |Flat(r.qiov)| / SECTOR
    ensures Merged(done[|done| - 1 := r], orig, i + 1, most)
  {
    hide Joined, Sized, SameDisk, Flat, AllApart;
    ApartJoin(done, orig, most, r);
    var a, b, done' := done[|done| - 1], orig[i], done[|done| - 1 := r];
    NextFits(done, orig, i, most);
    LastJoined(done, r, orig[..i], b);
    JoinWrites(a, b, r, 0, 0);
    JoinedFlat(a, b);
    assert orig[..i + 1] == orig[..i] + [b];
    assert forall k :: 0 <= k < |done'| ==> done'[k].sector == done[k].sector;
  }

  lemma MergedMore(done: seq<Req>, orig: seq<Req>, i: nat, most: nat)
    requires Merged(done, orig, i, most) && i < |orig| && AllSized(orig) && Sorted(orig)
    requires KeptApart(done[|done| - 1], orig[i], most)
    ensures Merged(done + [orig[i]], orig, i + 1, most)
  {
    hide Sized, SameDisk, AllApart, KeptApart;
    ApartMore(done, orig, most, orig[i]);
    NextFits(done, orig, i, most);
    OneMore(done, orig[..i], orig[i]);
    assert orig[..i + 1] == orig[..i] + [orig[i]];
    var done' := done + [orig[i]];
    assert forall k :: 0 <= k < |done'| ==> done'[k] == if k < |done| then done[k] else orig[i];
  }

  lemma MergedAll(done: seq<Req>, orig: seq<Req>, most: nat)
    requires Merged(done, orig, |orig|, most)
    ensures SameDisk(done, orig) && Sorted(done) && AllApart(done, orig, most)
    ensures (forall k :: 0 <= k < |orig| ==> Within(orig[k], most)) ==>
              forall k :: 0 <= k < |done| ==> Within(done[k], most)
  {
    assert orig[..|orig|] == orig;
  }

  method MergeVectors(a: Req, b: Req) returns (qiov: Vector)
    requires Sized(a) && Sized(b) && Touch(a, b)
    ensures qiov == Joined(a, b)
  {
    hide Flat, Sub;
    var size := (b.sector - a.sector) * SECTOR;
    qiov := Concat([], a.qiov, 0, size);
    assert qiov == Sub(a.qiov, 0, size);
    qiov := Concat(qiov, b.qiov, 0, |Flat(b.qiov)|);
    if |Flat(qiov)| < |Flat(a.qiov)| {
      qiov := Concat(qiov, a.qiov, |Flat(qiov)|, |Flat(a.qiov)| - |Flat(qiov)|);
    } else {
      SubNone(a.qiov, |Flat(qiov)|);
    }
  }

  lemma SubNone(v: Vector, off: nat)
    ensures Sub(v, off, 0) == []
  {
  }
}
