/** Committing an image into its backing file (qemu/block.c:2240-2348).

    Any driver call may fail, and a write that fails may have written any of its sectors. */
module Commit {
  import opened Bytes

  const COMMIT_BUF_SECTORS: nat := 2048

  type Sector = s: seq<Byte> | |s| == 512 witness seq(512, _ => 0)

  function ZeroSector(): Sector
  {
    seq(512, _ => 0)
  }

  datatype Cluster = Unallocated | Allocated(data: Sector)

  /** What a reader of the top image sees in a sector. */
  function Seen(top: seq<Cluster>, backing: seq<Sector>, s: nat): Sector
    requires s < |top|
  {
    if top[s].Allocated? then top[s].data else if s < |backing| then backing[s] else ZeroSector()
  }

  /** The two layers show the same through the top image. */
  ghost predicate SameView(top: seq<Cluster>, backing: seq<Sector>, top': seq<Cluster>, backing': seq<Sector>)
  {
    |top'| == |top| && forall s :: 0 <= s < |top| ==> Seen(top', backing', s) == Seen(top, backing, s)
  }

  class Layers {
    var top: seq<Cluster>
    var backing: seq<Sector>
    const canEmpty: bool
    /** Some call of a driver, or for memory, has failed. */
    ghost var failed: bool

    constructor (top0: seq<Cluster>, backing0: seq<Sector>, canEmpty0: bool)
      ensures top == top0 && backing == backing0 && canEmpty == canEmpty0 && !failed
    {
      top, backing, canEmpty, failed := top0, backing0, canEmpty0, false;
    }

    /** Whether the next call succeeds. */
    method Try() returns (ok: bool)
      modifies this`failed
      ensures failed == (old(failed) || !ok)
    {
      ok := true;
    }

    /** bdrv_getlength of both images. */
    method Lengths() returns (ok: bool)
      modifies this`failed
      ensures failed == (old(failed) || !ok)
    {
      ok := Try();
      if ok {
        ok := Try();
      }
    }

    /** bdrv_truncate, when it grows the backing file. */
    method Grow(length: nat) returns (ok: bool)
      requires |backing| < length
      modifies this`backing, this`failed
      ensures failed == (old(failed) || !ok)
      ensures backing == if ok then old(backing) + seq(length - |old(backing)|, _ => ZeroSector()) else old(backing)
    {
      ok := Try();
      if ok {
        backing := backing + seq(length - |backing|, _ => ZeroSector());
      }
    }

    /** bdrv_is_allocated: an extent of one state, of any positive length. */
    method IsAllocated(sector: nat) returns (ok: bool, alloc: bool, n: nat)
      requires sector < |top|
      modifies this`failed
      ensures failed == (old(failed) || !ok)
      ensures ok ==> 0 < n <= COMMIT_BUF_SECTORS && sector + n <= |top|
      ensures ok ==> forall s :: sector <= s < sector + n ==> top[s].Allocated? == alloc
    {
      ok := Try();
      alloc, n := top[sector].Allocated?, 1;
      while n < COMMIT_BUF_SECTORS && sector + n < |top| && top[sector + n].Allocated? == alloc
        invariant 0 < n <= COMMIT_BUF_SECTORS && sector + n <= |top|
        invariant forall s :: sector <= s < sector + n ==> top[s].Allocated? == alloc
      {
        n := n + 1;
      }
    }

    /** bdrv_read of the top image. */
    method Read(sector: nat, n: nat) returns (ok: bool, buf: seq<Sector>)
      requires sector + n <= |top|
      modifies this`failed
      ensures failed == (old(failed) || !ok)
      ensures ok ==> |buf| == n && forall i :: 0 <= i < n ==> buf[i] == Seen(top, backing, sector + i)
    {
      ok := Try();
      buf := [];
      while |buf| < n
        invariant |buf| <= n && forall i :: 0 <= i < |buf| ==> buf[i] == Seen(top, backing, sector + i)
      {
        buf := buf + [Seen(top, backing, sector + |buf|)];
      }
    }

    /** bdrv_write of the backing file; a failed one has written some of it. */
    method Write(sector: nat, buf: seq<Sector>) returns (ok: bool)
      requires sector + |buf| <= |backing|
      modifies this`backing, this`failed
      ensures failed == (old(failed) || !ok)
      ensures |backing| == |old(backing)|
      ensures forall s :: 0 <= s < |backing| && !(sector <= s < sector + |buf|) ==> backing[s] == old(backing)[s]
      ensures ok ==> forall i :: 0 <= i < |buf| ==> backing[sector + i] == buf[i]
    {
      ok := true;
      var i := 0;
      while i < |buf|
        invariant 0 <= i <= |buf| && |backing| == |old(backing)| && failed == (old(failed) || !ok)
        invariant forall s :: 0 <= s < |backing| && !(sector <= s < sector + |buf|) ==> backing[s] == old(backing)[s]
        invariant ok ==> forall j :: 0 <= j < i ==> backing[sector + j] == buf[j]
      {
        var written := Try();
        if written {
          backing := backing[sector + i := buf[i]];
        } else {
          ok := false;
        }
        i := i + 1;
      }
    }

    /** bdrv_make_empty */
    method MakeEmpty() returns (ok: bool)
      modifies this`top, this`failed
      ensures failed == (old(failed) || !ok)
      ensures |top| == |old(top)|
      ensures if ok then forall s :: 0 <= s < |top| ==> top[s].Unallocated? else top == old(top)
    {
      ok := Try();
      if ok {
        top := seq(|top|, _ => Unallocated);
      }
    }

    /** One turn of bdrv_commit's loop. */
    method CopyExtent(sector: nat, ghost before: seq<Sector>) returns (ok: bool, n: nat)
      requires sector < |top| && Copying(top, before, backing, sector)
      modifies this`backing, this`failed
      ensures failed == (old(failed) || !ok)
      ensures |backing| == |old(backing)|
      ensures ok ==> 0 < n <= |top| - sector && Copying(top, before, backing, sector + n)
      ensures !ok ==> Copying(top, before, backing, 0)
    {
      ghost var copied := backing;
      var alloc, buf;
      ok, alloc, n := IsAllocated(sector);
      if !ok {
        return;
      }
      if !alloc {
        NothingToCopy(top, before, backing, sector, n);
        return;
      }
      ok, buf := Read(sector, n);
      if !ok {
        return;
      }
      ok := Write(sector, buf);
      if ok {
        forall s | sector <= s < sector + n ensures backing[s] == Seen(top, copied, s) {
          assert backing[sector + (s - sector)] == buf[s - sector];
        }
      }
      ExtentWritten(top, before, copied, backing, sector, n, ok);
    }

    /** bdrv_commit: a reader of the top image sees the same afterwards, whether or not it
        succeeds, and it succeeds exactly if every call does.  If it succeeds, the backing file
        alone shows it too.  Beyond the end of the top image the backing file never changes. */
    method DoCommit() returns (ok: bool)
      requires !failed
      modifies this
      ensures ok == !failed
      ensures SameView(old(top), old(backing), top, backing)
      ensures |old(backing)| <= |backing| && forall s :: |top| <= s < |old(backing)| ==> backing[s] == old(backing)[s]
      ensures ok ==> |top| <= |backing| && forall s :: 0 <= s < |top| ==> backing[s] == Seen(old(top), old(backing), s)
      ensures ok ==> if canEmpty then forall s :: 0 <= s < |top| ==> top[s].Unallocated? else top == old(top)
    {
      hide Copying, SameView, Seen;
      ghost var before := backing;
      ok := Lengths();
      if !ok {
        ViewItself(top, backing);
        return;
      }
      if |top| > |backing| {
        ok := Grow(|top|);
        if !ok {
          ViewItself(top, backing);
          return;
        }
      }
      CopyBegins(top, before, backing);
      ok := Try();
      if !ok {
        CopyingShows(top, before, backing, 0);
        return;
      }
      var sector := 0;
      while sector < |top|
        invariant 0 <= sector <= |top| && top == old(top) && |before| <= |backing| && ok && !failed
        invariant Copying(top, before, backing, sector)
      {
        var n;
        ok, n := CopyExtent(sector, before);
        if !ok {
          CopyingShows(top, before, backing, 0);
          return;
        }
        sector := sector + n;
      }
      CopyingShows(top, before, backing, sector);
      if canEmpty {
        ok := MakeEmpty();
        if ok {
          EmptiedShows(old(top), before, top, backing);
        }
      }
    }
  }

  function Under(backing: seq<Sector>, s: nat): Sector
  {
    if s < |backing| then backing[s] else ZeroSector()
  }

  /** The first `n` sectors have been copied down; only allocated sectors have changed. */
  ghost predicate Copying(top: seq<Cluster>, before: seq<Sector>, backing: seq<Sector>, n: nat)
  {
    && n <= |top| <= |backing|
    && (forall s :: 0 <= s < |backing| ==> backing[s] == Under(before, s) || (s < |top| && top[s].Allocated?))
    && (forall s :: 0 <= s < n ==> backing[s] == Seen(top, before, s))
  }

  lemma ViewItself(top: seq<Cluster>, backing: seq<Sector>)
    ensures SameView(top, backing, top, backing)
  {
  }

  lemma CopyBegins(top: seq<Cluster>, before: seq<Sector>, backing: seq<Sector>)
    requires |before| <= |backing| && |top| <= |backing|
    requires forall s :: 0 <= s < |backing| ==> backing[s] == Under(before, s)
    ensures Copying(top, before, backing, 0)
  {
  }

  lemma NothingToCopy(top: seq<Cluster>, before: seq<Sector>, backing: seq<Sector>, sector: nat, n: nat)
    requires Copying(top, before, backing, sector) && sector + n <= |top|
    requires forall s :: sector <= s < sector + n ==> top[s].Unallocated?
    ensures Copying(top, before, backing, sector + n)
  {
  }

  lemma ExtentWritten(top: seq<Cluster>, before: seq<Sector>, copied: seq<Sector>, backing: seq<Sector>, sector: nat,
                      n: nat, ok: bool)
    requires Copying(top, before, copied, sector) && sector + n <= |top| && |backing| == |copied|
    requires forall s :: sector <= s < sector + n ==> top[s].Allocated?
    requires forall s :: 0 <= s < |backing| && !(sector <= s < sector + n) ==> backing[s] == copied[s]
    requires ok ==> forall s :: sector <= s < sector + n ==> backing[s] == Seen(top, copied, s)
    ensures Copying(top, before, backing, if ok then sector + n else 0)
  {
    forall s | 0 <= s < |backing| ensures backing[s] == Under(before, s) || (s < |top| && top[s].Allocated?) {
      if !(sector <= s < sector + n) {
        assert backing[s] == copied[s];
      }
    }
  }

  lemma CopyingShows(top: seq<Cluster>, before: seq<Sector>, backing: seq<Sector>, n: nat)
    requires Copying(top, before, backing, n) && |before| <= |backing|
    ensures SameView(top, before, top, backing)
    ensures forall s :: |top| <= s < |before| ==> backing[s] == before[s]
    ensures |top| <= |backing| && (n == |top| ==> forall s :: 0 <= s < |top| ==> backing[s] == Seen(top, before, s))
  {
  }

  lemma EmptiedShows(top: seq<Cluster>, before: seq<Sector>, empty: seq<Cluster>, backing: seq<Sector>)
    requires |empty| == |top| <= |backing| && forall s :: 0 <= s < |top| ==> empty[s].Unallocated?
    requires forall s :: 0 <= s < |top| ==> backing[s] == Seen(top, before, s)
    ensures SameView(top, before, empty, backing)
  {
  }
}
