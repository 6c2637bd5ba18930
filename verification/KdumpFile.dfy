/** The dump file as a set of bytes at offsets, and the buffers in front of it
    (qemu/dump.c:680-700, 1095-1135). */
module KdumpFile {
  import opened Bytes

  const BUFSIZE_DATA_CACHE: nat := 16384

  type File = map<nat, Byte>

  ghost predicate Holds(f: File, at: nat, bytes: seq<Byte>)
  {
    forall x :: at <= x < at + |bytes| ==> x in f && f[x] == bytes[x - at]
  }

  /** Nothing has changed outside `[lo, hi)`. */
  ghost predicate SameOutside(f: File, f': File, lo: nat, hi: nat)
  {
    forall x: nat :: !(lo <= x < hi) ==> (x in f <==> x in f') && (x in f ==> f[x] == f'[x])
  }

  function ByteFor(bytes: seq<Byte>, at: nat, x: nat): Byte
    requires at <= x < at + |bytes|
  {
    bytes[x - at]
  }

  function Put(f: File, at: nat, bytes: seq<Byte>): (r: File)
    ensures Holds(r, at, bytes) && SameOutside(f, r, at, at + |bytes|)
  {
    f + map x | at <= x < at + |bytes| :: ByteFor(bytes, at, x)
  }

  /** What a reader finds; bytes never written read as zero. */
  function Get(f: File, at: nat, n: nat): (r: seq<Byte>)
    ensures |r| == n
  {
    seq(n, i requires 0 <= i < n => if at + i in f then f[at + i] else 0)
  }

  lemma GetHeld(f: File, at: nat, bytes: seq<Byte>, i: nat, n: nat)
    requires Holds(f, at, bytes) && i + n <= |bytes|
    ensures Get(f, at + i, n) == bytes[i..i + n]
  {
    var got, part := Get(f, at + i, n), bytes[i..i + n];
    forall j | 0 <= j < n ensures got[j] == part[j] {
      assert at + i + j in f && f[at + i + j] == bytes[i + j];
    }
  }

  lemma StillHeld(f: File, f': File, lo: nat, hi: nat, at: nat, bytes: seq<Byte>)
    requires Holds(f, at, bytes) && SameOutside(f, f', lo, hi) && (at + |bytes| <= lo || hi <= at)
    ensures Holds(f', at, bytes)
  {
    forall x | at <= x < at + |bytes| ensures x in f' && f'[x] == bytes[x - at] {
      assert x in f;
    }
  }

  lemma HeldTogether(f: File, at: nat, a: seq<Byte>, b: seq<Byte>)
    requires Holds(f, at, a) && Holds(f, at + |a|, b)
    ensures Holds(f, at, a + b)
  {
    forall x | at <= x < at + |a + b| ensures x in f && f[x] == (a + b)[x - at] {
      if x < at + |a| {
        assert x in f && f[x] == a[x - at];
      } else {
        assert x in f && f[x] == b[x - (at + |a|)];
      }
    }
  }

  /** A buffer of what is to be written at `offset`. */
  datatype Cache = Cache(buf: seq<Byte>, offset: nat)

  /** The file holds `done`, the first part of the area at `base`; the buffer comes next. */
  ghost predicate Cached(f: File, base: nat, done: seq<Byte>, c: Cache)
  {
    |c.buf| <= BUFSIZE_DATA_CACHE && c.offset == base + |done| && Holds(f, base, done)
  }

  lemma CachedStill(f: File, f': File, lo: nat, hi: nat, base: nat, done: seq<Byte>, c: Cache)
    requires Cached(f, base, done, c) && SameOutside(f, f', lo, hi) && (base + |done| <= lo || hi <= base)
    ensures Cached(f', base, done, c)
  {
    StillHeld(f, f', lo, hi, base, done);
  }

  lemma CacheFlushed(f: File, base: nat, done: seq<Byte>, c: Cache)
    requires Cached(f, base, done, c)
    ensures var f' := Put(f, c.offset, c.buf);
            && Cached(f', base, done + c.buf, Cache([], c.offset + |c.buf|))
            && SameOutside(f, f', c.offset, c.offset + |c.buf|)
  {
    hide Put, Holds, SameOutside;
    var f' := Put(f, c.offset, c.buf);
    StillHeld(f, f', c.offset, c.offset + |c.buf|, base, done);
    HeldTogether(f', base, done, c.buf);
  }

  class Output {
    var file: File
    /** Some write has failed. */
    ghost var failed: bool

    constructor ()
      ensures file == map[] && !failed
    {
      file, failed := map[], false;
    }

    /** write_buffer */
    method WriteBuffer(at: nat, bytes: seq<Byte>) returns (ok: bool)
      modifies this
      ensures failed == (old(failed) || !ok)
      ensures ok ==> file == Put(old(file), at, bytes)
    {
      file := Put(file, at, bytes);
      ok := true;
    }

    /** write_cache: with `sync` it empties the buffer, otherwise it takes `bytes` and makes room
        for them first.  Nothing is lost or reordered, and only what the buffer held is
        written. */
    method WriteCache(c: Cache, bytes: seq<Byte>, sync: bool, ghost base: nat, ghost done: seq<Byte>)
      returns (ok: bool, c': Cache, ghost done': seq<Byte>)
      requires |bytes| <= BUFSIZE_DATA_CACHE && Cached(file, base, done, c)
      modifies this
      ensures failed == (old(failed) || !ok)
      ensures ok ==> Cached(file, base, done', c') && done' + c'.buf == done + c.buf + (if sync then [] else bytes)
      ensures ok ==> SameOutside(old(file), file, c.offset, c.offset + |c.buf|)
      ensures ok && sync ==> c'.buf == [] && done' == done + c.buf
      ensures !sync && |c.buf| + |bytes| <= BUFSIZE_DATA_CACHE ==> ok && file == old(file)
    {
      hide Put, Holds, SameOutside;
      ok, c', done' := true, c, done;
      if (!sync && |c.buf| + |bytes| > BUFSIZE_DATA_CACHE) || (sync && |c.buf| > 0) {
        CacheFlushed(file, base, done, c);
        ok := WriteBuffer(c.offset, c.buf);
        if !ok {
          return;
        }
        c', done' := Cache([], c.offset + |c.buf|), done + c.buf;
      } else {
        assert c.buf == [] ==> done + c.buf == done;
        Unchanged(file, c.offset, c.offset + |c.buf|);
      }
      if !sync {
        assert done' + (c'.buf + bytes) == done' + c'.buf + bytes;
        c' := c'.(buf := c'.buf + bytes);
      }
    }
  }

  lemma Wider(f: File, f': File, lo: nat, hi: nat, lo': nat, hi': nat)
    requires SameOutside(f, f', lo, hi) && lo' <= lo && hi <= hi'
    ensures SameOutside(f, f', lo', hi')
  {
  }

  lemma Compose(f: File, g: File, h: File, lo: nat, hi: nat)
    requires SameOutside(f, g, lo, hi) && SameOutside(g, h, lo, hi)
    ensures SameOutside(f, h, lo, hi)
  {
  }

  lemma Unchanged(f: File, lo: nat, hi: nat)
    ensures SameOutside(f, f, lo, hi)
  {
  }
}
