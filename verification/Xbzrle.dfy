/** Xor based zero run length encoding of pages (qemu/migration/xbzrle.c:26-176,
    qemu/util/cutils.c:504-531). */
module Xbzrle {
  import opened Bytes
  import opened MachineWords

  const WORD: nat := 8
  const LENGTH_MAX: nat := 0x3fff

  function Uleb(n: nat): seq<Byte>
    requires n <= LENGTH_MAX
  {
    if n < 0x80 then [n as Byte] else [(n % 0x80 + 0x80) as Byte, (n / 0x80) as Byte]
  }

  datatype Length = BadLength | Length(value: nat, size: nat)

  /** uleb128_decode_small on a buffer of at least two bytes. */
  function Unleb(s: seq<Byte>): Length
    requires |s| >= 2
  {
    if s[0] as nat < 0x80 then Length(s[0] as nat, 1)
    else if s[1] as nat >= 0x80 then BadLength
    else Length(s[0] as nat - 0x80 + (s[1] as nat) * 0x80, 2)
  }

  lemma UlebRoundTrip(n: nat, rest: seq<Byte>)
    requires n <= LENGTH_MAX && |Uleb(n) + rest| >= 2
    ensures Unleb(Uleb(n) + rest) == Length(n, |Uleb(n)|)
  {
  }

  /** Length of the run of equal (or of different) bytes from `i` on. */
  function Run(old_: seq<Byte>, new_: seq<Byte>, i: nat, equal: bool): (n: nat)
    requires |old_| == |new_| && i <= |new_|
    ensures i + n <= |new_|
    ensures i + n < |new_| ==> (old_[i + n] == new_[i + n]) != equal
    decreases |new_| - i
  {
    if i < |new_| && (old_[i] == new_[i]) == equal then 1 + Run(old_, new_, i + 1, equal) else 0
  }

  lemma {:induction false} RunBytes(old_: seq<Byte>, new_: seq<Byte>, i: nat, equal: bool, j: nat)
    requires |old_| == |new_| && i <= |new_| && i <= j < i + Run(old_, new_, i, equal)
    ensures (old_[j] == new_[j]) == equal
    decreases j - i
  {
    if i < j {
      RunBytes(old_, new_, i + 1, equal, j);
    }
  }

  /** A page as the changes to make: keep `skip` bytes, then put `data`, and so on. */
  datatype Patch = Same | Patch(skip: nat, data: seq<Byte>, more: Patch)

  /** The changes from byte `i` on. */
  function Diff(old_: seq<Byte>, new_: seq<Byte>, i: nat): Patch
    requires |old_| == |new_| && i <= |new_|
    decreases |new_| - i
  {
    var z := Run(old_, new_, i, true);
    if i + z == |new_| then Same
    else
      var n := Run(old_, new_, i + z, false);
      Patch(z, new_[i + z..i + z + n], Diff(old_, new_, i + z + n))
  }

  function Wire(p: Patch): seq<Byte>
    requires Short(p)
  {
    match p
    case Same => []
    case Patch(skip, data, more) => Uleb(skip) + (Uleb(|data|) + (data + Wire(more)))
  }

  predicate Short(p: Patch)
  {
    p.Patch? ==> p.skip <= LENGTH_MAX && |p.data| <= LENGTH_MAX && Short(p.more)
  }

  datatype Parsed = Corrupt | Parsed(patch: Patch)

  datatype One = Bad | One(skip: nat, data: seq<Byte>, rest: seq<Byte>)

  /** One turn of the loop of xbzrle_decode_buffer: a run to keep and a run to put. */
  function ParseOne(src: seq<Byte>, first: bool): (r: One)
    ensures r.One? ==> |r.rest| < |src|
  {
    if |src| < 2 then Bad
    else
      var z := Unleb(src);
      if z.BadLength? || (!first && z.value == 0) || |src| - z.size < 2 then Bad
      else
        var n := Unleb(src[z.size..]);
        if n.BadLength? || n.value == 0 then Bad
        else
          var rest := src[z.size..][n.size..];
          if n.value > |rest| then Bad else One(z.value, rest[..n.value], rest[n.value..])
  }

  /** xbzrle_decode_buffer as a reader of what is left of the source: the changes it
      makes, with `d` of `len` bytes done; `first` says that nothing was read yet. */
  function Parse(src: seq<Byte>, first: bool, d: nat, len: nat): Parsed
    decreases |src|
  {
    if src == [] then Parsed(Same)
    else
      var r := ParseOne(src, first);
      if r.Bad? || d + r.skip + |r.data| > len then Corrupt
      else
        var more := Parse(r.rest, false, d + r.skip + |r.data|, len);
        if more.Corrupt? then Corrupt else Parsed(Patch(r.skip, r.data, more.patch))
  }

  /** Every change lies on the page and none is empty. */
  ghost predicate Lies(p: Patch, first: bool, d: nat, len: nat)
  {
    p.Patch? ==> && (first || p.skip > 0) && 0 < |p.data| && d + p.skip + |p.data| <= len
                 && Lies(p.more, false, d + p.skip + |p.data|, len)
  }

  lemma UlebSize(n: nat)
    requires n <= LENGTH_MAX
    ensures 1 <= |Uleb(n)| <= 2
  {
  }

  /** `u` is `n` in ULEB128 form, in one byte or two. */
  ghost predicate IsUleb(u: seq<Byte>, n: nat)
  {
    || (|u| == 1 && u[0] as nat < 0x80 && n == u[0] as nat)
    || (|u| == 2 && 0x80 <= u[0] as nat && (u[1] as nat) < 0x80 && n == u[0] as nat - 0x80 + (u[1] as nat) * 0x80)
  }

  /** The source begins with a run to keep, in `a` bytes, and a run to put, its length in `b`
      bytes. */
  ghost predicate SpellsOne(src: seq<Byte>, a: nat, b: nat, skip: nat, data: seq<Byte>)
  {
    && a + b + |data| <= |src| && IsUleb(src[..a], skip) && IsUleb(src[a..a + b], |data|)
    && src[a + b..a + b + |data|] == data
  }

  /** The source is a form of the patch. */
  ghost predicate Spells(src: seq<Byte>, p: Patch)
    decreases p
  {
    match p
    case Same => src == []
    case Patch(skip, data, more) =>
      exists a: nat, b: nat ::
        a + b + |data| <= |src| && SpellsOne(src, a, b, skip, data) && Spells(src[a + b + |data|..], more)
  }

  lemma OneSpelled(src: seq<Byte>, first: bool) returns (a: nat, b: nat)
    requires ParseOne(src, first).One?
    ensures var r := ParseOne(src, first);
            && a + b + |r.data| <= |src| && SpellsOne(src, a, b, r.skip, r.data) && r.rest == src[a + b + |r.data|..]
            && (first || r.skip > 0) && 0 < |r.data|
  {
    var z := Unleb(src);
    a := z.size;
    UlebWas(src);
    var n := Unleb(src[a..]);
    b := n.size;
    UlebWas(src[a..]);
    hide Unleb, IsUleb;
    var rest := src[a..][b..];
    assert rest == src[a + b..] && rest[..n.value] == src[a + b..a + b + n.value];
    assert src[a..a + b] == src[a..][..b];
  }

  lemma UlebWas(src: seq<Byte>)
    requires 2 <= |src| && Unleb(src).Length?
    ensures 1 <= Unleb(src).size <= 2 && IsUleb(src[..Unleb(src).size], Unleb(src).value)
  {
  }

  lemma SpelledOne(src: seq<Byte>, first: bool, a: nat, b: nat, skip: nat, data: seq<Byte>)
    requires SpellsOne(src, a, b, skip, data) && (first || skip > 0) && 0 < |data|
    ensures ParseOne(src, first) == One(skip, data, src[a + b + |data|..])
  {
    UlebRead(src, a, skip);
    UlebRead(src[a..], b, |data|);
    assert src[a..][..b] == src[a..a + b];
    var rest := src[a..][b..];
    assert rest == src[a + b..] && rest[..|data|] == data && rest[|data|..] == src[a + b + |data|..];
  }

  lemma UlebRead(src: seq<Byte>, a: nat, n: nat)
    requires 2 <= |src| && a <= |src| && IsUleb(src[..a], n)
    ensures Unleb(src) == Length(n, a)
  {
  }

  /** xbzrle_decode_buffer accepts exactly the forms of patches that lie on the page, none of
      whose runs is empty but perhaps the first one. */
  lemma {:induction false} ParseExact(src: seq<Byte>, first: bool, d: nat, len: nat, p: Patch)
    ensures Parse(src, first, d, len) == Parsed(p) <==> Spells(src, p) && Lies(p, first, d, len)
    decreases |src|
  {
    hide ParseOne, SpellsOne;
    if src != [] && p.Patch? {
      if Parse(src, first, d, len) == Parsed(p) {
        var a, b := OneSpelled(src, first);
        ParseExact(src[a + b + |p.data|..], false, d + p.skip + |p.data|, len, p.more);
      }
      if Spells(src, p) && Lies(p, first, d, len) {
        var a: nat, b: nat :| a + b + |p.data| <= |src| && SpellsOne(src, a, b, p.skip, p.data)
                              && Spells(src[a + b + |p.data|..], p.more);
        SpelledOne(src, first, a, b, p.skip, p.data);
        ParseExact(src[a + b + |p.data|..], false, d + p.skip + |p.data|, len, p.more);
      }
    } else if p.Patch? {
      NothingSpelled(p);
    }
  }

  lemma NothingSpelled(p: Patch)
    requires p.Patch?
    ensures !Spells([], p)
  {
  }

  lemma {:induction false} WireSpells(p: Patch)
    requires Short(p)
    ensures Spells(Wire(p), p)
    decreases p
  {
    if p.Patch? {
      WireSpells(p.more);
      var u, v, rest := Uleb(p.skip), Uleb(|p.data|), Wire(p.more);
      UlebIs(p.skip);
      UlebIs(|p.data|);
      hide Uleb, IsUleb, Wire;
      PartsSpell(u + (v + (p.data + rest)), u, v, p.skip, p.data, rest);
    }
  }

  lemma UlebIs(n: nat)
    requires n <= LENGTH_MAX
    ensures IsUleb(Uleb(n), n)
  {
  }

  lemma PartsSpell(src: seq<Byte>, u: seq<Byte>, v: seq<Byte>, skip: nat, data: seq<Byte>, rest: seq<Byte>)
    requires IsUleb(u, skip) && IsUleb(v, |data|) && src == u + (v + (data + rest))
    ensures |u| + |v| + |data| <= |src| && SpellsOne(src, |u|, |v|, skip, data)
    ensures src[|u| + |v| + |data|..] == rest
  {
    hide IsUleb;
    assert src[..|u|] == u && src[|u|..|u| + |v|] == v;
    assert src[|u| + |v|..|u| + |v| + |data|] == data && src[|u| + |v| + |data|..] == rest;
  }

  /** The byte at `j` of a page after the changes that start at byte `d`. */
  function Patched(p: Patch, page: seq<Byte>, d: nat, j: nat): Byte
    requires j < |page|
  {
    if p.Same? || j < d + p.skip then page[j]
    else if j < d + p.skip + |p.data| then p.data[j - (d + p.skip)]
    else Patched(p.more, page, d + p.skip + |p.data|, j)
  }

  lemma {:induction false} DiffLies(old_: seq<Byte>, new_: seq<Byte>, k: nat, first: bool)
    requires |old_| == |new_| && k <= |new_|
    requires first || k == |new_| || old_[k] == new_[k]
    ensures Lies(Diff(old_, new_, k), first, k, |new_|)
    decreases |new_| - k
  {
    var z := Run(old_, new_, k, true);
    if k + z < |new_| {
      var n := Run(old_, new_, k + z, false);
      assert |new_[k + z..k + z + n]| == n;
      DiffLies(old_, new_, k + z + n, false);
    }
  }

  lemma PatchedAt(z: nat, data: seq<Byte>, q: Patch, page: seq<Byte>, d: nat, j: nat)
    requires j < |page|
    ensures Patched(Patch(z, data, q), page, d, j) ==
            if j < d + z then page[j]
            else if j < d + z + |data| then data[j - (d + z)]
            else Patched(q, page, d + z + |data|, j)
  {
  }

  lemma DiffAt(old_: seq<Byte>, new_: seq<Byte>, k: nat, z: nat, n: nat, data: seq<Byte>)
    requires |old_| == |new_| && k <= |new_| && z == Run(old_, new_, k, true) && k + z < |new_|
    requires n == Run(old_, new_, k + z, false) && data == new_[k + z..k + z + n]
    ensures Diff(old_, new_, k) == Patch(z, data, Diff(old_, new_, k + z + n))
    ensures 0 < n == |data|
  {
  }

  /** The changes from `k` on make every byte from `k` on new. */
  lemma {:induction false} DiffPatches(old_: seq<Byte>, new_: seq<Byte>, k: nat, j: nat)
    requires |old_| == |new_| && k <= j < |new_|
    ensures Patched(Diff(old_, new_, k), old_, k, j) == new_[j]
    decreases |new_| - k
  {
    var z := Run(old_, new_, k, true);
    if j < k + z {
      RunBytes(old_, new_, k, true, j);
    }
    if k + z < |new_| {
      DiffPatchesOn(old_, new_, k, j);
    }
  }

  lemma DiffPatchesOn(old_: seq<Byte>, new_: seq<Byte>, k: nat, j: nat)
    requires |old_| == |new_| && k <= j < |new_| && k + Run(old_, new_, k, true) < |new_|
    requires j < k + Run(old_, new_, k, true) ==> old_[j] == new_[j]
    ensures Patched(Diff(old_, new_, k), old_, k, j) == new_[j]
    decreases |new_| - k, 0
  {
    hide Patched, Diff, Run;
    var z := Run(old_, new_, k, true);
    var n := Run(old_, new_, k + z, false);
    var k' := k + z + n;
    var data := new_[k + z..k'];
    DiffAt(old_, new_, k, z, n, data);
    PatchedAt(z, data, Diff(old_, new_, k'), old_, k, j);
    if k' <= j {
      DiffPatches(old_, new_, k', j);
    } else if k + z <= j {
      assert data[j - (k + z)] == new_[j];
    }
  }

  lemma {:induction false} DiffShort(old_: seq<Byte>, new_: seq<Byte>, k: nat)
    requires |old_| == |new_| <= LENGTH_MAX && k <= |new_|
    ensures Short(Diff(old_, new_, k))
    decreases |new_| - k
  {
    var z := Run(old_, new_, k, true);
    if k + z < |new_| {
      DiffShort(old_, new_, k + z + Run(old_, new_, k + z, false));
    }
  }

  /** The encoding of a page relative to an old one. */
  function Encode(old_: seq<Byte>, new_: seq<Byte>): seq<Byte>
    requires |old_| == |new_| <= LENGTH_MAX
  {
    DiffShort(old_, new_, 0);
    Wire(Diff(old_, new_, 0))
  }

  datatype Decoded = Failed | Decoded(page: seq<Byte>)

  /** xbzrle_decode_buffer: the page it leaves. */
  function Decode(src: seq<Byte>, page: seq<Byte>): Decoded
  {
    var p := Parse(src, true, 0, |page|);
    if p.Corrupt? then Failed
    else Decoded(seq(|page|, j requires 0 <= j < |page| => Patched(p.patch, page, 0, j)))
  }

  /** Decoding an encoding over the old page gives the new page. */
  lemma RoundTrip(old_: seq<Byte>, new_: seq<Byte>)
    requires |old_| == |new_| <= LENGTH_MAX
    ensures Decode(Encode(old_, new_), old_) == Decoded(new_)
  {
    DiffShort(old_, new_, 0);
    DiffLies(old_, new_, 0, true);
    WireSpells(Diff(old_, new_, 0));
    ParseExact(Wire(Diff(old_, new_, 0)), true, 0, |old_|, Diff(old_, new_, 0));
    forall j | 0 <= j < |old_|
      ensures Patched(Diff(old_, new_, 0), old_, 0, j) == new_[j]
    {
      DiffPatches(old_, new_, 0, j);
    }
  }

  /** The empty encoding means an unchanged page, and only that. */
  lemma EmptyMeansSame(old_: seq<Byte>, new_: seq<Byte>)
    requires |old_| == |new_| <= LENGTH_MAX
    ensures Encode(old_, new_) == [] <==> old_ == new_
  {
    DiffShort(old_, new_, 0);
    var z := Run(old_, new_, 0, true);
    if z < |new_| {
      UlebSize(z);
    } else {
      forall j | 0 <= j < |new_|
        ensures old_[j] == new_[j]
      {
        RunBytes(old_, new_, 0, true, j);
      }
    }
  }

  lemma {:induction false} RunIs(old_: seq<Byte>, new_: seq<Byte>, i: nat, e: nat, equal: bool)
    requires |old_| == |new_| && i <= e <= |new_|
    requires forall j :: i <= j < e ==> (old_[j] == new_[j]) == equal
    requires e < |new_| ==> (old_[e] == new_[e]) != equal
    ensures Run(old_, new_, i, equal) == e - i
    decreases e - i
  {
    if i < e {
      RunIs(old_, new_, i + 1, e, equal);
    }
  }

  /** The run of equal bytes from `i0`: single bytes up to a word boundary, then words,
      then single bytes. */
  method ZeroRun(old_: seq<Byte>, new_: seq<Byte>, i0: nat) returns (i: nat)
    requires |old_| == |new_| && i0 <= |new_|
    ensures i == i0 + Run(old_, new_, i0, true)
  {
    i := i0;
    var res := (|new_| - i) % WORD;
    while res > 0 && old_[i] == new_[i]
      invariant i0 <= i && 0 <= res && i + res <= |new_| && (|new_| - i) % WORD == res
      invariant forall j :: i0 <= j < i ==> old_[j] == new_[j]
    {
      i := i + 1;
      res := res - 1;
    }
    if res == 0 {
      while i < |new_| && old_[i..i + WORD] == new_[i..i + WORD]
        invariant i0 <= i <= |new_| && (|new_| - i) % WORD == 0
        invariant forall j :: i0 <= j < i ==> old_[j] == new_[j]
      {
        assert forall j :: i <= j < i + WORD ==> old_[j] == old_[i..i + WORD][j - i];
        i := i + WORD;
      }
      while i < |new_| && old_[i] == new_[i]
        invariant i0 <= i <= |new_|
        invariant forall j :: i0 <= j < i ==> old_[j] == new_[j]
      {
        i := i + 1;
      }
    }
    RunIs(old_, new_, i0, i, true);
  }

  /** The xor of the words of both pages at `i` passes the test for a zero byte exactly
      if some byte is the same there. */
  lemma WordTest(old_: seq<Byte>, new_: seq<Byte>, i: nat)
    requires |old_| == |new_| && i + WORD <= |new_|
    ensures HasZeroByte(Xor(Word(old_[i..i + WORD]), Word(new_[i..i + WORD]))) <==>
            exists e :: i <= e < i + WORD && old_[e] == new_[e]
  {
    hide HasZeroByte, Word, Xor;
    var s, t := old_[i..i + WORD], new_[i..i + WORD];
    SharedByte(s, t);
    if k: nat :| k < 8 && s[k] == t[k] {
      assert old_[i + k] == new_[i + k];
    }
    if e :| i <= e < i + WORD && old_[e] == new_[e] {
      assert s[e - i] == t[e - i];
    }
  }

  /** The run of different bytes from `i0`: single bytes up to a word boundary, whole
      words without an equal byte, then the start of the word that has one. */
  method NonZeroRun(old_: seq<Byte>, new_: seq<Byte>, i0: nat) returns (i: nat)
    requires |old_| == |new_| && i0 <= |new_|
    ensures i == i0 + Run(old_, new_, i0, false)
  {
    hide HasZeroByte, Word, Xor;
    i := i0;
    var res := (|new_| - i) % WORD;
    ghost var words: nat := (|new_| - i) / WORD;
    while res > 0 && old_[i] != new_[i]
      invariant i0 <= i && 0 <= res && i + res + WORD * words == |new_|
      invariant forall j :: i0 <= j < i ==> old_[j] != new_[j]
    {
      i := i + 1;
      res := res - 1;
    }
    if res == 0 {
      while i < |new_|
        invariant i0 <= i && i + WORD * words == |new_|
        invariant forall j :: i0 <= j < i ==> old_[j] != new_[j]
      {
        WordTest(old_, new_, i);
        if HasZeroByte(Xor(Word(old_[i..i + WORD]), Word(new_[i..i + WORD]))) {
          ghost var e :| i <= e < i + WORD && old_[e] == new_[e];
          while old_[i] != new_[i]
            invariant i0 <= i <= e
            invariant forall j :: i0 <= j < i ==> old_[j] != new_[j]
            decreases e - i
          {
            i := i + 1;
          }
          break;
        }
        i, words := i + WORD, words - 1;
      }
    }
    RunIs(old_, new_, i0, i, false);
  }

  /** What is written so far, then the rest of the encoding. */
  ghost function Upto(dst: seq<Byte>, old_: seq<Byte>, new_: seq<Byte>, i: nat): seq<Byte>
    requires |old_| == |new_| <= LENGTH_MAX && i <= |new_|
  {
    DiffShort(old_, new_, i);
    dst + Wire(Diff(old_, new_, i))
  }

  lemma UptoMore(dst: seq<Byte>, old_: seq<Byte>, new_: seq<Byte>, i: nat, z: nat, n: nat, data: seq<Byte>)
    requires |old_| == |new_| <= LENGTH_MAX && i <= |new_|
    requires z == Run(old_, new_, i, true) && i + z < |new_| && n == Run(old_, new_, i + z, false)
    requires data == new_[i + z..i + z + n]
    ensures 0 < n && |Uleb(n)| > 0
    ensures Upto(dst, old_, new_, i) == Upto(dst + Uleb(z) + Uleb(n) + data, old_, new_, i + z + n)
    ensures |dst| + |Uleb(z)| + |Uleb(n)| + n <= |Upto(dst, old_, new_, i)|
  {
    DiffShort(old_, new_, i);
    DiffShort(old_, new_, i + z + n);
    DiffAt(old_, new_, i, z, n, data);
    UlebSize(n);
    var rest := Diff(old_, new_, i + z + n);
    assert Wire(Patch(z, data, rest)) == Uleb(z) + (Uleb(|data|) + (data + Wire(rest)));
    hide Diff, Run, Wire, Uleb, Short;
    Regroup(dst, Uleb(z), Uleb(n), data, Wire(rest));
  }

  lemma Appended(dst: seq<Byte>, old_: seq<Byte>, new_: seq<Byte>, i: nat, start: nat, end: nat,
                 zrun: seq<Byte>, nzrun: seq<Byte>, all: seq<Byte>)
    requires |old_| == |new_| <= LENGTH_MAX && i <= |new_|
    requires start == i + Run(old_, new_, i, true) < |new_| && end == start + Run(old_, new_, start, false)
    requires zrun == Uleb(start - i) && nzrun == Uleb(end - start) && Upto(dst, old_, new_, i) == all
    ensures start < end && |nzrun| > 0
    ensures Upto(dst + zrun + nzrun + new_[start..end], old_, new_, end) == all
    ensures |dst| + |zrun| + |nzrun| + (end - start) <= |all|
  {
    hide Upto, Uleb;
    assert i + (start - i) == start && start + (end - start) == end;
    UptoMore(dst, old_, new_, i, start - i, end - start, new_[start..end]);
  }

  /** What is left to write from `i` on: nothing for a run of equal bytes to the end of
      the page, at least three bytes otherwise. */
  lemma LeftToWrite(dst: seq<Byte>, old_: seq<Byte>, new_: seq<Byte>, i: nat, start: nat, all: seq<Byte>)
    requires |old_| == |new_| <= LENGTH_MAX && i < |new_| && Upto(dst, old_, new_, i) == all
    requires start == i + Run(old_, new_, i, true)
    ensures start == |new_| ==> old_[|new_| - 1] == new_[|new_| - 1] && all == dst
    ensures start < |new_| ==> |all| >= |dst| + 3
  {
    if start == |new_| {
      RunBytes(old_, new_, i, true, |new_| - 1);
    } else {
      UlebSize(start - i);
      var end := start + Run(old_, new_, start, false);
      Appended(dst, old_, new_, i, start, end, Uleb(start - i), Uleb(end - start), all);
    }
  }

  lemma Regroup(pre: seq<Byte>, uz: seq<Byte>, un: seq<Byte>, data: seq<Byte>, rest: seq<Byte>)
    ensures pre + (uz + (un + (data + rest))) == (pre + uz + un + data) + rest
    ensures |pre| + |uz| + |un| + |data| <= |pre + (uz + (un + (data + rest)))|
  {
  }

  /** The encoding does not fit, or a run of equal bytes ends the page and it does not
      fit with two bytes to spare. */
  predicate NoRoom(old_: seq<Byte>, new_: seq<Byte>, dlen: nat)
    requires |old_| == |new_| <= LENGTH_MAX
  {
    var size, last := |Encode(old_, new_)|, |new_| - 1;
    size > dlen || (last >= 0 && old_[last] == new_[last] && size + 2 > dlen)
  }

  /** uleb128_encode_small into a buffer with room for two bytes. */
  method PutLength(dst: seq<Byte>, n: nat, ghost dlen: nat) returns (d: seq<Byte>)
    requires n <= LENGTH_MAX && |dst| + 2 <= dlen
    ensures d == dst + Uleb(n)
  {
    d := dst + Uleb(n);
  }

  /** memcpy into a buffer with room for the bytes. */
  method PutBytes(dst: seq<Byte>, bytes: seq<Byte>, ghost dlen: nat) returns (d: seq<Byte>)
    requires |dst| + |bytes| <= dlen
    ensures d == dst + bytes
  {
    d := dst + bytes;
  }

  /** xbzrle_encode_buffer: the length of the encoding, 0 for an unchanged page, or -1 if
      there is no room for it.  Nothing is written past the buffer's `dlen` bytes. */
  method EncodeBuffer(old_: seq<Byte>, new_: seq<Byte>, dlen: nat) returns (ret: int, dst: seq<Byte>)
    requires |old_| == |new_| <= LENGTH_MAX
    ensures ret == -1 <==> NoRoom(old_, new_, dlen)
    ensures ret != -1 ==> ret == |dst| && dst == Encode(old_, new_)
  {
    hide Upto, Uleb, Encode;
    dst := [];
    var i := 0;
    ghost var all := Encode(old_, new_);
    UptoStart(old_, new_);
    while i < |new_|
      invariant 0 <= i <= |new_| && |dst| <= dlen
      invariant i > 0 ==> old_[i - 1] != new_[i - 1]
      invariant Upto(dst, old_, new_, i) == all
      decreases |new_| - i
    {
      LeftToWrite(dst, old_, new_, i, i + Run(old_, new_, i, true), all);
      if |dst| + 2 > dlen {
        return -1, dst;
      }
      var start := ZeroRun(old_, new_, i);
      if start == |new_| {
        return |dst|, dst;
      }
      ghost var zrun, last := Uleb(start - i), start + Run(old_, new_, start, false);
      ghost var nzrun := Uleb(last - start);
      Appended(dst, old_, new_, i, start, last, zrun, nzrun, all);
      var d := PutLength(dst, start - i, dlen);
      if |d| + 2 > dlen {
        return -1, dst;
      }
      var end := NonZeroRun(old_, new_, start);
      d := PutLength(d, end - start, dlen);
      if |d| + (end - start) > dlen {
        return -1, dst;
      }
      RunBytes(old_, new_, start, false, end - 1);
      dst := PutBytes(d, new_[start..end], dlen);
      i := end;
    }
    UptoEnd(dst, old_, new_);
    return |dst|, dst;
  }

  lemma UptoStart(old_: seq<Byte>, new_: seq<Byte>)
    requires |old_| == |new_| <= LENGTH_MAX
    ensures Upto([], old_, new_, 0) == Encode(old_, new_)
  {
  }

  lemma UptoEnd(dst: seq<Byte>, old_: seq<Byte>, new_: seq<Byte>)
    requires |old_| == |new_| <= LENGTH_MAX
    ensures Upto(dst, old_, new_, |new_|) == dst
  {
  }

  /** Where the decoder stands: what it still has to read decides whether it fails, and
      what it has put agrees with the changes it has read. */
  ghost predicate Decoding(all: Parsed, left: Parsed, page: seq<Byte>, dst: seq<Byte>, d: nat)
    requires |dst| == |page|
  {
    && (all.Corrupt? <==> left.Corrupt?)
    && (forall j :: d <= j < |page| ==> dst[j] == page[j])
    && (all.Parsed? ==> forall j :: 0 <= j < |page| ==>
          Patched(all.patch, page, 0, j) == if j < d then dst[j] else Patched(left.patch, page, d, j))
  }

  lemma DecodingMore(all: Parsed, left: Parsed, r: One, more: Parsed, page: seq<Byte>, dst: seq<Byte>, dst': seq<Byte>,
                     d: nat)
    requires |dst| == |dst'| == |page| && Decoding(all, left, page, dst, d)
    requires r.One? && d + r.skip + |r.data| <= |page|
    requires left == if more.Corrupt? then Corrupt else Parsed(Patch(r.skip, r.data, more.patch))
    requires forall j :: 0 <= j < |page| ==>
               dst'[j] == if d + r.skip <= j < d + r.skip + |r.data| then r.data[j - (d + r.skip)] else dst[j]
    ensures Decoding(all, more, page, dst', d + r.skip + |r.data|)
  {
    if all.Parsed? {
      forall j | 0 <= j < |page|
        ensures Patched(all.patch, page, 0, j) ==
                if j < d + r.skip + |r.data| then dst'[j] else Patched(more.patch, page, d + r.skip + |r.data|, j)
      {
        PatchedAt(r.skip, r.data, more.patch, page, d, j);
      }
    }
  }

  /** xbzrle_decode_buffer in place: the number of bytes reached, or -1 for a source that
      is not an encoding for a page of this length. */
  method DecodeBuffer(src: seq<Byte>, dst: array<Byte>) returns (ret: int)
    modifies dst
    ensures ret == -1 <==> Decode(src, old(dst[..])) == Failed
    ensures ret != -1 ==> Decode(src, old(dst[..])) == Decoded(dst[..]) && 0 <= ret <= dst.Length
  {
    hide ParseOne, Decoding, Parse, Patched;
    ghost var page := dst[..];
    ghost var all := Parse(src, true, 0, |page|);
    var rest, first, d := src, true, 0;
    DecodingStart(all, page);
    while rest != []
      invariant 0 <= d <= dst.Length == |page|
      invariant Decoding(all, Parse(rest, first, d, |page|), page, dst[..], d)
      decreases |rest|
    {
      var r := ParseOne(rest, first);
      DecodingTurn(all, rest, first, r, page, dst[..], d);
      if r.Bad? || d + r.skip + |r.data| > dst.Length {
        return -1;
      }
      ghost var before := dst[..];
      forall j | 0 <= j < |r.data| {
        dst[d + r.skip + j] := r.data[j];
      }
      DecodingMore(all, Parse(rest, first, d, |page|), r, Parse(r.rest, false, d + r.skip + |r.data|, |page|), page,
                   before, dst[..], d);
      d := d + r.skip + |r.data|;
      rest, first := r.rest, false;
    }
    DecodingEnd(all, first, page, dst[..], d);
    assert Decode(src, page).page == dst[..];
    return d;
  }

  lemma DecodingStart(all: Parsed, page: seq<Byte>)
    ensures Decoding(all, all, page, page, 0)
  {
  }

  lemma DecodingTurn(all: Parsed, rest: seq<Byte>, first: bool, r: One, page: seq<Byte>, dst: seq<Byte>, d: nat)
    requires |dst| == |page| && rest != [] && r == ParseOne(rest, first)
    requires Decoding(all, Parse(rest, first, d, |page|), page, dst, d)
    ensures r.Bad? || d + r.skip + |r.data| > |page| ==> all.Corrupt?
    ensures r.One? && d + r.skip + |r.data| <= |page| ==>
              var more := Parse(r.rest, false, d + r.skip + |r.data|, |page|);
              Parse(rest, first, d, |page|) ==
              if more.Corrupt? then Corrupt else Parsed(Patch(r.skip, r.data, more.patch))
  {
    hide ParseOne;
  }

  lemma DecodingEnd(all: Parsed, first: bool, page: seq<Byte>, dst: seq<Byte>, d: nat)
    requires |dst| == |page| && Decoding(all, Parse([], first, d, |page|), page, dst, d)
    ensures all.Parsed? && forall j :: 0 <= j < |page| ==> Patched(all.patch, page, 0, j) == dst[j]
  {
  }
}
