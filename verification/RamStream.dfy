/** The bytes of the RAM stream and their loader (qemu/arch_init.c:122-129, 331-345,
    432-438, 643-688, 1035-1228).

    A section is a run of records and the end-of-section word; the first one has the names
    and lengths of the blocks instead.  Both sides remember a block: the sender the one of
    the last record, the loader the one it last found. */
module RamStream {
  import opened Bytes
  import opened Words
  import opened MigrationBitmap
  import opened RamMigration

  const COMPRESS := 0x02
  const MEM_SIZE := 0x04
  const PAGE := 0x08
  const EOS := 0x10
  const CONTINUE := 0x20
  const XBZRLE := 0x40
  const ENCODING_FLAG_XBZRLE: Byte := 1

  // ---- The sender -------------------------------------------------------------------

  function Flag(kind: Kind): nat
  {
    match kind
    case Zero => COMPRESS
    case Full(_) => PAGE
    case Delta(_) => XBZRLE
  }

  /** The offset of the page in its block, with the flags in the low bits. */
  function Word(r: Record): nat
  {
    r.page * PAGE_SIZE + Flag(r.kind) + if r.cont then CONTINUE else 0
  }

  function Payload(kind: Kind): seq<Byte>
  {
    match kind
    case Zero => [0]
    case Full(data) => data
    case Delta(code) => [ENCODING_FLAG_XBZRLE] + Be(|code|, 2) + code
  }

  function Name(b: Block): seq<Byte>
    requires |b.id| < 256
  {
    [|b.id| as Byte] + b.id
  }

  /** Block names are C strings of less than 256 bytes, and no two blocks share one. */
  ghost predicate NamesOk(blocks: seq<Block>)
  {
    && (forall i :: 0 <= i < |blocks| ==> |blocks[i].id| < 256 && (0 as Byte) !in blocks[i].id)
    && (forall i, j :: 0 <= i < j < |blocks| ==> blocks[i].id != blocks[j].id)
  }

  /** save_page_header and the payload. */
  function RecordBytes(blocks: seq<Block>, r: Record): seq<Byte>
    requires r.block < |blocks| && |blocks[r.block].id| < 256
  {
    Be(Word(r), 8) + (if r.cont then [] else Name(blocks[r.block])) + Payload(r.kind)
  }

  ghost predicate Sendable(blocks: seq<Block>, r: Record)
  {
    Fits(blocks, r) && (r.page + 1) * PAGE_SIZE <= WORD_MAX
  }

  ghost predicate AllSendable(blocks: seq<Block>, stream: seq<Record>)
  {
    forall i :: 0 <= i < |stream| ==> Sendable(blocks, stream[i])
  }

  function StreamBytes(blocks: seq<Block>, stream: seq<Record>): seq<Byte>
    requires NamesOk(blocks) && AllSendable(blocks, stream)
  {
    if stream == [] then [] else StreamBytes(blocks, stream[..|stream| - 1]) + RecordBytes(blocks, stream[|stream| - 1])
  }

  function SectionBytes(blocks: seq<Block>, stream: seq<Record>): seq<Byte>
    requires NamesOk(blocks) && AllSendable(blocks, stream)
  {
    StreamBytes(blocks, stream) + Be(EOS, 8)
  }

  function Entry(b: Block): seq<Byte>
    requires |b.id| < 256
  {
    Name(b) + Be(b.pages * PAGE_SIZE, 8)
  }

  /** The entries of the blocks from the `k`-th on. */
  function Entries(blocks: seq<Block>, k: nat): seq<Byte>
    requires NamesOk(blocks) && k <= |blocks|
    decreases |blocks| - k
  {
    if k == |blocks| then [] else Entry(blocks[k]) + Entries(blocks, k + 1)
  }

  /** What ram_save_setup sends: the number of bytes of all blocks, and each one's name and
      length. */
  function SetupBytes(blocks: seq<Block>): seq<Byte>
    requires NamesOk(blocks)
  {
    Be(TotalPages(blocks) * PAGE_SIZE + MEM_SIZE, 8) + Entries(blocks, 0) + Be(EOS, 8)
  }

  // ---- The loader -------------------------------------------------------------------

  /** What ram_load keeps: the block it remembers, how many bytes of each block are in use,
      and the memory. */
  datatype State = State(block: int, used: seq<nat>, mem: seq<Page>)

  /** `fixed` says which blocks must not be resized. */
  ghost predicate StateOk(blocks: seq<Block>, fixed: seq<bool>, st: State)
  {
    -1 <= st.block < |blocks| == |st.used| == |fixed| && BlocksOk(blocks, |st.mem|)
  }

  /** What the payload of a record does to the page. */
  datatype Content = Fill(ch: Byte) | Whole(data: Page) | Code(code: seq<Byte>)

  datatype Got =
    | Bad
    | End(next: nat)
    | Sizes(total: nat, next: nat)
    | Got(block: nat, page: nat, content: Content, next: nat)

  predicate Has(input: seq<Byte>, pos: nat, n: nat)
  {
    pos + n <= |input|
  }

  function CString(s: seq<Byte>): seq<Byte>
  {
    if s == [] || s[0] == 0 then [] else [s[0]] + CString(s[1..])
  }

  /** The first block of that name that is long enough, or -1. */
  function FindBlock(blocks: seq<Block>, id: seq<Byte>, page: nat): (r: int)
    ensures -1 <= r < |blocks|
    ensures r >= 0 ==> blocks[r].id == id && blocks[r].pages > page
    ensures forall i :: 0 <= i < (if r >= 0 then r else |blocks|) ==> !(blocks[i].id == id && blocks[i].pages > page)
  {
    if blocks == [] then -1
    else if blocks[0].id == id && blocks[0].pages > page then 0
    else
      var r := FindBlock(blocks[1..], id, page);
      assert forall i :: 1 <= i < |blocks| ==> blocks[i] == blocks[1..][i - 1];
      if r == -1 then -1 else r + 1
  }

  datatype Host = NoHost | Host(block: nat, next: nat)

  /** host_from_stream_offset */
  function HostAt(blocks: seq<Block>, input: seq<Byte>, pos: nat, block: int, page: nat, cont: bool): (h: Host)
    requires -1 <= block < |blocks|
    ensures h.Host? ==> h.block < |blocks| && page < blocks[h.block].pages && pos <= h.next
  {
    if cont then
      if block == -1 || blocks[block].pages <= page then NoHost else Host(block, pos)
    else if !Has(input, pos, 1) || !Has(input, pos, 1 + input[pos] as int) then NoHost
    else
      var next := pos + 1 + input[pos] as int;
      var b := FindBlock(blocks, CString(input[pos + 1..next]), page);
      if b == -1 then NoHost else Host(b, next)
  }

  /** The flags without CONTINUE. */
  function Stripped(flags: nat): nat
  {
    if flags / CONTINUE % 2 == 1 then flags - CONTINUE else flags
  }

  function ContentAt(input: seq<Byte>, pos: nat, flag: nat, b: nat, page: nat): (g: Got)
    ensures g.Bad? || (g.Got? && g.block == b && g.page == page && pos < g.next <= |input|)
  {
    if flag == COMPRESS then
      if !Has(input, pos, 1) then Bad else Got(b, page, Fill(input[pos]), pos + 1)
    else if flag == PAGE then
      if !Has(input, pos, PAGE_SIZE) then Bad else Got(b, page, Whole(input[pos..pos + PAGE_SIZE]), pos + PAGE_SIZE)
    else if !Has(input, pos, 3) || input[pos] != ENCODING_FLAG_XBZRLE then Bad
    else
      var len := UnBe(input[pos + 1..pos + 3]);
      if len > PAGE_SIZE || !Has(input, pos + 3, len) then Bad
      else Got(b, page, Code(input[pos + 3..pos + 3 + len]), pos + 3 + len)
  }

  datatype Header = Header(flag: nat, page: nat, cont: bool)

  function HeaderOf(w: nat): Header
  {
    Header(Stripped(w % PAGE_SIZE), w / PAGE_SIZE, w % PAGE_SIZE / CONTINUE % 2 == 1)
  }

  /** One record, read where the remembered block is `block`. */
  function RecordAt(blocks: seq<Block>, input: seq<Byte>, pos: nat, block: int): (g: Got)
    requires -1 <= block < |blocks|
    ensures g.End? || g.Sizes? ==> pos < g.next <= |input|
    ensures g.Got? ==> pos < g.next <= |input| && g.block < |blocks| && g.page < blocks[g.block].pages
  {
    if !Has(input, pos, 8) then Bad
    else
      var w := HeaderOf(UnBe(input[pos..pos + 8]));
      if w.flag == EOS then End(pos + 8)
      else if w.flag == MEM_SIZE then Sizes(w.page * PAGE_SIZE, pos + 8)
      else if w.flag !in {COMPRESS, PAGE, XBZRLE} then Bad
      else
        var h := HostAt(blocks, input, pos + 8, block, w.page, w.cont);
        if h.NoHost? then Bad else ContentAt(input, h.next, w.flag, h.block, w.page)
  }

  function Filled(ch: Byte): Page
  {
    seq(PAGE_SIZE, _ => ch)
  }

  function Applied(content: Content, page: Page): Option<Page>
  {
    match content
    case Fill(ch) => Some(Filled(ch))
    case Whole(data) => Some(data)
    case Code(code) =>
      var r := Xbzrle.Decode(code, page);
      if r.Failed? then None else Some(r.page)
  }

  /** qemu_ram_resize: the lengths in use once block `b` has that many bytes.  The length is
      rounded up to whole pages, as a 64-bit number. */
  function Resized(blocks: seq<Block>, fixed: seq<bool>, used: seq<nat>, b: nat, length: nat): (r: Option<seq<nat>>)
    requires b < |blocks| == |used| == |fixed|
    ensures r.Some? ==> |r.value| == |used|
  {
    var size := (length + PAGE_SIZE - 1) % WORD_MAX / PAGE_SIZE * PAGE_SIZE;
    if length == used[b] || size == used[b] then Some(used)
    else if fixed[b] || blocks[b].pages * PAGE_SIZE < size then None
    else Some(used[b := size])
  }

  datatype Lengths = Refused | Lengths(used: seq<nat>, next: nat)

  /** The names and lengths of blocks, `total` bytes of them, from `pos` on.  The count of
      the bytes left is a 64-bit number. */
  function LengthsFrom(blocks: seq<Block>, fixed: seq<bool>, used: seq<nat>, input: seq<Byte>, pos: nat,
                       total: nat): (r: Lengths)
    requires |blocks| == |used| == |fixed|
    ensures r.Lengths? ==> |r.used| == |used| && pos <= r.next && (pos <= |input| ==> r.next <= |input|)
    decreases |input| - pos
  {
    if total == 0 then Lengths(used, pos)
    else
      var e := EntryAt(blocks, fixed, used, input, pos, total);
      if e.Torn? then Refused else LengthsFrom(blocks, fixed, e.used, input, e.next, e.total)
  }

  datatype OneEntry = Torn | OneEntry(used: seq<nat>, total: nat, next: nat)

  /** One name and length. */
  function EntryAt(blocks: seq<Block>, fixed: seq<bool>, used: seq<nat>, input: seq<Byte>, pos: nat,
                   total: nat): (e: OneEntry)
    requires |blocks| == |used| == |fixed|
    ensures e.OneEntry? ==> |e.used| == |used| && pos < e.next <= |input|
  {
    if !Has(input, pos, 1) || !Has(input, pos, 9 + input[pos] as int) then Torn
    else
      var at := pos + 1 + input[pos] as int;
      var b, length := FindBlock(blocks, CString(input[pos + 1..at]), 0), UnBe(input[at..at + 8]);
      if b == -1 then Torn
      else
        var r := Resized(blocks, fixed, used, b, length);
        if r == None then Torn else OneEntry(r.value, (total - length) % WORD_MAX, at + 8)
  }

  datatype Outcome = Error | Done(st: State, next: nat)

  /** A whole section, from `pos` on. */
  function LoadFrom(blocks: seq<Block>, fixed: seq<bool>, input: seq<Byte>, pos: nat, st: State): (r: Outcome)
    requires StateOk(blocks, fixed, st)
    ensures r.Done? ==> StateOk(blocks, fixed, r.st) && |r.st.mem| == |st.mem|
    decreases |input| - pos
  {
    match RecordAt(blocks, input, pos, st.block)
    case Bad => Error
    case End(next) => Done(st, next)
    case Sizes(total, next) =>
      var r := LengthsFrom(blocks, fixed, st.used, input, next, total);
      if r.Refused? then Error else LoadFrom(blocks, fixed, input, r.next, st.(used := r.used))
    case Got(b, page, content, next) =>
      var p := blocks[b].base + page;
      var new_ := Applied(content, st.mem[p]);
      if new_ == None then Error
      else LoadFrom(blocks, fixed, input, next, st.(block := b, mem := st.mem[p := new_.value]))
  }

  /** What a load may do to the lengths in use: a block that must not be resized keeps its own,
      none outgrows its block, and a new one is of whole pages. */
  ghost predicate LengthsKept(blocks: seq<Block>, fixed: seq<bool>, before: seq<nat>, after: seq<nat>)
  {
    && |blocks| == |fixed| == |before| == |after|
    && forall t :: 0 <= t < |blocks| && after[t] != before[t] ==>
         !fixed[t] && after[t] <= blocks[t].pages * PAGE_SIZE && after[t] % PAGE_SIZE == 0
  }

  lemma EntryKeeps(blocks: seq<Block>, fixed: seq<bool>, used: seq<nat>, input: seq<Byte>, pos: nat, total: nat)
    requires |blocks| == |used| == |fixed| && EntryAt(blocks, fixed, used, input, pos, total).OneEntry?
    ensures LengthsKept(blocks, fixed, used, EntryAt(blocks, fixed, used, input, pos, total).used)
  {
    hide FindBlock, CString, UnBe;
  }

  lemma {:induction false} LengthsKeep(blocks: seq<Block>, fixed: seq<bool>, used: seq<nat>, input: seq<Byte>, pos: nat,
                                       total: nat)
    requires |blocks| == |used| == |fixed| && LengthsFrom(blocks, fixed, used, input, pos, total).Lengths?
    ensures LengthsKept(blocks, fixed, used, LengthsFrom(blocks, fixed, used, input, pos, total).used)
    decreases |input| - pos
  {
    hide EntryAt;
    if total != 0 {
      var e := EntryAt(blocks, fixed, used, input, pos, total);
      EntryKeeps(blocks, fixed, used, input, pos, total);
      LengthsKeep(blocks, fixed, e.used, input, e.next, e.total);
    }
  }

  /** Whatever a section holds, if it loads then it has kept the lengths within bounds. */
  lemma {:induction false} LoadKeeps(blocks: seq<Block>, fixed: seq<bool>, input: seq<Byte>, pos: nat, st: State)
    requires StateOk(blocks, fixed, st) && LoadFrom(blocks, fixed, input, pos, st).Done?
    ensures LengthsKept(blocks, fixed, st.used, LoadFrom(blocks, fixed, input, pos, st).st.used)
    decreases |input| - pos
  {
    hide RecordAt, LengthsFrom, Applied;
    match RecordAt(blocks, input, pos, st.block)
    case Bad =>
    case End(_) =>
    case Sizes(total, next) =>
      var r := LengthsFrom(blocks, fixed, st.used, input, next, total);
      LengthsKeep(blocks, fixed, st.used, input, next, total);
      LoadKeeps(blocks, fixed, input, r.next, st.(used := r.used));
    case Got(b, page, content, next) =>
      var p := blocks[b].base + page;
      var new_ := Applied(content, st.mem[p]);
      LoadKeeps(blocks, fixed, input, next, st.(block := b, mem := st.mem[p := new_.value]));
  }

  /** ram_load and what it remembers between sections. */
  class Loader {
    const blocks: seq<Block>
    const fixed: seq<bool>
    const input: seq<Byte>
    var pos: nat
    var block: int
    var used: seq<nat>
    var mem: seq<Page>

    ghost function Now(): State
      reads this
    {
      State(block, used, mem)
    }

    ghost predicate Valid()
      reads this
    {
      StateOk(blocks, fixed, Now())
    }

    constructor (blocks0: seq<Block>, fixed0: seq<bool>, used0: seq<nat>, input0: seq<Byte>, mem0: seq<Page>)
      requires |blocks0| == |fixed0| == |used0| && BlocksOk(blocks0, |mem0|)
      ensures Valid() && blocks == blocks0 && fixed == fixed0 && input == input0
      ensures pos == 0 && Now() == State(-1, used0, mem0)
    {
      blocks, fixed, input, used, mem, pos, block := blocks0, fixed0, input0, used0, mem0, 0, -1;
    }

    /** qemu_get_be64 and qemu_get_be16. */
    method GetBe(k: nat) returns (ok: bool, n: nat)
      modifies this`pos
      ensures ok == Has(input, old(pos), k)
      ensures ok ==> pos == old(pos) + k && n == UnBe(input[old(pos)..pos])
    {
      ok, n := Has(input, pos, k), 0;
      if !ok {
        return;
      }
      var i := 0;
      assert input[pos..pos + i] == [] && UnBe([]) == 0;
      hide UnBe;
      while i < k
        invariant 0 <= i <= k && pos == old(pos) && n == UnBe(input[pos..pos + i])
      {
        assert input[pos..pos + i + 1] == input[pos..pos + i] + [input[pos + i]];
        UnBeMore(input[pos..pos + i], input[pos + i]);
        n := n * 256 + input[pos + i] as int;
        i := i + 1;
      }
      pos := pos + k;
    }

    /** host_from_stream_offset: a block that is not found is no longer remembered. */
    method HostFromStreamOffset(page: nat, cont: bool) returns (found: bool)
      requires Valid()
      modifies this`pos, this`block
      ensures Valid()
      ensures found == HostAt(blocks, input, old(pos), old(block), page, cont).Host?
      ensures found ==> 0 <= block && HostAt(blocks, input, old(pos), old(block), page, cont) == Host(block, pos)
    {
      if cont {
        return block != -1 && blocks[block].pages > page;
      }
      if !Has(input, pos, 1) || !Has(input, pos, 1 + input[pos] as int) {
        return false;
      }
      var next := pos + 1 + input[pos] as int;
      var id := CString(input[pos + 1..next]);
      pos := next;
      block := 0;
      while block < |blocks|
        invariant 0 <= block <= |blocks| && pos == next
        invariant forall i :: 0 <= i < block ==> !(blocks[i].id == id && blocks[i].pages > page)
      {
        if blocks[block].id == id && blocks[block].pages > page {
          assert FindBlock(blocks, id, page) == block;
          return true;
        }
        block := block + 1;
      }
      block := -1;
      return false;
    }

    /** load_xbzrle: decodes in place. */
    method LoadXbzrle(host: array<Byte>) returns (ret: int)
      requires Valid() && host.Length == PAGE_SIZE
      modifies this`pos, host
      ensures ret == 0 || ret == -1
      ensures forall b: nat, page: nat ::
                XbzrleRead(ContentAt(input, old(pos), XBZRLE, b, page), b, page, old(host[..]), host[..], ret, pos)
    {
      hide Xbzrle.Decode;
      if !Has(input, pos, 3) {
        return -1;
      }
      var flags := input[pos];
      pos := pos + 1;
      var ok, len := GetBe(2);
      if flags != ENCODING_FLAG_XBZRLE || len > PAGE_SIZE || !Has(input, pos, len) {
        return -1;
      }
      var code := input[pos..pos + len];
      pos := pos + len;
      var n := Xbzrle.DecodeBuffer(code, host);
      ret := if n == -1 then -1 else 0;
    }

    /** qemu_ram_resize. */
    method RamResize(b: nat, length: nat) returns (ok: bool)
      requires Valid() && b < |blocks| && length != used[b]
      modifies this`used
      ensures ok == Resized(blocks, fixed, old(used), b, length).Some?
      ensures LengthsKept(blocks, fixed, old(used), used)
      ensures used == if ok then Resized(blocks, fixed, old(used), b, length).value else old(used)
    {
      var size := (length + PAGE_SIZE - 1) % WORD_MAX / PAGE_SIZE * PAGE_SIZE;
      if used[b] == size {
        return true;
      }
      if fixed[b] {
        return false;
      }
      if blocks[b].pages * PAGE_SIZE < size {
        return false;
      }
      used := used[b := size];
      return true;
    }

    /** One name and length of the setup section. */
    method LoadEntry(total: nat) returns (ok: bool, total': nat)
      requires Valid()
      modifies this`pos, this`used
      ensures var e := EntryAt(blocks, fixed, old(used), input, old(pos), total);
              && ok == e.OneEntry? && (ok ==> Valid() && e == OneEntry(used, total', pos))
    {
      hide CString, UnBe;
      total' := 0;
      if !Has(input, pos, 1) || !Has(input, pos, 9 + input[pos] as int) {
        return false, 0;
      }
      var at := pos + 1 + input[pos] as int;
      var id := CString(input[pos + 1..at]);
      pos := at;
      var length;
      ok, length := GetBe(8);
      var b := 0;
      while b < |blocks| && blocks[b].id != id
        invariant 0 <= b <= |blocks| && forall i :: 0 <= i < b ==> blocks[i].id != id
      {
        b := b + 1;
      }
      if b == |blocks| {
        return false, 0;
      }
      assert FindBlock(blocks, id, 0) == b;
      if length != used[b] {
        ok := RamResize(b, length);
      }
      total' := (total - length) % WORD_MAX;
    }

    /** The loop over the names and lengths. */
    method LoadLengths(total0: nat) returns (ok: bool)
      requires Valid()
      modifies this`pos, this`used
      ensures var r := LengthsFrom(blocks, fixed, old(used), input, old(pos), total0);
              && ok == r.Lengths? && (ok ==> Valid() && r == Lengths(used, pos))
    {
      hide EntryAt;
      ghost var all := LengthsFrom(blocks, fixed, used, input, pos, total0);
      var total := total0;
      ok := true;
      while ok && total != 0
        invariant ok ==> Valid()
        invariant if ok then LengthsFrom(blocks, fixed, used, input, pos, total) == all else all == Refused
        decreases ok, |input| - pos
      {
        ok, total := LoadEntry(total);
      }
    }

    /** ram_load: one section. */
    method RamLoad() returns (ok: bool)
      requires Valid()
      modifies this`pos, this`block, this`used, this`mem
      ensures ok == LoadFrom(blocks, fixed, input, old(pos), old(Now())).Done?
      ensures ok ==> Valid() && LoadFrom(blocks, fixed, input, old(pos), old(Now())) == Done(Now(), pos)
      ensures ok ==> LengthsKept(blocks, fixed, old(used), used)
    {
      ghost var all := LoadFrom(blocks, fixed, input, pos, Now());
      var flags := 0;
      ok := true;
      while ok && flags != EOS
        invariant ok ==> Valid()
        invariant ok && flags != EOS ==> LoadFrom(blocks, fixed, input, pos, Now()) == all
        invariant ok && flags == EOS ==> all == Done(Now(), pos)
        invariant !ok ==> all == Error
        decreases ok && flags != EOS, |input| - pos
      {
        ok, flags := LoadOne();
      }
      if ok {
        LoadKeeps(blocks, fixed, input, old(pos), old(Now()));
      }
    }

    /** ram_load, called for one section after another. */
    method LoadAll(n: nat) returns (ok: bool)
      requires Valid()
      modifies this`pos, this`block, this`used, this`mem
      ensures ok == LoadSections(blocks, fixed, input, old(pos), old(Now()), n).Done?
      ensures ok ==> Valid() && LoadSections(blocks, fixed, input, old(pos), old(Now()), n) == Done(Now(), pos)
      ensures ok ==> LengthsKept(blocks, fixed, old(used), used)
    {
      hide LoadFrom;
      ghost var all := LoadSections(blocks, fixed, input, pos, Now(), n);
      var i := 0;
      ok := true;
      while ok && i < n
        invariant 0 <= i <= n && (ok ==> Valid() && LengthsKept(blocks, fixed, old(used), used))
        invariant if ok then LoadSections(blocks, fixed, input, pos, Now(), n - i) == all else all == Error
      {
        ok := RamLoad();
        i := i + 1;
      }
    }

    /** One turn of ram_load's loop. */
    method LoadOne() returns (ok: bool, flag: nat)
      requires Valid()
      modifies this`pos, this`block, this`used, this`mem
      ensures ok ==> Valid() && old(pos) < pos <= |input|
      ensures var all := LoadFrom(blocks, fixed, input, old(pos), old(Now()));
              if !ok then all == Error
              else if flag == EOS then all == Done(Now(), pos)
              else all == LoadFrom(blocks, fixed, input, pos, Now())
    {
      hide Xbzrle.Decode, CString, UnBe, FindBlock, HostAt, ContentAt, Applied, HeaderOf, LengthsFrom;
      var start, block0 := pos, block;
      var w;
      flag := 0;
      ok, w := GetBe(8);
      if !ok {
        return;
      }
      var header := HeaderOf(w);
      var page := header.page;
      flag := header.flag;
      if flag == EOS {
        return;
      }
      if flag == MEM_SIZE {
        ok := LoadLengths(page * PAGE_SIZE);
        return;
      }
      if flag !in {COMPRESS, PAGE, XBZRLE} {
        ok := false;
        return;
      }
      ok := HostFromStreamOffset(page, header.cont);
      if !ok {
        return;
      }
      assert RecordAt(blocks, input, start, block0) == ContentAt(input, pos, flag, block, page);
      ok := LoadContent(page, flag);
    }

    /** What follows the header of a record for page `page` of the remembered block. */
    method LoadContent(page: nat, flag: nat) returns (ok: bool)
      requires Valid() && 0 <= block && page < blocks[block].pages && flag in {COMPRESS, PAGE, XBZRLE}
      modifies this`pos, this`mem
      ensures var g, p := ContentAt(input, old(pos), flag, block, page), blocks[block].base + page;
              && ok == (g.Got? && Applied(g.content, old(mem)[p]).Some?)
              && (ok ==> pos == g.next && mem == old(mem)[p := Applied(g.content, old(mem)[p]).value])
    {
      hide Xbzrle.Decode, UnBe;
      var p := blocks[block].base + page;
      if flag == COMPRESS {
        ok := Has(input, pos, 1);
        if ok {
          mem := mem[p := Filled(input[pos])];
          pos := pos + 1;
        }
      } else if flag == PAGE {
        ok := Has(input, pos, PAGE_SIZE);
        if ok {
          mem := mem[p := input[pos..pos + PAGE_SIZE]];
          pos := pos + PAGE_SIZE;
        }
      } else {
        ghost var at := pos;
        var before := mem[p];
        var host := new Byte[PAGE_SIZE](i requires 0 <= i < |before| => before[i]);
        assert host[..] == before;
        var ret := LoadXbzrle(host);
        assert XbzrleRead(ContentAt(input, at, XBZRLE, block, page), block, page, before, host[..], ret, pos);
        ok := ret == 0;
        if ok {
          mem := mem[p := host[..]];
        }
      }
    }
  }

  ghost predicate XbzrleRead(g: Got, b: nat, page: nat, before: Page, after: Page, ret: int, pos: nat)
  {
    if ret == 0 then
      g.Got? && g.block == b && g.page == page && g.next == pos && g.content.Code?
      && Xbzrle.Decode(g.content.code, before) == Xbzrle.Decoded(after)
    else
      || g.Bad?
      || (g.Got? && g.content.Code? && g.block == b && g.page == page && Xbzrle.Decode(g.content.code, before).Failed?)
  }

  // ---- The round trip ---------------------------------------------------------------

  /** The destination's block for a block of the source: the one of its name, with room
      for all its pages; -1 if there is none. */
  function Twin(dst: seq<Block>, b: Block): (t: int)
    ensures -1 <= t < |dst|
  {
    if b.pages == 0 then -1 else FindBlock(dst, b.id, b.pages - 1)
  }

  /** Every name of the source names a block of the destination that is as long or longer.
      Neither the order nor the place of the blocks need agree. */
  ghost predicate Linked(src: seq<Block>, dst: seq<Block>)
  {
    NamesOk(src) && NamesOk(dst) && forall i :: 0 <= i < |src| ==> Twin(dst, src[i]) >= 0
  }

  /** The records as the destination's blocks have them. */
  ghost function There(src: seq<Block>, dst: seq<Block>, stream: seq<Record>): (r: seq<Record>)
    requires Linked(src, dst) && AllSendable(src, stream)
    ensures |r| == |stream|
  {
    seq(|stream|, i requires 0 <= i < |stream| => stream[i].(block := Twin(dst, src[stream[i].block])))
  }

  function ContentOf(kind: Kind): Content
  {
    match kind
    case Zero => Fill(0)
    case Full(data) => Whole(data)
    case Delta(code) => Code(code)
  }

  lemma AppliedIsLoaded(kind: Kind, page: Page)
    ensures Applied(ContentOf(kind), page) == Loaded(kind, page)
  {
    assert Filled(0) == ZeroPage();
  }

  lemma {:induction false} CStringWhole(s: seq<Byte>)
    requires (0 as Byte) !in s
    ensures CString(s) == s
  {
    if s != [] {
      CStringWhole(s[1..]);
    }
  }

  lemma WordFlags(r: Record)
    ensures HeaderOf(Word(r)) == Header(Flag(r.kind), r.page, r.cont)
  {
    var flags := Flag(r.kind) + if r.cont then CONTINUE else 0;
    LowBits(r.page, flags);
    assert Word(r) == r.page * PAGE_SIZE + flags;
    assert flags in {2, 8, 64, 34, 40, 96};
  }

  lemma LowBits(page: nat, flags: nat)
    requires flags < PAGE_SIZE
    ensures (page * PAGE_SIZE + flags) / PAGE_SIZE == page && (page * PAGE_SIZE + flags) % PAGE_SIZE == flags
  {
  }

  lemma FoundByName(src: seq<Block>, dst: seq<Block>, r: Record)
    requires Linked(src, dst) && Fits(src, r)
    ensures FindBlock(dst, src[r.block].id, r.page) == Twin(dst, src[r.block]) >= 0
    ensures dst[Twin(dst, src[r.block])].pages >= src[r.block].pages
  {
    var t := Twin(dst, src[r.block]);
    assert dst[t].id == src[r.block].id && dst[t].pages > r.page;
  }

  /** The bytes lie in the input at `pos`. */
  ghost predicate At(input: seq<Byte>, pos: nat, bytes: seq<Byte>)
  {
    Has(input, pos, |bytes|) && input[pos..pos + |bytes|] == bytes
  }

  lemma Slice(input: seq<Byte>, pos: nat, all: seq<Byte>, i: nat, j: nat)
    requires At(input, pos, all) && i <= j <= |all|
    ensures Has(input, pos, j) && input[pos + i..pos + j] == all[i..j] && At(input, pos + i, all[i..j])
  {
    forall k | 0 <= k < j - i ensures input[pos + i..pos + j][k] == all[i..j][k] {
      assert input[pos + (i + k)] == input[pos..pos + |all|][i + k] == all[i + k];
    }
  }

  lemma HeaderRead(src: seq<Block>, dst: seq<Block>, input: seq<Byte>, pos: nat, r: Record, block: int)
    requires Linked(src, dst) && Fits(src, r) && -1 <= block < |dst|
    requires r.cont ==> block == Twin(dst, src[r.block])
    requires !r.cont ==> At(input, pos, Name(src[r.block]))
    ensures Twin(dst, src[r.block]) >= 0
    ensures HostAt(dst, input, pos, block, r.page, r.cont) ==
            Host(Twin(dst, src[r.block]), pos + if r.cont then 0 else |Name(src[r.block])|)
  {
    FoundByName(src, dst, r);
    assert |src[r.block].id| < 256 && (0 as Byte) !in src[r.block].id;
    hide Linked, Twin, FindBlock, CString;
    if !r.cont {
      var name, id := Name(src[r.block]), src[r.block].id;
      Slice(input, pos, name, 1, |name|);
      assert input[pos] == name[0] && name[1..] == id;
      CStringWhole(id);
    }
  }

  lemma PayloadRead(input: seq<Byte>, pos: nat, kind: Kind, b: nat, page: nat)
    requires kind.Delta? ==> |kind.code| <= PAGE_SIZE
    requires At(input, pos, Payload(kind))
    ensures ContentAt(input, pos, Flag(kind), b, page) == Got(b, page, ContentOf(kind), pos + |Payload(kind)|)
  {
    var pay := Payload(kind);
    if kind.Delta? {
      HalfRoundTrip(|kind.code|);
      assert input[pos] == pay[0];
      Slice(input, pos, pay, 1, 3);
      Slice(input, pos, pay, 3, |pay|);
      assert pay[1..3] == Be(|kind.code|, 2) && pay[3..] == kind.code;
    } else if kind.Zero? {
      assert input[pos] == pay[0];
    }
  }

  /** The loader reads back the record that was sent, for its own block of that name. */
  lemma RecordRead(src: seq<Block>, dst: seq<Block>, input: seq<Byte>, pos: nat, r: Record, block: int)
    requires Linked(src, dst) && Sendable(src, r) && -1 <= block < |dst|
    requires r.cont ==> block == Twin(dst, src[r.block])
    requires At(input, pos, RecordBytes(src, r))
    ensures Twin(dst, src[r.block]) >= 0
    ensures RecordAt(dst, input, pos, block) ==
            Got(Twin(dst, src[r.block]), r.page, ContentOf(r.kind), pos + |RecordBytes(src, r)|)
  {
    hide *;
    SentFits(src, dst, r);
    var at, mid := RecordParts(src, input, pos, r);
    WordRead(src, input, pos, r);
    HeaderRead(src, dst, input, at, r, block);
    var t := Twin(dst, src[r.block]);
    PayloadRead(input, mid, r.kind, t, r.page);
    Assemble(dst, input, pos, block, Flag(r.kind), r.page, r.cont, t, mid);
  }

  lemma SentFits(src: seq<Block>, dst: seq<Block>, r: Record)
    requires Linked(src, dst) && Sendable(src, r)
    ensures Fits(src, r) && r.block < |src| && |src[r.block].id| < 256
    ensures r.kind.Delta? ==> |r.kind.code| <= PAGE_SIZE
  {
  }

  /** Where the name and the payload of a record begin. */
  lemma RecordParts(src: seq<Block>, input: seq<Byte>, pos: nat, r: Record) returns (at: nat, mid: nat)
    requires r.block < |src| && |src[r.block].id| < 256 && At(input, pos, RecordBytes(src, r))
    ensures at == pos + 8 && mid == at + (if r.cont then 0 else |Name(src[r.block])|)
    ensures At(input, pos, Be(Word(r), 8)) && At(input, mid, Payload(r.kind))
    ensures !r.cont ==> At(input, at, Name(src[r.block]))
    ensures mid + |Payload(r.kind)| == pos + |RecordBytes(src, r)|
  {
    var word, pay := Be(Word(r), 8), Payload(r.kind);
    var name := if r.cont then [] else Name(src[r.block]);
    hide Be, Word, Payload, Name, At;
    at, mid := pos + 8, pos + 8 + |name|;
    AtParts(input, pos, word + name, pay);
    AtParts(input, pos, word, name);
  }

  lemma WordRead(src: seq<Block>, input: seq<Byte>, pos: nat, r: Record)
    requires Sendable(src, r) && At(input, pos, Be(Word(r), 8))
    ensures Has(input, pos, 8) && HeaderOf(UnBe(input[pos..pos + 8])) == Header(Flag(r.kind), r.page, r.cont)
    ensures Flag(r.kind) in {COMPRESS, PAGE, XBZRLE}
  {
    hide Be, UnBe, Word, HeaderOf, Sendable;
    WordFits(src, r);
    WordRoundTrip(Word(r));
    WordFlags(r);
  }

  lemma Assemble(dst: seq<Block>, input: seq<Byte>, pos: nat, block: int, flag: nat, page: nat, cont: bool, b: nat,
                 next: nat)
    requires -1 <= block < |dst| && Has(input, pos, 8)
    requires HeaderOf(UnBe(input[pos..pos + 8])) == Header(flag, page, cont)
    requires flag in {COMPRESS, PAGE, XBZRLE} && HostAt(dst, input, pos + 8, block, page, cont) == Host(b, next)
    ensures RecordAt(dst, input, pos, block) == ContentAt(input, next, flag, b, page)
  {
    hide HostAt, ContentAt, HeaderOf, UnBe;
  }

  lemma WordFits(src: seq<Block>, r: Record)
    requires Sendable(src, r)
    ensures Word(r) < WORD_MAX
  {
  }

  /** The continue flag is set only where the record before, or `block`, is for the same
      block. */
  ghost predicate Chained(stream: seq<Record>, block: int)
  {
    forall i :: 0 <= i < |stream| && stream[i].cont ==> stream[i].block == BlockAfter(stream[..i], block)
  }

  function BlockAfter(stream: seq<Record>, block: int): int
  {
    if stream == [] then block else stream[|stream| - 1].block
  }

  lemma {:induction false} BytesPrefix(src: seq<Block>, stream: seq<Record>, k: nat)
    requires NamesOk(src) && AllSendable(src, stream) && k < |stream|
    ensures var head := StreamBytes(src, stream[..k]) + RecordBytes(src, stream[k]);
            |head| <= |StreamBytes(src, stream)| && StreamBytes(src, stream)[..|head|] == head
    decreases |stream|
  {
    hide NamesOk, RecordBytes;
    var init := stream[..|stream| - 1];
    if k < |init| {
      BytesPrefix(src, init, k);
      assert init[..k] == stream[..k];
    }
  }

  /** Where the bytes of the `k`-th record begin. */
  ghost function Reached(src: seq<Block>, stream: seq<Record>, pos: nat, k: nat): nat
    requires NamesOk(src) && AllSendable(src, stream) && k <= |stream|
  {
    pos + |StreamBytes(src, stream[..k])|
  }

  /** The block remembered before the `k`-th record. */
  ghost function Remembered(stream: seq<Record>, block: int, k: nat): int
    requires k <= |stream|
  {
    BlockAfter(stream[..k], block)
  }

  lemma RecordLies(src: seq<Block>, stream: seq<Record>, input: seq<Byte>, pos: nat, k: nat)
    requires NamesOk(src) && AllSendable(src, stream) && k < |stream|
    requires At(input, pos, StreamBytes(src, stream))
    ensures At(input, Reached(src, stream, pos, k), RecordBytes(src, stream[k]))
  {
    hide RecordBytes, StreamBytes;
    BytesPrefix(src, stream, k);
    var head, bytes := StreamBytes(src, stream[..k]), RecordBytes(src, stream[k]);
    var both, all := head + bytes, StreamBytes(src, stream);
    Slice(input, pos, all, |head|, |both|);
    assert all[|head|..|both|] == all[..|both|][|head|..] == bytes;
  }

  lemma ReachedNext(src: seq<Block>, stream: seq<Record>, pos: nat, k: nat)
    requires NamesOk(src) && AllSendable(src, stream) && k < |stream|
    ensures Reached(src, stream, pos, k) + |RecordBytes(src, stream[k])| == Reached(src, stream, pos, k + 1)
  {
    hide RecordBytes, NamesOk, Sendable;
    assert stream[..k + 1][..k] == stream[..k];
  }

  lemma ThereAt(src: seq<Block>, dst: seq<Block>, stream: seq<Record>, k: nat)
    requires Linked(src, dst) && AllSendable(src, stream) && k < |stream|
    ensures NamesOk(src) && Sendable(src, stream[k])
    ensures Twin(dst, src[stream[k].block]) >= 0
    ensures There(src, dst, stream)[k] == stream[k].(block := Twin(dst, src[stream[k].block]))
  {
  }

  /** Loading the first `k` records from `pos` on leaves the loader at the bytes of the
      next, with the block of the last one remembered. */
  lemma {:induction false} LoadsUpto(src: seq<Block>, dst: seq<Block>, fixed: seq<bool>, stream: seq<Record>,
                                     there: seq<Record>, input: seq<Byte>, pos: nat, st: State, mem': seq<Page>, k: nat)
    requires Linked(src, dst) && AllSendable(src, stream) && k <= |stream| && At(input, pos, StreamBytes(src, stream))
    requires there == There(src, dst, stream) && Chained(there, st.block)
    requires StateOk(dst, fixed, st) && Replay(dst, st.mem, there[..k]) == Some(mem')
    ensures StateOk(dst, fixed, st.(block := Remembered(there, st.block, k), mem := mem'))
    ensures LoadFrom(dst, fixed, input, pos, st) ==
            LoadFrom(dst, fixed, input, Reached(src, stream, pos, k),
                     st.(block := Remembered(there, st.block, k), mem := mem'))
    decreases k
  {
    LinkedNames(src, dst);
    hide Linked, NamesOk, Replay, Replays, LoadFrom, There, At, Chained, AllSendable, Reached, Remembered, StateOk;
    if k > 0 {
      var j := k - 1;
      var before := LastReplay(dst, st.mem, there, mem', k);
      LoadsUpto(src, dst, fixed, stream, there, input, pos, st, before, j);
      ChainedAt(there, st.block, j);
      var st1 := st.(block := Remembered(there, st.block, j), mem := before);
      LoadsNext(src, dst, fixed, stream, there, input, pos, st1, mem', j);
    } else {
      NoneYet(src, dst, stream, there, pos, st.block, st.mem);
    }
  }

  lemma ChainedAt(stream: seq<Record>, block: int, k: nat)
    requires Chained(stream, block) && k < |stream|
    ensures stream[k].cont ==> stream[k].block == Remembered(stream, block, k)
    ensures Remembered(stream, block, k + 1) == stream[k].block
  {
  }

  lemma NoneYet(src: seq<Block>, dst: seq<Block>, stream: seq<Record>, there: seq<Record>, pos: nat, block: int,
                mem: seq<Page>)
    requires NamesOk(src) && AllSendable(src, stream)
    ensures Reached(src, stream, pos, 0) == pos && Remembered(there, block, 0) == block
    ensures Replay(dst, mem, there[..0]) == Some(mem)
  {
    assert stream[..0] == [] && there[..0] == [];
  }

  lemma LastReplay(blocks: seq<Block>, mem: seq<Page>, stream: seq<Record>, mem': seq<Page>, k: nat)
    returns (before: seq<Page>)
    requires 0 < k <= |stream| && Replay(blocks, mem, stream[..k]) == Some(mem')
    ensures Replay(blocks, mem, stream[..k - 1]) == Some(before) && Replays(blocks, stream[k - 1], before, mem')
  {
    hide Loaded;
    assert stream[..k][..k - 1] == stream[..k - 1];
    before := Replay(blocks, mem, stream[..k - 1]).value;
  }

  ghost predicate Replays(blocks: seq<Block>, r: Record, mem: seq<Page>, mem': seq<Page>)
  {
    && r.block < |blocks| && blocks[r.block].base + r.page < |mem|
    && var p := blocks[r.block].base + r.page;
       Loaded(r.kind, mem[p]).Some? && mem' == mem[p := Loaded(r.kind, mem[p]).value]
  }

  lemma LoadsNext(src: seq<Block>, dst: seq<Block>, fixed: seq<bool>, stream: seq<Record>, there: seq<Record>,
                  input: seq<Byte>, pos: nat, st: State, mem': seq<Page>, k: nat)
    requires Linked(src, dst) && AllSendable(src, stream) && k < |stream| && At(input, pos, StreamBytes(src, stream))
    requires there == There(src, dst, stream) && (there[k].cont ==> there[k].block == st.block)
    requires StateOk(dst, fixed, st) && Replays(dst, there[k], st.mem, mem')
    ensures StateOk(dst, fixed, st.(block := there[k].block, mem := mem'))
    ensures LoadFrom(dst, fixed, input, Reached(src, stream, pos, k), st) ==
            LoadFrom(dst, fixed, input, Reached(src, stream, pos, k + 1), st.(block := there[k].block, mem := mem'))
  {
    hide LoadFrom, RecordBytes, RecordAt, Replays, BlocksOk, Twin, Linked, NamesOk, At, Reached, There, AllSendable;
    ThereAt(src, dst, stream, k);
    var at := Reached(src, stream, pos, k);
    RecordLies(src, stream, input, pos, k);
    ReachedNext(src, stream, pos, k);
    RecordRead(src, dst, input, at, stream[k], st.block);
    LoadsOne(dst, fixed, input, at, there[k], st, mem', Reached(src, stream, pos, k + 1));
  }

  lemma LinkedNames(src: seq<Block>, dst: seq<Block>)
    requires Linked(src, dst)
    ensures NamesOk(src)
  {
  }

  lemma LoadsOne(dst: seq<Block>, fixed: seq<bool>, input: seq<Byte>, pos: nat, r: Record, st: State, mem': seq<Page>,
                 next: nat)
    requires StateOk(dst, fixed, st)
    requires RecordAt(dst, input, pos, st.block) == Got(r.block, r.page, ContentOf(r.kind), next)
    requires Replays(dst, r, st.mem, mem')
    ensures StateOk(dst, fixed, st.(block := r.block, mem := mem'))
    ensures LoadFrom(dst, fixed, input, pos, st) ==
            LoadFrom(dst, fixed, input, next, st.(block := r.block, mem := mem'))
  {
    hide Loaded, Applied, RecordAt, LoadFrom, BlocksOk;
    var p := dst[r.block].base + r.page;
    AppliedIsLoaded(r.kind, st.mem[p]);
    Unfold(dst, fixed, input, pos, st, r.block, r.page, ContentOf(r.kind), next, p, Loaded(r.kind, st.mem[p]).value);
  }

  lemma Unfold(dst: seq<Block>, fixed: seq<bool>, input: seq<Byte>, pos: nat, st: State,
               b: nat, page: nat, content: Content, next: nat, p: nat, new_: Page)
    requires StateOk(dst, fixed, st)
    requires RecordAt(dst, input, pos, st.block) == Got(b, page, content, next)
    requires p == dst[b].base + page < |st.mem| && Applied(content, st.mem[p]) == Some(new_)
    ensures LoadFrom(dst, fixed, input, pos, st) ==
            LoadFrom(dst, fixed, input, next, st.(block := b, mem := st.mem[p := new_]))
  {
    hide Applied, RecordAt, BlocksOk;
  }

  /** A section that lies in the input at `pos`, loaded where the loader remembers the block
      of the record before, does to the destination what its records say. */
  lemma SectionLoads(src: seq<Block>, dst: seq<Block>, fixed: seq<bool>, stream: seq<Record>, there: seq<Record>,
                     input: seq<Byte>, pos: nat, st: State, mem': seq<Page>)
    requires Linked(src, dst) && AllSendable(src, stream) && At(input, pos, SectionBytes(src, stream))
    requires there == There(src, dst, stream) && Chained(there, st.block)
    requires StateOk(dst, fixed, st) && Replay(dst, st.mem, there) == Some(mem')
    ensures LoadFrom(dst, fixed, input, pos, st) ==
            Done(st.(block := BlockAfter(there, st.block), mem := mem'), pos + |SectionBytes(src, stream)|)
  {
    hide *;
    LinkedNames(src, dst);
    SectionParts(src, stream, input, pos);
    AllReached(src, stream, there, pos, st.block);
    LoadsUpto(src, dst, fixed, stream, there, input, pos, st, mem', |stream|);
    var next := pos + |StreamBytes(src, stream)|;
    AtEnd(dst, fixed, input, next, st.(block := BlockAfter(there, st.block), mem := mem'));
  }

  lemma SectionParts(src: seq<Block>, stream: seq<Record>, input: seq<Byte>, pos: nat)
    requires NamesOk(src) && AllSendable(src, stream) && At(input, pos, SectionBytes(src, stream))
    ensures At(input, pos, StreamBytes(src, stream)) && At(input, pos + |StreamBytes(src, stream)|, Be(EOS, 8))
    ensures |SectionBytes(src, stream)| == |StreamBytes(src, stream)| + 8
  {
    hide At, StreamBytes, Be;
    AtParts(input, pos, StreamBytes(src, stream), Be(EOS, 8));
  }

  lemma AllReached(src: seq<Block>, stream: seq<Record>, there: seq<Record>, pos: nat, block: int)
    requires NamesOk(src) && AllSendable(src, stream)
    ensures Reached(src, stream, pos, |stream|) == pos + |StreamBytes(src, stream)|
    ensures there[..|there|] == there && Remembered(there, block, |there|) == BlockAfter(there, block)
  {
    assert stream[..|stream|] == stream && there[..|there|] == there;
  }

  lemma AtEnd(dst: seq<Block>, fixed: seq<bool>, input: seq<Byte>, pos: nat, st: State)
    requires StateOk(dst, fixed, st) && At(input, pos, Be(EOS, 8))
    ensures LoadFrom(dst, fixed, input, pos, st) == Done(st, pos + 8)
  {
    hide UnBe, Be, BlocksOk, HostAt;
    WordRoundTrip(EOS);
  }

  // ---- What is accepted -------------------------------------------------------------

  function FlagOf(c: Content): nat
  {
    match c
    case Fill(_) => COMPRESS
    case Whole(_) => PAGE
    case Code(_) => XBZRLE
  }

  function PayloadOf(c: Content): seq<Byte>
  {
    match c
    case Fill(ch) => [ch]
    case Whole(data) => data
    case Code(code) => [ENCODING_FLAG_XBZRLE] + Be(|code|, 2) + code
  }

  /** The name of a record, or nothing if it continues. */
  function NameBytes(name: seq<Byte>, cont: bool): seq<Byte>
  {
    if cont then [] else [(|name| % 256) as Byte] + name
  }

  /** From `pos` on the input has a record for page `g.page` of block `g.block` with content
      `g.content`: the word, the name unless it continues the remembered block, and the
      payload.  The name is that of the block, which is the first one long enough. */
  ghost predicate Spelled(blocks: seq<Block>, input: seq<Byte>, pos: nat, block: int, g: Got, name: seq<Byte>,
                          cont: bool)
    requires g.Got?
  {
    var head := NameBytes(name, cont);
    && Has(input, pos, 8)
    && UnBe(input[pos..pos + 8]) == g.page * PAGE_SIZE + FlagOf(g.content) + (if cont then CONTINUE else 0)
    && |name| < 256 && (g.content.Code? ==> |g.content.code| <= PAGE_SIZE)
    && At(input, pos + 8, head) && At(input, pos + 8 + |head|, PayloadOf(g.content))
    && g.next == pos + 8 + |head| + |PayloadOf(g.content)|
    && g.block == if cont then block else FindBlock(blocks, CString(name), g.page)
  }

  /** The loader takes nothing for a record that is not one. */
  lemma RecordSpelled(blocks: seq<Block>, input: seq<Byte>, pos: nat, block: int)
    returns (name: seq<Byte>, cont: bool)
    requires -1 <= block < |blocks| && RecordAt(blocks, input, pos, block).Got?
    ensures Spelled(blocks, input, pos, block, RecordAt(blocks, input, pos, block), name, cont)
  {
    hide *;
    var w, h := RecordIs(blocks, input, pos, block);
    WordIs(UnBe(input[pos..pos + 8]));
    cont := w.cont;
    name := NameSpelled(blocks, input, pos + 8, block, w.page, cont);
    ContentSpelled(input, h.next, w.flag, h.block, w.page);
    SpelledBy(blocks, input, pos, block, RecordAt(blocks, input, pos, block), name, cont);
  }

  lemma SpelledBy(blocks: seq<Block>, input: seq<Byte>, pos: nat, block: int, g: Got, name: seq<Byte>, cont: bool)
    requires g.Got? && Has(input, pos, 8) && |name| < 256 && (g.content.Code? ==> |g.content.code| <= PAGE_SIZE)
    requires UnBe(input[pos..pos + 8]) == g.page * PAGE_SIZE + FlagOf(g.content) + (if cont then CONTINUE else 0)
    requires At(input, pos + 8, NameBytes(name, cont))
    requires At(input, pos + 8 + |NameBytes(name, cont)|, PayloadOf(g.content))
    requires g.next == pos + 8 + |NameBytes(name, cont)| + |PayloadOf(g.content)|
    requires g.block == if cont then block else FindBlock(blocks, CString(name), g.page)
    ensures Spelled(blocks, input, pos, block, g, name, cont)
  {
    hide UnBe, At, PayloadOf, FindBlock, CString;
  }

  lemma RecordIs(blocks: seq<Block>, input: seq<Byte>, pos: nat, block: int) returns (w: Header, h: Host)
    requires -1 <= block < |blocks| && RecordAt(blocks, input, pos, block).Got?
    ensures Has(input, pos, 8) && Has(input, pos + 8, 0) && w.flag in {COMPRESS, PAGE, XBZRLE}
    ensures w == HeaderOf(UnBe(input[pos..pos + 8]))
    ensures h == HostAt(blocks, input, pos + 8, block, w.page, w.cont) && h.Host?
    ensures RecordAt(blocks, input, pos, block) == ContentAt(input, h.next, w.flag, h.block, w.page)
    ensures RecordAt(blocks, input, pos, block).page == w.page && RecordAt(blocks, input, pos, block).block == h.block
  {
    hide UnBe, HostAt, ContentAt, HeaderOf;
    w := HeaderOf(UnBe(input[pos..pos + 8]));
    h := HostAt(blocks, input, pos + 8, block, w.page, w.cont);
  }

  lemma NameSpelled(blocks: seq<Block>, input: seq<Byte>, pos: nat, block: int, page: nat, cont: bool)
    returns (name: seq<Byte>)
    requires -1 <= block < |blocks| && Has(input, pos, 0) && HostAt(blocks, input, pos, block, page, cont).Host?
    ensures var h := HostAt(blocks, input, pos, block, page, cont);
            && |name| < 256 && At(input, pos, NameBytes(name, cont)) && h.next == pos + |NameBytes(name, cont)|
            && h.block == if cont then block else FindBlock(blocks, CString(name), page)
  {
    hide FindBlock, CString;
    var h := HostAt(blocks, input, pos, block, page, cont);
    name := if cont then [] else input[pos + 1..h.next];
    if !cont {
      assert input[pos..h.next] == [input[pos]] + name;
    }
  }

  /** The other words that are taken, and what for; with any further flag a word is refused. */
  lemma OtherWords(blocks: seq<Block>, input: seq<Byte>, pos: nat, block: int)
    requires -1 <= block < |blocks| && Has(input, pos, 8)
    ensures var g, word := RecordAt(blocks, input, pos, block), UnBe(input[pos..pos + 8]);
            && (g.End? <==> word % PAGE_SIZE in {EOS, EOS + CONTINUE})
            && (g.Sizes? <==> word % PAGE_SIZE in {MEM_SIZE, MEM_SIZE + CONTINUE})
            && (g.End? ==> g.next == pos + 8)
            && (g.Sizes? ==> g.next == pos + 8 && g.total == word - word % PAGE_SIZE)
  {
    hide FindBlock, CString, UnBe, HostAt;
    WordIs(UnBe(input[pos..pos + 8]));
  }

  lemma WordIs(word: nat)
    ensures word == HeaderOf(word).page * PAGE_SIZE + HeaderOf(word).flag + if HeaderOf(word).cont then CONTINUE else 0
  {
    var low := word % PAGE_SIZE;
    assert low / CONTINUE % 2 == 1 ==> low >= CONTINUE;
  }

  lemma ContentSpelled(input: seq<Byte>, pos: nat, flag: nat, b: nat, page: nat)
    requires flag in {COMPRESS, PAGE, XBZRLE} && ContentAt(input, pos, flag, b, page).Got?
    ensures var g := ContentAt(input, pos, flag, b, page);
            && FlagOf(g.content) == flag && At(input, pos, PayloadOf(g.content))
            && g.next == pos + |PayloadOf(g.content)| && (g.content.Code? ==> |g.content.code| <= PAGE_SIZE)
  {
    hide Be, UnBe;
    if flag == XBZRLE {
      var g := ContentAt(input, pos, flag, b, page);
      UnBeRoundTrip(input[pos + 1..pos + 3]);
      assert input[pos..g.next] == [input[pos]] + input[pos + 1..pos + 3] + input[pos + 3..g.next];
    }
  }

  // ---- Several sections -------------------------------------------------------------

  function Flat(sections: seq<seq<Record>>): seq<Record>
  {
    if sections == [] then [] else sections[0] + Flat(sections[1..])
  }

  function AllBytes(blocks: seq<Block>, sections: seq<seq<Record>>): seq<Byte>
    requires NamesOk(blocks) && AllSendable(blocks, Flat(sections))
  {
    if sections == [] then []
    else
      FlatSendable(blocks, sections[0], Flat(sections[1..]));
      SectionBytes(blocks, sections[0]) + AllBytes(blocks, sections[1..])
  }

  lemma FlatSendable(blocks: seq<Block>, a: seq<Record>, b: seq<Record>)
    requires AllSendable(blocks, a + b)
    ensures AllSendable(blocks, a) && AllSendable(blocks, b)
  {
    assert forall i :: 0 <= i < |a| ==> a[i] == (a + b)[i];
    assert forall i :: 0 <= i < |b| ==> b[i] == (a + b)[|a| + i];
  }

  /** ram_load, called once for each of `n` sections. */
  function LoadSections(blocks: seq<Block>, fixed: seq<bool>, input: seq<Byte>, pos: nat, st: State, n: nat): Outcome
    requires StateOk(blocks, fixed, st)
    decreases n
  {
    if n == 0 then Done(st, pos)
    else
      var r := LoadFrom(blocks, fixed, input, pos, st);
      if r.Error? then Error else LoadSections(blocks, fixed, input, r.next, r.st, n - 1)
  }

  lemma {:induction false} ReplaySplit(blocks: seq<Block>, mem: seq<Page>, a: seq<Record>, b: seq<Record>)
    ensures Replay(blocks, mem, a).None? ==> Replay(blocks, mem, a + b).None?
    ensures Replay(blocks, mem, a).Some? ==>
              Replay(blocks, mem, a + b) == Replay(blocks, Replay(blocks, mem, a).value, b)
    decreases |b|
  {
    hide Loaded;
    if b == [] {
      assert a + b == a;
    } else {
      var init := b[..|b| - 1];
      ReplaySplit(blocks, mem, a, init);
      assert (a + b)[..|a + b| - 1] == a + init;
    }
  }

  lemma {:induction false} ReplayLength(blocks: seq<Block>, mem: seq<Page>, stream: seq<Record>)
    ensures Replay(blocks, mem, stream).Some? ==> |Replay(blocks, mem, stream).value| == |mem|
    decreases |stream|
  {
    if stream != [] {
      ReplayLength(blocks, mem, stream[..|stream| - 1]);
    }
  }

  lemma ChainedSplit(a: seq<Record>, b: seq<Record>, block: int)
    requires Chained(a + b, block)
    ensures Chained(a, block) && Chained(b, BlockAfter(a, block))
    ensures BlockAfter(a + b, block) == BlockAfter(b, BlockAfter(a, block))
  {
    var all := a + b;
    forall i | 0 <= i < |a| && a[i].cont ensures a[i].block == BlockAfter(a[..i], block) {
      assert all[i] == a[i] && all[..i] == a[..i];
    }
    forall i | 0 <= i < |b| && b[i].cont ensures b[i].block == BlockAfter(b[..i], BlockAfter(a, block)) {
      assert all[|a| + i] == b[i] && all[..|a| + i] == a + b[..i];
    }
  }

  lemma ThereSplit(src: seq<Block>, dst: seq<Block>, a: seq<Record>, b: seq<Record>)
    requires Linked(src, dst) && AllSendable(src, a + b)
    ensures AllSendable(src, a) && AllSendable(src, b)
    ensures There(src, dst, a + b) == There(src, dst, a) + There(src, dst, b)
  {
    FlatSendable(src, a, b);
  }

  /** However the records are cut into sections, loading them all does to the destination
      what the records say. */
  lemma {:induction false} SectionsLoad(src: seq<Block>, dst: seq<Block>, fixed: seq<bool>, sections: seq<seq<Record>>,
                                        there: seq<Record>, input: seq<Byte>, pos: nat, st: State, mem': seq<Page>)
    requires Linked(src, dst) && AllSendable(src, Flat(sections)) && At(input, pos, AllBytes(src, sections))
    requires there == There(src, dst, Flat(sections)) && Chained(there, st.block)
    requires StateOk(dst, fixed, st) && Replay(dst, st.mem, there) == Some(mem')
    ensures LoadSections(dst, fixed, input, pos, st, |sections|) ==
            Done(st.(block := BlockAfter(there, st.block), mem := mem'), pos + |AllBytes(src, sections)|)
    decreases |sections|
  {
    hide Linked, NamesOk, BlocksOk, Replay, LoadFrom, SectionBytes, Chained, There, AllSendable, At, Flat, AllBytes;
    if sections == [] {
      NoSections(src, dst, st.mem);
    } else {
      hide LoadSections, BlockAfter, StateOk;
      var later, st1, next := FirstSection(src, dst, fixed, sections, there, input, pos, st, mem');
      SectionsLoad(src, dst, fixed, sections[1..], later, input, next, st1, mem');
    }
  }

  lemma FirstSection(src: seq<Block>, dst: seq<Block>, fixed: seq<bool>, sections: seq<seq<Record>>, there: seq<Record>,
                     input: seq<Byte>, pos: nat, st: State, mem': seq<Page>)
    returns (later: seq<Record>, st1: State, next: nat)
    requires Linked(src, dst) && AllSendable(src, Flat(sections)) && At(input, pos, AllBytes(src, sections))
    requires there == There(src, dst, Flat(sections)) && Chained(there, st.block) && sections != []
    requires StateOk(dst, fixed, st) && Replay(dst, st.mem, there) == Some(mem')
    ensures AllSendable(src, Flat(sections[1..])) && At(input, next, AllBytes(src, sections[1..]))
    ensures later == There(src, dst, Flat(sections[1..])) && Chained(later, st1.block)
    ensures StateOk(dst, fixed, st1) && Replay(dst, st1.mem, later) == Some(mem')
    ensures st1.used == st.used && BlockAfter(there, st.block) == BlockAfter(later, st1.block)
    ensures pos + |AllBytes(src, sections)| == next + |AllBytes(src, sections[1..])|
    ensures LoadSections(dst, fixed, input, pos, st, |sections|) ==
            LoadSections(dst, fixed, input, next, st1, |sections| - 1)
  {
    hide *;
    LinkedNames(src, dst);
    var here;
    here, later := SectionsSplit(src, dst, sections);
    ChainedSplit(here, later, st.block);
    ReplaySplit(dst, st.mem, here, later);
    var bytes, mid := SectionBytes(src, sections[0]), Replay(dst, st.mem, here).value;
    st1, next := st.(block := BlockAfter(here, st.block), mem := mid), pos + |bytes|;
    AtParts(input, pos, bytes, AllBytes(src, sections[1..]));
    SectionLoads(src, dst, fixed, sections[0], here, input, pos, st, mid);
    OneSection(dst, fixed, input, pos, st, st1, next, |sections|);
  }

  lemma OneSection(blocks: seq<Block>, fixed: seq<bool>, input: seq<Byte>, pos: nat, st: State, st1: State, next: nat,
                   n: nat)
    requires StateOk(blocks, fixed, st) && n > 0 && LoadFrom(blocks, fixed, input, pos, st) == Done(st1, next)
    ensures StateOk(blocks, fixed, st1)
    ensures LoadSections(blocks, fixed, input, pos, st, n) == LoadSections(blocks, fixed, input, next, st1, n - 1)
  {
    hide LoadFrom, BlocksOk;
  }

  lemma NoSections(src: seq<Block>, dst: seq<Block>, mem: seq<Page>)
    requires Linked(src, dst)
    ensures Flat([]) == [] && AllSendable(src, []) && There(src, dst, []) == [] && AllBytes(src, []) == []
    ensures Replay(dst, mem, []) == Some(mem)
  {
    assert There(src, dst, []) == [];
  }

  lemma SectionsSplit(src: seq<Block>, dst: seq<Block>, sections: seq<seq<Record>>)
    returns (here: seq<Record>, later: seq<Record>)
    requires Linked(src, dst) && sections != [] && AllSendable(src, Flat(sections))
    ensures AllSendable(src, sections[0]) && AllSendable(src, Flat(sections[1..]))
    ensures here == There(src, dst, sections[0]) && later == There(src, dst, Flat(sections[1..]))
    ensures There(src, dst, Flat(sections)) == here + later
    ensures AllBytes(src, sections) == SectionBytes(src, sections[0]) + AllBytes(src, sections[1..])
  {
    hide SectionBytes, There;
    ThereSplit(src, dst, sections[0], Flat(sections[1..]));
    here, later := There(src, dst, sections[0]), There(src, dst, Flat(sections[1..]));
  }

  lemma AtParts(input: seq<Byte>, pos: nat, a: seq<Byte>, b: seq<Byte>)
    requires At(input, pos, a + b)
    ensures At(input, pos, a) && At(input, pos + |a|, b)
  {
    Slice(input, pos, a + b, 0, |a|);
    Slice(input, pos, a + b, |a|, |a + b|);
    assert (a + b)[0..|a|] == a && (a + b)[|a|..|a + b|] == b;
  }

  // ---- What the destination's memory becomes ----------------------------------------

  /** Page `off` of block `b` of the source, at the destination. */
  ghost function Place(src: seq<Block>, dst: seq<Block>, b: nat, off: nat): (q: nat)
    requires Linked(src, dst) && b < |src|
  {
    dst[Twin(dst, src[b])].base + off
  }

  /** Each page of the source's blocks is in the destination's block of that name. */
  ghost predicate Mirrors(src: seq<Block>, dst: seq<Block>, there: seq<Page>, mem: seq<Page>)
    requires Linked(src, dst) && BlocksOk(src, |there|) && BlocksOk(dst, |mem|)
  {
    forall b: nat, off: nat :: b < |src| && off < src[b].pages ==>
      mem[Place(src, dst, b, off)] == there[src[b].base + off]
  }

  /** Nothing else changed. */
  ghost predicate Kept(src: seq<Block>, dst: seq<Block>, mem: seq<Page>, mem': seq<Page>)
    requires Linked(src, dst)
  {
    && |mem| == |mem'|
    && forall q :: 0 <= q < |mem| && mem'[q] != mem[q] ==>
         exists b: nat, off: nat :: b < |src| && off < src[b].pages && q == Place(src, dst, b, off)
  }

  /** Pages of the source have places of their own. */
  lemma PlacesApart(src: seq<Block>, dst: seq<Block>, n: nat, b: nat, off: nat, c: nat, o: nat)
    requires Linked(src, dst) && BlocksOk(dst, n)
    requires b < |src| && off < src[b].pages && c < |src| && o < src[c].pages
    ensures Place(src, dst, b, off) < n
    ensures Place(src, dst, b, off) == Place(src, dst, c, o) ==> b == c && off == o
  {
    var t, u := Twin(dst, src[b]), Twin(dst, src[c]);
    assert dst[t].id == src[b].id && dst[t].pages >= src[b].pages;
    assert dst[u].id == src[c].id && dst[u].pages >= src[c].pages;
    if Place(src, dst, b, off) == Place(src, dst, c, o) {
      assert In(dst[t], dst[t].base + off) && In(dst[u], dst[u].base + o);
    }
  }

  /** One record keeps the two memories alike. */
  lemma MirrorsMore(src: seq<Block>, dst: seq<Block>, r: Record, there: seq<Page>, there': seq<Page>,
                    mem: seq<Page>) returns (mem': seq<Page>)
    requires Linked(src, dst) && BlocksOk(src, |there|) && BlocksOk(dst, |mem|) && Fits(src, r)
    requires Mirrors(src, dst, there, mem) && Replays(src, r, there, there')
    ensures Replays(dst, r.(block := Twin(dst, src[r.block])), mem, mem') && |mem'| == |mem| && |there'| == |there|
    ensures Mirrors(src, dst, there', mem')
    ensures mem' == mem[Place(src, dst, r.block, r.page) := mem'[Place(src, dst, r.block, r.page)]]
  {
    hide Loaded, Linked, BlocksOk;
    var p, q := src[r.block].base + r.page, Place(src, dst, r.block, r.page);
    PlacesApart(src, dst, |mem|, r.block, r.page, r.block, r.page);
    assert mem[q] == there[p];
    mem' := mem[q := Loaded(r.kind, mem[q]).value];
    forall b: nat, off: nat | b < |src| && off < src[b].pages
      ensures Place(src, dst, b, off) < |mem| && src[b].base + off < |there|
      ensures mem'[Place(src, dst, b, off)] == there'[src[b].base + off]
    {
      PlacesApart(src, dst, |mem|, b, off, r.block, r.page);
      PagesApart(src, |there|, b, off, r.block, r.page);
      assert mem[Place(src, dst, b, off)] == there[src[b].base + off];
    }
  }

  lemma PagesApart(src: seq<Block>, n: nat, b: nat, off: nat, c: nat, o: nat)
    requires BlocksOk(src, n) && b < |src| && off < src[b].pages && c < |src| && o < src[c].pages
    ensures src[b].base + off < n
    ensures src[b].base + off == src[c].base + o ==> b == c && off == o
  {
    if src[b].base + off == src[c].base + o {
      assert In(src[b], src[b].base + off) && In(src[c], src[b].base + off);
    }
  }

  /** The records, replayed on the destination's own blocks, give each named block the
      pages that they give it on the source's, and change nothing else. */
  lemma {:induction false} ReplayMirrors(src: seq<Block>, dst: seq<Block>, stream: seq<Record>, there: seq<Page>,
                                         there': seq<Page>, mem: seq<Page>) returns (mem': seq<Page>)
    requires Linked(src, dst) && BlocksOk(src, |there|) && BlocksOk(dst, |mem|) && AllSendable(src, stream)
    requires Mirrors(src, dst, there, mem) && Replay(src, there, stream) == Some(there')
    ensures |there'| == |there| && Replay(dst, mem, There(src, dst, stream)) == Some(mem')
    ensures Kept(src, dst, mem, mem') && Mirrors(src, dst, there', mem')
    decreases |stream|
  {
    hide Linked, BlocksOk, Replay, Mirrors, Loaded;
    if stream == [] {
      mem' := mem;
      NoSections(src, dst, mem);
      NoRecords(src, there);
    } else {
      var n := |stream| - 1;
      var init, last := stream[..n], stream[n];
      assert stream == stream[..n + 1];
      var there1 := LastReplay(src, there, stream, there', n + 1);
      var mem1 := ReplayMirrors(src, dst, init, there, there1, mem);
      mem' := MirrorsMore(src, dst, last, there1, there', mem1);
      assert stream == init + [last];
      ThereSplit(src, dst, init, [last]);
      assert There(src, dst, [last]) == [There(src, dst, [last])[0]];
      OneMore(dst, mem, There(src, dst, init), There(src, dst, [last])[0], mem1, mem');
    }
  }

  lemma NoRecords(blocks: seq<Block>, mem: seq<Page>)
    ensures Replay(blocks, mem, []) == Some(mem)
  {
  }

  lemma OneMore(blocks: seq<Block>, mem: seq<Page>, stream: seq<Record>, r: Record, mem1: seq<Page>, mem': seq<Page>)
    requires Replay(blocks, mem, stream) == Some(mem1) && Replays(blocks, r, mem1, mem')
    ensures Replay(blocks, mem, stream + [r]) == Some(mem')
  {
    hide Loaded;
    ReplayMore(blocks, mem, stream, r, mem1, mem'[blocks[r.block].base + r.page]);
  }

  /** What a source has sent, cut into sections anywhere, loads at the destination: each
      block of the source arrives in the block of its name, nothing else changes, and the
      loader remembers the block that the source last sent. */
  lemma Arrives(src: seq<Block>, dst: seq<Block>, fixed: seq<bool>, sections: seq<seq<Record>>, sent: int,
                there: seq<Page>, there': seq<Page>, input: seq<Byte>, pos: nat, st: State)
    requires Linked(src, dst) && BlocksOk(src, |there|) && |st.mem| * PAGE_SIZE <= WORD_MAX
    requires ContOk(src, Flat(sections), sent) && Replay(src, there, Flat(sections)) == Some(there')
    requires StateOk(dst, fixed, st) && st.block == -1 && Mirrors(src, dst, there, st.mem)
    requires AllSendable(src, Flat(sections)) ==> At(input, pos, AllBytes(src, sections))
    ensures AllSendable(src, Flat(sections)) && |there'| == |there| && -1 <= sent < |src|
    ensures var r := LoadSections(dst, fixed, input, pos, st, |sections|);
            && r.Done? && |r.st.mem| == |st.mem| && r.st.used == st.used
            && Mirrors(src, dst, there', r.st.mem) && Kept(src, dst, st.mem, r.st.mem)
            && r.st.block == if sent == -1 then -1 else Twin(dst, src[sent])
  {
    hide Linked, Replay, LoadSections, ContOk, Chained, AllSendable, Flat, BlocksOk, Mirrors, Kept, AllBytes, At;
    SentIsSendable(src, dst, Flat(sections), sent, |st.mem|);
    SentIsChained(src, dst, Flat(sections), sent);
    LinkedNames(src, dst);
    var mem' := ReplayMirrors(src, dst, Flat(sections), there, there', st.mem);
    ReplayLength(dst, st.mem, There(src, dst, Flat(sections)));
    SectionsLoad(src, dst, fixed, sections, There(src, dst, Flat(sections)), input, pos, st, mem');
  }

  lemma SentIsSendable(src: seq<Block>, dst: seq<Block>, stream: seq<Record>, sent: int, n: nat)
    requires Linked(src, dst) && BlocksOk(dst, n) && n * PAGE_SIZE <= WORD_MAX && ContOk(src, stream, sent)
    ensures AllSendable(src, stream)
  {
    hide Linked, Twin;
    forall i | 0 <= i < |stream| ensures Sendable(src, stream[i]) {
      FoundByName(src, dst, stream[i]);
      var t := Twin(dst, src[stream[i].block]);
      assert dst[t].base + dst[t].pages <= n;
    }
  }

  lemma SentIsChained(src: seq<Block>, dst: seq<Block>, stream: seq<Record>, sent: int)
    requires Linked(src, dst) && AllSendable(src, stream) && ContOk(src, stream, sent)
    ensures -1 <= sent < |src| && Chained(There(src, dst, stream), -1)
    ensures BlockAfter(There(src, dst, stream), -1) == if sent == -1 then -1 else Twin(dst, src[sent])
  {
    hide Twin;
    var there := There(src, dst, stream);
    forall i | 0 <= i < |there| && there[i].cont ensures there[i].block == BlockAfter(there[..i], -1) {
      assert stream[i - 1].block == stream[i].block;
    }
  }
}
