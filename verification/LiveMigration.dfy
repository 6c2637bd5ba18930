/** A live migration from end to end: the source runs, its records go out as bytes cut into
    sections after the one with the lengths, and the destination loads them into its own
    blocks (qemu/arch_init.c:617-751, 840-1033, 1035-1234). */
module LiveMigration {
  import opened Bytes
  import opened Words
  import opened MigrationBitmap
  import opened RamMigration
  import opened BulkStage
  import opened MigrationRun
  import opened RamStream
  import opened RamSetup

  /** A stream cut into sections of these lengths, and one of what is left. */
  function Cut(stream: seq<Record>, lengths: seq<nat>): (sections: seq<seq<Record>>)
    ensures Flat(sections) == stream
    decreases |lengths|
  {
    if lengths == [] || lengths[0] > |stream| then
      assert [stream][1..] == [];
      [stream]
    else
      var first, more := stream[..lengths[0]], Cut(stream[lengths[0]..], lengths[1..]);
      assert ([first] + more)[1..] == more;
      [first] + more
  }

  /** The destination's memory as the source's blocks see it. */
  ghost function View(src: seq<Block>, dst: seq<Block>, mem: seq<Page>, n: nat): (r: seq<Page>)
    requires Linked(src, dst) && BlocksOk(src, n) && BlocksOk(dst, |mem|)
    ensures |r| == n && Mirrors(src, dst, r, mem)
  {
    var r := seq(n, p requires 0 <= p < n => PageAt(src, dst, mem, p));
    ViewMirrors(src, dst, mem, n, r);
    r
  }

  ghost function PageAt(src: seq<Block>, dst: seq<Block>, mem: seq<Page>, p: nat): Page
    requires Linked(src, dst) && BlocksOk(dst, |mem|)
  {
    if Used(src, p) then
      var b :| 0 <= b < |src| && In(src[b], p);
      PlacesApart(src, dst, |mem|, b, p - src[b].base, b, p - src[b].base);
      mem[Place(src, dst, b, p - src[b].base)]
    else ZeroPage()
  }

  lemma ViewMirrors(src: seq<Block>, dst: seq<Block>, mem: seq<Page>, n: nat, r: seq<Page>)
    requires Linked(src, dst) && BlocksOk(src, n) && BlocksOk(dst, |mem|)
    requires |r| == n && forall p :: 0 <= p < n ==> r[p] == PageAt(src, dst, mem, p)
    ensures Mirrors(src, dst, r, mem)
  {
    hide Linked;
    forall b: nat, off: nat | b < |src| && off < src[b].pages
      ensures Place(src, dst, b, off) < |mem| && src[b].base + off < n
      ensures mem[Place(src, dst, b, off)] == r[src[b].base + off]
    {
      PlacesApart(src, dst, |mem|, b, off, b, off);
      assert In(src[b], src[b].base + off);
    }
  }

  /** Every page of the source's blocks but the lost one is in the block of that name. */
  ghost predicate Arrived(src: seq<Block>, dst: seq<Block>, ram: seq<Page>, mem: seq<Page>, lost: int)
    requires Linked(src, dst) && BlocksOk(src, |ram|) && BlocksOk(dst, |mem|)
  {
    forall b: nat, off: nat :: b < |src| && off < src[b].pages && src[b].base + off != lost ==>
      mem[Place(src, dst, b, off)] == ram[src[b].base + off]
  }

  lemma SameArrives(src: seq<Block>, dst: seq<Block>, ram: seq<Page>, there: seq<Page>, mem: seq<Page>, lost: int)
    requires Linked(src, dst) && BlocksOk(src, |ram|) && |there| == |ram| && BlocksOk(dst, |mem|)
    requires Same(src, ram, there, lost) && Mirrors(src, dst, there, mem)
    ensures Arrived(src, dst, ram, mem, lost)
  {
    hide Linked;
    forall b: nat, off: nat | b < |src| && off < src[b].pages && src[b].base + off != lost
      ensures Place(src, dst, b, off) < |mem| && src[b].base + off < |ram|
      ensures mem[Place(src, dst, b, off)] == ram[src[b].base + off]
    {
      PlacesApart(src, dst, |mem|, b, off, b, off);
      assert In(src[b], src[b].base + off);
    }
  }

  /** The destination's blocks that the source named have the source's lengths in use, and
      the others theirs. */
  ghost predicate Sized(src: seq<Block>, dst: seq<Block>, used: seq<nat>, used': seq<nat>)
    requires Linked(src, dst)
  {
    && |used| == |used'| == |dst|
    && (forall i :: 0 <= i < |src| ==> used'[Twin(dst, src[i])] == src[i].pages * PAGE_SIZE)
    && (forall t :: 0 <= t < |dst| && used'[t] != used[t] ==> exists i :: 0 <= i < |src| && Twin(dst, src[i]) == t)
  }

  lemma SizedAfter(src: seq<Block>, dst: seq<Block>, used: seq<nat>)
    requires Linked(src, dst) && |dst| == |used|
    ensures Sized(src, dst, used, UsedFrom(src, dst, used, 0))
  {
    hide Linked, Twin, UsedFrom;
    UsedFromIs(src, dst, used, 0);
  }

  /** The section of the lengths, then those of the records. */
  function Stream(src: seq<Block>, sections: seq<seq<Record>>): seq<Byte>
    requires NamesOk(src) && AllSendable(src, Flat(sections))
  {
    SetupBytes(src) + AllBytes(src, sections)
  }

  /** Loading succeeded, and did to memory and lengths what it should. */
  ghost predicate AllLoaded(src: seq<Block>, dst: seq<Block>, there: seq<Page>, st: State, r: Outcome)
    requires Linked(src, dst)
  {
    && r.Done? && |r.st.mem| == |st.mem| && BlocksOk(src, |there|) && BlocksOk(dst, |st.mem|)
    && Mirrors(src, dst, there, r.st.mem) && Kept(src, dst, st.mem, r.st.mem) && Sized(src, dst, st.used, r.st.used)
  }

  /** The whole stream loads. */
  lemma StreamLoads(src: seq<Block>, dst: seq<Block>, fixed: seq<bool>, sections: seq<seq<Record>>, sent: int,
                    there: seq<Page>, there': seq<Page>, st: State)
    requires Linked(src, dst) && BlocksOk(src, |there|) && |there| * PAGE_SIZE < WORD_MAX
    requires ContOk(src, Flat(sections), sent) && Replay(src, there, Flat(sections)) == Some(there')
    requires StateOk(dst, fixed, st) && st.block == -1 && |st.mem| * PAGE_SIZE <= WORD_MAX
    requires Mirrors(src, dst, there, st.mem) && Accepts(src, dst, fixed, st.used)
    ensures NamesOk(src) && AllSendable(src, Flat(sections)) && |there'| == |there|
    ensures AllLoaded(src, dst, there', st, LoadSections(dst, fixed, Stream(src, sections), 0, st, 1 + |sections|))
  {
    hide Sized, StateOk, Linked, NamesOk, Mirrors, Kept, Replay, ContOk, AllSendable, Accepts, AllBytes, Flat, BlocksOk,
         LoadSections, Stream, At, Twin;
    StateShape(dst, fixed, st);
    SentIsSendable(src, dst, Flat(sections), sent, |st.mem|);
    var st1, next := SetupFirst(src, dst, fixed, sections, |there|, st);
    Arrives(src, dst, fixed, sections, sent, there, there', Stream(src, sections), next, st1);
  }

  lemma StateShape(dst: seq<Block>, fixed: seq<bool>, st: State)
    requires StateOk(dst, fixed, st)
    ensures BlocksOk(dst, |st.mem|) && |dst| == |fixed| == |st.used|
  {
  }

  lemma SetupFirst(src: seq<Block>, dst: seq<Block>, fixed: seq<bool>, sections: seq<seq<Record>>, n: nat, st: State)
    returns (st1: State, next: nat)
    requires Linked(src, dst) && BlocksOk(src, n) && n * PAGE_SIZE < WORD_MAX && AllSendable(src, Flat(sections))
    requires StateOk(dst, fixed, st) && Accepts(src, dst, fixed, st.used)
    ensures NamesOk(src) && StateOk(dst, fixed, st1) && st1 == st.(used := st1.used)
    ensures Sized(src, dst, st.used, st1.used)
    ensures At(Stream(src, sections), next, AllBytes(src, sections))
    ensures LoadSections(dst, fixed, Stream(src, sections), 0, st, 1 + |sections|) ==
            LoadSections(dst, fixed, Stream(src, sections), next, st1, |sections|)
  {
    hide Sized, StateOk, Linked, NamesOk, AllSendable, Accepts, SetupBytes, AllBytes, Flat, BlocksOk, LoadFrom,
         LoadSections, UsedFrom, TotalPages, Stream, At;
    LinkedNames(src, dst);
    StateShape(dst, fixed, st);
    TotalFits(src, n);
    SizedAfter(src, dst, st.used);
    StreamParts(src, sections);
    var input := Stream(src, sections);
    SetupLoads(src, dst, fixed, input, 0, st);
    st1, next := st.(used := UsedFrom(src, dst, st.used, 0)), |SetupBytes(src)|;
    OneSection(dst, fixed, input, 0, st, st1, next, 1 + |sections|);
  }

  lemma StreamParts(src: seq<Block>, sections: seq<seq<Record>>)
    requires NamesOk(src) && AllSendable(src, Flat(sections))
    ensures At(Stream(src, sections), 0, SetupBytes(src))
    ensures At(Stream(src, sections), |SetupBytes(src)|, AllBytes(src, sections))
  {
    hide NamesOk, AllSendable, SetupBytes, AllBytes, Flat;
    var input := Stream(src, sections);
    assert input[0..|input|] == input;
    AtParts(input, 0, SetupBytes(src), AllBytes(src, sections));
  }

  /** Whatever the guest wrote meanwhile and however the stream was cut, loading succeeds, and
      then the destination's blocks hold the guest's memory as it was when the guest stopped,
      but for the page that the bulk stage lost, if any; the rest of the destination's memory
      is as before. */
  method MigrateAndLoad(src: seq<Block>, ramPages: nat, log: seq<bool>, ram0: seq<Page>, xbzrle: bool, cachePages: nat,
                        events: seq<Event>, lengths: seq<nat>,
                        dst: seq<Block>, fixed: seq<bool>, used0: seq<nat>, mem0: seq<Page>)
    returns (ok: bool, used: seq<nat>, mem: seq<Page>)
    requires |log| % BITS_PER_LONG == 0 && ramPages <= |log| == |ram0| && BlocksOk(src, ramPages) && 0 < |src|
    requires cachePages > 0 && |ram0| * PAGE_SIZE < WORD_MAX && forall e :: e in events ==> Possible(e, src, |ram0|)
    requires |dst| == |fixed| == |used0| && BlocksOk(dst, |mem0|) && |mem0| * PAGE_SIZE <= WORD_MAX
    requires Linked(src, dst) && Accepts(src, dst, fixed, used0)
    ensures ok && |mem| == |mem0| && BlocksOk(src, |ram0|)
    ensures Arrived(src, dst, Written(ram0, events), mem, LostBy(src, |ram0|, events + [Sync, Save]))
    ensures Kept(src, dst, mem0, mem) && Sized(src, dst, used0, used)
  {
    hide Linked, Mirrors, Kept, Replay, ContOk, LostBy, Same, AllSendable, LoadSections, Possible, Stream, Flat,
         Arrived,
         Accepts, Sized, NamesOk;
    assert BlocksOk(src, |ram0|);
    hide BlocksOk;
    ghost var there := View(src, dst, mem0, |ram0|);
    var s := Migrate(src, ramPages, log, ram0, there, xbzrle, cachePages, events);
    var sections := Cut(s.stream, lengths);
    StreamLoads(src, dst, fixed, sections, s.lastSent, there, s.dest, State(-1, used0, mem0));
    var loader := new Loader(dst, fixed, used0, Stream(src, sections), mem0);
    ok := loader.LoadAll(1 + |sections|);
    used, mem := loader.used, loader.mem;
    SameArrives(src, dst, Written(ram0, events), s.dest, mem, s.lost);
  }
}
