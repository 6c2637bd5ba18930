/** The radix tree behind an address space: entries, nodes and what a walk finds
    (qemu/exec.c:101-118, 167-234). */
module PhysPageTree {
  import opened PageKeys

  /** `skip == 0` marks a leaf, whose `ptr` is a section number; otherwise `ptr`
      is a node number and `skip` the number of levels to descend. */
  datatype Entry = Entry(skip: nat, ptr: nat)

  const PHYS_MAP_NODE_NIL: nat := 0x3FFFFFF
  const PHYS_SECTION_UNASSIGNED: nat := 0

  const NilEntry := Entry(1, PHYS_MAP_NODE_NIL)
  const UnassignedLeaf := Entry(0, PHYS_SECTION_UNASSIGNED)

  type Node = n: seq<Entry> | |n| == P_L2_SIZE witness seq(P_L2_SIZE, _ => NilEntry)

  /** Where a node belongs: it serves the pages with `Key(page, height) == pre`,
      and its slot `i` those with `Key(page, height - 1) == pre * P_L2_SIZE + i`. */
  datatype Place = Place(height: nat, pre: nat)

  ghost predicate Inside(l: Place, height: nat, pre: nat)
  {
    l.height <= height && Key(l.pre, height - l.height) == pre
  }

  ghost predicate Serves(l: Place, height: nat, page: nat)
  {
    l.height <= height && l.pre == Key(page, l.height)
  }

  /** Shape of an entry at `height` in a tree that has not been compacted. */
  ghost predicate EntryShape(e: Entry, place: seq<Place>, height: nat, pre: nat)
  {
    if e.skip == 0 then
      e.ptr != PHYS_MAP_NODE_NIL && (height > 0 ==> e.ptr != PHYS_SECTION_UNASSIGNED)
    else
      && e.skip == 1
      && height > 0
      && (e.ptr != PHYS_MAP_NODE_NIL ==> e.ptr < |place| && place[e.ptr] == Place(height, pre))
  }

  ghost predicate NodeShape(n: Node, place: seq<Place>, l: Place)
  {
    && l.height > 0
    && forall i :: 0 <= i < P_L2_SIZE ==> EntryShape(n[i], place, l.height - 1, l.pre * P_L2_SIZE + i)
  }

  ghost predicate TreeShape(nodes: seq<Node>, place: seq<Place>)
  {
    && |nodes| == |place| <= PHYS_MAP_NODE_NIL
    && forall k :: 0 <= k < |nodes| ==> NodeShape(nodes[k], place, place[k])
  }

  /** The section number a plain level-by-level walk finds for `page`. */
  function Lookup(nodes: seq<Node>, e: Entry, height: nat, page: nat): nat
    decreases height
  {
    if e.skip == 0 then e.ptr
    else if height == 0 || e.ptr == PHYS_MAP_NODE_NIL || e.ptr >= |nodes| then PHYS_SECTION_UNASSIGNED
    else Lookup(nodes, nodes[e.ptr][Slot(page, height - 1)], height - 1, page)
  }

  /** A walk reads only nodes that serve the page it looks for. */
  lemma {:induction false} LookupFrame(nodes: seq<Node>, nodes': seq<Node>, place: seq<Place>,
                                       e: Entry, height: nat, page: nat)
    requires TreeShape(nodes, place) && |nodes| <= |nodes'|
    requires EntryShape(e, place, height, Key(page, height))
    requires forall k :: 0 <= k < |nodes| && Serves(place[k], height, page) ==> nodes'[k] == nodes[k]
    ensures Lookup(nodes', e, height, page) == Lookup(nodes, e, height, page)
    decreases height
  {
    if e.skip != 0 && e.ptr != PHYS_MAP_NODE_NIL {
      KeyParent(page, height - 1);
      assert NodeShape(nodes[e.ptr], place, place[e.ptr]);
      LookupFrame(nodes, nodes', place, nodes[e.ptr][Slot(page, height - 1)], height - 1, page);
    }
  }

  /** Shapes survive the addition of places. */
  lemma ShapeExtends(nodes: seq<Node>, place: seq<Place>, place': seq<Place>)
    requires TreeShape(nodes, place) && place <= place'
    ensures forall k :: 0 <= k < |nodes| ==> NodeShape(nodes[k], place', place'[k])
  {
    forall k | 0 <= k < |nodes|
      ensures NodeShape(nodes[k], place', place'[k])
    {
      assert NodeShape(nodes[k], place, place[k]);
    }
  }

  /** Replacing one slot keeps the shape. */
  lemma ShapeUpdate(nodes: seq<Node>, place: seq<Place>, k: nat, i: nat, e: Entry)
    requires TreeShape(nodes, place) && k < |nodes| && i < P_L2_SIZE
    requires place[k].height > 0
    requires EntryShape(e, place, place[k].height - 1, place[k].pre * P_L2_SIZE + i)
    ensures TreeShape(nodes[k := nodes[k][i := e]], place)
  {
    assert NodeShape(nodes[k], place, place[k]);
  }

  lemma ServesInside(l: Place, height: nat, page: nat)
    requires Serves(l, height, page)
    ensures Inside(l, height, Key(page, height))
  {
    KeyCompose(page, l.height, height - l.height);
  }

  /** No page of `[lo, hi)` in the subtree (`height`, `pre`) has a section. */
  ghost predicate AllUnassigned(nodes: seq<Node>, e: Entry, height: nat, pre: nat, lo: nat, hi: nat)
  {
    forall p: nat :: lo <= p < hi && Key(p, height) == pre ==> Lookup(nodes, e, height, p) == PHYS_SECTION_UNASSIGNED
  }

  /** Within the subtree (`height`, `pre`), the pages of `[lo, hi)` now have section
      `leaf` and every other page has the section it had. */
  ghost predicate Rewritten(nodes: seq<Node>, e: Entry, nodes': seq<Node>, e': Entry,
                            height: nat, pre: nat, lo: nat, hi: nat, leaf: nat)
  {
    forall p: nat :: Key(p, height) == pre ==>
      Lookup(nodes', e', height, p) == if lo <= p < hi then leaf else Lookup(nodes, e, height, p)
  }

  ghost predicate SameOutside(nodes: seq<Node>, nodes': seq<Node>, place: seq<Place>, height: nat, pre: nat)
  {
    && |nodes| == |place| <= |nodes'|
    && forall n :: 0 <= n < |nodes| && !Inside(place[n], height, pre) ==> nodes'[n] == nodes[n]
  }

  /** Rewriting what hangs below slot `i` of node `k` changes the walk exactly for
      the pages of that slot. */
  lemma SlotRewritten(nodes: seq<Node>, mid: seq<Node>, place: seq<Place>, place': seq<Place>,
                      k: nat, i: nat, e: Entry, lo: nat, hi: nat, leaf: nat)
    requires TreeShape(nodes, place) && TreeShape(mid, place') && place <= place'
    requires k < |nodes| && place[k].height > 0 && i < P_L2_SIZE && mid[k] == nodes[k]
    requires EntryShape(e, place', place[k].height - 1, place[k].pre * P_L2_SIZE + i)
    requires SameOutside(nodes, mid, place, place[k].height - 1, place[k].pre * P_L2_SIZE + i)
    requires Rewritten(nodes, nodes[k][i], mid, e, place[k].height - 1, place[k].pre * P_L2_SIZE + i, lo, hi, leaf)
    requires WithinKey(lo, hi, place[k].height - 1, place[k].pre * P_L2_SIZE + i)
    ensures Rewritten(nodes, Entry(1, k), mid[k := mid[k][i := e]], Entry(1, k),
                      place[k].height, place[k].pre, lo, hi, leaf)
  {
    var h := place[k].height - 1;
    var after := mid[k := mid[k][i := e]];
    forall page: nat | Key(page, place[k].height) == place[k].pre
      ensures Lookup(after, Entry(1, k), place[k].height, page) ==
              if lo <= page < hi then leaf else Lookup(nodes, Entry(1, k), place[k].height, page)
    {
      KeyParent(page, h);
      var j := Slot(page, h);
      if j == i {
        LookupFrame(mid, after, place', e, h, page);
      } else {
        assert NodeShape(nodes[k], place, place[k]);
        forall n | 0 <= n < |nodes| && Serves(place[n], h, page)
          ensures after[n] == nodes[n]
        {
          ServesInside(place[n], h, page);
        }
        LookupFrame(nodes, after, place, nodes[k][j], h, page);
      }
    }
  }

  lemma RewrittenTwice(a: seq<Node>, ea: Entry, b: seq<Node>, eb: Entry, c: seq<Node>, ec: Entry,
                       height: nat, pre: nat, lo: nat, mid: nat, hi: nat, leaf: nat)
    requires lo <= mid <= hi
    requires Rewritten(a, ea, b, eb, height, pre, lo, mid, leaf)
    requires Rewritten(b, eb, c, ec, height, pre, mid, hi, leaf)
    ensures Rewritten(a, ea, c, ec, height, pre, lo, hi, leaf)
  {
  }

  /** What is still unassigned below node `k` is unassigned below its slot `i`. */
  lemma SlotUnassigned(nodes: seq<Node>, place: seq<Place>, k: nat, i: nat, lo: nat, hi: nat)
    requires TreeShape(nodes, place) && k < |nodes| && place[k].height > 0 && i < P_L2_SIZE
    requires AllUnassigned(nodes, Entry(1, k), place[k].height, place[k].pre, lo, hi)
    ensures AllUnassigned(nodes, nodes[k][i], place[k].height - 1, place[k].pre * P_L2_SIZE + i, lo, hi)
  {
    var h := place[k].height - 1;
    forall p: nat | lo <= p < hi && Key(p, h) == place[k].pre * P_L2_SIZE + i
      ensures Lookup(nodes, nodes[k][i], h, p) == PHYS_SECTION_UNASSIGNED
    {
      KeyParent(p, h);
      assert Slot(p, h) == i;
      assert Lookup(nodes, Entry(1, k), place[k].height, p) == PHYS_SECTION_UNASSIGNED;
    }
  }

  /** What is left of a range after a part was rewritten is still unassigned. */
  lemma RestUnassigned(a: seq<Node>, ea: Entry, b: seq<Node>, eb: Entry,
                       height: nat, pre: nat, lo: nat, mid: nat, hi: nat, leaf: nat)
    requires lo <= mid
    requires Rewritten(a, ea, b, eb, height, pre, lo, mid, leaf)
    requires AllUnassigned(a, ea, height, pre, lo, hi)
    ensures AllUnassigned(b, eb, height, pre, mid, hi)
  {
  }

  /** A new empty node looks like the empty entry it replaces. */
  lemma FreshNode(nodes: seq<Node>, nodes': seq<Node>, height: nat, pre: nat, lo: nat, leaf: nat)
    requires height > 0 && |nodes'| == |nodes| + 1 <= PHYS_MAP_NODE_NIL
    requires forall i :: 0 <= i < P_L2_SIZE ==> nodes'[|nodes|][i] == if height == 1 then UnassignedLeaf else NilEntry
    ensures Rewritten(nodes, NilEntry, nodes', Entry(1, |nodes|), height, pre, lo, lo, leaf)
  {
    forall p: nat | Key(p, height) == pre
      ensures Lookup(nodes', Entry(1, |nodes|), height, p) == PHYS_SECTION_UNASSIGNED
    {
      assert Lookup(nodes', nodes'[|nodes|][Slot(p, height - 1)], height - 1, p) == PHYS_SECTION_UNASSIGNED;
    }
  }

  lemma SlotBecomesLeaf(nodes: seq<Node>, place: seq<Place>, k: nat, i: nat, lo: nat, leaf: nat)
    requires TreeShape(nodes, place) && k < |nodes| && place[k].height > 0 && i < P_L2_SIZE
    requires leaf != PHYS_SECTION_UNASSIGNED && leaf != PHYS_MAP_NODE_NIL
    requires lo % Step(place[k].height - 1) == 0 && Key(lo, place[k].height - 1) == place[k].pre * P_L2_SIZE + i
    ensures TreeShape(nodes[k := nodes[k][i := Entry(0, leaf)]], place)
    ensures Rewritten(nodes, Entry(1, k), nodes[k := nodes[k][i := Entry(0, leaf)]], Entry(1, k),
                      place[k].height, place[k].pre, lo, lo + Step(place[k].height - 1), leaf)
  {
    var h := place[k].height - 1;
    AlignedKey(lo, h);
    IntervalWithinKey(lo, lo + Step(h), h);
    forall p: nat | Key(p, h) == Key(lo, h)
      ensures lo <= p < lo + Step(h)
    {
      KeyInterval(p, h);
    }
    ShapeUpdate(nodes, place, k, i, Entry(0, leaf));
    SlotRewritten(nodes, nodes, place, place, k, i, Entry(0, leaf), lo, lo + Step(h), leaf);
  }

  /** Writing below slot `i` of node `k`, and into that slot, stays inside the
      subtree of `k`. */
  lemma OutsideUp(nodes: seq<Node>, mid: seq<Node>, place: seq<Place>, k: nat, i: nat, n: Node)
    requires |nodes| == |place| && k < |nodes| && place[k].height > 0 && i < P_L2_SIZE
    requires SameOutside(nodes, mid, place, place[k].height - 1, place[k].pre * P_L2_SIZE + i)
    ensures SameOutside(nodes, mid[k := n], place, place[k].height, place[k].pre)
  {
    forall j | 0 <= j < |nodes| && !Inside(place[j], place[k].height, place[k].pre)
      ensures mid[k := n][j] == nodes[j]
    {
      assert Inside(place[k], place[k].height, place[k].pre);
    }
  }

  lemma OutsideTwice(a: seq<Node>, b: seq<Node>, c: seq<Node>, place: seq<Place>, place': seq<Place>, height: nat,
                     pre: nat)
    requires place <= place'
    requires SameOutside(a, b, place, height, pre) && SameOutside(b, c, place', height, pre)
    ensures SameOutside(a, c, place, height, pre)
  {
  }

  lemma OutsideWithin(nodes: seq<Node>, nodes': seq<Node>, place: seq<Place>, l: Place, height: nat, pre: nat)
    requires SameOutside(nodes, nodes', place, l.height, l.pre) && Inside(l, height, pre)
    ensures SameOutside(nodes, nodes', place, height, pre)
  {
    forall n | 0 <= n < |nodes| && !Inside(place[n], height, pre)
      ensures nodes'[n] == nodes[n]
    {
      if Inside(place[n], l.height, l.pre) {
        KeyCompose(place[n].pre, l.height - place[n].height, height - l.height);
      }
    }
  }
}
