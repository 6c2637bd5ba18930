/** Reading the physical page map, and compacting it (qemu/exec.c:239-320).

    Compaction drops whole levels of the tree, so the walk afterwards ignores some
    bits of the page number and may end at the section of another page.  `Sound`
    says what remains true of every entry, relative to the section `of(p)` that
    each page had before: a page with a section is still led to it, and a page
    without one is led to some leaf or to nothing. */
module PhysPageCompact {
  import opened PageKeys
  import opened PhysPageTree

  /** The loop of phys_page_find as a function: the entry it stops at, where `i` is
      its level counter.  An empty entry stands for the unassigned section. */
  function Walk(nodes: seq<Node>, e: Entry, i: nat, page: nat): Entry
    decreases i
  {
    if e.skip == 0 || e.skip > i then e
    else if e.ptr == PHYS_MAP_NODE_NIL || e.ptr >= |nodes| then UnassignedLeaf
    else Walk(nodes, nodes[e.ptr][Slot(page, i - e.skip)], i - e.skip, page)
  }

  ghost predicate InUse(of: nat -> nat, s: nat)
  {
    s != PHYS_MAP_NODE_NIL && (s != PHYS_SECTION_UNASSIGNED ==> exists p: nat :: of(p) == s)
  }

  ghost predicate OnlyIn(of: nat -> nat, height: nat, pre: nat, l: Place)
  {
    forall p: nat :: Key(p, height) == pre && of(p) != PHYS_SECTION_UNASSIGNED ==> Key(p, l.height) == l.pre
  }

  ghost predicate NoneIn(of: nat -> nat, height: nat, pre: nat)
  {
    forall p: nat :: Key(p, height) == pre ==> of(p) == PHYS_SECTION_UNASSIGNED
  }

  ghost predicate AtMost(of: nat -> nat, height: nat, pre: nat, s: nat)
  {
    forall p: nat :: Key(p, height) == pre ==> of(p) == s || of(p) == PHYS_SECTION_UNASSIGNED
  }

  ghost predicate Sound(nodes: seq<Node>, place: seq<Place>, of: nat -> nat, e: Entry, height: nat, pre: nat)
    decreases height
  {
    if e.skip == 0 then
      InUse(of, e.ptr) && AtMost(of, height, pre, e.ptr)
    else
      && e.skip <= height
      && if e.ptr == PHYS_MAP_NODE_NIL then NoneIn(of, height, pre)
         else
           && e.ptr < |nodes| == |place|
           && place[e.ptr].height + e.skip == height + 1
           && Inside(place[e.ptr], height, pre)
           && OnlyIn(of, height, pre, place[e.ptr])
           && SlotsSound(nodes, place, of, nodes[e.ptr], place[e.ptr].height - 1, place[e.ptr].pre)
  }

  ghost predicate SlotsSound(nodes: seq<Node>, place: seq<Place>, of: nat -> nat, n: Node, height: nat, pre: nat)
    decreases height + 1, 0
  {
    forall i :: 0 <= i < P_L2_SIZE ==> Sound(nodes, place, of, n[i], height, pre * P_L2_SIZE + i)
  }

  /** A sound tree leads every page to a leaf -- the level counter never runs out
      at a node -- and every page that has a section to that section. */
  lemma {:induction false} WalkSound(nodes: seq<Node>, place: seq<Place>, of: nat -> nat,
                                     e: Entry, height: nat, pre: nat, page: nat)
    requires Sound(nodes, place, of, e, height, pre)
    ensures Walk(nodes, e, height, page).skip == 0
    ensures InUse(of, Walk(nodes, e, height, page).ptr)
    ensures Key(page, height) == pre && of(page) != PHYS_SECTION_UNASSIGNED ==>
              Walk(nodes, e, height, page).ptr == of(page)
    decreases height
  {
    if e.skip != 0 && e.ptr != PHYS_MAP_NODE_NIL {
      var l := place[e.ptr];
      var i := Slot(page, l.height - 1);
      KeyParent(page, l.height - 1);
      WalkSound(nodes, place, of, nodes[e.ptr][i], l.height - 1, l.pre * P_L2_SIZE + i, page);
    }
  }

  ghost predicate SameInside(nodes: seq<Node>, nodes': seq<Node>, place: seq<Place>, height: nat, pre: nat)
  {
    && |nodes| == |nodes'| == |place|
    && forall n :: 0 <= n < |nodes| && Inside(place[n], height, pre) ==> nodes'[n] == nodes[n]
  }

  lemma InsideSlot(l: Place, height: nat, pre: nat, i: nat)
    requires height > 0 && i < P_L2_SIZE && Inside(l, height - 1, pre * P_L2_SIZE + i)
    ensures Inside(l, height, pre)
  {
    KeyParent(l.pre, height - 1 - l.height);
  }

  lemma InsideWithin(l: Place, m: Place, height: nat, pre: nat)
    requires Inside(l, m.height, m.pre) && Inside(m, height, pre)
    ensures Inside(l, height, pre)
  {
    KeyCompose(l.pre, m.height - l.height, height - m.height);
  }

  /** Soundness of a subtree depends only on the nodes inside it. */
  lemma {:induction false} SoundFrame(nodes: seq<Node>, nodes': seq<Node>, place: seq<Place>, of: nat -> nat,
                                      e: Entry, height: nat, pre: nat)
    requires Sound(nodes, place, of, e, height, pre)
    requires SameInside(nodes, nodes', place, height, pre)
    ensures Sound(nodes', place, of, e, height, pre)
    decreases height
  {
    if e.skip != 0 && e.ptr != PHYS_MAP_NODE_NIL {
      var l := place[e.ptr];
      forall i | 0 <= i < P_L2_SIZE
        ensures Sound(nodes', place, of, nodes[e.ptr][i], l.height - 1, l.pre * P_L2_SIZE + i)
      {
        forall n | 0 <= n < |nodes| && Inside(place[n], l.height - 1, l.pre * P_L2_SIZE + i)
          ensures nodes'[n] == nodes[n]
        {
          InsideSlot(place[n], l.height, l.pre, i);
          InsideWithin(place[n], l, height, pre);
        }
        SoundFrame(nodes, nodes', place, of, nodes[e.ptr][i], l.height - 1, l.pre * P_L2_SIZE + i);
      }
    }
  }

  /** Slot `v` is the only one of the node that is used. */
  ghost predicate OnlySlot(n: Node, v: nat)
  {
    && v < P_L2_SIZE && n[v].ptr != PHYS_MAP_NODE_NIL
    && forall i :: 0 <= i < P_L2_SIZE && i != v ==> n[i].ptr == PHYS_MAP_NODE_NIL
  }

  /** Nothing is left to compact below the entry: no node that it leads to has a single slot
      in use. */
  ghost predicate Dense(nodes: seq<Node>, place: seq<Place>, e: Entry, height: nat)
    decreases height
  {
    || e.skip == 0 || e.ptr == PHYS_MAP_NODE_NIL
    || (&& e.ptr < |nodes| == |place| && 0 < place[e.ptr].height <= height
        && (forall v: nat :: !OnlySlot(nodes[e.ptr], v))
        && SlotsDense(nodes, place, nodes[e.ptr], P_L2_SIZE, place[e.ptr].height - 1))
  }

  ghost predicate SlotsDense(nodes: seq<Node>, place: seq<Place>, n: Node, upto: nat, height: nat)
    requires upto <= P_L2_SIZE
    decreases height + 1, 0
  {
    forall i :: 0 <= i < upto ==> Dense(nodes, place, n[i], height)
  }

  lemma {:induction false} DenseFrame(nodes: seq<Node>, nodes': seq<Node>, place: seq<Place>, of: nat -> nat,
                                      e: Entry, height: nat, pre: nat)
    requires Sound(nodes, place, of, e, height, pre) && Dense(nodes, place, e, height)
    requires SameInside(nodes, nodes', place, height, pre)
    ensures Dense(nodes', place, e, height)
    decreases height
  {
    if e.skip != 0 && e.ptr != PHYS_MAP_NODE_NIL {
      var l := place[e.ptr];
      forall i | 0 <= i < P_L2_SIZE ensures Dense(nodes', place, nodes[e.ptr][i], l.height - 1) {
        forall n | 0 <= n < |nodes| && Inside(place[n], l.height - 1, l.pre * P_L2_SIZE + i)
          ensures nodes'[n] == nodes[n]
        {
          InsideSlot(place[n], l.height, l.pre, i);
          InsideWithin(place[n], l, height, pre);
        }
        assert Sound(nodes, place, of, nodes[e.ptr][i], l.height - 1, l.pre * P_L2_SIZE + i);
        DenseFrame(nodes, nodes', place, of, nodes[e.ptr][i], l.height - 1, l.pre * P_L2_SIZE + i);
      }
    }
  }

  /** Rewriting slot `i` of node `k` and the nodes inside it keeps the slots before it dense,
      and makes it dense if what it becomes is. */
  lemma SiblingsDense(nodes: seq<Node>, mid: seq<Node>, place: seq<Place>, of: nat -> nat, k: nat, i: nat, e: Entry)
    requires |nodes| == |mid| == |place| && k < |nodes| && i < P_L2_SIZE && place[k].height > 0
    requires SlotsSound(nodes, place, of, nodes[k], place[k].height - 1, place[k].pre)
    requires SlotsDense(nodes, place, nodes[k], i, place[k].height - 1)
    requires SameOutside(nodes, mid, place, place[k].height - 1, place[k].pre * P_L2_SIZE + i) && mid[k] == nodes[k]
    requires Sound(mid, place, of, e, place[k].height - 1, place[k].pre * P_L2_SIZE + i)
    requires Dense(mid, place, e, place[k].height - 1)
    ensures var after := mid[k := mid[k][i := e]]; SlotsDense(after, place, after[k], i + 1, place[k].height - 1)
  {
    var h, pre := place[k].height - 1, place[k].pre;
    var after := mid[k := mid[k][i := e]];
    forall j | 0 <= j < i + 1 ensures Dense(after, place, after[k][j], h) {
      if j == i {
        DenseFrame(mid, after, place, of, e, h, pre * P_L2_SIZE + i);
      } else {
        assert Sound(nodes, place, of, nodes[k][j], h, pre * P_L2_SIZE + j);
        DenseFrame(nodes, after, place, of, nodes[k][j], h, pre * P_L2_SIZE + j);
      }
    }
  }

  lemma NoSlots(nodes: seq<Node>, place: seq<Place>, k: nat)
    requires k < |nodes| == |place| && place[k].height > 0
    ensures SlotsDense(nodes, place, nodes[k], 0, place[k].height - 1)
  {
  }

  lemma NextDense(nodes: seq<Node>, place: seq<Place>, k: nat, i: nat)
    requires k < |nodes| == |place| && place[k].height > 0 && i < P_L2_SIZE
    requires SlotsDense(nodes, place, nodes[k], i, place[k].height - 1)
    requires nodes[k][i].ptr == PHYS_MAP_NODE_NIL || nodes[k][i].skip == 0
    ensures SlotsDense(nodes, place, nodes[k], i + 1, place[k].height - 1)
  {
  }

  /** Taking over the only slot keeps what is dense, and there are always bits enough for it. */
  lemma TakeOverDense(nodes: seq<Node>, place: seq<Place>, of: nat -> nat, e: Entry, height: nat, pre: nat, v: nat)
    requires Sound(nodes, place, of, e, height, pre) && e.skip != 0 && e.ptr != PHYS_MAP_NODE_NIL
    requires OnlySlot(nodes[e.ptr], v) && SlotsDense(nodes, place, nodes[e.ptr], P_L2_SIZE, place[e.ptr].height - 1)
    ensures Dense(nodes, place, Merged(e, nodes[e.ptr][v]), height) && e.skip + nodes[e.ptr][v].skip <= height
  {
    var l, c := place[e.ptr], nodes[e.ptr][v];
    assert Sound(nodes, place, of, c, l.height - 1, l.pre * P_L2_SIZE + v);
    assert Dense(nodes, place, c, l.height - 1);
  }

  /** A tree that was built but not compacted is sound for what it maps. */
  lemma {:induction false} BuiltIsSound(nodes: seq<Node>, place: seq<Place>, of: nat -> nat,
                                        e: Entry, height: nat, pre: nat)
    requires TreeShape(nodes, place) && EntryShape(e, place, height, pre)
    requires forall p: nat :: Key(p, height) == pre ==> of(p) == Lookup(nodes, e, height, p)
    ensures Sound(nodes, place, of, e, height, pre)
    decreases height
  {
    if e.skip == 0 {
      var p := pre * Step(height);
      assert (pre + 1) * Step(height) == p + Step(height);
      KeyOfInterval(p, pre, height);
      assert of(p) == e.ptr;
    } else if e.ptr != PHYS_MAP_NODE_NIL {
      assert NodeShape(nodes[e.ptr], place, place[e.ptr]);
      forall i | 0 <= i < P_L2_SIZE
        ensures Sound(nodes, place, of, nodes[e.ptr][i], height - 1, pre * P_L2_SIZE + i)
      {
        forall p: nat | Key(p, height - 1) == pre * P_L2_SIZE + i
          ensures of(p) == Lookup(nodes, nodes[e.ptr][i], height - 1, p)
        {
          KeyParent(p, height - 1);
          assert Slot(p, height - 1) == i;
        }
        BuiltIsSound(nodes, place, of, nodes[e.ptr][i], height - 1, pre * P_L2_SIZE + i);
      }
    } else {
      assert forall p: nat :: Key(p, height) == pre ==> Lookup(nodes, e, height, p) == PHYS_SECTION_UNASSIGNED;
    }
  }

  /** An entry whose node has a single used slot may take over that slot's content. */
  lemma TakeOver(nodes: seq<Node>, place: seq<Place>, of: nat -> nat, e: Entry, height: nat, pre: nat, v: nat)
    requires Sound(nodes, place, of, e, height, pre) && e.skip != 0 && e.ptr != PHYS_MAP_NODE_NIL
    requires v < P_L2_SIZE && nodes[e.ptr][v].ptr != PHYS_MAP_NODE_NIL
    requires forall i :: 0 <= i < P_L2_SIZE && i != v ==> nodes[e.ptr][i].ptr == PHYS_MAP_NODE_NIL
    ensures Sound(nodes, place, of, Merged(e, nodes[e.ptr][v]), height, pre)
  {
    var l, c := place[e.ptr], nodes[e.ptr][v];
    assert Sound(nodes, place, of, c, l.height - 1, l.pre * P_L2_SIZE + v);
    forall p: nat | Key(p, height) == pre && of(p) != PHYS_SECTION_UNASSIGNED
      ensures Key(p, l.height - 1) == l.pre * P_L2_SIZE + v
    {
      KeyParent(p, l.height - 1);
      var i := Slot(p, l.height - 1);
      assert Sound(nodes, place, of, nodes[e.ptr][i], l.height - 1, l.pre * P_L2_SIZE + i);
    }
    if c.skip != 0 {
      InsideSlot(place[c.ptr], l.height, l.pre, v);
      InsideWithin(place[c.ptr], l, height, pre);
    }
  }

  function Merged(e: Entry, child: Entry): Entry
  {
    if child.skip == 0 then Entry(0, child.ptr) else Entry(e.skip + child.skip, child.ptr)
  }

  /** Rewriting slot `i` of node `k` and the nodes inside it keeps every other slot
      of `k` sound. */
  lemma SiblingsSound(nodes: seq<Node>, mid: seq<Node>, place: seq<Place>, of: nat -> nat, k: nat, i: nat, e: Entry)
    requires |nodes| == |mid| == |place| && k < |nodes| && i < P_L2_SIZE && place[k].height > 0
    requires SlotsSound(nodes, place, of, nodes[k], place[k].height - 1, place[k].pre)
    requires SameOutside(nodes, mid, place, place[k].height - 1, place[k].pre * P_L2_SIZE + i)
    requires Sound(mid, place, of, e, place[k].height - 1, place[k].pre * P_L2_SIZE + i)
    ensures mid[k] == nodes[k]
    ensures var after := mid[k := mid[k][i := e]];
            SlotsSound(after, place, of, after[k], place[k].height - 1, place[k].pre)
  {
    var h, pre := place[k].height - 1, place[k].pre;
    assert !Inside(place[k], h, pre * P_L2_SIZE + i);
    var after := mid[k := mid[k][i := e]];
    forall j | 0 <= j < P_L2_SIZE
      ensures Sound(after, place, of, after[k][j], h, pre * P_L2_SIZE + j)
    {
      if j == i {
        SoundFrame(mid, after, place, of, e, h, pre * P_L2_SIZE + i);
      } else {
        assert Sound(nodes, place, of, nodes[k][j], h, pre * P_L2_SIZE + j);
        SoundFrame(nodes, after, place, of, nodes[k][j], h, pre * P_L2_SIZE + j);
      }
    }
  }
}
