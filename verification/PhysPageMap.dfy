/** Building the physical page map in place (qemu/exec.c:167-234). */
module PhysPageMap {
  import opened PageKeys
  import opened PhysPageTree
  import opened PhysPageCompact

  /** Most nodes one call at `level` can allocate for the range of pages
      `[index, index + nb)`: a range that starts or ends flush with the subtree
      leaves one ragged edge per level, any other range at most two. */
  function AllocBound(level: nat, index: nat, nb: nat): (n: nat)
    ensures 1 <= n <= 2 * level + 1
  {
    if index % Step(level + 1) == 0 || index + nb >= (Key(index, level + 1) + 1) * Step(level + 1)
    then level + 1 else 2 * level + 1
  }

  /** A call over the interval of `index` at height `k` stops at the end of the
      range or at the end of the interval. */
  ghost predicate Advanced(k: nat, index: nat, index': nat, nb': nat)
  {
    && index < index' <= (Key(index, k) + 1) * Step(k)
    && (nb' > 0 ==> index' == (Key(index, k) + 1) * Step(k))
  }

  /** Nodes one slot can need: none if it becomes a leaf. */
  function SlotBound(level: nat, index: nat, nb: nat): (n: nat)
  {
    if (index % Step(level) == 0 && nb >= Step(level)) || level == 0 then 0 else AllocBound(level - 1, index, nb)
  }

  /** Where the loop over the slots of a node stands: before its first slot, at the
      start of slot `slot` with pages left, or done; `a` nodes were allocated below. */
  ghost predicate Progress(level: nat, index: nat, nb: nat, slot: nat, index': nat, nb': nat, a: int)
  {
    var first := Slot(index, level);
    var bound := (Key(index, level + 1) * P_L2_SIZE + slot) * Step(level);
    || (slot == first && index' == index && nb' == nb && a == 0)
    || (slot > first && nb' > 0 && index' == bound && 0 <= a <= (if index % Step(level) == 0 then 0 else level))
    || (slot > first && nb' == 0 && index < index' <= bound && 0 <= a < AllocBound(level, index, nb))
  }

  /** A ragged start and an end before the subtree's end: the two-edge bound applies. */
  lemma TwoEdges(level: nat, index: nat, nb: nat, i: nat)
    requires index % Step(level) != 0 && i <= P_L2_SIZE
    requires index + nb < (Key(index, level + 1) * P_L2_SIZE + i) * Step(level)
    ensures AllocBound(level, index, nb) == 2 * level + 1
  {
    StepUp(Key(index, level + 1), i, level);
    if index % Step(level + 1) == 0 {
      AlignedDown(index, level);
    }
  }

  /** With pages left, the loop stands in the slot of page `index'`. */
  lemma ProgressAt(level: nat, index: nat, nb: nat, slot: nat, index': nat, nb': nat, a: nat)
    requires nb' > 0 && slot < P_L2_SIZE
    requires Progress(level, index, nb, slot, index', nb', a)
    ensures Key(index', level) == Key(index, level + 1) * P_L2_SIZE + slot
  {
    KeyParent(index, level);
    if slot > Slot(index, level) {
      var q, s := Key(index, level + 1) * P_L2_SIZE + slot, Step(level);
      assert (q + 1) * s == q * s + s;
      KeyOfInterval(index', q, level);
    }
  }

  lemma NothingOutside(nodes: seq<Node>, place: seq<Place>, height: nat, pre: nat)
    requires |nodes| == |place|
    ensures SameOutside(nodes, nodes, place, height, pre)
  {
  }

  lemma ProgressStart(level: nat, index: nat, nb: nat)
    ensures Progress(level, index, nb, Slot(index, level), index, nb, 0) && Slot(index, level) < P_L2_SIZE
  {
  }

  lemma NothingYet(nodes: seq<Node>, e: Entry, height: nat, pre: nat, lo: nat, leaf: nat)
    ensures Rewritten(nodes, e, nodes, e, height, pre, lo, lo, leaf)
  {
  }

  /** The nodes the next slot can need are within the bound of the whole call. */
  lemma ProgressRoom(level: nat, index: nat, nb: nat, slot: nat, index': nat, nb': nat, a: nat)
    requires nb' > 0 && slot < P_L2_SIZE && index' + nb' == index + nb
    requires Progress(level, index, nb, slot, index', nb', a)
    requires Key(index', level) == Key(index, level + 1) * P_L2_SIZE + slot
    ensures a + SlotBound(level, index', nb') < AllocBound(level, index, nb)
  {
    var q, s := Key(index', level), Step(level);
    AlignedKey(index', level);
    if level > 0 && !(index' % s == 0 && nb' >= s) {
      if index' + nb' < (q + 1) * s && index % s != 0 {
        TwoEdges(level, index, nb, slot + 1);
      } else {
        assert index' % s == 0 ==> (q + 1) * s == index' + s;
      }
    }
  }

  lemma ProgressOn(level: nat, index: nat, nb: nat, slot: nat, was: nat, left: nat, a: nat, index': nat, nb': nat,
                   a': nat)
    requires left > 0 && slot < P_L2_SIZE && was + left == index + nb && index' + nb' == index + nb
    requires Slot(index, level) <= slot && index <= was
    requires Progress(level, index, nb, slot, was, left, a)
    requires Key(was, level) == Key(index, level + 1) * P_L2_SIZE + slot
    requires Advanced(level, was, index', nb')
    requires a <= a' <= a + SlotBound(level, was, left)
    requires a + SlotBound(level, was, left) < AllocBound(level, index, nb)
    ensures Progress(level, index, nb, slot + 1, index', nb', a')
  {
    var q, s := Key(was, level), Step(level);
    AlignedKey(was, level);
    if nb' > 0 {
      assert index' == (q + 1) * s;
      assert was % s == 0 ==> (q + 1) * s == was + s;
    }
  }

  lemma ProgressEnd(level: nat, index: nat, nb: nat, slot: nat, index': nat, nb': nat, a: nat)
    requires nb > 0 && slot <= P_L2_SIZE && (nb' == 0 || slot == P_L2_SIZE)
    requires Progress(level, index, nb, slot, index', nb', a)
    requires index' + nb' == index + nb
    ensures Advanced(level + 1, index, index', nb') && a < AllocBound(level, index, nb)
  {
    StepUp(Key(index, level + 1), slot, level);
    KeyInterval(index, level + 1);
  }

  /** A slot whose subtree was rewritten, and the new entry put into it. */
  lemma BelowDone(nodes: seq<Node>, mid: seq<Node>, place: seq<Place>, place': seq<Place>,
                  k: nat, i: nat, e: Entry, lo: nat, hi: nat, leaf: nat)
    requires TreeShape(nodes, place) && TreeShape(mid, place') && place <= place'
    requires k < |nodes| && place[k].height > 0 && i < P_L2_SIZE
    requires var h, pre := place[k].height - 1, place[k].pre * P_L2_SIZE + i;
             && EntryShape(e, place', h, pre) && SameOutside(nodes, mid, place, h, pre) && Key(lo, h) == pre
             && Rewritten(nodes, nodes[k][i], mid, e, h, pre, lo, hi, leaf) && hi <= (pre + 1) * Step(h)
    ensures k < |mid| && TreeShape(mid[k := mid[k][i := e]], place')
    ensures Rewritten(nodes, Entry(1, k), mid[k := mid[k][i := e]], Entry(1, k),
                      place[k].height, place[k].pre, lo, hi, leaf)
    ensures SameOutside(nodes, mid[k := mid[k][i := e]], place, place[k].height, place[k].pre)
  {
    hide Rewritten, Lookup;
    assert mid[k] == nodes[k];
    IntervalWithinKey(lo, hi, place[k].height - 1);
    SlotRewritten(nodes, mid, place, place', k, i, e, lo, hi, leaf);
    OutsideUp(nodes, mid, place, k, i, mid[k][i := e]);
    ShapeUpdate(mid, place', k, i, e);
  }


  class PhysMap {
    var nodes: seq<Node>
    var nodesAlloc: nat
    ghost var place: seq<Place>

    ghost predicate Valid()
      reads this
    {
      TreeShape(nodes, place) && |nodes| <= nodesAlloc
    }

    constructor ()
      ensures Valid() && nodes == [] && place == []
    {
      nodes, nodesAlloc, place := [], 0, [];
    }

    method NodeReserve(n: nat)
      requires Valid()
      modifies this`nodesAlloc
      ensures Valid() && |nodes| + n <= nodesAlloc && old(nodesAlloc) <= nodesAlloc
      ensures |nodes| + n <= old(nodesAlloc) ==> nodesAlloc == old(nodesAlloc)
      ensures |nodes| + n > old(nodesAlloc) ==>
                && nodesAlloc in {2 * old(nodesAlloc), 16, |nodes| + n}
                && 2 * old(nodesAlloc) <= nodesAlloc && 16 <= nodesAlloc
    {
      if |nodes| + n > nodesAlloc {
        nodesAlloc := if nodesAlloc * 2 > 16 then nodesAlloc * 2 else 16;
        nodesAlloc := if nodesAlloc > |nodes| + n then nodesAlloc else |nodes| + n;
      }
    }

    /** Appends a node for the subtree (`level`, `pre`): all slots empty, or, at
        level 0, all slots unassigned leaves. */
    method NodeAlloc(level: nat, ghost pre: nat) returns (ret: nat)
      requires Valid()
      requires |nodes| < PHYS_MAP_NODE_NIL && |nodes| < nodesAlloc
      modifies this`nodes, this`place
      ensures Valid() && ret == |old(nodes)| == |nodes| - 1
      ensures nodes == old(nodes) + [nodes[ret]]
      ensures place == old(place) + [Place(level + 1, pre)]
      ensures forall i :: 0 <= i < P_L2_SIZE ==> nodes[ret][i] == if level == 0 then UnassignedLeaf else NilEntry
    {
      ret := |nodes|;
      var p: Node := seq(P_L2_SIZE, _ => NilEntry);
      if level == 0 {
        var i := 0;
        while i < P_L2_SIZE
          invariant 0 <= i <= P_L2_SIZE
          invariant forall j :: 0 <= j < i ==> p[j] == UnassignedLeaf
        {
          p := p[i := UnassignedLeaf];
          i := i + 1;
        }
      }
      ShapeExtends(nodes, place, place + [Place(level + 1, pre)]);
      nodes := nodes + [p];
      place := place + [Place(level + 1, pre)];
      assert NodeShape(nodes[ret], place, place[ret]);
    }

    /** The node below `lp`, made now if there is none. */
    method EnterNode(lp: Entry, index: nat, ghost leaf: nat, level: nat) returns (lp': Entry)
      requires Valid() && lp.skip != 0 && EntryShape(lp, place, level + 1, Key(index, level + 1))
      requires |nodes| < PHYS_MAP_NODE_NIL && |nodes| < nodesAlloc
      modifies this`nodes, this`place
      ensures Valid() && old(place) <= place && |nodes| <= |old(nodes)| + 1
      ensures lp'.skip == 1 && lp'.ptr < |nodes| && place[lp'.ptr] == Place(level + 1, Key(index, level + 1))
      ensures Rewritten(old(nodes), lp, nodes, lp', level + 1, Key(index, level + 1), index, index, leaf)
      ensures SameOutside(old(nodes), nodes, old(place), level + 1, Key(index, level + 1))
    {
      hide Rewritten, Key;
      lp' := lp;
      if lp.ptr == PHYS_MAP_NODE_NIL {
        var ret := NodeAlloc(level, Key(index, level + 1));
        lp' := Entry(1, ret);
        FreshNode(old(nodes), nodes, level + 1, Key(index, level + 1), index, leaf);
      } else {
        NothingYet(nodes, lp, level + 1, Key(index, level + 1), index, leaf);
      }
    }

    /** Descends from `lp`, whose subtree holds page `index`, and makes `leaf` the
        section of the pages of `[index, index + nb)` that this subtree serves.
        The updated entry stands for the write through the entry pointer. */
    method SetLevel(lp: Entry, index: nat, nb: nat, leaf: nat, level: nat)
      returns (lp': Entry, index': nat, nb': nat)
      requires Valid()
      requires lp.skip != 0 && EntryShape(lp, place, level + 1, Key(index, level + 1))
      requires nb > 0 && leaf != PHYS_SECTION_UNASSIGNED && leaf != PHYS_MAP_NODE_NIL
      requires |nodes| + AllocBound(level, index, nb) <= nodesAlloc
      requires |nodes| + AllocBound(level, index, nb) <= PHYS_MAP_NODE_NIL
      requires AllUnassigned(nodes, lp, level + 1, Key(index, level + 1), index, index + nb)
      modifies this`nodes, this`place
      ensures Valid() && old(place) <= place
      ensures |nodes| <= |old(nodes)| + AllocBound(level, index, nb)
      ensures lp'.skip == 1 && lp'.ptr != PHYS_MAP_NODE_NIL
      ensures EntryShape(lp', place, level + 1, Key(index, level + 1))
      ensures index' + nb' == index + nb && Advanced(level + 1, index, index', nb')
      ensures Rewritten(old(nodes), lp, nodes, lp', level + 1, Key(index, level + 1), index, index', leaf)
      ensures SameOutside(old(nodes), nodes, old(place), level + 1, Key(index, level + 1))
      decreases level, 1
    {
      hide Rewritten, SameOutside, AllUnassigned, AllocBound, SlotBound, Advanced, Key, Step, Slot, Progress;
      ghost var pre := Key(index, level + 1);
      index', nb' := index, nb;
      lp' := EnterNode(lp, index, leaf, level);
      var k := lp'.ptr;
      var slot := Slot(index, level);
      ghost var base := |nodes|;
      ProgressStart(level, index, nb);
      while nb' != 0 && slot < P_L2_SIZE
        invariant Valid() && old(place) <= place && k < |nodes| && place[k] == Place(level + 1, pre)
        invariant Slot(index, level) <= slot <= P_L2_SIZE && base <= |nodes|
        invariant index' + nb' == index + nb && index <= index'
        invariant Progress(level, index, nb, slot, index', nb', |nodes| - base)
        invariant Rewritten(old(nodes), lp, nodes, lp', level + 1, pre, index, index', leaf)
        invariant SameOutside(old(nodes), nodes, old(place), level + 1, pre)
      {
        ghost var before, wherever, was, left := nodes, place, index', nb';
        RestUnassigned(old(nodes), lp, nodes, lp', level + 1, pre, index, index', index + nb, leaf);
        ProgressAt(level, index, nb, slot, index', nb', |nodes| - base);
        ProgressRoom(level, index, nb, slot, index', nb', |nodes| - base);
        index', nb' := SetSlot(k, slot, index', nb', leaf, level);
        ProgressOn(level, index, nb, slot, was, left, |before| - base, index', nb', |nodes| - base);
        RewrittenTwice(old(nodes), lp, before, lp', nodes, lp', level + 1, pre, index, was, index', leaf);
        OutsideTwice(old(nodes), before, nodes, old(place), wherever, level + 1, pre);
        slot := slot + 1;
      }
      ProgressEnd(level, index, nb, slot, index', nb', |nodes| - base);
    }

    /** One turn of the loop over the slots of node `k`. */
    method SetSlot(k: nat, slot: nat, index: nat, nb: nat, leaf: nat, level: nat)
      returns (index': nat, nb': nat)
      requires Valid() && k < |nodes| && slot < P_L2_SIZE && place[k].height == level + 1
      requires Key(index, level) == place[k].pre * P_L2_SIZE + slot
      requires nb > 0 && leaf != PHYS_SECTION_UNASSIGNED && leaf != PHYS_MAP_NODE_NIL
      requires |nodes| + SlotBound(level, index, nb) <= nodesAlloc
      requires |nodes| + SlotBound(level, index, nb) <= PHYS_MAP_NODE_NIL
      requires AllUnassigned(nodes, Entry(1, k), level + 1, place[k].pre, index, index + nb)
      modifies this`nodes, this`place
      ensures Valid() && old(place) <= place
      ensures |nodes| <= |old(nodes)| + SlotBound(level, index, nb)
      ensures index' + nb' == index + nb && Advanced(level, index, index', nb')
      ensures Rewritten(old(nodes), Entry(1, k), nodes, Entry(1, k), level + 1, place[k].pre, index, index', leaf)
      ensures SameOutside(old(nodes), nodes, old(place), level + 1, place[k].pre)
      decreases level, 0
    {
      assert NodeShape(nodes[k], place, place[k]);
      if index % Step(level) == 0 && nb >= Step(level) {
        AlignedKey(index, level);
        SlotBecomesLeaf(nodes, place, k, slot, index, leaf);
        OutsideUp(nodes, nodes, place, k, slot, nodes[k][slot := Entry(0, leaf)]);
        nodes := nodes[k := nodes[k][slot := Entry(0, leaf)]];
        index', nb' := index + Step(level), nb - Step(level);
      } else {
        SlotUnassigned(nodes, place, k, slot, index, index + nb);
        var e;
        e, index', nb' := SetLevel(nodes[k][slot], index, nb, leaf, level - 1);
        BelowDone(old(nodes), nodes, old(place), place, k, slot, e, index, index', leaf);
        nodes := nodes[k := nodes[k][slot := e]];
      }
    }

    /** Compacts the subtree of a non-leaf entry in place, bottom up, and returns what
        the entry becomes: sound for the same pages as before, and with nothing left to
        compact. */
    method Compact(lp: Entry, ghost of: nat -> nat, ghost height: nat, ghost pre: nat) returns (lp': Entry)
      requires lp.skip != 0 && |nodes| == |place| && height < 8
      requires Sound(nodes, place, of, lp, height, pre)
      modifies this`nodes
      ensures |nodes| == |place| && Sound(nodes, place, of, lp', height, pre)
      ensures Dense(nodes, place, lp', height)
      ensures SameOutside(old(nodes), nodes, place, height, pre)
      ensures lp'.ptr == PHYS_MAP_NODE_NIL <==> lp.ptr == PHYS_MAP_NODE_NIL
      decreases height, 0
    {
      hide SameOutside, SlotsSound, SlotsDense;
      lp' := lp;
      if lp.ptr == PHYS_MAP_NODE_NIL {
        NothingOutside(nodes, place, height, pre);
        return;
      }
      var k := lp.ptr;
      var validPtr: nat, valid: nat, i: nat := P_L2_SIZE, 0, 0;
      NothingOutside(nodes, place, place[k].height, place[k].pre);
      ghost var other := 0;
      assert SlotsDense(nodes, place, nodes[k], 0, place[k].height - 1) by { NoSlots(nodes, place, k); }
      while i < P_L2_SIZE
        invariant 0 <= i <= P_L2_SIZE && |nodes| == |place|
        invariant SlotsSound(nodes, place, of, nodes[k], place[k].height - 1, place[k].pre)
        invariant SameOutside(old(nodes), nodes, place, place[k].height, place[k].pre)
        invariant valid == 0 ==> validPtr == P_L2_SIZE
        invariant valid <= i && (valid > 0 ==> validPtr < i && nodes[k][validPtr].ptr != PHYS_MAP_NODE_NIL)
        invariant valid <= 1 ==> forall j :: 0 <= j < i && j != validPtr ==> nodes[k][j].ptr == PHYS_MAP_NODE_NIL
        invariant valid > 1 ==> 0 <= other < validPtr && nodes[k][other].ptr != PHYS_MAP_NODE_NIL
        invariant SlotsDense(nodes, place, nodes[k], i, place[k].height - 1)
      {
        if nodes[k][i].ptr == PHYS_MAP_NODE_NIL || nodes[k][i].skip == 0 {
          NextDense(nodes, place, k, i);
        }
        if nodes[k][i].ptr != PHYS_MAP_NODE_NIL {
          other := validPtr;
          validPtr, valid := i, valid + 1;
          if nodes[k][i].skip != 0 {
            ghost var before := nodes;
            CompactSlot(k, i, of);
            OutsideTwice(old(nodes), before, nodes, place, place, place[k].height, place[k].pre);
          }
        }
        i := i + 1;
      }
      OutsideWithin(old(nodes), nodes, place, place[k], height, pre);
      if valid == 1 {
        TakeOverDense(nodes, place, of, lp, height, pre, validPtr);
      }
      if valid == 1 && lp.skip + nodes[k][validPtr].skip < 8 {
        TakeOver(nodes, place, of, lp, height, pre, validPtr);
        lp' := Merged(lp, nodes[k][validPtr]);
      }
    }

    /** Compacts what hangs below slot `i` of node `k`. */
    method CompactSlot(k: nat, i: nat, ghost of: nat -> nat)
      requires |nodes| == |place| && k < |nodes| && i < P_L2_SIZE && 0 < place[k].height <= 8
      requires SlotsSound(nodes, place, of, nodes[k], place[k].height - 1, place[k].pre)
      requires nodes[k][i].ptr != PHYS_MAP_NODE_NIL && nodes[k][i].skip != 0
      requires SlotsDense(nodes, place, nodes[k], i, place[k].height - 1)
      modifies this`nodes
      ensures |nodes| == |place| && nodes[k][i].ptr != PHYS_MAP_NODE_NIL && nodes[k] == old(nodes)[k][i := nodes[k][i]]
      ensures SlotsSound(nodes, place, of, nodes[k], place[k].height - 1, place[k].pre)
      ensures SlotsDense(nodes, place, nodes[k], i + 1, place[k].height - 1)
      ensures SameOutside(old(nodes), nodes, place, place[k].height, place[k].pre)
      decreases place[k].height - 1, 1
    {
      hide SameOutside;
      ghost var before := nodes;
      assert Sound(nodes, place, of, nodes[k][i], place[k].height - 1, place[k].pre * P_L2_SIZE + i);
      var e := Compact(nodes[k][i], of, place[k].height - 1, place[k].pre * P_L2_SIZE + i);
      SiblingsSound(before, nodes, place, of, k, i, e);
      SiblingsDense(before, nodes, place, of, k, i, e);
      OutsideUp(before, nodes, place, k, i, nodes[k][i := e]);
      nodes := nodes[k := nodes[k][i := e]];
    }

    /** The walk of phys_page_find, up to the entry it stops at. */
    method FindLeaf(lp0: Entry, page: nat, ghost of: nat -> nat) returns (s: nat)
      requires Sound(nodes, place, of, lp0, P_L2_LEVELS, 0)
      ensures s == Walk(nodes, lp0, P_L2_LEVELS, page).ptr
    {
      var lp, i: int := lp0, P_L2_LEVELS;
      ghost var pre: nat := 0;
      while lp.skip != 0
        invariant 0 <= i <= P_L2_LEVELS && Sound(nodes, place, of, lp, i, pre)
        invariant Walk(nodes, lp, i, page) == Walk(nodes, lp0, P_L2_LEVELS, page)
        decreases i
      {
        i := i - lp.skip;
        assert i >= 0;
        if lp.ptr == PHYS_MAP_NODE_NIL {
          return PHYS_SECTION_UNASSIGNED;
        }
        pre := place[lp.ptr].pre * P_L2_SIZE + Slot(page, i);
        lp := nodes[lp.ptr][Slot(page, i)];
      }
      return lp.ptr;
    }
  }
}
