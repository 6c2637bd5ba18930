/** Tracked requests of one block device (qemu/block.c:2375-2422, 2458-2514).

    `Req` is the value of one tracked request; a device's list of them is a
    sequence, head first.  `waiting` says that `waiting_for` is set. */
module TrackedRequests {
  import opened Alignment

  datatype Req = Req(offset: nat, bytes: nat, serialising: bool, overlapOffset: nat, overlapBytes: nat, waiting: bool)

  function Begun(offset: nat, bytes: nat): Req
  {
    Req(offset, bytes, false, offset, bytes, false)
  }

  /** mark_request_serialising on the request itself. */
  function Marked(r: Req, align: nat): (r': Req)
    requires align > 0
  {
    var overlapOffset := Down(r.offset, align);
    var overlapBytes := RoundUp(r.offset + r.bytes, align) - overlapOffset;
    r.(serialising := true,
       overlapOffset := if r.overlapOffset < overlapOffset then r.overlapOffset else overlapOffset,
       overlapBytes := if r.overlapBytes > overlapBytes then r.overlapBytes else overlapBytes)
  }

  /** A marked request's window is the aligned range around its bytes, and marking it again
      changes nothing. */
  lemma MarkedWindow(offset: nat, bytes: nat, align: nat)
    requires align > 0
    ensures var r := Marked(Begun(offset, bytes), align);
            && r.serialising && r.overlapOffset == Down(offset, align)
            && r.overlapOffset + r.overlapBytes == RoundUp(offset + bytes, align) && Marked(r, align) == r
  {
  }

  /** tracked_request_overlaps */
  predicate Overlaps(r: Req, offset: nat, bytes: nat)
  {
    offset < r.overlapOffset + r.overlapBytes && r.overlapOffset < offset + bytes
  }

  /** The bytes a request keeps others away from. */
  ghost predicate InWindow(r: Req, pos: nat)
  {
    r.overlapOffset <= pos < r.overlapOffset + r.overlapBytes
  }

  /** The window of `r` is empty and lies strictly inside that of `q`. */
  ghost predicate EmptyInside(r: Req, q: Req)
  {
    r.overlapBytes == 0 && q.overlapOffset < r.overlapOffset < q.overlapOffset + q.overlapBytes
  }

  /** Two windows share a byte, or one is an empty window inside the other. */
  ghost predicate Meet(r: Req, q: Req)
  {
    (exists p: nat :: InWindow(r, p) && InWindow(q, p)) || EmptyInside(r, q) || EmptyInside(q, r)
  }

  lemma OverlapsExactly(r: Req, q: Req)
    ensures Overlaps(r, q.overlapOffset, q.overlapBytes) <==> Meet(r, q)
  {
    var p := if r.overlapOffset < q.overlapOffset then q.overlapOffset else r.overlapOffset;
    if Overlaps(r, q.overlapOffset, q.overlapBytes) && r.overlapBytes > 0 && q.overlapBytes > 0 {
      assert InWindow(r, p) && InWindow(q, p);
    }
  }

  /** Two requests that must not run together. */
  predicate Conflict(r: Req, q: Req)
  {
    (r.serialising || q.serialising) && Overlaps(r, q.overlapOffset, q.overlapBytes)
  }

  /** What the scan of wait_serialising_requests stops at: the first request from
      position `i` on that conflicts with request `k` and is not itself waiting. */
  function FirstBlocker(list: seq<Req>, k: nat, i: nat): (b: int)
    requires k < |list| && i <= |list|
    ensures b == -1 || (i <= b < |list| && b != k && Conflict(list[b], list[k]) && !list[b].waiting)
    ensures forall j :: i <= j < (if b == -1 then |list| else b) && j != k && Conflict(list[j], list[k]) ==>
              list[j].waiting
    decreases |list| - i
  {
    if i == |list| then -1
    else if i != k && Conflict(list[i], list[k]) && !list[i].waiting then i
    else FirstBlocker(list, k, i + 1)
  }

  /** The scan finds nothing exactly if no other request that does not wait meets this one
      with one of them serialising; otherwise it finds the first such request. */
  lemma BlockerMeets(list: seq<Req>, k: nat)
    requires k < |list|
    ensures var b := FirstBlocker(list, k, 0);
            && (b == -1 <==> forall j :: 0 <= j < |list| ==> !Blocks(list, j, k))
            && (b != -1 ==> Blocks(list, b, k) && forall j :: 0 <= j < b ==> !Blocks(list, j, k))
  {
    hide Meet;
    forall j | 0 <= j < |list|
      ensures Blocks(list, j, k) <==> j != k && Conflict(list[j], list[k]) && !list[j].waiting
    {
      OverlapsExactly(list[j], list[k]);
    }
    hide Blocks, Conflict;
  }

  ghost predicate Blocks(list: seq<Req>, j: nat, k: nat)
    requires j < |list| && k < |list|
  {
    j != k && !list[j].waiting && (list[j].serialising || list[k].serialising) && Meet(list[j], list[k])
  }

  /** Number of serialising requests. */
  function Serialising(list: seq<Req>): nat
  {
    if list == [] then 0 else Serialising(list[1..]) + if list[0].serialising then 1 else 0
  }

  lemma {:induction false} SerialisingUpdate(list: seq<Req>, k: nat, r: Req)
    requires k < |list|
    ensures Serialising(list[k := r]) ==
            Serialising(list) + (if r.serialising then 1 else 0) - (if list[k].serialising then 1 else 0)
    decreases |list|
  {
    if k > 0 {
      assert list[k := r][1..] == list[1..][k - 1 := r];
      SerialisingUpdate(list[1..], k - 1, r);
    } else {
      assert list[0 := r][1..] == list[1..];
    }
  }

  lemma {:induction false} SerialisingRemove(list: seq<Req>, k: nat)
    requires k < |list|
    ensures Serialising(list[..k] + list[k + 1..]) == Serialising(list) - if list[k].serialising then 1 else 0
    decreases |list|
  {
    if k > 0 {
      assert (list[..k] + list[k + 1..])[1..] == list[1..][..k - 1] + list[1..][k..];
      SerialisingRemove(list[1..], k - 1);
    } else {
      assert list[..0] + list[1..] == list[1..];
    }
  }

  lemma {:induction false} SerialisingZero(list: seq<Req>)
    ensures Serialising(list) == 0 <==> forall i :: 0 <= i < |list| ==> !list[i].serialising
    decreases |list|
  {
    if list != [] {
      SerialisingZero(list[1..]);
      if forall i :: 0 <= i < |list[1..]| ==> !list[1..][i].serialising {
        assert forall i :: 1 <= i < |list| ==> list[i] == list[1..][i - 1];
      }
    }
  }

  /** The `serialising_in_flight == 0` shortcut answers what the full scan answers. */
  lemma ShortcutAgrees(list: seq<Req>, k: nat)
    requires k < |list| && Serialising(list) == 0
    ensures FirstBlocker(list, k, 0) == -1
  {
    SerialisingZero(list);
  }

  /** The device's own list and counter, updated in place.  Requests are named by
      their position in the list. */
  class DeviceRequests {
    var tracked: seq<Req>
    var serialisingInFlight: int

    ghost predicate Valid()
      reads this
    {
      serialisingInFlight == Serialising(tracked)
    }

    constructor ()
      ensures Valid() && tracked == []
    {
      tracked, serialisingInFlight := [], 0;
    }

    method TrackedRequestBegin(offset: nat, bytes: nat)
      requires Valid()
      modifies this
      ensures Valid() && tracked == [Begun(offset, bytes)] + old(tracked)
    {
      tracked := [Begun(offset, bytes)] + tracked;
      assert tracked[1..] == old(tracked);
    }

    method MarkRequestSerialising(k: nat, align: nat)
      requires Valid() && k < |tracked| && align > 0
      modifies this
      ensures Valid() && tracked == old(tracked)[k := Marked(old(tracked)[k], align)]
    {
      SerialisingUpdate(tracked, k, Marked(tracked[k], align));
      if !tracked[k].serialising {
        serialisingInFlight := serialisingInFlight + 1;
      }
      tracked := tracked[k := Marked(tracked[k], align)];
    }

    method TrackedRequestEnd(k: nat)
      requires Valid() && k < |tracked|
      modifies this
      ensures Valid() && tracked == old(tracked)[..k] + old(tracked)[k + 1..]
    {
      SerialisingRemove(tracked, k);
      if tracked[k].serialising {
        serialisingInFlight := serialisingInFlight - 1;
      }
      tracked := tracked[..k] + tracked[k + 1..];
    }

    /** wait_serialising_requests up to its yield or its return: -1 means that it
        returns without waiting, otherwise it starts to wait for request `b`. */
    method WaitSerialisingRequests(k: nat) returns (b: int)
      requires Valid() && k < |tracked| && !tracked[k].waiting
      modifies this`tracked
      ensures Valid() && b == FirstBlocker(old(tracked), k, 0)
      ensures b == -1 ==> forall j :: 0 <= j < |old(tracked)| ==> !Blocks(old(tracked), j, k)
      ensures b != -1 ==> Blocks(old(tracked), b, k)
      ensures tracked == if b == -1 then old(tracked) else old(tracked)[k := old(tracked)[k].(waiting := true)]
    {
      BlockerMeets(tracked, k);
      hide Blocks;
      if serialisingInFlight == 0 {
        ShortcutAgrees(tracked, k);
        return -1;
      }
      var i := 0;
      while i < |tracked|
        invariant 0 <= i <= |tracked| && tracked == old(tracked)
        invariant FirstBlocker(tracked, k, 0) == FirstBlocker(tracked, k, i)
      {
        if i != k && (tracked[i].serialising || tracked[k].serialising)
           && Overlaps(tracked[i], tracked[k].overlapOffset, tracked[k].overlapBytes) && !tracked[i].waiting {
          SerialisingUpdate(tracked, k, tracked[k].(waiting := true));
          tracked := tracked[k := tracked[k].(waiting := true)];
          return i;
        }
        i := i + 1;
      }
      return -1;
    }
  }
}
