/** What every run of requests keeps (qemu/block.c:2375-2514, 3321-3503). */
module BlockWritesProofs {
  import opened Alignment
  import opened TrackedRequests
  import opened Bytes
  import opened BlockWrites

  /** Only a request with a ragged edge, or a copy-on-read, is serialising, and its
      window is then whole blocks. */
  ghost predicate WindowOk(t: Task, align: nat)
    requires align > 0
  {
    var unit := if t.op.Write? then align else t.op.cluster;
    var serial := if t.op.Write? then HasHead(t, align) || HasTail(t, align) else t.op.cluster > 0;
    && t.req.serialising == serial
    && if serial
       then && t.req.overlapOffset == Down(t.req.offset, unit)
            && t.req.overlapOffset + t.req.overlapBytes == RoundUp(t.req.offset + t.req.bytes, unit)
       else t.req.overlapOffset == t.req.offset && t.req.overlapBytes == t.req.bytes
  }

  ghost predicate PcOk(t: Task, align: nat)
    requires align > 0
  {
    && (t.pc.Blocked? <==> t.req.waiting)
    && !t.pc.AssertFailed?
    && (t.pc.HeadIo? ==> HasHead(t, align))
    && (t.pc.TailIo? ==> HasTail(t, align))
    && (t.pc.WriteIo? ==> t.op.Write?)
    && (t.op.Write? ==> t.req.bytes == |t.op.data|)
  }

  /** The head block is in `head`: of the bytes that the write only carries along, those below
      the length sampled still agree with the disk, and the others are zeros. */
  ghost predicate HeadFresh(t: Task, align: nat, disk: seq<Byte>)
    requires align > 0
  {
    && |t.head| == align
    && forall p: nat :: Lo(t, align) <= p < t.req.offset ==>
         t.head[p - Lo(t, align)] == Seen(disk, t.headEnd, p)
  }

  ghost predicate TailFresh(t: Task, align: nat, disk: seq<Byte>)
    requires align > 0
  {
    var from := Down(t.req.offset + t.req.bytes, align);
    && |t.tail| == align
    && forall p: nat :: t.req.offset + t.req.bytes <= p < from + align ==>
         t.tail[p - from] == Seen(disk, t.tailEnd, p)
  }

  /** What a request that holds its window knows about the disk. */
  ghost predicate DataOk(t: Task, align: nat, disk: seq<Byte>)
    requires align > 0
  {
    && ((t.pc.TailIo? || t.pc.WriteIo?) && HasHead(t, align) ==> HeadFresh(t, align, disk))
    && (t.pc.WriteIo? && HasTail(t, align) ==> TailFresh(t, align, disk))
    && (t.pc.WriteIo? ==> forall p :: p in t.pc.applied ==>
          Lo(t, align) <= p < Hi(t, align) && (t.req.serialising ==> At(disk, p) == Qiov(t, align, p)))
  }

  ghost predicate TaskOk(t: Task, align: nat, disk: seq<Byte>)
    requires align > 0
  {
    WindowOk(t, align) && PcOk(t, align) && DataOk(t, align, disk)
  }

  /** Requests that have passed their first wait never conflict. */
  ghost predicate Exclusive(tasks: seq<Task>)
  {
    forall i, j :: 0 <= i < |tasks| && 0 <= j < |tasks| && i != j && !tasks[i].pc.Blocked? && !tasks[j].pc.Blocked? ==>
      !Conflict(tasks[i].req, tasks[j].req)
  }

  /** Whoever waits, waits for a request that has ended, or that does not wait itself and
      conflicts with this one. */
  ghost predicate WaitsShallow(tasks: seq<Task>)
  {
    forall i, j :: 0 <= i < |tasks| && 0 <= j < |tasks| && tasks[i].pc.Blocked? && tasks[j].id == tasks[i].pc.target ==>
      !tasks[j].pc.Blocked? && Conflict(tasks[j].req, tasks[i].req)
  }

  ghost predicate IdsOk(tasks: seq<Task>, nextId: nat)
  {
    && (forall i :: 0 <= i < |tasks| ==> tasks[i].id < nextId)
    && (forall i :: 0 <= i < |tasks| && tasks[i].pc.Blocked? ==> tasks[i].pc.target < nextId)
    && (forall i, j :: 0 <= i < j < |tasks| ==> tasks[i].id != tasks[j].id)
  }

  ghost predicate Inv(d: Device)
  {
    && d.align > 0
    && d.inFlight == Serialising(Reqs(d.tasks))
    && IdsOk(d.tasks, d.nextId)
    && Exclusive(d.tasks)
    && WaitsShallow(d.tasks)
    && (forall i :: 0 <= i < |d.tasks| ==> TaskOk(d.tasks[i], d.align, d.disk))
  }

  /** A write's driver range lies in its window. */
  lemma WriteInWindow(t: Task, align: nat, p: nat)
    requires align > 0 && t.op.Write? && WindowOk(t, align) && Lo(t, align) <= p < Hi(t, align)
    ensures InWindow(t.req, p)
  {
    RoundUpOfMultiple(t.req.offset + t.req.bytes, align);
  }

  lemma Separate(r: Req, q: Req, p: nat)
    requires InWindow(r, p) && InWindow(q, p)
    ensures Overlaps(r, q.overlapOffset, q.overlapBytes)
  {
  }

  /** A request that passed its first wait would find nothing to wait for again. */
  lemma NoSecondWait(d: Device, k: nat)
    requires d.inFlight == Serialising(Reqs(d.tasks))
    requires k < |d.tasks| && !d.tasks[k].pc.Blocked?
    requires Exclusive(d.tasks)
    requires forall i :: 0 <= i < |d.tasks| ==> (d.tasks[i].pc.Blocked? <==> d.tasks[i].req.waiting)
    ensures Scan(d, k) == -1
  {
    var b := FirstBlocker(Reqs(d.tasks), k, 0);
  }

  /** Replacing a granted request by one with the same window keeps the invariant. */
  lemma ReplaceTask(d: Device, k: nat, t: Task)
    requires Inv(d) && k < |d.tasks| && !d.tasks[k].pc.Blocked? && !t.pc.Blocked?
    requires t.id == d.tasks[k].id && t.req == d.tasks[k].req
    requires TaskOk(t, d.align, d.disk)
    ensures Inv(d.(tasks := d.tasks[k := t]))
  {
    assert Reqs(d.tasks[k := t]) == Reqs(d.tasks);
  }

  ghost predicate OthersIds(tasks: seq<Task>, k: nat, nextId: nat)
  {
    && (forall i :: 0 <= i < |tasks| ==> tasks[i].id < nextId)
    && (forall i :: 0 <= i < |tasks| && i != k && tasks[i].pc.Blocked? ==> tasks[i].pc.target < nextId)
    && (forall i, j :: 0 <= i < j < |tasks| ==> tasks[i].id != tasks[j].id)
  }

  ghost predicate OthersExclusive(tasks: seq<Task>, k: nat)
  {
    forall i, j | 0 <= i < |tasks| && 0 <= j < |tasks| && i != j && i != k && j != k ::
      !tasks[i].pc.Blocked? && !tasks[j].pc.Blocked? ==> !Conflict(tasks[i].req, tasks[j].req)
  }

  ghost predicate OthersShallow(tasks: seq<Task>, k: nat)
  {
    forall i, j | 0 <= i < |tasks| && 0 <= j < |tasks| && i != k && tasks[i].pc.Blocked? ::
      tasks[j].id == tasks[i].pc.target ==> j != k && !tasks[j].pc.Blocked? && Conflict(tasks[j].req, tasks[i].req)
  }

  ghost predicate ArrivingTask(t: Task, align: nat)
    requires align > 0
  {
    WindowOk(t, align) && !t.req.waiting && !t.pc.WriteIo? && (t.op.Write? ==> t.req.bytes == |t.op.data|)
  }

  /** The invariant while request `k` is about to run its first wait: it takes part in
      nothing yet and nobody waits for it. */
  ghost predicate Arriving(d: Device, k: nat)
  {
    && d.align > 0 && k < |d.tasks|
    && d.inFlight == Serialising(Reqs(d.tasks))
    && OthersIds(d.tasks, k, d.nextId)
    && OthersExclusive(d.tasks, k)
    && OthersShallow(d.tasks, k)
    && (forall i :: 0 <= i < |d.tasks| && i != k ==> TaskOk(d.tasks[i], d.align, d.disk))
    && ArrivingTask(d.tasks[k], d.align)
  }

  /** Whom the scan lets pass conflicts only with requests that wait. */
  lemma ScanClear(d: Device, k: nat)
    requires Arriving(d, k) && Scan(d, k) == -1
    ensures forall i :: 0 <= i < |d.tasks| && i != k && !d.tasks[i].pc.Blocked? ==>
              !Conflict(d.tasks[i].req, d.tasks[k].req)
  {
    if d.inFlight == 0 {
      ShortcutAgrees(Reqs(d.tasks), k);
    }
    var rs := Reqs(d.tasks);
    forall i | 0 <= i < |d.tasks| && i != k && !d.tasks[i].pc.Blocked?
      ensures !Conflict(d.tasks[i].req, d.tasks[k].req)
    {
      assert TaskOk(d.tasks[i], d.align, d.disk);
      assert rs[i] == d.tasks[i].req;
    }
  }

  /** A request of fixed window changes nothing for the others. */
  lemma Settle(d: Device, k: nat, t: Task)
    requires Arriving(d, k) && t.id == d.tasks[k].id && t.req.(waiting := false) == d.tasks[k].req
    requires TaskOk(t, d.align, d.disk)
    requires t.pc.Blocked? ==> t.pc.target < d.nextId
    requires t.pc.Blocked? ==>
               forall j :: 0 <= j < |d.tasks| && d.tasks[j].id == t.pc.target ==>
                 j != k && !d.tasks[j].pc.Blocked? && Conflict(d.tasks[j].req, t.req)
    requires !t.pc.Blocked? ==>
               forall i :: 0 <= i < |d.tasks| && i != k && !d.tasks[i].pc.Blocked? ==> !Conflict(d.tasks[i].req, t.req)
    ensures Inv(d.(tasks := d.tasks[k := t]))
  {
    var tasks := d.tasks[k := t];
    assert Reqs(tasks) == Reqs(d.tasks)[k := t.req];
    SerialisingUpdate(Reqs(d.tasks), k, t.req);
    SettleShape(d, k, t);
  }

  lemma SettleShape(d: Device, k: nat, t: Task)
    requires Arriving(d, k) && t.id == d.tasks[k].id && t.req.(waiting := false) == d.tasks[k].req
    requires t.pc.Blocked? ==> t.pc.target < d.nextId
    requires t.pc.Blocked? ==>
               forall j :: 0 <= j < |d.tasks| && d.tasks[j].id == t.pc.target ==>
                 j != k && !d.tasks[j].pc.Blocked? && Conflict(d.tasks[j].req, t.req)
    requires !t.pc.Blocked? ==>
               forall i :: 0 <= i < |d.tasks| && i != k && !d.tasks[i].pc.Blocked? ==> !Conflict(d.tasks[i].req, t.req)
    ensures IdsOk(d.tasks[k := t], d.nextId) && Exclusive(d.tasks[k := t]) && WaitsShallow(d.tasks[k := t])
  {
  }

  lemma FirstWaitInv(d: Device, k: nat)
    requires Arriving(d, k)
    ensures Inv(FirstWait(d, k))
  {
    var t, b := d.tasks[k], Scan(d, k);
    if b == -1 {
      ScanClear(d, k);
      var t' := t.(req := t.req.(waiting := false), pc := Entered(d, t));
      EnteredOk(d, k, t');
      Settle(d, k, t');
    } else {
      var t' := t.(req := t.req.(waiting := true), pc := Blocked(d.tasks[b].id));
      assert TaskOk(d.tasks[b], d.align, d.disk);
      assert !d.tasks[b].pc.Blocked?;
      Settle(d, k, t');
    }
  }

  lemma EnteredOk(d: Device, k: nat, t': Task)
    requires Arriving(d, k)
    requires t' == d.tasks[k].(req := d.tasks[k].req.(waiting := false), pc := Entered(d, d.tasks[k]))
    ensures TaskOk(t', d.align, d.disk)
  {
    var t := d.tasks[k];
    if t.op.Write? {
      RoundUpOfMultiple(t.req.offset + t.req.bytes, d.align);
    }
  }

  lemma NewcomerOk(align: nat, id: nat, op: Op, offset: nat, bytes: nat)
    requires align > 0
    ensures WindowOk(Newcomer(align, id, op, offset, bytes), align)
  {
    MarkedWindow(offset, bytes, align);
    if op.Read? && op.cluster > 0 {
      MarkedWindow(offset, bytes, op.cluster);
    }
  }

  lemma StartInv(d: Device, op: Op, offset: nat, bytes: nat)
    requires Inv(d) && (op.Write? ==> bytes == |op.data|)
    ensures Inv(Start(d, op, offset, bytes))
  {
    var t := Newcomer(d.align, d.nextId, op, offset, bytes);
    NewcomerOk(d.align, d.nextId, op, offset, bytes);
    Arrive(d, t);
    FirstWaitInv(Join(d, t), 0);
  }

  lemma Arrive(d: Device, t: Task)
    requires Inv(d) && t.id == d.nextId && t.pc == ReadIo && ArrivingTask(t, d.align)
    ensures Arriving(Join(d, t), 0)
  {
    hide TaskOk, IdsOk, Exclusive, WaitsShallow, OthersIds, OthersExclusive, OthersShallow, ArrivingTask;
    var tasks := [t] + d.tasks;
    assert Serialising(Reqs(tasks)) == Serialising(Reqs(d.tasks)) + if t.req.serialising then 1 else 0 by {
      assert Reqs(tasks)[1..] == Reqs(d.tasks);
    }
    hide Reqs, Serialising;
    ArriveShape(d.tasks, d.nextId, t);
    forall i | 1 <= i < |tasks|
      ensures TaskOk(tasks[i], d.align, d.disk)
    {
      assert tasks[i] == d.tasks[i - 1];
    }
  }

  lemma ArriveShape(tasks: seq<Task>, nextId: nat, t: Task)
    requires IdsOk(tasks, nextId) && Exclusive(tasks) && WaitsShallow(tasks) && t.id == nextId && !t.pc.Blocked?
    ensures OthersIds([t] + tasks, 0, nextId + 1) && OthersExclusive([t] + tasks, 0) && OthersShallow([t] + tasks, 0)
  {
    var tasks' := [t] + tasks;
    assert forall i :: 1 <= i < |tasks'| ==> tasks'[i] == tasks[i - 1];
  }

  lemma WakeInv(d: Device, k: nat)
    requires Inv(d) && k < |d.tasks| && d.tasks[k].pc.Blocked?
    ensures Inv(FirstWait(d.(tasks := d.tasks[k := d.tasks[k].(req := d.tasks[k].req.(waiting := false))]), k))
  {
    var t := d.tasks[k].(req := d.tasks[k].req.(waiting := false));
    var d1 := d.(tasks := d.tasks[k := t]);
    assert TaskOk(d.tasks[k], d.align, d.disk);
    assert Reqs(d1.tasks) == Reqs(d.tasks)[k := t.req];
    SerialisingUpdate(Reqs(d.tasks), k, t.req);
    FirstWaitInv(d1, k);
  }

  lemma HeadRead(t: Task, align: nat, disk: seq<Byte>)
    requires align > 0 && TaskOk(t, align, disk) && t.pc.HeadIo?
    ensures HeadFresh(HeadIn(t, align, disk), align, disk)
    ensures Marked(t.req, align) == t.req
    ensures WriteAsserts(t, align, false)
  {
  }

  lemma TailRead(t: Task, align: nat, disk: seq<Byte>)
    requires align > 0 && TaskOk(t, align, disk) && t.pc.TailIo?
    ensures TailFresh(TailIn(t, align, disk), align, disk)
    ensures WriteAsserts(t, align, false)
  {
    RoundUpOfMultiple(t.req.offset + t.req.bytes, align);
  }

  /** A granted request finds nothing to wait for, whatever its buffers hold. */
  lemma StillClear(d: Device, k: nat, t: Task)
    requires Inv(d) && k < |d.tasks| && !d.tasks[k].pc.Blocked? && !t.pc.Blocked? && t.req == d.tasks[k].req
    ensures Scan(d.(tasks := d.tasks[k := t]), k) == -1
  {
    assert Reqs(d.tasks[k := t]) == Reqs(d.tasks);
    NoSecondWait(d, k);
  }

  lemma HeadDoneIs(d: Device, k: nat, t1: Task)
    requires Inv(d) && k < |d.tasks| && d.tasks[k].pc.HeadIo? && t1 == HeadIn(d.tasks[k], d.align, d.disk)
    ensures HeadDone(d, k) ==
            d.(tasks := d.tasks[k := t1.(pc := if HasTail(t1, d.align) then TailIo(d.total) else WriteIo({}))])
  {
    assert TaskOk(d.tasks[k], d.align, d.disk);
    HeadRead(d.tasks[k], d.align, d.disk);
    StillClear(d, k, t1);
    assert t1.(req := Marked(t1.req, d.align)) == t1;
  }

  lemma HeadDoneInv(d: Device, k: nat)
    requires Inv(d) && k < |d.tasks| && d.tasks[k].pc.HeadIo?
    ensures Inv(HeadDone(d, k))
  {
    hide HeadDone, ReadBlock;
    var t := d.tasks[k];
    assert TaskOk(t, d.align, d.disk);
    HeadRead(t, d.align, d.disk);
    var t1 := HeadIn(t, d.align, d.disk);
    HeadDoneIs(d, k, t1);
    var t2 := t1.(pc := if HasTail(t1, d.align) then TailIo(d.total) else WriteIo({}));
    SameBuffers(t1, t2, d.align, d.disk);
    ReplaceTask(d, k, t2);
  }

  lemma TailDoneIs(d: Device, k: nat, t1: Task)
    requires Inv(d) && k < |d.tasks| && d.tasks[k].pc.TailIo? && t1 == TailIn(d.tasks[k], d.align, d.disk)
    ensures TailDone(d, k) == d.(tasks := d.tasks[k := t1.(pc := WriteIo({}))])
  {
    assert TaskOk(d.tasks[k], d.align, d.disk);
    TailRead(d.tasks[k], d.align, d.disk);
    StillClear(d, k, t1);
  }

  lemma AfterTail(t: Task, align: nat, disk: seq<Byte>)
    requires align > 0 && TaskOk(t, align, disk) && t.pc.TailIo?
    ensures TaskOk(TailIn(t, align, disk).(pc := WriteIo({})), align, disk)
  {
    TailRead(t, align, disk);
    var t1 := TailIn(t, align, disk);
    SameBuffers(t1, t1.(pc := WriteIo({})), align, disk);
    assert HeadFresh(t, align, disk) <==> HeadFresh(t1, align, disk);
  }

  lemma TailDoneInv(d: Device, k: nat)
    requires Inv(d) && k < |d.tasks| && d.tasks[k].pc.TailIo?
    ensures Inv(TailDone(d, k))
  {
    var t := d.tasks[k];
    assert TaskOk(t, d.align, d.disk);
    var t1 := TailIn(t, d.align, d.disk);
    TailDoneIs(d, k, t1);
    AfterTail(t, d.align, d.disk);
    ReplaceTask(d, k, t1.(pc := WriteIo({})));
  }

  lemma EndShape(d: Device, k: nat)
    requires Inv(d) && k < |d.tasks|
    ensures var tasks := d.tasks[..k] + d.tasks[k + 1..];
            IdsOk(tasks, d.nextId) && Exclusive(tasks) && WaitsShallow(tasks)
  {
    var tasks := d.tasks[..k] + d.tasks[k + 1..];
    assert forall i :: 0 <= i < k ==> tasks[i] == d.tasks[i];
    assert forall i :: k <= i < |tasks| ==> tasks[i] == d.tasks[i + 1];
    EndIds(d.tasks, k, d.nextId);
  }

  lemma EndIds(tasks: seq<Task>, k: nat, nextId: nat)
    requires k < |tasks| && IdsOk(tasks, nextId)
    ensures IdsOk(tasks[..k] + tasks[k + 1..], nextId)
  {
    var tasks' := tasks[..k] + tasks[k + 1..];
    assert forall i :: 0 <= i < k ==> tasks'[i] == tasks[i];
    assert forall i :: k <= i < |tasks'| ==> tasks'[i] == tasks[i + 1];
  }

  /** A request may leave at any time, and the recorded end may change. */
  lemma EndInv(d: Device, k: nat, total: nat)
    requires Inv(d) && k < |d.tasks|
    ensures Inv(End(d.(total := total), k))
  {
    var tasks := d.tasks[..k] + d.tasks[k + 1..];
    EndShape(d, k);
    assert Reqs(tasks) == Reqs(d.tasks)[..k] + Reqs(d.tasks)[k + 1..];
    SerialisingRemove(Reqs(d.tasks), k);
    forall i | 0 <= i < |tasks|
      ensures TaskOk(tasks[i], d.align, d.disk)
    {
      assert tasks[i] == d.tasks[if i < k then i else i + 1];
    }
  }

  /** The device length that was sampled for a byte carried along. */
  ghost function SampledEnd(t: Task, pos: nat): nat
  {
    if pos < t.req.offset then t.headEnd else t.tailEnd
  }

  /** A carried-along byte is written back as it is if and only if it is below the length
      sampled when its block was read, or is zero; otherwise it is written as zero. */
  lemma CarriedExactly(t: Task, align: nat, disk: seq<Byte>, p: nat)
    requires align > 0 && TaskOk(t, align, disk) && t.pc.WriteIo?
    requires Lo(t, align) <= p < Hi(t, align) && Carried(t, p)
    ensures Qiov(t, align, p) == Seen(disk, SampledEnd(t, p), p)
    ensures Qiov(t, align, p) == At(disk, p) <==> p < SampledEnd(t, p) || At(disk, p) == 0
  {
    RoundUpOfMultiple(t.req.offset + t.req.bytes, align);
  }

  lemma SeenPut(disk: seq<Byte>, pos: nat, v: Byte, end: nat, p: nat)
    ensures Seen(Put(disk, pos, v), end, p) == if p == pos && p < end then v else Seen(disk, end, p)
  {
  }

  /** A byte that is not carried along, or is as its block says, leaves the blocks fresh. */
  lemma KeepsFresh(t: Task, align: nat, disk: seq<Byte>, pos: nat, v: Byte)
    requires align > 0
    requires Lo(t, align) <= pos < Hi(t, align) && Carried(t, pos) ==> v == Seen(disk, SampledEnd(t, pos), pos)
    ensures HeadFresh(t, align, disk) ==> HeadFresh(t, align, Put(disk, pos, v))
    ensures HasTail(t, align) && TailFresh(t, align, disk) ==> TailFresh(t, align, Put(disk, pos, v))
  {
    RoundUpOfMultiple(t.req.offset + t.req.bytes, align);
    forall p: nat
      ensures Seen(Put(disk, pos, v), t.headEnd, p) ==
              if p == pos && p < t.headEnd then v else Seen(disk, t.headEnd, p)
      ensures Seen(Put(disk, pos, v), t.tailEnd, p) ==
              if p == pos && p < t.tailEnd then v else Seen(disk, t.tailEnd, p)
    {
      SeenPut(disk, pos, v, t.headEnd, p);
      SeenPut(disk, pos, v, t.tailEnd, p);
    }
    hide Put, At, Lo, Hi;
  }

  /** A byte outside another request's window does not matter to it. */
  lemma OtherTaskOk(t: Task, align: nat, disk: seq<Byte>, pos: nat, v: Byte)
    requires align > 0 && TaskOk(t, align, disk)
    requires t.req.serialising && !t.pc.Blocked? ==> !InWindow(t.req, pos)
    ensures TaskOk(t, align, Put(disk, pos, v))
  {
    if t.op.Write? && t.req.serialising && !t.pc.Blocked? {
      assert !(Lo(t, align) <= pos < Hi(t, align)) by {
        if Lo(t, align) <= pos < Hi(t, align) {
          WriteInWindow(t, align, pos);
        }
      }
      KeepsFresh(t, align, disk, pos, v);
    }
    hide HeadFresh, TailFresh, Lo, Hi, Qiov;
  }

  lemma OwnTaskOk(t: Task, align: nat, disk: seq<Byte>, pos: nat)
    requires align > 0 && TaskOk(t, align, disk) && t.pc.WriteIo? && Lo(t, align) <= pos < Hi(t, align)
    ensures TaskOk(t.(pc := WriteIo(t.pc.applied + {pos})), align, Put(disk, pos, Qiov(t, align, pos)))
  {
    var v := Qiov(t, align, pos);
    var disk' := Put(disk, pos, v);
    var t' := t.(pc := WriteIo(t.pc.applied + {pos}));
    if Carried(t, pos) {
      CarriedExactly(t, align, disk, pos);
    }
    KeepsFresh(t, align, disk, pos, v);
    OwnApplied(t, align, disk, pos);
    SameBuffers(t, t', align, disk');
  }

  /** Buffers and window decide; where the coroutine stands does not. */
  lemma SameBuffers(t: Task, t': Task, align: nat, disk: seq<Byte>)
    requires align > 0 && t' == t.(pc := t'.pc)
    ensures HeadFresh(t', align, disk) <==> HeadFresh(t, align, disk)
    ensures TailFresh(t', align, disk) <==> TailFresh(t, align, disk)
    ensures WindowOk(t', align) <==> WindowOk(t, align)
    ensures forall p: nat :: Qiov(t', align, p) == Qiov(t, align, p)
  {
    assert Lo(t', align) == Lo(t, align) && Hi(t', align) == Hi(t, align);
  }

  lemma OwnApplied(t: Task, align: nat, disk: seq<Byte>, pos: nat)
    requires align > 0 && TaskOk(t, align, disk) && t.pc.WriteIo? && Lo(t, align) <= pos < Hi(t, align)
    ensures forall p :: p in t.pc.applied + {pos} ==>
              Lo(t, align) <= p < Hi(t, align)
              && (t.req.serialising ==> At(Put(disk, pos, Qiov(t, align, pos)), p) == Qiov(t, align, p))
  {
  }

  lemma ApplyInv(d: Device, k: nat, pos: nat)
    requires Inv(d) && k < |d.tasks| && d.tasks[k].pc.WriteIo?
    requires Lo(d.tasks[k], d.align) <= pos < Hi(d.tasks[k], d.align)
    ensures Inv(Apply(d, k, pos))
  {
    var t := d.tasks[k];
    var t' := t.(pc := WriteIo(t.pc.applied + {pos}));
    var v := Qiov(t, d.align, pos);
    var d' := Apply(d, k, pos);
    assert TaskOk(t, d.align, d.disk);
    OwnTaskOk(t, d.align, d.disk, pos);
    WriteInWindow(t, d.align, pos);
    forall i | 0 <= i < |d'.tasks|
      ensures TaskOk(d'.tasks[i], d.align, d'.disk)
    {
      if i != k {
        var q := d.tasks[i];
        if q.req.serialising && !q.pc.Blocked? && InWindow(q.req, pos) {
          Separate(q.req, t.req, pos);
        }
        OtherTaskOk(q, d.align, d.disk, pos, v);
      }
    }
    assert Reqs(d'.tasks) == Reqs(d.tasks);
  }

  lemma WriteDoneInv(d: Device, k: nat)
    requires Inv(d) && k < |d.tasks| && d.tasks[k].pc.WriteIo?
    ensures Inv(WriteDone(d, k))
  {
    var end := Hi(d.tasks[k], d.align);
    EndInv(d, k, if d.total > end then d.total else end);
  }

  /** Every step of every request keeps the invariant. */
  lemma StepInv(d: Device, a: Action)
    requires Inv(d) && Enabled(d, a)
    ensures Inv(Do(d, a))
  {
    match a
    case AStart(op, offset, bytes) => StartInv(d, op, offset, bytes);
    case AWake(k) => WakeInv(d, k);
    case AHeadDone(k) => HeadDoneInv(d, k);
    case ATailDone(k) => TailDoneInv(d, k);
    case AApply(k, pos) => ApplyInv(d, k, pos);
    case AWriteDone(k) => WriteDoneInv(d, k);
    case AReadDone(k) => EndInv(d, k, d.total);
    case AFail(k) => EndInv(d, k, d.total);
  }
}
