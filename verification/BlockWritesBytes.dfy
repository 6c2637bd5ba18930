/** What becomes of one byte of the disk over a run of requests (qemu/block.c:3036-3119,
    3321-3503).

    A write that fails, or whose flush fails, leaves on the disk what it has put there, and the
    recorded length stays.  A byte left past that length reads as zero, so a later write to
    its block carries a zero along and puts it over the byte. */
module BlockWritesBytes {
  import opened Alignment
  import opened TrackedRequests
  import opened Bytes
  import opened BlockWrites
  import opened BlockWritesProofs

  /** A write fails that has put byte `pos` on the disk, past the recorded length. */
  ghost predicate Leaves(d: Device, a: Action, pos: nat)
    requires d.align > 0 && Enabled(d, a)
  {
    a.AFail? && d.tasks[a.k].pc.WriteIo? && pos in d.tasks[a.k].pc.applied && d.total <= pos
  }

  ghost predicate LeavesIn(d: Device, acts: seq<Action>, pos: nat)
    requires d.align > 0 && CanRun(d, acts)
    decreases |acts|
  {
    acts != [] && (Leaves(d, acts[0], pos) || LeavesIn(Do(d, acts[0]), acts[1..], pos))
  }

  /** The step puts a zero that a read past its sampled length returned over a byte that is
      not zero. */
  ghost predicate Clobbers(d: Device, a: Action, pos: nat)
    requires d.align > 0 && Enabled(d, a)
  {
    && a.AApply? && a.pos == pos && Carried(d.tasks[a.k], pos)
    && SampledEnd(d.tasks[a.k], pos) <= pos && At(d.disk, pos) != 0
  }

  /** Byte `pos` was clobbered, and since then no write has had it as its own. */
  ghost predicate LostIn(d: Device, acts: seq<Action>, pos: nat, lost: bool)
    requires d.align > 0 && CanRun(d, acts)
    decreases |acts|
  {
    if acts == [] then lost
    else
      LostIn(Do(d, acts[0]), acts[1..], pos, !WritesOwn(d, acts[0], pos) && (lost || Clobbers(d, acts[0], pos)))
  }

  ghost predicate Writing(tasks: seq<Task>, pos: nat)
  {
    exists i :: 0 <= i < |tasks| && tasks[i].pc.WriteIo? && pos in tasks[i].pc.applied
  }

  /** A byte that is not zero lies below every length that the request samples for it. */
  ghost predicate ReadsRight(t: Task, align: nat, disk: seq<Byte>, pos: nat)
    requires align > 0
  {
    t.op.Write? && !t.pc.Blocked? && t.req.serialising && InWindow(t.req, pos) && At(disk, pos) != 0 ==>
      && (t.pc.HeadIo? || t.pc.TailIo? ==> pos < t.pc.total)
      && ((t.pc.TailIo? || t.pc.WriteIo?) && HasHead(t, align) && pos < t.req.offset ==> pos < t.headEnd)
      && (t.pc.WriteIo? && HasTail(t, align) && t.req.offset + t.req.bytes <= pos ==> pos < t.tailEnd)
  }

  /** Byte `pos` is below the recorded length, or zero, or being written right now, and every
      request reads it as it is. */
  ghost predicate ByteOk(d: Device, pos: nat)
  {
    && d.align > 0
    && (d.total <= pos && At(d.disk, pos) != 0 ==> Writing(d.tasks, pos))
    && forall i :: 0 <= i < |d.tasks| ==> ReadsRight(d.tasks[i], d.align, d.disk, pos)
  }

  lemma IdleByteOk(d: Device, pos: nat)
    requires Idle(d)
    ensures ByteOk(d, pos)
  {
  }

  /** No one is writing in the window of a granted serialising request, so its bytes past the
      end of the device are zero. */
  lemma BelowNow(d: Device, k: nat, pos: nat)
    requires Inv(d) && k < |d.tasks| && d.tasks[k].req.serialising
    requires !d.tasks[k].pc.WriteIo? && !d.tasks[k].pc.Blocked? && InWindow(d.tasks[k].req, pos)
    requires d.total <= pos && At(d.disk, pos) != 0 ==> Writing(d.tasks, pos)
    ensures At(d.disk, pos) != 0 ==> pos < d.total
  {
    forall i | 0 <= i < |d.tasks| && d.tasks[i].pc.WriteIo? ensures pos !in d.tasks[i].pc.applied {
      WriterApart(d, i, k, pos);
      assert TaskOk(d.tasks[i], d.align, d.disk);
    }
  }

  /** A request that writes a byte keeps it out of every other granted serialising window. */
  lemma WriterApart(d: Device, i: nat, k: nat, pos: nat)
    requires Inv(d) && i < |d.tasks| && k < |d.tasks| && i != k && d.tasks[i].pc.WriteIo?
    requires d.tasks[k].req.serialising && !d.tasks[k].pc.Blocked? && InWindow(d.tasks[k].req, pos)
    ensures !(Lo(d.tasks[i], d.align) <= pos < Hi(d.tasks[i], d.align))
  {
    assert TaskOk(d.tasks[i], d.align, d.disk);
    if Lo(d.tasks[i], d.align) <= pos < Hi(d.tasks[i], d.align) {
      WriteInWindow(d.tasks[i], d.align, pos);
      Separate(d.tasks[i].req, d.tasks[k].req, pos);
      assert false;
    }
  }

  /** A request that has just been granted, or waits. */
  ghost predicate JustIn(d: Device, t: Task)
    requires d.align > 0
  {
    || t.pc.Blocked? || t.pc.ReadIo? || t.pc == HeadIo(d.total)
    || (t.pc == TailIo(d.total) && !HasHead(t, d.align))
    || (t.pc.WriteIo? && !HasHead(t, d.align) && !HasTail(t, d.align))
  }

  lemma JustInRight(d: Device, k: nat, pos: nat)
    requires Inv(d) && k < |d.tasks| && JustIn(d, d.tasks[k])
    requires d.total <= pos && At(d.disk, pos) != 0 ==> Writing(d.tasks, pos)
    ensures ReadsRight(d.tasks[k], d.align, d.disk, pos)
  {
    var t := d.tasks[k];
    if !t.pc.Blocked? && !t.pc.WriteIo? && t.req.serialising && InWindow(t.req, pos) {
      BelowNow(d, k, pos);
    }
  }

  /** The new task list has the old one's tasks, and perhaps another at place `k`. */
  ghost predicate OneChanged(tasks: seq<Task>, tasks': seq<Task>, k: nat)
  {
    && k < |tasks'|
    && (forall i :: 0 <= i < |tasks'| && i != k ==> tasks'[i] in tasks)
    && (forall i :: 0 <= i < |tasks| && tasks[i].pc.WriteIo? ==> tasks[i] in tasks')
  }

  lemma StillWriting(tasks: seq<Task>, tasks': seq<Task>, k: nat, pos: nat)
    requires OneChanged(tasks, tasks', k) && Writing(tasks, pos)
    ensures Writing(tasks', pos)
  {
    var i :| 0 <= i < |tasks| && tasks[i].pc.WriteIo? && pos in tasks[i].pc.applied;
    var j :| 0 <= j < |tasks'| && tasks'[j] == tasks[i];
  }

  /** A step that leaves the disk and the end alone and changes one request that does not
      write. */
  lemma ChangedByteOk(d: Device, d': Device, k: nat, pos: nat)
    requires Inv(d) && ByteOk(d, pos) && Inv(d') && OneChanged(d.tasks, d'.tasks, k)
    requires d'.disk == d.disk && d'.total == d.total && d'.align == d.align
    requires (d.total <= pos && At(d.disk, pos) != 0 ==> Writing(d'.tasks, pos)) ==>
               ReadsRight(d'.tasks[k], d.align, d.disk, pos)
    ensures ByteOk(d', pos)
  {
    hide ReadsRight, Inv;
    if d.total <= pos && At(d.disk, pos) != 0 {
      StillWriting(d.tasks, d'.tasks, k, pos);
    }
    forall i | 0 <= i < |d'.tasks| ensures ReadsRight(d'.tasks[i], d.align, d.disk, pos) {
      if i != k {
        assert d'.tasks[i] in d.tasks;
        var j :| 0 <= j < |d.tasks| && d.tasks[j] == d'.tasks[i];
      }
    }
  }

  lemma UpdateIsOne(tasks: seq<Task>, k: nat, t: Task)
    requires k < |tasks| && !tasks[k].pc.WriteIo?
    ensures OneChanged(tasks, tasks[k := t], k)
  {
    var tasks' := tasks[k := t];
    forall i | 0 <= i < |tasks'| && i != k ensures tasks'[i] in tasks {
      assert tasks'[i] == tasks[i];
    }
    forall i | 0 <= i < |tasks| && tasks[i].pc.WriteIo? ensures tasks[i] in tasks' {
      assert tasks'[i] == tasks[i];
    }
  }

  lemma FrontIsOne(tasks: seq<Task>, t: Task)
    ensures OneChanged(tasks, [t] + tasks, 0)
  {
    var tasks' := [t] + tasks;
    forall i | 0 <= i < |tasks| ensures tasks[i] in tasks' {
      assert tasks'[i + 1] == tasks[i];
    }
    forall i | 0 < i < |tasks'| ensures tasks'[i] in tasks {
      assert tasks'[i] == tasks[i - 1];
    }
  }

  lemma StartByte(d: Device, op: Op, offset: nat, bytes: nat, pos: nat)
    requires Inv(d) && ByteOk(d, pos) && (op.Write? ==> bytes == |op.data|)
    ensures ByteOk(Start(d, op, offset, bytes), pos)
  {
    var d' := Start(d, op, offset, bytes);
    StartInv(d, op, offset, bytes);
    assert d'.tasks == [d'.tasks[0]] + d.tasks;
    FrontIsOne(d.tasks, d'.tasks[0]);
    assert JustIn(d', d'.tasks[0]) by { assert TaskOk(d'.tasks[0], d.align, d.disk); }
    hide Start, Inv, ReadsRight, ByteOk, OneChanged, JustIn;
    if d.total <= pos && At(d.disk, pos) != 0 ==> Writing(d'.tasks, pos) {
      JustInRight(d', 0, pos);
    }
    ChangedByteOk(d, d', 0, pos);
  }

  lemma WakeByte(d: Device, k: nat, pos: nat)
    requires Inv(d) && ByteOk(d, pos) && Enabled(d, AWake(k))
    ensures ByteOk(Do(d, AWake(k)), pos)
  {
    var d' := Do(d, AWake(k));
    WakeInv(d, k);
    assert d'.tasks == d.tasks[k := d'.tasks[k]];
    UpdateIsOne(d.tasks, k, d'.tasks[k]);
    assert JustIn(d', d'.tasks[k]) by { assert TaskOk(d'.tasks[k], d.align, d.disk); }
    hide Do, Inv, ReadsRight, ByteOk, OneChanged, JustIn;
    if d.total <= pos && At(d.disk, pos) != 0 ==> Writing(d'.tasks, pos) {
      JustInRight(d', k, pos);
    }
    ChangedByteOk(d, d', k, pos);
  }

  lemma HeadByte(d: Device, k: nat, pos: nat)
    requires Inv(d) && ByteOk(d, pos) && Enabled(d, AHeadDone(k))
    ensures ByteOk(Do(d, AHeadDone(k)), pos)
  {
    var t1 := HeadIn(d.tasks[k], d.align, d.disk);
    HeadDoneIs(d, k, t1);
    HeadDoneInv(d, k);
    var d' := HeadDone(d, k);
    UpdateIsOne(d.tasks, k, d'.tasks[k]);
    assert ReadsRight(d.tasks[k], d.align, d.disk, pos);
    hide HeadDone, Inv, ByteOk, OneChanged, HeadIn, ReadsRight;
    if d.total <= pos && At(d.disk, pos) != 0 ==> Writing(d'.tasks, pos) {
      HeadRight(d, d', k, pos);
    }
    ChangedByteOk(d, d', k, pos);
  }

  lemma HeadRight(d: Device, d': Device, k: nat, pos: nat)
    requires Inv(d') && k < |d.tasks| == |d'.tasks| && d.align > 0 && d.tasks[k].pc.HeadIo?
    requires ReadsRight(d.tasks[k], d.align, d.disk, pos)
    requires var t1 := HeadIn(d.tasks[k], d.align, d.disk);
             d'.tasks[k] == t1.(pc := if HasTail(t1, d.align) then TailIo(d.total) else WriteIo({}))
    requires d'.disk == d.disk && d'.total == d.total && d'.align == d.align
    requires d.total <= pos && At(d.disk, pos) != 0 ==> Writing(d'.tasks, pos)
    ensures ReadsRight(d'.tasks[k], d.align, d.disk, pos)
  {
    hide Inv, At, ReadBlock, Writing, Down;
    var t := d'.tasks[k];
    if t.pc.TailIo? && t.req.serialising && InWindow(t.req, pos) {
      BelowNow(d', k, pos);
    }
  }

  lemma TailByte(d: Device, k: nat, pos: nat)
    requires Inv(d) && ByteOk(d, pos) && Enabled(d, ATailDone(k))
    ensures ByteOk(Do(d, ATailDone(k)), pos)
  {
    var t1 := TailIn(d.tasks[k], d.align, d.disk);
    TailDoneIs(d, k, t1);
    TailDoneInv(d, k);
    var d' := TailDone(d, k);
    UpdateIsOne(d.tasks, k, d'.tasks[k]);
    assert ReadsRight(d.tasks[k], d.align, d.disk, pos);
    hide TailDone, Inv, ByteOk, OneChanged;
    ChangedByteOk(d, d', k, pos);
  }

  lemma ApplyByte(d: Device, k: nat, p: nat, pos: nat)
    requires Inv(d) && ByteOk(d, pos) && Enabled(d, AApply(k, p))
    ensures ByteOk(Do(d, AApply(k, p)), pos)
  {
    var d', t := Do(d, AApply(k, p)), d.tasks[k];
    assert TaskOk(t, d.align, d.disk);
    assert d'.tasks[k].pc.applied == t.pc.applied + {p};
    if Writing(d.tasks, pos) {
      var i :| 0 <= i < |d.tasks| && d.tasks[i].pc.WriteIo? && pos in d.tasks[i].pc.applied;
      assert d'.tasks[i].pc.WriteIo? && pos in d'.tasks[i].pc.applied;
    }
    assert p == pos ==> Writing(d'.tasks, pos);
    forall i | 0 <= i < |d'.tasks| ensures ReadsRight(d'.tasks[i], d.align, d'.disk, pos) {
      AppliedRight(d, k, p, pos, i);
    }
  }

  lemma AppliedRight(d: Device, k: nat, p: nat, pos: nat, i: nat)
    requires Inv(d) && ByteOk(d, pos) && Enabled(d, AApply(k, p)) && i < |d.tasks|
    ensures var d' := Apply(d, k, p); ReadsRight(d'.tasks[i], d.align, d'.disk, pos)
  {
    assert TaskOk(d.tasks[k], d.align, d.disk) && ReadsRight(d.tasks[i], d.align, d.disk, pos);
    if i == k && p == pos {
      OwnByte(d.tasks[k], d.align, d.disk, pos);
    } else if p == pos && d.tasks[i].req.serialising && !d.tasks[i].pc.Blocked? {
      if InWindow(d.tasks[i].req, pos) {
        WriterApart(d, k, i, pos);
        assert false;
      }
    }
    hide Lo, Hi, Qiov, Put;
  }

  lemma OwnByte(t: Task, align: nat, disk: seq<Byte>, pos: nat)
    requires align > 0 && TaskOk(t, align, disk) && t.pc.WriteIo? && Lo(t, align) <= pos < Hi(t, align)
    ensures ReadsRight(t.(pc := WriteIo(t.pc.applied + {pos})), align, Put(disk, pos, Qiov(t, align, pos)), pos)
  {
    if Carried(t, pos) {
      CarriedExactly(t, align, disk, pos);
    }
  }

  /** A request leaves that has put `pos` nowhere, or below the new end. */
  lemma EndByte(d: Device, k: nat, total: nat, pos: nat)
    requires Inv(d) && ByteOk(d, pos) && k < |d.tasks| && d.total <= total
    requires d.tasks[k].pc.WriteIo? && pos in d.tasks[k].pc.applied ==> pos < total
    ensures ByteOk(End(d.(total := total), k), pos)
  {
    var d' := End(d.(total := total), k);
    if total <= pos && At(d.disk, pos) != 0 {
      var i :| 0 <= i < |d.tasks| && d.tasks[i].pc.WriteIo? && pos in d.tasks[i].pc.applied;
      assert d'.tasks[if i < k then i else i - 1] == d.tasks[i];
    }
    forall i | 0 <= i < |d'.tasks| ensures ReadsRight(d'.tasks[i], d.align, d.disk, pos) {
      assert d'.tasks[i] == d.tasks[if i < k then i else i + 1];
    }
  }

  /** Every step keeps what holds of a byte, unless it is the failure of a write that leaves
      the byte past the end. */
  lemma ByteStep(d: Device, a: Action, pos: nat)
    requires Inv(d) && Enabled(d, a) && ByteOk(d, pos) && !Leaves(d, a, pos)
    ensures ByteOk(Do(d, a), pos)
  {
    hide ByteOk;
    match a
    case AStart(op, offset, bytes) => StartByte(d, op, offset, bytes, pos);
    case AWake(k) => WakeByte(d, k, pos);
    case AHeadDone(k) => HeadByte(d, k, pos);
    case ATailDone(k) => TailByte(d, k, pos);
    case AApply(k, p) => ApplyByte(d, k, p, pos);
    case AWriteDone(k) =>
      assert TaskOk(d.tasks[k], d.align, d.disk);
      var end := Hi(d.tasks[k], d.align);
      EndByte(d, k, if d.total > end then d.total else end, pos);
    case AReadDone(k) => EndByte(d, k, d.total, pos);
    case AFail(k) => EndByte(d, k, d.total, pos);
  }

  /** Of such a byte no carried-along zero is put over data. */
  lemma NoClobber(d: Device, a: Action, pos: nat)
    requires Inv(d) && Enabled(d, a) && ByteOk(d, pos)
    ensures !Clobbers(d, a, pos)
  {
    if a.AApply? && a.pos == pos {
      var t := d.tasks[a.k];
      assert TaskOk(t, d.align, d.disk) && ReadsRight(t, d.align, d.disk, pos);
      WriteInWindow(t, d.align, pos);
      RoundUpOfMultiple(t.req.offset + t.req.bytes, d.align);
    }
  }
}
