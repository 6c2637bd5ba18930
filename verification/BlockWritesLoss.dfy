/** A run in which a byte is lost (qemu/block.c:3070-3108, 3358-3374): the first byte of an
    extending write reaches the disk and the write fails; then a write of the byte beside it
    puts a zero over the first one. */
module BlockWritesLoss {
  import opened Alignment
  import opened TrackedRequests
  import opened Bytes
  import opened BlockWrites
  import opened BlockWritesProofs
  import opened BlockWritesBytes

  function Blank(align: nat): Device
  {
    Device(align, [], 0, 0, [], 0)
  }

  function First(data: seq<Byte>, applied: set<nat>): Task
  {
    Task(0, Begun(0, |data|), Write(data), [], 0, [], 0, WriteIo(applied))
  }

  /** The first write is with the driver, and has put `applied` on the disk. */
  function Extending(data: seq<Byte>, disk: seq<Byte>, applied: set<nat>): Device
  {
    Device(|data|, [First(data, applied)], 0, 1, disk, 0)
  }

  /** It has failed. */
  function LeftOver(data: seq<Byte>): Device
    requires data != []
  {
    Device(|data|, [], 0, 1, [data[0]], 0)
  }

  lemma Ends(t: Task, align: nat)
    requires align > 0 && t.req.offset == 0 && t.req.bytes == align
    ensures Lo(t, align) == 0 && Hi(t, align) == align && !HasHead(t, align) && !HasTail(t, align)
  {
    ModOf(0, align, 0);
    ModOf(1, align, 0);
    RoundUpOfMultiple(align, align);
    hide Down, RoundUp;
  }

  lemma FirstStarts(data: seq<Byte>)
    requires data != []
    ensures Enabled(Blank(|data|), AStart(Write(data), 0, |data|))
    ensures Do(Blank(|data|), AStart(Write(data), 0, |data|)) == Extending(data, [], {})
  {
    var align, t := |data|, First(data, {}).(pc := ReadIo);
    Ends(t, align);
    hide Lo, Hi, HasHead, HasTail;
    assert Newcomer(align, 0, Write(data), 0, align) == t;
    var d := Device(align, [t], 0, 1, [], 0);
    assert Join(Blank(align), t) == d;
    assert Scan(d, 0) == -1 && Entered(d, t) == WriteIo({});
    assert [t][0 := First(data, {})] == [First(data, {})];
  }

  lemma FirstApplies(data: seq<Byte>)
    requires data != []
    ensures var d := Extending(data, [], {});
            && Enabled(d, AApply(0, 0)) && Wanted(d, AApply(0, 0), 0, 0) == data[0]
            && Do(d, AApply(0, 0)) == Extending(data, [data[0]], {0})
  {
    var t := First(data, {});
    Ends(t, |data|);
    assert Qiov(t, |data|, 0) == data[0];
    assert Put([], 0, data[0]) == [data[0]];
    hide Qiov, Lo, Hi, Put;
    assert {} + {0} == {0} && [t][0 := First(data, {0})] == [First(data, {0})];
  }

  lemma FirstFails(data: seq<Byte>)
    requires data != []
    ensures var d := Extending(data, [data[0]], {0});
            Enabled(d, AFail(0)) && Leaves(d, AFail(0), 0) && Do(d, AFail(0)) == LeftOver(data)
  {
  }

  /** One byte, at offset 1. */
  function Second(v: Byte): Action
  {
    AStart(Write([v]), 1, 1)
  }

  /** The second write, once it is granted. */
  ghost predicate IsSecond(d: Device, data: seq<Byte>)
    requires data != []
  {
    && Inv(d) && d.align == |data| && d.disk == [data[0]] && d.total == 0 && |d.tasks| == 1
    && d.tasks[0].op.Write? && d.tasks[0].req.offset == d.tasks[0].req.bytes == 1
  }

  lemma SecondStarts(data: seq<Byte>, v: Byte)
    requires |data| > 2
    ensures Enabled(LeftOver(data), Second(v))
    ensures var d := Do(LeftOver(data), Second(v)); IsSecond(d, data) && d.tasks[0].pc == HeadIo(0)
  {
    assert Reqs([]) == [];
    StepInv(LeftOver(data), Second(v));
    ModOf(0, |data|, 1);
  }

  lemma SecondHead(d: Device, data: seq<Byte>)
    requires |data| > 2 && IsSecond(d, data) && d.tasks[0].pc == HeadIo(0)
    ensures Enabled(d, AHeadDone(0))
    ensures var d' := Do(d, AHeadDone(0)); IsSecond(d', data) && d'.tasks[0].pc.TailIo? && d'.tasks[0].headEnd == 0
  {
    var t1 := HeadIn(d.tasks[0], d.align, d.disk);
    HeadDoneIs(d, 0, t1);
    HeadDoneInv(d, 0);
    ModOf(0, |data|, 2);
    hide Inv, HeadDone, ReadBlock, Lo;
  }

  lemma SecondTail(d: Device, data: seq<Byte>)
    requires data != [] && IsSecond(d, data) && d.tasks[0].pc.TailIo? && d.tasks[0].headEnd == 0
    ensures Enabled(d, ATailDone(0))
    ensures var d' := Do(d, ATailDone(0)); IsSecond(d', data) && d'.tasks[0].pc.WriteIo? && d'.tasks[0].headEnd == 0
  {
    TailDoneIs(d, 0, TailIn(d.tasks[0], d.align, d.disk));
    TailDoneInv(d, 0);
    hide Inv, TailDone, ReadBlock, Down;
  }

  lemma SecondApplies(d: Device, data: seq<Byte>)
    requires |data| > 2 && IsSecond(d, data) && d.tasks[0].pc.WriteIo? && d.tasks[0].headEnd == 0
    ensures Enabled(d, AApply(0, 0)) && At(Do(d, AApply(0, 0)).disk, 0) == 0
    ensures forall v :: Wanted(d, AApply(0, 0), 0, v) == v
  {
    var t := d.tasks[0];
    assert TaskOk(t, d.align, d.disk);
    ModOf(0, |data|, 1);
    assert Lo(t, d.align) == 0 < Hi(t, d.align);
    hide Lo, Hi, Inv, TaskOk, Qiov;
    CarriedExactly(t, d.align, d.disk, 0);
  }

  /** One step before a run. */
  lemma Before(d: Device, a: Action, acts: seq<Action>, v: Byte) returns (all: seq<Action>)
    requires d.align > 0 && Enabled(d, a) && CanRun(Do(d, a), acts)
    ensures CanRun(d, all) && Run(d, all) == Run(Do(d, a), acts)
    ensures LeavesIn(d, all, 0) <==> Leaves(d, a, 0) || LeavesIn(Do(d, a), acts, 0)
    ensures Expected(d, all, 0, v) == Expected(Do(d, a), acts, 0, Wanted(d, a, 0, v))
    ensures !a.AApply? ==> Wanted(d, a, 0, v) == v
  {
    hide Do, Enabled, Leaves;
    all := [a] + acts;
    assert all[1..] == acts;
  }

  /** Whatever the block size and the data, the first byte should be on the disk and is not. */
  lemma FailureLoses(data: seq<Byte>, v: Byte) returns (acts: seq<Action>)
    requires |data| > 2 && data[0] != 0
    ensures Idle(Blank(|data|)) && CanRun(Blank(|data|), acts) && LeavesIn(Blank(|data|), acts, 0)
    ensures Expected(Blank(|data|), acts, 0, 0) == data[0] && At(Run(Blank(|data|), acts).disk, 0) == 0
  {
    hide Do, Enabled, Leaves, Wanted, Inv;
    FirstStarts(data);
    FirstApplies(data);
    FirstFails(data);
    SecondStarts(data, v);
    var d4 := Do(LeftOver(data), Second(v));
    SecondHead(d4, data);
    var d5 := Do(d4, AHeadDone(0));
    SecondTail(d5, data);
    var d6 := Do(d5, ATailDone(0));
    SecondApplies(d6, data);
    acts := Before(d6, AApply(0, 0), [], data[0]);
    acts := Before(d5, ATailDone(0), acts, data[0]);
    acts := Before(d4, AHeadDone(0), acts, data[0]);
    acts := Before(LeftOver(data), Second(v), acts, data[0]);
    acts := Before(Extending(data, [data[0]], {0}), AFail(0), acts, data[0]);
    acts := Before(Extending(data, [], {}), AApply(0, 0), acts, 0);
    acts := Before(Blank(|data|), AStart(Write(data), 0, |data|), acts, 0);
  }
}
