/** Concurrent requests on one block device (qemu/block.c:3036-3119, 3138-3207,
    3321-3503).

    Requests run as coroutines.  A step of the model runs one coroutine from one
    yield to the next, so a run is a sequence of steps of different requests in any
    order.  A driver write in progress reaches the disk one byte at a time, in any
    order, interleaved with everything else. */
module BlockWrites {
  import opened Alignment
  import opened TrackedRequests

  import opened Bytes

  /** A disk reads as zeros past its last byte. */
  function At(disk: seq<Byte>, pos: nat): Byte
  {
    if pos < |disk| then disk[pos] else 0
  }

  function Put(disk: seq<Byte>, pos: nat, v: Byte): (d: seq<Byte>)
    ensures forall p: nat :: At(d, p) == if p == pos then v else At(disk, p)
  {
    if pos < |disk| then disk[pos := v] else disk + seq(pos - |disk|, _ => 0) + [v]
  }

  /** What a request is for: a read, made serialising for copy-on-read with clusters
      of `cluster` bytes if that is not 0, or a write of `data`. */
  datatype Op = Read(cluster: nat) | Write(data: seq<Byte>)

  /** Where a request's coroutine last yielded.  `total` is the device length sampled
      when a read of the read-modify-write cycle was issued. */
  datatype Pc =
    | Blocked(target: nat)
    | HeadIo(total: nat)
    | TailIo(total: nat)
    | WriteIo(applied: set<nat>)
    | ReadIo
    | AssertFailed

  /** A request.  `headEnd` and `tailEnd` record the device length sampled for the block in
      `head` and in `tail`. */
  datatype Task =
    Task(id: nat, req: Req, op: Op, head: seq<Byte>, headEnd: nat, tail: seq<Byte>, tailEnd: nat, pc: Pc)

  datatype Device = Device(align: nat, tasks: seq<Task>, inFlight: int, nextId: nat, disk: seq<Byte>, total: nat)

  predicate HasHead(t: Task, align: nat)
    requires align > 0
  {
    t.op.Write? && t.req.offset % align != 0
  }

  predicate HasTail(t: Task, align: nat)
    requires align > 0
  {
    t.op.Write? && (t.req.offset + t.req.bytes) % align != 0
  }

  /** First and one past the last byte that a write sends to the driver. */
  function Lo(t: Task, align: nat): nat
    requires align > 0
  {
    Down(t.req.offset, align)
  }

  function Hi(t: Task, align: nat): nat
    requires align > 0
  {
    RoundUp(t.req.offset + t.req.bytes, align)
  }

  /** A byte as a read sees it that sampled the length `total`. */
  function Seen(disk: seq<Byte>, total: nat, pos: nat): Byte
  {
    if pos < total then At(disk, pos) else 0
  }

  /** bdrv_aligned_preadv for one block of the cycle: zeros past the sampled end. */
  function ReadBlock(disk: seq<Byte>, total: nat, offset: nat, len: nat): (r: seq<Byte>)
    ensures |r| == len
  {
    seq(len, i requires 0 <= i < len => Seen(disk, total, offset + i))
  }

  /** The byte at `pos` of the vector handed to the driver: the head block's start,
      the request's own data, the tail block's end. */
  function Qiov(t: Task, align: nat, pos: nat): Byte
    requires align > 0
  {
    if pos < t.req.offset then
      (if Lo(t, align) <= pos && pos - Lo(t, align) < |t.head| then t.head[pos - Lo(t, align)] else 0)
    else if t.op.Write? && pos < t.req.offset + |t.op.data| then t.op.data[pos - t.req.offset]
    else
      var from := Down(t.req.offset + t.req.bytes, align);
      if from <= pos && pos - from < |t.tail| then t.tail[pos - from] else 0
  }

  /** A write only carries byte `pos` of its blocks along. */
  ghost predicate Carried(t: Task, pos: nat)
  {
    !(t.req.offset <= pos < t.req.offset + t.req.bytes)
  }

  function Reqs(tasks: seq<Task>): (rs: seq<Req>)
    ensures |rs| == |tasks| && forall i :: 0 <= i < |rs| ==> rs[i] == tasks[i].req
  {
    seq(|tasks|, i requires 0 <= i < |tasks| => tasks[i].req)
  }

  /** wait_serialising_requests: the position waited for, or -1. */
  function Scan(d: Device, k: nat): int
    requires k < |d.tasks|
  {
    if d.inFlight == 0 then -1 else FirstBlocker(Reqs(d.tasks), k, 0)
  }

  /** The assertions of bdrv_aligned_pwritev. */
  predicate WriteAsserts(t: Task, align: nat, waited: bool)
    requires align > 0
  {
    && (waited ==> !t.req.serialising)
    && t.req.overlapOffset <= Lo(t, align)
    && Hi(t, align) <= t.req.overlapOffset + t.req.overlapBytes
  }

  /** What a request does once its first wait is over. */
  function Entered(d: Device, t: Task): Pc
    requires d.align > 0
  {
    if t.op.Read? then ReadIo
    else if HasHead(t, d.align) then HeadIo(d.total)
    else if HasTail(t, d.align) then TailIo(d.total)
    else if WriteAsserts(t, d.align, false) then WriteIo({}) else AssertFailed
  }

  function FirstWait(d: Device, k: nat): Device
    requires d.align > 0 && k < |d.tasks|
  {
    var b := Scan(d, k);
    var t := d.tasks[k];
    d.(tasks := d.tasks[k :=
      if b == -1 then t.(req := t.req.(waiting := false), pc := Entered(d, t))
      else t.(req := t.req.(waiting := true), pc := Blocked(d.tasks[b].id))])
  }

  /** A request after tracked_request_begin, already marked if its kind calls for it. */
  function Newcomer(align: nat, id: nat, op: Op, offset: nat, bytes: nat): Task
    requires align > 0
  {
    var t := Task(id, Begun(offset, bytes), op, [], 0, [], 0, ReadIo);
    if op.Read? then (if op.cluster > 0 then t.(req := Marked(t.req, op.cluster)) else t)
    else if HasHead(t, align) || HasTail(t, align) then t.(req := Marked(t.req, align))
    else t
  }

  function Join(d: Device, t: Task): Device
  {
    d.(tasks := [t] + d.tasks, nextId := d.nextId + 1, inFlight := d.inFlight + if t.req.serialising then 1 else 0)
  }

  /** bdrv_co_do_pwritev and bdrv_co_do_preadv from the start to the first yield:
      nothing yields between tracked_request_begin and the first wait. */
  function Start(d: Device, op: Op, offset: nat, bytes: nat): Device
    requires d.align > 0
  {
    FirstWait(Join(d, Newcomer(d.align, d.nextId, op, offset, bytes)), 0)
  }

  /** tracked_request_end */
  function End(d: Device, k: nat): Device
    requires k < |d.tasks|
  {
    d.(tasks := d.tasks[..k] + d.tasks[k + 1..],
       inFlight := d.inFlight - if d.tasks[k].req.serialising then 1 else 0)
  }

  /** From the end of the read-modify-write reads to the driver write. */
  function ToWrite(d: Device, k: nat): Device
    requires d.align > 0 && k < |d.tasks|
  {
    var t := d.tasks[k];
    var pc := if WriteAsserts(t, d.align, Scan(d, k) != -1) then WriteIo({}) else AssertFailed;
    d.(tasks := d.tasks[k := t.(pc := pc)])
  }

  /** The head block as the read returned it. */
  function HeadIn(t: Task, align: nat, disk: seq<Byte>): Task
    requires align > 0 && t.pc.HeadIo?
  {
    t.(head := ReadBlock(disk, t.pc.total, Lo(t, align), align), headEnd := t.pc.total)
  }

  function TailIn(t: Task, align: nat, disk: seq<Byte>): Task
    requires align > 0 && t.pc.TailIo?
  {
    t.(tail := ReadBlock(disk, t.pc.total, Down(t.req.offset + t.req.bytes, align), align), tailEnd := t.pc.total)
  }

  function HeadDone(d: Device, k: nat): Device
    requires d.align > 0 && k < |d.tasks| && d.tasks[k].pc.HeadIo?
  {
    var t := d.tasks[k];
    var t1 := HeadIn(t, d.align, d.disk);
    if HasTail(t, d.align) then
      var t2 := t1.(req := Marked(t1.req, d.align));
      var d2 := d.(tasks := d.tasks[k := t2]);
      d2.(tasks := d2.tasks[k := t2.(pc := if Scan(d2, k) == -1 then TailIo(d.total) else AssertFailed)])
    else
      ToWrite(d.(tasks := d.tasks[k := t1]), k)
  }

  function TailDone(d: Device, k: nat): Device
    requires d.align > 0 && k < |d.tasks| && d.tasks[k].pc.TailIo?
  {
    ToWrite(d.(tasks := d.tasks[k := TailIn(d.tasks[k], d.align, d.disk)]), k)
  }

  function Apply(d: Device, k: nat, pos: nat): Device
    requires d.align > 0 && k < |d.tasks| && d.tasks[k].pc.WriteIo?
  {
    var t := d.tasks[k];
    d.(disk := Put(d.disk, pos, Qiov(t, d.align, pos)),
       tasks := d.tasks[k := t.(pc := WriteIo(t.pc.applied + {pos}))])
  }

  function WriteDone(d: Device, k: nat): Device
    requires d.align > 0 && k < |d.tasks|
  {
    var end := Hi(d.tasks[k], d.align);
    End(d.(total := if d.total > end then d.total else end), k)
  }

  datatype Action =
    | AStart(op: Op, offset: nat, bytes: nat)
    | AWake(k: nat)
    | AHeadDone(k: nat)
    | ATailDone(k: nat)
    | AApply(k: nat, pos: nat)
    | AWriteDone(k: nat)
    | AReadDone(k: nat)
    | AFail(k: nat)

  predicate InFlight(tasks: seq<Task>, id: nat)
  {
    exists j :: 0 <= j < |tasks| && tasks[j].id == id
  }

  predicate Enabled(d: Device, a: Action)
    requires d.align > 0
  {
    match a
    case AStart(op, offset, bytes) => op.Write? ==> bytes == |op.data|
    case AWake(k) => k < |d.tasks| && d.tasks[k].pc.Blocked? && !InFlight(d.tasks, d.tasks[k].pc.target)
    case AHeadDone(k) => k < |d.tasks| && d.tasks[k].pc.HeadIo?
    case ATailDone(k) => k < |d.tasks| && d.tasks[k].pc.TailIo?
    case AApply(k, pos) =>
      k < |d.tasks| && d.tasks[k].pc.WriteIo? && Lo(d.tasks[k], d.align) <= pos < Hi(d.tasks[k], d.align)
    case AWriteDone(k) =>
      && k < |d.tasks| && d.tasks[k].pc.WriteIo?
      && forall pos: nat :: Lo(d.tasks[k], d.align) <= pos < Hi(d.tasks[k], d.align) ==> pos in d.tasks[k].pc.applied
    case AReadDone(k) => k < |d.tasks| && d.tasks[k].pc.ReadIo?
    case AFail(k) =>
      // An error from the driver, or from the flush after a write: what a write has put on the
      // disk by then stays there, and the recorded length does not grow.
      k < |d.tasks| && !d.tasks[k].pc.Blocked?
  }

  function Do(d: Device, a: Action): (d': Device)
    requires d.align > 0 && Enabled(d, a)
    ensures d'.align == d.align
  {
    match a
    case AStart(op, offset, bytes) => Start(d, op, offset, bytes)
    case AWake(k) => FirstWait(d.(tasks := d.tasks[k := d.tasks[k].(req := d.tasks[k].req.(waiting := false))]), k)
    case AHeadDone(k) => HeadDone(d, k)
    case ATailDone(k) => TailDone(d, k)
    case AApply(k, pos) => Apply(d, k, pos)
    case AWriteDone(k) => WriteDone(d, k)
    case AReadDone(k) => End(d, k)
    case AFail(k) => End(d, k)
  }

  /** A device with no request in flight. */
  predicate Idle(d: Device)
  {
    d.align > 0 && d.tasks == [] && d.inFlight == 0 && d.total == |d.disk|
  }

  predicate CanRun(d: Device, acts: seq<Action>)
    requires d.align > 0
    decreases |acts|
  {
    acts == [] || (Enabled(d, acts[0]) && CanRun(Do(d, acts[0]), acts[1..]))
  }

  function Run(d: Device, acts: seq<Action>): Device
    requires d.align > 0 && CanRun(d, acts)
    decreases |acts|
  {
    if acts == [] then d else Run(Do(d, acts[0]), acts[1..])
  }

  /** The step writes byte `pos` of a request's own data. */
  ghost predicate WritesOwn(d: Device, a: Action, pos: nat)
    requires d.align > 0 && Enabled(d, a)
  {
    a.AApply? && a.pos == pos && d.tasks[a.k].op.Write?
    && d.tasks[a.k].req.offset <= pos < d.tasks[a.k].req.offset + |d.tasks[a.k].op.data|
  }

  /** The value byte `pos` should have after a step that starts with value `v`: only a driver
      write of a request's own data counts. */
  ghost function Wanted(d: Device, a: Action, pos: nat, v: Byte): Byte
    requires d.align > 0 && Enabled(d, a)
  {
    if WritesOwn(d, a, pos) then d.tasks[a.k].op.data[pos - d.tasks[a.k].req.offset] else v
  }

  /** And after a run. */
  ghost function Expected(d: Device, acts: seq<Action>, pos: nat, v: Byte): Byte
    requires d.align > 0 && CanRun(d, acts)
    decreases |acts|
  {
    if acts == [] then v else Expected(Do(d, acts[0]), acts[1..], pos, Wanted(d, acts[0], pos, v))
  }
}
