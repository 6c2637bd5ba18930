/** Safety of all runs of requests on a block device
    (qemu/block.c:2375-2514, 3321-3503). */
module BlockWritesTheorems {
  import opened TrackedRequests
  import opened Bytes
  import opened BlockWrites
  import opened BlockWritesProofs
  import opened BlockWritesBytes

  lemma {:induction false} RunInv(d: Device, acts: seq<Action>)
    requires Inv(d) && CanRun(d, acts)
    ensures Inv(Run(d, acts))
    decreases |acts|
  {
    if acts != [] {
      StepInv(d, acts[0]);
      RunInv(Do(d, acts[0]), acts[1..]);
    }
  }

  lemma IdleInv(d: Device)
    requires Idle(d)
    ensures Inv(d)
  {
    assert Reqs(d.tasks) == [];
  }

  /** In every interleaving, requests past their first wait share no byte of their
      windows if one of them is serialising; a waiter waits for a request that has
      ended, or that is not waiting itself and meets it, one of the two being
      serialising; no assertion of the request code fails. */
  lemma Serialised(d0: Device, acts: seq<Action>)
    requires Idle(d0) && CanRun(d0, acts)
    ensures var d := Run(d0, acts);
            && d.inFlight == Serialising(Reqs(d.tasks))
            && (forall i, j, p: nat | 0 <= i < |d.tasks| && 0 <= j < |d.tasks| && i != j ::
                  !d.tasks[i].pc.Blocked? && !d.tasks[j].pc.Blocked? && d.tasks[i].req.serialising ==>
                    !(InWindow(d.tasks[i].req, p) && InWindow(d.tasks[j].req, p)))
            && (forall i, j | 0 <= i < |d.tasks| && 0 <= j < |d.tasks| ::
                  d.tasks[i].pc.Blocked? && d.tasks[i].pc.target == d.tasks[j].id ==>
                    && !d.tasks[j].pc.Blocked? && Meet(d.tasks[j].req, d.tasks[i].req)
                    && (d.tasks[i].req.serialising || d.tasks[j].req.serialising))
            && (forall i | 0 <= i < |d.tasks| :: !d.tasks[i].pc.AssertFailed?)
  {
    IdleInv(d0);
    RunInv(d0, acts);
    var d := Run(d0, acts);
    forall i, j, p: nat | 0 <= i < |d.tasks| && 0 <= j < |d.tasks| && i != j
                          && !d.tasks[i].pc.Blocked? && !d.tasks[j].pc.Blocked? && d.tasks[i].req.serialising
      ensures !(InWindow(d.tasks[i].req, p) && InWindow(d.tasks[j].req, p))
    {
      assert !Conflict(d.tasks[i].req, d.tasks[j].req);
    }
    forall i, j | 0 <= i < |d.tasks| && 0 <= j < |d.tasks| && d.tasks[i].pc.Blocked?
                  && d.tasks[i].pc.target == d.tasks[j].id
      ensures Meet(d.tasks[j].req, d.tasks[i].req) && (d.tasks[i].req.serialising || d.tasks[j].req.serialising)
    {
      OverlapsExactly(d.tasks[j].req, d.tasks[i].req);
    }
    forall i | 0 <= i < |d.tasks|
      ensures !d.tasks[i].pc.AssertFailed?
    {
      assert TaskOk(d.tasks[i], d.align, d.disk);
    }
  }

  /** A step changes a byte of the disk by writing a request's own data to it, or else by
      putting a carried-along zero over it, and by nothing else. */
  lemma OneStepOwn(d: Device, a: Action, pos: nat)
    requires Inv(d) && Enabled(d, a)
    ensures At(Do(d, a).disk, pos) == Wanted(d, a, pos, At(d.disk, pos)) <==> !Clobbers(d, a, pos)
    ensures Clobbers(d, a, pos) ==> At(Do(d, a).disk, pos) == 0 && !WritesOwn(d, a, pos)
  {
    if a.AApply? && a.pos == pos {
      var t := d.tasks[a.k];
      assert TaskOk(t, d.align, d.disk);
      if Carried(t, pos) {
        CarriedExactly(t, d.align, d.disk, pos);
      }
    }
  }

  /** For every byte and every run, exactly: the byte holds what the last write of it as a
      request's own data put there, and its initial value if there was none, whatever blocks
      were read and written back around it, unless since then a carried-along zero was put
      over it. */
  lemma LostExactly(d: Device, acts: seq<Action>, pos: nat)
    requires Inv(d) && CanRun(d, acts)
    ensures At(Run(d, acts).disk, pos) == Expected(d, acts, pos, At(d.disk, pos)) <==> !LostIn(d, acts, pos, false)
  {
    LostFrom(d, acts, pos, At(d.disk, pos), false);
  }

  /** A lost byte is zero and should not be. */
  lemma {:induction false} LostFrom(d: Device, acts: seq<Action>, pos: nat, v: Byte, lost: bool)
    requires Inv(d) && CanRun(d, acts)
    requires if lost then At(d.disk, pos) == 0 != v else At(d.disk, pos) == v
    ensures At(Run(d, acts).disk, pos) == Expected(d, acts, pos, v) <==> !LostIn(d, acts, pos, lost)
    decreases |acts|
  {
    hide Clobbers, WritesOwn, Wanted, Inv;
    if acts != [] {
      StepInv(d, acts[0]);
      LostStep(d, acts[0], pos, v, lost);
      LostFrom(Do(d, acts[0]), acts[1..], pos, Wanted(d, acts[0], pos, v),
               !WritesOwn(d, acts[0], pos) && (lost || Clobbers(d, acts[0], pos)));
    }
  }

  lemma LostStep(d: Device, a: Action, pos: nat, v: Byte, lost: bool)
    requires Inv(d) && Enabled(d, a)
    requires if lost then At(d.disk, pos) == 0 != v else At(d.disk, pos) == v
    ensures var v', lost' := Wanted(d, a, pos, v), !WritesOwn(d, a, pos) && (lost || Clobbers(d, a, pos));
            if lost' then At(Do(d, a).disk, pos) == 0 != v' else At(Do(d, a).disk, pos) == v'
  {
    OneStepOwn(d, a, pos);
    assert Clobbers(d, a, pos) ==> At(d.disk, pos) != 0;
    hide Do, Enabled, Inv, WritesOwn, Clobbers;
  }

  /** No lost update: over every run in which no write fails that leaves the byte past the end
      of the device, the byte holds what the last write of it as a request's own data put
      there, or its initial value. */
  lemma NoLostUpdate(d0: Device, acts: seq<Action>, pos: nat)
    requires Idle(d0) && CanRun(d0, acts) && !LeavesIn(d0, acts, pos)
    ensures At(Run(d0, acts).disk, pos) == Expected(d0, acts, pos, At(d0.disk, pos))
  {
    IdleInv(d0);
    IdleByteOk(d0, pos);
    ByteRun(d0, acts, pos);
    LostExactly(d0, acts, pos);
  }

  lemma {:induction false} ByteRun(d: Device, acts: seq<Action>, pos: nat)
    requires Inv(d) && ByteOk(d, pos) && CanRun(d, acts) && !LeavesIn(d, acts, pos)
    ensures ByteOk(Run(d, acts), pos) && !LostIn(d, acts, pos, false)
    decreases |acts|
  {
    hide Inv, ByteOk, Clobbers, WritesOwn, Leaves;
    if acts != [] {
      StepInv(d, acts[0]);
      ByteStep(d, acts[0], pos);
      NoClobber(d, acts[0], pos);
      ByteRun(Do(d, acts[0]), acts[1..], pos);
    }
  }

  /** When a serialising write completes, its own bytes are on the disk. */
  lemma WriteLands(d: Device, k: nat)
    requires Inv(d) && Enabled(d, AWriteDone(k)) && d.tasks[k].req.serialising
    ensures forall p: nat :: d.tasks[k].req.offset <= p < d.tasks[k].req.offset + |d.tasks[k].op.data| ==>
              At(Do(d, AWriteDone(k)).disk, p) == d.tasks[k].op.data[p - d.tasks[k].req.offset]
  {
    var t := d.tasks[k];
    assert TaskOk(t, d.align, d.disk);
    forall p: nat | t.req.offset <= p < t.req.offset + |t.op.data|
      ensures At(d.disk, p) == t.op.data[p - t.req.offset]
    {
      assert p in t.pc.applied;
    }
  }

  /** With nothing in flight, everything past the recorded end reads as zero, except what a
      write has left there that failed. */
  lemma QuiescentEnd(d0: Device, acts: seq<Action>)
    requires Idle(d0) && CanRun(d0, acts) && Run(d0, acts).tasks == []
    ensures var d := Run(d0, acts);
            d.inFlight == 0 && forall p: nat :: p >= d.total && !LeavesIn(d0, acts, p) ==> At(d.disk, p) == 0
  {
    IdleInv(d0);
    RunInv(d0, acts);
    var d := Run(d0, acts);
    forall p: nat | p >= d.total && !LeavesIn(d0, acts, p) ensures At(d.disk, p) == 0 {
      IdleByteOk(d0, p);
      ByteRun(d0, acts, p);
    }
  }
}
