/** No deadlock and no livelock: with no new requests, every way of scheduling the
    requests in flight ends with all of them completed (qemu/block.c:2458-2514). */
module BlockWritesProgress {
  import opened BlockWrites
  import opened BlockWritesProofs

  /** A step of a request already in flight that gets somewhere. */
  predicate Productive(d: Device, a: Action)
    requires d.align > 0
  {
    && Enabled(d, a) && !a.AStart?
    && (a.AApply? ==> a.pos !in d.tasks[a.k].pc.applied)
  }

  /** Bytes of `[lo, hi)` not yet applied. */
  function Unapplied(lo: nat, hi: nat, applied: set<nat>): nat
    decreases hi
  {
    if hi <= lo then 0 else Unapplied(lo, hi - 1, applied) + if hi - 1 in applied then 0 else 1
  }

  lemma {:induction false} UnappliedLess(lo: nat, hi: nat, applied: set<nat>, pos: nat)
    ensures Unapplied(lo, hi, applied + {pos}) ==
            Unapplied(lo, hi, applied) - if lo <= pos < hi && pos !in applied then 1 else 0
    decreases hi
  {
    if hi > lo {
      UnappliedLess(lo, hi - 1, applied, pos);
    }
  }

  /** How far a request is from completion, while the same requests are in flight. */
  function Distance(t: Task, align: nat, tasks: seq<Task>): nat
    requires align > 0
  {
    var full := Unapplied(Lo(t, align), Hi(t, align), {});
    match t.pc
    case Blocked(target) => if InFlight(tasks, target) then full + 3 else full + 4
    case HeadIo(_) => full + 2
    case TailIo(_) => full + 1
    case WriteIo(applied) => Unapplied(Lo(t, align), Hi(t, align), applied)
    case ReadIo => 0
    case AssertFailed => 0
  }

  function Sum(ts: seq<Task>, align: nat, tasks: seq<Task>): nat
    requires align > 0
  {
    if ts == [] then 0 else Distance(ts[0], align, tasks) + Sum(ts[1..], align, tasks)
  }

  lemma {:induction false} SumUpdate(ts: seq<Task>, align: nat, tasks: seq<Task>, k: nat, t: Task)
    requires align > 0 && k < |ts|
    ensures Sum(ts[k := t], align, tasks) ==
            Sum(ts, align, tasks) - Distance(ts[k], align, tasks) + Distance(t, align, tasks)
    decreases |ts|
  {
    if k == 0 {
      assert ts[0 := t][1..] == ts[1..];
    } else {
      assert ts[k := t][1..] == ts[1..][k - 1 := t];
      SumUpdate(ts[1..], align, tasks, k - 1, t);
    }
  }

  ghost predicate SameIds(tasks: seq<Task>, tasks': seq<Task>)
  {
    |tasks| == |tasks'| && forall j :: 0 <= j < |tasks| ==> tasks[j].id == tasks'[j].id
  }

  lemma InFlightSame(tasks: seq<Task>, tasks': seq<Task>, id: nat)
    requires SameIds(tasks, tasks')
    ensures InFlight(tasks, id) == InFlight(tasks', id)
  {
    if InFlight(tasks, id) {
      var j :| 0 <= j < |tasks| && tasks[j].id == id;
      assert tasks'[j].id == id;
    }
    if InFlight(tasks', id) {
      var j :| 0 <= j < |tasks'| && tasks'[j].id == id;
      assert tasks[j].id == id;
    }
  }

  lemma {:induction false} SumSame(ts: seq<Task>, align: nat, tasks: seq<Task>, tasks': seq<Task>)
    requires align > 0 && SameIds(tasks, tasks')
    ensures Sum(ts, align, tasks) == Sum(ts, align, tasks')
    decreases |ts|
  {
    if ts != [] {
      SumSame(ts[1..], align, tasks, tasks');
      if ts[0].pc.Blocked? {
        InFlightSame(tasks, tasks', ts[0].pc.target);
      }
    }
  }

  lemma {:induction false} SumGrows(ts: seq<Task>, align: nat, tasks: seq<Task>, tasks': seq<Task>)
    requires align > 0
    ensures Sum(ts, align, tasks') <= Sum(ts, align, tasks) + |ts|
    decreases |ts|
  {
    if ts != [] {
      SumGrows(ts[1..], align, tasks, tasks');
    }
  }

  lemma {:induction false} SumWithout(ts: seq<Task>, align: nat, tasks: seq<Task>, k: nat)
    requires align > 0 && k < |ts|
    ensures Sum(ts[..k] + ts[k + 1..], align, tasks) <= Sum(ts, align, tasks)
    decreases |ts|
  {
    if k == 0 {
      assert ts[..k] + ts[k + 1..] == ts[1..];
    } else {
      assert (ts[..k] + ts[k + 1..])[1..] == ts[1..][..k - 1] + ts[1..][k..];
      SumWithout(ts[1..], align, tasks, k - 1);
    }
  }

  /** A bound on the productive steps left.  A request that ends may let every other one
      be woken. */
  function StepsLeft(d: Device): nat
    requires d.align > 0
  {
    Sum(d.tasks, d.align, d.tasks) + |d.tasks| * |d.tasks|
  }

  ghost predicate Closer(d: Device, d': Device)
    requires d.align > 0 && d'.align == d.align
  {
    StepsLeft(d') < StepsLeft(d)
  }

  lemma OneCloser(d: Device, k: nat, t: Task)
    requires d.align > 0 && k < |d.tasks| && t.id == d.tasks[k].id
    requires Distance(t, d.align, d.tasks) < Distance(d.tasks[k], d.align, d.tasks)
    ensures var tasks := d.tasks[k := t];
            Sum(tasks, d.align, tasks) < Sum(d.tasks, d.align, d.tasks)
  {
    var tasks := d.tasks[k := t];
    SumUpdate(d.tasks, d.align, d.tasks, k, t);
    SumSame(tasks, d.align, d.tasks, tasks);
  }

  lemma WakeCloser(d: Device, k: nat)
    requires Inv(d) && Enabled(d, AWake(k))
    ensures Closer(d, Do(d, AWake(k)))
  {
    var t := d.tasks[k];
    var d1 := d.(tasks := d.tasks[k := t.(req := t.req.(waiting := false))]);
    var d' := FirstWait(d1, k);
    WakeInv(d, k);
    assert TaskOk(d'.tasks[k], d.align, d'.disk);
    assert d'.tasks == d.tasks[k := d'.tasks[k]];
    assert !InFlight(d.tasks, t.pc.target);
    if d'.tasks[k].pc.Blocked? {
      var b := Scan(d1, k);
      assert d.tasks[b].id == d'.tasks[k].pc.target;
      assert InFlight(d.tasks, d'.tasks[k].pc.target);
    }
    OneCloser(d, k, d'.tasks[k]);
  }

  lemma HeadCloser(d: Device, k: nat)
    requires Inv(d) && Enabled(d, AHeadDone(k))
    ensures Closer(d, Do(d, AHeadDone(k)))
  {
    var t1 := HeadIn(d.tasks[k], d.align, d.disk);
    HeadDoneIs(d, k, t1);
    OneCloser(d, k, t1.(pc := if HasTail(t1, d.align) then TailIo(d.total) else WriteIo({})));
  }

  lemma TailCloser(d: Device, k: nat)
    requires Inv(d) && Enabled(d, ATailDone(k))
    ensures Closer(d, Do(d, ATailDone(k)))
  {
    var t1 := TailIn(d.tasks[k], d.align, d.disk);
    TailDoneIs(d, k, t1);
    OneCloser(d, k, t1.(pc := WriteIo({})));
  }

  lemma ApplyCloser(d: Device, k: nat, pos: nat)
    requires Inv(d) && Enabled(d, AApply(k, pos)) && pos !in d.tasks[k].pc.applied
    ensures Closer(d, Do(d, AApply(k, pos)))
  {
    var t := d.tasks[k];
    UnappliedLess(Lo(t, d.align), Hi(t, d.align), t.pc.applied, pos);
    OneCloser(d, k, t.(pc := WriteIo(t.pc.applied + {pos})));
  }

  lemma Square(n: nat)
    requires n > 0
    ensures (n - 1) * (n - 1) + n - 1 < n * n
  {
    assert (n - 1) * (n - 1) == n * n - 2 * n + 1;
  }

  lemma EndCloser(d: Device, d': Device, k: nat)
    requires d.align > 0 && k < |d.tasks| && d'.align == d.align && d'.tasks == d.tasks[..k] + d.tasks[k + 1..]
    ensures Closer(d, d')
  {
    SumWithout(d.tasks, d.align, d.tasks, k);
    SumGrows(d'.tasks, d.align, d.tasks, d'.tasks);
    Square(|d.tasks|);
  }

  /** Every productive step brings the device closer to having nothing in flight. */
  lemma StepCloser(d: Device, a: Action)
    requires Inv(d) && Productive(d, a)
    ensures Closer(d, Do(d, a))
  {
    match a
    case AWake(k) => WakeCloser(d, k);
    case AHeadDone(k) => HeadCloser(d, k);
    case ATailDone(k) => TailCloser(d, k);
    case AApply(k, pos) => ApplyCloser(d, k, pos);
    case AWriteDone(k) => EndCloser(d, Do(d, a), k);
    case AReadDone(k) => EndCloser(d, Do(d, a), k);
    case AFail(k) => EndCloser(d, Do(d, a), k);
  }

  /** A granted request can always take a productive step that is not an error. */
  lemma GrantedMoves(d: Device, k: nat) returns (a: Action)
    requires Inv(d) && k < |d.tasks| && !d.tasks[k].pc.Blocked?
    ensures Productive(d, a) && !a.AFail?
  {
    var t := d.tasks[k];
    assert TaskOk(t, d.align, d.disk);
    match t.pc
    case HeadIo(_) => a := AHeadDone(k);
    case TailIo(_) => a := ATailDone(k);
    case ReadIo => a := AReadDone(k);
    case WriteIo(applied) =>
      if pos: nat :| Lo(t, d.align) <= pos < Hi(t, d.align) && pos !in applied {
        a := AApply(k, pos);
      } else {
        a := AWriteDone(k);
      }
  }

  /** No deadlock: whenever a request is in flight, some request can move on. */
  lemma SomeoneMoves(d: Device) returns (a: Action)
    requires Inv(d) && d.tasks != []
    ensures Productive(d, a) && !a.AFail?
  {
    var t := d.tasks[0];
    if !t.pc.Blocked? {
      a := GrantedMoves(d, 0);
    } else if InFlight(d.tasks, t.pc.target) {
      var j :| 0 <= j < |d.tasks| && d.tasks[j].id == t.pc.target;
      a := GrantedMoves(d, j);
    } else {
      a := AWake(0);
    }
  }

  predicate AllProductive(d: Device, acts: seq<Action>)
    requires d.align > 0
    decreases |acts|
  {
    acts == [] || (Productive(d, acts[0]) && AllProductive(Do(d, acts[0]), acts[1..]))
  }

  /** No livelock: however the requests in flight are scheduled, they take no more than
      `StepsLeft` productive steps, and where none but errors is left, all are completed. */
  lemma {:induction false} EveryRunEnds(d: Device, acts: seq<Action>)
    requires Inv(d) && AllProductive(d, acts)
    ensures CanRun(d, acts) && Run(d, acts).align == d.align
    ensures |acts| + StepsLeft(Run(d, acts)) <= StepsLeft(d)
    ensures (forall a :: Productive(Run(d, acts), a) ==> a.AFail?) ==> Run(d, acts).tasks == []
    decreases |acts|
  {
    if acts == [] {
      if d.tasks != [] {
        var a := SomeoneMoves(d);
      }
    } else {
      StepCloser(d, acts[0]);
      StepInv(d, acts[0]);
      EveryRunEnds(Do(d, acts[0]), acts[1..]);
    }
  }

  /** Hence the requests in flight can always run to completion without an error. */
  lemma {:induction false} Drains(d: Device) returns (acts: seq<Action>)
    requires Inv(d)
    ensures AllProductive(d, acts) && (forall a :: a in acts ==> !a.AFail?)
    ensures CanRun(d, acts) && Run(d, acts).tasks == []
    decreases StepsLeft(d)
  {
    if d.tasks == [] {
      acts := [];
    } else {
      var a := SomeoneMoves(d);
      StepCloser(d, a);
      StepInv(d, a);
      var rest := Drains(Do(d, a));
      acts := [a] + rest;
      assert acts[1..] == rest;
    }
  }
}
