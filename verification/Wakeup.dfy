/** Bottom halves, the polling thread and the event notifier, as an interleaving of single
    accesses to the shared variables (qemu/async.c:44-180, 258-277;
    qemu/aio-posix.c:127-254).

    One thread polls, and its callbacks may poll again, so it has a stack of polls.  Any
    number of threads schedule.  Accesses are sequentially consistent.  A bottom half is known
    by its age: the list that is walked starts with the newest, `|bhs| - 1`. */
module Wakeup {
  datatype Bh = Bh(scheduled: bool, deleted: bool)

  /** A visit to a bottom half: the next one is about to be looked at, or was found not to be
      deleted, or its callback is running. */
  datatype Visit = Next | Live | Running

  /** Where one call of aio_poll stands. */
  datatype Pc =
    // `dispatching` is saved and not yet written
    | Begin
    // the file descriptors are being collected
    | Fill
    // the timeout is being computed; those below `i` are still to be read, and if `live`, the
    // first of them was found not to be deleted
    | Scan(i: nat, live: bool)
    // inside poll
    | Asleep(forever: bool)
    // poll has returned; `saw` if the notifier was readable
    | Awake(saw: bool)
    // those below `i` are still to be visited
    | Walk(saw: bool, i: nat, visit: Visit)
    // file descriptor handlers; the notifier is still to be cleared if it was seen
    | Handlers(saw: bool)
    // the handlers after that of the notifier, and the timers
    | Timers
    | Leave

  datatype Frame = Frame(was: bool, blocking: bool, pc: Pc)

  /** `pending` threads are between the exchange and the read of `dispatching`, `setting`
      threads between that read and the write to the notifier. */
  datatype State =
    State(bhs: seq<Bh>, dispatching: bool, notifier: bool, pending: nat, setting: nat, frames: seq<Frame>)

  datatype Action =
    | New
    | Schedule(j: nat)
    | Cancel(j: nat)
    | MarkDeleted(j: nat)
    | Notify
    | ReadFlag
    | SetNotifier
    | Poll(blocking: bool)
    | Descriptor
    | PollerStep(timer: bool)

  ghost predicate Due(b: Bh)
  {
    b.scheduled && !b.deleted
  }

  function Initial(): State
  {
    State([], false, false, 0, 0, [])
  }

  function Top(s: State): Frame
    requires s.frames != []
  {
    s.frames[|s.frames| - 1]
  }

  /** Code of the polling thread outside aio_poll's own, from which it may poll. */
  predicate InCallback(pc: Pc)
  {
    pc.Handlers? || pc.Timers? || (pc.Walk? && pc.visit.Running?)
  }

  predicate Enabled(s: State, a: Action)
  {
    match a
    case New => true
    case Schedule(j) => j < |s.bhs|
    case Cancel(j) => j < |s.bhs|
    case MarkDeleted(j) => j < |s.bhs|
    case Notify => true
    case ReadFlag => s.pending > 0
    case SetNotifier => s.setting > 0
    case Poll(_) => s.frames == [] || InCallback(Top(s).pc)
    case Descriptor => s.frames != [] && Top(s).pc.Asleep?
    case PollerStep(_) => s.frames != [] && Steps(s, Top(s).pc)
  }

  /** poll sleeps on only without a timeout and with the notifier clear. */
  predicate Steps(s: State, pc: Pc)
  {
    match pc
    case Asleep(forever) => s.notifier || !forever
    case Scan(i, live) => i <= |s.bhs| && (live ==> i > 0)
    case Walk(_, i, visit) => i <= |s.bhs| && (visit.Live? ==> i > 0)
    case _ => true
  }

  function At(s: State, pc: Pc): State
    requires s.frames != []
  {
    s.(frames := s.frames[|s.frames| - 1 := Top(s).(pc := pc)])
  }

  function Do(s: State, a: Action): State
    requires Enabled(s, a)
  {
    match a
    case New => s.(bhs := s.bhs + [Bh(false, false)])
    case Schedule(j) =>
      s.(bhs := s.bhs[j := s.bhs[j].(scheduled := true)],
         pending := if s.bhs[j].scheduled then s.pending else s.pending + 1)
    case Cancel(j) => s.(bhs := s.bhs[j := s.bhs[j].(scheduled := false)])
    case MarkDeleted(j) => s.(bhs := s.bhs[j := s.bhs[j].(deleted := true)])
    case Notify => s.(pending := s.pending + 1)
    case ReadFlag => s.(pending := s.pending - 1, setting := if s.dispatching then s.setting else s.setting + 1)
    case SetNotifier => s.(setting := s.setting - 1, notifier := true)
    case Poll(blocking) => s.(frames := s.frames + [Frame(s.dispatching, blocking, Begin)])
    case Descriptor => At(s, Awake(s.notifier))
    case PollerStep(timer) => Polled(s, timer)
  }

  /** The next step of the innermost aio_poll; `timer` says that a timer bounds its sleep. */
  function Polled(s: State, timer: bool): State
    requires s.frames != [] && Steps(s, Top(s).pc)
  {
    if Top(s).pc.Leave? then s.(dispatching := Top(s).was, frames := s.frames[..|s.frames| - 1])
    else At(Written(s, Top(s)), NextPc(s, Top(s), timer))
  }

  /** Where the step goes, from what it reads. */
  function NextPc(s: State, f: Frame, timer: bool): Pc
    requires Steps(s, f.pc)
  {
    match f.pc
    case Begin => Fill
    case Fill => if f.blocking then Scan(|s.bhs|, false) else Asleep(false)
    case Scan(i, live) =>
      if i == 0 then Asleep(!timer)
      else if live then if s.bhs[i - 1].scheduled then Asleep(false) else Scan(i - 1, false)
      else if s.bhs[i - 1].deleted then Scan(i - 1, false)
      else Scan(i, true)
    case Asleep(_) => Awake(s.notifier)
    case Awake(saw) => Walk(saw, |s.bhs|, Next)
    case Walk(saw, i, visit) =>
      if visit.Running? then Walk(saw, i, Next)
      else if visit.Live? then Walk(saw, i - 1, if s.bhs[i - 1].scheduled then Running else Next)
      else if i == 0 then Handlers(saw)
      else if s.bhs[i - 1].deleted then Walk(saw, i - 1, Next)
      else Walk(saw, i, Live)
    case Handlers(_) => Timers
    case Timers => Leave
    case Leave => Leave
  }

  /** What the step writes. */
  function Written(s: State, f: Frame): State
    requires Steps(s, f.pc)
  {
    match f.pc
    case Begin => s.(dispatching := !f.blocking)
    case Awake(_) => s.(dispatching := true)
    case Walk(_, i, visit) =>
      if visit.Live? then s.(bhs := s.bhs[i - 1 := s.bhs[i - 1].(scheduled := false)]) else s
    case Handlers(saw) => s.(notifier := s.notifier && !saw)
    case _ => s
  }

  // ---- Safety -----------------------------------------------------------------------

  /** The notifier is set, or some thread is on its way to set it. */
  ghost predicate Waking(s: State)
  {
    s.notifier || s.pending > 0 || s.setting > 0
  }

  ghost predicate DueAreWaking(s: State, from: nat)
  {
    forall j :: from <= j < |s.bhs| && Due(s.bhs[j]) ==> Waking(s)
  }

  /** What holds while aio_poll decides whether to sleep: from the moment `dispatching` is
      false, a bottom half that the scan has passed and that is due has someone waking. */
  ghost predicate FrameOk(s: State, f: Frame)
  {
    match f.pc
    case Fill => f.blocking ==> !s.dispatching
    case Scan(i, live) =>
      i <= |s.bhs| && (live ==> i > 0) && f.blocking && !s.dispatching && DueAreWaking(s, i)
    case Asleep(forever) => forever ==> f.blocking && !s.dispatching && DueAreWaking(s, 0)
    case Walk(_, i, visit) => i <= |s.bhs| && (visit.Live? ==> i > 0)
    case _ => true
  }

  /** The outer polls are in callbacks. */
  ghost predicate OuterOk(s: State)
  {
    forall k :: 0 <= k < |s.frames| - 1 ==> InCallback(s.frames[k].pc) && FrameOk(s, s.frames[k])
  }

  ghost predicate Inv(s: State)
  {
    OuterOk(s) && (s.frames != [] ==> FrameOk(s, Top(s)))
  }

  /** A step that leaves the polls alone keeps them sound if no bottom half becomes due
      without a waker, and no waker gives up while `dispatching` is false. */
  lemma Disturbed(s: State, s': State)
    requires Inv(s) && s'.frames == s.frames && s'.dispatching == s.dispatching && |s.bhs| <= |s'.bhs|
    requires Waking(s) && !s.dispatching ==> Waking(s')
    requires forall j :: 0 <= j < |s'.bhs| && Due(s'.bhs[j]) ==> Waking(s') || (j < |s.bhs| && Due(s.bhs[j]))
    ensures Inv(s')
  {
    assert forall f :: FrameOk(s, f) ==> FrameOk(s', f) by {
      forall f | FrameOk(s, f) ensures FrameOk(s', f) {
        assert forall i :: !s.dispatching && DueAreWaking(s, i) ==> DueAreWaking(s', i);
      }
    }
  }

  /** A step of the innermost poll. */
  lemma Moved(s: State, s': State, pc: Pc)
    requires s.frames != [] && OuterOk(s) && |s'.bhs| == |s.bhs| && s'.frames == At(s, pc).frames
    requires FrameOk(s', Top(s).(pc := pc))
    ensures Inv(s')
  {
    assert forall k :: 0 <= k < |s.frames| - 1 ==> s'.frames[k] == s.frames[k];
    assert Top(s') == Top(s).(pc := pc);
  }

  lemma PolledInv(s: State, timer: bool)
    requires Inv(s) && s.frames != [] && Steps(s, Top(s).pc)
    ensures Inv(Polled(s, timer))
  {
    hide OuterOk, FrameOk, NextPc, Written;
    if Top(s).pc.Leave? {
      LeaveInv(s, timer);
    } else {
      var pc, s' := NextPc(s, Top(s), timer), Written(s, Top(s));
      NextOk(s, Top(s), timer);
      SameFrames(s, s', At(s', pc), Top(s).(pc := pc));
      Moved(s, At(s', pc), pc);
    }
  }

  lemma SameFrames(s: State, s1: State, s2: State, f: Frame)
    requires s2.(frames := s1.frames) == s1 && FrameOk(s1, f)
    ensures FrameOk(s2, f)
  {
    assert forall i :: DueAreWaking(s1, i) ==> DueAreWaking(s2, i);
  }

  /** The heart of the protocol: one step keeps what holds for the poll that makes it. */
  lemma NextOk(s: State, f: Frame, timer: bool)
    requires FrameOk(s, f) && Steps(s, f.pc) && !f.pc.Leave?
    ensures var s' := Written(s, f);
            |s'.bhs| == |s.bhs| && s'.frames == s.frames && FrameOk(s', f.(pc := NextPc(s, f, timer)))
  {
  }

  lemma LeaveInv(s: State, timer: bool)
    requires Inv(s) && s.frames != [] && Top(s).pc.Leave?
    ensures Inv(Polled(s, timer))
  {
    var s' := Polled(s, timer);
    assert forall k :: 0 <= k < |s'.frames| ==> s'.frames[k] == s.frames[k];
  }

  lemma StepInv(s: State, a: Action)
    requires Inv(s) && Enabled(s, a)
    ensures Inv(Do(s, a))
  {
    hide OuterOk, FrameOk, DueAreWaking;
    var s' := Do(s, a);
    match a
    case PollerStep(timer) => PolledInv(s, timer);
    case Descriptor => DescriptorInv(s);
    case Poll(blocking) => PollInv(s, blocking);
    case _ => Disturbed(s, s');
  }

  lemma DescriptorInv(s: State)
    requires Inv(s) && Enabled(s, Descriptor)
    ensures Inv(Do(s, Descriptor))
  {
    hide OuterOk;
    Moved(s, Do(s, Descriptor), Awake(s.notifier));
  }

  lemma PollInv(s: State, blocking: bool)
    requires Inv(s) && Enabled(s, Poll(blocking))
    ensures Inv(Do(s, Poll(blocking)))
  {
    var s' := Do(s, Poll(blocking));
    assert forall k :: 0 <= k < |s.frames| ==> s'.frames[k] == s.frames[k];
    assert Top(s').pc == Begin;
  }

  ghost predicate Possible(s: State, acts: seq<Action>)
    decreases |acts|
  {
    acts == [] || (Enabled(s, acts[0]) && Possible(Do(s, acts[0]), acts[1..]))
  }

  ghost function After(s: State, acts: seq<Action>): State
    requires Possible(s, acts)
    decreases |acts|
  {
    if acts == [] then s else After(Do(s, acts[0]), acts[1..])
  }

  lemma {:induction false} RunInv(s: State, acts: seq<Action>)
    requires Inv(s) && Possible(s, acts)
    ensures Inv(After(s, acts))
    decreases |acts|
  {
    if acts != [] {
      StepInv(s, acts[0]);
      RunInv(Do(s, acts[0]), acts[1..]);
    }
  }

  /** The poller sleeps without a timeout, nothing is going to wake it, and a bottom half is
      due. */
  ghost predicate LostWakeup(s: State)
  {
    && s.frames != [] && Top(s).pc == Asleep(true)
    && !s.notifier && s.pending == 0 && s.setting == 0
    && exists j :: 0 <= j < |s.bhs| && Due(s.bhs[j])
  }

  /** No run loses a wakeup. */
  lemma NoLostWakeup(acts: seq<Action>)
    requires Possible(Initial(), acts)
    ensures !LostWakeup(After(Initial(), acts))
  {
    RunInv(Initial(), acts);
  }

  // ---- The flag ---------------------------------------------------------------------

  /** What `dispatching` is while this is the innermost poll. */
  ghost predicate Serving(f: Frame)
  {
    match f.pc
    case Begin => f.was
    case Fill => !f.blocking
    case Scan(_, _) => !f.blocking
    case Asleep(_) => !f.blocking
    case Awake(_) => !f.blocking
    case _ => true
  }

  /** `dispatching` is off only outside aio_poll and from the start of a blocking poll to its
      wakeup; a poll leaves it as it found it. */
  ghost predicate FlagOk(s: State)
  {
    && (forall k :: 0 <= k < |s.frames| ==> s.frames[k].was == (k > 0))
    && s.dispatching == (s.frames != [] && Serving(Top(s)))
  }

  lemma StepFlag(s: State, a: Action)
    requires Inv(s) && FlagOk(s) && Enabled(s, a)
    ensures FlagOk(Do(s, a))
  {
    if a.PollerStep? && !Top(s).pc.Leave? {
      NextFlag(s, Top(s), a.timer);
      hide Inv, NextPc, Written, Serving;
    } else {
      hide NextPc, Written;
    }
  }

  lemma NextFlag(s: State, f: Frame, timer: bool)
    requires Steps(s, f.pc) && !f.pc.Leave? && s.dispatching == Serving(f)
    ensures Written(s, f).frames == s.frames
    ensures Written(s, f).dispatching == Serving(f.(pc := NextPc(s, f, timer)))
  {
  }

  lemma {:induction false} RunFlag(s: State, acts: seq<Action>)
    requires Inv(s) && FlagOk(s) && Possible(s, acts)
    ensures FlagOk(After(s, acts))
    decreases |acts|
  {
    hide Inv, FlagOk;
    if acts != [] {
      StepInv(s, acts[0]);
      StepFlag(s, acts[0]);
      RunFlag(Do(s, acts[0]), acts[1..]);
    }
  }

  /** In every run the flag is exactly what the innermost poll says. */
  lemma FlagExact(acts: seq<Action>)
    requires Possible(Initial(), acts)
    ensures FlagOk(After(Initial(), acts))
  {
    RunFlag(Initial(), acts);
  }

  /** While the flag is on, no one writes to the notifier, however much is scheduled. */
  lemma {:induction false} NoWriteWhileServing(s: State, acts: seq<Action>)
    requires Possible(s, acts) && s.dispatching && s.setting == 0
    requires forall a :: a in acts ==> !a.PollerStep?
    ensures After(s, acts).notifier == s.notifier && After(s, acts).setting == 0
    decreases |acts|
  {
    if acts != [] {
      assert acts[0] in acts && forall a :: a in acts[1..] ==> a in acts;
      NoWriteWhileServing(Do(s, acts[0]), acts[1..]);
    }
  }

  // ---- Calls ------------------------------------------------------------------------

  /** The callback of bottom half `j` is running in the innermost poll. */
  ghost predicate InCall(s: State, j: nat)
  {
    s.frames != [] && Top(s).pc.Walk? && Top(s).pc.visit.Running? && Top(s).pc.i == j
  }

  /** The step calls bottom half `j`: its callback was not running in this poll, and now is. */
  ghost predicate Runs(s: State, a: Action, j: nat)
    requires Enabled(s, a)
  {
    |Do(s, a).frames| == |s.frames| && !InCall(s, j) && InCall(Do(s, a), j)
  }

  /** A bottom half is called exactly when the walk finds it scheduled, after it was read as
      not deleted, and then it is no longer scheduled. */
  lemma RunsExactly(s: State, a: Action, j: nat)
    requires Inv(s) && Enabled(s, a)
    ensures Runs(s, a, j) <==>
            && a.PollerStep? && s.frames != [] && Top(s).pc.Walk? && Top(s).pc.visit.Live? && Top(s).pc.i == j + 1
            && j < |s.bhs| && s.bhs[j].scheduled
    ensures Runs(s, a, j) ==> |Do(s, a).bhs| == |s.bhs| && !Do(s, a).bhs[j].scheduled
  {
  }

  ghost function Flag(s: State, j: nat): nat
  {
    if j < |s.bhs| && s.bhs[j].scheduled then 1 else 0
  }

  /** Steps of a run that set the flag of bottom half `j`, that clear it without a call, and
      that call it. */
  ghost function Sets(s: State, acts: seq<Action>, j: nat): nat
    requires Possible(s, acts)
    decreases |acts|
  {
    if acts == [] then 0
    else Sets(Do(s, acts[0]), acts[1..], j) + if acts[0] == Schedule(j) && Flag(s, j) == 0 then 1 else 0
  }

  ghost function Cancels(s: State, acts: seq<Action>, j: nat): nat
    requires Possible(s, acts)
    decreases |acts|
  {
    if acts == [] then 0
    else Cancels(Do(s, acts[0]), acts[1..], j) + if acts[0] == Cancel(j) && Flag(s, j) == 1 then 1 else 0
  }

  ghost function Calls(s: State, acts: seq<Action>, j: nat): nat
    requires Possible(s, acts)
    decreases |acts|
  {
    if acts == [] then 0 else Calls(Do(s, acts[0]), acts[1..], j) + if Runs(s, acts[0], j) then 1 else 0
  }

  lemma OneFlag(s: State, a: Action, j: nat)
    requires Inv(s) && Enabled(s, a)
    ensures Flag(s, j) + (if a == Schedule(j) && Flag(s, j) == 0 then 1 else 0) ==
            Flag(Do(s, a), j) + (if a == Cancel(j) && Flag(s, j) == 1 then 1 else 0) + if Runs(s, a, j) then 1 else 0
  {
    RunsExactly(s, a, j);
    hide Inv, Runs;
  }

  /** Over every run, each time a bottom half gets scheduled leads to one call, or is cancelled,
      or is still to come; there are no other calls. */
  lemma {:induction false} CallsBalance(s: State, acts: seq<Action>, j: nat)
    requires Inv(s) && Possible(s, acts)
    ensures Flag(s, j) + Sets(s, acts, j) == Calls(s, acts, j) + Cancels(s, acts, j) + Flag(After(s, acts), j)
    decreases |acts|
  {
    hide Inv, Runs, Flag, Do, Enabled;
    if acts != [] {
      StepInv(s, acts[0]);
      OneFlag(s, acts[0], j);
      CallsBalance(Do(s, acts[0]), acts[1..], j);
    }
  }

  /** No poll has read the bottom half as not deleted and is about to take it. */
  ghost predicate NotTaken(s: State, j: nat)
  {
    forall k :: 0 <= k < |s.frames| ==>
      !(s.frames[k].pc.Walk? && s.frames[k].pc.visit.Live? && s.frames[k].pc.i == j + 1)
  }

  /** Once deleted, a bottom half that no poll is about to take is never called. */
  lemma {:induction false} DeletedNotCalled(s: State, acts: seq<Action>, j: nat)
    requires Inv(s) && Possible(s, acts) && j < |s.bhs| && s.bhs[j].deleted && NotTaken(s, j)
    ensures Calls(s, acts, j) == 0
    decreases |acts|
  {
    hide Inv, Runs, Do, Enabled, NotTaken;
    if acts != [] {
      StepInv(s, acts[0]);
      StaysDeleted(s, acts[0], j);
      DeletedNotCalled(Do(s, acts[0]), acts[1..], j);
    }
  }

  lemma StaysDeleted(s: State, a: Action, j: nat)
    requires Inv(s) && Enabled(s, a) && j < |s.bhs| && s.bhs[j].deleted && NotTaken(s, j)
    ensures var s' := Do(s, a); j < |s'.bhs| && s'.bhs[j].deleted && NotTaken(s', j) && !Runs(s, a, j)
  {
    RunsExactly(s, a, j);
  }

  /** A bottom half is deleted exactly if someone has deleted it. */
  lemma {:induction false} DeletedExactly(s: State, acts: seq<Action>, j: nat)
    requires Possible(s, acts)
    ensures |s.bhs| <= |After(s, acts).bhs|
    ensures j < |After(s, acts).bhs| ==>
              (After(s, acts).bhs[j].deleted <==> MarkDeleted(j) in acts || (j < |s.bhs| && s.bhs[j].deleted))
    decreases |acts|
  {
    if acts != [] {
      var s' := Do(s, acts[0]);
      OneDeleted(s, acts[0], j);
      DeletedExactly(s', acts[1..], j);
      assert MarkDeleted(j) in acts <==> acts[0] == MarkDeleted(j) || MarkDeleted(j) in acts[1..];
      hide Do, Enabled;
    }
  }

  lemma OneDeleted(s: State, a: Action, j: nat)
    requires Enabled(s, a)
    ensures |s.bhs| <= |Do(s, a).bhs|
    ensures j < |Do(s, a).bhs| ==>
              (Do(s, a).bhs[j].deleted <==> a == MarkDeleted(j) || (j < |s.bhs| && s.bhs[j].deleted))
  {
  }

  // ---- Notifications ----------------------------------------------------------------

  /** The step begins a call of aio_notify. */
  ghost predicate Notifies(s: State, a: Action)
  {
    a.Notify? || (a.Schedule? && Flag(s, a.j) == 0)
  }

  ghost function Notified(s: State, acts: seq<Action>): nat
    requires Possible(s, acts)
    decreases |acts|
  {
    if acts == [] then 0
    else Notified(Do(s, acts[0]), acts[1..]) + if Notifies(s, acts[0]) then 1 else 0
  }

  /** How often `dispatching` was read, and how often it was off. */
  ghost function FlagReads(s: State, acts: seq<Action>): (int, int)
    requires Possible(s, acts)
    decreases |acts|
  {
    if acts == [] then (0, 0)
    else
      var n := FlagReads(Do(s, acts[0]), acts[1..]);
      if !acts[0].ReadFlag? then n else (n.0 + 1, n.1 + if s.dispatching then 0 else 1)
  }

  ghost function NotifierSets(acts: seq<Action>): nat
  {
    if acts == [] then 0 else NotifierSets(acts[1..]) + if acts[0].SetNotifier? then 1 else 0
  }

  /** Over every run, each call of aio_notify reads the flag once, and sets the notifier once if
      the flag was off, or is still to do so. */
  lemma {:induction false} NotifyBalance(s: State, acts: seq<Action>)
    requires Possible(s, acts)
    ensures s.pending + Notified(s, acts) == FlagReads(s, acts).0 + After(s, acts).pending
    ensures s.setting + FlagReads(s, acts).1 == NotifierSets(acts) + After(s, acts).setting
    decreases |acts|
  {
    if acts != [] {
      OneNotify(s, acts[0]);
      NotifyBalance(Do(s, acts[0]), acts[1..]);
      hide Do, Enabled, Notifies;
    }
  }

  lemma OneNotify(s: State, a: Action)
    requires Enabled(s, a)
    ensures s.pending + (if Notifies(s, a) then 1 else 0) == Do(s, a).pending + if a.ReadFlag? then 1 else 0
    ensures s.setting + (if a.ReadFlag? && !s.dispatching then 1 else 0) ==
            Do(s, a).setting + if a.SetNotifier? then 1 else 0
  {
  }

  /** Whoever is notifying while the poller sleeps for good wakes it. */
  lemma NotifyWakes(s: State)
    requires Inv(s) && s.frames != [] && Top(s).pc == Asleep(true) && s.pending > 0
    ensures var s1 := Do(s, ReadFlag);
            s1.setting > 0 && var s2 := Do(s1, SetNotifier); s2.notifier && Enabled(s2, PollerStep(false))
  {
  }

  // ---- Progress ---------------------------------------------------------------------

  /** Steps that are owed: those of the polling thread, where callbacks return at once and
      the outermost aio_poll is called again, and those that schedulers have still to make. */
  ghost predicate Owed(s: State, a: Action)
  {
    a.ReadFlag? || a.SetNotifier? || a.PollerStep? || (a.Poll? && s.frames == [])
  }

  ghost function PollCost(n: nat): nat
  {
    5 * n + 10
  }

  ghost function StepsLeft(pc: Pc, n: nat): nat
  {
    match pc
    case Begin => 5 * n + 9
    case Fill => 5 * n + 8
    case Scan(i, live) => 3 * n + 7 + if live && i > 0 then 2 * i - 1 else 2 * i
    case Asleep(_) => 3 * n + 6
    case Awake(_) => 3 * n + 5
    case Walk(_, i, visit) => 3 * i + if visit.Next? then 4 else if visit.Live? then 3 else 5
    case Handlers(_) => 3
    case Timers => 2
    case Leave => 1
  }

  ghost function SumLeft(frames: seq<Frame>, n: nat): nat
  {
    if frames == [] then 0
    else SumLeft(frames[..|frames| - 1], n) + StepsLeft(frames[|frames| - 1].pc, n)
  }

  /** The innermost poll has not yet passed bottom half `j`. */
  ghost predicate WillVisit(s: State, j: nat)
  {
    s.frames != [] && Ahead(Top(s).pc, j)
  }

  ghost function Distance(s: State, j: nat): nat
  {
    2 * s.pending + s.setting + SumLeft(s.frames, |s.bhs|) + if WillVisit(s, j) then 0 else PollCost(|s.bhs|)
  }

  lemma SumAt(s: State, pc: Pc)
    requires s.frames != []
    ensures SumLeft(At(s, pc).frames, |s.bhs|) ==
            SumLeft(s.frames, |s.bhs|) - StepsLeft(Top(s).pc, |s.bhs|) + StepsLeft(pc, |s.bhs|)
  {
    assert At(s, pc).frames[..|s.frames| - 1] == s.frames[..|s.frames| - 1];
  }

  /** While a bottom half is due, some owed step can be made. */
  lemma SomeoneMoves(s: State, j: nat) returns (a: Action)
    requires Inv(s) && j < |s.bhs| && Due(s.bhs[j])
    ensures Enabled(s, a) && Owed(s, a)
  {
    if s.frames == [] {
      a := Poll(true);
    } else if s.pending > 0 {
      a := ReadFlag;
    } else if s.setting > 0 {
      a := SetNotifier;
    } else {
      a := PollerStep(false);
    }
  }

  lemma PolledCloser(s: State, timer: bool, j: nat)
    requires Inv(s) && Enabled(s, PollerStep(timer)) && j < |s.bhs| && Due(s.bhs[j])
    ensures var s' := Polled(s, timer);
            && |s'.bhs| == |s.bhs|
            && (Runs(s, PollerStep(timer), j) || (Due(s'.bhs[j]) && Distance(s', j) < Distance(s, j)))
  {
    if Top(s).pc.Leave? {
      LeaveCloser(s, timer, j);
    } else {
      RunsExactly(s, PollerStep(timer), j);
      hide Inv, At, SumLeft, Runs, NextPc, Written, StepsLeft;
      var pc, s' := NextPc(s, Top(s), timer), Written(s, Top(s));
      SumAt(s', pc);
      AtTop(s', pc);
      NextCloser(s, Top(s), timer, j);
    }
  }

  lemma LeaveCloser(s: State, timer: bool, j: nat)
    requires s.frames != [] && Top(s).pc.Leave? && Steps(s, Top(s).pc) && j < |s.bhs| && Due(s.bhs[j])
    ensures var s' := Polled(s, timer);
            |s'.bhs| == |s.bhs| && Due(s'.bhs[j]) && Distance(s', j) < Distance(s, j)
  {
  }

  lemma AtTop(s: State, pc: Pc)
    requires s.frames != []
    ensures At(s, pc).frames != [] && Top(At(s, pc)).pc == pc && At(s, pc).(frames := s.frames) == s
  {
  }

  ghost predicate Ahead(pc: Pc, j: nat)
  {
    match pc
    case Walk(_, i, _) => i > j
    case Handlers(_) => false
    case Timers => false
    case Leave => false
    case _ => true
  }

  lemma NextCloser(s: State, f: Frame, timer: bool, j: nat)
    requires Steps(s, f.pc) && !f.pc.Leave? && j < |s.bhs| && Due(s.bhs[j])
    ensures var s', pc := Written(s, f), NextPc(s, f, timer);
            && |s'.bhs| == |s.bhs| && s'.frames == s.frames && s'.pending == s.pending && s'.setting == s.setting
            && StepsLeft(pc, |s.bhs|) < StepsLeft(f.pc, |s.bhs|)
            && (|| (f.pc.Walk? && f.pc.i == j + 1 && f.pc.visit.Live?)
                || (Due(s'.bhs[j]) && Ahead(pc, j) == Ahead(f.pc, j)))
  {
  }

  /** An owed step either runs the bottom half or brings its run closer. */
  lemma StepCloser(s: State, a: Action, j: nat)
    requires Inv(s) && Enabled(s, a) && Owed(s, a) && j < |s.bhs| && Due(s.bhs[j])
    ensures var s' := Do(s, a);
            |s'.bhs| == |s.bhs| && (Runs(s, a, j) || (Due(s'.bhs[j]) && Distance(s', j) < Distance(s, j)))
  {
    if a.Poll? {
      assert Do(s, a).frames[..0] == [];
      hide Inv, Runs;
    } else if a.PollerStep? {
      PolledCloser(s, a.timer, j);
      hide Inv, Distance, Runs, Polled;
    } else {
      hide Inv, SumLeft, Runs, WillVisit;
    }
  }

  ghost predicate AllOwed(s: State, acts: seq<Action>)
    requires Possible(s, acts)
    decreases |acts|
  {
    acts == [] || (Owed(s, acts[0]) && AllOwed(Do(s, acts[0]), acts[1..]))
  }

  /** A bottom half that is due is run: every run of owed steps that is longer than the
      distance has the step that calls it. */
  lemma {:induction false} RunsSoon(s: State, acts: seq<Action>, j: nat) returns (k: nat)
    requires Inv(s) && j < |s.bhs| && Due(s.bhs[j])
    requires Possible(s, acts) && AllOwed(s, acts) && |acts| > Distance(s, j)
    ensures k < |acts| && Possible(s, acts[..k]) && Enabled(After(s, acts[..k]), acts[k])
    ensures Runs(After(s, acts[..k]), acts[k], j)
    decreases |acts|
  {
    hide Inv, Runs, Distance, Owed, Enabled, Do;
    StepCloser(s, acts[0], j);
    var s' := Do(s, acts[0]);
    k := 0;
    assert acts[..0] == [];
    if !Runs(s, acts[0], j) {
      StepInv(s, acts[0]);
      k := RunsSoon(s', acts[1..], j);
      k := k + 1;
      assert acts[..k][1..] == acts[1..][..k - 1];
    }
  }

  // ---- Sleep ------------------------------------------------------------------------

  /** No bottom half is due and no one is about to notify. */
  ghost predicate Quiet(s: State)
  {
    s.pending == 0 && s.setting == 0 && forall j :: 0 <= j < |s.bhs| ==> !Due(s.bhs[j])
  }

  /** Steps of the polling thread alone, which polls to block and has no timer. */
  ghost predicate Idling(s: State, a: Action)
  {
    a == PollerStep(false) || (a == Poll(true) && s.frames == [])
  }

  /** The poll has seen the notifier if it is set, or will see it. */
  ghost predicate Sees(pc: Pc)
  {
    match pc
    case Awake(saw) => saw
    case Walk(saw, _, _) => saw
    case Handlers(saw) => saw
    case Timers => false
    case Leave => false
    case _ => true
  }

  /** Unless something happens, the poll goes to sleep for good. */
  ghost predicate GoesToSleep(s: State, f: Frame)
  {
    match f.pc
    case Begin => f.blocking
    case Fill => f.blocking
    case Scan(i, live) => !(live && 0 < i <= |s.bhs| && s.bhs[i - 1].scheduled)
    case Asleep(forever) => forever
    case _ => false
  }

  /** How many times aio_poll is still called before it sleeps. */
  ghost function Rounds(s: State): nat
  {
    if s.frames == [] then if s.notifier then 2 else 1
    else if s.notifier then if Sees(Top(s).pc) then 1 else 2
    else if GoesToSleep(s, Top(s)) then 0 else 1
  }

  ghost function IdleLeft(s: State): nat
  {
    var round := PollCost(|s.bhs|);
    SumLeft(s.frames, |s.bhs|) + if Rounds(s) == 0 then 0 else if Rounds(s) == 1 then round else round + round
  }

  ghost predicate AsleepForGood(s: State)
  {
    s.frames != [] && Top(s).pc == Asleep(true) && !s.notifier
  }

  lemma NextIdle(s: State, f: Frame)
    requires FrameOk(s, f) && Quiet(s) && Steps(s, f.pc) && !f.pc.Leave?
    ensures var s', pc := Written(s, f), NextPc(s, f, false);
            && Quiet(s') && |s'.bhs| == |s.bhs| && s'.frames == s.frames && (s'.notifier ==> s.notifier)
            && StepsLeft(pc, |s.bhs|) < StepsLeft(f.pc, |s.bhs|)
            && (s'.notifier ==> Sees(f.pc) ==> Sees(pc))
            && (!s.notifier && GoesToSleep(s, f) ==> GoesToSleep(s', f.(pc := pc)))
            && (s.notifier && !s'.notifier ==> Sees(f.pc))
  {
  }

  /** Each such step brings the sleep closer. */
  lemma IdleStep(s: State, a: Action)
    requires Inv(s) && Quiet(s) && Enabled(s, a) && Idling(s, a)
    ensures Quiet(Do(s, a)) && |Do(s, a).bhs| == |s.bhs| && IdleLeft(Do(s, a)) < IdleLeft(s)
  {
    if a.Poll? {
      IdlePoll(s);
    } else if Top(s).pc.Leave? {
      IdleLeave(s);
    } else {
      IdleMove(s);
    }
    hide Inv, Polled, IdleLeft, Quiet;
  }

  lemma IdlePoll(s: State)
    requires s.frames == []
    ensures IdleLeft(Do(s, Poll(true))) < IdleLeft(s)
  {
    var s' := Do(s, Poll(true));
    assert s'.frames[..0] == [];
    assert SumLeft(s'.frames, |s.bhs|) == StepsLeft(Begin, |s.bhs|) && SumLeft(s.frames, |s.bhs|) == 0;
    hide SumLeft;
  }

  lemma IdleMove(s: State)
    requires Inv(s) && Quiet(s) && s.frames != [] && Steps(s, Top(s).pc) && !Top(s).pc.Leave?
    ensures var s' := Polled(s, false); Quiet(s') && |s'.bhs| == |s.bhs| && IdleLeft(s') < IdleLeft(s)
  {
    var pc, s1 := NextPc(s, Top(s), false), Written(s, Top(s));
    NextIdle(s, Top(s));
    SumAt(s1, pc);
    AtTop(s1, pc);
    hide Inv, At, SumLeft, NextPc, Written, StepsLeft, GoesToSleep, Sees, PollCost, Quiet, Steps, FrameOk;
    QuietStill(s1, At(s1, pc), Top(s).(pc := pc));
  }

  lemma IdleLeave(s: State)
    requires Inv(s) && Quiet(s) && s.frames != [] && Top(s).pc.Leave?
    ensures var s' := Polled(s, false); Quiet(s') && |s'.bhs| == |s.bhs| && IdleLeft(s') < IdleLeft(s)
  {
    var s' := Polled(s, false);
    assert s'.frames == s.frames[..|s.frames| - 1];
    if s'.frames != [] {
      assert InCallback(Top(s').pc);
    }
    hide Inv;
  }

  /** Where the polls stand does not matter to the bottom halves. */
  lemma QuietStill(s: State, s': State, f: Frame)
    requires s' == s.(frames := s'.frames)
    ensures Quiet(s) <==> Quiet(s')
    ensures GoesToSleep(s, f) <==> GoesToSleep(s', f)
  {
  }

  ghost predicate AllIdling(s: State, acts: seq<Action>)
    requires Possible(s, acts)
    decreases |acts|
  {
    acts == [] || (Idling(s, acts[0]) && AllIdling(Do(s, acts[0]), acts[1..]))
  }

  /** With nothing to do the polling thread does not spin: it takes no more steps than the
      bound, and it can take one unless it is asleep for good. */
  lemma {:induction false} SleepsSoon(s: State, acts: seq<Action>)
    requires Inv(s) && Quiet(s) && Possible(s, acts) && AllIdling(s, acts)
    ensures |acts| <= IdleLeft(s)
    ensures AsleepForGood(After(s, acts)) <==> forall a :: Idling(After(s, acts), a) ==> !Enabled(After(s, acts), a)
    decreases |acts|
  {
    if acts == [] {
      if s.frames == [] {
        assert Enabled(s, Poll(true));
      } else {
        assert Enabled(s, PollerStep(false)) <==> !AsleepForGood(s);
      }
    } else {
      StepInv(s, acts[0]);
      IdleStep(s, acts[0]);
      hide Inv, Quiet, IdleLeft, Idling, Do, Enabled, AsleepForGood;
      SleepsSoon(Do(s, acts[0]), acts[1..]);
    }
  }
}
