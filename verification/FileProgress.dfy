/** What the file-store protocol achieves when nothing fails: calls are answered, and errors are reported exactly
    when a step failed. */
module FileProgress {
  import opened Core
  import opened Calendar
  import opened Backend
  import opened JsonFile
  import opened FileProtocol
  import opened FileLinearizability

  // ── Success ───────────────────────────────────────────────────────────────

  /** A step of call `t` that fails. */
  predicate FailsFor(e: Event, t: TaskId) {
    match e
    case OpenLockFile(task, ok) => task == t && !ok
    case AcquireLock(task, ok) => task == t && !ok
    case ReadFile(task, ok) => task == t && !ok
    case CreateTemp(task, ok) => task == t && !ok
    case WritePiece(task, ok) => task == t && !ok
    case Rename(task, ok) => task == t && !ok
    case SetPermissions(task, ok) => task == t && !ok
    case _ => false
  }

  /** The call has, or will have, an error to report. */
  predicate InError(p: Phase) {
    (p.Releasing? || p.Returned? || p.Finished?) && p.response.Errored?
  }

  lemma VaultReads(s: State)
    requires VaultTrue(s)
    ensures ReadState(s.vault).Ok?
  {
    ReadImage(Current(s));
    hide ReadState, Image, AllStorable, Replay;
  }

  lemma ReadFileInError(s: State, t: TaskId)
    requires VaultTrue(s) && t in s.tasks && ReadAndEdit(s, t).Some?
    ensures t in ReadAndEdit(s, t).value.tasks && !InError(ReadAndEdit(s, t).value.tasks[t].phase)
  {
    VaultReads(s);
    hide VaultTrue, ReadState, Edit, StateStorable, Render;
  }

  /** A step of a call puts it in error exactly when it fails, and no step takes it out again. */
  lemma StepInError(s: State, t: TaskId, e: Event)
    requires Inv(s) && t in s.tasks && TaskStep(s, t, e).Some? && e.task == t
    requires !e.Tick? && !e.Crash? && !e.Invoke?
    ensures t in TaskStep(s, t, e).value.tasks
    ensures InError(TaskStep(s, t, e).value.tasks[t].phase) <==> InError(s.tasks[t].phase) || FailsFor(e, t)
  {
    hide ReadAndEdit, VaultTrue, LogTrue, TasksTrue, LocksNameTasks;
    if e.ReadFile? && e.ok {
      ReadFileInError(s, t);
    }
  }

  lemma NextInError(s: State, e: Event, t: TaskId)
    requires Inv(s) && t in s.tasks && Next(s, e).Some?
    ensures t in Next(s, e).value.tasks
    ensures var p := Next(s, e).value.tasks[t].phase;
            p.Died? || (InError(p) <==> InError(s.tasks[t].phase) || FailsFor(e, t))
  {
    hide Inv;
    if e.Tick? || e.Crash? || e.Invoke? {
      hide TaskStep;
    } else if e.task == t {
      StepInError(s, t, e);
      hide TaskStep, InError, FailsFor;
    } else {
      TaskStepShape(s, e.task, e);
      hide TaskStep, InError;
    }
  }

  lemma NewCallNotInError(s: State, e: Event, t: TaskId)
    requires Next(s, e).Some? && t !in s.tasks && t in Next(s, e).value.tasks
    ensures !InError(Next(s, e).value.tasks[t].phase) && !FailsFor(e, t)
  {
    if !e.Tick? && !e.Crash? && !e.Invoke? {
      TaskStepShape(s, e.task, e);
    }
    hide TaskStep;
  }

  lemma NoFailureBefore(s: State, e: Event, t: TaskId)
    requires Next(s, e).Some? && t !in Next(s, e).value.tasks
    ensures t !in s.tasks && !FailsFor(e, t)
  {
    if !e.Tick? && !e.Crash? && !e.Invoke? {
      TaskStepShape(s, e.task, e);
    }
    hide TaskStep;
  }

  predicate SomeStepFailed(events: seq<Event>, t: TaskId) {
    exists i :: 0 <= i < |events| && FailsFor(events[i], t)
  }

  lemma OneMoreEvent(init: seq<Event>, e: Event, t: TaskId)
    ensures SomeStepFailed(init + [e], t) <==> SomeStepFailed(init, t) || FailsFor(e, t)
  {
    hide FailsFor;
    var all := init + [e];
    assert all[|init|] == e && forall i :: 0 <= i < |init| ==> all[i] == init[i];
  }

  /** Unless its process died, a call is in error exactly when one of its own steps has failed. */
  predicate ErrorsSo(s: State, events: seq<Event>, t: TaskId) {
    if t in s.tasks then s.tasks[t].phase.Died? || (InError(s.tasks[t].phase) <==> SomeStepFailed(events, t))
    else !SomeStepFailed(events, t)
  }

  lemma ErrorsStaySo(s: State, init: seq<Event>, e: Event, t: TaskId)
    requires Inv(s) && Next(s, e).Some? && ErrorsSo(s, init, t)
    ensures ErrorsSo(Next(s, e).value, init + [e], t)
  {
    hide Inv, Next, InError, SomeStepFailed, FailsFor;
    OneMoreEvent(init, e, t);
    if t in s.tasks {
      NextInError(s, e, t);
      if s.tasks[t].phase.Died? {
        DeathIsFinal(s, e, t);
      }
    } else if t in Next(s, e).value.tasks {
      NewCallNotInError(s, e, t);
    } else {
      NoFailureBefore(s, e, t);
    }
  }

  /** With no failed step a call is never answered with an error, and no failure is swallowed. */
  lemma {:induction false} ErrorsAreFailures(m: Records, clock: Instant, events: seq<Event>, t: TaskId)
    requires AllStorable(m) && Run(Start(m, clock), events).Some?
    ensures ErrorsSo(Run(Start(m, clock), events).value, events, t)
  {
    hide Inv, Next, ErrorsSo, AllStorable, Start;
    if events == [] {
      NothingFailed(m, clock, t);
    } else {
      var (init, e) := (events[..|events| - 1], events[|events| - 1]);
      assert init + [e] == events;
      ErrorsAreFailures(m, clock, init, t);
      RunKeeps(m, clock, init);
      ErrorsStaySo(Run(Start(m, clock), init).value, init, e, t);
    }
  }

  /** So a call any of whose steps failed reports an error, or its process died first. */
  lemma FailuresAreReported(m: Records, clock: Instant, events: seq<Event>, t: TaskId)
    requires AllStorable(m) && Run(Start(m, clock), events).Some?
    requires || OpenLockFile(t, false) in events || AcquireLock(t, false) in events || ReadFile(t, false) in events
             || CreateTemp(t, false) in events || WritePiece(t, false) in events || Rename(t, false) in events
             || SetPermissions(t, false) in events
    ensures var s := Run(Start(m, clock), events).value;
            t in s.tasks && match s.tasks[t].phase
                            case Releasing(response) => response.Errored?
                            case Returned(response) => response.Errored?
                            case Finished(response, _) => response.Errored?
                            case phase => phase.Died?
  {
    hide Run, Start, AllStorable;
    ErrorsAreFailures(m, clock, events, t);
    var e :| e in events && FailsFor(e, t);
    var i :| 0 <= i < |events| && events[i] == e;
    assert SomeStepFailed(events, t);
  }

  lemma NothingFailed(m: Records, clock: Instant, t: TaskId)
    requires AllStorable(m)
    ensures ErrorsSo(Start(m, clock), [], t)
  {
    hide Image, AllStorable;
  }

  lemma DeathIsFinal(s: State, e: Event, t: TaskId)
    requires t in s.tasks && s.tasks[t].phase.Died? && Next(s, e).Some?
    ensures t in Next(s, e).value.tasks && Next(s, e).value.tasks[t].phase.Died?
  {
    if !e.Tick? && !e.Crash? && !e.Invoke? && e.task != t {
      TaskStepShape(s, e.task, e);
    }
    hide ReadAndEdit;
  }

  /** The next step of a call, gone wrong. */
  function Failing(t: TaskId, p: Phase): Event {
    match p
    case Spawned => OpenLockFile(t, false)
    case WaitingLock => AcquireLock(t, false)
    case Locked => ReadFile(t, false)
    case Edited(_, _) => CreateTemp(t, false)
    case Writing(temp, _) => if temp.written < |temp.text| then WritePiece(t, false) else Rename(t, false)
    case Renamed(_) => SetPermissions(t, false)
    case _ => Cancel(t)
  }

  /** Such a step leaves the file alone and the call in error, late after the rename. */
  predicate FailsSo(s: State, t: TaskId, e: Event)
    requires t in s.tasks
  {
    && Next(s, e).Some? && t in Next(s, e).value.tasks && Next(s, e).value.vault == s.vault
    && (Next(s, e).value.tasks[t].phase == Releasing(Errored(s.tasks[t].phase.Renamed?))
        || Next(s, e).value.tasks[t].phase == Returned(Errored(false)))
  }

  lemma FailingStep(s: State, t: TaskId)
    requires t in s.tasks && (s.tasks[t].phase.Writing? ==> s.tasks[t].phase.temp.written <= |s.tasks[t].phase.temp.text|)
    ensures var p := s.tasks[t].phase;
            p.Spawned? || p.WaitingLock? || p.Locked? || p.Edited? || p.Writing? || p.Renamed? ==>
              FailsSo(s, t, Failing(t, p))
  {
    hide ReadAndEdit, CancelTask, KillProcess;
  }

  lemma CancelStep(s: State, t: TaskId)
    requires t in s.tasks && Pending(s.tasks[t]) && s.tasks[t].awaiting
    ensures Next(s, Cancel(t)).Some? && t in Next(s, Cancel(t)).value.tasks
    ensures !Next(s, Cancel(t)).value.tasks[t].awaiting && Next(s, Cancel(t)).value.vault == s.vault
  {
    hide ReadAndEdit;
  }

  lemma WrittenInBounds(s: State, t: TaskId)
    requires Inv(s) && t in s.tasks && s.tasks[t].phase.Writing?
    ensures s.tasks[t].phase.temp.written <= |s.tasks[t].phase.temp.text|
  {
    hide VaultTrue, LogTrue, LocksNameTasks, Prepared;
    assert TaskTrue(s, t);
  }

  /** Any step of a call can fail, and then the call is in error, without effect before the rename and with full effect
      after it; and a caller can go away at any time before its call is over. */
  lemma AnyStepCanFail(s: State, t: TaskId)
    requires Inv(s) && t in s.tasks && Pending(s.tasks[t])
    ensures var p := s.tasks[t].phase;
            p.Spawned? || p.WaitingLock? || p.Locked? || p.Edited? || p.Writing? || p.Renamed? ==>
              FailsSo(s, t, Failing(t, p))
    ensures s.tasks[t].awaiting ==>
              && Next(s, Cancel(t)).Some? && t in Next(s, Cancel(t)).value.tasks
              && !Next(s, Cancel(t)).value.tasks[t].awaiting && Next(s, Cancel(t)).value.vault == s.vault
  {
    hide Inv, Next, Failing, FailsSo, Pending;
    if s.tasks[t].phase.Writing? {
      WrittenInBounds(s, t);
    }
    FailingStep(s, t);
    if s.tasks[t].awaiting {
      CancelStep(s, t);
    }
  }

  // ── A call with its way clear ─────────────────────────────────────────────

  /** Of the mutexes, a step of `u` can only take or drop its own. */
  predicate OnlyOwnGuard(s: State, s': State, u: TaskId) {
    forall p :: p in s'.guards ==> (p in s.guards && s'.guards[p] == s.guards[p]) || s'.guards[p] == u
  }

  /** `u` went on from `s` to `s'`; nothing else moved. */
  predicate WentOn(s: State, s': State, u: TaskId) {
    && u in s.tasks && u in s'.tasks && s'.tasks == s.tasks[u := s'.tasks[u]]
    && s'.tasks[u].awaiting == s.tasks[u].awaiting && OnlyOwnGuard(s, s', u)
    && (InError(s'.tasks[u].phase) <==> InError(s.tasks[u].phase))
  }

  /** `u` has come to its end and holds no lock. */
  predicate AtEnd(s: State, u: TaskId) {
    && u in s.tasks && s.lock.None?
    && (if s.tasks[u].awaiting then s.tasks[u].phase.Finished? else s.tasks[u].phase.Returned?)
  }

  lemma WentOnTwice(s: State, s1: State, s2: State, u: TaskId)
    requires WentOn(s, s1, u) && WentOn(s1, s2, u)
    ensures WentOn(s, s2, u)
  {
    hide InError;
  }

  lemma OwnStepGuards(s: State, u: TaskId)
    requires u in s.tasks && TaskStep(s, u, NextStep(u, s.tasks[u].phase)).Some?
    ensures var s' := TaskStep(s, u, NextStep(u, s.tasks[u].phase)).value;
            && OnlyOwnGuard(s, s', u) && u in s'.tasks && s'.tasks[u].awaiting == s.tasks[u].awaiting
  {
    hide ReadState, Edit, StateStorable, Render;
  }

  lemma OwnStepClears(s: State, u: TaskId)
    requires u in s.tasks && TaskTrue(s, u) && CanMove(s, u) && !s.tasks[u].phase.Locked?
    requires TaskStep(s, u, NextStep(u, s.tasks[u].phase)).Some?
    ensures var s' := TaskStep(s, u, NextStep(u, s.tasks[u].phase)).value;
            u in s'.tasks && (CanMove(s', u) || AtEnd(s', u))
  {
    hide ReadAndEdit, PhaseTrue, Committed;
    if s.tasks[u].phase.WaitingGuard? {
      WaitersAwait(s, u);
    }
  }

  lemma WaitersAwait(s: State, u: TaskId)
    requires u in s.tasks && TaskTrue(s, u) && s.tasks[u].phase.WaitingGuard?
    ensures s.tasks[u].awaiting
  {
  }

  lemma ReadStepClears(s: State, u: TaskId)
    requires u in s.tasks && s.tasks[u].phase.Locked? && ReadAndEdit(s, u).Some?
    ensures u in ReadAndEdit(s, u).value.tasks && CanMove(ReadAndEdit(s, u).value, u)
  {
    hide ReadState, Edit, StateStorable, Render;
  }

  /** One successful step of a call whose way is clear: it can go on after it, or has come to its end. */
  lemma OneStepOn(s: State, u: TaskId) returns (e: Event, s': State)
    requires Inv(s) && u in s.tasks && CanMove(s, u)
    ensures Helpful(e) && Next(s, e) == Some(s') && Inv(s') && WentOn(s, s', u) && (CanMove(s', u) || AtEnd(s', u))
    ensures var (p, p') := (s.tasks[u].phase, s'.tasks[u].phase);
            || Stage(p) < Stage(p')
            || (p.Writing? && p'.Writing? && p'.temp.text == p.temp.text
                && p.temp.written < p'.temp.written <= |p.temp.text|)
  {
    e := NextStep(u, s.tasks[u].phase);
    MoverCanStep(s, u);
    s' := Next(s, e).value;
    NextKeeps(s, e);
    assert TaskTrue(s, u);
    OwnStepIsItsOwn(s, u);
    TaskStepShape(s, u, e);
    StepsAdvance(s, u, e);
    StepInError(s, u, e);
    OwnStepGuards(s, u);
    if s.tasks[u].phase.Locked? {
      ReadStepClears(s, u);
    } else {
      OwnStepClears(s, u);
    }
    hide Inv, TaskStep, TaskTrue, CanMove, AtEnd, InError, FailsFor, Stage, NextStep;
  }

  lemma OwnStepIsItsOwn(s: State, u: TaskId)
    requires u in s.tasks
    ensures var e := NextStep(u, s.tasks[u].phase);
            && e.task == u && !e.Tick? && !e.Crash? && !e.Invoke? && !e.Cancel? && !FailsFor(e, u)
            && Next(s, e) == TaskStep(s, u, e)
            && (s.tasks[u].phase.Locked? ==> TaskStep(s, u, e) == ReadAndEdit(s, u))
  {
    hide ReadAndEdit;
  }

  function PiecesLeft(p: Phase): nat {
    if p.Writing? && p.temp.written <= |p.temp.text| then |p.temp.text| - p.temp.written else 0
  }

  /** Run on to its end. */
  lemma {:induction false} Drive(s0: State, events: seq<Event>, u: TaskId) returns (all: seq<Event>)
    requires Run(s0, events).Some?
    requires var s := Run(s0, events).value; Inv(s) && u in s.tasks && (CanMove(s, u) || AtEnd(s, u))
    ensures Run(s0, all).Some?
    ensures var (s, s') := (Run(s0, events).value, Run(s0, all).value);
            Inv(s') && WentOn(s, s', u) && AtEnd(s', u)
    ensures forall e :: e in all ==> e in events || Helpful(e)
    decreases 9 - Stage(Run(s0, events).value.tasks[u].phase), PiecesLeft(Run(s0, events).value.tasks[u].phase)
  {
    hide Run, Next, Inv, CanMove, AtEnd, InError, Helpful;
    var s := Run(s0, events).value;
    if AtEnd(s, u) {
      return events;
    }
    var e, s' := OneStepOn(s, u);
    RunOn(s0, events, e, s, s');
    all := Drive(s0, events + [e], u);
    WentOnTwice(s, s', Run(s0, all).value, u);
  }

  // ── Every call can be answered ────────────────────────────────────────────

  /** When the file lock is free, a waiting call can go on once the one before it in its process has ended. */
  lemma ClearGuard(s0: State, events: seq<Event>, t: TaskId) returns (all: seq<Event>)
    requires Run(s0, events).Some?
    requires var s := Run(s0, events).value; Inv(s) && s.lock.None? && t in s.tasks && Pending(s.tasks[t])
    ensures Run(s0, all).Some?
    ensures var (s, s') := (Run(s0, events).value, Run(s0, all).value);
            Inv(s') && t in s'.tasks && s'.tasks[t] == s.tasks[t] && CanMove(s', t)
    ensures forall e :: e in all ==> e in events || Helpful(e)
  {
    hide Run, Next, VaultTrue, LogTrue;
    var s := Run(s0, events).value;
    var pid := s.tasks[t].pid;
    if !s.tasks[t].phase.WaitingGuard? || pid !in s.guards {
      return events;
    }
    var holder := s.guards[pid];
    assert TaskTrue(s, holder) && TaskTrue(s, t);
    hide PhaseTrue, Committed;
    assert HoldsGuard(s.tasks[holder]) && CanMove(s, holder);
    all := Drive(s0, events, holder);
    var s' := Run(s0, all).value;
    GuardIsFree(s, s', holder, pid);
  }

  lemma GuardIsFree(s: State, s': State, u: TaskId, pid: Pid)
    requires Inv(s') && WentOn(s, s', u) && AtEnd(s', u) && s.tasks[u].awaiting
    requires pid in s.guards && s.guards[pid] == u
    ensures pid !in s'.guards
  {
    hide VaultTrue, LogTrue, PhaseTrue, Committed;
    assert TaskTrue(s', u);
  }

  lemma ClearLock(s: State, t: TaskId) returns (all: seq<Event>)
    requires Inv(s) && t in s.tasks && Pending(s.tasks[t]) && s.lock != Some(t)
    ensures Run(s, all).Some?
    ensures var s' := Run(s, all).value;
            Inv(s') && s'.lock.None? && t in s'.tasks && s'.tasks[t] == s.tasks[t]
    ensures forall e :: e in all ==> Helpful(e)
  {
    assert Run(s, []) == Some(s);
    hide Run, Next, VaultTrue, LogTrue;
    if s.lock.None? {
      return [];
    }
    var holder := s.lock.value;
    assert TaskTrue(s, holder);
    hide PhaseTrue, Committed;
    assert CanMove(s, holder);
    all := Drive(s, [], holder);
  }

  /** From every reachable state, whatever failed, was cancelled or died before, successful steps of the store
      alone bring any call somebody waits for to its end, and one that has not failed yet to an answer. */
  lemma EveryCallCanBeAnswered(s: State, t: TaskId) returns (all: seq<Event>)
    requires Inv(s) && t in s.tasks && Pending(s.tasks[t]) && s.tasks[t].awaiting
    ensures Run(s, all).Some? && t in Run(s, all).value.tasks && Run(s, all).value.tasks[t].phase.Finished?
    ensures !InError(s.tasks[t].phase) ==> Run(s, all).value.tasks[t].phase.response.Answered?
    ensures forall e :: e in all ==> Helpful(e)
  {
    if s.lock == Some(t) {
      assert TaskTrue(s, t);
      assert Run(s, []) == Some(s);
      hide Run, Inv, TaskTrue;
      all := Drive(s, [], t);
    } else {
      hide Run, Inv, CanMove;
      all := ClearLock(s, t);
      all := ClearGuard(s, all, t);
      all := Drive(s, all, t);
    }
  }
}
