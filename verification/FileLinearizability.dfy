/** Every run of the file-store protocol is linearizable: the file always holds the committed
    operations applied in order, and every caller is told what the abstract store would answer. */
module FileLinearizability {
  import opened Core
  import opened Uuid
  import opened Calendar
  import opened Backend
  import opened JsonFile
  import opened FileProtocol

  // ── One call against the abstract store ───────────────────────────────────

  /** Editing the parsed file is the abstract operation, and a call that does not write changes
      nothing. */
  lemma EditIsAbstract(m: Records, op: Op)
    ensures var (next, reply, writes) := Edit(ByKey(m), op);
            next == ByKey(After(m, op)) && reply == Answer(m, op) && (!writes ==> After(m, op) == m)
  {
    hide ByKey, Hyphenated, Retain, Sweep, Victims;
    match op
    case Insert(id, rec) =>
      ByKeyInsert(m, id, rec);
    case Fetch(id) =>
      ByKeyLookup(m, id);
    case Delete(id) =>
      ByKeyLookup(m, id);
      ByKeyRemove(m, id);
      RemoveMissing(m, id);
    case DeleteExpired(now) =>
      ByKeyRetain(m, now);
      ByKeySize(m);
      ByKeySize(Sweep(m, now));
      SweepIsExact(m, now);
  }

  /** Whether an operation has to write: inserts do, deletes when the record is there, sweeps when some record is due. */
  ghost predicate MustWrite(m: Records, op: Op) {
    match op
    case Insert(_, _) => true
    case Fetch(_) => false
    case Delete(id) => id in m
    case DeleteExpired(now) => exists id :: id in m && m[id].expiresAt.Some? && m[id].expiresAt.value <= now
  }

  lemma EditWrites(m: Records, op: Op)
    ensures Edit(ByKey(m), op).2 <==> MustWrite(m, op)
  {
    hide ByKey, Hyphenated, Retain, Sweep;
    match op
    case Insert(_, _) =>
    case Fetch(_) =>
    case Delete(id) => ByKeyLookup(m, id);
    case DeleteExpired(now) =>
      ByKeyRetain(m, now);
      ByKeySize(m);
      ByKeySize(Sweep(m, now));
      SweepIsExact(m, now);
      if id :| id in m && Sweepable(m[id], now) {
        assert id in Victims(m, now);
      } else {
        assert Victims(m, now) == {};
      }
  }

  lemma WritesSo(s: State, t: TaskId)
    requires VaultTrue(s) && t in s.tasks && s.tasks[t].phase.Locked? && ReadAndEdit(s, t).Some?
    ensures t in ReadAndEdit(s, t).value.tasks
    ensures var (m, op, s') := (Current(s), s.tasks[t].op, ReadAndEdit(s, t).value);
            && s'.vault == s.vault
            && if MustWrite(m, op) then s'.tasks[t].phase.Edited?
               else s'.tasks[t].phase == Releasing(Answered(Answer(m, op)))
  {
    hide ReadState, Edit, Image, Render, AllStorable, Current, ByKey, MustWrite, Answer, After, StateStorable;
    ReadImage(Current(s));
    EditIsAbstract(Current(s), s.tasks[t].op);
    EditWrites(Current(s), s.tasks[t].op);
  }

  /** Under the lock a call goes on to write exactly when it must; otherwise its answer is ready, and the file is not
      touched. */
  lemma WritesExactlyWhenNeeded(s: State, t: TaskId)
    requires Inv(s) && t in s.tasks && s.tasks[t].phase.Locked?
    ensures ReadAndEdit(s, t).Some? && t in ReadAndEdit(s, t).value.tasks
    ensures var (m, op, s') := (Current(s), s.tasks[t].op, ReadAndEdit(s, t).value);
            && s'.vault == s.vault
            && if MustWrite(m, op) then s'.tasks[t].phase.Edited?
               else s'.tasks[t].phase == Releasing(Answered(Answer(m, op)))
  {
    hide ReadAndEdit, VaultTrue, LogTrue, TasksTrue, LocksNameTasks, Current, MustWrite, Answer;
    LockedCanRead(s, t);
    WritesSo(s, t);
  }

  lemma LockedCanRead(s: State, t: TaskId)
    requires Inv(s) && t in s.tasks && s.tasks[t].phase.Locked?
    ensures VaultTrue(s) && ReadAndEdit(s, t).Some?
  {
    hide ReadAndEdit, LogTrue, TasksTrue, LocksNameTasks, VaultTrue;
    MoverCanStep(s, t);
  }

  /** Committing one more operation applies it to the abstract records. */
  lemma Appended(m: Records, log: seq<Commit>, c: Commit)
    ensures Replay(m, log + [c]) == After(Replay(m, log), c.op)
  {
    assert Ops(log + [c]) == Ops(log) + [c.op];
    assert (Ops(log) + [c.op])[..|log|] == Ops(log);
  }

  // ── Preservation ──────────────────────────────────────────────────────────

  /** The locks say the same about every task but `t`. */
  predicate SameForOthers(s: State, s': State, t: TaskId) {
    forall u :: u in s.tasks && u != t ==>
      && (s'.lock == Some(u) <==> s.lock == Some(u))
      && ((s.tasks[u].pid in s'.guards && s'.guards[s.tasks[u].pid] == u)
          <==> (s.tasks[u].pid in s.guards && s.guards[s.tasks[u].pid] == u))
  }

  /** A task that did not move keeps its part of the invariant, provided the locks still say the same
      about it and, if it holds the file lock, nothing was committed meanwhile. */
  lemma Bystander(s: State, s': State, u: TaskId)
    requires u in s.tasks && u in s'.tasks && s'.tasks[u] == s.tasks[u] && TaskTrue(s, u)
    requires s'.initial == s.initial && s.log <= s'.log
    requires HoldsLock(s.tasks[u].phase) ==> s'.log == s.log
    requires s'.lock == Some(u) <==> s.lock == Some(u)
    requires var p := s.tasks[u].pid; (p in s'.guards && s'.guards[p] == u) <==> (p in s.guards && s.guards[p] == u)
    ensures TaskTrue(s', u)
  {
    hide Image, AllStorable, Answer, After, Replay;
  }

  /** A step that commits nothing keeps the invariant when it keeps it for its own task. */
  lemma QuietStep(s: State, s': State, t: TaskId, k: Task)
    requires Inv(s) && t in s.tasks
    requires s' == s.(tasks := s.tasks[t := k], lock := s'.lock, guards := s'.guards)
    requires k.committedAt == s.tasks[t].committedAt
    requires SameForOthers(s, s', t) && LocksNameTasks(s') && TaskTrue(s', t)
    ensures Inv(s')
  {
    hide Image, AllStorable, Answer, After, Replay, TaskTrue;
    forall u | u in s'.tasks ensures TaskTrue(s', u) {
      if u != t {
        Bystander(s, s', u);
      }
    }
  }

  lemma LogStaysTrue(s: State, t: TaskId, reply: Reply, phase: Phase, vault: Text)
    requires LogTrue(s) && t in s.tasks && s.tasks[t].committedAt.None?
    requires reply == Answer(Current(s), s.tasks[t].op)
    ensures LogTrue(CommitTo(s, t, reply, phase).(vault := vault))
  {
    var s' := CommitTo(s, t, reply, phase).(vault := vault);
    var c := Commit(t, s.tasks[t].op, reply);
    Appended(s.initial, s.log, c);
    hide Answer, Replay;
    forall i | 0 <= i < |s'.log|
      ensures && s'.log[i].task in s'.tasks && s'.tasks[s'.log[i].task].committedAt == Some(i)
              && s'.log[i].reply == Answer(Prior(s', i), s'.log[i].op)
    {
      assert s'.log[..i] == s.log[..i];
      assert s.log[..|s.log|] == s.log;
      if i < |s.log| {
        assert s'.log[i] == s.log[i];
        assert s.tasks[s.log[i].task].committedAt == Some(i);
      }
    }
  }

  /** A committing step by the holder of the file lock keeps the invariant when the answer is the
      abstract one and the file becomes the image of the new abstract records. */
  lemma CommitStep(s: State, t: TaskId, reply: Reply, phase: Phase, vault: Text)
    requires Inv(s) && t in s.tasks && s.lock == Some(t) && s.tasks[t].committedAt.None?
    requires HoldsLock(s.tasks[t].phase)
    requires phase == Renamed(reply) || phase == Releasing(Answered(reply))
    requires reply == Answer(Current(s), s.tasks[t].op)
    requires var next := After(Current(s), s.tasks[t].op); AllStorable(next) && vault == Image(next)
    ensures Inv(CommitTo(s, t, reply, phase).(vault := vault))
  {
    LogStaysTrue(s, t, reply, phase, vault);
    TasksStayTrue(s, t, reply, phase, vault);
    VaultStaysTrue(s, t, reply, phase, vault);
    CommitLocks(s, t, reply, phase, vault);
    hide CommitTo, VaultTrue, LogTrue, TasksTrue, LocksNameTasks, After, Answer, Image, AllStorable, Current;
  }

  lemma CommitLocks(s: State, t: TaskId, reply: Reply, phase: Phase, vault: Text)
    requires t in s.tasks && LocksNameTasks(s)
    ensures LocksNameTasks(CommitTo(s, t, reply, phase).(vault := vault))
  {
  }

  lemma VaultStaysTrue(s: State, t: TaskId, reply: Reply, phase: Phase, vault: Text)
    requires t in s.tasks
    requires var next := After(Current(s), s.tasks[t].op); AllStorable(next) && vault == Image(next)
    ensures VaultTrue(CommitTo(s, t, reply, phase).(vault := vault))
  {
    hide Image, AllStorable, After, Replay;
    Appended(s.initial, s.log, Commit(t, s.tasks[t].op, reply));
  }

  lemma TasksStayTrue(s: State, t: TaskId, reply: Reply, phase: Phase, vault: Text)
    requires TasksTrue(s) && t in s.tasks && s.lock == Some(t)
    requires HoldsLock(s.tasks[t].phase)
    requires phase == Renamed(reply) || phase == Releasing(Answered(reply))
    ensures TasksTrue(CommitTo(s, t, reply, phase).(vault := vault))
  {
    hide TaskTrue;
    var s' := CommitTo(s, t, reply, phase).(vault := vault);
    forall u | u in s'.tasks ensures TaskTrue(s', u) {
      if u == t {
        CommittedTask(s, t, reply, phase, vault);
      } else {
        CommitBystander(s, t, reply, phase, vault, u);
      }
    }
  }

  lemma CommitBystander(s: State, t: TaskId, reply: Reply, phase: Phase, vault: Text, u: TaskId)
    requires t in s.tasks && u in s.tasks && u != t && s.lock == Some(t) && TaskTrue(s, u)
    ensures TaskTrue(CommitTo(s, t, reply, phase).(vault := vault), u)
  {
    hide PhaseTrue, Committed;
    var s' := CommitTo(s, t, reply, phase).(vault := vault);
    assert !HoldsLock(s.tasks[u].phase);
    Bystander(s, s', u);
  }

  lemma CommittedTask(s: State, t: TaskId, reply: Reply, phase: Phase, vault: Text)
    requires t in s.tasks && TaskTrue(s, t) && s.lock == Some(t)
    requires HoldsLock(s.tasks[t].phase)
    requires phase == Renamed(reply) || phase == Releasing(Answered(reply))
    ensures TaskTrue(CommitTo(s, t, reply, phase).(vault := vault), t)
  {
    hide Image, AllStorable, Answer, After, Replay;
  }

  lemma ImageOfEdit(m: Records, op: Op)
    requires AllStorable(m) && (op.Insert? ==> Storable(op.rec))
    ensures AllStorable(After(m, op)) && StateStorable(ByKey(After(m, op)))
    ensures Image(After(m, op)) == Render(ByKey(After(m, op)))
  {
    AfterStorable(m, op);
    ByKeyStorable(After(m, op));
  }

  lemma ReadFileStep(s: State, t: TaskId)
    requires Inv(s) && t in s.tasks && s.tasks[t].phase.Locked?
    ensures ReadAndEdit(s, t).Some? && Inv(ReadAndEdit(s, t).value)
  {
    assert TaskTrue(s, t);
    var k := s.tasks[t];
    var m := Current(s);
    ReadImage(m);
    EditIsAbstract(m, k.op);
    ImageOfEdit(m, k.op);
    var next := After(m, k.op);
    var reply := Answer(m, k.op);
    assert ReadState(s.vault) == Ok(ByKey(m));
    if Edit(ByKey(m), k.op).2 {
      var text := Render(ByKey(next));
      assert ReadAndEdit(s, t) == Some(Move(s, t, Edited(text, reply)));
      EditedKeeps(s, t, text, reply);
    } else {
      assert ReadAndEdit(s, t) == Some(CommitTo(s, t, reply, Releasing(Answered(reply))));
      CommitStep(s, t, reply, Releasing(Answered(reply)), s.vault);
    }
  }

  lemma EditedKeeps(s: State, t: TaskId, text: Text, reply: Reply)
    requires Inv(s) && t in s.tasks && s.tasks[t].phase.Locked? && Prepared(s, s.tasks[t], text, reply)
    ensures Inv(Move(s, t, Edited(text, reply)))
  {
    hide Image, AllStorable, Answer, After, Replay, LogTrue;
    assert TaskTrue(s, t);
    var s' := Move(s, t, Edited(text, reply));
    QuietStep(s, s', t, s'.tasks[t]);
  }

  lemma RenameShape(s: State, t: TaskId)
    requires Next(s, Rename(t, true)).Some?
    ensures t in s.tasks && s.tasks[t].phase.Writing?
    ensures var (temp, reply) := (s.tasks[t].phase.temp, s.tasks[t].phase.reply);
            Next(s, Rename(t, true)).value == CommitTo(s, t, reply, Renamed(reply)).(vault := temp.text)
  {
    var temp := s.tasks[t].phase.temp;
    assert temp.text[..|temp.text|] == temp.text;
  }

  lemma RenameStep(s: State, t: TaskId)
    requires Inv(s) && Next(s, Rename(t, true)).Some?
    ensures Inv(Next(s, Rename(t, true)).value)
  {
    hide Image, AllStorable, Answer, After, Replay, Next, LogTrue, VaultTrue;
    RenameShape(s, t);
    assert TaskTrue(s, t);
    CommitStep(s, t, s.tasks[t].phase.reply, Renamed(s.tasks[t].phase.reply), s.tasks[t].phase.temp.text);
  }

  /** Steps that neither read the file successfully nor rename: they commit nothing. */
  predicate Quiet(s: State, t: TaskId, e: Event) {
    t in s.tasks && TaskStep(s, t, e).Some? && !(e.ReadFile? && e.ok) && !(e.Rename? && e.ok)
  }

  lemma QuietShape(s: State, t: TaskId, e: Event)
    requires Quiet(s, t, e)
    ensures var s' := TaskStep(s, t, e).value;
            && t in s'.tasks && s'.tasks[t].committedAt == s.tasks[t].committedAt
            && s' == s.(tasks := s.tasks[t := s'.tasks[t]], lock := s'.lock, guards := s'.guards)
  {
    hide ReadAndEdit;
  }

  lemma QuietLocks(s: State, t: TaskId, e: Event)
    requires Quiet(s, t, e) && LocksNameTasks(s) && TaskTrue(s, t)
    ensures var s' := TaskStep(s, t, e).value; SameForOthers(s, s', t) && LocksNameTasks(s')
  {
    if GuardStep(e) {
      GuardStepLocks(s, t, e);
    } else {
      ClosureStepLocks(s, t, e);
    }
    hide TaskStep, TaskTrue, LocksNameTasks, SameForOthers;
  }

  lemma GuardStepLocks(s: State, t: TaskId, e: Event)
    requires Quiet(s, t, e) && LocksNameTasks(s) && TaskTrue(s, t) && GuardStep(e)
    ensures var s' := TaskStep(s, t, e).value; SameForOthers(s, s', t) && LocksNameTasks(s')
  {
    hide ReadAndEdit, Committed, PhaseTrue;
  }

  lemma ClosureStepLocks(s: State, t: TaskId, e: Event)
    requires Quiet(s, t, e) && LocksNameTasks(s) && TaskTrue(s, t) && !GuardStep(e)
    ensures var s' := TaskStep(s, t, e).value; SameForOthers(s, s', t) && LocksNameTasks(s')
  {
    hide ReadAndEdit, CancelTask, Committed, PhaseTrue;
  }

  /** Steps that take, drop or pass on the in-process mutex. */
  predicate GuardStep(e: Event) {
    e.GrantGuard? || e.Resume? || e.Cancel?
  }

  lemma QuietTask(s: State, t: TaskId, e: Event)
    requires Quiet(s, t, e) && LocksNameTasks(s) && TaskTrue(s, t)
    ensures t in TaskStep(s, t, e).value.tasks && TaskTrue(TaskStep(s, t, e).value, t)
  {
    if GuardStep(e) {
      GuardStepTask(s, t, e);
    } else {
      ClosureStepTask(s, t, e);
    }
    hide TaskTrue, TaskStep;
  }

  lemma GuardStepTask(s: State, t: TaskId, e: Event)
    requires Quiet(s, t, e) && LocksNameTasks(s) && TaskTrue(s, t) && GuardStep(e)
    ensures t in TaskStep(s, t, e).value.tasks && TaskTrue(TaskStep(s, t, e).value, t)
  {
    hide ReadAndEdit, Image, AllStorable, Answer, After, Replay;
  }

  lemma ClosureStepTask(s: State, t: TaskId, e: Event)
    requires Quiet(s, t, e) && TaskTrue(s, t) && !GuardStep(e)
    ensures t in TaskStep(s, t, e).value.tasks && TaskTrue(TaskStep(s, t, e).value, t)
  {
    hide ReadAndEdit, CancelTask, Image, AllStorable, Answer, After, Replay;
  }

  lemma TaskStepKeeps(s: State, t: TaskId, e: Event)
    requires Inv(s) && Quiet(s, t, e)
    ensures Inv(TaskStep(s, t, e).value)
  {
    hide TaskTrue, LogTrue, AllStorable, Image, TaskStep;
    assert TaskTrue(s, t);
    var s' := TaskStep(s, t, e).value;
    QuietShape(s, t, e);
    QuietLocks(s, t, e);
    QuietTask(s, t, e);
    QuietStep(s, s', t, s'.tasks[t]);
  }

  lemma CrashKeeps(s: State, pid: Pid)
    requires Inv(s)
    ensures Inv(KillProcess(s, pid))
  {
    hide Image, AllStorable, Replay, TaskTrue;
    var s' := KillProcess(s, pid);
    forall u | u in s'.tasks ensures TaskTrue(s', u) {
      if s.tasks[u].pid == pid {
        KilledKeeps(s, pid, u);
      } else {
        Bystander(s, s', u);
      }
    }
    SameCommits(s, s');
  }

  /** The log stays true while every call keeps its place in it. */
  lemma SameCommits(s: State, s': State)
    requires LogTrue(s) && s'.log == s.log && s'.initial == s.initial && s.tasks.Keys <= s'.tasks.Keys
    requires forall u :: u in s.tasks ==> s'.tasks[u].committedAt == s.tasks[u].committedAt
    ensures LogTrue(s')
  {
    hide Replay, Answer;
  }

  lemma KilledKeeps(s: State, pid: Pid, u: TaskId)
    requires u in s.tasks && s.tasks[u].pid == pid && TaskTrue(s, u)
    ensures TaskTrue(KillProcess(s, pid), u)
  {
    hide Image, AllStorable, Answer, After, Replay;
  }

  lemma InvokeKeeps(s: State, e: Event)
    requires Inv(s) && e.Invoke? && Next(s, e).Some?
    ensures Inv(Next(s, e).value)
  {
    hide VaultTrue, LogTrue, TaskTrue;
    var s' := Next(s, e).value;
    forall u | u in s'.tasks ensures TaskTrue(s', u) {
      if u == e.task {
        InvokedTask(s, e);
      } else {
        Bystander(s, s', u);
      }
    }
    InvokedRest(s, e);
  }

  lemma InvokedRest(s: State, e: Event)
    requires Inv(s) && e.Invoke? && Next(s, e).Some?
    ensures var s' := Next(s, e).value; VaultTrue(s') && LocksNameTasks(s') && LogTrue(s')
  {
    hide Image, AllStorable, Replay, TasksTrue, LogTrue, TaskStep, KillProcess;
    SameCommits(s, Next(s, e).value);
  }

  lemma InvokedTask(s: State, e: Event)
    requires e.Invoke? && Next(s, e).Some? && LocksNameTasks(s)
    ensures TaskTrue(Next(s, e).value, e.task)
  {
  }

  lemma TickKeeps(s: State, nanos: nat)
    requires Inv(s)
    ensures Inv(s.(clock := s.clock + nanos))
  {
    hide Image, AllStorable, Answer, After, Replay;
    var s' := s.(clock := s.clock + nanos);
    forall u | u in s'.tasks ensures TaskTrue(s', u) {
      Bystander(s, s', u);
    }
  }

  /** Nothing ever rewrites the log. */
  lemma LogGrows(s: State, e: Event)
    requires Next(s, e).Some?
    ensures s.log <= Next(s, e).value.log && Next(s, e).value.initial == s.initial
  {
    hide ReadState, Edit, StateStorable, Render;
  }

  lemma NextKeeps(s: State, e: Event)
    requires Inv(s) && Next(s, e).Some?
    ensures Inv(Next(s, e).value)
  {
    hide Inv, ReadAndEdit, KillProcess;
    if e.Tick? {
      TickKeeps(s, e.nanos);
    } else if e.Crash? {
      CrashKeeps(s, e.pid);
    } else if e.Invoke? {
      InvokeKeeps(s, e);
    } else if e.ReadFile? && e.ok {
      ReadFileStep(s, e.task);
    } else if e.Rename? && e.ok {
      RenameStep(s, e.task);
    } else {
      TaskStepKeeps(s, e.task, e);
    }
  }

  // ── Whole runs ────────────────────────────────────────────────────────────

  lemma StartKeeps(m: Records, clock: Instant)
    requires AllStorable(m)
    ensures Inv(Start(m, clock))
  {
    hide Image, AllStorable;
    assert Ops([]) == [];
  }

  lemma {:induction false} RunKeeps(m: Records, clock: Instant, events: seq<Event>)
    requires AllStorable(m) && Run(Start(m, clock), events).Some?
    ensures Inv(Run(Start(m, clock), events).value)
    ensures Run(Start(m, clock), events).value.initial == m
  {
    hide Inv, Next;
    if events == [] {
      StartKeeps(m, clock);
    } else {
      var prefix, e := events[..|events| - 1], events[|events| - 1];
      RunKeeps(m, clock, prefix);
      NextKeeps(Run(Start(m, clock), prefix).value, e);
      LogGrows(Run(Start(m, clock), prefix).value, e);
    }
  }

  /** Whatever happened, reading the vault file now gives the committed operations applied in the order
      of the log: never a torn file, never a lost update. */
  lemma FileHoldsCommittedOperations(m: Records, clock: Instant, events: seq<Event>)
    requires AllStorable(m) && Run(Start(m, clock), events).Some?
    ensures var s := Run(Start(m, clock), events).value;
            && ReadState(s.vault) == Ok(ByKey(AfterAll(m, Ops(s.log))))
            && AllStorable(AfterAll(m, Ops(s.log))) && s.vault == Image(AfterAll(m, Ops(s.log)))
  {
    RunKeeps(m, clock, events);
    hide ReadState, ByKey, Image, AllStorable;
    var s := Run(Start(m, clock), events).value;
    ReadImage(Current(s));
  }

  // ── What was asked for ────────────────────────────────────────────────────

  /** Call `k` still carries the operation it was made with at `made`.  A sweep is asked for without a clock
      reading; it gets one once it has the mutex. */
  predicate Carries(asked: Op, made: Instant, k: Task, now: Instant) {
    if !asked.DeleteExpired? then k.op == asked
    else
      k.op.DeleteExpired?
      && (made <= k.op.now <= now
          || (k.committedAt.None? && (k.phase.WaitingGuard? || k.phase.Dropped? || k.phase.Died?)))
  }

  lemma ReadAndEditCarries(s: State, t: TaskId)
    requires t in s.tasks && s.tasks[t].phase.Locked? && ReadAndEdit(s, t).Some?
    ensures var s' := ReadAndEdit(s, t).value;
            t in s'.tasks && s'.tasks[t].op == s.tasks[t].op && s'.clock == s.clock
  {
    hide ReadState, Edit, StateStorable, Render;
  }

  lemma StepCarries(s: State, t: TaskId, e: Event, asked: Op, made: Instant)
    requires t in s.tasks && TaskStep(s, t, e).Some? && made <= s.clock && Carries(asked, made, s.tasks[t], s.clock)
    ensures var s' := TaskStep(s, t, e).value;
            t in s'.tasks && s'.clock == s.clock && Carries(asked, made, s'.tasks[t], s'.clock)
  {
    if e.ReadFile? && e.ok {
      ReadAndEditCarries(s, t);
    }
    hide ReadAndEdit;
  }

  lemma OtherEventCarries(s: State, e: Event, t: TaskId, asked: Op, made: Instant)
    requires t in s.tasks && Next(s, e).Some? && (e.Tick? || e.Crash? || e.Invoke?)
    requires made <= s.clock && Carries(asked, made, s.tasks[t], s.clock)
    ensures var s' := Next(s, e).value;
            && t in s'.tasks && made <= s'.clock && Carries(asked, made, s'.tasks[t], s'.clock)
            && s'.tasks[t].pid == s.tasks[t].pid && s'.tasks[t].invokedAt == s.tasks[t].invokedAt
  {
    hide TaskStep;
  }

  lemma NextCarries(s: State, e: Event, t: TaskId, asked: Op, made: Instant)
    requires t in s.tasks && Next(s, e).Some? && made <= s.clock && Carries(asked, made, s.tasks[t], s.clock)
    ensures var s' := Next(s, e).value;
            && t in s'.tasks && made <= s'.clock && Carries(asked, made, s'.tasks[t], s'.clock)
            && s'.tasks[t].pid == s.tasks[t].pid && s'.tasks[t].invokedAt == s.tasks[t].invokedAt
  {
    if e.Tick? || e.Crash? || e.Invoke? {
      OtherEventCarries(s, e, t, asked, made);
      hide Next, Carries;
    } else {
      TaskStepShape(s, e.task, e);
      if e.task == t {
        StepCarries(s, t, e, asked, made);
      } else {
        StepKeepsClock(s, e.task, e);
      }
      hide TaskStep, Carries;
    }
  }

  lemma StepKeepsClock(s: State, t: TaskId, e: Event)
    requires t in s.tasks && TaskStep(s, t, e).Some?
    ensures TaskStep(s, t, e).value.clock == s.clock
  {
    hide ReadState, Edit, StateStorable, Render;
  }

  /** Event `i` of the run made call `t`, for `asked`, at the instant `made` and with `at` operations committed. */
  predicate MadeBy(s0: State, events: seq<Event>, t: TaskId, k: Task, i: nat, asked: Op, made: Instant) {
    && i < |events| && events[i] == Invoke(t, k.pid, asked)
    && Run(s0, events[..i]).Some?
    && var s := Run(s0, events[..i]).value;
       t !in s.tasks && s.clock == made && |s.log| == k.invokedAt
  }

  /** Every call of a run was made by one of its events, and carries what that event asked for. */
  lemma {:induction false} CallsAreMade(s0: State, events: seq<Event>, t: TaskId) returns (i: nat)
    requires s0.tasks == map[] && Run(s0, events).Some? && t in Run(s0, events).value.tasks
    ensures i < |events| && events[i].Invoke? && Run(s0, events[..i]).Some?
    ensures var (s, made) := (Run(s0, events).value, Run(s0, events[..i]).value.clock);
            && MadeBy(s0, events, t, s.tasks[t], i, events[i].op, made)
            && made <= s.clock && Carries(events[i].op, made, s.tasks[t], s.clock)
  {
    hide Next, Carries;
    var (init, e) := (events[..|events| - 1], events[|events| - 1]);
    var s := Run(s0, init).value;
    if t in s.tasks {
      i := CallsAreMade(s0, init, t);
      assert init[..i] == events[..i] && init[i] == events[i];
      NextCarries(s, e, t, events[i].op, Run(s0, events[..i]).value.clock);
    } else {
      i := |init|;
      NewCallIsInvoked(s, e, t);
      assert events[..i] == init;
    }
  }

  lemma NewCallIsInvoked(s: State, e: Event, t: TaskId)
    requires Next(s, e).Some? && t !in s.tasks && t in Next(s, e).value.tasks
    ensures e.Invoke? && e.task == t
    ensures var s' := Next(s, e).value;
            && s'.tasks[t].pid == e.pid && s'.tasks[t].invokedAt == |s.log| && s'.clock == s.clock
            && Carries(e.op, s.clock, s'.tasks[t], s'.clock)
  {
    if !e.Tick? && !e.Crash? && !e.Invoke? {
      TaskStepShape(s, e.task, e);
    }
    hide TaskStep;
  }

  /** What was committed for a call that asked for `asked`: that operation, a sweep with a clock reading taken
      after the call was made. */
  predicate Fulfils(done: Op, asked: Op, made: Instant, now: Instant) {
    if asked.DeleteExpired? then done.DeleteExpired? && made <= done.now <= now else done == asked
  }

  /** Entry `i` of the log is what call `k` of task `t` was made for, it came after the call was made, and
      `reply` is the answer the abstract store gives at that point. */
  predicate Linearized(s: State, t: TaskId, k: Task, asked: Op, made: Instant, i: nat, reply: Reply) {
    && k.invokedAt <= i < |s.log| && s.log[i].task == t && s.log[i].reply == reply
    && Fulfils(s.log[i].op, asked, made, s.clock)
    && reply == Answer(AfterAll(s.initial, Ops(s.log[..i])), s.log[i].op)
  }

  /** A call that answered its caller did what it was asked exactly once, at one point between its call and its
      return, and answered what the abstract store answers there.  A call that failed before the
      rename took no effect; one that failed after it took effect once, before returning. */
  predicate Explained(s: State, t: TaskId, asked: Op, made: Instant)
    requires t in s.tasks
  {
    var k := s.tasks[t];
    && (k.committedAt.Some? ==>
          && k.committedAt.value < |s.log|
          && Linearized(s, t, k, asked, made, k.committedAt.value, s.log[k.committedAt.value].reply))
    && (forall j :: 0 <= j < |s.log| && s.log[j].task == t ==> k.committedAt == Some(j))
    && (k.phase.Finished? ==>
          && (k.committedAt.Some? ==> k.committedAt.value < k.phase.at <= |s.log|)
          && match k.phase.response
             case Answered(reply) =>
               k.committedAt.Some? && Linearized(s, t, k, asked, made, k.committedAt.value, reply)
             case Errored(late) => k.committedAt.Some? == late)
  }

  lemma InvExplains(s: State, t: TaskId, asked: Op, made: Instant)
    requires Inv(s) && t in s.tasks && Carries(asked, made, s.tasks[t], s.clock)
    ensures Explained(s, t, asked, made)
  {
    hide Answer, AfterAll, VaultTrue, Ops;
    assert TaskTrue(s, t);
    var k := s.tasks[t];
    if k.committedAt.Some? {
      var i := k.committedAt.value;
      assert Linearized(s, t, k, asked, made, i, s.log[i].reply);
    }
  }

  /** Every call in every run is explained that way, by the event that made it. */
  lemma AnswersAreAbstract(m: Records, clock: Instant, events: seq<Event>, t: TaskId) returns (i: nat)
    requires AllStorable(m) && Run(Start(m, clock), events).Some? && t in Run(Start(m, clock), events).value.tasks
    ensures i < |events| && events[i].Invoke? && Run(Start(m, clock), events[..i]).Some?
    ensures var (s, made) := (Run(Start(m, clock), events).value, Run(Start(m, clock), events[..i]).value.clock);
            && s.initial == m
            && MadeBy(Start(m, clock), events, t, s.tasks[t], i, events[i].op, made)
            && Explained(s, t, events[i].op, made)
  {
    RunKeeps(m, clock, events);
    i := CallsAreMade(Start(m, clock), events, t);
    hide Inv, Explained, Run, AllStorable, Carries, MadeBy;
    InvExplains(Run(Start(m, clock), events).value, t, events[i].op, Run(Start(m, clock), events[..i]).value.clock);
  }

  /** Every committed operation is what some caller asked for: entry `j` of the log fulfils the event that made
      its call, and no other entry belongs to that call. */
  lemma CommitsWereAskedFor(m: Records, clock: Instant, events: seq<Event>, j: nat) returns (i: nat)
    requires AllStorable(m) && Run(Start(m, clock), events).Some? && j < |Run(Start(m, clock), events).value.log|
    ensures i < |events| && events[i].Invoke? && Run(Start(m, clock), events[..i]).Some?
    ensures var (s, made) := (Run(Start(m, clock), events).value, Run(Start(m, clock), events[..i]).value.clock);
            && events[i].task == s.log[j].task && Fulfils(s.log[j].op, events[i].op, made, s.clock)
            && forall other :: 0 <= other < |s.log| && s.log[other].task == events[i].task ==> other == j
  {
    RunKeeps(m, clock, events);
    hide Run, VaultTrue, Answer, AfterAll;
    var s := Run(Start(m, clock), events).value;
    assert LogTrue(s);
    i := AnswersAreAbstract(m, clock, events, s.log[j].task);
  }

  /** The clock reading of a sweep was taken before it committed: if it had committed by event `j`, the reading
      lies between the call and that event. */
  lemma SweepsReadTheClockInTime(m: Records, clock: Instant, events: seq<Event>, j: nat, t: TaskId) returns (i: nat)
    requires AllStorable(m) && Run(Start(m, clock), events).Some? && j <= |events|
    requires Run(Start(m, clock), events[..j]).Some? ==>
               var s := Run(Start(m, clock), events[..j]).value; t in s.tasks && s.tasks[t].committedAt.Some?
    ensures Run(Start(m, clock), events[..j]).Some? && i < j && events[i].Invoke? && events[i].task == t
    ensures Run(Start(m, clock), events[..i]).Some?
    ensures var (early, s) := (Run(Start(m, clock), events[..j]).value, Run(Start(m, clock), events).value);
            var at := early.tasks[t].committedAt.value;
            && at < |s.log| && s.log[at].task == t
            && Fulfils(s.log[at].op, events[i].op, Run(Start(m, clock), events[..i]).value.clock, early.clock)
  {
    hide Run, Start, Fulfils, Answer, AfterAll, AllStorable;
    Cut(events, j);
    RunConcat(Start(m, clock), events[..j], events[j..]);
    i := AnswersAreAbstract(m, clock, events[..j], t);
    CutTwice(events, j, i);
    RunIsLater(Run(Start(m, clock), events[..j]).value, events[j..]);
  }

  lemma Cut(events: seq<Event>, j: nat)
    requires j <= |events|
    ensures events[..j] + events[j..] == events
  {
  }

  lemma CutTwice(events: seq<Event>, j: nat, i: nat)
    requires i < j <= |events|
    ensures events[..j][..i] == events[..i] && events[..j][i] == events[i]
  {
  }

  /** No task takes effect twice, answered or not. */
  lemma EffectsAreUnique(m: Records, clock: Instant, events: seq<Event>, i: nat, j: nat)
    requires AllStorable(m) && Run(Start(m, clock), events).Some?
    requires var log := Run(Start(m, clock), events).value.log; i < |log| && j < |log| && log[i].task == log[j].task
    ensures i == j
  {
    RunKeeps(m, clock, events);
    hide Answer, AfterAll, Run, VaultTrue;
    var s := Run(Start(m, clock), events).value;
    assert LogTrue(s);
  }

  // ── Real-time order ───────────────────────────────────────────────────────

  /** What stays put once it has happened. */
  predicate Later(s: State, s': State) {
    && s.log <= s'.log
    && (forall t :: t in s.tasks ==> t in s'.tasks && s'.tasks[t].invokedAt == s.tasks[t].invokedAt)
    && (forall t :: t in s.tasks && s.tasks[t].phase.Finished? ==> s'.tasks[t] == s.tasks[t])
    && (forall t :: t in s'.tasks && t !in s.tasks ==> |s.log| <= s'.tasks[t].invokedAt)
  }

  lemma ReadAndEditShape(s: State, t: TaskId)
    requires t in s.tasks && ReadAndEdit(s, t).Some?
    ensures var s' := ReadAndEdit(s, t).value;
            && t in s'.tasks && s'.tasks == s.tasks[t := s'.tasks[t]]
            && s'.tasks[t].invokedAt == s.tasks[t].invokedAt
  {
  }

  /** Only the stepping call changes, it was not finished, and it remembers when it was made. */
  lemma TaskStepShape(s: State, t: TaskId, e: Event)
    requires t in s.tasks && TaskStep(s, t, e).Some?
    ensures var s' := TaskStep(s, t, e).value;
            && t in s'.tasks && s'.tasks == s.tasks[t := s'.tasks[t]]
            && !s.tasks[t].phase.Finished? && s'.tasks[t].invokedAt == s.tasks[t].invokedAt
  {
    if e.ReadFile? && e.ok {
      ReadAndEditShape(s, t);
    }
    hide ReadAndEdit;
  }

  lemma NextIsLater(s: State, e: Event)
    requires Next(s, e).Some?
    ensures Later(s, Next(s, e).value)
  {
    LogGrows(s, e);
    if !e.Tick? && !e.Crash? && !e.Invoke? {
      TaskStepShape(s, e.task, e);
    }
    hide TaskStep;
  }

  lemma {:induction false} RunIsLater(s: State, events: seq<Event>)
    requires Run(s, events).Some?
    ensures Later(s, Run(s, events).value)
  {
    hide Next;
    if events != [] {
      var prefix, e := events[..|events| - 1], events[|events| - 1];
      RunIsLater(s, prefix);
      NextIsLater(Run(s, prefix).value, e);
    }
  }

  lemma {:induction false} RunConcat(s: State, before: seq<Event>, after: seq<Event>)
    requires Run(s, before + after).Some?
    ensures Run(s, before).Some? && Run(Run(s, before).value, after) == Run(s, before + after)
  {
    hide Next;
    if after == [] {
      assert before + after == before;
    } else {
      var all := before + after;
      assert all[..|all| - 1] == before + after[..|after| - 1];
      RunConcat(s, before, after[..|after| - 1]);
    }
  }

  /** The order of effects respects real time: a call that had returned before another was made took
      effect first. */
  lemma RealTimeOrder(m: Records, clock: Instant, before: seq<Event>, after: seq<Event>, t: TaskId, u: TaskId)
    requires AllStorable(m) && Run(Start(m, clock), before + after).Some?
    requires Run(Start(m, clock), before).Some? ==>
               var s := Run(Start(m, clock), before).value;
               t in s.tasks && s.tasks[t].phase.Finished? && u !in s.tasks
    requires var s' := Run(Start(m, clock), before + after).value;
             t in s'.tasks && s'.tasks[t].committedAt.Some? && u in s'.tasks && s'.tasks[u].committedAt.Some?
    ensures var s' := Run(Start(m, clock), before + after).value;
            s'.tasks[t].committedAt.value < s'.tasks[u].committedAt.value
  {
    RunConcat(Start(m, clock), before, after);
    RunKeeps(m, clock, before);
    RunKeeps(m, clock, before + after);
    var s := Run(Start(m, clock), before).value;
    var s' := Run(Start(m, clock), before + after).value;
    RunIsLater(s, after);
    hide Run, VaultTrue, LogTrue;
    assert TaskTrue(s, t) && TaskTrue(s', u);
  }

  // ── Locking ───────────────────────────────────────────────────────────────

  /** At most one closure is between acquiring and releasing the file lock, in every reachable state,
      cancelled callers and dead processes included. */
  lemma OneClosureInside(m: Records, clock: Instant, events: seq<Event>, t: TaskId, u: TaskId)
    requires AllStorable(m) && Run(Start(m, clock), events).Some?
    requires var s := Run(Start(m, clock), events).value;
             t in s.tasks && u in s.tasks && HoldsLock(s.tasks[t].phase) && HoldsLock(s.tasks[u].phase)
    ensures t == u
  {
    RunKeeps(m, clock, events);
    hide VaultTrue, LogTrue, Run;
    var s := Run(Start(m, clock), events).value;
    assert TaskTrue(s, t) && TaskTrue(s, u);
  }

  /** A call somebody still waits for, or a closure still to end. */
  predicate Pending(k: Task) {
    k.phase.WaitingGuard? || (InFlight(k.phase) && (k.phase.Returned? ==> k.awaiting))
  }

  /** Steps the store takes on its own account, none of them a failure. */
  predicate Helpful(e: Event) {
    match e
    case Tick(_) => false
    case Invoke(_, _, _) => false
    case Cancel(_) => false
    case Crash(_) => false
    case OpenLockFile(_, ok) => ok
    case AcquireLock(_, ok) => ok
    case ReadFile(_, ok) => ok
    case CreateTemp(_, ok) => ok
    case WritePiece(_, ok) => ok
    case Rename(_, ok) => ok
    case SetPermissions(_, ok) => ok
    case _ => true
  }

  /** The next successful step of a task. */
  function NextStep(t: TaskId, p: Phase): Event {
    match p
    case Spawned => OpenLockFile(t, true)
    case WaitingLock => AcquireLock(t, true)
    case Locked => ReadFile(t, true)
    case Edited(_, _) => CreateTemp(t, true)
    case Writing(temp, _) =>
      if temp.written < |temp.text| then WritePiece(t, true) else Rename(t, true)
    case Renamed(_) => SetPermissions(t, true)
    case Releasing(_) => Release(t)
    case Returned(_) => Resume(t)
    case _ => GrantGuard(t)
  }

  /** Whenever a call is pending, some successful step is possible: no deadlock, whatever was
      cancelled, failed or died before. */
  lemma SomeStepIsPossible(s: State, t: TaskId) returns (e: Event)
    requires Inv(s) && t in s.tasks && Pending(s.tasks[t])
    ensures Helpful(e) && Next(s, e).Some?
  {
    var mover := t;
    if s.lock.Some? {
      mover := s.lock.value;
    } else if s.tasks[t].phase.WaitingGuard? && s.tasks[t].pid in s.guards {
      mover := s.guards[s.tasks[t].pid];
    }
    e := NextStep(mover, s.tasks[mover].phase);
    assert TaskTrue(s, mover) && TaskTrue(s, t);
    if CanMove(s, mover) {
      MoverCanStep(s, mover);
    }
    hide VaultTrue, LogTrue, TasksTrue, Next, PhaseTrue, Committed;
  }

  /** Who holds the file lock can step; when nobody does, any pending call can, unless it waits for a
      taken guard. */
  predicate CanMove(s: State, t: TaskId)
    requires t in s.tasks
  {
    var k := s.tasks[t];
    || HoldsLock(k.phase)
    || (s.lock.None? && Pending(k) && (k.phase.WaitingGuard? ==> k.pid !in s.guards))
  }

  lemma MoverCanStep(s: State, t: TaskId)
    requires Inv(s) && t in s.tasks && CanMove(s, t)
    ensures Helpful(NextStep(t, s.tasks[t].phase)) && Next(s, NextStep(t, s.tasks[t].phase)).Some?
  {
    hide Committed, PhaseTrue, VaultTrue, LogTrue;
    assert TaskTrue(s, t);
    if s.tasks[t].phase.Locked? {
      LockedStep(s, t);
    } else {
      UnlockedStep(s, t);
    }
    hide Inv, TaskTrue, NextStep, CanMove, Next;
  }

  lemma LockedStep(s: State, t: TaskId)
    requires Inv(s) && t in s.tasks && s.tasks[t].phase.Locked?
    ensures Helpful(NextStep(t, s.tasks[t].phase)) && Next(s, NextStep(t, s.tasks[t].phase)).Some?
  {
    hide Inv, ReadAndEdit;
    ReadFileStep(s, t);
  }

  lemma UnlockedStep(s: State, t: TaskId)
    requires t in s.tasks && TaskTrue(s, t) && CanMove(s, t) && !s.tasks[t].phase.Locked?
    ensures Helpful(NextStep(t, s.tasks[t].phase)) && Next(s, NextStep(t, s.tasks[t].phase)).Some?
  {
    hide ReadAndEdit, Prepared, Committed, ResponseTrue;
  }

  /** How far along a call is. */
  function Stage(p: Phase): nat {
    match p
    case WaitingGuard => 0
    case Spawned => 1
    case WaitingLock => 2
    case Locked => 3
    case Edited(_, _) => 4
    case Writing(_, _) => 5
    case Renamed(_) => 6
    case Releasing(_) => 7
    case Returned(_) => 8
    case _ => 9
  }

  /** Every step of a call other than a cancellation moves it strictly forward and no other call
      backwards, so a call takes at most nine steps and one more for each piece of the file. */
  lemma StepsAdvance(s: State, t: TaskId, e: Event)
    requires t in s.tasks && TaskStep(s, t, e).Some? && !e.Cancel?
    ensures var s' := TaskStep(s, t, e).value;
            && s'.tasks.Keys == s.tasks.Keys
            && (forall u :: u in s.tasks && u != t ==> s'.tasks[u] == s.tasks[u])
            && var (p, p') := (s.tasks[t].phase, s'.tasks[t].phase);
               || Stage(p) < Stage(p')
               || (p.Writing? && p'.Writing? && p'.temp.text == p.temp.text
                   && p.temp.written < p'.temp.written <= |p.temp.text|)
  {
    TaskStepShape(s, t, e);
    if e.ReadFile? && e.ok {
      ReadAndEditAdvances(s, t);
    }
    hide ReadAndEdit;
  }

  lemma ReadAndEditAdvances(s: State, t: TaskId)
    requires t in s.tasks && ReadAndEdit(s, t).Some?
    ensures t in ReadAndEdit(s, t).value.tasks && Stage(ReadAndEdit(s, t).value.tasks[t].phase) > 3
  {
    hide ReadState, Edit, StateStorable, Render;
  }

  // ── Crash atomicity ───────────────────────────────────────────────────────

  /** One event changes the vault file only by renaming a completely written file over it, and then
      from the image of the records to the image of the records with one operation applied. */
  lemma VaultChangesAtRenameOnly(s: State, e: Event)
    requires Inv(s) && Next(s, e).Some?
    ensures var s' := Next(s, e).value;
            s'.vault != s.vault ==>
              && e.Rename? && e.ok && e.task in s.tasks
              && Current(s') == After(Current(s), s.tasks[e.task].op)
              && AllStorable(Current(s')) && s'.vault == Image(Current(s'))
  {
    NextKeeps(s, e);
    OtherStepsKeepVault(s, e);
    hide ReadAndEdit, Image, AllStorable, After, Replay, LogTrue, TasksTrue;
    if e.Rename? && e.ok {
      Appended(s.initial, s.log, Commit(e.task, s.tasks[e.task].op, s.tasks[e.task].phase.reply));
    }
  }

  /** A temporary file reads as nothing until it is complete: replacing the file by a rename is what keeps
      readers from ever seeing a torn one. */
  lemma HalfWrittenFilesDoNotRead(s: State, t: TaskId)
    requires Inv(s) && t in s.tasks && s.tasks[t].phase.Writing?
    ensures var temp := s.tasks[t].phase.temp;
            && temp.written <= |temp.text|
            && ReadState(temp.text[..temp.written]) ==
               if temp.written < |temp.text| then Err(Json) else Ok(ByKey(After(Current(s), s.tasks[t].op)))
  {
    hide Image, AllStorable, After, Replay, ReadState, ByKey;
    assert TaskTrue(s, t);
    var temp := s.tasks[t].phase.temp;
    ReadImage(After(Current(s), s.tasks[t].op));
    if temp.written < |temp.text| {
      PrefixesDoNotRead(temp.text, temp.written);
    } else {
      assert temp.text[..temp.written] == temp.text;
    }
  }

  lemma OtherStepsKeepVault(s: State, e: Event)
    requires Next(s, e).Some?
    ensures (e.Rename? && e.ok) || Next(s, e).value.vault == s.vault
  {
    hide ReadState, Edit, StateStorable, Render;
  }

  lemma RunOn(s: State, events: seq<Event>, e: Event, mid: State, end: State)
    requires Run(s, events) == Some(mid) && Next(mid, e) == Some(end)
    ensures Run(s, events + [e]) == Some(end)
  {
    hide Next;
    assert (events + [e])[..|events|] == events;
  }

  /** A single reader gets hold of the file lock. */
  lemma FirstTakesTheLock(s: State, k: Task) returns (events: seq<Event>)
    requires s.tasks == map[] && s.guards == map[] && s.lock == None && s.log == []
    requires k.op.Fetch? && k == Task(k.pid, k.op, Locked, true, 0, None)
    ensures Run(s, events) == Some(s.(tasks := map[0 := k], guards := map[k.pid := 0], lock := Some(0)))
  {
    var s1 := s.(tasks := s.tasks[0 := k.(phase := WaitingGuard)]);
    var s2 := s1.(tasks := s1.tasks[0 := k.(phase := Spawned)], guards := s.guards[k.pid := 0]);
    var s3 := s2.(tasks := s2.tasks[0 := k.(phase := WaitingLock)]);
    var s4 := s3.(tasks := s3.tasks[0 := k], lock := Some(0));
    assert s4.tasks == map[0 := k] && s4.guards == map[k.pid := 0];
    assert Next(s, Invoke(0, k.pid, k.op)) == Some(s1);
    assert Next(s1, GrantGuard(0)) == Some(s2);
    assert Next(s2, OpenLockFile(0, true)) == Some(s3);
    assert Next(s3, AcquireLock(0, true)) == Some(s4);
    assert Run(s, []) == Some(s);
    hide Next, Run;
    events := [] + [Invoke(0, k.pid, k.op)];
    RunOn(s, [], Invoke(0, k.pid, k.op), s, s1);
    RunOn(s, events, GrantGuard(0), s1, s2);
    RunOn(s, events + [GrantGuard(0)], OpenLockFile(0, true), s2, s3);
    RunOn(s, events + [GrantGuard(0)] + [OpenLockFile(0, true)], AcquireLock(0, true), s3, s4);
    events := events + [GrantGuard(0)] + [OpenLockFile(0, true)] + [AcquireLock(0, true)];
  }

  /** Its caller goes away, and the next call gets the mutex. */
  lemma SecondStarts(s: State, k: Task, again: Op) returns (s1: State, s2: State, s3: State)
    requires s.tasks == map[0 := k] && s.guards == map[k.pid := 0] && k.phase.Locked? && k.awaiting && again.Fetch?
    ensures Next(s, Cancel(0)) == Some(s1) && Next(s1, Invoke(1, k.pid, again)) == Some(s2)
    ensures Next(s2, GrantGuard(1)) == Some(s3)
    ensures s3.tasks.Keys == {0, 1} && s3.tasks[0] == k.(awaiting := false) && s3.tasks[1].pid == k.pid
    ensures s3.tasks[1].phase.Spawned? && s3.guards == map[k.pid := 1]
  {
    s1 := s.(tasks := s.tasks[0 := k.(awaiting := false)], guards := s.guards - {k.pid});
    var l := Task(k.pid, again, WaitingGuard, true, |s.log|, None);
    s2 := s1.(tasks := s1.tasks[1 := l]);
    s3 := s2.(tasks := s2.tasks[1 := l.(phase := Spawned)], guards := s2.guards[k.pid := 1]);
  }

  /** The in-process mutex does not exclude closures of one process: dropping a call's future frees the mutex
      while its closure still holds the file lock, and the next call's closure starts. */
  lemma MutexAloneDoesNotExclude(m: Records, clock: Instant, pid: Pid, id: RecordId) returns (events: seq<Event>)
    requires AllStorable(m)
    ensures Run(Start(m, clock), events).Some?
    ensures var s := Run(Start(m, clock), events).value;
            && 0 in s.tasks && 1 in s.tasks && s.tasks[0].pid == s.tasks[1].pid == pid
            && HoldsLock(s.tasks[0].phase) && InFlight(s.tasks[1].phase) && s.guards == map[pid := 1]
  {
    hide Image, AllStorable, Next, Run;
    var (s0, k) := (Start(m, clock), Task(pid, Op.Fetch(id), Locked, true, 0, None));
    var e := FirstTakesTheLock(s0, k);
    var s4 := Run(s0, e).value;
    var s5, s6, s7 := SecondStarts(s4, k, Op.Fetch(id));
    RunOn(s0, e, Cancel(0), s4, s5);
    RunOn(s0, e + [Cancel(0)], Invoke(1, pid, Op.Fetch(id)), s5, s6);
    RunOn(s0, e + [Cancel(0)] + [Invoke(1, pid, Op.Fetch(id))], GrantGuard(1), s6, s7);
    events := e + [Cancel(0)] + [Invoke(1, pid, Op.Fetch(id))] + [GrantGuard(1)];
  }
}
