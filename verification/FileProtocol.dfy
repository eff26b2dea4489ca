/** The JSON-file store under concurrency: any number of tasks in any number of processes, each
    running the steps of one store call, with I/O errors, dropped futures and dying processes. */
module FileProtocol {
  import opened Core
  import opened Uuid
  import opened Calendar
  import opened Backend
  import opened JsonFile

  type Pid = nat
  type TaskId = nat

  /** How a call ends for its caller.  `late` marks the one error that comes after the rename. */
  datatype Response = Answered(reply: Reply) | Errored(late: bool)

  /** A temporary file holding the first `written` pieces of a text. */
  datatype Temp = Temp(text: Text, written: nat)

  datatype Phase =
    | WaitingGuard                              // awaits the in-process mutex
    | Spawned                                   // the blocking closure is queued
    | WaitingLock                               // the lock file is open, the file lock not yet held
    | Locked                                    // holds the file lock
    | Edited(text: Text, reply: Reply)         // has read the file and edited its copy
    | Writing(temp: Temp, reply: Reply)         // fills the temporary file
    | Renamed(reply: Reply)                     // the temporary file has replaced the vault file
    | Releasing(response: Response)             // closure body done, file lock still held
    | Returned(response: Response)              // closure ended, file lock released
    | Finished(response: Response, at: nat)     // the caller has resumed and dropped the mutex guard
    | Dropped                                   // cancelled before the closure was spawned
    | Died                                      // its process died

  /** One store call.  `awaiting` says the caller's future is alive; `invokedAt` and `Finished.at` are
      lengths of the commit log, `committedAt` the call's own place in it. */
  datatype Task = Task(
    pid: Pid, op: Op, phase: Phase, awaiting: bool, invokedAt: nat, committedAt: Option<nat>)

  /** A committed operation: the call that made it and the answer its caller is to get. */
  datatype Commit = Commit(task: TaskId, op: Op, reply: Reply)

  datatype State = State(
    initial: Records,            // the records the vault file started with
    vault: Text,                 // the vault file
    lock: Option<TaskId>,        // who holds the file lock
    guards: map<Pid, TaskId>,    // who holds each process's mutex
    tasks: map<TaskId, Task>,
    clock: Instant,
    log: seq<Commit>)            // operations in the order they took effect

  datatype Event =
    | Tick(nanos: nat)
    | Invoke(task: TaskId, pid: Pid, op: Op)
    | GrantGuard(task: TaskId)
    | OpenLockFile(task: TaskId, ok: bool)
    | AcquireLock(task: TaskId, ok: bool)
    | ReadFile(task: TaskId, ok: bool)
    | CreateTemp(task: TaskId, ok: bool)
    | WritePiece(task: TaskId, ok: bool)
    | Rename(task: TaskId, ok: bool)
    | SetPermissions(task: TaskId, ok: bool)
    | Release(task: TaskId)
    | Resume(task: TaskId)
    | Cancel(task: TaskId)
    | Crash(pid: Pid)

  // ── Steps ─────────────────────────────────────────────────────────────────

  predicate HoldsLock(p: Phase) {
    p.Locked? || p.Edited? || p.Writing? || p.Renamed? || p.Releasing?
  }

  /** The closure has been handed over and the call has not ended. */
  predicate InFlight(p: Phase) {
    p.Spawned? || p.WaitingLock? || HoldsLock(p) || p.Returned?
  }

  predicate HoldsGuard(k: Task) {
    k.awaiting && InFlight(k.phase)
  }

  /** A sweep samples the clock once it has the in-process mutex. */
  function Stamp(op: Op, now: Instant): Op {
    if op.DeleteExpired? then DeleteExpired(now) else op
  }

  /** What a call does to the parsed file, what it answers, and whether it has to write. */
  function Edit(state: DiskState, op: Op): (DiskState, Reply, bool) {
    match op
    case Insert(id, rec) => (state[Hyphenated(id) := rec], Inserted, true)
    case Fetch(id) =>
      (state, if Hyphenated(id) in state then Found(state[Hyphenated(id)]) else NotFound, false)
    case Delete(id) =>
      (state - {Hyphenated(id)}, Deleted(Hyphenated(id) in state), Hyphenated(id) in state)
    case DeleteExpired(now) =>
      RetainShrinks(state, now);
      var removed := |state| - |Retain(state, now)|;
      (Retain(state, now), Removed(removed), removed > 0)
  }

  function Move(s: State, t: TaskId, phase: Phase): State
    requires t in s.tasks
  {
    s.(tasks := s.tasks[t := s.tasks[t].(phase := phase)])
  }

  /** The operation takes effect: it joins the log. */
  function CommitTo(s: State, t: TaskId, reply: Reply, phase: Phase): State
    requires t in s.tasks
  {
    var k := s.tasks[t];
    s.(log := s.log + [Commit(t, k.op, reply)],
       tasks := s.tasks[t := k.(phase := phase, committedAt := Some(|s.log|))])
  }

  /** Reading the file is the commit point of every call that will not write. */
  function ReadAndEdit(s: State, t: TaskId): Option<State>
    requires t in s.tasks
  {
    match ReadState(s.vault)
    case Err(_) => Some(Move(s, t, Releasing(Errored(false))))
    case Ok(state) =>
      var (next, reply, writes) := Edit(state, s.tasks[t].op);
      if !writes then Some(CommitTo(s, t, reply, Releasing(Answered(reply))))
      else if StateStorable(next) then Some(Move(s, t, Edited(Render(next), reply)))
      else None
  }

  function DropGuard(s: State, pid: Pid): State {
    s.(guards := s.guards - {pid})
  }

  /** Dropping the caller's future.  A queued or running closure keeps going; only the guard goes. */
  function CancelTask(s: State, t: TaskId): Option<State>
    requires t in s.tasks
  {
    var k := s.tasks[t];
    if !k.awaiting then None
    else if k.phase.WaitingGuard? then
      Some(s.(tasks := s.tasks[t := k.(phase := Dropped, awaiting := false)]))
    else if InFlight(k.phase) then
      Some(DropGuard(s.(tasks := s.tasks[t := k.(awaiting := false)]), k.pid))
    else None
  }

  function Killed(k: Task): Task {
    if k.phase.WaitingGuard? || InFlight(k.phase) then k.(phase := Died, awaiting := false) else k
  }

  /** The death of a process: its calls end, the system releases its file lock, its mutex is gone. */
  function KillProcess(s: State, pid: Pid): State {
    s.(tasks := map t | t in s.tasks :: if s.tasks[t].pid == pid then Killed(s.tasks[t]) else s.tasks[t],
       lock := if s.lock.Some? && s.lock.value in s.tasks && s.tasks[s.lock.value].pid == pid
               then None else s.lock,
       guards := s.guards - {pid})
  }

  /** A step of task `t`, or `None` when it cannot be taken. */
  function TaskStep(s: State, t: TaskId, e: Event): Option<State>
    requires t in s.tasks
  {
    var k := s.tasks[t];
    match e
    case GrantGuard(_) =>
      if k.phase.WaitingGuard? && k.pid !in s.guards then
        Some(s.(guards := s.guards[k.pid := t],
                tasks := s.tasks[t := k.(phase := Spawned, op := Stamp(k.op, s.clock))]))
      else None
    case OpenLockFile(_, ok) =>
      if k.phase.Spawned? then Some(Move(s, t, if ok then WaitingLock else Returned(Errored(false)))) else None
    case AcquireLock(_, ok) =>
      if !k.phase.WaitingLock? then None
      else if !ok then Some(Move(s, t, Returned(Errored(false))))
      else if s.lock.None? then Some(Move(s, t, Locked).(lock := Some(t)))
      else None
    case ReadFile(_, ok) =>
      if !k.phase.Locked? then None
      else if !ok then Some(Move(s, t, Releasing(Errored(false))))
      else ReadAndEdit(s, t)
    case CreateTemp(_, ok) =>
      if !k.phase.Edited? then None
      else if !ok then Some(Move(s, t, Releasing(Errored(false))))
      else Some(Move(s, t, Writing(Temp(k.phase.text, 0), k.phase.reply)))
    case WritePiece(_, ok) =>
      if !k.phase.Writing? || k.phase.temp.written >= |k.phase.temp.text| then None
      else if !ok then Some(Move(s, t, Releasing(Errored(false))))
      else Some(Move(s, t, Writing(k.phase.temp.(written := k.phase.temp.written + 1), k.phase.reply)))
    case Rename(_, ok) =>
      if !k.phase.Writing? || k.phase.temp.written != |k.phase.temp.text| then None
      else if !ok then Some(Move(s, t, Releasing(Errored(false))))
      else Some(CommitTo(s, t, k.phase.reply, Renamed(k.phase.reply)).(vault := k.phase.temp.text[..k.phase.temp.written]))
    case SetPermissions(_, ok) =>
      if k.phase.Renamed? then
        Some(Move(s, t, Releasing(if ok then Answered(k.phase.reply) else Errored(true))))
      else None
    case Release(_) =>
      if k.phase.Releasing? then Some(Move(s, t, Returned(k.phase.response)).(lock := None)) else None
    case Resume(_) =>
      if k.phase.Returned? && k.awaiting then
        Some(DropGuard(Move(s, t, Finished(k.phase.response, |s.log|)), k.pid))
      else None
    case Cancel(_) => CancelTask(s, t)
    case _ => None
  }

  /** The state after an event, or `None` when the event cannot happen. */
  function Next(s: State, e: Event): Option<State> {
    match e
    case Tick(nanos) => Some(s.(clock := s.clock + nanos))
    case Crash(pid) => Some(KillProcess(s, pid))
    case Invoke(t, pid, op) =>
      if t in s.tasks || (op.Insert? && !Storable(op.rec)) then None
      else Some(s.(tasks := s.tasks[t := Task(pid, op, WaitingGuard, true, |s.log|, None)]))
    case _ => if e.task in s.tasks then TaskStep(s, e.task, e) else None
  }

  /** The vault file exists and holds `m`; nobody is running. */
  function Start(m: Records, clock: Instant): State
    requires AllStorable(m)
  {
    State(m, Image(m), None, map[], map[], clock, [])
  }

  /** The state after a whole run, or `None` if some event could not happen. */
  function Run(s: State, events: seq<Event>): Option<State> {
    if events == [] then Some(s)
    else
      match Run(s, events[..|events| - 1])
      case None => None
      case Some(before) => Next(before, events[|events| - 1])
  }

  // ── Meaning of the log ────────────────────────────────────────────────────

  function Ops(log: seq<Commit>): (ops: seq<Op>)
    ensures |ops| == |log|
  {
    seq(|log|, i requires 0 <= i < |log| => log[i].op)
  }

  /** `m` with every operation of the log applied in order. */
  function Replay(m: Records, log: seq<Commit>): Records {
    AfterAll(m, Ops(log))
  }

  /** The abstract records now. */
  function Current(s: State): Records {
    Replay(s.initial, s.log)
  }

  /** The abstract records when commit `i` took effect. */
  function Prior(s: State, i: nat): Records
    requires i <= |s.log|
  {
    Replay(s.initial, s.log[..i])
  }

  // ── Invariant ─────────────────────────────────────────────────────────────

  predicate Committed(s: State, t: TaskId, k: Task) {
    k.committedAt.Some? ==>
      var i := k.committedAt.value;
      k.invokedAt <= i < |s.log| && s.log[i].task == t && s.log[i].op == k.op
  }

  /** An answered call committed with that answer; an early error did not commit, a late one did. */
  predicate ResponseTrue(s: State, k: Task, r: Response) {
    match r
    case Answered(reply) =>
      k.committedAt.Some? && k.committedAt.value < |s.log| && s.log[k.committedAt.value].reply == reply
    case Errored(late) => k.committedAt.Some? == late
  }

  /** The prepared text is the image of the abstract records with this call applied. */
  predicate Prepared(s: State, k: Task, text: Text, reply: Reply) {
    var next := After(Current(s), k.op);
    AllStorable(next) && Image(next) == text && reply == Answer(Current(s), k.op)
  }

  predicate PhaseTrue(s: State, t: TaskId, k: Task) {
    match k.phase
    case WaitingGuard => k.committedAt.None? && k.awaiting
    case Spawned => k.committedAt.None?
    case WaitingLock => k.committedAt.None?
    case Locked => k.committedAt.None?
    case Edited(text, reply) => k.committedAt.None? && Prepared(s, k, text, reply)
    case Writing(temp, reply) =>
      k.committedAt.None? && temp.written <= |temp.text| && Prepared(s, k, temp.text, reply)
    case Renamed(reply) => ResponseTrue(s, k, Answered(reply))
    case Releasing(r) => ResponseTrue(s, k, r)
    case Returned(r) => ResponseTrue(s, k, r)
    case Finished(r, at) =>
      ResponseTrue(s, k, r) && at <= |s.log| && (k.committedAt.Some? ==> k.committedAt.value < at)
    case Dropped => k.committedAt.None? && !k.awaiting
    case Died => !k.awaiting
  }

  predicate TaskTrue(s: State, t: TaskId)
    requires t in s.tasks
  {
    var k := s.tasks[t];
    && (HoldsLock(k.phase) <==> s.lock == Some(t))
    && (HoldsGuard(k) <==> k.pid in s.guards && s.guards[k.pid] == t)
    && k.invokedAt <= |s.log|
    && (k.op.Insert? ==> Storable(k.op.rec))
    && Committed(s, t, k)
    && PhaseTrue(s, t, k)
  }

  predicate LogTrue(s: State) {
    forall i :: 0 <= i < |s.log| ==>
      && s.log[i].task in s.tasks && s.tasks[s.log[i].task].committedAt == Some(i)
      && s.log[i].reply == Answer(Prior(s, i), s.log[i].op)
  }

  /** The file is the complete image of the abstract records. */
  predicate VaultTrue(s: State) {
    AllStorable(Current(s)) && s.vault == Image(Current(s))
  }

  predicate LocksNameTasks(s: State) {
    && (s.lock.Some? ==> s.lock.value in s.tasks)
    && (forall p :: p in s.guards ==> s.guards[p] in s.tasks && s.tasks[s.guards[p]].pid == p)
  }

  predicate TasksTrue(s: State) {
    forall t :: t in s.tasks ==> TaskTrue(s, t)
  }

  predicate Inv(s: State) {
    VaultTrue(s) && LocksNameTasks(s) && LogTrue(s) && TasksTrue(s)
  }

  lemma RetainShrinks(state: DiskState, now: Instant)
    ensures |Retain(state, now)| <= |state|
  {
    SubmapSize(Retain(state, now), state);
  }

  lemma SubmapSize<K, V>(a: map<K, V>, b: map<K, V>)
    requires a.Keys <= b.Keys
    ensures |a| <= |b|
  {
    SubsetSize(a.Keys, b.Keys);
    assert |a| == |a.Keys| && |b| == |b.Keys|;
  }

  lemma {:induction false} SubsetSize<K>(a: set<K>, b: set<K>)
    requires a <= b
    ensures |a| <= |b|
  {
    if a != {} {
      var x :| x in a;
      SubsetSize(a - {x}, b - {x});
    }
  }
}
