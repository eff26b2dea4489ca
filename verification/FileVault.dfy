/** The vault over the interleaved file store: callers whose storage calls are runs of the file protocol.  Every
    such run is, step for step, a run of the claim protocol over the abstract map. */
module FileVault {
  import opened Core
  import opened Uuid
  import opened Calendar
  import opened Backend
  import opened Claims
  import Aead
  import JsonFile
  import F = FileProtocol
  import L = FileLinearizability
  import G = FileProgress
  import P = ClaimProtocol
  import T = ClaimTheorems
  import I = ClaimInvariant

  // ── What one step of the file store does ──────────────────────────────────

  /** The operation of a call in this phase has neither taken effect nor failed. */
  predicate Undone(p: F.Phase) {
    p.WaitingGuard? || p.Spawned? || p.WaitingLock? || p.Locked? || p.Edited? || p.Writing?
  }

  /** The steps the file store takes on its own account. */
  predicate OwnStep(e: F.Event) {
    || e.GrantGuard? || e.OpenLockFile? || e.AcquireLock? || e.ReadFile? || e.CreateTemp? || e.WritePiece?
    || e.Rename? || e.SetPermissions? || e.Release?
  }

  /** Nothing took effect, and the call, if it was undone, is so still. */
  predicate StaysSo(f: F.State, f': F.State, t: F.TaskId)
    requires t in f.tasks && t in f'.tasks
  {
    && F.Current(f') == F.Current(f) && f'.tasks[t].op == f.tasks[t].op
    && (Undone(f.tasks[t].phase) <==> Undone(f'.tasks[t].phase))
    && (f'.tasks[t].phase.WaitingGuard? <==> f.tasks[t].phase.WaitingGuard?)
  }

  /** The call failed without effect. */
  predicate FailsEarly(f: F.State, f': F.State, t: F.TaskId)
    requires t in f.tasks && t in f'.tasks
  {
    && F.Current(f') == F.Current(f) && f'.tasks[t].op == f.tasks[t].op
    && Undone(f.tasks[t].phase) && !f.tasks[t].phase.WaitingGuard?
    && (f'.tasks[t].phase == F.Releasing(F.Errored(false)) || f'.tasks[t].phase == F.Returned(F.Errored(false)))
  }

  /** The operation took effect. */
  predicate TakesEffect(f: F.State, f': F.State, t: F.TaskId)
    requires t in f.tasks && t in f'.tasks
  {
    var (op, reply) := (f.tasks[t].op, Answer(F.Current(f), f.tasks[t].op));
    && F.Current(f') == After(F.Current(f), op) && f'.tasks[t].op == op
    && Undone(f.tasks[t].phase) && !f.tasks[t].phase.WaitingGuard?
    && (f'.tasks[t].phase == F.Renamed(reply) || f'.tasks[t].phase == F.Releasing(F.Answered(reply)))
  }

  /** The call got the mutex; a sweep reads the clock. */
  predicate Granted(f: F.State, f': F.State, t: F.TaskId)
    requires t in f.tasks && t in f'.tasks
  {
    && F.Current(f') == F.Current(f) && f.tasks[t].phase.WaitingGuard? && f'.tasks[t].phase.Spawned?
    && f'.tasks[t].op == F.Stamp(f.tasks[t].op, f.clock)
  }

  lemma SameLog(f: F.State, f': F.State)
    requires f'.log == f.log && f'.initial == f.initial
    ensures F.Current(f') == F.Current(f)
  {
  }

  /** A successful read of the file prepares a write, or is itself the point where the operation takes effect. */
  lemma ReadShape(f: F.State, t: F.TaskId)
    requires F.VaultTrue(f) && t in f.tasks && F.ReadAndEdit(f, t).Some?
    ensures var (m, op, f') := (F.Current(f), f.tasks[t].op, F.ReadAndEdit(f, t).value);
            || (exists text :: f' == F.Move(f, t, F.Edited(text, Answer(m, op))))
            || (After(m, op) == m && f' == F.CommitTo(f, t, Answer(m, op), F.Releasing(F.Answered(Answer(m, op)))))
  {
    var (m, op) := (F.Current(f), f.tasks[t].op);
    JsonFile.ReadImage(m);
    L.EditIsAbstract(m, op);
    hide F.Edit, JsonFile.ReadState, JsonFile.Image, JsonFile.Render, AllStorable, After, Answer, F.Current, JsonFile.ByKey;
    var (next, reply, writes) := F.Edit(JsonFile.ByKey(m), op);
    if writes {
      assert F.ReadAndEdit(f, t).value == F.Move(f, t, F.Edited(JsonFile.Render(next), reply));
    }
  }

  lemma EditedStaysSo(f: F.State, t: F.TaskId, text: JsonFile.Text, reply: Reply)
    requires t in f.tasks && f.tasks[t].phase.Locked?
    ensures var f' := F.Move(f, t, F.Edited(text, reply)); t in f'.tasks && StaysSo(f, f', t)
  {
    SameLog(f, F.Move(f, t, F.Edited(text, reply)));
    hide F.Current;
  }

  lemma ReadTakesEffect(f: F.State, t: F.TaskId)
    requires t in f.tasks && f.tasks[t].phase.Locked?
    ensures var reply := Answer(F.Current(f), f.tasks[t].op);
            var f' := F.CommitTo(f, t, reply, F.Releasing(F.Answered(reply)));
            t in f'.tasks && TakesEffect(f, f', t)
  {
    hide After, Answer, F.Replay;
    L.Appended(f.initial, f.log, F.Commit(t, f.tasks[t].op, Answer(F.Current(f), f.tasks[t].op)));
  }

  lemma ReadKinds(f: F.State, t: F.TaskId)
    requires F.VaultTrue(f) && t in f.tasks && f.tasks[t].phase.Locked? && F.ReadAndEdit(f, t).Some?
    ensures var f' := F.ReadAndEdit(f, t).value;
            t in f'.tasks && (StaysSo(f, f', t) || TakesEffect(f, f', t))
  {
    ReadShape(f, t);
    hide F.ReadAndEdit, F.VaultTrue, After, Answer, F.Current, F.Move, F.CommitTo, StaysSo, TakesEffect;
    var (m, op, f') := (F.Current(f), f.tasks[t].op, F.ReadAndEdit(f, t).value);
    if text :| f' == F.Move(f, t, F.Edited(text, Answer(m, op))) {
      EditedStaysSo(f, t, text, Answer(m, op));
    } else {
      ReadTakesEffect(f, t);
    }
  }

  lemma RenameKinds(f: F.State, t: F.TaskId)
    requires F.Inv(f) && F.Next(f, F.Rename(t, true)).Some?
    ensures t in f.tasks && t in F.Next(f, F.Rename(t, true)).value.tasks
    ensures TakesEffect(f, F.Next(f, F.Rename(t, true)).value, t)
  {
    L.RenameShape(f, t);
    assert F.TaskTrue(f, t);
    var (op, reply) := (f.tasks[t].op, f.tasks[t].phase.reply);
    hide F.Next, F.LogTrue, F.VaultTrue, F.TasksTrue, AllStorable, JsonFile.Image, After, Answer, F.Replay;
    L.Appended(f.initial, f.log, F.Commit(t, op, reply));
  }

  lemma QuietKinds(f: F.State, t: F.TaskId, e: F.Event)
    requires L.Quiet(f, t, e) && OwnStep(e) && e.task == t
    ensures var f' := F.TaskStep(f, t, e).value;
            && t in f'.tasks && f'.clock == f.clock
            && (Granted(f, f', t) || StaysSo(f, f', t) || FailsEarly(f, f', t))
  {
    L.QuietShape(f, t, e);
    SameLog(f, F.TaskStep(f, t, e).value);
    hide F.Current, F.ReadAndEdit;
  }

  /** Every step is of one of four kinds. */
  lemma StepKinds(f: F.State, e: F.Event)
    requires F.Inv(f) && OwnStep(e) && F.Next(f, e).Some?
    ensures var (f', t) := (F.Next(f, e).value, e.task);
            && t in f.tasks && t in f'.tasks && f'.tasks == f.tasks[t := f'.tasks[t]] && f'.clock == f.clock
            && (Granted(f, f', t) || StaysSo(f, f', t) || FailsEarly(f, f', t) || TakesEffect(f, f', t))
  {
    var t := e.task;
    L.TaskStepShape(f, t, e);
    L.StepKeepsClock(f, t, e);
    if e.ReadFile? && e.ok {
      ReadFileIsRead(f, t);
      ReadKinds(f, t);
    } else if e.Rename? && e.ok {
      RenameKinds(f, t);
    } else {
      QuietKinds(f, t, e);
    }
    hide F.TaskStep, F.Inv, Granted, StaysSo, FailsEarly, TakesEffect;
  }

  lemma ReadFileIsRead(f: F.State, t: F.TaskId)
    requires t in f.tasks && F.TaskStep(f, t, F.ReadFile(t, true)).Some?
    ensures f.tasks[t].phase.Locked? && F.TaskStep(f, t, F.ReadFile(t, true)) == F.ReadAndEdit(f, t)
  {
    hide F.ReadAndEdit;
  }

  /** Who a call belongs to, and whether anybody waits for it, no such step changes. */
  lemma StepKeepsCaller(f: F.State, e: F.Event)
    requires OwnStep(e) && F.Next(f, e).Some?
    ensures var (f', t) := (F.Next(f, e).value, e.task);
            && t in f.tasks && t in f'.tasks
            && f'.tasks[t].pid == f.tasks[t].pid && f'.tasks[t].awaiting == f.tasks[t].awaiting
            && (F.InFlight(f.tasks[t].phase) || f.tasks[t].phase.WaitingGuard?) && F.InFlight(f'.tasks[t].phase)
  {
    hide JsonFile.ReadState, F.Edit, JsonFile.StateStorable, JsonFile.Render;
  }

  // ── Callers over the file store ───────────────────────────────────────────

  /** One vault call.  While it waits for the storage call `task`, `phase` is the one it asked from. */
  datatype Caller = Caller(pid: F.Pid, request: P.Request, phase: P.Phase, task: Option<F.TaskId>, gone: bool)

  datatype State = State(
    file: F.State,
    callers: map<P.CallId, Caller>,
    owner: map<F.TaskId, P.CallId>)      // whose each storage call is

  datatype Event =
    | Begin(call: P.CallId, pid: F.Pid, request: P.Request)
    | Think(call: P.CallId)                       // a step without storage
    | Ask(call: P.CallId, task: F.TaskId)         // a storage call is made
    | Hear(call: P.CallId)                        // it returns
    | Leave(call: P.CallId)                       // the caller goes away
    | Store(step: F.Event)                        // the file store, or the clock, goes on
    | Crash(pid: F.Pid)

  function AsCall(u: Caller): P.Call {
    P.Call(u.request, u.phase, !u.gone, 0, None, None, None)
  }

  /** The storage operation a caller asks for; a sweep gets its clock reading later. */
  function Wanted(u: Caller): Option<Op> {
    if u.request.Cleanup? then if u.phase.Called? then Some(DeleteExpired(0)) else None
    else T.StorageOp(AsCall(u))
  }

  /** What a caller does between storage calls. */
  function Thought(u: Caller, now: Instant): Option<P.Phase> {
    match u.request
    case StoreProof(proof, ttl, key, nonce, id) =>
      (match u.phase
       case Called =>
         (match P.ExpiryFor(ttl, now)
          case None => Some(P.Ended(P.Refused(P.InvalidParameter)))
          case Some(expiresAt) => if P.Dateable(ttl, now) then Some(P.Dated(expiresAt)) else None)
       case Dated(expiresAt) =>
         if InRange(now) then Some(P.Inserting(StoredRecord(nonce, Aead.Seal(key, nonce, proof), now, expiresAt))) else None
       case _ => None)
    case Cleanup => None
    case _ =>
      (match u.phase
       case Called => if ParseToken(u.request.token).None? then Some(P.Ended(P.Refused(P.InvalidId))) else None
       case Fetched(claim, rec) => Some(T.Judged(u.request, claim, rec, now))
       case _ => None)
  }

  /** Where a caller goes on hearing from its storage call. */
  ghost function Heard(u: Caller, response: F.Response): P.Phase {
    match response
    case Answered(reply) => T.NextPhase(AsCall(u), reply)
    case Errored(_) => T.ErrorPhase(AsCall(u))
  }

  predicate FreshId(s: State, request: P.Request) {
    request.StoreProof? ==>
      forall c :: c in s.callers && s.callers[c].request.StoreProof? ==> s.callers[c].request.id != request.id
  }

  function With(s: State, c: P.CallId, u: Caller): State {
    s.(callers := s.callers[c := u])
  }

  function StoreStep(s: State, e: F.Event): Option<State> {
    if !OwnStep(e) && !(e.Tick? && InRange(s.file.clock + e.nanos)) then None
    else
      match F.Next(s.file, e)
      case None => None
      case Some(file) => Some(s.(file := file))
  }

  function AskStep(s: State, c: P.CallId, t: F.TaskId): Option<State>
    requires c in s.callers
  {
    var u := s.callers[c];
    if u.gone || u.task.Some? || Wanted(u).None? then None
    else
      match F.Next(s.file, F.Invoke(t, u.pid, Wanted(u).value))
      case None => None
      case Some(file) => Some(State(file, s.callers[c := u.(task := Some(t))], s.owner[t := c]))
  }

  ghost function HearStep(s: State, c: P.CallId): Option<State>
    requires c in s.callers
  {
    var u := s.callers[c];
    if u.gone || u.task.None? || u.task.value !in s.file.tasks || !s.file.tasks[u.task.value].phase.Returned? then None
    else
      match F.Next(s.file, F.Resume(u.task.value))
      case None => None
      case Some(file) =>
        var response := s.file.tasks[u.task.value].phase.response;
        Some(With(s.(file := file), c, u.(phase := Heard(u, response), task := None)))
  }

  function LeaveStep(s: State, c: P.CallId): Option<State>
    requires c in s.callers
  {
    var u := s.callers[c];
    if u.gone || u.phase.Ended? then None
    else if u.task.None? then Some(With(s, c, u.(gone := true)))
    else
      match F.Next(s.file, F.Cancel(u.task.value))
      case None => None
      case Some(file) => Some(With(s.(file := file), c, u.(gone := true)))
  }

  /** The death of a process takes its callers with it. */
  function CrashStep(s: State, pid: F.Pid): State {
    s.(file := F.KillProcess(s.file, pid),
       callers := map c | c in s.callers :: if s.callers[c].pid == pid && !s.callers[c].phase.Ended?
                                            then s.callers[c].(gone := true) else s.callers[c])
  }

  ghost function Next(s: State, e: Event): Option<State> {
    match e
    case Begin(c, pid, request) =>
      if c in s.callers || !FreshId(s, request) then None
      else Some(With(s, c, Caller(pid, request, P.Called, None, false)))
    case Think(c) =>
      if c !in s.callers || s.callers[c].gone || s.callers[c].task.Some? then None
      else
        (match Thought(s.callers[c], s.file.clock)
         case None => None
         case Some(phase) => Some(With(s, c, s.callers[c].(phase := phase))))
    case Ask(c, t) => if c in s.callers then AskStep(s, c, t) else None
    case Hear(c) => if c in s.callers then HearStep(s, c) else None
    case Leave(c) => if c in s.callers then LeaveStep(s, c) else None
    case Store(step) => StoreStep(s, step)
    case Crash(pid) => Some(CrashStep(s, pid))
  }

  /** An empty vault file, and nobody there. */
  function Start(clock: Instant): State {
    State(F.Start(map[], clock), map[], map[])
  }

  ghost function Run(s: State, events: seq<Event>): Option<State> {
    if events == [] then Some(s)
    else
      match Run(s, events[..|events| - 1])
      case None => None
      case Some(before) => Next(before, events[|events| - 1])
  }

  // ── The claim protocol behind it ──────────────────────────────────────────

  /** Where a caller will go on, once its storage call is done.  A call that has renamed the file has yet to learn
      whether it reports an error; `late` says which calls will. */
  ghost function Outcome(late: set<F.TaskId>, u: Caller, t: F.TaskId, p: F.Phase): Option<P.Phase> {
    match p
    case Renamed(reply) => Some(if t in late then T.ErrorPhase(AsCall(u)) else T.NextPhase(AsCall(u), reply))
    case Releasing(response) => Some(Heard(u, response))
    case Returned(response) => Some(Heard(u, response))
    case _ => None
  }

  /** Where the claim protocol has the call while its operation is undone: a sweep has read the clock once it
      holds the mutex. */
  function Before(u: Caller, x: F.Task): P.Phase {
    if u.request.Cleanup? && !x.phase.WaitingGuard? && x.op.DeleteExpired? then P.Sweeping(x.op.now) else u.phase
  }

  /** The storage call `x` is the one `u` asked for. */
  predicate DoesWhatWasWanted(u: Caller, x: F.Task) {
    && x.pid == u.pid && Wanted(u).Some?
    && (if u.request.Cleanup? then x.op.DeleteExpired? else Wanted(u) == Some(x.op))
    && (u.gone ==> !x.awaiting)
  }

  /** The claim protocol is where the caller will be once its storage call is done, if that call is done, and where
      the caller is if not.  Of a caller that went away only a storage call still undone matters. */
  ghost predicate Ahead(late: set<F.TaskId>, u: Caller, t: F.TaskId, x: F.Task, k: P.Call) {
    && (!u.gone ==> k.awaiting && x.awaiting && (Undone(x.phase) || Outcome(late, u, t, x.phase) == Some(k.phase)))
    && (Undone(x.phase) ==> k.phase == Before(u, x) && (u.gone ==> !k.awaiting))
  }

  ghost predicate CallerTrue(late: set<F.TaskId>, s: State, c: P.CallId, u: Caller, k: P.Call) {
    && k.request == u.request
    && match u.task
       case None => if u.gone then !u.phase.Ended? else k.awaiting && k.phase == u.phase
       case Some(t) =>
         && t in s.file.tasks && t in s.owner && s.owner[t] == c
         && DoesWhatWasWanted(u, s.file.tasks[t]) && Ahead(late, u, t, s.file.tasks[t], k)
  }

  /** Nothing more comes of a storage call that is over. */
  predicate Settled(p: F.Phase) {
    p.Finished? || p.Dropped? || p.Died?
  }

  /** Every storage call still going on is some caller's. */
  ghost predicate OwnersTrue(s: State) {
    && (forall t :: t in s.owner ==> t in s.file.tasks)
    && (forall t :: t in s.file.tasks ==>
          || Settled(s.file.tasks[t].phase)
          || (t in s.owner && s.owner[t] in s.callers && s.callers[s.owner[t]].task == Some(t)))
  }

  ghost predicate Sim(late: set<F.TaskId>, s: State, a: P.State) {
    && F.Inv(s.file) && a.records == F.Current(s.file) && a.clock == s.file.clock && InRange(a.clock)
    && (forall c :: c in s.callers <==> c in a.calls)
    && (forall c :: c in s.callers ==> CallerTrue(late, s, c, s.callers[c], a.calls[c]))
    && OwnersTrue(s)
  }

  // ── Putting a step together ───────────────────────────────────────────────

  /** Only caller `c` and its storage call changed. */
  ghost predicate OnlyHis(s: State, s': State, c: P.CallId) {
    && (forall d :: d != c ==> (d in s.callers <==> d in s'.callers) && (d in s.callers ==> s'.callers[d] == s.callers[d]))
    && (forall t :: t in s.owner ==> t in s'.owner && s'.owner[t] == s.owner[t])
    && (forall t :: t in s.file.tasks && t in s.owner && s.owner[t] != c ==>
          t in s'.file.tasks && s'.file.tasks[t] == s.file.tasks[t])
  }

  /** ... and of the claim protocol's calls only `c`. */
  ghost predicate OnlyIts(a: P.State, a': P.State, c: P.CallId) {
    forall d :: d != c ==> (d in a.calls <==> d in a'.calls) && (d in a.calls ==> a'.calls[d] == a.calls[d])
  }

  lemma OthersStayTrue(late: set<F.TaskId>, s: State, s': State, a: P.State, a': P.State, c: P.CallId, d: P.CallId)
    requires Sim(late, s, a) && OnlyHis(s, s', c) && OnlyIts(a, a', c) && d != c && d in s'.callers
    ensures d in a'.calls && CallerTrue(late, s', d, s'.callers[d], a'.calls[d])
  {
    hide F.Inv, F.Current, InRange, Ahead, DoesWhatWasWanted, OwnersTrue;
    assert CallerTrue(late, s, d, s.callers[d], a.calls[d]);
  }

  lemma Together(late: set<F.TaskId>, s: State, s': State, a: P.State, a': P.State, c: P.CallId)
    requires Sim(late, s, a) && OnlyHis(s, s', c) && OnlyIts(a, a', c) && (c in s'.callers <==> c in a'.calls)
    requires c in s'.callers ==> CallerTrue(late, s', c, s'.callers[c], a'.calls[c])
    requires F.Inv(s'.file) && a'.records == F.Current(s'.file) && a'.clock == s'.file.clock && InRange(a'.clock)
    requires OwnersTrue(s')
    ensures Sim(late, s', a')
  {
    hide F.Inv, F.Current, InRange, CallerTrue, OwnersTrue;
    forall d | d in s'.callers ensures d in a'.calls && CallerTrue(late, s', d, s'.callers[d], a'.calls[d]) {
      if d != c {
        OthersStayTrue(late, s, s', a, a', c, d);
      }
    }
  }

  lemma RunOne(a: P.State, e: P.Event)
    ensures P.Run(a, [e]) == P.Next(a, e)
  {
    hide P.Next;
    assert [e][..0] == [];
    assert P.Run(a, []) == Some(a);
  }

  // ── The claim protocol's side of a step ───────────────────────────────────

  lemma ItCanStep(a: P.State, c: P.CallId, io: P.Io)
    requires c in a.calls && T.StorageOp(a.calls[c]).Some?
    ensures P.Next(a, P.Step(c, io)).Some?
  {
    hide ParseToken, P.StepFetch, P.StepClaim, P.StepDrop, P.StepSweep;
  }

  /** The step in which `c` performs its storage operation. */
  lemma ItsOperation(a: P.State, c: P.CallId, io: P.Io)
    requires c in a.calls && T.StorageOp(a.calls[c]).Some?
    ensures P.Next(a, P.Step(c, io)).Some?
    ensures var (k, a', op) := (a.calls[c], P.Next(a, P.Step(c, io)).value, T.StorageOp(a.calls[c]).value);
            && a'.records == (if io.FailsBefore? then a.records else After(a.records, op)) && a'.clock == a.clock
            && c in a'.calls && OnlyIts(a, a', c) && (forall d :: d in a.calls ==> d in a'.calls)
            && a'.calls[c].request == k.request && a'.calls[c].awaiting == k.awaiting
            && (k.awaiting && io.Works? ==> a'.calls[c].phase == T.NextPhase(k, Answer(a.records, op)))
            && (k.awaiting && !io.Works? ==> a'.calls[c].phase == T.ErrorPhase(k))
  {
    ItCanStep(a, c, io);
    T.StepsUseTheBackend(a, P.Step(c, io));
    T.StepTouchesOnly(a, c, io);
    hide P.Next, T.StorageOp, T.NextPhase, T.ErrorPhase, After, Answer, T.Reachable;
  }

  /** A sweep reading the clock. */
  lemma ItReadsTheClock(a: P.State, c: P.CallId)
    requires c in a.calls && a.calls[c].request.Cleanup? && a.calls[c].phase.Called? && a.calls[c].awaiting && InRange(a.clock)
    ensures P.Next(a, P.Step(c, P.Works)).Some?
    ensures var a' := P.Next(a, P.Step(c, P.Works)).value;
            && a'.records == a.records && a'.clock == a.clock && c in a'.calls && OnlyIts(a, a', c)
            && a'.calls[c].request == a.calls[c].request && a'.calls[c].awaiting
            && a'.calls[c].phase == P.Sweeping(a.clock)
  {
    hide InRange;
  }

  lemma StoreThinks(a: P.State, c: P.CallId, u: Caller)
    requires c in a.calls && u.request.StoreProof? && Thought(u, a.clock).Some?
    requires a.calls[c].request == u.request && a.calls[c].phase == u.phase && a.calls[c].awaiting
    ensures P.Next(a, P.Step(c, P.Works)).Some?
    ensures var a' := P.Next(a, P.Step(c, P.Works)).value; c in a'.calls && Some(a'.calls[c].phase) == Thought(u, a.clock)
  {
    hide InRange, P.ExpiryFor, P.Dateable, Aead.Seal;
  }

  lemma ClaimThinks(a: P.State, c: P.CallId, u: Caller)
    requires c in a.calls && !u.request.StoreProof? && Thought(u, a.clock).Some?
    requires a.calls[c].request == u.request && a.calls[c].phase == u.phase && a.calls[c].awaiting
    ensures P.Next(a, P.Step(c, P.Works)).Some?
    ensures var a' := P.Next(a, P.Step(c, P.Works)).value; c in a'.calls && Some(a'.calls[c].phase) == Thought(u, a.clock)
  {
    hide ParseToken, P.Unseal, IsExpired;
  }

  lemma ThinkersHaveNoOperation(u: Caller, k: P.Call, now: Instant)
    requires Thought(u, now).Some? && k.request == u.request && k.phase == u.phase
    ensures T.StorageOp(k).None?
  {
    hide ParseToken, T.Judged, InRange, P.ExpiryFor, P.Dateable;
  }

  lemma ItThinks(a: P.State, c: P.CallId, u: Caller)
    requires c in a.calls && Thought(u, a.clock).Some?
    requires a.calls[c].request == u.request && a.calls[c].phase == u.phase && a.calls[c].awaiting
    ensures P.Next(a, P.Step(c, P.Works)).Some?
    ensures var a' := P.Next(a, P.Step(c, P.Works)).value;
            && a'.records == a.records && a'.clock == a.clock && c in a'.calls && OnlyIts(a, a', c)
            && a'.calls[c].request == u.request && a'.calls[c].awaiting
            && Some(a'.calls[c].phase) == Thought(u, a.clock)
  {
    hide Thought, P.Next, T.StorageOp, T.Reachable;
    if u.request.StoreProof? {
      StoreThinks(a, c, u);
    } else {
      ClaimThinks(a, c, u);
    }
    ThinkersHaveNoOperation(u, a.calls[c], a.clock);
    T.StepsUseTheBackend(a, P.Step(c, P.Works));
    T.StepTouchesOnly(a, c, P.Works);
  }

  // ── Callers ───────────────────────────────────────────────────────────────

  lemma BeginShape(s: State, c: P.CallId, pid: F.Pid, request: P.Request)
    requires Next(s, Begin(c, pid, request)).Some?
    ensures var s' := Next(s, Begin(c, pid, request)).value;
            && c !in s.callers && FreshId(s, request) && s'.file == s.file && s'.owner == s.owner && OnlyHis(s, s', c)
            && c in s'.callers && s'.callers[c] == Caller(pid, request, P.Called, None, false)
            && (forall d :: d in s.callers ==> d in s'.callers && s'.callers[d].task == s.callers[d].task)
  {
    hide FreshId;
  }

  lemma ItIsMade(a: P.State, c: P.CallId, request: P.Request)
    requires c !in a.calls && P.FreshId(a, request)
    ensures P.Next(a, P.Make(c, request)).Some?
    ensures var a' := P.Next(a, P.Make(c, request)).value;
            && a'.records == a.records && a'.clock == a.clock && OnlyIts(a, a', c) && c in a'.calls
            && a'.calls[c].request == request && a'.calls[c].phase == P.Called && a'.calls[c].awaiting
  {
    hide P.FreshId;
  }

  lemma BeginSim(late: set<F.TaskId>, s: State, a: P.State, c: P.CallId, pid: F.Pid, request: P.Request)
    requires Sim(late, s, a) && Next(s, Begin(c, pid, request)).Some?
    ensures P.Next(a, P.Make(c, request)).Some?
    ensures Sim(late, Next(s, Begin(c, pid, request)).value, P.Next(a, P.Make(c, request)).value)
  {
    hide F.Inv, F.Current, InRange, FreshId, P.FreshId, CallerTrue, OwnersTrue, Next, P.Next, OnlyHis, OnlyIts;
    var s' := Next(s, Begin(c, pid, request)).value;
    BeginShape(s, c, pid, request);
    SameIds(late, s, a, request);
    ItIsMade(a, c, request);
    var a' := P.Next(a, P.Make(c, request)).value;
    MadeTrue(late, s', c, s'.callers[c], a'.calls[c]);
    OwnersStay(s, s');
    Together(late, s, s', a, a', c);
  }

  lemma MadeTrue(late: set<F.TaskId>, s: State, c: P.CallId, u: Caller, k: P.Call)
    requires k.request == u.request && u.task.None? && !u.gone && k.phase == u.phase && k.awaiting
    ensures CallerTrue(late, s, c, u, k)
  {
  }

  lemma SameIds(late: set<F.TaskId>, s: State, a: P.State, request: P.Request)
    requires Sim(late, s, a) && FreshId(s, request)
    ensures P.FreshId(a, request)
  {
    hide F.Inv, F.Current, OwnersTrue, Ahead, DoesWhatWasWanted;
    forall c | c in a.calls && a.calls[c].request.StoreProof? && request.StoreProof?
      ensures a.calls[c].request.id != request.id
    {
      assert CallerTrue(late, s, c, s.callers[c], a.calls[c]);
    }
  }

  /** As long as the file store stands still and no caller lets go of its storage call. */
  lemma OwnersStay(s: State, s': State)
    requires OwnersTrue(s) && s'.file == s.file && s'.owner == s.owner
    requires forall c :: c in s.callers ==> c in s'.callers && s'.callers[c].task == s.callers[c].task
    ensures OwnersTrue(s')
  {
  }

  lemma ThinkShape(s: State, c: P.CallId)
    requires Next(s, Think(c)).Some?
    ensures c in s.callers && !s.callers[c].gone && s.callers[c].task.None? && Thought(s.callers[c], s.file.clock).Some?
    ensures var (u, s') := (s.callers[c], Next(s, Think(c)).value);
            && s'.file == s.file && s'.owner == s.owner && OnlyHis(s, s', c)
            && s'.callers == s.callers[c := u.(phase := Thought(u, s.file.clock).value)]
  {
    hide Thought;
  }

  /** A caller between storage calls is where the claim protocol has it. */
  lemma Idle(late: set<F.TaskId>, s: State, c: P.CallId, u: Caller, k: P.Call)
    requires CallerTrue(late, s, c, u, k) && u.task.None? && !u.gone
    ensures k.request == u.request && k.awaiting && k.phase == u.phase
  {
  }

  lemma ThinkSim(late: set<F.TaskId>, s: State, a: P.State, c: P.CallId)
    requires Sim(late, s, a) && Next(s, Think(c)).Some?
    ensures P.Next(a, P.Step(c, P.Works)).Some?
    ensures Sim(late, Next(s, Think(c)).value, P.Next(a, P.Step(c, P.Works)).value)
  {
    hide F.Inv, F.Current, InRange, Thought, OwnersTrue, P.Next, Next, CallerTrue, OnlyHis, OnlyIts;
    var s' := Next(s, Think(c)).value;
    ThinkShape(s, c);
    Idle(late, s, c, s.callers[c], a.calls[c]);
    ItThinks(a, c, s.callers[c]);
    var a' := P.Next(a, P.Step(c, P.Works)).value;
    MadeTrue(late, s', c, s'.callers[c], a'.calls[c]);
    OwnersStay(s, s');
    Together(late, s, s', a, a', c);
  }

  /** A storage call is made; the claim protocol does not notice. */
  lemma AskShape(s: State, c: P.CallId, t: F.TaskId)
    requires c in s.callers && AskStep(s, c, t).Some?
    ensures var (u, s') := (s.callers[c], AskStep(s, c, t).value);
            && !u.gone && u.task.None? && Wanted(u).Some?
            && F.Next(s.file, F.Invoke(t, u.pid, Wanted(u).value)) == Some(s'.file)
            && s' == State(s'.file, s.callers[c := u.(task := Some(t))], s.owner[t := c])
  {
    hide F.Next, Wanted;
  }

  lemma InvokeShape(f: F.State, t: F.TaskId, pid: F.Pid, op: Op)
    requires F.Next(f, F.Invoke(t, pid, op)).Some?
    ensures var f' := F.Next(f, F.Invoke(t, pid, op)).value;
            && t !in f.tasks && f' == f.(tasks := f.tasks[t := F.Task(pid, op, F.WaitingGuard, true, |f.log|, None)])
            && F.Current(f') == F.Current(f)
  {
    SameLog(f, F.Next(f, F.Invoke(t, pid, op)).value);
    hide F.Current;
  }

  lemma AskedOwners(s: State, c: P.CallId, t: F.TaskId, x: F.Task)
    requires OwnersTrue(s) && c in s.callers && s.callers[c].task.None? && t !in s.file.tasks
    ensures OwnersTrue(State(s.file.(tasks := s.file.tasks[t := x]), s.callers[c := s.callers[c].(task := Some(t))], s.owner[t := c]))
  {
  }

  /** What a caller wants depends on what it was asked and where it is. */
  lemma SameWish(u: Caller, v: Caller)
    requires u.request == v.request && u.phase == v.phase
    ensures Wanted(u) == Wanted(v) && T.ErrorPhase(AsCall(u)) == T.ErrorPhase(AsCall(v))
    ensures forall reply :: T.NextPhase(AsCall(u), reply) == T.NextPhase(AsCall(v), reply)
  {
    hide ParseToken, Token;
  }

  lemma AskSim(late: set<F.TaskId>, s: State, a: P.State, c: P.CallId, t: F.TaskId)
    requires Sim(late, s, a) && Next(s, Ask(c, t)).Some?
    ensures Sim(late, Next(s, Ask(c, t)).value, a)
  {
    hide F.Inv, F.Current, InRange, OwnersTrue, F.Next, AskStep, Wanted, Ahead, DoesWhatWasWanted, CallerTrue;
    var (u, s') := (s.callers[c], AskStep(s, c, t).value);
    AskShape(s, c, t);
    InvokeShape(s.file, t, u.pid, Wanted(u).value);
    NotOwned(s, t);
    L.NextKeeps(s.file, F.Invoke(t, u.pid, Wanted(u).value));
    Idle(late, s, c, u, a.calls[c]);
    SameWish(u, s'.callers[c]);
    AskedTrue(late, s'.callers[c], t, s'.file.tasks[t], a.calls[c]);
    LeftTrue(late, s', c, t, a.calls[c]);
    AskedOwners(s, c, t, s'.file.tasks[t]);
    Together(late, s, s', a, a, c);
  }

  lemma NotOwned(s: State, t: F.TaskId)
    requires OwnersTrue(s) && t !in s.file.tasks
    ensures t !in s.owner
  {
  }

  lemma AskedTrue(late: set<F.TaskId>, u: Caller, t: F.TaskId, x: F.Task, k: P.Call)
    requires !u.gone && u.task == Some(t) && Wanted(u).Some? && k.awaiting && k.phase == u.phase
    requires x.pid == u.pid && x.op == Wanted(u).value && x.phase.WaitingGuard? && x.awaiting
    ensures DoesWhatWasWanted(u, x) && Ahead(late, u, t, x, k)
  {
    hide ParseToken;
  }

  /** A storage call changed its phase, and its caller its own; the caller lets go of it only once it is settled. */
  lemma OwnersMove(s: State, s': State, t: F.TaskId)
    requires OwnersTrue(s) && s'.owner == s.owner && t in s.file.tasks && t in s.owner
    requires t in s'.file.tasks && s'.file.tasks == s.file.tasks[t := s'.file.tasks[t]]
    requires forall c :: c in s.callers ==> c in s'.callers
    requires forall c :: c in s.callers && c != s.owner[t] ==> s'.callers[c].task == s.callers[c].task
    requires s.owner[t] in s.callers && s.callers[s.owner[t]].task == Some(t)
    requires s'.callers[s.owner[t]].task == Some(t) || Settled(s'.file.tasks[t].phase)
    ensures OwnersTrue(s')
  {
    hide Settled;
    forall v | v in s'.file.tasks && v != t && !Settled(s'.file.tasks[v].phase)
      ensures v in s'.owner && s'.owner[v] in s'.callers && s'.callers[s'.owner[v]].task == Some(v)
    {
      assert s'.file.tasks[v] == s.file.tasks[v];
    }
  }

  lemma ResumeShape(f: F.State, t: F.TaskId)
    requires t in f.tasks && F.Next(f, F.Resume(t)).Some?
    ensures var f' := F.Next(f, F.Resume(t)).value;
            && f.tasks[t].phase.Returned? && t in f'.tasks && f'.tasks == f.tasks[t := f'.tasks[t]]
            && f'.tasks[t].phase.Finished? && f'.clock == f.clock && F.Current(f') == F.Current(f)
  {
    SameLog(f, F.Next(f, F.Resume(t)).value);
    hide F.Current, F.ReadAndEdit;
  }

  lemma HearShape(s: State, c: P.CallId)
    requires c in s.callers && HearStep(s, c).Some?
    ensures var u := s.callers[c];
            && !u.gone && u.task.Some? && u.task.value in s.file.tasks
            && F.Next(s.file, F.Resume(u.task.value)).Some? && s.file.tasks[u.task.value].phase.Returned?
            && var s' := HearStep(s, c).value;
               && F.Next(s.file, F.Resume(u.task.value)) == Some(s'.file) && s'.owner == s.owner
               && s'.callers == s.callers[c := u.(phase := Heard(u, s.file.tasks[u.task.value].phase.response), task := None)]
  {
    hide F.Next, Heard;
  }

  /** A caller hears what the claim protocol already knows. */
  lemma HearSim(late: set<F.TaskId>, s: State, a: P.State, c: P.CallId)
    requires Sim(late, s, a) && Next(s, Hear(c)).Some?
    ensures Sim(late, Next(s, Hear(c)).value, a)
  {
    hide F.Inv, F.Current, InRange, OwnersTrue, F.Next, HearStep, DoesWhatWasWanted, Heard, Before;
    HearShape(s, c);
    var (u, s') := (s.callers[c], HearStep(s, c).value);
    var t := u.task.value;
    ResumeShape(s.file, t);
    L.NextKeeps(s.file, F.Resume(t));
    assert CallerTrue(late, s, c, u, a.calls[c]);
    MadeTrue(late, s', c, s'.callers[c], a.calls[c]);
    OwnersMove(s, s', t);
    hide CallerTrue, Ahead;
    Together(late, s, s', a, a, c);
  }

  // ── Leaving ───────────────────────────────────────────────────────────────

  lemma CancelShape(f: F.State, t: F.TaskId)
    requires t in f.tasks && F.Next(f, F.Cancel(t)).Some?
    ensures var f' := F.Next(f, F.Cancel(t)).value;
            && t in f'.tasks && f'.tasks == f.tasks[t := f'.tasks[t]] && f'.clock == f.clock
            && F.Current(f') == F.Current(f) && f'.tasks[t].op == f.tasks[t].op && f'.tasks[t].pid == f.tasks[t].pid
            && !f'.tasks[t].awaiting
            && (f'.tasks[t].phase.Dropped? || (f'.tasks[t].phase == f.tasks[t].phase && !f.tasks[t].phase.WaitingGuard?))
  {
    SameLog(f, F.Next(f, F.Cancel(t)).value);
    hide F.Current, F.ReadAndEdit;
  }

  lemma LeaveShape(s: State, c: P.CallId)
    requires c in s.callers && LeaveStep(s, c).Some?
    ensures var (u, s') := (s.callers[c], LeaveStep(s, c).value);
            && !u.gone && !u.phase.Ended? && s'.owner == s.owner && s'.callers == s.callers[c := u.(gone := true)]
            && (if u.task.None? then s'.file == s.file else F.Next(s.file, F.Cancel(u.task.value)) == Some(s'.file))
  {
    hide F.Next;
  }

  /** A caller between storage calls just goes. */
  lemma LeaveIdleSim(late: set<F.TaskId>, s: State, a: P.State, c: P.CallId)
    requires Sim(late, s, a) && c in s.callers && s.callers[c].task.None? && LeaveStep(s, c).Some?
    ensures Sim(late, LeaveStep(s, c).value, a)
  {
    hide F.Inv, F.Current, InRange, OwnersTrue, F.Next, LeaveStep;
    LeaveShape(s, c);
    var s' := LeaveStep(s, c).value;
    assert CallerTrue(late, s, c, s.callers[c], a.calls[c]);
    assert CallerTrue(late, s', c, s'.callers[c], a.calls[c]);
    hide CallerTrue;
    OwnersStay(s, s');
    Together(late, s, s', a, a, c);
  }

  lemma ItIsAbandoned(a: P.State, c: P.CallId)
    requires c in a.calls && a.calls[c].awaiting && !a.calls[c].phase.Ended?
    ensures P.Next(a, P.Abandon(c)).Some?
    ensures var (k, a') := (a.calls[c], P.Next(a, P.Abandon(c)).value);
            && a'.records == a.records && a'.clock == a.clock && OnlyIts(a, a', c) && c in a'.calls
            && a'.calls[c] == k.(awaiting := false)
  {
  }

  /** Its storage call goes on without it. */
  lemma LeaveWaitingSim(late: set<F.TaskId>, s: State, a: P.State, c: P.CallId) returns (es: seq<P.Event>)
    requires Sim(late, s, a) && c in s.callers && s.callers[c].task.Some? && LeaveStep(s, c).Some?
    ensures P.Run(a, es).Some? && Sim(late, LeaveStep(s, c).value, P.Run(a, es).value)
    ensures forall x :: x in es ==> !x.Step?
  {
    hide F.Inv, F.Current, InRange, OwnersTrue, F.Next, LeaveStep, P.Run, P.Next, CallerTrue, Ahead, DoesWhatWasWanted;
    LeaveShape(s, c);
    var (u, s', k) := (s.callers[c], LeaveStep(s, c).value, a.calls[c]);
    var t := u.task.value;
    WaitingFor(late, s, c, u, k);
    CancelShape(s.file, t);
    L.NextKeeps(s.file, F.Cancel(t));
    OwnersMove(s, s', t);
    var x' := s'.file.tasks[t];
    LeaverTrue(late, u, t, s.file.tasks[t], x', k);
    if Undone(x'.phase) {
      ItIsAbandoned(a, c);
      var a' := P.Next(a, P.Abandon(c)).value;
      RunOne(a, P.Abandon(c));
      LeftTrue(late, s', c, t, a'.calls[c]);
      Together(late, s, s', a, a', c);
      return [P.Abandon(c)];
    } else {
      LeftTrue(late, s', c, t, k);
      RunNone(a);
      Together(late, s, s', a, a, c);
      return [];
    }
  }

  lemma RunNone(a: P.State)
    ensures P.Run(a, []) == Some(a)
  {
  }

  lemma LeaverTrue(late: set<F.TaskId>, u: Caller, t: F.TaskId, x: F.Task, x': F.Task, k: P.Call)
    requires !u.gone && DoesWhatWasWanted(u, x) && Ahead(late, u, t, x, k)
    requires x'.op == x.op && x'.pid == x.pid && !x'.awaiting
    requires x'.phase.Dropped? || (x'.phase == x.phase && !x.phase.WaitingGuard?)
    ensures DoesWhatWasWanted(u.(gone := true), x')
    ensures Undone(x'.phase) ==> k.awaiting && !k.phase.Ended? && Ahead(late, u.(gone := true), t, x', k.(awaiting := false))
    ensures !Undone(x'.phase) ==> Ahead(late, u.(gone := true), t, x', k)
  {
    SameWish(u, u.(gone := true));
    WishersHaveNotEnded(u);
    hide Wanted, Outcome;
  }

  lemma WishersHaveNotEnded(u: Caller)
    requires Wanted(u).Some?
    ensures !u.phase.Ended?
  {
    hide ParseToken;
  }

  lemma LeftTrue(late: set<F.TaskId>, s: State, c: P.CallId, t: F.TaskId, k: P.Call)
    requires c in s.callers && s.callers[c].task == Some(t) && k.request == s.callers[c].request
    requires t in s.file.tasks && t in s.owner && s.owner[t] == c
    requires DoesWhatWasWanted(s.callers[c], s.file.tasks[t]) && Ahead(late, s.callers[c], t, s.file.tasks[t], k)
    ensures CallerTrue(late, s, c, s.callers[c], k)
  {
    hide DoesWhatWasWanted, Ahead;
  }

  // ── The file store's own steps ────────────────────────────────────────────

  lemma TickSim(late: set<F.TaskId>, s: State, a: P.State, nanos: nat)
    requires Sim(late, s, a) && StoreStep(s, F.Tick(nanos)).Some?
    ensures P.Next(a, P.Tick(nanos)).Some?
    ensures Sim(late, StoreStep(s, F.Tick(nanos)).value, P.Next(a, P.Tick(nanos)).value)
  {
    hide F.Inv, F.Current, InRange, CallerTrue, OwnersTrue;
    L.NextKeeps(s.file, F.Tick(nanos));
    var (s', a') := (StoreStep(s, F.Tick(nanos)).value, P.Next(a, P.Tick(nanos)).value);
    SameLog(s.file, s'.file);
    forall c | c in s'.callers ensures CallerTrue(late, s', c, s'.callers[c], a'.calls[c]) {
      SameTasks(late, s, s', c, s.callers[c], a.calls[c]);
    }
    OwnersSameTasks(s, s');
  }

  lemma SameTasks(late: set<F.TaskId>, s: State, s': State, c: P.CallId, u: Caller, k: P.Call)
    requires CallerTrue(late, s, c, u, k) && s'.file.tasks == s.file.tasks && s'.owner == s.owner
    ensures CallerTrue(late, s', c, u, k)
  {
    hide DoesWhatWasWanted, Ahead;
  }

  lemma OwnersSameTasks(s: State, s': State)
    requires OwnersTrue(s) && s'.file.tasks == s.file.tasks && s'.owner == s.owner && s'.callers == s.callers
    ensures OwnersTrue(s')
  {
  }

  /** Whether a rename reports an error is as foretold. */
  predicate Agrees(late: set<F.TaskId>, e: F.Event) {
    e.SetPermissions? ==> (e.ok <==> e.task !in late)
  }

  /** Once an operation is done, what its caller will hear stays the same. */
  lemma DoneStaysSo(late: set<F.TaskId>, f: F.State, e: F.Event, u: Caller)
    requires OwnStep(e) && F.Next(f, e).Some? && Agrees(late, e)
    requires e.task in f.tasks && !Undone(f.tasks[e.task].phase)
    ensures var f' := F.Next(f, e).value;
            e.task in f'.tasks && Outcome(late, u, e.task, f'.tasks[e.task].phase) == Outcome(late, u, e.task, f.tasks[e.task].phase)
  {
    hide F.ReadAndEdit, T.NextPhase, T.ErrorPhase, F.CancelTask;
  }

  /** What the claim protocol's call is about to do is what the storage call does. */
  lemma SameOperation(u: Caller, x: F.Task, k: P.Call)
    requires DoesWhatWasWanted(u, x) && k.request == u.request && k.phase == Before(u, x)
    requires Undone(x.phase) && !x.phase.WaitingGuard?
    ensures T.StorageOp(k) == Some(x.op) && T.ErrorPhase(k) == T.ErrorPhase(AsCall(u))
    ensures forall m :: T.NextPhase(k, Answer(m, x.op)) == T.NextPhase(AsCall(u), Answer(m, x.op))
  {
    hide ParseToken, Token, Victims;
  }

  lemma StaysTrue(late: set<F.TaskId>, f: F.State, e: F.Event, u: Caller, k: P.Call)
    requires OwnStep(e) && F.Next(f, e).Some? && Agrees(late, e) && e.task in f.tasks
    requires DoesWhatWasWanted(u, f.tasks[e.task]) && Ahead(late, u, e.task, f.tasks[e.task], k)
    requires e.task in F.Next(f, e).value.tasks && StaysSo(f, F.Next(f, e).value, e.task)
    ensures var x' := F.Next(f, e).value.tasks[e.task];
            DoesWhatWasWanted(u, x') && Ahead(late, u, e.task, x', k)
  {
    StepKeepsCaller(f, e);
    if !Undone(f.tasks[e.task].phase) {
      DoneStaysSo(late, f, e, u);
    }
    hide F.Next, OwnStep, F.InFlight, F.Current, Wanted, Outcome, Undone;
  }

  /** One step of the store for the storage call `t` of caller `c`, and what the claim protocol does for it. */
  lemma OneCaller(late: set<F.TaskId>, s: State, a: P.State, a': P.State, e: F.Event, c: P.CallId)
    requires Sim(late, s, a) && OwnStep(e) && F.Next(s.file, e).Some? && e.task in s.owner && s.owner[e.task] == c
    requires c in s.callers && s.callers[c].task == Some(e.task) && OnlyIts(a, a', c) && c in a'.calls
    requires a'.calls[c].request == s.callers[c].request
    requires var f' := F.Next(s.file, e).value;
             && a'.records == F.Current(f') && a'.clock == a.clock && e.task in f'.tasks
             && DoesWhatWasWanted(s.callers[c], f'.tasks[e.task])
             && Ahead(late, s.callers[c], e.task, f'.tasks[e.task], a'.calls[c])
    ensures Sim(late, s.(file := F.Next(s.file, e).value), a')
  {
    hide F.Inv, F.Current, InRange, OwnersTrue, CallerTrue, F.Next, DoesWhatWasWanted, Ahead;
    hide StaysSo, FailsEarly, TakesEffect, Granted;
    var f' := F.Next(s.file, e).value;
    var s' := s.(file := f');
    L.NextKeeps(s.file, e);
    StepKinds(s.file, e);
    OwnersMove(s, s', e.task);
    LeftTrue(late, s', c, e.task, a'.calls[c]);
    Together(late, s, s', a, a', c);
  }

  /** Who a step is for. */
  lemma Owner(late: set<F.TaskId>, s: State, a: P.State, e: F.Event) returns (c: P.CallId)
    requires Sim(late, s, a) && OwnStep(e) && F.Next(s.file, e).Some?
    ensures e.task in s.file.tasks && e.task in s.owner && s.owner[e.task] == c && c in s.callers && c in a.calls
    ensures s.callers[c].task == Some(e.task) && a.calls[c].request == s.callers[c].request
    ensures DoesWhatWasWanted(s.callers[c], s.file.tasks[e.task])
    ensures Ahead(late, s.callers[c], e.task, s.file.tasks[e.task], a.calls[c])
  {
    hide F.Inv, F.Current, InRange, F.Next, DoesWhatWasWanted, Ahead, OwnersTrue, Settled, F.InFlight, CallerTrue;
    StepKeepsCaller(s.file, e);
    Unsettled(s.file.tasks[e.task].phase);
    OwnerOf(s, e.task);
    c := s.owner[e.task];
    WaitingFor(late, s, c, s.callers[c], a.calls[c]);
  }

  lemma Unsettled(p: F.Phase)
    requires F.InFlight(p) || p.WaitingGuard?
    ensures !Settled(p)
  {
  }

  lemma OwnerOf(s: State, t: F.TaskId)
    requires OwnersTrue(s) && t in s.file.tasks && !Settled(s.file.tasks[t].phase)
    ensures t in s.owner && s.owner[t] in s.callers && s.callers[s.owner[t]].task == Some(t)
  {
    hide Settled;
  }

  lemma WaitingFor(late: set<F.TaskId>, s: State, c: P.CallId, u: Caller, k: P.Call)
    requires CallerTrue(late, s, c, u, k) && u.task.Some?
    ensures k.request == u.request && u.task.value in s.file.tasks && DoesWhatWasWanted(u, s.file.tasks[u.task.value])
    ensures u.task.value in s.owner && s.owner[u.task.value] == c
    ensures Ahead(late, u, u.task.value, s.file.tasks[u.task.value], k)
  {
    hide DoesWhatWasWanted, Ahead;
  }

  lemma GrantedTrue(late: set<F.TaskId>, f: F.State, f': F.State, t: F.TaskId, u: Caller, k: P.Call)
    requires t in f.tasks && t in f'.tasks && Granted(f, f', t) && F.TaskTrue(f, t)
    requires f'.tasks[t].pid == f.tasks[t].pid && f'.tasks[t].awaiting == f.tasks[t].awaiting
    requires DoesWhatWasWanted(u, f.tasks[t]) && Ahead(late, u, t, f.tasks[t], k) && k.request == u.request
    ensures !u.gone && k.awaiting && DoesWhatWasWanted(u, f'.tasks[t])
    ensures u.request.Cleanup? ==> k.phase.Called?
    ensures !u.request.Cleanup? ==> Ahead(late, u, t, f'.tasks[t], k)
    ensures u.request.Cleanup? ==>
              forall k': P.Call :: k'.awaiting && k'.phase == P.Sweeping(f.clock) ==> Ahead(late, u, t, f'.tasks[t], k')
  {
    hide F.Current, T.StorageOp;
    WantsNoSweep(u);
  }

  lemma WantsNoSweep(u: Caller)
    requires Wanted(u).Some?
    ensures u.request.Cleanup? ==> u.phase.Called?
    ensures !u.request.Cleanup? ==> !Wanted(u).value.DeleteExpired?
  {
    hide ParseToken;
  }

  lemma TaskIsTrue(f: F.State, t: F.TaskId)
    requires F.Inv(f) && t in f.tasks
    ensures F.TaskTrue(f, t)
  {
    hide F.TaskTrue, F.VaultTrue, F.LogTrue;
  }

  lemma GrantedSim(late: set<F.TaskId>, s: State, a: P.State, e: F.Event) returns (es: seq<P.Event>)
    requires Sim(late, s, a) && OwnStep(e) && F.Next(s.file, e).Some? && e.task in s.file.tasks
    requires e.task in F.Next(s.file, e).value.tasks && Granted(s.file, F.Next(s.file, e).value, e.task)
    ensures P.Run(a, es).Some? && Sim(late, s.(file := F.Next(s.file, e).value), P.Run(a, es).value)
    ensures forall x :: x in es && x.Step? ==> x.io.Works?
  {
    hide F.Next, InRange, OwnersTrue, CallerTrue, DoesWhatWasWanted, Ahead, P.Run, P.Next, F.TaskTrue, F.Inv, F.InFlight, F.Current;
    TaskIsTrue(s.file, e.task);
    var c := Owner(late, s, a, e);
    StepKeepsCaller(s.file, e);
    var (u, f') := (s.callers[c], F.Next(s.file, e).value);
    GrantedTrue(late, s.file, f', e.task, u, a.calls[c]);
    if u.request.Cleanup? {
      ItReadsTheClock(a, c);
      es := [P.Step(c, P.Works)];
      RunOne(a, es[0]);
      OneCaller(late, s, a, P.Next(a, es[0]).value, e, c);
    } else {
      es := [];
      RunNone(a);
      OneCaller(late, s, a, a, e, c);
    }
  }

  lemma StaysSim(late: set<F.TaskId>, s: State, a: P.State, e: F.Event)
    requires Sim(late, s, a) && OwnStep(e) && F.Next(s.file, e).Some? && e.task in s.file.tasks && Agrees(late, e)
    requires e.task in F.Next(s.file, e).value.tasks && StaysSo(s.file, F.Next(s.file, e).value, e.task)
    ensures Sim(late, s.(file := F.Next(s.file, e).value), a)
  {
    hide F.Next, OwnStep, InRange, OwnersTrue, CallerTrue, DoesWhatWasWanted, Ahead, F.Inv, F.Current;
    var c := Owner(late, s, a, e);
    StaysTrue(late, s.file, e, s.callers[c], a.calls[c]);
    OneCaller(late, s, a, a, e, c);
  }

  /** A step of one of caller `c`'s storage calls fails. */
  predicate FaultOf(e: Event, owner: map<F.TaskId, P.CallId>, c: P.CallId) {
    && e.Store? && OwnStep(e.step) && G.FailsFor(e.step, e.step.task)
    && e.step.task in owner && owner[e.step.task] == c
  }

  /** One of its storage calls will report an error although its rename took effect. */
  predicate LateOf(late: set<F.TaskId>, owner: map<F.TaskId, P.CallId>, c: P.CallId) {
    exists t :: t in late && t in owner && owner[t] == c
  }

  /** Behind every step of the claim protocol that fails is a step of the file store that does. */
  ghost predicate FailuresBlamed(late: set<F.TaskId>, e: Event, owner: map<F.TaskId, P.CallId>, es: seq<P.Event>) {
    forall x :: x in es && x.Step? && !x.io.Works? ==> FaultOf(e, owner, x.call) || LateOf(late, owner, x.call)
  }

  /** How the claim protocol's step goes when the operation takes effect or fails. */
  function IoFor(late: set<F.TaskId>, t: F.TaskId, p: F.Phase): P.Io {
    if p.Renamed? && t in late then P.FailsAfter
    else if p.Renamed? || (p.Releasing? && p.response.Answered?) then P.Works
    else P.FailsBefore
  }

  lemma DoneTrue(late: set<F.TaskId>, f: F.State, f': F.State, t: F.TaskId, u: Caller, k: P.Call, k': P.Call)
    requires t in f.tasks && t in f'.tasks && (FailsEarly(f, f', t) || TakesEffect(f, f', t))
    requires f'.tasks[t].pid == f.tasks[t].pid && f'.tasks[t].awaiting == f.tasks[t].awaiting
    requires DoesWhatWasWanted(u, f.tasks[t]) && Ahead(late, u, t, f.tasks[t], k) && k.request == u.request
    requires k'.awaiting == k.awaiting
    requires var (op, io) := (f.tasks[t].op, IoFor(late, t, f'.tasks[t].phase));
             k.awaiting ==> k'.phase == if io.Works? then T.NextPhase(k, Answer(F.Current(f), op)) else T.ErrorPhase(k)
    ensures DoesWhatWasWanted(u, f'.tasks[t]) && Ahead(late, u, t, f'.tasks[t], k')
  {
    SameOperation(u, f.tasks[t], k);
    hide F.Current, T.StorageOp, T.NextPhase, T.ErrorPhase, Wanted, Before, After, Answer;
  }

  lemma DoneSim(late: set<F.TaskId>, s: State, a: P.State, e: F.Event) returns (es: seq<P.Event>)
    requires Sim(late, s, a) && OwnStep(e) && F.Next(s.file, e).Some? && e.task in s.file.tasks
    requires e.task in F.Next(s.file, e).value.tasks
    requires var f' := F.Next(s.file, e).value; FailsEarly(s.file, f', e.task) || TakesEffect(s.file, f', e.task)
    ensures P.Run(a, es).Some? && Sim(late, s.(file := F.Next(s.file, e).value), P.Run(a, es).value)
    ensures FailuresBlamed(late, Store(e), s.owner, es)
  {
    hide F.Next, InRange, OwnersTrue, CallerTrue, DoesWhatWasWanted, Ahead, P.Run, P.Next, F.Inv, F.Current;
    hide After, Answer, T.StorageOp, T.NextPhase, T.ErrorPhase, F.InFlight, Undone;
    var c := Owner(late, s, a, e);
    StepKeepsCaller(s.file, e);
    var (u, k, f', t) := (s.callers[c], a.calls[c], F.Next(s.file, e).value, e.task);
    AboutToDo(late, s.file, f', t, u, k);
    var io := IoFor(late, t, f'.tasks[t].phase);
    ItsOperation(a, c, io);
    es := [P.Step(c, io)];
    RunOne(a, es[0]);
    var a' := P.Next(a, es[0]).value;
    DoneTrue(late, s.file, f', t, u, k, a'.calls[c]);
    OneCaller(late, s, a, a', e, c);
    BlamedOnItsOwner(late, s.file, e, s.owner, io, c);
  }

  lemma EarlyFailuresAreFailures(f: F.State, e: F.Event)
    requires F.Inv(f) && OwnStep(e) && F.Next(f, e).Some? && e.task in f.tasks && e.task in F.Next(f, e).value.tasks
    requires FailsEarly(f, F.Next(f, e).value, e.task)
    ensures G.FailsFor(e, e.task)
  {
    var t := e.task;
    hide F.Inv, F.Next, F.Current, G.FailsFor, OwnStep;
    G.NextInError(f, e, t);
  }

  /** The claim protocol's step fails only if this step of the file store fails, or a later one will. */
  lemma BlamedOnItsOwner(late: set<F.TaskId>, f: F.State, e: F.Event, owner: map<F.TaskId, P.CallId>, io: P.Io, c: P.CallId)
    requires F.Inv(f) && OwnStep(e) && F.Next(f, e).Some? && e.task in f.tasks && e.task in F.Next(f, e).value.tasks
    requires e.task in owner && owner[e.task] == c
    requires var f' := F.Next(f, e).value;
             && (FailsEarly(f, f', e.task) || TakesEffect(f, f', e.task))
             && io == IoFor(late, e.task, f'.tasks[e.task].phase)
    ensures FailuresBlamed(late, Store(e), owner, [P.Step(c, io)])
  {
    hide F.Inv, F.Next, F.Current, After, Answer, G.FailsFor;
    if io.FailsAfter? {
      assert LateOf(late, owner, c);
    } else if io.FailsBefore? {
      EarlyFailuresAreFailures(f, e);
    }
  }

  lemma AboutToDo(late: set<F.TaskId>, f: F.State, f': F.State, t: F.TaskId, u: Caller, k: P.Call)
    requires t in f.tasks && t in f'.tasks && (FailsEarly(f, f', t) || TakesEffect(f, f', t))
    requires DoesWhatWasWanted(u, f.tasks[t]) && Ahead(late, u, t, f.tasks[t], k) && k.request == u.request
    ensures T.StorageOp(k) == Some(f.tasks[t].op)
    ensures IoFor(late, t, f'.tasks[t].phase).FailsBefore? <==> FailsEarly(f, f', t)
    ensures F.Current(f') == if FailsEarly(f, f', t) then F.Current(f) else After(F.Current(f), f.tasks[t].op)
  {
    SameOperation(u, f.tasks[t], k);
    hide F.Current, T.StorageOp, Wanted, Before, After, Answer, DoesWhatWasWanted, Ahead;
  }

  lemma OwnSim(late: set<F.TaskId>, s: State, a: P.State, e: F.Event) returns (es: seq<P.Event>)
    requires Sim(late, s, a) && OwnStep(e) && F.Next(s.file, e).Some? && Agrees(late, e)
    ensures P.Run(a, es).Some? && Sim(late, s.(file := F.Next(s.file, e).value), P.Run(a, es).value)
    ensures FailuresBlamed(late, Store(e), s.owner, es)
  {
    hide F.Next, InRange, OwnersTrue, CallerTrue, P.Run, F.Inv, F.Current, StaysSo, FailsEarly, TakesEffect, Granted;
    hide FaultOf, LateOf;
    StepKinds(s.file, e);
    var f' := F.Next(s.file, e).value;
    if Granted(s.file, f', e.task) {
      es := GrantedSim(late, s, a, e);
    } else if StaysSo(s.file, f', e.task) {
      StaysSim(late, s, a, e);
      RunNone(a);
      es := [];
    } else {
      es := DoneSim(late, s, a, e);
    }
  }

  // ── Crashes ───────────────────────────────────────────────────────────────

  lemma CrashedTrue(late: set<F.TaskId>, s: State, pid: F.Pid, c: P.CallId, k: P.Call)
    requires c in s.callers && CallerTrue(late, s, c, s.callers[c], k)
    ensures CallerTrue(late, CrashStep(s, pid), c, CrashStep(s, pid).callers[c], k)
  {
    var (u, s') := (s.callers[c], CrashStep(s, pid));
    hide Wanted, Before;
    SameWish(u, s'.callers[c]);
    if u.task.Some? {
      WishersHaveNotEnded(u);
    }
  }

  lemma CrashedFile(f: F.State, pid: F.Pid)
    requires F.Inv(f)
    ensures var f' := F.KillProcess(f, pid);
            F.Inv(f') && F.Current(f') == F.Current(f) && f'.clock == f.clock
  {
    L.CrashKeeps(f, pid);
    SameLog(f, F.KillProcess(f, pid));
    hide F.Inv, F.Current;
  }

  lemma CrashShape(s: State, pid: F.Pid)
    ensures var s' := CrashStep(s, pid);
            s'.file == F.KillProcess(s.file, pid) && forall c :: c in s'.callers <==> c in s.callers
  {
    hide F.KillProcess;
  }

  lemma CrashSim(late: set<F.TaskId>, s: State, a: P.State, pid: F.Pid)
    requires Sim(late, s, a)
    ensures Sim(late, CrashStep(s, pid), a)
  {
    hide F.Inv, F.Current, InRange, OwnersTrue, CallerTrue, F.KillProcess, CrashStep;
    var s' := CrashStep(s, pid);
    CrashShape(s, pid);
    CrashedFile(s.file, pid);
    CrashedOwners(s, pid);
    forall c | c in s'.callers ensures CallerTrue(late, s', c, s'.callers[c], a.calls[c]) {
      CrashedTrue(late, s, pid, c, a.calls[c]);
    }
  }

  lemma CrashedOwners(s: State, pid: F.Pid)
    requires OwnersTrue(s)
    ensures OwnersTrue(CrashStep(s, pid))
  {
  }

  // ── Whole runs ────────────────────────────────────────────────────────────

  lemma StepSim(late: set<F.TaskId>, s: State, a: P.State, e: Event) returns (es: seq<P.Event>)
    requires Sim(late, s, a) && Next(s, e).Some? && (e.Store? ==> Agrees(late, e.step))
    ensures P.Run(a, es).Some? && Sim(late, Next(s, e).value, P.Run(a, es).value)
    ensures FailuresBlamed(late, e, s.owner, es)
  {
    hide Sim, P.Run, P.Next, F.Next, CrashStep, AskStep, HearStep, LeaveStep, OwnStep, FaultOf, LateOf;
    RunNone(a);
    es := [];
    match e
    case Begin(c, pid, request) =>
      BeginSim(late, s, a, c, pid, request);
      RunOne(a, P.Make(c, request));
      es := [P.Make(c, request)];
    case Think(c) =>
      ThinkSim(late, s, a, c);
      RunOne(a, P.Step(c, P.Works));
      es := [P.Step(c, P.Works)];
    case Ask(c, t) => AskSim(late, s, a, c, t);
    case Hear(c) => HearSim(late, s, a, c);
    case Leave(c) =>
      if s.callers[c].task.None? {
        LeaveIdleSim(late, s, a, c);
      } else {
        es := LeaveWaitingSim(late, s, a, c);
      }
    case Store(step) =>
      if step.Tick? {
        TickSim(late, s, a, step.nanos);
        RunOne(a, P.Tick(step.nanos));
        es := [P.Tick(step.nanos)];
      } else {
        es := OwnSim(late, s, a, step);
      }
    case Crash(pid) => CrashSim(late, s, a, pid);
  }

  predicate AllAgree(late: set<F.TaskId>, events: seq<Event>) {
    forall i :: 0 <= i < |events| && events[i].Store? ==> Agrees(late, events[i].step)
  }

  lemma {:induction false} ClaimRunsConcat(a: P.State, before: seq<P.Event>, after: seq<P.Event>)
    requires P.Run(a, before).Some?
    ensures P.Run(a, before + after) == P.Run(P.Run(a, before).value, after)
  {
    hide P.Next;
    if after == [] {
      assert before + after == before;
    } else {
      var all := before + after;
      assert all[..|all| - 1] == before + after[..|after| - 1];
      ClaimRunsConcat(a, before, after[..|after| - 1]);
    }
  }

  lemma NothingYet(clock: Instant)
    ensures F.Current(F.Start(map[], clock)) == map[] && F.Start(map[], clock).clock == clock
    ensures F.Start(map[], clock).tasks == map[]
  {
    hide JsonFile.Image;
    assert F.Ops([]) == [];
  }

  lemma StartSim(late: set<F.TaskId>, clock: Instant)
    requires InRange(clock)
    ensures Sim(late, Start(clock), P.Start(clock))
  {
    hide F.Inv, InRange, F.Start, F.Current, CallerTrue;
    L.StartKeeps(map[], clock);
    NothingYet(clock);
  }

  lemma SimOwners(late: set<F.TaskId>, s: State, a: P.State)
    requires Sim(late, s, a)
    ensures OwnersTrue(s)
  {
    hide F.Inv, F.Current, InRange, OwnersTrue, CallerTrue;
  }

  /** Who made a storage call is never forgotten. */
  lemma OwnersAreKept(s: State, e: Event)
    requires OwnersTrue(s) && Next(s, e).Some?
    ensures forall t :: t in s.owner ==> t in Next(s, e).value.owner && Next(s, e).value.owner[t] == s.owner[t]
  {
    hide F.Inv, Thought, Wanted, Heard, FreshId, OwnStep, InRange, F.KillProcess, Settled;
    if e.Ask? {
      AskShape(s, e.call, e.task);
      InvokeShape(s.file, e.task, s.callers[e.call].pid, Wanted(s.callers[e.call]).value);
      NotOwned(s, e.task);
    }
    hide F.Next;
  }

  /** A storage failure in the run so far, or one to come, is the reason of every failure in `es`. */
  ghost predicate AllBlamed(late: set<F.TaskId>, events: seq<Event>, owner: map<F.TaskId, P.CallId>, es: seq<P.Event>) {
    forall x :: x in es && x.Step? && !x.io.Works? ==>
      (exists e :: e in events && FaultOf(e, owner, x.call)) || LateOf(late, owner, x.call)
  }

  lemma BlameGrows(late: set<F.TaskId>, events: seq<Event>, e: Event, owner: map<F.TaskId, P.CallId>,
                   owner': map<F.TaskId, P.CallId>, es: seq<P.Event>, more: seq<P.Event>)
    requires AllBlamed(late, events, owner, es) && FailuresBlamed(late, e, owner, more)
    requires forall t :: t in owner ==> t in owner' && owner'[t] == owner[t]
    ensures AllBlamed(late, events + [e], owner', es + more)
  {
    hide G.FailsFor, OwnStep;
    forall x | x in es + more && x.Step? && !x.io.Works?
      ensures (exists e' :: e' in events + [e] && FaultOf(e', owner', x.call)) || LateOf(late, owner', x.call)
    {
      if LateOf(late, owner, x.call) {
        var t :| t in late && t in owner && owner[t] == x.call;
        assert owner'[t] == x.call;
      } else if x in es {
        var e' :| e' in events && FaultOf(e', owner, x.call);
        assert e' in events + [e] && FaultOf(e', owner', x.call);
      } else {
        assert e in events + [e] && FaultOf(e, owner', x.call);
      }
    }
  }

  lemma {:induction false} RunSim(late: set<F.TaskId>, clock: Instant, events: seq<Event>) returns (es: seq<P.Event>)
    requires InRange(clock) && Run(Start(clock), events).Some? && AllAgree(late, events)
    ensures P.Run(P.Start(clock), es).Some?
    ensures Sim(late, Run(Start(clock), events).value, P.Run(P.Start(clock), es).value)
    ensures AllBlamed(late, events, Run(Start(clock), events).value.owner, es)
  {
    hide Sim, P.Run, Next, Agrees, Start, FaultOf, LateOf, OwnersTrue;
    if events == [] {
      RunNone(P.Start(clock));
      StartSim(late, clock);
      es := [];
    } else {
      var (init, e) := (events[..|events| - 1], events[|events| - 1]);
      es := RunSim(late, clock, init);
      var a := P.Run(P.Start(clock), es).value;
      var s := Run(Start(clock), init).value;
      var more := StepSim(late, s, a, e);
      ClaimRunsConcat(P.Start(clock), es, more);
      SimOwners(late, s, a);
      OwnersAreKept(s, e);
      BlameGrows(late, init, e, s.owner, Next(s, e).value.owner, es, more);
      assert init + [e] == events;
      es := es + more;
    }
  }

  // ── No call learns twice whether its rename worked out ────────────────────

  predicate PastRename(p: F.Phase) {
    p.Releasing? || p.Returned? || Settled(p)
  }

  predicate Sets(e: Event, t: F.TaskId) {
    e.Store? && e.step.SetPermissions? && e.step.task == t
  }

  lemma FilePast(f: F.State, e: F.Event, t: F.TaskId)
    requires F.Next(f, e).Some?
    ensures t in f.tasks && PastRename(f.tasks[t].phase) ==>
              t in F.Next(f, e).value.tasks && PastRename(F.Next(f, e).value.tasks[t].phase)
              && !(e.SetPermissions? && e.task == t)
    ensures e.SetPermissions? && e.task == t ==>
              t in F.Next(f, e).value.tasks && PastRename(F.Next(f, e).value.tasks[t].phase)
  {
    if !e.Tick? && !e.Crash? && !e.Invoke? {
      L.TaskStepShape(f, e.task, e);
      if e.task == t {
        OwnPast(f, t, e);
      }
      hide F.TaskStep;
    }
  }

  lemma OwnPast(f: F.State, t: F.TaskId, e: F.Event)
    requires t in f.tasks && F.TaskStep(f, t, e).Some?
    ensures t in F.TaskStep(f, t, e).value.tasks
    ensures PastRename(f.tasks[t].phase) ==> PastRename(F.TaskStep(f, t, e).value.tasks[t].phase) && !e.SetPermissions?
    ensures e.SetPermissions? ==> PastRename(F.TaskStep(f, t, e).value.tasks[t].phase)
  {
    L.TaskStepShape(f, t, e);
    hide F.ReadAndEdit;
  }

  /** What of the file a step of the whole is. */
  lemma FileStepOf(s: State, e: Event) returns (step: Option<F.Event>)
    requires Next(s, e).Some?
    ensures match step
            case None => Next(s, e).value.file == s.file
            case Some(f) => F.Next(s.file, f) == Some(Next(s, e).value.file)
    ensures e.Store? ==> step == Some(e.step)
    ensures !e.Store? && step.Some? ==> !step.value.SetPermissions?
  {
    hide F.Next, Thought, Wanted, Heard, FreshId, OwnStep, InRange;
    match e
    case Begin(_, _, _) => step := None;
    case Think(_) => step := None;
    case Ask(c, t) => step := Some(F.Invoke(t, s.callers[c].pid, Wanted(s.callers[c]).value));
    case Hear(c) => step := Some(F.Resume(s.callers[c].task.value));
    case Leave(c) => step := if s.callers[c].task.None? then None else Some(F.Cancel(s.callers[c].task.value));
    case Store(f) => step := Some(f);
    case Crash(pid) =>
      step := Some(F.Crash(pid));
      CrashIsCrash(s, pid);
  }

  lemma CrashIsCrash(s: State, pid: F.Pid)
    ensures F.Next(s.file, F.Crash(pid)) == Some(CrashStep(s, pid).file)
  {
  }

  lemma NextPast(s: State, e: Event, t: F.TaskId)
    requires Next(s, e).Some?
    ensures t in s.file.tasks && PastRename(s.file.tasks[t].phase) ==>
              t in Next(s, e).value.file.tasks && PastRename(Next(s, e).value.file.tasks[t].phase) && !Sets(e, t)
    ensures Sets(e, t) ==> t in Next(s, e).value.file.tasks && PastRename(Next(s, e).value.file.tasks[t].phase)
  {
    hide F.Next, Next, PastRename;
    var step := FileStepOf(s, e);
    if step.Some? {
      FilePast(s.file, step.value, t);
    }
  }

  lemma {:induction false} SetLeavesPast(s0: State, events: seq<Event>, i: nat, t: F.TaskId)
    requires Run(s0, events).Some? && i < |events| && Sets(events[i], t)
    ensures var s := Run(s0, events).value; t in s.file.tasks && PastRename(s.file.tasks[t].phase)
  {
    hide Next, PastRename, Sets;
    var (init, e) := (events[..|events| - 1], events[|events| - 1]);
    NextPast(Run(s0, init).value, e, t);
    if i < |init| {
      assert init[i] == events[i];
      SetLeavesPast(s0, init, i, t);
    }
  }

  lemma {:induction false} SetsOnce(s0: State, events: seq<Event>, i: nat, j: nat, t: F.TaskId)
    requires Run(s0, events).Some? && i < |events| && j < |events| && Sets(events[i], t) && Sets(events[j], t)
    ensures i == j
    decreases |events|
  {
    hide Next, PastRename, Sets;
    var (init, e) := (events[..|events| - 1], events[|events| - 1]);
    if i < |init| && j < |init| {
      assert init[i] == events[i] && init[j] == events[j];
      SetsOnce(s0, init, i, j, t);
    } else if i < |init| {
      assert init[i] == events[i];
      SetLeavesPast(s0, init, i, t);
      NextPast(Run(s0, init).value, e, t);
    } else if j < |init| {
      assert init[j] == events[j];
      SetLeavesPast(s0, init, j, t);
      NextPast(Run(s0, init).value, e, t);
    }
  }

  predicate IsLate(e: Event) {
    e.Store? && e.step.SetPermissions? && !e.step.ok
  }

  /** The calls whose rename took effect and that then reported an error. */
  function LateOnes(events: seq<Event>): set<F.TaskId> {
    set i | 0 <= i < |events| && IsLate(events[i]) :: events[i].step.task
  }

  lemma LateOnesAgree(s0: State, events: seq<Event>)
    requires Run(s0, events).Some?
    ensures AllAgree(LateOnes(events), events)
  {
    hide Run;
    forall i | 0 <= i < |events| && events[i].Store? ensures Agrees(LateOnes(events), events[i].step) {
      var e := events[i].step;
      if e.SetPermissions? {
        if e.ok && e.task in LateOnes(events) {
          var j :| 0 <= j < |events| && IsLate(events[j]) && events[j].step.task == e.task;
          SetsOnce(s0, events, i, j, e.task);
        } else if !e.ok {
          assert IsLate(events[i]);
        }
      }
    }
  }

  // ── Every run over the file is a run of the claim protocol ────────────────

  /** No step of any of caller `c`'s storage calls failed. */
  ghost predicate Unharmed(events: seq<Event>, s: State, c: P.CallId) {
    forall e :: e in events ==> !FaultOf(e, s.owner, c)
  }

  lemma LateIsFault(events: seq<Event>, owner: map<F.TaskId, P.CallId>, c: P.CallId)
    requires LateOf(LateOnes(events), owner, c)
    ensures exists e :: e in events && FaultOf(e, owner, c)
  {
    var t :| t in LateOnes(events) && t in owner && owner[t] == c;
    var i :| 0 <= i < |events| && IsLate(events[i]) && events[i].step.task == t;
    assert FaultOf(events[i], owner, c);
  }

  lemma UnharmedIsUnfailed(events: seq<Event>, s: State, es: seq<P.Event>, c: P.CallId)
    requires AllBlamed(LateOnes(events), events, s.owner, es) && Unharmed(events, s, c)
    ensures T.Unfailed(es, c)
  {
    hide FaultOf, LateOf, LateOnes;
    forall x | x in es && x.Step? && x.call == c ensures x.io.Works? {
      if !x.io.Works? && LateOf(LateOnes(events), s.owner, c) {
        LateIsFault(events, s.owner, c);
      }
    }
  }

  /** Whatever was interleaved, failed, was cancelled or died: there is a run of the claim protocol with the same
      calls, in which every caller was told what it heard here, whose records are those in the vault file, and in
      which no step fails of a call whose storage calls did not fail here. */
  lemma FileRunsAreClaimRuns(clock: Instant, events: seq<Event>) returns (a: P.State, es: seq<P.Event>)
    requires InRange(clock) && Run(Start(clock), events).Some?
    ensures var s := Run(Start(clock), events).value;
            && T.Ran(clock, es, a) && a.clock == s.file.clock && a.records == F.Current(s.file)
            && AllStorable(a.records) && s.file.vault == JsonFile.Image(a.records)
            && (forall c :: c in s.callers <==> c in a.calls)
            && (forall c :: c in s.callers ==> a.calls[c].request == s.callers[c].request)
            && (forall c :: c in s.callers && s.callers[c].phase.Ended? ==> a.calls[c].phase == s.callers[c].phase)
            && (forall c :: Unharmed(events, s, c) ==> T.Unfailed(es, c))
  {
    hide Run, Next, InRange, Unharmed, T.Unfailed;
    LateOnesAgree(Start(clock), events);
    es := RunSim(LateOnes(events), clock, events);
    a := P.Run(P.Start(clock), es).value;
    assert T.Ran(clock, es, a);
    var s := Run(Start(clock), events).value;
    hide Start, P.Run, T.Ran, AllAgree, AllBlamed, LateOnes, OwnersTrue, JsonFile.Image, AllStorable, F.Current;
    InTheFile(s.file);
    forall c | c in s.callers
      ensures c in a.calls && a.calls[c].request == s.callers[c].request
      ensures s.callers[c].phase.Ended? ==> a.calls[c].phase == s.callers[c].phase
    {
      HeardIsTold(LateOnes(events), s, c, s.callers[c], a.calls[c]);
    }
    forall c | Unharmed(events, s, c) ensures T.Unfailed(es, c) {
      UnharmedIsUnfailed(events, s, es, c);
    }
  }

  lemma RanIsReachable(clock: Instant, es: seq<P.Event>, a: P.State)
    requires T.Ran(clock, es, a)
    ensures T.Reachable(a)
  {
    hide P.Run;
  }

  lemma InTheFile(f: F.State)
    requires F.Inv(f)
    ensures AllStorable(F.Current(f)) && f.vault == JsonFile.Image(F.Current(f))
  {
    hide JsonFile.Image, AllStorable, F.Current, F.LogTrue, F.TasksTrue;
  }

  lemma HeardIsTold(late: set<F.TaskId>, s: State, c: P.CallId, u: Caller, k: P.Call)
    requires CallerTrue(late, s, c, u, k)
    ensures k.request == u.request && (u.phase.Ended? ==> k.phase == u.phase)
  {
    if u.task.Some? {
      WishersHaveNotEnded(u);
    }
  }

  // ── So what holds of the one holds of the other ───────────────────────────

  ghost predicate Told(s: State, c: P.CallId, result: P.VaultResult) {
    c in s.callers && s.callers[c].phase == P.Ended(result)
  }

  /** A caller none of whose storage calls had a failing step hears what the history of the records says: a claim its
      verdict, a store call its token unless the TTL is out of bounds, a cleanup how many records it removed. */
  lemma UnharmedCallersHearTheVerdict(clock: Instant, events: seq<Event>, c: P.CallId, result: P.VaultResult)
    returns (a: P.State, es: seq<P.Event>)
    requires InRange(clock) && Run(Start(clock), events).Some?
    requires var s := Run(Start(clock), events).value; Told(s, c, result) && Unharmed(events, s, c)
    ensures var s := Run(Start(clock), events).value;
            && T.Ran(clock, es, a) && a.records == F.Current(s.file) && a.clock == s.file.clock
            && c in a.calls && a.calls[c].request == s.callers[c].request
            && match s.callers[c].request
               case StoreProof(_, ttl, key, _, id) =>
                 result == if ttl.Some? && (ttl.value == 0 || ttl.value > 9_223_372_036_854_775_807)
                           then P.Refused(P.InvalidParameter) else P.Issued(Token(Claim(id, key)))
               case Cleanup => result == P.Cleaned(|I.RemovedBy(a, c)|)
               case _ => result == T.Verdict(a, c, a.calls[c])
    ensures result != P.Refused(P.Storage)
  {
    hide Run, Start, T.Ran, Unharmed, T.Unfailed, T.Hit, F.Current, JsonFile.Image, Token, InRange, I.RemovedBy, T.Verdict;
    a, es := FileRunsAreClaimRuns(clock, events);
    T.UnfailedCallsReportNoStorageError(clock, es, a, c);
    match Run(Start(clock), events).value.callers[c].request
    case StoreProof(_, _, _, _, _) => T.StoresAnswer(clock, es, a, c, result);
    case Cleanup => T.CleanupsAnswer(clock, es, a, c, result);
    case _ => T.ClaimsAnswerTheVerdict(clock, es, a, c, result);
  }

  /** A proof a caller got from the file is what some caller stored, and the token it presented is that one's. */
  lemma RetrievedFromTheFileIsStored(clock: Instant, events: seq<Event>, c: P.CallId, plaintext: bytes)
    returns (u: P.CallId)
    requires InRange(clock) && Run(Start(clock), events).Some?
    requires var s := Run(Start(clock), events).value;
             Told(s, c, P.Proof(plaintext)) && I.IsClaim(s.callers[c].request)
    ensures var s := Run(Start(clock), events).value;
            && u in s.callers && s.callers[u].request.StoreProof? && s.callers[u].request.proof == plaintext
            && s.callers[c].request.token == Token(Claim(s.callers[u].request.id, s.callers[u].request.key))
  {
    hide Run, Start, T.Reachable, T.Ran, Unharmed, T.Unfailed, F.Current, JsonFile.Image, Token, InRange;
    var a, es := FileRunsAreClaimRuns(clock, events);
    RanIsReachable(clock, es, a);
    u := T.RetrievedIsStored(a, c, plaintext);
  }

  /** Of the deletes of one record at most one is told that it deleted it. */
  lemma OneDiscardFromTheFile(clock: Instant, events: seq<Event>, c: P.CallId, d: P.CallId, id: RecordId)
    requires InRange(clock) && Run(Start(clock), events).Some?
    requires var s := Run(Start(clock), events).value;
             && Told(s, c, P.Discarded) && T.Names(s.callers[c].request, id)
             && Told(s, d, P.Discarded) && T.Names(s.callers[d].request, id)
    ensures c == d
  {
    hide Run, Start, T.Reachable, T.Ran, Unharmed, T.Unfailed, F.Current, JsonFile.Image, InRange, T.Names;
    var a, es := FileRunsAreClaimRuns(clock, events);
    RanIsReachable(clock, es, a);
    T.OneDiscard(a, c, d, id);
  }

  /** A proof issued without a TTL stays in the vault file until a retrieval with its token or a delete that names
      it is made. */
  lemma IssuedProofsStayInTheFile(clock: Instant, events: seq<Event>, u: P.CallId, token: string)
    requires InRange(clock) && Run(Start(clock), events).Some?
    requires var s := Run(Start(clock), events).value;
             && Told(s, u, P.Issued(token)) && s.callers[u].request.StoreProof? && s.callers[u].request.ttl.None?
             && forall c :: c in s.callers ==> !T.Ends(s.callers[c].request, s.callers[u].request)
    ensures var s := Run(Start(clock), events).value;
            && s.callers[u].request.id in F.Current(s.file)
            && JsonFile.ReadState(s.file.vault) == Ok(JsonFile.ByKey(F.Current(s.file)))
  {
    hide Run, Start, T.Reachable, T.Ran, Unharmed, T.Unfailed, F.Current, JsonFile.Image, JsonFile.ReadState, JsonFile.ByKey, InRange, T.Ends, AllStorable;
    var a, es := FileRunsAreClaimRuns(clock, events);
    RanIsReachable(clock, es, a);
    T.AvailableForItsTtl(a, u, token);
    JsonFile.ReadImage(a.records);
  }
}
