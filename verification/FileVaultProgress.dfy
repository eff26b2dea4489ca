/** Nobody who asks the vault over the interleaved file has to wait in vain: without further failures every caller
    can be answered. */
module FileVaultProgress {
  import opened Core
  import opened Uuid
  import opened Calendar
  import opened Backend
  import opened Claims
  import JsonFile
  import F = FileProtocol
  import L = FileLinearizability
  import G = FileProgress
  import P = ClaimProtocol
  import T = ClaimTheorems
  import ClaimSteps
  import I = ClaimInvariant
  import opened FileVault

  // ── Where a caller can be ─────────────────────────────────────────────────

  /** The phases a caller goes through. */
  predicate PhaseFits(u: Caller) {
    match u.request
    case StoreProof(_, _, _, _, _) => u.phase.Called? || u.phase.Dated? || u.phase.Inserting? || u.phase.Ended?
    case Cleanup => u.phase.Called? || u.phase.Ended?
    case _ => u.phase.Called? || u.phase.Fetched? || u.phase.Claiming? || u.phase.Dropping? || u.phase.Ended?
  }

  ghost predicate PhasesFit(s: State) {
    forall c :: c in s.callers ==> PhaseFits(s.callers[c])
  }

  lemma ThoughtFits(u: Caller, now: Instant)
    requires PhaseFits(u) && Thought(u, now).Some?
    ensures PhaseFits(u.(phase := Thought(u, now).value))
  {
    hide ParseToken, P.ExpiryFor, P.Dateable, IsExpired, P.Unseal, InRange;
  }

  lemma HeardFits(u: Caller, response: F.Response)
    requires PhaseFits(u)
    ensures PhaseFits(u.(phase := Heard(u, response), task := None))
  {
    hide ParseToken, Token;
  }

  lemma NextFits(s: State, e: Event)
    requires PhasesFit(s) && Next(s, e).Some?
    ensures PhasesFit(Next(s, e).value)
  {
    hide F.Next, F.KillProcess, Thought, Heard, Wanted, FreshId, OwnStep, InRange;
    match e
    case Think(c) => ThoughtFits(s.callers[c], s.file.clock);
    case Hear(c) => HeardFits(s.callers[c], s.file.tasks[s.callers[c].task.value].phase.response);
    case _ =>
  }

  lemma {:induction false} RunFits(clock: Instant, events: seq<Event>)
    requires Run(Start(clock), events).Some?
    ensures PhasesFit(Run(Start(clock), events).value)
  {
    hide Next;
    if events != [] {
      hide PhasesFit;
      var (init, e) := (events[..|events| - 1], events[|events| - 1]);
      RunFits(clock, init);
      NextFits(Run(Start(clock), init).value, e);
    }
  }

  // ── Waiting for the store ─────────────────────────────────────────────────

  /** Some run of the claim protocol is where these callers are. */
  lemma Simulated(clock: Instant, events: seq<Event>) returns (late: set<F.TaskId>, a: P.State)
    requires InRange(clock) && Run(Start(clock), events).Some?
    ensures Sim(late, Run(Start(clock), events).value, a) && I.Inv(a)
  {
    hide Run, Sim, I.Inv, Start, P.Run, T.Reachable, InRange;
    LateOnesAgree(Start(clock), events);
    late := LateOnes(events);
    var es := RunSim(late, clock, events);
    a := P.Run(P.Start(clock), es).value;
    assert T.Ran(clock, es, a);
    T.RunInv(clock, es, a);
  }

  /** Storage call `t` is going on for caller `c`, who is still there. */
  ghost predicate Waits(s: State, c: P.CallId, t: F.TaskId) {
    && c in s.callers && !s.callers[c].gone && s.callers[c].task == Some(t)
    && t in s.file.tasks && s.file.tasks[t].awaiting && L.Pending(s.file.tasks[t])
    && DoesWhatWasWanted(s.callers[c], s.file.tasks[t])
  }

  lemma CallersWait(late: set<F.TaskId>, s: State, a: P.State, c: P.CallId)
    requires Sim(late, s, a) && c in s.callers && !s.callers[c].gone && s.callers[c].task.Some?
    ensures Waits(s, c, s.callers[c].task.value)
  {
    hide F.Inv, F.Current, InRange, OwnersTrue, DoesWhatWasWanted, Heard, T.NextPhase, T.ErrorPhase;
    assert CallerTrue(late, s, c, s.callers[c], a.calls[c]);
  }

  /** The step of the whole that is this step of the file. */
  ghost function Lifted(s: State, f: F.Event): Event {
    if f.Resume? && f.task in s.owner then Hear(s.owner[f.task]) else Store(f)
  }

  /** Whoever awaits a storage call that has not settled is a caller who is still there. */
  lemma AwaitedBy(late: set<F.TaskId>, s: State, a: P.State, t: F.TaskId)
    requires Sim(late, s, a) && t in s.file.tasks && s.file.tasks[t].awaiting && !Settled(s.file.tasks[t].phase)
    ensures t in s.owner && s.owner[t] in s.callers
    ensures !s.callers[s.owner[t]].gone && s.callers[s.owner[t]].task == Some(t)
  {
    hide F.Inv, F.Current, InRange, OwnersTrue, Settled, Ahead, Wanted;
    SimOwners(late, s, a);
    OwnerOf(s, t);
    assert CallerTrue(late, s, s.owner[t], s.callers[s.owner[t]], a.calls[s.owner[t]]);
  }

  lemma ResumeIsHeard(late: set<F.TaskId>, s: State, a: P.State, t: F.TaskId)
    requires Sim(late, s, a) && F.Next(s.file, F.Resume(t)).Some?
    ensures t in s.owner && s.owner[t] in s.callers && t in s.file.tasks && s.file.tasks[t].phase.Returned?
    ensures s.callers[s.owner[t]].task == Some(t) && !s.callers[s.owner[t]].gone
    ensures var (d, f') := (s.owner[t], F.Next(s.file, F.Resume(t)).value);
            Next(s, Hear(d)) == Some(With(s.(file := f'), d, s.callers[d].(
              phase := Heard(s.callers[d], s.file.tasks[t].phase.response), task := None)))
  {
    hide Sim, Heard;
    assert t in s.file.tasks && s.file.tasks[t].phase.Returned? && s.file.tasks[t].awaiting;
    AwaitedBy(late, s, a, t);
    hide F.Next;
  }

  lemma OthersAreOwn(f: F.Event)
    requires L.Helpful(f) && !f.Resume?
    ensures OwnStep(f)
  {
  }

  /** Caller `d` heard from its storage call `t`, and nobody else moved. */
  ghost predicate HeardBy(s: State, s': State, t: F.TaskId, d: P.CallId) {
    && d in s.callers && s.callers[d].task == Some(t) && t in s.file.tasks && s.file.tasks[t].phase.Returned?
    && s'.callers == s.callers[d := s.callers[d].(
         phase := Heard(s.callers[d], s.file.tasks[t].phase.response), task := None)]
  }

  /** The file's step can be taken, and of the callers only one that hears from its storage call moves. */
  lemma LiftedStep(late: set<F.TaskId>, s: State, a: P.State, f: F.Event)
    requires Sim(late, s, a) && L.Helpful(f) && F.Next(s.file, f).Some?
    ensures Next(s, Lifted(s, f)).Some?
    ensures var s' := Next(s, Lifted(s, f)).value;
            && s'.file == F.Next(s.file, f).value
            && if f.Resume? then f.task in s.owner && HeardBy(s, s', f.task, s.owner[f.task]) else s'.callers == s.callers
  {
    hide Sim, Heard;
    if f.Resume? {
      ResumeIsHeard(late, s, a, f.task);
    } else {
      OthersAreOwn(f);
    }
    hide F.Next, L.Helpful, OwnStep;
  }

  /** A sweep stays a sweep when it reads the clock. */
  predicate SameKind(op: Op, op': Op) {
    op' == op || (op.DeleteExpired? && op'.DeleteExpired?)
  }

  /** Caller `c`, who was `u` and waited for `t` to do `op`, is waiting still, or has heard what `t` had to say. */
  ghost predicate Follows(s: State, c: P.CallId, u: Caller, t: F.TaskId, op: Op) {
    && c in s.callers && t in s.file.tasks && SameKind(op, s.file.tasks[t].op)
    && s.callers[c] ==
         if s.file.tasks[t].phase.Finished? then u.(phase := Heard(u, s.file.tasks[t].phase.response), task := None)
         else u
  }

  /** A step of the store finishes its call exactly if it is the resumption, and others not at all. */
  lemma FinishedByResume(f: F.State, e: F.Event, t: F.TaskId)
    requires L.Helpful(e) && F.Next(f, e).Some? && t in f.tasks
    ensures t in F.Next(f, e).value.tasks && F.Next(f, e).value.clock == f.clock
    ensures SameKind(f.tasks[t].op, F.Next(f, e).value.tasks[t].op)
    ensures var (p, p') := (f.tasks[t].phase, F.Next(f, e).value.tasks[t].phase);
            if e.task != t then p' == p
            else !p.Finished? && (if e.Resume? then p.Returned? && p'.Finished? && p'.response == p.response else !p'.Finished?)
  {
    L.StepKeepsClock(f, e.task, e);
    if e.task != t {
      L.TaskStepShape(f, e.task, e);
      hide F.TaskStep;
    }
    hide JsonFile.ReadState, F.Edit, JsonFile.StateStorable, JsonFile.Render;
  }

  lemma OwnedBy(late: set<F.TaskId>, s: State, a: P.State, c: P.CallId, t: F.TaskId)
    requires Sim(late, s, a) && c in s.callers && s.callers[c].task == Some(t)
    ensures t in s.owner && s.owner[t] == c
  {
    hide F.Inv, F.Current, InRange, OwnersTrue, Ahead, DoesWhatWasWanted;
    assert CallerTrue(late, s, c, s.callers[c], a.calls[c]);
  }

  lemma FollowsOn(late: set<F.TaskId>, s: State, a: P.State, f: F.Event, c: P.CallId, u: Caller, t: F.TaskId, op: Op)
    requires Sim(late, s, a) && L.Helpful(f) && F.Next(s.file, f).Some? && Follows(s, c, u, t, op) && u.task == Some(t)
    ensures Next(s, Lifted(s, f)).Some? && Next(s, Lifted(s, f)).value.file == F.Next(s.file, f).value
    ensures F.Next(s.file, f).value.clock == s.file.clock
    ensures Follows(Next(s, Lifted(s, f)).value, c, u, t, op)
  {
    hide Sim, L.Helpful, F.Next, Next, Heard, Lifted;
    LiftedStep(late, s, a, f);
    FinishedByResume(s.file, f, t);
    if s.callers[c].task == Some(t) {
      OwnedBy(late, s, a, c, t);
    }
  }

  lemma RunOnBy(s0: State, events: seq<Event>, e: Event)
    requires Run(s0, events).Some? && Next(Run(s0, events).value, e).Some?
    ensures Run(s0, events + [e]) == Next(Run(s0, events).value, e)
  {
    hide Next;
    assert (events + [e])[..|events|] == events;
  }

  /** Steps that are of no caller's making but `c`'s, and of which none fails. */
  ghost predicate Harmless(events: seq<Event>, c: P.CallId) {
    forall e :: e in events ==>
      || (e.Store? && L.Helpful(e.step)) || e.Hear? || e == Think(c) || (e.Ask? && e.call == c)
  }

  lemma {:induction false} Follow(clock: Instant, events: seq<Event>, fs: seq<F.Event>, c: P.CallId, u: Caller,
                                  t: F.TaskId, op: Op)
    returns (more: seq<Event>)
    requires InRange(clock) && Run(Start(clock), events).Some? && u.task == Some(t)
    requires var s := Run(Start(clock), events).value; Follows(s, c, u, t, op) && F.Run(s.file, fs).Some?
    requires forall f :: f in fs ==> L.Helpful(f)
    ensures Run(Start(clock), events + more).Some? && Harmless(more, c)
    ensures var (s, s') := (Run(Start(clock), events).value, Run(Start(clock), events + more).value);
            s'.file == F.Run(s.file, fs).value && s'.file.clock == s.file.clock && Follows(s', c, u, t, op)
    decreases |fs|
  {
    hide Run, Start, Follows, L.Helpful, Next, F.Next, InRange, Sim, I.Inv;
    if fs == [] {
      more := [];
      assert events + [] == events;
    } else {
      var (init, f) := (fs[..|fs| - 1], fs[|fs| - 1]);
      more := Follow(clock, events, init, c, u, t, op);
      var s := Run(Start(clock), events + more).value;
      var late, a := Simulated(clock, events + more);
      FollowsOn(late, s, a, f, c, u, t, op);
      RunOnBy(Start(clock), events + more, Lifted(s, f));
      assert events + (more + [Lifted(s, f)]) == events + more + [Lifted(s, f)];
      more := more + [Lifted(s, f)];
    }
  }

  // ── To the end ────────────────────────────────────────────────────────────

  /** An answer the file store gave is an answer to its operation. */
  lemma RepliesFit(f: F.State, t: F.TaskId) returns (m: Records)
    requires F.Inv(f) && t in f.tasks && f.tasks[t].phase.Finished?
    ensures var (op, response) := (f.tasks[t].op, f.tasks[t].phase.response);
            response.Answered? ==> response.reply == Answer(m, op)
  {
    hide AllStorable, JsonFile.Image, F.Replay;
    m := map[];
    if f.tasks[t].phase.response.Answered? {
      assert F.TaskTrue(f, t);
      m := F.Prior(f, f.tasks[t].committedAt.value);
    }
  }

  /** How far a caller is from its end, in storage calls and thoughts. */
  function Rank(u: Caller): nat {
    match u.phase
    case Called => 3
    case Dated(_) => 2
    case Fetched(_, _) => 2
    case Inserting(_) => 1
    case Claiming(_, _) => 1
    case Dropping(_) => 1
    case _ => 0
  }

  lemma HeardGoesOn(u: Caller, op: Op, m: Records, response: F.Response)
    requires PhaseFits(u) && Wanted(u).Some?
    requires if u.request.Cleanup? then op.DeleteExpired? else Wanted(u) == Some(op)
    requires response.Answered? ==> response.reply == Answer(m, op)
    ensures Rank(u.(phase := Heard(u, response), task := None)) < Rank(u)
  {
    hide ParseToken, Token;
  }

  lemma ThoughtGoesOn(u: Caller, now: Instant)
    requires PhaseFits(u) && Thought(u, now).Some?
    ensures Rank(u.(phase := Thought(u, now).value)) < Rank(u)
  {
    hide ParseToken, P.ExpiryFor, P.Dateable, IsExpired, P.Unseal, InRange;
  }

  /** A caller between storage calls that has not ended wants one, or can think on. */
  lemma SomethingToDo(u: Caller, now: Instant)
    requires PhaseFits(u) && !u.phase.Ended? && InRange(now) && (u.phase.Called? ==> T.Timely(u.request, now))
    ensures Wanted(u).Some? || Thought(u, now).Some?
  {
    hide ParseToken, InRange, P.ExpiryFor, P.Dateable;
    if u.request.StoreProof? && u.phase.Called? && P.ExpiryFor(u.request.ttl, now).Some? {
      T.TimelyStores(u.request.ttl, now);
    }
  }

  /** A waiting caller can be answered. */
  lemma AnswerComes(clock: Instant, events: seq<Event>, c: P.CallId) returns (more: seq<Event>)
    requires InRange(clock) && Run(Start(clock), events).Some?
    requires var s := Run(Start(clock), events).value; c in s.callers && !s.callers[c].gone && s.callers[c].task.Some?
    ensures Run(Start(clock), events + more).Some? && Harmless(more, c)
    ensures var (s, s') := (Run(Start(clock), events).value, Run(Start(clock), events + more).value);
            && c in s'.callers && s'.callers[c].request == s.callers[c].request && s'.file.clock == s.file.clock
            && !s'.callers[c].gone && s'.callers[c].task.None? && Rank(s'.callers[c]) < Rank(s.callers[c])
  {
    hide Run, Start, InRange, F.Run, F.Inv, Sim, I.Inv, Harmless, L.Helpful, Heard, Rank, PhasesFit, PhaseFits, Wanted;
    var s := Run(Start(clock), events).value;
    var late, a := Simulated(clock, events);
    CallersWait(late, s, a, c);
    SimFacts(late, s, a);
    RunFits(clock, events);
    var u := s.callers[c];
    var (t, op) := (u.task.value, s.file.tasks[u.task.value].op);
    FitsOne(s, c);
    PendingIsNotFinished(s.file.tasks[t]);
    var fs := G.EveryCallCanBeAnswered(s.file, t);
    more := Follow(clock, events, fs, c, u, t, op);
    var s' := Run(Start(clock), events + more).value;
    var late', a' := Simulated(clock, events + more);
    SimFacts(late', s', a');
    var m := RepliesFit(s'.file, t);
    WantsNoSweep(u);
    HeardGoesOn(u, s'.file.tasks[t].op, m, s'.file.tasks[t].phase.response);
  }

  lemma FitsOne(s: State, c: P.CallId)
    requires PhasesFit(s) && c in s.callers
    ensures PhaseFits(s.callers[c])
  {
    hide PhaseFits;
  }

  lemma PendingIsNotFinished(k: F.Task)
    requires L.Pending(k)
    ensures !k.phase.Finished?
  {
  }

  lemma SimFacts(late: set<F.TaskId>, s: State, a: P.State)
    requires Sim(late, s, a)
    ensures F.Inv(s.file) && InRange(s.file.clock)
  {
    hide F.Inv, InRange, F.Current, CallerTrue, OwnersTrue;
  }

  lemma NewTask(f: F.State) returns (t: F.TaskId)
    ensures t !in f.tasks
  {
    t := ClaimSteps.Unused(f.tasks.Keys);
  }

  /** A caller that wants a storage call can make one. */
  lemma CanAsk(late: set<F.TaskId>, s: State, a: P.State, c: P.CallId) returns (t: F.TaskId)
    requires Sim(late, s, a) && I.Inv(a) && c in s.callers && !s.callers[c].gone && s.callers[c].task.None?
    requires Wanted(s.callers[c]).Some?
    ensures Next(s, Ask(c, t)).Some?
    ensures var s' := Next(s, Ask(c, t)).value;
            s'.callers == s.callers[c := s.callers[c].(task := Some(t))] && s'.file.clock == s.file.clock
  {
    hide F.Inv, F.Current, InRange, OwnersTrue, I.Inv, CallerTrue, Wanted;
    t := NewTask(s.file);
    var u := s.callers[c];
    Idle(late, s, c, u, a.calls[c]);
    InsertsAreStorable(a, c, u);
    hide Sim, Storable;
  }

  lemma InsertsAreStorable(a: P.State, c: P.CallId, u: Caller)
    requires I.Inv(a) && c in a.calls && a.calls[c].request == u.request && a.calls[c].phase == u.phase
    requires Wanted(u).Some?
    ensures Wanted(u).value.Insert? ==> Storable(Wanted(u).value.rec)
  {
    hide I.Inv, ParseToken, Storable;
    if u.request.StoreProof? {
      T.OperationsAreStorable(a, c);
    }
  }

  lemma CanThink(s: State, c: P.CallId)
    requires c in s.callers && !s.callers[c].gone && s.callers[c].task.None? && Thought(s.callers[c], s.file.clock).Some?
    ensures Next(s, Think(c)) == Some(With(s, c, s.callers[c].(phase := Thought(s.callers[c], s.file.clock).value)))
  {
    hide Thought;
  }

  lemma HarmlessTogether(first: seq<Event>, second: seq<Event>, c: P.CallId)
    requires Harmless(first, c) && Harmless(second, c)
    ensures Harmless(first + second, c)
  {
    hide L.Helpful;
  }

  /** Caller `c` has come nearer to its end, or is just as near and now waits for the store. */
  ghost predicate Nearer(s: State, s': State, c: P.CallId) {
    && c in s.callers && c in s'.callers && s'.callers[c].request == s.callers[c].request && !s'.callers[c].gone
    && s'.file.clock == s.file.clock
    && (Rank(s'.callers[c]) < Rank(s.callers[c])
        || (s'.callers[c] == s.callers[c].(task := s'.callers[c].task)
            && s.callers[c].task.None? && s'.callers[c].task.Some?))
  }

  /** A caller between storage calls can ask for one or think. */
  lemma OwnMove(clock: Instant, events: seq<Event>, c: P.CallId) returns (e: Event)
    requires InRange(clock) && Run(Start(clock), events).Some?
    requires var s := Run(Start(clock), events).value;
             && c in s.callers && !s.callers[c].gone && s.callers[c].task.None? && !s.callers[c].phase.Ended?
             && (s.callers[c].phase.Called? ==> T.Timely(s.callers[c].request, s.file.clock))
    ensures e == Think(c) || (e.Ask? && e.call == c)
    ensures Next(Run(Start(clock), events).value, e).Some?
    ensures Nearer(Run(Start(clock), events).value, Next(Run(Start(clock), events).value, e).value, c)
  {
    hide Run, Start, InRange, Sim, I.Inv, Rank, PhasesFit, PhaseFits, Wanted, Thought, T.Timely, Next;
    var s := Run(Start(clock), events).value;
    var late, a := Simulated(clock, events);
    SimFacts(late, s, a);
    RunFits(clock, events);
    FitsOne(s, c);
    SomethingToDo(s.callers[c], s.file.clock);
    if Wanted(s.callers[c]).Some? {
      var t := CanAsk(late, s, a, c);
      e := Ask(c, t);
    } else {
      CanThink(s, c);
      ThoughtGoesOn(s.callers[c], s.file.clock);
      e := Think(c);
    }
  }

  /** So can one that waits for the store be answered. */
  lemma OneMove(clock: Instant, events: seq<Event>, c: P.CallId) returns (more: seq<Event>)
    requires InRange(clock) && Run(Start(clock), events).Some?
    requires var s := Run(Start(clock), events).value;
             && c in s.callers && !s.callers[c].gone && !s.callers[c].phase.Ended?
             && (s.callers[c].phase.Called? ==> T.Timely(s.callers[c].request, s.file.clock))
    ensures Run(Start(clock), events + more).Some? && Harmless(more, c)
    ensures Nearer(Run(Start(clock), events).value, Run(Start(clock), events + more).value, c)
  {
    hide Run, Start, InRange, Harmless, Rank, Next, T.Timely;
    if Run(Start(clock), events).value.callers[c].task.Some? {
      more := AnswerComes(clock, events, c);
    } else {
      var e := OwnMove(clock, events, c);
      RunOnBy(Start(clock), events, e);
      OneIsHarmless(e, c);
      more := [e];
    }
  }

  lemma StillTimely(s: State, s': State, c: P.CallId)
    requires Nearer(s, s', c) && (s.callers[c].phase.Called? ==> T.Timely(s.callers[c].request, s.file.clock))
    ensures s'.callers[c].phase.Called? ==> T.Timely(s'.callers[c].request, s'.file.clock)
  {
    hide T.Timely;
  }

  /** From every state callers over the interleaved file can reach, whatever failed, was cancelled or died before, any
      caller who is still there can be answered: by storage steps that work, its own thinking and asking, and other
      callers hearing what they were told, and before the clock moves. */
  lemma EveryCallerCanBeAnswered(clock: Instant, events: seq<Event>, c: P.CallId) returns (more: seq<Event>)
    requires InRange(clock) && Run(Start(clock), events).Some?
    requires var s := Run(Start(clock), events).value;
             && c in s.callers && !s.callers[c].gone
             && (s.callers[c].phase.Called? ==> T.Timely(s.callers[c].request, s.file.clock))
    ensures Run(Start(clock), events + more).Some? && Harmless(more, c)
    ensures var (s, s') := (Run(Start(clock), events).value, Run(Start(clock), events + more).value);
            && c in s'.callers && s'.callers[c].request == s.callers[c].request && s'.file.clock == s.file.clock
            && s'.callers[c].phase.Ended?
    decreases Rank(Run(Start(clock), events).value.callers[c]),
              if Run(Start(clock), events).value.callers[c].task.None? then 1 else 0
  {
    hide Run, Start, InRange, Harmless, Rank, T.Timely;
    if Run(Start(clock), events).value.callers[c].phase.Ended? {
      more := [];
      assert events + [] == events;
      NothingHarms(c);
    } else {
      more := OneMove(clock, events, c);
      StillTimely(Run(Start(clock), events).value, Run(Start(clock), events + more).value, c);
      DecreasesSo(Run(Start(clock), events).value, Run(Start(clock), events + more).value, c);
      var rest := EveryCallerCanBeAnswered(clock, events + more, c);
      HarmlessTogether(more, rest, c);
      assert events + more + rest == events + (more + rest);
      more := more + rest;
    }
  }

  lemma DecreasesSo(s: State, s': State, c: P.CallId)
    requires Nearer(s, s', c)
    ensures || Rank(s'.callers[c]) < Rank(s.callers[c])
            || (Rank(s'.callers[c]) == Rank(s.callers[c]) && s.callers[c].task.None? && s'.callers[c].task.Some?)
  {
  }

  lemma NothingHarms(c: P.CallId)
    ensures Harmless([], c)
  {
  }

  lemma OneIsHarmless(e: Event, c: P.CallId)
    requires e == Think(c) || (e.Ask? && e.call == c)
    ensures Harmless([e], c)
  {
  }
}
