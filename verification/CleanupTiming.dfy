/** The cleanup task in time, among the vault's other callers: when sweeps start, how long an expired
    record can stay, and what cancelling does. */
module CleanupTiming {
  import opened Core
  import opened Uuid
  import opened Calendar
  import opened Backend
  import opened Cleanup
  import Storage

  /** The sweep interval, the longest a sweep takes, and the longest a task that could run waits to be polled. */
  datatype Limits = Limits(period: nat, sweepTime: nat, lag: nat)

  datatype Work =
    | Waiting(since: Instant)                                              // in the select
    | Sweeping(from: Instant, sample: Option<Instant>, applied: bool)
    | Stopped

  datatype State = State(
    clock: Instant,
    host: bool,                          // the host's token is cancelled
    cancelledAt: Option<Instant>,        // when the cleanup task's own token was
    deadline: Instant,
    work: Work,
    records: Records,
    since: map<RecordId, Instant>,       // since when each record ever seen has been in the store
    last: Instant,                       // when the last sweep that is over started
    good: Instant,                       // when the last successful one did
    failures: nat,                       // sweeps failed since then
    started: nat)                        // sweeps started

  datatype Event =
    | Pass(nanos: nat)
    | Shutdown                           // the host cancels its token
    | Stop                               // someone stops the cleanup task
    | Poll                               // the select is polled
    | Sample
    | Apply
    | Finish
    | Fail
    | Add(id: RecordId, rec: StoredRecord)
    | Take(id: RecordId)

  function Max(a: int, b: int): int { if a < b then b else a }
  function Min(a: int, b: int): int { if a < b then a else b }

  /** From when on a waiting task could go on. */
  function ReadyAt(s: State): Instant
    requires s.work.Waiting?
  {
    Max(s.work.since, if s.cancelledAt.Some? then Min(s.deadline, s.cancelledAt.value) else s.deadline)
  }

  /** A task that can run is polled within the lag, and a sweep ends within the sweep time. */
  predicate Prompt(l: Limits, s: State, now: Instant) {
    match s.work
    case Waiting(_) => now <= ReadyAt(s) + l.lag
    case Sweeping(from, _, _) => now <= from + l.sweepTime
    case Stopped => true
  }

  function Cancelled(s: State): State {
    if s.cancelledAt.Some? then s else s.(cancelledAt := Some(s.clock))
  }

  /** The biased select. */
  function Select(l: Limits, s: State): Option<State>
    requires s.work.Waiting? && l.period > 0
  {
    if s.cancelledAt.Some? then Some(s.(work := Stopped))
    else if s.deadline <= s.clock then
      Some(s.(deadline := NextDeadline(s.deadline, s.clock, l.period), work := Sweeping(s.clock, None, false),
              started := s.started + 1))
    else None
  }

  function Next(l: Limits, s: State, e: Event): Option<State>
    requires l.period > 0
  {
    match e
    case Pass(nanos) =>
      if Prompt(l, s, s.clock + nanos) then Some(s.(clock := s.clock + nanos)) else None
    case Shutdown => Some(Cancelled(s).(host := true))
    case Stop => Some(Cancelled(s))
    case Poll => if s.work.Waiting? then Select(l, s) else None
    case Sample =>
      if s.work.Sweeping? && s.work.sample.None? then Some(s.(work := s.work.(sample := Some(s.clock)))) else None
    case Apply =>
      if s.work.Sweeping? && s.work.sample.Some? && !s.work.applied then
        Some(s.(records := Sweep(s.records, s.work.sample.value), work := s.work.(applied := true)))
      else None
    case Finish =>
      if s.work.Sweeping? && s.work.applied then
        Some(s.(work := Waiting(s.clock), last := s.work.from, good := s.work.from, failures := 0))
      else None
    case Fail =>
      if s.work.Sweeping? then Some(s.(work := Waiting(s.clock), last := s.work.from, failures := s.failures + 1))
      else None
    case Add(id, rec) =>
      if id in s.since then None
      else Some(s.(records := s.records[id := rec], since := s.since[id := s.clock]))
    case Take(id) => Some(s.(records := s.records - {id}))
  }

  /** The cleanup task starts over whatever records an earlier session left; its first tick is due at once. */
  function Start(clock: Instant, host: bool, records: Records): State {
    State(clock, host, if host then Some(clock) else None, clock, Waiting(clock),
          records, map id | id in records :: clock, clock, clock, 0, 0)
  }

  function Run(l: Limits, s: State, events: seq<Event>): Option<State>
    requires l.period > 0
  {
    if events == [] then Some(s)
    else
      match Run(l, s, events[..|events| - 1])
      case None => None
      case Some(before) => Next(l, before, events[|events| - 1])
  }

  // ── The invariant ─────────────────────────────────────────────────────────

  /** The instant from which a record is both expired and in the store. */
  function OverdueFrom(s: State, id: RecordId): Instant
    requires id in s.records && s.records[id].expiresAt.Some? && id in s.since
  {
    Max(s.records[id].expiresAt.value, s.since[id])
  }

  ghost predicate NoneOverdueAt(s: State, t: Instant) {
    forall id :: id in s.records && s.records[id].expiresAt.Some? ==> id in s.since && t <= OverdueFrom(s, id)
  }

  /** The longest time from one sweep's start to the next one's. */
  function Gap(l: Limits): nat {
    Max(l.period, l.sweepTime) + l.lag
  }

  ghost predicate RecordsKnown(s: State) {
    && (forall id :: id in s.records ==> id in s.since)
    && (forall id :: id in s.since ==> s.since[id] <= s.clock)
  }

  ghost predicate TokensTrue(l: Limits, s: State) {
    && (s.host ==> s.cancelledAt.Some?)
    && (s.cancelledAt.Some? ==>
          && s.cancelledAt.value <= s.clock
          && (s.work.Sweeping? ==> s.work.from <= s.cancelledAt.value)
          && (s.work.Waiting? ==> s.work.since <= s.cancelledAt.value + l.sweepTime))
  }

  ghost predicate WorkTrue(l: Limits, s: State) {
    match s.work
    case Waiting(since) =>
      && s.last <= since <= s.last + l.sweepTime && since <= s.clock <= ReadyAt(s) + l.lag
      && s.deadline <= s.last + l.period
    case Sweeping(from, sample, applied) =>
      && s.last <= from <= s.last + Gap(l) && from <= s.clock <= from + l.sweepTime
      && s.deadline <= from + l.period
      && (sample.Some? ==> from <= sample.value <= s.clock) && (applied ==> sample.Some?)
      && (applied ==> NoneOverdueAt(s, from))
    case Stopped => s.cancelledAt.Some?
  }

  /** Whatever was overdue when the last successful sweep started is gone, and since then no more than one gap
      has passed for each failed sweep. */
  ghost predicate GoodTrue(l: Limits, s: State) {
    s.good <= s.last <= s.clock && s.last <= s.good + s.failures * Gap(l) && NoneOverdueAt(s, s.good)
  }

  ghost predicate Inv(l: Limits, s: State) {
    RecordsKnown(s) && TokensTrue(l, s) && WorkTrue(l, s) && GoodTrue(l, s)
  }

  lemma StartTrue(l: Limits, clock: Instant, host: bool, records: Records)
    requires l.period > 0
    ensures Inv(l, Start(clock, host, records))
  {
  }

  lemma PollTrue(l: Limits, s: State)
    requires l.period > 0 && Inv(l, s) && Next(l, s, Poll).Some?
    ensures Inv(l, Next(l, s, Poll).value)
  {
    if s.cancelledAt.None? {
      var n := TicksStayOnTheGrid(s.deadline, s.clock, l.period);
      hide NextDeadline;
    }
  }

  lemma ApplyTrue(l: Limits, s: State)
    requires l.period > 0 && Inv(l, s) && Next(l, s, Apply).Some?
    ensures Inv(l, Next(l, s, Apply).value)
  {
  }

  lemma SweepTrue(l: Limits, s: State, e: Event)
    requires l.period > 0 && Inv(l, s) && Next(l, s, e).Some? && (e.Sample? || e.Finish? || e.Fail?)
    ensures Inv(l, Next(l, s, e).value)
  {
    hide NoneOverdueAt;
    var s' := Next(l, s, e).value;
    assert forall t :: NoneOverdueAt(s, t) == NoneOverdueAt(s', t) by { SameRecords(s, s'); }
    assert (s.failures + 1) * Gap(l) == s.failures * Gap(l) + Gap(l);
  }

  lemma SameRecords(s: State, s': State)
    requires s'.records == s.records && s'.since == s.since
    ensures forall t :: NoneOverdueAt(s, t) == NoneOverdueAt(s', t)
  {
  }

  lemma ClockTrue(l: Limits, s: State, e: Event)
    requires l.period > 0 && Inv(l, s) && Next(l, s, e).Some? && (e.Pass? || e.Shutdown? || e.Stop?)
    ensures Inv(l, Next(l, s, e).value)
  {
    hide NoneOverdueAt;
    var s' := Next(l, s, e).value;
    assert forall t :: NoneOverdueAt(s, t) == NoneOverdueAt(s', t) by { SameRecords(s, s'); }
  }

  lemma ClientTrue(l: Limits, s: State, e: Event)
    requires l.period > 0 && Inv(l, s) && Next(l, s, e).Some? && (e.Add? || e.Take?)
    ensures Inv(l, Next(l, s, e).value)
  {
    hide NoneOverdueAt;
    var s' := Next(l, s, e).value;
    assert forall t :: t <= s.clock && NoneOverdueAt(s, t) ==> NoneOverdueAt(s', t) by {
      forall t | t <= s.clock && NoneOverdueAt(s, t) ensures NoneOverdueAt(s', t) {
        ClientRecords(l, s, e, t);
      }
    }
  }

  lemma ClientRecords(l: Limits, s: State, e: Event, t: Instant)
    requires l.period > 0 && RecordsKnown(s) && Next(l, s, e).Some? && (e.Add? || e.Take?)
    requires t <= s.clock && NoneOverdueAt(s, t)
    ensures NoneOverdueAt(Next(l, s, e).value, t)
  {
  }

  lemma NextKeeps(l: Limits, s: State, e: Event)
    requires l.period > 0 && Inv(l, s) && Next(l, s, e).Some?
    ensures Inv(l, Next(l, s, e).value)
  {
    hide Inv, Next;
    match e
    case Pass(_) => ClockTrue(l, s, e);
    case Shutdown => ClockTrue(l, s, e);
    case Stop => ClockTrue(l, s, e);
    case Poll => PollTrue(l, s);
    case Apply => ApplyTrue(l, s);
    case Sample => SweepTrue(l, s, e);
    case Finish => SweepTrue(l, s, e);
    case Fail => SweepTrue(l, s, e);
    case Add(_, _) => ClientTrue(l, s, e);
    case Take(_) => ClientTrue(l, s, e);
  }

  ghost predicate Reachable(l: Limits, s: State)
    requires l.period > 0
  {
    exists clock, host, records, events :: Run(l, Start(clock, host, records), events) == Some(s)
  }

  lemma {:induction false} RunKeeps(l: Limits, clock: Instant, host: bool, records: Records, events: seq<Event>)
    requires l.period > 0 && Run(l, Start(clock, host, records), events).Some?
    ensures Inv(l, Run(l, Start(clock, host, records), events).value)
  {
    hide Inv, Next;
    if events == [] {
      StartTrue(l, clock, host, records);
    } else {
      var init := events[..|events| - 1];
      RunKeeps(l, clock, host, records, init);
      NextKeeps(l, Run(l, Start(clock, host, records), init).value, events[|events| - 1]);
    }
  }

  lemma ReachableTrue(l: Limits, s: State)
    requires l.period > 0 && Reachable(l, s)
    ensures Inv(l, s)
  {
    hide Inv, Run;
    var clock, host, records, events :| Run(l, Start(clock, host, records), events) == Some(s);
    RunKeeps(l, clock, host, records, events);
  }

  // ── The loop, and time, go on ─────────────────────────────────────────────

  /** These turns of the loop are the polls that started the sweeps so far, and each did start one. */
  ghost predicate FollowsTheLoop(l: Limits, clock: Instant, host: bool, s: State, turns: seq<Turn>)
    requires l.period > 0
  {
    && Taken(turns, host, clock, l.period) == turns && |turns| == s.started && Undisturbed(turns, |turns|)
    && (s.cancelledAt.None? ==> !host && s.deadline == DueAfter(turns, clock, l.period))
    && (forall i :: 0 <= i < |turns| ==> turns[i].at <= s.clock)
    && (s.work.Sweeping? ==> turns != [] && turns[|turns| - 1].at == s.work.from)
  }

  lemma PollFollows(l: Limits, clock: Instant, host: bool, s: State, turns: seq<Turn>) returns (more: seq<Turn>)
    requires l.period > 0 && FollowsTheLoop(l, clock, host, s, turns) && Next(l, s, Poll).Some?
    ensures FollowsTheLoop(l, clock, host, Next(l, s, Poll).value, more)
  {
    hide NextDeadline, DueAfter, Taken;
    if s.cancelledAt.Some? {
      more := turns;
    } else {
      var turn := Turn(false, false, s.clock, s.clock, Storage.NO_FAULTS);
      OneMoreTurn(turns, turn, clock, l.period);
      more := turns + [turn];
    }
  }

  lemma OtherEventsFollow(l: Limits, clock: Instant, host: bool, s: State, e: Event, turns: seq<Turn>)
    requires l.period > 0 && FollowsTheLoop(l, clock, host, s, turns) && Next(l, s, e).Some? && !e.Poll?
    ensures FollowsTheLoop(l, clock, host, Next(l, s, e).value, turns)
  {
    hide DueAfter, Taken, Sweep, Prompt, Undisturbed, Select;
  }

  lemma StartFollows(l: Limits, clock: Instant, host: bool, records: Records)
    requires l.period > 0
    ensures FollowsTheLoop(l, clock, host, Start(clock, host, records), [])
  {
  }

  /** The sweeps of every run are sweeps of the loop polled when the cleanup task was. */
  lemma {:induction false} SweepsAreTheLoops(l: Limits, clock: Instant, host: bool, records: Records, events: seq<Event>)
    returns (turns: seq<Turn>)
    requires l.period > 0 && Run(l, Start(clock, host, records), events).Some?
    ensures FollowsTheLoop(l, clock, host, Run(l, Start(clock, host, records), events).value, turns)
  {
    hide Next, FollowsTheLoop, Start;
    if events == [] {
      turns := [];
      StartFollows(l, clock, host, records);
    } else {
      var (init, e) := (events[..|events| - 1], events[|events| - 1]);
      var before := Run(l, Start(clock, host, records), init).value;
      turns := SweepsAreTheLoops(l, clock, host, records, init);
      if e.Poll? {
        turns := PollFollows(l, clock, host, before, turns);
      } else {
        OtherEventsFollow(l, clock, host, before, e, turns);
      }
    }
  }

  /** The limits never stop the clock: as long as it may not go on, the cleanup task can take its next step. */
  lemma TimeIsNeverStuck(l: Limits, s: State)
    requires l.period > 0 && Reachable(l, s)
    ensures Next(l, s, Pass(1)).Some? || exists e :: e in {Poll, Sample, Apply, Finish} && Next(l, s, e).Some?
  {
    ReachableTrue(l, s);
    hide Reachable, Sweep, NextDeadline;
    if Next(l, s, Pass(1)).None? {
      var e := OwnStep(s.work);
      assert Next(l, s, e).Some? && e in {Poll, Sample, Apply, Finish};
    }
  }

  // ── What follows ──────────────────────────────────────────────────────────

  /** While the cleanup task runs, no record stays longer beyond the moment it is expired and in the store than one
      gap between sweeps, one more for each sweep that has failed since the last success, and one sweep.  So with
      no failure since, a record stored before its expiry is gone by the expiry plus the interval plus two sweeps
      plus the lag. */
  lemma ExpiredRecordsGo(l: Limits, s: State, id: RecordId)
    requires l.period > 0 && Reachable(l, s) && !s.work.Stopped?
    requires id in s.records && s.records[id].expiresAt.Some?
    ensures id in s.since && s.clock <= OverdueFrom(s, id) + (s.failures + 1) * Gap(l) + l.sweepTime
    ensures s.failures == 0 && s.since[id] <= s.records[id].expiresAt.value ==>
              s.clock <= s.records[id].expiresAt.value + l.period + 2 * l.sweepTime + l.lag
  {
    ReachableTrue(l, s);
    hide Reachable;
    assert (s.failures + 1) * Gap(l) == s.failures * Gap(l) + Gap(l);
  }

  /** A record is there at most from one success to the next: what was overdue when a successful sweep started is
      gone once it is over, however many failed before. */
  lemma SuccessClears(l: Limits, s: State, id: RecordId)
    requires l.period > 0 && Reachable(l, s) && id in s.records && s.records[id].expiresAt.Some?
    ensures id in s.since && s.good <= OverdueFrom(s, id)
    ensures s.last <= s.good + s.failures * Gap(l)
  {
    ReachableTrue(l, s);
    hide Reachable;
  }

  /** A cancelled task has stopped after at most one sweep time and the lag. */
  lemma CancelledTaskStops(l: Limits, s: State)
    requires l.period > 0 && Reachable(l, s) && s.cancelledAt.Some?
    requires s.clock > s.cancelledAt.value + l.sweepTime + l.lag
    ensures s.work.Stopped?
  {
    ReachableTrue(l, s);
    hide Reachable;
  }

  /** Once cancelled, by whoever, the cleanup task starts no further sweep; the one in progress may complete. */
  lemma {:induction false} NoSweepOnceCancelled(l: Limits, s: State, events: seq<Event>)
    requires l.period > 0 && s.cancelledAt.Some? && Run(l, s, events).Some?
    ensures var s' := Run(l, s, events).value;
            && s'.started == s.started && s'.cancelledAt == s.cancelledAt
            && (!s.work.Sweeping? ==> !s'.work.Sweeping?)
            && (s.work.Sweeping? && s'.work.Sweeping? ==> s'.work.from == s.work.from)
            && (s.work.Stopped? ==> s'.work.Stopped?)
  {
    if events != [] {
      NoSweepOnceCancelled(l, s, events[..|events| - 1]);
    }
  }

  /** Cancelling the host's token cancels the cleanup task's; stopping that leaves the host's token alone. */
  lemma {:induction false} StopSparesTheHost(l: Limits, s: State, events: seq<Event>)
    requires l.period > 0 && Run(l, s, events).Some? && Shutdown !in events
    ensures Run(l, s, events).value.host == s.host
  {
    if events != [] {
      var init := events[..|events| - 1];
      assert forall e :: e in init ==> e in events;
      StopSparesTheHost(l, s, init);
      assert events[|events| - 1] != Shutdown;
    }
  }

  lemma ShutdownReachesTheTask(l: Limits, s: State)
    requires l.period > 0 && Reachable(l, s) && s.host
    ensures s.cancelledAt.Some?
  {
    ReachableTrue(l, s);
    hide Reachable;
  }

  lemma RunOn(l: Limits, s: State, events: seq<Event>, e: Event)
    requires l.period > 0 && Run(l, s, events).Some? && Next(l, Run(l, s, events).value, e).Some?
    ensures Run(l, s, events + [e]) == Next(l, Run(l, s, events).value, e)
  {
    hide Next;
    assert (events + [e])[..|events|] == events;
  }

  /** How far a task is from having stopped, in its own steps. */
  function StepsToStop(work: Work): nat {
    match work
    case Stopped => 0
    case Waiting(_) => 1
    case Sweeping(_, sample, applied) => if applied then 2 else if sample.Some? then 3 else 4
  }

  /** The step it takes next. */
  function OwnStep(work: Work): Event {
    match work
    case Sweeping(_, sample, applied) => if applied then Finish else if sample.Some? then Apply else Sample
    case _ => Poll
  }

  lemma OwnStepHelps(l: Limits, s: State)
    requires l.period > 0 && s.cancelledAt.Some? && !s.work.Stopped?
    requires s.work.Sweeping? && s.work.applied ==> s.work.sample.Some?
    ensures var next := Next(l, s, OwnStep(s.work));
            && next.Some? && next.value.cancelledAt.Some? && StepsToStop(next.value.work) < StepsToStop(s.work)
            && (next.value.work.Sweeping? && next.value.work.applied ==> next.value.work.sample.Some?)
  {
    hide Sweep;
  }

  lemma {:induction false} StepsOn(l: Limits, s: State, events: seq<Event>) returns (all: seq<Event>)
    requires l.period > 0 && Run(l, s, events).Some?
    requires var now := Run(l, s, events).value;
             now.cancelledAt.Some? && (now.work.Sweeping? && now.work.applied ==> now.work.sample.Some?)
    ensures Run(l, s, all).Some? && Run(l, s, all).value.work.Stopped?
    ensures |all| <= |events| + StepsToStop(Run(l, s, events).value.work)
    ensures forall e :: e in all ==> e in events || e in {Sample, Apply, Finish, Poll}
    decreases StepsToStop(Run(l, s, events).value.work)
  {
    hide Run, Next;
    var now := Run(l, s, events).value;
    if now.work.Stopped? {
      return events;
    }
    OwnStepHelps(l, now);
    RunOn(l, s, events, OwnStep(now.work));
    all := StepsOn(l, s, events + [OwnStep(now.work)]);
  }

  /** A cancelled task can always stop by its own steps: what is left of the sweep in progress, and one poll. */
  lemma StopResolves(l: Limits, s: State) returns (events: seq<Event>)
    requires l.period > 0 && Reachable(l, s) && s.cancelledAt.Some?
    ensures Run(l, s, events).Some? && Run(l, s, events).value.work.Stopped?
    ensures |events| <= 4 && forall e :: e in events ==> e in {Sample, Apply, Finish, Poll}
  {
    ReachableTrue(l, s);
    assert Run(l, s, []) == Some(s);
    hide Reachable, Run;
    events := StepsOn(l, s, []);
  }

  /** The host's shutdown brings the cleanup task to its end. */
  lemma ShutdownEndsTheTask(l: Limits, s: State) returns (events: seq<Event>)
    requires l.period > 0 && Reachable(l, s) && s.host
    ensures Run(l, s, events).Some? && Run(l, s, events).value.work.Stopped?
    ensures |events| <= 4 && forall e :: e in events ==> e in {Sample, Apply, Finish, Poll}
  {
    hide Reachable, Run;
    ShutdownReachesTheTask(l, s);
    events := StopResolves(l, s);
  }

  /** Stopping the cleanup task brings it to its end just so, and the host's token stays as it was. */
  lemma StopEndsTheTaskAlone(l: Limits, s: State) returns (events: seq<Event>)
    requires l.period > 0 && Reachable(l, s)
    ensures Run(l, s, events).Some? && Run(l, s, events).value.work.Stopped?
    ensures Run(l, s, events).value.host == s.host
    ensures |events| <= 5 && forall e :: e in events ==> e in {Stop, Sample, Apply, Finish, Poll}
  {
    ReachableTrue(l, s);
    NextKeeps(l, s, Stop);
    assert Run(l, s, []) == Some(s);
    hide Reachable, Run;
    RunOn(l, s, [], Stop);
    assert [] + [Stop] == [Stop];
    events := StepsOn(l, s, [Stop]);
    assert Shutdown !in events;
    StopSparesTheHost(l, s, events);
  }
}
