/** The background sweep: cancellation tokens, the ticker that skips missed ticks, and the loop. */
module Cleanup {
  import opened Calendar
  import opened Backend
  import opened Storage
  import opened Vault

  // ── Cancellation ──────────────────────────────────────────────────────────

  /** A token is cancelled when it or its parent has been. */
  class CancellationToken {
    var signalled: bool
    const parent: CancellationToken?

    constructor (parent: CancellationToken?)
      ensures this.parent == parent && !signalled
    {
      this.parent := parent;
      signalled := false;
    }

    ghost function Repr(): set<object> {
      if parent == null then {this} else {this, parent}
    }

    /** Of a host's token or a child of one; deeper trees do not occur. */
    predicate IsCancelled()
      reads Repr()
    {
      signalled || (parent != null && parent.signalled)
    }

    method Cancel()
      modifies this
      ensures signalled && IsCancelled()
      ensures parent != null && parent != this ==> parent.signalled == old(parent.signalled)
    {
      signalled := true;
    }

    method ChildToken() returns (child: CancellationToken)
      ensures fresh(child) && child.parent == this && !child.signalled
      ensures child.IsCancelled() == signalled
    {
      child := new CancellationToken(this);
    }
  }

  // ── The ticker ────────────────────────────────────────────────────────────

  /** A tick this late, or less, counts as on time: five milliseconds. */
  const TICK_SLACK := 5_000_000

  /** When the tick after one due at `deadline` and taken at `now` is due. */
  function NextDeadline(deadline: Instant, now: Instant, period: nat): Instant
    requires period > 0
  {
    if now > deadline + TICK_SLACK then now + period - (now - deadline) % period else deadline + period
  }

  /** Ticks stay on the grid the first one set and never come due more than a period ahead; a tick that was
      missed gives the first grid point still to come, so missed ticks are dropped, not made up for. */
  lemma TicksStayOnTheGrid(deadline: Instant, now: Instant, period: nat) returns (n: nat)
    requires period > 0 && deadline <= now
    ensures var next := NextDeadline(deadline, now, period);
            && n > 0 && next == deadline + n * period && next <= now + period
            && (now > deadline + 5_000_000 || period > 5_000_000 ==>
                  now < next && forall k: int :: now < deadline + k * period ==> next <= deadline + k * period)
  {
    var late := now - deadline;
    var q := late / period;
    assert late == q * period + late % period;
    n := if late > TICK_SLACK then q + 1 else 1;
    assert (q + 1) * period == q * period + period;
    if late > TICK_SLACK || period > TICK_SLACK {
      if late <= TICK_SLACK {
        Small(late, period);
      }
      forall k: int | now < deadline + k * period ensures (q + 1) * period <= k * period {
        FirstAfter(late, q, k, period);
      }
    }
  }

  lemma Small(late: nat, period: nat)
    requires late < period
    ensures late / period == 0 && late % period == late
  {
  }

  lemma Multiples(a: int, b: int, period: nat)
    requires a <= b
    ensures a * period <= b * period
  {
    assert b * period == a * period + (b - a) * period;
  }

  lemma FirstAfter(late: int, q: int, k: int, period: nat)
    requires q * period <= late < k * period && period > 0
    ensures (q + 1) * period <= k * period
  {
    if k <= q {
      Multiples(k, q, period);
      assert false;
    }
    Multiples(q + 1, k, period);
  }

  class Ticker {
    const period: nat
    var deadline: Instant

    /** The first tick is due at once. */
    constructor (now: Instant, period: nat)
      requires period > 0
      ensures this.period == period && deadline == now
    {
      this.period := period;
      deadline := now;
    }

    method Tick(now: Instant)
      requires period > 0 && deadline <= now
      modifies this
      ensures deadline == NextDeadline(old(deadline), now, period)
    {
      deadline := NextDeadline(deadline, now, period);
    }
  }

  // ── The loop ──────────────────────────────────────────────────────────────

  /** One wait of the loop: what is cancelled meanwhile, when the select is polled next, and, if a sweep
      starts then, the clock it samples and what happens to it. */
  datatype Turn = Turn(shutdown: bool, stop: bool, at: Instant, sample: Instant, faults: Faults)

  /** The turns that start a sweep.  The select is biased: cancellation wins over a tick that is due. */
  function Taken(turns: seq<Turn>, cancelled: bool, deadline: Instant, period: nat): seq<Turn>
    requires period > 0
  {
    if turns == [] || cancelled || turns[0].shutdown || turns[0].stop then []
    else if turns[0].at < deadline then Taken(turns[1..], false, deadline, period)
    else [turns[0]] + Taken(turns[1..], false, NextDeadline(deadline, turns[0].at, period), period)
  }

  /** Neither token is cancelled in the first `n` turns. */
  ghost predicate Undisturbed(turns: seq<Turn>, n: nat) {
    forall i :: 0 <= i < n && i < |turns| ==> !turns[i].shutdown && !turns[i].stop
  }

  /** No record is due at `t`. */
  ghost predicate NoneDueAt(m: Records, t: Instant) {
    forall id :: id in m && m[id].expiresAt.Some? ==> t < m[id].expiresAt.value
  }

  /** Whatever was due less than a period before any turn past the first tick, that no cancelling came before, is
      gone. */
  ghost predicate KeepsUp(held: Records, turns: seq<Turn>, deadline: Instant, period: nat) {
    forall i :: 0 <= i < |turns| && Undisturbed(turns, i + 1) && deadline <= turns[i].at ==>
      exists q :: 0 <= q <= i && turns[i].at < turns[q].at + period && NoneDueAt(held, turns[q].sample)
  }

  function SweepsOf(turns: seq<Turn>): (ops: seq<Op>)
    ensures |ops| == |turns|
  {
    if turns == [] then [] else SweepsOf(turns[..|turns| - 1]) + [Op.DeleteExpired(turns[|turns| - 1].sample)]
  }

  /** Whatever faults there were: the sweeps lost and changed nothing but records due at one of their samples, and
      what was due at the sample of a sweep without a fault is gone. */
  ghost predicate Accounted(backend: AnyBackend, before: Records, after: Records, taken: seq<Turn>) {
    && (forall id :: id in after ==> id in before && after[id] == before[id])
    && (forall id :: id in before && id !in after ==> DueAtSome(before[id], taken))
    && (forall j, id :: 0 <= j < |taken| && backend.Sound(taken[j].faults) && id in after ==>
          !Sweepable(after[id], taken[j].sample))
  }

  ghost predicate DueAtSome(rec: StoredRecord, taken: seq<Turn>) {
    exists j :: 0 <= j < |taken| && Sweepable(rec, taken[j].sample)
  }

  lemma NothingToAccount(backend: AnyBackend, m: Records)
    ensures Accounted(backend, m, m, [])
  {
  }

  lemma OneMoreDue(rec: StoredRecord, taken: seq<Turn>, turn: Turn)
    ensures DueAtSome(rec, taken + [turn]) <==> DueAtSome(rec, taken) || Sweepable(rec, turn.sample)
  {
    hide Sweepable;
    var all := taken + [turn];
    assert all[|taken|] == turn && forall j :: 0 <= j < |taken| ==> all[j] == taken[j];
  }

  lemma OneMoreAccounted(backend: AnyBackend, before: Records, held: Records, after: Records, taken: seq<Turn>, turn: Turn)
    requires Accounted(backend, before, held, taken)
    requires after == held || after == After(held, Op.DeleteExpired(turn.sample))
    requires backend.Sound(turn.faults) ==> after == After(held, Op.DeleteExpired(turn.sample))
    ensures Accounted(backend, before, after, taken + [turn])
  {
    hide Sweepable, AnyBackend.Sound, DueAtSome;
    forall id | id in before && id !in after ensures DueAtSome(before[id], taken + [turn]) {
      OneMoreDue(before[id], taken, turn);
    }
  }

  class CleanupTask {
    const host: CancellationToken
    const cancel: CancellationToken
    const ticker: Ticker

    ghost predicate Valid() {
      host.parent == null && cancel.parent == host && cancel != host && ticker.period > 0
    }

    /** The cleanup task gets a child of the host's token. */
    constructor (host: CancellationToken, now: Instant, interval: nat)
      requires interval > 0 && host.parent == null
      ensures Valid() && this.host == host && fresh(cancel) && fresh(ticker)
      ensures cancel.IsCancelled() == host.signalled
      ensures ticker.period == interval && ticker.deadline == now
    {
      var child := host.ChildToken();
      var t := new Ticker(now, interval);
      this.host, this.cancel, this.ticker := host, child, t;
    }

    method Stop()
      requires Valid()
      modifies cancel
      ensures cancel.IsCancelled() && host.signalled == old(host.signalled)
    {
      cancel.Cancel();
    }

    /** One turn of the loop: `going` when it goes on, `swept` when it started a sweep.  It ends when either token
        has been cancelled, or when the process dies in the sweep. */
    method Take(vault: StandardVault, turn: Turn) returns (going: bool, swept: bool)
      requires Valid() && vault.storage.Valid() && InRange(turn.sample)
      modifies host, cancel, ticker, vault.storage.Repr()
      ensures vault.storage.Valid()
      ensures cancel.IsCancelled() == (old(cancel.IsCancelled()) || turn.shutdown || turn.stop)
      ensures !turn.shutdown ==> host.signalled == old(host.signalled)
      ensures swept == (!cancel.IsCancelled() && old(ticker.deadline) <= turn.at)
      ensures going ==> !cancel.IsCancelled()
      ensures !going && !cancel.IsCancelled() ==> swept && !vault.storage.Sound(turn.faults)
      ensures ticker.deadline ==
                if swept then NextDeadline(old(ticker.deadline), turn.at, ticker.period) else old(ticker.deadline)
      ensures || vault.storage.Held() == old(vault.storage.Held())
              || (swept && vault.storage.Held() == After(old(vault.storage.Held()), Op.DeleteExpired(turn.sample)))
      ensures vault.storage.Sound(turn.faults) && swept ==>
                vault.storage.Held() == After(old(vault.storage.Held()), Op.DeleteExpired(turn.sample))
    {
      hide Sweep, Victims, InRange, AnyBackend.Valid, AnyBackend.Held, AllStorable;
      if turn.shutdown { host.Cancel(); }
      if turn.stop { cancel.Cancel(); }
      if cancel.IsCancelled() { return false, false; }
      if turn.at < ticker.deadline { return true, false; }
      ticker.Tick(turn.at);
      var ending := vault.CleanUp(turn.sample, turn.faults);
      return ending.Some?, true;
    }

    /** Sweeps until cancelled, or until the process dies in a sweep.  The host's token is cancelled only by the
        host. */
    method Sweeps(vault: StandardVault, turns: seq<Turn>) returns (taken: seq<Turn>, died: bool)
      requires Valid() && vault.storage.Valid()
      requires forall i :: 0 <= i < |turns| ==> InRange(turns[i].sample)
      modifies host, cancel, ticker, vault.storage.Repr()
      ensures vault.storage.Valid()
      ensures taken <= Taken(turns, old(cancel.IsCancelled()), old(ticker.deadline), ticker.period)
      ensures !died ==> taken == Taken(turns, old(cancel.IsCancelled()), old(ticker.deadline), ticker.period)
      ensures died ==> taken != [] && !vault.storage.Sound(taken[|taken| - 1].faults)
      ensures (forall i :: 0 <= i < |turns| ==> !turns[i].shutdown) ==> host.signalled == old(host.signalled)
      ensures (forall i :: 0 <= i < |turns| ==> vault.storage.Sound(turns[i].faults)) ==>
                vault.storage.Held() == AfterAll(old(vault.storage.Held()), SweepsOf(taken))
      ensures Accounted(vault.storage, old(vault.storage.Held()), vault.storage.Held(), taken)
      ensures (forall i :: 0 <= i < |turns| ==> vault.storage.Sound(turns[i].faults)) ==>
                !died && (!old(cancel.IsCancelled()) ==>
                            KeepsUp(vault.storage.Held(), turns, old(ticker.deadline), ticker.period))
    {
      hide KeepsUp, Accounted, After, AfterAll, SweepsOf, InRange, AnyBackend.Valid, AnyBackend.Held, AnyBackend.Sound;
      ghost var (cancelled, deadline, before) := (cancel.IsCancelled(), ticker.deadline, vault.storage.Held());
      taken := [];
      NoSweeps(before);
      NothingToAccount(vault.storage, before);
      died := false;
      for i := 0 to |turns|
        invariant vault.storage.Valid() && !died
        invariant taken + Taken(turns[i..], cancel.IsCancelled(), ticker.deadline, ticker.period)
                  == Taken(turns, cancelled, deadline, ticker.period)
        invariant (forall j :: 0 <= j < |turns| ==> !turns[j].shutdown) ==> host.signalled == old(host.signalled)
        invariant (forall j :: 0 <= j < |turns| ==> vault.storage.Sound(turns[j].faults)) ==>
                    vault.storage.Held() == AfterAll(before, SweepsOf(taken))
        invariant Accounted(vault.storage, before, vault.storage.Held(), taken)
      {
        ghost var held := vault.storage.Held();
        assert turns[i..][1..] == turns[i + 1..] && turns[i..][0] == turns[i];
        var going, swept := Take(vault, turns[i]);
        if swept {
          OneMoreSweep(before, taken, turns[i]);
          OneMoreAccounted(vault.storage, before, held, vault.storage.Held(), taken, turns[i]);
          taken := taken + [turns[i]];
        }
        if !going {
          died := swept;
          break;
        }
      }
      if !died && !cancelled && forall i :: 0 <= i < |turns| ==> vault.storage.Sound(turns[i].faults) {
        assert taken == Taken(turns, false, deadline, ticker.period);
        SoundSweepsKeepUp(vault.storage, before, vault.storage.Held(), turns, deadline, ticker.period);
      }
    }
  }

  lemma SoundSweepsKeepUp(backend: AnyBackend, before: Records, after: Records, turns: seq<Turn>, deadline: Instant, period: nat)
    requires period > 0 && Accounted(backend, before, after, Taken(turns, false, deadline, period))
    requires forall i :: 0 <= i < |turns| ==> backend.Sound(turns[i].faults)
    ensures KeepsUp(after, turns, deadline, period)
  {
    hide AnyBackend.Sound, DueAtSome, Taken;
    forall i | 0 <= i < |turns| && Undisturbed(turns, i + 1) && deadline <= turns[i].at
      ensures exists q :: 0 <= q <= i && turns[i].at < turns[q].at + period && NoneDueAt(after, turns[q].sample)
    {
      var q, j := SweepsKeepComing(turns, deadline, period, i);
      assert NoneDueAt(after, turns[q].sample);
    }
  }

  lemma NoSweeps(m: Records)
    ensures AfterAll(m, SweepsOf([])) == m
  {
  }

  lemma OneMoreSweep(m: Records, taken: seq<Turn>, turn: Turn)
    ensures AfterAll(m, SweepsOf(taken + [turn])) == After(AfterAll(m, SweepsOf(taken)), Op.DeleteExpired(turn.sample))
  {
    hide After;
    assert (taken + [turn])[..|taken|] == taken;
    var ops := SweepsOf(taken + [turn]);
    assert ops[..|ops| - 1] == SweepsOf(taken);
  }

  // ── What the loop does ────────────────────────────────────────────────────

  /** From the turn in which either token is cancelled, no sweep starts. */
  lemma {:induction false} NoSweepAfterCancel(turns: seq<Turn>, j: nat, cancelled: bool, deadline: Instant, period: nat)
    requires period > 0 && j < |turns| && (turns[j].shutdown || turns[j].stop)
    ensures Taken(turns, cancelled, deadline, period) == Taken(turns[..j], cancelled, deadline, period)
  {
    if cancelled || j == 0 || turns[0].shutdown || turns[0].stop {
    } else {
      assert turns[..j][0] == turns[0] && turns[..j][1..] == turns[1..][..j - 1];
      var next := if turns[0].at < deadline then deadline else NextDeadline(deadline, turns[0].at, period);
      NoSweepAfterCancel(turns[1..], j - 1, false, next, period);
    }
  }

  /** Sweeps come one at a time: each waits for the tick its predecessor left, so with a period longer than
      the slack no two fall into the same grid interval, however late the loop runs. */
  lemma {:induction false} SweepsNeverPileUp(turns: seq<Turn>, cancelled: bool, deadline: Instant, period: nat, j: nat)
    requires period > 5_000_000 && j + 1 < |Taken(turns, cancelled, deadline, period)|
    ensures var taken := Taken(turns, cancelled, deadline, period);
            exists k: int :: taken[j].at < deadline + k * period <= taken[j + 1].at
    decreases |turns|
  {
    var taken := Taken(turns, cancelled, deadline, period);
    if turns[0].at < deadline {
      SweepsNeverPileUp(turns[1..], false, deadline, period, j);
    } else {
      var next := NextDeadline(deadline, turns[0].at, period);
      var n := TicksStayOnTheGrid(deadline, turns[0].at, period);
      if j == 0 {
        FirstTaken(turns[1..], false, next, period);
        assert taken[0].at < deadline + n * period <= taken[1].at;
      } else {
        SweepsNeverPileUp(turns[1..], false, next, period, j - 1);
        var k: int :| taken[j].at < next + k * period <= taken[j + 1].at;
        assert (n + k) * period == n * period + k * period;
        assert taken[j].at < deadline + (n + k) * period <= taken[j + 1].at;
      }
    }
  }

  /** Whatever the period, no more sweeps start than ticks come due: the sweep after `j` others starts no earlier
      than `j` periods after the first tick. */
  lemma {:induction false} SweepsKeepPace(turns: seq<Turn>, cancelled: bool, deadline: Instant, period: nat, j: nat)
    requires period > 0 && j < |Taken(turns, cancelled, deadline, period)|
    ensures deadline + j * period <= Taken(turns, cancelled, deadline, period)[j].at
    decreases |turns|
  {
    if turns[0].at < deadline {
      SweepsKeepPace(turns[1..], false, deadline, period, j);
    } else if j > 0 {
      var next := NextDeadline(deadline, turns[0].at, period);
      var n := TicksStayOnTheGrid(deadline, turns[0].at, period);
      SweepsKeepPace(turns[1..], false, next, period, j - 1);
      Multiples(1, n, period);
      assert j * period == (j - 1) * period + period;
    }
  }

  lemma UndisturbedAfter(turns: seq<Turn>, n: nat)
    requires turns != [] && Undisturbed(turns, n + 1)
    ensures !turns[0].shutdown && !turns[0].stop && Undisturbed(turns[1..], n)
  {
  }

  /** Turn `at` is due: it is the first one at or past the first tick, or a point of the grid has passed since the
      last of the sweeps `before` it. */
  ghost predicate Due(before: seq<Turn>, at: Instant, deadline: Instant, period: nat) {
    if before == [] then deadline <= at else exists k: int :: before[|before| - 1].at < deadline + k * period <= at
  }

  /** Until somebody cancels, a turn starts a sweep exactly when it is due. */
  lemma {:induction false} SweptExactlyWhenDue(turns: seq<Turn>, deadline: Instant, period: nat, i: nat)
    requires period > 5_000_000 && i < |turns| && Undisturbed(turns, i + 1)
    ensures var before := Taken(turns[..i], false, deadline, period);
            Taken(turns[..i + 1], false, deadline, period)
            == if Due(before, turns[i].at, deadline, period) then before + [turns[i]] else before
  {
    var rest := turns[1..];
    UndisturbedAfter(turns, i);
    assert turns[..i + 1][0] == turns[0] && turns[..i + 1][1..] == rest[..i];
    if i == 0 {
      NoTurns(rest[..0], deadline, period);
    } else {
      assert turns[..i][0] == turns[0] && turns[..i][1..] == rest[..i - 1];
      if turns[0].at < deadline {
        SweptExactlyWhenDue(rest, deadline, period, i - 1);
      } else {
        var next := NextDeadline(deadline, turns[0].at, period);
        SweptExactlyWhenDue(rest, next, period, i - 1);
        DueSinceTheFirst(Taken(rest[..i - 1], false, next, period), turns[0], turns[i].at, deadline, period);
      }
    }
  }

  lemma NoTurns(turns: seq<Turn>, deadline: Instant, period: nat)
    requires turns == [] && period > 0
    ensures forall d :: Taken(turns, false, d, period) == []
  {
  }

  lemma DueSinceTheFirst(more: seq<Turn>, first: Turn, at: Instant, deadline: Instant, period: nat)
    requires period > 5_000_000 && deadline <= first.at
    ensures Due([first] + more, at, deadline, period) <==> Due(more, at, NextDeadline(deadline, first.at, period), period)
  {
    var next := NextDeadline(deadline, first.at, period);
    var n := TicksStayOnTheGrid(deadline, first.at, period);
    hide NextDeadline;
    var last := ([first] + more)[|more|].at;
    forall k: int ensures next + k * period == deadline + (n + k) * period {
      assert (n + k) * period == n * period + k * period;
    }
    if more != [] && Due([first] + more, at, deadline, period) {
      var k: int :| last < deadline + k * period <= at;
      assert next + (k - n) * period == deadline + (n + (k - n)) * period;
    }
    if more != [] && Due(more, at, next, period) {
      var k: int :| last < next + k * period <= at;
      assert last < deadline + (n + k) * period <= at;
    }
  }

  /** When the tick after these turns is due, if nobody cancels. */
  function DueAfter(turns: seq<Turn>, deadline: Instant, period: nat): Instant
    requires period > 0
  {
    if turns == [] then deadline
    else DueAfter(turns[1..], if turns[0].at < deadline then deadline else NextDeadline(deadline, turns[0].at, period), period)
  }

  /** One more turn starts a sweep if the tick after the others is due. */
  lemma {:induction false} OneMoreTurn(turns: seq<Turn>, turn: Turn, deadline: Instant, period: nat)
    requires period > 0 && Undisturbed(turns, |turns|) && !turn.shutdown && !turn.stop
    ensures var due := DueAfter(turns, deadline, period);
            && Taken(turns + [turn], false, deadline, period)
               == Taken(turns, false, deadline, period) + (if due <= turn.at then [turn] else [])
            && DueAfter(turns + [turn], deadline, period)
               == if due <= turn.at then NextDeadline(due, turn.at, period) else due
  {
    var all := turns + [turn];
    if turns == [] {
      assert all == [turn] && all[1..] == [];
    } else {
      assert all[0] == turns[0] && all[1..] == turns[1..] + [turn];
      UndisturbedAfter(turns, |turns| - 1);
      OneMoreTurn(turns[1..], turn, if turns[0].at < deadline then deadline else NextDeadline(deadline, turns[0].at, period),
                  period);
    }
  }

  /** Until somebody cancels, no turn at or past the first tick comes a whole period after the last sweep to start:
      turn `q`, which started sweep `j`, is no later than turn `i` and less than a period earlier. */
  lemma {:induction false} SweepsKeepComing(turns: seq<Turn>, deadline: Instant, period: nat, i: nat)
    returns (q: nat, j: nat)
    requires period > 0 && i < |turns| && Undisturbed(turns, i + 1) && deadline <= turns[i].at
    ensures q <= i && turns[i].at < turns[q].at + period
    ensures j < |Taken(turns, false, deadline, period)| && Taken(turns, false, deadline, period)[j] == turns[q]
  {
    UndisturbedAfter(turns, i);
    if turns[0].at < deadline {
      q, j := SweepsKeepComing(turns[1..], deadline, period, i - 1);
      q := q + 1;
    } else {
      var next := NextDeadline(deadline, turns[0].at, period);
      var n := TicksStayOnTheGrid(deadline, turns[0].at, period);
      if i > 0 && next <= turns[i].at {
        q, j := SweepsKeepComing(turns[1..], next, period, i - 1);
        q, j := q + 1, j + 1;
      } else {
        q, j := 0, 0;
      }
    }
  }

  /** With a period no longer than the slack, two sweeps can follow each other at once: a tick taken a whole period
      late still counts as on time, and the next one is due already. */
  lemma ShortPeriodsPileUp(deadline: Instant, period: nat) returns (turns: seq<Turn>)
    requires 0 < period <= 5_000_000
    ensures var taken := Taken(turns, false, deadline, period); |taken| == 2 && taken[0].at == taken[1].at
  {
    var late := Turn(false, false, deadline + period, deadline + period, NO_FAULTS);
    turns := [late, late];
    assert turns[1..] == [late] && turns[1..][1..] == [];
    assert Taken([], false, deadline + period + period, period) == [];
    assert Taken([late], false, deadline + period, period) == [late] + Taken([], false, deadline + period + period, period);
    assert Taken(turns, false, deadline, period) == [late] + Taken([late], false, deadline + period, period);
  }

  lemma {:induction false} FirstTaken(turns: seq<Turn>, cancelled: bool, deadline: Instant, period: nat)
    requires period > 0 && |Taken(turns, cancelled, deadline, period)| > 0
    ensures deadline <= Taken(turns, cancelled, deadline, period)[0].at
  {
    if turns[0].at < deadline {
      FirstTaken(turns[1..], false, deadline, period);
    }
  }

  /** With clock samples in order, all the sweeps together leave what the last one would have left alone. */
  lemma {:induction false} SweepsAreTheLastOne(m: Records, taken: seq<Turn>)
    requires |taken| > 0 && forall i, j :: 0 <= i <= j < |taken| ==> taken[i].sample <= taken[j].sample
    ensures AfterAll(m, SweepsOf(taken)) == Sweep(m, taken[|taken| - 1].sample)
  {
    hide Sweep, Victims;
    var (init, last) := (taken[..|taken| - 1], taken[|taken| - 1]);
    assert taken == init + [last];
    OneMoreSweep(m, init, last);
    if init == [] {
      NoSweeps(m);
    } else {
      SweepsAreTheLastOne(m, init);
      SweepsCompose(m, init[|init| - 1].sample, last.sample);
    }
  }
}
