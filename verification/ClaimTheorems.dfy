/** What the vault promises its callers, over every interleaving of their calls. */
module ClaimTheorems {
  import opened Core
  import opened Uuid
  import opened Calendar
  import opened Backend
  import opened Claims
  import opened Aead
  import opened ClaimProtocol
  import opened ClaimInvariant
  import opened ClaimSteps
  import VaultSpec

  /** Some run from an empty store leads to `s`. */
  ghost predicate Reachable(s: State) {
    exists clock, events :: Run(Start(clock), events) == Some(s)
  }

  lemma ReachableTrue(s: State)
    requires Reachable(s)
    ensures Inv(s)
  {
    hide Inv, Run;
    var clock, events :| Run(Start(clock), events) == Some(s);
    RunKeeps(clock, events);
  }

  ghost predicate Names(r: Request, id: RecordId) {
    IsClaim(r) && ParseToken(r.token).Some? && ParseToken(r.token).value.id == id
  }

  /** Call `c` is over and answered `result`. */
  ghost predicate Over(s: State, c: CallId, result: VaultResult) {
    c in s.calls && s.calls[c].phase == Ended(result)
  }

  /** Call `c` claimed the record `id`: a retrieval that returned a proof, or a delete that reported success. */
  ghost predicate Succeeded(s: State, c: CallId, id: RecordId) {
    && c in s.calls && Names(s.calls[c].request, id) && s.calls[c].phase.Ended?
    && (s.calls[c].phase.result.Proof? || s.calls[c].phase.result.Discarded?)
  }

  lemma ClaimEnds(s: State, c: CallId)
    requires Reachable(s) && c in s.calls && IsClaim(s.calls[c].request) && s.calls[c].phase.Ended?
    ensures TimesTrue(s, s.calls[c]) && ResultTrue(s, c, s.calls[c], s.calls[c].phase.result)
  {
    hide Inv, TimesTrue, ResultTrue;
    ReachableTrue(s);
    ClaimFacts(s, c);
  }

  // ── The store underneath ──────────────────────────────────────────────────

  /** The storage operation a call's next step performs. */
  function StorageOp(k: Call): Option<Op> {
    match k.request
    case StoreProof(_, _, _, _, id) => if k.phase.Inserting? then Some(Insert(id, k.phase.rec)) else None
    case Cleanup => if k.phase.Sweeping? then Some(DeleteExpired(k.phase.now)) else None
    case _ =>
      (match k.phase
       case Called =>
         var parsed := ParseToken(k.request.token);
         if parsed.Some? then Some(Fetch(parsed.value.id)) else None
       case Claiming(claim, _) => Some(Delete(claim.id))
       case Dropping(claim) => Some(Delete(claim.id))
       case _ => None)
  }

  /** Where a call that is awaited goes on the reply to its storage operation. */
  ghost function NextPhase(k: Call, reply: Reply): Phase {
    match reply
    case Inserted => if k.request.StoreProof? then Ended(Issued(Token(Claim(k.request.id, k.request.key)))) else k.phase
    case Found(rec) =>
      if IsClaim(k.request) && ParseToken(k.request.token).Some? then Fetched(ParseToken(k.request.token).value, rec)
      else k.phase
    case NotFound => Ended(Refused(ProofNotFound))
    case Deleted(existed) =>
      if k.phase.Dropping? then Ended(Refused(ProofExpired))
      else if k.phase.Claiming? && k.request.RetrieveProof? then Ended(Proof(k.phase.plaintext))
      else Ended(if existed then Discarded else Refused(ProofNotFound))
    case Removed(count) => Ended(Cleaned(count))
  }

  /** Where it goes on an error: that an expired record could not be deleted is only logged. */
  function ErrorPhase(k: Call): Phase {
    Ended(Refused(if k.phase.Dropping? then ProofExpired else Storage))
  }

  /** A step of `c` leaves the records alone or performs the call's one operation, and where the call goes
      then depends on the operation's answer alone. */
  ghost predicate UsesTheBackend(s: State, s': State, c: CallId, io: Io)
    requires c in s.calls
  {
    var k := s.calls[c];
    if StorageOp(k).None? then s'.records == s.records
    else
      && c in s'.calls
      && s'.records == (if io.FailsBefore? then s.records else After(s.records, StorageOp(k).value))
      && (io.Works? && k.awaiting ==> s'.calls[c].phase == NextPhase(k, Answer(s.records, StorageOp(k).value)))
      && (!io.Works? && k.awaiting ==> s'.calls[c].phase == ErrorPhase(k))
  }

  lemma StoreUses(s: State, c: CallId, io: Io)
    requires c in s.calls && s.calls[c].request.StoreProof? && StepStore(s, c, s.calls[c], io).Some?
    ensures UsesTheBackend(s, Tock(StepStore(s, c, s.calls[c], io).value), c, io)
  {
    hide Seal, Token, ExpiryFor;
  }

  lemma FetchUses(s: State, c: CallId, io: Io)
    requires c in s.calls && IsClaim(s.calls[c].request) && s.calls[c].phase.Called?
    ensures UsesTheBackend(s, Tock(StepFetch(s, c, s.calls[c], s.calls[c].request.token, io)), c, io)
  {
    hide ParseToken;
  }

  lemma JudgeUses(s: State, c: CallId, io: Io)
    requires c in s.calls && IsClaim(s.calls[c].request) && s.calls[c].phase.Fetched?
    ensures UsesTheBackend(s, Tock(StepJudge(s, c, s.calls[c], s.calls[c].phase.claim, s.calls[c].phase.rec)), c, io)
  {
    hide Unseal, IsExpired;
  }

  lemma DeleteUses(s: State, c: CallId, io: Io)
    requires c in s.calls && IsClaim(s.calls[c].request) && s.calls[c].phase.Claiming?
    ensures UsesTheBackend(s, Tock(StepClaim(s, c, s.calls[c], s.calls[c].phase.claim, s.calls[c].phase.plaintext, io)), c, io)
  {
    RemoveMissing(s.records, s.calls[c].phase.claim.id);
  }

  lemma DropUses(s: State, c: CallId, io: Io)
    requires c in s.calls && IsClaim(s.calls[c].request) && s.calls[c].phase.Dropping?
    ensures UsesTheBackend(s, Tock(StepDrop(s, c, s.calls[c], s.calls[c].phase.claim, io)), c, io)
  {
    RemoveMissing(s.records, s.calls[c].phase.claim.id);
  }

  lemma CleanupUses(s: State, c: CallId, io: Io)
    requires c in s.calls && s.calls[c].request.Cleanup? && StepCleanup(s, c, s.calls[c], io).Some?
    ensures UsesTheBackend(s, Tock(StepCleanup(s, c, s.calls[c], io).value), c, io)
  {
    hide Victims, Sweep;
  }

  /** Whatever a call asks of the store both stores can do: its timestamps have four-digit years. */
  lemma OperationsAreStorable(s: State, c: CallId)
    requires Inv(s) && c in s.calls && StorageOp(s.calls[c]).Some?
    ensures OpStorable(StorageOp(s.calls[c]).value)
  {
    hide StoreSideTrue, IdsDistinct, Seal, ParseToken, ExpiryTrue, InRange;
    assert CallTrue(s, c);
  }

  /** Every record ever held is one both stores keep to the nanosecond. */
  lemma RecordsAreStorable(s: State)
    requires Reachable(s)
    ensures AllStorable(s.records)
  {
    ReachableTrue(s);
    hide Reachable, CallsTrue, IdsDistinct, RemovalsTrue, Storable, Seal, ExpiryTrue;
    forall id | id in s.records ensures Storable(s.records[id]) {
      assert InsertionTrue(s, id, s.inserted[id]);
    }
  }

  /** Calls touch the store through the backend's four operations only, one a step, and in every reachable state
      only in ways both stores can serve. */
  lemma StepsUseTheBackend(s: State, e: Event)
    requires Next(s, e).Some?
    ensures if e.Step? then e.call in s.calls && UsesTheBackend(s, Next(s, e).value, e.call, e.io)
            else Next(s, e).value.records == s.records
    ensures Reachable(s) && e.Step? && StorageOp(s.calls[e.call]).Some? ==> OpStorable(StorageOp(s.calls[e.call]).value)
  {
    hide UsesTheBackend, StepStore, StepFetch, StepJudge, StepClaim, StepDrop, StepCleanup, FreshId;
    hide Reachable, Inv, StorageOp, OpStorable;
    if e.Step? {
      if Reachable(s) && StorageOp(s.calls[e.call]).Some? {
        ReachableTrue(s);
        OperationsAreStorable(s, e.call);
      }
      var k := s.calls[e.call];
      if k.request.StoreProof? {
        StoreUses(s, e.call, e.io);
      } else if k.request.Cleanup? {
        CleanupUses(s, e.call, e.io);
      } else if k.phase.Called? {
        FetchUses(s, e.call, e.io);
      } else if k.phase.Fetched? {
        JudgeUses(s, e.call, e.io);
      } else if k.phase.Claiming? {
        DeleteUses(s, e.call, e.io);
      } else {
        DropUses(s, e.call, e.io);
      }
    }
  }

  // ── Storage failures ──────────────────────────────────────────────────────

  /** These events lead from an empty store to `s`. */
  ghost predicate Ran(clock: Instant, events: seq<Event>, s: State) {
    Run(Start(clock), events) == Some(s)
  }

  /** Somebody awaits the call, and its next step is a storage operation other than the delete of an expired record. */
  ghost predicate CanHurt(k: Call) {
    k.awaiting && StorageOp(k).Some? && !k.phase.Dropping?
  }

  /** Event `i` is such a step of `c`, and fails. */
  ghost predicate FailsAt(clock: Instant, events: seq<Event>, c: CallId, i: nat) {
    && i < |events| && events[i].Step? && events[i].call == c && !events[i].io.Works?
    && var before := Run(Start(clock), events[..i]);
       before.Some? && c in before.value.calls && CanHurt(before.value.calls[c])
  }

  /** A storage failure hit the call. */
  ghost predicate Hit(clock: Instant, events: seq<Event>, c: CallId) {
    exists i: nat :: FailsAt(clock, events, c, i)
  }

  /** No step of `c` failed. */
  ghost predicate Unfailed(events: seq<Event>, c: CallId) {
    forall e :: e in events && e.Step? && e.call == c ==> e.io.Works?
  }

  /** The call ended with nobody to answer to. */
  ghost predicate Left(s: State, c: CallId) {
    c in s.calls && s.calls[c].phase.Abandoned? && !s.calls[c].awaiting
  }

  lemma StoreHit(s: State, c: CallId, io: Io)
    requires c in s.calls && s.calls[c].request.StoreProof? && StepStore(s, c, s.calls[c], io).Some?
    ensures Over(StepStore(s, c, s.calls[c], io).value, c, Refused(Storage)) <==> !io.Works? && CanHurt(s.calls[c])
    ensures !Over(StepStore(s, c, s.calls[c], io).value, c, Refused(ProofExpired))
    ensures !s.calls[c].awaiting ==> Left(StepStore(s, c, s.calls[c], io).value, c)
  {
    hide Seal, Token, ExpiryFor, Dateable;
  }

  lemma FetchHit(s: State, c: CallId, io: Io)
    requires c in s.calls && IsClaim(s.calls[c].request) && s.calls[c].phase.Called?
    ensures Over(StepFetch(s, c, s.calls[c], s.calls[c].request.token, io), c, Refused(Storage))
       <==> !io.Works? && CanHurt(s.calls[c])
    ensures !Over(StepFetch(s, c, s.calls[c], s.calls[c].request.token, io), c, Refused(ProofExpired))
    ensures !s.calls[c].awaiting ==> Left(StepFetch(s, c, s.calls[c], s.calls[c].request.token, io), c)
  {
    hide ParseToken;
  }

  lemma JudgeHit(s: State, c: CallId)
    requires c in s.calls && IsClaim(s.calls[c].request) && s.calls[c].phase.Fetched?
    ensures var s' := StepJudge(s, c, s.calls[c], s.calls[c].phase.claim, s.calls[c].phase.rec);
            && !Over(s', c, Refused(Storage)) && !Over(s', c, Refused(ProofExpired)) && !CanHurt(s.calls[c])
            && (!s.calls[c].awaiting ==> Left(s', c))
  {
    hide Unseal, IsExpired;
  }

  lemma DeleteHit(s: State, c: CallId, io: Io)
    requires c in s.calls && IsClaim(s.calls[c].request) && s.calls[c].phase.Claiming?
    ensures var s' := StepClaim(s, c, s.calls[c], s.calls[c].phase.claim, s.calls[c].phase.plaintext, io);
            && (Over(s', c, Refused(Storage)) <==> !io.Works? && CanHurt(s.calls[c]))
            && !Over(s', c, Refused(ProofExpired)) && (!s.calls[c].awaiting ==> Left(s', c))
  {
  }

  lemma DropHit(s: State, c: CallId, io: Io)
    requires c in s.calls && IsClaim(s.calls[c].request) && s.calls[c].phase.Dropping?
    ensures !Over(StepDrop(s, c, s.calls[c], s.calls[c].phase.claim, io), c, Refused(Storage))
    ensures !s.calls[c].awaiting ==> Left(StepDrop(s, c, s.calls[c], s.calls[c].phase.claim, io), c)
  {
  }

  lemma CleanupHit(s: State, c: CallId, io: Io)
    requires c in s.calls && s.calls[c].request.Cleanup? && StepCleanup(s, c, s.calls[c], io).Some?
    ensures Over(StepCleanup(s, c, s.calls[c], io).value, c, Refused(Storage)) <==> !io.Works? && CanHurt(s.calls[c])
    ensures !Over(StepCleanup(s, c, s.calls[c], io).value, c, Refused(ProofExpired))
    ensures !s.calls[c].awaiting ==> Left(StepCleanup(s, c, s.calls[c], io).value, c)
  {
    hide Victims, Sweep;
  }

  lemma StepHit(s: State, c: CallId, io: Io)
    requires Next(s, Step(c, io)).Some?
    ensures Over(Next(s, Step(c, io)).value, c, Refused(Storage)) <==> !io.Works? && CanHurt(s.calls[c])
  {
    hide StepStore, StepFetch, StepJudge, StepClaim, StepDrop, StepCleanup, CanHurt;
    var k := s.calls[c];
    if k.request.StoreProof? {
      StoreHit(s, c, io);
    } else if k.request.Cleanup? {
      CleanupHit(s, c, io);
    } else if k.phase.Called? {
      FetchHit(s, c, io);
    } else if k.phase.Fetched? {
      JudgeHit(s, c);
    } else if k.phase.Claiming? {
      DeleteHit(s, c, io);
    } else {
      DropHit(s, c, io);
      NoHarm(k);
    }
  }

  lemma NoHarm(k: Call)
    ensures k.phase.Dropping? ==> !CanHurt(k)
  {
  }

  /** Only its own steps change how a call is over. */
  lemma OthersDoNotEnd(s: State, e: Event, c: CallId, result: VaultResult)
    requires Next(s, e).Some? && !(e.Step? && e.call == c)
    ensures Over(Next(s, e).value, c, result) <==> Over(s, c, result)
  {
    hide StepCall, FreshId;
    if e.Step? {
      StepTouchesOnly(s, e.call, e.io);
    }
  }

  lemma FailsEarlier(clock: Instant, events: seq<Event>, e: Event, c: CallId, i: nat)
    requires i < |events|
    ensures FailsAt(clock, events + [e], c, i) <==> FailsAt(clock, events, c, i)
  {
    hide Run, CanHurt;
    assert (events + [e])[..i] == events[..i];
  }

  lemma FailsNow(clock: Instant, events: seq<Event>, e: Event, c: CallId, s: State)
    requires Ran(clock, events, s)
    ensures FailsAt(clock, events + [e], c, |events|)
       <==> e.Step? && e.call == c && !e.io.Works? && c in s.calls && CanHurt(s.calls[c])
  {
    hide Run, CanHurt;
    assert (events + [e])[..|events|] == events;
  }

  lemma HitGrows(clock: Instant, events: seq<Event>, e: Event, c: CallId, s: State)
    requires Ran(clock, events, s)
    ensures Hit(clock, events + [e], c)
       <==> Hit(clock, events, c) || (e.Step? && e.call == c && !e.io.Works? && c in s.calls && CanHurt(s.calls[c]))
  {
    FailsNow(clock, events, e, c, s);
    hide Run, CanHurt, Ran;
    forall i: nat | i < |events| ensures FailsAt(clock, events + [e], c, i) <==> FailsAt(clock, events, c, i) {
      FailsEarlier(clock, events, e, c, i);
    }
    if Hit(clock, events, c) {
      var i: nat :| FailsAt(clock, events, c, i);
      assert FailsAt(clock, events + [e], c, i);
    }
    if Hit(clock, events + [e], c) {
      var i: nat :| FailsAt(clock, events + [e], c, i);
      assert i < |events| ==> FailsAt(clock, events, c, i);
    }
  }

  lemma RanBefore(clock: Instant, events: seq<Event>, e: Event, s: State) returns (before: State)
    requires Ran(clock, events + [e], s)
    ensures Ran(clock, events, before) && Next(before, e) == Some(s)
  {
    hide Next;
    assert (events + [e])[..|events|] == events;
    before := Run(Start(clock), events).value;
  }

  /** A call reports a storage error exactly when a storage failure hit it. */
  lemma {:induction false} StorageErrorsAreFailures(clock: Instant, events: seq<Event>, s: State, c: CallId)
    requires Ran(clock, events, s)
    ensures Over(s, c, Refused(Storage)) <==> Hit(clock, events, c)
  {
    hide Run, Next, Hit, Ran, CanHurt;
    if events == [] {
      NothingRan(clock, s, c);
    } else {
      var (init, e) := (events[..|events| - 1], events[|events| - 1]);
      assert events == init + [e];
      var before := RanBefore(clock, init, e, s);
      StorageErrorsAreFailures(clock, init, before, c);
      HitGrows(clock, init, e, c, before);
      if e.Step? && e.call == c {
        StepHit(before, c, e.io);
        NotOverYet(before, c, e.io, Refused(Storage));
      } else {
        OthersDoNotEnd(before, e, c, Refused(Storage));
      }
    }
  }

  lemma NothingRan(clock: Instant, s: State, c: CallId)
    requires Ran(clock, [], s)
    ensures c !in s.calls && !Hit(clock, [], c)
  {
  }

  /** A call that is over takes no more steps. */
  lemma NotOverYet(s: State, c: CallId, io: Io, result: VaultResult)
    requires Next(s, Step(c, io)).Some?
    ensures c in s.calls && !Over(s, c, result)
  {
    hide StepFetch, StepJudge, StepClaim, StepDrop, StepSweep, ExpiryFor, Seal, Token;
  }

  /** In particular a call none of whose steps failed reports none. */
  lemma UnfailedCallsReportNoStorageError(clock: Instant, events: seq<Event>, s: State, c: CallId)
    requires Ran(clock, events, s) && Unfailed(events, c)
    ensures !Over(s, c, Refused(Storage)) && !Hit(clock, events, c)
  {
    hide Ran, Run, Over, CanHurt;
    StorageErrorsAreFailures(clock, events, s, c);
  }

  // ── Single use ────────────────────────────────────────────────────────────

  /** Every success has the removal of its record between its fetch and its delete. */
  lemma SuccessSpansTheRemoval(s: State, c: CallId, id: RecordId)
    requires Reachable(s) && Succeeded(s, c, id)
    ensures id in s.removed && s.calls[c].fetchedAt.Some? && s.calls[c].actedAt.Some?
    ensures s.calls[c].fetchedAt.value < s.removed[id].at <= s.calls[c].actedAt.value
  {
    hide Reachable, ParseToken, Unseal, IsExpired;
    ClaimEnds(s, c);
  }

  /** All successful claims of one record share an instant. */
  lemma SuccessesShareAnInstant(s: State, id: RecordId) returns (instant: nat)
    requires Reachable(s)
    ensures forall c :: Succeeded(s, c, id) ==>
              && s.calls[c].fetchedAt.Some? && s.calls[c].actedAt.Some?
              && s.calls[c].fetchedAt.value < instant <= s.calls[c].actedAt.value
  {
    hide Reachable, Succeeded;
    instant := if id in s.removed then s.removed[id].at else 0;
    forall c | Succeeded(s, c, id)
      ensures && c in s.calls && s.calls[c].fetchedAt.Some? && s.calls[c].actedAt.Some?
              && s.calls[c].fetchedAt.value < instant <= s.calls[c].actedAt.value
    {
      SucceededIsACall(s, c, id);
      SuccessSpansTheRemoval(s, c, id);
    }
  }

  lemma SucceededIsACall(s: State, c: CallId, id: RecordId)
    requires Succeeded(s, c, id)
    ensures c in s.calls
  {
  }

  /** The claim of `c` was over before `d` read the store. */
  ghost predicate Before(s: State, c: CallId, d: CallId)
    requires c in s.calls && d in s.calls
  {
    var (k, l) := (s.calls[c], s.calls[d]);
    k.actedAt.Some? && l.fetchedAt.Some? && k.actedAt.value <= l.fetchedAt.value
  }

  /** Two claims of one record that do not overlap cannot both succeed. */
  lemma SingleUse(s: State, c: CallId, d: CallId, id: RecordId)
    requires Reachable(s) && c in s.calls && d in s.calls && c != d && (Before(s, c, d) || Before(s, d, c))
    ensures !(Succeeded(s, c, id) && Succeeded(s, d, id))
  {
    hide Reachable, Succeeded;
    if Succeeded(s, c, id) && Succeeded(s, d, id) {
      SuccessSpansTheRemoval(s, c, id);
      SuccessSpansTheRemoval(s, d, id);
    }
  }

  /** A claim that reads the store after a success finds nothing, unless the storage fails it. */
  lemma NothingAfterASuccess(clock: Instant, events: seq<Event>, s: State, c: CallId, d: CallId, id: RecordId,
                             result: VaultResult)
    requires Ran(clock, events, s) && Succeeded(s, c, id) && d in s.calls && Names(s.calls[d].request, id)
    requires Before(s, c, d) && Over(s, d, result)
    ensures result == Refused(if Hit(clock, events, d) then Storage else ProofNotFound)
  {
    hide Run, Hit, ParseToken, Unseal, IsExpired;
    StorageErrorsAreFailures(clock, events, s, d);
    assert Reachable(s);
    hide Reachable;
    SuccessSpansTheRemoval(s, c, id);
    ClaimEnds(s, d);
  }

  /** `delete_proof` does look at what its delete found: at most one reports success, overlapping or not. */
  lemma OneDiscard(s: State, c: CallId, d: CallId, id: RecordId)
    requires Reachable(s) && Over(s, c, Discarded) && Over(s, d, Discarded)
    requires Names(s.calls[c].request, id) && Names(s.calls[d].request, id)
    ensures c == d
  {
    hide Reachable, ParseToken, Unseal, IsExpired;
    ClaimEnds(s, c);
    ClaimEnds(s, d);
  }

  // ── Exact answers ─────────────────────────────────────────────────────────

  /** What the history of the store says a claim must answer. */
  ghost function Verdict(s: State, c: CallId, k: Call): VaultResult
    requires IsClaim(k.request)
  {
    match ParseToken(k.request.token)
    case None => Refused(InvalidId)
    case Some(claim) =>
      if k.fetchedAt.None? || !PresentAt(s, claim.id, k.fetchedAt.value) then Refused(ProofNotFound)
      else
        var rec := s.inserted[claim.id].rec;
        if k.judgedAt.None? || IsExpired(rec, k.judgedAt.value) then Refused(ProofExpired)
        else if k.request.DeleteProof? then
          if claim.id in s.removed && s.removed[claim.id].call == c then Discarded else Refused(ProofNotFound)
        else
          match Unseal(claim, rec)
          case None => Refused(DecryptionFailed)
          case Some(plaintext) => Proof(plaintext)
  }

  lemma HistoryDecides(s: State, c: CallId, result: VaultResult)
    requires Reachable(s) && Over(s, c, result) && IsClaim(s.calls[c].request) && result != Refused(Storage)
    ensures result == Verdict(s, c, s.calls[c])
    ensures ParseToken(s.calls[c].request.token).Some? ==> s.calls[c].fetchedAt.Some?
    ensures result != Refused(InvalidId) && result != Refused(ProofNotFound) ==> s.calls[c].judgedAt.Some?
  {
    hide Reachable, ParseToken, Unseal, IsExpired, PresentAt;
    ClaimEnds(s, c);
  }

  /** A claim answers exactly what the history says, or a storage error if a storage failure hit it. */
  lemma ClaimsAnswerTheVerdict(clock: Instant, events: seq<Event>, s: State, c: CallId, result: VaultResult)
    requires Ran(clock, events, s) && Over(s, c, result) && IsClaim(s.calls[c].request)
    ensures result == if Hit(clock, events, c) then Refused(Storage) else Verdict(s, c, s.calls[c])
    ensures Unfailed(events, c) ==> !Hit(clock, events, c)
    ensures ParseToken(s.calls[c].request.token).Some? && !Hit(clock, events, c) ==> s.calls[c].fetchedAt.Some?
    ensures !result.Refused? || result == Refused(ProofExpired) ==> s.calls[c].judgedAt.Some?
  {
    hide Run, Hit, ParseToken, Verdict, Unfailed;
    StorageErrorsAreFailures(clock, events, s, c);
    if Unfailed(events, c) {
      UnfailedCallsReportNoStorageError(clock, events, s, c);
    }
    assert Reachable(s);
    hide Reachable;
    if result != Refused(Storage) {
      HistoryDecides(s, c, result);
    }
  }

  /** A store call answers with its token exactly when its TTL is none or a positive number of seconds that fits a
      signed 64-bit integer, unless a storage failure hit it. */
  lemma StoresAnswer(clock: Instant, events: seq<Event>, s: State, c: CallId, result: VaultResult)
    requires Ran(clock, events, s) && Over(s, c, result) && s.calls[c].request.StoreProof?
    ensures var r := s.calls[c].request;
            result ==
              if r.ttl.Some? && (r.ttl.value == 0 || r.ttl.value > 9_223_372_036_854_775_807) then Refused(InvalidParameter)
              else if Hit(clock, events, c) then Refused(Storage)
              else Issued(Token(Claim(r.id, r.key)))
    ensures Unfailed(events, c) ==> !Hit(clock, events, c)
    ensures result.Issued? ==> s.calls[c].request.id in s.inserted && s.inserted[s.calls[c].request.id].call == c
  {
    hide Run, Hit, Token, Unfailed;
    StorageErrorsAreFailures(clock, events, s, c);
    if Unfailed(events, c) {
      UnfailedCallsReportNoStorageError(clock, events, s, c);
    }
    assert Reachable(s);
    hide Reachable, Inv;
    ReachableTrue(s);
    StoreFacts(s, c);
    if result.Issued? {
      InsertedWithinTtl(s, s.calls[c].request.id);
    }
  }

  lemma InsertedWithinTtl(s: State, id: RecordId)
    requires Inv(s) && id in s.inserted
    ensures s.inserted[id].call in s.calls && s.calls[s.inserted[id].call].request.StoreProof?
    ensures var ttl := s.calls[s.inserted[id].call].request.ttl; ttl.Some? ==> 0 < ttl.value <= I64_MAX
  {
    hide RecordsTrue, RemovalsTrue, IdsDistinct, CallsTrue, Seal, Storable;
    assert InsertionTrue(s, id, s.inserted[id]);
  }

  /** A cleanup answers the number of records it removed, unless a storage failure hit it. */
  lemma CleanupsAnswer(clock: Instant, events: seq<Event>, s: State, c: CallId, result: VaultResult)
    requires Ran(clock, events, s) && Over(s, c, result) && s.calls[c].request.Cleanup?
    ensures result == if Hit(clock, events, c) then Refused(Storage) else Cleaned(|RemovedBy(s, c)|)
    ensures Unfailed(events, c) ==> !Hit(clock, events, c)
  {
    hide Run, Hit, RemovedBy, Unfailed;
    StorageErrorsAreFailures(clock, events, s, c);
    if Unfailed(events, c) {
      UnfailedCallsReportNoStorageError(clock, events, s, c);
    }
    assert Reachable(s);
    hide Reachable, Inv;
    ReachableTrue(s);
    CleanupFacts(s, c);
  }

  // ── Expired records ───────────────────────────────────────────────────────

  /** A removal is final: no later event changes it. */
  lemma RemovedStays(s: State, e: Event, id: RecordId)
    requires RecordsTrue(s) && Next(s, e).Some? && id in s.removed
    ensures id in Next(s, e).value.removed && Next(s, e).value.removed[id] == s.removed[id]
  {
    hide StepStore, StepFetch, StepJudge, StepClaim, StepDrop, StepCleanup, FreshId;
    if e.Step? {
      var (c, k) := (e.call, s.calls[e.call]);
      if k.request.StoreProof? {
        StoreRemovesNothing(s, c, k, e.io);
      } else if k.request.Cleanup? {
        CleanupRemovesLive(s, c, k, e.io, id);
      } else if k.phase.Called? {
        FetchRemovesNothing(s, c, k, k.request.token, e.io);
      } else if k.phase.Fetched? {
        JudgeRemovesNothing(s, c, k, k.phase.claim, k.phase.rec);
      } else if k.phase.Claiming? {
        ClaimRemovesLive(s, c, k, k.phase.claim, k.phase.plaintext, e.io, id);
      } else {
        DropRemovesLive(s, c, k, k.phase.claim, e.io, id);
      }
    }
  }

  lemma StoreRemovesNothing(s: State, c: CallId, k: Call, io: Io)
    requires k.request.StoreProof? && StepStore(s, c, k, io).Some?
    ensures StepStore(s, c, k, io).value.removed == s.removed
  {
    hide Seal, Token, ExpiryFor, Dateable;
  }

  lemma FetchRemovesNothing(s: State, c: CallId, k: Call, token: string, io: Io)
    ensures StepFetch(s, c, k, token, io).removed == s.removed
  {
    hide ParseToken;
  }

  lemma JudgeRemovesNothing(s: State, c: CallId, k: Call, claim: Claim, rec: StoredRecord)
    ensures StepJudge(s, c, k, claim, rec).removed == s.removed
  {
    hide Unseal, IsExpired;
  }

  lemma ClaimRemovesLive(s: State, c: CallId, k: Call, claim: Claim, plaintext: bytes, io: Io, id: RecordId)
    requires id in s.removed && id !in s.records
    ensures var s' := StepClaim(s, c, k, claim, plaintext, io); id in s'.removed && s'.removed[id] == s.removed[id]
  {
  }

  lemma DropRemovesLive(s: State, c: CallId, k: Call, claim: Claim, io: Io, id: RecordId)
    requires id in s.removed && id !in s.records
    ensures var s' := StepDrop(s, c, k, claim, io); id in s'.removed && s'.removed[id] == s.removed[id]
  {
  }

  lemma CleanupRemovesLive(s: State, c: CallId, k: Call, io: Io, id: RecordId)
    requires k.request.Cleanup? && StepCleanup(s, c, k, io).Some? && id in s.removed && id !in s.records
    ensures var s' := StepCleanup(s, c, k, io).value; id in s'.removed && s'.removed[id] == s.removed[id]
  {
    hide Sweep;
    if k.phase.Sweeping? {
      assert id !in Victims(s.records, k.phase.now);
    }
  }

  /** The delete of an expired record, when it works, leaves no record. */
  lemma DropClears(s: State, c: CallId, claim: Claim)
    requires Inv(s) && c in s.calls && IsClaim(s.calls[c].request) && s.calls[c].phase == Dropping(claim)
    ensures var s' := Tock(StepDrop(s, c, s.calls[c], claim, Works)); c in s'.calls && GoneBy(s', claim.id, s'.calls[c])
  {
    hide ParseToken, IsExpired, IdsDistinct, InsertionsTrue;
    assert CallTrue(s, c);
    hide CallsTrue;
    if claim.id in s.removed {
      assert RemovalTrue(s, claim.id, s.removed[claim.id]);
    }
  }

  lemma ExpiredFromDropping(s: State, c: CallId, io: Io)
    requires Next(s, Step(c, io)).Some? && Over(Next(s, Step(c, io)).value, c, Refused(ProofExpired))
    ensures c in s.calls && IsClaim(s.calls[c].request) && s.calls[c].phase.Dropping?
    ensures Next(s, Step(c, io)).value == Tock(StepDrop(s, c, s.calls[c], s.calls[c].phase.claim, io))
  {
    hide StepStore, StepFetch, StepJudge, StepClaim, StepDrop, StepCleanup, CanHurt;
    var k := s.calls[c];
    if k.request.StoreProof? {
      StoreHit(s, c, io);
    } else if k.request.Cleanup? {
      CleanupHit(s, c, io);
    } else if k.phase.Called? {
      FetchHit(s, c, io);
    } else if k.phase.Fetched? {
      JudgeHit(s, c);
    } else if k.phase.Claiming? {
      DeleteHit(s, c, io);
    }
  }

  lemma DroppingNames(s: State, c: CallId, claim: Claim)
    requires Inv(s) && c in s.calls && IsClaim(s.calls[c].request) && s.calls[c].phase == Dropping(claim)
    ensures ParseToken(s.calls[c].request.token) == Some(claim)
  {
    hide ParseToken, IsExpired, PresentAt, TimesTrue, StoreSideTrue, IdsDistinct;
    assert CallTrue(s, c);
  }

  /** Whoever finds a record expired, and whose steps did not fail, has removed it or found it gone by the time the
      answer comes. */
  lemma {:induction false} ExpiredAccessRemoves(clock: Instant, events: seq<Event>, s: State, c: CallId)
    requires Ran(clock, events, s) && Unfailed(events, c) && Over(s, c, Refused(ProofExpired))
    ensures IsClaim(s.calls[c].request) && ParseToken(s.calls[c].request.token).Some?
    ensures GoneBy(s, ParseToken(s.calls[c].request.token).value.id, s.calls[c])
  {
    hide Run, Next, Ran, ParseToken, Inv, GoneBy, StepDrop, Tock;
    if events == [] {
      NothingRan(clock, s, c);
    } else {
      var (init, e) := (events[..|events| - 1], events[|events| - 1]);
      assert events == init + [e];
      var before := RanBefore(clock, init, e, s);
      RunInv(clock, init, before);
      if e.Step? && e.call == c {
        assert e == Step(c, Works);
        ExpiredFromDropping(before, c, Works);
        DropClears(before, c, before.calls[c].phase.claim);
        DroppingNames(before, c, before.calls[c].phase.claim);
        StepTouchesOnly(before, c, Works);
      } else {
        OthersDoNotEnd(before, e, c, Refused(ProofExpired));
        ExpiredAccessRemoves(clock, init, before, c);
        GoneStays(before, e, c, ParseToken(before.calls[c].request.token).value.id);
      }
    }
  }

  lemma RunInv(clock: Instant, events: seq<Event>, s: State)
    requires Ran(clock, events, s)
    ensures Inv(s)
  {
    hide Run, Inv;
    RunKeeps(clock, events);
  }

  lemma GoneStays(s: State, e: Event, c: CallId, id: RecordId)
    requires Inv(s) && Next(s, e).Some? && c in s.calls && !(e.Step? && e.call == c) && GoneBy(s, id, s.calls[c])
    ensures var s' := Next(s, e).value;
            c in s'.calls && s'.calls[c].request == s.calls[c].request && GoneBy(s', id, s'.calls[c])
  {
    hide Next, InsertionsTrue, RemovalsTrue, IdsDistinct, CallsTrue;
    RemovedStays(s, e, id);
    OthersStay(s, e, c);
  }

  lemma OthersStay(s: State, e: Event, c: CallId)
    requires Next(s, e).Some? && c in s.calls && !(e.Step? && e.call == c)
    ensures var s' := Next(s, e).value;
            && c in s'.calls && s'.calls[c].request == s.calls[c].request && s'.calls[c].actedAt == s.calls[c].actedAt
  {
    hide StepCall, FreshId;
    if e.Step? {
      StepTouchesOnly(s, e.call, e.io);
    }
  }

  // ── Right plaintext ───────────────────────────────────────────────────────

  /** The store call that inserted `id`. */
  ghost function Origin(s: State, id: RecordId): (k: Call)
    requires Reachable(s) && id in s.inserted
    ensures k.request.StoreProof? && k.request.id == id && RecordOf(k, s.inserted[id].rec)
    ensures s.inserted[id].call in s.calls && k == s.calls[s.inserted[id].call]
    ensures s.inserted[id].rec.storedAt <= s.clock
  {
    ReachableTrue(s);
    assert InsertionTrue(s, id, s.inserted[id]);
    s.calls[s.inserted[id].call]
  }

  /** A stored record opens under its own key only, to its own proof. */
  lemma OpensToItsProof(s: State, id: RecordId, key: Key)
    requires Reachable(s) && id in s.inserted
    ensures var r := Origin(s, id).request;
            Unseal(Claim(id, key), s.inserted[id].rec) == if key == r.key then Some(r.proof) else None
  {
    hide Reachable, Seal, Open, ExpiryTrue;
    var r := Origin(s, id).request;
    OpensOnlyWithItsKey(r.key, r.nonce, r.proof, key);
  }

  /** A retrieved proof is what some store call was given, and the token presented is that call's token. */
  lemma RetrievedIsStored(s: State, c: CallId, plaintext: bytes) returns (u: CallId)
    requires Reachable(s) && Over(s, c, Proof(plaintext)) && IsClaim(s.calls[c].request)
    ensures u in s.calls && s.calls[u].request.StoreProof?
    ensures s.calls[u].request.proof == plaintext
    ensures s.calls[c].request.token == Token(Claim(s.calls[u].request.id, s.calls[u].request.key))
  {
    ReachableTrue(s);
    ClaimEnds(s, c);
    hide Reachable, Inv, ParseToken, Unseal, IsExpired, Seal, Token;
    var claim := ParseToken(s.calls[c].request.token).value;
    u := s.inserted[claim.id].call;
    OpensToItsProof(s, claim.id, claim.key);
    ParsedTokensAreTokens(s.calls[c].request.token);
  }

  /** The proof returned for an issued token is the proof stored under it. */
  lemma RightPlaintext(s: State, u: CallId, c: CallId, token: string, plaintext: bytes)
    requires Reachable(s) && Over(s, u, Issued(token)) && s.calls[u].request.StoreProof?
    requires Over(s, c, Proof(plaintext)) && s.calls[c].request == RetrieveProof(token)
    ensures plaintext == s.calls[u].request.proof
  {
    var v := RetrievedIsStored(s, c, plaintext);
    ReachableTrue(s);
    hide Reachable, ParseToken, Token;
    StoreFacts(s, u);
    var (r, q) := (s.calls[u].request, s.calls[v].request);
    TokenRoundTrip(Claim(r.id, r.key));
    TokenRoundTrip(Claim(q.id, q.key));
    hide StoreSideTrue, CallsTrue;
    assert r.id == q.id;
    assert IdsDistinct(s);
  }

  /** Without overlap a proof is released exactly once: the first of two retrievals with its token that read it
      in time gets it, and the second gets nothing. */
  lemma ExactlyOnceWithoutOverlap(clock: Instant, events: seq<Event>, s: State, c: CallId, d: CallId, id: RecordId,
                                  first: VaultResult, second: VaultResult)
    requires Ran(clock, events, s) && id in s.inserted && Over(s, c, first) && Over(s, d, second)
    requires Unfailed(events, c) && Unfailed(events, d)
    requires var r := Origin(s, id).request;
             var request := RetrieveProof(Token(Claim(r.id, r.key)));
             s.calls[c].request == request && s.calls[d].request == request
    requires var k := s.calls[c];
             && k.fetchedAt.Some? && PresentAt(s, id, k.fetchedAt.value)
             && (k.judgedAt.Some? ==> !IsExpired(s.inserted[id].rec, k.judgedAt.value))
    requires Before(s, c, d)
    ensures first == Proof(Origin(s, id).request.proof) && second == Refused(ProofNotFound)
  {
    var r := Origin(s, id).request;
    OpensToItsProof(s, id, r.key);
    TokenRoundTrip(Claim(r.id, r.key));
    hide Ran, Run, Hit, Unfailed, Reachable, ParseToken, Unseal, Token, IsExpired;
    UnfailedCallsReportNoStorageError(clock, events, s, c);
    UnfailedCallsReportNoStorageError(clock, events, s, d);
    FirstGets(s, c, id, first, r.proof);
    NothingAfterASuccess(clock, events, s, c, d, id, second);
  }

  lemma FirstGets(s: State, c: CallId, id: RecordId, result: VaultResult, plaintext: bytes)
    requires Reachable(s) && id in s.inserted && Over(s, c, result) && result != Refused(Storage)
    requires Names(s.calls[c].request, id) && s.calls[c].request.RetrieveProof?
    requires var k := s.calls[c];
             && k.fetchedAt.Some? && PresentAt(s, id, k.fetchedAt.value)
             && (k.judgedAt.Some? ==> !IsExpired(s.inserted[id].rec, k.judgedAt.value))
    requires Unseal(ParseToken(s.calls[c].request.token).value, s.inserted[id].rec) == Some(plaintext)
    ensures result == Proof(plaintext)
  {
    hide Reachable, ParseToken, Unseal, IsExpired, PresentAt;
    ClaimEnds(s, c);
  }

  /** Call `c` read the record while it was there and judged it unexpired. */
  ghost predicate InTime(s: State, k: Call, id: RecordId)
    requires id in s.inserted
  {
    && k.fetchedAt.Some? && PresentAt(s, id, k.fetchedAt.value)
    && k.judgedAt.Some? && !IsExpired(s.inserted[id].rec, k.judgedAt.value)
  }

  /** A retrieval with a record's token none of whose steps failed returns its proof exactly when it was in time. */
  lemma ProofExactlyInTime(clock: Instant, events: seq<Event>, s: State, c: CallId, id: RecordId, result: VaultResult)
    requires Ran(clock, events, s) && id in s.inserted && Over(s, c, result) && Unfailed(events, c)
    requires var r := Origin(s, id).request; s.calls[c].request == RetrieveProof(Token(Claim(r.id, r.key)))
    ensures result == Proof(Origin(s, id).request.proof) <==> InTime(s, s.calls[c], id)
    ensures !result.Proof? ==> result == Refused(ProofNotFound) || result == Refused(ProofExpired)
  {
    var r := Origin(s, id).request;
    OpensToItsProof(s, id, r.key);
    TokenRoundTrip(Claim(r.id, r.key));
    hide Ran, Run, Hit, Unfailed, Reachable, ParseToken, Unseal, Token, IsExpired, PresentAt;
    UnfailedCallsReportNoStorageError(clock, events, s, c);
    HistoryDecides(s, c, result);
  }

  /** Exactly when one token releases its proof twice: when two retrievals both read it before it was removed and
      judged it unexpired. */
  lemma TwiceExactlyWhenBothInTime(clock: Instant, events: seq<Event>, s: State, c: CallId, d: CallId, id: RecordId,
                                   first: VaultResult, second: VaultResult)
    requires Ran(clock, events, s) && id in s.inserted && Over(s, c, first) && Over(s, d, second)
    requires Unfailed(events, c) && Unfailed(events, d)
    requires var r := Origin(s, id).request;
             var request := RetrieveProof(Token(Claim(r.id, r.key)));
             s.calls[c].request == request && s.calls[d].request == request
    ensures first.Proof? && second.Proof? <==> InTime(s, s.calls[c], id) && InTime(s, s.calls[d], id)
    ensures first.Proof? && second.Proof? ==> first == second == Proof(Origin(s, id).request.proof)
  {
    assert Reachable(s);
    hide Ran, Run, Unfailed, Reachable, InTime, Token;
    ProofExactlyInTime(clock, events, s, c, id, first);
    ProofExactlyInTime(clock, events, s, d, id, second);
    if first.Proof? && second.Proof? {
      RetrievesItsProof(s, c, id, first);
      RetrievesItsProof(s, d, id, second);
    }
  }

  lemma RetrievesItsProof(s: State, c: CallId, id: RecordId, result: VaultResult)
    requires Reachable(s) && id in s.inserted && Over(s, c, result) && result.Proof?
    requires var r := Origin(s, id).request; s.calls[c].request == RetrieveProof(Token(Claim(r.id, r.key)))
    ensures result == Proof(Origin(s, id).request.proof)
  {
    var r := Origin(s, id).request;
    OpensToItsProof(s, id, r.key);
    TokenRoundTrip(Claim(r.id, r.key));
    hide Reachable, ParseToken, Unseal, Token, IsExpired, PresentAt;
    HistoryDecides(s, c, result);
  }

  // ── Lost proofs ───────────────────────────────────────────────────────────

  /** A record removed by a retrieval gave its caller the proof, unless the storage reported an error after all or
      the caller had gone away. */
  lemma RetrievedIsServedOrLost(s: State, id: RecordId)
    requires Reachable(s) && id in s.removed && s.removed[id].cause == ByRetrieve
    ensures id in s.inserted && s.removed[id].call in s.calls
    ensures var c := s.removed[id].call;
            || Over(s, c, Proof(Origin(s, id).request.proof)) || Over(s, c, Refused(Storage))
            || s.calls[c].phase.Abandoned?
  {
    ReachableTrue(s);
    assert RemovalTrue(s, id, s.removed[id]);
    hide RemovalTrue, RemovalsTrue, InsertionsTrue, CallsTrue, IdsDistinct, Seal, ParseToken, Unseal, IsExpired;
    var c := s.removed[id].call;
    RemoverNames(s, id);
    if s.calls[c].phase.Ended? && s.calls[c].phase.result.Proof? {
      OpensToItsProof(s, id, ParseToken(s.calls[c].request.token).value.key);
      hide Reachable;
      ClaimEnds(s, c);
    }
  }

  lemma RemoverNames(s: State, id: RecordId)
    requires Reachable(s) && id in s.removed && s.removed[id].cause == ByRetrieve
    ensures s.removed[id].call in s.calls
    ensures var k := s.calls[s.removed[id].call];
            && Names(k.request, id) && Final(k.phase) && EndsFor(ByRetrieve, k.phase)
  {
    ReachableTrue(s);
    hide Reachable, ParseToken, Unseal, IsExpired;
    assert RemovalTrue(s, id, s.removed[id]);
  }

  // ── Callers that went away ────────────────────────────────────────────────

  /** How many steps of `c` there are. */
  ghost function StepsOf(events: seq<Event>, c: CallId): nat {
    if events == [] then 0
    else StepsOf(events[..|events| - 1], c)
         + (if events[|events| - 1].Step? && events[|events| - 1].call == c then 1 else 0)
  }

  lemma UnawaitedStep(s: State, c: CallId, io: Io)
    requires Next(s, Step(c, io)).Some? && !s.calls[c].awaiting
    ensures Left(Next(s, Step(c, io)).value, c)
  {
    hide StepStore, StepFetch, StepJudge, StepClaim, StepDrop, StepCleanup, CanHurt, Over;
    var k := s.calls[c];
    if k.request.StoreProof? {
      StoreHit(s, c, io);
    } else if k.request.Cleanup? {
      CleanupHit(s, c, io);
    } else if k.phase.Called? {
      FetchHit(s, c, io);
    } else if k.phase.Fetched? {
      JudgeHit(s, c);
    } else if k.phase.Claiming? {
      DeleteHit(s, c, io);
    } else {
      DropHit(s, c, io);
    }
  }

  lemma NotLeftYet(s: State, c: CallId, io: Io)
    requires Next(s, Step(c, io)).Some?
    ensures !Left(s, c)
  {
    hide StepCall;
    OnlyRunningCallsStep(s, c, io);
  }

  /** A call whose caller has gone completes at most the step it was in. */
  lemma {:induction false} AtMostOneStepAfterLeaving(s: State, c: CallId, events: seq<Event>)
    requires c in s.calls && !s.calls[c].awaiting && Run(s, events).Some?
    ensures var s' := Run(s, events).value;
            && c in s'.calls && !s'.calls[c].awaiting
            && StepsOf(events, c) <= 1 && (StepsOf(events, c) == 1 ==> Left(s', c))
  {
    hide Next;
    if events != [] {
      var (init, e) := (events[..|events| - 1], events[|events| - 1]);
      AtMostOneStepAfterLeaving(s, c, init);
      var before := Run(s, init).value;
      if e.Step? && e.call == c {
        UnawaitedStep(before, c, e.io);
        NotLeftYet(before, c, e.io);
      } else {
        OthersLeaveIt(before, e, c);
      }
    }
  }

  lemma OthersLeaveIt(s: State, e: Event, c: CallId)
    requires c in s.calls && !s.calls[c].awaiting && Next(s, e).Some? && !(e.Step? && e.call == c)
    ensures var s' := Next(s, e).value;
            c in s'.calls && !s'.calls[c].awaiting && s'.calls[c].phase == s.calls[c].phase
  {
    hide StepCall, FreshId;
    if e.Step? {
      StepTouchesOnly(s, e.call, e.io);
    }
  }

  // ── Conservation ──────────────────────────────────────────────────────────

  ghost function Retrieved(s: State): set<RecordId> {
    set id | id in s.removed && s.removed[id].cause.ByRetrieve?
  }

  ghost function Deleted(s: State): set<RecordId> {
    set id | id in s.removed && s.removed[id].cause.ByDelete?
  }

  ghost function Dropped(s: State): set<RecordId> {
    set id | id in s.removed && s.removed[id].cause.ByExpiredAccess?
  }

  /** Every inserted record is live or was removed once, for one cause; sweeps account for exactly
      the removals they counted. */
  lemma Conservation(s: State)
    requires Reachable(s)
    ensures forall id :: id in s.inserted <==> id in s.records || id in s.removed
    ensures forall id :: !(id in s.records && id in s.removed)
    ensures |s.inserted| == |s.records| + |Retrieved(s)| + |Deleted(s)| + |Dropped(s)| + s.swept
  {
    ReachableTrue(s);
    CausesSplit(s);
    hide Reachable, InsertionsTrue, RemovalsTrue, CallsTrue, IdsDistinct, SweptIds, Retrieved, Deleted, Dropped;
    KeysSplit(s.inserted, s.records, s.removed);
  }

  lemma KeysSplit<K, A, B, C>(all: map<K, A>, one: map<K, B>, other: map<K, C>)
    requires forall k :: k in one <==> k in all && k !in other
    requires forall k :: k in other ==> k in all
    ensures |all| == |one| + |other.Keys|
  {
    assert all.Keys == one.Keys + other.Keys && one.Keys !! other.Keys;
    assert |all| == |all.Keys| && |one| == |one.Keys|;
  }

  lemma CausesSplit(s: State)
    ensures |s.removed.Keys| == |Retrieved(s)| + |Deleted(s)| + |Dropped(s)| + |SweptIds(s)|
  {
    var (a, b, c, d) := (Retrieved(s), Deleted(s), Dropped(s), SweptIds(s));
    assert s.removed.Keys == a + b + c + d;
    assert a !! b && (a + b) !! c && (a + b + c) !! d;
  }

  /** A cleanup that answers counted exactly the records it removed. */
  lemma CleanupCounts(s: State, c: CallId, count: nat)
    requires Reachable(s) && Over(s, c, Cleaned(count)) && s.calls[c].request.Cleanup?
    ensures count == |RemovedBy(s, c)|
    ensures forall id :: id in RemovedBy(s, c) ==>
              id in s.inserted && s.removed[id].cause.BySweep? && Sweepable(s.inserted[id].rec, s.removed[id].cause.now)
  {
    ReachableTrue(s);
    hide Reachable;
    CleanupFacts(s, c);
    hide StoreTrue, ClaimTrue, CallsTrue, IdsDistinct, RecordsTrue, InsertionsTrue, Sweepable, ParseToken, Unseal;
    forall id | id in RemovedBy(s, c)
      ensures id in s.inserted && s.removed[id].cause.BySweep? && Sweepable(s.inserted[id].rec, s.removed[id].cause.now)
    {
      assert RemovalTrue(s, id, s.removed[id]);
    }
  }

  // ── Availability ──────────────────────────────────────────────────────────

  /** The calls that may end an unexpired record: a retrieval with its own token, a delete that names it. */
  ghost predicate Ends(r: Request, origin: Request)
    requires origin.StoreProof?
  {
    || (r.RetrieveProof? && r.token == Token(Claim(origin.id, origin.key)))
    || (r.DeleteProof? && Names(r, origin.id))
  }

  /** A record goes away only by such a call, or once the clock has reached its expiry. */
  lemma RemovalNeedsCause(s: State, id: RecordId)
    requires Reachable(s) && id in s.removed
    ensures id in s.inserted && s.removed[id].call in s.calls
    ensures || Ends(s.calls[s.removed[id].call].request, Origin(s, id).request)
            || (s.inserted[id].rec.expiresAt.Some? && s.inserted[id].rec.expiresAt.value <= s.clock)
  {
    ReachableTrue(s);
    assert RemovalTrue(s, id, s.removed[id]);
    hide Reachable, ParseToken, Unseal, Seal, Token, StoreSideTrue, CallsTrue, IdsDistinct, RecordOf;
    var r := s.calls[s.removed[id].call].request;
    if s.removed[id].cause == ByRetrieve {
      ParsedTokensAreTokens(r.token);
      OpensToItsProof(s, id, ParseToken(r.token).value.key);
    }
  }

  /** A stored record stays, unchanged, while the clock is before its expiry, through every run of sweeps,
      calls for other records, and malformed or wrong-key retrievals. */
  lemma AvailableUntilExpiry(s: State, id: RecordId)
    requires Reachable(s) && id in s.inserted
    requires s.inserted[id].rec.expiresAt.Some? ==> s.clock < s.inserted[id].rec.expiresAt.value
    requires forall c :: c in s.calls ==> !Ends(s.calls[c].request, Origin(s, id).request)
    ensures id in s.records && s.records[id] == s.inserted[id].rec
  {
    ReachableTrue(s);
    hide Reachable;
    if id in s.removed {
      RemovalNeedsCause(s, id);
    }
    hide CallsTrue, IdsDistinct, RemovalsTrue, InsertionsTrue;
  }

  /** In terms of what the caller asked for: an issued proof is there for at least its TTL, counted from
      the moment the store call was made. */
  lemma AvailableForItsTtl(s: State, u: CallId, token: string)
    requires Reachable(s) && Over(s, u, Issued(token)) && s.calls[u].request.StoreProof?
    requires var k := s.calls[u];
             k.request.ttl.Some? ==> s.clock < k.madeAt + k.request.ttl.value * NANOS_PER_SEC
    requires forall c :: c in s.calls ==> !Ends(s.calls[c].request, s.calls[u].request)
    ensures s.calls[u].request.id in s.records
  {
    hide Reachable, Token, Ends, StoreSideTrue, CallsTrue, IdsDistinct, Seal, Storable;
    ReachableTrue(s);
    StoreFacts(s, u);
    var id := s.calls[u].request.id;
    var k := Origin(s, id);
    assert k == s.calls[u];
    hide StoreTrue, TimesTrue, Inv;
    AvailableUntilExpiry(s, id);
  }

  // ── Wrong keys ────────────────────────────────────────────────────────────

  /** A retrieval under any other key returns no proof, and removes the record only if it has expired. */
  lemma WrongKeyIsHarmless(s: State, c: CallId, id: RecordId)
    requires Reachable(s) && c in s.calls && s.calls[c].request.RetrieveProof? && Names(s.calls[c].request, id)
    requires id in s.inserted
    requires ParseToken(s.calls[c].request.token).value.key != Origin(s, id).request.key
    ensures !Succeeded(s, c, id)
    ensures forall other :: other in s.removed && s.removed[other].call == c ==>
              && other == id && s.removed[other].cause == ByExpiredAccess
              && s.inserted[id].rec.expiresAt.Some? && s.inserted[id].rec.expiresAt.value < s.clock
  {
    ReachableTrue(s);
    var claim := ParseToken(s.calls[c].request.token).value;
    OpensToItsProof(s, id, claim.key);
    hide Reachable, ParseToken, Unseal, Seal;
    if Succeeded(s, c, id) {
      WrongKeyFails(s, c, id);
    }
    hide Succeeded, RemovalTrue, CallsTrue, IdsDistinct, InsertionsTrue, RecordsTrue, Origin;
    forall other | other in s.removed && s.removed[other].call == c
      ensures && other == id && s.removed[other].cause == ByExpiredAccess
              && s.inserted[id].rec.expiresAt.Some? && s.inserted[id].rec.expiresAt.value < s.clock
    {
      RemovedUnopened(s, c, id, other);
    }
  }

  lemma RemovedUnopened(s: State, c: CallId, id: RecordId, other: RecordId)
    requires c in s.calls && s.calls[c].request.RetrieveProof? && Names(s.calls[c].request, id) && id in s.inserted
    requires Unseal(ParseToken(s.calls[c].request.token).value, s.inserted[id].rec).None?
    requires other in s.removed && other in s.inserted && RemovalTrue(s, other, s.removed[other]) && s.removed[other].call == c
    ensures && other == id && s.removed[other].cause == ByExpiredAccess
            && s.inserted[id].rec.expiresAt.Some? && s.inserted[id].rec.expiresAt.value < s.clock
  {
    hide ParseToken, Unseal;
  }

  lemma WrongKeyFails(s: State, c: CallId, id: RecordId)
    requires Reachable(s) && c in s.calls && s.calls[c].request.RetrieveProof? && Names(s.calls[c].request, id)
    requires id in s.inserted && Unseal(ParseToken(s.calls[c].request.token).value, s.inserted[id].rec).None?
    ensures !Succeeded(s, c, id)
  {
    hide Reachable, ParseToken, Unseal, IsExpired, Seal;
    if Succeeded(s, c, id) {
      ClaimEnds(s, c);
    }
  }

  /** In particular a token changed anywhere after its first 22 characters. */
  lemma TamperedTokenIsHarmless(s: State, c: CallId, u: CallId, token: string)
    requires Reachable(s) && Over(s, u, Issued(token)) && s.calls[u].request.StoreProof?
    requires c in s.calls && s.calls[c].request.RetrieveProof? && IsTokenText(s.calls[c].request.token)
    requires var tampered := s.calls[c].request.token;
             |tampered| == |token| == 64 && tampered != token && tampered[..22] == token[..22]
    ensures !Succeeded(s, c, s.calls[u].request.id)
    ensures s.calls[u].request.id in s.removed && s.removed[s.calls[u].request.id].call == c ==>
              s.removed[s.calls[u].request.id].cause == ByExpiredAccess
  {
    ReachableTrue(s);
    StoreFacts(s, u);
    var r := s.calls[u].request;
    hide Reachable, ParseToken, Token, IsTokenText, CallsTrue, IdsDistinct;
    TamperedTail(Claim(r.id, r.key), s.calls[c].request.token);
    assert Origin(s, r.id) == s.calls[u];
    WrongKeyIsHarmless(s, c, r.id);
  }

  // ── A call on its own ─────────────────────────────────────────────────────

  /** A call and its first `n` steps, no failure and nothing else in between. */
  function Solo(c: CallId, request: Request, n: nat): seq<Event> {
    if n == 0 then [Make(c, request)] else Solo(c, request, n - 1) + [Step(c, Works)]
  }

  lemma RunOn(s: State, events: seq<Event>, e: Event, mid: State, end: State)
    requires Run(s, events) == Some(mid) && Next(mid, e) == Some(end)
    ensures Run(s, events + [e]) == Some(end)
  {
    hide Next;
    assert (events + [e])[..|events|] == events;
  }

  lemma SoloOn(s: State, c: CallId, request: Request, n: nat, mid: State, end: State)
    requires Run(s, Solo(c, request, n)) == Some(mid) && Next(mid, Step(c, Works)) == Some(end)
    ensures Run(s, Solo(c, request, n + 1)) == Some(end)
  {
    RunOn(s, Solo(c, request, n), Step(c, Works), mid, end);
  }

  /** The state after a call is made. */
  function Made(s: State, c: CallId, request: Request): State {
    Tock(With(s, c, Call(request, Called, true, s.clock, None, None, None)))
  }

  lemma SoloMade(s: State, c: CallId, request: Request)
    requires c !in s.calls && FreshId(s, request)
    ensures Run(s, Solo(c, request, 0)) == Some(Made(s, c, request))
  {
    hide FreshId;
    RunOn(s, [], Make(c, request), s, Made(s, c, request));
    assert [] + [Make(c, request)] == Solo(c, request, 0);
  }

  /** Call `c` is over with what `alone` says. */
  ghost predicate Meets(s: State, c: CallId, alone: (VaultResult, Records)) {
    Over(s, c, alone.0) && s.records == alone.1
  }

  lemma StoreSoloRefused(s: State, c: CallId, request: Request)
    requires c !in s.calls && FreshId(s, request) && request.StoreProof? && ExpiryFor(request.ttl, s.clock).None?
    ensures Run(s, Solo(c, request, 1)).Some?
    ensures Meets(Run(s, Solo(c, request, 1)).value, c, VaultSpec.Alone(s.records, request, s.clock))
  {
    SoloMade(s, c, request);
    hide Run, Solo, FreshId, Seal, Token, ExpiryFor, Dateable, InRange;
    var s1 := Made(s, c, request);
    SoloOn(s, c, request, 0, s1, Next(s1, Step(c, Works)).value);
  }

  lemma StoreSoloBuilds(s: State, c: CallId, request: Request, expiresAt: Option<Instant>) returns (s3: State)
    requires c !in s.calls && FreshId(s, request) && request.StoreProof?
    requires ExpiryFor(request.ttl, s.clock) == Some(expiresAt) && Dateable(request.ttl, s.clock) && InRange(s.clock)
    ensures Run(s, Solo(c, request, 2)) == Some(s3) && c in s3.calls && s3.records == s.records
    ensures s3.calls[c].request == request && s3.calls[c].awaiting
    ensures s3.calls[c].phase == Inserting(StoredRecord(
              request.nonce, Seal(request.key, request.nonce, request.proof), s.clock, expiresAt))
  {
    SoloMade(s, c, request);
    hide Run, Solo, FreshId, Seal, Token, ExpiryFor, Dateable, InRange;
    var s1 := Made(s, c, request);
    var s2 := Tock(With(s1, c, s1.calls[c].(phase := Dated(expiresAt))));
    assert Next(s1, Step(c, Works)) == Some(s2);
    s3 := Next(s2, Step(c, Works)).value;
    SoloOn(s, c, request, 0, s1, s2);
    SoloOn(s, c, request, 1, s2, s3);
  }

  /** The clock, and the expiry it gives, have four-digit years where the call needs them. */
  predicate Timely(request: Request, now: Instant) {
    match request
    case StoreProof(_, ttl, _, _, _) =>
      || (ttl.Some? && (ttl.value == 0 || ttl.value > 9_223_372_036_854_775_807))
      || (InRange(now) && (ttl.Some? ==> InRange(now + ttl.value * 1_000_000_000)))
    case Cleanup => InRange(now)
    case _ => true
  }

  lemma TimelyStores(ttl: Option<nat>, now: Instant)
    requires ExpiryFor(ttl, now).Some?
    requires || (ttl.Some? && (ttl.value == 0 || ttl.value > 9_223_372_036_854_775_807))
             || (InRange(now) && (ttl.Some? ==> InRange(now + ttl.value * 1_000_000_000)))
    ensures Dateable(ttl, now) && InRange(now)
  {
    hide InRange;
  }

  lemma StoreSolo(s: State, c: CallId, request: Request) returns (n: nat)
    requires c !in s.calls && FreshId(s, request) && request.StoreProof? && Timely(request, s.clock)
    ensures Run(s, Solo(c, request, n)).Some?
    ensures Meets(Run(s, Solo(c, request, n)).value, c, VaultSpec.Alone(s.records, request, s.clock))
  {
    hide Run, Solo, FreshId, Seal, Token, ExpiryFor, Dateable, InRange;
    if ExpiryFor(request.ttl, s.clock).None? {
      StoreSoloRefused(s, c, request);
      return 1;
    }
    TimelyStores(request.ttl, s.clock);
    var s3 := StoreSoloBuilds(s, c, request, ExpiryFor(request.ttl, s.clock).value);
    SoloOn(s, c, request, 2, s3, Next(s3, Step(c, Works)).value);
    return 3;
  }

  lemma SamplesSo(s: State, c: CallId)
    requires c in s.calls && s.calls[c].request == Cleanup && s.calls[c].phase == Called && s.calls[c].awaiting
    requires InRange(s.clock)
    ensures Next(s, Step(c, Works)) == Some(Tock(With(s, c, s.calls[c].(phase := Sweeping(s.clock)))))
  {
    hide InRange;
  }

  lemma SweepsSo(s: State, c: CallId)
    requires c in s.calls && s.calls[c].request == Cleanup && s.calls[c].phase == Sweeping(s.clock) && s.calls[c].awaiting
    ensures Next(s, Step(c, Works)).Some?
    ensures Meets(Next(s, Step(c, Works)).value, c, VaultSpec.CleanupAlone(s.records, s.clock))
  {
    hide Victims, Sweep;
  }

  lemma CleanupSolo(s: State, c: CallId)
    requires c !in s.calls && InRange(s.clock)
    ensures Run(s, Solo(c, Cleanup, 2)).Some?
    ensures Meets(Run(s, Solo(c, Cleanup, 2)).value, c, VaultSpec.Alone(s.records, Cleanup, s.clock))
  {
    SoloMade(s, c, Cleanup);
    hide Run, Solo, Victims, Sweep, InRange, Next;
    var s1 := Made(s, c, Cleanup);
    var s2 := Tock(With(s1, c, s1.calls[c].(phase := Sweeping(s.clock))));
    SamplesSo(s1, c);
    SoloOn(s, c, Cleanup, 0, s1, s2);
    SweepsSo(s2, c);
    hide Meets;
    SoloOn(s, c, Cleanup, 1, s2, Next(s2, Step(c, Works)).value);
  }

  /** A claim that finds nothing to fetch. */
  lemma ClaimSoloMisses(s: State, c: CallId, request: Request)
    requires c !in s.calls && IsClaim(request)
    requires ParseToken(request.token).Some? ==> ParseToken(request.token).value.id !in s.records
    ensures Run(s, Solo(c, request, 1)).Some?
    ensures Meets(Run(s, Solo(c, request, 1)).value, c, VaultSpec.Alone(s.records, request, s.clock))
  {
    SoloMade(s, c, request);
    hide Run, Solo, ParseToken, Unseal, IsExpired;
    var s1 := Made(s, c, request);
    SoloOn(s, c, request, 0, s1, Next(s1, Step(c, Works)).value);
  }

  /** What a claim does next, having fetched `rec`. */
  function Judged(request: Request, claim: Claim, rec: StoredRecord, now: Instant): Phase
    requires IsClaim(request)
  {
    if IsExpired(rec, now) then Dropping(claim)
    else if request.DeleteProof? then Claiming(claim, [])
    else match Unseal(claim, rec)
         case None => Ended(Refused(DecryptionFailed))
         case Some(plaintext) => Claiming(claim, plaintext)
  }

  lemma JudgesSo(s: State, c: CallId, claim: Claim, rec: StoredRecord)
    requires c in s.calls && IsClaim(s.calls[c].request) && s.calls[c].awaiting
    ensures var s' := Tock(StepJudge(s, c, s.calls[c], claim, rec));
            && c in s'.calls && s'.records == s.records && s'.calls[c].request == s.calls[c].request
            && s'.calls[c].awaiting && s'.calls[c].phase == Judged(s.calls[c].request, claim, rec, s.clock)
  {
    hide Unseal, IsExpired;
  }

  /** A claim that fetches a record, up to the point where it has judged it. */
  lemma ClaimSoloJudges(s: State, c: CallId, request: Request, claim: Claim) returns (s3: State)
    requires c !in s.calls && IsClaim(request) && ParseToken(request.token) == Some(claim) && claim.id in s.records
    ensures Run(s, Solo(c, request, 2)) == Some(s3) && c in s3.calls && s3.records == s.records
    ensures s3.calls[c].request == request && s3.calls[c].awaiting
    ensures s3.calls[c].phase == Judged(request, claim, s.records[claim.id], s.clock)
  {
    SoloMade(s, c, request);
    hide Run, Solo, ParseToken, StepJudge, Judged;
    var s1 := Made(s, c, request);
    var s2 := Tock(With(s1, c, s1.calls[c].(fetchedAt := Some(s1.steps), phase := Fetched(claim, s.records[claim.id]))));
    assert Next(s1, Step(c, Works)) == Some(s2);
    SoloOn(s, c, request, 0, s1, s2);
    s3 := Tock(StepJudge(s2, c, s2.calls[c], claim, s.records[claim.id]));
    assert Next(s2, Step(c, Works)) == Some(s3);
    SoloOn(s, c, request, 1, s2, s3);
    JudgesSo(s2, c, claim, s.records[claim.id]);
  }

  /** The delete of a claim nobody interferes with. */
  lemma DeletesSo(s: State, c: CallId, claim: Claim)
    requires c in s.calls && IsClaim(s.calls[c].request) && s.calls[c].awaiting && claim.id in s.records
    requires s.calls[c].phase == Dropping(claim) || (s.calls[c].phase.Claiming? && s.calls[c].phase.claim == claim)
    ensures Next(s, Step(c, Works)).Some?
    ensures var result := if s.calls[c].phase.Dropping? then Refused(ProofExpired)
                          else if s.calls[c].request.DeleteProof? then Discarded
                          else Proof(s.calls[c].phase.plaintext);
            Meets(Next(s, Step(c, Works)).value, c, (result, s.records - {claim.id}))
  {
  }

  lemma ClaimSoloEnds(s: State, c: CallId, request: Request, claim: Claim) returns (n: nat)
    requires c !in s.calls && IsClaim(request) && ParseToken(request.token) == Some(claim) && claim.id in s.records
    ensures Run(s, Solo(c, request, n)).Some?
    ensures Meets(Run(s, Solo(c, request, n)).value, c, VaultSpec.Alone(s.records, request, s.clock))
  {
    hide Run, Solo, ParseToken, Unseal, IsExpired, Next;
    var s3 := ClaimSoloJudges(s, c, request, claim);
    if s3.calls[c].phase.Ended? {
      return 2;
    }
    DeletesSo(s3, c, claim);
    hide Meets;
    SoloOn(s, c, request, 2, s3, Next(s3, Step(c, Works)).value);
    return 3;
  }

  /** Any call, run with nothing in between, answers what the sequential vault does and leaves what it leaves. */
  lemma SoloCallsAreSequential(s: State, c: CallId, request: Request) returns (n: nat)
    requires c !in s.calls && Timely(request, s.clock)
    requires request.StoreProof? ==>
               forall d :: d in s.calls && s.calls[d].request.StoreProof? ==> s.calls[d].request.id != request.id
    ensures Run(s, Solo(c, request, n)).Some?
    ensures Meets(Run(s, Solo(c, request, n)).value, c, VaultSpec.Alone(s.records, request, s.clock))
  {
    assert FreshId(s, request);
    hide Run, Solo, Next, ParseToken, FreshId, Meets, VaultSpec.Alone;
    if request.StoreProof? {
      n := StoreSolo(s, c, request);
    } else if request.Cleanup? {
      CleanupSolo(s, c);
      n := 2;
    } else {
      var parsed := ParseToken(request.token);
      if parsed.None? || parsed.value.id !in s.records {
        ClaimSoloMisses(s, c, request);
        n := 1;
      } else {
        n := ClaimSoloEnds(s, c, request, parsed.value);
      }
    }
  }

  /** A live record that a claim by call `c` can take. */
  ghost predicate Takeable(s: State, c: CallId, id: RecordId) {
    && Reachable(s) && c !in s.calls && id in s.records && id in s.inserted
    && !IsExpired(s.records[id], s.clock)
  }

  /** A live, unexpired proof is served to its token, once. */
  lemma ServesItsToken(s: State, c: CallId, id: RecordId) returns (n: nat)
    requires Takeable(s, c, id)
    ensures var r := Origin(s, id).request;
            var ran := Run(s, Solo(c, RetrieveProof(Token(Claim(r.id, r.key))), n));
            ran.Some? && Over(ran.value, c, Proof(r.proof)) && ran.value.records == s.records - {id}
  {
    ReachableTrue(s);
    hide Reachable, Run, Solo, ParseToken, Unseal, IsExpired, Token, InsertionsTrue, RemovalsTrue, CallsTrue, IdsDistinct;
    var r := Origin(s, id).request;
    OpensToItsProof(s, id, r.key);
    TokenRoundTrip(Claim(r.id, r.key));
    n := SoloCallsAreSequential(s, c, RetrieveProof(Token(Claim(r.id, r.key))));
  }

  /** A delete takes any token that names the record: the key half is never looked at. */
  lemma DeleteIgnoresTheKey(s: State, c: CallId, id: RecordId, key: Key) returns (n: nat)
    requires Takeable(s, c, id)
    ensures var ran := Run(s, Solo(c, DeleteProof(Token(Claim(id, key))), n));
            ran.Some? && Over(ran.value, c, Discarded) && ran.value.records == s.records - {id}
  {
    hide Reachable, Run, Solo, ParseToken, Unseal, IsExpired, Token;
    TokenRoundTrip(Claim(id, key));
    n := SoloCallsAreSequential(s, c, DeleteProof(Token(Claim(id, key))));
  }

  /** Of the calls only `c` changed, it still asks for `r` and is `awaited` or not, and no time passed. */
  ghost predicate TouchesOnly(s: State, s': State, c: CallId, r: Request, awaited: bool) {
    c in s'.calls && s'.calls[c].request == r && s'.calls[c].awaiting == awaited && s'.clock == s.clock && s'.calls == s.calls[c := s'.calls[c]]
  }

  lemma StoreTouches(s: State, c: CallId, k: Call, io: Io)
    requires k.request.StoreProof? && StepStore(s, c, k, io).Some?
    ensures TouchesOnly(s, StepStore(s, c, k, io).value, c, k.request, k.awaiting)
  {
    hide Seal, Token, ExpiryFor;
  }

  lemma JudgeTouches(s: State, c: CallId, k: Call, claim: Claim, rec: StoredRecord)
    ensures TouchesOnly(s, StepJudge(s, c, k, claim, rec), c, k.request, k.awaiting)
  {
    hide Unseal, IsExpired;
  }

  lemma ClaimTouches(s: State, c: CallId, k: Call, token: string, io: Io)
    requires StepClaimCall(s, c, k, token, io).Some?
    ensures TouchesOnly(s, StepClaimCall(s, c, k, token, io).value, c, k.request, k.awaiting)
  {
    hide ParseToken, StepJudge, TouchesOnly;
    match k.phase
    case Called => assert TouchesOnly(s, StepFetch(s, c, k, token, io), c, k.request, k.awaiting) by { FetchTouches(s, c, k, token, io); }
    case Fetched(claim, rec) => JudgeTouches(s, c, k, claim, rec);
    case Claiming(claim, plaintext) => DeleteTouches(s, c, k, claim, plaintext, io);
    case Dropping(claim) => DropTouches(s, c, k, claim, io);
    case _ =>
  }

  lemma FetchTouches(s: State, c: CallId, k: Call, token: string, io: Io)
    ensures TouchesOnly(s, StepFetch(s, c, k, token, io), c, k.request, k.awaiting)
  {
    hide ParseToken;
  }

  lemma DeleteTouches(s: State, c: CallId, k: Call, claim: Claim, plaintext: bytes, io: Io)
    ensures TouchesOnly(s, StepClaim(s, c, k, claim, plaintext, io), c, k.request, k.awaiting)
  {
  }

  lemma DropTouches(s: State, c: CallId, k: Call, claim: Claim, io: Io)
    ensures TouchesOnly(s, StepDrop(s, c, k, claim, io), c, k.request, k.awaiting)
  {
  }

  lemma CleanupTouches(s: State, c: CallId, k: Call, io: Io)
    requires StepCleanup(s, c, k, io).Some?
    ensures TouchesOnly(s, StepCleanup(s, c, k, io).value, c, k.request, k.awaiting)
  {
    hide Victims, Sweep;
  }

  lemma StepTouchesOnly(s: State, c: CallId, io: Io)
    requires Next(s, Step(c, io)).Some?
    ensures c in s.calls && TouchesOnly(s, Next(s, Step(c, io)).value, c, s.calls[c].request, s.calls[c].awaiting)
  {
    hide StepStore, StepClaimCall, StepCleanup;
    var k := s.calls[c];
    match k.request
    case StoreProof(_, _, _, _, _) => StoreTouches(s, c, k, io);
    case RetrieveProof(token) => ClaimTouches(s, c, k, token, io);
    case DeleteProof(token) => ClaimTouches(s, c, k, token, io);
    case Cleanup => CleanupTouches(s, c, k, io);
  }

  /** A call on its own changes no other call, and no time passes. */
  lemma {:induction false} SoloTouchesOnly(s: State, c: CallId, request: Request, n: nat)
    requires c !in s.calls && FreshId(s, request) && Run(s, Solo(c, request, n)).Some?
    ensures TouchesOnly(s, Run(s, Solo(c, request, n)).value, c, request, true)
  {
    hide Next, FreshId, Run, Solo;
    SoloMade(s, c, request);
    if n > 0 {
      LastStep(s, c, request, n);
      SoloTouchesOnly(s, c, request, n - 1);
      StepTouchesOnly(Run(s, Solo(c, request, n - 1)).value, c, Works);
    }
  }

  lemma LastStep(s: State, c: CallId, request: Request, n: nat)
    requires n > 0 && Run(s, Solo(c, request, n)).Some?
    ensures Run(s, Solo(c, request, n - 1)).Some?
    ensures Run(s, Solo(c, request, n)) == Next(Run(s, Solo(c, request, n - 1)).value, Step(c, Works))
  {
    hide Next;
    var (all, init) := (Solo(c, request, n), Solo(c, request, n - 1));
    assert all[..|all| - 1] == init;
  }

  lemma StoredUnexpired(request: Request, now: Instant)
    requires request.StoreProof? && InRange(now)
    requires request.ttl.Some? ==> 0 < request.ttl.value && InRange(now + request.ttl.value * 1_000_000_000)
    ensures var (issued, m) := VaultSpec.Alone(map[], request, now);
            && issued == Issued(Token(Claim(request.id, request.key)))
            && request.id in m && !IsExpired(m[request.id], now)
  {
    hide Seal, Token;
  }

  lemma StoredBy(s: State, u: CallId)
    requires Reachable(s) && u in s.calls && s.calls[u].request.StoreProof? && s.calls[u].request.id in s.records
    ensures s.calls[u].request.id in s.inserted && Origin(s, s.calls[u].request.id) == s.calls[u]
  {
    ReachableTrue(s);
    StoreFacts(s, u);
    hide Reachable, Seal, Token, CallsTrue, IdsDistinct, RemovalsTrue, InsertionsTrue;
  }

  /** States with a takeable record are reachable: any accepted store call leads to one. */
  lemma StoringMakesTakeable(clock: Instant, request: Request, u: CallId, c: CallId) returns (s: State)
    requires request.StoreProof? && u != c && InRange(clock)
    requires request.ttl.Some? ==> 0 < request.ttl.value && InRange(clock + request.ttl.value * 1_000_000_000)
    ensures Takeable(s, c, request.id) && Over(s, u, Issued(Token(Claim(request.id, request.key))))
    ensures Origin(s, request.id).request == request
  {
    var n := SoloCallsAreSequential(Start(clock), u, request);
    SoloTouchesOnly(Start(clock), u, request, n);
    s := Run(Start(clock), Solo(u, request, n)).value;
    assert Reachable(s);
    hide Run, Reachable, Solo, Seal, Token, IsExpired, ExpiryFor, VaultSpec.Alone;
    StoredUnexpired(request, clock);
    StoredBy(s, u);
  }

  /** A proof can be lost: from any such state there is a retrieval whose delete takes effect and then reports an
      error, after which the record is gone and no caller has had the proof. */
  lemma ProofCanBeLost(s: State, c: CallId, id: RecordId) returns (events: seq<Event>)
    requires Takeable(s, c, id)
    ensures Run(s, events).Some?
    ensures var s' := Run(s, events).value;
            && Over(s', c, Refused(Storage)) && s'.records == s.records - {id}
            && forall d :: !Succeeded(s', d, id)
  {
    ReachableTrue(s);
    hide Reachable, ParseToken, Unseal, IsExpired, Token, InsertionsTrue, RemovalsTrue, CallsTrue, IdsDistinct;
    var r := Origin(s, id).request;
    var (claim, request) := (Claim(r.id, r.key), RetrieveProof(Token(Claim(r.id, r.key))));
    OpensToItsProof(s, id, r.key);
    TokenRoundTrip(claim);
    var s3 := ClaimSoloJudges(s, c, request, claim);
    SoloTouchesOnly(s, c, request, 2);
    hide Run, Solo;
    events := LosesIt(s, s3, c, request, claim);
  }

  lemma LosesIt(s: State, s3: State, c: CallId, request: Request, claim: Claim) returns (events: seq<Event>)
    requires Reachable(s) && c !in s.calls && request.RetrieveProof? && claim.id in s.records
    requires Run(s, Solo(c, request, 2)) == Some(s3) && s3.records == s.records && TouchesOnly(s, s3, c, request, true)
    requires s3.calls[c].phase.Claiming? && s3.calls[c].phase.claim == claim
    ensures Run(s, events).Some?
    ensures var s' := Run(s, events).value;
            && Over(s', c, Refused(Storage)) && s'.records == s.records - {claim.id}
            && forall d :: !Succeeded(s', d, claim.id)
  {
    hide Reachable, Run, Solo, Succeeded, Next;
    LostStep(s3, c, claim);
    var s4 := Next(s3, Step(c, FailsAfter)).value;
    StepTouchesOnly(s3, c, FailsAfter);
    events := Solo(c, request, 2) + [Step(c, FailsAfter)];
    RunOn(s, Solo(c, request, 2), Step(c, FailsAfter), s3, s4);
    forall d ensures !Succeeded(s4, d, claim.id) {
      NobodyYet(s, d, claim.id);
      StillNobody(s, s4, c, d, claim.id);
    }
  }

  lemma StillNobody(s: State, s': State, c: CallId, d: CallId, id: RecordId)
    requires !Succeeded(s, d, id) && Over(s', c, Refused(Storage)) && s'.calls == s.calls[c := s'.calls[c]]
    ensures !Succeeded(s', d, id)
  {
    hide ParseToken;
  }

  lemma LostStep(s: State, c: CallId, claim: Claim)
    requires c in s.calls && s.calls[c].request.RetrieveProof? && s.calls[c].awaiting && claim.id in s.records
    requires s.calls[c].phase.Claiming? && s.calls[c].phase.claim == claim
    ensures Next(s, Step(c, FailsAfter)).Some?
    ensures Meets(Next(s, Step(c, FailsAfter)).value, c, (Refused(Storage), s.records - {claim.id}))
  {
  }

  lemma NobodyYet(s: State, d: CallId, id: RecordId)
    requires Reachable(s) && id in s.records
    ensures !Succeeded(s, d, id)
  {
    ReachableTrue(s);
    hide Reachable, Succeeded, CallsTrue, IdsDistinct, InsertionsTrue, RemovalsTrue;
    if Succeeded(s, d, id) {
      SuccessSpansTheRemoval(s, d, id);
    }
  }

  // ── Two claims at once ────────────────────────────────────────────────────

  /** Two claims of one kind with one token, step by step in turn, up to the deletes ... */
  function InTurnToClaims(c: CallId, d: CallId, request: Request): seq<Event> {
    [Make(c, request), Make(d, request)]
    + [Step(c, Works)] + [Step(d, Works)] + [Step(c, Works)] + [Step(d, Works)]
  }

  /** ... and through them. */
  function InTurn(c: CallId, d: CallId, request: Request): seq<Event> {
    InTurnToClaims(c, d, request) + [Step(c, Works)] + [Step(d, Works)]
  }

  /** Two retrievals both return the proof, although the first one's delete has removed the record before the
      second's. */
  lemma BothRetrieve(s: State, c: CallId, d: CallId, id: RecordId)
    requires Takeable(s, c, id) && d !in s.calls && c != d
    ensures var r := Origin(s, id).request;
            var ran := Run(s, InTurn(c, d, RetrieveProof(Token(Claim(r.id, r.key)))));
            ran.Some? && Over(ran.value, c, Proof(r.proof)) && Over(ran.value, d, Proof(r.proof))
  {
    ReachableTrue(s);
    hide Reachable, Run, ParseToken, Unseal, IsExpired, Token, InsertionsTrue, RemovalsTrue, CallsTrue, IdsDistinct;
    var r := Origin(s, id).request;
    OpensToItsProof(s, id, r.key);
    TokenRoundTrip(Claim(r.id, r.key));
    InTurnRuns(s, c, d, RetrieveProof(Token(Claim(r.id, r.key))), Claim(r.id, r.key), r.proof);
  }

  /** Of two deletes, whatever keys their token carries, the first is told it deleted and the second that there was
      nothing to delete. */
  lemma OneDeletes(s: State, c: CallId, d: CallId, id: RecordId, key: Key)
    requires Takeable(s, c, id) && d !in s.calls && c != d
    ensures var ran := Run(s, InTurn(c, d, DeleteProof(Token(Claim(id, key)))));
            && ran.Some? && ran.value.records == s.records - {id}
            && Over(ran.value, c, Discarded) && Over(ran.value, d, Refused(ProofNotFound))
  {
    hide Reachable, Run, ParseToken, Unseal, IsExpired, Token;
    TokenRoundTrip(Claim(id, key));
    InTurnRuns(s, c, d, DeleteProof(Token(Claim(id, key))), Claim(id, key), []);
  }

  /** A claim of this kind gets past judging this record, a retrieval with this plaintext. */
  ghost predicate Passes(s: State, request: Request, claim: Claim, plaintext: bytes) {
    && IsClaim(request) && ParseToken(request.token) == Some(claim)
    && claim.id in s.records && !IsExpired(s.records[claim.id], s.clock)
    && if request.RetrieveProof? then Unseal(claim, s.records[claim.id]) == Some(plaintext) else plaintext == []
  }

  lemma MakesNext(s: State, c: CallId, request: Request)
    requires c !in s.calls && IsClaim(request)
    ensures Next(s, Make(c, request)) == Some(Made(s, c, request))
  {
  }

  lemma FetchesNext(s: State, c: CallId, claim: Claim)
    requires c in s.calls && IsClaim(s.calls[c].request) && s.calls[c].awaiting && s.calls[c].phase == Called
    requires ParseToken(s.calls[c].request.token) == Some(claim) && claim.id in s.records
    ensures Next(s, Step(c, Works)) == Some(Tock(With(s, c, s.calls[c].(
              fetchedAt := Some(s.steps), phase := Fetched(claim, s.records[claim.id])))))
  {
    hide ParseToken;
  }

  lemma JudgesNext(s: State, c: CallId, claim: Claim, rec: StoredRecord, plaintext: bytes)
    requires c in s.calls && IsClaim(s.calls[c].request) && s.calls[c].awaiting && s.calls[c].phase == Fetched(claim, rec)
    requires !IsExpired(rec, s.clock)
    requires if s.calls[c].request.RetrieveProof? then Unseal(claim, rec) == Some(plaintext) else plaintext == []
    ensures Next(s, Step(c, Works)) == Some(Tock(With(s, c, s.calls[c].(
              judgedAt := Some(s.clock), phase := Claiming(claim, plaintext)))))
  {
    hide IsExpired, Unseal;
  }

  lemma InTurnClaims(s: State, c: CallId, d: CallId, request: Request, claim: Claim, plaintext: bytes)
    returns (s6: State)
    requires c !in s.calls && d !in s.calls && c != d && Passes(s, request, claim, plaintext)
    ensures Run(s, InTurnToClaims(c, d, request)) == Some(s6) && c in s6.calls && d in s6.calls
    ensures s6.records == s.records
    ensures forall u :: u == c || u == d ==>
              s6.calls[u].request == request && s6.calls[u].awaiting && s6.calls[u].phase == Claiming(claim, plaintext)
  {
    hide ParseToken, Unseal, IsExpired, Next, Run;
    var (rec, e) := (s.records[claim.id], [Make(c, request), Make(d, request)]);
    assert [] + [e[0]] == [e[0]] && [e[0]] + [e[1]] == e;
    var s1, s2 := Made(s, c, request), Made(Made(s, c, request), d, request);
    MakesNext(s, c, request);
    MakesNext(s1, d, request);
    FetchesNext(s2, c, claim);
    var s3 := Next(s2, Step(c, Works)).value;
    FetchesNext(s3, d, claim);
    var s4 := Next(s3, Step(d, Works)).value;
    JudgesNext(s4, c, claim, rec, plaintext);
    var s5 := Next(s4, Step(c, Works)).value;
    JudgesNext(s5, d, claim, rec, plaintext);
    s6 := Next(s5, Step(d, Works)).value;
    RunNothing(s);
    RunOn(s, [], e[0], s, s1);
    RunOn(s, [e[0]], e[1], s1, s2);
    RunOn(s, e, Step(c, Works), s2, s3);
    RunOn(s, e + [Step(c, Works)], Step(d, Works), s3, s4);
    RunOn(s, e + [Step(c, Works)] + [Step(d, Works)], Step(c, Works), s4, s5);
    RunOn(s, e + [Step(c, Works)] + [Step(d, Works)] + [Step(c, Works)], Step(d, Works), s5, s6);
  }

  lemma RunNothing(s: State)
    ensures Run(s, []) == Some(s)
  {
  }

  /** The last two steps: the first delete removes the record, and only a delete call cares that the second does
      not. */
  lemma InTurnRuns(s: State, c: CallId, d: CallId, request: Request, claim: Claim, plaintext: bytes)
    requires c !in s.calls && d !in s.calls && c != d && Passes(s, request, claim, plaintext)
    ensures var ran := Run(s, InTurn(c, d, request));
            && ran.Some? && ran.value.records == s.records - {claim.id}
            && Over(ran.value, c, if request.RetrieveProof? then Proof(plaintext) else Discarded)
            && Over(ran.value, d, if request.RetrieveProof? then Proof(plaintext) else Refused(ProofNotFound))
  {
    hide ParseToken, Unseal, IsExpired, Run, InTurnToClaims, StepFetch, StepJudge, StepDrop;
    var s6 := InTurnClaims(s, c, d, request, claim, plaintext);
    var s7 := Next(s6, Step(c, Works)).value;
    var s8 := Next(s7, Step(d, Works)).value;
    var e := InTurnToClaims(c, d, request);
    RunOn(s, e, Step(c, Works), s6, s7);
    RunOn(s, e + [Step(c, Works)], Step(d, Works), s7, s8);
  }
}
