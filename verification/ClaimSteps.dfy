/** Every event of the claim protocol keeps its invariant. */
module ClaimSteps {
  import opened Core
  import opened Uuid
  import opened Calendar
  import opened Backend
  import opened Claims
  import opened Aead
  import opened ClaimProtocol
  import opened ClaimInvariant

  /** What a live call may still do. */
  ghost predicate Running(s: State, c: CallId) {
    c in s.calls && !Final(s.calls[c].phase)
  }

  /** Call `c` took a step that touched no record: only its own entry changed, to a true one. */
  ghost predicate QuietTrue(s: State, s': State, c: CallId) {
    && c in s.calls && c in s'.calls && s' == Tock(With(s, c, s'.calls[c]))
    && SameCall(s'.calls[c], s.calls[c]) && CallTrue(s', c)
  }

  // ── Store calls ───────────────────────────────────────────────────────────

  lemma StoreFacts(s: State, c: CallId)
    requires Inv(s) && c in s.calls && s.calls[c].request.StoreProof?
    ensures TimesTrue(s, s.calls[c]) && StoreTrue(s, c, s.calls[c]) && s.calls[c].madeAt <= s.clock
  {
    hide StoreSideTrue, IdsDistinct, StoreTrue;
    assert CallTrue(s, c);
  }

  lemma StoreCallTrue(s: State, c: CallId)
    requires c in s.calls && s.calls[c].request.StoreProof?
    requires TimesTrue(s, s.calls[c]) && StoreTrue(s, c, s.calls[c])
    ensures CallTrue(s, c)
  {
    hide TimesTrue, StoreTrue;
  }

  lemma StoreClock(s: State, c: CallId, io: Io)
    requires Running(s, c) && s.calls[c].request.StoreProof? && StepStore(s, c, s.calls[c], io).Some?
    ensures var (s', k) := (Tock(StepStore(s, c, s.calls[c], io).value), s.calls[c]);
            && s'.steps == s.steps + 1 && s'.clock == s.clock && c in s'.calls
            && s'.calls[c] == k.(phase := s'.calls[c].phase) && (s'.calls[c].phase.Abandoned? ==> !k.awaiting)
  {
    hide Seal, Token, ExpiryFor;
  }

  lemma StoreTimes(s: State, c: CallId, io: Io)
    requires Running(s, c) && s.calls[c].request.StoreProof? && StepStore(s, c, s.calls[c], io).Some?
    requires TimesTrue(s, s.calls[c])
    ensures var s' := Tock(StepStore(s, c, s.calls[c], io).value);
            c in s'.calls && SameCall(s'.calls[c], s.calls[c]) && TimesTrue(s', s'.calls[c])
  {
    StoreClock(s, c, io);
    hide StepStore, Tock;
  }

  lemma StoreShape(s: State, c: CallId, io: Io)
    requires Running(s, c) && s.calls[c].request.StoreProof? && StepStore(s, c, s.calls[c], io).Some?
    requires !s.calls[c].phase.Inserting? || io.FailsBefore?
    ensures var s' := Tock(StepStore(s, c, s.calls[c], io).value);
            c in s'.calls && s' == Tock(With(s, c, s'.calls[c]))
  {
    hide Seal, Token, ExpiryFor;
  }

  lemma InsertShape(s: State, c: CallId, io: Io)
    requires Running(s, c) && s.calls[c].request.StoreProof? && s.calls[c].phase.Inserting? && !io.FailsBefore?
    ensures var s' := Tock(StepStore(s, c, s.calls[c], io).value);
            && c in s'.calls && SameCall(s'.calls[c], s.calls[c])
            && s' == InsertedOne(s, c, s'.calls[c], s.calls[c].phase.rec)
  {
    hide Seal, Token, ExpiryFor;
  }

  lemma StoreStepTrue(s: State, c: CallId, io: Io)
    requires Running(s, c) && s.calls[c].request.StoreProof? && StepStore(s, c, s.calls[c], io).Some?
    requires StoreTrue(s, c, s.calls[c]) && s.calls[c].madeAt <= s.clock
    ensures var s' := Tock(StepStore(s, c, s.calls[c], io).value); c in s'.calls && StoreTrue(s', c, s'.calls[c])
  {
    hide StepStore, StoreTrue;
    if s.calls[c].phase.Inserting? {
      InsertTrue(s, c, io);
    } else {
      PrepareTrue(s, c, io);
    }
  }

  lemma PrepareTrue(s: State, c: CallId, io: Io)
    requires Running(s, c) && s.calls[c].request.StoreProof? && StepStore(s, c, s.calls[c], io).Some?
    requires StoreTrue(s, c, s.calls[c]) && s.calls[c].madeAt <= s.clock && !s.calls[c].phase.Inserting?
    ensures var s' := Tock(StepStore(s, c, s.calls[c], io).value); c in s'.calls && StoreTrue(s', c, s'.calls[c])
  {
    hide Seal, Token, InRange;
  }

  lemma InsertTrue(s: State, c: CallId, io: Io)
    requires Running(s, c) && s.calls[c].request.StoreProof? && StepStore(s, c, s.calls[c], io).Some?
    requires StoreTrue(s, c, s.calls[c]) && s.calls[c].phase.Inserting?
    ensures var s' := Tock(StepStore(s, c, s.calls[c], io).value); c in s'.calls && StoreTrue(s', c, s'.calls[c])
  {
    hide Seal, Token, InRange, ExpiryFor, Dateable, RecordOf;
    TtlInBounds(s.calls[c], s.calls[c].phase.rec);
  }

  lemma TtlInBounds(k: Call, rec: StoredRecord)
    requires k.request.StoreProof? && RecordOf(k, rec)
    ensures k.request.ttl.Some? ==> 0 < k.request.ttl.value <= I64_MAX
  {
    hide Seal, Storable;
  }

  lemma StoreStepKeeps(s: State, c: CallId, io: Io)
    requires Inv(s) && Running(s, c) && s.calls[c].request.StoreProof? && StepStore(s, c, s.calls[c], io).Some?
    ensures Inv(Tock(StepStore(s, c, s.calls[c], io).value))
  {
    hide StepStore, Inv, CallTrue, StoreTrue, TimesTrue, InsertedOne;
    StoreFacts(s, c);
    var s' := Tock(StepStore(s, c, s.calls[c], io).value);
    StoreTimes(s, c, io);
    StoreStepTrue(s, c, io);
    StoreCallTrue(s', c);
    if s.calls[c].phase.Inserting? && !io.FailsBefore? {
      InsertShape(s, c, io);
      InsertStep(s, c, s'.calls[c], s.calls[c].phase.rec);
    } else {
      StoreShape(s, c, io);
      QuietStep(s, c, s'.calls[c]);
    }
  }

  // ── Claims ────────────────────────────────────────────────────────────────

  lemma ClaimFacts(s: State, c: CallId)
    requires Inv(s) && c in s.calls && IsClaim(s.calls[c].request)
    ensures TimesTrue(s, s.calls[c]) && ClaimTrue(s, c, s.calls[c])
  {
    hide StoreSideTrue, IdsDistinct, TimesTrue, ClaimTrue;
    assert CallTrue(s, c);
  }

  lemma ClaimCallTrue(s: State, c: CallId)
    requires c in s.calls && IsClaim(s.calls[c].request)
    requires TimesTrue(s, s.calls[c]) && ClaimTrue(s, c, s.calls[c])
    ensures CallTrue(s, c)
  {
    hide TimesTrue, ClaimTrue;
  }

  lemma FetchedNow(s: State, id: RecordId)
    requires StoreSideTrue(s)
    ensures id in s.records <==> PresentAt(Tock(s), id, s.steps)
    ensures id in s.records ==> id in s.inserted && s.records[id] == s.inserted[id].rec
  {
    hide Seal, ParseToken, Unseal;
    if id in s.inserted {
      assert InsertionTrue(s, id, s.inserted[id]);
    }
    if id in s.removed {
      assert RemovalTrue(s, id, s.removed[id]);
    }
  }

  lemma FetchShape(s: State, c: CallId, io: Io)
    requires Running(s, c) && IsClaim(s.calls[c].request) && TimesTrue(s, s.calls[c])
    ensures var s' := Tock(StepFetch(s, c, s.calls[c], s.calls[c].request.token, io));
            && c in s'.calls && SameCall(s'.calls[c], s.calls[c]) && TimesTrue(s', s'.calls[c])
            && s' == Tock(With(s, c, s'.calls[c]))
  {
    hide ParseToken, TimesTrue;
    var s' := Tock(StepFetch(s, c, s.calls[c], s.calls[c].request.token, io));
    FetchTimes(s, s', s.calls[c], s'.calls[c]);
  }

  lemma FetchTimes(s: State, s': State, k: Call, k': Call)
    requires s'.steps == s.steps + 1 && s'.clock == s.clock
    requires TimesTrue(s, k) && !Final(k.phase) && k'.madeAt == k.madeAt && k'.awaiting == k.awaiting
    requires k'.judgedAt == k.judgedAt && k'.actedAt == k.actedAt && (k'.phase.Abandoned? ==> !k'.awaiting)
    requires k'.fetchedAt == k.fetchedAt || k'.fetchedAt == Some(s.steps)
    ensures TimesTrue(s', k')
  {
  }

  lemma FetchTrue(s: State, c: CallId, claim: Claim, io: Io)
    requires Running(s, c) && IsClaim(s.calls[c].request) && ParseToken(s.calls[c].request.token) == Some(claim)
    requires claim.id in s.records <==> PresentAt(Tock(s), claim.id, s.steps)
    requires claim.id in s.records ==> claim.id in s.inserted && s.records[claim.id] == s.inserted[claim.id].rec
    ensures var s' := Tock(StepFetch(s, c, s.calls[c], s.calls[c].request.token, io));
            c in s'.calls && ClaimTrue(s', c, s'.calls[c])
  {
    hide ParseToken, Unseal, IsExpired, JudgedGood, JudgedExpired, GoneBy;
  }

  lemma FetchNothingTrue(s: State, c: CallId, io: Io)
    requires Running(s, c) && IsClaim(s.calls[c].request) && ParseToken(s.calls[c].request.token).None?
    ensures var s' := Tock(StepFetch(s, c, s.calls[c], s.calls[c].request.token, io));
            c in s'.calls && ClaimTrue(s', c, s'.calls[c])
  {
    hide ParseToken, Unseal, IsExpired, JudgedGood, JudgedExpired, GoneBy;
  }

  lemma FetchStepKeeps(s: State, c: CallId, io: Io)
    requires Inv(s) && Running(s, c) && IsClaim(s.calls[c].request) && s.calls[c].phase.Called?
    ensures Inv(Tock(StepFetch(s, c, s.calls[c], s.calls[c].request.token, io)))
  {
    hide CallsTrue, StoreSideTrue, IdsDistinct, CallTrue, ClaimTrue, StepFetch, PresentAt, TimesTrue, ParseToken;
    var s' := Tock(StepFetch(s, c, s.calls[c], s.calls[c].request.token, io));
    var parsed := ParseToken(s.calls[c].request.token);
    if parsed.Some? {
      FetchedNow(s, parsed.value.id);
      FetchTrue(s, c, parsed.value, io);
    } else {
      FetchNothingTrue(s, c, io);
    }
    ClaimFacts(s, c);
    hide Inv;
    FetchShape(s, c, io);
    ClaimCallTrue(s', c);
    QuietStep(s, c, s'.calls[c]);
  }

  /** One more event leaves the insertions alone and only adds to the removals. */
  ghost predicate Onward(s: State, s': State) {
    && s'.inserted == s.inserted && s'.steps == s.steps + 1 && s'.clock == s.clock
    && (forall id :: id in s.removed ==> id in s'.removed && s'.removed[id] == s.removed[id])
    && (forall id :: id in s'.removed && id !in s.removed ==> s'.removed[id].at == s.steps)
  }

  /** It changes nothing for a record read before it. */
  lemma ReadStays(s: State, s': State, k: Call, k': Call, claim: Claim)
    requires Read(s, k, claim) && k'.request == k.request && k'.fetchedAt == k.fetchedAt
    requires Onward(s, s') && k.fetchedAt.value < s.steps
    ensures Read(s', k', claim)
  {
    hide ParseToken;
  }

  lemma JudgeShape(s: State, c: CallId, claim: Claim, rec: StoredRecord)
    requires Running(s, c)
    ensures var (s', k) := (Tock(StepJudge(s, c, s.calls[c], claim, rec)), s.calls[c]);
            && c in s'.calls && s' == Tock(With(s, c, s'.calls[c]))
            && s'.calls[c] == k.(judgedAt := Some(s.clock), phase := s'.calls[c].phase)
            && (s'.calls[c].phase.Abandoned? ==> !k.awaiting)
  {
    hide Unseal, IsExpired;
  }

  lemma JudgeFacts(s: State, c: CallId, claim: Claim, rec: StoredRecord)
    requires Running(s, c) && TimesTrue(s, s.calls[c])
    ensures var s' := Tock(StepJudge(s, c, s.calls[c], claim, rec));
            && c in s'.calls && TimesTrue(s', s'.calls[c]) && Onward(s, s')
            && SameCall(s'.calls[c], s.calls[c]) && s'.calls[c].fetchedAt == s.calls[c].fetchedAt
  {
    JudgeShape(s, c, claim, rec);
    hide StepJudge;
  }

  /** Whatever is decided about a record that was read, the decision is justified. */
  lemma JudgeTrue(s: State, c: CallId, claim: Claim, rec: StoredRecord)
    requires Running(s, c) && IsClaim(s.calls[c].request) && Onward(s, Tock(StepJudge(s, c, s.calls[c], claim, rec)))
    requires var s' := Tock(StepJudge(s, c, s.calls[c], claim, rec));
             c in s'.calls && Read(s', s'.calls[c], claim) && s'.inserted[claim.id].rec == rec
    ensures var s' := Tock(StepJudge(s, c, s.calls[c], claim, rec)); ClaimTrue(s', c, s'.calls[c])
  {
    hide ParseToken, Unseal, IsExpired, PresentAt;
  }

  lemma JudgeStepKeeps(s: State, c: CallId, claim: Claim, rec: StoredRecord)
    requires Inv(s) && Running(s, c) && IsClaim(s.calls[c].request) && s.calls[c].phase == Fetched(claim, rec)
    ensures Inv(Tock(StepJudge(s, c, s.calls[c], claim, rec)))
  {
    hide Inv, CallTrue, StepJudge, Onward;
    ClaimFacts(s, c);
    var s' := Tock(StepJudge(s, c, s.calls[c], claim, rec));
    JudgeShape(s, c, claim, rec);
    JudgeFacts(s, c, claim, rec);
    ReadStays(s, s', s.calls[c], s'.calls[c], claim);
    hide ClaimTrue, TimesTrue;
    JudgeTrue(s, c, claim, rec);
    ClaimCallTrue(s', c);
    QuietStep(s, c, s'.calls[c]);
  }

  /** A claim about to delete a record it has read: the record is live, or was removed by another call. */
  lemma LiveOrGone(s: State, c: CallId, claim: Claim)
    requires StoreSideTrue(s) && Running(s, c) && Read(s, s.calls[c], claim)
    ensures claim.id in s.inserted && s.inserted[claim.id].at < s.steps
    ensures claim.id in s.records <==> claim.id !in s.removed
    ensures claim.id in s.removed ==> s.removed[claim.id].at < s.steps && s.removed[claim.id].call != c
  {
    hide ParseToken, Unseal, Seal;
    var id := claim.id;
    assert InsertionTrue(s, id, s.inserted[id]);
    if id in s.removed {
      assert RemovalTrue(s, id, s.removed[id]);
    }
  }

  /** What a step that deletes `id` for `cause`, if it is there, does to the state. */
  ghost predicate Acted(s: State, s': State, c: CallId, id: RecordId, cause: Cause, io: Io) {
    && c in s.calls && c in s'.calls && SameCall(s'.calls[c], s.calls[c])
    && s'.calls[c].fetchedAt == s.calls[c].fetchedAt && s'.calls[c].judgedAt == s.calls[c].judgedAt
    && s'.calls[c].actedAt == Some(s.steps) && Final(s'.calls[c].phase)
    && (!io.FailsBefore? && id in s.records ==> EndsFor(cause, s'.calls[c].phase))
    && (if io.FailsBefore? || id !in s.records then s' == Tock(With(s, c, s'.calls[c]))
        else s' == RemovedOne(s, c, s'.calls[c], id, cause))
  }

  function CauseOf(r: Request): Cause {
    if r.RetrieveProof? then ByRetrieve else ByDelete
  }

  lemma ClaimShape(s: State, c: CallId, claim: Claim, plaintext: bytes, io: Io)
    requires Running(s, c) && TimesTrue(s, s.calls[c])
    ensures var s' := Tock(StepClaim(s, c, s.calls[c], claim, plaintext, io));
            Acted(s, s', c, claim.id, CauseOf(s.calls[c].request), io) && TimesTrue(s', s'.calls[c])
  {
  }

  lemma DropShape(s: State, c: CallId, claim: Claim, io: Io)
    requires Running(s, c) && TimesTrue(s, s.calls[c])
    ensures var s' := Tock(StepDrop(s, c, s.calls[c], claim, io));
            Acted(s, s', c, claim.id, ByExpiredAccess, io) && TimesTrue(s', s'.calls[c])
  {
  }

  /** After the delete, what the claim read still stands, and unless the delete failed the record is gone. */
  lemma ActedFacts(s: State, s': State, c: CallId, claim: Claim, cause: Cause, io: Io)
    requires StoreSideTrue(s) && Running(s, c) && Acted(s, s', c, claim.id, cause, io)
    requires Read(s, s.calls[c], claim) && TimesTrue(s, s.calls[c])
    ensures Read(s', s'.calls[c], claim) && s'.inserted == s.inserted && s'.clock == s.clock
    ensures !io.FailsBefore? ==> claim.id in s'.removed && s'.removed[claim.id].at <= s.steps
    ensures !io.FailsBefore? ==> (s'.removed[claim.id].call == c <==> claim.id in s.records)
  {
    hide StoreSideTrue, Final, PresentAt;
    LiveOrGone(s, c, claim);
    ActedOnward(s, s', c, claim.id, cause, io);
    hide Onward;
    ReadStays(s, s', s.calls[c], s'.calls[c], claim);
  }

  lemma ActedOnward(s: State, s': State, c: CallId, id: RecordId, cause: Cause, io: Io)
    requires Acted(s, s', c, id, cause, io) && (id in s.records ==> id !in s.removed)
    ensures Onward(s, s')
  {
    hide Final;
  }

  lemma ClaimEndTrue(s: State, c: CallId, claim: Claim, plaintext: bytes, io: Io)
    requires Running(s, c) && IsClaim(s.calls[c].request) && JudgedGood(s, s.calls[c], claim, plaintext)
    requires var s' := Tock(StepClaim(s, c, s.calls[c], claim, plaintext, io));
             && c in s'.calls && Read(s', s'.calls[c], claim) && s'.inserted == s.inserted
             && (!io.FailsBefore? ==> claim.id in s'.removed && s'.removed[claim.id].at <= s.steps)
             && (!io.FailsBefore? ==> (s'.removed[claim.id].call == c <==> claim.id in s.records))
    ensures var s' := Tock(StepClaim(s, c, s.calls[c], claim, plaintext, io)); ClaimTrue(s', c, s'.calls[c])
  {
    hide ParseToken, Unseal, IsExpired, PresentAt, Remove;
  }

  lemma DropEndTrue(s: State, c: CallId, claim: Claim, io: Io)
    requires Running(s, c) && IsClaim(s.calls[c].request) && JudgedExpired(s, s.calls[c], claim)
    requires var s' := Tock(StepDrop(s, c, s.calls[c], claim, io));
             c in s'.calls && Read(s', s'.calls[c], claim) && s'.inserted == s.inserted
    ensures var s' := Tock(StepDrop(s, c, s.calls[c], claim, io)); ClaimTrue(s', c, s'.calls[c])
  {
    hide ParseToken, Unseal, IsExpired, PresentAt, Remove;
  }

  /** The removal a claim makes is one it was entitled to. */
  lemma ActedRemovalTrue(s: State, s': State, c: CallId, claim: Claim, plaintext: bytes, cause: Cause, io: Io)
    requires StoreSideTrue(s) && Running(s, c) && Acted(s, s', c, claim.id, cause, io)
    requires !io.FailsBefore? && claim.id in s.records
    requires TimesTrue(s, s.calls[c]) && s'.inserted == s.inserted && s'.clock == s.clock && s'.steps == s.steps + 1
    requires if cause == ByExpiredAccess then JudgedExpired(s, s.calls[c], claim)
             else cause == CauseOf(s.calls[c].request) && JudgedGood(s, s.calls[c], claim, plaintext)
    ensures claim.id in s.inserted && RemovalTrue(s', claim.id, Removal(c, s.steps, cause))
  {
    LiveOrGone(s, c, claim);
    hide ParseToken, Unseal, IsExpired, StoreSideTrue, RemovedOne;
  }

  lemma ActedKeeps(s: State, s': State, c: CallId, claim: Claim, plaintext: bytes, cause: Cause, io: Io)
    requires Inv(s) && Running(s, c) && Acted(s, s', c, claim.id, cause, io) && CallTrue(s', c)
    requires TimesTrue(s, s.calls[c]) && s'.inserted == s.inserted && s'.clock == s.clock
    requires if cause == ByExpiredAccess then JudgedExpired(s, s.calls[c], claim)
             else cause == CauseOf(s.calls[c].request) && JudgedGood(s, s.calls[c], claim, plaintext)
    ensures Inv(s')
  {
    hide CallTrue, StoreSideTrue, IdsDistinct, CallsTrue, TimesTrue, JudgedGood, JudgedExpired;
    if io.FailsBefore? || claim.id !in s.records {
      QuietStep(s, c, s'.calls[c]);
    } else {
      ActedRemovalTrue(s, s', c, claim, plaintext, cause, io);
      hide RemovalTrue;
      RemoveStep(s, c, s'.calls[c], claim.id, cause);
    }
  }

  lemma ClaimStepKeeps(s: State, c: CallId, claim: Claim, plaintext: bytes, io: Io)
    requires Inv(s) && Running(s, c) && IsClaim(s.calls[c].request) && s.calls[c].phase == Claiming(claim, plaintext)
    ensures Inv(Tock(StepClaim(s, c, s.calls[c], claim, plaintext, io)))
  {
    hide StepClaim, CallTrue, CallsTrue, StoreSideTrue, IdsDistinct, Acted, TimesTrue;
    ClaimFacts(s, c);
    var s' := Tock(StepClaim(s, c, s.calls[c], claim, plaintext, io));
    ClaimShape(s, c, claim, plaintext, io);
    ActedFacts(s, s', c, claim, CauseOf(s.calls[c].request), io);
    ClaimEndTrue(s, c, claim, plaintext, io);
    hide ClaimTrue, JudgedGood, Read, Inv;
    ActedRequest(s, s', c, claim.id, CauseOf(s.calls[c].request), io);
    ClaimCallTrue(s', c);
    ActedKeeps(s, s', c, claim, plaintext, CauseOf(s.calls[c].request), io);
  }

  lemma ActedRequest(s: State, s': State, c: CallId, id: RecordId, cause: Cause, io: Io)
    requires Acted(s, s', c, id, cause, io)
    ensures c in s.calls && c in s'.calls && SameCall(s'.calls[c], s.calls[c])
  {
  }

  lemma DropStepKeeps(s: State, c: CallId, claim: Claim, io: Io)
    requires Inv(s) && Running(s, c) && IsClaim(s.calls[c].request) && s.calls[c].phase == Dropping(claim)
    ensures Inv(Tock(StepDrop(s, c, s.calls[c], claim, io)))
  {
    hide StepDrop, CallTrue, CallsTrue, StoreSideTrue, IdsDistinct, Acted, TimesTrue;
    ClaimFacts(s, c);
    var s' := Tock(StepDrop(s, c, s.calls[c], claim, io));
    DropShape(s, c, claim, io);
    ActedFacts(s, s', c, claim, ByExpiredAccess, io);
    DropEndTrue(s, c, claim, io);
    hide ClaimTrue, JudgedExpired, Read, Inv;
    ActedRequest(s, s', c, claim.id, ByExpiredAccess, io);
    ClaimCallTrue(s', c);
    ActedKeeps(s, s', c, claim, [], ByExpiredAccess, io);
  }

  lemma ClaimCallKeeps(s: State, c: CallId, io: Io)
    requires Inv(s) && Running(s, c) && IsClaim(s.calls[c].request)
    requires StepClaimCall(s, c, s.calls[c], s.calls[c].request.token, io).Some?
    ensures Inv(Tock(StepClaimCall(s, c, s.calls[c], s.calls[c].request.token, io).value))
  {
    hide Inv, CallTrue, StepFetch, StepJudge, StepClaim, StepDrop;
    match s.calls[c].phase
    case Called => FetchStepKeeps(s, c, io);
    case Fetched(claim, rec) => JudgeStepKeeps(s, c, claim, rec);
    case Claiming(claim, plaintext) => ClaimStepKeeps(s, c, claim, plaintext, io);
    case Dropping(claim) => DropStepKeeps(s, c, claim, io);
    case _ =>
  }

  // ── Cleanup calls ─────────────────────────────────────────────────────────

  lemma CleanupFacts(s: State, c: CallId)
    requires Inv(s) && c in s.calls && s.calls[c].request.Cleanup?
    ensures TimesTrue(s, s.calls[c]) && CleanupTrue(s, c, s.calls[c])
  {
    hide StoreSideTrue, IdsDistinct, TimesTrue, CleanupTrue;
    assert CallTrue(s, c);
  }

  lemma CleanupQuietTrue(s: State, c: CallId, io: Io)
    requires Running(s, c) && s.calls[c].request.Cleanup? && StepCleanup(s, c, s.calls[c], io).Some?
    requires TimesTrue(s, s.calls[c]) && (s.calls[c].phase.Sweeping? ==> io.FailsBefore?)
    requires CleanupTrue(s, c, s.calls[c])
    ensures QuietTrue(s, Tock(StepCleanup(s, c, s.calls[c], io).value), c)
  {
    hide Sweep, Victims, RemovedBy;
  }

  lemma SweepTrue(s: State, c: CallId, now: Instant, io: Io)
    requires Inv(s) && Running(s, c) && s.calls[c].request.Cleanup? && s.calls[c].phase == Sweeping(now)
    requires !io.FailsBefore?
    ensures var s' := Tock(StepSweep(s, c, s.calls[c], now, io));
            && c in s'.calls && s' == SweptAll(s, c, s'.calls[c], now) && now <= s.clock
            && SameCall(s'.calls[c], s.calls[c]) && s'.calls[c].actedAt == Some(s.steps)
            && Final(s'.calls[c].phase) && EndsFor(BySweep(now), s'.calls[c].phase) && CallTrue(s', c)
  {
    CleanupFacts(s, c);
    SweptByCall(s, c, now, io);
    SweepShape(s, c, now, io);
    SweepAnswers(s, c, now, io);
    hide StoreSideTrue, CallsTrue, IdsDistinct, Sweep, Victims, RemovedBy, StepSweep, SweptAll, EndsFor;
  }

  lemma SweepShape(s: State, c: CallId, now: Instant, io: Io)
    requires Running(s, c) && !io.FailsBefore? && TimesTrue(s, s.calls[c])
    ensures var s' := Tock(StepSweep(s, c, s.calls[c], now, io));
            && c in s'.calls && s' == SweptAll(s, c, s'.calls[c], now) && TimesTrue(s', s'.calls[c])
            && SameCall(s'.calls[c], s.calls[c]) && s'.calls[c].actedAt == Some(s.steps)
  {
    hide Sweep, Victims;
  }

  lemma SweepAnswers(s: State, c: CallId, now: Instant, io: Io)
    requires Running(s, c) && !io.FailsBefore?
    ensures var s' := Tock(StepSweep(s, c, s.calls[c], now, io));
            && c in s'.calls && Final(s'.calls[c].phase) && EndsFor(BySweep(now), s'.calls[c].phase)
            && (s'.calls[c].phase.Ended? ==>
                  s'.calls[c].phase.result == if io.Works? then Cleaned(|Victims(s.records, now)|) else Refused(Storage))
  {
    hide Sweep, Victims;
  }

  lemma SweptByCall(s: State, c: CallId, now: Instant, io: Io)
    requires StoreSideTrue(s) && Running(s, c) && !io.FailsBefore?
    ensures RemovedBy(Tock(StepSweep(s, c, s.calls[c], now, io)), c) == Victims(s.records, now)
  {
    forall id | id in s.removed ensures s.removed[id].call != c {
      assert RemovalTrue(s, id, s.removed[id]);
    }
    hide StoreSideTrue, RemovalsTrue, InsertionsTrue, Sweep, With, Go, RemovalTrue;
  }

  lemma CleanupStepKeeps(s: State, c: CallId, io: Io)
    requires Inv(s) && Running(s, c) && s.calls[c].request.Cleanup? && StepCleanup(s, c, s.calls[c], io).Some?
    ensures Inv(Tock(StepCleanup(s, c, s.calls[c], io).value))
  {
    hide Inv, CallTrue, StepSweep;
    var k := s.calls[c];
    var s' := Tock(StepCleanup(s, c, k, io).value);
    if k.phase.Sweeping? && !io.FailsBefore? {
      SweepTrue(s, c, k.phase.now, io);
      SweepStepKeeps(s, c, s'.calls[c], k.phase.now);
    } else {
      CleanupFacts(s, c);
      CleanupQuietTrue(s, c, io);
      QuietStep(s, c, s'.calls[c]);
    }
  }

  // ── Any event ─────────────────────────────────────────────────────────────

  lemma OnlyRunningCallsStep(s: State, c: CallId, io: Io)
    requires c in s.calls && StepCall(s, c, io).Some?
    ensures Running(s, c)
  {
    hide StepFetch, StepJudge, StepClaim, StepDrop, StepSweep;
  }

  lemma StepKeeps(s: State, c: CallId, io: Io)
    requires Inv(s) && c in s.calls && StepCall(s, c, io).Some?
    ensures Inv(Tock(StepCall(s, c, io).value))
  {
    OnlyRunningCallsStep(s, c, io);
    hide Inv, StepStore, StepClaimCall, StepCleanup;
    match s.calls[c].request
    case StoreProof(_, _, _, _, _) => StoreStepKeeps(s, c, io);
    case RetrieveProof(_) => ClaimCallKeeps(s, c, io);
    case DeleteProof(_) => ClaimCallKeeps(s, c, io);
    case Cleanup => CleanupStepKeeps(s, c, io);
  }

  lemma AbandonKeeps(s: State, c: CallId)
    requires Inv(s) && Effect(s, Abandon(c)).Some?
    ensures Inv(Tock(Effect(s, Abandon(c)).value))
  {
    hide CallTrue, StoreSideTrue, IdsDistinct;
    var k := s.calls[c].(awaiting := false);
    AbandonedTrue(s, c);
    hide Inv;
    QuietStep(s, c, k);
  }

  lemma AbandonedTrue(s: State, c: CallId)
    requires c in s.calls && CallTrue(s, c) && s.calls[c].awaiting && !s.calls[c].phase.Ended?
    ensures Running(s, c) && CallTrue(Tock(With(s, c, s.calls[c].(awaiting := false))), c)
  {
    hide ParseToken, Unseal, Seal, IsExpired;
  }

  lemma Unused(used: set<CallId>) returns (c: CallId)
    ensures forall u :: u in used ==> u < c
  {
    c := 0;
    var rest := used;
    while rest != {}
      invariant rest <= used
      invariant forall u :: u in used && u !in rest ==> u < c
      decreases |rest|
    {
      var u :| u in rest;
      rest := rest - {u};
      c := if c <= u then u + 1 else c;
    }
  }

  lemma TickKeeps(s: State, nanos: nat)
    requires Inv(s)
    ensures Inv(Tock(s.(clock := s.clock + nanos)))
  {
    var s' := Tock(s.(clock := s.clock + nanos));
    var c := Unused(s.calls.Keys);
    UntouchedStore(s, s', c);
    hide CallTrue, StoreSideTrue;
    OthersKeep(s, s', c);
  }

  lemma MakeKeeps(s: State, c: CallId, request: Request)
    requires Inv(s) && Effect(s, Make(c, request)).Some?
    ensures Inv(Tock(Effect(s, Make(c, request)).value))
  {
    hide CallTrue, StoreSideTrue, Effect, FreshId, IdsDistinct, OnlyCall, CallsTrue, Extends;
    var s' := Tock(Effect(s, Make(c, request)).value);
    MadeTrue(s, c, request);
    MadeShape(s, c, request);
    MadeExtends(s, c, request);
    MadeDistinct(s, c, request);
    UntouchedStore(s, s', c);
    OthersKeep(s, s', c);
  }

  lemma MadeExtends(s: State, c: CallId, request: Request)
    requires Effect(s, Make(c, request)).Some?
    ensures Extends(s, Tock(Effect(s, Make(c, request)).value), c)
  {
    hide FreshId;
  }

  lemma MadeShape(s: State, c: CallId, request: Request)
    requires Effect(s, Make(c, request)).Some?
    ensures var s' := Tock(Effect(s, Make(c, request)).value);
            && OnlyCall(s, s', c) && s'.steps == s.steps + 1 && s'.clock == s.clock && s'.records == s.records
            && s'.inserted == s.inserted && s'.removed == s.removed && s'.swept == s.swept
  {
    hide FreshId;
  }

  lemma MadeDistinct(s: State, c: CallId, request: Request)
    requires IdsDistinct(s) && Effect(s, Make(c, request)).Some?
    ensures IdsDistinct(Tock(Effect(s, Make(c, request)).value))
  {
  }

  lemma MadeTrue(s: State, c: CallId, request: Request)
    requires Inv(s) && Effect(s, Make(c, request)).Some?
    ensures c in Tock(Effect(s, Make(c, request)).value).calls
    ensures CallTrue(Tock(Effect(s, Make(c, request)).value), c)
  {
    hide RecordsTrue, RemovalsTrue, CallsTrue, Seal;
    assert forall id :: id in s.inserted ==> InsertionTrue(s, id, s.inserted[id]);
  }

  /** The invariant survives every event. */
  lemma NextKeeps(s: State, e: Event)
    requires Inv(s) && Next(s, e).Some?
    ensures Inv(Next(s, e).value)
  {
    hide Inv, StepCall;
    match e
    case Tick(nanos) => TickKeeps(s, nanos);
    case Make(c, request) => MakeKeeps(s, c, request);
    case Step(c, io) => StepKeeps(s, c, io);
    case Abandon(c) => AbandonKeeps(s, c);
  }

  lemma StartKeeps(clock: Instant)
    ensures Inv(Start(clock))
  {
    assert SweptIds(Start(clock)) == {};
  }

  /** ... and so holds after every run. */
  lemma {:induction false} RunKeeps(clock: Instant, events: seq<Event>)
    requires Run(Start(clock), events).Some?
    ensures Inv(Run(Start(clock), events).value)
  {
    hide Inv, Next;
    if events == [] {
      StartKeeps(clock);
    } else {
      RunKeeps(clock, events[..|events| - 1]);
      NextKeeps(Run(Start(clock), events[..|events| - 1]).value, events[|events| - 1]);
    }
  }
}
