/** What holds after every event of every interleaving of the vault's calls. */
module ClaimInvariant {
  import opened Core
  import opened Uuid
  import opened Calendar
  import opened Backend
  import opened Claims
  import opened Aead
  import opened ClaimProtocol

  /** `id` was in the store when event `at` happened. */
  ghost predicate PresentAt(s: State, id: RecordId, at: nat) {
    && id in s.inserted && s.inserted[id].at < at
    && (id in s.removed ==> at < s.removed[id].at)
  }

  ghost predicate IsClaim(r: Request) {
    r.RetrieveProof? || r.DeleteProof?
  }

  ghost predicate Final(p: Phase) {
    p.Ended? || p.Abandoned?
  }

  // ── The store ─────────────────────────────────────────────────────────────

  /** Conservation: every inserted record is live or has one removal, never both. */
  ghost predicate RecordsTrue(s: State) {
    && (forall id :: id in s.records <==> id in s.inserted && id !in s.removed)
    && (forall id :: id in s.removed ==> id in s.inserted)
    && (forall id :: id in s.records ==> s.records[id] == s.inserted[id].rec)
  }

  /** An expiry lies at the TTL asked for, counted from an instant between `from` and `to`. */
  ghost predicate ExpiryTrue(ttl: Option<nat>, expiresAt: Option<Instant>, from: Instant, to: Instant) {
    && from <= to && (expiresAt.None? <==> ttl.None?)
    && (ttl.Some? ==> 0 < ttl.value <= I64_MAX
                      && from <= expiresAt.value - ttl.value * NANOS_PER_SEC <= to)
  }

  /** `rec` is the record the store call `k` builds. */
  ghost predicate RecordOf(k: Call, rec: StoredRecord)
    requires k.request.StoreProof?
  {
    && rec.nonce == k.request.nonce && rec.ciphertext == Seal(k.request.key, k.request.nonce, k.request.proof)
    && ExpiryTrue(k.request.ttl, rec.expiresAt, k.madeAt, rec.storedAt) && Storable(rec)
  }

  /** Each insertion is the work of the one store call for that id. */
  ghost predicate InsertionTrue(s: State, id: RecordId, i: Insertion) {
    && i.at < s.steps && i.call in s.calls
    && var k := s.calls[i.call];
       k.request.StoreProof? && k.request.id == id && RecordOf(k, i.rec) && i.rec.storedAt <= s.clock
  }

  ghost predicate InsertionsTrue(s: State) {
    forall id :: id in s.inserted ==> InsertionTrue(s, id, s.inserted[id])
  }

  /** What a caller whose call removed a record for `cause` was told, if anything: the good news or an error. */
  ghost predicate EndsFor(cause: Cause, p: Phase) {
    p.Ended? ==>
      match cause
      case ByRetrieve => p.result.Proof? || p.result == Refused(Storage)
      case ByDelete => p.result == Discarded || p.result == Refused(Storage)
      case ByExpiredAccess => p.result == Refused(ProofExpired)
      case BySweep(_) => p.result.Cleaned? || p.result == Refused(Storage)
  }

  /** Each removal is the work of one call that was entitled to it. */
  ghost predicate RemovalTrue(s: State, id: RecordId, r: Removal)
    requires id in s.inserted
  {
    && s.inserted[id].at < r.at < s.steps && r.call in s.calls
    && var (k, rec) := (s.calls[r.call], s.inserted[id].rec);
       && k.actedAt == Some(r.at) && Final(k.phase) && EndsFor(r.cause, k.phase)
       && match r.cause
          case ByRetrieve =>
            && k.request.RetrieveProof? && k.judgedAt.Some? && !IsExpired(rec, k.judgedAt.value)
            && ParseToken(k.request.token).Some? && ParseToken(k.request.token).value.id == id
            && Unseal(ParseToken(k.request.token).value, rec).Some?
          case ByDelete =>
            && k.request.DeleteProof? && k.judgedAt.Some? && !IsExpired(rec, k.judgedAt.value)
            && ParseToken(k.request.token).Some? && ParseToken(k.request.token).value.id == id
          case ByExpiredAccess =>
            && IsClaim(k.request) && k.judgedAt.Some? && IsExpired(rec, k.judgedAt.value) && k.judgedAt.value <= s.clock
            && ParseToken(k.request.token).Some? && ParseToken(k.request.token).value.id == id
          case BySweep(now) => k.request.Cleanup? && Sweepable(rec, now) && now <= s.clock
  }

  ghost predicate RemovalsTrue(s: State) {
    forall id :: id in s.removed ==> id in s.inserted && RemovalTrue(s, id, s.removed[id])
  }

  /** The ids sweeps have removed. */
  function SweptIds(s: State): set<RecordId> {
    set id | id in s.removed && s.removed[id].cause.BySweep?
  }

  /** The ids call `c` has removed. */
  function RemovedBy(s: State, c: CallId): set<RecordId> {
    set id | id in s.removed && s.removed[id].call == c
  }

  // ── The calls ─────────────────────────────────────────────────────────────

  ghost predicate IdsDistinct(s: State) {
    forall c, d ::
      (&& c in s.calls && d in s.calls
       && s.calls[c].request.StoreProof? && s.calls[d].request.StoreProof?
       && s.calls[c].request.id == s.calls[d].request.id) ==> c == d
  }

  ghost predicate TimesTrue(s: State, k: Call) {
    && (k.fetchedAt.Some? ==> k.fetchedAt.value < s.steps)
    && (k.judgedAt.Some? ==> k.judgedAt.value <= s.clock)
    && (k.actedAt.Some? ==> k.actedAt.value < s.steps && Final(k.phase)
                            && (k.fetchedAt.Some? ==> k.fetchedAt.value < k.actedAt.value))
    && (k.phase.Abandoned? ==> !k.awaiting) && k.madeAt <= s.clock
  }

  ghost predicate StoreTrue(s: State, c: CallId, k: Call)
    requires k.request.StoreProof?
  {
    var r := k.request;
    && (r.id in s.inserted ==> s.inserted[r.id].call == c)
    && match k.phase
       case Called => r.id !in s.inserted
       case Dated(expiresAt) =>
         && r.id !in s.inserted && ExpiryTrue(r.ttl, expiresAt, k.madeAt, s.clock)
         && (expiresAt.Some? ==> InRange(expiresAt.value))
       case Inserting(rec) => r.id !in s.inserted && RecordOf(k, rec) && rec.storedAt <= s.clock
       case Ended(Issued(token)) => r.id in s.inserted && token == Token(Claim(r.id, r.key))
       case Ended(Refused(error)) =>
         || (error == Storage && (r.ttl.Some? ==> 0 < r.ttl.value <= I64_MAX))
         || (error == InvalidParameter && r.id !in s.inserted
             && r.ttl.Some? && (r.ttl.value == 0 || r.ttl.value > I64_MAX))
       case Abandoned => true
       case _ => false
  }

  /** The call read the record of its token while it was in the store. */
  ghost predicate Read(s: State, k: Call, claim: Claim) {
    && IsClaim(k.request) && ParseToken(k.request.token) == Some(claim)
    && k.fetchedAt.Some? && PresentAt(s, claim.id, k.fetchedAt.value)
  }

  /** ... and judged it unexpired; a retrieval also decrypted it. */
  ghost predicate JudgedGood(s: State, k: Call, claim: Claim, plaintext: bytes) {
    && Read(s, k, claim) && k.judgedAt.Some? && !IsExpired(s.inserted[claim.id].rec, k.judgedAt.value)
    && (k.request.RetrieveProof? ==> Unseal(claim, s.inserted[claim.id].rec) == Some(plaintext))
  }

  ghost predicate JudgedExpired(s: State, k: Call, claim: Claim) {
    Read(s, k, claim) && k.judgedAt.Some? && IsExpired(s.inserted[claim.id].rec, k.judgedAt.value)
  }

  /** A record removed at or before the step at which the call acted. */
  ghost predicate GoneBy(s: State, id: RecordId, k: Call) {
    k.actedAt.Some? && id in s.removed && s.removed[id].at <= k.actedAt.value
  }

  /** Each way a claim can end says what had happened. */
  ghost predicate ResultTrue(s: State, c: CallId, k: Call, result: VaultResult)
    requires IsClaim(k.request)
  {
    var parsed := ParseToken(k.request.token);
    match result
    case Refused(InvalidId) => parsed.None?
    case Refused(ProofNotFound) =>
      && parsed.Some? && k.fetchedAt.Some?
      && (!PresentAt(s, parsed.value.id, k.fetchedAt.value)
          || (k.request.DeleteProof? && JudgedGood(s, k, parsed.value, []) && GoneBy(s, parsed.value.id, k)
              && s.removed[parsed.value.id].call != c))
    case Refused(ProofExpired) => parsed.Some? && JudgedExpired(s, k, parsed.value)
    case Refused(DecryptionFailed) =>
      && k.request.RetrieveProof? && parsed.Some? && Read(s, k, parsed.value)
      && k.judgedAt.Some? && !IsExpired(s.inserted[parsed.value.id].rec, k.judgedAt.value)
      && Unseal(parsed.value, s.inserted[parsed.value.id].rec).None?
    case Refused(Storage) => parsed.Some?
    case Proof(plaintext) =>
      && k.request.RetrieveProof? && parsed.Some? && JudgedGood(s, k, parsed.value, plaintext)
      && GoneBy(s, parsed.value.id, k)
    case Discarded =>
      && k.request.DeleteProof? && parsed.Some? && JudgedGood(s, k, parsed.value, [])
      && GoneBy(s, parsed.value.id, k) && s.removed[parsed.value.id].call == c
    case _ => false
  }

  ghost predicate ClaimTrue(s: State, c: CallId, k: Call)
    requires IsClaim(k.request)
  {
    match k.phase
    case Called => k.fetchedAt.None?
    case Fetched(claim, rec) => Read(s, k, claim) && rec == s.inserted[claim.id].rec
    case Claiming(claim, plaintext) => JudgedGood(s, k, claim, plaintext)
    case Dropping(claim) => JudgedExpired(s, k, claim)
    case Ended(result) => ResultTrue(s, c, k, result)
    case Abandoned => true
    case _ => false
  }

  ghost predicate CleanupTrue(s: State, c: CallId, k: Call)
    requires k.request.Cleanup?
  {
    match k.phase
    case Called => true
    case Sweeping(now) => now <= s.clock && InRange(now)
    case Ended(Cleaned(count)) => count == |RemovedBy(s, c)|
    case Ended(Refused(error)) => error == Storage
    case Abandoned => true
    case _ => false
  }

  ghost predicate CallTrue(s: State, c: CallId)
    requires c in s.calls
  {
    var k := s.calls[c];
    && TimesTrue(s, k)
    && (k.request.StoreProof? ==> StoreTrue(s, c, k))
    && (IsClaim(k.request) ==> ClaimTrue(s, c, k))
    && (k.request.Cleanup? ==> CleanupTrue(s, c, k))
  }

  ghost predicate CallsTrue(s: State) {
    forall c :: c in s.calls ==> CallTrue(s, c)
  }

  ghost predicate StoreSideTrue(s: State) {
    RecordsTrue(s) && InsertionsTrue(s) && RemovalsTrue(s) && |SweptIds(s)| == s.swept
  }

  ghost predicate Inv(s: State) {
    StoreSideTrue(s) && IdsDistinct(s) && CallsTrue(s)
  }

  // ── Nothing that happened is undone ───────────────────────────────────────

  /** Time goes on by one event of call `c`: new insertions and removals happen now, old ones stay. */
  ghost predicate Extends(s: State, s': State, c: CallId) {
    && s'.steps == s.steps + 1 && s.clock <= s'.clock
    && (forall id :: id in s.inserted ==> id in s'.inserted && s'.inserted[id] == s.inserted[id])
    && (forall id :: id in s'.inserted && id !in s.inserted ==>
          s'.inserted[id].at == s.steps && s'.inserted[id].call == c)
    && (forall id :: id in s.removed ==> id in s'.removed && s'.removed[id] == s.removed[id])
    && (forall id :: id in s'.removed && id !in s.removed ==>
          s'.removed[id].at == s.steps && s'.removed[id].call == c)
  }

  lemma PresenceStays(s: State, s': State, c: CallId, id: RecordId, at: nat)
    requires Extends(s, s', c) && at < s.steps
    ensures PresentAt(s', id, at) <==> PresentAt(s, id, at)
  {
  }

  /** A call that did not step keeps its part of the invariant. */
  lemma Bystander(s: State, s': State, c: CallId, u: CallId)
    requires Extends(s, s', c) && u != c && u in s.calls && u in s'.calls && s'.calls[u] == s.calls[u]
    requires CallTrue(s, u)
    requires s.calls[u].request.StoreProof? ==> (s.calls[u].request.id in s'.inserted ==> s.calls[u].request.id in s.inserted)
    ensures CallTrue(s', u)
  {
    hide Seal, ParseToken, Token, Unseal;
    var k := s.calls[u];
    if k.fetchedAt.Some? && IsClaim(k.request) && ParseToken(k.request.token).Some? {
      PresenceStays(s, s', c, ParseToken(k.request.token).value.id, k.fetchedAt.value);
    }
    assert RemovedBy(s', u) == RemovedBy(s, u);
  }

  /** Two entries of one call. */
  ghost predicate SameCall(k: Call, k': Call) {
    k.request == k'.request && k.madeAt == k'.madeAt
  }

  // ── Preservation ──────────────────────────────────────────────────────────

  /** Only call `c` changed, and neither what it asked for nor, if it had already ended, how. */
  ghost predicate OnlyCall(s: State, s': State, c: CallId) {
    && (forall u :: u in s.calls ==> u in s'.calls)
    && (forall u :: u in s'.calls && u != c ==> u in s.calls && s'.calls[u] == s.calls[u])
    && (c in s.calls ==> s'.calls[c].request == s.calls[c].request && s'.calls[c].madeAt == s.calls[c].madeAt
                         && (Final(s.calls[c].phase) ==> s'.calls[c] == s.calls[c]))
  }

  lemma OthersKeep(s: State, s': State, c: CallId)
    requires CallsTrue(s) && OnlyCall(s, s', c) && Extends(s, s', c)
    requires forall u :: u in s.calls && u != c && s.calls[u].request.StoreProof? && s.calls[u].request.id in s'.inserted
                         ==> s.calls[u].request.id in s.inserted
    requires c in s'.calls ==> CallTrue(s', c)
    ensures CallsTrue(s')
  {
    hide CallTrue, Extends;
    forall u | u in s'.calls ensures CallTrue(s', u) {
      if u != c {
        Bystander(s, s', c, u);
      }
    }
  }

  lemma OldInsertionsKeep(s: State, s': State, c: CallId)
    requires InsertionsTrue(s) && OnlyCall(s, s', c) && s.steps < s'.steps && s.clock <= s'.clock
    ensures forall id :: id in s.inserted ==> InsertionTrue(s', id, s.inserted[id])
  {
    hide Seal, ExpiryTrue;
  }

  lemma OldRemovalsKeep(s: State, s': State, c: CallId)
    requires RemovalsTrue(s) && OnlyCall(s, s', c) && s.steps < s'.steps && s.clock <= s'.clock
    requires forall id :: id in s.inserted ==> id in s'.inserted && s'.inserted[id] == s.inserted[id]
    ensures forall id :: id in s.removed ==> RemovalTrue(s', id, s.removed[id])
  {
    hide Seal, ParseToken, Unseal, IsExpired, Sweepable, EndsFor;
    forall id | id in s.removed ensures RemovalTrue(s', id, s.removed[id]) {
      assert RemovalTrue(s, id, s.removed[id]);
    }
  }

  /** An event that touches no record keeps the store's side of the invariant. */
  lemma UntouchedStore(s: State, s': State, c: CallId)
    requires StoreSideTrue(s) && OnlyCall(s, s', c) && s.steps < s'.steps && s.clock <= s'.clock
    requires s'.records == s.records && s'.inserted == s.inserted && s'.removed == s.removed && s'.swept == s.swept
    ensures StoreSideTrue(s')
  {
    OldInsertionsKeep(s, s', c);
    OldRemovalsKeep(s, s', c);
    hide InsertionTrue, RemovalTrue;
    assert SweptIds(s') == SweptIds(s);
  }

  lemma DistinctKeeps(s: State, s': State, c: CallId)
    requires IdsDistinct(s) && OnlyCall(s, s', c) && c in s.calls
    ensures IdsDistinct(s')
  {
    assert forall u :: u in s'.calls ==> u in s.calls && s'.calls[u].request == s.calls[u].request;
  }

  /** A step of call `c` that touches no record. */
  lemma QuietStep(s: State, c: CallId, k: Call)
    requires Inv(s) && c in s.calls && SameCall(k, s.calls[c]) && !Final(s.calls[c].phase)
    requires var s' := With(s, c, k).(steps := s.steps + 1); CallTrue(s', c)
    ensures Inv(With(s, c, k).(steps := s.steps + 1))
  {
    hide CallTrue, StoreSideTrue, IdsDistinct;
    var s' := With(s, c, k).(steps := s.steps + 1);
    UntouchedStore(s, s', c);
    DistinctKeeps(s, s', c);
    OthersKeep(s, s', c);
  }

  // ── Inserting ─────────────────────────────────────────────────────────────

  ghost function InsertedOne(s: State, c: CallId, k: Call, rec: StoredRecord): State
    requires k.request.StoreProof?
  {
    var id := k.request.id;
    With(s.(records := s.records[id := rec], inserted := s.inserted[id := Insertion(c, s.steps, rec)]), c, k)
      .(steps := s.steps + 1)
  }

  /** `s'` is `s` with `rec` inserted by call `c` under an id never used before. */
  ghost predicate Inserts(s: State, s': State, c: CallId, id: RecordId, rec: StoredRecord) {
    && OnlyCall(s, s', c) && s'.steps == s.steps + 1 && s'.clock == s.clock
    && id !in s.inserted && s'.removed == s.removed && s'.swept == s.swept
    && s'.inserted == s.inserted[id := Insertion(c, s.steps, rec)] && s'.records == s.records[id := rec]
  }

  lemma InsertionKeepsRecords(s: State, s': State, c: CallId, id: RecordId, rec: StoredRecord)
    requires RecordsTrue(s) && Inserts(s, s', c, id, rec)
    ensures RecordsTrue(s') && Extends(s, s', c) && SweptIds(s') == SweptIds(s)
  {
    hide OnlyCall;
    InsertionExtends(s, s', c, id, rec);
    hide Extends;
  }

  lemma InsertionExtends(s: State, s': State, c: CallId, id: RecordId, rec: StoredRecord)
    requires Inserts(s, s', c, id, rec)
    ensures Extends(s, s', c)
  {
    hide OnlyCall;
  }

  lemma InsertionKept(s: State, s': State, c: CallId, id: RecordId, rec: StoredRecord)
    requires StoreSideTrue(s) && Inserts(s, s', c, id, rec)
    requires InsertionTrue(s', id, Insertion(c, s.steps, rec))
    ensures StoreSideTrue(s') && Extends(s, s', c)
  {
    hide InsertionTrue, RemovalTrue, OnlyCall, RecordsTrue, Extends, SweptIds;
    OldInsertionsKeep(s, s', c);
    OldRemovalsKeep(s, s', c);
    InsertionKeepsRecords(s, s', c, id, rec);
  }

  lemma NotInsertedYet(s: State, c: CallId, k: Call, rec: StoredRecord)
    requires c in s.calls && CallTrue(s, c) && SameCall(k, s.calls[c]) && k.request.StoreProof?
    requires s.calls[c].phase == Inserting(rec)
    ensures var s' := InsertedOne(s, c, k, rec);
            && Inserts(s, s', c, k.request.id, rec) && InsertionTrue(s', k.request.id, Insertion(c, s.steps, rec))
  {
    hide TimesTrue, Seal, ExpiryTrue, Storable;
  }

  lemma OnlyItsId(s: State, c: CallId, id: RecordId)
    requires IdsDistinct(s) && c in s.calls && s.calls[c].request.StoreProof? && s.calls[c].request.id == id
    ensures forall u :: u in s.calls && u != c && s.calls[u].request.StoreProof? ==> s.calls[u].request.id != id
  {
  }

  /** A store call's insert. */
  lemma InsertStep(s: State, c: CallId, k: Call, rec: StoredRecord)
    requires Inv(s) && c in s.calls && SameCall(k, s.calls[c]) && k.request.StoreProof?
    requires s.calls[c].phase == Inserting(rec)
    requires CallTrue(InsertedOne(s, c, k, rec), c)
    ensures Inv(InsertedOne(s, c, k, rec))
  {
    hide StoreSideTrue, CallTrue, InsertionTrue, Extends, IdsDistinct, InsertedOne;
    assert CallTrue(s, c);
    var s' := InsertedOne(s, c, k, rec);
    NotInsertedYet(s, c, k, rec);
    InsertionKept(s, s', c, k.request.id, rec);
    DistinctKeeps(s, s', c);
    OnlyItsId(s, c, k.request.id);
    OthersKeep(s, s', c);
  }

  // ── Removing ──────────────────────────────────────────────────────────────

  /** `s'` is `s` with the live records `ids` removed by call `c`, all for one cause. */
  ghost predicate Removes(s: State, s': State, c: CallId, ids: set<RecordId>, cause: Cause) {
    && OnlyCall(s, s', c) && s'.steps == s.steps + 1 && s'.clock == s.clock
    && s'.inserted == s.inserted
    && (forall id :: id in ids ==> id in s.records)
    && (forall id :: id in s'.records <==> id in s.records && id !in ids)
    && (forall id :: id in s'.records ==> s'.records[id] == s.records[id])
    && (forall id :: id in s'.removed <==> id in s.removed || id in ids)
    && (forall id :: id in ids ==> s'.removed[id] == Removal(c, s.steps, cause))
    && (forall id :: id in s.removed && id !in ids ==> s'.removed[id] == s.removed[id])
    && s'.swept == s.swept + (if cause.BySweep? then |ids| else 0)
  }

  lemma RemovalKeepsRecords(s: State, s': State, c: CallId, ids: set<RecordId>, cause: Cause)
    requires RecordsTrue(s) && Removes(s, s', c, ids, cause)
    ensures RecordsTrue(s') && Extends(s, s', c)
  {
    hide OnlyCall;
  }

  lemma RemovalCounts(s: State, s': State, c: CallId, ids: set<RecordId>, cause: Cause)
    requires RecordsTrue(s) && Removes(s, s', c, ids, cause)
    ensures |SweptIds(s')| == |SweptIds(s)| + (if cause.BySweep? then |ids| else 0)
  {
    SweptIdsGrow(s, s', c, ids, cause);
    hide Removes, RecordsTrue, SweptIds;
  }

  lemma SweptMember(s: State, s': State, c: CallId, ids: set<RecordId>, cause: Cause, id: RecordId)
    requires RecordsTrue(s) && Removes(s, s', c, ids, cause)
    ensures id in SweptIds(s') <==> id in SweptIds(s) || (cause.BySweep? && id in ids)
    ensures id in ids ==> id !in SweptIds(s)
  {
    hide OnlyCall;
  }

  lemma SweptIdsGrow(s: State, s': State, c: CallId, ids: set<RecordId>, cause: Cause)
    requires RecordsTrue(s) && Removes(s, s', c, ids, cause)
    ensures SweptIds(s) !! ids
    ensures SweptIds(s') == if cause.BySweep? then SweptIds(s) + ids else SweptIds(s)
  {
    hide RecordsTrue, Removes, SweptIds;
    forall id
      ensures id in SweptIds(s') <==> id in SweptIds(s) || (cause.BySweep? && id in ids)
      ensures id in ids ==> id !in SweptIds(s)
    {
      SweptMember(s, s', c, ids, cause, id);
    }
  }

  lemma RemovalsKept(s: State, s': State, c: CallId, ids: set<RecordId>, cause: Cause)
    requires StoreSideTrue(s) && Removes(s, s', c, ids, cause)
    requires forall id :: id in ids ==> id in s.inserted && RemovalTrue(s', id, Removal(c, s.steps, cause))
    ensures StoreSideTrue(s') && Extends(s, s', c)
  {
    hide InsertionTrue, RemovalTrue, OnlyCall, RecordsTrue, Extends, SweptIds;
    OldInsertionsKeep(s, s', c);
    OldRemovalsKeep(s, s', c);
    RemovalKeepsRecords(s, s', c, ids, cause);
    RemovalCounts(s, s', c, ids, cause);
  }

  /** The delete that ends a claim, when the record is there. */
  ghost function RemovedOne(s: State, c: CallId, k: Call, id: RecordId, cause: Cause): State {
    With(s.(records := s.records - {id}, removed := s.removed[id := Removal(c, s.steps, cause)]), c, k)
      .(steps := s.steps + 1)
  }

  lemma RemoveStep(s: State, c: CallId, k: Call, id: RecordId, cause: Cause)
    requires Inv(s) && c in s.calls && SameCall(k, s.calls[c])
    requires !Final(s.calls[c].phase) && id in s.records && !cause.BySweep?
    requires var s' := RemovedOne(s, c, k, id, cause);
             id in s.inserted && RemovalTrue(s', id, Removal(c, s.steps, cause)) && CallTrue(s', c)
    ensures Inv(RemovedOne(s, c, k, id, cause))
  {
    var s' := RemovedOne(s, c, k, id, cause);
    hide CallTrue, StoreSideTrue, RemovalTrue, Extends, IdsDistinct;
    RemovalsKept(s, s', c, {id}, cause);
    DistinctKeeps(s, s', c);
    OthersKeep(s, s', c);
  }

  /** A sweep. */
  ghost function SweptAll(s: State, c: CallId, k: Call, now: Instant): State {
    var victims := Victims(s.records, now);
    With(s.(records := Sweep(s.records, now),
            removed := s.removed + map id | id in victims :: Removal(c, s.steps, BySweep(now)),
            swept := s.swept + |victims|), c, k)
      .(steps := s.steps + 1)
  }

  lemma SweptRemoval(s: State, c: CallId, k: Call, now: Instant, id: RecordId)
    requires RecordsTrue(s) && InsertionsTrue(s) && id in Victims(s.records, now) && k.request.Cleanup?
    requires Final(k.phase) && EndsFor(BySweep(now), k.phase) && k.actedAt == Some(s.steps) && now <= s.clock
    ensures RemovalTrue(SweptAll(s, c, k, now), id, Removal(c, s.steps, BySweep(now)))
  {
    assert InsertionTrue(s, id, s.inserted[id]);
  }

  lemma SweptAllRemoves(s: State, c: CallId, k: Call, now: Instant)
    requires RecordsTrue(s) && c in s.calls && SameCall(k, s.calls[c]) && !Final(s.calls[c].phase)
    ensures Removes(s, SweptAll(s, c, k, now), c, Victims(s.records, now), BySweep(now))
    ensures forall id :: id in Victims(s.records, now) ==> id in s.inserted
  {
    assert Sweep(s.records, now) == s.records - Victims(s.records, now);
  }

  lemma SweepStepKeeps(s: State, c: CallId, k: Call, now: Instant)
    requires Inv(s) && c in s.calls && SameCall(k, s.calls[c]) && k.request.Cleanup?
    requires !Final(s.calls[c].phase) && Final(k.phase) && k.actedAt == Some(s.steps) && now <= s.clock
    requires EndsFor(BySweep(now), k.phase)
    requires CallTrue(SweptAll(s, c, k, now), c)
    ensures Inv(SweptAll(s, c, k, now))
  {
    hide CallTrue, RemovalTrue, InsertionTrue, Extends, IdsDistinct;
    var s' := SweptAll(s, c, k, now);
    var victims := Victims(s.records, now);
    SweptAllRemoves(s, c, k, now);
    hide SweptAll;
    forall id | id in victims ensures id in s.inserted && RemovalTrue(s', id, Removal(c, s.steps, BySweep(now))) {
      SweptRemoval(s, c, k, now, id);
    }
    hide StoreSideTrue, Victims, Sweep, Final;
    RemovalsKept(s, s', c, victims, BySweep(now));
    DistinctKeeps(s, s', c);
    OthersKeep(s, s', c);
  }
}
