/** A symbolic AEAD: a sealed text spells out the key, the nonce and the plaintext it was made from,
    and opens only under that key and nonce.  Secrecy is not modelled. */
module Aead {
  import opened Core
  import opened Claims

  const NONCE_LEN := 12

  type Nonce = n: bytes | |n| == 12 witness seq(12, _ => 0)

  function Seal(key: Key, nonce: Nonce, plaintext: bytes): bytes {
    key + nonce + plaintext
  }

  function Open(key: Key, nonce: Nonce, sealed: bytes): Option<bytes> {
    if 44 <= |sealed| && sealed[..32] == key && sealed[32..44] == nonce then Some(sealed[44..]) else None
  }

  lemma OpensOnlyWithItsKey(key: Key, nonce: Nonce, plaintext: bytes, other: Key)
    ensures Open(other, nonce, Seal(key, nonce, plaintext)) == (if other == key then Some(plaintext) else None)
  {
    var sealed := Seal(key, nonce, plaintext);
    assert sealed[..32] == key && sealed[32..44] == nonce && sealed[44..] == plaintext;
  }
}

/** The vault's calls over one shared record store.  Every call is a sequence of separate steps; steps
    of any number of calls interleave, storage steps may fail before or after taking effect, callers
    may go away, and the clock runs on. */
module ClaimProtocol {
  import opened Core
  import opened Uuid
  import opened Calendar
  import opened Backend
  import opened Claims
  import opened Aead

  type CallId = nat

  datatype VaultError =
    | ProofNotFound | ProofExpired | DecryptionFailed | InvalidId | InvalidParameter | Storage

  datatype VaultResult =
    | Issued(token: string)
    | Proof(plaintext: bytes)
    | Discarded
    | Cleaned(count: nat)
    | Refused(error: VaultError)

  /** What a caller asked for.  A store call's key, nonce and record id are drawn at random. */
  datatype Request =
    | StoreProof(proof: bytes, ttl: Option<nat>, key: Key, nonce: Nonce, id: RecordId)
    | RetrieveProof(token: string)
    | DeleteProof(token: string)
    | Cleanup

  datatype Phase =
    | Called
    | Dated(expiresAt: Option<Instant>)          // store: expiry fixed, record not yet built
    | Inserting(rec: StoredRecord)               // store: insert is next
    | Fetched(claim: Claim, rec: StoredRecord)   // claim: record read, not yet judged
    | Claiming(claim: Claim, plaintext: bytes)   // claim: judged good, delete is next
    | Dropping(claim: Claim)                     // claim: judged expired, delete is next
    | Sweeping(now: Instant)                     // cleanup: clock sampled, sweep is next
    | Ended(result: VaultResult)
    | Abandoned                                  // the caller went away

  /** One call.  `fetchedAt` and `actedAt` are indices of events in the run; `madeAt` and `judgedAt` are
      clock readings. */
  datatype Call = Call(
    request: Request, phase: Phase, awaiting: bool, madeAt: Instant,
    fetchedAt: Option<nat>, judgedAt: Option<Instant>, actedAt: Option<nat>)

  /** Why a record went away. */
  datatype Cause = ByRetrieve | ByDelete | ByExpiredAccess | BySweep(now: Instant)

  datatype Insertion = Insertion(call: CallId, at: nat, rec: StoredRecord)
  datatype Removal = Removal(call: CallId, at: nat, cause: Cause)

  datatype State = State(
    records: Records,
    clock: Instant,
    calls: map<CallId, Call>,
    steps: nat,                           // events so far
    inserted: map<RecordId, Insertion>,   // every record ever inserted
    removed: map<RecordId, Removal>,      // every record ever removed
    swept: nat)                           // total of the counts of all sweep steps

  /** How a storage step goes: it works, or its caller gets an error and it took no effect or full effect. */
  datatype Io = Works | FailsBefore | FailsAfter

  datatype Event =
    | Tick(nanos: nat)
    | Make(call: CallId, request: Request)
    | Step(call: CallId, io: Io)
    | Abandon(call: CallId)

  // ── Single steps ──────────────────────────────────────────────────────────

  const I64_MAX := 0x7FFF_FFFF_FFFF_FFFF

  /** The expiry for a TTL in seconds counted from `now`, or `None` when the TTL is refused. */
  function ExpiryFor(ttl: Option<nat>, now: Instant): Option<Option<Instant>> {
    if ttl == Some(0) then None
    else if ttl.Some? && ttl.value > I64_MAX then None
    else if ttl.None? then Some(None)
    else Some(Some(now + ttl.value * NANOS_PER_SEC))
  }

  /** The expiry, if the TTL sets one that fits the type, has a four-digit year: later ones are outside the model. */
  predicate Dateable(ttl: Option<nat>, now: Instant) {
    ttl.Some? && 0 < ttl.value <= 9_223_372_036_854_775_807 ==> InRange(now + ttl.value * 1_000_000_000)
  }

  /** A call's next phase; a call nobody awaits stops after the storage step it was in. */
  function Go(k: Call, phase: Phase): Call {
    k.(phase := if k.awaiting then phase else Abandoned)
  }

  function With(s: State, c: CallId, k: Call): State {
    s.(calls := s.calls[c := k])
  }

  /** Removes `id` if it is there. */
  function Remove(s: State, c: CallId, id: RecordId, cause: Cause): State {
    if id in s.records then
      s.(records := s.records - {id}, removed := s.removed[id := Removal(c, s.steps, cause)])
    else s
  }

  function StepStore(s: State, c: CallId, k: Call, io: Io): Option<State>
    requires k.request.StoreProof?
  {
    var r := k.request;
    match k.phase
    case Called =>
      (match ExpiryFor(r.ttl, s.clock)
       case None => Some(With(s, c, Go(k, Ended(Refused(InvalidParameter)))))
       case Some(expiresAt) =>
         if Dateable(r.ttl, s.clock) then Some(With(s, c, Go(k, Dated(expiresAt)))) else None)
    case Dated(expiresAt) =>
      var rec := StoredRecord(r.nonce, Seal(r.key, r.nonce, r.proof), s.clock, expiresAt);
      if InRange(s.clock) then Some(With(s, c, Go(k, Inserting(rec)))) else None
    case Inserting(rec) =>
      var ended := Go(k, Ended(if io.Works? then Issued(Token(Claim(r.id, r.key))) else Refused(Storage)));
      if io.FailsBefore? then Some(With(s, c, ended))
      else Some(With(s.(records := s.records[r.id := rec], inserted := s.inserted[r.id := Insertion(c, s.steps, rec)]),
                     c, ended))
    case _ => None
  }

  /** Decoding the token and fetching its record. */
  function StepFetch(s: State, c: CallId, k: Call, token: string, io: Io): State {
    match ParseToken(token)
    case None => With(s, c, Go(k, Ended(Refused(InvalidId))))
    case Some(claim) =>
      var k' := k.(fetchedAt := Some(s.steps));
      if !io.Works? then With(s, c, Go(k', Ended(Refused(Storage))))
      else if claim.id !in s.records then With(s, c, Go(k', Ended(Refused(ProofNotFound))))
      else With(s, c, Go(k', Fetched(claim, s.records[claim.id])))
  }

  function Unseal(claim: Claim, rec: StoredRecord): Option<bytes> {
    if |rec.nonce| != NONCE_LEN then None else Open(claim.key, rec.nonce, rec.ciphertext)
  }

  /** Deciding on a fetched record; `retrieve_proof` also has to decrypt it. */
  function StepJudge(s: State, c: CallId, k: Call, claim: Claim, rec: StoredRecord): State {
    var k' := k.(judgedAt := Some(s.clock));
    if IsExpired(rec, s.clock) then With(s, c, Go(k', Dropping(claim)))
    else if k.request.DeleteProof? then With(s, c, Go(k', Claiming(claim, [])))
    else
      match Unseal(claim, rec)
      case None => With(s, c, Go(k', Ended(Refused(DecryptionFailed))))
      case Some(plaintext) => With(s, c, Go(k', Claiming(claim, plaintext)))
  }

  /** The delete that ends a claim.  `retrieve_proof` ignores whether it found anything. */
  function StepClaim(s: State, c: CallId, k: Call, claim: Claim, plaintext: bytes, io: Io): State {
    var retrieving := k.request.RetrieveProof?;
    var result :=
      if !io.Works? then Refused(Storage)
      else if retrieving then Proof(plaintext)
      else if claim.id in s.records then Discarded
      else Refused(ProofNotFound);
    var s' := if io.FailsBefore? then s else Remove(s, c, claim.id, if retrieving then ByRetrieve else ByDelete);
    With(s', c, Go(k.(actedAt := Some(s.steps)), Ended(result)))
  }

  /** The delete of an expired record; its outcome is only logged. */
  function StepDrop(s: State, c: CallId, k: Call, claim: Claim, io: Io): State {
    var s' := if io.FailsBefore? then s else Remove(s, c, claim.id, ByExpiredAccess);
    With(s', c, Go(k.(actedAt := Some(s.steps)), Ended(Refused(ProofExpired))))
  }

  function StepSweep(s: State, c: CallId, k: Call, now: Instant, io: Io): State {
    var victims := Victims(s.records, now);
    var result := if io.Works? then Cleaned(|victims|) else Refused(Storage);
    var s' :=
      if io.FailsBefore? then s
      else s.(records := Sweep(s.records, now),
              removed := s.removed + map id | id in victims :: Removal(c, s.steps, BySweep(now)),
              swept := s.swept + |victims|);
    With(s', c, Go(k.(actedAt := Some(s.steps)), Ended(result)))
  }

  function StepClaimCall(s: State, c: CallId, k: Call, token: string, io: Io): Option<State> {
    match k.phase
    case Called => Some(StepFetch(s, c, k, token, io))
    case Fetched(claim, rec) => Some(StepJudge(s, c, k, claim, rec))
    case Claiming(claim, plaintext) => Some(StepClaim(s, c, k, claim, plaintext, io))
    case Dropping(claim) => Some(StepDrop(s, c, k, claim, io))
    case _ => None
  }

  function StepCleanup(s: State, c: CallId, k: Call, io: Io): Option<State> {
    match k.phase
    case Called => if InRange(s.clock) then Some(With(s, c, Go(k, Sweeping(s.clock)))) else None
    case Sweeping(now) => Some(StepSweep(s, c, k, now, io))
    case _ => None
  }

  function StepCall(s: State, c: CallId, io: Io): Option<State>
    requires c in s.calls
  {
    var k := s.calls[c];
    match k.request
    case StoreProof(_, _, _, _, _) => StepStore(s, c, k, io)
    case RetrieveProof(token) => StepClaimCall(s, c, k, token, io)
    case DeleteProof(token) => StepClaimCall(s, c, k, token, io)
    case Cleanup => StepCleanup(s, c, k, io)
  }

  /** Record ids are drawn afresh: no two store calls share one. */
  predicate FreshId(s: State, request: Request) {
    request.StoreProof? ==>
      forall c :: c in s.calls && s.calls[c].request.StoreProof? ==> s.calls[c].request.id != request.id
  }

  /** The effect of an event, before time moves on. */
  function Effect(s: State, e: Event): Option<State> {
    match e
    case Tick(nanos) => Some(s.(clock := s.clock + nanos))
    case Make(c, request) =>
      if c in s.calls || !FreshId(s, request) then None
      else Some(With(s, c, Call(request, Called, true, s.clock, None, None, None)))
    case Step(c, io) => if c in s.calls then StepCall(s, c, io) else None
    case Abandon(c) =>
      if c in s.calls && s.calls[c].awaiting && !s.calls[c].phase.Ended? then
        Some(With(s, c, s.calls[c].(awaiting := false)))
      else None
  }

  /** Time moves on by one event. */
  function Tock(s: State): State {
    s.(steps := s.steps + 1)
  }

  function Next(s: State, e: Event): Option<State> {
    match Effect(s, e)
    case None => None
    case Some(s') => Some(Tock(s'))
  }

  /** A vault over an empty store. */
  function Start(clock: Instant): State {
    State(map[], clock, map[], 0, map[], map[], 0)
  }

  function Run(s: State, events: seq<Event>): Option<State> {
    if events == [] then Some(s)
    else
      match Run(s, events[..|events| - 1])
      case None => None
      case Some(before) => Next(before, events[|events| - 1])
  }
}
