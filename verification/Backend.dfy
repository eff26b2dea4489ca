/** The record store every backend must implement: one map from record ids to encrypted records. */
module Backend {
  import opened Core
  import opened Uuid
  import opened Calendar

  /** An encrypted record with its metadata.  `expiresAt == None` means it never expires. */
  datatype StoredRecord = StoredRecord(
    nonce: bytes, ciphertext: bytes, storedAt: Instant, expiresAt: Option<Instant>)

  /** Both timestamps have four-digit years. */
  predicate Storable(r: StoredRecord) {
    InRange(r.storedAt) && (r.expiresAt.Some? ==> InRange(r.expiresAt.value))
  }

  /** The strict test a claim applies to the record it fetched. */
  predicate IsExpired(r: StoredRecord, now: Instant) {
    r.expiresAt.Some? && now > r.expiresAt.value
  }

  /** The test a sweep with clock sample `now` applies. */
  predicate Sweepable(r: StoredRecord, now: Instant) {
    r.expiresAt.Some? && r.expiresAt.value <= now
  }

  type Records = map<RecordId, StoredRecord>

  predicate AllStorable(m: Records) {
    forall id :: id in m ==> Storable(m[id])
  }

  datatype StorageError = Io | Json | Missing

  /** How a storage call ends: with a value, with an error, or with the process dead. */
  datatype Outcome<+T> = Done(value: T) | Failed(error: StorageError) | Crashed

  datatype Op =
    | Insert(id: RecordId, rec: StoredRecord)
    | Fetch(id: RecordId)
    | Delete(id: RecordId)
    | DeleteExpired(now: Instant)

  /** What an operation answers when no I/O fails. */
  datatype Reply =
    | Inserted
    | Found(rec: StoredRecord)
    | NotFound
    | Deleted(existed: bool)
    | Removed(count: nat)

  function Sweep(m: Records, now: Instant): Records {
    map id | id in m && !Sweepable(m[id], now) :: m[id]
  }

  /** The ids a sweep removes. */
  function Victims(m: Records, now: Instant): set<RecordId> {
    set id | id in m && Sweepable(m[id], now)
  }

  /** The records after `op`. */
  function After(m: Records, op: Op): Records {
    match op
    case Insert(id, rec) => m[id := rec]
    case Fetch(_) => m
    case Delete(id) => m - {id}
    case DeleteExpired(now) => Sweep(m, now)
  }

  /** The answer to `op`. */
  function Answer(m: Records, op: Op): Reply {
    match op
    case Insert(_, _) => Inserted
    case Fetch(id) => if id in m then Found(m[id]) else NotFound
    case Delete(id) => Deleted(id in m)
    case DeleteExpired(now) => Removed(|Victims(m, now)|)
  }

  /** The records after a sequence of operations. */
  function AfterAll(m: Records, ops: seq<Op>): Records {
    if ops == [] then m else After(AfterAll(m, ops[..|ops| - 1]), ops[|ops| - 1])
  }

  /** Every answer along a sequence of operations. */
  function Answers(m: Records, ops: seq<Op>): (r: seq<Reply>)
    ensures |r| == |ops|
  {
    if ops == [] then []
    else Answers(m, ops[..|ops| - 1]) + [Answer(AfterAll(m, ops[..|ops| - 1]), ops[|ops| - 1])]
  }

  predicate OpStorable(op: Op) {
    match op
    case Insert(_, rec) => Storable(rec)
    case DeleteExpired(now) => InRange(now)
    case _ => true
  }

  lemma AfterStorable(m: Records, op: Op)
    requires AllStorable(m) && (op.Insert? ==> Storable(op.rec))
    ensures AllStorable(After(m, op))
  {
  }

  /** Deleting a missing id changes nothing. */
  lemma RemoveMissing(m: Records, id: RecordId)
    ensures id !in m ==> After(m, Delete(id)) == m
  {
  }

  // ── Sweeps ────────────────────────────────────────────────────────────────

  /** A sweep leaves exactly the records without expiry or expiring after its clock sample, leaves
      them unchanged and nothing expired, and the number it reports is the number that are gone. */
  lemma SweepIsExact(m: Records, now: Instant)
    ensures forall id :: id in Sweep(m, now)
                     <==> id in m && (m[id].expiresAt.None? || m[id].expiresAt.value > now)
    ensures forall id :: id in Sweep(m, now) ==> Sweep(m, now)[id] == m[id] && !IsExpired(m[id], now)
    ensures |m| == |Sweep(m, now)| + |Victims(m, now)|
    ensures |Victims(m, now)| == 0 ==> Sweep(m, now) == m
  {
    var kept := Sweep(m, now);
    assert m.Keys == kept.Keys + Victims(m, now) && kept.Keys !! Victims(m, now);
    assert |m| == |m.Keys| && |kept| == |kept.Keys|;
    if Victims(m, now) == {} {
      assert kept.Keys == m.Keys;
    }
  }

  /** A later sweep alone does what an earlier and a later sweep do together; their counts add up. */
  lemma SweepsCompose(m: Records, earlier: Instant, later: Instant)
    requires earlier <= later
    ensures Sweep(Sweep(m, earlier), later) == Sweep(m, later)
    ensures |Victims(m, earlier)| + |Victims(Sweep(m, earlier), later)| == |Victims(m, later)|
  {
    assert Victims(m, later) == Victims(m, earlier) + Victims(Sweep(m, earlier), later);
    assert Victims(m, earlier) !! Victims(Sweep(m, earlier), later);
  }

  /** The sweep and the claim's own test differ at one instant only: the expiry itself. */
  lemma SweepVersusExpiry(r: StoredRecord, now: Instant)
    ensures Sweepable(r, now) != IsExpired(r, now) <==> r.expiresAt == Some(now)
  {
  }
}
