/** The vault over one backend, run by one caller at a time. */
module Vault {
  import opened Core
  import opened Uuid
  import opened Calendar
  import opened Backend
  import opened Claims
  import opened Aead
  import opened ClaimProtocol
  import opened VaultSpec
  import opened Storage

  /** A call ends with a result, or not at all when the process dies in it. */
  type Ending = Option<VaultResult>

  /** How a storage error reaches the vault's caller. */
  function Trouble<T>(o: Outcome<T>): Ending
    requires !o.Done?
  {
    if o.Crashed? then None else Some(Refused(VaultError.Storage))
  }

  /** A call did all or none of what it does alone.  Unless it reports a storage error its answer is the one
      it gives alone, and if that is a success, or no storage call failed, it did all of it. */
  ghost predicate MeetsSpec(before: Records, after: Records, ending: Ending, sound: bool, alone: (VaultResult, Records)) {
    && (after == before || after == alone.1)
    && (Answers(ending) ==> ending.value == alone.0)
    && (Answers(ending) && !ending.value.Refused? ==> after == alone.1)
    && (sound ==> Answers(ending) && after == alone.1)
  }

  predicate Answers(ending: Ending) {
    ending.Some? && ending.value != Refused(VaultError.Storage)
  }

  lemma DidAll(before: Records, sound: bool, alone: (VaultResult, Records))
    requires alone.0 != Refused(VaultError.Storage)
    ensures MeetsSpec(before, alone.1, Some(alone.0), sound, alone)
  {
  }

  lemma DidSome(before: Records, after: Records, sound: bool, alone: (VaultResult, Records), ending: Ending)
    requires !sound && !Answers(ending) && (after == before || after == alone.1)
    ensures MeetsSpec(before, after, ending, sound, alone)
  {
  }

  /** The token names a record that has expired. */
  ghost predicate FindsExpired(m: Records, token: string, now: Instant) {
    var parsed := ParseToken(token);
    && parsed.Some? && parsed.value.id in m
    && m[parsed.value.id].expiresAt.Some? && m[parsed.value.id].expiresAt.value < now
  }

  lemma Expiry(rec: StoredRecord, now: Instant)
    ensures IsExpired(rec, now) <==> rec.expiresAt.Some? && rec.expiresAt.value < now
  {
  }

  lemma TtlFits(ttl: Option<nat>, now: Instant)
    ensures ttl.Some? && InRange(now) && InRange(now + ttl.value * 1_000_000_000) ==>
              ttl.value <= 9_223_372_036_854_775_807
  {
  }

  class StandardVault {
    const storage: AnyBackend

    constructor (storage: AnyBackend)
      ensures this.storage == storage
    {
      this.storage := storage;
    }

    /** `now` is read for the expiry, `storedAt` a moment later for the record; key, nonce and record id
        are drawn at random. */
    method StoreProof(proof: bytes, ttl: Option<nat>, key: Key, nonce: Nonce, id: RecordId,
                      now: Instant, storedAt: Instant, faults: Faults)
      returns (ending: Ending)
      requires storage.Valid() && InRange(storedAt)
      requires ttl.Some? && 0 < ttl.value <= 9_223_372_036_854_775_807 ==> InRange(now + ttl.value * 1_000_000_000)
      modifies storage.Repr()
      ensures storage.Valid()
      ensures var request := Request.StoreProof(proof, ttl, key, nonce, id);
              MeetsSpec(old(storage.Held()), storage.Held(), ending, storage.Sound(faults),
                        StoreAlone(old(storage.Held()), request, now, storedAt))
      ensures ttl.Some? && (ttl.value == 0 || ttl.value > 9_223_372_036_854_775_807) ==>
                ending == Some(Refused(InvalidParameter)) && storage.Held() == old(storage.Held())
      ensures storage.Sound(faults) && InRange(now)
              && (ttl.Some? ==> 0 < ttl.value && InRange(now + ttl.value * 1_000_000_000)) ==>
                && ending == Some(Issued(Token(Claim(id, key))))
                && storage.Held() == old(storage.Held())[id := StoredRecord(
                     nonce, Seal(key, nonce, proof), storedAt,
                     if ttl.None? then None else Some(now + ttl.value * 1_000_000_000))]
    {
      hide Seal, Token, InRange, IsTokenText, MeetsSpec, StoreAlone, AllStorable, AnyBackend.Valid, AnyBackend.Held;
      ghost var (before, sound) := (storage.Held(), storage.Sound(faults));
      ghost var request := Request.StoreProof(proof, ttl, key, nonce, id);
      ghost var alone := StoreAlone(before, request, now, storedAt);
      StoreAccepts(before, request, now, storedAt);
      TtlFits(ttl, now);
      if ttl == Some(0) {
        DidAll(before, sound, alone);
        return Some(Refused(InvalidParameter));
      }
      var ciphertext := Seal(key, nonce, proof);
      var claimId := new ClaimId(id, key);
      var expiresAt := None;
      if ttl.Some? {
        if ttl.value > I64_MAX {
          DidAll(before, sound, alone);
          return Some(Refused(InvalidParameter));
        }
        expiresAt := Some(now + ttl.value * NANOS_PER_SEC);
      }
      var stored := StoredRecord(nonce, ciphertext, storedAt, expiresAt);
      assert Storable(stored) && After(before, Op.Insert(id, stored)) == alone.1;
      hide Storable, After;
      var inserted := storage.Insert(id, stored, faults);
      if !inserted.Done? {
        DidSome(before, storage.Held(), sound, alone, Trouble(inserted));
        return Trouble(inserted);
      }
      assert claimId.Value() == Claim(id, key);
      var encoded := claimId.EncodeText();
      claimId.Zeroize();
      DidAll(before, sound, alone);
      return Some(Issued(encoded));
    }

    /** `now` is the clock the fetched record is judged by. */
    method RetrieveProof(token: string, now: Instant, fetchFaults: Faults, deleteFaults: Faults)
      returns (ending: Ending)
      requires storage.Valid()
      modifies storage.Repr()
      ensures storage.Valid()
      ensures MeetsSpec(old(storage.Held()), storage.Held(), ending,
                        storage.Sound(fetchFaults) && storage.Sound(deleteFaults),
                        RetrieveAlone(old(storage.Held()), token, now))
      // An expired record is reported as such even if it cannot be deleted.
      ensures storage.Sound(fetchFaults) && FindsExpired(old(storage.Held()), token, now) ==>
                ending == Some(Refused(ProofExpired)) || ending == None
    {
      hide IsExpired, Unseal, Token, ParseToken, IsTokenText, AllStorable, AnyBackend.Valid, AnyBackend.Held;
      var decoded := ClaimId.DecodeText(token);
      AcceptsTokenTexts(token);
      if decoded.Err? { return Some(Refused(InvalidId)); }
      var claimId := decoded.value;
      TokenRoundTrip(claimId.Value());
      var (recordId, key) := (claimId.recordId[..], claimId.encryptionKey[..]);
      var fetched := storage.Fetch(recordId, fetchFaults);
      if fetched == Failed(Missing) { return Some(Refused(ProofNotFound)); }
      if !fetched.Done? { return Trouble(fetched); }
      var stored := fetched.value;
      Expiry(stored, now);
      if IsExpired(stored, now) {
        var dropped := storage.Delete(recordId, deleteFaults);
        return if dropped.Crashed? then None else Some(Refused(ProofExpired));
      }
      var plaintext := Unseal(Claim(recordId, key), stored);
      if plaintext.None? { return Some(Refused(DecryptionFailed)); }
      var deleted := storage.Delete(recordId, deleteFaults);
      if !deleted.Done? { return Trouble(deleted); }
      return Some(Proof(plaintext.value));
    }

    method DeleteProof(token: string, now: Instant, fetchFaults: Faults, deleteFaults: Faults)
      returns (ending: Ending)
      requires storage.Valid()
      modifies storage.Repr()
      ensures storage.Valid()
      ensures MeetsSpec(old(storage.Held()), storage.Held(), ending,
                        storage.Sound(fetchFaults) && storage.Sound(deleteFaults),
                        DeleteAlone(old(storage.Held()), token, now))
      // An expired record is reported as such even if it cannot be deleted.
      ensures storage.Sound(fetchFaults) && FindsExpired(old(storage.Held()), token, now) ==>
                ending == Some(Refused(ProofExpired)) || ending == None
    {
      hide IsExpired, Token, ParseToken, IsTokenText, AllStorable, AnyBackend.Valid, AnyBackend.Held;
      var decoded := ClaimId.DecodeText(token);
      AcceptsTokenTexts(token);
      if decoded.Err? { return Some(Refused(InvalidId)); }
      var claimId := decoded.value;
      TokenRoundTrip(claimId.Value());
      var recordId := claimId.recordId[..];
      var fetched := storage.Fetch(recordId, fetchFaults);
      if fetched == Failed(Missing) { return Some(Refused(ProofNotFound)); }
      if !fetched.Done? { return Trouble(fetched); }
      Expiry(fetched.value, now);
      if IsExpired(fetched.value, now) {
        var dropped := storage.Delete(recordId, deleteFaults);
        return if dropped.Crashed? then None else Some(Refused(ProofExpired));
      }
      var deleted := storage.Delete(recordId, deleteFaults);
      if !deleted.Done? { return Trouble(deleted); }
      if !deleted.value { return Some(Refused(ProofNotFound)); }
      return Some(Discarded);
    }

    method CleanUp(now: Instant, faults: Faults) returns (ending: Ending)
      requires storage.Valid() && InRange(now)
      modifies storage.Repr()
      ensures storage.Valid()
      ensures MeetsSpec(old(storage.Held()), storage.Held(), ending, storage.Sound(faults),
                        CleanupAlone(old(storage.Held()), now))
    {
      hide Victims, Sweep;
      var removed := storage.DeleteExpired(now, faults);
      return if removed.Done? then Some(Cleaned(removed.value)) else Trouble(removed);
    }
  }
}
