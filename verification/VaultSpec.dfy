/** What each vault call answers and leaves behind when nothing else happens meanwhile. */
module VaultSpec {
  import opened Core
  import opened Calendar
  import opened Backend
  import opened Claims
  import opened Aead
  import opened ClaimProtocol

  /** The expiry counts from `now`; the record is stamped with `storedAt`, read a moment later. */
  function StoreAlone(m: Records, r: Request, now: Instant, storedAt: Instant): (VaultResult, Records)
    requires r.StoreProof?
  {
    match ExpiryFor(r.ttl, now)
    case None => (Refused(InvalidParameter), m)
    case Some(expiresAt) =>
      (Issued(Token(Claim(r.id, r.key))),
       m[r.id := StoredRecord(r.nonce, Seal(r.key, r.nonce, r.proof), storedAt, expiresAt)])
  }

  function RetrieveAlone(m: Records, token: string, now: Instant): (VaultResult, Records) {
    match ParseToken(token)
    case None => (Refused(InvalidId), m)
    case Some(claim) =>
      if claim.id !in m then (Refused(ProofNotFound), m)
      else if IsExpired(m[claim.id], now) then (Refused(ProofExpired), m - {claim.id})
      else
        match Unseal(claim, m[claim.id])
        case None => (Refused(DecryptionFailed), m)
        case Some(plaintext) => (Proof(plaintext), m - {claim.id})
  }

  function DeleteAlone(m: Records, token: string, now: Instant): (VaultResult, Records) {
    match ParseToken(token)
    case None => (Refused(InvalidId), m)
    case Some(claim) =>
      if claim.id !in m then (Refused(ProofNotFound), m)
      else (if IsExpired(m[claim.id], now) then Refused(ProofExpired) else Discarded, m - {claim.id})
  }

  function CleanupAlone(m: Records, now: Instant): (VaultResult, Records) {
    (Cleaned(|Victims(m, now)|), Sweep(m, now))
  }

  function Alone(m: Records, request: Request, now: Instant): (VaultResult, Records) {
    match request
    case StoreProof(_, _, _, _, _) => StoreAlone(m, request, now, now)
    case RetrieveProof(token) => RetrieveAlone(m, token, now)
    case DeleteProof(token) => DeleteAlone(m, token, now)
    case Cleanup => CleanupAlone(m, now)
  }

  /** Exactly the TTLs that are zero seconds, or more than a signed 64-bit integer holds, are refused, and then nothing
      is stored.  Every other call is answered with the token of the drawn id and key, under which lies the sealed
      proof, to expire the TTL after `now` or, without one, never. */
  lemma StoreAccepts(m: Records, r: Request, now: Instant, storedAt: Instant)
    requires r.StoreProof?
    ensures StoreAlone(m, r, now, storedAt) ==
            if r.ttl.Some? && (r.ttl.value == 0 || r.ttl.value > 9_223_372_036_854_775_807)
            then (Refused(InvalidParameter), m)
            else (Issued(Token(Claim(r.id, r.key))),
                  m[r.id := StoredRecord(r.nonce, Seal(r.key, r.nonce, r.proof), storedAt,
                                         if r.ttl.None? then None else Some(now + r.ttl.value * 1_000_000_000))])
  {
    hide Seal, Token;
  }

  /** In particular no TTL that ends before the year 10000 is refused, but zero. */
  lemma TtlsThatEndAreAccepted(m: Records, r: Request, now: Instant, storedAt: Instant)
    requires r.StoreProof? && InRange(now)
    requires r.ttl.Some? ==> 0 < r.ttl.value && InRange(now + r.ttl.value * 1_000_000_000)
    ensures StoreAlone(m, r, now, storedAt).0 == Issued(Token(Claim(r.id, r.key)))
  {
    hide Seal, Token;
    StoreAccepts(m, r, now, storedAt);
  }

  predicate IsLetter(c: char) {
    'A' <= c <= 'Z' || 'a' <= c <= 'z' || '0' <= c <= '9' || c == '-' || c == '_'
  }

  /** A token that is not 64 letters, digits, hyphens and underscores is refused as such, whatever is asked with it. */
  lemma MalformedTokens(m: Records, token: string, now: Instant)
    requires !(|token| == 64 && forall i :: 0 <= i < 64 ==> IsLetter(token[i]))
    ensures RetrieveAlone(m, token, now) == DeleteAlone(m, token, now) == (Refused(InvalidId), m)
  {
    TokensAreSixtyFourLetters(token);
  }

  /** A token whose record is not there finds nothing; an expired record is reported as expired, and gone. */
  lemma MissingAndExpired(m: Records, claim: Claim, now: Instant)
    ensures claim.id !in m ==>
              RetrieveAlone(m, Token(claim), now) == DeleteAlone(m, Token(claim), now) == (Refused(ProofNotFound), m)
    ensures claim.id in m && m[claim.id].expiresAt.Some? && m[claim.id].expiresAt.value < now ==>
              RetrieveAlone(m, Token(claim), now) == DeleteAlone(m, Token(claim), now)
              == (Refused(ProofExpired), m - {claim.id})
  {
    hide ParseToken, Token, Unseal;
    TokenRoundTrip(claim);
  }

  /** A nonce that is not twelve octets long opens nothing. */
  lemma WrongNonceLength(m: Records, claim: Claim, now: Instant)
    requires claim.id in m && !IsExpired(m[claim.id], now) && |m[claim.id].nonce| != 12
    ensures RetrieveAlone(m, Token(claim), now) == (Refused(DecryptionFailed), m)
  {
    hide ParseToken, Token, IsExpired;
    TokenRoundTrip(claim);
  }

  /** Every accepted proof is available until its expiry and comes back once: a retrieval at any such time
      returns it and leaves the store as it was before, so that the next one finds nothing. */
  lemma StoreThenRetrieve(m: Records, r: Request, now: Instant, storedAt: Instant, later: Instant)
    requires r.StoreProof? && r.id !in m && now <= later
    ensures var (issued, m') := StoreAlone(m, r, now, storedAt);
            (issued == Refused(InvalidParameter) && m' == m
             && r.ttl.Some? && (r.ttl.value == 0 || r.ttl.value > 9_223_372_036_854_775_807))
            || (issued.Issued? && (r.ttl.Some? ==> 0 < r.ttl.value <= 9_223_372_036_854_775_807)
                && RetrieveAlone(m', issued.token, later)
                   == (if r.ttl.Some? && later > now + r.ttl.value * NANOS_PER_SEC then (Refused(ProofExpired), m)
                       else (Proof(r.proof), m))
                && RetrieveAlone(m, issued.token, later) == (Refused(ProofNotFound), m))
  {
    hide ParseToken, Token, Open, Seal;
    var claim := Claim(r.id, r.key);
    TokenRoundTrip(claim);
    OpensOnlyWithItsKey(r.key, r.nonce, r.proof, r.key);
    var m' := StoreAlone(m, r, now, storedAt).1;
    assert r.id in m' ==> m' - {r.id} == m;
  }

  /** Storing and deleting leaves the store as it was, whichever key the deleting token carries. */
  lemma StoreThenDelete(m: Records, r: Request, key: Key, now: Instant, storedAt: Instant, later: Instant)
    requires r.StoreProof? && r.id !in m && now <= later
    requires r.ttl.Some? ==> 0 < r.ttl.value <= 9_223_372_036_854_775_807
    requires r.ttl.Some? ==> later <= now + r.ttl.value * NANOS_PER_SEC
    ensures DeleteAlone(StoreAlone(m, r, now, storedAt).1, Token(Claim(r.id, key)), later) == (Discarded, m)
  {
    hide ParseToken, Token, Open, Seal;
    TokenRoundTrip(Claim(r.id, key));
    var m' := StoreAlone(m, r, now, storedAt).1;
    assert m' - {r.id} == m;
  }

  /** Under any other key nothing is returned and an unexpired record is untouched. */
  lemma WrongKeyAlone(m: Records, r: Request, key: Key, now: Instant, storedAt: Instant, later: Instant)
    requires r.StoreProof? && r.id !in m && now <= later
    requires r.ttl.Some? ==> 0 < r.ttl.value <= 9_223_372_036_854_775_807
    requires key != r.key
    requires r.ttl.Some? ==> later <= now + r.ttl.value * NANOS_PER_SEC
    ensures var m' := StoreAlone(m, r, now, storedAt).1;
            RetrieveAlone(m', Token(Claim(r.id, key)), later) == (Refused(DecryptionFailed), m')
  {
    hide ParseToken, Token, Open, Seal;
    TokenRoundTrip(Claim(r.id, key));
    OpensOnlyWithItsKey(r.key, r.nonce, r.proof, key);
  }
}
