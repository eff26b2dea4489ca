/** The claim token: a record id and an encryption key behind one 64-character text. */
module Claims {
  import opened Core
  import opened Uuid
  import opened Base64

  const RECORD_ID_LEN := 16
  const ENCRYPTION_KEY_LEN := 32
  const CLAIM_ID_BYTES := 48

  /** An AES-256 key. */
  type Key = k: bytes | |k| == 32 witness seq(32, _ => 0)

  /** What a token carries. */
  datatype Claim = Claim(id: RecordId, key: Key)

  /** The token text of a claim. */
  function Token(c: Claim): string {
    Encode(UrlSafeNoPad, c.id + c.key)
  }

  /** The claim a text carries, if it is a token. */
  function ParseToken(s: string): Option<Claim> {
    match Decode(UrlSafeNoPad, s)
    case None => None
    case Some(b) => if |b| != CLAIM_ID_BYTES then None else Some(Claim(b[..16], b[16..]))
  }

  /** The 64-character texts over the base64url alphabet. */
  predicate IsTokenText(s: string) {
    |s| == 64 && forall i :: 0 <= i < |s| ==> InAlphabet(UrlSafeNoPad, s[i])
  }

  // ── In memory ─────────────────────────────────────────────────────────────

  datatype ClaimError = InvalidClaimId

  /** Copies `src` over the part of `dst` that starts at `at`. */
  method CopyFromSlice(dst: array<byte>, at: nat, src: bytes)
    requires at + |src| <= dst.Length
    modifies dst
    ensures dst[..] == old(dst[..at]) + src + old(dst[at + |src|..])
  {
    for i := 0 to |src|
      invariant dst[..at] == old(dst[..at])
      invariant dst[at..at + i] == src[..i]
      invariant dst[at + i..] == old(dst[at + i..])
    {
      dst[at + i] := src[i];
    }
  }

  class ClaimId {
    const recordId: array<byte>
    const encryptionKey: array<byte>

    ghost predicate Valid()
    {
      recordId.Length == RECORD_ID_LEN && encryptionKey.Length == ENCRYPTION_KEY_LEN && recordId != encryptionKey
    }

    ghost function Value(): Claim
      requires Valid()
      reads recordId, encryptionKey
    {
      Claim(recordId[..], encryptionKey[..])
    }

    /** A claim for `key` under a record id drawn by the caller. */
    constructor (id: RecordId, key: Key)
      ensures Valid() && fresh(recordId) && fresh(encryptionKey)
      ensures Value() == Claim(id, key)
    {
      recordId := new byte[16](i requires 0 <= i < 16 => id[i]);
      encryptionKey := new byte[32](i requires 0 <= i < 32 => key[i]);
      new;
      assert recordId[..] == id && encryptionKey[..] == key;
    }

    /** The token text, built in a 48-octet buffer. */
    method EncodeText() returns (s: string)
      requires Valid()
      ensures s == Token(Value()) && IsTokenText(s)
    {
      var buffer := new byte[48](_ => 0);
      CopyFromSlice(buffer, 0, recordId[..]);
      CopyFromSlice(buffer, 16, encryptionKey[..]);
      assert buffer[..] == recordId[..] + encryptionKey[..];
      s := Encode(UrlSafeNoPad, buffer[..]);
      TokenTexts(Value());
    }

    /** Splits a token text into the two fields, or rejects it. */
    static method DecodeText(s: string) returns (r: Result<ClaimId, ClaimError>)
      ensures r.Ok? <==> IsTokenText(s)
      ensures r.Ok? ==> fresh(r.value) && r.value.Valid() && fresh(r.value.recordId) && fresh(r.value.encryptionKey)
      ensures r.Ok? ==> Token(r.value.Value()) == s
    {
      AcceptsTokenTexts(s);
      var decoded := Decode(UrlSafeNoPad, s);
      if decoded.None? || |decoded.value| != CLAIM_ID_BYTES {
        return Err(InvalidClaimId);
      }
      var c := Split(decoded.value);
      return Ok(c);
    }

    /** Copies the two parts of a 48-octet payload into fresh fields. */
    static method Split(payload: bytes) returns (c: ClaimId)
      requires |payload| == CLAIM_ID_BYTES
      ensures fresh(c) && c.Valid() && fresh(c.recordId) && fresh(c.encryptionKey)
      ensures c.Value() == Claim(payload[..16], payload[16..])
    {
      c := new ClaimId(seq(16, _ => 0), seq(32, _ => 0));
      CopyFromSlice(c.recordId, 0, payload[..16]);
      CopyFromSlice(c.encryptionKey, 0, payload[16..]);
      assert c.recordId[..] == payload[..16] && c.encryptionKey[..] == payload[16..];
    }

    /** Overwrites both fields with zeros. */
    method Zeroize()
      requires Valid()
      modifies recordId, encryptionKey
      ensures Value() == Claim(seq(16, _ => 0), seq(32, _ => 0))
    {
      for i := 0 to recordId.Length
        invariant forall j :: 0 <= j < i ==> recordId[j] == 0
      {
        recordId[i] := 0;
      }
      for i := 0 to encryptionKey.Length
        invariant forall j :: 0 <= j < recordId.Length ==> recordId[j] == 0
        invariant forall j :: 0 <= j < i ==> encryptionKey[j] == 0
      {
        encryptionKey[i] := 0;
      }
      assert recordId[..] == seq(16, _ => 0) && encryptionKey[..] == seq(32, _ => 0);
    }
  }

  // ── The codec is a bijection ──────────────────────────────────────────────

  /** Every claim comes back from its token. */
  lemma TokenRoundTrip(c: Claim)
    ensures ParseToken(Token(c)) == Some(c)
  {
    EncodeDecode(UrlSafeNoPad, c.id + c.key);
    assert (c.id + c.key)[..16] == c.id && (c.id + c.key)[16..] == c.key;
  }

  /** Every accepted text is the token of the claim it carries. */
  lemma ParsedTokensAreTokens(s: string)
    requires ParseToken(s).Some?
    ensures Token(ParseToken(s).value) == s
  {
    DecodeEncode(UrlSafeNoPad, s);
    var b := Decode(UrlSafeNoPad, s).value;
    assert b[..16] + b[16..] == b;
  }

  lemma {:induction false} DecodedLength(s: string)
    requires Decode(UrlSafeNoPad, s).Some? && |s| % 4 == 0
    ensures |Decode(UrlSafeNoPad, s).value| == |s| / 4 * 3
  {
    hide InAlphabet, Ungroup, DecodeShort;
    if s != "" {
      assert |s| >= 4;
      if FullGroup(UrlSafeNoPad, s) {
        DecodedLength(s[4..]);
      } else {
        LongTailsDoNotDecode(s);
      }
    }
  }

  lemma LongTailsDoNotDecode(s: string)
    requires |s| >= 4
    ensures DecodeShort(UrlSafeNoPad, s).None?
  {
  }

  /** Every token is 64 characters of the base64url alphabet. */
  lemma TokenTexts(c: Claim)
    ensures IsTokenText(Token(c))
  {
    EncodeLength(UrlSafeNoPad, c.id + c.key);
    TokenRoundTrip(c);
    hide InAlphabet, Encode;
    AcceptsCanonical(UrlSafeNoPad, Token(c));
  }

  /** The accepted texts are exactly those. */
  lemma AcceptsTokenTexts(s: string)
    ensures ParseToken(s).Some? <==> IsTokenText(s)
    ensures ParseToken(s).Some? ==> Token(ParseToken(s).value) == s
  {
    if ParseToken(s).Some? {
      ParsedTokensAreTokens(s);
      TokenTexts(ParseToken(s).value);
    }
    if IsTokenText(s) {
      AcceptsCanonical(UrlSafeNoPad, s);
      DecodedLength(s);
    }
  }

  // ── Which characters depend on what ───────────────────────────────────────

  /** The six bits character `k` of the token spells. */
  function TokenSextet(c: Claim, k: nat): sextet
    requires k < 64
  {
    SextetAt(c.id + c.key, k)
  }

  /** Without the codec: a text is a token exactly when it is 64 letters, digits, hyphens and underscores. */
  lemma TokensAreSixtyFourLetters(s: string)
    ensures ParseToken(s).Some? <==>
              |s| == 64 && forall i :: 0 <= i < 64 ==>
                'A' <= s[i] <= 'Z' || 'a' <= s[i] <= 'z' || '0' <= s[i] <= '9' || s[i] == '-' || s[i] == '_'
  {
    AcceptsTokenTexts(s);
    forall i | 0 <= i < |s| ensures InAlphabet(UrlSafeNoPad, s[i]) <==> IsSymbol(UrlSafeNoPad, s[i]) {
      AlphabetInLetters(UrlSafeNoPad, s[i]);
    }
    hide InAlphabet, ParseToken;
  }

  lemma TokenChar(c: Claim, k: nat)
    requires k < 64
    ensures |Token(c)| == 64 && Token(c)[k] == CharOf(UrlSafeNoPad, TokenSextet(c, k))
  {
    EncodeAt(UrlSafeNoPad, c.id + c.key, k);
  }

  /** Characters 0 to 20 depend only on the record id, characters 22 to 63 only on the key. */
  lemma TokenLocality(c: Claim, d: Claim, k: nat)
    requires k < 64
    requires k <= 20 ==> c.id == d.id
    requires 22 <= k ==> c.key == d.key
    requires k == 21 ==> c == d
    ensures |Token(c)| == |Token(d)| == 64 && Token(c)[k] == Token(d)[k]
  {
    TokenChar(c, k);
    TokenChar(d, k);
    var a, b := c.id + c.key, d.id + d.key;
    var g := k / 4 * 3;
    if k <= 20 {
      assert g <= 15 && (k % 4 != 0 ==> g <= 12);
      assert forall i :: 0 <= i < 16 ==> a[i] == b[i];
    } else if 22 <= k {
      assert 15 <= g && (k <= 23 ==> g == 15 && 2 <= k % 4);
      assert forall i :: 16 <= i < 48 ==> a[i] == b[i];
    }
  }

  /** Character 21 mixes the last two bits of the record id with the first four of the key. */
  lemma TokenBoundary(c: Claim)
    ensures |Token(c)| == 64 && Token(c)[21] == CharOf(UrlSafeNoPad, c.id[15] % 4 * 16 + c.key[0] / 16)
  {
    TokenChar(c, 21);
    var b := c.id + c.key;
    assert 21 / 4 * 3 == 15 && 21 % 4 == 1;
    assert b[15] == c.id[15] && b[16] == c.key[0];
  }

  lemma {:induction false} OctetFromSextets(b: bytes, i: nat)
    requires |b| == 48 && i < 48
    ensures var k := i / 3 * 4 + i % 3;
            && k + 1 < 64
            && b[i] == (if i % 3 == 0 then Octet0(SextetAt(b, k), SextetAt(b, k + 1))
                        else if i % 3 == 1 then Octet1(SextetAt(b, k), SextetAt(b, k + 1))
                        else Octet2(SextetAt(b, k), SextetAt(b, k + 1)))
  {
    var g := i / 3;
    var k := g * 4 + i % 3;
    assert k / 4 == g && k % 4 == i % 3 && (k + 1) / 4 == g && (k + 1) % 4 == i % 3 + 1;
    OctetsOfSymbols(b[3 * g], b[3 * g + 1], b[3 * g + 2]);
  }

  /** The first 22 characters determine the record id. */
  lemma PrefixDeterminesId(c: Claim, d: Claim)
    requires |Token(c)| == |Token(d)| == 64 && Token(c)[..22] == Token(d)[..22]
    ensures c.id == d.id
  {
    var a, b := c.id + c.key, d.id + d.key;
    forall k | 0 <= k < 22 ensures SextetAt(a, k) == SextetAt(b, k) {
      TokenChar(c, k);
      TokenChar(d, k);
      SymbolOfChar(UrlSafeNoPad, SextetAt(a, k));
      SymbolOfChar(UrlSafeNoPad, SextetAt(b, k));
      assert Token(c)[k] == Token(c)[..22][k] == Token(d)[..22][k] == Token(d)[k];
    }
    hide Token, SextetAt;
    forall i | 0 <= i < 16 ensures c.id[i] == d.id[i] {
      OctetFromSextets(a, i);
      OctetFromSextets(b, i);
      var k := i / 3 * 4 + i % 3;
      assert k + 1 < 22;
    }
  }

  /** Changing characters from 22 on, within the alphabet, keeps the record id and changes the key. */
  lemma TamperedTail(c: Claim, s: string)
    requires IsTokenText(s) && s != Token(c)
    requires |Token(c)| == 64 && s[..22] == Token(c)[..22]
    ensures ParseToken(s).Some? && ParseToken(s).value.id == c.id && ParseToken(s).value.key != c.key
  {
    AcceptsTokenTexts(s);
    PrefixDeterminesId(c, ParseToken(s).value);
  }
}
