/** Base 64 of RFC 4648 as the `base64` crate's two engines use it here: `STANDARD` (section 4,
    canonical padding) for record fields, `URL_SAFE_NO_PAD` (section 5, no padding) for tokens.  Both
    refuse non-zero trailing bits (section 3.5). */
module Base64 {
  import opened Core

  datatype Engine = Standard | UrlSafeNoPad

  /** Six bits. */
  type sextet = v: int | 0 <= v < 64

  predicate Padded(e: Engine) {
    e.Standard?
  }

  function CharOf(e: Engine, v: sextet): char {
    if v < 26 then (v + 'A' as int) as char
    else if v < 52 then (v - 26 + 'a' as int) as char
    else if v < 62 then (v - 52 + '0' as int) as char
    else if v == 62 then (if e.Standard? then '+' else '-')
    else (if e.Standard? then '/' else '_')
  }

  function ValueOf(e: Engine, c: char): Option<sextet> {
    if 'A' <= c <= 'Z' then Some(c as int - 'A' as int)
    else if 'a' <= c <= 'z' then Some(c as int - 'a' as int + 26)
    else if '0' <= c <= '9' then Some(c as int - '0' as int + 52)
    else if c == (if e.Standard? then '+' else '-') then Some(62)
    else if c == (if e.Standard? then '/' else '_') then Some(63)
    else None
  }

  predicate InAlphabet(e: Engine, c: char) {
    ValueOf(e, c).Some?
  }

  // The four symbols of a group of three octets, and the three octets of a group of four symbols.

  function Symbol0(a: byte): sextet { a / 4 }
  function Symbol1(a: byte, b: byte): sextet { a % 4 * 16 + b / 16 }
  function Symbol2(b: byte, c: byte): sextet { b % 16 * 4 + c / 64 }
  function Symbol3(c: byte): sextet { c % 64 }

  function Octet0(p: sextet, q: sextet): byte { p * 4 + q / 16 }
  function Octet1(q: sextet, r: sextet): byte { q % 16 * 16 + r / 4 }
  function Octet2(r: sextet, s: sextet): byte { r % 4 * 64 + s }

  function Encode(e: Engine, b: bytes): string {
    if b == [] then ""
    else if |b| == 1 then
      [CharOf(e, Symbol0(b[0])), CharOf(e, Symbol1(b[0], 0))] + (if Padded(e) then "==" else "")
    else if |b| == 2 then
      [CharOf(e, Symbol0(b[0])), CharOf(e, Symbol1(b[0], b[1])), CharOf(e, Symbol2(b[1], 0))]
      + (if Padded(e) then "=" else "")
    else
      Group(e, b[0], b[1], b[2]) + Encode(e, b[3..])
  }

  function Group(e: Engine, a: byte, b: byte, c: byte): (s: string)
    ensures |s| == 4
  {
    [CharOf(e, Symbol0(a)), CharOf(e, Symbol1(a, b)), CharOf(e, Symbol2(b, c)), CharOf(e, Symbol3(c))]
  }

  /** The symbols of a final short group, without its padding. */
  function Unpadded(e: Engine, s: string): Option<string> {
    if !Padded(e) then Some(s)
    else if |s| != 4 || s[3] != '=' then None
    else if s[2] == '=' then Some(s[..2])
    else Some(s[..3])
  }

  /** A final group of two or three symbols, whose unused low bits must be zero. */
  function DecodeShort(e: Engine, s: string): Option<bytes> {
    match Unpadded(e, s)
    case None => None
    case Some(t) =>
      if |t| == 2 then
        match (ValueOf(e, t[0]), ValueOf(e, t[1]))
        case (Some(p), Some(q)) => if q % 16 == 0 then Some([Octet0(p, q)]) else None
        case _ => None
      else if |t| == 3 then
        match (ValueOf(e, t[0]), ValueOf(e, t[1]), ValueOf(e, t[2]))
        case (Some(p), Some(q), Some(r)) =>
          if r % 4 == 0 then Some([Octet0(p, q), Octet1(q, r)]) else None
        case _ => None
      else None
  }

  predicate FullGroup(e: Engine, s: string) {
    |s| >= 4 && InAlphabet(e, s[0]) && InAlphabet(e, s[1]) && InAlphabet(e, s[2]) && InAlphabet(e, s[3])
  }

  /** The three octets of a full group. */
  function Ungroup(e: Engine, s: string): (b: bytes)
    requires FullGroup(e, s)
    ensures |b| == 3
  {
    var (p, q) := (ValueOf(e, s[0]).value, ValueOf(e, s[1]).value);
    var (r, t) := (ValueOf(e, s[2]).value, ValueOf(e, s[3]).value);
    [Octet0(p, q), Octet1(q, r), Octet2(r, t)]
  }

  function Decode(e: Engine, s: string): Option<bytes> {
    if s == "" then Some([])
    else if FullGroup(e, s) then
      match Decode(e, s[4..])
      case None => None
      case Some(rest) => Some(Ungroup(e, s) + rest)
    else DecodeShort(e, s)
  }

  // ── Round trips ───────────────────────────────────────────────────────────

  lemma SymbolOfChar(e: Engine, v: sextet)
    ensures ValueOf(e, CharOf(e, v)) == Some(v)
    ensures CharOf(e, v) != '='
  {
  }

  lemma CharOfSymbol(e: Engine, c: char)
    requires InAlphabet(e, c)
    ensures CharOf(e, ValueOf(e, c).value) == c
  {
  }

  lemma OctetsOfSymbols(a: byte, b: byte, c: byte)
    ensures Octet0(Symbol0(a), Symbol1(a, b)) == a
    ensures Octet1(Symbol1(a, b), Symbol2(b, c)) == b
    ensures Octet2(Symbol2(b, c), Symbol3(c)) == c
  {
  }

  lemma SymbolsOfOctets(p: sextet, q: sextet, r: sextet, t: sextet)
    ensures Symbol0(Octet0(p, q)) == p
    ensures Symbol1(Octet0(p, q), Octet1(q, r)) == q
    ensures Symbol2(Octet1(q, r), Octet2(r, t)) == r
    ensures Symbol3(Octet2(r, t)) == t
  {
  }

  /** A short group is exact when the bits it leaves over are zero. */
  lemma ShortSymbols(p: sextet, q: sextet, r: sextet)
    ensures q % 16 == 0 ==> Symbol1(Octet0(p, q), 0) == q
    ensures r % 4 == 0 ==> Symbol2(Octet1(q, r), 0) == r
  {
  }

  lemma ShortOctets(a: byte, b: byte)
    ensures Symbol1(a, 0) % 16 == 0
    ensures Symbol2(b, 0) % 4 == 0
  {
    var high, low := a % 4, b % 16;
    assert Symbol1(a, 0) == high * 16 && Symbol2(b, 0) == low * 4;
  }

  lemma GroupRoundTrip(e: Engine, a: byte, b: byte, c: byte)
    ensures FullGroup(e, Group(e, a, b, c)) && Ungroup(e, Group(e, a, b, c)) == [a, b, c]
  {
    SymbolOfChar(e, Symbol0(a));
    SymbolOfChar(e, Symbol1(a, b));
    SymbolOfChar(e, Symbol2(b, c));
    SymbolOfChar(e, Symbol3(c));
    OctetsOfSymbols(a, b, c);
  }

  lemma UngroupRoundTrip(e: Engine, s: string)
    requires FullGroup(e, s)
    ensures var b := Ungroup(e, s); Group(e, b[0], b[1], b[2]) == s[..4]
  {
    CharOfSymbol(e, s[0]);
    CharOfSymbol(e, s[1]);
    CharOfSymbol(e, s[2]);
    CharOfSymbol(e, s[3]);
    SymbolsOfOctets(ValueOf(e, s[0]).value, ValueOf(e, s[1]).value, ValueOf(e, s[2]).value, ValueOf(e, s[3]).value);
  }

  lemma FullGroupPrefix(e: Engine, g: string, rest: string)
    requires FullGroup(e, g) && |g| == 4
    ensures FullGroup(e, g + rest) && Ungroup(e, g + rest) == Ungroup(e, g) && (g + rest)[4..] == rest
  {
  }

  /** Decoding inverts encoding at every length. */
  lemma {:induction false} EncodeDecode(e: Engine, b: bytes)
    ensures Decode(e, Encode(e, b)) == Some(b)
  {
    hide CharOf, ValueOf, FullGroup, Group, Ungroup, DecodeShort;
    if |b| >= 3 {
      EncodeDecode(e, b[3..]);
      GroupRoundTrip(e, b[0], b[1], b[2]);
      FullGroupPrefix(e, Group(e, b[0], b[1], b[2]), Encode(e, b[3..]));
      assert b == [b[0], b[1], b[2]] + b[3..];
    } else if b != [] {
      ShortEncodeDecode(e, b);
    }
  }

  lemma ShortEncodeDecode(e: Engine, b: bytes)
    requires 0 < |b| < 3
    ensures var s := Encode(e, b); s != "" && !FullGroup(e, s) && DecodeShort(e, s) == Some(b)
  {
    if |b| == 1 {
      ShortEncodeDecode1(e, b[0]);
      assert b == [b[0]];
    } else {
      ShortEncodeDecode2(e, b[0], b[1]);
      assert b == [b[0], b[1]];
    }
  }

  lemma UnpadTwo(e: Engine, c: char, d: char)
    requires c != '=' && d != '='
    ensures var s := [c, d] + (if Padded(e) then "==" else "");
            !FullGroup(e, s) && Unpadded(e, s) == Some([c, d])
  {
    var s := [c, d] + (if Padded(e) then "==" else "");
    if Padded(e) {
      assert s == [c, d, '=', '='];
      assert s[..2] == [c, d];
    } else {
      assert s == [c, d];
    }
  }

  lemma UnpadThree(e: Engine, c: char, d: char, f: char)
    requires c != '=' && d != '=' && f != '='
    ensures var s := [c, d, f] + (if Padded(e) then "=" else "");
            !FullGroup(e, s) && Unpadded(e, s) == Some([c, d, f])
  {
    var s := [c, d, f] + (if Padded(e) then "=" else "");
    if Padded(e) {
      assert s == [c, d, f, '='];
      assert s[..3] == [c, d, f];
    } else {
      assert s == [c, d, f];
    }
  }

  lemma ShortDecode1(e: Engine, p: sextet, q: sextet)
    requires q % 16 == 0
    ensures var s := [CharOf(e, p), CharOf(e, q)] + (if Padded(e) then "==" else "");
            !FullGroup(e, s) && DecodeShort(e, s) == Some([Octet0(p, q)])
  {
    SymbolOfChar(e, p);
    SymbolOfChar(e, q);
    UnpadTwo(e, CharOf(e, p), CharOf(e, q));
  }

  lemma ShortEncodeDecode1(e: Engine, a: byte)
    ensures var s := Encode(e, [a]); s != "" && !FullGroup(e, s) && DecodeShort(e, s) == Some([a])
  {
    ShortOctets(a, 0);
    OctetsOfSymbols(a, 0, 0);
    EncodeOne(e, a);
    ShortDecode1(e, Symbol0(a), Symbol1(a, 0));
  }

  lemma EncodeOne(e: Engine, a: byte)
    ensures Encode(e, [a]) == [CharOf(e, Symbol0(a)), CharOf(e, Symbol1(a, 0))] + (if Padded(e) then "==" else "")
  {
  }

  lemma ShortEncodeDecode2(e: Engine, a: byte, b: byte)
    ensures var s := Encode(e, [a, b]); s != "" && !FullGroup(e, s) && DecodeShort(e, s) == Some([a, b])
  {
    var p, q, r := Symbol0(a), Symbol1(a, b), Symbol2(b, 0);
    SymbolOfChar(e, p);
    SymbolOfChar(e, q);
    SymbolOfChar(e, r);
    ShortOctets(a, b);
    OctetsOfSymbols(a, b, 0);
    UnpadThree(e, CharOf(e, p), CharOf(e, q), CharOf(e, r));
  }

  /** Every accepted text is the encoding of what it decodes to. */
  lemma {:induction false} DecodeEncode(e: Engine, s: string)
    requires Decode(e, s).Some?
    ensures Encode(e, Decode(e, s).value) == s
  {
    if s == "" {
    } else if FullGroup(e, s) {
      DecodeEncode(e, s[4..]);
      UngroupRoundTrip(e, s);
      var (g, rest) := (Ungroup(e, s), Decode(e, s[4..]).value);
      assert (g + rest)[3..] == rest && (g + rest)[0] == g[0] && (g + rest)[1] == g[1] && (g + rest)[2] == g[2];
      assert s == s[..4] + s[4..];
    } else {
      ShortDecodeEncode(e, s);
    }
  }

  lemma ShortDecodeEncode(e: Engine, s: string)
    requires s != "" && DecodeShort(e, s).Some?
    ensures Encode(e, DecodeShort(e, s).value) == s
  {
    var t := Unpadded(e, s).value;
    if |t| == 2 {
      ShortDecodeEncode1(e, t[0], t[1]);
      assert s == [t[0], t[1]] + (if Padded(e) then "==" else "");
    } else {
      ShortDecodeEncode2(e, t[0], t[1], t[2]);
      assert s == [t[0], t[1], t[2]] + (if Padded(e) then "=" else "");
    }
  }

  lemma ShortDecodeEncode1(e: Engine, c: char, d: char)
    requires InAlphabet(e, c) && InAlphabet(e, d) && ValueOf(e, d).value % 16 == 0
    ensures Encode(e, [Octet0(ValueOf(e, c).value, ValueOf(e, d).value)])
         == [c, d] + (if Padded(e) then "==" else "")
  {
    var p, q := ValueOf(e, c).value, ValueOf(e, d).value;
    CharOfSymbol(e, c);
    CharOfSymbol(e, d);
    SymbolsOfOctets(p, q, 0, 0);
    ShortSymbols(p, q, 0);
  }

  lemma ShortDecodeEncode2(e: Engine, c: char, d: char, f: char)
    requires InAlphabet(e, c) && InAlphabet(e, d) && InAlphabet(e, f) && ValueOf(e, f).value % 4 == 0
    ensures var (p, q, r) := (ValueOf(e, c).value, ValueOf(e, d).value, ValueOf(e, f).value);
            Encode(e, [Octet0(p, q), Octet1(q, r)]) == [c, d, f] + (if Padded(e) then "=" else "")
  {
    var p, q, r := ValueOf(e, c).value, ValueOf(e, d).value, ValueOf(e, f).value;
    CharOfSymbol(e, c);
    CharOfSymbol(e, d);
    CharOfSymbol(e, f);
    SymbolsOfOctets(p, q, r, 0);
    ShortSymbols(p, q, r);
  }

  /** So each octet string has exactly one accepted spelling. */
  lemma OneSpelling(e: Engine, s: string, t: string)
    requires Decode(e, s).Some? && Decode(e, s) == Decode(e, t)
    ensures s == t
  {
    DecodeEncode(e, s);
    DecodeEncode(e, t);
  }

  // ── Which texts are accepted ──────────────────────────────────────────────

  /** How many `=` end the text; section 4 allows at most two. */
  function PadCount(s: string): (n: nat)
    ensures n <= |s|
  {
    if |s| >= 2 && s[|s| - 1] == '=' && s[|s| - 2] == '=' then 2
    else if |s| >= 1 && s[|s| - 1] == '=' then 1
    else 0
  }

  /** The value of symbol `i`, or 64 outside the alphabet. */
  function Worth(e: Engine, s: string, i: nat): int
    requires i < |s|
  {
    match ValueOf(e, s[i]) case Some(v) => v case None => 64
  }

  /** Canonical text, said without decoding: alphabet symbols, then exactly the padding that fills
      the last group of four (or none for the unpadded engine), with zero unused bits. */
  predicate Canonical(e: Engine, s: string) {
    var n := if Padded(e) then |s| - PadCount(s) else |s|;
    && (forall i :: 0 <= i < n ==> InAlphabet(e, s[i]))
    && (Padded(e) ==> |s| % 4 == 0)
    && n % 4 != 1
    && (n % 4 == 2 ==> Worth(e, s, n - 1) % 16 == 0)
    && (n % 4 == 3 ==> Worth(e, s, n - 1) % 4 == 0)
  }

  /** `Decode` accepts exactly the canonical texts. */
  lemma {:induction false} AcceptsCanonical(e: Engine, s: string)
    ensures Decode(e, s).Some? <==> Canonical(e, s)
  {
    if s == "" {
    } else if FullGroup(e, s) {
      AcceptsCanonical(e, s[4..]);
      CanonicalTail(e, s);
    } else {
      ShortCanonical(e, s);
    }
  }

  lemma PadCountOfTail(s: string)
    requires |s| >= 4 && s[3] != '='
    ensures PadCount(s) == PadCount(s[4..]) <= |s| - 4
  {
    var t := s[4..];
    if |t| == 0 {
      assert s[|s| - 1] == s[3];
    } else if |t| == 1 {
      assert s[|s| - 2] == s[3] && s[|s| - 1] == t[|t| - 1];
    } else {
      assert s[|s| - 2] == t[|t| - 2] && s[|s| - 1] == t[|t| - 1];
    }
  }

  lemma AlphabetTail(e: Engine, s: string, n: int)
    requires FullGroup(e, s) && 4 <= n <= |s|
    ensures (forall i :: 0 <= i < n ==> InAlphabet(e, s[i]))
       <==> (forall i :: 0 <= i < n - 4 ==> InAlphabet(e, s[4..][i]))
  {
    hide InAlphabet;
    var t := s[4..];
    assert forall i :: 0 <= i < |t| ==> t[i] == s[i + 4];
    if forall i :: 0 <= i < n - 4 ==> InAlphabet(e, t[i]) {
      forall i | 0 <= i < n ensures InAlphabet(e, s[i]) {
        if 4 <= i {
          assert s[i] == t[i - 4];
        }
      }
    }
  }

  lemma WorthInTail(e: Engine, s: string, i: nat)
    requires 4 <= i < |s|
    ensures Worth(e, s, i) == Worth(e, s[4..], i - 4)
  {
    assert s[4..][i - 4] == s[i];
  }

  lemma CanonicalTail(e: Engine, s: string)
    requires FullGroup(e, s)
    ensures Canonical(e, s) <==> Canonical(e, s[4..])
  {
    assert !InAlphabet(e, '=');
    PadCountOfTail(s);
    var n := if Padded(e) then |s| - PadCount(s) else |s|;
    AlphabetTail(e, s, n);
    hide ValueOf, PadCount, InAlphabet, Worth, FullGroup;
    assert (n - 4) % 4 == n % 4 && (|s| - 4) % 4 == |s| % 4;
    if 4 < n {
      WorthInTail(e, s, n - 1);
    }
  }

  lemma ShortCanonical(e: Engine, s: string)
    requires s != "" && !FullGroup(e, s)
    ensures DecodeShort(e, s).Some? <==> Canonical(e, s)
  {
    var n := if Padded(e) then |s| - PadCount(s) else |s|;
    if n >= 4 {
      assert exists i :: 0 <= i < 4 && !InAlphabet(e, s[i]);
    } else {
      assert forall i :: 0 <= i < n ==> s[i] in s;
    }
  }

  // ── Symbols one by one ────────────────────────────────────────────────────

  /** Bits `6k` to `6k + 5` of `b`, in the three octets they can touch. */
  function SextetAt(b: bytes, k: nat): sextet
    requires k / 4 * 3 + 2 < |b|
  {
    var g := k / 4 * 3;
    if k % 4 == 0 then Symbol0(b[g])
    else if k % 4 == 1 then Symbol1(b[g], b[g + 1])
    else if k % 4 == 2 then Symbol2(b[g + 1], b[g + 2])
    else Symbol3(b[g + 2])
  }

  lemma SextetInTail(b: bytes, k: nat)
    requires 4 <= k && k / 4 * 3 + 2 < |b|
    ensures (k - 4) / 4 * 3 + 2 < |b[3..]| && SextetAt(b[3..], k - 4) == SextetAt(b, k)
  {
    var g := (k - 4) / 4 * 3;
    assert k / 4 * 3 == g + 3 && (k - 4) % 4 == k % 4;
  }

  lemma {:induction false} EncodeLength(e: Engine, b: bytes)
    requires |b| % 3 == 0
    ensures |Encode(e, b)| == |b| / 3 * 4
  {
    hide CharOf, Symbol0, Symbol1, Symbol2, Symbol3;
    if b != [] {
      EncodeLength(e, b[3..]);
    }
  }

  lemma GroupAt(e: Engine, b: bytes, k: nat)
    requires |b| >= 3 && k < 4
    ensures Group(e, b[0], b[1], b[2])[k] == CharOf(e, SextetAt(b, k))
  {
    hide CharOf;
    assert k / 4 * 3 == 0 && k % 4 == k;
  }

  lemma EncodeFirst(e: Engine, b: bytes)
    requires |b| >= 3
    ensures Encode(e, b) == Group(e, b[0], b[1], b[2]) + Encode(e, b[3..])
  {
    hide Group;
  }

  /** For whole groups, character `k` spells exactly bits `6k` to `6k + 5`. */
  lemma {:induction false} EncodeAt(e: Engine, b: bytes, k: nat)
    requires |b| % 3 == 0 && k < |b| / 3 * 4
    ensures |Encode(e, b)| == |b| / 3 * 4
    ensures Encode(e, b)[k] == CharOf(e, SextetAt(b, k))
    decreases |b|
  {
    hide CharOf, SextetAt, Group, Encode;
    EncodeLength(e, b);
    EncodeFirst(e, b);
    if 4 <= k {
      SextetInTail(b, k);
      EncodeAt(e, b[3..], k - 4);
    } else {
      GroupAt(e, b, k);
    }
  }

  // ── By the letter of RFC 4648 ─────────────────────────────────────────────

  /** Table 1 of section 4 and table 2 of section 5, eight symbols a row. */
  function Row(e: Engine, k: nat): (s: string)
    requires k < 8
    ensures |s| == 8
  {
    if k == 0 then "ABCDEFGH" else if k == 1 then "IJKLMNOP" else if k == 2 then "QRSTUVWX"
    else if k == 3 then "YZabcdef" else if k == 4 then "ghijklmn" else if k == 5 then "opqrstuv"
    else if k == 6 then "wxyz0123" else if e.Standard? then "456789+/" else "456789-_"
  }

  function Alphabet(e: Engine): (s: string)
    ensures |s| == 64
  {
    Row(e, 0) + Row(e, 1) + Row(e, 2) + Row(e, 3) + Row(e, 4) + Row(e, 5) + Row(e, 6) + Row(e, 7)
  }

  lemma RowByRow(e: Engine, v: sextet)
    ensures Alphabet(e)[v] == Row(e, v / 8)[v % 8]
  {
    hide Row;
    var k := v / 8;
    assert v == 8 * k + v % 8;
    assert k == 0 || k == 1 || k == 2 || k == 3 || k == 4 || k == 5 || k == 6 || k == 7;
  }

  /** Symbol `v` is character `v` of the RFC's table. */
  lemma SymbolsAreTheTables(e: Engine, v: sextet)
    ensures CharOf(e, v) == Alphabet(e)[v]
    ensures CharOf(UrlSafeNoPad, 62) == '-' && CharOf(UrlSafeNoPad, 63) == '_'
    ensures CharOf(Standard, 62) == '+' && CharOf(Standard, 63) == '/'
  {
    RowByRow(e, v);
    hide Alphabet;
    var c := v % 8;
    assert c == 0 || c == 1 || c == 2 || c == 3 || c == 4 || c == 5 || c == 6 || c == 7;
  }

  /** Three octets as one 24-bit number, most significant first. */
  function Number(a: int, b: int, c: int): int {
    65_536 * a + 256 * b + c
  }

  /** `Encode` by the words of section 4: three octets are one 24-bit number, whose four base-64 digits, most
      significant first, are looked up in the table; a tail of one or two octets is filled up with zero bits to two
      or three digits, and the standard engine pads it with two or one equals signs. */
  lemma EncodesByTheBook(e: Engine, b: bytes)
    returns (p: sextet, q: sextet, r: sextet, s: sextet)
    ensures |b| == 0 ==> Encode(e, b) == ""
    ensures |b| == 1 ==>
              && Number(b[0], 0, 0) == p * 262_144 + q * 4_096
              && Encode(e, b) == [Alphabet(e)[p], Alphabet(e)[q]] + (if e.Standard? then "==" else "")
    ensures |b| == 2 ==>
              && Number(b[0], b[1], 0) == p * 262_144 + q * 4_096 + r * 64
              && Encode(e, b) == [Alphabet(e)[p], Alphabet(e)[q], Alphabet(e)[r]] + (if e.Standard? then "=" else "")
    ensures |b| >= 3 ==>
              && Number(b[0], b[1], b[2]) == p * 262_144 + q * 4_096 + r * 64 + s
              && Encode(e, b) == [Alphabet(e)[p], Alphabet(e)[q], Alphabet(e)[r], Alphabet(e)[s]] + Encode(e, b[3..])
  {
    p, q, r, s := 0, 0, 0, 0;
    if b != [] {
      var c := if |b| >= 2 then b[1] else 0;
      var d := if |b| >= 3 then b[2] else 0;
      p, q, r, s := Symbol0(b[0]), Symbol1(b[0], c), Symbol2(c, d), Symbol3(d);
      SymbolsAreTheTables(e, p);
      SymbolsAreTheTables(e, q);
      SymbolsAreTheTables(e, r);
      SymbolsAreTheTables(e, s);
      hide CharOf, Alphabet;
    }
  }

  /** Letters and digits, and two more. */
  predicate IsSymbol(e: Engine, c: char) {
    || 'A' <= c <= 'Z' || 'a' <= c <= 'z' || '0' <= c <= '9'
    || (e.Standard? && (c == '+' || c == '/')) || (e.UrlSafeNoPad? && (c == '-' || c == '_'))
  }

  lemma AlphabetInLetters(e: Engine, c: char)
    ensures InAlphabet(e, c) <==> IsSymbol(e, c)
  {
  }

  /** Encoded text is symbols, and for the standard engine equals signs that fill the last four characters. */
  lemma {:induction false} EncodedLetters(e: Engine, b: bytes)
    ensures forall i :: 0 <= i < |Encode(e, b)| ==> IsSymbol(e, Encode(e, b)[i]) || (e.Standard? && Encode(e, b)[i] == '=')
    ensures |Encode(e, b)| == if e.Standard? then (|b| + 2) / 3 * 4 else (|b| * 4 + 2) / 3
    decreases |b|
  {
    var p, q, r, s := EncodesByTheBook(e, b);
    TablesAreSymbols(e, p);
    TablesAreSymbols(e, q);
    TablesAreSymbols(e, r);
    TablesAreSymbols(e, s);
    hide IsSymbol, Alphabet, Encode, Number;
    if |b| >= 3 {
      EncodedLetters(e, b[3..]);
      Lengths(|b|);
    }
  }

  lemma Lengths(n: nat)
    requires n >= 3
    ensures (n - 3 + 2) / 3 * 4 + 4 == (n + 2) / 3 * 4 && ((n - 3) * 4 + 2) / 3 + 4 == (n * 4 + 2) / 3
  {
  }

  lemma TablesAreSymbols(e: Engine, v: sextet)
    ensures IsSymbol(e, Alphabet(e)[v])
  {
    SymbolsAreTheTables(e, v);
    hide Alphabet;
  }
}
