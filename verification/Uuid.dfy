/** Record ids and their hyphenated UUID spelling, section 4 of RFC 9562. */
module Uuid {
  import opened Core
  import opened Ordering

  /** The 16 octets of a record id. */
  type RecordId = id: bytes | |id| == 16 witness seq(16, _ => 0)

  function HexDigit(v: int): char
    requires 0 <= v < 16
  {
    if v < 10 then (v + '0' as int) as char else (v - 10 + 'a' as int) as char
  }

  /** Two lower-case hexadecimal digits per octet. */
  function Hex(b: bytes): (s: string)
    ensures |s| == 2 * |b|
  {
    if b == [] then "" else [HexDigit(b[0] / 16), HexDigit(b[0] % 16)] + Hex(b[1..])
  }

  /** The 8-4-4-4-12 form that keys the JSON file. */
  function Hyphenated(id: RecordId): (s: string)
    ensures |s| == 36
  {
    Hex(id[..4]) + ("-" + (Hex(id[4..6]) + ("-" + (Hex(id[6..8]) + ("-" + (Hex(id[8..10]) + ("-" + Hex(id[10..]))))))))
  }

  lemma FirstPair(a: bytes)
    requires a != []
    ensures var p := [HexDigit(a[0] / 16), HexDigit(a[0] % 16)];
            Hex(a) == p + Hex(a[1..]) && Hex(a)[..2] == p && Hex(a)[2..] == Hex(a[1..])
  {
    hide HexDigit;
  }

  /** Hexadecimal text sorts as the octets do. */
  lemma {:induction false} HexOrder(a: bytes, b: bytes)
    requires |a| == |b|
    ensures Less(Octets(Hex(a)), Octets(Hex(b))) <==> Less(a, b)
    ensures Hex(a) == Hex(b) <==> a == b
  {
    hide HexDigit;
    if a != [] {
      FirstPair(a);
      FirstPair(b);
      hide Hex;
      HexOrder(a[1..], b[1..]);
      var p, q := [HexDigit(a[0] / 16), HexDigit(a[0] % 16)], [HexDigit(b[0] / 16), HexDigit(b[0] % 16)];
      TextLessConcat(p, q, Hex(a[1..]), Hex(b[1..]));
      DigitPairOrder(a[0], b[0]);
      assert a == b <==> a[0] == b[0] && a[1..] == b[1..] by {
        assert a == [a[0]] + a[1..] && b == [b[0]] + b[1..];
      }
    }
  }

  lemma DigitPairOrder(x: byte, y: byte)
    ensures var (p, q) := ([HexDigit(x / 16), HexDigit(x % 16)], [HexDigit(y / 16), HexDigit(y % 16)]);
            (Less(Octets(p), Octets(q)) <==> x < y) && (p == q <==> x == y)
  {
    var (a, b, c, d) := (HexDigit(x / 16), HexDigit(x % 16), HexDigit(y / 16), HexDigit(y % 16));
    assert Octets([a, b]) == [a as int, b as int] && Octets([c, d]) == [c as int, d as int];
    PairLess(a as int, b as int, c as int, d as int);
    HexDigitOrder(x / 16, y / 16);
    HexDigitOrder(x % 16, y % 16);
    assert [a, b] == [c, d] <==> a == c && b == d by {
      assert [a, b][0] == a && [a, b][1] == b && [c, d][0] == c && [c, d][1] == d;
    }
  }

  lemma HexDigitOrder(v: int, w: int)
    requires 0 <= v < 16 && 0 <= w < 16
    ensures HexDigit(v) < HexDigit(w) <==> v < w
    ensures HexDigit(v) == HexDigit(w) <==> v == w
  {
  }

  lemma PairLess(a: int, b: int, c: int, d: int)
    ensures Less([a, b], [c, d]) <==> a < c || (a == c && b < d)
  {
    assert [a, b][1..] == [b] && [c, d][1..] == [d];
    assert Less([b], [d]) <==> b < d || (b == d && Less([b][1..], [d][1..]));
  }

  /** A hyphen between two blocks changes no order. */
  lemma HyphenOrder(a: bytes, b: bytes, s: string, t: string)
    requires |a| == |b|
    ensures Less(Octets(Hex(a) + ("-" + s)), Octets(Hex(b) + ("-" + t)))
       <==> Less(a, b) || (a == b && Less(Octets(s), Octets(t)))
    ensures Hex(a) + ("-" + s) == Hex(b) + ("-" + t) <==> a == b && s == t
  {
    HexOrder(a, b);
    TextLessConcat(Hex(a), Hex(b), "-" + s, "-" + t);
    TextLessConcat("-", "-", s, t);
    LessIrreflexive(Octets("-"));
    var x, y := Hex(a) + ("-" + s), Hex(b) + ("-" + t);
    assert x[..2 * |a|] == Hex(a) && y[..2 * |a|] == Hex(b);
    assert x[2 * |a| + 1..] == s && y[2 * |a| + 1..] == t;
  }

  /** The string-keyed map is a faithful image of a map keyed by raw ids: the keys are injective and
      sort as the sixteen octets sort. */
  lemma KeysAreFaithful(a: RecordId, b: RecordId)
    ensures Hyphenated(a) == Hyphenated(b) <==> a == b
    ensures Less(Octets(Hyphenated(a)), Octets(Hyphenated(b))) <==> Less(a, b)
  {
    HexOrder(a[10..], b[10..]);
    var a3, b3 := Hex(a[10..]), Hex(b[10..]);
    HyphenOrder(a[8..10], b[8..10], a3, b3);
    var a2, b2 := Hex(a[8..10]) + ("-" + a3), Hex(b[8..10]) + ("-" + b3);
    HyphenOrder(a[6..8], b[6..8], a2, b2);
    var a1, b1 := Hex(a[6..8]) + ("-" + a2), Hex(b[6..8]) + ("-" + b2);
    HyphenOrder(a[4..6], b[4..6], a1, b1);
    HyphenOrder(a[..4], b[..4], Hex(a[4..6]) + ("-" + a1), Hex(b[4..6]) + ("-" + b1));
    hide Less, Hex;
    BlockOrder(a, b, 8, 10);
    BlockOrder(a, b, 6, 8);
    BlockOrder(a, b, 4, 6);
    BlockOrder(a, b, 0, 4);
    assert a[0..4] == a[..4] && b[0..4] == b[..4] && a[0..] == a && b[0..] == b;
  }

  /** Splitting off a block of octets splits the comparison. */
  lemma BlockOrder(a: bytes, b: bytes, i: nat, j: nat)
    requires i <= j <= |a| == |b|
    ensures Less(a[i..], b[i..]) <==> Less(a[i..j], b[i..j]) || (a[i..j] == b[i..j] && Less(a[j..], b[j..]))
    ensures a[i..] == b[i..] <==> a[i..j] == b[i..j] && a[j..] == b[j..]
  {
    assert a[i..] == a[i..j] + a[j..] && b[i..] == b[i..j] + b[j..];
    LessConcat(a[i..j], b[i..j], a[j..], b[j..]);
  }

  // ── By the letter of RFC 9562 ─────────────────────────────────────────────

  const HEX_DIGITS := "01234567" + "89abcdef"

  lemma DigitsAreTheLetters(v: int)
    requires 0 <= v < 16
    ensures |HEX_DIGITS| == 16 && HexDigit(v) == HEX_DIGITS[v]
  {
    var c := v % 8;
    assert c == 0 || c == 1 || c == 2 || c == 3 || c == 4 || c == 5 || c == 6 || c == 7;
    if v < 8 {
      assert HEX_DIGITS[v] == "01234567"[c];
    } else {
      assert HEX_DIGITS[v] == "89abcdef"[c];
    }
  }

  /** Half `n` of the octets, high halves first. */
  function Nibble(b: bytes, n: nat): (v: int)
    requires n < 2 * |b|
    ensures 0 <= v < 16
  {
    if n % 2 == 0 then b[n / 2] / 16 else b[n / 2] % 16
  }

  lemma {:induction false} HexAt(b: bytes, n: nat)
    requires n < 2 * |b|
    ensures Hex(b)[n] == HexDigit(Nibble(b, n))
    decreases |b|
  {
    hide HexDigit;
    if 2 <= n {
      HexAt(b[1..], n - 2);
      FirstPair(b);
      hide Hex;
      assert (n - 2) / 2 == n / 2 - 1 && b[1..][n / 2 - 1] == b[n / 2];
    }
  }

  /** Where digit `n` stands: after four, six, eight and ten octets comes a hyphen. */
  function PlaceOf(n: nat): nat {
    n + (if n < 8 then 0 else if n < 12 then 1 else if n < 16 then 2 else if n < 20 then 3 else 4)
  }

  lemma Cut(p: string, q: string)
    ensures (p + q)[..|p|] == p && (p + q)[|p|..] == q
  {
  }

  lemma Joined(a: string, b: string, c: string, d: string, e: string)
    requires |a| == 8 && |b| == |c| == |d| == 4 && |e| == 12
    ensures var s := a + ("-" + (b + ("-" + (c + ("-" + (d + ("-" + e)))))));
            && |s| == 36 && s[8] == s[13] == s[18] == s[23] == '-'
            && s[0..8] == a && s[9..13] == b && s[14..18] == c && s[19..23] == d && s[24..36] == e
  {
    var r4 := d + ("-" + e);
    var r3 := c + ("-" + r4);
    var r2 := b + ("-" + r3);
    var s := a + ("-" + r2);
    Tail(a, r2);
    Tail(b, r3);
    Tail(c, r4);
    Tail(d, e);
    assert s[9..][5..] == s[14..] && s[14..][5..] == s[19..] && s[19..][5..] == s[24..];
    assert s[9..][..4] == s[9..13] && s[14..][..4] == s[14..18] && s[19..][..4] == s[19..23];
    assert s[9..][4] == s[13] && s[14..][4] == s[18] && s[19..][4] == s[23];
  }

  lemma Tail(p: string, q: string)
    ensures var s := p + ("-" + q);
            |s| == |p| + 1 + |q| && s[..|p|] == p && s[|p|] == '-' && s[|p| + 1..] == q
  {
    Cut(p, "-" + q);
  }

  /** Digit `m` of a block of octets that `s` spells at `at`. */
  lemma BlockDigit(s: string, at: nat, id: bytes, from: nat, to: nat, m: nat)
    requires from <= to <= |id| && m < 2 * (to - from)
    requires at + 2 * (to - from) <= |s| && s[at..at + 2 * (to - from)] == Hex(id[from..to])
    ensures s[at + m] == HexDigit(Nibble(id, 2 * from + m))
  {
    hide HexDigit, Hex;
    HexAt(id[from..to], m);
    assert s[at + m] == s[at..at + 2 * (to - from)][m];
    assert (2 * from + m) / 2 == from + m / 2 && id[from..to][m / 2] == id[from + m / 2];
  }

  lemma DigitsInPlace(id: RecordId, n: nat)
    requires n < 32
    ensures Hyphenated(id)[PlaceOf(n)] == HexDigit(Nibble(id, n))
  {
    hide Hex, HexDigit, Nibble;
    var s := Hyphenated(id);
    Joined(Hex(id[..4]), Hex(id[4..6]), Hex(id[6..8]), Hex(id[8..10]), Hex(id[10..]));
    assert id[0..4] == id[..4] && id[10..16] == id[10..];
    hide Hyphenated;
    if n < 8 {
      BlockDigit(s, 0, id, 0, 4, n);
    } else if n < 12 {
      BlockDigit(s, 9, id, 4, 6, n - 8);
    } else if n < 16 {
      BlockDigit(s, 14, id, 6, 8, n - 12);
    } else if n < 20 {
      BlockDigit(s, 19, id, 8, 10, n - 16);
    } else {
      BlockDigit(s, 24, id, 10, 16, n - 20);
    }
  }

  /** The 32 lower-case digits in order, and hyphens at the 9th, 14th, 19th and 24th place. */
  lemma HyphenatedByTheBook(id: RecordId, n: nat)
    requires n < 32
    ensures |Hyphenated(id)| == 36
    ensures Hyphenated(id)[8] == Hyphenated(id)[13] == Hyphenated(id)[18] == Hyphenated(id)[23] == '-'
    ensures Hyphenated(id)[n + (if n < 8 then 0 else if n < 12 then 1 else if n < 16 then 2 else if n < 20 then 3 else 4)]
         == "0123456789abcdef"[if n % 2 == 0 then id[n / 2] / 16 else id[n / 2] % 16]
  {
    DigitsAreTheLetters(Nibble(id, n));
    DigitsInPlace(id, n);
    hide Hex, HexDigit, PlaceOf, Nibble;
    Joined(Hex(id[..4]), Hex(id[4..6]), Hex(id[6..8]), Hex(id[8..10]), Hex(id[10..]));
  }
}
