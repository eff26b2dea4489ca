/** Timestamp texts: printing as chrono's `to_rfc3339` and its serde form print them, parsing by the
    `date-time` grammar of section 5.6 of RFC 3339, and the order of the printed texts. */
module Rfc3339 {
  import opened Core
  import opened Ordering
  import opened Calendar

  // ── Decimal fields ────────────────────────────────────────────────────────

  function Pow10(w: nat): (p: nat)
    ensures 0 < p
  {
    if w == 0 then 1 else 10 * Pow10(w - 1)
  }

  function Digit(d: int): (c: char)
    requires 0 <= d < 10
    ensures '0' <= c <= '9'
  {
    (d + '0' as int) as char
  }

  predicate IsDigit(c: char) {
    '0' <= c <= '9'
  }

  predicate AllDigits(s: string) {
    forall i :: 0 <= i < |s| ==> IsDigit(s[i])
  }

  /** The low `w` decimal digits of `n`, zero-padded. */
  function Pad(n: int, w: nat): (s: string)
    ensures |s| == w && AllDigits(s)
    decreases w
  {
    if w == 0 then "" else Pad(n / 10, w - 1) + [Digit(n % 10)]
  }

  /** The number a run of digits spells. */
  function Number(s: string): nat
    requires AllDigits(s)
  {
    if s == "" then 0
    else 10 * Number(s[..|s| - 1]) + (s[|s| - 1] as int - '0' as int)
  }

  lemma {:induction false} NumberOfPad(n: nat, w: nat)
    requires n < Pow10(w)
    ensures Number(Pad(n, w)) == n
  {
    if 0 < w {
      NumberOfPad(n / 10, w - 1);
      assert Pad(n, w)[..w - 1] == Pad(n / 10, w - 1);
    }
  }

  lemma DigitOrder(x: int, y: int)
    requires 0 <= x < 10 && 0 <= y < 10
    ensures Less(Octets([Digit(x)]), Octets([Digit(y)])) <==> x < y
  {
    assert Octets([Digit(x)]) == [Digit(x) as int] && Octets([Digit(y)]) == [Digit(y) as int];
  }

  /** Fields of one width sort as the numbers they spell. */
  lemma {:induction false} PadOrder(m: nat, n: nat, w: nat)
    requires m < Pow10(w) && n < Pow10(w)
    ensures Less(Octets(Pad(m, w)), Octets(Pad(n, w))) <==> m < n
    ensures Pad(m, w) == Pad(n, w) ==> m == n
  {
    hide Number, Digit, Octets;
    NumberOfPad(m, w);
    NumberOfPad(n, w);
    if 0 < w {
      hide Less;
      PadOrder(m / 10, n / 10, w - 1);
      TextLessConcat(Pad(m / 10, w - 1), Pad(n / 10, w - 1), [Digit(m % 10)], [Digit(n % 10)]);
      DigitOrder(m % 10, n % 10);
    }
  }

  lemma {:induction false} PadSplit(n: nat, i: nat, j: nat)
    ensures Pad(n, i + j) == Pad(n / Pow10(j), i) + Pad(n % Pow10(j), j)
  {
    if j == 0 {
      assert Pad(n, i) + "" == Pad(n, i);
    } else {
      var p := Pow10(j - 1);
      PadSplit(n / 10, i, j - 1);
      DivDiv(n, p);
      assert Pad(n, i + j) == Pad(n / 10, i + j - 1) + [Digit(n % 10)];
      assert Pad(n % (10 * p), j) == Pad(n % (10 * p) / 10, j - 1) + [Digit(n % (10 * p) % 10)];
    }
  }

  lemma DivDiv(n: nat, p: nat)
    requires 0 < p
    ensures n / 10 / p == n / (10 * p)
    ensures n % (10 * p) / 10 == n / 10 % p
    ensures n % (10 * p) % 10 == n % 10
  {
    var q, r := n / 10, n % 10;
    var a, b := q / p, q % p;
    assert n == 10 * (p * a + b) + r == (10 * p) * a + (10 * b + r) by {
      assert 10 * (p * a) == (10 * p) * a;
    }
    assert 0 <= 10 * b + r < 10 * p;
    DivModUnique(n, 10 * p, a, 10 * b + r);
  }

  lemma DivModUnique(n: nat, d: nat, q: nat, r: nat)
    requires r < d && n == d * q + r
    ensures n / d == q && n % d == r
  {
    var q', r' := n / d, n % d;
    assert n == d * q' + r' && 0 <= r' < d;
    if q < q' {
      AtLeastOnce(d, q, q');
      assert false;
    }
    if q' < q {
      AtLeastOnce(d, q', q);
      assert false;
    }
  }

  lemma AtLeastOnce(d: nat, q: nat, more: nat)
    requires q < more
    ensures d * q + d <= d * more
  {
    assert d * more == d * q + d * (more - q);
    assert d * (more - q) == d + d * (more - q - 1);
  }

  // ── Printing ──────────────────────────────────────────────────────────────

  /** How many fraction digits are printed: the fewest of 0, 3, 6 and 9 that lose nothing. */
  function Width(nano: nat): nat {
    if nano == 0 then 0
    else if nano % 1_000_000 == 0 then 3
    else if nano % 1_000 == 0 then 6
    else 9
  }

  /** The number those digits spell. */
  function Scaled(nano: nat): nat {
    if Width(nano) == 9 then nano
    else if Width(nano) == 6 then nano / 1_000
    else nano / 1_000_000
  }

  /** The fraction of a second, point included. */
  function Fraction(nano: nat): string {
    if nano == 0 then "" else "." + Pad(Scaled(nano), Width(nano))
  }

  function DateText(c: Civil): (s: string)
    requires Valid(c)
    ensures |s| == 10
  {
    Pad(c.year, 4) + ("-" + (Pad(c.month, 2) + ("-" + Pad(c.day, 2))))
  }

  function TimeText(c: Civil): (s: string)
    requires Valid(c)
    ensures |s| == 8
  {
    Pad(c.hour, 2) + (":" + (Pad(c.minute, 2) + (":" + Pad(c.second, 2))))
  }

  /** How the UTC offset is written: `to_rfc3339` writes `+00:00`, the serde form writes `Z`. */
  datatype Style = Numeric | Zulu

  function Suffix(style: Style): string {
    if style.Zulu? then "Z" else "+00:00"
  }

  function CivilText(c: Civil, style: Style): string
    requires Valid(c)
  {
    DateText(c) + ("T" + (TimeText(c) + (Fraction(c.nano) + Suffix(style))))
  }

  /** The text of an instant. */
  function Print(t: Instant, style: Style): string
    requires InRange(t)
  {
    CivilRoundTrip(t);
    CivilText(ToCivil(t), style)
  }

  // ── Parsing ───────────────────────────────────────────────────────────────

  /** A fixed-width decimal field of `s` at `i`. */
  function Field(s: string, i: nat, w: nat): Option<nat> {
    if i + w <= |s| && AllDigits(s[i..i + w]) then Some(Number(s[i..i + w])) else None
  }

  predicate CharAt(s: string, i: nat, allowed: set<char>) {
    i < |s| && s[i] in allowed
  }

  /** How many digits `s` starts with. */
  function DigitRun(s: string): (n: nat)
    ensures n <= |s| && AllDigits(s[..n])
    ensures n < |s| ==> !IsDigit(s[n])
  {
    if s == "" || !IsDigit(s[0]) then 0 else 1 + DigitRun(s[1..])
  }

  /** Nanoseconds in a non-empty run of fraction digits; digits after the ninth are dropped. */
  function FractionNanos(digits: string): nat
    requires AllDigits(digits)
  {
    if |digits| >= 9 then Number(digits[..9])
    else Number(digits) * Pow10(9 - |digits|)
  }

  /** The optional fraction at the head of `s` and what follows it. */
  function ParseFraction(s: string): Option<(nat, string)> {
    if s == "" || s[0] != '.' then Some((0, s))
    else
      var n := DigitRun(s[1..]);
      if n == 0 then None else Some((FractionNanos(s[1..][..n]), s[1..][n..]))
  }

  /** The UTC offset in seconds that makes up all of `s`. */
  function ParseOffset(s: string): Option<int> {
    if |s| == 1 && s[0] in {'Z', 'z'} then Some(0)
    else if |s| == 6 && s[0] in {'+', '-'} && s[3] == ':' then
      match (Field(s, 1, 2), Field(s, 4, 2))
      case (Some(h), Some(m)) =>
        var seconds: int := 3600 * h + 60 * m;
        if h < 24 && m < 60 then Some(if s[0] == '-' then -seconds else seconds) else None
      case _ => None
    else None
  }

  /** The date and time of day spelled by the first 19 characters, with `nano` as the fraction. */
  function ParseFields(s: string, nano: nat): Option<Civil> {
    if CharAt(s, 4, {'-'}) && CharAt(s, 7, {'-'}) && CharAt(s, 10, {'T', 't'})
       && CharAt(s, 13, {':'}) && CharAt(s, 16, {':'}) then
      match (Field(s, 0, 4), Field(s, 5, 2), Field(s, 8, 2), Field(s, 11, 2), Field(s, 14, 2), Field(s, 17, 2))
      case (Some(y), Some(mo), Some(d), Some(h), Some(mi), Some(sec)) =>
        if ValidDate(y, mo, d) && ValidTime(h, mi, sec, nano) then Some(Civil(y, mo, d, h, mi, sec, nano))
        else None
      case _ => None
    else None
  }

  /** Everything after the seconds: the fraction in nanoseconds and the UTC offset in seconds. */
  function ParseTail(s: string): Option<(nat, int)> {
    match ParseFraction(s)
    case None => None
    case Some((nano, rest)) =>
      match ParseOffset(rest)
      case None => None
      case Some(offset) => Some((nano, offset))
  }

  /** The instant a timestamp text names, or `None` when it is not a `date-time`. */
  function Parse(s: string): Option<Instant> {
    if |s| < 19 then None
    else
      match ParseTail(s[19..])
      case None => None
      case Some((nano, offset)) =>
        match ParseFields(s, nano)
        case None => None
        case Some(c) => Some(FromCivil(c) - offset * NANOS_PER_SEC)
  }

  // ── Round trip ────────────────────────────────────────────────────────────

  lemma FieldOfPad(s: string, i: nat, n: nat, w: nat)
    requires i + w <= |s| && s[i..i + w] == Pad(n, w) && n < Pow10(w)
    ensures Field(s, i, w) == Some(n)
  {
    NumberOfPad(n, w);
  }

  lemma SmallPowers()
    ensures Pow10(2) == 100 && Pow10(3) == 1_000 && Pow10(4) == 10_000
    ensures Pow10(6) == 1_000_000 && Pow10(9) == 1_000_000_000
  {
    assert Pow10(2) == 100;
    assert Pow10(4) == 10_000;
    assert Pow10(6) == 1_000_000;
    assert Pow10(8) == 100_000_000;
  }

  lemma {:induction false} DigitRunOfDigits(d: string, rest: string)
    requires AllDigits(d) && rest != "" && !IsDigit(rest[0])
    ensures DigitRun(d + rest) == |d|
  {
    if d == "" {
      assert d + rest == rest;
    } else {
      assert (d + rest)[1..] == d[1..] + rest;
      DigitRunOfDigits(d[1..], rest);
    }
  }

  lemma ScaledIsExact(nano: nat)
    requires 0 < nano < NANOS_PER_SEC
    ensures Scaled(nano) < Pow10(Width(nano)) && Scaled(nano) * Pow10(9 - Width(nano)) == nano
  {
    SmallPowers();
  }

  lemma PointRead(d: string, rest: string)
    requires d != "" && AllDigits(d) && rest != "" && !IsDigit(rest[0])
    ensures ParseFraction("." + d + rest) == Some((FractionNanos(d), rest))
  {
    hide FractionNanos, DigitRun;
    DigitRunOfDigits(d, rest);
    var s := "." + d + rest;
    assert s[0] == '.' && s[1..] == d + rest;
    assert (d + rest)[..|d|] == d && (d + rest)[|d|..] == rest;
  }

  /** A printed fraction is read back from in front of anything that is neither a digit nor a point. */
  lemma FractionBefore(nano: nat, rest: string)
    requires nano < NANOS_PER_SEC && rest != "" && rest[0] != '.' && !IsDigit(rest[0])
    ensures ParseFraction(Fraction(nano) + rest) == Some((nano, rest))
  {
    hide Pow10, Number, Pad, FractionNanos, DigitRun;
    if nano == 0 {
      assert Fraction(nano) + rest == rest;
    } else {
      hide ParseFraction;
      var d := Pad(Scaled(nano), Width(nano));
      ScaledIsExact(nano);
      NumberOfPad(Scaled(nano), Width(nano));
      NanosOfDigits(d);
      PointRead(d, rest);
    }
  }

  lemma FractionRoundTrip(nano: nat, style: Style)
    requires nano < NANOS_PER_SEC
    ensures ParseFraction(Fraction(nano) + Suffix(style)) == Some((nano, Suffix(style)))
  {
    FractionBefore(nano, Suffix(style));
  }

  lemma NanosOfDigits(d: string)
    requires AllDigits(d) && |d| <= 9
    ensures FractionNanos(d) == Number(d) * Pow10(9 - |d|)
  {
    if |d| == 9 {
      assert d[..9] == d && Pow10(0) == 1;
    }
  }

  lemma DateFields(c: Civil, rest: string)
    requires Valid(c)
    ensures var s := DateText(c) + rest;
            && CharAt(s, 4, {'-'}) && CharAt(s, 7, {'-'})
            && Field(s, 0, 4) == Some(c.year) && Field(s, 5, 2) == Some(c.month) && Field(s, 8, 2) == Some(c.day)
  {
    SmallPowers();
    hide Pad, Pow10, Field;
    var s := DateText(c) + rest;
    assert s[0..4] == Pad(c.year, 4);
    assert s[5..7] == Pad(c.month, 2);
    assert s[8..10] == Pad(c.day, 2);
    FieldOfPad(s, 0, c.year, 4);
    FieldOfPad(s, 5, c.month, 2);
    FieldOfPad(s, 8, c.day, 2);
  }

  lemma TimeFields(date: string, c: Civil, rest: string)
    requires Valid(c) && |date| == 10
    ensures var s := date + ("T" + (TimeText(c) + rest));
            && CharAt(s, 10, {'T', 't'}) && CharAt(s, 13, {':'}) && CharAt(s, 16, {':'})
            && Field(s, 11, 2) == Some(c.hour) && Field(s, 14, 2) == Some(c.minute)
            && Field(s, 17, 2) == Some(c.second) && s[19..] == rest
  {
    SmallPowers();
    hide Pad, Pow10, Field;
    var s := date + ("T" + (TimeText(c) + rest));
    assert s[11..13] == Pad(c.hour, 2);
    assert s[14..16] == Pad(c.minute, 2);
    assert s[17..19] == Pad(c.second, 2);
    FieldOfPad(s, 11, c.hour, 2);
    FieldOfPad(s, 14, c.minute, 2);
    FieldOfPad(s, 17, c.second, 2);
  }

  lemma OffsetRoundTrip(style: Style)
    ensures ParseOffset(Suffix(style)) == Some(0)
  {
    SmallPowers();
    var s := Suffix(style);
    if style.Numeric? {
      assert s[1..3] == Pad(0, 2) && s[4..6] == Pad(0, 2);
      FieldOfPad(s, 1, 0, 2);
      FieldOfPad(s, 4, 0, 2);
    }
  }

  lemma TailRoundTrip(nano: nat, style: Style)
    requires nano < NANOS_PER_SEC
    ensures ParseTail(Fraction(nano) + Suffix(style)) == Some((nano, 0))
  {
    FractionRoundTrip(nano, style);
    OffsetRoundTrip(style);
  }

  lemma FieldsOfText(c: Civil, tail: string)
    requires Valid(c)
    ensures var s := DateText(c) + ("T" + (TimeText(c) + tail));
            ParseFields(s, c.nano) == Some(c) && s[19..] == tail
  {
    DateFields(c, "T" + (TimeText(c) + tail));
    TimeFields(DateText(c), c, tail);
  }

  lemma ParseOfParts(s: string, c: Civil)
    requires |s| >= 19 && ParseTail(s[19..]) == Some((c.nano, 0)) && ParseFields(s, c.nano) == Some(c)
    ensures Valid(c) && Parse(s) == Some(FromCivil(c))
  {
    assert 0 * NANOS_PER_SEC == 0;
  }

  lemma CivilTextParse(c: Civil, style: Style)
    requires Valid(c)
    ensures Parse(CivilText(c, style)) == Some(FromCivil(c))
  {
    var tail := Fraction(c.nano) + Suffix(style);
    FieldsOfText(c, tail);
    TailRoundTrip(c.nano, style);
    var s := DateText(c) + ("T" + (TimeText(c) + tail));
    assert CivilText(c, style) == s;
    ParseOfParts(s, c);
  }

  /** Parsing what was printed gives back the same instant, to the nanosecond, in either style. */
  lemma PrintParse(t: Instant, style: Style)
    requires InRange(t)
    ensures Parse(Print(t, style)) == Some(t)
  {
    CivilRoundTrip(t);
    CivilTextParse(ToCivil(t), style);
  }

  /** No two instants share a text. */
  lemma PrintInjective(s: Instant, t: Instant, style: Style)
    requires InRange(s) && InRange(t)
    ensures Print(s, style) == Print(t, style) <==> s == t
  {
    PrintParse(s, style);
    PrintParse(t, style);
  }

  // ── Order of the printed texts ────────────────────────────────────────────

  lemma DateTextOrder(a: Civil, b: Civil)
    requires Valid(a) && Valid(b)
    ensures Less(Octets(DateText(a)), Octets(DateText(b))) <==> DateBefore(a, b)
    ensures DateText(a) == DateText(b) <==> SameDate(a, b)
  {
    SmallPowers();
    PadOrder(a.year, b.year, 4);
    PadOrder(a.month, b.month, 2);
    PadOrder(a.day, b.day, 2);
    DashOrder("-", Pad(a.day, 2), Pad(b.day, 2));
    TextLessConcat(Pad(a.month, 2), Pad(b.month, 2), "-" + Pad(a.day, 2), "-" + Pad(b.day, 2));
    var p, q := Pad(a.month, 2) + ("-" + Pad(a.day, 2)), Pad(b.month, 2) + ("-" + Pad(b.day, 2));
    DashOrder("-", p, q);
    TextLessConcat(Pad(a.year, 4), Pad(b.year, 4), "-" + p, "-" + q);
    if DateText(a) == DateText(b) {
      LessIrreflexive(Octets(DateText(a)));
      LessIrreflexive(Octets(DateText(b)));
      DateFields(a, "");
      DateFields(b, "");
      assert DateText(a) + "" == DateText(b) + "";
    }
  }

  lemma TimeTextOrder(a: Civil, b: Civil)
    requires Valid(a) && Valid(b)
    ensures Less(Octets(TimeText(a)), Octets(TimeText(b))) <==> TimeBefore(a, b)
    ensures TimeText(a) == TimeText(b) <==> SameTime(a, b)
  {
    SmallPowers();
    PadOrder(a.hour, b.hour, 2);
    PadOrder(a.minute, b.minute, 2);
    PadOrder(a.second, b.second, 2);
    DashOrder(":", Pad(a.second, 2), Pad(b.second, 2));
    TextLessConcat(Pad(a.minute, 2), Pad(b.minute, 2), ":" + Pad(a.second, 2), ":" + Pad(b.second, 2));
    var p, q := Pad(a.minute, 2) + (":" + Pad(a.second, 2)), Pad(b.minute, 2) + (":" + Pad(b.second, 2));
    DashOrder(":", p, q);
    TextLessConcat(Pad(a.hour, 2), Pad(b.hour, 2), ":" + p, ":" + q);
    if TimeText(a) == TimeText(b) {
      TimeFields("0000-00-00", a, "");
      TimeFields("0000-00-00", b, "");
    }
  }

  /** A common separator changes no order. */
  lemma DashOrder(sep: string, s: string, t: string)
    requires |sep| == 1
    ensures Less(Octets(sep + s), Octets(sep + t)) <==> Less(Octets(s), Octets(t))
    ensures sep + s == sep + t <==> s == t
  {
    TextLessConcat(sep, sep, s, t);
    LessIrreflexive(Octets(sep));
    assert (sep + s)[1..] == s && (sep + t)[1..] == t;
  }

  /** Cutting a longer run of digits to the length of a shorter one decides the comparison, because
      `+` sorts before every digit. */
  lemma CutText(a: string, high: string, low: string)
    requires |a| == |high| && low != "" && IsDigit(low[0])
    ensures Less(Octets("." + a + "+00:00"), Octets("." + (high + low) + "+00:00"))
       <==> Less(Octets(a), Octets(high)) || a == high
  {
    var p, q := "+00:00", low + "+00:00";
    assert Octets(p)[0] < Octets(q)[0];
    TextLessConcat(a, high, p, q);
    DashOrder(".", a + p, high + q);
    assert "." + a + p == "." + (a + p) && "." + (high + low) + "+00:00" == "." + (high + q);
  }

  /** A shorter fraction sorts against a longer one as the numbers do. */
  lemma ShorterFraction(m: nat, n: nat)
    requires m < NANOS_PER_SEC && n < NANOS_PER_SEC && Width(m) < Width(n)
    ensures Less(Octets(Fraction(m) + "+00:00"), Octets(Fraction(n) + "+00:00")) <==> m < n
  {
    if m == 0 {
      assert (Fraction(m) + "+00:00")[0] == '+' && (Fraction(n) + "+00:00")[0] == '.';
    } else {
      var i, j := Width(m), Width(n) - Width(m);
      CutIsExact(m, n);
      PadSplit(Scaled(n), i, j);
      ShorterText(m, n, Scaled(m), Scaled(n) / Pow10(j), Scaled(n) % Pow10(j), i, j);
    }
  }

  lemma ShorterText(m: nat, n: nat, x: int, high: int, low: int, i: nat, j: nat)
    requires Fraction(m) == "." + Pad(x, i) && Fraction(n) == "." + (Pad(high, i) + Pad(low, j))
    requires 0 <= x < Pow10(i) && 0 <= high < Pow10(i) && 0 < j
    ensures Less(Octets(Fraction(m) + "+00:00"), Octets(Fraction(n) + "+00:00")) <==> x <= high
  {
    hide Fraction, Pow10;
    PadOrder(x, high, i);
    var d := Pad(low, j);
    assert IsDigit(d[0]);
    CutText(Pad(x, i), Pad(high, i), d);
  }

  lemma CutIsExact(m: nat, n: nat)
    requires m < NANOS_PER_SEC && n < NANOS_PER_SEC && 0 < Width(m) < Width(n)
    ensures var (x, high) := (Scaled(m), Scaled(n) / Pow10(Width(n) - Width(m)));
            x < Pow10(Width(m)) && 0 <= high < Pow10(Width(m)) && (m < n <==> x <= high)
  {
    SmallPowers();
    assert Pow10(0) == 1;
    if Width(n) == 6 {
      assert Width(m) == 3;
    } else {
      assert Width(m) == 3 || Width(m) == 6;
    }
  }

  lemma SameLengthText(a: string, b: string)
    requires |a| == |b|
    ensures Less(Octets("." + a + "+00:00"), Octets("." + b + "+00:00")) <==> Less(Octets(a), Octets(b))
  {
    var p := "+00:00";
    LessIrreflexive(Octets(p));
    TextLessConcat(a, b, p, p);
    DashOrder(".", a + p, b + p);
    assert "." + a + p == "." + (a + p) && "." + b + p == "." + (b + p);
  }

  lemma SameWidthFraction(m: nat, n: nat)
    requires m < NANOS_PER_SEC && n < NANOS_PER_SEC && Width(m) == Width(n)
    ensures Less(Octets(Fraction(m) + "+00:00"), Octets(Fraction(n) + "+00:00")) <==> m < n
  {
    if m == 0 {
      LessIrreflexive(Octets(Fraction(m) + "+00:00"));
    } else {
      ScaledIsExact(m);
      ScaledIsExact(n);
      SameScale(m, n);
      PadOrder(Scaled(m), Scaled(n), Width(m));
      SameLengthText(Pad(Scaled(m), Width(m)), Pad(Scaled(n), Width(n)));
    }
  }

  lemma SameScale(m: nat, n: nat)
    requires Width(m) == Width(n) != 0
    ensures Scaled(m) < Scaled(n) <==> m < n
  {
  }

  /** With the suffix `+00:00`, fractions of any width sort as the nanoseconds they spell. */
  lemma FractionOrder(m: nat, n: nat)
    requires m < NANOS_PER_SEC && n < NANOS_PER_SEC
    ensures Less(Octets(Fraction(m) + "+00:00"), Octets(Fraction(n) + "+00:00")) <==> m < n
  {
    hide Fraction, Width, ParseFraction, Less, Octets;
    if Width(m) < Width(n) {
      ShorterFraction(m, n);
    } else if Width(m) == Width(n) {
      SameWidthFraction(m, n);
    } else {
      ShorterFraction(n, m);
      var p, q := Fraction(m) + "+00:00", Fraction(n) + "+00:00";
      LessTotal(Octets(p), Octets(q));
      if Octets(p) == Octets(q) {
        OctetsInjective(p, q);
        FractionRoundTrip(m, Numeric);
        FractionRoundTrip(n, Numeric);
      }
    }
  }

  /** String order is time order for `to_rfc3339` texts, however many fraction digits each has. */
  lemma StringOrderIsTimeOrder(s: Instant, t: Instant)
    requires InRange(s) && InRange(t)
    ensures Less(Octets(Print(s, Numeric)), Octets(Print(t, Numeric))) <==> s < t
    ensures AtMost(Octets(Print(s, Numeric)), Octets(Print(t, Numeric))) <==> s <= t
  {
    TextOrderOneWay(s, t);
    TextOrderOneWay(t, s);
  }

  lemma TextOrderOneWay(s: Instant, t: Instant)
    requires InRange(s) && InRange(t)
    ensures Less(Octets(Print(s, Numeric)), Octets(Print(t, Numeric))) <==> s < t
  {
    CivilRoundTrip(s);
    CivilRoundTrip(t);
    var a, b := ToCivil(s), ToCivil(t);
    var fa, fb := Fraction(a.nano) + "+00:00", Fraction(b.nano) + "+00:00";
    FractionOrder(a.nano, b.nano);
    TimeTextOrder(a, b);
    TextLessConcat(TimeText(a), TimeText(b), fa, fb);
    DashOrder("T", TimeText(a) + fa, TimeText(b) + fb);
    DateTextOrder(a, b);
    TextLessConcat(DateText(a), DateText(b), "T" + (TimeText(a) + fa), "T" + (TimeText(b) + fb));
    FieldOrderIsTimeOrder(s, t);
  }

  /** The suffix matters: in the `Z` style every whole second sorts after its own fractions. */
  lemma ZuluTextsAreNotOrdered(t: Instant, nano: nat)
    requires InRange(t) && t % NANOS_PER_SEC == 0 && 0 < nano < NANOS_PER_SEC
    ensures InRange(t + nano)
    ensures Less(Octets(Print(t + nano, Zulu)), Octets(Print(t, Zulu)))
  {
    SameSecond(t, nano);
    CivilRoundTrip(t);
    CivilRoundTrip(t + nano);
    var a := ToCivil(t);
    ZuluFractionAfter(nano);
    TextLessConcat(TimeText(a), TimeText(a), Fraction(nano) + "Z", Fraction(0) + "Z");
    DashOrder("T", TimeText(a) + (Fraction(nano) + "Z"), TimeText(a) + (Fraction(0) + "Z"));
    TextLessConcat(DateText(a), DateText(a),
                   "T" + (TimeText(a) + (Fraction(nano) + "Z")), "T" + (TimeText(a) + (Fraction(0) + "Z")));
  }

  lemma SameSecond(t: Instant, nano: nat)
    requires InRange(t) && t % NANOS_PER_SEC == 0 && nano < NANOS_PER_SEC
    ensures InRange(t + nano) && ToCivil(t).nano == 0 && ToCivil(t + nano) == ToCivil(t).(nano := nano)
  {
    hide DateOf;
    WithinSecond(t, nano);
    WithinSecond(NanoOfDay(t), nano);
  }

  /** A whole number of seconds and a fraction share every larger unit. */
  lemma WithinSecond(n: int, nano: nat)
    requires n % NANOS_PER_SEC == 0 && nano < NANOS_PER_SEC
    ensures (n + nano) % 1_000_000_000 == nano
    ensures (n + nano) / 1_000_000_000 == n / 1_000_000_000
    ensures (n + nano) / 60_000_000_000 == n / 60_000_000_000
    ensures (n + nano) / 3_600_000_000_000 == n / 3_600_000_000_000
    ensures (n + nano) / 86_400_000_000_000 == n / 86_400_000_000_000
    ensures (n + nano) % 86_400_000_000_000 == n % 86_400_000_000_000 + nano
    ensures n % 86_400_000_000_000 % NANOS_PER_SEC == 0
  {
    var s := n / 1_000_000_000;
    assert n == s * 1_000_000_000;
    SecondUnits(s, 0);
    SecondUnits(s, nano);
    assert n % 86_400_000_000_000 == (s % 86_400) * 1_000_000_000;
  }

  lemma SecondUnits(s: int, nano: nat)
    requires nano < NANOS_PER_SEC
    ensures var n := s * 1_000_000_000 + nano;
            && n / 1_000_000_000 == s
            && n / 60_000_000_000 == s / 60
            && n / 3_600_000_000_000 == s / 3_600
            && n / 86_400_000_000_000 == s / 86_400
  {
    var n := s * 1_000_000_000 + nano;
    var m, h, d := s / 60, s / 3_600, s / 86_400;
    assert 60_000_000_000 * m <= n < 60_000_000_000 * m + 60_000_000_000;
    assert 3_600_000_000_000 * h <= n < 3_600_000_000_000 * h + 3_600_000_000_000;
    assert 86_400_000_000_000 * d <= n < 86_400_000_000_000 * d + 86_400_000_000_000;
  }

  lemma ZuluFractionAfter(nano: nat)
    requires 0 < nano < NANOS_PER_SEC
    ensures Less(Octets(Fraction(nano) + "Z"), Octets(Fraction(0) + "Z"))
  {
    assert (Fraction(nano) + "Z")[0] == '.' && (Fraction(0) + "Z")[0] == 'Z';
  }

  // ── In letters ────────────────────────────────────────────────────────────

  /** The two-digit decimal number at `i`. */
  function TwoDigits(s: string, i: nat): int
    requires i + 2 <= |s|
  {
    10 * (s[i] as int - 48) + (s[i + 1] as int - 48)
  }

  lemma PadOfTwo(n: nat)
    requires n < 100
    ensures TwoDigits(Pad(n, 2), 0) == n
  {
    assert Pad(n, 2) == Pad(n / 10, 1) + [Digit(n % 10)];
    assert Pad(n / 10, 1) == Pad(n / 100, 0) + [Digit(n / 10 % 10)];
  }

  lemma PadOfFour(n: nat)
    requires n < 10_000
    ensures 100 * TwoDigits(Pad(n, 4), 0) + TwoDigits(Pad(n, 4), 2) == n
  {
    SmallPowers();
    PadSplit(n, 2, 2);
    PadOfTwo(n / 100);
    PadOfTwo(n % 100);
    hide Pad, Pow10;
    var (a, b) := (Pad(n / 100, 2), Pad(n % 100, 2));
    assert (a + b)[0] == a[0] && (a + b)[1] == a[1] && (a + b)[2] == b[0] && (a + b)[3] == b[1];
  }

  /** The date: four digits of year, then month and day of two digits each, a hyphen between them. */
  lemma DateInLetters(c: Civil)
    requires Valid(c)
    ensures var s := DateText(c);
            && |s| == 10 && s[4] == '-' && s[7] == '-'
            && 100 * TwoDigits(s, 0) + TwoDigits(s, 2) == c.year
            && TwoDigits(s, 5) == c.month && TwoDigits(s, 8) == c.day
  {
    PadOfFour(c.year);
    PadOfTwo(c.month);
    PadOfTwo(c.day);
    hide Pad, IsLeap;
    var (y, m, d) := (Pad(c.year, 4), Pad(c.month, 2), Pad(c.day, 2));
    var s := y + ("-" + (m + ("-" + d)));
    assert s[0] == y[0] && s[1] == y[1] && s[2] == y[2] && s[3] == y[3];
    assert s[5] == m[0] && s[6] == m[1] && s[8] == d[0] && s[9] == d[1];
  }

  /** The time of day: hour, minute and second of two digits each, a colon between them. */
  lemma TimeInLetters(c: Civil)
    requires Valid(c)
    ensures var s := TimeText(c);
            && |s| == 8 && s[2] == ':' && s[5] == ':'
            && TwoDigits(s, 0) == c.hour && TwoDigits(s, 3) == c.minute && TwoDigits(s, 6) == c.second
  {
    PadOfTwo(c.hour);
    PadOfTwo(c.minute);
    PadOfTwo(c.second);
    hide Pad, IsLeap;
    var (h, m, d) := (Pad(c.hour, 2), Pad(c.minute, 2), Pad(c.second, 2));
    var s := h + (":" + (m + (":" + d)));
    assert s[0] == h[0] && s[1] == h[1] && s[3] == m[0] && s[4] == m[1] && s[6] == d[0] && s[7] == d[1];
  }

  /** The fraction: nothing, or a point and the fewest of three, six or nine digits that lose no nanosecond. */
  lemma FractionInLetters(nano: nat)
    requires nano < 1_000_000_000
    ensures var (s, w) := (Fraction(nano), |Fraction(nano)| - 1);
            if nano == 0 then s == ""
            else
              && s != "" && s[0] == '.' && AllDigits(s[1..])
              && ((w == 3 && 1_000_000 * Number(s[1..]) == nano)
                  || (w == 6 && 1_000 * Number(s[1..]) == nano && nano % 1_000_000 != 0)
                  || (w == 9 && Number(s[1..]) == nano && nano % 1_000 != 0))
  {
    if nano != 0 {
      ScaledIsExact(nano);
      NumberOfPad(Scaled(nano), Width(nano));
      SmallPowers();
      hide Pad, Number, Pow10;
      var d := Pad(Scaled(nano), Width(nano));
      assert Fraction(nano)[1..] == d;
    }
  }

  lemma PiecesInPlace(date: string, time: string, tail: string)
    requires |date| == 10 && |time| == 8
    ensures var s := date + ("T" + (time + tail));
            |s| >= 19 && s[..10] == date && s[10] == 'T' && s[11..19] == time && s[19..] == tail
  {
  }

  /** The whole text: date, `T`, time of day, fraction, and the offset of UTC as its style writes it. */
  lemma PrintedInLetters(t: Instant, style: Style)
    requires InRange(t)
    ensures Valid(ToCivil(t))
    ensures var (s, c) := (Print(t, style), ToCivil(t));
            && |s| >= 20 && s[..10] == DateText(c) && s[10] == 'T' && s[11..19] == TimeText(c)
            && s[19..] == Fraction(c.nano) + (if style.Numeric? then "+00:00" else "Z")
  {
    hide ToCivil, DateText, TimeText, Fraction, Valid, InRange;
    CivilRoundTrip(t);
    NanoOfValid(ToCivil(t));
    PiecesInPlace(DateText(ToCivil(t)), TimeText(ToCivil(t)), Fraction(ToCivil(t).nano) + Suffix(style));
  }

  /** How every text starts and ends. */
  lemma PrintedEnds(t: Instant, style: Style)
    requires InRange(t)
    ensures var s := Print(t, style);
            && |s| >= 20 && s[4] == '-' && s[7] == '-' && s[10] == 'T' && s[13] == ':' && s[16] == ':'
            && (if style.Zulu? then s[|s| - 1] == 'Z' else |s| >= 25 && s[|s| - 6..] == "+00:00")
  {
    hide Print, DateText, TimeText, Fraction, ToCivil, InRange, Valid, TwoDigits;
    PrintedInLetters(t, style);
    DateInLetters(ToCivil(t));
    TimeInLetters(ToCivil(t));
    NanoOfValid(ToCivil(t));
    var s := Print(t, style);
    assert s[..10][4] == s[4] && s[..10][7] == s[7] && s[11..19][2] == s[13] && s[11..19][5] == s[16];
    SuffixLast(s, Fraction(ToCivil(t).nano), if style.Numeric? then "+00:00" else "Z");
  }

  lemma SuffixLast(s: string, fraction: string, suffix: string)
    requires |s| >= 19 && s[19..] == fraction + suffix && suffix != ""
    ensures |s| >= 19 + |suffix| && s[|s| - |suffix|..] == suffix && s[|s| - 1] == suffix[|suffix| - 1]
  {
    assert |s[19..]| == |fraction| + |suffix|;
    assert s[|s| - |suffix|..] == s[19..][|fraction|..];
    assert s[|s| - 1] == s[19..][|fraction| + |suffix| - 1];
  }

  lemma EpochFields(t: Instant)
    requires t == 0
    ensures InRange(t) && ToCivil(t) == Civil(1970, 1, 1, 0, 0, 0, 0)
  {
    hide DateOf, ToCivil;
    FirstDays();
    TimesOfDay(t);
  }

  lemma PadStep(n: nat, w: nat, m: nat, d: nat)
    requires n == 10 * m + d && d < 10
    ensures Pad(n, w + 1) == Pad(m, w) + [(48 + d) as char]
  {
    assert n / 10 == m && n % 10 == d;
  }

  lemma NoDigits(n: nat)
    ensures Pad(n, 0) == ""
  {
  }

  lemma EpochPieces()
    ensures Pad(1970, 4) == "1970" && Pad(1, 2) == "01" && Pad(0, 2) == "00"
  {
    hide Pad;
    NoDigits(0);
    PadStep(0, 0, 0, 0);
    PadStep(0, 1, 0, 0);
    PadStep(1, 1, 0, 1);
    PadStep(1, 0, 0, 1);
    PadStep(19, 1, 1, 9);
    PadStep(197, 2, 19, 7);
    PadStep(1970, 3, 197, 0);
  }

  /** The text of the epoch. */
  lemma EpochText()
    ensures Print(0, Numeric) == "1970-01-01T00:00:00+00:00"
  {
    hide ToCivil, Pad;
    EpochFields(0);
    EpochPieces();
    assert Print(0, Numeric) == "1970" + ("-" + ("01" + ("-" + "01")))
      + ("T" + ("00" + (":" + ("00" + (":" + "00"))) + ("" + "+00:00")));
  }

  /** Whatever run of digits follows the point, the nanoseconds read are the fraction of a second it spells, rounded
      down. */
  lemma FractionsRoundDown(d: string)
    requires d != "" && AllDigits(d)
    ensures FractionNanos(d) * Pow10(|d|) <= Number(d) * 1_000_000_000 < (FractionNanos(d) + 1) * Pow10(|d|)
  {
    hide Number, Pow10;
    SmallPowers();
    if |d| < 9 {
      PowersAdd(|d|, 9 - |d|);
      ScaleUp(Number(d), Pow10(|d|), Pow10(9 - |d|));
    } else {
      NumberSplit(d, 9);
      PowersAdd(9, |d| - 9);
      RoundDown(Number(d[..9]), Number(d[9..]), Pow10(9), Pow10(|d| - 9));
    }
  }

  lemma ScaleUp(n: nat, p: nat, q: nat)
    requires 0 < p
    ensures (n * q) * p == n * (p * q) < (n * q + 1) * p
  {
    assert (n * q) * p == n * (p * q);
    assert (n * q + 1) * p == (n * q) * p + p;
  }

  lemma RoundDown(n: nat, r: nat, p: nat, q: nat)
    requires 0 < p && r < q
    ensures n * (p * q) <= (n * q + r) * p < (n + 1) * (p * q)
  {
    assert (n * q + r) * p == n * (p * q) + r * p;
    assert (n + 1) * (p * q) == n * (p * q) + q * p;
    assert (q - r) * p > 0;
    assert (q - r) * p == q * p - r * p;
  }

  lemma {:induction false} PowersAdd(i: nat, j: nat)
    ensures Pow10(i + j) == Pow10(i) * Pow10(j)
  {
    if 0 < i {
      PowersAdd(i - 1, j);
    }
  }

  lemma {:induction false} NumberSplit(d: string, i: nat)
    requires AllDigits(d) && i <= |d|
    ensures Number(d) == Number(d[..i]) * Pow10(|d| - i) + Number(d[i..])
    ensures Number(d[i..]) < Pow10(|d| - i)
  {
    if i == |d| {
      assert d[..i] == d && d[i..] == "";
    } else {
      var k := |d| - 1;
      NumberSplit(d[..k], i);
      LastDigit(d);
      LastDigit(d[i..]);
      assert d[..k][..i] == d[..i] && d[..k][i..] == d[i..][..k - i] && d[i..][k - i] == d[k];
      assert Pow10(|d| - i) == 10 * Pow10(k - i);
      hide Number, Pow10;
      TenTimes(Number(d[..i]), Pow10(k - i), Number(d[..k][i..]));
    }
  }

  lemma TenTimes(n: nat, p: nat, r: nat)
    ensures 10 * (n * p + r) == n * (10 * p) + 10 * r
  {
  }

  lemma LastDigit(d: string)
    requires d != "" && AllDigits(d)
    ensures Number(d) == 10 * Number(d[..|d| - 1]) + (d[|d| - 1] as int - 48)
    ensures 0 <= d[|d| - 1] as int - 48 < 10
  {
  }

  /** A time of day ahead of UTC names an earlier instant, one behind UTC a later one, by `h` hours and `m` minutes. */
  lemma OffsetsShift(c: Civil, h: nat, m: nat)
    requires Valid(c) && h < 24 && m < 60
    ensures var local := DateText(c) + ("T" + (TimeText(c) + Fraction(c.nano)));
            var offset := Pad(h, 2) + (":" + Pad(m, 2));
            && Parse(local + ("+" + offset)) == Some(FromCivil(c) - (3_600 * h + 60 * m) * 1_000_000_000)
            && Parse(local + ("-" + offset)) == Some(FromCivil(c) + (3_600 * h + 60 * m) * 1_000_000_000)
  {
    hide Parse, DateText, TimeText, Fraction, Pad, FromCivil, Valid;
    SignedOffset(c, "+", h, m);
    SignedOffset(c, "-", h, m);
  }

  lemma OffsetFields(sign: string, h: nat, m: nat)
    requires sign in {"+", "-"} && h < 24 && m < 60
    ensures ParseOffset(sign + (Pad(h, 2) + (":" + Pad(m, 2))))
         == Some(if sign == "-" then -(3_600 * h + 60 * m) else 3_600 * h + 60 * m)
  {
    SmallPowers();
    hide Pad, Field, Pow10;
    var s := sign + (Pad(h, 2) + (":" + Pad(m, 2)));
    assert s[1..3] == Pad(h, 2) && s[4..6] == Pad(m, 2);
    FieldOfPad(s, 1, h, 2);
    FieldOfPad(s, 4, m, 2);
  }

  lemma SignedOffset(c: Civil, sign: string, h: nat, m: nat)
    requires Valid(c) && sign in {"+", "-"} && h < 24 && m < 60
    ensures var local := DateText(c) + ("T" + (TimeText(c) + Fraction(c.nano)));
            var seconds := if sign == "-" then -(3_600 * h + 60 * m) else 3_600 * h + 60 * m;
            Parse(local + (sign + (Pad(h, 2) + (":" + Pad(m, 2))))) == Some(FromCivil(c) - seconds * 1_000_000_000)
  {
    hide DateText, TimeText, Fraction, Pad, ParseFields, FromCivil, ParseOffset, ParseFraction, Valid;
    var offset := sign + (Pad(h, 2) + (":" + Pad(m, 2)));
    OffsetFields(sign, h, m);
    NanoOfValid(c);
    FractionBefore(c.nano, offset);
    FieldsOfText(c, Fraction(c.nano) + offset);
    var local := DateText(c) + ("T" + (TimeText(c) + Fraction(c.nano)));
    assert local + offset == DateText(c) + ("T" + (TimeText(c) + (Fraction(c.nano) + offset)));
  }

  lemma NanoOfValid(c: Civil)
    requires Valid(c)
    ensures 0 <= c.nano < NANOS_PER_SEC
  {
  }

  // ── Beyond the year 9999 ──────────────────────────────────────────────────

  /** The instants `chrono` prints with an explicit sign and more than four digits of year. */
  predicate Beyond(t: Instant) {
    (DAY_LIMIT - EPOCH_DAY) * NANOS_PER_DAY <= t
  }

  lemma YearIsYearOf(t: Instant)
    ensures ToCivil(t).year == YearOf(DayOf(t) + EPOCH_DAY)
    ensures Beyond(t) <==> DaysBeforeYear(10_000) <= DayOf(t) + EPOCH_DAY
  {
    hide YearOf, MonthOf;
  }

  /** Their years are exactly those from 10000 on. */
  lemma BeyondTheYear(t: Instant)
    ensures Beyond(t) <==> 10_000 <= ToCivil(t).year
  {
    hide YearOf, MonthOf, ToCivil, DaysBeforeYear, Beyond;
    YearIsYearOf(t);
    var year := ToCivil(t).year;
    YearOfBrackets(DayOf(t) + EPOCH_DAY);
    if year < 10_000 {
      YearsAreOrdered(year + 1, 10_000);
    } else {
      YearsAreOrdered(10_000, year);
    }
  }

  /** The instants with a text of their own kind are exactly those of the years 0 to 9999. */
  lemma InRangeIsFourDigits(t: Instant)
    ensures InRange(t) <==> 0 <= ToCivil(t).year <= 9999
  {
    hide YearOf, MonthOf, ToCivil, DaysBeforeYear;
    BeyondTheYear(t);
    YearIsYearOf(t);
    var (year, day) := (ToCivil(t).year, DayOf(t) + EPOCH_DAY);
    YearOfBrackets(day);
    YearLengthsAddUp(0);
    if year < 0 {
      YearsAreOrdered(year + 1, 0);
    } else {
      YearsAreOrdered(0, year);
    }
  }

  /** The digits of a number, none to spare. */
  function Decimal(n: int): (s: string)
    decreases n
  {
    if n < 10 then [Digit(n % 10)] else Decimal(n / 10) + [Digit(n % 10)]
  }

  /** They spell the number, and the first is no zero. */
  lemma {:induction false} DecimalSpells(n: nat)
    ensures AllDigits(Decimal(n)) && Number(Decimal(n)) == n
    ensures Decimal(n) != "" && (0 < n ==> Decimal(n)[0] != '0')
  {
    if 10 <= n {
      DecimalSpells(n / 10);
      LastDigit(Decimal(n));
    } else {
      LastDigit(Decimal(n));
      assert Decimal(n)[..0] == "";
    }
  }

  /** `to_rfc3339` of such an instant. */
  function PrintBeyond(t: Instant): string
    requires Beyond(t)
  {
    var c := ToCivil(t);
    "+" + (Decimal(c.year) + ("-" + (Pad(c.month, 2) + ("-" + (Pad(c.day, 2)
    + ("T" + (Pad(c.hour, 2) + (":" + (Pad(c.minute, 2) + (":" + (Pad(c.second, 2)
    + (Fraction(c.nano) + Suffix(Numeric)))))))))))))
  }

  lemma YearStarts(t: Instant)
    requires InRange(t)
    ensures |Print(t, Numeric)| > 0 && IsDigit(Print(t, Numeric)[0])
  {
    CivilRoundTrip(t);
    var c := ToCivil(t);
    var y := Pad(c.year, 4);
    assert y[0] == DateText(c)[0] == Print(t, Numeric)[0];
    assert AllDigits(y);
  }

  /** Such a text sorts before every text with a four-digit year, although it names a later instant. */
  lemma BeyondSortsFirst(t: Instant, now: Instant)
    requires Beyond(t) && InRange(now)
    ensures Less(Octets(PrintBeyond(t)), Octets(Print(now, Numeric))) && now < t
  {
    YearStarts(now);
    var (a, b) := (PrintBeyond(t), Print(now, Numeric));
    hide PrintBeyond, Print;
    assert a[0] == '+' && Octets(a)[0] == '+' as int && Octets(b)[0] == b[0] as int by { PlusFirst(t); }
  }

  lemma PlusFirst(t: Instant)
    requires Beyond(t)
    ensures |PrintBeyond(t)| > 0 && PrintBeyond(t)[0] == '+'
  {
    hide Decimal, Pad, Fraction, ToCivil;
  }

  /** ... and `parse_from_rfc3339`, which wants four digits of year, rejects it. */
  lemma BeyondDoesNotParse(t: Instant)
    requires Beyond(t)
    ensures Parse(PrintBeyond(t)).None?
  {
    PlusFirst(t);
    var s := PrintBeyond(t);
    hide PrintBeyond, ParseTail;
    if |s| >= 4 {
      assert s[0..4][0] == '+';
    }
    assert Field(s, 0, 4).None?;
  }
}
