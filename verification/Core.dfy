/** Small vocabulary shared by every part of the vault model. */
module Core {

  datatype Option<+T> = None | Some(value: T)

  datatype Result<+T, +E> = Ok(value: T) | Err(error: E)

  /** One octet. */
  type byte = b: int | 0 <= b < 0x100

  type bytes = seq<byte>
}

/** Byte-wise ordering of octet strings, which is also how SQLite compares TEXT and how a
    `BTreeMap<String, _>` orders its keys. */
module Ordering {

  /** `a` sorts strictly before `b`: at the first difference `a` is smaller or has ended. */
  predicate Less(a: seq<int>, b: seq<int>) {
    if b == [] then false
    else if a == [] then true
    else a[0] < b[0] || (a[0] == b[0] && Less(a[1..], b[1..]))
  }

  predicate AtMost(a: seq<int>, b: seq<int>) {
    !Less(b, a)
  }

  /** The octets of an ASCII text. */
  function Octets(s: string): (r: seq<int>)
    ensures |r| == |s|
  {
    seq(|s|, i requires 0 <= i < |s| => s[i] as int)
  }

  lemma OctetsConcat(s: string, t: string)
    ensures Octets(s + t) == Octets(s) + Octets(t)
  {
  }

  lemma OctetsInjective(s: string, t: string)
    requires Octets(s) == Octets(t)
    ensures s == t
  {
    assert |s| == |Octets(s)| == |t|;
    forall i | 0 <= i < |s| ensures s[i] == t[i] {
      assert Octets(s)[i] == Octets(t)[i];
    }
  }

  lemma LessIrreflexive(a: seq<int>)
    ensures !Less(a, a)
  {
  }

  /** Any two octet strings are equal or strictly ordered one way. */
  lemma {:induction false} LessTotal(a: seq<int>, b: seq<int>)
    ensures (Less(a, b) && a != b && !Less(b, a))
         || (Less(b, a) && a != b && !Less(a, b))
         || (a == b && !Less(a, b) && !Less(b, a))
  {
    if a != [] && b != [] && a[0] == b[0] {
      LessTotal(a[1..], b[1..]);
      assert a == [a[0]] + a[1..] && b == [b[0]] + b[1..];
    } else if a == b {
      LessIrreflexive(a);
    }
  }

  lemma {:induction false} LessTransitive(a: seq<int>, b: seq<int>, c: seq<int>)
    requires Less(a, b) && Less(b, c)
    ensures Less(a, c)
  {
    if a != [] && a[0] == b[0] && b[0] == c[0] {
      LessTransitive(a[1..], b[1..], c[1..]);
    }
  }

  lemma AtMostTransitive(a: seq<int>, b: seq<int>, c: seq<int>)
    requires AtMost(a, b) && AtMost(b, c)
    ensures AtMost(a, c)
  {
    LessTotal(a, b);
    LessTotal(b, c);
    LessTotal(a, c);
    hide Less;
    if Less(c, a) && a != b && b != c {
      LessTransitive(c, a, b);
    }
  }

  /** Blocks of equal length decide the comparison before anything that follows them. */
  lemma {:induction false} LessConcat(p: seq<int>, q: seq<int>, s: seq<int>, t: seq<int>)
    requires |p| == |q|
    ensures Less(p + s, q + t) <==> Less(p, q) || (p == q && Less(s, t))
  {
    if p == [] {
      assert p + s == s && q + t == t;
    } else {
      assert (p + s)[1..] == p[1..] + s && (q + t)[1..] == q[1..] + t;
      LessConcat(p[1..], q[1..], s, t);
      assert p == [p[0]] + p[1..] && q == [q[0]] + q[1..];
    }
  }

  /** `LessConcat` for texts. */
  lemma TextLessConcat(p: string, q: string, s: string, t: string)
    requires |p| == |q|
    ensures Less(Octets(p + s), Octets(q + t))
       <==> Less(Octets(p), Octets(q)) || (p == q && Less(Octets(s), Octets(t)))
  {
    OctetsConcat(p, s);
    OctetsConcat(q, t);
    LessConcat(Octets(p), Octets(q), Octets(s), Octets(t));
    if Octets(p) == Octets(q) {
      OctetsInjective(p, q);
    }
  }
}
