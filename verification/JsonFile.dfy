/** The vault file: a JSON object from hyphenated ids to records whose octets are base64 and whose
    timestamps are RFC 3339 texts.  JSON is modelled down to its pieces: the opening brace, one entry
    after another, the closing brace. */
module JsonFile {
  import opened Core
  import opened Ordering
  import opened Uuid
  import opened Calendar
  import opened Backend
  import Base64
  import Rfc3339

  datatype JsonRecord = JsonRecord(
    nonce: string, ciphertext: string, storedAt: string, expiresAt: Option<string>)

  /** A piece of a file, with the white space and the comma that belong to it. */
  datatype Piece = Open | Entry(key: string, rec: JsonRecord) | Close

  /** What is in a file. */
  type Text = seq<Piece>

  /** The parsed file, keyed by hyphenated ids. */
  type DiskState = map<string, StoredRecord>

  // ── Records ───────────────────────────────────────────────────────────────

  function WriteRecord(r: StoredRecord): JsonRecord
    requires Storable(r)
  {
    JsonRecord(Base64.Encode(Base64.Standard, r.nonce),
               Base64.Encode(Base64.Standard, r.ciphertext),
               Rfc3339.Print(r.storedAt, Rfc3339.Zulu),
               match r.expiresAt case None => None case Some(t) => Some(Rfc3339.Print(t, Rfc3339.Zulu)))
  }

  function ReadExpiry(s: Option<string>): Option<Option<Instant>> {
    match s
    case None => Some(None)
    case Some(text) => match Rfc3339.Parse(text) case None => None case Some(t) => Some(Some(t))
  }

  function ReadRecord(j: JsonRecord): Option<StoredRecord> {
    match (Base64.Decode(Base64.Standard, j.nonce), Base64.Decode(Base64.Standard, j.ciphertext),
           Rfc3339.Parse(j.storedAt), ReadExpiry(j.expiresAt))
    case (Some(nonce), Some(ciphertext), Some(storedAt), Some(expiresAt)) =>
      Some(StoredRecord(nonce, ciphertext, storedAt, expiresAt))
    case _ => None
  }

  /** A record read back is the record that was written. */
  lemma RecordRoundTrip(r: StoredRecord)
    requires Storable(r)
    ensures ReadRecord(WriteRecord(r)) == Some(r)
  {
    Base64.EncodeDecode(Base64.Standard, r.nonce);
    Base64.EncodeDecode(Base64.Standard, r.ciphertext);
    Rfc3339.PrintParse(r.storedAt, Rfc3339.Zulu);
    if r.expiresAt.Some? {
      Rfc3339.PrintParse(r.expiresAt.value, Rfc3339.Zulu);
    }
  }

  /** Letters, digits, `+`, `/` and equals signs. */
  predicate IsStandardText(s: string) {
    forall i :: 0 <= i < |s| ==>
      'A' <= s[i] <= 'Z' || 'a' <= s[i] <= 'z' || '0' <= s[i] <= '9' || s[i] == '+' || s[i] == '/' || s[i] == '='
  }

  lemma StandardTexts(b: bytes)
    ensures var s := Base64.Encode(Base64.Standard, b); IsStandardText(s) && |s| == (|b| + 2) / 3 * 4
  {
    hide Base64.Encode;
    Base64.EncodedLetters(Base64.Standard, b);
  }

  /** What a written record looks like: octets in base64 with `+`, `/` and padding, timestamps in the `Z` style, and
      no expiry exactly when the record has none. */
  lemma WrittenInLetters(r: StoredRecord)
    requires Storable(r)
    ensures var j := WriteRecord(r);
            && IsStandardText(j.nonce) && |j.nonce| == (|r.nonce| + 2) / 3 * 4
            && IsStandardText(j.ciphertext) && |j.ciphertext| == (|r.ciphertext| + 2) / 3 * 4
            && |j.storedAt| >= 20 && j.storedAt[|j.storedAt| - 1] == 'Z'
            && (j.expiresAt.Some? <==> r.expiresAt.Some?)
            && (j.expiresAt.Some? ==> |j.expiresAt.value| >= 20 && j.expiresAt.value[|j.expiresAt.value| - 1] == 'Z')
  {
    hide Base64.Encode, Rfc3339.Print, InRange, IsStandardText;
    StandardTexts(r.nonce);
    StandardTexts(r.ciphertext);
    Rfc3339.PrintedEnds(r.storedAt, Rfc3339.Zulu);
    if r.expiresAt.Some? {
      Rfc3339.PrintedEnds(r.expiresAt.value, Rfc3339.Zulu);
    }
  }

  // ── Whole files ───────────────────────────────────────────────────────────

  predicate StateStorable(state: DiskState) {
    forall key :: key in state ==> Storable(state[key])
  }

  predicate Least(key: string, keys: set<string>) {
    key in keys && forall k :: k in keys ==> AtMost(Octets(key), Octets(k))
  }

  lemma {:induction false} LeastExists(keys: set<string>)
    requires keys != {}
    ensures exists key :: Least(key, keys)
  {
    hide Less;
    var first :| first in keys;
    var rest := keys - {first};
    LessIrreflexive(Octets(first));
    if rest == {} {
      assert forall k :: k in keys ==> k == first || k in rest;
      assert Least(first, keys);
    } else {
      LeastExists(rest);
      var other :| Least(other, rest);
      if Less(Octets(other), Octets(first)) {
        LessTotal(Octets(other), Octets(first));
        assert Least(other, keys);
      } else {
        forall k | k in rest ensures AtMost(Octets(first), Octets(k)) {
          AtMostTransitive(Octets(first), Octets(other), Octets(k));
        }
        assert Least(first, keys);
      }
    }
  }

  lemma LeastUnique(keys: set<string>, a: string, b: string)
    requires Least(a, keys) && Least(b, keys)
    ensures a == b
  {
    LessTotal(Octets(a), Octets(b));
    OctetsInjective(a, b);
  }

  /** The key a `BTreeMap` with these keys iterates first. */
  function LeastKey(keys: set<string>): (key: string)
    requires keys != {}
    ensures Least(key, keys)
  {
    LeastExists(keys);
    assert forall a, b :: Least(a, keys) && Least(b, keys) ==> a == b by {
      forall a, b | Least(a, keys) && Least(b, keys) ensures a == b {
        LeastUnique(keys, a, b);
      }
    }
    var key :| Least(key, keys);
    key
  }

  /** The entries of a state in the order of their keys. */
  function Entries(state: DiskState): (t: Text)
    requires StateStorable(state)
    ensures |t| == |state|
    decreases |state|
  {
    if state == map[] then []
    else
      var key := LeastKey(state.Keys);
      SizeAfterRemove(state, key);
      [Entry(key, WriteRecord(state[key]))] + Entries(state - {key})
  }

  lemma {:induction false} EntriesAre(state: DiskState, i: nat)
    requires StateStorable(state) && i < |state|
    ensures var e := Entries(state)[i]; e.Entry? && e.key in state && e.rec == WriteRecord(state[e.key])
    decreases i
  {
    hide WriteRecord, Storable, LeastKey;
    FirstEntry(state);
    if i > 0 {
      var key := LeastKey(state.Keys);
      SizeAfterRemove(state, key);
      EntriesAre(state - {key}, i - 1);
    }
  }

  /** The entries are in strict order of their keys. */
  lemma {:induction false} EntriesInOrder(state: DiskState, i: nat, j: nat)
    requires StateStorable(state) && i < j < |state|
    ensures var t := Entries(state); t[i].Entry? && t[j].Entry? && Less(Octets(t[i].key), Octets(t[j].key))
    decreases i
  {
    hide WriteRecord, Storable, Less;
    FirstEntry(state);
    EntriesAre(state, j);
    var key := LeastKey(state.Keys);
    SizeAfterRemove(state, key);
    if i > 0 {
      EntriesInOrder(state - {key}, i - 1, j - 1);
    } else {
      EntriesAre(state - {key}, j - 1);
      var other := Entries(state - {key})[j - 1].key;
      assert other in state.Keys && AtMost(Octets(key), Octets(other));
      assert Entries(state)[i].key == key && Entries(state)[j].key == other;
      LessTotal(Octets(key), Octets(other));
      if Octets(key) == Octets(other) {
        OctetsInjective(key, other);
        assert false;
      }
    }
  }

  /** `serde_json::to_vec_pretty`. */
  function Render(state: DiskState): Text
    requires StateStorable(state)
  {
    [Open] + Entries(state) + [Close]
  }

  /** The entries up to the closing brace, which must end the text; of entries with one key the last counts. */
  function ReadEntries(t: Text): Option<DiskState> {
    if t == [] then None
    else
      match t[0]
      case Open => None
      case Close => if |t| == 1 then Some(map[]) else None
      case Entry(key, rec) =>
        match (ReadRecord(rec), ReadEntries(t[1..]))
        case (Some(r), Some(rest)) => Some(map[key := r] + rest)
        case _ => None
  }

  /** `read_state`. */
  function ReadState(t: Text): Result<DiskState, StorageError> {
    if t == [] || t[0] != Open then Err(Json)
    else
      match ReadEntries(t[1..])
      case None => Err(Json)
      case Some(state) => Ok(state)
  }

  lemma ReadOneMore(key: string, r: StoredRecord, t: Text, rest: DiskState)
    requires Storable(r) && ReadEntries(t) == Some(rest)
    ensures ReadEntries([Entry(key, WriteRecord(r))] + t) == Some(map[key := r] + rest)
  {
    hide ReadRecord, WriteRecord, Storable;
    RecordRoundTrip(r);
    assert ([Entry(key, WriteRecord(r))] + t)[1..] == t;
  }

  lemma TakenApart<K, V>(m: map<K, V>, key: K)
    requires key in m
    ensures map[key := m[key]] + (m - {key}) == m && |m - {key}| == |m| - 1
  {
    SizeAfterRemove(m, key);
  }

  lemma FirstEntry(state: DiskState)
    requires StateStorable(state) && state != map[]
    ensures var key := LeastKey(state.Keys);
            && key in state && StateStorable(state - {key})
            && Entries(state) == [Entry(key, WriteRecord(state[key]))] + Entries(state - {key})
  {
    hide WriteRecord, Storable, LeastKey;
  }

  lemma {:induction false} ReadEntriesRendered(state: DiskState)
    requires StateStorable(state)
    ensures ReadEntries(Entries(state) + [Close]) == Some(state)
    decreases |state|
  {
    hide WriteRecord, LeastKey, ReadEntries;
    if state == map[] {
      JustClosed();
      assert Entries(state) + [Close] == [Close];
    } else {
      FirstEntry(state);
      var key := LeastKey(state.Keys);
      TakenApart(state, key);
      hide Entries, Storable;
      var rest := state - {key};
      ReadEntriesRendered(rest);
      ReadOneMore(key, state[key], Entries(rest) + [Close], rest);
      OneMore(Entry(key, WriteRecord(state[key])), Entries(rest), Close);
    }
  }

  lemma OneMore(first: Piece, t: Text, last: Piece)
    ensures [first] + t + [last] == [first] + (t + [last])
    ensures ([first] + t + [last])[0] == first && ([first] + t + [last])[1..] == t + [last]
  {
  }

  lemma JustClosed()
    ensures ReadEntries([Close]) == Some(map[])
  {
  }

  /** What is written is read back. */
  lemma ReadRendered(state: DiskState)
    requires StateStorable(state)
    ensures ReadState(Render(state)) == Ok(state)
  {
    ReadEntriesRendered(state);
    hide Entries, ReadEntries, StateStorable;
    OneMore(Open, Entries(state), Close);
  }

  lemma TailOfPrefix(t: Text, n: nat)
    requires 0 < n <= |t|
    ensures t[..n][0] == t[0] && t[..n][1..] == t[1..][..n - 1]
  {
  }

  lemma {:induction false} EntryPrefixesDoNotRead(t: Text, n: nat)
    requires n < |t| && ReadEntries(t).Some?
    ensures ReadEntries(t[..n]).None?
  {
    hide ReadRecord;
    if n > 0 {
      TailOfPrefix(t, n);
      EntryPrefixesDoNotRead(t[1..], n - 1);
    }
  }

  /** No proper prefix of a text that reads as a state reads as one: a torn file never passes for a whole one. */
  lemma PrefixesDoNotRead(t: Text, n: nat)
    requires n < |t| && ReadState(t).Ok?
    ensures ReadState(t[..n]) == Err(Json)
  {
    hide ReadEntries;
    if n > 0 {
      TailOfPrefix(t, n);
      EntryPrefixesDoNotRead(t[1..], n - 1);
    }
  }

  // ── Keys ──────────────────────────────────────────────────────────────────

  lemma KeysInjective()
    ensures forall a: RecordId, b: RecordId :: Hyphenated(a) == Hyphenated(b) ==> a == b
  {
    forall a: RecordId, b: RecordId ensures Hyphenated(a) == Hyphenated(b) ==> a == b {
      KeysAreFaithful(a, b);
    }
  }

  /** The string-keyed image of a record map. */
  function ByKey(m: Records): DiskState {
    KeysInjective();
    map id | id in m :: Hyphenated(id) := m[id]
  }

  lemma ByKeyLookup(m: Records, id: RecordId)
    ensures Hyphenated(id) in ByKey(m) <==> id in m
    ensures id in m ==> ByKey(m)[Hyphenated(id)] == m[id]
  {
    hide Hyphenated;
    KeysInjective();
  }

  lemma ByKeyInsert(m: Records, id: RecordId, r: StoredRecord)
    ensures ByKey(m)[Hyphenated(id) := r] == ByKey(m[id := r])
  {
    hide Hyphenated;
    KeysInjective();
    var a, b := ByKey(m)[Hyphenated(id) := r], ByKey(m[id := r]);
    forall key | key in a ensures key in b && a[key] == b[key] {
      if key != Hyphenated(id) {
        var other :| other in m && Hyphenated(other) == key;
        assert other in m[id := r];
      } else {
        assert id in m[id := r];
      }
    }
    forall key | key in b ensures key in a {
      var other :| other in m[id := r] && Hyphenated(other) == key;
    }
  }

  lemma ByKeyRemove(m: Records, id: RecordId)
    ensures ByKey(m) - {Hyphenated(id)} == ByKey(m - {id})
  {
    hide Hyphenated;
    KeysInjective();
    var a, b := ByKey(m) - {Hyphenated(id)}, ByKey(m - {id});
    forall key | key in a ensures key in b && a[key] == b[key] {
      var other :| other in m && Hyphenated(other) == key;
      assert other in m - {id};
    }
    forall key | key in b ensures key in a {
      var other :| other in m - {id} && Hyphenated(other) == key;
    }
  }

  /** `retain` on the file's own keys. */
  function Retain(state: DiskState, now: Instant): DiskState {
    map key | key in state && (state[key].expiresAt.None? || state[key].expiresAt.value > now) :: state[key]
  }

  lemma ByKeyRetain(m: Records, now: Instant)
    ensures Retain(ByKey(m), now) == ByKey(Sweep(m, now))
  {
    hide Hyphenated;
    KeysInjective();
    var a, b := Retain(ByKey(m), now), ByKey(Sweep(m, now));
    forall key | key in a ensures key in b && a[key] == b[key] {
      var other :| other in m && Hyphenated(other) == key;
      assert other in Sweep(m, now);
    }
    forall key | key in b ensures key in a {
      var other :| other in Sweep(m, now) && Hyphenated(other) == key;
      assert other in m;
    }
  }

  lemma {:induction false} ByKeySize(m: Records)
    ensures |ByKey(m)| == |m|
    decreases |m|
  {
    hide ByKey, Hyphenated;
    if m == map[] {
      ByKeyEmpty();
    } else {
      var id :| id in m;
      SizeAfterRemove(m, id);
      ByKeySize(m - {id});
      ByKeyRemove(m, id);
      ByKeyLookup(m, id);
      SizeAfterRemove(ByKey(m), Hyphenated(id));
    }
  }

  lemma ByKeyEmpty()
    ensures ByKey(map[]) == map[]
  {
  }

  lemma SizeAfterRemove<K, V>(m: map<K, V>, key: K)
    requires key in m
    ensures |m - {key}| == |m| - 1
  {
    assert (m - {key}).Keys == m.Keys - {key};
    assert |(m - {key}).Keys| == |m - {key}|;
  }

  /** The file that holds exactly the records `m`. */
  function Image(m: Records): Text
    requires AllStorable(m)
  {
    ByKeyStorable(m);
    Render(ByKey(m))
  }

  lemma ByKeyStorable(m: Records)
    requires AllStorable(m)
    ensures StateStorable(ByKey(m))
  {
  }

  lemma ReadImage(m: Records)
    requires AllStorable(m)
    ensures ReadState(Image(m)) == Ok(ByKey(m))
  {
    ByKeyStorable(m);
    ReadRendered(ByKey(m));
  }

  /** Two files with one content hold the same records. */
  lemma ImageInjective(m: Records, n: Records)
    requires AllStorable(m) && AllStorable(n) && Image(m) == Image(n)
    ensures m == n
  {
    ReadImage(m);
    ReadImage(n);
    ByKeyInjective(m, n);
  }

  lemma ByKeyInjective(m: Records, n: Records)
    requires ByKey(m) == ByKey(n)
    ensures m == n
  {
    hide ByKey, Hyphenated;
    forall id: RecordId ensures (id in m <==> id in n) && (id in m ==> m[id] == n[id]) {
      ByKeyLookup(m, id);
      ByKeyLookup(n, id);
    }
  }
}
