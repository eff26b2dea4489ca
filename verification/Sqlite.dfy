/** The SQLite store: rows keyed by the raw id, timestamps kept as `to_rfc3339` texts, and expiry
    decided by comparing texts.  One statement under the connection mutex is one atomic step. */
module Sqlite {
  import opened Core
  import opened Ordering
  import opened Uuid
  import opened Calendar
  import opened Backend
  import Rfc3339

  /** A row of `proofs` without its primary key. */
  datatype Row = Row(nonce: bytes, ciphertext: bytes, storedAt: string, expiresAt: Option<string>)

  type Table = map<bytes, Row>

  function TimeText(t: Instant): string
    requires InRange(t)
  {
    Rfc3339.Print(t, Rfc3339.Numeric)
  }

  function RowOf(r: StoredRecord): Row
    requires Storable(r)
  {
    Row(r.nonce, r.ciphertext, TimeText(r.storedAt),
        match r.expiresAt case None => None case Some(t) => Some(TimeText(t)))
  }

  /** The record a row stands for; a timestamp that does not parse is an error. */
  function RecordOf(row: Row): Option<StoredRecord> {
    match Rfc3339.Parse(row.storedAt)
    case None => None
    case Some(storedAt) =>
      match row.expiresAt
      case None => Some(StoredRecord(row.nonce, row.ciphertext, storedAt, None))
      case Some(text) =>
        match Rfc3339.Parse(text)
        case None => None
        case Some(t) => Some(StoredRecord(row.nonce, row.ciphertext, storedAt, Some(t)))
  }

  /** `expires_at IS NOT NULL AND expires_at <= ?1`, on texts. */
  predicate Due(row: Row, now: string) {
    row.expiresAt.Some? && AtMost(Octets(row.expiresAt.value), Octets(now))
  }

  /** `DELETE FROM proofs WHERE` the row is due. */
  function DeleteDue(t: Table, now: string): Table {
    map key | key in t && !Due(t[key], now) :: t[key]
  }

  /** The table that holds exactly the records `m`. */
  function TableOf(m: Records): Table
    requires AllStorable(m)
  {
    map id | id in m :: RowOf(m[id])
  }

  /** A row read back is the record that was written, to the nanosecond. */
  lemma RowRoundTrip(r: StoredRecord)
    requires Storable(r)
    ensures RecordOf(RowOf(r)) == Some(r)
  {
    Rfc3339.PrintParse(r.storedAt, Rfc3339.Numeric);
    if r.expiresAt.Some? {
      Rfc3339.PrintParse(r.expiresAt.value, Rfc3339.Numeric);
    }
  }

  /** What a row looks like: the octets as they are, and timestamps that end in `+00:00`. */
  lemma RowInLetters(r: StoredRecord)
    requires Storable(r)
    ensures var row := RowOf(r);
            && row.nonce == r.nonce && row.ciphertext == r.ciphertext && (row.expiresAt.Some? <==> r.expiresAt.Some?)
            && |row.storedAt| >= 25 && row.storedAt[|row.storedAt| - 6..] == "+00:00"
            && (row.expiresAt.Some? ==>
                  |row.expiresAt.value| >= 25 && row.expiresAt.value[|row.expiresAt.value| - 6..] == "+00:00")
  {
    hide Rfc3339.Print, InRange;
    Rfc3339.PrintedEnds(r.storedAt, Rfc3339.Numeric);
    if r.expiresAt.Some? {
      Rfc3339.PrintedEnds(r.expiresAt.value, Rfc3339.Numeric);
    }
  }

  /** Comparing texts finds exactly the rows a comparison of instants finds. */
  lemma DueIsSweepable(r: StoredRecord, now: Instant)
    requires Storable(r) && InRange(now)
    ensures Due(RowOf(r), TimeText(now)) <==> Sweepable(r, now)
  {
    if r.expiresAt.Some? {
      Rfc3339.StringOrderIsTimeOrder(r.expiresAt.value, now);
    }
  }

  // ── Expiries beyond the year 9999 ─────────────────────────────────────────

  /** A record `insert` can be given: its expiry may lie beyond the year 9999. */
  predicate Writable(r: StoredRecord) {
    InRange(r.storedAt) && (r.expiresAt.Some? ==> InRange(r.expiresAt.value) || Rfc3339.Beyond(r.expiresAt.value))
  }

  /** The row `insert` writes for it. */
  function WrittenRow(r: StoredRecord): Row
    requires Writable(r)
  {
    if Storable(r) then RowOf(r)
    else Row(r.nonce, r.ciphertext, TimeText(r.storedAt), Some(Rfc3339.PrintBeyond(r.expiresAt.value)))
  }

  /** A row reads back, as the record that was written, exactly when the expiry has a four-digit year. */
  lemma RowsReadExactlyInRange(r: StoredRecord)
    requires Writable(r)
    ensures RecordOf(WrittenRow(r)) == if Storable(r) then Some(r) else None
  {
    if Storable(r) {
      RowRoundTrip(r);
    } else {
      Rfc3339.BeyondDoesNotParse(r.expiresAt.value);
      hide Rfc3339.Parse, Rfc3339.PrintBeyond;
    }
  }

  /** ... and otherwise the first sweep takes it, whatever the time. */
  lemma FarRowsAreAlwaysDue(r: StoredRecord, now: Instant)
    requires Writable(r) && !Storable(r) && InRange(now)
    ensures Due(WrittenRow(r), TimeText(now)) && now < r.expiresAt.value
  {
    var e := r.expiresAt.value;
    Rfc3339.BeyondSortsFirst(e, now);
    LessTotal(Octets(Rfc3339.PrintBeyond(e)), Octets(TimeText(now)));
    hide Rfc3339.PrintBeyond, Rfc3339.Print, Less, InRange;
  }

  /** A row outlives every sweep before its expiry if and only if the expiry has a four-digit year. */
  lemma RowsOutliveSweepsExactlyInRange(r: StoredRecord)
    requires Writable(r) && r.expiresAt.Some?
    ensures (forall now :: InRange(now) && now < r.expiresAt.value ==> !Due(WrittenRow(r), TimeText(now)))
            <==> InRange(r.expiresAt.value)
  {
    hide Due, RowOf, TimeText, Rfc3339.PrintBeyond, WrittenRow;
    if Storable(r) {
      forall now | InRange(now) && now < r.expiresAt.value ensures !Due(WrittenRow(r), TimeText(now)) {
        StorableRow(r);
        DueIsSweepable(r, now);
      }
    } else {
      FarRowsAreAlwaysDue(r, r.storedAt);
    }
  }

  lemma StorableRow(r: StoredRecord)
    requires Writable(r) && Storable(r)
    ensures WrittenRow(r) == RowOf(r)
  {
  }

  lemma DeleteDueIsSweep(m: Records, now: Instant)
    requires AllStorable(m) && InRange(now)
    ensures AllStorable(Sweep(m, now))
    ensures DeleteDue(TableOf(m), TimeText(now)) == TableOf(Sweep(m, now))
    ensures |TableOf(m)| == |TableOf(Sweep(m, now))| + |Victims(m, now)|
  {
    hide Storable, RowOf, TimeText, Due, Sweepable, Calendar.InRange;
    var text := TimeText(now);
    forall id | id in m ensures Due(RowOf(m[id]), text) <==> Sweepable(m[id], now) {
      DueIsSweepable(m[id], now);
    }
    assert TableOf(m).Keys == m.Keys && TableOf(Sweep(m, now)).Keys == Sweep(m, now).Keys;
    assert |TableOf(m)| == |TableOf(m).Keys| && |TableOf(Sweep(m, now))| == |TableOf(Sweep(m, now)).Keys|;
    assert |m| == |m.Keys| && |Sweep(m, now)| == |Sweep(m, now).Keys|;
    SweepIsExact(m, now);
  }

  lemma TableInsert(m: Records, id: RecordId, r: StoredRecord)
    requires AllStorable(m) && Storable(r)
    ensures AllStorable(m[id := r]) && TableOf(m)[id := RowOf(r)] == TableOf(m[id := r])
  {
    hide Storable, RowOf;
  }

  lemma TableRemove(m: Records, id: RecordId)
    requires AllStorable(m)
    ensures AllStorable(After(m, Op.Delete(id))) && TableOf(m) - {id} == TableOf(After(m, Op.Delete(id)))
  {
    hide Storable, RowOf;
  }

  /** No database error, or one that leaves the table as it was. */
  datatype DbFault = Healthy | StatementFails

  class SqliteStore {
    var table: Table

    /** The records the table stands for. */
    ghost var records: Records

    ghost predicate Valid()
      reads this
    {
      AllStorable(records) && table == TableOf(records)
    }

    constructor ()
      ensures Valid() && records == map[]
    {
      table := map[];
      records := map[];
    }

    method Insert(id: RecordId, rec: StoredRecord, fault: DbFault) returns (r: Outcome<()>)
      requires Valid() && Storable(rec)
      modifies this
      ensures Valid()
      ensures r == (if fault.Healthy? then Done(()) else Failed(Io))
      ensures records == if fault.Healthy? then old(records)[id := rec] else old(records)
    {
      hide Storable;
      TableInsert(records, id, rec);
      if fault.StatementFails? { return Failed(Io); }
      table := table[id := RowOf(rec)];
      records := records[id := rec];
      return Done(());
    }

    method Fetch(id: RecordId, fault: DbFault) returns (r: Outcome<StoredRecord>)
      requires Valid()
      ensures r == (if fault.StatementFails? then Failed(Io)
                    else if id in records then Done(records[id])
                    else Failed(Missing))
    {
      if fault.StatementFails? { return Failed(Io); }
      if id !in table { return Failed(Missing); }
      RowRoundTrip(records[id]);
      var parsed := RecordOf(table[id]);
      return if parsed.Some? then Done(parsed.value) else Failed(Io);
    }

    method Delete(id: RecordId, fault: DbFault) returns (r: Outcome<bool>)
      requires Valid()
      modifies this
      ensures Valid()
      ensures r == (if fault.Healthy? then Done(id in old(records)) else Failed(Io))
      ensures records == if fault.Healthy? then After(old(records), Op.Delete(id)) else old(records)
    {
      hide Storable, After;
      TableRemove(records, id);
      if fault.StatementFails? { return Failed(Io); }
      var count := if id in table then 1 else 0;
      table := table - {id};
      records := After(records, Op.Delete(id));
      return Done(count > 0);
    }

    method DeleteExpired(now: Instant, fault: DbFault) returns (r: Outcome<nat>)
      requires Valid() && InRange(now)
      modifies this
      ensures Valid()
      ensures r == (if fault.Healthy? then Done(|Victims(old(records), now)|) else Failed(Io))
      ensures records == if fault.Healthy? then Sweep(old(records), now) else old(records)
    {
      hide Storable, Victims, Sweep, DeleteDue;
      DeleteDueIsSweep(records, now);
      if fault.StatementFails? { return Failed(Io); }
      var before := |table|;
      table := DeleteDue(table, TimeText(now));
      records := Sweep(records, now);
      return Done(before - |table|);
    }
  }
}
