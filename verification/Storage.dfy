/** Either store behind one interface, and the two of them compared. */
module Storage {
  import opened Uuid
  import opened Calendar
  import opened Backend
  import JsonFile
  import LocalFile
  import Sqlite

  /** What happens to one storage call: to the file operations, or to the database statement. */
  datatype Faults = Faults(file: LocalFile.Fault, db: Sqlite.DbFault)

  const NO_FAULTS := Faults(LocalFile.NoFault, Sqlite.Healthy)

  /** The backend chosen at start-up. */
  datatype AnyBackend = File(file: LocalFile.LocalFileStore) | Sqlite(db: Sqlite.SqliteStore) {

    ghost function Repr(): set<object> {
      match this
      case File(file) => file.Repr
      case Sqlite(db) => {db}
    }

    ghost predicate Valid()
      reads Repr()
    {
      match this
      case File(file) => file.Valid()
      case Sqlite(db) => db.Valid()
    }

    /** The records the backend holds. */
    ghost function Held(): Records
      reads Repr()
    {
      match this
      case File(file) => file.records
      case Sqlite(db) => db.records
    }

    predicate Sound(faults: Faults) {
      match this
      case File(_) => faults.file.NoFault?
      case Sqlite(_) => faults.db.Healthy?
    }

    method Insert(id: RecordId, rec: StoredRecord, faults: Faults) returns (r: Outcome<()>)
      requires Valid() && Storable(rec)
      modifies Repr()
      ensures Valid()
      ensures Held() == old(Held()) || Held() == After(old(Held()), Op.Insert(id, rec))
      ensures r.Done? ==> Held() == After(old(Held()), Op.Insert(id, rec))
      ensures Sound(faults) ==> r.Done?
    {
      match this
      case File(file) => r := file.Insert(id, rec, faults.file);
      case Sqlite(db) => r := db.Insert(id, rec, faults.db);
    }

    method Fetch(id: RecordId, faults: Faults) returns (r: Outcome<StoredRecord>)
      requires Valid()
      ensures r.Done? ==> id in Held() && r.value == Held()[id]
      ensures r == Failed(Missing) ==> id !in Held()
      ensures Sound(faults) ==> r == (if id in Held() then Done(Held()[id]) else Failed(Missing))
    {
      match this
      case File(file) => r := file.Fetch(id, faults.file);
      case Sqlite(db) => r := db.Fetch(id, faults.db);
    }

    method Delete(id: RecordId, faults: Faults) returns (r: Outcome<bool>)
      requires Valid()
      modifies Repr()
      ensures Valid()
      ensures Held() == old(Held()) || Held() == After(old(Held()), Op.Delete(id))
      ensures r.Done? ==> Held() == After(old(Held()), Op.Delete(id)) && (r.value <==> id in old(Held()))
      ensures Sound(faults) ==> r.Done?
    {
      match this
      case File(file) => r := file.Delete(id, faults.file);
      case Sqlite(db) => r := db.Delete(id, faults.db);
    }

    method DeleteExpired(now: Instant, faults: Faults) returns (r: Outcome<nat>)
      requires Valid() && InRange(now)
      modifies Repr()
      ensures Valid()
      ensures Held() == old(Held()) || Held() == After(old(Held()), Op.DeleteExpired(now))
      ensures r.Done? ==> Held() == After(old(Held()), Op.DeleteExpired(now))
                          && r.value == |Victims(old(Held()), now)|
      ensures Sound(faults) ==> r.Done?
    {
      match this
      case File(file) => r := file.DeleteExpired(now, faults.file);
      case Sqlite(db) => r := db.DeleteExpired(now, faults.db);
    }

    /** Any one operation. */
    method Apply(op: Op) returns (reply: Reply)
      requires Valid() && OpStorable(op)
      modifies Repr()
      ensures Valid() && Held() == After(old(Held()), op) && reply == Answer(old(Held()), op)
    {
      hide After, Victims, Storable;
      match op
      case Insert(id, rec) =>
        var r := Insert(id, rec, NO_FAULTS);
        reply := Inserted;
      case Fetch(id) =>
        var r := Fetch(id, NO_FAULTS);
        reply := if r.Done? then Found(r.value) else NotFound;
        assert After(Held(), op) == Held() by { FetchKeeps(Held(), id); }
      case Delete(id) =>
        var r := Delete(id, NO_FAULTS);
        reply := Deleted(r.value);
      case DeleteExpired(now) =>
        var r := DeleteExpired(now, NO_FAULTS);
        reply := Removed(r.value);
    }

    /** A sequence of operations, one after another. */
    method ApplyAll(ops: seq<Op>) returns (replies: seq<Reply>)
      requires Valid() && forall i :: 0 <= i < |ops| ==> OpStorable(ops[i])
      modifies Repr()
      ensures Valid() && Held() == AfterAll(old(Held()), ops) && replies == Answers(old(Held()), ops)
      decreases |ops|
    {
      hide After, Answer, OpStorable;
      if ops == [] { return []; }
      replies := ApplyAll(ops[..|ops| - 1]);
      var reply := Apply(ops[|ops| - 1]);
      replies := replies + [reply];
    }
  }

  lemma FetchKeeps(m: Records, id: RecordId)
    ensures After(m, Op.Fetch(id)) == m
  {
  }

  /** The two stores, opened empty, give the same replies to the same operations and end up holding the
      same records: string keys and compared instants on one side, raw keys and compared texts on the other. */
  method BackendsAgree(ops: seq<Op>) returns (fromFile: seq<Reply>, fromDb: seq<Reply>)
    requires forall i :: 0 <= i < |ops| ==> OpStorable(ops[i])
    ensures fromFile == fromDb == Answers(map[], ops)
  {
    hide AllStorable, OpStorable, After, Answer, Answers, AfterAll, JsonFile.Image, Sqlite.TableOf;
    var file := new LocalFile.LocalFileStore();
    var db := new Sqlite.SqliteStore();
    var (a, b) := (File(file), Sqlite(db));
    fromFile := a.ApplyAll(ops);
    fromDb := b.ApplyAll(ops);
    assert a.Held() == b.Held() == AfterAll(map[], ops);
  }
}
