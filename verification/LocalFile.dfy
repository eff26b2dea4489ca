/** The JSON-file store run by one caller at a time: every operation locks, reads the whole file,
    edits the parsed map in place and replaces the file through a temporary one. */
module LocalFile {
  import opened Core
  import opened Uuid
  import opened Calendar
  import opened Backend
  import opened JsonFile

  /** Where replacing the file is cut short: at step `at` the call fails, or the process dies.
      Step 0 creates the temporary file, steps 1 to `length` write its pieces, then come the flush,
      the rename over the vault file and the permission change. */
  datatype Stop =
    | Never
    | Fails(at: nat)
    | Crashes(at: nat)

  predicate Reaches(stop: Stop, step: nat) {
    stop.Never? || step < stop.at
  }

  function FlushStep(text: Text): nat { |text| + 1 }
  function RenameStep(text: Text): nat { |text| + 2 }
  function PermissionStep(text: Text): nat { |text| + 3 }

  /** How a stopped step ends the call. */
  function Halt(stop: Stop): (o: Outcome<()>)
    requires !stop.Never?
    ensures !o.Done?
  {
    if stop.Fails? then Failed(Io) else Crashed
  }

  /** The directory of the vault file: the file itself and at most one temporary file. */
  class Directory {
    var vault: Text
    var temp: Option<Text>

    constructor (initial: Text)
      ensures vault == initial && temp == None
    {
      vault := initial;
      temp := None;
    }

    /** `write_atomic`.  The vault file is the complete old text until the rename and the complete new
        text from then on, wherever the call stops. */
    method WriteAtomic(state: DiskState, stop: Stop) returns (r: Outcome<()>)
      requires StateStorable(state)
      modifies this
      ensures var text := Render(state);
              && vault == (if Reaches(stop, RenameStep(text)) then text else old(vault))
              && (r.Done? <==> Reaches(stop, PermissionStep(text)))
      ensures r.Crashed? ==> stop.Crashes?
      ensures !r.Crashed? ==> temp == None
    {
      hide Render, StateStorable;
      var text := Render(state);
      temp := None;
      if !Reaches(stop, 0) { return Halt(stop); }
      temp := Some([]);
      for i := 0 to |text|
        invariant temp == Some(text[..i])
        invariant vault == old(vault) && Reaches(stop, i)
      {
        if !Reaches(stop, i + 1) {
          r := Halt(stop);
          if stop.Fails? { temp := None; }
          return;
        }
        temp := Some(temp.value + [text[i]]);
        assert text[..i] + [text[i]] == text[..i + 1];
      }
      assert text[..|text|] == text;
      if !Reaches(stop, FlushStep(text)) || !Reaches(stop, RenameStep(text)) {
        r := Halt(stop);
        if stop.Fails? { temp := None; }
        return;
      }
      vault, temp := temp.value, None;
      if !Reaches(stop, PermissionStep(text)) { return Halt(stop); }
      return Done(());
    }
  }

  /** What can go wrong before the file is replaced. */
  datatype Fault = NoFault | LockFails | ReadFails | WriteStops(stop: Stop)

  function StopOf(fault: Fault): Stop {
    if fault.WriteStops? then fault.stop else Never
  }

  /** Nothing goes wrong until `text`, written piece by piece, has been flushed and renamed and has its permissions. */
  predicate Completes(fault: Fault, text: Text) {
    !fault.LockFails? && !fault.ReadFails? && Reaches(StopOf(fault), |text| + 3)
  }

  lemma DeleteImage(m: Records, id: RecordId)
    requires AllStorable(m)
    ensures AllStorable(After(m, Op.Delete(id)))
    ensures Hyphenated(id) in ByKey(m) <==> id in m
    ensures ByKey(m) - {Hyphenated(id)} == ByKey(After(m, Op.Delete(id)))
    ensures id !in m ==> After(m, Op.Delete(id)) == m
  {
    ByKeyLookup(m, id);
    ByKeyRemove(m, id);
    AfterStorable(m, Op.Delete(id));
    RemoveMissing(m, id);
  }

  lemma SweepImage(m: Records, now: Instant)
    requires AllStorable(m)
    ensures AllStorable(Sweep(m, now))
    ensures Retain(ByKey(m), now) == ByKey(Sweep(m, now))
    ensures |ByKey(m)| == |ByKey(Sweep(m, now))| + |Victims(m, now)|
    ensures |Victims(m, now)| == 0 ==> Sweep(m, now) == m
  {
    ByKeyRetain(m, now);
    ByKeySize(m);
    ByKeySize(Sweep(m, now));
    SweepIsExact(m, now);
    AfterStorable(m, Op.DeleteExpired(now));
  }

  class LocalFileStore {
    const dir: Directory

    /** The records the vault file stands for. */
    ghost var records: Records

    ghost predicate Valid()
      reads this, dir
    {
      AllStorable(records) && dir.vault == Image(records)
    }

    ghost const Repr: set<object> := {this, dir}

    /** Opens the store on a fresh, empty vault file. */
    constructor ()
      ensures Valid() && records == map[] && fresh(Repr)
    {
      var empty: DiskState := map[];
      var d := new Directory(Render(empty));
      dir := d;
      records := map[];
      new;
      assert ByKey(map[]) == empty;
    }

    /** Opens the store on a file that is already there, and leaves it as it is. */
    constructor Existing(dir: Directory, ghost held: Records)
      requires AllStorable(held) && dir.vault == Image(held)
      ensures Valid() && records == held && this.dir == dir
    {
      this.dir := dir;
      records := held;
    }

    /** `read_state` under the file lock. */
    method Load(fault: Fault) returns (r: Result<DiskState, StorageError>)
      requires Valid()
      ensures fault.LockFails? || fault.ReadFails? ==> r.Err?
      ensures !(fault.LockFails? || fault.ReadFails?) ==> r == Ok(ByKey(records))
    {
      if fault.LockFails? || fault.ReadFails? { return Err(Io); }
      ReadImage(records);
      r := ReadState(dir.vault);
    }

    /** Replaces the file by the image of `next`: it then holds the old records or the next ones. */
    method Replace(state: DiskState, ghost next: Records, stop: Stop) returns (r: Outcome<()>)
      requires Valid() && AllStorable(next) && state == ByKey(next)
      modifies this, dir
      ensures Valid()
      ensures records == old(records) || records == next
      ensures r.Done? ==> records == next
      ensures stop.Never? ==> r.Done?
      ensures r.Done? ==> Reaches(stop, |dir.vault| + 3)
      ensures r.Crashed? ==> stop.Crashes?
    {
      ByKeyStorable(next);
      r := dir.WriteAtomic(state, stop);
      if Reaches(stop, RenameStep(Render(state))) {
        records := next;
      }
    }

    method Insert(id: RecordId, rec: StoredRecord, fault: Fault) returns (r: Outcome<()>)
      requires Valid() && Storable(rec)
      modifies this, dir
      ensures Valid()
      ensures records == old(records) || records == old(records)[id := rec]
      ensures r.Done? ==> records == old(records)[id := rec]
      ensures fault.NoFault? ==> r.Done?
      ensures r.Done? ==> Completes(fault, dir.vault)
      ensures r.Crashed? ==> fault.WriteStops? && fault.stop.Crashes?
    {
      var key := Hyphenated(id);
      var loaded := Load(fault);
      if loaded.Err? { return Failed(loaded.error); }
      var state := loaded.value;
      state := state[key := rec];
      ByKeyInsert(records, id, rec);
      AfterStorable(records, Op.Insert(id, rec));
      hide ByKey, Image, AllStorable, Storable, Hyphenated;
      r := Replace(state, records[id := rec], StopOf(fault));
    }

    method Fetch(id: RecordId, fault: Fault) returns (r: Outcome<StoredRecord>)
      requires Valid()
      ensures Valid()
      ensures r.Done? ==> id in records && r.value == records[id]
      ensures !(fault.LockFails? || fault.ReadFails?) ==>
                r == (if id in records then Done(records[id]) else Failed(Missing))
      ensures r == Failed(Missing) ==> id !in records
    {
      var key := Hyphenated(id);
      var loaded := Load(fault);
      if loaded.Err? { return Failed(Io); }
      ByKeyLookup(records, id);
      var state := loaded.value;
      return if key in state then Done(state[key]) else Failed(Missing);
    }

    method Delete(id: RecordId, fault: Fault) returns (r: Outcome<bool>)
      requires Valid()
      modifies this, dir
      ensures Valid()
      ensures records == old(records) || records == After(old(records), Op.Delete(id))
      ensures r.Done? ==> records == After(old(records), Op.Delete(id)) && (r.value <==> id in old(records))
      ensures fault.NoFault? ==> r.Done?
      ensures r.Done? && id in old(records) ==> Completes(fault, dir.vault)
      ensures r.Crashed? ==> fault.WriteStops? && fault.stop.Crashes?
    {
      hide After, ByKey, Image, AllStorable, Storable, Hyphenated;
      var key := Hyphenated(id);
      var loaded := Load(fault);
      if loaded.Err? { return Failed(Io); }
      var state := loaded.value;
      DeleteImage(records, id);
      var existed := key in state;
      state := state - {key};
      if existed {
        var written := Replace(state, After(records, Op.Delete(id)), StopOf(fault));
        if !written.Done? { return if written.Failed? then Failed(written.error) else Crashed; }
      }
      return Done(existed);
    }

    method DeleteExpired(now: Instant, fault: Fault) returns (r: Outcome<nat>)
      requires Valid()
      modifies this, dir
      ensures Valid()
      ensures records == old(records) || records == Sweep(old(records), now)
      ensures r.Done? ==> records == Sweep(old(records), now) && r.value == |Victims(old(records), now)|
      ensures fault.NoFault? ==> r.Done?
      ensures r.Done? && r.value > 0 ==> Completes(fault, dir.vault)
      ensures r.Crashed? ==> fault.WriteStops? && fault.stop.Crashes?
    {
      hide Sweep, Victims, Retain, ByKey, Image, AllStorable, Storable, Hyphenated;
      var loaded := Load(fault);
      if loaded.Err? { return Failed(Io); }
      var state := loaded.value;
      var before := |state|;
      state := Retain(state, now);
      SweepImage(records, now);
      var removed := before - |state|;
      if removed > 0 {
        var written := Replace(state, Sweep(records, now), StopOf(fault));
        if !written.Done? { return if written.Failed? then Failed(written.error) else Crashed; }
      }
      return Done(removed);
    }
  }
}
