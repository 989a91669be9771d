/** db/builder.cpp: turning the entries of a memtable into a table file and its metadata. */
module TableBuilding {
  import opened Coding
  import opened WriteBatches

  /** `smallest` and `largest` are the first and last entry's key and number. */
  datatype FileMetaData = FileMetaData(number: nat, fileSize: nat, smallest: Option<Entry>, largest: Option<Entry>)

  /** Which of the calls BuildTable makes report a failure. */
  datatype Faults = Faults(create: bool, finish: bool, sync: bool, close: bool, verify: bool, input: bool)

  const NO_FAULTS := Faults(false, false, false, false, false, false)

  /** The directory's table files. */
  class TableEnv {
    var tables: map<nat, seq<Entry>>

    constructor (tables: map<nat, seq<Entry>>)
      ensures this.tables == tables
    {
      this.tables := tables;
    }
  }

  predicate AnyFault(f: Faults) { f.create || f.finish || f.sync || f.close || f.verify || f.input }

  predicate Builds(iter: seq<Entry>, f: Faults) { if iter == [] then !f.input else !AnyFault(f) }

  /** What the call leaves in the directory: the whole table or, whatever failed, nothing under its number (a file
      that could not even be created is left as it was). */
  function TablesAfter(tables: map<nat, seq<Entry>>, iter: seq<Entry>, n: nat, f: Faults): map<nat, seq<Entry>> {
    if iter != [] && f.create then tables
    else if iter != [] && !AnyFault(f) then tables[n := iter]
    else tables - {n}
  }

  /** A table's size on disk is modelled by its number of entries: zero exactly when there is no table. */
  method BuildTable(env: TableEnv, iter: seq<Entry>, number: nat, f: Faults) returns (ok: bool, meta: FileMetaData)
    modifies env
    ensures ok <==> Builds(iter, f)
    ensures ok <==> !f.input && (iter == [] || (!f.create && !f.finish && !f.sync && !f.close && !f.verify))
    ensures env.tables == TablesAfter(old(env.tables), iter, number, f)
    ensures forall n :: n != number ==>
              && (n in env.tables <==> n in old(env.tables)) && (n in env.tables ==> env.tables[n] == old(env.tables)[n])
    ensures number in env.tables && !(iter != [] && f.create) ==> ok && env.tables[number] == iter
    ensures meta.number == number
    ensures meta.fileSize > 0 <==> iter != [] && !f.create && !f.finish
    ensures ok && iter != [] ==>
              && env.tables[number] == iter && meta.fileSize == |iter|
              && meta.smallest == Some(iter[0]) && meta.largest == Some(iter[|iter| - 1])
  {
    var s := true;
    var size := 0;
    var smallest, largest: Option<Entry> := None, None;
    if iter != [] {
      if f.create {
        return false, FileMetaData(number, 0, None, None);
      }
      var file: seq<Entry> := [];
      smallest := Some(iter[0]);
      var i := 0;
      while i < |iter|
        invariant i <= |iter| && file == iter[..i]
        invariant i > 0 ==> largest == Some(iter[i - 1])
      {
        largest := Some(iter[i]);
        file := file + [iter[i]];
        i := i + 1;
      }
      assert file == iter;
      env.tables := env.tables[number := file];
      s := !f.finish;
      if s {
        size := |file|;
      }
      if s {
        s := !f.sync;
      }
      if s {
        s := !f.close;
      }
      if s {
        s := !f.verify;
      }
    }
    if f.input {
      s := false;
    }
    if s && size > 0 {
      // keep it
    } else {
      env.tables := env.tables - {number};
    }
    return s, FileMetaData(number, size, smallest, largest);
  }
}
