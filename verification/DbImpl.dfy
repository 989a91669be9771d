/** db/dp_impl.cpp in its own form: an object whose methods update its fields, each proved against the matching piece
    of the state machine in module Database or of the functions in module Recovery. */
module DatabaseObject {
  import opened Coding
  import opened WriteBatches
  import opened Database
  import opened FileNames
  import opened Directory
  import opened Recovery
  import opened Openings
  import opened Guarantees
  import opened UnreadableLogs
  import opened TableBuilding

  /** Table files below the counter, and everything that is not a table file, stay; the counter only grows. */
  ghost predicate OnlyNewTables(before: Disk, after: Disk, start: Manifest, v: Manifest) {
    && after == before.(tables := after.tables) && v == start.(nextFile := v.nextFile)
    && start.nextFile <= v.nextFile && SameBelow(before.tables, after.tables, start.nextFile)
  }

  ghost predicate SameBelow(before: map<nat, seq<Entry>>, after: map<nat, seq<Entry>>, next: nat) {
    && (forall n :: n < next ==> (n in after <==> n in before))
    && (forall n :: n < next && n in after ==> after[n] == before[n])
  }

  lemma OnlyNewTablesTwice(a: Disk, b: Disk, c: Disk, u: Manifest, v: Manifest, w: Manifest)
    requires OnlyNewTables(a, b, u, v) && OnlyNewTables(b, c, v, w)
    ensures OnlyNewTables(a, c, u, w) && a.logs == c.logs
  {
  }

  /** Where the loop of RecoverLogFile stands. */
  ghost predicate Midway(st: Replay, table: MemTable?)
    reads table
  {
    && !st.failed && (table == null <==> !st.hasMem) && (!st.hasMem ==> st.current == [])
    && (table != null ==> table.entries == LogEntries(st.current))
  }

  lemma Beginning(disk: Disk, v: Manifest, maxSequence: nat)
    ensures OnlyNewTables(disk, disk, v, v)
    ensures Midway(Replay([], [], false, maxSequence, false), null)
  {
  }

  class DBImpl {
    const options: Options
    var disk: Disk
    var sst: set<nat>              // the tables whose files bear the older suffix
    var manifests: set<nat>
    var temps: set<nat>
    var others: set<string>        // CURRENT, LOCK, the info logs and foreign names
    var manifestFileNumber: nat
    ghost var written: seq<Entry>
    var open: bool
    var mem: seq<Entry>
    var hasMem: bool               // mem_ != NULL
    var imm: Option<seq<Entry>>
    var logfileNumber: nat
    var versions: Manifest
    var pendingOutputs: set<nat>
    var bgError: bool
    var shuttingDown: bool
    var bgScheduled: bool
    var needsCompaction: bool
    var manual: Option<nat>
    var callers: map<nat, bool>
    var asleep: set<Waiter>
    var jobs: seq<Job>
    var fault: bool

    ghost function State(): Db
      reads this
    {
      Db(disk, written, open, mem, imm, logfileNumber, versions, pendingOutputs, bgError, shuttingDown, bgScheduled,
         needsCompaction, manual, callers, asleep, jobs, fault)
    }

    function Children(): Dir
      reads this
    {
      Dir(disk.logs.Keys, disk.tables.Keys, sst, manifests, temps, others)
    }

    // ----- the background protocol -----

    method MaybeScheduleCompaction()
      modifies `bgScheduled, `jobs
      ensures State() == Database.MaybeScheduleCompaction(old(State()))
    {
      if bgScheduled {
        // Already scheduled
      } else if shuttingDown {
        // The database is being deleted
      } else if bgError {
        // Already got an error
      } else if imm.None? && manual.None? && !needsCompaction {
        // No work to be done
      } else {
        bgScheduled := true;
        jobs := jobs + [Queued];
      }
    }

    method RecordBackgroundError()
      modifies `bgError, `asleep
      ensures State() == Database.RecordBackgroundError(old(State()))
      ensures Reachable(old(State())) && Enabled(old(State()), Action.WriteError) ==> Reachable(State())
    {
      hide Reachable, Enabled;
      ErrorReaches(State());
      if !bgError {
        bgError := true;
        asleep := {};
      }
    }

    /** One turn of TEST_CompactRange's loop for the caller `id`. */
    method ManualCompactionTurn(id: nat)
      modifies `manual, `callers, `asleep, `bgScheduled, `jobs
      ensures State() == DoManualTurn(old(State()), id)
      ensures Reachable(old(State())) && Enabled(old(State()), Action.ManualTurn(id)) ==> Reachable(State())
    {
      hide *;
      ManualTurnReaches(State(), id);
      TakeTurn(id);
    }

    /** That step itself. */
    method TakeTurn(id: nat)
      modifies `manual, `callers, `asleep, `bgScheduled, `jobs
      ensures State() == DoManualTurn(old(State()), id)
    {
      var done := id in callers && callers[id];
      if !done && !shuttingDown && !bgError {
        callers := callers[id := false];
        if manual.None? {
          manual := Some(id);
          MaybeScheduleCompaction();
        }
        asleep := asleep + {ManualCaller(id)};
      } else {
        if manual == Some(id) {
          manual := None;
        }
        callers := callers - {id};
        asleep := asleep - {ManualCaller(id)};
      }
    }

    /** One turn of TEST_CompactMemTable's loop for the caller `id`; `waits` tells whether it goes on. */
    method FlushTurn(id: nat) returns (waits: bool)
      modifies `asleep
      ensures waits == (imm.Some? && !bgError) && State() == DoFlushTurn(old(State()), id)
      ensures Reachable(old(State())) && Enabled(old(State()), Action.FlushTurn(id)) ==> Reachable(State())
    {
      hide Reachable, Enabled;
      FlushTurnReaches(State(), id);
      waits := imm.Some? && !bgError;
      if waits {
        asleep := asleep + {FlushCaller(id)};
      } else {
        asleep := asleep - {FlushCaller(id)};
      }
    }

    /** The end of BackgroundCall. */
    method FinishJob(i: nat)
      requires i < |jobs|
      modifies `bgScheduled, `jobs, `asleep
      ensures State() == Database.FinishJob(old(State()), i)
    {
      bgScheduled := false;
      jobs := jobs[..i] + jobs[i + 1..];
      MaybeScheduleCompaction();
      asleep := {};
    }

    /** BackgroundCall and BackgroundCompaction up to the first release of the mutex. */
    method StartJob(i: nat, pick: Pick)
      requires i < |jobs|
      modifies `versions, `pendingOutputs, `jobs, `bgScheduled, `asleep, `callers, `manual
      ensures State() == DoStartJob(old(State()), i, pick)
      ensures Reachable(old(State())) && Enabled(old(State()), Action.StartJob(i, pick)) ==> Reachable(State())
    {
      hide Reachable, Enabled;
      StartJobReaches(State(), i, pick);
      if shuttingDown || bgError {
        FinishJob(i);
      } else if imm.Some? {
        StartFlush(i);
      } else if manual.Some? {
        StartManual(i, pick);
      } else {
        match pick
        case PickNothing => FinishJob(i);
        case PickMove => jobs := jobs[i := MoveInstalling(versions)];
        case PickInputs(inputs) => jobs := jobs[i := Compacting(inputs, {}, None)];
      }
    }

    method StartFlush(i: nat)
      requires i < |jobs|
      modifies `versions, `pendingOutputs, `jobs
      ensures State() == SetJob(old(State()), i, Flushing(old(versions).nextFile))
                         .(versions := old(versions).(nextFile := old(versions).nextFile + 1),
                           pendingOutputs := old(pendingOutputs) + {old(versions).nextFile})
    {
      var number := NewFileNumber();
      pendingOutputs := pendingOutputs + {number};
      jobs := jobs[i := Flushing(number)];
    }

    method StartManual(i: nat, pick: Pick)
      requires i < |jobs| && manual.Some?
      modifies `jobs, `bgScheduled, `asleep, `callers, `manual
      ensures State() ==
                if pick.PickInputs? then SetJob(old(State()), i, Compacting(pick.inputs, {}, old(manual)))
                else Database.FinishJob(old(State()).(callers := old(callers)[old(manual).value := true],
                                                      manual := None), i)
    {
      hide Database.MaybeScheduleCompaction;
      if pick.PickInputs? {
        jobs := jobs[i := Compacting(pick.inputs, {}, manual)];
      } else {
        callers := callers[manual.value := true];
        manual := None;
        FinishJob(i);
      }
    }

    method NewFileNumber() returns (n: nat)
      modifies `versions
      ensures n == old(versions).nextFile && versions == old(versions).(nextFile := n + 1)
    {
      n := versions.nextFile;
      versions := versions.(nextFile := n + 1);
    }

    /** OpenCompactionOutputFile's locked part. */
    method OpenCompactionOutputFile(i: nat)
      requires i < |jobs| && jobs[i].Compacting?
      modifies `sst, `versions, `pendingOutputs, `jobs
      ensures State() == DoOpenOutput(old(State()), i) && sst == old(sst) - {old(versions).nextFile}
      ensures Reachable(old(State())) && Enabled(old(State()), Action.OpenOutput(i)) ==> Reachable(State())
    {
      hide *;
      StateFields();
      OpenOutputReaches(State(), i);
      AllocateOutput(i);
    }

    /** That step itself. */
    method AllocateOutput(i: nat)
      requires i < |jobs| && jobs[i].Compacting?
      modifies `sst, `versions, `pendingOutputs, `jobs
      ensures State() == DoOpenOutput(old(State()), i) && sst == old(sst) - {old(versions).nextFile}
    {
      var n := NewFileNumber();
      pendingOutputs := pendingOutputs + {n};
      sst := sst - {n};
      jobs := jobs[i := Compacting(jobs[i].inputs, jobs[i].outputs + {n}, jobs[i].request)];
    }

    /** WriteLevel0Table's build, with the mutex released. */
    method BuildFlush(i: nat, faults: Faults) returns (ok: bool)
      requires i < |jobs| && jobs[i].Flushing? && imm.Some?
      modifies `disk, `sst, `jobs
      ensures ok == Builds(imm.value, faults) && sst == old(sst) - {old(jobs)[i].number}
      ensures State() == DoFinishBuild(old(State()), i, faults)
      ensures Reachable(old(State())) && Enabled(old(State()), Action.FinishBuild(i, faults)) ==> Reachable(State())
    {
      hide *;
      StateFields();
      FinishBuildReaches(State(), i, faults);
      ok := BuildImm(i, faults);
    }

    /** That step itself. */
    method BuildImm(i: nat, faults: Faults) returns (ok: bool)
      requires i < |jobs| && jobs[i].Flushing? && imm.Some?
      modifies `disk, `sst, `jobs
      ensures ok == Builds(imm.value, faults) && sst == old(sst) - {old(jobs)[i].number}
      ensures State() == DoFinishBuild(old(State()), i, faults)
    {
      var number := jobs[i].number;
      sst := sst - {number};
      var env := new TableEnv(disk.tables);
      var meta;
      ok, meta := BuildTable(env, imm.value, number, faults);
      disk := disk.(tables := env.tables);
      jobs := jobs[i := Flushed(number, ok)];
    }

    /** WriteLevel0Table after the build, and CompactMemTable as far as LogAndApply. */
    method InstallFlush(i: nat)
      requires i < |jobs| && jobs[i].Flushed? && imm.Some?
      modifies `pendingOutputs, `jobs, `bgError, `asleep, `bgScheduled
      ensures State() == DoInstallFlush(old(State()), i)
      ensures Reachable(old(State())) && Enabled(old(State()), Action.InstallFlush(i)) ==> Reachable(State())
    {
      hide *;
      StateFields();
      InstallFlushReaches(State(), i);
      InstallBuilt(i);
    }

    /** That step itself. */
    method InstallBuilt(i: nat)
      requires i < |jobs| && jobs[i].Flushed? && imm.Some?
      modifies `pendingOutputs, `jobs, `bgError, `asleep, `bgScheduled
      ensures State() == DoInstallFlush(old(State()), i)
    {
      var number, ok := jobs[i].number, jobs[i].ok;
      pendingOutputs := pendingOutputs - {number};
      if ok && shuttingDown {
        ok := false;
      }
      if ok {
        var edit := versions;
        if imm.value != [] {
          edit := edit.(live := edit.live + {number});
        }
        edit := edit.(prevLogNumber := 0);
        edit := edit.(logNumber := logfileNumber);
        assert versions.live + {} == versions.live;
        jobs := jobs[i := FlushInstalling(number, edit)];
      } else {
        RecordBackgroundError();
        FinishJob(i);
      }
    }

    /** BackgroundCompaction once DoCompactionWork is done: it failed, or its results go to LogAndApply. */
    method FinishCompaction(i: nat, ok: bool, filenames: seq<string>)
      requires i < |jobs| && jobs[i].Compacting? && Lists(filenames, Children())
      modifies this
      ensures State() == DoFinishCompaction(old(State()), i, ok)
      ensures Reachable(old(State())) && Enabled(old(State()), Action.FinishCompaction(i, ok)) ==> Reachable(State())
    {
      hide Reachable, Enabled;
      FinishCompactionReaches(State(), i, ok);
      hide Database.EndCompaction, Lists;
      if ok {
        var edit := versions.(live := versions.live - jobs[i].inputs + jobs[i].outputs);
        jobs := jobs[i := CompactInstalling(jobs[i].outputs, jobs[i].request, edit)];
      } else {
        RecordBackgroundError();
        EndCompaction(i, false, filenames);
      }
    }

    /** CleanupCompaction and the rest of BackgroundCompaction and BackgroundCall. */
    method EndCompaction(i: nat, ok: bool, filenames: seq<string>)
      requires i < |jobs| && (jobs[i].Compacting? || jobs[i].CompactInstalling?) && Lists(filenames, Children())
      modifies this
      ensures State() == Database.EndCompaction(old(State()), i, ok)
    {
      hide Database.DeleteObsoleteFiles, Database.FinishJob, Closed, Lists, Collected, Fits64, IsChild;
      var request := jobs[i].request;
      pendingOutputs := pendingOutputs - jobs[i].outputs;
      DeleteObsoleteFiles(filenames);
      if request.None? {
        FinishJob(i);
      } else {
        EndManual(i, ok);
      }
    }

    /** BackgroundCompaction's use of manual_compaction_ after the compaction, without a check for NULL. */
    method EndManual(i: nat, ok: bool)
      requires i < |jobs|
      modifies this
      ensures State() ==
                if old(manual).None? then Closed(old(State()).(fault := true), old(disk))
                else Database.FinishJob(old(State()).(callers := if ok then old(callers)
                                                                 else old(callers)[old(manual).value := true],
                                                      manual := None), i)
    {
      hide Database.FinishJob;
      if manual.None? {
        fault := true;
        Free();
      } else {
        if !ok {
          callers := callers[manual.value := true];
        }
        manual := None;
        FinishJob(i);
      }
    }

    /** LogAndApply returns: the edit is current, or nobody knows whether it reached the manifest. */
    method Installed(i: nat, ok: bool, onDisk: bool, needs: bool, filenames: seq<string>)
      requires i < |jobs| && (jobs[i].FlushInstalling? || jobs[i].CompactInstalling? || jobs[i].MoveInstalling?)
      requires Lists(filenames, Children())
      modifies this
      ensures State() == DoInstalled(old(State()), i, ok, onDisk, needs)
      ensures Reachable(old(State())) && Enabled(old(State()), Action.Installed(i, ok, onDisk, needs)) ==> Reachable(State())
    {
      hide *;
      StateFields();
      InstalledReaches(State(), i, ok, onDisk, needs);
      ReceiveResult(i, ok, onDisk, needs, filenames);
    }

    /** That step itself. */
    method ReceiveResult(i: nat, ok: bool, onDisk: bool, needs: bool, filenames: seq<string>)
      requires i < |jobs| && (jobs[i].FlushInstalling? || jobs[i].CompactInstalling? || jobs[i].MoveInstalling?)
      requires Lists(filenames, Children())
      modifies this
      ensures State() == DoInstalled(old(State()), i, ok, onDisk, needs)
    {
      hide Database.DeleteObsoleteFiles, Database.FinishJob, Database.EndCompaction, Lists, Collected;
      var job := jobs[i];
      ReceiveEdit(job.edit, ok, onDisk, needs);
      if job.CompactInstalling? {
        EndCompaction(i, ok, filenames);
      } else {
        if job.FlushInstalling? && ok {
          imm := None;
          DeleteObsoleteFiles(filenames);
        }
        FinishJob(i);
      }
    }

    method ReceiveEdit(edit: Manifest, ok: bool, onDisk: bool, needs: bool)
      modifies `disk, `versions, `needsCompaction, `bgError, `asleep
      ensures State() == if ok then Applied(old(State()), edit, needs) else NotApplied(old(State()), edit, onDisk)
      ensures Children() == old(Children())
    {
      if ok || onDisk {
        disk := disk.(manifest := edit);
      }
      if ok {
        versions := versions.(live := edit.live, logNumber := edit.logNumber, prevLogNumber := edit.prevLogNumber);
        needsCompaction := needs;
      } else {
        RecordBackgroundError();
      }
    }

    /** The destructor: wait once more, or free everything. */
    method DestructorTurn() returns (waits: bool)
      modifies this
      ensures waits == old(bgScheduled) && State() == DoCloserTurn(old(State()))
      ensures Reachable(old(State())) && Enabled(old(State()), Action.CloserTurn) ==> Reachable(State())
    {
      hide Reachable, Enabled;
      CloserTurnReaches(State());
      waits := bgScheduled;
      if waits {
        shuttingDown := true;
        asleep := asleep + {Closer};
      } else {
        Free();
      }
    }

    method Free()
      modifies `mem, `hasMem, `imm, `logfileNumber, `versions, `pendingOutputs, `manual, `callers, `asleep, `jobs
      modifies `open, `bgError, `shuttingDown, `bgScheduled, `needsCompaction
      ensures State() == Closed(old(State()), old(disk))
    {
      FreeMemtables();
      FreeWaiters();
      open, bgError, shuttingDown, bgScheduled, needsCompaction := false, false, false, false, false;
    }

    method FreeMemtables()
      modifies `mem, `hasMem, `imm, `logfileNumber, `versions, `pendingOutputs
      ensures mem == [] && !hasMem && imm.None? && logfileNumber == 0
      ensures versions == disk.manifest && pendingOutputs == {}
    {
      mem, hasMem, imm, logfileNumber := [], false, None, 0;
      versions, pendingOutputs := disk.manifest, {};
    }

    method FreeWaiters()
      modifies `manual, `callers, `asleep, `jobs
      ensures manual.None? && callers == map[] && asleep == {} && jobs == []
    {
      manual, callers, asleep, jobs := None, map[], {}, [];
    }

    // ----- obsolete files -----

    /** Deletes every file the keep rules let go, found by listing and parsing the directory. */
    method DeleteObsoleteFiles(filenames: seq<string>)
      requires Lists(filenames, Children())
      modifies `disk, `manifests, `temps, `others
      ensures State() == Database.DeleteObsoleteFiles(old(State()))
      ensures Children() == if bgError then old(Children())
                else Collected(old(Children()), versions, versions.live + pendingOutputs, manifestFileNumber)
      ensures !bgError ==> forall name, n, t :: IsChild(old(Children()), name) && FileNames.Parse(name) == Some((n, t)) ==>
                (!IsChild(Children(), name)
                 <==> || (t == LogFile && n < versions.logNumber && n != versions.prevLogNumber)
                      || ((t == TableFile || t == TempFile) && n !in versions.live && n !in pendingOutputs)
                      || (t == DescriptorFile && n < manifestFileNumber))
      ensures manifestFileNumber in old(manifests) ==> manifestFileNumber in manifests
      ensures others == old(others)
    {
      hide LeftAfter, Lists, IsChild, CollectedDisk, Collected, FileNames.Parse;
      if bgError {
        return;
      }
      ghost var before := Store(disk, sst, manifests, temps, others);
      ListedAreChildren(filenames, DirOf(before));
      AllLookedAt(before, versions, pendingOutputs, manifestFileNumber, filenames);
      GoneSpelledOut(DirOf(before), versions, pendingOutputs, manifestFileNumber);
      var live := pendingOutputs;
      live := versions.live + live;
      CollectAll(filenames, live);
    }

    /** The loop of DeleteObsoleteFiles. */
    method CollectAll(filenames: seq<string>, live: set<nat>)
      requires Fits64(Children()) && forall name :: name in filenames ==> IsChild(Children(), name)
      modifies `disk, `manifests, `temps, `others
      ensures Store(disk, sst, manifests, temps, others)
           == LeftAfter(old(Store(disk, sst, manifests, temps, others)), versions, live, manifestFileNumber, filenames)
    {
      ghost var before := Store(disk, sst, manifests, temps, others);
      NothingLookedAt(before, versions, live, manifestFileNumber);
      var i := 0;
      hide LeftAfter, IsChild, FileNames.Parse, Keeps, Remove;
      while i < |filenames|
        invariant i <= |filenames|
        invariant Store(disk, sst, manifests, temps, others) == LeftAfter(before, versions, live, manifestFileNumber, filenames[..i])
      {
        assert filenames[..i + 1] == filenames[..i] + [filenames[i]];
        if FileNames.Parse(filenames[i]).Some? {
          LeftAfterStep(before, versions, live, manifestFileNumber, filenames[..i], filenames[i]);
        } else {
          ForeignName(before, versions, live, manifestFileNumber, filenames[..i], filenames[i]);
        }
        CollectOne(filenames[i], live);
        i := i + 1;
      }
      assert filenames[..i] == filenames;
    }

    /** The body of the loop in DeleteObsoleteFiles. */
    method CollectOne(name: string, live: set<nat>)
      modifies `disk, `manifests, `temps, `others
      ensures FileNames.Parse(name).None? ==> Store(disk, sst, manifests, temps, others) == old(Store(disk, sst, manifests, temps, others))
      ensures FileNames.Parse(name).Some? ==>
                var (n, t) := FileNames.Parse(name).value;
                Store(disk, sst, manifests, temps, others) ==
                  if Keeps(n, t, versions, live, manifestFileNumber) then old(Store(disk, sst, manifests, temps, others))
                  else Remove(old(Store(disk, sst, manifests, temps, others)), t, n, name)
    {
      hide FileNames.Parse, Remove;
      var ok, number, fileType := ParseFileName(name);
      if ok {
        var keep := true;
        match fileType {
          case LogFile => keep := number >= versions.logNumber || number == versions.prevLogNumber;
          case DescriptorFile => keep := number >= manifestFileNumber;
          case TableFile => keep := number in live;
          case TempFile => keep := number in live;
          case CurrentFile => keep := true;
          case DBLockFile => keep := true;
          case InfoLogFile => keep := true;
        }
        if !keep {
          DeleteFile(fileType, number, name);
        }
      }
    }

    method DeleteFile(fileType: FileType, number: nat, name: string)
      modifies `disk, `manifests, `temps, `others
      ensures Store(disk, sst, manifests, temps, others) == Remove(old(Store(disk, sst, manifests, temps, others)), fileType, number, name)
    {
      match fileType
      case LogFile => disk := disk.(logs := disk.logs - {number});
      case TableFile => disk := disk.(tables := disk.tables - {number});
      case DescriptorFile => manifests := manifests - {number};
      case TempFile => temps := temps - {number};
      case _ => others := others - {name};
    }

    // ----- recovery -----

    /** The files as module Recovery describes them, with `edit` the tables added so far. */
    ghost predicate FilesAre(f: Files, edit: map<nat, seq<Entry>>)
      reads this
    {
      disk.tables == f.tables && versions.nextFile == f.next && edit == f.added && pendingOutputs == {}
    }

    /** WriteLevel0Table during recovery, when no other thread has the object yet. */
    method WriteLevel0Table(entries: seq<Entry>, edit: map<nat, seq<Entry>>, build: nat -> Faults, ghost f: Files)
        returns (ok: bool, added: map<nat, seq<Entry>>)
      requires FilesAre(f, edit)
      modifies `disk, `sst, `versions, `pendingOutputs
      ensures ok == Builds(entries, build(f.next)) && sst == old(sst) - {f.next}
      ensures ok ==> FilesAre(WriteTable(f, entries), added)
      ensures pendingOutputs == {} && OnlyNewTables(old(disk), disk, old(versions), versions)
    {
      var number := NewFileNumber();
      pendingOutputs := pendingOutputs + {number};
      sst := sst - {number};
      var env := new TableEnv(disk.tables);
      var meta;
      ok, meta := BuildTable(env, entries, number, build(number));
      disk := disk.(tables := env.tables);
      pendingOutputs := pendingOutputs - {number};
      added := edit;
      if ok && meta.fileSize > 0 {
        added := added[meta.number := entries];
      }
    }

    /** The body of the loop in RecoverLogFile: one log record. */
    method RecoverRecord(record: Bytes, table: MemTable?, build: nat -> Faults, ghost st: Replay, ghost f: Files,
                         save: bool, edit: map<nat, seq<Entry>>, maxSequence: nat, compactions: nat)
        returns (ok: bool, table': MemTable?, save': bool, edit': map<nat, seq<Entry>>, maxSequence': nat,
                 compactions': nat)
      requires Midway(st, table) && FilesAre(f, edit) && maxSequence == st.maxSequence && compactions == |st.groups|
      modifies `disk, `sst, `versions, `pendingOutputs, if table == null then {} else {table}
      ensures var after := ReplayRecord(options, st, record);
              var full := |after.groups| > |st.groups|;
              && ok == (!after.failed && (full ==> Builds(LogEntries(after.groups[|st.groups|]), build(f.next))))
              && maxSequence' == after.maxSequence && compactions' == |after.groups| && save' == (save || full)
              && (table' == table || table' == null || fresh(table'))
              && (ok ==>
                    && FilesAre(if full then WriteTable(f, LogEntries(after.groups[|st.groups|])) else f, edit')
                    && Midway(after, table'))
      ensures pendingOutputs == {} && OnlyNewTables(old(disk), disk, old(versions), versions)
    {
      hide LogEntries, IterateStatus, RecordEntries, Sequence, Count, Builds;
      NoEntries();
      LogEntriesSnoc(st.current, record);
      ok, table', save', edit', maxSequence', compactions' := true, table, save, edit, maxSequence, compactions;
      if |record| < HEADER {
        return;  // reported as too small, and skipped
      }
      var batch := new WriteBatch();
      batch.SetContents(record);
      if table' == null {
        table' := new MemTable();
      }
      var status := batch.InsertInto(table');
      if status != Ok && options.paranoid {
        ok := false;
        return;
      }
      var last := LastSequence(batch.rep);
      if last > maxSequence' {
        maxSequence' := last;
      }
      if options.usage(table'.entries) > options.writeBufferSize {
        compactions' := compactions' + 1;
        save' := true;
        ok, edit' := WriteLevel0Table(table'.entries, edit', build, f);
        table' := null;
      }
    }

    /** RecoverLogFile's loop over the records of a log. */
    method ReplayLog(records: seq<Bytes>, build: nat -> Faults, save: bool, edit: map<nat, seq<Entry>>,
                     maxSequence: nat, ghost f: Files)
        returns (ok: bool, table: MemTable?, save': bool, edit': map<nat, seq<Entry>>, maxSequence': nat,
                 compactions: nat)
      requires FilesAre(f, edit)
      modifies `disk, `sst, `versions, `pendingOutputs
      ensures var rep := ReplayRecords(options, maxSequence, records);
              && ok == (!rep.failed && GroupsBuild(build, f.next, rep.groups))
              && (table == null || fresh(table))
              && (ok ==>
                    && maxSequence' == rep.maxSequence && compactions == |rep.groups|
                    && save' == (save || rep.groups != [])
                    && FilesAre(WriteGroups(f, rep.groups), edit') && Midway(rep, table))
      ensures pendingOutputs == {} && OnlyNewTables(old(disk), disk, old(versions), versions)
    {
      hide ReplayRecord, ReplayRecords, WriteTable, LogEntries, WriteGroups, GroupsBuild, OnlyNewTables, Midway, Builds;
      ok, table, save', edit', maxSequence', compactions := true, null, save, edit, maxSequence, 0;
      ghost var st := ReplayRecords(options, maxSequence, []);
      ReplayBegins(options, maxSequence, records, build, f);
      Beginning(disk, versions, maxSequence);
      var i := 0;
      while i < |records| && ok
        invariant i <= |records| && st == ReplayRecords(options, maxSequence, records[..i])
        invariant ok == (!st.failed && GroupsBuild(build, f.next, st.groups))
        invariant ok ==>
                    && maxSequence' == st.maxSequence && compactions == |st.groups|
                    && save' == (save || st.groups != [])
                    && FilesAre(WriteGroups(f, st.groups), edit') && Midway(st, table)
        invariant table == null || fresh(table)
        invariant pendingOutputs == {} && OnlyNewTables(old(disk), disk, old(versions), versions)
        modifies `disk, `sst, `versions, `pendingOutputs, if table == null then {} else {table}
      {
        ReplayRecordsSnoc(options, maxSequence, records, i);
        GroupsAfter(options, st, records[i], f, build);
        ghost var before, d, v := st, disk, versions;
        st := ReplayRecord(options, before, records[i]);
        ok, table, save', edit', maxSequence', compactions :=
          RecoverRecord(records[i], table, build, before, WriteGroups(f, before.groups), save', edit', maxSequence',
                        compactions);
        OnlyNewTablesTwice(old(disk), d, disk, old(versions), v, versions);
        i := i + 1;
      }
      if ok {
        assert records[..i] == records;
      } else {
        FailureSticks(options, maxSequence, records, i, build, f.next);
      }
    }

    /** Replays one log; the last one may go on being used, and then its memtable is kept. `o` says whether it can. */
    method RecoverLogFile(logNumber: nat, lastLog: bool, t: Trouble, save: bool, edit: map<nat, seq<Entry>>,
                          maxSequence: nat, ghost o: Options, ghost f: Files)
        returns (ok: bool, save': bool, edit': map<nat, seq<Entry>>, maxSequence': nat)
      requires FilesAre(f, edit) && o == options.(reuseLogs := o.reuseLogs)
      requires lastLog ==> o.reuseLogs == (options.reuseLogs && t.appendable && logNumber !in t.unreadable)
      modifies `disk, `sst, `versions, `pendingOutputs, `mem, `hasMem, `logfileNumber
      ensures var rep := ReplayRecords(o, maxSequence, Records(Readable(old(disk), t.unreadable), logNumber));
              var groups := LogGroups(o, lastLog, rep);
              && ok == ((options.paranoid ==> logNumber !in t.unreadable) && !rep.failed
                        && GroupsBuild(t.build, f.next, groups))
              && (ok ==>
                    && maxSequence' == rep.maxSequence && save' == (save || groups != [])
                    && FilesAre(WriteGroups(f, groups), edit'))
              && (if ok && Reuses(o, lastLog, rep)
                  then hasMem && mem == LogEntries(rep.current) && logfileNumber == logNumber
                  else hasMem == old(hasMem) && mem == old(mem) && logfileNumber == old(logfileNumber))
      ensures pendingOutputs == {} && OnlyNewTables(old(disk), disk, old(versions), versions)
    {
      hide LogEntries, ReplayRecord, ReplayRecords, WriteTable, WriteGroups, GroupsBuild, Builds, Readable, Records;
      ok, save', edit', maxSequence' := true, save, edit, maxSequence;
      ReadableRecords(disk, t.unreadable, logNumber);
      if logNumber in t.unreadable {
        ReplayBegins(o, maxSequence, [], t.build, f);
        return !options.paranoid, save', edit', maxSequence';
      }
      var records := Records(disk, logNumber);
      ReuseIsNoMatter(options, o, maxSequence, records);
      ghost var rep := ReplayRecords(o, maxSequence, records);
      WriteGroupsSnoc(f, rep.groups, rep.current, t.build);
      var table, compactions;
      ok, table, save', edit', maxSequence', compactions := ReplayLog(records, t.build, save, edit, maxSequence, f);
      if ok && options.reuseLogs && lastLog && compactions == 0 && t.appendable {
        logfileNumber := logNumber;
        if table != null {
          mem, hasMem := table.entries, true;
          table := null;
        } else {
          mem, hasMem := [], true;
          NoEntries();
        }
      }
      if table != null && ok {
        save' := true;
        ok, edit' := WriteLevel0Table(table.entries, edit', t.build, WriteGroups(f, rep.groups));
      }
    }

    /** Recover's loop over the directory: live tables without a file, and the logs to replay. */
    method ScanDirectory(filenames: seq<string>) returns (expected: set<nat>, logs: seq<nat>)
      ensures expected == Missing(filenames, versions.live) && logs == ScanLogs(filenames, versions)
    {
      expected, logs := versions.live, [];
      var i := 0;
      while i < |filenames|
        invariant i <= |filenames|
        invariant expected == Missing(filenames[..i], versions.live) && logs == ScanLogs(filenames[..i], versions)
      {
        ScanStep(filenames, i, versions);
        hide FileNames.Parse, ScanLogs, Missing;
        var ok, number, fileType := ParseFileName(filenames[i]);
        if ok {
          expected := expected - {number};
          if fileType == LogFile && (number >= versions.logNumber || number == versions.prevLogNumber) {
            logs := logs + [number];
          }
        }
        i := i + 1;
      }
      assert filenames[..i] == filenames;
    }

    /** What Recover leaves when it succeeds, by the options `o` on the logs of `before`. */
    ghost predicate RecoveredInto(o: Options, before: Disk, numbers: seq<nat>, edit: map<nat, seq<Entry>>)
      reads this
    {
      var rec, f := RecoveredFrom(o, before, numbers), FilesFrom(o, before, numbers);
      && FilesAre(f, edit)
      && versions == before.manifest.(nextFile := f.next,
                                      lastSequence := Max(before.manifest.lastSequence, rec.maxSequence))
      && hasMem == rec.reused.Some?
      && (hasMem ==> numbers != [] && mem == LogEntries(rec.reused.value)
                     && logfileNumber == numbers[|numbers| - 1])
    }

    /** Recover after VersionSet::Recover, which asked for a new manifest or not. */
    method Recover(filenames: seq<string>, t: Trouble, saveManifest: bool)
        returns (ok: bool, save: bool, edit: map<nat, seq<Entry>>)
      requires versions == disk.manifest && pendingOutputs == {} && !hasMem
      modifies `disk, `sst, `versions, `pendingOutputs, `mem, `hasMem, `logfileNumber
      ensures var numbers := LogNumbers(filenames, old(disk).manifest);
              var o, d := Effective(options, t, numbers), Readable(old(disk), t.unreadable);
              && ok == (Missing(filenames, old(disk).manifest.live) == {} && GetsThrough(options, old(disk), t, numbers))
              && (ok ==> RecoveredInto(o, d, numbers, edit)
                         && save == (saveManifest || RecoveredFrom(o, d, numbers).groups != []))
      ensures Missing(filenames, old(disk).manifest.live) != {} ==> State() == old(State())
      ensures !hasMem ==> mem == old(mem) && logfileNumber == old(logfileNumber)
      ensures disk == old(disk).(tables := disk.tables) && pendingOutputs == {}
      ensures SameBelow(old(disk).tables, disk.tables, old(versions).nextFile)
      ensures versions.nextFile >= old(versions).nextFile
    {
      hide GetsThrough, Effective, Readable, RecoverLogs, RecoverFiles, Missing, LogEntries, SameBelow;
      Beginning(disk, versions, 0);
      SameReadable(disk, disk, t.unreadable);
      save, edit := saveManifest, map[];
      var expected, found := ScanDirectory(filenames);
      if expected != {} {
        return false, save, edit;
      }
      var numbers := Sorted(found);
      var maxSequence;
      ok, save, edit, maxSequence := RecoverAllLogs(numbers, t, save);
      if !ok {
        return;
      }
      if versions.lastSequence < maxSequence {
        versions := versions.(lastSequence := maxSequence);
      }
    }

    /** Where Recover's loop over the logs stands after `i` of them. */
    ghost predicate After(o: Options, before: Disk, start: Manifest, numbers: seq<nat>, i: nat, saveManifest: bool,
                          save: bool, edit: map<nat, seq<Entry>>, maxSequence: nat)
      requires i <= |numbers|
      reads this
    {
      var rec := RecoverLogs(o, Contents(before, numbers), i);
      && !rec.failed && save == (saveManifest || rec.groups != []) && maxSequence == rec.maxSequence
      && FilesAre(RecoverFiles(o, FilesBefore(before), Contents(before, numbers), numbers, i), edit)
      && versions == start.(nextFile := versions.nextFile)
      && hasMem == rec.reused.Some?
      && (hasMem ==> i == |numbers| > 0 && mem == LogEntries(rec.reused.value) && logfileNumber == numbers[i - 1])
    }

    lemma AllAfter(o: Options, before: Disk, start: Manifest, numbers: seq<nat>, saveManifest: bool, save: bool,
                   edit: map<nat, seq<Entry>>, maxSequence: nat)
      requires After(o, before, start, numbers, |numbers|, saveManifest, save, edit, maxSequence)
      ensures !RecoveredFrom(o, before, numbers).failed
    {
    }

    lemma NothingYet(o: Options, before: Disk, numbers: seq<nat>, saveManifest: bool)
      requires versions == before.manifest && disk.tables == before.tables && pendingOutputs == {} && !hasMem
      ensures After(o, before, versions, numbers, 0, saveManifest, saveManifest, map[], 0)
    {
    }

    /** Recover's loop over the logs. */
    method RecoverAllLogs(numbers: seq<nat>, t: Trouble, saveManifest: bool)
        returns (ok: bool, save: bool, edit: map<nat, seq<Entry>>, maxSequence: nat)
      requires versions == disk.manifest && pendingOutputs == {} && !hasMem
      modifies `disk, `sst, `versions, `pendingOutputs, `mem, `hasMem, `logfileNumber
      ensures ok == GetsThrough(options, old(disk), t, numbers)
      ensures ok ==> After(Effective(options, t, numbers), Readable(old(disk), t.unreadable), old(versions), numbers,
                           |numbers|, saveManifest, save, edit, maxSequence)
      ensures !hasMem ==> mem == old(mem) && logfileNumber == old(logfileNumber)
      ensures pendingOutputs == {} && OnlyNewTables(old(disk), disk, old(versions), versions)
    {
      hide RecoverLogs, RecoverFiles, LogEntries, AllBuild, Effective, Readable, OnlyNewTables, GetsThrough, After;
      ok, save, edit, maxSequence := true, saveManifest, map[], 0;
      ghost var start, o, before := versions, Effective(options, t, numbers), Readable(disk, t.unreadable);
      ghost var logs, initial := Contents(before, numbers), disk;
      NothingRecovered(o, FilesBefore(before), logs, numbers, t.build);
      Beginning(disk, versions, 0);
      SameReadable(disk, disk, t.unreadable);
      NothingYet(o, before, numbers, saveManifest);
      var i := 0;
      while i < |numbers|
        invariant i <= |numbers| && disk.logs == initial.logs
        invariant After(o, before, start, numbers, i, saveManifest, save, edit, maxSequence)
        invariant AllBuild(o, FilesBefore(before), logs, numbers, i, t.build)
        invariant options.paranoid ==> forall n :: n in numbers[..i] ==> n !in t.unreadable
        invariant pendingOutputs == {} && (i < |numbers| ==> !hasMem)
        invariant !hasMem ==> mem == old(mem) && logfileNumber == old(logfileNumber)
        invariant OnlyNewTables(initial, disk, start, versions)
      {
        ghost var d, v := disk, versions;
        SameReadable(initial, d, t.unreadable);
        ok, save, edit, maxSequence :=
          RecoverNextLog(o, before, start, numbers, i, t, saveManifest, save, edit, maxSequence);
        if !ok {
          OnlyNewTablesTwice(initial, d, disk, start, v, versions);
          FailureSpreads(options, initial, t, numbers, i + 1);
          return;
        }
        OnlyNewTablesTwice(initial, d, disk, start, v, versions);
        assert numbers[..i + 1] == numbers[..i] + [numbers[i]];
        i := i + 1;
      }
      assert numbers[..i] == numbers;
      AllAfter(o, before, start, numbers, saveManifest, save, edit, maxSequence);
      EndOfLogs(options, initial, t, numbers);
    }

    /** The body of that loop. */
    method RecoverNextLog(ghost o: Options, ghost before: Disk, ghost start: Manifest, numbers: seq<nat>, i: nat,
                          t: Trouble, ghost saveManifest: bool, save: bool, edit: map<nat, seq<Entry>>,
                          maxSequence: nat)
        returns (ok: bool, save': bool, edit': map<nat, seq<Entry>>, maxSequence': nat)
      requires i < |numbers| && !hasMem && After(o, before, start, numbers, i, saveManifest, save, edit, maxSequence)
      requires o == Effective(options, t, numbers) && before.logs == Readable(disk, t.unreadable).logs
      requires AllBuild(o, FilesBefore(before), Contents(before, numbers), numbers, i, t.build)
      modifies `disk, `sst, `versions, `pendingOutputs, `mem, `hasMem, `logfileNumber
      ensures ok == ((options.paranoid ==> numbers[i] !in t.unreadable)
                     && !RecoverLogs(o, Contents(before, numbers), i + 1).failed
                     && AllBuild(o, FilesBefore(before), Contents(before, numbers), numbers, i + 1, t.build))
      ensures ok ==> After(o, before, start, numbers, i + 1, saveManifest, save', edit', maxSequence')
      ensures !ok || i + 1 < |numbers| ==> !hasMem
      ensures !hasMem ==> mem == old(mem) && logfileNumber == old(logfileNumber)
      ensures pendingOutputs == {} && OnlyNewTables(old(disk), disk, old(versions), versions)
    {
      hide RecoverLogs, RecoverFiles, ReplayRecords, LogEntries, WriteGroups, LogGroups, Reuses, GroupsBuild, AllBuild;
      ghost var f := RecoverFiles(o, FilesBefore(before), Contents(before, numbers), numbers, i);
      AnotherLog(o, FilesBefore(before), Contents(before, numbers), numbers, i, t.build);
      ok, save', edit', maxSequence' :=
        RecoverLogFile(numbers[i], i == |numbers| - 1, t, save, edit, maxSequence, o, f);
      if ok {
        versions := versions.(nextFile := Recovery.Max(versions.nextFile, numbers[i] + 1));
      }
    }

    // ----- opening -----

    /** An object that has read the manifest and nothing else. */
    ghost predicate Fresh()
      reads this
    {
      State() == Closed(State(), disk) && !hasMem
    }

    constructor (options: Options, disk: Disk, sst: set<nat>, manifests: set<nat>, temps: set<nat>,
                 others: set<string>, manifestFileNumber: nat, ghost written: seq<Entry>)
      ensures Fresh() && this.disk == disk && this.written == written && !fault && this.options == options
      ensures Children() == Dir(disk.logs.Keys, disk.tables.Keys, sst, manifests, temps, others)
      ensures this.manifestFileNumber == manifestFileNumber
    {
      this.options, this.disk, this.sst, this.manifests, this.temps := options, disk, sst, manifests, temps;
      this.others := others;
      this.manifestFileNumber, this.written := manifestFileNumber, written;
      open, mem, hasMem, imm, logfileNumber, versions := false, [], false, None, 0, disk.manifest;
      pendingOutputs, bgError, shuttingDown, bgScheduled, needsCompaction := {}, false, false, false, false;
      manual, callers, asleep, jobs, fault := None, map[], {}, [], false;
    }

    /** DB::Open as far as LogAndApply; if anything fails the object is deleted. */
    method OpenAndInstall(filenames: seq<string>, t: Trouble, saveManifest: bool, needs: bool) returns (ok: bool)
      requires Fresh()
      modifies this
      ensures var numbers, start := LogNumbers(filenames, old(disk).manifest), old(State());
              var w := OpeningOf(Effective(options, t, numbers), Readable(old(disk), t.unreadable), numbers,
                                 saveManifest, needs);
              var through := Missing(filenames, old(disk).manifest.live) == {}
                             && GetsThrough(options, old(disk), t, numbers);
              ok == open && State() == Outcome(start, w, t, through, disk.tables) && (ok ==> hasMem)
      ensures SameBelow(old(disk).tables, disk.tables, old(disk).manifest.nextFile)
      ensures manifests == old(manifests) && temps == old(temps) && others == old(others)
      ensures manifestFileNumber == old(manifestFileNumber)
    {
      hide *;
      StateHasDisk();
      ghost var numbers, start := LogNumbers(filenames, disk.manifest), State();
      ghost var o, d := Effective(options, t, numbers), Readable(disk, t.unreadable);
      ghost var w := OpeningOf(o, d, numbers, saveManifest, needs);
      NeedsAsked(o, d, numbers, saveManifest, needs);
      OpenedFields(start, w);
      ok := Prepare(filenames, t, saveManifest, start, w);
      OutcomeIs(start, w, t, Missing(filenames, start.disk.manifest.live) == {}
                             && GetsThrough(options, start.disk, t, numbers), disk.tables);
      Settle(ok, needs, start, w);
    }

    /** Recovery, the new log and the edit; `w` is what it should come to. */
    method Prepare(filenames: seq<string>, t: Trouble, saveManifest: bool, ghost start: Db, ghost w: Opening)
        returns (ok: bool)
      requires Fresh() && start == State()
      requires var numbers := LogNumbers(filenames, disk.manifest);
               w == OpeningOf(Effective(options, t, numbers), Readable(disk, t.unreadable), numbers, saveManifest, w.needs)
      modifies `disk, `sst, `versions, `pendingOutputs, `mem, `hasMem, `logfileNumber
      ensures var numbers := LogNumbers(filenames, start.disk.manifest);
              var logged := Missing(filenames, start.disk.manifest.live) == {}
                            && GetsThrough(options, start.disk, t, numbers) && (w.reuse || t.newLog);
              && ok == (logged && (w.save ==> t.installs))
              && disk == (if !logged then start.disk.(tables := disk.tables)
                          else if w.save && (t.installs || t.onDisk)
                          then OpenedDisk(start.disk, w).(manifest := OpenedManifest(start.disk, w))
                          else OpenedDisk(start.disk, w))
      ensures ok ==>
                && hasMem && mem == w.mem && logfileNumber == w.log
                && versions == if w.save then OpenedManifest(start.disk, w)
                               else start.disk.manifest.(nextFile := w.nextFile, lastSequence := w.lastSequence)
      ensures Idle(start) && SameBelow(start.disk.tables, disk.tables, start.disk.manifest.nextFile)
    {
      hide LogNumbers, Missing, GetsThrough, RecoveredFrom, FilesFrom, LogEntries, OpenedState, OpeningOf, Effective;
      hide Readable, SameBelow, OpenedDisk, OpenedManifest, Adopts;
      var save, edit;
      ghost var numbers := LogNumbers(filenames, disk.manifest);
      ghost var o, d := Effective(options, t, numbers), Readable(disk, t.unreadable);
      ok, save, edit := Recover(filenames, t, saveManifest);
      if ok {
        ThroughMeans(options, start.disk, t, numbers);
        RecoveryAdopts(o, d, start, numbers, saveManifest, w.needs, save, edit);
        ok := TakeOver(t, save, edit, start.disk, w);
      }
    }

    lemma StateFields()
      ensures State().jobs == jobs && State().imm == imm
    {
    }

    lemma StateIsOpen()
      ensures State().open == open
    {
    }

    lemma StateHasDisk()
      ensures State().disk == disk
    {
    }

    /** Nobody has the object yet. */
    ghost predicate Idle(start: Db)
      reads this
    {
      State() == Closed(start, disk).(mem := mem, logfileNumber := logfileNumber, versions := versions)
    }

    /** The object is opened or, if something failed, deleted. */
    method Settle(ok: bool, needs: bool, ghost start: Db, ghost w: Opening)
      requires Idle(start)
      requires ok ==>
                 && hasMem && mem == w.mem && logfileNumber == w.log && needs == w.needs
                 && disk == OpenedState(start, w).disk && versions == OpenedState(start, w).versions
      modifies `mem, `hasMem, `imm, `logfileNumber, `versions, `pendingOutputs, `manual, `callers, `asleep, `jobs
      modifies `open, `bgError, `shuttingDown, `bgScheduled, `needsCompaction
      ensures State() == (if ok then OpenedState(start, w) else Closed(start, disk)) && open == ok && (ok ==> hasMem)
    {
      hide OpenedDisk, OpenedManifest;
      if ok {
        open, needsCompaction := true, needs;
      } else {
        Free();
      }
    }

    /** What recovery has left agrees with the opening `w` of the disk `start`. */
    ghost predicate Adopts(start: Disk, w: Opening, save: bool, edit: map<nat, seq<Entry>>)
      reads this
    {
      && w.reuse == hasMem && w.save == save && w.log == (if hasMem then logfileNumber else versions.nextFile)
      && w.nextFile == (if hasMem then versions.nextFile else versions.nextFile + 1)
      && w.mem == (if hasMem then mem else [])
      && versions == start.manifest.(nextFile := versions.nextFile, lastSequence := w.lastSequence)
      && OpenedManifest(start, w) == Manifest(versions.live + edit.Keys, w.log, 0, w.nextFile, versions.lastSequence)
      && OpenedDisk(start, w)
         == disk.(logs := if hasMem then disk.logs else disk.logs[versions.nextFile := []])
    }

    lemma RecoveryAdopts(o: Options, d: Disk, start: Db, numbers: seq<nat>, saveManifest: bool, needs: bool, save: bool,
                         edit: map<nat, seq<Entry>>)
      requires !RecoveredFrom(o, d, numbers).failed && d.tables == start.disk.tables && d.manifest == start.disk.manifest
      requires RecoveredInto(o, d, numbers, edit) && save == (saveManifest || RecoveredFrom(o, d, numbers).groups != [])
      requires disk == start.disk.(tables := disk.tables)
      ensures Adopts(start.disk, OpeningOf(o, d, numbers, saveManifest, needs), save, edit)
    {
      hide RecoveredFrom, FilesFrom, LogEntries, OpenedState, OpeningOf, OpenedDisk, OpenedManifest;
      OpeningIs(o, start, d, numbers, saveManifest, needs);
    }

    /** DB::Open between Recover and DeleteObsoleteFiles. */
    method TakeOver(t: Trouble, save: bool, edit: map<nat, seq<Entry>>, ghost start: Disk, ghost w: Opening)
        returns (ok: bool)
      requires Adopts(start, w, save, edit)
      modifies `disk, `versions, `mem, `hasMem, `logfileNumber
      ensures ok == ((w.reuse || t.newLog) && (w.save ==> t.installs))
      ensures disk ==
                if !w.reuse && !t.newLog then old(disk)
                else if w.save && (t.installs || t.onDisk) then OpenedDisk(start, w).(manifest := OpenedManifest(start, w))
                else OpenedDisk(start, w)
      ensures disk.tables == old(disk).tables
      ensures ok ==>
                && hasMem && mem == w.mem && logfileNumber == w.log
                && versions == if w.save then OpenedManifest(start, w)
                               else start.manifest.(nextFile := w.nextFile, lastSequence := w.lastSequence)
    {
      hide OpenedDisk, OpenedManifest;
      if !hasMem {
        if !t.newLog {
          return false;
        }
        StartLog();
      }
      if save {
        if !t.installs {
          if t.onDisk {
            disk := disk.(manifest := versions.(live := versions.live + edit.Keys, prevLogNumber := 0,
                                                logNumber := logfileNumber));
          }
          return false;
        }
        InstallRecovery(edit);
      }
      return true;
    }

    /** A new log and the memtable that goes with it. */
    method StartLog()
      modifies `disk, `versions, `mem, `hasMem, `logfileNumber
      ensures hasMem && mem == [] && logfileNumber == old(versions).nextFile
      ensures versions == old(versions).(nextFile := old(versions).nextFile + 1)
      ensures disk == old(disk).(logs := old(disk).logs[logfileNumber := []])
    {
      var number := NewFileNumber();
      disk := disk.(logs := disk.logs[number := []]);
      logfileNumber, mem, hasMem := number, [], true;
    }

    /** LogAndApply on the edit recovery made, before any other thread has the object. */
    method InstallRecovery(edit: map<nat, seq<Entry>>)
      modifies `disk, `versions
      ensures versions == old(versions).(live := old(versions).live + edit.Keys, prevLogNumber := 0,
                                         logNumber := logfileNumber)
      ensures disk == old(disk).(manifest := versions)
    {
      versions := versions.(live := versions.live + edit.Keys, prevLogNumber := 0, logNumber := logfileNumber);
      disk := disk.(manifest := versions);
    }

    lemma Resting()
      requires Fresh()
      ensures !State().open && Children() == Dir(disk.logs.Keys, disk.tables.Keys, sst, manifests, temps, others)
    {
    }

    /** The new numbers fit 64 bits, like the old ones. */
    lemma StillFits(start: Db, d: Dir, t: Trouble, numbers: seq<nat>, saveManifest: bool, needs: bool)
      requires var o, r := Effective(options, t, numbers), Readable(start.disk, t.unreadable);
               var w := OpeningOf(o, r, numbers, saveManifest, needs);
               && State() == OpenedState(start, w) && w.nextFile <= TWO_64 && !RecoveredFrom(o, r, numbers).failed
               && r.tables == start.disk.tables && r.manifest == start.disk.manifest
      requires Fits64(d) && d == Dir(start.disk.logs.Keys, start.disk.tables.Keys, d.sst, manifests, temps, others)
      ensures Fits64(Children())
    {
      hide RecoverLogs, RecoverFiles, OpeningOf, Effective, Readable, OpenedState, OpenedDisk, OpenedManifest, LogEntries, FilesHold;
      NewNumbersFit(Effective(options, t, numbers), Readable(start.disk, t.unreadable), numbers);
      var o, r := Effective(options, t, numbers), Readable(start.disk, t.unreadable);
      OpeningIs(o, start, r, numbers, saveManifest, needs);
      OpenedFields(start, OpeningOf(o, r, numbers, saveManifest, needs));
      StateHasDisk();
    }

    /** DB::Open, when GetChildren answers with `children` of the directory as it then is. Opening a reachable database
        leaves a reachable one, opened or not, if and only if it has no effect or leaves no entry out of reach. */
    method Open(children: Dir -> seq<string>, t: Trouble, saveManifest: bool, needs: bool) returns (ok: bool)
      requires Fresh() && Fits64(Children()) && forall d :: Fits64(d) ==> Lists(children(d), d)
      requires OpeningOf(Effective(options, t, LogNumbers(children(Children()), disk.manifest)),
                         Readable(disk, t.unreadable), LogNumbers(children(Children()), disk.manifest), saveManifest,
                         needs).nextFile <= TWO_64
      modifies this
      ensures ok == open && (ok ==> hasMem)
      ensures var filenames := children(old(Children()));
              var numbers := LogNumbers(filenames, old(disk).manifest);
              var w := OpeningOf(Effective(options, t, numbers), Readable(old(disk), t.unreadable), numbers,
                                 saveManifest, needs);
              var through := Missing(filenames, old(disk).manifest.live) == {}
                             && GetsThrough(options, old(disk), t, numbers);
              Reachable(old(State())) ==>
                (Reachable(State()) <==> (Takes(w, t, through) ==> KeepsEntries(old(disk), w)))
    {
      hide *;
      StateHasDisk();
      ghost var start, d, numbers := State(), Children(), LogNumbers(children(Children()), disk.manifest);
      ghost var w := OpeningOf(Effective(options, t, numbers), Readable(disk, t.unreadable), numbers, saveManifest, needs);
      ghost var through := Missing(children(d), disk.manifest.live) == {} && GetsThrough(options, disk, t, numbers);
      Resting();
      ok := OpenAndInstall(children(Children()), t, saveManifest, needs);
      ghost var tables := disk.tables;
      StateIsOpen();
      if Reachable(start) {
        Interrupted(start.disk, tables);
        RecoveryIsFitting(options, start, d, children(d), t, saveManifest, needs);
        OpeningExactly(start, w, t, through, tables);
      }
      EndedIs(State());
      if ok {
        OpenMeansThrough(start, w, t, through, tables);
        ThroughMeans(options, start.disk, t, numbers);
        StillFits(start, d, t, numbers, saveManifest, needs);
        FinishOpen(children(Children()));
      }
    }

    /** The rest of DB::Open. */
    method FinishOpen(filenames: seq<string>)
      requires Lists(filenames, Children())
      modifies `disk, `manifests, `temps, `others, `bgScheduled, `jobs
      ensures State() == Database.MaybeScheduleCompaction(Database.DeleteObsoleteFiles(old(State())))
    {
      hide Database.MaybeScheduleCompaction, Database.DeleteObsoleteFiles;
      DeleteObsoleteFiles(filenames);
      MaybeScheduleCompaction();
    }
  }

  lemma SameReadable(a: Disk, b: Disk, unreadable: set<nat>)
    requires a.logs == b.logs
    ensures Readable(a, unreadable).logs == Readable(b, unreadable).logs
    ensures Readable(a, unreadable).tables == a.tables && Readable(a, unreadable).manifest == a.manifest
  {
  }

  lemma ThroughMeans(options: Options, disk: Disk, t: Trouble, numbers: seq<nat>)
    requires GetsThrough(options, disk, t, numbers)
    ensures !RecoveredFrom(Effective(options, t, numbers), Readable(disk, t.unreadable), numbers).failed
    ensures Readable(disk, t.unreadable).tables == disk.tables && Readable(disk, t.unreadable).manifest == disk.manifest
  {
    hide RecoveredFrom;
  }

  /** The opening and what it makes of the database, field by field, when `d` is what could be read of its disk. */
  lemma OpeningIs(o: Options, s: Db, d: Disk, numbers: seq<nat>, saveManifest: bool, needs: bool)
    requires !RecoveredFrom(o, d, numbers).failed && d.tables == s.disk.tables && d.manifest == s.disk.manifest
    ensures var rec, f, m := RecoveredFrom(o, d, numbers), FilesFrom(o, d, numbers), s.disk.manifest;
            var w := OpeningOf(o, d, numbers, saveManifest, needs);
            var edited := Manifest(m.live + f.added.Keys, w.log, 0, w.nextFile, w.lastSequence);
            && w.reuse == rec.reused.Some? && w.save == (saveManifest || rec.groups != []) && w.needs == needs
            && (w.reuse ==> numbers != [])
            && w.log == (if w.reuse then numbers[|numbers| - 1] else f.next)
            && w.nextFile == (if w.reuse then f.next else f.next + 1)
            && w.mem == (if w.reuse then LogEntries(rec.reused.value) else [])
            && w.lastSequence == Max(m.lastSequence, rec.maxSequence)
            && OpenedManifest(s.disk, w) == edited
            && OpenedDisk(s.disk, w)
               == Disk(if w.reuse then s.disk.logs else s.disk.logs[f.next := []], f.tables, m)
            && OpenedState(s, w)
               == Closed(s, OpenedDisk(s.disk, w).(manifest := if w.save then edited else m))
                  .(open := true, mem := w.mem, logfileNumber := w.log, needsCompaction := needs,
                    versions := if w.save then edited else m.(nextFile := w.nextFile, lastSequence := w.lastSequence))
  {
    TablesRecovered(o, d, numbers);
    ReusedIsLast(o, d, numbers);
    hide RecoveredFrom, FilesFrom, LogEntries;
  }

  lemma OpenedFields(s: Db, w: Opening)
    ensures var t, m := OpenedState(s, w), OpenedManifest(s.disk, w);
            && t.disk == (if w.save then OpenedDisk(s.disk, w).(manifest := m) else OpenedDisk(s.disk, w))
            && t.versions == if w.save then m
                             else s.disk.manifest.(nextFile := w.nextFile, lastSequence := w.lastSequence)
  {
    hide OpenedDisk, OpenedManifest;
  }

  lemma NeedsAsked(o: Options, d: Disk, numbers: seq<nat>, saveManifest: bool, needs: bool)
    ensures OpeningOf(o, d, numbers, saveManifest, needs).needs == needs
  {
  }

  lemma NewNumbersFit(o: Options, disk: Disk, numbers: seq<nat>)
    requires !RecoveredFrom(o, disk, numbers).failed
    ensures var f := FilesFrom(o, disk, numbers);
            disk.manifest.nextFile <= f.next && forall n :: n in f.tables ==> n in disk.tables || n < f.next
  {
    RecoverFilesHold(o, FilesBefore(disk), Contents(disk, numbers), numbers, |numbers|);
    hide RecoverLogs, RecoverFiles;
  }

  lemma TablesRecovered(o: Options, disk: Disk, numbers: seq<nat>)
    requires !RecoveredFrom(o, disk, numbers).failed
    ensures var f := FilesFrom(o, disk, numbers); f.tables == disk.tables - f.dropped + f.added
  {
    RecoverFilesHold(o, FilesBefore(disk), Contents(disk, numbers), numbers, |numbers|);
    hide RecoverLogs, RecoverFiles;
  }

  lemma OutcomeIs(s: Db, w: Opening, t: Trouble, through: bool, tables: map<nat, seq<Entry>>)
    ensures !through || (!w.reuse && !t.newLog) ==>
              Outcome(s, w, t, through, tables) == Closed(s, s.disk.(tables := tables))
    ensures through && (w.reuse || t.newLog) && (!w.save || t.installs) ==>
              Outcome(s, w, t, through, tables) == OpenedState(s, w)
    ensures through && (w.reuse || t.newLog) && w.save && !t.installs ==>
              Outcome(s, w, t, through, tables)
              == Closed(s, if t.onDisk then OpenedDisk(s.disk, w).(manifest := OpenedManifest(s.disk, w))
                           else OpenedDisk(s.disk, w))
  {
    hide OpenedState, OpenedDisk, OpenedManifest;
  }

  lemma Interrupted(before: Disk, tables: map<nat, seq<Entry>>)
    requires SameBelow(before.tables, tables, before.manifest.nextFile)
    ensures Interrupts(before, tables, None)
  {
  }

  lemma EndedIs(u: Db)
    ensures Ended(u) == if u.open then Database.MaybeScheduleCompaction(Database.DeleteObsoleteFiles(u)) else u
  {
    hide Database.MaybeScheduleCompaction, Database.DeleteObsoleteFiles;
  }

  lemma OpenMeansThrough(s: Db, w: Opening, t: Trouble, through: bool, tables: map<nat, seq<Entry>>)
    requires Outcome(s, w, t, through, tables).open
    ensures through && Outcome(s, w, t, through, tables) == OpenedState(s, w)
  {
    hide OpenedState, OpenedDisk, OpenedManifest, InterruptedDisk;
  }

  lemma NothingRecovered(o: Options, f: Files, logs: seq<seq<Bytes>>, numbers: seq<nat>, build: nat -> Faults)
    requires |numbers| == |logs|
    ensures RecoverLogs(o, logs, 0) == Recovered([], None, 0, false) && RecoverFiles(o, f, logs, numbers, 0) == f
    ensures AllBuild(o, f, logs, numbers, 0, build)
  {
  }

  lemma AnotherLog(o: Options, f: Files, logs: seq<seq<Bytes>>, numbers: seq<nat>, i: nat, build: nat -> Faults)
    requires |numbers| == |logs| && i < |logs| && !RecoverLogs(o, logs, i).failed
    ensures var before := RecoverLogs(o, logs, i);
            var last, rep := i == |numbers| - 1, ReplayRecords(o, before.maxSequence, logs[i]);
            var groups := LogGroups(o, last, rep);
            && RecoverLogs(o, logs, i + 1)
               == Recovered(before.groups + groups, if Reuses(o, last, rep) then Some(rep.current) else None,
                            rep.maxSequence, rep.failed)
            && (Reuses(o, last, rep) ==> last && !rep.failed)
            && (!rep.failed ==>
                  RecoverFiles(o, f, logs, numbers, i + 1)
                  == MarkFileNumberUsed(WriteGroups(RecoverFiles(o, f, logs, numbers, i), groups), numbers[i]))
            && (AllBuild(o, f, logs, numbers, i + 1, build)
                <==> AllBuild(o, f, logs, numbers, i, build)
                     && GroupsBuild(build, RecoverFiles(o, f, logs, numbers, i).next, groups))
  {
    hide ReplayRecords, LogGroups, WriteGroups, GroupsBuild;
  }

  lemma {:induction false} LaterLogs(o: Options, f: Files, logs: seq<seq<Bytes>>, numbers: seq<nat>, k: nat,
                                     build: nat -> Faults)
    requires |numbers| == |logs| && k <= |logs|
    ensures RecoverLogs(o, logs, k).failed ==> RecoverLogs(o, logs, |logs|).failed
    ensures !AllBuild(o, f, logs, numbers, k, build) ==> !AllBuild(o, f, logs, numbers, |logs|, build)
    decreases |logs| - k
  {
    if k < |logs| { LaterLogs(o, f, logs, numbers, k + 1, build); }
  }

  /** One log that cannot be recovered is enough. */
  lemma FailureSpreads(options: Options, disk: Disk, t: Trouble, numbers: seq<nat>, k: nat)
    requires 0 < k <= |numbers|
    requires var o, d := Effective(options, t, numbers), Readable(disk, t.unreadable);
             || (options.paranoid && numbers[k - 1] in t.unreadable)
             || RecoverLogs(o, Contents(d, numbers), k).failed
             || !AllBuild(o, FilesBefore(d), Contents(d, numbers), numbers, k, t.build)
    ensures !GetsThrough(options, disk, t, numbers)
  {
    var o, d := Effective(options, t, numbers), Readable(disk, t.unreadable);
    LaterLogs(o, FilesBefore(d), Contents(d, numbers), numbers, k, t.build);
    hide RecoverLogs, AllBuild, Effective, Readable;
  }

  lemma EndOfLogs(options: Options, disk: Disk, t: Trouble, numbers: seq<nat>)
    requires var o, d := Effective(options, t, numbers), Readable(disk, t.unreadable);
             && !RecoveredFrom(o, d, numbers).failed
             && AllBuild(o, FilesBefore(d), Contents(d, numbers), numbers, |numbers|, t.build)
    requires options.paranoid ==> forall n :: n in numbers ==> n !in t.unreadable
    ensures GetsThrough(options, disk, t, numbers)
  {
  }

  lemma ScanStep(names: seq<string>, i: nat, v: Manifest)
    requires i < |names|
    ensures Missing(names[..i + 1], v.live)
         == Missing(names[..i], v.live)
            - (if FileNames.Parse(names[i]).Some? then {FileNames.Parse(names[i]).value.0} else {})
    ensures ScanLogs(names[..i + 1], v) == ScanLogs(names[..i], v) + KeptLog(names[i], v)
  {
    hide FileNames.Parse;
    assert names[..i + 1] == names[..i] + [names[i]];
    assert names[..i + 1][..i] == names[..i];
  }

  lemma NoEntries()
    ensures LogEntries([]) == []
  {
  }

  /** Replaying does not depend on whether the log can be reused. */
  lemma {:induction false} ReuseIsNoMatter(a: Options, b: Options, maxSequence: nat, records: seq<Bytes>)
    requires a == b.(reuseLogs := a.reuseLogs)
    ensures ReplayRecords(a, maxSequence, records) == ReplayRecords(b, maxSequence, records)
  {
    if records != [] { ReuseIsNoMatter(a, b, maxSequence, records[..|records| - 1]); }
  }

  lemma WriteGroupsSnoc(f: Files, groups: seq<seq<Bytes>>, g: seq<Bytes>, build: nat -> Faults)
    ensures WriteGroups(f, groups + [g]) == WriteTable(WriteGroups(f, groups), LogEntries(g))
    ensures WriteGroups(f, groups).next == f.next + |groups|
    ensures GroupsBuild(build, f.next, groups + [g])
       <==> GroupsBuild(build, f.next, groups) && Builds(LogEntries(g), build(f.next + |groups|))
  {
    hide LogEntries, WriteTable, Builds, GroupsBuild;
    GroupsBuildSnoc(build, f.next, groups, g);
    WriteGroupsGrow(f, groups);
    assert (groups + [g])[..|groups|] == groups;
  }

  lemma GroupsBuildSnoc(build: nat -> Faults, next: nat, groups: seq<seq<Bytes>>, g: seq<Bytes>)
    ensures GroupsBuild(build, next, groups + [g])
       <==> GroupsBuild(build, next, groups) && Builds(LogEntries(g), build(next + |groups|))
  {
    hide LogEntries, Builds;
    var all := groups + [g];
    assert all[..|all| - 1] == groups && all[|all| - 1] == g;
  }

  lemma ReplayBegins(o: Options, maxSequence: nat, records: seq<Bytes>, build: nat -> Faults, f: Files)
    ensures ReplayRecords(o, maxSequence, records[..0]) == ReplayRecords(o, maxSequence, [])
    ensures ReplayRecords(o, maxSequence, []) == Replay([], [], false, maxSequence, false)
    ensures GroupsBuild(build, f.next, []) && WriteGroups(f, []) == f
  {
  }

  lemma ReplayRecordsSnoc(o: Options, maxSequence: nat, records: seq<Bytes>, i: nat)
    requires i < |records|
    ensures ReplayRecords(o, maxSequence, records[..i + 1])
         == ReplayRecord(o, ReplayRecords(o, maxSequence, records[..i]), records[i])
  {
    assert records[..i + 1][..i] == records[..i];
  }

  /** What failed half-way has failed. */
  lemma {:induction false} FailureSticks(o: Options, maxSequence: nat, records: seq<Bytes>, i: nat,
                                         build: nat -> Faults, next: nat)
    requires i <= |records|
    requires var st := ReplayRecords(o, maxSequence, records[..i]); st.failed || !GroupsBuild(build, next, st.groups)
    ensures var rep := ReplayRecords(o, maxSequence, records); rep.failed || !GroupsBuild(build, next, rep.groups)
    decreases |records| - i
  {
    if i < |records| {
      ReplayRecordsSnoc(o, maxSequence, records, i);
      GroupsAfter(o, ReplayRecords(o, maxSequence, records[..i]), records[i], Files(map[], next, map[], {}), build);
      hide ReplayRecords, GroupsBuild, WriteGroups, LogEntries;
      FailureSticks(o, maxSequence, records, i + 1, build, next);
    } else {
      assert records[..i] == records;
    }
  }

  /** One record adds at most one table. */
  lemma GroupsAfter(o: Options, st: Replay, record: Bytes, f: Files, build: nat -> Faults)
    ensures var after := ReplayRecord(o, st, record);
            && |st.groups| <= |after.groups| <= |st.groups| + 1
            && (st.failed ==> after == st)
            && WriteGroups(f, st.groups).next == f.next + |st.groups|
            && WriteGroups(f, after.groups) ==
                 (if |after.groups| == |st.groups| then WriteGroups(f, st.groups)
                  else WriteTable(WriteGroups(f, st.groups), LogEntries(after.groups[|st.groups|])))
            && (GroupsBuild(build, f.next, after.groups)
                <==> GroupsBuild(build, f.next, st.groups)
                     && (|after.groups| > |st.groups| ==>
                           Builds(LogEntries(after.groups[|st.groups|]), build(f.next + |st.groups|))))
  {
    hide LogEntries, LastSequence, IterateStatus, WriteGroups, WriteTable, GroupsBuild;
    var groups := ReplayRecord(o, st, record).groups;
    WriteGroupsGrow(f, st.groups);
    if |groups| > |st.groups| {
      assert groups == st.groups + [groups[|st.groups|]];
      WriteGroupsSnoc(f, st.groups, groups[|st.groups|], build);
    }
  }
}
