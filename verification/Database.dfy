/** db/dp_impl.cpp as a state machine. Every action is one region between acquiring and releasing the mutex (or
    one piece of unlocked file writing), so any sequence of actions is an interleaving of writers, callers of manual
    compaction, the background thread, the destructor, crashes and reopenings. */
module Database {
  import opened Coding
  import opened WriteBatches
  import opened TableBuilding

  /** The part of the version state a manifest records: live tables, log numbers and counters. */
  datatype Manifest = Manifest(live: set<nat>, logNumber: nat, prevLogNumber: nat, nextFile: nat, lastSequence: nat)

  /** What a crash leaves behind. */
  datatype Disk = Disk(logs: map<nat, seq<Bytes>>, tables: map<nat, seq<Entry>>, manifest: Manifest)

  /** How far a scheduled background job has come. In the Installing phases the job is inside LogAndApply, which
      may release the mutex: `edit` is on its way to the manifest but not yet current. */
  datatype Job =
    | Queued
    | Flushing(number: nat)
    | Flushed(number: nat, ok: bool)
    | FlushInstalling(number: nat, edit: Manifest)
    | Compacting(inputs: set<nat>, outputs: set<nat>, request: Option<nat>)
    | CompactInstalling(outputs: set<nat>, request: Option<nat>, edit: Manifest)
    | MoveInstalling(edit: Manifest)

  /** Threads that wait on bg_cv_. */
  datatype Waiter = ManualCaller(id: nat) | FlushCaller(id: nat) | Closer

  datatype Db = Db(
    disk: Disk,
    written: seq<Entry>,            // every entry ever logged, so every one acknowledged, in order
    open: bool,
    mem: seq<Entry>,
    imm: Option<seq<Entry>>,
    logfileNumber: nat,
    versions: Manifest,
    pendingOutputs: set<nat>,
    bgError: bool,
    shuttingDown: bool,
    bgScheduled: bool,
    needsCompaction: bool,
    manual: Option<nat>,            // manual_compaction_: whose request it points at
    callers: map<nat, bool>,        // calls of TEST_CompactRange in progress, with their `done` flags
    asleep: set<Waiter>,
    jobs: seq<Job>,                 // handed to Env::Schedule and not yet returned
    fault: bool)                    // a null manual_compaction_ was dereferenced

  // ----- small pieces -----

  predicate KeepsLog(v: Manifest, n: nat) { n >= v.logNumber || n == v.prevLogNumber }

  function LogEntries(records: seq<Bytes>): seq<Entry> {
    if records == [] then [] else LogEntries(records[..|records| - 1]) + RecordEntries(records[|records| - 1])
  }

  function Records(disk: Disk, n: nat): seq<Bytes> { if n in disk.logs then disk.logs[n] else [] }

  predicate HasWork(s: Db) { s.imm.Some? || s.manual.Some? || s.needsCompaction }

  function MaybeScheduleCompaction(s: Db): (t: Db)
    ensures t == s.(bgScheduled := t.bgScheduled, jobs := t.jobs)
  {
    if s.bgScheduled || s.shuttingDown || s.bgError || !HasWork(s) then s
    else s.(bgScheduled := true, jobs := s.jobs + [Queued])
  }

  function RecordBackgroundError(s: Db): (t: Db)
    ensures t == s.(bgError := true, asleep := t.asleep)
  {
    if s.bgError then s else s.(bgError := true, asleep := {})
  }

  /** DeleteObsoleteFiles, for the two kinds of file the machine follows. */
  function CollectedDisk(disk: Disk, v: Manifest, pending: set<nat>): Disk {
    disk.(logs := map n | n in disk.logs && KeepsLog(v, n) :: disk.logs[n],
          tables := map n | n in disk.tables && (n in v.live || n in pending) :: disk.tables[n])
  }

  function DeleteObsoleteFiles(s: Db): (t: Db)
    ensures t == s.(disk := t.disk) && t.disk.manifest == s.disk.manifest
  {
    if s.bgError then s else s.(disk := CollectedDisk(s.disk, s.versions, s.pendingOutputs))
  }

  /** The end of BackgroundCall: clear the flag, look for more work, wake every waiter. */
  function FinishJob(s: Db, i: nat): (t: Db)
    requires i < |s.jobs|
    ensures t == s.(bgScheduled := t.bgScheduled, jobs := t.jobs, asleep := {})
  {
    MaybeScheduleCompaction(s.(bgScheduled := false, jobs := s.jobs[..i] + s.jobs[i + 1..])).(asleep := {})
  }

  function SetJob(s: Db, i: nat, job: Job): Db
    requires i < |s.jobs|
  {
    s.(jobs := s.jobs[i := job])
  }

  function JobRequest(job: Job): Option<nat> {
    if job.Compacting? || job.CompactInstalling? then job.request else None
  }

  /** The process is gone; the disk stays. */
  function Closed(s: Db, disk: Disk): Db {
    Db(disk, s.written, false, [], None, 0, disk.manifest, {}, false, false, false, false, None, map[], {}, [], s.fault)
  }

  // ----- actions -----

  datatype Pick = PickNothing | PickMove | PickInputs(inputs: set<nat>)

  /** What recovery and DB::Open worked out and wrote: tables built from replayed logs, table files removed because
      they would have been empty, the log that goes on being written, and the counters. */
  datatype Opening = Opening(tables: map<nat, seq<Entry>>, dropped: set<nat>, reuse: bool, log: nat, mem: seq<Entry>,
                             nextFile: nat, lastSequence: nat, save: bool, needs: bool)

  datatype Action =
    | Write(record: Bytes)
    | SwitchMemTable
    | WriteError
    | ManualTurn(id: nat)
    | FlushTurn(id: nat)
    | CloserTurn
    | StartJob(i: nat, pick: Pick)
    | Produce(i: nat, number: nat, content: seq<Entry>)
    | FinishBuild(i: nat, faults: Faults)
    | InstallFlush(i: nat)
    | OpenOutput(i: nat)
    | FinishCompaction(i: nat, ok: bool)
    | Installed(i: nat, ok: bool, onDisk: bool, needs: bool)
    | Crash(edited: Option<nat>)
    | OpenInterrupted(tables: map<nat, seq<Entry>>, log: Option<nat>)
    | OpenNotInstalled(o: Opening)
    | Open(o: Opening)
    | CollectionCut(lostLogs: set<nat>, lostTables: set<nat>)

  /** The contract of the compaction itself: every input entry is matched or superseded in the outputs, and the
      outputs hold nothing that was not in the inputs. */
  ghost predicate Merges(tables: map<nat, seq<Entry>>, inputs: set<nat>, outputs: set<nat>) {
    && (forall n :: n in outputs ==> n in tables && HeldIn(inputs, tables, tables[n]))
    && (forall n, e :: n in inputs && n in tables && e in tables[n] ==> Covered(outputs, tables, e))
  }

  ghost predicate HeldIn(numbers: set<nat>, tables: map<nat, seq<Entry>>, content: seq<Entry>) {
    forall e :: e in content ==> exists n :: n in numbers && n in tables && e in tables[n]
  }

  /** `a` makes `b` unnecessary: same key, at least as new. */
  predicate Supersedes(a: Entry, b: Entry) { a.key == b.key && a.seqno >= b.seqno }

  ghost predicate Covered(numbers: set<nat>, tables: map<nat, seq<Entry>>, e: Entry) {
    exists n, x :: n in numbers && n in tables && x in tables[n] && Supersedes(x, e)
  }

  ghost predicate InKeptLog(logs: map<nat, seq<Bytes>>, v: Manifest, e: Entry) {
    exists n :: n in logs && KeepsLog(v, n) && e in LogEntries(logs[n])
  }

  /** What recovery guarantees about an opening (see module Recovery): the manifest's tables are there, the numbers
      are fresh, and the log that goes on is the one in the reused memtable, or new. */
  ghost predicate FilesOk(disk: Disk, o: Opening) {
    var m := disk.manifest;
    && (forall n :: n in m.live ==> n in disk.tables)
    && (forall n :: n in o.tables || n in o.dropped ==> m.nextFile <= n < o.nextFile)
    && m.nextFile <= o.nextFile && m.lastSequence <= o.lastSequence
    && (forall n :: n in disk.logs && KeepsLog(m, n) ==> n < o.nextFile)
    && (o.tables != map[] ==> o.save)
    && m.logNumber <= o.log < o.nextFile && (forall n :: n in disk.logs ==> n <= o.log)
    && (if o.reuse then o.log in disk.logs && o.mem == LogEntries(disk.logs[o.log])
        else o.mem == [] && o.log !in disk.logs && m.nextFile <= o.log)
  }

  /** The new tables hold only what is in kept logs, and the sequence counter is past all that has been recovered. */
  ghost predicate EntriesSound(disk: Disk, o: Opening) {
    && (forall t, e :: t in o.tables && e in o.tables[t] ==>
          InKeptLog(disk.logs, disk.manifest, e) && e.seqno <= o.lastSequence)
    && (forall e :: e in o.mem ==> e.seqno <= o.lastSequence)
  }

  /** The entry, or one that supersedes it, is where the opened database looks for it. */
  ghost predicate Reached(disk: Disk, o: Opening, e: Entry) {
    || e in o.mem
    || Covered(disk.manifest.live, disk.tables, e)
    || Covered(o.tables.Keys, o.tables, e)
  }

  /** No kept log holds an entry that would be out of reach; a log recovery could not read might. */
  ghost predicate KeepsEntries(disk: Disk, o: Opening) {
    forall e :: InKeptLog(disk.logs, disk.manifest, e) ==> Reached(disk, o, e)
  }

  ghost predicate OpeningOk(disk: Disk, o: Opening) {
    FilesOk(disk, o) && EntriesSound(disk, o) && KeepsEntries(disk, o)
  }

  function OpenedDisk(disk: Disk, o: Opening): Disk {
    disk.(tables := disk.tables - o.dropped + o.tables,
          logs := if o.reuse then disk.logs else disk.logs[o.log := []])
  }

  /** What a crash or a failing call at any point of recovery may leave: any contents, whole or partial, under the
      numbers recovery hands out, and the new log if there is one already. */
  ghost predicate Interrupts(disk: Disk, tables: map<nat, seq<Entry>>, log: Option<nat>) {
    && (forall n :: n < disk.manifest.nextFile ==> (n in tables <==> n in disk.tables))
    && (forall n :: n < disk.manifest.nextFile && n in tables ==> tables[n] == disk.tables[n])
    && (log.Some? ==> disk.manifest.nextFile <= log.value && log.value !in disk.logs)
  }

  function InterruptedDisk(disk: Disk, tables: map<nat, seq<Entry>>, log: Option<nat>): Disk {
    disk.(tables := tables, logs := if log.Some? then disk.logs[log.value := []] else disk.logs)
  }

  function OpenedManifest(disk: Disk, o: Opening): Manifest {
    Manifest(disk.manifest.live + o.tables.Keys, o.log, 0, o.nextFile, o.lastSequence)
  }

  ghost predicate Enabled(s: Db, a: Action) {
    match a
    case Write(r) =>
      s.open && Accepts(r) && Sequence(r) == s.versions.lastSequence + 1 && s.versions.lastSequence + Count(r) < TWO_64
    case SwitchMemTable => s.open && s.imm.None?
    case WriteError => s.open
    case ManualTurn(_) => s.open
    case FlushTurn(_) => s.open
    case CloserTurn => s.open
    case StartJob(i, pick) =>
      && s.open && i < |s.jobs| && s.jobs[i].Queued?
      && (pick.PickInputs? ==> pick.inputs != {} && pick.inputs <= s.versions.live)
      && (pick.PickMove? ==> s.manual.None?)
    case Produce(i, n, _) =>
      && s.open && i < |s.jobs|
      && (s.jobs[i] == Flushing(n) || (s.jobs[i].Compacting? && n in s.jobs[i].outputs))
    case FinishBuild(i, _) => s.open && i < |s.jobs| && s.jobs[i].Flushing? && s.imm.Some?
    case InstallFlush(i) => s.open && i < |s.jobs| && s.jobs[i].Flushed? && s.imm.Some?
    case OpenOutput(i) => s.open && i < |s.jobs| && s.jobs[i].Compacting?
    case FinishCompaction(i, ok) =>
      && s.open && i < |s.jobs| && s.jobs[i].Compacting?
      && (ok ==> Merges(s.disk.tables, s.jobs[i].inputs, s.jobs[i].outputs))
    case Installed(i, _, _, _) =>
      && s.open && i < |s.jobs|
      && (s.jobs[i].FlushInstalling? || s.jobs[i].CompactInstalling? || s.jobs[i].MoveInstalling?)
    case Crash(edited) =>
      && s.open
      && (edited.Some? ==>
            && edited.value < |s.jobs|
            && var j := s.jobs[edited.value];
               j.FlushInstalling? || j.CompactInstalling? || j.MoveInstalling?)
    case OpenInterrupted(tables, log) => !s.open && Interrupts(s.disk, tables, log)
    case OpenNotInstalled(o) => !s.open && OpeningOk(s.disk, o) && o.save
    case Open(o) => !s.open && OpeningOk(s.disk, o)
    case CollectionCut(logs, tables) =>
      && !s.open && tables !! s.disk.manifest.live
      && (forall n :: n in logs ==> !KeepsLog(s.disk.manifest, n))
  }

  // ----- the regions -----

  /** Write once it is first in line: append the record to the log, apply it to the memtable. */
  function DoWrite(s: Db, r: Bytes): Db {
    var entries := RecordEntries(r);
    s.(disk := s.disk.(logs := s.disk.logs[s.logfileNumber := Records(s.disk, s.logfileNumber) + [r]]),
       mem := s.mem + entries,
       written := s.written + entries,
       versions := s.versions.(lastSequence := s.versions.lastSequence + |entries|))
  }

  /** MakeRoomForWrite's switch to a fresh log and memtable. */
  function DoSwitch(s: Db): Db {
    var n := s.versions.nextFile;
    MaybeScheduleCompaction(
      s.(disk := s.disk.(logs := s.disk.logs[n := []]), versions := s.versions.(nextFile := n + 1),
         logfileNumber := n, imm := Some(s.mem), mem := []))
  }

  /** One turn of the loop in TEST_CompactRange, from acquiring the mutex to waiting on it or leaving. */
  function DoManualTurn(s: Db, id: nat): Db {
    var done := id in s.callers && s.callers[id];
    if done || s.shuttingDown || s.bgError then
      s.(manual := if s.manual == Some(id) then None else s.manual,
         callers := s.callers - {id}, asleep := s.asleep - {ManualCaller(id)})
    else
      var t := s.(callers := s.callers[id := false]);
      (if t.manual.None? then MaybeScheduleCompaction(t.(manual := Some(id))) else t)
        .(asleep := s.asleep + {ManualCaller(id)})
  }

  /** One turn of the loop in TEST_CompactMemTable. */
  function DoFlushTurn(s: Db, id: nat): Db {
    if s.imm.Some? && !s.bgError then s.(asleep := s.asleep + {FlushCaller(id)})
    else s.(asleep := s.asleep - {FlushCaller(id)})
  }

  /** One turn of the destructor's loop. */
  function DoCloserTurn(s: Db): Db {
    if s.bgScheduled then s.(shuttingDown := true, asleep := s.asleep + {Closer})
    else Closed(s, s.disk)
  }

  /** BackgroundCall and BackgroundCompaction up to the first release of the mutex. */
  function DoStartJob(s: Db, i: nat, pick: Pick): Db
    requires i < |s.jobs|
  {
    var n := s.versions.nextFile;
    if s.shuttingDown || s.bgError then FinishJob(s, i)
    else if s.imm.Some? then
      SetJob(s, i, Flushing(n)).(versions := s.versions.(nextFile := n + 1), pendingOutputs := s.pendingOutputs + {n})
    else if s.manual.Some? then
      if pick.PickInputs? then SetJob(s, i, Compacting(pick.inputs, {}, s.manual))
      else FinishJob(s.(callers := s.callers[s.manual.value := true], manual := None), i)
    else
      match pick
      case PickNothing => FinishJob(s, i)
      case PickMove => SetJob(s, i, MoveInstalling(s.versions))
      case PickInputs(inputs) => SetJob(s, i, Compacting(inputs, {}, None))
  }

  /** BuildTable returns, with the memtable in the file or without. */
  function DoFinishBuild(s: Db, i: nat, faults: Faults): Db
    requires i < |s.jobs| && s.jobs[i].Flushing? && s.imm.Some?
  {
    var n := s.jobs[i].number;
    SetJob(s, i, Flushed(n, Builds(s.imm.value, faults)))
      .(disk := s.disk.(tables := TablesAfter(s.disk.tables, s.imm.value, n, faults)))
  }

  /** WriteLevel0Table after the build, and CompactMemTable as far as LogAndApply. */
  function DoInstallFlush(s: Db, i: nat): Db
    requires i < |s.jobs| && s.jobs[i].Flushed? && s.imm.Some?
  {
    var n := s.jobs[i].number;
    var t := s.(pendingOutputs := s.pendingOutputs - {n});
    if !s.jobs[i].ok || s.shuttingDown then FinishJob(RecordBackgroundError(t), i)
    else
      SetJob(t, i, FlushInstalling(n,
        s.versions.(live := s.versions.live + (if s.imm.value == [] then {} else {n}),
                    logNumber := s.logfileNumber, prevLogNumber := 0)))
  }

  function DoOpenOutput(s: Db, i: nat): Db
    requires i < |s.jobs| && s.jobs[i].Compacting?
  {
    var n, j := s.versions.nextFile, s.jobs[i];
    SetJob(s, i, Compacting(j.inputs, j.outputs + {n}, j.request))
      .(versions := s.versions.(nextFile := n + 1), pendingOutputs := s.pendingOutputs + {n})
  }

  /** From CleanupCompaction to the end of BackgroundCall. */
  function EndCompaction(s: Db, i: nat, ok: bool): Db
    requires i < |s.jobs| && (s.jobs[i].Compacting? || s.jobs[i].CompactInstalling?)
  {
    var request := s.jobs[i].request;
    var t := DeleteObsoleteFiles(s.(pendingOutputs := s.pendingOutputs - s.jobs[i].outputs));
    if request.None? then FinishJob(t, i)
    else if t.manual.None? then Closed(t.(fault := true), t.disk)
    else
      FinishJob(t.(callers := if ok then t.callers else t.callers[t.manual.value := true], manual := None), i)
  }

  /** DoCompactionWork is over: either it failed, or its results go to LogAndApply. */
  function DoFinishCompaction(s: Db, i: nat, ok: bool): Db
    requires i < |s.jobs| && s.jobs[i].Compacting?
  {
    var j := s.jobs[i];
    if ok then
      SetJob(s, i, CompactInstalling(j.outputs, j.request,
        s.versions.(live := s.versions.live - j.inputs + j.outputs)))
    else EndCompaction(RecordBackgroundError(s), i, false)
  }

  /** LogAndApply succeeded: the edit is the current version, in memory and on disk. */
  function Applied(s: Db, edit: Manifest, needs: bool): (t: Db)
    ensures t == s.(disk := t.disk, versions := t.versions, needsCompaction := needs)
  {
    s.(disk := s.disk.(manifest := edit), needsCompaction := needs,
       versions := s.versions.(live := edit.live, logNumber := edit.logNumber, prevLogNumber := edit.prevLogNumber))
  }

  /** LogAndApply failed: whether the edit reached the manifest is not known. */
  function NotApplied(s: Db, edit: Manifest, onDisk: bool): (t: Db)
    ensures t == s.(disk := t.disk, bgError := true, asleep := t.asleep)
  {
    RecordBackgroundError(if onDisk then s.(disk := s.disk.(manifest := edit)) else s)
  }

  function DoInstalled(s: Db, i: nat, ok: bool, onDisk: bool, needs: bool): Db
    requires i < |s.jobs| && (s.jobs[i].FlushInstalling? || s.jobs[i].CompactInstalling? || s.jobs[i].MoveInstalling?)
  {
    var j := s.jobs[i];
    var t := if ok then Applied(s, j.edit, needs) else NotApplied(s, j.edit, onDisk);
    match j
    case FlushInstalling(_, _) => FinishJob(if ok then DeleteObsoleteFiles(t.(imm := None)) else t, i)
    case CompactInstalling(_, _, _) => EndCompaction(t, i, ok)
    case MoveInstalling(_) => FinishJob(t, i)
  }

  /** DB::Open once the edit, if one is needed, is installed. */
  function OpenedState(s: Db, o: Opening): Db {
    var disk, m := OpenedDisk(s.disk, o), OpenedManifest(s.disk, o);
    Db(if o.save then disk.(manifest := m) else disk, s.written, true, o.mem, None, o.log,
       if o.save then m else s.disk.manifest.(nextFile := o.nextFile, lastSequence := o.lastSequence),
       {}, false, false, false, o.needs, None, map[], {}, [], s.fault)
  }

  function DoOpen(s: Db, o: Opening): Db {
    MaybeScheduleCompaction(DeleteObsoleteFiles(OpenedState(s, o)))
  }

  function Apply(s: Db, a: Action): Db
    requires Enabled(s, a)
  {
    match a
    case Write(r) => DoWrite(s, r)
    case SwitchMemTable => DoSwitch(s)
    case WriteError => RecordBackgroundError(s)
    case ManualTurn(id) => DoManualTurn(s, id)
    case FlushTurn(id) => DoFlushTurn(s, id)
    case CloserTurn => DoCloserTurn(s)
    case StartJob(i, pick) => DoStartJob(s, i, pick)
    case Produce(i, n, content) => s.(disk := s.disk.(tables := s.disk.tables[n := content]))
    case FinishBuild(i, faults) => DoFinishBuild(s, i, faults)
    case InstallFlush(i) => DoInstallFlush(s, i)
    case OpenOutput(i) => DoOpenOutput(s, i)
    case FinishCompaction(i, ok) => DoFinishCompaction(s, i, ok)
    case Installed(i, ok, onDisk, needs) => DoInstalled(s, i, ok, onDisk, needs)
    case Crash(edited) =>
      Closed(s, if edited.Some? then s.disk.(manifest := s.jobs[edited.value].edit) else s.disk)
    case OpenInterrupted(tables, log) => Closed(s, InterruptedDisk(s.disk, tables, log))
    case OpenNotInstalled(o) => Closed(s, OpenedDisk(s.disk, o).(manifest := OpenedManifest(s.disk, o)))
    case Open(o) => DoOpen(s, o)
    case CollectionCut(logs, tables) =>
      Closed(s, s.disk.(logs := s.disk.logs - logs, tables := s.disk.tables - tables))
  }

  // ----- runs -----

  /** A database that has just been created by NewDB and not yet opened. */
  ghost predicate Init(s: Db) {
    s == Closed(s, Disk(map[], map[], Manifest({}, 0, 0, 2, 0))) && s.written == [] && !s.fault
  }

  ghost predicate CanRun(s: Db, run: seq<Action>)
    decreases |run|
  {
    run == [] || (Enabled(s, run[0]) && CanRun(Apply(s, run[0]), run[1..]))
  }

  ghost function RunFrom(s: Db, run: seq<Action>): Db
    requires CanRun(s, run)
    decreases |run|
  {
    if run == [] then s else RunFrom(Apply(s, run[0]), run[1..])
  }

  ghost predicate Reachable(s: Db) {
    exists s0, run :: Init(s0) && CanRun(s0, run) && RunFrom(s0, run) == s
  }
}
