/** The state invariant that every action keeps, and what it says about every reachable state. */
module Invariants {
  import opened Coding
  import opened WriteBatches
  import opened Database
  import opened Durability
  import opened Recovery
  import opened TableBuilding
  import Scheduling

  function Imm(s: Db): seq<Entry> { if s.imm.Some? then s.imm.value else [] }

  /** The running state agrees with manifest `v`, should `v` be what a crash leaves on disk. */
  ghost predicate Fits(s: Db, v: Manifest, imm: seq<Entry>) {
    && Grounded(s.disk, v, s.written)
    && Accounted(s.disk, v, s.mem, imm, s.logfileNumber, s.written)
    && v.logNumber < v.nextFile <= s.versions.nextFile && v.lastSequence <= s.versions.lastSequence && v.prevLogNumber == 0
  }

  /** Log files carry positive numbers and records as the database writes them. */
  ghost predicate LogsOk(disk: Disk) {
    0 !in disk.logs && forall n, r :: n in disk.logs && r in disk.logs[n] ==> WellFormed(r)
  }

  /** File numbers a job has allocated and not yet installed or abandoned. */
  function Holds(job: Job): set<nat> {
    match job
    case Flushing(n) => {n}
    case Flushed(n, _) => {n}
    case Compacting(_, outputs, _) => outputs
    case CompactInstalling(outputs, _, _) => outputs
    case _ => {}
  }

  function Held(s: Db): set<nat> { if s.jobs == [] then {} else Holds(s.jobs[0]) }

  predicate Synced(s: Db) { SameFiles(s.versions, s.disk.manifest) }

  ghost predicate JobOk(s: Db, job: Job) {
    match job
    case Queued => true
    case Flushing(n) => s.imm.Some?
    case Flushed(n, ok) =>
      s.imm.Some? && (ok && s.imm.value != [] ==> n in s.disk.tables && s.disk.tables[n] == s.imm.value)
    case FlushInstalling(n, edit) =>
      && s.imm.Some? && Fits(s, edit, []) && n !in s.versions.live
      && (s.imm.value != [] ==> n in edit.live && n in s.disk.tables && s.disk.tables[n] == s.imm.value)
      && edit.logNumber == s.logfileNumber
    case Compacting(inputs, _, _) => inputs <= s.versions.live
    case CompactInstalling(_, _, edit) => Fits(s, edit, Imm(s))
    case MoveInstalling(edit) => Fits(s, edit, Imm(s))
  }

  /** Sequence numbers are handed out in strictly increasing order. */
  ghost predicate Increasing(written: seq<Entry>) {
    forall i, j :: 0 <= i < j < |written| ==> written[i].seqno < written[j].seqno
  }

  ghost predicate Core(s: Db) {
    && s.open
    && Fits(s, s.disk.manifest, Imm(s))
    && (forall n :: n in s.disk.logs ==> n < s.versions.nextFile)
    && s.logfileNumber < s.versions.nextFile && s.versions.prevLogNumber == 0
    && (forall e :: e in Imm(s) ==> e in s.written)
    && Increasing(s.written)
    && (forall e :: e in s.written ==> e.seqno <= s.versions.lastSequence)
    && LogsOk(s.disk)
  }

  ghost predicate Running(s: Db) {
    && Core(s)
    && |s.jobs| <= 1
    && s.pendingOutputs == Held(s)
    && (forall n :: n in Held(s) ==> n < s.versions.nextFile && n !in s.disk.manifest.live)
    && (!s.bgError || (s.jobs != [] && !s.jobs[0].Queued?) ==> Synced(s))
    && (s.jobs != [] ==> JobOk(s, s.jobs[0]))
  }

  ghost predicate AtRest(s: Db) {
    && Grounded(s.disk, s.disk.manifest, s.written)
    && Survives(s.disk, s.disk.manifest, s.written)
    && s.disk.manifest.prevLogNumber == 0 && s.disk.manifest.logNumber < s.disk.manifest.nextFile
    && Increasing(s.written)
    && LogsOk(s.disk)
  }

  ghost predicate Inv(s: Db) {
    && Scheduling.SchedInv(s)
    && if s.open then Running(s) else AtRest(s)
  }

  // ----- pieces shared by several actions -----

  lemma StoppedIsAtRest(s: Db, v: Manifest, imm: seq<Entry>)
    requires Fits(s, v, imm) && Increasing(s.written) && LogsOk(s.disk)
    ensures AtRest(Closed(s, s.disk.(manifest := v)))
  {
    var rest := Closed(s, s.disk.(manifest := v));
    hide LogEntries;
    AccountedSurvives(s.disk, v, s.mem, imm, s.logfileNumber, s.written);
  }

  lemma StopKeeps(s: Db)
    requires Core(s)
    ensures AtRest(Closed(s, s.disk))
  {
    StoppedIsAtRest(s, s.disk.manifest, Imm(s));
    assert s.disk.(manifest := s.disk.manifest) == s.disk;
  }

  /** Keeping the flushed memtable around does no harm. */
  lemma ImmMayStay(s: Db, v: Manifest)
    requires Fits(s, v, []) && forall e :: e in Imm(s) ==> e in s.written
    ensures Fits(s, v, Imm(s))
  {
    forall e | e in s.mem ensures InKeptLog(s.disk.logs, v, e) {
      assert KeepsLog(v, s.logfileNumber) && e in LogEntries(s.disk.logs[s.logfileNumber]);
    }
  }

  /** Only these fields matter to Fits. */
  lemma FitsSame(s: Db, t: Db, v: Manifest, imm: seq<Entry>)
    requires Fits(s, v, imm)
    requires t.disk.logs == s.disk.logs && t.disk.tables == s.disk.tables && t.written == s.written && t.mem == s.mem
    requires t.logfileNumber == s.logfileNumber
    requires t.versions.nextFile >= s.versions.nextFile && t.versions.lastSequence >= s.versions.lastSequence
    ensures Fits(t, v, imm)
  {
    hide Covered, InKeptLog, LogEntries;
  }

  lemma FinishJobKeeps(s: Db, i: nat)
    requires Core(s) && i < |s.jobs| && |s.jobs| == 1
    requires s.pendingOutputs == {} && (!s.bgError ==> Synced(s))
    ensures Running(FinishJob(s, i)) && FinishJob(s, i).open
  {
    var t := FinishJob(s, i);
    assert s.jobs[..i] + s.jobs[i + 1..] == [];
    FitsSame(s, t, s.disk.manifest, Imm(s));
    assert t.jobs == [] || t.jobs == [Queued];
  }

  lemma CollectKeeps(s: Db)
    requires Core(s) && (!s.bgError ==> Synced(s))
    ensures Core(DeleteObsoleteFiles(s))
  {
    if !s.bgError {
      hide Grounded, Accounted, LogEntries;
      CollectionKeeps(s.disk, s.disk.manifest, s.versions, s.pendingOutputs, s.mem, Imm(s), s.logfileNumber, s.written);
    }
  }

  lemma RewriteTableKeeps(s: Db, t: Db, v: Manifest, imm: seq<Entry>, n: nat)
    requires Fits(s, v, imm) && n !in v.live
    requires t == s.(disk := t.disk, jobs := t.jobs) && t.disk == s.disk.(tables := t.disk.tables)
    requires forall m :: m != n && m in s.disk.tables ==> m in t.disk.tables && t.disk.tables[m] == s.disk.tables[m]
    ensures Fits(t, v, imm)
  {
    TablesMayChange(s.disk, v, s.mem, imm, s.logfileNumber, s.written, t.disk.tables);
  }

  // ----- client actions -----

  lemma FreshNumbers(r: Bytes, last: nat)
    requires Accepts(r) && Sequence(r) == last + 1 && last + Count(r) < TWO_64
    ensures forall i :: 0 <= i < |RecordEntries(r)| ==> RecordEntries(r)[i].seqno == last + 1 + i
  {
    hide *;
    AcceptedCount(r);
    RecordNumbers(r);
  }

  lemma IncreasingConcat(a: seq<Entry>, b: seq<Entry>, last: nat)
    requires Increasing(a) && forall e :: e in a ==> e.seqno <= last
    requires forall i :: 0 <= i < |b| ==> b[i].seqno == last + 1 + i
    ensures Increasing(a + b)
    ensures forall e :: e in a + b ==> e.seqno <= last + |b|
  {
    var all := a + b;
    forall i, j | 0 <= i < j < |all| ensures all[i].seqno < all[j].seqno {
      if i < |a| { assert all[i] in a; }
    }
  }

  lemma WriteFits(s: Db, r: Bytes, v: Manifest, imm: seq<Entry>)
    requires Fits(s, v, imm)
    ensures Fits(DoWrite(s, r), v, imm)
  {
    WriteKeeps(s.disk, v, s.mem, imm, s.logfileNumber, s.written, r);
  }

  lemma WriteCore(s: Db, r: Bytes)
    requires Core(s) && Enabled(s, Write(r))
    ensures Core(DoWrite(s, r))
  {
    hide RecordEntries, Increasing, IterateStatus, Sequence, Count, Grounded, LogEntries, Covered, InKeptLog;
    FreshNumbers(r, s.versions.lastSequence);
    IncreasingConcat(s.written, RecordEntries(r), s.versions.lastSequence);
    assert s.logfileNumber in s.disk.logs;
    WriteFits(s, r, s.disk.manifest, Imm(s));
    hide Fits;
  }

  lemma WriteInv(s: Db, r: Bytes)
    requires Running(s) && Enabled(s, Write(r))
    ensures Running(DoWrite(s, r))
  {
    hide Core, Fits, RecordEntries, Accepts, Sequence, Count;
    assert Core(s);
    WriteCore(s, r);
    if s.jobs != [] {
      match s.jobs[0]
      case FlushInstalling(_, edit) => WriteFits(s, r, edit, []);
      case CompactInstalling(_, _, edit) => WriteFits(s, r, edit, Imm(s));
      case MoveInstalling(edit) => WriteFits(s, r, edit, Imm(s));
      case _ =>
    }
  }

  lemma SwitchFits(s: Db, v: Manifest)
    requires Fits(s, v, []) && s.logfileNumber < s.versions.nextFile && s.versions.nextFile !in s.disk.logs
    ensures Fits(DoSwitch(s), v, s.mem)
  {
    var n, t := s.versions.nextFile, DoSwitch(s);
    assert v.logNumber <= n;
    SwitchKeeps(s.disk, v, s.mem, s.logfileNumber, s.written, n);
  }

  lemma MemWasWritten(s: Db)
    requires Core(s)
    ensures forall e :: e in s.mem ==> e in s.written
  {
    assert KeepsLog(s.disk.manifest, s.logfileNumber);
  }

  lemma SwitchInv(s: Db)
    requires Running(s) && s.imm.None? && Scheduling.SchedInv(s)
    ensures Running(DoSwitch(s))
  {
    var t := DoSwitch(s);
    MemWasWritten(s);
    hide Grounded, Accounted, Increasing;
    SwitchFits(s, s.disk.manifest);
    if s.jobs != [] {
      assert t.jobs == s.jobs;
      match s.jobs[0]
      case CompactInstalling(_, _, edit) => SwitchFits(s, edit);
      case MoveInstalling(edit) => SwitchFits(s, edit);
      case _ =>
    }
  }

  // ----- the background job -----

  lemma CoreGrows(s: Db, t: Db)
    requires Core(s)
    requires t == s.(versions := s.versions.(nextFile := t.versions.nextFile), jobs := t.jobs,
                     pendingOutputs := t.pendingOutputs, bgError := t.bgError, asleep := t.asleep,
                     callers := t.callers, manual := t.manual, bgScheduled := t.bgScheduled,
                     shuttingDown := t.shuttingDown)
    requires t.versions.nextFile >= s.versions.nextFile
    ensures Core(t)
  {
    hide Grounded, Accounted;
    FitsSame(s, t, s.disk.manifest, Imm(s));
  }

  lemma FreshIsNotLive(s: Db)
    requires Core(s)
    ensures s.versions.nextFile !in s.disk.manifest.live
  {
  }

  lemma StartJobInv(s: Db, i: nat, pick: Pick)
    requires Inv(s) && Enabled(s, StartJob(i, pick))
    ensures Running(DoStartJob(s, i, pick))
  {
    Scheduling.OnlyJob(s, i);
    var n, t := s.versions.nextFile, DoStartJob(s, i, pick);
    FreshIsNotLive(s);
    hide Fits, Increasing;
    if s.shuttingDown || s.bgError {
      FinishJobKeeps(s, i);
    } else if s.imm.Some? {
      CoreGrows(s, t);
    } else if s.manual.Some? {
      if pick.PickInputs? {
        CoreGrows(s, t);
      } else {
        var u := s.(callers := s.callers[s.manual.value := true], manual := None);
        CoreGrows(s, u);
        FinishJobKeeps(u, i);
      }
    } else if pick.PickNothing? {
      FinishJobKeeps(s, i);
    } else {
      CoreGrows(s, t);
      if pick.PickMove? { MoveEdit(s, t); }
    }
  }

  lemma MoveEdit(s: Db, t: Db)
    requires Core(s) && Synced(s) && t == s.(jobs := t.jobs)
    ensures Fits(t, s.versions, Imm(t))
  {
    hide LogEntries;
    CountersMayGrow(s.disk, s.disk.manifest, s.versions, s.mem, Imm(s), s.logfileNumber, s.written);
  }

  lemma ProduceInv(s: Db, i: nat, n: nat, content: seq<Entry>)
    requires Inv(s) && Enabled(s, Produce(i, n, content))
    ensures Running(s.(disk := s.disk.(tables := s.disk.tables[n := content])))
  {
    Scheduling.OnlyJob(s, i);
    assert n in Held(s);
    var t := s.(disk := s.disk.(tables := s.disk.tables[n := content]));
    RewriteTableKeeps(s, t, s.disk.manifest, Imm(s), n);
    hide Fits, Increasing;
    assert Core(t);
  }

  lemma FinishBuildInv(s: Db, i: nat, faults: Faults)
    requires Inv(s) && Enabled(s, FinishBuild(i, faults))
    ensures Running(DoFinishBuild(s, i, faults))
  {
    Scheduling.OnlyJob(s, i);
    var n, t := s.jobs[i].number, DoFinishBuild(s, i, faults);
    assert n in Held(s);
    RewriteTableKeeps(s, t, s.disk.manifest, Imm(s), n);
    hide Fits, Increasing;
    assert Core(t);
  }

  /** The edit of a memtable compaction fits without the memtable it replaces. */
  lemma FlushEdit(s: Db, t: Db, n: nat, edit: Manifest)
    requires Core(s) && Synced(s) && s.imm.Some? && n < s.versions.nextFile
    requires s.imm.value != [] ==> n in s.disk.tables && s.disk.tables[n] == s.imm.value
    requires edit == s.versions.(live := s.versions.live + (if s.imm.value == [] then {} else {n}),
                                 logNumber := s.logfileNumber, prevLogNumber := 0)
    requires t == s.(jobs := t.jobs, pendingOutputs := t.pendingOutputs)
    ensures Fits(t, edit, [])
  {
    hide LogEntries;
    CountersMayGrow(s.disk, s.disk.manifest, s.versions, s.mem, Imm(s), s.logfileNumber, s.written);
    FlushEditKeeps(s.disk, s.versions, s.mem, Imm(s), s.logfileNumber, s.written, n);
  }

  lemma InstallFlushInv(s: Db, i: nat)
    requires Inv(s) && Enabled(s, InstallFlush(i))
    ensures Running(DoInstallFlush(s, i))
  {
    Scheduling.OnlyJob(s, i);
    var n, t := s.jobs[i].number, DoInstallFlush(s, i);
    assert n in Held(s);
    var u := s.(pendingOutputs := s.pendingOutputs - {n});
    if !s.jobs[i].ok || s.shuttingDown {
      CoreGrows(s, RecordBackgroundError(u));
      FinishJobKeeps(RecordBackgroundError(u), i);
    } else {
      FlushEdit(s, t, n, t.jobs[i].edit);
      CoreGrows(s, t);
      hide Fits, Increasing;
    }
  }

  lemma OpenOutputInv(s: Db, i: nat)
    requires Inv(s) && Enabled(s, OpenOutput(i))
    ensures Running(DoOpenOutput(s, i))
  {
    Scheduling.OnlyJob(s, i);
    FreshIsNotLive(s);
    CoreGrows(s, DoOpenOutput(s, i));
    hide Core, Fits;
  }

  lemma OpenCoreOnly(s: Db)
    requires Core(s)
    ensures s.open
  {
  }

  lemma EndCompactionInv(s: Db, i: nat, ok: bool)
    requires Core(s) && i < |s.jobs| && |s.jobs| == 1
    requires s.jobs[i].Compacting? || s.jobs[i].CompactInstalling?
    requires s.pendingOutputs == s.jobs[i].outputs && (!s.bgError ==> Synced(s))
    ensures var t := EndCompaction(s, i, ok); if t.open then Running(t) else AtRest(t)
  {
    hide Core, DeleteObsoleteFiles, FinishJob, Running, Survives, Grounded, LogsOk, Increasing;
    OpenCoreOnly(s);
    var request := s.jobs[i].request;
    var u := s.(pendingOutputs := s.pendingOutputs - s.jobs[i].outputs);
    CoreGrows(s, u);
    CollectKeeps(u);
    var t := DeleteObsoleteFiles(u);
    if request.None? {
      FinishJobKeeps(t, i);
    } else if t.manual.None? {
      StopKeeps(t);
    } else {
      var w := t.(callers := if ok then t.callers else t.callers[t.manual.value := true], manual := None);
      CoreGrows(t, w);
      FinishJobKeeps(w, i);
    }
  }

  lemma CompactEdit(s: Db, t: Db, edit: Manifest, inputs: set<nat>, outputs: set<nat>)
    requires Core(s) && Synced(s) && inputs <= s.versions.live && Merges(s.disk.tables, inputs, outputs)
    requires forall n :: n in outputs ==> n < s.versions.nextFile
    requires edit == s.versions.(live := s.versions.live - inputs + outputs)
    requires t == s.(jobs := t.jobs)
    ensures Fits(t, edit, Imm(t))
  {
    hide LogEntries;
    CountersMayGrow(s.disk, s.disk.manifest, s.versions, s.mem, Imm(s), s.logfileNumber, s.written);
    CompactEditKeeps(s.disk, s.versions, s.mem, Imm(s), s.logfileNumber, s.written, inputs, outputs);
  }

  lemma FinishCompactionInv(s: Db, i: nat, ok: bool)
    requires Inv(s) && Enabled(s, FinishCompaction(i, ok))
    ensures var t := DoFinishCompaction(s, i, ok); if t.open then Running(t) else AtRest(t)
  {
    Scheduling.OnlyJob(s, i);
    var j, t := s.jobs[i], DoFinishCompaction(s, i, ok);
    if ok {
      CompactEdit(s, t, t.jobs[i].edit, j.inputs, j.outputs);
      CoreGrows(s, t);
      hide Core, Fits, Merges;
    } else {
      CoreGrows(s, RecordBackgroundError(s));
      EndCompactionInv(RecordBackgroundError(s), i, false);
    }
  }

  // ----- LogAndApply's second half -----

  lemma AppliedCore(s: Db, edit: Manifest, needs: bool, imm: Option<seq<Entry>>)
    requires Core(s) && Fits(s, edit, if imm.Some? then imm.value else [])
    requires imm.Some? ==> imm == s.imm
    ensures Core(Applied(s, edit, needs).(imm := imm)) && Synced(Applied(s, edit, needs))
  {
    var t := Applied(s, edit, needs).(imm := imm);
    FitsSame(s, t, edit, if imm.Some? then imm.value else []);
  }

  lemma NotAppliedCore(s: Db, edit: Manifest, onDisk: bool)
    requires Core(s) && Fits(s, edit, Imm(s))
    ensures Core(NotApplied(s, edit, onDisk))
  {
    var t := NotApplied(s, edit, onDisk);
    FitsSame(s, t, edit, Imm(s));
    FitsSame(s, t, s.disk.manifest, Imm(s));
  }

  lemma FlushInstalledInv(s: Db, i: nat, ok: bool, onDisk: bool, needs: bool)
    requires Inv(s) && Enabled(s, Installed(i, ok, onDisk, needs)) && s.jobs[i].FlushInstalling?
    ensures Running(DoInstalled(s, i, ok, onDisk, needs))
  {
    Scheduling.OnlyJob(s, i);
    var edit := s.jobs[i].edit;
    ImmMayStay(s, edit);
    if ok {
      var t := Applied(s, edit, needs).(imm := None);
      AppliedCore(s, edit, needs, None);
      CollectKeeps(t);
      FinishJobKeeps(DeleteObsoleteFiles(t), i);
    } else {
      NotAppliedCore(s, edit, onDisk);
      FinishJobKeeps(NotApplied(s, edit, onDisk), i);
    }
  }

  lemma InstalledInv(s: Db, i: nat, ok: bool, onDisk: bool, needs: bool)
    requires Inv(s) && Enabled(s, Installed(i, ok, onDisk, needs))
    ensures var t := DoInstalled(s, i, ok, onDisk, needs); if t.open then Running(t) else AtRest(t)
  {
    hide FinishJob, EndCompaction, Grounded, Accounted, LogsOk, Increasing, Merges, OpeningOk, Accepts;
    Scheduling.OnlyJob(s, i);
    hide Scheduling.SchedInv;
    var j := s.jobs[i];
    if j.FlushInstalling? {
      FlushInstalledInv(s, i, ok, onDisk, needs);
    } else {
      var t := if ok then Applied(s, j.edit, needs) else NotApplied(s, j.edit, onDisk);
      if ok { AppliedCore(s, j.edit, needs, s.imm); } else { NotAppliedCore(s, j.edit, onDisk); }
      assert ok ==> t.(imm := s.imm) == t;
      hide Core, Fits;
      if j.CompactInstalling? { EndCompactionInv(t, i, ok); } else { FinishJobKeeps(t, i); }
    }
  }

  // ----- crash, reopen -----

  lemma CrashInv(s: Db, edited: Option<nat>)
    requires Inv(s) && Enabled(s, Crash(edited))
    ensures AtRest(Apply(s, Crash(edited)))
  {
    if edited.None? {
      StopKeeps(s);
    } else {
      Scheduling.OnlyJob(s, edited.value);
      var j := s.jobs[edited.value];
      StoppedIsAtRest(s, j.edit, if j.FlushInstalling? then [] else Imm(s));
    }
  }

  lemma OpenFits(s: Db, o: Opening)
    requires AtRest(s) && OpeningOk(s.disk, o)
    ensures var t := OpenedState(s, o);
            Fits(t, t.disk.manifest, []) && Synced(t) && LogsOk(t.disk)
  {
    var after := OpenedDisk(s.disk, o);
    OpenedDiskKeeps(s.disk, o, s.written);
    if o.save { OpenedSaved(s.disk, o, s.written); } else { OpenedUnsaved(s.disk, o, s.written); }
    ManifestApart(after, OpenedManifest(s.disk, o), OpenedManifest(s.disk, o), o.mem, [], o.log, s.written);
    OpenedLogsOk(s.disk, o);
    hide Grounded, Accounted, LogsOk, LogEntries, EntriesSound, Survives, Increasing;
  }

  lemma OpenedLogsOk(disk: Disk, o: Opening)
    requires LogsOk(disk) && OpeningOk(disk, o) && disk.manifest.logNumber < disk.manifest.nextFile
    ensures LogsOk(OpenedDisk(disk, o))
  {
    hide LogEntries, WellFormed, EntriesSound;
  }

  lemma OpenCore(s: Db, o: Opening)
    requires AtRest(s) && OpeningOk(s.disk, o)
    ensures Core(OpenedState(s, o)) && Synced(OpenedState(s, o))
  {
    OpenFits(s, o);
    RecoveredPastEverything(s, o);
    OpenLogs(s, o);
    hide Fits, LogsOk, OpeningOk, AtRest, OpenedDisk, Synced;
    assert Increasing(s.written) by { Ordered(s); }
  }

  lemma Ordered(s: Db)
    requires AtRest(s)
    ensures Increasing(s.written)
  {
  }

  lemma OpenLogs(s: Db, o: Opening)
    requires AtRest(s) && OpeningOk(s.disk, o)
    ensures var t := OpenedState(s, o);
            && (forall n :: n in t.disk.logs ==> n < t.versions.nextFile)
            && t.logfileNumber < t.versions.nextFile && t.versions.prevLogNumber == 0
  {
    hide LogEntries, Survives, Increasing, Grounded, LogsOk;
  }

  /** Recovery's sequence counter is past every entry ever written, so the next write gets a fresh number. */
  lemma RecoveredPastEverything(s: Db, o: Opening)
    requires AtRest(s) && OpeningOk(s.disk, o)
    ensures forall e :: e in s.written ==> e.seqno <= o.lastSequence
  {
    hide LogEntries, InKeptLog, Increasing, LogsOk;
    forall e | e in s.written ensures e.seqno <= o.lastSequence {
      assert Covered(s.disk.manifest.live, s.disk.tables, e) || Reached(s.disk, o, e);
    }
  }

  lemma OpenInv(s: Db, o: Opening)
    requires AtRest(s) && OpeningOk(s.disk, o)
    ensures Running(DoOpen(s, o))
  {
    OpenCore(s, o);
    CollectKeeps(OpenedState(s, o));
    var u := DeleteObsoleteFiles(OpenedState(s, o));
    FitsSame(u, DoOpen(s, o), u.disk.manifest, Imm(u));
    hide Fits;
  }

  /** Recovery cut short at any point, by a crash or by a call that fails. */
  lemma InterruptedInv(s: Db, tables: map<nat, seq<Entry>>, log: Option<nat>)
    requires AtRest(s) && Interrupts(s.disk, tables, log)
    ensures AtRest(Closed(s, InterruptedDisk(s.disk, tables, log)))
  {
    InterruptedKeeps(s.disk, tables, log, s.written);
    hide Grounded, Survives, Increasing, WellFormed;
  }

  lemma NotInstalledInv(s: Db, o: Opening)
    requires AtRest(s) && OpeningOk(s.disk, o) && o.save
    ensures AtRest(Closed(s, OpenedDisk(s.disk, o).(manifest := OpenedManifest(s.disk, o))))
  {
    var after, w := OpenedDisk(s.disk, o), OpenedManifest(s.disk, o);
    OpenedDiskKeeps(s.disk, o, s.written);
    OpenedSaved(s.disk, o, s.written);
    AccountedSurvives(after, w, o.mem, [], o.log, s.written);
    ManifestApart(after, w, w, o.mem, [], o.log, s.written);
    OpenedLogsOk(s.disk, o);
    hide Grounded, Accounted, Survives, LogsOk, LogEntries, EntriesSound, Increasing;
  }

  /** A collection cut short by a crash. */
  lemma CutInv(s: Db, logs: set<nat>, tables: set<nat>)
    requires AtRest(s) && Enabled(s, CollectionCut(logs, tables))
    ensures AtRest(Apply(s, CollectionCut(logs, tables)))
  {
    CutKeeps(s.disk, logs, tables, s.written);
    hide Grounded, Survives, Increasing, WellFormed;
  }

  // ----- every step, every run -----

  /** Scheduling and waiting touch nothing the durability invariant is about. */
  lemma SchedulingOnly(s: Db, t: Db)
    requires Running(s)
    requires t == s.(jobs := t.jobs, bgError := t.bgError, asleep := t.asleep, callers := t.callers,
                     manual := t.manual, bgScheduled := t.bgScheduled, shuttingDown := t.shuttingDown)
    requires t.jobs == s.jobs || (s.jobs == [] && t.jobs == [Queued])
    requires s.bgError ==> t.bgError
    ensures Running(t)
  {
    CoreGrows(s, t);
    if s.jobs != [] && JobOk(s, s.jobs[0]) {
      match s.jobs[0]
      case FlushInstalling(_, edit) => FitsSame(s, t, edit, []);
      case CompactInstalling(_, _, edit) => FitsSame(s, t, edit, Imm(s));
      case MoveInstalling(edit) => FitsSame(s, t, edit, Imm(s));
      case _ =>
    }
    hide Core, Fits;
  }

  lemma ManualTurnInv(s: Db, id: nat)
    requires Inv(s) && s.open
    ensures Running(DoManualTurn(s, id))
  {
    hide Running;
    SchedulingOnly(s, DoManualTurn(s, id));
  }

  lemma FlushTurnInv(s: Db, id: nat)
    requires Running(s)
    ensures Running(DoFlushTurn(s, id))
  {
    hide Running;
    SchedulingOnly(s, DoFlushTurn(s, id));
  }

  lemma ErrorInv(s: Db)
    requires Running(s)
    ensures Running(RecordBackgroundError(s))
  {
    hide Running;
    SchedulingOnly(s, RecordBackgroundError(s));
  }

  lemma CloserTurnInv(s: Db)
    requires Running(s)
    ensures var t := DoCloserTurn(s); if t.open then Running(t) else AtRest(t)
  {
    assert Core(s);
    hide Running, Core, AtRest;
    if s.bgScheduled {
      SchedulingOnly(s, DoCloserTurn(s));
    } else {
      StopKeeps(s);
    }
  }

  /** Where the database stands, running or not. */
  ghost predicate Stands(s: Db) { if s.open then Running(s) else AtRest(s) }

  predicate BeginsWork(a: Action) { a.StartJob? || a.Produce? || a.FinishBuild? }

  predicate EndsWork(a: Action) { a.InstallFlush? || a.OpenOutput? || a.FinishCompaction? || a.Installed? }

  lemma BeginStepStands(s: Db, a: Action)
    requires Inv(s) && Enabled(s, a) && BeginsWork(a)
    ensures Stands(Apply(s, a))
  {
    hide Scheduling.SchedInv, Running, AtRest, OpeningOk;
    match a
    case StartJob(i, pick) => StartJobInv(s, i, pick);
    case Produce(i, n, content) => ProduceInv(s, i, n, content);
    case FinishBuild(i, faults) => FinishBuildInv(s, i, faults);
  }

  lemma EndStepStands(s: Db, a: Action)
    requires Inv(s) && Enabled(s, a) && EndsWork(a)
    ensures Stands(Apply(s, a))
  {
    hide Scheduling.SchedInv, Running, AtRest, OpeningOk;
    match a
    case InstallFlush(i) => InstallFlushInv(s, i);
    case OpenOutput(i) => OpenOutputInv(s, i);
    case FinishCompaction(i, ok) => FinishCompactionInv(s, i, ok);
    case Installed(i, ok, onDisk, needs) => InstalledInv(s, i, ok, onDisk, needs);
  }

  lemma OtherStepStands(s: Db, a: Action)
    requires Inv(s) && Enabled(s, a) && !BeginsWork(a) && !EndsWork(a)
    ensures Stands(Apply(s, a))
  {
    hide Scheduling.SchedInv, Running, AtRest, OpeningOk;
    match a
    case Write(r) => WriteInv(s, r);
    case SwitchMemTable => SwitchInv(s);
    case WriteError => ErrorInv(s);
    case ManualTurn(id) => ManualTurnInv(s, id);
    case FlushTurn(id) => FlushTurnInv(s, id);
    case CloserTurn => CloserTurnInv(s);
    case Crash(edited) => CrashInv(s, edited);
    case OpenInterrupted(tables, log) => InterruptedInv(s, tables, log);
    case OpenNotInstalled(o) => NotInstalledInv(s, o);
    case Open(o) => OpenInv(s, o);
    case CollectionCut(logs, tables) => CutInv(s, logs, tables);
  }

  lemma StepKeepsInv(s: Db, a: Action)
    requires Inv(s) && Enabled(s, a)
    ensures Inv(Apply(s, a))
  {
    hide Scheduling.SchedInv, Running, AtRest, Enabled, Apply;
    Scheduling.StepKeepsScheduling(s, a);
    if BeginsWork(a) { BeginStepStands(s, a); } else if EndsWork(a) { EndStepStands(s, a); } else { OtherStepStands(s, a); }
  }

  lemma InitInv(s: Db)
    requires Init(s)
    ensures Inv(s)
  {
  }

  lemma {:induction false} RunKeepsInv(s: Db, run: seq<Action>)
    requires Inv(s) && CanRun(s, run)
    ensures Inv(RunFrom(s, run))
    decreases |run|
  {
    if run != [] {
      StepKeepsInv(s, run[0]);
      RunKeepsInv(Apply(s, run[0]), run[1..]);
    }
  }

  lemma ReachableInv(s: Db)
    requires Reachable(s)
    ensures Inv(s)
  {
    var s0, run :| Init(s0) && CanRun(s0, run) && RunFrom(s0, run) == s;
    InitInv(s0);
    RunKeepsInv(s0, run);
  }
}
