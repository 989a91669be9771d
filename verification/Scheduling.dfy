/** What holds of background scheduling in every interleaving: one job at a time, no forgotten work, no waiter that
    nobody will wake, and exactly when the manual-compaction request can have gone away under a running job. */
module Scheduling {
  import opened Coding
  import opened WriteBatches
  import opened Database

  /** bg_compaction_scheduled_ says exactly whether a background job is outstanding, and there is at most one. */
  predicate OneJob(s: Db) { |s.jobs| == if s.bgScheduled then 1 else 0 }

  predicate NoLostWork(s: Db) {
    s.open && !s.shuttingDown && !s.bgError && HasWork(s) ==> s.bgScheduled
  }

  /** manual_compaction_ points at the request of a caller that is still waiting and has not been told it is done. */
  predicate RequestAlive(s: Db) {
    s.manual.Some? ==> s.manual.value in s.callers && !s.callers[s.manual.value]
  }

  /** While a job works on a manual request, manual_compaction_ still names it, or its caller has given up, which
      takes a shutdown or a background error. */
  predicate RequestKept(s: Db) {
    forall j :: j in s.jobs && JobRequest(j).Some? ==>
      || s.manual == JobRequest(j)
      || (s.manual.None? && JobRequest(j).value !in s.callers && (s.shuttingDown || s.bgError))
  }

  /** Whoever sleeps on bg_cv_ will be signalled by an outstanding job; the one exception is a caller waiting for
      the memtable while the database is being destroyed. */
  predicate SleepersWillWake(s: Db) {
    forall w :: w in s.asleep ==>
      match w
      case ManualCaller(id) => id in s.callers && s.bgScheduled
      case FlushCaller(_) => s.bgScheduled || s.shuttingDown
      case Closer => s.bgScheduled && s.shuttingDown
  }

  predicate SchedInv(s: Db) {
    && OneJob(s) && NoLostWork(s) && RequestAlive(s) && RequestKept(s) && SleepersWillWake(s)
    && (!s.open ==> s.jobs == [] && s.asleep == {} && s.manual.None? && s.callers == map[])
  }

  lemma OnlyJob(s: Db, i: nat)
    requires SchedInv(s) && i < |s.jobs|
    ensures i == 0 && s.jobs == [s.jobs[0]] && s.bgScheduled && s.open
    ensures s.jobs[..i] + s.jobs[i + 1..] == []
    ensures forall j :: s.jobs[i := j] == [j]
  {
  }

  lemma FinishJobKeeps(s: Db, i: nat)
    requires s.open && i < |s.jobs| && |s.jobs| == 1 && RequestAlive(s)
    ensures SchedInv(FinishJob(s, i))
    ensures FinishJob(s, i).asleep == {}
  {
    assert s.jobs[..i] + s.jobs[i + 1..] == [];
  }

  lemma EndCompactionKeeps(s: Db, i: nat, ok: bool)
    requires s.open && i < |s.jobs| && |s.jobs| == 1 && RequestAlive(s)
    requires s.jobs[i].Compacting? || s.jobs[i].CompactInstalling?
    ensures SchedInv(EndCompaction(s, i, ok))
  {
    var request := s.jobs[i].request;
    var t := DeleteObsoleteFiles(s.(pendingOutputs := s.pendingOutputs - s.jobs[i].outputs));
    if request.None? {
      FinishJobKeeps(t, i);
    } else if t.manual.Some? {
      FinishJobKeeps(t.(callers := if ok then t.callers else t.callers[t.manual.value := true], manual := None), i);
    }
  }

  lemma SwitchKeeps(s: Db)
    requires SchedInv(s) && s.open
    ensures SchedInv(DoSwitch(s))
  {
  }

  lemma ErrorKeeps(s: Db)
    requires SchedInv(s) && s.open
    ensures SchedInv(RecordBackgroundError(s))
  {
  }

  lemma ManualTurnKeeps(s: Db, id: nat)
    requires SchedInv(s) && s.open
    ensures SchedInv(DoManualTurn(s, id))
  {
    var t := DoManualTurn(s, id);
    if (id in s.callers && s.callers[id]) || s.shuttingDown || s.bgError {
      assert t.jobs == s.jobs;
    } else {
      assert forall j :: j in t.jobs ==> j in s.jobs || j == Queued;
    }
  }

  lemma WaitTurnsKeep(s: Db, id: nat)
    requires SchedInv(s) && s.open
    ensures SchedInv(DoFlushTurn(s, id)) && SchedInv(DoCloserTurn(s))
  {
  }

  lemma StartJobKeeps(s: Db, i: nat, pick: Pick)
    requires SchedInv(s) && Enabled(s, StartJob(i, pick))
    ensures SchedInv(DoStartJob(s, i, pick))
  {
    OnlyJob(s, i);
    if s.shuttingDown || s.bgError {
      FinishJobKeeps(s, i);
    } else if s.imm.None? {
      if s.manual.Some? {
        if !pick.PickInputs? {
          FinishJobKeeps(s.(callers := s.callers[s.manual.value := true], manual := None), i);
        }
      } else if pick.PickNothing? {
        FinishJobKeeps(s, i);
      }
    }
  }

  lemma PhaseChangeKeeps(s: Db, t: Db, i: nat, job: Job)
    requires SchedInv(s) && s.open && i < |s.jobs| && JobRequest(job) == JobRequest(s.jobs[i])
    requires t == SetJob(s, i, job).(disk := t.disk, versions := t.versions, pendingOutputs := t.pendingOutputs)
    ensures SchedInv(t)
  {
    OnlyJob(s, i);
    assert s.jobs[i] in s.jobs && t.jobs == [job];
  }

  lemma InstallFlushKeeps(s: Db, i: nat)
    requires SchedInv(s) && Enabled(s, InstallFlush(i))
    ensures SchedInv(DoInstallFlush(s, i))
  {
    OnlyJob(s, i);
    var t := DoInstallFlush(s, i);
    if !s.jobs[i].ok || s.shuttingDown {
      FinishJobKeeps(RecordBackgroundError(s.(pendingOutputs := s.pendingOutputs - {s.jobs[i].number})), i);
    } else {
      PhaseChangeKeeps(s, t, i, t.jobs[i]);
    }
  }

  lemma FinishCompactionKeeps(s: Db, i: nat, ok: bool)
    requires SchedInv(s) && Enabled(s, FinishCompaction(i, ok))
    ensures SchedInv(DoFinishCompaction(s, i, ok))
  {
    OnlyJob(s, i);
    var t := DoFinishCompaction(s, i, ok);
    if ok {
      PhaseChangeKeeps(s, t, i, t.jobs[i]);
    } else {
      EndCompactionKeeps(RecordBackgroundError(s), i, false);
    }
  }

  lemma InstalledKeeps(s: Db, i: nat, ok: bool, onDisk: bool, needs: bool)
    requires SchedInv(s) && Enabled(s, Installed(i, ok, onDisk, needs))
    ensures SchedInv(DoInstalled(s, i, ok, onDisk, needs))
  {
    hide DeleteObsoleteFiles, FinishJob, EndCompaction, Applied, NotApplied, Merges, OpeningOk, Accepts;
    OnlyJob(s, i);
    var j := s.jobs[i];
    var t := if ok then Applied(s, j.edit, needs) else NotApplied(s, j.edit, onDisk);
    match j
    case FlushInstalling(_, _) => FinishJobKeeps(if ok then DeleteObsoleteFiles(t.(imm := None)) else t, i);
    case CompactInstalling(_, _, _) => EndCompactionKeeps(t, i, ok);
    case MoveInstalling(_) => FinishJobKeeps(t, i);
  }

  lemma WriteKeepsScheduling(s: Db, r: Bytes)
    requires SchedInv(s) && s.open
    ensures SchedInv(DoWrite(s, r))
  {
    hide RecordEntries;
  }

  lemma ClosedIsScheduled(s: Db, disk: Disk)
    ensures SchedInv(Closed(s, disk))
  {
  }

  lemma OpenKeeps(s: Db, o: Opening)
    requires SchedInv(s)
    ensures SchedInv(DoOpen(s, o))
  {
    hide CollectedDisk, OpenedDisk, OpenedManifest;
  }

  lemma ProduceKeeps(s: Db, disk: Disk)
    requires SchedInv(s)
    ensures SchedInv(s.(disk := disk))
  {
  }

  /** Steps of the outstanding job, and the other steps of the running database. */
  predicate IsJobStep(a: Action) {
    a.StartJob? || a.FinishBuild? || a.InstallFlush? || a.OpenOutput? || a.FinishCompaction? || a.Installed?
  }

  predicate IsClientStep(a: Action) {
    a.Write? || a.SwitchMemTable? || a.WriteError? || a.ManualTurn? || a.FlushTurn? || a.CloserTurn?
  }

  lemma JobStepKeeps(s: Db, a: Action)
    requires SchedInv(s) && Enabled(s, a) && IsJobStep(a)
    ensures SchedInv(Apply(s, a))
  {
    hide SchedInv, Merges, DoStartJob, DoInstallFlush, DoFinishCompaction, DoInstalled;
    match a
    case StartJob(i, pick) => StartJobKeeps(s, i, pick);
    case FinishBuild(i, _) => PhaseChangeKeeps(s, Apply(s, a), i, Apply(s, a).jobs[i]);
    case InstallFlush(i) => InstallFlushKeeps(s, i);
    case OpenOutput(i) => PhaseChangeKeeps(s, Apply(s, a), i, Apply(s, a).jobs[i]);
    case FinishCompaction(i, ok) => FinishCompactionKeeps(s, i, ok);
    case Installed(i, ok, onDisk, needs) => InstalledKeeps(s, i, ok, onDisk, needs);
  }

  lemma ClientStepKeeps(s: Db, a: Action)
    requires SchedInv(s) && Enabled(s, a) && IsClientStep(a)
    ensures SchedInv(Apply(s, a))
  {
    hide SchedInv, Accepts, DoWrite, DoSwitch, DoManualTurn;
    match a
    case Write(r) => WriteKeepsScheduling(s, r);
    case SwitchMemTable => SwitchKeeps(s);
    case WriteError => ErrorKeeps(s);
    case ManualTurn(id) => ManualTurnKeeps(s, id);
    case FlushTurn(id) => WaitTurnsKeep(s, id);
    case CloserTurn => WaitTurnsKeep(s, 0);
  }

  lemma StepKeepsScheduling(s: Db, a: Action)
    requires SchedInv(s) && Enabled(s, a)
    ensures SchedInv(Apply(s, a))
  {
    hide SchedInv, Merges, OpeningOk, Accepts, Interrupts, Closed;
    hide DoWrite, DoSwitch, DoManualTurn, DoStartJob, DoInstallFlush, DoFinishCompaction, DoInstalled, DoOpen;
    match a
    case Produce(_, _, _) => ProduceKeeps(s, Apply(s, a).disk);
    case Crash(edited) =>
      ClosedIsScheduled(s, if edited.Some? then s.disk.(manifest := s.jobs[edited.value].edit) else s.disk);
    case OpenInterrupted(tables, log) => ClosedIsScheduled(s, InterruptedDisk(s.disk, tables, log));
    case OpenNotInstalled(o) =>
      ClosedIsScheduled(s, OpenedDisk(s.disk, o).(manifest := OpenedManifest(s.disk, o)));
    case Open(o) => OpenKeeps(s, o);
    case CollectionCut(logs, tables) =>
      ClosedIsScheduled(s, s.disk.(logs := s.disk.logs - logs, tables := s.disk.tables - tables));
    case _ =>
      if IsJobStep(a) { JobStepKeeps(s, a); } else { ClientStepKeeps(s, a); }
  }
}
