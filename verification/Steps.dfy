/** What single steps of the background thread and of callers do to the database, spelled out field by field where the
    invariants would leave a choice: when a request is done, what a job works on, what a flush and a compaction leave. */
module Steps {
  import opened Coding
  import opened WriteBatches
  import opened Database
  import opened Durability
  import opened Invariants
  import opened Guarantees
  import opened Recovery
  import Scheduling

  // ----- the done flag of a manual compaction -----

  predicate Waiting(s: Db, id: nat) { id in s.callers && !s.callers[id] }

  predicate Done(s: Db, id: nat) { id in s.callers && s.callers[id] }

  /** The step finds nothing to compact for the request of `id`. */
  predicate FindsNothing(s: Db, a: Action, id: nat) {
    && a.StartJob? && !s.shuttingDown && !s.bgError && s.imm.None? && s.manual == Some(id) && !a.pick.PickInputs?
  }

  /** The step ends a compaction for the request of `id`, which still stands, with a failure. */
  predicate FailsFor(s: Db, a: Action, id: nat) {
    && s.manual == Some(id)
    && ((a.FinishCompaction? && !a.ok && a.i < |s.jobs| && s.jobs[a.i].Compacting? && s.jobs[a.i].request == Some(id))
        || (a.Installed? && !a.ok && a.i < |s.jobs| && s.jobs[a.i].CompactInstalling? && s.jobs[a.i].request == Some(id)))
  }

  /** A waiting caller is told that its request is done exactly when a pass finds nothing to compact, or one fails; every
      other step, a successful pass among them, leaves it waiting if the caller and the database stay. */
  lemma DoneExactly(s: Db, a: Action, id: nat)
    requires Reachable(s) && Enabled(s, a) && s.open && Waiting(s, id)
    ensures var t := Apply(s, a);
            && (Done(t, id) <==> t.open && (FindsNothing(s, a, id) || FailsFor(s, a, id)))
            && (t.open && !Done(t, id) ==> Waiting(t, id) || (a == ManualTurn(id) && (s.shuttingDown || s.bgError)))
  {
    hide Reachable, Running, AtRest, FindsNothing, FailsFor, Enabled, Apply;
    ReachableInv(s);
    if Ends(a) { DoneByJob(s, a, id); } else { DoneByNobodyElse(s, a, id); }
  }

  predicate Ends(a: Action) { a.StartJob? || a.FinishCompaction? || a.Installed? }

  lemma DoneByJob(s: Db, a: Action, id: nat)
    requires Scheduling.SchedInv(s) && Enabled(s, a) && s.open && Waiting(s, id) && Ends(a)
    ensures var t := Apply(s, a);
            && (Done(t, id) <==> t.open && (FindsNothing(s, a, id) || FailsFor(s, a, id)))
            && (t.open && !Done(t, id) ==> Waiting(t, id))
  {
    hide Merges, DoStartJob, DoInstalled, DoFinishCompaction, Scheduling.SchedInv;
    match a
    case StartJob(i, pick) => StartTells(s, i, pick);
    case FinishCompaction(i, ok) => FinishTells(s, i, ok);
    case Installed(i, ok, onDisk, needs) => InstallTells(s, i, ok, onDisk, needs);
  }

  lemma DoneByNobodyElse(s: Db, a: Action, id: nat)
    requires Enabled(s, a) && s.open && Waiting(s, id) && !Ends(a)
    ensures var t := Apply(s, a);
            && !FindsNothing(s, a, id) && !FailsFor(s, a, id) && !Done(t, id)
            && (t.open ==> Waiting(t, id) || (a == ManualTurn(id) && (s.shuttingDown || s.bgError)))
  {
    hide Merges, Accepts, RecordEntries, DoManualTurn, DoInstallFlush, MaybeScheduleCompaction;
    if a.InstallFlush? { FlushTellsNobody(s, a.i); }
    if a.ManualTurn? {
      CallerLeavesExactly(s, a.id);
      if a.id != id { OtherCallersStay(s, a.id, id); }
    }
  }

  lemma ClosedTells(s: Db, disk: Disk)
    ensures !Closed(s, disk).open && Closed(s, disk).callers == map[] && Closed(s, disk).jobs == []
  {
  }

  lemma StartTells(s: Db, i: nat, pick: Pick)
    requires i < |s.jobs|
    ensures var t := DoStartJob(s, i, pick);
            && t.open == s.open
            && t.callers == if !s.shuttingDown && !s.bgError && s.imm.None? && s.manual.Some? && !pick.PickInputs?
                            then s.callers[s.manual.value := true] else s.callers
  {
    hide FinishJob;
  }

  lemma FlushTellsNobody(s: Db, i: nat)
    requires i < |s.jobs| && s.jobs[i].Flushed? && s.imm.Some?
    ensures DoInstallFlush(s, i).callers == s.callers && DoInstallFlush(s, i).open == s.open
  {
    hide FinishJob;
  }

  /** What the end of a compaction does to the requests. */
  lemma CompactionTells(s: Db, i: nat, ok: bool)
    requires i < |s.jobs| && (s.jobs[i].Compacting? || s.jobs[i].CompactInstalling?)
    ensures var t, request := EndCompaction(s, i, ok), s.jobs[i].request;
            && t.open == (s.open && (request.None? || s.manual.Some?))
            && (request.None? ==> t.callers == s.callers && t.manual == s.manual)
            && (request.Some? && s.manual.Some? ==>
                  t.manual.None? && t.callers == if ok then s.callers else s.callers[s.manual.value := true])
            && (request.Some? && s.manual.None? ==> t.callers == map[])
  {
    hide FinishJob, DeleteObsoleteFiles, MaybeScheduleCompaction, Closed;
    var u := DeleteObsoleteFiles(s.(pendingOutputs := s.pendingOutputs - s.jobs[i].outputs));
    ClosedTells(u.(fault := true), u.disk);
  }

  lemma FinishTells(s: Db, i: nat, ok: bool)
    requires Scheduling.SchedInv(s) && s.open && i < |s.jobs| && s.jobs[i].Compacting?
    ensures var t, request := DoFinishCompaction(s, i, ok), s.jobs[i].request;
            && (ok ==> t.open && t.callers == s.callers)
            && (!ok && t.open ==>
                  t.callers == if request.Some? && s.manual == request then s.callers[request.value := true] else s.callers)
            && (!t.open ==> t.callers == map[])
  {
    Scheduling.OnlyJob(s, i);
    assert s.jobs[i] in s.jobs;
    hide EndCompaction;
    CompactionTells(RecordBackgroundError(s), i, false);
  }

  lemma InstallTells(s: Db, i: nat, ok: bool, onDisk: bool, needs: bool)
    requires Scheduling.SchedInv(s) && s.open && i < |s.jobs|
    requires s.jobs[i].FlushInstalling? || s.jobs[i].CompactInstalling? || s.jobs[i].MoveInstalling?
    ensures var t, j := DoInstalled(s, i, ok, onDisk, needs), s.jobs[i];
            var told := !ok && j.CompactInstalling? && j.request.Some? && s.manual == j.request;
            && (t.open ==> t.callers == if told then s.callers[j.request.value := true] else s.callers)
            && (!t.open ==> t.callers == map[])
            && (t.open && j.CompactInstalling? && j.request.Some? ==> t.manual.None?)
  {
    Scheduling.OnlyJob(s, i);
    assert s.jobs[i] in s.jobs;
    hide EndCompaction, FinishJob, DeleteObsoleteFiles, Applied, NotApplied, Scheduling.OneJob;
    var j := s.jobs[i];
    var t := if ok then Applied(s, j.edit, needs) else NotApplied(s, j.edit, onDisk);
    if j.CompactInstalling? {
      CompactionTells(t, i, ok);
    }
  }

  /** A pass that goes well leaves its caller waiting, with the request free to be made again for the rest. */
  lemma PassGoesOn(s: Db, a: Action, id: nat)
    requires Reachable(s) && Enabled(s, a) && a.Installed? && a.ok && Waiting(s, id)
    requires s.jobs[a.i].CompactInstalling? && s.jobs[a.i].request == Some(id)
    ensures var t := Apply(s, a); t.open ==> Waiting(t, id) && t.manual.None?
  {
    hide Reachable, Running, AtRest, DoInstalled;
    ReachableInv(s);
    InstallTells(s, a.i, true, a.onDisk, a.needs);
  }

  /** A caller's turn ends its call if and only if its flag, a shutdown or an error is set; otherwise it sleeps, with a
      request standing, its own if there was none. */
  lemma CallerLeavesExactly(s: Db, id: nat)
    ensures var t := DoManualTurn(s, id);
            && (id !in t.callers <==> Done(s, id) || s.shuttingDown || s.bgError)
            && (id in t.callers ==> Waiting(t, id) && ManualCaller(id) in t.asleep)
            && (id in t.callers ==> t.manual == if s.manual.None? then Some(id) else s.manual)
            && (id !in t.callers ==> t.manual != Some(id) && ManualCaller(id) !in t.asleep)
  {
    hide MaybeScheduleCompaction;
    var t := DoManualTurn(s, id);
    if Done(s, id) || s.shuttingDown || s.bgError {
      assert t.callers == s.callers - {id};
    } else {
      assert t.callers == s.callers[id := false];
    }
  }

  /** It changes nobody else's flag. */
  lemma OtherCallersStay(s: Db, id: nat, other: nat)
    requires other != id
    ensures var t := DoManualTurn(s, id);
            && (Done(t, other) <==> Done(s, other)) && (Waiting(t, other) <==> Waiting(s, other))
  {
    hide MaybeScheduleCompaction;
  }

  // ----- jobs -----

  /** A job is only ever scheduled for work that is there, in a database that is neither closing nor broken. */
  lemma ScheduledForWork(s: Db, a: Action)
    requires Reachable(s) && Enabled(s, a)
    ensures var t := Apply(s, a);
            t.jobs == [Queued] && s.jobs != [Queued] ==>
              !t.shuttingDown && !t.bgError && (t.imm.Some? || t.manual.Some? || t.needsCompaction)
  {
    hide Reachable, Merges, OpeningOk, Accepts, RecordEntries, Running, AtRest, DoStartJob, DoInstalled;
    hide DoFinishCompaction, DoInstallFlush, FinishJob, CollectedDisk;
    ReachableInv(s);
    if s.open && s.jobs != [] { Scheduling.OnlyJob(s, 0); }
    if a.StartJob? { StartSchedules(s, a.i, a.pick); }
    if a.InstallFlush? { FlushSchedules(s, a.i); }
    if a.FinishCompaction? { FinishSchedules(s, a.i, a.ok); }
    if a.Installed? { InstallSchedules(s, a.i, a.ok, a.onDisk, a.needs); }
  }

  predicate HasReason(t: Db) {
    t.jobs != [] && t.jobs[0].Queued? ==>
      !t.shuttingDown && !t.bgError && (t.imm.Some? || t.manual.Some? || t.needsCompaction)
  }

  lemma EndSchedules(s: Db, i: nat)
    requires |s.jobs| == 1 && i == 0
    ensures HasReason(FinishJob(s, i))
  {
    assert s.jobs[..i] + s.jobs[i + 1..] == [];
  }

  lemma StartSchedules(s: Db, i: nat, pick: Pick)
    requires |s.jobs| == 1 && i == 0
    ensures HasReason(DoStartJob(s, i, pick))
  {
    hide FinishJob;
    EndSchedules(s, i);
    if s.manual.Some? { EndSchedules(s.(callers := s.callers[s.manual.value := true], manual := None), i); }
  }

  lemma FlushSchedules(s: Db, i: nat)
    requires |s.jobs| == 1 && i == 0 && s.jobs[i].Flushed? && s.imm.Some?
    ensures HasReason(DoInstallFlush(s, i))
  {
    hide FinishJob;
    EndSchedules(RecordBackgroundError(s.(pendingOutputs := s.pendingOutputs - {s.jobs[i].number})), i);
  }

  lemma CompactionSchedules(s: Db, i: nat, ok: bool)
    requires |s.jobs| == 1 && i == 0 && (s.jobs[i].Compacting? || s.jobs[i].CompactInstalling?)
    ensures HasReason(EndCompaction(s, i, ok))
  {
    hide FinishJob, DeleteObsoleteFiles, Closed;
    var u := DeleteObsoleteFiles(s.(pendingOutputs := s.pendingOutputs - s.jobs[i].outputs));
    ClosedTells(u.(fault := true), u.disk);
    EndSchedules(u, i);
    if u.manual.Some? {
      EndSchedules(u.(callers := if ok then u.callers else u.callers[u.manual.value := true], manual := None), i);
    }
  }

  lemma FinishSchedules(s: Db, i: nat, ok: bool)
    requires |s.jobs| == 1 && i == 0 && s.jobs[i].Compacting?
    ensures HasReason(DoFinishCompaction(s, i, ok))
  {
    hide EndCompaction;
    CompactionSchedules(RecordBackgroundError(s), i, false);
  }

  lemma InstallSchedules(s: Db, i: nat, ok: bool, onDisk: bool, needs: bool)
    requires |s.jobs| == 1 && i == 0
    requires s.jobs[i].FlushInstalling? || s.jobs[i].CompactInstalling? || s.jobs[i].MoveInstalling?
    ensures HasReason(DoInstalled(s, i, ok, onDisk, needs))
  {
    hide EndCompaction, FinishJob, DeleteObsoleteFiles, Applied, NotApplied, HasReason;
    var j := s.jobs[i];
    var t := if ok then Applied(s, j.edit, needs) else NotApplied(s, j.edit, onDisk);
    if j.CompactInstalling? {
      CompactionSchedules(t, i, ok);
    } else {
      EndSchedules(if j.FlushInstalling? && ok then DeleteObsoleteFiles(t.(imm := None)) else t, i);
    }
  }

  /** What a job sets out to do: nothing in a closing or broken database; the immutable memtable before anything else,
      into a file with a fresh and protected number; then the manual request; then what the version picks. */
  lemma WorkIsChosen(s: Db, i: nat, pick: Pick)
    requires Reachable(s) && Enabled(s, StartJob(i, pick))
    ensures var t, n := Apply(s, StartJob(i, pick)), s.versions.nextFile;
            && (s.shuttingDown || s.bgError ==> t.jobs == [] && !t.bgScheduled)
            && (!s.shuttingDown && !s.bgError && s.imm.Some? ==>
                  && t.jobs == [Flushing(n)] && n in t.pendingOutputs && n !in s.pendingOutputs
                  && n !in s.versions.live && t.versions.nextFile == n + 1 && t.manual == s.manual)
            && (!s.shuttingDown && !s.bgError && s.imm.None? && s.manual.Some? && pick.PickInputs? ==>
                  t.jobs == [Compacting(pick.inputs, {}, s.manual)])
            && (!s.shuttingDown && !s.bgError && s.imm.None? && s.manual.Some? && !pick.PickInputs? ==>
                  t.manual.None?)
            && (!s.shuttingDown && !s.bgError && s.imm.None? && s.manual.None? ==>
                  && (pick.PickInputs? ==> t.jobs == [Compacting(pick.inputs, {}, None)])
                  && (pick.PickMove? ==> t.jobs == [MoveInstalling(s.versions)]))
  {
    ReachableInv(s);
    Scheduling.OnlyJob(s, i);
    FreshIsNotLive(s);
    hide Reachable, Running, AtRest, Merges;
  }

  // ----- what work leaves -----

  /** A flush that succeeds: the memtable is gone, all its entries are in a live table, the version keeps the current log
      on, and of the older logs none is left. */
  lemma FlushCompletes(s: Db, i: nat, onDisk: bool, needs: bool)
    requires Reachable(s) && Enabled(s, Installed(i, true, onDisk, needs)) && s.jobs[i].FlushInstalling?
    ensures var t, n := Apply(s, Installed(i, true, onDisk, needs)), s.jobs[i].number;
            && t.imm.None? && t.mem == s.mem
            && (Imm(s) != [] ==> n in t.versions.live && n in t.disk.tables && t.disk.tables[n] == Imm(s))
            && t.versions.logNumber == s.logfileNumber == t.logfileNumber && t.versions.live == t.disk.manifest.live
            && (!s.bgError ==> forall m :: m in t.disk.logs ==> m >= s.logfileNumber)
  {
    hide Reachable;
    ReachableInv(s);
    Scheduling.OnlyJob(s, i);
    FlushLeaves(s, i, onDisk, needs);
  }

  lemma FlushLeaves(s: Db, i: nat, onDisk: bool, needs: bool)
    requires Running(s) && |s.jobs| == 1 && i == 0 && s.jobs[0].FlushInstalling?
    ensures var t, n := DoInstalled(s, i, true, onDisk, needs), s.jobs[i].number;
            && t.imm.None? && t.mem == s.mem
            && (Imm(s) != [] ==> n in t.versions.live && n in t.disk.tables && t.disk.tables[n] == Imm(s))
            && t.versions.logNumber == s.logfileNumber == t.logfileNumber && t.versions.live == t.disk.manifest.live
            && (!s.bgError ==> forall m :: m in t.disk.logs ==> m >= s.logfileNumber)
  {
    hide Grounded, Accounted, Increasing, WellFormed;
    var u := Applied(s, s.jobs[0].edit, needs).(imm := None);
    var w := DeleteObsoleteFiles(u);
    hide FinishJob;
  }

  /** A compaction that has worked: its inputs leave the version and its outputs join it, and nothing else changes. */
  lemma CompactionReplaces(s: Db, i: nat)
    requires Reachable(s) && Enabled(s, FinishCompaction(i, true))
    ensures var t, j := Apply(s, FinishCompaction(i, true)), s.jobs[i];
            && t.jobs == [CompactInstalling(j.outputs, j.request,
                                            s.versions.(live := s.versions.live - j.inputs + j.outputs))]
            && t == s.(jobs := t.jobs)
  {
    hide Reachable;
    ReachableInv(s);
    Scheduling.OnlyJob(s, i);
    hide Running, AtRest, Merges;
  }

  /** An installed edit is the version, in memory and on disk, with the counters no lower than before. */
  lemma InstalledIsCurrent(s: Db, i: nat, onDisk: bool, needs: bool)
    requires Reachable(s) && Enabled(s, Installed(i, true, onDisk, needs))
    ensures var t, e := Apply(s, Installed(i, true, onDisk, needs)), s.jobs[i].edit;
            && t.disk.manifest == e
            && (t.open ==> t.versions == s.versions.(live := e.live, logNumber := e.logNumber, prevLogNumber := e.prevLogNumber))
  {
    hide Reachable, Running, AtRest, Merges, FinishJob;
    ReachableInv(s);
    Scheduling.OnlyJob(s, i);
    var u := Applied(s, s.jobs[i].edit, needs);
    if s.jobs[i].CompactInstalling? {
      CompactionLeaves(u, i, true);
    }
    hide EndCompaction, CollectedDisk;
  }

  lemma CompactionLeaves(s: Db, i: nat, ok: bool)
    requires i < |s.jobs| && (s.jobs[i].Compacting? || s.jobs[i].CompactInstalling?)
    ensures var t := EndCompaction(s, i, ok);
            var u := s.(pendingOutputs := s.pendingOutputs - s.jobs[i].outputs);
            && t.disk == DeleteObsoleteFiles(u).disk
            && (t.open ==> t.versions == s.versions && t.pendingOutputs == u.pendingOutputs && t.bgError == s.bgError)
  {
    hide FinishJob, DeleteObsoleteFiles;
    var u := DeleteObsoleteFiles(s.(pendingOutputs := s.pendingOutputs - s.jobs[i].outputs));
  }

  /** Only files that are needed. */
  predicate Tidy(t: Db) {
    && (forall n :: n in t.disk.tables ==> n in t.versions.live || n in t.pendingOutputs)
    && (forall n :: n in t.disk.logs ==> n >= t.versions.logNumber || n == t.versions.prevLogNumber)
  }

  /** Nothing that is not needed is left behind by a flush or a compaction that succeeds, or by an opening. */
  lemma LeavesNoGarbage(s: Db, a: Action)
    requires Reachable(s) && Enabled(s, a)
    requires a.Open? || (a.Installed? && a.ok && !s.jobs[a.i].MoveInstalling? && !s.bgError)
    ensures Apply(s, a).open ==> Tidy(Apply(s, a))
  {
    hide Reachable, Running, AtRest, Merges, OpeningOk, FinishJob;
    ReachableInv(s);
    if a.Open? {
      CollectedIsTidy(OpenedState(s, a.o));
    } else {
      Scheduling.OnlyJob(s, a.i);
      var u := Applied(s, s.jobs[a.i].edit, a.needs);
      if s.jobs[a.i].CompactInstalling? {
        CollectedIsTidy(u.(pendingOutputs := u.pendingOutputs - s.jobs[a.i].outputs));
        CompactionLeaves(u, a.i, true);
      } else {
        CollectedIsTidy(u.(imm := None));
      }
    }
    hide EndCompaction, DeleteObsoleteFiles, OpenedState;
  }

  lemma CollectedIsTidy(s: Db)
    ensures !s.bgError ==> Tidy(DeleteObsoleteFiles(s))
  {
  }
}
