/** What users of the database may rely on in every reachable state, that is, after any interleaving of client calls,
    background work, failed I/O, crashes and reopenings. */
module Guarantees {
  import opened Coding
  import opened WriteBatches
  import opened Database
  import opened Durability
  import opened TableBuilding
  import opened Invariants
  import opened Scheduling

  // ----- durability -----

  /** Recovery can read the entry: it is in a table the manifest names or in a log the keep rule retains. */
  ghost predicate Durable(disk: Disk, e: Entry) {
    || (exists n :: n in disk.manifest.live && n in disk.tables && e in disk.tables[n])
    || InKeptLog(disk.logs, disk.manifest, e)
  }

  ghost predicate NewestWritten(s: Db, e: Entry) {
    e in s.written && forall x :: x in s.written && x.key == e.key ==> x.seqno <= e.seqno
  }

  ghost predicate NewestDurable(disk: Disk, e: Entry) {
    Durable(disk, e) && forall x :: Durable(disk, x) && x.key == e.key ==> x.seqno <= e.seqno
  }

  lemma OnlyWrittenIsDurable(s: Db, e: Entry)
    requires Inv(s) && Durable(s.disk, e)
    ensures e in s.written
  {
  }

  /** Some durable entry supersedes each written one. */
  lemma WrittenIsSuperseded(s: Db, e: Entry) returns (x: Entry)
    requires Inv(s) && e in s.written
    ensures Durable(s.disk, x) && Supersedes(x, e)
  {
    var m := s.disk.manifest;
    if s.open {
      AccountedSurvives(s.disk, m, s.mem, Imm(s), s.logfileNumber, s.written);
    }
    if Covered(m.live, s.disk.tables, e) {
      var n, y :| n in m.live && n in s.disk.tables && y in s.disk.tables[n] && Supersedes(y, e);
      x := y;
    } else {
      x := e;
    }
  }

  lemma SameSequenceSameEntry(s: Db, a: Entry, b: Entry)
    requires Inv(s) && a in s.written && b in s.written && a.seqno == b.seqno
    ensures a == b
  {
    StrictlyIncreasing(s);
    hide Inv;
    OnlyOnce(s.written, a, b);
  }

  lemma OnlyOnce(written: seq<Entry>, a: Entry, b: Entry)
    requires Increasing(written) && a in written && b in written && a.seqno == b.seqno
    ensures a == b
  {
    var i :| 0 <= i < |written| && written[i] == a;
    var j :| 0 <= j < |written| && written[j] == b;
    assert !(i < j) && !(j < i);
  }

  lemma StrictlyIncreasing(s: Db)
    requires Inv(s)
    ensures Increasing(s.written)
  {
  }

  lemma NewestSurvives(s: Db, e: Entry)
    requires Inv(s)
    ensures NewestWritten(s, e) <==> NewestDurable(s.disk, e)
  {
    hide Inv, Durable;
    if NewestWritten(s, e) {
      var x := WrittenIsSuperseded(s, e);
      OnlyWrittenIsDurable(s, x);
      SameSequenceSameEntry(s, x, e);
      forall y | Durable(s.disk, y) && y.key == e.key ensures y.seqno <= e.seqno {
        OnlyWrittenIsDurable(s, y);
      }
    }
    if NewestDurable(s.disk, e) {
      OnlyWrittenIsDurable(s, e);
      forall y | y in s.written && y.key == e.key ensures y.seqno <= e.seqno {
        var x := WrittenIsSuperseded(s, y);
      }
    }
  }

  /** Durability over whole runs: in every reachable state, running or crashed at any point, the newest entry that
      recovery can read for a key is the newest entry that was ever acknowledged for it. */
  lemma NothingIsLost(s: Db, e: Entry)
    requires Reachable(s)
    ensures NewestWritten(s, e) <==> NewestDurable(s.disk, e)
  {
    ReachableInv(s);
    NewestSurvives(s, e);
  }

  /** Sequence numbers never repeat, not even across a crash and a recovery. */
  lemma SequenceNumbersAreUnique(s: Db)
    requires Reachable(s)
    ensures forall i, j :: 0 <= i < j < |s.written| ==> s.written[i].seqno < s.written[j].seqno
    ensures s.open ==> forall e :: e in s.written ==> e.seqno <= s.versions.lastSequence
  {
    ReachableInv(s);
  }

  // ----- files under construction -----

  /** Numbers of tables being built or just built and not yet named by the manifest. */
  function UnderConstruction(s: Db): set<nat> {
    if s.jobs != [] && s.jobs[0].FlushInstalling? then {s.jobs[0].number} else Held(s)
  }

  /** pending_outputs_ is exact: the numbers allocated by the outstanding job and not yet given up, so in
      particular empty when no job is outstanding; none of them is a live table. */
  lemma PendingOutputsAreExact(s: Db)
    requires Reachable(s) && s.open
    ensures s.pendingOutputs == Held(s)
    ensures !s.bgScheduled ==> s.pendingOutputs == {}
    ensures s.pendingOutputs !! s.disk.manifest.live
  {
    ReachableInv(s);
  }

  /** A collection at this very moment would spare a file under construction if and only if no memtable compaction
      is inside LogAndApply: that one gives its number up before the manifest names it. */
  lemma CollectionSparesConstruction(s: Db, n: nat)
    requires Reachable(s) && s.open && !s.bgError
    requires n in UnderConstruction(s) && n in s.disk.tables
    ensures n in DeleteObsoleteFiles(s).disk.tables <==> !s.jobs[0].FlushInstalling?
  {
    ReachableInv(s);
  }

  /** BuildTable itself deletes the file when there was nothing to write or writing it failed. */
  predicate DiscardsBuild(s: Db, a: Action) {
    a.FinishBuild? && (Imm(s) == [] || (AnyFault(a.faults) && !a.faults.create))
  }

  /** But no step of the program ever collects then: a table under construction survives every step of every thread
      for as long as its job goes on working on it. */
  lemma ConstructionIsNeverDeleted(s: Db, a: Action, n: nat)
    requires Reachable(s) && Enabled(s, a) && !DiscardsBuild(s, a)
    requires n in UnderConstruction(s) && n in s.disk.tables
    ensures var t := Apply(s, a); t.open && n in UnderConstruction(t) ==> n in t.disk.tables
    ensures var t := Apply(s, a); t.open && n in t.disk.manifest.live ==> n in t.disk.tables
  {
    ReachableInv(s);
    StepKeepsInv(s, a);
    var t := Apply(s, a);
    if t.open && n in UnderConstruction(t) {
      Scheduling.OnlyJob(s, 0);
      OnlyFinishingCollects(s, a);
    }
  }

  /** The window is real: on a run from the empty database a table is written and unprotected. */
  lemma WindowHappens()
    ensures exists s, n :: Reachable(s) && s.open && !s.bgError && n in UnderConstruction(s) && n in s.disk.tables
                           && n !in DeleteObsoleteFiles(s).disk.tables
  {
    var s0, _ := OneEntryInMemory();
    var s1 := FlushBegins(s0);
    var s := FlushBuilds(s1);
    assert s.jobs[0].number in UnderConstruction(s);
    CollectionSparesConstruction(s, 4);
  }

  lemma FinishedHoldsNothing(s: Db, i: nat)
    requires i < |s.jobs| && |s.jobs| == 1
    ensures UnderConstruction(FinishJob(s, i)) == {}
  {
    assert s.jobs[..i] + s.jobs[i + 1..] == [];
  }

  lemma EndedHoldsNothing(s: Db, i: nat, ok: bool)
    requires i < |s.jobs| && |s.jobs| == 1 && (s.jobs[i].Compacting? || s.jobs[i].CompactInstalling?)
    ensures UnderConstruction(EndCompaction(s, i, ok)) == {}
  {
    hide DeleteObsoleteFiles, FinishJob;
    var t := DeleteObsoleteFiles(s.(pendingOutputs := s.pendingOutputs - s.jobs[i].outputs));
    FinishedHoldsNothing(t, i);
    if s.jobs[i].request.Some? && t.manual.Some? {
      FinishedHoldsNothing(
        t.(callers := if ok then t.callers else t.callers[t.manual.value := true], manual := None), i);
    }
  }

  lemma InstalledHoldsNothing(s: Db, i: nat, ok: bool, onDisk: bool, needs: bool)
    requires |s.jobs| == 1 && Enabled(s, Installed(i, ok, onDisk, needs))
    ensures UnderConstruction(DoInstalled(s, i, ok, onDisk, needs)) == {}
  {
    var j := s.jobs[i];
    var t := if ok then Applied(s, j.edit, needs) else NotApplied(s, j.edit, onDisk);
    hide CollectedDisk;
    var w := DeleteObsoleteFiles(t.(imm := None));
    assert t.jobs == s.jobs && w.jobs == s.jobs;
    hide DeleteObsoleteFiles, UnderConstruction, Applied, NotApplied;
    if j.CompactInstalling? {
      EndedHoldsNothing(t, i, ok);
      hide EndCompaction;
    } else {
      FinishedHoldsNothing(t, i);
      FinishedHoldsNothing(w, i);
      hide FinishJob;
    }
  }

  lemma OnlyFinishingCollects(s: Db, a: Action)
    requires Inv(s) && s.open && s.jobs != [] && Enabled(s, a) && !DiscardsBuild(s, a)
    ensures var t := Apply(s, a);
            || !t.open || UnderConstruction(t) == {}
            || (forall n :: n in s.disk.tables ==> n in t.disk.tables)
  {
    Scheduling.OnlyJob(s, 0);
    hide Inv, Merges, OpeningOk, Accepts, DeleteObsoleteFiles, UnderConstruction, EndCompaction, DoInstalled;
    match a
    case FinishCompaction(i, ok) =>
      if !ok { EndedHoldsNothing(RecordBackgroundError(s), i, false); }
    case Installed(i, ok, onDisk, needs) => InstalledHoldsNothing(s, i, ok, onDisk, needs);
    case _ => TablesStay(s, a);
  }

  lemma TablesStay(s: Db, a: Action)
    requires s.open && Enabled(s, a) && !DiscardsBuild(s, a) && !a.FinishCompaction? && !a.Installed?
    ensures var t := Apply(s, a); t.open ==> forall n :: n in s.disk.tables ==> n in t.disk.tables
  {
    if a.StartJob? { StartJobKeepsDisk(s, a.i, a.pick); }
    if a.InstallFlush? { InstallFlushKeepsDisk(s, a.i); }
    hide DoStartJob, DoInstallFlush, RecordEntries, Merges, OpeningOk, Accepts;
  }

  lemma StartJobKeepsDisk(s: Db, i: nat, pick: Pick)
    requires i < |s.jobs|
    ensures DoStartJob(s, i, pick).disk == s.disk
  {
    hide FinishJob;
    FinishJobKeepsDisk(s, i);
    if s.manual.Some? {
      FinishJobKeepsDisk(s.(callers := s.callers[s.manual.value := true], manual := None), i);
    }
  }

  lemma FinishJobKeepsDisk(s: Db, i: nat)
    requires i < |s.jobs|
    ensures FinishJob(s, i).disk == s.disk
  {
  }

  lemma InstallFlushKeepsDisk(s: Db, i: nat)
    requires i < |s.jobs| && s.jobs[i].Flushed? && s.imm.Some?
    ensures DoInstallFlush(s, i).disk == s.disk
  {
  }

  /** Collecting is safe for everything acknowledged at any moment of any run. */
  lemma CollectionLosesNothing(s: Db)
    requires Reachable(s) && s.open
    ensures Survives(DeleteObsoleteFiles(s).disk, s.disk.manifest, s.written)
  {
    ReachableInv(s);
    CollectKeeps(s);
    var t := DeleteObsoleteFiles(s);
    AccountedSurvives(t.disk, t.disk.manifest, t.mem, Imm(t), t.logfileNumber, t.written);
  }

  /** Why DeleteObsoleteFiles gives up after a background error: when LogAndApply fails with its record on disk,
      collecting by the version in memory would delete a table the manifest names. */
  lemma ErrorGuardIsNeeded(s: Db, i: nat, needs: bool)
    requires Reachable(s) && Enabled(s, Installed(i, false, true, needs))
    requires s.jobs[i].FlushInstalling? && Imm(s) != []
    ensures var t, n := Apply(s, Installed(i, false, true, needs)), s.jobs[i].number;
            && n in t.disk.manifest.live && n in t.disk.tables
            && DeleteObsoleteFiles(t) == t
            && n !in CollectedDisk(t.disk, t.versions, t.pendingOutputs).tables
  {
    ReachableInv(s);
    Scheduling.OnlyJob(s, i);
    var a := Installed(i, false, true, needs);
    StepKeepsInv(s, a);
    assert Grounded(Apply(s, a).disk, s.jobs[i].edit, s.written);
  }

  // ----- background scheduling -----

  /** One job at a time, exactly when the flag says so; no work forgotten; nobody asleep that no job will wake. */
  lemma BackgroundWorkIsExact(s: Db)
    requires Reachable(s)
    ensures OneJob(s) && NoLostWork(s) && SleepersWillWake(s)
  {
    ReachableInv(s);
  }

  predicate Quiet(s: Db) { s.open ==> s.shuttingDown && !s.bgScheduled && s.jobs == [] }

  /** Once shutdown has been announced and the last job has returned, no job is ever scheduled again. */
  lemma {:induction false} NoJobAfterShutdown(s: Db, run: seq<Action>)
    requires Inv(s) && Quiet(s) && CanRun(s, run) && forall a :: a in run ==> !a.Open?
    ensures Quiet(RunFrom(s, run))
    decreases |run|
  {
    if run != [] {
      var t := Apply(s, run[0]);
      StepKeepsInv(s, run[0]);
      StaysQuiet(s, run[0]);
      NoJobAfterShutdown(t, run[1..]);
    }
  }

  lemma StaysQuiet(s: Db, a: Action)
    requires Inv(s) && Quiet(s) && Enabled(s, a) && !a.Open?
    ensures Quiet(Apply(s, a))
  {
    hide Inv, OpeningOk, Merges, Accepts;
  }

  /** The destructor's turn ends the process exactly when no background job is outstanding. */
  lemma DestructorWaitsForTheJob(s: Db)
    requires Reachable(s) && s.open
    ensures !DoCloserTurn(s).open <==> s.jobs == []
    ensures DoCloserTurn(s).open ==> Closer in DoCloserTurn(s).asleep && DoCloserTurn(s).shuttingDown
  {
    ReachableInv(s);
  }

  // ----- the manual-compaction request -----

  predicate EndsManualCompaction(s: Db, a: Action) {
    s.open &&
    match a
    case FinishCompaction(i, ok) => i < |s.jobs| && s.jobs[i].Compacting? && !ok && s.jobs[i].request.Some?
    case Installed(i, _, _, _) => i < |s.jobs| && s.jobs[i].CompactInstalling? && s.jobs[i].request.Some?
    case _ => false
  }

  lemma EndCompactionFault(s: Db, i: nat, ok: bool)
    requires i < |s.jobs| && (s.jobs[i].Compacting? || s.jobs[i].CompactInstalling?) && !s.fault
    ensures EndCompaction(s, i, ok).fault <==> s.jobs[i].request.Some? && s.manual.None?
  {
    hide DeleteObsoleteFiles, FinishJob;
    var u := s.(pendingOutputs := s.pendingOutputs - s.jobs[i].outputs);
    var t := DeleteObsoleteFiles(u);
    FinishingIsNoFault(t, i);
    if s.jobs[i].request.Some? && t.manual.Some? {
      FinishingIsNoFault(
        t.(callers := if ok then t.callers else t.callers[t.manual.value := true], manual := None), i);
    }
  }

  lemma InstalledFault(s: Db, i: nat, ok: bool, onDisk: bool, needs: bool)
    requires i < |s.jobs| && !s.fault
    requires s.jobs[i].FlushInstalling? || s.jobs[i].CompactInstalling? || s.jobs[i].MoveInstalling?
    ensures DoInstalled(s, i, ok, onDisk, needs).fault
       <==> s.jobs[i].CompactInstalling? && s.jobs[i].request.Some? && s.manual.None?
  {
    var job := s.jobs[i];
    var t := if ok then Applied(s, job.edit, needs) else NotApplied(s, job.edit, onDisk);
    if job.CompactInstalling? {
      EndCompactionFault(t, i, ok);
    } else {
      var u := if job.FlushInstalling? && ok then DeleteObsoleteFiles(t.(imm := None)) else t;
      FinishingIsNoFault(u, i);
    }
    hide Applied, NotApplied, DeleteObsoleteFiles, FinishJob, EndCompaction;
  }

  lemma FinishingIsNoFault(s: Db, i: nat)
    requires i < |s.jobs|
    ensures FinishJob(s, i).fault == s.fault
  {
  }

  lemma FaultSteps(s: Db, a: Action)
    requires Enabled(s, a) && !s.fault
    ensures Apply(s, a).fault <==> EndsManualCompaction(s, a) && s.manual.None?
  {
    hide OpeningOk, Merges, Accepts, OpenedDisk, OpenedManifest, CollectedDisk, RecordEntries, EndCompaction, DoInstalled;
    hide DoStartJob, DoInstallFlush;
    match a
    case FinishCompaction(i, ok) => EndCompactionFault(RecordBackgroundError(s), i, false);
    case Installed(i, ok, onDisk, needs) => InstalledFault(s, i, ok, onDisk, needs);
    case StartJob(i, pick) => StartJobIsNoFault(s, i, pick);
    case InstallFlush(i) => InstallFlushIsNoFault(s, i);
    case _ =>
  }

  lemma StartJobIsNoFault(s: Db, i: nat, pick: Pick)
    requires i < |s.jobs|
    ensures DoStartJob(s, i, pick).fault == s.fault
  {
    hide FinishJob;
    FinishingIsNoFault(s, i);
    if s.manual.Some? {
      FinishingIsNoFault(s.(callers := s.callers[s.manual.value := true], manual := None), i);
    }
  }

  lemma InstallFlushIsNoFault(s: Db, i: nat)
    requires i < |s.jobs| && s.jobs[i].Flushed? && s.imm.Some?
    ensures DoInstallFlush(s, i).fault == s.fault
  {
  }

  /** BackgroundCompaction dereferences manual_compaction_ when it is done; the pointer is null exactly when the
      caller it worked for has already left, which takes a shutdown or a background error. */
  lemma NullRequestExactly(s: Db, a: Action)
    requires Reachable(s) && Enabled(s, a) && !s.fault
    ensures Apply(s, a).fault <==> EndsManualCompaction(s, a) && s.jobs[a.i].request.value !in s.callers
    ensures Apply(s, a).fault ==> s.shuttingDown || s.bgError
  {
    ReachableInv(s);
    FaultSteps(s, a);
    hide Running, AtRest, Enabled, Apply;
    if EndsManualCompaction(s, a) {
      Scheduling.OnlyJob(s, a.i);
      assert s.jobs[a.i] in s.jobs;
    }
  }

  lemma {:induction false} RunSnoc(s: Db, run: seq<Action>, a: Action)
    requires CanRun(s, run) && Enabled(RunFrom(s, run), a)
    ensures CanRun(s, run + [a]) && RunFrom(s, run + [a]) == Apply(RunFrom(s, run), a)
    decreases |run|
  {
    hide Enabled, Apply;
    if run == [] {
      assert run + [a] == [a] && [a][1..] == [];
      assert CanRun(Apply(s, a), []);
    } else {
      assert (run + [a])[1..] == run[1..] + [a];
      RunSnoc(Apply(s, run[0]), run[1..], a);
    }
  }

  lemma ReachableStep(s: Db, a: Action)
    requires Reachable(s) && Enabled(s, a)
    ensures Reachable(Apply(s, a))
  {
    hide Enabled, Apply, Init;
    var s0, run :| Init(s0) && CanRun(s0, run) && RunFrom(s0, run) == s;
    RunSnoc(s0, run, a);
    assert Init(s0) && CanRun(s0, run + [a]) && RunFrom(s0, run + [a]) == Apply(s, a);
  }

  // ----- each step stays among the reachable states -----

  lemma ManualTurnReaches(s: Db, id: nat)
    ensures Reachable(s) && Enabled(s, ManualTurn(id)) ==> Reachable(DoManualTurn(s, id))
  {
    hide Reachable, Merges, DoManualTurn;
    if Reachable(s) && Enabled(s, ManualTurn(id)) { ReachableStep(s, ManualTurn(id)); }
  }

  lemma FlushTurnReaches(s: Db, id: nat)
    ensures Reachable(s) && Enabled(s, FlushTurn(id)) ==> Reachable(DoFlushTurn(s, id))
  {
    hide Reachable, Merges, DoFlushTurn;
    if Reachable(s) && Enabled(s, FlushTurn(id)) { ReachableStep(s, FlushTurn(id)); }
  }

  lemma ErrorReaches(s: Db)
    ensures Reachable(s) && Enabled(s, WriteError) ==> Reachable(RecordBackgroundError(s))
  {
    hide Reachable, Merges, RecordBackgroundError;
    if Reachable(s) && Enabled(s, WriteError) { ReachableStep(s, WriteError); }
  }

  lemma CloserTurnReaches(s: Db)
    ensures Reachable(s) && Enabled(s, CloserTurn) ==> Reachable(DoCloserTurn(s))
  {
    hide Reachable, Merges, DoCloserTurn;
    if Reachable(s) && Enabled(s, CloserTurn) { ReachableStep(s, CloserTurn); }
  }

  lemma StartJobReaches(s: Db, i: nat, pick: Pick)
    requires i < |s.jobs|
    ensures Reachable(s) && Enabled(s, StartJob(i, pick)) ==> Reachable(DoStartJob(s, i, pick))
  {
    hide Reachable, Merges, DoStartJob;
    if Reachable(s) && Enabled(s, StartJob(i, pick)) { ReachableStep(s, StartJob(i, pick)); }
  }

  lemma FinishBuildReaches(s: Db, i: nat, faults: Faults)
    requires i < |s.jobs| && s.jobs[i].Flushing? && s.imm.Some?
    ensures Reachable(s) && Enabled(s, FinishBuild(i, faults)) ==> Reachable(DoFinishBuild(s, i, faults))
  {
    hide Reachable, Merges, DoFinishBuild;
    if Reachable(s) && Enabled(s, FinishBuild(i, faults)) { ReachableStep(s, FinishBuild(i, faults)); }
  }

  lemma InstallFlushReaches(s: Db, i: nat)
    requires i < |s.jobs| && s.jobs[i].Flushed? && s.imm.Some?
    ensures Reachable(s) && Enabled(s, InstallFlush(i)) ==> Reachable(DoInstallFlush(s, i))
  {
    hide Reachable, Merges, DoInstallFlush;
    if Reachable(s) && Enabled(s, InstallFlush(i)) { ReachableStep(s, InstallFlush(i)); }
  }

  lemma OpenOutputReaches(s: Db, i: nat)
    requires i < |s.jobs| && s.jobs[i].Compacting?
    ensures Reachable(s) && Enabled(s, OpenOutput(i)) ==> Reachable(DoOpenOutput(s, i))
  {
    hide Reachable, Merges, DoOpenOutput;
    if Reachable(s) && Enabled(s, OpenOutput(i)) { ReachableStep(s, OpenOutput(i)); }
  }

  lemma FinishCompactionReaches(s: Db, i: nat, ok: bool)
    requires i < |s.jobs| && s.jobs[i].Compacting?
    ensures Reachable(s) && Enabled(s, FinishCompaction(i, ok)) ==> Reachable(DoFinishCompaction(s, i, ok))
  {
    hide Reachable, Merges, DoFinishCompaction;
    if Reachable(s) && Enabled(s, FinishCompaction(i, ok)) { ReachableStep(s, FinishCompaction(i, ok)); }
  }

  lemma InstalledReaches(s: Db, i: nat, ok: bool, onDisk: bool, needs: bool)
    requires i < |s.jobs| && (s.jobs[i].FlushInstalling? || s.jobs[i].CompactInstalling? || s.jobs[i].MoveInstalling?)
    ensures Reachable(s) && Enabled(s, Installed(i, ok, onDisk, needs)) ==> Reachable(DoInstalled(s, i, ok, onDisk, needs))
  {
    hide Reachable, Merges, DoInstalled;
    if Reachable(s) && Enabled(s, Installed(i, ok, onDisk, needs)) { ReachableStep(s, Installed(i, ok, onDisk, needs)); }
  }

  /** The failing case can be reached from every state in which a manual compaction is at work: the destructor
      starts, the caller sees it and withdraws its request, and the compaction is abandoned. */
  lemma NullRequestIsReachable(s: Db, i: nat, id: nat)
    requires Reachable(s) && s.open && i < |s.jobs| && s.jobs[i].Compacting? && s.jobs[i].request == Some(id)
    requires s.manual == Some(id)
    ensures exists t :: Reachable(t) && t.fault
  {
    ReachableInv(s);
    Scheduling.OnlyJob(s, i);
    hide Reachable, Inv;
    var s1 := Apply(s, CloserTurn);
    ReachableStep(s, CloserTurn);
    assert s1.shuttingDown && s1.jobs == s.jobs;
    var s2 := Apply(s1, ManualTurn(id));
    ReachableStep(s1, ManualTurn(id));
    assert s2.manual.None? && s2.jobs == s.jobs;
    var s3 := Apply(s2, FinishCompaction(i, false));
    ReachableStep(s2, FinishCompaction(i, false));
  }

  // ----- waiting for the memtable -----

  /** The database is being destroyed, a memtable has not been flushed, and no job is left to do it. */
  predicate Stranded(s: Db) { s.open && s.shuttingDown && s.jobs == [] && s.imm.Some? && !s.bgError }

  /** The exception in SleepersWillWake, exactly: a caller of TEST_CompactMemTable goes to sleep with no job left to
      wake it if and only if it takes its turn in such a state. */
  lemma FlushCallerStrandedExactly(s: Db, id: nat)
    requires Reachable(s) && s.open
    ensures var t := DoFlushTurn(s, id); FlushCaller(id) in t.asleep && t.jobs == [] <==> Stranded(s)
  {
    ReachableInv(s);
  }

  predicate Escape(a: Action) { a.WriteError? || a.CloserTurn? || a.Crash? }

  /** From then on exactly a recorded error or the end of the process changes that. */
  lemma StrandedStep(s: Db, a: Action, id: nat)
    requires Stranded(s) && FlushCaller(id) in s.asleep && !s.bgScheduled && Enabled(s, a)
    ensures var t := Apply(s, a);
            && (FlushCaller(id) in t.asleep <==> !Escape(a))
            && (!Escape(a) ==> Stranded(t) && !t.bgScheduled)
  {
    hide OpeningOk, Merges, Accepts, RecordEntries;
  }

  lemma {:induction false} SleepLasts(s: Db, run: seq<Action>, id: nat)
    requires Stranded(s) && FlushCaller(id) in s.asleep && !s.bgScheduled
    requires CanRun(s, run) && forall a :: a in run ==> !Escape(a)
    ensures Stranded(RunFrom(s, run)) && FlushCaller(id) in RunFrom(s, run).asleep
    decreases |run|
  {
    if run != [] {
      hide Stranded, Enabled, Apply;
      StrandedStep(s, run[0], id);
      SleepLasts(Apply(s, run[0]), run[1..], id);
    }
  }

  /** Jobs that end either with the memtable flushed or with an error recorded once a shutdown has been announced. */
  predicate FlushPhase(job: Job) { job.Flushing? || job.Flushed? || job.FlushInstalling? }

  predicate GoesWell(a: Action) {
    !a.WriteError? && (a.FinishCompaction? ==> a.ok) && (a.Installed? ==> a.ok)
  }

  /** How a shutdown stands when a job in a flush phase was outstanding (`flush`) or another one; `well` tells
      whether everything has gone well since. */
  predicate Outlook(s: Db, flush: bool, well: bool) {
    s.open ==>
      && s.shuttingDown
      && if flush then s.bgError || s.imm.None? || (s.jobs != [] && FlushPhase(s.jobs[0]))
         else s.imm.Some? && (s.bgError <==> !well) && (s.jobs != [] ==> !FlushPhase(s.jobs[0]))
  }

  lemma OutlookKept(s: Db, a: Action, flush: bool, well: bool)
    requires Scheduling.SchedInv(s) && Outlook(s, flush, well) && Enabled(s, a) && !a.Open? && !a.SwitchMemTable?
    ensures Outlook(Apply(s, a), flush, well && GoesWell(a))
  {
    if a.StartJob? || a.InstallFlush? { Scheduling.OnlyJob(s, a.i); }
    if a.Installed? || a.FinishCompaction? { OutlookAtTheEnd(s, a, flush, well); }
    hide Scheduling.SchedInv, OpeningOk, Merges, Accepts, RecordEntries, DoInstalled, DoFinishCompaction;
  }

  lemma OutlookAtTheEnd(s: Db, a: Action, flush: bool, well: bool)
    requires Scheduling.SchedInv(s) && Outlook(s, flush, well) && Enabled(s, a) && (a.Installed? || a.FinishCompaction?)
    ensures Outlook(Apply(s, a), flush, well && GoesWell(a))
  {
    Scheduling.OnlyJob(s, a.i);
    if a.FinishCompaction? {
      EndsUnderShutdown(RecordBackgroundError(s), a.i, false);
    } else {
      InstalledUnderShutdown(s, a.i, a.ok, a.onDisk, a.needs);
    }
    hide Scheduling.SchedInv, Merges, EndCompaction, DoInstalled;
  }

  lemma FinishesUnderShutdown(s: Db, i: nat)
    requires s.shuttingDown && |s.jobs| == 1 && i == 0
    ensures var t := FinishJob(s, i);
            t.open == s.open && t.jobs == [] && t.imm == s.imm && t.bgError == s.bgError && t.shuttingDown
  {
    assert s.jobs[..i] + s.jobs[i + 1..] == [];
  }

  /** Nothing but the job goes away; or the null request is read. */
  lemma EndsUnderShutdown(s: Db, i: nat, ok: bool)
    requires s.shuttingDown && |s.jobs| == 1 && i == 0 && (s.jobs[i].Compacting? || s.jobs[i].CompactInstalling?)
    ensures var t := EndCompaction(s, i, ok);
            t.open ==> t.jobs == [] && t.imm == s.imm && t.bgError == s.bgError && t.shuttingDown
  {
    hide DeleteObsoleteFiles, FinishJob;
    var u := s.(pendingOutputs := s.pendingOutputs - s.jobs[i].outputs);
    var t := DeleteObsoleteFiles(u);
    FinishesUnderShutdown(t, i);
    if s.jobs[i].request.Some? && t.manual.Some? {
      FinishesUnderShutdown(
        t.(callers := if ok then t.callers else t.callers[t.manual.value := true], manual := None), i);
    }
  }

  lemma InstalledUnderShutdown(s: Db, i: nat, ok: bool, onDisk: bool, needs: bool)
    requires s.shuttingDown && |s.jobs| == 1 && i == 0
    requires s.jobs[i].FlushInstalling? || s.jobs[i].CompactInstalling? || s.jobs[i].MoveInstalling?
    ensures var t := DoInstalled(s, i, ok, onDisk, needs);
            t.open ==>
              && t.jobs == [] && t.bgError == (s.bgError || !ok) && t.shuttingDown
              && t.imm == if s.jobs[i].FlushInstalling? && ok then None else s.imm
  {
    hide Applied, NotApplied, DeleteObsoleteFiles, FinishJob, EndCompaction;
    var job := s.jobs[i];
    var t := if ok then Applied(s, job.edit, needs) else NotApplied(s, job.edit, onDisk);
    if job.CompactInstalling? {
      EndsUnderShutdown(t, i, ok);
    } else {
      FinishesUnderShutdown(if job.FlushInstalling? && ok then DeleteObsoleteFiles(t.(imm := None)) else t, i);
    }
  }

  lemma {:induction false} OutlookLasts(s: Db, run: seq<Action>, flush: bool, well: bool)
    requires Inv(s) && Outlook(s, flush, well) && CanRun(s, run)
    requires forall a :: a in run ==> !a.Open? && !a.SwitchMemTable?
    ensures Outlook(RunFrom(s, run), flush, well && forall a :: a in run ==> GoesWell(a))
    decreases |run|
  {
    if run != [] {
      StepKeepsInv(s, run[0]);
      OutlookKept(s, run[0], flush, well);
      hide Inv, Outlook, Enabled, Apply, GoesWell;
      OutlookLasts(Apply(s, run[0]), run[1..], flush, well && GoesWell(run[0]));
      assert run == [run[0]] + run[1..];
    }
  }

  /** Which job is outstanding when the shutdown is announced decides. When it is over, with the same memtable still
      to be flushed or not, callers waiting for it are stranded if and only if the job was not flushing (it had not
      started, or it was a move or a compaction) and nothing has gone wrong since. */
  lemma ShutdownStrandsExactly(s: Db, run: seq<Action>)
    requires Reachable(s) && s.open && s.shuttingDown && !s.bgError && s.imm.Some? && s.jobs != []
    requires CanRun(s, run) && forall a :: a in run ==> !a.Open? && !a.SwitchMemTable?
    requires RunFrom(s, run).open && RunFrom(s, run).jobs == []
    ensures Stranded(RunFrom(s, run)) <==> !FlushPhase(s.jobs[0]) && forall a :: a in run ==> GoesWell(a)
  {
    ReachableInv(s);
    hide Inv;
    OutlookLasts(s, run, FlushPhase(s.jobs[0]), true);
  }

  /** It can come to that from every state in which a switch is due and no job is outstanding, and then the caller
      sleeps for as long as no error is recorded and the process lives. */
  lemma FlushCallerCanBeStranded(s: Db, id: nat)
    requires Reachable(s) && s.open && s.jobs == [] && s.imm.None? && !s.shuttingDown && !s.bgError && !s.bgScheduled
    ensures exists t :: Reachable(t) && SleepsForGood(t, id)
  {
    var s1 := LastJobReturns(s);
    hide Reachable;
    var s2 := Apply(s1, FlushTurn(id));
    ReachableStep(s1, FlushTurn(id));
    forall run | CanRun(s2, run) && (forall a :: a in run ==> !Escape(a))
      ensures FlushCaller(id) in RunFrom(s2, run).asleep
    {
      SleepLasts(s2, run, id);
    }
    assert SleepsForGood(s2, id);
  }

  ghost predicate SleepsForGood(s: Db, id: nat) {
    forall run :: CanRun(s, run) && (forall a :: a in run ==> !Escape(a)) ==> FlushCaller(id) in RunFrom(s, run).asleep
  }

  /** The switch schedules a job; the destructor starts before the job does. */
  lemma LastJobReturns(s: Db) returns (t: Db)
    requires Reachable(s) && s.open && s.jobs == [] && s.imm.None? && !s.shuttingDown && !s.bgError && !s.bgScheduled
    ensures Reachable(t) && Stranded(t) && !t.bgScheduled
  {
    hide Reachable;
    var s1 := Apply(s, SwitchMemTable);
    ReachableStep(s, SwitchMemTable);
    assert s1.jobs == [Queued] && s1.imm.Some? && !s1.bgError;
    var s2 := Apply(s1, CloserTurn);
    ReachableStep(s1, CloserTurn);
    t := Apply(s2, StartJob(0, PickNothing));
    ReachableStep(s2, StartJob(0, PickNothing));
  }

  // ----- the failing cases start from the empty database -----

  const FIRST_OPENING := Opening(map[], {}, false, 2, [], 3, 0, true, false)

  lemma DatabaseOpens() returns (s: Db)
    ensures Reachable(s) && s.open && s.jobs == [] && s.mem == [] && s.imm.None? && s.manual.None? && s.callers == map[]
    ensures !s.shuttingDown && !s.bgError && !s.bgScheduled && !s.needsCompaction && !s.fault
    ensures s.versions == Manifest({}, 2, 0, 3, 0) && s.logfileNumber == 2
    ensures s.disk == Disk(map[2 := []], map[], s.versions) && s.written == []
  {
    hide Reachable, OpeningOk;
    EmptyIsReachable();
    FirstOpeningIsOk();
    ReachableStep(EMPTY_DB, Open(FIRST_OPENING));
    s := Apply(EMPTY_DB, Open(FIRST_OPENING));
  }

  const EMPTY_DB: Db := Db(EMPTY_DISK, [], false, [], None, 0, EMPTY_DISK.manifest, {}, false, false, false, false, None,
                       map[], {}, [], false)

  lemma EmptyIsReachable()
    ensures Reachable(EMPTY_DB)
  {
    assert Init(EMPTY_DB);
    assert CanRun(EMPTY_DB, []) && RunFrom(EMPTY_DB, []) == EMPTY_DB;
  }

  const EMPTY_DISK: Disk := Disk(map[], map[], Manifest({}, 0, 0, 2, 0))

  lemma FirstOpeningIsOk()
    ensures OpeningOk(EMPTY_DISK, FIRST_OPENING)
  {
  }

  /** Put of an empty key and value, as the first write. */
  lemma FirstRecord() returns (r: Bytes)
    ensures Accepts(r) && Sequence(r) == 1 && Count(r) == 1 && RecordEntries(r) == [Entry(1, Value, [], [])]
  {
    var ops := [Op.Put([], [])];
    r := EncodeBatch(1, ops);
    BatchRoundTrip(1, ops);
    hide EncodeBatch, IterateOps, IterateStatus;
    assert Numbered(ops, 1) == [NumberedEntry(ops[0], 1)] + Numbered(ops[1..], 2);
  }

  lemma OneEntryInMemory() returns (s: Db, r: Bytes)
    ensures Reachable(s) && s.open && s.jobs == [] && s.imm.None? && s.manual.None? && s.callers == map[]
    ensures !s.shuttingDown && !s.bgError && !s.bgScheduled && !s.fault
    ensures s.mem != [] && s.versions == Manifest({}, 2, 0, 3, 1)
    ensures s.disk == Disk(map[2 := [r]], map[], Manifest({}, 2, 0, 3, 0)) && s.written == RecordEntries(r)
    ensures Accepts(r) && Sequence(r) == 1 && Count(r) == 1 && RecordEntries(r) == [Entry(1, Value, [], [])]
  {
    var t := DatabaseOpens();
    r := FirstRecord();
    hide Reachable, Accepts, Sequence, Count, RecordEntries;
    s := Apply(t, Write(r));
    assert [] + [r] == [r] && [] + RecordEntries(r) == RecordEntries(r);
    ReachableStep(t, Write(r));
  }

  lemma OneTableIsLive() returns (s: Db)
    ensures Reachable(s) && s.open && s.jobs == [] && s.imm.None? && s.manual.None? && s.callers == map[]
    ensures !s.shuttingDown && !s.bgError && !s.bgScheduled && !s.fault
    ensures s.versions.live == {4}
  {
    var t, _ := OneEntryInMemory();
    hide Reachable;
    s := FlushOne(t);
  }

  lemma FlushOne(s: Db) returns (t: Db)
    requires Reachable(s) && s.open && s.jobs == [] && s.imm.None? && s.manual.None? && s.callers == map[]
    requires !s.shuttingDown && !s.bgError && !s.bgScheduled && !s.fault && s.mem != [] && s.versions.nextFile == 3
    ensures Reachable(t) && t.open && t.jobs == [] && t.imm.None? && t.manual.None? && t.callers == map[]
    ensures !t.shuttingDown && !t.bgError && !t.bgScheduled && !t.fault
    ensures t.versions.live == s.versions.live + {4}
  {
    var s1 := FlushBegins(s);
    var s2 := FlushBuilds(s1);
    hide Reachable;
    t := Apply(s2, Installed(0, true, true, false));
    ReachableStep(s2, Installed(0, true, true, false));
  }

  lemma FlushBuilds(s: Db) returns (t: Db)
    requires Reachable(s) && s.open && s.jobs == [Flushing(4)] && s.imm.Some? && s.imm.value != []
    requires s.manual.None? && s.callers == map[] && !s.shuttingDown && !s.bgError && !s.fault
    ensures Reachable(t) && t.open && t.imm.Some? && t.manual.None? && t.callers == map[]
    ensures t.jobs == [FlushInstalling(4, s.versions.(live := s.versions.live + {4}, logNumber := s.logfileNumber,
                                                      prevLogNumber := 0))]
    ensures 4 in t.disk.tables
    ensures !t.shuttingDown && !t.bgError && !t.fault
  {
    hide Reachable;
    var s1 := Apply(s, FinishBuild(0, NO_FAULTS));
    ReachableStep(s, FinishBuild(0, NO_FAULTS));
    t := Apply(s1, InstallFlush(0));
    ReachableStep(s1, InstallFlush(0));
  }

  lemma FlushBegins(s: Db) returns (t: Db)
    requires Reachable(s) && s.open && s.jobs == [] && s.imm.None? && s.manual.None? && s.callers == map[]
    requires !s.shuttingDown && !s.bgError && !s.bgScheduled && !s.fault && s.mem != [] && s.versions.nextFile == 3
    ensures Reachable(t) && t.open && t.jobs == [Flushing(4)] && t.imm == Some(s.mem) && t.mem == []
    ensures t.manual.None? && t.callers == map[] && !t.shuttingDown && !t.bgError && !t.fault
    ensures t.versions.live == s.versions.live
  {
    hide Reachable;
    var s1 := Apply(s, SwitchMemTable);
    assert s1.jobs == [Queued];
    ReachableStep(s, SwitchMemTable);
    t := Apply(s1, StartJob(0, PickNothing));
    ReachableStep(s1, StartJob(0, PickNothing));
  }

  /** A run from the empty database to the null dereference: write, flush, ask for a manual compaction, fail. */
  lemma NullRequestHappens()
    ensures exists t :: Reachable(t) && t.fault
  {
    var s := OneTableIsLive();
    hide Reachable;
    var s1 := Apply(s, ManualTurn(7));
    assert s1.jobs == [Queued];
    var s2 := Apply(s1, StartJob(0, PickInputs({4})));
    ReachableStep(s, ManualTurn(7));
    ReachableStep(s1, StartJob(0, PickInputs({4})));
    NullRequestIsReachable(s2, 0, 7);
  }

  lemma FlushCallerIsStranded(id: nat)
    ensures exists t :: Reachable(t) && SleepsForGood(t, id)
  {
    var s := DatabaseOpens();
    FlushCallerCanBeStranded(s, id);
  }
}
