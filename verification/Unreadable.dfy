/** Openings that pass over logs they cannot read (db/dp_impl.cpp: errors are ignored unless the checks are paranoid):
    exactly when the database survives one, and what DB::Open leaves in the other cases. */
module UnreadableLogs {
  import opened Coding
  import opened WriteBatches
  import opened Database
  import opened Durability
  import opened Recovery
  import opened Directory
  import opened Invariants
  import opened Openings
  import opened Guarantees
  import opened TableBuilding
  import Scheduling

  /** Recovery's opening, sound as far as it goes. */
  ghost predicate Fitting(s: Db, w: Opening) {
    AtRest(s) && FilesOk(s.disk, w) && EntriesSound(s.disk, w)
  }

  /** The manifest as the first flush will leave it at the latest; after a saved opening it is that already. */
  function FromNowOn(s: Db, w: Opening): Manifest {
    OpenedState(s, w).versions.(logNumber := w.log, prevLogNumber := 0)
  }

  /** What recovery works out in a state at rest always fits it. */
  lemma RecoveryIsFitting(o: Options, s: Db, d: Dir, filenames: seq<string>, t: Trouble, saveManifest: bool, needs: bool)
    requires Reachable(s) && !s.open && Lists(filenames, d)
    requires d.logs == s.disk.logs.Keys && d.tables == s.disk.tables.Keys
    ensures var numbers := LogNumbers(filenames, s.disk.manifest);
            Fitting(s, OpeningOf(Effective(o, t, numbers), Readable(s.disk, t.unreadable), numbers, saveManifest, needs))
  {
    hide Reachable, Lists, OpeningOf, FilesOk, EntriesSound, KeepsEntries, Running, Grounded, Survives, LogsOk, Increasing;
    ReachableInv(s);
    RecoveryIsSound(o, s, d, filenames, t, saveManifest, needs);
  }

  // ----- loss -----

  /** The only log kept from now on is the one being written. */
  lemma OnlyTheNewLog(disk: Disk, w: Opening, v: Manifest, e: Entry)
    requires FilesOk(disk, w) && v.logNumber == w.log && v.prevLogNumber == 0 && 0 !in disk.logs
    ensures InKeptLog(OpenedDisk(disk, w).logs, v, e) <==> e in w.mem
  {
    var logs := OpenedDisk(disk, w).logs;
    assert LogEntries([]) == [];
    hide LogEntries;
    if InKeptLog(logs, v, e) {
      var n :| n in logs && KeepsLog(v, n) && e in LogEntries(logs[n]);
      assert n == w.log;
    }
    if e in w.mem {
      assert w.log in logs && KeepsLog(v, w.log) && e in LogEntries(logs[w.log]);
    }
  }

  lemma CoveredByOpening(s: Db, w: Opening, e: Entry)
    requires Fitting(s, w)
    ensures var u := OpenedState(s, w);
            Covered(u.versions.live, u.disk.tables, e)
            <==> Covered(s.disk.manifest.live, s.disk.tables, e) || Covered(w.tables.Keys, w.tables, e)
  {
    hide LogEntries, EntriesSound, InKeptLog, Survives, Increasing, LogsOk;
    var u := OpenedState(s, w);
    var m := s.disk.manifest;
    OldTablesStay(s.disk, w, s.written);
    assert w.tables != map[] ==> u.versions.live == m.live + w.tables.Keys;
    assert u.disk.tables == s.disk.tables - w.dropped + w.tables;
    if Covered(m.live, s.disk.tables, e) { CoveredMonotone(m.live, s.disk.tables, u.versions.live, u.disk.tables, e); }
    if Covered(w.tables.Keys, w.tables, e) {
      CoveredMonotone(w.tables.Keys, w.tables, u.versions.live, u.disk.tables, e);
    }
    if Covered(u.versions.live, u.disk.tables, e) {
      var n, x :| n in u.versions.live && n in u.disk.tables && x in u.disk.tables[n] && Supersedes(x, e);
      assert n in w.tables || (n in m.live && n in s.disk.tables && x in s.disk.tables[n]);
      assert n in w.tables ==> n in w.tables.Keys && x in w.tables[n];
    }
  }

  /** Every written entry survives from now on if and only if the opening leaves no entry of a kept log out of reach.
      If it was saved that is so at once; if not, the passed-over logs are still kept until the first flush. */
  lemma SurvivesExactly(s: Db, w: Opening)
    requires Fitting(s, w)
    ensures var u := OpenedState(s, w);
            && (Survives(u.disk, FromNowOn(s, w), s.written) <==> KeepsEntries(s.disk, w))
            && (w.save ==> FromNowOn(s, w) == u.disk.manifest)
            && (Survives(u.disk, u.disk.manifest, s.written) <==> !w.save || KeepsEntries(s.disk, w))
  {
    var u, v := OpenedState(s, w), FromNowOn(s, w);
    if !w.save { UnsavedSurvives(s, w); }
    hide LogEntries, EntriesSound, InKeptLog, Increasing, Covered, FilesOk;
    forall e
      ensures Covered(v.live, u.disk.tables, e) || InKeptLog(u.disk.logs, v, e) <==> Reached(s.disk, w, e)
    {
      CoveredByOpening(s, w, e);
      OnlyTheNewLog(s.disk, w, v, e);
    }
    KeptIsWritten(s);
    if Survives(u.disk, v, s.written) {
      forall e | InKeptLog(s.disk.logs, s.disk.manifest, e) ensures Reached(s.disk, w, e) {
      }
    }
  }

  lemma KeptIsWritten(s: Db)
    requires AtRest(s)
    ensures forall e :: InKeptLog(s.disk.logs, s.disk.manifest, e) ==> e in s.written
  {
    hide LogEntries, Survives, Increasing, LogsOk;
  }

  lemma UnsavedSurvives(s: Db, w: Opening)
    requires Fitting(s, w) && !w.save
    ensures var u := OpenedState(s, w); Survives(u.disk, u.disk.manifest, s.written)
  {
    hide LogEntries, EntriesSound, Increasing;
    OpenedDiskKeeps(s.disk, w, s.written);
  }

  /** The running database keeps its invariant, and with it everything that holds of reachable states, if and only if
      the same is true. */
  lemma RunsOnExactly(s: Db, w: Opening)
    requires Fitting(s, w)
    ensures Running(DoOpen(s, w)) <==> KeepsEntries(s.disk, w)
  {
    hide EntriesSound, FilesOk, KeepsEntries, Running;
    if KeepsEntries(s.disk, w) {
      OpenInv(s, w);
    }
    if Running(DoOpen(s, w)) {
      RunningReaches(s, w);
    }
  }

  lemma RunningReaches(s: Db, w: Opening)
    requires Fitting(s, w) && Running(DoOpen(s, w))
    ensures KeepsEntries(s.disk, w)
  {
    var t, u := DoOpen(s, w), OpenedState(s, w);
    assert t.mem == w.mem && t.imm.None? && t.written == s.written;
    assert t.disk.manifest.live == u.versions.live;
    assert Accounted(t.disk, t.disk.manifest, t.mem, [], t.logfileNumber, s.written);
    KeptIsWritten(s);
    hide LogEntries, EntriesSound, InKeptLog, Increasing, FilesOk, Running, Fits;
    forall e | InKeptLog(s.disk.logs, s.disk.manifest, e) ensures Reached(s.disk, w, e) {
      if Covered(t.disk.manifest.live, t.disk.tables, e) {
        CoveredMonotone(t.disk.manifest.live, t.disk.tables, u.versions.live, u.disk.tables, e);
        CoveredByOpening(s, w, e);
      }
    }
  }

  // ----- numbers -----

  /** Whether an entry bears a number the opened database will hand out again. */
  ghost predicate Ahead(w: Opening, e: Entry) { e.seqno > w.lastSequence }

  /** The counter is past everything ever written if and only if it is past everything in the kept logs; and past what
      recovery can read later if and only if the opening was saved, for then it forgets the passed-over logs, or that. */
  lemma CounterExactly(s: Db, w: Opening)
    requires Fitting(s, w)
    ensures var u := OpenedState(s, w);
            var past := forall e :: InKeptLog(s.disk.logs, s.disk.manifest, e) ==> !Ahead(w, e);
            && ((forall e :: e in s.written ==> !Ahead(w, e)) <==> past)
            && ((forall e :: Durable(u.disk, e) ==> !Ahead(w, e)) <==> w.save || past)
  {
    var u, m := OpenedState(s, w), s.disk.manifest;
    KeptIsWritten(s);
    TablesAreOld(s, w);
    hide LogEntries, EntriesSound, InKeptLog, Increasing, FilesOk, Grounded;
    forall e | e in s.written && Covered(m.live, s.disk.tables, e) ensures !Ahead(w, e) {
      var n, x :| n in m.live && n in s.disk.tables && x in s.disk.tables[n] && Supersedes(x, e);
    }
    forall e ensures InKeptLog(u.disk.logs, u.disk.manifest, e)
                <==> if w.save then e in w.mem else InKeptLog(s.disk.logs, m, e) {
      if w.save { OnlyTheNewLog(s.disk, w, u.disk.manifest, e); } else { SameLogsKept(s, w, e); }
    }
    if !w.save && (forall e :: Durable(u.disk, e) ==> !Ahead(w, e)) {
      forall e | InKeptLog(s.disk.logs, m, e) ensures !Ahead(w, e) {
        assert Durable(u.disk, e);
      }
    }
    forall e | Durable(u.disk, e) && !InKeptLog(u.disk.logs, u.disk.manifest, e) ensures !Ahead(w, e) {
    }
  }

  lemma TablesAreOld(s: Db, w: Opening)
    requires Fitting(s, w)
    ensures forall n, e :: n in s.disk.manifest.live && n in s.disk.tables && e in s.disk.tables[n] ==> !Ahead(w, e)
    ensures var u := OpenedState(s, w);
            forall n, e :: n in u.disk.manifest.live && n in u.disk.tables && e in u.disk.tables[n] ==> !Ahead(w, e)
    ensures forall e :: e in w.mem ==> !Ahead(w, e)
  {
    hide LogEntries, InKeptLog, Survives, Increasing, LogsOk;
    OldTablesStay(s.disk, w, s.written);
  }

  lemma SameLogsKept(s: Db, w: Opening, e: Entry)
    requires Fitting(s, w) && !w.save
    ensures InKeptLog(OpenedState(s, w).disk.logs, s.disk.manifest, e) <==> InKeptLog(s.disk.logs, s.disk.manifest, e)
  {
    assert LogEntries([]) == [];
    hide LogEntries, EntriesSound, Survives, Increasing, Grounded;
    var logs, m := OpenedState(s, w).disk.logs, s.disk.manifest;
    KeptLogsSame(s.disk.logs, logs, m);
    if InKeptLog(logs, m, e) {
      var n :| n in logs && KeepsLog(m, n) && e in LogEntries(logs[n]);
      assert n in s.disk.logs && logs[n] == s.disk.logs[n];
    }
  }

  /** So the next write repeats a number, or falls behind one, if and only if some written entry is ahead. */
  lemma NextWriteExactly(s: Db, w: Opening, r: Bytes)
    requires AtRest(s) && Enabled(DoOpen(s, w), Write(r)) && Count(r) > 0
    ensures Increasing(DoWrite(DoOpen(s, w), r).written) <==> forall e :: e in s.written ==> !Ahead(w, e)
  {
    hide RecordEntries, Sequence, Count, IterateStatus, IterateOps, DoOpen, Grounded, Survives, LogsOk, Increasing;
    OpenedCounter(s, w);
    AcceptedCount(r);
    FreshNumbers(r, w.lastSequence);
    NumbersGoOn(s.written, RecordEntries(r), w);
  }

  lemma OpenedCounter(s: Db, w: Opening)
    ensures var t := DoOpen(s, w); t.written == s.written && t.versions.lastSequence == w.lastSequence && t.open
  {
    hide OpenedDisk, CollectedDisk;
  }

  lemma NumbersGoOn(written: seq<Entry>, more: seq<Entry>, w: Opening)
    requires Increasing(written) && more != []
    requires forall i :: 0 <= i < |more| ==> more[i].seqno == w.lastSequence + 1 + i
    ensures Increasing(written + more) <==> forall e :: e in written ==> !Ahead(w, e)
  {
    if forall e :: e in written ==> !Ahead(w, e) {
      IncreasingConcat(written, more, w.lastSequence);
    }
    if Increasing(written + more) {
      forall e | e in written ensures !Ahead(w, e) {
        var i :| 0 <= i < |written| && written[i] == e;
        var all, j := written + more, |written|;
        assert all[i] == e && all[j] == more[0] && all[i].seqno < all[j].seqno;
      }
    }
  }

  // ----- DB::Open, whatever fails -----

  /** Whether the opening has taken effect on disk: it came as far as the install, if it needed one, and that may have
      reached the manifest. */
  predicate Takes(w: Opening, t: Trouble, through: bool) {
    through && (w.reuse || t.newLog) && (w.save ==> t.installs || t.onDisk)
  }

  /** The state DB::Open ends in. */
  function Ended(u: Db): Db {
    if u.open then Database.MaybeScheduleCompaction(DeleteObsoleteFiles(u)) else u
  }

  /** Opening a reachable database leaves a reachable one, whichever calls fail and whatever logs are passed over, if and
      only if it has not taken effect or leaves no entry out of reach. */
  lemma OpeningExactly(s: Db, w: Opening, t: Trouble, through: bool, tables: map<nat, seq<Entry>>)
    requires Reachable(s) && !s.open && Fitting(s, w) && Interrupts(s.disk, tables, None)
    ensures Reachable(Ended(Outcome(s, w, t, through, tables)))
       <==> (Takes(w, t, through) ==> KeepsEntries(s.disk, w))
  {
    var u := Outcome(s, w, t, through, tables);
    hide Reachable, FilesOk, EntriesSound, KeepsEntries, Interrupts, AtRest, Running;
    if !Takes(w, t, through) {
      NoEffect(s, w, t, through, tables);
    } else if KeepsEntries(s.disk, w) {
      SoundEffect(s, w, t, through, tables);
    } else if Reachable(Ended(u)) {
      UnsoundEffect(s, w, t, through, tables);
      assert false;
    }
  }

  lemma NoEffect(s: Db, w: Opening, t: Trouble, through: bool, tables: map<nat, seq<Entry>>)
    requires Reachable(s) && !s.open && FilesOk(s.disk, w) && Interrupts(s.disk, tables, None) && !Takes(w, t, through)
    ensures Reachable(Ended(Outcome(s, w, t, through, tables)))
  {
    hide Reachable, FilesOk, Interrupts, InterruptedDisk, OpenedDisk;
    OpenedInterrupts(s.disk, w);
    ReachableStep(s, OpenInterrupted(tables, None));
    ReachableStep(s, OpenInterrupted(OpenedDisk(s.disk, w).tables, if w.reuse then None else Some(w.log)));
  }

  lemma OpenedInterrupts(disk: Disk, w: Opening)
    requires FilesOk(disk, w)
    ensures var tables, log := OpenedDisk(disk, w).tables, if w.reuse then None else Some(w.log);
            Interrupts(disk, tables, log) && OpenedDisk(disk, w) == InterruptedDisk(disk, tables, log)
  {
    hide LogEntries;
  }

  lemma SoundEffect(s: Db, w: Opening, t: Trouble, through: bool, tables: map<nat, seq<Entry>>)
    requires Reachable(s) && !s.open && OpeningOk(s.disk, w) && Takes(w, t, through)
    ensures Reachable(Ended(Outcome(s, w, t, through, tables)))
  {
    hide Reachable, OpeningOk, OpenedDisk, OpenedManifest, DeleteObsoleteFiles, Database.MaybeScheduleCompaction;
    ReachableStep(s, Open(w));
    if w.save { ReachableStep(s, OpenNotInstalled(w)); }
  }

  lemma UnsoundEffect(s: Db, w: Opening, t: Trouble, through: bool, tables: map<nat, seq<Entry>>)
    requires Fitting(s, w) && Takes(w, t, through) && Reachable(Ended(Outcome(s, w, t, through, tables)))
    ensures KeepsEntries(s.disk, w)
  {
    var u := Outcome(s, w, t, through, tables);
    hide Reachable, FilesOk, EntriesSound, KeepsEntries, Running, Grounded, LogsOk, Increasing, Scheduling.SchedInv;
    ReachableInv(Ended(u));
    RunsOnExactly(s, w);
    SurvivesExactly(s, w);
  }

  // ----- the failing cases happen -----

  /** A database whose only log holds one entry, closed; and the opening it gets when that log cannot be read. */
  lemma OneEntryAtRest() returns (s: Db, r: Bytes)
    ensures Reachable(s) && !s.open && s.written == RecordEntries(r) == [Entry(1, Value, [], [])]
    ensures s.disk == Disk(map[2 := [r]], map[], Manifest({}, 2, 0, 3, 0))
    ensures Accepts(r) && Sequence(r) == 1 && Count(r) == 1
  {
    var running;
    running, r := OneEntryInMemory();
    hide Reachable, RecordEntries, Accepts, Sequence, Count;
    s := Apply(running, Crash(None));
    ReachableStep(running, Crash(None));
  }

  function PassingOver(saveManifest: bool): Opening { Opening(map[], {}, false, 3, [], 4, 0, saveManifest, false) }

  lemma OneLogPassedOver(o: Options, disk: Disk, t: Trouble, saveManifest: bool)
    requires disk.logs.Keys == {2} && disk.tables == map[] && disk.manifest == Manifest({}, 2, 0, 3, 0)
    requires t.unreadable == {2}
    ensures OpeningOf(Effective(o, t, [2]), Readable(disk, t.unreadable), [2], saveManifest, false)
         == PassingOver(saveManifest)
  {
    var e, r := Effective(o, t, [2]), Readable(disk, t.unreadable);
    assert Contents(r, [2]) == [[]];
    assert !e.reuseLogs;
    NothingInTheLog(e);
  }

  lemma NothingInTheLog(o: Options)
    requires !o.reuseLogs
    ensures RecoverLogs(o, [[]], 1) == Recovered([], None, 0, false)
    ensures RecoverFiles(o, Files(map[], 3, map[], {}), [[]], [2], 1) == Files(map[], 3, map[], {})
  {
    assert RecoverLogs(o, [[]], 0) == Recovered([], None, 0, false);
    assert ReplayRecords(o, 0, []) == Replay([], [], false, 0, false);
    assert RecoverFiles(o, Files(map[], 3, map[], {}), [[]], [2], 0) == Files(map[], 3, map[], {});
  }

  lemma PassingOverFits(s: Db, r: Bytes, saveManifest: bool)
    requires Reachable(s) && !s.open && s.disk == Disk(map[2 := [r]], map[], Manifest({}, 2, 0, 3, 0))
    requires s.written == RecordEntries(r) == [Entry(1, Value, [], [])]
    ensures Fitting(s, PassingOver(saveManifest)) && !KeepsEntries(s.disk, PassingOver(saveManifest))
    ensures InKeptLog(s.disk.logs, s.disk.manifest, Entry(1, Value, [], []))
  {
    ReachableInv(s);
    hide Reachable, RecordEntries, Scheduling.SchedInv, Survives, Grounded, LogsOk, Increasing;
    var e := Entry(1, Value, [], []);
    assert [r][..0] == [] && LogEntries([]) == [];
    assert LogEntries([r]) == [] + RecordEntries(r);
    assert e in LogEntries(s.disk.logs[2]);
  }

  /** Losing an acknowledged entry: the log cannot be read, errors are ignored, and a new manifest is written. */
  lemma LossHappens(o: Options, t: Trouble)
    requires t.unreadable == {2}
    ensures exists s :: Reachable(s) && !s.open
                        && var w := OpeningOf(Effective(o, t, [2]), Readable(s.disk, t.unreadable), [2], true, false);
                           var u := OpenedState(s, w);
                           Fitting(s, w) && !Survives(u.disk, u.disk.manifest, s.written)
  {
    var s, r := OneEntryAtRest();
    hide Reachable, RecordEntries, Accepts, Sequence, Count;
    OneLogPassedOver(o, s.disk, t, true);
    PassingOverFits(s, r, true);
    SurvivesExactly(s, PassingOver(true));
  }

  /** Handing a number out twice: the same, but no new manifest is needed. The log stays, and a later recovery will read
      it next to the new entry of the same number. */
  lemma RepetitionHappens(o: Options, t: Trouble)
    requires t.unreadable == {2}
    ensures exists s, r :: Reachable(s) && !s.open
                           && var w := OpeningOf(Effective(o, t, [2]), Readable(s.disk, t.unreadable), [2], false, false);
                              && Fitting(s, w) && Survives(OpenedState(s, w).disk, s.disk.manifest, s.written)
                              && Enabled(DoOpen(s, w), Write(r)) && !Increasing(DoWrite(DoOpen(s, w), r).written)
  {
    var s, r := OneEntryAtRest();
    var w := PassingOver(false);
    hide Reachable, RecordEntries, IterateStatus, Sequence, Count;
    OneLogPassedOver(o, s.disk, t, false);
    PassingOverFits(s, r, false);
    SurvivesExactly(s, w);
    OpenedCounter(s, w);
    assert Enabled(DoOpen(s, w), Write(r));
    NextWriteExactly(s, w, r);
    assert s.written[0] in s.written && Ahead(w, s.written[0]);
  }
}
