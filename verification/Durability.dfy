/** Nothing acknowledged is lost: the invariants that tie memtables, logs, tables and the manifest together, for a
    manifest that is current or only on its way to disk, and that they survive each change of the files. */
module Durability {
  import opened Coding
  import opened WriteBatches
  import opened Database

  /** Everything reachable from manifest `v` is there and was really written. */
  ghost predicate Grounded(disk: Disk, v: Manifest, written: seq<Entry>) {
    && (forall n :: n in v.live ==> n in disk.tables && n < v.nextFile)
    && (forall n, e :: n in v.live && n in disk.tables && e in disk.tables[n] ==>
          e in written && e.seqno <= v.lastSequence)
    && (forall n, e :: n in disk.logs && KeepsLog(v, n) && e in LogEntries(disk.logs[n]) ==> e in written)
  }

  /** Every written entry is in, or superseded in, a live table of `v`, or it is still in a memtable whose log `v`
      keeps. */
  ghost predicate Accounted(disk: Disk, v: Manifest, mem: seq<Entry>, imm: seq<Entry>, log: nat,
                            written: seq<Entry>) {
    && log in disk.logs && v.logNumber <= log
    && (forall e :: e in mem ==> e in LogEntries(disk.logs[log]))
    && (forall e :: e in imm ==> Covered(v.live, disk.tables, e) || InKeptLog(disk.logs, v, e))
    && (forall e :: e in written ==> Covered(v.live, disk.tables, e) || e in imm || e in mem)
  }

  /** Replaying the logs that `v` keeps over the tables that `v` names brings every written entry back. */
  ghost predicate Survives(disk: Disk, v: Manifest, written: seq<Entry>) {
    forall e :: e in written ==> Covered(v.live, disk.tables, e) || InKeptLog(disk.logs, v, e)
  }

  lemma AccountedSurvives(disk: Disk, v: Manifest, mem: seq<Entry>, imm: seq<Entry>, log: nat, written: seq<Entry>)
    requires Accounted(disk, v, mem, imm, log, written)
    ensures Survives(disk, v, written)
  {
  }

  /** Which manifest lies on disk does not matter to what would hold under `v`. */
  lemma ManifestApart(disk: Disk, m: Manifest, v: Manifest, mem: seq<Entry>, imm: seq<Entry>, log: nat,
                      written: seq<Entry>)
    ensures Grounded(disk.(manifest := m), v, written) <==> Grounded(disk, v, written)
    ensures Accounted(disk.(manifest := m), v, mem, imm, log, written) <==> Accounted(disk, v, mem, imm, log, written)
    ensures Survives(disk.(manifest := m), v, written) <==> Survives(disk, v, written)
  {
    hide Covered, InKeptLog, LogEntries;
  }

  // ----- one change at a time -----

  lemma CoveredMonotone(numbers: set<nat>, tables: map<nat, seq<Entry>>, more: set<nat>,
                        newTables: map<nat, seq<Entry>>, e: Entry)
    requires Covered(numbers, tables, e) && numbers <= more
    requires forall n :: n in numbers && n in tables ==> n in newTables && newTables[n] == tables[n]
    ensures Covered(more, newTables, e)
  {
    var n, x :| n in numbers && n in tables && x in tables[n] && Supersedes(x, e);
    assert n in more && n in newTables && x in newTables[n];
  }

  /** Files that `v` does not name may come, go and change. */
  lemma TablesMayChange(disk: Disk, v: Manifest, mem: seq<Entry>, imm: seq<Entry>, log: nat, written: seq<Entry>,
                        tables: map<nat, seq<Entry>>)
    requires Grounded(disk, v, written)
    requires forall n :: n in v.live ==> n in tables && tables[n] == disk.tables[n]
    ensures Grounded(disk.(tables := tables), v, written)
    ensures Accounted(disk, v, mem, imm, log, written) ==>
              Accounted(disk.(tables := tables), v, mem, imm, log, written)
    ensures Survives(disk, v, written) ==> Survives(disk.(tables := tables), v, written)
  {
    var after := disk.(tables := tables);
    forall e | Covered(v.live, disk.tables, e) ensures Covered(v.live, tables, e) {
      CoveredMonotone(v.live, disk.tables, v.live, tables, e);
    }
  }

  lemma KeptLogsSame(before: map<nat, seq<Bytes>>, after: map<nat, seq<Bytes>>, v: Manifest)
    requires forall n :: n in before && KeepsLog(v, n) ==> n in after && after[n] == before[n]
    ensures forall e :: InKeptLog(before, v, e) ==> InKeptLog(after, v, e)
  {
    forall e | InKeptLog(before, v, e) ensures InKeptLog(after, v, e) {
      var n :| n in before && KeepsLog(v, n) && e in LogEntries(before[n]);
      assert n in after && e in LogEntries(after[n]);
    }
  }

  predicate SameFiles(a: Manifest, b: Manifest) {
    a.live == b.live && a.logNumber == b.logNumber && a.prevLogNumber == b.prevLogNumber
  }

  /** Logs that `v` does not keep may go. */
  lemma LogsMayGo(disk: Disk, v: Manifest, mem: seq<Entry>, imm: seq<Entry>, log: nat, written: seq<Entry>,
                  logs: map<nat, seq<Bytes>>)
    requires Grounded(disk, v, written) && Accounted(disk, v, mem, imm, log, written)
    requires forall n :: n in logs ==> n in disk.logs && logs[n] == disk.logs[n]
    requires forall n :: n in disk.logs && KeepsLog(v, n) ==> n in logs
    ensures Grounded(disk.(logs := logs), v, written)
    ensures Accounted(disk.(logs := logs), v, mem, imm, log, written)
  {
    hide LogEntries;
    KeptLogsSame(disk.logs, logs, v);
  }

  /** Collecting by the same live set and log numbers loses nothing. */
  lemma CollectionKeeps(disk: Disk, v: Manifest, w: Manifest, pending: set<nat>, mem: seq<Entry>, imm: seq<Entry>,
                        log: nat, written: seq<Entry>)
    requires SameFiles(v, w) && Grounded(disk, v, written) && Accounted(disk, v, mem, imm, log, written)
    ensures Grounded(CollectedDisk(disk, w, pending), v, written)
    ensures Accounted(CollectedDisk(disk, w, pending), v, mem, imm, log, written)
  {
    var after := CollectedDisk(disk, w, pending);
    hide Grounded, Accounted;
    assert forall n :: n in v.live ==> n in after.tables && after.tables[n] == disk.tables[n] by {
      CollectedTables(disk, v, w, pending, written);
    }
    TablesMayChange(disk, v, mem, imm, log, written, after.tables);
    LogsMayGo(disk.(tables := after.tables), v, mem, imm, log, written, after.logs);
  }

  lemma CollectedTables(disk: Disk, v: Manifest, w: Manifest, pending: set<nat>, written: seq<Entry>)
    requires SameFiles(v, w) && Grounded(disk, v, written)
    ensures var after := CollectedDisk(disk, w, pending);
            forall n :: n in v.live ==> n in after.tables && after.tables[n] == disk.tables[n]
  {
  }

  lemma WriteKeeps(disk: Disk, v: Manifest, mem: seq<Entry>, imm: seq<Entry>, log: nat, written: seq<Entry>, r: Bytes)
    requires Grounded(disk, v, written) && Accounted(disk, v, mem, imm, log, written)
    ensures var after := disk.(logs := disk.logs[log := disk.logs[log] + [r]]);
            && Grounded(after, v, written + RecordEntries(r))
            && Accounted(after, v, mem + RecordEntries(r), imm, log, written + RecordEntries(r))
  {
    var records := disk.logs[log] + [r];
    assert records[..|records| - 1] == disk.logs[log];
    LongerLogKeeps(disk, v, mem, imm, log, written, records, RecordEntries(r));
  }

  lemma LongerLogKeeps(disk: Disk, v: Manifest, mem: seq<Entry>, imm: seq<Entry>, log: nat, written: seq<Entry>,
                       records: seq<Bytes>, more: seq<Entry>)
    requires Grounded(disk, v, written) && Accounted(disk, v, mem, imm, log, written)
    requires LogEntries(records) == LogEntries(disk.logs[log]) + more
    ensures var after := disk.(logs := disk.logs[log := records]);
            Grounded(after, v, written + more) && Accounted(after, v, mem + more, imm, log, written + more)
  {
    var after := disk.(logs := disk.logs[log := records]);
    hide LogEntries;
    forall e | InKeptLog(disk.logs, v, e) ensures InKeptLog(after.logs, v, e) {
      var n :| n in disk.logs && KeepsLog(v, n) && e in LogEntries(disk.logs[n]);
      assert n in after.logs && e in LogEntries(after.logs[n]);
    }
  }

  lemma SwitchKeeps(disk: Disk, v: Manifest, mem: seq<Entry>, log: nat, written: seq<Entry>, n: nat)
    requires Grounded(disk, v, written) && Accounted(disk, v, mem, [], log, written)
    requires n !in disk.logs && v.logNumber <= n
    ensures var after := disk.(logs := disk.logs[n := []]);
            Grounded(after, v, written) && Accounted(after, v, [], mem, n, written)
  {
    var after := disk.(logs := disk.logs[n := []]);
    SwitchGrounded(disk, v, written, n);
    hide Grounded, Covered, LogEntries;
    forall e | e in mem ensures InKeptLog(after.logs, v, e) {
      assert log in after.logs && KeepsLog(v, log) && e in LogEntries(after.logs[log]);
    }
    hide InKeptLog;
  }

  lemma SwitchGrounded(disk: Disk, v: Manifest, written: seq<Entry>, n: nat)
    requires Grounded(disk, v, written) && n !in disk.logs
    ensures Grounded(disk.(logs := disk.logs[n := []]), v, written)
  {
    assert LogEntries([]) == [];
    hide LogEntries;
  }

  /** Raising the counters of a manifest keeps it grounded. */
  lemma CountersMayGrow(disk: Disk, v: Manifest, w: Manifest, mem: seq<Entry>, imm: seq<Entry>, log: nat,
                        written: seq<Entry>)
    requires SameFiles(v, w) && v.nextFile <= w.nextFile && v.lastSequence <= w.lastSequence
    requires Grounded(disk, v, written) && Accounted(disk, v, mem, imm, log, written)
    ensures Grounded(disk, w, written) && Accounted(disk, w, mem, imm, log, written)
  {
    forall e | InKeptLog(disk.logs, v, e) ensures InKeptLog(disk.logs, w, e) {
      var n :| n in disk.logs && KeepsLog(v, n) && e in LogEntries(disk.logs[n]);
    }
  }

  /** Flushing: once the immutable memtable is in table `n`, the edit may drop every log before the current one. */
  lemma FlushEditKeeps(disk: Disk, v: Manifest, mem: seq<Entry>, imm: seq<Entry>, log: nat, written: seq<Entry>, n: nat)
    requires Grounded(disk, v, written) && Accounted(disk, v, mem, imm, log, written) && v.prevLogNumber == 0
    requires forall e :: e in imm ==> e in written
    requires forall e :: e in written ==> e.seqno <= v.lastSequence
    requires imm != [] ==> n in disk.tables && disk.tables[n] == imm && n < v.nextFile
    ensures var edit := v.(live := v.live + (if imm == [] then {} else {n}), logNumber := log, prevLogNumber := 0);
            Grounded(disk, edit, written) && Accounted(disk, edit, mem, [], log, written)
  {
    var edit := v.(live := v.live + (if imm == [] then {} else {n}), logNumber := log, prevLogNumber := 0);
    FlushEditGrounded(disk, v, mem, imm, log, written, n);
    hide Grounded, LogEntries, InKeptLog;
    forall e | e in written ensures Covered(edit.live, disk.tables, e) || e in mem {
      if Covered(v.live, disk.tables, e) {
        CoveredMonotone(v.live, disk.tables, edit.live, disk.tables, e);
      } else if e in imm {
        assert n in edit.live && e in disk.tables[n] && Supersedes(e, e);
      }
    }
  }

  lemma FlushEditGrounded(disk: Disk, v: Manifest, mem: seq<Entry>, imm: seq<Entry>, log: nat, written: seq<Entry>, n: nat)
    requires Grounded(disk, v, written) && v.logNumber <= log && log in disk.logs && v.prevLogNumber == 0
    requires forall e :: e in imm ==> e in written
    requires forall e :: e in written ==> e.seqno <= v.lastSequence
    requires imm != [] ==> n in disk.tables && disk.tables[n] == imm && n < v.nextFile
    ensures var edit := v.(live := v.live + (if imm == [] then {} else {n}), logNumber := log, prevLogNumber := 0);
            Grounded(disk, edit, written)
  {
    hide LogEntries;
  }

  lemma CoveredTransitive(inputs: set<nat>, outputs: set<nat>, tables: map<nat, seq<Entry>>, e: Entry)
    requires Merges(tables, inputs, outputs) && Covered(inputs, tables, e)
    ensures Covered(outputs, tables, e)
  {
    var n, x :| n in inputs && n in tables && x in tables[n] && Supersedes(x, e);
    assert Covered(outputs, tables, x);
    var m, y :| m in outputs && m in tables && y in tables[m] && Supersedes(y, x);
    assert Supersedes(y, e);
  }

  lemma CompactedStillCovered(live: set<nat>, inputs: set<nat>, outputs: set<nat>, tables: map<nat, seq<Entry>>, e: Entry)
    requires Merges(tables, inputs, outputs) && Covered(live, tables, e)
    ensures Covered(live - inputs + outputs, tables, e)
  {
    var n, x :| n in live && n in tables && x in tables[n] && Supersedes(x, e);
    if n in inputs {
      assert Covered(inputs, tables, e);
      CoveredTransitive(inputs, outputs, tables, e);
      CoveredMonotone(outputs, tables, live - inputs + outputs, tables, e);
    } else {
      assert n in live - inputs + outputs;
    }
  }

  /** Compacting: replacing inputs by outputs that supersede them loses nothing. */
  lemma CompactEditKeeps(disk: Disk, v: Manifest, mem: seq<Entry>, imm: seq<Entry>, log: nat, written: seq<Entry>,
                         inputs: set<nat>, outputs: set<nat>)
    requires Grounded(disk, v, written) && Accounted(disk, v, mem, imm, log, written)
    requires inputs <= v.live && Merges(disk.tables, inputs, outputs)
    requires forall n :: n in outputs ==> n < v.nextFile
    ensures var edit := v.(live := v.live - inputs + outputs);
            Grounded(disk, edit, written) && Accounted(disk, edit, mem, imm, log, written)
  {
    var edit := v.(live := v.live - inputs + outputs);
    CompactEditGrounded(disk, v, written, inputs, outputs);
    hide Grounded, LogEntries;
    forall e | Covered(v.live, disk.tables, e) ensures Covered(edit.live, disk.tables, e) {
      CompactedStillCovered(v.live, inputs, outputs, disk.tables, e);
    }
    forall e | InKeptLog(disk.logs, v, e) ensures InKeptLog(disk.logs, edit, e) {
      var n :| n in disk.logs && KeepsLog(v, n) && e in LogEntries(disk.logs[n]);
    }
    hide Covered, InKeptLog, Merges;
  }

  lemma CompactEditGrounded(disk: Disk, v: Manifest, written: seq<Entry>, inputs: set<nat>, outputs: set<nat>)
    requires Grounded(disk, v, written) && inputs <= v.live && Merges(disk.tables, inputs, outputs)
    requires forall n :: n in outputs ==> n < v.nextFile
    ensures Grounded(disk, v.(live := v.live - inputs + outputs), written)
  {
    hide LogEntries, Covered;
    forall n, e | n in outputs && e in disk.tables[n] ensures e in written && e.seqno <= v.lastSequence {
      assert HeldIn(inputs, disk.tables, disk.tables[n]);
      var m :| m in inputs && m in disk.tables && e in disk.tables[m];
    }
  }

  // ----- opening -----

  /** A crash in the middle of opening leaves only files the manifest does not name, or an empty new log. */
  lemma OpenedDiskKeeps(disk: Disk, o: Opening, written: seq<Entry>)
    requires FilesOk(disk, o) && Grounded(disk, disk.manifest, written) && Survives(disk, disk.manifest, written)
    ensures Grounded(OpenedDisk(disk, o), disk.manifest, written)
    ensures Survives(OpenedDisk(disk, o), disk.manifest, written)
  {
    var m := disk.manifest;
    var half := disk.(tables := disk.tables - o.dropped + o.tables);
    var after := OpenedDisk(disk, o);
    TablesMayChange(disk, m, [], [], 0, written, half.tables);
    assert LogEntries([]) == [];
    hide LogEntries;
    KeptLogsSame(half.logs, after.logs, m);
  }

  /** What the recovered state accounts for when nothing is installed: the old manifest, the new memtable. */
  lemma OpenedUnsaved(disk: Disk, o: Opening, written: seq<Entry>)
    requires OpeningOk(disk, o) && !o.save
    requires Grounded(disk, disk.manifest, written) && Survives(disk, disk.manifest, written)
    ensures Accounted(OpenedDisk(disk, o), disk.manifest, o.mem, [], o.log, written)
  {
    var m, after := disk.manifest, OpenedDisk(disk, o);
    assert o.tables == map[];
    hide LogEntries, InKeptLog, EntriesSound;
    forall e | e in written ensures Covered(m.live, after.tables, e) || e in o.mem {
      assert Reached(disk, o, e);
      if Covered(m.live, disk.tables, e) { CoveredMonotone(m.live, disk.tables, m.live, after.tables, e); }
    }
  }

  /** Whatever an interrupted recovery leaves, nothing that was there before is gone. */
  lemma InterruptedKeeps(disk: Disk, tables: map<nat, seq<Entry>>, log: Option<nat>, written: seq<Entry>)
    requires Interrupts(disk, tables, log)
    requires Grounded(disk, disk.manifest, written) && Survives(disk, disk.manifest, written)
    ensures var after := InterruptedDisk(disk, tables, log);
            Grounded(after, disk.manifest, written) && Survives(after, disk.manifest, written)
  {
    var m, half, after := disk.manifest, disk.(tables := tables), InterruptedDisk(disk, tables, log);
    TablesMayChange(disk, m, [], [], 0, written, tables);
    assert LogEntries([]) == [];
    hide LogEntries, Covered;
    KeptLogsSame(half.logs, after.logs, m);
  }

  /** Files the manifest does not keep may be gone, however far a collection got. */
  lemma CutKeeps(disk: Disk, logs: set<nat>, tables: set<nat>, written: seq<Entry>)
    requires tables !! disk.manifest.live && forall n :: n in logs ==> !KeepsLog(disk.manifest, n)
    requires Grounded(disk, disk.manifest, written) && Survives(disk, disk.manifest, written)
    ensures var after := disk.(logs := disk.logs - logs, tables := disk.tables - tables);
            Grounded(after, disk.manifest, written) && Survives(after, disk.manifest, written)
  {
    var m, half := disk.manifest, disk.(tables := disk.tables - tables);
    TablesMayChange(disk, m, [], [], 0, written, half.tables);
    hide LogEntries, Covered;
    KeptLogsSame(half.logs, half.logs - logs, m);
  }

  /** The manifest that DB::Open installs names the new tables and keeps only the log it goes on writing. */
  lemma OpenedSaved(disk: Disk, o: Opening, written: seq<Entry>)
    requires OpeningOk(disk, o) && disk.manifest.prevLogNumber == 0
    requires Grounded(disk, disk.manifest, written) && Survives(disk, disk.manifest, written)
    ensures var after, w := OpenedDisk(disk, o), OpenedManifest(disk, o);
            Grounded(after, w, written) && Accounted(after, w, o.mem, [], o.log, written)
  {
    var m, after, w := disk.manifest, OpenedDisk(disk, o), OpenedManifest(disk, o);
    OpenedGrounded(disk, o, written);
    OldTablesStay(disk, o, written);
    hide LogEntries, Grounded, InKeptLog, EntriesSound;
    forall e | e in written ensures Covered(w.live, after.tables, e) || e in o.mem {
      assert Covered(m.live, disk.tables, e) || Reached(disk, o, e);
      if Covered(m.live, disk.tables, e) { CoveredMonotone(m.live, disk.tables, w.live, after.tables, e); }
      if Covered(o.tables.Keys, o.tables, e) { CoveredMonotone(o.tables.Keys, o.tables, w.live, after.tables, e); }
    }
  }

  lemma OpenedGrounded(disk: Disk, o: Opening, written: seq<Entry>)
    requires FilesOk(disk, o) && EntriesSound(disk, o) && disk.manifest.prevLogNumber == 0
    requires Grounded(disk, disk.manifest, written)
    ensures Grounded(OpenedDisk(disk, o), OpenedManifest(disk, o), written)
    ensures var m, after := disk.manifest, OpenedDisk(disk, o);
            forall n :: n in m.live ==> n in after.tables && after.tables[n] == disk.tables[n]
  {
    hide LogEntries, EntriesSound, KeepsLog;
    OldTablesStay(disk, o, written);
    NewTablesWritten(disk, o, written);
    KeptLogsLater(disk, o, written);
  }

  lemma OldTablesStay(disk: Disk, o: Opening, written: seq<Entry>)
    requires FilesOk(disk, o) && Grounded(disk, disk.manifest, written)
    ensures var m, after := disk.manifest, OpenedDisk(disk, o);
            forall n :: n in m.live ==> n in after.tables && after.tables[n] == disk.tables[n]
  {
    hide LogEntries, EntriesSound, KeepsLog;
    var m, after := disk.manifest, OpenedDisk(disk, o);
    forall n | n in m.live ensures n in after.tables && after.tables[n] == disk.tables[n] {
      assert n !in o.tables && n !in o.dropped;
    }
  }

  lemma NewTablesWritten(disk: Disk, o: Opening, written: seq<Entry>)
    requires EntriesSound(disk, o) && Grounded(disk, disk.manifest, written)
    ensures forall n, e :: n in o.tables && e in o.tables[n] ==> e in written && e.seqno <= o.lastSequence
  {
    hide LogEntries;
    forall n, e | n in o.tables && e in o.tables[n] ensures e in written && e.seqno <= o.lastSequence {
      assert InKeptLog(disk.logs, disk.manifest, e);
    }
  }

  lemma KeptLogsLater(disk: Disk, o: Opening, written: seq<Entry>)
    requires FilesOk(disk, o) && disk.manifest.prevLogNumber == 0 && Grounded(disk, disk.manifest, written)
    ensures var logs := OpenedDisk(disk, o).logs;
            forall n, e :: n in logs && KeepsLog(OpenedManifest(disk, o), n) && e in LogEntries(logs[n]) ==> e in written
  {
    assert LogEntries([]) == [];
    hide LogEntries, EntriesSound;
  }
}
