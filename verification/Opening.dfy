/** Recover and DB::Open (db/dp_impl.cpp) from the directory listing to the state they reach, and why what they work
    out is a sound opening of the state machine in module Database. */
module Openings {
  import opened Coding
  import opened WriteBatches
  import opened Database
  import opened Durability
  import opened Recovery
  import opened Directory
  import opened Invariants
  import opened TableBuilding
  import Scheduling

  /** The logs to replay, in the order in which they were generated. */
  function LogNumbers(filenames: seq<string>, v: Manifest): seq<nat> { Sorted(ScanLogs(filenames, v)) }

  function Contents(disk: Disk, numbers: seq<nat>): seq<seq<Bytes>> {
    seq(|numbers|, i requires 0 <= i < |numbers| => Records(disk, numbers[i]))
  }

  function RecoveredFrom(o: Options, disk: Disk, numbers: seq<nat>): Recovered {
    RecoverLogs(o, Contents(disk, numbers), |numbers|)
  }

  function FilesBefore(disk: Disk): Files { Files(disk.tables, disk.manifest.nextFile, map[], {}) }

  function FilesFrom(o: Options, disk: Disk, numbers: seq<nat>): Files {
    RecoverFiles(o, FilesBefore(disk), Contents(disk, numbers), numbers, |numbers|)
  }

  lemma ReusedIsLast(o: Options, disk: Disk, numbers: seq<nat>)
    ensures RecoveredFrom(o, disk, numbers).reused.Some? ==> numbers != []
  {
  }

  /** What DB::Open hands to LogAndApply and keeps. `saveManifest` is what VersionSet::Recover asks for, `needs`
      whether the recovered version wants compacting. */
  function OpeningOf(o: Options, disk: Disk, numbers: seq<nat>, saveManifest: bool, needs: bool): Opening
  {
    var rec, f := RecoveredFrom(o, disk, numbers), FilesFrom(o, disk, numbers);
    ReusedIsLast(o, disk, numbers);
    Opening(f.added, f.dropped, rec.reused.Some?,
            if rec.reused.Some? then numbers[|numbers| - 1] else f.next,
            if rec.reused.Some? then LogEntries(rec.reused.value) else [],
            if rec.reused.Some? then f.next else f.next + 1,
            Max(disk.manifest.lastSequence, rec.maxSequence), saveManifest || rec.groups != [], needs)
  }

  /** A log that cannot be opened is passed over, as if it were empty, when errors are ignored. */
  function Readable(disk: Disk, unreadable: set<nat>): Disk {
    disk.(logs := map n | n in disk.logs :: if n in unreadable then [] else disk.logs[n])
  }

  lemma ReadableRecords(disk: Disk, unreadable: set<nat>, n: nat)
    ensures Records(Readable(disk, unreadable), n) == if n in unreadable then [] else Records(disk, n)
  {
  }

  /** The last log is only gone on with if it can be opened both ways. */
  function Effective(o: Options, t: Trouble, numbers: seq<nat>): Options {
    o.(reuseLogs := o.reuseLogs && t.appendable && (numbers == [] || numbers[|numbers| - 1] !in t.unreadable))
  }

  /** When Recover's loop over the logs gets through. */
  predicate GetsThrough(o: Options, disk: Disk, t: Trouble, numbers: seq<nat>) {
    var e, d := Effective(o, t, numbers), Readable(disk, t.unreadable);
    && (o.paranoid ==> forall n :: n in numbers ==> n !in t.unreadable)
    && !RecoveredFrom(e, d, numbers).failed
    && AllBuild(e, FilesBefore(d), Contents(d, numbers), numbers, |numbers|, t.build)
  }

  /** What DB::Open leaves before it collects: `through` tells whether recovery got that far, `tables` what it wrote. */
  function Outcome(s: Db, w: Opening, t: Trouble, through: bool, tables: map<nat, seq<Entry>>): Db {
    if !through || (!w.reuse && !t.newLog) then Closed(s, InterruptedDisk(s.disk, tables, None))
    else if !w.save || t.installs then OpenedState(s, w)
    else Closed(s, if t.onDisk then OpenedDisk(s.disk, w).(manifest := OpenedManifest(s.disk, w))
                   else OpenedDisk(s.disk, w))
  }

  /** The numbers picked are exactly the logs the manifest keeps. */
  ghost predicate Picks(disk: Disk, numbers: seq<nat>) {
    Ascending(numbers) && forall n :: n in numbers <==> n in disk.logs && KeepsLog(disk.manifest, n)
  }

  lemma ListingPicks(disk: Disk, d: Dir, filenames: seq<string>)
    requires Lists(filenames, d) && d.logs == disk.logs.Keys
    ensures Picks(disk, LogNumbers(filenames, disk.manifest))
  {
    var found := ScanLogs(filenames, disk.manifest);
    forall n ensures n in found <==> n in disk.logs && KeepsLog(disk.manifest, n) {
      ScanOfListing(filenames, d, disk.manifest, n);
    }
    ScanLogsDistinct(filenames, d, disk.manifest);
    SortedIsAscending(found);
  }

  lemma ContentsAre(disk: Disk, numbers: seq<nat>, e: Entry)
    requires Picks(disk, numbers)
    ensures InLogs(Contents(disk, numbers), |numbers|, e) <==> InKeptLog(disk.logs, disk.manifest, e)
  {
    var logs := Contents(disk, numbers);
    hide LogEntries;
    if InLogs(logs, |numbers|, e) {
      var i :| 0 <= i < |numbers| && e in LogEntries(logs[i]);
      assert numbers[i] in numbers;
    }
    if InKeptLog(disk.logs, disk.manifest, e) {
      var n :| n in disk.logs && KeepsLog(disk.manifest, n) && e in LogEntries(disk.logs[n]);
      var i :| 0 <= i < |numbers| && numbers[i] == n;
      assert e in LogEntries(logs[i]);
    }
  }

  lemma ContentsWellFormed(disk: Disk, numbers: seq<nat>)
    requires LogsOk(disk) && Picks(disk, numbers)
    ensures |Contents(disk, numbers)| == |numbers| && AllUnwrapped(Contents(disk, numbers))
  {
    var logs := Contents(disk, numbers);
    forall i, r | 0 <= i < |logs| && r in logs[i] ensures Unwrapped(r) {
      assert numbers[i] in numbers && WellFormed(r);
    }
  }

  /** Every kept log's entries are in the new tables or the reused memtable, nothing else is in the new tables, and
      the counter is past them all. */
  lemma EntriesRecovered(o: Options, disk: Disk, numbers: seq<nat>, saveManifest: bool, needs: bool, e: Entry)
    requires LogsOk(disk) && Picks(disk, numbers)
    ensures var w := OpeningOf(o, disk, numbers, saveManifest, needs);
            && (InKeptLog(disk.logs, disk.manifest, e) ==>
                  && e.seqno <= w.lastSequence
                  && (e in w.mem || exists t :: t in w.tables && e in w.tables[t]))
            && (forall t :: t in w.tables && e in w.tables[t] ==> InKeptLog(disk.logs, disk.manifest, e))
  {
    var logs := Contents(disk, numbers);
    ContentsWellFormed(disk, numbers);
    RecoverSequence(o, logs, |logs|);
    RecoveredEntriesExactly(o, logs, e);
    RecoverFilesHold(o, FilesBefore(disk), logs, numbers, |logs|);
    ContentsAre(disk, numbers, e);
    assert LogEntries([]) == [];
    hide LogEntries, InKeptLog, InGroups, RecoverLogs, RecoverFiles, WellFormed, Picks, LogsOk, Contents, EndsRecord, AllEnded, AllUnwrapped;
  }

  /** The files and counters of the opening. */
  lemma FilesRecovered(o: Options, disk: Disk, numbers: seq<nat>, saveManifest: bool, needs: bool)
    requires LogsOk(disk) && Picks(disk, numbers)
    ensures var w := OpeningOf(o, disk, numbers, saveManifest, needs);
            && FilesFrom(o, disk, numbers).tables == disk.tables - w.dropped + w.tables
            && (forall n :: n in w.tables || n in w.dropped ==> disk.manifest.nextFile <= n < w.nextFile)
            && disk.manifest.nextFile <= w.nextFile && disk.manifest.lastSequence <= w.lastSequence
            && (forall n :: n in disk.logs && KeepsLog(disk.manifest, n) ==> n < w.nextFile)
            && (w.tables != map[] ==> w.save)
            && (if w.reuse then numbers != [] && w.log == numbers[|numbers| - 1] && w.log in numbers && w.log < w.nextFile
                                && w.mem == LogEntries(disk.logs[w.log])
                else && w.mem == [] && w.log + 1 == w.nextFile && disk.manifest.nextFile <= w.log
                     && forall n :: n in numbers ==> n < w.log)
  {
    var rec, f := RecoveredFrom(o, disk, numbers), FilesFrom(o, disk, numbers);
    ContentsWellFormed(disk, numbers);
    RecoverSequence(o, Contents(disk, numbers), |numbers|);
    RecoverFilesHold(o, FilesBefore(disk), Contents(disk, numbers), numbers, |numbers|);
    ReusedHolds(o, disk, numbers);
    NothingNew(FilesBefore(disk), f, rec.groups);
    hide RecoveredFrom, RecoverFiles, LogsOk, LogEntries, InGroups;
    assert forall n :: n in numbers ==> n < f.next;
  }

  lemma ReusedHolds(o: Options, disk: Disk, numbers: seq<nat>)
    requires LogsOk(disk) && Picks(disk, numbers)
    ensures var rec := RecoveredFrom(o, disk, numbers);
            rec.reused.Some? ==>
              && numbers != [] && numbers[|numbers| - 1] in disk.logs
              && LogEntries(rec.reused.value) == LogEntries(disk.logs[numbers[|numbers| - 1]])
  {
    hide *;
    var rec := RecoveredFrom(o, disk, numbers);
    if rec.reused.Some? {
      ReusedRecords(o, disk, numbers);
      ReplayedEntries(disk.logs[numbers[|numbers| - 1]]);
    }
  }

  lemma ReusedRecords(o: Options, disk: Disk, numbers: seq<nat>)
    requires LogsOk(disk) && Picks(disk, numbers) && RecoveredFrom(o, disk, numbers).reused.Some?
    ensures numbers != [] && numbers[|numbers| - 1] in disk.logs
    ensures RecoveredFrom(o, disk, numbers).reused.value == Replayed(disk.logs[numbers[|numbers| - 1]])
  {
    hide RecoverLogs, LogsOk, Replayed, ReplayedLogs, Flatten, AllUnwrapped, AllNumbered, AllEnded, EndsRecord;
    ContentsWellFormed(disk, numbers);
    RecoverSequence(o, Contents(disk, numbers), |numbers|);
    RecoveryConserves(o, Contents(disk, numbers), |numbers|);
    assert numbers != [];
    assert numbers[|numbers| - 1] in numbers;
  }

  lemma NothingNew(start: Files, f: Files, groups: seq<seq<Bytes>>)
    requires FilesHold(start, f, groups)
    ensures f.added != map[] ==> groups != []
  {
    if f.added != map[] {
      var n :| n in f.added;
      assert f.added[n][0] in f.added[n];
      assert InGroups(groups, f.added[n][0]);
    }
  }

  /** In any state the database can be left in, recovery of the listed directory succeeds, whatever logs errors make it
      pass over, and computes an opening the machine may take if and only if no log it passed over holds an entry out of
      reach; so it does when every kept log can be read. */
  lemma RecoveryIsSound(o: Options, s: Db, d: Dir, filenames: seq<string>, t: Trouble, saveManifest: bool, needs: bool)
    requires !s.open && Inv(s) && Lists(filenames, d)
    requires d.logs == s.disk.logs.Keys && d.tables == s.disk.tables.Keys
    ensures var numbers := LogNumbers(filenames, s.disk.manifest);
            var e, r := Effective(o, t, numbers), Readable(s.disk, t.unreadable);
            var w := OpeningOf(e, r, numbers, saveManifest, needs);
            && Missing(filenames, s.disk.manifest.live) == {} && !RecoveredFrom(e, r, numbers).failed
            && FilesOk(s.disk, w) && EntriesSound(s.disk, w)
            && (Enabled(s, Open(w)) <==> KeepsEntries(s.disk, w))
            && (AllReadable(s.disk, t.unreadable) ==> KeepsEntries(s.disk, w))
  {
    hide *;
    var numbers := LogNumbers(filenames, s.disk.manifest);
    var e, r := Effective(o, t, numbers), Readable(s.disk, t.unreadable);
    Rested(s);
    ListingPicks(s.disk, d, filenames);
    NothingFails(e, s.disk, d, s.written, filenames, numbers, t.unreadable);
    RecoveryFits(o, s.disk, s.written, t, numbers, saveManifest, needs);
    OutOfReachExactly(o, s.disk, s.written, t, numbers, saveManifest, needs);
    MayOpen(s, OpeningOf(e, r, numbers, saveManifest, needs));
  }

  lemma NothingFails(o: Options, disk: Disk, d: Dir, written: seq<Entry>, filenames: seq<string>, numbers: seq<nat>,
                     unreadable: set<nat>)
    requires Lists(filenames, d) && d.tables == disk.tables.Keys && Grounded(disk, disk.manifest, written)
    requires LogsOk(disk) && Picks(disk, numbers)
    ensures Missing(filenames, disk.manifest.live) == {}
    ensures !RecoveredFrom(o, Readable(disk, unreadable), numbers).failed
  {
    hide Lists, Missing, LogsOk, Picks, RecoverLogs, WellFormed, LogEntries, Readable;
    MissingCheckExactly(filenames, d, disk.manifest.live);
    ReadableOk(disk, unreadable, numbers);
    ContentsWellFormed(Readable(disk, unreadable), numbers);
    RecoverSequence(o, Contents(Readable(disk, unreadable), numbers), |numbers|);
  }

  lemma Rested(s: Db)
    requires !s.open && Inv(s)
    ensures LogsOk(s.disk) && Grounded(s.disk, s.disk.manifest, s.written)
    ensures s.disk.manifest.prevLogNumber == 0 && s.disk.manifest.logNumber < s.disk.manifest.nextFile
  {
    hide Grounded, LogsOk, Survives, Scheduling.SchedInv, Increasing, Running;
  }

  lemma MayOpen(s: Db, o: Opening)
    requires !s.open && FilesOk(s.disk, o) && EntriesSound(s.disk, o)
    ensures Enabled(s, Open(o)) <==> KeepsEntries(s.disk, o)
  {
    hide FilesOk, EntriesSound, KeepsEntries;
  }

  /** What recovery works out fits the disk it started from, even where it read only a part of it. */
  lemma RecoveryFits(o: Options, disk: Disk, written: seq<Entry>, t: Trouble, numbers: seq<nat>, saveManifest: bool,
                     needs: bool)
    requires LogsOk(disk) && Picks(disk, numbers) && Grounded(disk, disk.manifest, written)
    requires disk.manifest.prevLogNumber == 0 && disk.manifest.logNumber < disk.manifest.nextFile
    ensures var w := OpeningOf(Effective(o, t, numbers), Readable(disk, t.unreadable), numbers, saveManifest, needs);
            FilesOk(disk, w) && EntriesSound(disk, w)
  {
    hide OpeningOf, LogEntries, LogsOk, FilesFrom, Effective, Readable, InKeptLog;
    var e, r := Effective(o, t, numbers), Readable(disk, t.unreadable);
    var w := OpeningOf(e, r, numbers, saveManifest, needs);
    ReadableOk(disk, t.unreadable, numbers);
    FilesRecovered(e, r, numbers, saveManifest, needs);
    LogChosen(disk, numbers, w.log);
    ReusedIsReadable(o, disk, t, numbers, saveManifest, needs);
    hide Picks;
    forall n, x | n in w.tables && x in w.tables[n]
      ensures InKeptLog(disk.logs, disk.manifest, x) && x.seqno <= w.lastSequence
    {
      EntriesRecovered(e, r, numbers, saveManifest, needs, x);
      ReadableIsPart(disk, t.unreadable, x);
    }
    forall x | x in w.mem ensures x.seqno <= w.lastSequence {
      ReusedEntries(e, r, numbers, saveManifest, needs, x);
      EntriesRecovered(e, r, numbers, saveManifest, needs, x);
    }
  }

  lemma ReadableIsPart(disk: Disk, unreadable: set<nat>, x: Entry)
    ensures InKeptLog(Readable(disk, unreadable).logs, disk.manifest, x) ==> InKeptLog(disk.logs, disk.manifest, x)
  {
    var r := Readable(disk, unreadable);
    if InKeptLog(r.logs, disk.manifest, x) {
      var n :| n in r.logs && KeepsLog(disk.manifest, n) && x in LogEntries(r.logs[n]);
      assert LogEntries([]) == [];
      assert n in disk.logs && x in LogEntries(disk.logs[n]);
    }
  }

  lemma {:induction false} ReusingIsWanted(o: Options, logs: seq<seq<Bytes>>, k: nat)
    requires k <= |logs| && RecoverLogs(o, logs, k).reused.Some?
    ensures k == |logs| && o.reuseLogs
  {
    hide ReplayRecords, LogGroups;
    if k > 0 && RecoverLogs(o, logs, k - 1).failed && RecoverLogs(o, logs, k - 1).reused.Some? {
      ReusingIsWanted(o, logs, k - 1);
    }
  }

  /** The log gone on with is one that could be read. */
  lemma ReusedIsReadable(o: Options, disk: Disk, t: Trouble, numbers: seq<nat>, saveManifest: bool, needs: bool)
    ensures var r := Readable(disk, t.unreadable);
            var w := OpeningOf(Effective(o, t, numbers), r, numbers, saveManifest, needs);
            w.reuse && w.log in disk.logs ==> w.log in r.logs && r.logs[w.log] == disk.logs[w.log]
  {
    var e, r := Effective(o, t, numbers), Readable(disk, t.unreadable);
    hide LogEntries, RecoverLogs, RecoverFiles;
    ReusedIsLast(e, r, numbers);
    if RecoveredFrom(e, r, numbers).reused.Some? {
      ReusingIsWanted(e, Contents(r, numbers), |numbers|);
    }
  }

  ghost predicate PassedOver(disk: Disk, unreadable: set<nat>, e: Entry) {
    exists n :: n in disk.logs && KeepsLog(disk.manifest, n) && n in unreadable && e in LogEntries(disk.logs[n])
  }

  /** Which entries an opening leaves out of reach: those of logs it passed over that no live or new table and no
      reused log makes up for. */
  lemma OutOfReachExactly(o: Options, disk: Disk, written: seq<Entry>, t: Trouble, numbers: seq<nat>,
                          saveManifest: bool, needs: bool)
    requires LogsOk(disk) && Picks(disk, numbers) && Grounded(disk, disk.manifest, written)
    ensures var w := OpeningOf(Effective(o, t, numbers), Readable(disk, t.unreadable), numbers, saveManifest, needs);
            && (KeepsEntries(disk, w)
                <==> forall x :: PassedOver(disk, t.unreadable, x) ==> Reached(disk, w, x))
            && (AllReadable(disk, t.unreadable) ==> KeepsEntries(disk, w))
  {
    hide OpeningOf, LogEntries, LogsOk, Effective, Readable;
    var e, r := Effective(o, t, numbers), Readable(disk, t.unreadable);
    var w := OpeningOf(e, r, numbers, saveManifest, needs);
    ReadableOk(disk, t.unreadable, numbers);
    hide Picks;
    forall n, x | n in disk.logs && KeepsLog(disk.manifest, n) && x in LogEntries(disk.logs[n])
      ensures n in t.unreadable ==> InKeptLog(disk.logs, disk.manifest, x) && PassedOver(disk, t.unreadable, x)
      ensures n !in t.unreadable ==> Reached(disk, w, x)
    {
      if n !in t.unreadable {
        ReadableEntry(disk, t.unreadable, n, x);
        EntriesRecovered(e, r, numbers, saveManifest, needs, x);
        RecoveredIsReached(disk, w, x);
      }
    }
  }

  lemma ReadableEntry(disk: Disk, unreadable: set<nat>, n: nat, x: Entry)
    requires n in disk.logs && KeepsLog(disk.manifest, n) && x in LogEntries(disk.logs[n]) && n !in unreadable
    ensures InKeptLog(Readable(disk, unreadable).logs, disk.manifest, x)
  {
    assert x in LogEntries(Readable(disk, unreadable).logs[n]);
  }

  lemma RecoveredIsReached(disk: Disk, w: Opening, x: Entry)
    requires x in w.mem || exists t :: t in w.tables && x in w.tables[t]
    ensures Reached(disk, w, x)
  {
    if x !in w.mem {
      var t :| t in w.tables && x in w.tables[t];
      assert t in w.tables.Keys && Supersedes(x, x);
    }
  }

  /** The log to go on with, whether replayed or new. */
  lemma LogChosen(disk: Disk, numbers: seq<nat>, log: nat)
    requires LogsOk(disk) && Picks(disk, numbers)
    requires disk.manifest.prevLogNumber == 0 && disk.manifest.logNumber < disk.manifest.nextFile
    ensures log in numbers ==> log in disk.logs && disk.manifest.logNumber <= log
    ensures numbers != [] && log == numbers[|numbers| - 1] ==> forall n :: n in disk.logs ==> n <= log
    ensures disk.manifest.nextFile <= log && (forall n :: n in numbers ==> n < log) ==>
              log !in disk.logs && forall n :: n in disk.logs ==> n <= log
  {
    if numbers != [] {
      assert forall n :: n in numbers ==> n <= numbers[|numbers| - 1];
    }
  }

  // ----- calls that fail -----

  /** Recovery as it is when every kept log can be read. */
  ghost predicate AllReadable(disk: Disk, unreadable: set<nat>) {
    forall n :: n in disk.logs && KeepsLog(disk.manifest, n) ==> n !in unreadable
  }

  lemma ReadableOk(disk: Disk, unreadable: set<nat>, numbers: seq<nat>)
    requires LogsOk(disk) && Picks(disk, numbers)
    ensures LogsOk(Readable(disk, unreadable)) && Picks(Readable(disk, unreadable), numbers)
    ensures Readable(disk, unreadable).manifest == disk.manifest
  {
    hide WellFormed;
  }

  lemma ReusedEntries(o: Options, disk: Disk, numbers: seq<nat>, saveManifest: bool, needs: bool, e: Entry)
    requires LogsOk(disk) && Picks(disk, numbers) && e in OpeningOf(o, disk, numbers, saveManifest, needs).mem
    ensures InKeptLog(disk.logs, disk.manifest, e)
  {
    FilesRecovered(o, disk, numbers, saveManifest, needs);
    hide OpeningOf, LogEntries, LogsOk, FilesFrom;
    var w := OpeningOf(o, disk, numbers, saveManifest, needs);
    assert w.log in numbers;
  }
}
