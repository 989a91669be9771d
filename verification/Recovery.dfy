/** The part of RecoverLogFile and Recover (db/dp_impl.cpp) that turns logs into memtables and tables, as functions of
    the logs' records: which records end up together in which table, which in the reused memtable. */
module Recovery {
  import opened Coding
  import opened WriteBatches
  import opened Database
  import opened TableBuilding

  /** The options recovery looks at; `usage` stands for MemTable::ApproximateMemoryUsage. */
  datatype Options = Options(paranoid: bool, reuseLogs: bool, writeBufferSize: nat, usage: seq<Entry> -> nat)

  /** Sequence + Count - 1 of a batch header, in 64-bit arithmetic. */
  function LastSequence(r: Bytes): nat
    requires |r| >= HEADER
  {
    (Sequence(r) + Count(r) - 1) % TWO_64
  }

  function Max(a: nat, b: nat): nat { if a < b then b else a }

  /** Replay of one log: the groups of records written to tables, those now in the memtable (`hasMem` when there is
      one), the greatest sequence number so far, and whether a malformed record stopped it. */
  datatype Replay = Replay(groups: seq<seq<Bytes>>, current: seq<Bytes>, hasMem: bool, maxSequence: nat, failed: bool)

  function ReplayRecord(o: Options, st: Replay, r: Bytes): Replay {
    if st.failed || |r| < HEADER then st
    else
      var current := st.current + [r];
      if IterateStatus(r) != Ok && o.paranoid then st.(current := current, hasMem := true, failed := true)
      else
        var maxSequence := Max(st.maxSequence, LastSequence(r));
        if o.usage(LogEntries(current)) > o.writeBufferSize
        then Replay(st.groups + [current], [], false, maxSequence, false)
        else Replay(st.groups, current, true, maxSequence, false)
  }

  function ReplayRecords(o: Options, maxSequence: nat, records: seq<Bytes>): Replay {
    if records == [] then Replay([], [], false, maxSequence, false)
    else ReplayRecord(o, ReplayRecords(o, maxSequence, records[..|records| - 1]), records[|records| - 1])
  }

  /** Several logs: all groups written to tables, the records of the reused log if there is one. */
  datatype Recovered = Recovered(groups: seq<seq<Bytes>>, reused: Option<seq<Bytes>>, maxSequence: nat, failed: bool)

  /** Whether RecoverLogFile goes on using the log it has just replayed. */
  predicate Reuses(o: Options, last: bool, rep: Replay) {
    !rep.failed && o.reuseLogs && last && rep.groups == []
  }

  /** The groups one log contributes; a memtable that is not kept is written out at the end. */
  function LogGroups(o: Options, last: bool, rep: Replay): seq<seq<Bytes>> {
    if rep.failed || Reuses(o, last, rep) || !rep.hasMem then rep.groups else rep.groups + [rep.current]
  }

  function EndOfLog(o: Options, last: bool, before: Recovered, rep: Replay): Recovered {
    Recovered(before.groups + LogGroups(o, last, rep), if Reuses(o, last, rep) then Some(rep.current) else None,
              rep.maxSequence, rep.failed)
  }

  /** Recover's loop over the sorted logs, after `k` of them. */
  function RecoverLogs(o: Options, logs: seq<seq<Bytes>>, k: nat): Recovered
    requires k <= |logs|
  {
    if k == 0 then Recovered([], None, 0, false)
    else
      var before := RecoverLogs(o, logs, k - 1);
      if before.failed then before
      else EndOfLog(o, k == |logs|, before, ReplayRecords(o, before.maxSequence, logs[k - 1]))
  }

  // ----- conservation -----

  /** The records recovery does not skip as too small. */
  function Replayed(records: seq<Bytes>): seq<Bytes> {
    if records == [] then []
    else
      var r := records[|records| - 1];
      Replayed(records[..|records| - 1]) + if |r| < HEADER then [] else [r]
  }

  function Flatten<T>(xs: seq<seq<T>>): seq<T> {
    if xs == [] then [] else Flatten(xs[..|xs| - 1]) + xs[|xs| - 1]
  }

  function ReplayedLogs(logs: seq<seq<Bytes>>, k: nat): seq<Bytes>
    requires k <= |logs|
  {
    if k == 0 then [] else ReplayedLogs(logs, k - 1) + Replayed(logs[k - 1])
  }

  function OrEmpty(x: Option<seq<Bytes>>): seq<Bytes> { if x.Some? then x.value else [] }

  lemma FlattenSnoc<T>(xs: seq<seq<T>>, x: seq<T>)
    ensures Flatten(xs + [x]) == Flatten(xs) + x
  {
    assert (xs + [x])[..|xs|] == xs;
  }

  lemma {:induction false} FlattenConcat<T>(xs: seq<seq<T>>, ys: seq<seq<T>>)
    ensures Flatten(xs + ys) == Flatten(xs) + Flatten(ys)
  {
    if ys == [] {
      assert xs + ys == xs;
    } else {
      var init, last := ys[..|ys| - 1], ys[|ys| - 1];
      assert xs + ys == (xs + init) + [last] && ys == init + [last];
      FlattenSnoc(xs + init, last);
      FlattenSnoc(init, last);
      FlattenConcat(xs, init);
      ConcatAssoc(Flatten(xs), Flatten(init), last);
    }
  }

  /** Replaying one log puts its records, whole and in order, first into tables and then into the memtable. */
  lemma {:induction false} ReplayConserves(o: Options, maxSequence: nat, records: seq<Bytes>)
    ensures var st := ReplayRecords(o, maxSequence, records);
            && (!st.hasMem ==> st.current == [])
            && (!st.failed ==> Flatten(st.groups) + st.current == Replayed(records))
  {
    if records != [] {
      var init, r := records[..|records| - 1], records[|records| - 1];
      var before := ReplayRecords(o, maxSequence, init);
      ReplayConserves(o, maxSequence, init);
      hide LogEntries, LastSequence, IterateStatus;
      ReplayStepConserves(o, before, r, Replayed(init));
    }
  }

  lemma ReplayStepConserves(o: Options, before: Replay, r: Bytes, replayed: seq<Bytes>)
    requires !before.hasMem ==> before.current == []
    requires !before.failed ==> Flatten(before.groups) + before.current == replayed
    ensures var st := ReplayRecord(o, before, r);
            && (!st.hasMem ==> st.current == [])
            && (!st.failed ==> Flatten(st.groups) + st.current == replayed + if |r| < HEADER then [] else [r])
  {
    FlattenSnoc(before.groups, before.current + [r]);
    hide LogEntries, LastSequence, IterateStatus, Flatten;
    ConcatAssoc(Flatten(before.groups), before.current, [r]);
  }

  /** Recovery conserves, orders and keeps batches whole: the tables' groups, one after the other, followed by the
      reused memtable, are exactly the records of the logs in log order, each once and none split; and the memtable
      kept for a reused log holds exactly that log's records. */
  lemma {:induction false} RecoveryConserves(o: Options, logs: seq<seq<Bytes>>, k: nat)
    requires k <= |logs| && !RecoverLogs(o, logs, k).failed
    ensures var rec := RecoverLogs(o, logs, k);
            && Flatten(rec.groups) + OrEmpty(rec.reused) == ReplayedLogs(logs, k)
            && (rec.reused.Some? ==> k == |logs| && k > 0 && rec.reused.value == Replayed(logs[k - 1]))
  {
    if k > 0 {
      var before := RecoverLogs(o, logs, k - 1);
      var rep := ReplayRecords(o, before.maxSequence, logs[k - 1]);
      assert RecoverLogs(o, logs, k) == EndOfLog(o, k == |logs|, before, rep);
      assert before.reused.None? by { if k - 1 > 0 { assert k - 1 != |logs|; } }
      assert ReplayedLogs(logs, k) == ReplayedLogs(logs, k - 1) + Replayed(logs[k - 1]);
      assert !before.failed && !rep.failed;
      RecoveryConserves(o, logs, k - 1);
      ReplayConserves(o, before.maxSequence, logs[k - 1]);
      EndConserves(o, k == |logs|, before, rep);
      hide *;
      NothingReused(before);
      ConcatAssoc(Flatten(before.groups), Flatten(rep.groups), rep.current);
    }
  }

  lemma NothingReused(rec: Recovered)
    requires rec.reused.None?
    ensures Flatten(rec.groups) + OrEmpty(rec.reused) == Flatten(rec.groups)
  {
  }

  lemma EndConserves(o: Options, last: bool, before: Recovered, rep: Replay)
    requires !rep.failed && (!rep.hasMem ==> rep.current == [])
    ensures var after := EndOfLog(o, last, before, rep);
            && Flatten(after.groups) + OrEmpty(after.reused)
               == (Flatten(before.groups) + Flatten(rep.groups)) + rep.current
            && (after.reused.Some? ==> last && rep.groups == [] && after.reused.value == rep.current)
  {
    var groups := LogGroups(o, last, rep);
    FlattenConcat(before.groups, groups);
    FlattenSnoc(rep.groups, rep.current);
    hide Flatten;
    if groups == rep.groups + [rep.current] && !Reuses(o, last, rep) {
      ConcatAssoc(Flatten(before.groups), Flatten(rep.groups), rep.current);
    }
  }

  // ----- when a memtable is written out -----

  /** A memtable holding these records has outgrown the write buffer. */
  ghost predicate Outgrown(o: Options, records: seq<Bytes>) { o.usage(LogEntries(records)) > o.writeBufferSize }

  /** None of the memtables met on the way to `records` has, `records` included. */
  ghost predicate NeverOutgrown(o: Options, records: seq<Bytes>) {
    forall k :: 0 < k <= |records| ==> o.usage(LogEntries(records[..k])) <= o.writeBufferSize
  }

  /** The memtable outgrew the buffer with its last record and not before. */
  ghost predicate JustOutgrown(o: Options, records: seq<Bytes>) {
    && records != [] && o.usage(LogEntries(records)) > o.writeBufferSize
    && NeverOutgrown(o, records[..|records| - 1])
  }

  lemma NeverOutgrownSnoc(o: Options, records: seq<Bytes>, r: Bytes)
    requires NeverOutgrown(o, records)
    ensures Outgrown(o, records + [r]) ==> JustOutgrown(o, records + [r])
    ensures !Outgrown(o, records + [r]) ==> NeverOutgrown(o, records + [r])
  {
    hide LogEntries;
    var all := records + [r];
    assert all[..|all| - 1] == records;
    forall k | 0 < k <= |all| && !Outgrown(o, all) ensures o.usage(LogEntries(all[..k])) <= o.writeBufferSize {
      if k == |all| { assert all[..k] == all; } else { assert all[..k] == records[..k]; }
    }
  }

  /** A memtable is written out as soon as it outgrows the write buffer, and never before: every table written during the
      replay holds one that has just done so, the one that is left has not, and nothing is written out at all if and
      only if the whole log fits one memtable. */
  lemma {:induction false} WrittenOutExactly(o: Options, maxSequence: nat, records: seq<Bytes>)
    requires !ReplayRecords(o, maxSequence, records).failed
    ensures var st := ReplayRecords(o, maxSequence, records);
            && (forall g :: g in st.groups ==> JustOutgrown(o, g))
            && NeverOutgrown(o, st.current) && (st.hasMem <==> st.current != [])
            && (st.groups == [] <==> NeverOutgrown(o, Replayed(records)))
  {
    if records != [] {
      var init, r := records[..|records| - 1], records[|records| - 1];
      var before := ReplayRecords(o, maxSequence, init);
      WrittenOutExactly(o, maxSequence, init);
      ReplayConserves(o, maxSequence, init);
      hide ReplayRecords, Replayed, LogEntries, LastSequence, IterateStatus;
      WrittenOutStep(o, before, r, Replayed(init));
    }
  }

  lemma WrittenOutStep(o: Options, before: Replay, r: Bytes, replayed: seq<Bytes>)
    requires !ReplayRecord(o, before, r).failed && Flatten(before.groups) + before.current == replayed
    requires (forall g :: g in before.groups ==> JustOutgrown(o, g)) && NeverOutgrown(o, before.current)
    requires before.hasMem <==> before.current != []
    requires before.groups == [] <==> NeverOutgrown(o, replayed)
    ensures var st := ReplayRecord(o, before, r);
            && (forall g :: g in st.groups ==> JustOutgrown(o, g))
            && NeverOutgrown(o, st.current) && (st.hasMem <==> st.current != [])
            && (st.groups == [] <==> NeverOutgrown(o, replayed + if |r| < HEADER then [] else [r]))
  {
    hide LogEntries, LastSequence, IterateStatus, NeverOutgrown, JustOutgrown;
    NeverOutgrownSnoc(o, before.current, r);
    NothingYetWritten(o, replayed, r);
    assert before.groups == [] ==> before.current == replayed;
    assert replayed + [] == replayed;
    Empty(o);
  }

  lemma Empty(o: Options)
    ensures NeverOutgrown(o, [])
  {
  }

  lemma NothingYetWritten(o: Options, replayed: seq<Bytes>, r: Bytes)
    ensures NeverOutgrown(o, replayed + [r]) ==> NeverOutgrown(o, replayed)
    ensures JustOutgrown(o, replayed + [r]) ==> !NeverOutgrown(o, replayed + [r])
  {
    hide LogEntries;
    var all := replayed + [r];
    forall k | 0 < k <= |replayed| && NeverOutgrown(o, all) ensures o.usage(LogEntries(replayed[..k])) <= o.writeBufferSize {
      assert all[..k] == replayed[..k];
    }
    assert all[..|all|] == all;
  }

  /** A log goes on being used if and only if that is wanted, it is the last one, and it all fits one memtable. */
  lemma {:induction false} ReusedExactly(o: Options, logs: seq<seq<Bytes>>)
    requires !RecoverLogs(o, logs, |logs|).failed
    ensures RecoverLogs(o, logs, |logs|).reused.Some?
       <==> o.reuseLogs && logs != [] && NeverOutgrown(o, Replayed(logs[|logs| - 1]))
  {
    if logs != [] {
      var before := RecoverLogs(o, logs, |logs| - 1);
      WrittenOutExactly(o, before.maxSequence, logs[|logs| - 1]);
      hide ReplayRecords, Replayed, NeverOutgrown;
    }
  }

  /** Some record is long enough to be a batch and is not accepted as one. */
  ghost predicate Malformed(records: seq<Bytes>) {
    exists r :: r in records && |r| >= 12 && IterateStatus(r) != Ok
  }

  lemma MalformedSnoc(records: seq<Bytes>, r: Bytes)
    ensures Malformed(records + [r]) <==> Malformed(records) || (|r| >= 12 && IterateStatus(r) != Ok)
  {
    hide IterateStatus;
    if x :| x in records + [r] && |x| >= 12 && IterateStatus(x) != Ok { assert x in records || x == r; }
    if Malformed(records) {
      var x :| x in records && |x| >= 12 && IterateStatus(x) != Ok;
      assert x in records + [r];
    }
    if |r| >= 12 && IterateStatus(r) != Ok { assert r in records + [r]; }
  }

  /** A replay fails if and only if errors are not ignored and some record is malformed. */
  lemma {:induction false} ReplayFailsExactly(o: Options, maxSequence: nat, records: seq<Bytes>)
    ensures ReplayRecords(o, maxSequence, records).failed <==> o.paranoid && Malformed(records)
  {
    hide LogEntries, LastSequence, IterateStatus, Malformed;
    if records == [] {
      NoneMalformed();
    } else {
      var init, r := records[..|records| - 1], records[|records| - 1];
      assert records == init + [r];
      ReplayFailsExactly(o, maxSequence, init);
      MalformedSnoc(init, r);
    }
  }

  lemma NoneMalformed()
    ensures !Malformed([])
  {
  }

  ghost predicate SomeMalformed(logs: seq<seq<Bytes>>, k: nat)
    requires k <= |logs|
  {
    exists i :: 0 <= i < k && Malformed(logs[i])
  }

  /** So does the recovery of several logs. */
  lemma {:induction false} RecoveryFailsExactly(o: Options, logs: seq<seq<Bytes>>, k: nat)
    requires k <= |logs|
    ensures RecoverLogs(o, logs, k).failed <==> o.paranoid && SomeMalformed(logs, k)
  {
    hide Malformed, ReplayRecords, LogGroups, Reuses;
    if k > 0 {
      RecoveryFailsExactly(o, logs, k - 1);
      ReplayFailsExactly(o, RecoverLogs(o, logs, k - 1).maxSequence, logs[k - 1]);
    }
  }

  // ----- in terms of entries -----

  lemma LogEntriesSnoc(records: seq<Bytes>, r: Bytes)
    ensures LogEntries(records + [r]) == LogEntries(records) + RecordEntries(r)
  {
    assert (records + [r])[..|records|] == records;
  }

  lemma {:induction false} LogEntriesConcat(a: seq<Bytes>, b: seq<Bytes>)
    ensures LogEntries(a + b) == LogEntries(a) + LogEntries(b)
  {
    if b == [] {
      assert a + b == a;
    } else {
      var init, r := b[..|b| - 1], b[|b| - 1];
      assert a + b == (a + init) + [r] && b == init + [r];
      LogEntriesSnoc(a + init, r);
      LogEntriesSnoc(init, r);
      LogEntriesConcat(a, init);
      hide LogEntries, RecordEntries;
      ConcatAssoc(LogEntries(a), LogEntries(init), RecordEntries(r));
    }
  }

  /** Skipped records carried no entries. */
  lemma {:induction false} ReplayedEntries(records: seq<Bytes>)
    ensures LogEntries(Replayed(records)) == LogEntries(records)
  {
    if records != [] {
      var init, r := records[..|records| - 1], records[|records| - 1];
      ReplayedEntries(init);
      assert records == init + [r];
      LogEntriesSnoc(init, r);
      if |r| < HEADER {
        assert RecordEntries(r) == [];
        assert Replayed(init) + [] == Replayed(init);
      } else {
        LogEntriesSnoc(Replayed(init), r);
      }
    }
  }

  ghost predicate InGroups(groups: seq<seq<Bytes>>, e: Entry) {
    exists g :: g in groups && e in LogEntries(g)
  }

  lemma {:induction false} InFlatten(groups: seq<seq<Bytes>>, e: Entry)
    ensures e in LogEntries(Flatten(groups)) <==> InGroups(groups, e)
  {
    if groups == [] {
      assert LogEntries([]) == [];
    } else {
      var init, g := groups[..|groups| - 1], groups[|groups| - 1];
      InFlatten(init, e);
      LogEntriesConcat(Flatten(init), g);
      assert groups == init + [g];
      hide LogEntries;
      if InGroups(init, e) { var h :| h in init && e in LogEntries(h); assert h in groups; }
      if InGroups(groups, e) { var h :| h in groups && e in LogEntries(h); assert h in init || h == g; }
    }
  }

  lemma InConcat<T>(a: seq<T>, b: seq<T>, x: T)
    ensures x in a + b <==> x in a || x in b
  {
  }

  ghost predicate InLogs(logs: seq<seq<Bytes>>, k: nat, e: Entry)
    requires k <= |logs|
  {
    exists i :: 0 <= i < k && e in LogEntries(logs[i])
  }

  lemma InLogsStep(logs: seq<seq<Bytes>>, k: nat, e: Entry)
    requires 0 < k <= |logs|
    ensures InLogs(logs, k, e) <==> InLogs(logs, k - 1, e) || e in LogEntries(logs[k - 1])
  {
    hide LogEntries;
    if InLogs(logs, k, e) {
      var i :| 0 <= i < k && e in LogEntries(logs[i]);
      assert i < k - 1 || i == k - 1;
    }
  }

  lemma InReplayedStep(logs: seq<seq<Bytes>>, k: nat, e: Entry)
    requires 0 < k <= |logs|
    ensures e in LogEntries(ReplayedLogs(logs, k)) <==>
              e in LogEntries(ReplayedLogs(logs, k - 1)) || e in LogEntries(logs[k - 1])
  {
    var before, log := ReplayedLogs(logs, k - 1), logs[k - 1];
    assert ReplayedLogs(logs, k) == before + Replayed(log);
    hide *;
    LogEntriesConcat(before, Replayed(log));
    ReplayedEntries(log);
    InConcat(LogEntries(before), LogEntries(log), e);
  }

  lemma {:induction false} InReplayedLogs(logs: seq<seq<Bytes>>, k: nat, e: Entry)
    requires k <= |logs|
    ensures e in LogEntries(ReplayedLogs(logs, k)) <==> InLogs(logs, k, e)
  {
    hide LogEntries, InLogs;
    if k == 0 {
      NothingReplayed(logs, e);
    } else {
      hide ReplayedLogs;
      InReplayedLogs(logs, k - 1, e);
      InReplayedStep(logs, k, e);
      InLogsStep(logs, k, e);
    }
  }

  lemma NothingReplayed(logs: seq<seq<Bytes>>, e: Entry)
    ensures e !in LogEntries(ReplayedLogs(logs, 0)) && !InLogs(logs, 0, e)
  {
    assert LogEntries([]) == [];
  }

  /** The same at the level of entries: an entry is in some log if and only if it is in a new table or in the reused
      memtable. */
  lemma RecoveredEntriesExactly(o: Options, logs: seq<seq<Bytes>>, e: Entry)
    requires !RecoverLogs(o, logs, |logs|).failed
    ensures var rec := RecoverLogs(o, logs, |logs|);
            InLogs(logs, |logs|, e) <==> InGroups(rec.groups, e) || e in LogEntries(OrEmpty(rec.reused))
  {
    var rec := RecoverLogs(o, logs, |logs|);
    RecoveryConserves(o, logs, |logs|);
    InReplayedLogs(logs, |logs|, e);
    InFlatten(rec.groups, e);
    LogEntriesConcat(Flatten(rec.groups), OrEmpty(rec.reused));
    hide LogEntries, InLogs, InGroups, RecoverLogs, Flatten, ReplayedLogs;
  }

  // ----- sequence numbers -----

  /** Records as the database writes them. */
  ghost predicate WellFormed(r: Bytes) {
    Accepts(r) && Sequence(r) >= 1 && Sequence(r) + Count(r) <= TWO_64
  }

  /** Records Iterate accepts and whose numbers do not run past 2^64; numbering from 0 is not excluded. */
  ghost predicate Unwrapped(r: Bytes) {
    Accepts(r) && Sequence(r) + Count(r) <= TWO_64
  }

  lemma RecordNumbers(r: Bytes)
    requires Accepts(r) && |r| >= HEADER && Sequence(r) + Count(r) <= TWO_64
    ensures |RecordEntries(r)| == Count(r)
    ensures forall i :: 0 <= i < |RecordEntries(r)| ==> RecordEntries(r)[i].seqno == Sequence(r) + i
  {
    hide *;
    AcceptedCount(r);
    forall i | 0 <= i < |RecordEntries(r)| ensures RecordEntries(r)[i].seqno == Sequence(r) + i {
      AcceptedEntriesAreContiguous(r, i);
      WrapStep(Sequence(r) + i);
    }
  }

  /** For an accepted batch whose numbers do not wrap, the header arithmetic finds the last number assigned if and
      only if the batch is not empty; for an empty one it is the number before the header's, modulo 2^64. */
  lemma LastSequenceIsLast(r: Bytes)
    requires Accepts(r) && |r| >= HEADER && Sequence(r) + Count(r) <= TWO_64
    ensures |RecordEntries(r)| == Count(r)
    ensures Count(r) > 0 ==>
              LastSequence(r) == RecordEntries(r)[|RecordEntries(r)| - 1].seqno == Sequence(r) + Count(r) - 1
    ensures Count(r) == 0 ==> RecordEntries(r) == [] && LastSequence(r) == (Sequence(r) - 1) % TWO_64
    ensures forall e :: e in RecordEntries(r) ==> e.seqno <= LastSequence(r)
  {
    hide IterateStatus, IterateOps, Sequence, Count, RecordEntries, Accepts;
    RecordNumbers(r);
  }

  /** An empty record numbered 0 makes recovery take 2^64 - 1 for the last sequence number. */
  lemma EmptyRecordPoisonsSequence(o: Options, m: nat)
    requires m < TWO_64
    ensures Accepts(EncodeBatch(0, [])) && ReplayRecords(o, m, [EncodeBatch(0, [])]).maxSequence == TWO_64 - 1
  {
    hide EncodeBatch, EncodeFixed, IterateStatus, IterateOps, Sequence, Count, LogEntries;
    var r := EncodeBatch(0, []);
    BatchRoundTrip(0, []);
    assert Accepts(r);
    AcceptedCount(r);
    assert LastSequence(r) == TWO_64 - 1;
    assert [r][..0] == [] && [r][|[r]| - 1] == r;
    assert ReplayRecords(o, m, []) == Replay([], [], false, m, false);
  }

  /** For accepted records the counter ends up at least at every number assigned and at every header's last number, and
      it is the old value or the end of some record. */
  lemma {:induction false} ReplaySequence(o: Options, maxSequence: nat, records: seq<Bytes>)
    requires forall r :: r in records ==> Unwrapped(r)
    ensures var m := ReplayRecords(o, maxSequence, records).maxSequence;
            && maxSequence <= m
            && !ReplayRecords(o, maxSequence, records).failed
            && (forall e :: e in LogEntries(records) ==> e.seqno <= m)
            && (forall r :: r in records && |r| >= HEADER ==> LastSequence(r) <= m)
            && (m == maxSequence || exists r :: r in records && |r| >= HEADER && m == LastSequence(r))
  {
    if records != [] {
      var init, r := records[..|records| - 1], records[|records| - 1];
      assert records == init + [r] && r in records;
      ReplaySequence(o, maxSequence, init);
      LastSequenceIsLast(r);
      LogEntriesSnoc(init, r);
      assert Accepts(r) && |r| >= HEADER;
      hide LogEntries, RecordEntries, IterateStatus, LastSequence, Sequence, Count;
    }
  }

  ghost predicate AllNumbered(logs: seq<seq<Bytes>>, k: nat, m: nat)
    requires k <= |logs|
  {
    forall i, e :: 0 <= i < k && e in LogEntries(logs[i]) ==> e.seqno <= m
  }

  ghost predicate AllEnded(logs: seq<seq<Bytes>>, k: nat, m: nat)
    requires k <= |logs|
  {
    forall i, r :: 0 <= i < k && r in logs[i] && |r| >= HEADER ==> LastSequence(r) <= m
  }

  ghost predicate EndsRecord(logs: seq<seq<Bytes>>, k: nat, m: nat)
    requires k <= |logs|
  {
    exists i, r :: 0 <= i < k && r in logs[i] && |r| >= HEADER && m == LastSequence(r)
  }

  lemma AllNumberedStep(logs: seq<seq<Bytes>>, k: nat, before: nat, m: nat)
    requires 0 < k <= |logs| && AllNumbered(logs, k - 1, before) && AllEnded(logs, k - 1, before) && before <= m
    requires forall e :: e in LogEntries(logs[k - 1]) ==> e.seqno <= m
    requires forall r :: r in logs[k - 1] && |r| >= HEADER ==> LastSequence(r) <= m
    ensures AllNumbered(logs, k, m) && AllEnded(logs, k, m)
  {
    hide LogEntries, LastSequence;
  }

  lemma EndsRecordStep(logs: seq<seq<Bytes>>, k: nat, m: nat)
    requires 0 < k <= |logs|
    requires EndsRecord(logs, k - 1, m) || exists r :: r in logs[k - 1] && |r| >= HEADER && m == LastSequence(r)
    ensures EndsRecord(logs, k, m)
  {
    hide LastSequence;
  }

  ghost predicate AllUnwrapped(logs: seq<seq<Bytes>>) {
    forall i, r :: 0 <= i < |logs| && r in logs[i] ==> Unwrapped(r)
  }

  lemma AfterOneMore(o: Options, logs: seq<seq<Bytes>>, k: nat)
    requires 0 < k <= |logs| && !RecoverLogs(o, logs, k - 1).failed
    ensures var rep := ReplayRecords(o, RecoverLogs(o, logs, k - 1).maxSequence, logs[k - 1]);
            RecoverLogs(o, logs, k).maxSequence == rep.maxSequence && RecoverLogs(o, logs, k).failed == rep.failed
  {
    hide ReplayRecords, LogGroups, Reuses;
  }

  lemma NextLogNumbers(o: Options, logs: seq<seq<Bytes>>, k: nat, maxSequence: nat)
    requires 0 < k <= |logs| && AllUnwrapped(logs)
    ensures var m := ReplayRecords(o, maxSequence, logs[k - 1]).maxSequence;
            && maxSequence <= m && !ReplayRecords(o, maxSequence, logs[k - 1]).failed
            && (forall e :: e in LogEntries(logs[k - 1]) ==> e.seqno <= m)
            && (forall r :: r in logs[k - 1] && |r| >= HEADER ==> LastSequence(r) <= m)
            && (m == maxSequence || exists r :: r in logs[k - 1] && |r| >= HEADER && m == LastSequence(r))
  {
    hide ReplayRecords, LogEntries, LastSequence, Unwrapped;
    ReplaySequence(o, maxSequence, logs[k - 1]);
  }

  lemma {:induction false} RecoverSequence(o: Options, logs: seq<seq<Bytes>>, k: nat)
    requires k <= |logs| && AllUnwrapped(logs)
    ensures var rec := RecoverLogs(o, logs, k);
            && !rec.failed && AllNumbered(logs, k, rec.maxSequence) && AllEnded(logs, k, rec.maxSequence)
            && (rec.maxSequence == 0 || EndsRecord(logs, k, rec.maxSequence))
  {
    if k > 0 {
      var before := RecoverLogs(o, logs, k - 1);
      RecoverSequence(o, logs, k - 1);
      var rep := ReplayRecords(o, before.maxSequence, logs[k - 1]);
      AfterOneMore(o, logs, k);
      hide *;
      NextLogNumbers(o, logs, k, before.maxSequence);
      AllNumberedStep(logs, k, before.maxSequence, rep.maxSequence);
      if rep.maxSequence != 0 { EndsRecordStep(logs, k, rep.maxSequence); }
    }
  }

  /** Some replayed entry bears the number `n` or a greater one. */
  ghost predicate Reaches(logs: seq<seq<Bytes>>, n: nat) {
    exists e :: InLogs(logs, |logs|, e) && e.seqno >= n
  }

  /** What recovery makes of an empty record: the number before the header's, modulo 2^64. */
  ghost predicate Overshoots(logs: seq<seq<Bytes>>, r: Bytes)
    requires |r| >= HEADER
  {
    Count(r) == 0 && LastSequence(r) != 0 && !Reaches(logs, LastSequence(r))
  }

  /** After recovering accepted batches the counter is a number replayed, or 0, if and only if no empty batch overshoots:
      each has a last number of 0 or one that some replayed entry reaches. Then it is the greatest number replayed. */
  lemma RecoveredSequenceIsExact(o: Options, logs: seq<seq<Bytes>>)
    requires AllUnwrapped(logs)
    ensures var m := RecoverLogs(o, logs, |logs|).maxSequence;
            && AllNumbered(logs, |logs|, m)
            && ((m == 0 || exists e :: InLogs(logs, |logs|, e) && e.seqno == m)
                <==> forall i, r :: 0 <= i < |logs| && r in logs[i] ==> |r| >= HEADER && !Overshoots(logs, r))
  {
    hide RecoverLogs, LastSequence, LogEntries, IterateStatus, Sequence, Count;
    var m := RecoverLogs(o, logs, |logs|).maxSequence;
    RecoverSequence(o, logs, |logs|);
    forall i, r | 0 <= i < |logs| && r in logs[i] ensures |r| >= HEADER {
      assert Unwrapped(r);
      AcceptedCount(r);
    }
    if m == 0 || exists e :: InLogs(logs, |logs|, e) && e.seqno == m {
      forall i, r | 0 <= i < |logs| && r in logs[i] ensures !Overshoots(logs, r) {
        assert LastSequence(r) <= m;
      }
    }
    if forall i, r :: 0 <= i < |logs| && r in logs[i] ==> |r| >= HEADER && !Overshoots(logs, r) {
      CounterIsReplayed(logs, m);
    }
  }

  lemma CounterIsReplayed(logs: seq<seq<Bytes>>, m: nat)
    requires AllUnwrapped(logs) && AllNumbered(logs, |logs|, m) && (m == 0 || EndsRecord(logs, |logs|, m))
    requires forall i, r :: 0 <= i < |logs| && r in logs[i] ==> |r| >= HEADER && !Overshoots(logs, r)
    ensures m == 0 || exists e :: InLogs(logs, |logs|, e) && e.seqno == m
  {
    hide LogEntries, LastSequence, IterateStatus, IterateOps, Sequence, Count, RecordEntries;
    if m != 0 {
      var i, r :| 0 <= i < |logs| && r in logs[i] && |r| >= HEADER && m == LastSequence(r);
      assert Unwrapped(r);
      LastSequenceIsLast(r);
      if Count(r) == 0 {
        assert Reaches(logs, m);
      } else {
        var e := RecordEntries(r)[|RecordEntries(r)| - 1];
        RecordInLog(logs[i], r, e);
        assert InLogs(logs, |logs|, e);
      }
    }
  }

  /** And it is 2^64 - 1, so that no number is left, if and only if some batch ends there: one numbered up to it, or an
      empty one numbered 0. */
  lemma PoisonedExactly(o: Options, logs: seq<seq<Bytes>>)
    requires AllUnwrapped(logs)
    ensures RecoverLogs(o, logs, |logs|).maxSequence == TWO_64 - 1
       <==> exists i, r :: 0 <= i < |logs| && r in logs[i] && |r| >= HEADER
                           && (Sequence(r) + Count(r) == TWO_64 || (Sequence(r) == 0 && Count(r) == 0))
  {
    hide RecoverLogs, Sequence, Count, IterateStatus, LogEntries;
    var m := RecoverLogs(o, logs, |logs|).maxSequence;
    RecoverSequence(o, logs, |logs|);
    if m == TWO_64 - 1 {
      var i, r :| 0 <= i < |logs| && r in logs[i] && |r| >= HEADER && m == LastSequence(r);
      assert Unwrapped(r);
      EndsAtTheTop(r);
    }
    if i, r :| 0 <= i < |logs| && r in logs[i] && |r| >= HEADER
               && (Sequence(r) + Count(r) == TWO_64 || (Sequence(r) == 0 && Count(r) == 0)) {
      assert Unwrapped(r);
      EndsAtTheTop(r);
      assert LastSequence(r) <= m;
    }
  }

  lemma EndsAtTheTop(r: Bytes)
    requires Unwrapped(r) && |r| >= HEADER
    ensures 0 <= LastSequence(r) < TWO_64
    ensures LastSequence(r) == TWO_64 - 1
       <==> Sequence(r) + Count(r) == TWO_64 || (Sequence(r) == 0 && Count(r) == 0)
  {
    hide Sequence, Count, IterateStatus, RecordEntries, IterateOps;
    AcceptedCount(r);
    TopOf(Sequence(r), Count(r));
  }

  lemma TopOf(sequence: nat, count: nat)
    requires sequence + count <= TWO_64
    ensures 0 <= (sequence + count - 1) % TWO_64 < TWO_64
    ensures (sequence + count - 1) % TWO_64 == TWO_64 - 1 <==> sequence + count == TWO_64 || (sequence == 0 && count == 0)
  {
  }

  lemma {:induction false} RecordInLog(records: seq<Bytes>, r: Bytes, e: Entry)
    requires r in records && e in RecordEntries(r)
    ensures e in LogEntries(records)
  {
    var init, last := records[..|records| - 1], records[|records| - 1];
    assert records == init + [last];
    LogEntriesSnoc(init, last);
    if r in init { RecordInLog(init, r, e); }
  }

  // ----- the files recovery writes -----

  /** Table files on disk, the next file number, and what has gone into the edit so far. */
  datatype Files = Files(tables: map<nat, seq<Entry>>, next: nat, added: map<nat, seq<Entry>>, dropped: set<nat>)

  /** WriteLevel0Table: an empty memtable leaves no file and no entry in the edit. */
  function WriteTable(f: Files, entries: seq<Entry>): Files {
    if entries == [] then Files(f.tables - {f.next}, f.next + 1, f.added, f.dropped + {f.next})
    else Files(f.tables[f.next := entries], f.next + 1, f.added[f.next := entries], f.dropped)
  }

  function WriteGroups(f: Files, groups: seq<seq<Bytes>>): Files {
    if groups == [] then f
    else WriteTable(WriteGroups(f, groups[..|groups| - 1]), LogEntries(groups[|groups| - 1]))
  }

  function MarkFileNumberUsed(f: Files, n: nat): Files { f.(next := Max(f.next, n + 1)) }

  function RecoverFiles(o: Options, f: Files, logs: seq<seq<Bytes>>, numbers: seq<nat>, k: nat): Files
    requires |numbers| == |logs| && k <= |logs|
  {
    if k == 0 then f
    else
      var before, g := RecoverLogs(o, logs, k - 1), RecoverFiles(o, f, logs, numbers, k - 1);
      if before.failed then g
      else
        var rep := ReplayRecords(o, before.maxSequence, logs[k - 1]);
        var h := WriteGroups(g, LogGroups(o, k == |logs|, rep));
        if rep.failed then h else MarkFileNumberUsed(h, numbers[k - 1])
  }

  /** The edit names fresh numbers only, and its tables hold exactly the entries of `groups`. */
  ghost predicate FilesHold(start: Files, f: Files, groups: seq<seq<Bytes>>) {
    && start.next <= f.next
    && (forall n :: n in f.added || n in f.dropped ==> start.next <= n < f.next)
    && f.tables == start.tables - f.dropped + f.added
    && (forall n :: n in f.added ==> f.added[n] != [])
    && (forall n, e :: n in f.added && e in f.added[n] ==> InGroups(groups, e))
    && (forall e :: InGroups(groups, e) ==> exists n :: n in f.added && e in f.added[n])
  }

  lemma InGroupsSnoc(groups: seq<seq<Bytes>>, g: seq<Bytes>, e: Entry)
    ensures InGroups(groups + [g], e) <==> InGroups(groups, e) || e in LogEntries(g)
  {
    hide LogEntries;
    if InGroups(groups, e) { var h :| h in groups && e in LogEntries(h); assert h in groups + [g]; }
    if e in LogEntries(g) { assert g in groups + [g]; }
  }

  lemma WriteTableHolds(start: Files, f: Files, groups: seq<seq<Bytes>>, g: seq<Bytes>)
    requires FilesHold(start, f, groups)
    ensures FilesHold(start, WriteTable(f, LogEntries(g)), groups + [g])
  {
    var h := WriteTable(f, LogEntries(g));
    hide LogEntries, InGroups;
    forall e ensures InGroups(groups + [g], e) <==> InGroups(groups, e) || e in LogEntries(g) {
      InGroupsSnoc(groups, g, e);
    }
    assert forall n :: n in f.added ==> n in h.added && h.added[n] == f.added[n];
    assert f.next !in f.added && f.next !in f.dropped;
    forall e | InGroups(groups + [g], e) ensures exists n :: n in h.added && e in h.added[n] {
      if InGroups(groups, e) {
        var n :| n in f.added && e in f.added[n];
        assert n in h.added && e in h.added[n];
      } else {
        assert f.next in h.added && e in h.added[f.next];
      }
    }
  }

  lemma {:induction false} WriteGroupsHold(start: Files, f: Files, groups: seq<seq<Bytes>>, more: seq<seq<Bytes>>)
    requires FilesHold(start, f, groups)
    ensures FilesHold(start, WriteGroups(f, more), groups + more)
  {
    if more == [] {
      assert groups + more == groups;
    } else {
      var init, g := more[..|more| - 1], more[|more| - 1];
      WriteGroupsHold(start, f, groups, init);
      assert groups + more == (groups + init) + [g];
      WriteTableHolds(start, WriteGroups(f, init), groups + init, g);
    }
  }

  lemma RecoverFilesStep(o: Options, f: Files, logs: seq<seq<Bytes>>, numbers: seq<nat>, k: nat)
      returns (groups: seq<seq<Bytes>>)
    requires |numbers| == |logs| && 0 < k <= |logs| && !RecoverLogs(o, logs, k).failed
    ensures !RecoverLogs(o, logs, k - 1).failed
    ensures RecoverLogs(o, logs, k).groups == RecoverLogs(o, logs, k - 1).groups + groups
    ensures RecoverFiles(o, f, logs, numbers, k)
         == MarkFileNumberUsed(WriteGroups(RecoverFiles(o, f, logs, numbers, k - 1), groups), numbers[k - 1])
  {
    var before := RecoverLogs(o, logs, k - 1);
    groups := LogGroups(o, k == |logs|, ReplayRecords(o, before.maxSequence, logs[k - 1]));
    hide ReplayRecords, LogGroups, Reuses, WriteGroups;
  }

  lemma {:induction false} RecoverFilesHold(o: Options, f: Files, logs: seq<seq<Bytes>>, numbers: seq<nat>, k: nat)
    requires |numbers| == |logs| && k <= |logs| && f.added == map[] && f.dropped == {}
    requires !RecoverLogs(o, logs, k).failed
    ensures FilesHold(f, RecoverFiles(o, f, logs, numbers, k), RecoverLogs(o, logs, k).groups)
    ensures forall i :: 0 <= i < k ==> numbers[i] < RecoverFiles(o, f, logs, numbers, k).next
  {
    hide *;
    if k == 0 {
      NothingHeld(o, f, logs, numbers);
    } else {
      var groups := RecoverFilesStep(o, f, logs, numbers, k);
      var before, g := RecoverLogs(o, logs, k - 1).groups, RecoverFiles(o, f, logs, numbers, k - 1);
      RecoverFilesHold(o, f, logs, numbers, k - 1);
      WriteGroupsHold(f, g, before, groups);
      MarkingHolds(f, WriteGroups(g, groups), before + groups, numbers[k - 1]);
      WriteGroupsGrow(g, groups);
    }
  }

  lemma NothingHeld(o: Options, f: Files, logs: seq<seq<Bytes>>, numbers: seq<nat>)
    requires |numbers| == |logs| && f.added == map[] && f.dropped == {}
    ensures FilesHold(f, RecoverFiles(o, f, logs, numbers, 0), RecoverLogs(o, logs, 0).groups)
  {
    assert f.tables - f.dropped + f.added == f.tables;
  }

  lemma MarkingHolds(start: Files, f: Files, groups: seq<seq<Bytes>>, n: nat)
    requires FilesHold(start, f, groups)
    ensures FilesHold(start, MarkFileNumberUsed(f, n), groups)
    ensures MarkFileNumberUsed(f, n).next > n && MarkFileNumberUsed(f, n).next >= f.next
  {
  }

  lemma {:induction false} WriteGroupsGrow(f: Files, groups: seq<seq<Bytes>>)
    ensures WriteGroups(f, groups).next == f.next + |groups|
  {
    if groups != [] { WriteGroupsGrow(f, groups[..|groups| - 1]); }
  }

  // ----- calls that fail -----

  /** What goes wrong with files during recovery: the logs that cannot be opened for reading, whether the last one can
      be opened for appending, how building each table fails, and whether the new log and the edit can be written (a
      failed edit may yet be `onDisk`). */
  datatype Trouble = Trouble(unreadable: set<nat>, appendable: bool, build: nat -> Faults, newLog: bool,
                             installs: bool, onDisk: bool)

  /** All of `groups` can be written to tables, numbered from `next` on. */
  predicate GroupsBuild(build: nat -> Faults, next: nat, groups: seq<seq<Bytes>>) {
    groups != [] ==>
      var n := |groups| - 1;
      GroupsBuild(build, next, groups[..n]) && Builds(LogEntries(groups[n]), build(next + n))
  }

  /** So can the groups of the first `k` logs. */
  predicate AllBuild(o: Options, f: Files, logs: seq<seq<Bytes>>, numbers: seq<nat>, k: nat, build: nat -> Faults)
    requires |numbers| == |logs| && k <= |logs|
  {
    k > 0 ==>
      && AllBuild(o, f, logs, numbers, k - 1, build)
      && GroupsBuild(build, RecoverFiles(o, f, logs, numbers, k - 1).next,
                     LogGroups(o, k == |logs|, ReplayRecords(o, RecoverLogs(o, logs, k - 1).maxSequence, logs[k - 1])))
  }
}
