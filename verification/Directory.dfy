/** The database directory as DeleteObsoleteFiles and Recover (db/dp_impl.cpp) see it: by parsing file names. */
module Directory {
  import opened Coding
  import opened FileNames
  import opened Database

  /** Numbers of the files of each kind, where the tables in `sst` bear the older suffix; and all other names: CURRENT,
      LOCK, the info logs, and whatever is none of the database's business. */
  datatype Dir = Dir(logs: set<nat>, tables: set<nat>, sst: set<nat>, manifests: set<nat>, temps: set<nat>,
                     others: set<string>)

  const UNNUMBERED := {"CURRENT", "LOCK", "LOG", "LOG.old"}

  function TableName(sst: set<nat>, n: nat): string { BaseName(if n in sst then SstTable else Table, n) }

  /** The names in the directory. */
  predicate IsChild(d: Dir, name: string) {
    || (exists n :: n in d.logs && name == BaseName(Log, n))
    || (exists n :: n in d.tables && name == TableName(d.sst, n))
    || (exists n :: n in d.manifests && name == BaseName(Descriptor, n))
    || (exists n :: n in d.temps && name == BaseName(Temp, n))
    || name in d.others
  }

  /** What the other names may be. */
  predicate OthersOk(d: Dir) { forall name :: name in d.others ==> name in UNNUMBERED || Parse(name).None? }

  function AllNumbers(d: Dir): set<nat> { d.logs + d.tables + d.manifests + d.temps }

  predicate Fits64(d: Dir) {
    && (forall n :: n in d.logs ==> n < TWO_64)
    && (forall n :: n in d.tables ==> n < TWO_64)
    && (forall n :: n in d.manifests ==> n < TWO_64)
    && (forall n :: n in d.temps ==> n < TWO_64)
    && OthersOk(d)
  }

  /** A listing as GetChildren may return it: every name in the directory once, in any order. */
  ghost predicate Lists(names: seq<string>, d: Dir) {
    && Fits64(d)
    && (forall name :: name in names ==> IsChild(d, name))
    && (forall n :: n in d.logs ==> BaseName(Log, n) in names)
    && (forall n :: n in d.tables ==> TableName(d.sst, n) in names)
    && (forall n :: n in d.manifests ==> BaseName(Descriptor, n) in names)
    && (forall n :: n in d.temps ==> BaseName(Temp, n) in names)
    && (forall name :: name in d.others ==> name in names)
    && "CURRENT" in d.others
    && (forall i, j :: 0 <= i < j < |names| ==> names[i] != names[j])
  }

  /** The listing of a directory on disk: its own entry and its parent's, a foreign file, no info log yet. */
  lemma RealListing()
    ensures Lists([".", "..", "CURRENT", "LOCK", BaseName(Descriptor, 1), "notes.txt"],
                  Dir({}, {}, {}, {1}, {}, {".", "..", "CURRENT", "LOCK", "notes.txt"}))
  {
    assert DigitRun(".") == 0 && DigitRun("..") == 0 && DigitRun("notes.txt") == 0;
    var name := BaseName(Descriptor, 1);
    assert name[0] == 'M' && |name| > |MANIFEST|;
    assert "."[0] != name[0] && ".."[0] != name[0] && "CURRENT"[0] != name[0] && "LOCK"[0] != name[0];
    assert "notes.txt"[0] != name[0];
    assert |"."| == 1 && |".."| == 2 && |"LOCK"| == 4 && |"CURRENT"| == 7 && |"notes.txt"| == 9;
    hide BaseName;
  }

  lemma ListedAreChildren(names: seq<string>, d: Dir)
    requires Lists(names, d)
    ensures Fits64(d) && forall name :: name in names ==> IsChild(d, name)
  {
  }

  lemma ParseUnnumbered(name: string)
    requires name in UNNUMBERED
    ensures Parse(name).Some? && Parse(name).value.0 == 0
    ensures Parse(name).value.1 in {CurrentFile, DBLockFile, InfoLogFile}
  {
    hide LeadingNumber;
  }

  /** What a child's name parses to, if it does, and back. */
  lemma ChildParses(d: Dir, name: string)
    requires Fits64(d) && IsChild(d, name) && Parse(name).Some?
    ensures var (n, t) := Parse(name).value;
            && (t == LogFile ==> n in d.logs && name == BaseName(Log, n))
            && (t == TableFile ==> n in d.tables && name == TableName(d.sst, n))
            && (t == DescriptorFile ==> n in d.manifests && name == BaseName(Descriptor, n))
            && (t == TempFile ==> n in d.temps && name == BaseName(Temp, n))
            && (t in {CurrentFile, DBLockFile, InfoLogFile} ==> n == 0 && name in UNNUMBERED)
  {
    hide Parse, BaseName;
    if name in UNNUMBERED {
      ParseUnnumbered(name);
    } else if n :| n in d.logs && name == BaseName(Log, n) {
      NameRoundTrip(Log, n);
    } else if n :| n in d.tables && name == TableName(d.sst, n) {
      NameRoundTrip(if n in d.sst then SstTable else Table, n);
    } else if n :| n in d.manifests && name == BaseName(Descriptor, n) {
      NameRoundTrip(Descriptor, n);
    } else {
      var n :| n in d.temps && name == BaseName(Temp, n);
      NameRoundTrip(Temp, n);
    }
  }

  lemma TableNameParses(sst: set<nat>, n: nat)
    requires n < TWO_64
    ensures Parse(TableName(sst, n)) == Some((n, TableFile))
  {
    NameRoundTrip(if n in sst then SstTable else Table, n);
    hide Parse, BaseName;
  }

  // ----- Recover's scan -----

  /** Recover's `logs` vector: numbers of the logs the version keeps, in directory order. */
  function ScanLogs(names: seq<string>, v: Manifest): seq<nat> {
    if names == [] then [] else ScanLogs(names[..|names| - 1], v) + KeptLog(names[|names| - 1], v)
  }

  function KeptLog(name: string, v: Manifest): seq<nat> {
    match Parse(name)
    case Some((n, LogFile)) => if KeepsLog(v, n) then [n] else []
    case _ => []
  }

  function NamedNumbers(names: seq<string>): set<nat> {
    set name | name in names && Parse(name).Some? :: Parse(name).value.0
  }

  /** Recover's `expected` set after the scan: live tables without a file. */
  function Missing(names: seq<string>, live: set<nat>): set<nat> { live - NamedNumbers(names) }

  lemma {:induction false} ScanLogsFinds(names: seq<string>, v: Manifest, n: nat)
    ensures n in ScanLogs(names, v)
       <==> KeepsLog(v, n) && exists name :: name in names && Parse(name) == Some((n, LogFile))
  {
    if names != [] {
      var init, last := names[..|names| - 1], names[|names| - 1];
      assert names == init + [last];
      hide Parse;
      ScanLogsFinds(init, v, n);
      if name :| name in names && Parse(name) == Some((n, LogFile)) {
        assert name in init || name == last;
      }
    }
  }

  predicate Distinct<T(==)>(s: seq<T>) { forall i, j :: 0 <= i < j < |s| ==> s[i] != s[j] }

  lemma {:induction false} ScanLogsDistinct(names: seq<string>, d: Dir, v: Manifest)
    requires Fits64(d) && (forall name :: name in names ==> IsChild(d, name)) && Distinct(names)
    ensures Distinct(ScanLogs(names, v))
  {
    if names != [] {
      var init, last := names[..|names| - 1], names[|names| - 1];
      assert forall name :: name in init ==> name in names;
      ScanLogsDistinct(init, d, v);
      if Parse(last).Some? { ChildParses(d, last); }
      hide Parse, IsChild, BaseName;
      if Parse(last).Some? && Parse(last).value.1 == LogFile {
        var n := Parse(last).value.0;
        ScanLogsFinds(init, v, n);
        if name :| name in init && Parse(name) == Some((n, LogFile)) {
          ChildParses(d, name);
          assert false;
        }
      }
    }
  }

  lemma ScanOfListing(names: seq<string>, d: Dir, v: Manifest, n: nat)
    requires Lists(names, d)
    ensures n in ScanLogs(names, v) <==> n in d.logs && KeepsLog(v, n)
  {
    ScanLogsFinds(names, v, n);
    hide Parse, BaseName, ScanLogs;
    if n in d.logs {
      NameRoundTrip(Log, n);
      assert BaseName(Log, n) in names;
    }
    if name :| name in names && Parse(name) == Some((n, LogFile)) {
      ChildParses(d, name);
    }
  }

  /** The missing-file check looks at numbers only: it passes if and only if every live table number is borne by some
      file, of whatever kind (the unnumbered names count as 0). */
  lemma MissingCheckExactly(names: seq<string>, d: Dir, live: set<nat>)
    requires Lists(names, d)
    ensures Missing(names, live) == {} <==> live <= AllNumbers(d) + {0}
  {
    forall n ensures n in NamedNumbers(names) <==> n in AllNumbers(d) || n == 0 {
      NamedNumbersOf(names, d, n);
    }
    hide NamedNumbers;
    if Missing(names, live) == {} {
      forall n | n in live ensures n in AllNumbers(d) + {0} { assert n !in Missing(names, live); }
    }
  }

  lemma NamedNumbersOf(names: seq<string>, d: Dir, n: nat)
    requires Lists(names, d)
    ensures n in NamedNumbers(names) <==> n in AllNumbers(d) || n == 0
  {
    hide Parse, BaseName;
    if n in NamedNumbers(names) {
      var name :| name in names && Parse(name).Some? && Parse(name).value.0 == n;
      ChildParses(d, name);
    }
    if n in d.logs { NameRoundTrip(Log, n); assert BaseName(Log, n) in names; }
    if n in d.tables { TableNameParses(d.sst, n); assert TableName(d.sst, n) in names; }
    if n in d.manifests { NameRoundTrip(Descriptor, n); assert BaseName(Descriptor, n) in names; }
    if n in d.temps { NameRoundTrip(Temp, n); assert BaseName(Temp, n) in names; }
    if n == 0 { ParseUnnumbered("CURRENT"); assert "CURRENT" in names; }
  }

  /** So a lost table goes unnoticed when a log happens to have its number. */
  lemma MissingTableUnnoticed(names: seq<string>)
    requires Lists(names, Dir({5}, {}, {}, {1}, {}, {"CURRENT"}))
    ensures Missing(names, {5}) == {}
  {
    var d := Dir({5}, {}, {}, {1}, {}, {"CURRENT"});
    assert 5 in AllNumbers(d);
    MissingCheckExactly(names, d, {5});
  }

  // ----- sorting -----

  predicate Ascending(s: seq<nat>) { forall i, j :: 0 <= i < j < |s| ==> s[i] < s[j] }

  function Insert(s: seq<nat>, n: nat): seq<nat> {
    if s == [] || n <= s[0] then [n] + s else [s[0]] + Insert(s[1..], n)
  }

  function Sorted(s: seq<nat>): seq<nat> {
    if s == [] then [] else Insert(Sorted(s[..|s| - 1]), s[|s| - 1])
  }

  lemma {:induction false} InsertKeeps(s: seq<nat>, n: nat)
    requires Ascending(s) && n !in s
    ensures Ascending(Insert(s, n)) && |Insert(s, n)| == |s| + 1
    ensures forall x :: x in Insert(s, n) <==> x in s || x == n
  {
    if s != [] && n > s[0] {
      InsertKeeps(s[1..], n);
      var t := Insert(s[1..], n);
      forall i | 0 <= i < |t| ensures s[0] < t[i] {
        assert t[i] in t;
      }
    }
  }

  lemma {:induction false} SortedIsAscending(s: seq<nat>)
    requires Distinct(s)
    ensures Ascending(Sorted(s)) && |Sorted(s)| == |s|
    ensures forall x :: x in Sorted(s) <==> x in s
  {
    if s != [] {
      var init, last := s[..|s| - 1], s[|s| - 1];
      SortedIsAscending(init);
      assert s == init + [last] && last !in init;
      InsertKeeps(Sorted(init), last);
    }
  }

  lemma SomeElement<T>(s: seq<T>)
    ensures s == [] || exists x :: x in s
  {
    if s != [] { assert s[0] in s; }
  }

  /** An ascending sequence is determined by its elements. */
  lemma {:induction false} AscendingUnique(a: seq<nat>, b: seq<nat>)
    requires Ascending(a) && Ascending(b) && forall x :: x in a <==> x in b
    ensures a == b
  {
    SomeElement(a);
    SomeElement(b);
    if a != [] && b != [] {
      assert a[0] in b;
      assert b[0] in a;
      assert a[0] == b[0];
      forall x ensures x in a[1..] <==> x in b[1..] {
        if x in a[1..] { assert x in a && x != a[0]; }
        if x in b[1..] { assert x in b && x != b[0]; }
      }
      AscendingUnique(a[1..], b[1..]);
    }
  }

  // ----- collection -----

  /** The keep rules of DeleteObsoleteFiles. */
  predicate Keeps(n: nat, t: FileType, v: Manifest, live: set<nat>, manifestNumber: nat) {
    match t
    case LogFile => KeepsLog(v, n)
    case DescriptorFile => n >= manifestNumber
    case TableFile => n in live
    case TempFile => n in live
    case _ => true
  }

  function Collected(d: Dir, v: Manifest, live: set<nat>, manifestNumber: nat): Dir {
    Dir((set n | n in d.logs && KeepsLog(v, n)), d.tables * live, d.sst,
        (set n | n in d.manifests && n >= manifestNumber), d.temps * live, d.others)
  }

  /** Collection agrees with recovery: after it, a recovery from the same version passes its missing-file check and
      picks the same logs in the same order as before, in whatever order either directory is listed; and every other
      owned log, table, temporary file or older manifest is gone. */
  lemma CollectionAgreesWithRecovery(before: seq<string>, after: seq<string>, d: Dir, v: Manifest, pending: set<nat>,
                                     manifestNumber: nat)
    requires Lists(before, d) && Lists(after, Collected(d, v, v.live + pending, manifestNumber))
    requires v.live <= d.tables
    ensures Missing(after, v.live) == {}
    ensures Sorted(ScanLogs(after, v)) == Sorted(ScanLogs(before, v))
    ensures forall name :: name in before ==> (name !in after <==> ObsoleteName(name, v, pending, manifestNumber))
    ensures forall name :: name in after ==> name in before
  {
    var e := Collected(d, v, v.live + pending, manifestNumber);
    assert v.live <= AllNumbers(e) + {0};
    MissingCheckExactly(after, e, v.live);
    SameLogsPicked(before, after, d, e, v);
    forall name | name in before ensures name !in after <==> ObsoleteName(name, v, pending, manifestNumber) {
      ChildListed(after, e, name);
      GoneExactly(d, v, pending, manifestNumber, name);
    }
    forall name | name in after ensures name in before {
      ChildListed(before, d, name);
    }
  }

  /** Which files are to go, spelled out: logs below the log number other than the previous one, tables and temporary
      files that are neither live nor pending, manifests below the current one; and nothing without a number. */
  predicate ObsoleteName(name: string, v: Manifest, pending: set<nat>, manifestNumber: nat) {
    match Parse(name)
    case Some((n, LogFile)) => n < v.logNumber && n != v.prevLogNumber
    case Some((n, TableFile)) => n !in v.live && n !in pending
    case Some((n, TempFile)) => n !in v.live && n !in pending
    case Some((n, DescriptorFile)) => n < manifestNumber
    case _ => false
  }

  lemma ChildListed(names: seq<string>, d: Dir, name: string)
    requires Lists(names, d)
    ensures name in names <==> IsChild(d, name)
  {
    hide BaseName, Parse;
  }

  /** The collection removes exactly these; so the current manifest and CURRENT itself stay. */
  lemma GoneExactly(d: Dir, v: Manifest, pending: set<nat>, manifestNumber: nat, name: string)
    requires Fits64(d) && IsChild(d, name)
    ensures var e := Collected(d, v, v.live + pending, manifestNumber);
            !IsChild(e, name) <==> ObsoleteName(name, v, pending, manifestNumber)
  {
    var e := Collected(d, v, v.live + pending, manifestNumber);
    if Parse(name).None? {
      OtherName(d, name);
    } else {
      ChildParses(d, name);
      hide Parse, BaseName;
      if IsChild(e, name) { ChildParses(e, name); }
      if name in UNNUMBERED { UnnumberedIsOther(d, name); }
    }
  }

  /** The same of a whole directory. */
  lemma GoneSpelledOut(d: Dir, v: Manifest, pending: set<nat>, manifestNumber: nat)
    requires Fits64(d)
    ensures var e := Collected(d, v, v.live + pending, manifestNumber);
            && (forall name, n, t :: IsChild(d, name) && Parse(name) == Some((n, t)) ==>
                  (!IsChild(e, name)
                   <==> || (t == LogFile && n < v.logNumber && n != v.prevLogNumber)
                        || ((t == TableFile || t == TempFile) && n !in v.live && n !in pending)
                        || (t == DescriptorFile && n < manifestNumber)))
            && (manifestNumber in d.manifests ==> manifestNumber in e.manifests)
            && e.others == d.others
  {
    var e := Collected(d, v, v.live + pending, manifestNumber);
    hide Parse, IsChild, Fits64;
    forall name, n, t | IsChild(d, name) && Parse(name) == Some((n, t))
      ensures !IsChild(e, name) <==>
                || (t == LogFile && n < v.logNumber && n != v.prevLogNumber)
                || ((t == TableFile || t == TempFile) && n !in v.live && n !in pending)
                || (t == DescriptorFile && n < manifestNumber)
    {
      GoneExactly(d, v, pending, manifestNumber, name);
    }
  }

  lemma OtherName(d: Dir, name: string)
    requires Fits64(d) && IsChild(d, name) && Parse(name).None?
    ensures name in d.others
  {
    hide Parse, BaseName;
    if n :| n in d.logs && name == BaseName(Log, n) {
      NameRoundTrip(Log, n);
    } else if n :| n in d.tables && name == TableName(d.sst, n) {
      TableNameParses(d.sst, n);
    } else if n :| n in d.manifests && name == BaseName(Descriptor, n) {
      NameRoundTrip(Descriptor, n);
    } else if n :| n in d.temps && name == BaseName(Temp, n) {
      NameRoundTrip(Temp, n);
    }
  }

  lemma UnnumberedIsOther(d: Dir, name: string)
    requires Fits64(d) && IsChild(d, name) && name in UNNUMBERED
    ensures name in d.others
  {
    ParseUnnumbered(name);
    hide Parse, BaseName;
    if n :| n in d.logs && name == BaseName(Log, n) {
      NameRoundTrip(Log, n);
    } else if n :| n in d.tables && name == TableName(d.sst, n) {
      TableNameParses(d.sst, n);
    } else if n :| n in d.manifests && name == BaseName(Descriptor, n) {
      NameRoundTrip(Descriptor, n);
    } else if n :| n in d.temps && name == BaseName(Temp, n) {
      NameRoundTrip(Temp, n);
    }
  }

  lemma SameLogsPicked(before: seq<string>, after: seq<string>, d: Dir, e: Dir, v: Manifest)
    requires Lists(before, d) && Lists(after, e)
    requires forall n :: KeepsLog(v, n) ==> (n in d.logs <==> n in e.logs)
    ensures Sorted(ScanLogs(after, v)) == Sorted(ScanLogs(before, v))
  {
    var a, b := ScanLogs(before, v), ScanLogs(after, v);
    ScanLogsDistinct(before, d, v);
    ScanLogsDistinct(after, e, v);
    SortedIsAscending(a);
    SortedIsAscending(b);
    forall n ensures n in a <==> n in b {
      ScanOfListing(before, d, v, n);
      ScanOfListing(after, e, v, n);
    }
    hide Lists, ScanLogs, Sorted, IsChild;
    AscendingUnique(Sorted(b), Sorted(a));
  }

  // ----- the loop of DeleteObsoleteFiles -----

  datatype Store = Store(disk: Disk, sst: set<nat>, manifests: set<nat>, temps: set<nat>, others: set<string>)

  function DirOf(st: Store): Dir { Dir(st.disk.logs.Keys, st.disk.tables.Keys, st.sst, st.manifests, st.temps, st.others) }

  function Remove(st: Store, t: FileType, n: nat, name: string): Store {
    match t
    case LogFile => st.(disk := st.disk.(logs := st.disk.logs - {n}))
    case TableFile => st.(disk := st.disk.(tables := st.disk.tables - {n}))
    case DescriptorFile => st.(manifests := st.manifests - {n})
    case TempFile => st.(temps := st.temps - {n})
    case _ => st.(others := st.others - {name})
  }

  function LeftLogs<T>(logs: map<nat, T>, v: Manifest, names: seq<string>): map<nat, T> {
    map n | n in logs && (KeepsLog(v, n) || BaseName(Log, n) !in names) :: logs[n]
  }

  function LeftTables<T>(tables: map<nat, T>, sst: set<nat>, live: set<nat>, names: seq<string>): map<nat, T> {
    map n | n in tables && (n in live || TableName(sst, n) !in names) :: tables[n]
  }

  function LeftManifests(manifests: set<nat>, manifestNumber: nat, names: seq<string>): set<nat> {
    set n | n in manifests && (n >= manifestNumber || BaseName(Descriptor, n) !in names)
  }

  function LeftTemps(temps: set<nat>, live: set<nat>, names: seq<string>): set<nat> {
    set n | n in temps && (n in live || BaseName(Temp, n) !in names)
  }

  /** What is left when the files in `names` have been looked at. */
  function LeftAfter(st: Store, v: Manifest, live: set<nat>, manifestNumber: nat, names: seq<string>): Store {
    Store(st.disk.(logs := LeftLogs(st.disk.logs, v, names), tables := LeftTables(st.disk.tables, st.sst, live, names)),
          st.sst, LeftManifests(st.manifests, manifestNumber, names), LeftTemps(st.temps, live, names), st.others)
  }

  lemma LogsStep<T>(logs: map<nat, T>, v: Manifest, names: seq<string>, name: string, n: nat, t: FileType)
    requires forall m :: m in logs ==> (BaseName(Log, m) == name <==> t == LogFile && m == n)
    ensures LeftLogs(logs, v, names + [name])
         == if t == LogFile && !KeepsLog(v, n) then LeftLogs(logs, v, names) - {n} else LeftLogs(logs, v, names)
  {
    hide BaseName, KeepsLog;
  }

  lemma TablesStep<T>(tables: map<nat, T>, sst: set<nat>, live: set<nat>, names: seq<string>, name: string, n: nat,
                      t: FileType)
    requires forall m :: m in tables ==> (TableName(sst, m) == name <==> t == TableFile && m == n)
    ensures LeftTables(tables, sst, live, names + [name])
         == if t == TableFile && n !in live then LeftTables(tables, sst, live, names) - {n}
            else LeftTables(tables, sst, live, names)
  {
    hide TableName;
  }

  lemma ManifestsStep(manifests: set<nat>, k: nat, names: seq<string>, name: string, n: nat, t: FileType)
    requires forall m :: m in manifests ==> (BaseName(Descriptor, m) == name <==> t == DescriptorFile && m == n)
    ensures LeftManifests(manifests, k, names + [name])
         == if t == DescriptorFile && n < k then LeftManifests(manifests, k, names) - {n}
            else LeftManifests(manifests, k, names)
  {
    hide BaseName;
  }

  lemma TempsStep(temps: set<nat>, live: set<nat>, names: seq<string>, name: string, n: nat, t: FileType)
    requires forall m :: m in temps ==> (BaseName(Temp, m) == name <==> t == TempFile && m == n)
    ensures LeftTemps(temps, live, names + [name])
         == if t == TempFile && n !in live then LeftTemps(temps, live, names) - {n} else LeftTemps(temps, live, names)
  {
    hide BaseName;
  }

  lemma NameIsOnlyIts(d: Dir, name: string)
    requires Fits64(d) && IsChild(d, name) && Parse(name).Some?
    ensures var (n, t) := Parse(name).value;
            && (forall m :: m in d.logs ==> (BaseName(Log, m) == name <==> t == LogFile && m == n))
            && (forall m :: m in d.tables ==> (TableName(d.sst, m) == name <==> t == TableFile && m == n))
            && (forall m :: m in d.manifests ==> (BaseName(Descriptor, m) == name <==> t == DescriptorFile && m == n))
            && (forall m :: m in d.temps ==> (BaseName(Temp, m) == name <==> t == TempFile && m == n))
  {
    hide Parse, BaseName, IsChild, TableName;
    ChildParses(d, name);
    forall m | m in d.logs ensures BaseName(Log, m) == name ==> Parse(name) == Some((m, LogFile)) {
      NameRoundTrip(Log, m);
    }
    forall m | m in d.tables ensures TableName(d.sst, m) == name ==> Parse(name) == Some((m, TableFile)) {
      TableNameParses(d.sst, m);
    }
    forall m | m in d.manifests ensures BaseName(Descriptor, m) == name ==> Parse(name) == Some((m, DescriptorFile)) {
      NameRoundTrip(Descriptor, m);
    }
    forall m | m in d.temps ensures BaseName(Temp, m) == name ==> Parse(name) == Some((m, TempFile)) {
      NameRoundTrip(Temp, m);
    }
  }

  /** One turn of the loop. */
  lemma LeftAfterStep(st: Store, v: Manifest, live: set<nat>, manifestNumber: nat, names: seq<string>, name: string)
    requires Fits64(DirOf(st)) && IsChild(DirOf(st), name) && Parse(name).Some?
    ensures var (n, t) := Parse(name).value;
            var left := LeftAfter(st, v, live, manifestNumber, names);
            LeftAfter(st, v, live, manifestNumber, names + [name])
            == if Keeps(n, t, v, live, manifestNumber) then left else Remove(left, t, n, name)
  {
    NameIsOnlyIts(DirOf(st), name);
    hide FileNames.Parse, BaseName, TableName, IsChild, KeepsLog, LeftLogs, LeftTables, LeftManifests, LeftTemps;
    var (n, t) := Parse(name).value;
    LogsStep(st.disk.logs, v, names, name, n, t);
    TablesStep(st.disk.tables, st.sst, live, names, name, n, t);
    ManifestsStep(st.manifests, manifestNumber, names, name, n, t);
    TempsStep(st.temps, live, names, name, n, t);
  }

  /** A name that does not parse is passed over. */
  lemma ForeignName(st: Store, v: Manifest, live: set<nat>, manifestNumber: nat, names: seq<string>, name: string)
    requires Fits64(DirOf(st)) && Parse(name).None?
    ensures LeftAfter(st, v, live, manifestNumber, names + [name]) == LeftAfter(st, v, live, manifestNumber, names)
  {
    hide Parse, BaseName, TableName, KeepsLog;
    forall m: nat | m < TWO_64
      ensures BaseName(Log, m) != name && TableName(st.sst, m) != name
      ensures BaseName(Descriptor, m) != name && BaseName(Temp, m) != name
    {
      NameRoundTrip(Log, m);
      TableNameParses(st.sst, m);
      NameRoundTrip(Descriptor, m);
      NameRoundTrip(Temp, m);
    }
    assert LeftLogs(st.disk.logs, v, names + [name]) == LeftLogs(st.disk.logs, v, names);
    assert LeftTables(st.disk.tables, st.sst, live, names + [name]) == LeftTables(st.disk.tables, st.sst, live, names);
    assert LeftManifests(st.manifests, manifestNumber, names + [name]) == LeftManifests(st.manifests, manifestNumber, names);
    assert LeftTemps(st.temps, live, names + [name]) == LeftTemps(st.temps, live, names);
  }

  lemma NothingLookedAt(st: Store, v: Manifest, live: set<nat>, manifestNumber: nat)
    ensures LeftAfter(st, v, live, manifestNumber, []) == st
  {
    assert LeftLogs(st.disk.logs, v, []) == st.disk.logs;
    assert LeftTables(st.disk.tables, st.sst, live, []) == st.disk.tables;
    assert LeftManifests(st.manifests, manifestNumber, []) == st.manifests;
    assert LeftTemps(st.temps, live, []) == st.temps;
  }

  /** Looking at the whole directory is the collection of the state machine. */
  lemma AllLookedAt(st: Store, v: Manifest, pending: set<nat>, manifestNumber: nat, names: seq<string>)
    requires Lists(names, DirOf(st))
    ensures var left := LeftAfter(st, v, v.live + pending, manifestNumber, names);
            && left.disk == CollectedDisk(st.disk, v, pending)
            && DirOf(left) == Collected(DirOf(st), v, v.live + pending, manifestNumber)
  {
    hide BaseName, TableName, KeepsLog, IsChild;
    var after, d := CollectedDisk(st.disk, v, pending), Collected(DirOf(st), v, v.live + pending, manifestNumber);
    assert LeftLogs(st.disk.logs, v, names) == after.logs;
    assert LeftTables(st.disk.tables, st.sst, v.live + pending, names) == after.tables;
    assert LeftManifests(st.manifests, manifestNumber, names) == d.manifests;
    assert LeftTemps(st.temps, v.live + pending, names) == d.temps;
    assert after.logs.Keys == d.logs;
    assert after.tables.Keys == d.tables;
  }
}
