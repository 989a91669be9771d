/** db/filename.cpp: printing and parsing the names of database files, and the switch of CURRENT to a new manifest. */
module FileNames {
  import opened Coding

  datatype FileType =
    | LogFile | DBLockFile | TableFile | DescriptorFile | CurrentFile | TempFile | InfoLogFile

  /** The five kinds of numbered name the program makes. */
  datatype Kind = Log | Table | SstTable | Temp | Descriptor

  // ----- decimal numbers -----

  predicate IsDigit(c: char) { '0' <= c <= '9' }

  function DigitValue(c: char): nat
    requires IsDigit(c)
  {
    c as int - '0' as int
  }

  predicate AllDigits(s: string) { forall i :: 0 <= i < |s| ==> IsDigit(s[i]) }

  function Value(s: string): nat
    requires AllDigits(s)
  {
    if s == "" then 0 else 10 * Value(s[..|s| - 1]) + DigitValue(s[|s| - 1])
  }

  function Digits(n: nat): (s: string)
    ensures s != "" && AllDigits(s)
  {
    var last := [('0' as int + n % 10) as char];
    if n < 10 then last else Digits(n / 10) + last
  }

  function Zeros(n: nat): (s: string)
    ensures |s| == n && AllDigits(s)
  {
    seq(n, i => '0')
  }

  /** printf's %06llu and %0.6llu: at least six digits. */
  function Padded(n: nat): (s: string)
    ensures |s| >= 6 && AllDigits(s)
  {
    var d := Digits(n);
    if |d| < 6 then Zeros(6 - |d|) + d else d
  }

  lemma {:induction false} DigitsValue(n: nat)
    ensures Value(Digits(n)) == n
  {
    if n >= 10 { DigitsValue(n / 10); }
  }

  lemma {:induction false} ZerosValue(k: nat, s: string)
    requires AllDigits(s)
    ensures AllDigits(Zeros(k) + s) && Value(Zeros(k) + s) == Value(s)
  {
    var t := Zeros(k) + s;
    if s != "" {
      assert t[..|t| - 1] == Zeros(k) + s[..|s| - 1];
      ZerosValue(k, s[..|s| - 1]);
    } else if k > 0 {
      assert t[..|t| - 1] == Zeros(k - 1) + "";
      ZerosValue(k - 1, "");
    }
  }

  lemma PaddedValue(n: nat)
    ensures Value(Padded(n)) == n
  {
    DigitsValue(n);
    if |Digits(n)| < 6 { ZerosValue(6 - |Digits(n)|, Digits(n)); }
  }

  /** Length of the longest prefix of digits. */
  function DigitRun(s: string): (n: nat)
    ensures n <= |s| && AllDigits(s[..n])
    ensures n < |s| ==> !IsDigit(s[n])
  {
    if s == "" || !IsDigit(s[0]) then 0 else 1 + DigitRun(s[1..])
  }

  lemma {:induction false} DigitRunOf(d: string, rest: string)
    requires AllDigits(d) && (rest == "" || !IsDigit(rest[0]))
    ensures DigitRun(d + rest) == |d|
  {
    if d != "" {
      assert (d + rest)[1..] == d[1..] + rest;
      DigitRunOf(d[1..], rest);
    } else {
      assert d + rest == rest;
    }
  }

  /** A number at the front of `s`, if there is one that fits 64 bits, and how many characters it took. */
  function LeadingNumber(s: string): Option<(nat, nat)> {
    var k := DigitRun(s);
    if k == 0 || Value(s[..k]) >= TWO_64 then None else Some((Value(s[..k]), k))
  }

  lemma {:induction false} ValueGrows(s: string, k: nat)
    requires k <= |s| && AllDigits(s)
    ensures Value(s[..k]) <= Value(s)
    decreases |s| - k
  {
    if k < |s| {
      ValueGrows(s, k + 1);
      assert s[..k + 1][..k] == s[..k];
    } else {
      assert s[..k] == s;
    }
  }

  const MAX_64 := TWO_64 - 1

  /** Consumes the longest run of digits at the front; fails on overflow, checked one digit ahead. */
  method ConsumeDecimalNumber(s: string) returns (ok: bool, value: nat, rest: string)
    ensures ok <==> LeadingNumber(s).Some?
    ensures ok ==> value == LeadingNumber(s).value.0 && rest == s[LeadingNumber(s).value.1..]
  {
    hide LeadingNumber, DigitRun;
    var v, digits := 0, 0;
    rest := s;
    while rest != "" && IsDigit(rest[0])
      invariant digits <= |s| && rest == s[digits..] && AllDigits(s[..digits])
      invariant v == Value(s[..digits]) < TWO_64
      decreases |rest|
    {
      var delta := DigitValue(rest[0]);
      OneMoreDigit(s, digits);
      if v > MAX_64 / 10 || (v == MAX_64 / 10 && delta > MAX_64 % 10) {
        Overflows(s, digits + 1);
        return false, 0, rest;
      }
      v := v * 10 + delta;
      digits := digits + 1;
      rest := rest[1..];
    }
    DigitsEnd(s, digits);
    return digits > 0, v, rest;
  }

  lemma OneMoreDigit(s: string, k: nat)
    requires k < |s| && AllDigits(s[..k]) && IsDigit(s[k])
    ensures AllDigits(s[..k + 1]) && Value(s[..k + 1]) == Value(s[..k]) * 10 + DigitValue(s[k])
  {
    assert s[..k + 1][..k] == s[..k];
  }

  lemma Overflows(s: string, k: nat)
    requires k <= |s| && AllDigits(s[..k]) && Value(s[..k]) >= TWO_64
    ensures LeadingNumber(s).None?
  {
    var run := DigitRun(s);
    DigitRunAtLeast(s, k);
    ValueGrows(s[..run], k);
    assert s[..run][..k] == s[..k];
  }

  lemma DigitsEnd(s: string, k: nat)
    requires k <= |s| && AllDigits(s[..k]) && (k < |s| ==> !IsDigit(s[k])) && Value(s[..k]) < TWO_64
    ensures LeadingNumber(s) == if k > 0 then Some((Value(s[..k]), k)) else None
  {
    assert s == s[..k] + s[k..];
    DigitRunOf(s[..k], s[k..]);
  }

  lemma {:induction false} DigitRunAtLeast(s: string, k: nat)
    requires k <= |s| && AllDigits(s[..k])
    ensures DigitRun(s) >= k
  {
    if k > 0 {
      assert s[0] == s[..k][0];
      assert s[1..][..k - 1] == s[..k][1..];
      DigitRunAtLeast(s[1..], k - 1);
    }
  }

  // ----- parsing -----

  function SuffixType(suffix: string): Option<FileType> {
    if suffix == ".log" then Some(LogFile)
    else if suffix == ".sst" || suffix == ".ldb" then Some(TableFile)
    else if suffix == ".dbtmp" then Some(TempFile)
    else None
  }

  predicate StartsWith(s: string, p: string) { p <= s }

  const MANIFEST := "MANIFEST-"

  function Parse(name: string): Option<(nat, FileType)> {
    if name == "CURRENT" then Some((0, CurrentFile))
    else if name == "LOCK" then Some((0, DBLockFile))
    else if name == "LOG" || name == "LOG.old" then Some((0, InfoLogFile))
    else if StartsWith(name, MANIFEST) then
      match LeadingNumber(name[|MANIFEST|..])
      case None => None
      case Some((n, k)) => if k == |name| - |MANIFEST| then Some((n, DescriptorFile)) else None
    else
      match LeadingNumber(name)
      case None => None
      case Some((n, k)) =>
        (match SuffixType(name[k..])
         case None => None
         case Some(t) => Some((n, t)))
  }

  method ParseFileName(fname: string) returns (ok: bool, number: nat, fileType: FileType)
    ensures ok <==> Parse(fname).Some?
    ensures ok ==> (number, fileType) == Parse(fname).value
  {
    var rest := fname;
    number, fileType := 0, CurrentFile;
    if rest == "CURRENT" {
      return true, 0, CurrentFile;
    } else if rest == "LOCK" {
      return true, 0, DBLockFile;
    } else if rest == "LOG" || rest == "LOG.old" {
      return true, 0, InfoLogFile;
    } else if StartsWith(rest, MANIFEST) {
      rest := rest[|MANIFEST|..];
      var isNumber;
      isNumber, number, rest := ConsumeDecimalNumber(rest);
      if !isNumber {
        return false, 0, DescriptorFile;
      }
      if rest != "" {
        return false, 0, DescriptorFile;
      }
      return true, number, DescriptorFile;
    } else {
      var isNumber;
      isNumber, number, rest := ConsumeDecimalNumber(rest);
      if !isNumber {
        return false, 0, LogFile;
      }
      var suffix := rest;
      if suffix == ".log" {
        fileType := LogFile;
      } else if suffix == ".sst" || suffix == ".ldb" {
        fileType := TableFile;
      } else if suffix == ".dbtmp" {
        fileType := TempFile;
      } else {
        return false, 0, LogFile;
      }
      return true, number, fileType;
    }
  }

  // ----- printing -----

  function Suffix(kind: Kind): string {
    match kind
    case Log => ".log"
    case Table => ".ldb"
    case SstTable => ".sst"
    case Temp => ".dbtmp"
    case Descriptor => ""
  }

  function TypeOf(kind: Kind): FileType {
    match kind
    case Log => LogFile
    case Table => TableFile
    case SstTable => TableFile
    case Temp => TempFile
    case Descriptor => DescriptorFile
  }

  /** The name inside the database directory. */
  function BaseName(kind: Kind, number: nat): string {
    if kind == Descriptor then MANIFEST + Padded(number) else Padded(number) + Suffix(kind)
  }

  /** MakeFileName puts no slash after the prefix; DescriptorFileName does. */
  function FileName(dbname: string, kind: Kind, number: nat): string {
    dbname + (if kind == Descriptor then "/" else "") + BaseName(kind, number)
  }

  function CurrentFileName(dbname: string): string { dbname + "/CURRENT" }

  lemma NumberedName(number: nat, suffix: string)
    requires suffix == "" || !IsDigit(suffix[0])
    ensures var name := Padded(number) + suffix;
            && DigitRun(name) == |Padded(number)| && name[..DigitRun(name)] == Padded(number)
            && name[DigitRun(name)..] == suffix && Value(Padded(number)) == number
  {
    DigitRunOf(Padded(number), suffix);
    PaddedValue(number);
  }

  /** Printer and parser are inverse on every 64-bit number and every kind of name. */
  lemma NameRoundTrip(kind: Kind, number: nat)
    requires number < TWO_64
    ensures Parse(BaseName(kind, number)) == Some((number, TypeOf(kind)))
  {
    hide Parse;
    if kind == Descriptor {
      ManifestRoundTrip(number);
    } else {
      NumberedRoundTrip(number, Suffix(kind), TypeOf(kind));
    }
  }

  lemma ManifestRoundTrip(number: nat)
    requires number < TWO_64
    ensures Parse(MANIFEST + Padded(number)) == Some((number, DescriptorFile))
  {
    hide Padded, Digits, DigitRun, Value;
    var name := MANIFEST + Padded(number);
    NumberedName(number, "");
    assert name[0] == 'M' && name[|MANIFEST|..] == Padded(number) && Padded(number) + "" == Padded(number);
  }

  lemma NumberedRoundTrip(number: nat, suffix: string, t: FileType)
    requires number < TWO_64 && SuffixType(suffix) == Some(t)
    ensures Parse(Padded(number) + suffix) == Some((number, t))
  {
    hide Padded, Digits, DigitRun, Value;
    var name := Padded(number) + suffix;
    NumberedName(number, suffix);
    assert IsDigit(name[0]) && name[0] != 'M' && name[0] != 'C' && name[0] != 'L';
  }

  /** The kinds of file, spelled out: digits and a suffix, or a prefix and digits, are parsed to the number the digits
      stand for and to that kind. */
  lemma NamesSpelledOut(d: string)
    requires d != "" && AllDigits(d) && Value(d) < 0x1_0000_0000_0000_0000
    ensures Parse(d + ".log") == Some((Value(d), LogFile))
    ensures Parse(d + ".ldb") == Some((Value(d), TableFile)) && Parse(d + ".sst") == Some((Value(d), TableFile))
    ensures Parse(d + ".dbtmp") == Some((Value(d), TempFile))
    ensures Parse("MANIFEST-" + d) == Some((Value(d), DescriptorFile))
  {
    hide Parse;
    SpelledParses(d + ".log", d, ".log", Value(d), LogFile);
    SpelledParses(d + ".ldb", d, ".ldb", Value(d), TableFile);
    SpelledParses(d + ".sst", d, ".sst", Value(d), TableFile);
    SpelledParses(d + ".dbtmp", d, ".dbtmp", Value(d), TempFile);
    SpelledParses("MANIFEST-" + d, d, "", Value(d), DescriptorFile);
  }

  /** Four names bear no number, and these alone are parsed to the other kinds. */
  lemma UnnumberedSpelledOut(name: string)
    ensures Parse(name) == Some((0, CurrentFile)) <==> name == "CURRENT"
    ensures Parse(name) == Some((0, DBLockFile)) <==> name == "LOCK"
    ensures Parse(name) == Some((0, InfoLogFile)) <==> name == "LOG" || name == "LOG.old"
    ensures Parse(name).Some? && Parse(name).value.1 in {CurrentFile, DBLockFile, InfoLogFile} ==>
              Parse(name).value.0 == 0
  {
    hide LeadingNumber;
  }

  /** The names made for a database: where the slash goes and where it does not. */
  lemma MadeNames(dbname: string, n: nat)
    ensures FileName(dbname, Log, n) == dbname + (Padded(n) + ".log")
    ensures FileName(dbname, Table, n) == dbname + (Padded(n) + ".ldb")
    ensures FileName(dbname, SstTable, n) == dbname + (Padded(n) + ".sst")
    ensures FileName(dbname, Temp, n) == dbname + (Padded(n) + ".dbtmp")
    ensures FileName(dbname, Descriptor, n) == dbname + "/MANIFEST-" + Padded(n)
    ensures CurrentFileName(dbname) == dbname + "/CURRENT"
  {
    hide Padded;
    assert dbname + "" == dbname;
    assert dbname + "/" + ("MANIFEST-" + Padded(n)) == dbname + "/MANIFEST-" + Padded(n);
  }

  /** The number is printed in decimal, filled up with zeros to six digits and not beyond. */
  lemma PaddedExactly(n: nat)
    ensures AllDigits(Padded(n)) && Value(Padded(n)) == n
    ensures n < 1_000_000 ==> |Padded(n)| == 6
    ensures n >= 1_000_000 ==> |Padded(n)| > 6 && Padded(n)[0] != '0'
  {
    PaddedValue(n);
    DigitsLength(n, 6);
    LeadingDigit(n);
    assert Power10(6) == 1_000_000;
    hide Digits, Value;
  }

  function Power10(k: nat): nat { if k == 0 then 1 else 10 * Power10(k - 1) }

  lemma {:induction false} DigitsLength(n: nat, k: nat)
    requires k > 0
    ensures |Digits(n)| <= k <==> n < Power10(k)
  {
    if n < 10 {
      AtLeastTen(k);
    } else if k > 1 {
      DigitsLength(n / 10, k - 1);
    } else {
      assert Power10(1) == 10 * Power10(0) && |Digits(n / 10)| > 0;
    }
  }

  lemma {:induction false} AtLeastTen(k: nat)
    requires k > 0
    ensures Power10(k) >= 10
  {
    if k > 1 { AtLeastTen(k - 1); } else { assert Power10(1) == 10 * Power10(0); }
  }

  lemma {:induction false} LeadingDigit(n: nat)
    ensures n > 0 ==> Digits(n)[0] != '0'
  {
    if n >= 10 { LeadingDigit(n / 10); }
  }

  lemma BaseNamesAreDistinct(k1: Kind, n1: nat, k2: Kind, n2: nat)
    requires n1 < TWO_64 && n2 < TWO_64 && BaseName(k1, n1) == BaseName(k2, n2)
    ensures k1 == k2 && n1 == n2
  {
    NameRoundTrip(k1, n1);
    NameRoundTrip(k2, n2);
    NumberedName(n1, Suffix(k1));
    NumberedName(n2, Suffix(k2));
    hide Parse, Padded, DigitRun, Value;
  }

  lemma AfterPrefix(dbname: string, kind: Kind, number: nat)
    ensures var slash, f := if kind == Descriptor then 1 else 0, FileName(dbname, kind, number);
            && |f| > |dbname| && f[|dbname| + slash..] == BaseName(kind, number)
            && (kind == Descriptor <==> f[|dbname|] == '/')
  {
    if kind != Descriptor { assert IsDigit(Padded(number)[0]); }
    hide Padded;
  }

  /** Different pairs of kind and number never share a name. */
  lemma NamesAreDistinct(dbname: string, k1: Kind, n1: nat, k2: Kind, n2: nat)
    requires n1 < TWO_64 && n2 < TWO_64 && FileName(dbname, k1, n1) == FileName(dbname, k2, n2)
    ensures k1 == k2 && n1 == n2
  {
    AfterPrefix(dbname, k1, n1);
    AfterPrefix(dbname, k2, n2);
    hide FileName, BaseName;
    BaseNamesAreDistinct(k1, n1, k2, n2);
  }

  /** `name` spells number `n` for a file of type `t`, with the digits `d` padded in any way. */
  ghost predicate Spells(name: string, d: string, suffix: string, n: nat, t: FileType) {
    && d != "" && AllDigits(d) && Value(d) == n < TWO_64
    && match t
       case DescriptorFile => name == "MANIFEST-" + d && suffix == ""
       case LogFile => name == d + suffix && suffix == ".log"
       case TableFile => name == d + suffix && (suffix == ".ldb" || suffix == ".sst")
       case TempFile => name == d + suffix && suffix == ".dbtmp"
       case _ => false
  }

  lemma SpelledParses(name: string, d: string, suffix: string, n: nat, t: FileType)
    requires Spells(name, d, suffix, n, t)
    ensures Parse(name) == Some((n, t))
  {
    DigitRunOf(d, suffix);
    if t == DescriptorFile {
      assert d + "" == d && d[..|d|] == d;
      assert name[|MANIFEST|..] == d && name[0] == 'M';
    } else {
      assert (d + suffix)[..|d|] == d && (d + suffix)[|d|..] == suffix;
      assert IsDigit(name[0]);
    }
    hide DigitRun, Value;
  }

  lemma ParsedSpells(name: string, n: nat, t: FileType) returns (d: string, suffix: string)
    requires t !in {CurrentFile, DBLockFile, InfoLogFile} && Parse(name) == Some((n, t))
    ensures Spells(name, d, suffix, n, t)
  {
    if t == DescriptorFile {
      d, suffix := name[|MANIFEST|..], "";
      assert d[..|d|] == d && name == MANIFEST + d;
    } else {
      var k := DigitRun(name);
      d, suffix := name[..k], name[k..];
      assert name == name[..k] + name[k..];
    }
  }

  /** Exactly which names the parser takes for numbered files: nothing may follow the suffix, and the value must fit
      64 bits. */
  lemma ParsesExactly(name: string, n: nat, t: FileType)
    requires t !in {CurrentFile, DBLockFile, InfoLogFile}
    ensures Parse(name) == Some((n, t)) <==> exists d, suffix :: Spells(name, d, suffix, n, t)
  {
    hide Parse, Spells;
    if Parse(name) == Some((n, t)) {
      var d, suffix := ParsedSpells(name, n, t);
    }
    if d, suffix :| Spells(name, d, suffix, n, t) {
      SpelledParses(name, d, suffix, n, t);
    }
  }

  // ----- SetCurrentFile -----

  /** A file system; `history` records what a crash could find after each elementary step. */
  class Env {
    var files: map<string, string>
    ghost var history: seq<map<string, string>>

    constructor ()
      ensures files == map[] && history == []
    {
      files := map[];
      history := [];
    }

    /** Writes and syncs, or fails leaving `partial` behind and then removing the file. */
    method WriteStringToFileSync(data: string, fname: string, fails: bool, partial: string) returns (ok: bool)
      modifies this
      ensures ok == !fails
      ensures files == if fails then old(files) - {fname} else old(files)[fname := data]
      ensures history == old(history) + [old(files)[fname := partial], files]
    {
      var before := files;
      files := files[fname := partial];
      history := history + [files];
      if fails {
        files := before - {fname};
      } else {
        files := before[fname := data];
      }
      history := history + [files];
      assert files == if fails then old(files) - {fname} else old(files)[fname := data];
      ok := !fails;
    }

    /** Renaming is atomic: it happens or it does not. */
    method RenameFile(src: string, target: string, fails: bool) returns (ok: bool)
      modifies this
      ensures ok == (!fails && src in old(files))
      ensures files == if ok then (old(files) - {src})[target := old(files)[src]] else old(files)
      ensures history == old(history) + [files]
    {
      ok := !fails && src in files;
      if ok {
        files := (files - {src})[target := files[src]];
      }
      history := history + [files];
    }

    method DeleteFile(fname: string)
      modifies this
      ensures files == old(files) - {fname}
      ensures history == old(history) + [files]
    {
      files := files - {fname};
      history := history + [files];
    }
  }

  function CurrentContents(number: nat): string { BaseName(Descriptor, number) + "\n" }

  predicate SameCurrent(a: map<string, string>, b: map<string, string>, dbname: string) {
    var c := CurrentFileName(dbname);
    (c in a <==> c in b) && (c in a ==> a[c] == b[c])
  }

  predicate PointsAt(files: map<string, string>, dbname: string, number: nat) {
    CurrentFileName(dbname) in files && files[CurrentFileName(dbname)] == CurrentContents(number)
  }

  /** Points CURRENT at a manifest through a temporary file. Whatever fails and wherever a crash falls, CURRENT is
      untouched or completely new; it is new if and only if the call succeeds, and the temporary file is gone. */
  method SetCurrentFile(env: Env, dbname: string, number: nat, writeFails: bool, partial: string, renameFails: bool)
      returns (ok: bool)
    modifies env
    ensures ok == (!writeFails && !renameFails)
    ensures ok ==> PointsAt(env.files, dbname, number)
    ensures !ok ==> SameCurrent(old(env.files), env.files, dbname)
    ensures FileName(dbname, Temp, number) !in env.files
    ensures forall f :: f != FileName(dbname, Temp, number) && f != CurrentFileName(dbname) ==>
              && (f in env.files <==> f in old(env.files))
              && (f in env.files ==> env.files[f] == old(env.files)[f])
    ensures old(env.history) <= env.history
    ensures forall i :: |old(env.history)| <= i < |env.history| ==>
              SameCurrent(old(env.files), env.history[i], dbname) || PointsAt(env.history[i], dbname, number)
  {
    var manifest := FileName(dbname, Descriptor, number);
    var contents := manifest[|dbname| + 1..];
    assert contents == BaseName(Descriptor, number);
    var tmp := FileName(dbname, Temp, number);
    TempIsNotCurrent(dbname, number);
    hide FileName, CurrentFileName, BaseName;
    ok := env.WriteStringToFileSync(contents + "\n", tmp, writeFails, partial);
    if ok {
      ok := env.RenameFile(tmp, CurrentFileName(dbname), renameFails);
    }
    if !ok {
      env.DeleteFile(tmp);
    }
  }

  lemma TempIsNotCurrent(dbname: string, number: nat)
    ensures FileName(dbname, Temp, number) != CurrentFileName(dbname)
  {
    assert FileName(dbname, Temp, number)[|dbname|] == Padded(number)[0];
    assert CurrentFileName(dbname)[|dbname|] == '/';
  }

  /** What CURRENT then holds is a newline-ended name that parses to the requested manifest. */
  lemma CurrentParses(number: nat)
    requires number < TWO_64
    ensures var c := CurrentContents(number);
            && c != "" && c[|c| - 1] == '\n' && Parse(c[..|c| - 1]) == Some((number, DescriptorFile))
  {
    var c := CurrentContents(number);
    assert c[..|c| - 1] == BaseName(Descriptor, number);
    NameRoundTrip(Descriptor, number);
  }
}
