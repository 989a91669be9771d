/** One request of TEST_CompactRange (db/dp_impl.cpp) as BackgroundCompaction works it off: each pass compacts some of
    the files overlapping what is left of the range, and moves the beginning of the range behind them. */
module ManualCompactions {
  import opened Coding

  /** A table file of the level; internal keys are modelled by integers. */
  datatype File = File(number: nat, smallest: int, largest: int)

  /** A missing bound is open: None. */
  predicate Overlaps(f: File, begin: Option<int>, end: Option<int>) {
    && (begin.Some? ==> begin.value <= f.largest)
    && (end.Some? ==> f.smallest <= end.value)
  }

  function Remaining(level: set<File>, begin: Option<int>, end: Option<int>): set<File> {
    set f | f in level && Overlaps(f, begin, end)
  }

  /** What VersionSet::CompactRange returns when it does not return NULL: some of the overlapping files, with the
      others behind the last of them. */
  ghost predicate Chosen(level: set<File>, begin: Option<int>, end: Option<int>, inputs: seq<File>) {
    && inputs != []
    && (forall f :: f in inputs ==> f in Remaining(level, begin, end))
    && (forall f :: f in Remaining(level, begin, end) && f !in inputs ==> inputs[|inputs| - 1].largest < f.smallest)
  }

  /** The request, as its caller and the background thread share it. */
  class ManualCompaction {
    var begin: Option<int>
    var end: Option<int>
    var done: bool

    constructor (begin: Option<int>, end: Option<int>)
      ensures this.begin == begin && this.end == end && !done
    {
      this.begin, this.end, done := begin, end, false;
    }

    /** Where the request stands on a level with files `level`. */
    ghost function Stands(level: set<File>): Progress
      reads this
    {
      Progress(level, begin, end, done)
    }

    /** BackgroundCompaction's part in it: `inputs` is what CompactRange returned, `ok` how the compaction went. Unless
        it failed, that is the event Pass of the runs below. */
    method Pass(inputs: Option<seq<File>>, ok: bool, ghost level: set<File>)
      requires !done && (inputs.Some? ==> inputs.value != [])
      modifies this
      ensures ok ==>
                var after := Happen(old(Stands(level)), Event.Pass(if inputs.Some? then inputs.value else []));
                Stands(after.level) == after
      ensures !ok ==> done && begin == old(begin) && end == old(end)
    {
      done := inputs.None?;
      var manualEnd := 0;
      if inputs.Some? {
        manualEnd := inputs.value[|inputs.value| - 1].largest;
      }
      if !ok {
        done := true;
      }
      if !done {
        begin := Some(manualEnd);
      }
    }
  }

  // ----- runs -----

  /** The files of the level and the request. */
  datatype Progress = Progress(level: set<File>, begin: Option<int>, end: Option<int>, done: bool)

  /** A pass over `inputs` (none: CompactRange returned NULL) that goes well, or another compaction's edit. */
  datatype Event = Pass(inputs: seq<File>) | Arrive(f: File) | Leave(f: File)

  ghost predicate CanHappen(s: Progress, e: Event) {
    match e
    case Pass(inputs) =>
      !s.done && if inputs == [] then Remaining(s.level, s.begin, s.end) == {} else Chosen(s.level, s.begin, s.end, inputs)
    case Arrive(f) => !s.done && f.smallest <= f.largest
    case Leave(f) => !s.done
  }

  function Happen(s: Progress, e: Event): Progress {
    match e
    case Pass(inputs) =>
      if inputs == [] then s.(done := true)
      else s.(level := (set f | f in s.level && f !in inputs), begin := Some(inputs[|inputs| - 1].largest))
    case Arrive(f) => s.(level := s.level + {f})
    case Leave(f) => s.(level := s.level - {f})
  }

  ghost predicate CanRun(s: Progress, run: seq<Event>)
    decreases |run|
  {
    run == [] || (CanHappen(s, run[0]) && CanRun(Happen(s, run[0]), run[1..]))
  }

  function RunFrom(s: Progress, run: seq<Event>): Progress
    decreases |run|
  {
    if run == [] then s else RunFrom(Happen(s, run[0]), run[1..])
  }

  function Start(level: set<File>, begin: Option<int>, end: Option<int>): Progress {
    Progress(level, begin, end, false)
  }

  /** Every pass leaves strictly less to do, and what it leaves was there before. */
  lemma PassProgress(s: Progress, inputs: seq<File>)
    requires inputs != [] && CanHappen(s, Pass(inputs))
    ensures var t := Happen(s, Pass(inputs));
            Remaining(t.level, t.begin, t.end) < Remaining(s.level, s.begin, s.end)
  {
    var t := Happen(s, Pass(inputs));
    var last := inputs[|inputs| - 1];
    assert last in inputs;
    forall f | f in Remaining(t.level, t.begin, t.end) ensures f in Remaining(s.level, s.begin, s.end) {
    }
    assert last in Remaining(s.level, s.begin, s.end) && last !in Remaining(t.level, t.begin, t.end);
  }

  function Passes(run: seq<Event>): nat {
    if run == [] then 0 else (if run[0].Pass? then 1 else 0) + Passes(run[1..])
  }

  function Arrivals(run: seq<Event>): nat {
    if run == [] then 0 else (if run[0].Arrive? then 1 else 0) + Arrivals(run[1..])
  }

  /** Whatever other compactions do meanwhile, a request takes at most one pass for every file that overlaps its range
      or arrives, and one more to find out that it is done. */
  lemma {:induction false} PassesAreBounded(s: Progress, run: seq<Event>)
    requires CanRun(s, run)
    ensures Passes(run) <= |Remaining(s.level, s.begin, s.end)| + Arrivals(run) + 1
    ensures s.done ==> run == []
    decreases |run|
  {
    if run != [] {
      PassesAreBounded(Happen(s, run[0]), run[1..]);
      StepBounded(s, run[0]);
      hide Remaining, CanHappen, Happen;
    }
  }

  lemma StepBounded(s: Progress, e: Event)
    requires CanHappen(s, e)
    ensures var t := Happen(s, e);
            var before, after := |Remaining(s.level, s.begin, s.end)|, |Remaining(t.level, t.begin, t.end)|;
            && (e.Pass? ==> t.done || after < before)
            && (e.Arrive? ==> after <= before + 1) && (e.Leave? ==> after <= before)
  {
    var t := Happen(s, e);
    var before, after := Remaining(s.level, s.begin, s.end), Remaining(t.level, t.begin, t.end);
    match e
    case Pass(inputs) =>
      if inputs != [] {
        PassProgress(s, inputs);
        Smaller(after, before);
      }
    case Arrive(f) =>
      assert after <= before + {f};
      NotLarger(after, before + {f});
    case Leave(f) =>
      assert after <= before;
      NotLarger(after, before);
  }

  lemma NotLarger(a: set<File>, b: set<File>)
    requires a <= b
    ensures |a| <= |b|
  {
    if a != b { Smaller(a, b); }
  }

  lemma Smaller(a: set<File>, b: set<File>)
    requires a < b
    ensures |a| < |b|
  {
    assert b == a + (b - a);
  }

  /** The files that arrive when they do not overlap what is then left of the range. */
  function Behind(s: Progress, run: seq<Event>): set<File>
    decreases |run|
  {
    if run == [] then {}
    else
      (if run[0].Arrive? && !Overlaps(run[0].f, s.begin, s.end) then {run[0].f} else {})
      + Behind(Happen(s, run[0]), run[1..])
  }

  /** Files that overlap the range asked for are still to be compacted, or arrived behind the point reached. */
  ghost predicate Covers(first: Option<int>, behind: set<File>, s: Progress) {
    && (first.Some? ==> s.begin.Some? && first.value <= s.begin.value)
    && (forall f :: f in s.level && Overlaps(f, first, s.end) && !Overlaps(f, s.begin, s.end) ==> f in behind)
    && (forall f :: f in s.level ==> f.smallest <= f.largest)
    && (s.done ==> Remaining(s.level, s.begin, s.end) == {})
  }

  lemma HappenCovers(first: Option<int>, behind: set<File>, s: Progress, e: Event)
    requires Covers(first, behind, s) && CanHappen(s, e)
    ensures var late := if e.Arrive? && !Overlaps(e.f, s.begin, s.end) then {e.f} else {};
            Covers(first, behind + late, Happen(s, e)) && Happen(s, e).end == s.end
  {
    var t := Happen(s, e);
    if e.Pass? && e.inputs != [] {
      var last := e.inputs[|e.inputs| - 1];
      assert last in e.inputs;
      forall f | f in t.level && Overlaps(f, first, s.end) && !Overlaps(f, t.begin, s.end) ensures f in behind {
        assert f !in Remaining(s.level, s.begin, s.end);
      }
    }
  }

  lemma {:induction false} RunCovers(first: Option<int>, behind: set<File>, s: Progress, run: seq<Event>)
    requires Covers(first, behind, s) && CanRun(s, run)
    ensures Covers(first, behind + Behind(s, run), RunFrom(s, run)) && RunFrom(s, run).end == s.end
    decreases |run|
  {
    if run == [] {
      assert behind + {} == behind;
    } else {
      hide Covers, CanHappen, Happen, Overlaps;
      var late := if run[0].Arrive? && !Overlaps(run[0].f, s.begin, s.end) then {run[0].f} else {};
      HappenCovers(first, behind, s, run[0]);
      RunCovers(first, behind + late, Happen(s, run[0]), run[1..]);
      assert (behind + late) + Behind(Happen(s, run[0]), run[1..]) == behind + Behind(s, run);
    }
  }

  /** What a finished request leaves, over every interleaving with other compactions: of the files on the level, those
      that overlap the range asked for are exactly those among them that arrived behind the point reached. */
  lemma DoneLeavesExactly(level: set<File>, begin: Option<int>, end: Option<int>, run: seq<Event>)
    requires forall g :: g in level ==> g.smallest <= g.largest
    requires CanRun(Start(level, begin, end), run) && RunFrom(Start(level, begin, end), run).done
    ensures var s := RunFrom(Start(level, begin, end), run);
            Remaining(s.level, begin, end) == Remaining(s.level * Behind(Start(level, begin, end), run), begin, end)
  {
    var s := RunFrom(Start(level, begin, end), run);
    RunCovers(begin, {}, Start(level, begin, end), run);
    forall f | f in Remaining(s.level, begin, end) ensures f in Behind(Start(level, begin, end), run) {
      assert f !in Remaining(s.level, s.begin, s.end);
    }
  }

  /** So the range is compacted if and only if no file that arrived behind is still there and overlaps it; and a
      caller that keeps arrivals from falling behind gets all of it. */
  lemma DoneMeansCompacted(level: set<File>, begin: Option<int>, end: Option<int>, run: seq<Event>)
    requires forall g :: g in level ==> g.smallest <= g.largest
    requires CanRun(Start(level, begin, end), run) && RunFrom(Start(level, begin, end), run).done
    ensures var s, behind := RunFrom(Start(level, begin, end), run), Behind(Start(level, begin, end), run);
            && (Remaining(s.level, begin, end) == {}
                <==> forall f :: f in behind && f in s.level ==> !Overlaps(f, begin, end))
            && (behind == {} ==> Remaining(s.level, begin, end) == {})
  {
    var s, behind := RunFrom(Start(level, begin, end), run), Behind(Start(level, begin, end), run);
    DoneLeavesExactly(level, begin, end, run);
    hide RunFrom, Behind, Overlaps;
    if Remaining(s.level, begin, end) == {} {
      forall f | f in behind && f in s.level ensures !Overlaps(f, begin, end) {
        assert f !in Remaining(s.level, begin, end);
      }
    }
  }

  lemma RunStep(s: Progress, t: Progress, e: Event, rest: seq<Event>)
    requires CanHappen(s, e) && CanRun(Happen(s, e), rest) && RunFrom(Happen(s, e), rest) == t
    ensures CanRun(s, [e] + rest) && RunFrom(s, [e] + rest) == t
  {
    assert ([e] + rest)[1..] == rest;
  }

  /** Such a file: it arrives below the point the first pass has reached. */
  lemma ArrivalIsMissed()
    ensures var compacted, late := File(1, 5, 6), File(2, 1, 2);
            var run := [Pass([compacted]), Arrive(late), Pass([])];
            var s := Start({compacted}, Some(0), Some(10));
            CanRun(s, run) && RunFrom(s, run).done && late in RunFrom(s, run).level && Overlaps(late, Some(0), Some(10))
  {
    var compacted, late := File(1, 5, 6), File(2, 1, 2);
    var s := Start({compacted}, Some(0), Some(10));
    assert Remaining(s.level, s.begin, s.end) == {compacted};
    var s1 := Happen(s, Pass([compacted]));
    var s2 := Happen(s1, Arrive(late));
    assert s2.level == {late} && s2.begin == Some(6);
    assert Remaining(s2.level, s2.begin, s2.end) == {};
    var s3 := Happen(s2, Pass([]));
    RunStep(s2, s3, Pass([]), []);
    RunStep(s1, s3, Arrive(late), [Pass([])]);
    RunStep(s, s3, Pass([compacted]), [Arrive(late), Pass([])]);
    assert [Pass([compacted])] + [Arrive(late), Pass([])] == [Pass([compacted]), Arrive(late), Pass([])];
  }

  /** Which files a pass may leave out. Moving the beginning to the last input's largest key keeps every other
      overlapping file in the range if and only if none of them ends before it; on level 0, where files overlap one
      another, a mere prefix of the files need not be enough. */
  lemma NothingIsSkippedExactly(level: set<File>, begin: Option<int>, end: Option<int>, inputs: seq<File>)
    requires inputs != [] && forall f :: f in inputs ==> f in Remaining(level, begin, end)
    ensures var last := inputs[|inputs| - 1].largest;
            var rest := set f | f in level && f !in inputs;
            Remaining(rest, begin, end) == Remaining(rest, Some(last), end)
            <==> forall f :: f in Remaining(level, begin, end) && f !in inputs ==> last <= f.largest
  {
    var last := inputs[|inputs| - 1].largest;
    var rest := set f | f in level && f !in inputs;
    assert inputs[|inputs| - 1] in inputs;
    if Remaining(rest, begin, end) == Remaining(rest, Some(last), end) {
      forall f | f in Remaining(level, begin, end) && f !in inputs ensures last <= f.largest {
        assert f in Remaining(rest, begin, end);
      }
    }
  }

  // ----- sorted levels -----

  /** A level above 0: files in key order, none overlapping another. */
  predicate Sorted(files: seq<File>) {
    && (forall i :: 0 <= i < |files| ==> files[i].smallest <= files[i].largest)
    && (forall i, j :: 0 <= i < j < |files| ==> files[i].largest < files[j].smallest)
  }

  function Overlapping(files: seq<File>, begin: Option<int>, end: Option<int>): seq<File> {
    if files == [] then []
    else
      var last := files[|files| - 1];
      Overlapping(files[..|files| - 1], begin, end) + if Overlaps(last, begin, end) then [last] else []
  }

  lemma {:induction false} OverlappingIsSorted(files: seq<File>, begin: Option<int>, end: Option<int>)
    requires Sorted(files)
    ensures var o := Overlapping(files, begin, end);
            Sorted(o) && forall f :: f in o <==> f in files && Overlaps(f, begin, end)
  {
    if files != [] {
      var init, last := files[..|files| - 1], files[|files| - 1];
      OverlappingIsSorted(init, begin, end);
      assert files == init + [last];
      var o := Overlapping(init, begin, end);
      forall i | 0 <= i < |o| ensures o[i].largest < last.smallest {
        assert o[i] in init;
      }
    }
  }

  lemma BehindPrefix(files: seq<File>, k: nat, f: File)
    requires Sorted(files) && 0 < k <= |files| && f in files && f !in files[..k]
    ensures files[k - 1].largest < f.smallest
  {
    var i :| 0 <= i < |files| && files[i] == f;
    assert forall j :: 0 <= j < k ==> files[..k][j] == files[j];
  }

  lemma PrefixOf(files: seq<File>, k: nat)
    requires Sorted(files) && 0 < k <= |files|
    ensures files[..k] != [] && files[..k][|files[..k]| - 1] == files[k - 1]
    ensures forall f :: f in files[..k] ==> f in files
    ensures forall f :: f in files && f !in files[..k] ==> files[k - 1].largest < f.smallest
  {
    forall f | f in files && f !in files[..k] ensures files[k - 1].largest < f.smallest {
      BehindPrefix(files, k, f);
    }
  }

  lemma RemainingAre(files: seq<File>, begin: Option<int>, end: Option<int>)
    requires Sorted(files)
    ensures var level := set f | f in files;
            forall f :: f in Remaining(level, begin, end) <==> f in Overlapping(files, begin, end)
    ensures Sorted(Overlapping(files, begin, end))
  {
    OverlappingIsSorted(files, begin, end);
  }

  /** On such a level every non-empty prefix of the overlapping files meets the contract. */
  lemma PrefixIsChosen(files: seq<File>, begin: Option<int>, end: Option<int>, k: nat)
    requires Sorted(files) && 0 < k <= |Overlapping(files, begin, end)|
    ensures Chosen((set f | f in files), begin, end, Overlapping(files, begin, end)[..k])
  {
    RemainingAre(files, begin, end);
    PrefixOf(Overlapping(files, begin, end), k);
    hide Overlapping, Sorted, Remaining;
  }
}
