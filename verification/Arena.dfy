/** util/arena.hpp and util/arena.cpp: a bump allocator over blocks it owns. */
module Arenas {
  import opened Coding

  const BLOCK_SIZE := 4096
  const LARGE := 1024       // kBlockSize / 4: bigger requests get a block of their own
  const POINTER_SIZE := 8
  const ALIGN := 8

  /** A char* of the arena: NULL, or a place in (or at the end of) one of the blocks. new[] returns blocks aligned for
      any object, so a pointer's alignment is its offset's. */
  datatype Pointer = Null | At(block: nat, offset: nat)

  /** The allocation state, with the sizes of the blocks in blocks_. */
  datatype State = State(sizes: seq<nat>, ptr: Pointer, remaining: nat, usage: nat)

  const EMPTY := State([], Null, 0, 0)

  function Plus(p: Pointer, n: nat): Pointer { if p.Null? then Null else At(p.block, p.offset + n) }

  function NewBlock(s: State, n: nat): State { s.(sizes := s.sizes + [n], usage := s.usage + n + POINTER_SIZE) }

  function Fallback(s: State, n: nat): (State, Pointer) {
    var result := At(|s.sizes|, 0);
    if n > LARGE then (NewBlock(s, n), result)
    else (NewBlock(s, BLOCK_SIZE).(ptr := Plus(result, n), remaining := BLOCK_SIZE - n), result)
  }

  function Allocated(s: State, n: nat): (State, Pointer) {
    if n <= s.remaining then (s.(ptr := Plus(s.ptr, n), remaining := s.remaining - n), s.ptr) else Fallback(s, n)
  }

  /** Bytes to skip to the next aligned address; NULL counts as aligned. */
  function Slop(p: Pointer): nat {
    if p.Null? || p.offset % ALIGN == 0 then 0 else ALIGN - p.offset % ALIGN
  }

  function AllocatedAligned(s: State, n: nat): (State, Pointer) {
    var needed := n + Slop(s.ptr);
    if needed <= s.remaining
    then (s.(ptr := Plus(s.ptr, needed), remaining := s.remaining - needed), Plus(s.ptr, Slop(s.ptr)))
    else Fallback(s, n)
  }

  /** The free bytes are the end of a standard block. */
  predicate Sound(s: State) {
    match s.ptr
    case Null => s.remaining == 0
    case At(b, o) => b < |s.sizes| && s.sizes[b] == BLOCK_SIZE && o + s.remaining == BLOCK_SIZE
  }

  class Arena {
    var allocPtr: Pointer
    var allocBytesRemaining: nat
    var blocks: seq<array<Byte>>
    var memoryUsage: nat

    ghost function Abstract(): State
      reads this
    {
      var bs := blocks;
      State(seq(|bs|, i requires 0 <= i < |bs| => bs[i].Length), allocPtr, allocBytesRemaining, memoryUsage)
    }

    ghost predicate Valid()
      reads this
    {
      Sound(Abstract()) && forall i, j :: 0 <= i < j < |blocks| ==> blocks[i] != blocks[j]
    }

    constructor ()
      ensures Valid() && Abstract() == EMPTY
    {
      allocPtr, allocBytesRemaining, blocks, memoryUsage := Null, 0, [], 0;
    }

    /** No method touches the bytes of a block. */
    method Allocate(bytes: nat) returns (result: Pointer)
      requires Valid() && bytes > 0
      modifies this
      ensures Valid() && (Abstract(), result) == Allocated(old(Abstract()), bytes)
      ensures old(blocks) <= blocks && fresh(blocks[|old(blocks)|..])
    {
      if bytes <= allocBytesRemaining {
        result := allocPtr;
        allocPtr := Plus(allocPtr, bytes);
        allocBytesRemaining := allocBytesRemaining - bytes;
        return;
      }
      result := AllocateFallback(bytes);
    }

    method AllocateFallback(bytes: nat) returns (result: Pointer)
      requires Valid()
      modifies this
      ensures Valid() && (Abstract(), result) == Fallback(old(Abstract()), bytes)
      ensures old(blocks) <= blocks && fresh(blocks[|old(blocks)|..])
    {
      if bytes > BLOCK_SIZE / 4 {
        result := AllocateNewBlock(bytes);
        return;
      }
      allocPtr := AllocateNewBlock(BLOCK_SIZE);
      allocBytesRemaining := BLOCK_SIZE;
      result := allocPtr;
      allocPtr := Plus(allocPtr, bytes);
      allocBytesRemaining := allocBytesRemaining - bytes;
    }

    method AllocateAligned(bytes: nat) returns (result: Pointer)
      requires Valid()
      modifies this
      ensures Valid() && (Abstract(), result) == AllocatedAligned(old(Abstract()), bytes)
      ensures old(blocks) <= blocks && fresh(blocks[|old(blocks)|..])
      ensures result.At? ==> result.offset % ALIGN == 0
    {
      var currentMod := if allocPtr.Null? then 0 else allocPtr.offset % ALIGN;
      var slop := if currentMod == 0 then 0 else ALIGN - currentMod;
      var needed := bytes + slop;
      if needed <= allocBytesRemaining {
        result := Plus(allocPtr, slop);
        allocPtr := Plus(allocPtr, needed);
        allocBytesRemaining := allocBytesRemaining - needed;
      } else {
        result := AllocateFallback(bytes);
      }
    }

    method AllocateNewBlock(blockBytes: nat) returns (result: Pointer)
      requires Valid()
      modifies `blocks, `memoryUsage
      ensures Valid() && Abstract() == NewBlock(old(Abstract()), blockBytes) && result == At(|old(blocks)|, 0)
      ensures old(blocks) <= blocks && fresh(blocks[|old(blocks)|..])
    {
      var block := new Byte[blockBytes];
      result := At(|blocks|, 0);
      blocks := blocks + [block];
      memoryUsage := memoryUsage + blockBytes + POINTER_SIZE;
      assert Abstract().sizes == old(Abstract()).sizes + [blockBytes];
    }
  }

  // ----- runs -----

  datatype Request = Plain(bytes: nat) | Aligned(bytes: nat)

  /** What a request was given: `size` bytes from `ptr`. */
  datatype Region = Region(ptr: Pointer, size: nat)

  function Serve(s: State, q: Request): (State, Pointer) {
    match q
    case Plain(n) => Allocated(s, n)
    case Aligned(n) => AllocatedAligned(s, n)
  }

  function After(run: seq<Request>): State {
    if run == [] then EMPTY else Serve(After(run[..|run| - 1]), run[|run| - 1]).0
  }

  function Regions(run: seq<Request>): seq<Region> {
    if run == [] then []
    else
      var init, q := run[..|run| - 1], run[|run| - 1];
      Regions(init) + [Region(Serve(After(init), q).1, q.bytes)]
  }

  /** Allocate may not be asked for nothing; AllocateAligned may. */
  predicate Legal(run: seq<Request>) { forall q :: q in run && q.Plain? ==> q.bytes > 0 }

  predicate Disjoint(a: Region, b: Region) {
    || a.ptr.Null? || b.ptr.Null? || a.ptr.block != b.ptr.block
    || a.ptr.offset + a.size <= b.ptr.offset || b.ptr.offset + b.size <= a.ptr.offset
  }

  /** Inside one block, and below the free bytes. */
  predicate Placed(s: State, r: Region) {
    match r.ptr
    case Null => r.size == 0
    case At(b, o) =>
      b < |s.sizes| && o + r.size <= s.sizes[b] && (s.ptr.At? && s.ptr.block == b ==> o + r.size <= s.ptr.offset)
  }

  lemma ServeKeeps(s: State, q: Request, r: Region)
    requires Sound(s)
    ensures Sound(Serve(s, q).0)
    ensures Placed(s, r) ==> Placed(Serve(s, q).0, r)
  {
  }

  lemma ServePlaces(s: State, q: Request)
    requires Sound(s)
    ensures Placed(Serve(s, q).0, Region(Serve(s, q).1, q.bytes))
    ensures Serve(s, q).1.Null? <==> s.ptr.Null? && q.bytes == 0
    ensures q.Aligned? && Serve(s, q).1.At? ==> Serve(s, q).1.offset % ALIGN == 0
  {
  }

  /** What has been handed out does not overlap what is handed out next. */
  lemma ServeIsApart(s: State, q: Request, r: Region)
    requires Sound(s) && Placed(s, r)
    ensures Disjoint(r, Region(Serve(s, q).1, q.bytes))
  {
  }

  lemma {:induction false} RunIsSound(run: seq<Request>)
    ensures Sound(After(run)) && |Regions(run)| == |run|
    ensures forall i :: 0 <= i < |run| ==> Placed(After(run), Regions(run)[i])
  {
    if run != [] {
      var init, q := run[..|run| - 1], run[|run| - 1];
      RunIsSound(init);
      ServePlaces(After(init), q);
      hide Serve, Sound, Placed;
      forall i | 0 <= i < |run| ensures Sound(After(run)) && Placed(After(run), Regions(run)[i]) {
        ServeKeeps(After(init), q, Regions(run)[i]);
      }
    }
  }

  /** Over any run every two regions are disjoint, each lies inside one block, aligned requests are aligned, and only
      empty requests get NULL. */
  lemma {:induction false} RegionsAreApart(run: seq<Request>, i: nat, j: nat)
    requires i < j < |run|
    ensures |Regions(run)| == |run|
    ensures Disjoint(Regions(run)[i], Regions(run)[j])
  {
    var init, q := run[..|run| - 1], run[|run| - 1];
    RunIsSound(init);
    hide Disjoint, Placed, Serve, Sound;
    if j < |init| {
      RegionsAreApart(init, i, j);
    } else {
      ServeIsApart(After(init), q, Regions(init)[i]);
    }
  }

  lemma {:induction false} RegionsAreInside(run: seq<Request>, i: nat)
    requires i < |run|
    ensures |Regions(run)| == |run|
    ensures var r := Regions(run)[i];
            && r.size == run[i].bytes
            && (r.ptr.At? ==> r.ptr.block < |After(run).sizes| && r.ptr.offset + r.size <= After(run).sizes[r.ptr.block])
            && (r.ptr.Null? ==> r.size == 0 && (Legal(run) ==> run[i].Aligned?))
            && (run[i].Aligned? && r.ptr.At? ==> r.ptr.offset % ALIGN == 0)
  {
    RunIsSound(run);
    RegionOf(run, i);
    hide Serve, Sound;
  }

  lemma {:induction false} RegionOf(run: seq<Request>, i: nat)
    requires i < |run|
    ensures |Regions(run)| == |run|
    ensures Regions(run)[i].size == run[i].bytes
    ensures run[i].Aligned? && Regions(run)[i].ptr.At? ==> Regions(run)[i].ptr.offset % ALIGN == 0
  {
    var init, q := run[..|run| - 1], run[|run| - 1];
    RunIsSound(init);
    ServePlaces(After(init), q);
    hide Serve, Sound, Placed;
    if i < |init| {
      RegionOf(init, i);
    }
  }

  // ----- memory -----

  /** The bytes of every block. */
  type Memory = seq<Bytes>

  predicate Fits(m: Memory, r: Region) {
    r.ptr.At? && r.ptr.block < |m| && r.ptr.offset + r.size <= |m[r.ptr.block]|
  }

  function Read(m: Memory, r: Region): Bytes
    requires Fits(m, r)
  {
    m[r.ptr.block][r.ptr.offset..r.ptr.offset + r.size]
  }

  function Written(m: Memory, r: Region, data: Bytes): Memory
    requires Fits(m, r) && |data| == r.size
  {
    var b := m[r.ptr.block];
    m[r.ptr.block := b[..r.ptr.offset] + data + b[r.ptr.offset + r.size..]]
  }

  /** Filling one region changes no other; and reads back. */
  lemma WritesDoNotInterfere(m: Memory, r: Region, data: Bytes, other: Region)
    requires Fits(m, r) && Fits(m, other) && |data| == r.size && Disjoint(r, other)
    ensures Fits(Written(m, r, data), other) && Read(Written(m, r, data), other) == Read(m, other)
    ensures Fits(Written(m, r, data), r) && Read(Written(m, r, data), r) == data
  {
  }

  lemma RunWritesDoNotInterfere(run: seq<Request>, m: Memory, i: nat, j: nat, data: Bytes)
    requires i < |run| && j < |run| && i != j && run[i].bytes > 0 && run[j].bytes > 0 && |data| == run[i].bytes
    requires |m| == |After(run).sizes| && forall b :: 0 <= b < |m| ==> |m[b]| == After(run).sizes[b]
    ensures |Regions(run)| == |run| && Fits(m, Regions(run)[i]) && Fits(m, Regions(run)[j])
    ensures |data| == Regions(run)[i].size
    ensures var after := Written(m, Regions(run)[i], data);
            && Fits(after, Regions(run)[j]) && Read(after, Regions(run)[j]) == Read(m, Regions(run)[j])
  {
    RegionsAreInside(run, i);
    RegionsAreInside(run, j);
    RegionsAreApart(run, if i < j then i else j, if i < j then j else i);
    hide Regions, After;
    WritesDoNotInterfere(m, Regions(run)[i], data, Regions(run)[j]);
  }

  // ----- space -----

  function Sum(sizes: seq<nat>): nat {
    if sizes == [] then 0 else Sum(sizes[..|sizes| - 1]) + sizes[|sizes| - 1]
  }

  function Requested(run: seq<Request>): nat {
    if run == [] then 0 else Requested(run[..|run| - 1]) + run[|run| - 1].bytes
  }

  function AlignedRequests(run: seq<Request>): nat {
    if run == [] then 0 else AlignedRequests(run[..|run| - 1]) + if run[|run| - 1].Aligned? then 1 else 0
  }

  /** Bytes skipped to serve `q`. */
  function Skipped(s: State, q: Request): nat {
    if q.Aligned? && q.bytes + Slop(s.ptr) <= s.remaining then Slop(s.ptr) else 0
  }

  /** Bytes taken from the blocks so far, those skipped included. */
  function Taken(run: seq<Request>): nat {
    if run == [] then 0
    else
      var init, q := run[..|run| - 1], run[|run| - 1];
      Taken(init) + q.bytes + Skipped(After(init), q)
  }

  /** Size of the block being filled, and how much of it is. */
  function Current(s: State): nat { if s.ptr.Null? then 0 else BLOCK_SIZE }

  function Filled(s: State): nat { if s.ptr.Null? then 0 else s.ptr.offset }

  lemma SumSnoc(sizes: seq<nat>, n: nat)
    ensures Sum(sizes + [n]) == Sum(sizes) + n
  {
    assert (sizes + [n])[..|sizes|] == sizes;
  }

  /** One request is served from the block being filled, by a block of its own, or by a new standard block; and a
      standard block is only left when at most 1023 bytes, or 1030 for an aligned request, are free in it. */
  lemma ServeTotals(s: State, q: Request)
    requires Sound(s)
    ensures var t, taken := Serve(s, q).0, q.bytes + Skipped(s, q);
            && t.usage - s.usage == Sum(t.sizes) - Sum(s.sizes) + POINTER_SIZE * (|t.sizes| - |s.sizes|)
            && (|| (Sum(t.sizes) == Sum(s.sizes) && Current(t) == Current(s) && t.remaining + taken == s.remaining
                    && Filled(t) == Filled(s) + taken)
                || (Sum(t.sizes) == Sum(s.sizes) + taken && t.remaining == s.remaining && t.ptr == s.ptr)
                || (Sum(t.sizes) == Sum(s.sizes) + BLOCK_SIZE && t.ptr.At? && Filled(t) == taken
                    && t.remaining + taken == BLOCK_SIZE
                    && s.remaining < LARGE + if q.Aligned? then ALIGN - 1 else 0))
  {
    FallbackTotals(s, q.bytes);
    hide Fallback, NewBlock, Sum;
  }

  lemma FallbackTotals(s: State, n: nat)
    ensures var t := Fallback(s, n).0;
            && t.usage - s.usage == Sum(t.sizes) - Sum(s.sizes) + POINTER_SIZE * (|t.sizes| - |s.sizes|)
            && if n > LARGE then Sum(t.sizes) == Sum(s.sizes) + n && t.remaining == s.remaining && t.ptr == s.ptr
               else && Sum(t.sizes) == Sum(s.sizes) + BLOCK_SIZE && t.ptr.At? && t.ptr.offset == n
                    && t.remaining + n == BLOCK_SIZE
  {
    SumSnoc(s.sizes, n);
    SumSnoc(s.sizes, BLOCK_SIZE);
    hide Sum;
  }

  ghost predicate Totals(s: State, taken: nat, plain: bool) {
    && Sound(s)
    && s.usage == Sum(s.sizes) + POINTER_SIZE * |s.sizes|
    && taken + s.remaining <= Sum(s.sizes)
    && 3066 * (Sum(s.sizes) - Current(s)) <= BLOCK_SIZE * (taken - Filled(s))
    && (plain ==> 3 * (Sum(s.sizes) - Current(s)) <= 4 * (taken - Filled(s)))
  }

  lemma TotalsKept(s: State, q: Request, taken: nat, plain: bool)
    requires Totals(s, taken, plain) && (plain ==> q.Plain?)
    ensures Totals(Serve(s, q).0, taken + q.bytes + Skipped(s, q), plain)
  {
    ServeTotals(s, q);
    ServeKeeps(s, q, Region(Null, 0));
    hide Serve, Skipped, Sum;
  }

  lemma {:induction false} RunTotals(run: seq<Request>)
    ensures Totals(After(run), Taken(run), AlignedRequests(run) == 0)
    ensures Requested(run) <= Taken(run) <= Requested(run) + (ALIGN - 1) * AlignedRequests(run)
  {
    if run != [] {
      var init, q := run[..|run| - 1], run[|run| - 1];
      RunTotals(init);
      TotalsKept(After(init), q, Taken(init), AlignedRequests(run) == 0);
      hide Totals, Serve;
    }
  }

  /** What one request costs, exactly: nothing if it fits, alignment included, into what is free; otherwise a block of
      its own size if it is over 1024 bytes and a block of 4096 bytes if not, and 8 bytes for the pointer. Only in the
      last case is the rest of the block in use given up. */
  lemma UsageExactly(s: State, q: Request)
    requires Sound(s)
    ensures var t, fits := Serve(s, q).0, q.bytes + (if q.Aligned? then Slop(s.ptr) else 0) <= s.remaining;
            && t.usage == s.usage + (if fits then 0 else if q.bytes > 1024 then q.bytes + 8 else 4096 + 8)
            && t.sizes == s.sizes + (if fits then [] else if q.bytes > 1024 then [q.bytes] else [4096])
            && t.remaining == (if fits then s.remaining - q.bytes - (if q.Aligned? then Slop(s.ptr) else 0)
                               else if q.bytes > 1024 then s.remaining else 4096 - q.bytes)
            && (!fits ==> Serve(s, q).1 == At(|s.sizes|, 0))
            && (fits && q.Plain? ==> Serve(s, q).1 == s.ptr)
  {
    assert s.sizes + [] == s.sizes;
  }

  /** The bytes skipped before an aligned place: fewer than 8, and just enough. */
  lemma SlopExactly(b: nat, o: nat)
    ensures Slop(At(b, o)) < 8 && (o + Slop(At(b, o))) % 8 == 0 && Slop(Null) == 0
  {
  }

  /** MemoryUsage is the sum of the block sizes plus a pointer each, and covers what was requested. Together
      the blocks are at most one standard block and 4/3 of the bytes requested when nothing had to be aligned, and one
      standard block and 4096/3066 of the bytes requested and skipped in general. */
  lemma SpaceBound(run: seq<Request>)
    ensures var s, total := After(run), Sum(After(run).sizes);
            && s.usage == total + 8 * |s.sizes| && Requested(run) <= total <= s.usage
            && (AlignedRequests(run) == 0 ==> 3 * (total - 4096) <= 4 * Requested(run))
            && 3066 * (total - 4096) <= 4096 * (Requested(run) + 7 * AlignedRequests(run))
  {
    RunTotals(run);
    hide After, Sum, Taken, Requested, AlignedRequests;
  }
}
