/** db/write_batch.cpp: a batch of updates kept as one byte string,
    sequence (8 bytes) | count (4 bytes) | one tagged record per update. */
module WriteBatches {
  import opened Coding

  const HEADER := 12

  datatype ValueType = Deletion | Value

  /** Tag bytes of the two update kinds (db/dbformat.h of the original LevelDB). */
  const TYPE_DELETION: Byte := 0
  const TYPE_VALUE: Byte := 1

  datatype Op = Put(key: Bytes, value: Bytes) | Delete(key: Bytes)

  datatype Status = Ok | TooSmall | BadPut | BadDelete | UnknownTag | WrongCount

  /** What MemTable::Add stores. */
  datatype Entry = Entry(seqno: nat, kind: ValueType, key: Bytes, value: Bytes)

  // ----- the byte format -----

  function EncodeOp(op: Op): (b: Bytes)
    ensures |b| > 0
  {
    match op
    case Put(k, v) => [TYPE_VALUE] + EncodeSlice(k) + EncodeSlice(v)
    case Delete(k) => [TYPE_DELETION] + EncodeSlice(k)
  }

  function EncodeOps(ops: seq<Op>): Bytes {
    if ops == [] then [] else EncodeOp(ops[0]) + EncodeOps(ops[1..])
  }

  function EncodeBatch(sequence: nat, ops: seq<Op>): Bytes {
    EncodeFixed(sequence, 8) + EncodeFixed(|ops|, 4) + EncodeOps(ops)
  }

  datatype OpResult = Parsed(op: Op, size: nat) | Malformed(status: Status)

  function ParseOp(b: Bytes): (r: OpResult)
    requires b != []
    ensures r.Parsed? ==> 0 < r.size <= |b|
    ensures r.Malformed? ==> r.status != Ok
  {
    if b[0] == TYPE_VALUE then
      match DecodeSlice(b[1..])
      case None => Malformed(BadPut)
      case Some((k, n)) =>
        (match DecodeSlice(b[1 + n..])
         case None => Malformed(BadPut)
         case Some((v, m)) => Parsed(Put(k, v), 1 + n + m))
    else if b[0] == TYPE_DELETION then
      match DecodeSlice(b[1..])
      case None => Malformed(BadDelete)
      case Some((k, n)) => Parsed(Delete(k), 1 + n)
    else Malformed(UnknownTag)
  }

  /** The updates read before the end or the first malformed record, and how reading ended. */
  function Parse(b: Bytes): (seq<Op>, Status)
    decreases |b|
  {
    if b == [] then ([], Ok)
    else
      match ParseOp(b)
      case Malformed(status) => ([], status)
      case Parsed(op, n) => var (ops, status) := Parse(b[n..]); ([op] + ops, status)
  }

  /** The 32-bit count field read into a C++ int. */
  function Count(rep: Bytes): int
    requires |rep| >= HEADER
  {
    var c := DecodeFixed(rep[8..12]);
    if c < 0x8000_0000 then c else c - TWO_32
  }

  function Sequence(rep: Bytes): (s: nat)
    requires |rep| >= HEADER
    ensures s < TWO_64
  {
    Pow256Widths();
    DecodeFixed(rep[..8])
  }

  function IterateOps(rep: Bytes): seq<Op> {
    if |rep| < HEADER then [] else Parse(rep[HEADER..]).0
  }

  function IterateStatus(rep: Bytes): Status {
    if |rep| < HEADER then TooSmall
    else
      var (ops, status) := Parse(rep[HEADER..]);
      if status != Ok then status
      else if |ops| != Count(rep) then WrongCount else Ok
  }

  predicate Accepts(rep: Bytes) { IterateStatus(rep) == Ok }

  // ----- updates of the representation -----

  function WithCount(rep: Bytes, n: int): (r: Bytes)
    requires |rep| >= HEADER
    ensures |r| == |rep|
  {
    rep[..8] + EncodeFixed(n % TWO_32, 4) + rep[12..]
  }

  function WithSequence(rep: Bytes, s: nat): (r: Bytes)
    requires |rep| >= HEADER
    ensures |r| == |rep|
  {
    EncodeFixed(s, 8) + rep[8..]
  }

  function AddOp(rep: Bytes, op: Op): Bytes
    requires |rep| >= HEADER
  {
    WithCount(rep, Count(rep) + 1) + EncodeOp(op)
  }

  function AppendBatch(dst: Bytes, src: Bytes): Bytes
    requires |dst| >= HEADER && |src| >= HEADER
  {
    WithCount(dst, Count(dst) + Count(src)) + src[HEADER..]
  }

  // ----- memtable inserts -----

  /** Sequence numbers are 64-bit and wrap. */
  function Wrap(n: nat): (r: nat)
    ensures r < TWO_64
  {
    n % TWO_64
  }

  lemma WrapStep(n: nat)
    ensures Wrap(Wrap(n) + 1) == Wrap(n + 1) && Wrap(Wrap(n)) == Wrap(n)
    ensures n < TWO_64 ==> Wrap(n) == n
  {
  }

  function NumberedEntry(op: Op, sequence: nat): Entry {
    match op
    case Put(k, v) => Entry(Wrap(sequence), Value, k, v)
    case Delete(k) => Entry(Wrap(sequence), Deletion, k, [])
  }

  function Numbered(ops: seq<Op>, sequence: nat): (entries: seq<Entry>)
    ensures |entries| == |ops|
  {
    if ops == [] then [] else [NumberedEntry(ops[0], sequence)] + Numbered(ops[1..], sequence + 1)
  }

  /** What inserting one batch adds to a memtable, malformed tail or not. */
  function RecordEntries(rep: Bytes): seq<Entry> {
    if |rep| < HEADER then [] else Numbered(IterateOps(rep), Sequence(rep))
  }

  /** What the handler has received so far, and the number its next entry gets. */
  datatype Sink = Sink(calls: seq<Op>, entries: seq<Entry>, sequence: nat)

  function Feed(b: Bytes, sink: Sink): (Sink, Status)
    decreases |b|
  {
    if b == [] then (sink, Ok)
    else
      match ParseOp(b)
      case Malformed(status) => (sink, status)
      case Parsed(op, n) =>
        Feed(b[n..], NextSink(sink, op))
  }

  class MemTable {
    var entries: seq<Entry>

    constructor ()
      ensures entries == []
    {
      entries := [];
    }

    method Add(sequence: nat, kind: ValueType, key: Bytes, value: Bytes)
      modifies this
      ensures entries == old(entries) + [Entry(sequence, kind, key, value)]
    {
      entries := entries + [Entry(sequence, kind, key, value)];
    }
  }

  class MemTableInserter {
    var sequence: nat
    var mem: MemTable
    ghost var calls: seq<Op>

    ghost function Received(): Sink
      reads this, mem
    {
      Sink(calls, mem.entries, sequence)
    }

    constructor (s: nat, mem: MemTable)
      requires s < TWO_64
      ensures this.sequence == s && this.mem == mem && calls == []
    {
      this.sequence, this.mem, calls := s, mem, [];
    }

    method Put(key: Bytes, value: Bytes)
      requires sequence < TWO_64
      modifies this, mem
      ensures mem == old(mem) && Received() == NextSink(old(Received()), Op.Put(key, value))
      ensures mem.entries == old(mem.entries) + [Entry(old(sequence), Value, key, value)]
      ensures sequence == if old(sequence) == 0xffff_ffff_ffff_ffff then 0 else old(sequence) + 1
    {
      WrapStep(sequence);
      mem.Add(sequence, Value, key, value);
      sequence := Wrap(sequence + 1);
      calls := calls + [Op.Put(key, value)];
    }

    method Delete(key: Bytes)
      requires sequence < TWO_64
      modifies this, mem
      ensures mem == old(mem) && Received() == NextSink(old(Received()), Op.Delete(key))
      ensures mem.entries == old(mem.entries) + [Entry(old(sequence), Deletion, key, [])]
      ensures sequence == if old(sequence) == 0xffff_ffff_ffff_ffff then 0 else old(sequence) + 1
    {
      WrapStep(sequence);
      mem.Add(sequence, Deletion, key, []);
      sequence := Wrap(sequence + 1);
      calls := calls + [Op.Delete(key)];
    }
  }

  class WriteBatch {
    var rep: Bytes

    constructor ()
      ensures rep == EncodeBatch(0, [])
    {
      rep := seq(HEADER, i => 0);
      new;
      ClearedIsEmptyBatch();
    }

    method Clear()
      modifies this
      ensures rep == EncodeBatch(0, [])
    {
      rep := seq(HEADER, i => 0);
      ClearedIsEmptyBatch();
    }

    method SetCount(n: int)
      requires |rep| >= HEADER
      modifies this
      ensures rep == WithCount(old(rep), n)
    {
      rep := rep[..8] + EncodeFixed(n % TWO_32, 4) + rep[12..];
    }

    method SetSequence(s: nat)
      requires |rep| >= HEADER && s < TWO_64
      modifies this
      ensures rep == WithSequence(old(rep), s)
      ensures Sequence(rep) == s && rep[8..] == old(rep)[8..]
    {
      rep := EncodeFixed(s, 8) + rep[8..];
      Pow256Widths();
      FixedRoundTrip(s, 8);
      assert rep[..8] == EncodeFixed(s, 8);
    }

    method Put(key: Bytes, value: Bytes)
      requires |rep| >= HEADER
      modifies this
      ensures rep == AddOp(old(rep), Op.Put(key, value))
    {
      hide EncodeSlice, EncodeFixed, Count, Sequence;
      SetCount(Count(rep) + 1);
      rep := rep + [TYPE_VALUE];
      rep := rep + EncodeSlice(key);
      rep := rep + EncodeSlice(value);
      ghost var counted := WithCount(old(rep), Count(old(rep)) + 1);
      ConcatAssoc(counted, [TYPE_VALUE], EncodeSlice(key));
      ConcatAssoc(counted, [TYPE_VALUE] + EncodeSlice(key), EncodeSlice(value));
    }

    method Delete(key: Bytes)
      requires |rep| >= HEADER
      modifies this
      ensures rep == AddOp(old(rep), Op.Delete(key))
    {
      hide EncodeSlice, EncodeFixed, Count, Sequence;
      SetCount(Count(rep) + 1);
      rep := rep + [TYPE_DELETION];
      rep := rep + EncodeSlice(key);
      ConcatAssoc(WithCount(old(rep), Count(old(rep)) + 1), [TYPE_DELETION], EncodeSlice(key));
    }

    /** The body of Iterate's loop: reads one tagged record and calls the handler with it. */
    method IterateOne(input: Bytes, handler: MemTableInserter) returns (status: Status, rest: Bytes)
      requires input != [] && handler.sequence < TWO_64
      modifies handler, handler.mem
      ensures handler.mem == old(handler.mem)
      ensures ParseOp(input).Malformed? ==>
                status == ParseOp(input).status && handler.Received() == old(handler.Received())
      ensures ParseOp(input).Parsed? ==>
                && status == Ok && rest == input[ParseOp(input).size..]
                && handler.Received() == NextSink(old(handler.Received()), ParseOp(input).op)
    {
      hide DecodeSlice, NextSink;
      var tag := input[0];
      rest := input[1..];
      var first := DecodeSlice(rest);
      if tag == TYPE_VALUE {
        if first.None? {
          return BadPut, rest;
        }
        rest := rest[first.value.1..];
        assert rest == input[1 + first.value.1..];
        var second := DecodeSlice(rest);
        if second.None? {
          return BadPut, rest;
        }
        rest := rest[second.value.1..];
        assert rest == input[ParseOp(input).size..];
        handler.Put(first.value.0, second.value.0);
      } else if tag == TYPE_DELETION {
        if first.None? {
          return BadDelete, rest;
        }
        rest := rest[first.value.1..];
        handler.Delete(first.value.0);
      } else {
        return UnknownTag, rest;
      }
      return Ok, rest;
    }

    /** Walks the representation, calling the handler once per update until the end or the first malformed one. */
    method Iterate(handler: MemTableInserter) returns (status: Status)
      requires handler.sequence < TWO_64
      modifies handler, handler.mem
      ensures status == IterateStatus(rep)
      ensures handler.mem == old(handler.mem)
      ensures handler.calls == old(handler.calls) + IterateOps(rep)
      ensures handler.mem.entries == old(handler.mem.entries) + Numbered(IterateOps(rep), old(handler.sequence))
    {
      ghost var before := handler.Received();
      var input := rep;
      if |input| < HEADER {
        return TooSmall;
      }
      input := input[HEADER..];
      FeedParses(input, before);
      var found := 0;
      hide Parse, Count, ParseOp, Feed;
      while input != []
        invariant handler.mem == old(handler.mem) && handler.sequence < TWO_64
        invariant Feed(input, handler.Received()) == Feed(rep[HEADER..], before)
        invariant |handler.calls| == |before.calls| + found
        decreases |input|
      {
        found := found + 1;
        FeedStep(input, handler.Received());
        var s, rest := IterateOne(input, handler);
        if s != Ok {
          return s;
        }
        input := rest;
      }
      FeedStep([], handler.Received());
      if found != Count(rep) {
        return WrongCount;
      }
      return Ok;
    }

    method InsertInto(mem: MemTable) returns (status: Status)
      requires |rep| >= HEADER
      modifies mem
      ensures status == IterateStatus(rep)
      ensures mem.entries == old(mem.entries) + RecordEntries(rep)
    {
      var inserter := new MemTableInserter(Sequence(rep), mem);
      status := Iterate(inserter);
    }

    method SetContents(contents: Bytes)
      requires |contents| >= HEADER
      modifies this
      ensures rep == contents
    {
      rep := contents;
    }

    /** Appends `src` to this batch; `src` may be this batch itself. */
    method Append(src: WriteBatch)
      requires |rep| >= HEADER && |src.rep| >= HEADER
      modifies this
      ensures rep == AppendBatch(old(rep), old(src.rep))
    {
      SetCount(Count(rep) + Count(src.rep));
      rep := rep + src.rep[HEADER..];
    }
  }

  // ----- supporting lemmas -----

  lemma ClearedIsEmptyBatch()
    ensures seq(HEADER, i => 0) == EncodeBatch(0, [])
  {
    assert EncodeFixed(0, 4) == [0, 0, 0, 0] by { ZeroFixed(4); }
    assert EncodeFixed(0, 8) == [0, 0, 0, 0, 0, 0, 0, 0] by { ZeroFixed(8); }
  }

  lemma {:induction false} ZeroFixed(width: nat)
    ensures forall i :: 0 <= i < width ==> EncodeFixed(0, width)[i] == 0
  {
    if width > 0 { ZeroFixed(width - 1); }
  }

  lemma {:induction false} NumberedAt(ops: seq<Op>, sequence: nat, i: nat)
    requires i < |ops|
    ensures Numbered(ops, sequence)[i].seqno == Wrap(sequence + i)
    ensures Numbered(ops, sequence)[i].key == ops[i].key
  {
    if i > 0 { NumberedAt(ops[1..], sequence + 1, i - 1); }
  }

  lemma {:induction false} NumberedConcat(a: seq<Op>, b: seq<Op>, sequence: nat)
    ensures Numbered(a + b, sequence) == Numbered(a, sequence) + Numbered(b, sequence + |a|)
  {
    if a == [] {
      assert a + b == b;
    } else {
      assert (a + b)[1..] == a[1..] + b;
      NumberedConcat(a[1..], b, sequence + 1);
    }
  }

  /** Only the sequence number modulo 2^64 matters. */
  lemma {:induction false} NumberedWraps(ops: seq<Op>, s: nat, t: nat)
    requires Wrap(s) == Wrap(t)
    ensures Numbered(ops, s) == Numbered(ops, t)
  {
    if ops != [] {
      WrapStep(s);
      WrapStep(t);
      NumberedWraps(ops[1..], s + 1, t + 1);
    }
  }

  function NextSink(sink: Sink, op: Op): Sink {
    Sink(sink.calls + [op], sink.entries + [NumberedEntry(op, sink.sequence)], Wrap(sink.sequence + 1))
  }

  lemma FeedStep(b: Bytes, sink: Sink)
    ensures b == [] ==> Feed(b, sink) == (sink, Ok) && Parse(b) == ([], Ok)
    ensures b != [] && ParseOp(b).Malformed? ==>
              && Feed(b, sink) == (sink, ParseOp(b).status) && Parse(b) == ([], ParseOp(b).status)
              && ParseOp(b).status != Ok
    ensures b != [] && ParseOp(b).Parsed? ==>
              var op, rest := ParseOp(b).op, b[ParseOp(b).size..];
              && |rest| < |b|
              && Feed(b, sink) == Feed(rest, NextSink(sink, op))
              && |NextSink(sink, op).calls| == |sink.calls| + 1 && NextSink(sink, op).sequence < TWO_64
              && Parse(b).0 == [op] + Parse(rest).0 && Parse(b).1 == Parse(rest).1
  {
  }

  lemma NumberedCons(op: Op, ops: seq<Op>, sequence: nat)
    ensures Numbered([op] + ops, sequence) == [NumberedEntry(op, sequence)] + Numbered(ops, Wrap(sequence + 1))
  {
    assert ([op] + ops)[1..] == ops;
    WrapStep(sequence + 1);
    NumberedWraps(ops, Wrap(sequence + 1), sequence + 1);
  }

  /** Feeding a handler one record at a time delivers exactly the parsed updates, numbered consecutively. */
  lemma {:induction false} FeedParses(b: Bytes, sink: Sink)
    ensures Feed(b, sink).1 == Parse(b).1
    ensures Feed(b, sink).0.calls == sink.calls + Parse(b).0
    ensures Feed(b, sink).0.entries == sink.entries + Numbered(Parse(b).0, sink.sequence)
    decreases |b|
  {
    FeedStep(b, sink);
    if b == [] || ParseOp(b).Malformed? {
      FeedNothing(sink);
    } else {
      var op, rest := ParseOp(b).op, b[ParseOp(b).size..];
      FeedParses(rest, NextSink(sink, op));
      FeedCons(sink, op, Parse(rest).0);
    }
    hide *;
  }

  lemma FeedNothing(sink: Sink)
    ensures sink.calls == sink.calls + []
    ensures sink.entries == sink.entries + Numbered([], sink.sequence)
  {
  }

  lemma FeedCons(sink: Sink, op: Op, ops: seq<Op>)
    ensures NextSink(sink, op).calls + ops == sink.calls + ([op] + ops)
    ensures NextSink(sink, op).entries + Numbered(ops, NextSink(sink, op).sequence)
         == sink.entries + Numbered([op] + ops, sink.sequence)
  {
    NumberedCons(op, ops, sink.sequence);
    hide Numbered, NumberedEntry, Wrap;
    ConsBefore(sink.calls, op, ops, [op] + ops);
    ConsBefore(sink.entries, NumberedEntry(op, sink.sequence), Numbered(ops, Wrap(sink.sequence + 1)),
               Numbered([op] + ops, sink.sequence));
  }

  lemma ConsBefore<T>(before: seq<T>, x: T, tail: seq<T>, whole: seq<T>)
    requires whole == [x] + tail
    ensures before + whole == (before + [x]) + tail
  {
  }

  lemma ParseOpIgnoresSuffix(b: Bytes, suffix: Bytes)
    requires b != [] && ParseOp(b).Parsed?
    ensures ParseOp(b + suffix) == ParseOp(b)
  {
    hide DecodeSlice;
    SliceIgnoresSuffix(b[1..], suffix);
    assert (b + suffix)[1..] == b[1..] + suffix;
    if b[0] == TYPE_VALUE {
      var n := DecodeSlice(b[1..]).value.1;
      SliceIgnoresSuffix(b[1 + n..], suffix);
      assert (b + suffix)[1 + n..] == b[1 + n..] + suffix;
    }
  }

  /** Reading a well-formed body and then more bytes is reading the two one after the other. */
  lemma {:induction false} ParseConcat(a: Bytes, b: Bytes)
    requires Parse(a).1 == Ok
    ensures Parse(a + b) == (Parse(a).0 + Parse(b).0, Parse(b).1)
    decreases |a|
  {
    if a == [] {
      assert a + b == b;
      assert [] + Parse(b).0 == Parse(b).0;
    } else {
      ParseOpIgnoresSuffix(a, b);
      var n, op := ParseOp(a).size, ParseOp(a).op;
      DropConcat(a, b, n);
      ParseConcat(a[n..], b);
      ConcatAssoc([op], Parse(a[n..]).0, Parse(b).0);
    }
  }

  lemma ParseNonEmpty(b: Bytes)
    requires b != [] && Parse(b).1 == Ok
    ensures |Parse(b).0| > 0
  {
  }

  predicate LengthsFit(ops: seq<Op>) {
    forall i :: 0 <= i < |ops| ==> |ops[i].key| < TWO_32 && (ops[i].Put? ==> |ops[i].value| < TWO_32)
  }

  lemma PutRoundTrip(key: Bytes, value: Bytes, rest: Bytes)
    requires |key| < TWO_32 && |value| < TWO_32
    ensures ParseOp([TYPE_VALUE] + (EncodeSlice(key) + (EncodeSlice(value) + rest)))
         == Parsed(Put(key, value), 1 + |EncodeSlice(key)| + |EncodeSlice(value)|)
  {
    hide EncodeSlice, DecodeSlice, ParseOp;
    var k, v := EncodeSlice(key), EncodeSlice(value);
    SliceRoundTrip(key, v + rest);
    SliceRoundTrip(value, rest);
    DropTag(TYPE_VALUE, k, v + rest);
    ParsePut([TYPE_VALUE] + (k + (v + rest)), key, |k|, value, |v|);
  }

  lemma ParsePut(b: Bytes, key: Bytes, n: nat, value: Bytes, m: nat)
    requires b != [] && b[0] == TYPE_VALUE && 1 + n <= |b|
    requires DecodeSlice(b[1..]) == Some((key, n)) && DecodeSlice(b[1 + n..]) == Some((value, m))
    ensures ParseOp(b) == Parsed(Put(key, value), 1 + n + m)
  {
    hide DecodeSlice;
  }

  lemma DropTag(tag: Byte, k: Bytes, rest: Bytes)
    ensures var b := [tag] + (k + rest);
            b[0] == tag && b[1..] == k + rest && b[1 + |k|..] == rest
  {
  }

  lemma OpRoundTrip(op: Op, rest: Bytes)
    requires |op.key| < TWO_32 && (op.Put? ==> |op.value| < TWO_32)
    ensures ParseOp(EncodeOp(op) + rest) == Parsed(op, |EncodeOp(op)|)
  {
    var k := EncodeSlice(op.key);
    match op
    case Put(key, value) =>
      var v := EncodeSlice(value);
      ConcatAssoc([TYPE_VALUE] + k, v, rest);
      ConcatAssoc([TYPE_VALUE], k, v + rest);
      PutRoundTrip(key, value, rest);
    case Delete(key) =>
      ConcatAssoc([TYPE_DELETION], k, rest);
      assert ([TYPE_DELETION] + (k + rest))[1..] == k + rest;
      SliceRoundTrip(key, rest);
  }

  lemma {:induction false} OpsRoundTrip(ops: seq<Op>)
    requires LengthsFit(ops)
    ensures Parse(EncodeOps(ops)) == (ops, Ok)
  {
    hide ParseOp, EncodeOp;
    if ops != [] {
      var b := EncodeOps(ops);
      OpRoundTrip(ops[0], EncodeOps(ops[1..]));
      assert b[|EncodeOp(ops[0])|..] == EncodeOps(ops[1..]);
      OpsRoundTrip(ops[1..]);
      assert [ops[0]] + ops[1..] == ops;
    }
  }

  lemma {:induction false} EncodeOpsSnoc(ops: seq<Op>, op: Op)
    ensures EncodeOps(ops + [op]) == EncodeOps(ops) + EncodeOp(op)
  {
    if ops == [] {
      assert EncodeOps([]) + EncodeOp(op) == EncodeOp(op);
    } else {
      assert (ops + [op])[1..] == ops[1..] + [op];
      EncodeOpsSnoc(ops[1..], op);
    }
  }

  lemma HeaderFields(sequence: nat, count: nat, body: Bytes)
    requires sequence < TWO_64 && count < TWO_32
    ensures var rep := EncodeFixed(sequence, 8) + EncodeFixed(count, 4) + body;
            && |rep| >= HEADER && Sequence(rep) == sequence && rep[HEADER..] == body
            && Count(rep) == (if count < 0x8000_0000 then count else count - TWO_32)
  {
    var rep := EncodeFixed(sequence, 8) + EncodeFixed(count, 4) + body;
    Pow256Widths();
    FixedRoundTrip(sequence, 8);
    FixedRoundTrip(count, 4);
    assert rep[..8] == EncodeFixed(sequence, 8);
    assert rep[8..12] == EncodeFixed(count, 4);
  }

  // ----- main results -----

  /** Put and Delete keep the representation the encoding of the updates made so far; the sequence field
      is left alone. */
  lemma AddOpExtendsBatch(sequence: nat, ops: seq<Op>, op: Op)
    requires sequence < TWO_64 && |ops| + 1 < TWO_32
    ensures |EncodeBatch(sequence, ops)| >= HEADER
    ensures AddOp(EncodeBatch(sequence, ops), op) == EncodeBatch(sequence, ops + [op])
  {
    hide EncodeFixed, EncodeOps, EncodeOp, AddOp, Sequence, Count;
    HeaderFields(sequence, |ops|, EncodeOps(ops));
    EncodeOpsSnoc(ops, op);
    CountStep(EncodeBatch(sequence, ops), |ops|);
    AddOpShape(EncodeFixed(sequence, 8), EncodeFixed(|ops|, 4), EncodeOps(ops), op, |ops| + 1);
  }

  lemma AddOpShape(sequence: Bytes, count: Bytes, body: Bytes, op: Op, n: nat)
    requires |sequence| == 8 && |count| == 4
    requires (Count(sequence + count + body) + 1) % TWO_32 == n
    ensures AddOp(sequence + count + body, op) == sequence + EncodeFixed(n, 4) + (body + EncodeOp(op))
  {
    hide EncodeFixed, EncodeOp, Count;
    ReplaceCount(sequence, count, EncodeFixed(n, 4), body, EncodeOp(op));
  }

  lemma ReplaceCount(sequence: Bytes, before: Bytes, after: Bytes, body: Bytes, more: Bytes)
    requires |sequence| == 8 && |before| == 4
    ensures var rep := sequence + before + body;
            rep[..8] + after + rep[12..] + more == sequence + after + (body + more)
  {
    var rep := sequence + before + body;
    assert rep[..8] == sequence;
    assert rep[12..] == body;
    ConcatAssoc(sequence + after, body, more);
  }

  lemma CountStep(rep: Bytes, n: nat)
    requires |rep| >= HEADER && n + 1 < TWO_32
    requires Count(rep) == (if n < 0x8000_0000 then n else n - TWO_32)
    ensures (Count(rep) + 1) % TWO_32 == n + 1
  {
    hide Count;
    if n >= 0x8000_0000 { assert (Count(rep) + 1) % TWO_32 == n + 1; }
  }

  /** Round trip. Iterating the bytes of any updates calls the handler with exactly those updates and leaves the
      sequence field readable; the batch is accepted if and only if its length fits a positive C++ int. */
  lemma BatchRoundTrip(sequence: nat, ops: seq<Op>)
    requires sequence < TWO_64 && LengthsFit(ops) && |ops| < TWO_32
    ensures var rep := EncodeBatch(sequence, ops);
            && IterateOps(rep) == ops
            && |rep| >= HEADER && Sequence(rep) == sequence
            && (Accepts(rep) <==> |ops| < 0x8000_0000)
            && (Accepts(rep) ==> Count(rep) == |ops|)
  {
    HeaderFields(sequence, |ops|, EncodeOps(ops));
    OpsRoundTrip(ops);
  }

  /** The representation after a run of Puts and Deletes. */
  function AfterOps(rep: Bytes, ops: seq<Op>): (r: Bytes)
    requires |rep| >= HEADER
    ensures |r| >= HEADER
  {
    if ops == [] then rep else AddOp(AfterOps(rep, ops[..|ops| - 1]), ops[|ops| - 1])
  }

  lemma {:induction false} AfterOpsEncodes(sequence: nat, ops: seq<Op>)
    requires sequence < TWO_64 && |ops| < TWO_32
    ensures |EncodeBatch(sequence, [])| >= HEADER
    ensures AfterOps(EncodeBatch(sequence, []), ops) == EncodeBatch(sequence, ops)
  {
    hide EncodeBatch, AddOp, Sequence, Count, EncodeFixed;
    EmptyHasHeader(sequence);
    if ops != [] {
      var init, op := ops[..|ops| - 1], ops[|ops| - 1];
      AfterOpsEncodes(sequence, init);
      AddOpExtendsBatch(sequence, init, op);
      assert init + [op] == ops;
    }
  }

  lemma EmptyHasHeader(sequence: nat)
    ensures |EncodeBatch(sequence, [])| >= HEADER
  {
    hide EncodeFixed;
  }

  lemma SequenceOfEmpty(sequence: nat)
    requires sequence < TWO_64
    ensures |EncodeBatch(0, [])| >= HEADER && WithSequence(EncodeBatch(0, []), sequence) == EncodeBatch(sequence, [])
  {
    hide EncodeFixed;
    assert EncodeBatch(0, [])[8..] == EncodeFixed(0, 4) + EncodeOps([]);
    ConcatAssoc(EncodeFixed(sequence, 8), EncodeFixed(0, 4), EncodeOps([]));
  }

  /** Round trip over a run: clear a batch, give it a sequence number, and Put and Delete at will; iterating it then
      yields exactly those updates, under that sequence number, and is accepted if and only if there are fewer than
      2^31 of them, which the count then says. */
  lemma RunRoundTrip(sequence: nat, ops: seq<Op>)
    requires sequence < TWO_64 && LengthsFit(ops) && |ops| < TWO_32
    ensures |EncodeBatch(0, [])| >= HEADER
    ensures var rep := AfterOps(WithSequence(EncodeBatch(0, []), sequence), ops);
            && IterateOps(rep) == ops && Sequence(rep) == sequence
            && (Accepts(rep) <==> |ops| < 0x8000_0000)
            && (Accepts(rep) ==> Count(rep) == |ops|)
  {
    hide EncodeBatch, IterateOps, Accepts, Sequence, Count, AfterOps, WithSequence;
    SequenceOfEmpty(sequence);
    AfterOpsEncodes(sequence, ops);
    BatchRoundTrip(sequence, ops);
  }

  /** The accepted byte strings are prefix-free: cutting an accepted batch anywhere, at or inside a record or
      the header, gives bytes Iterate rejects, and so does adding any bytes after it. */
  lemma AcceptedIsPrefixFree(rep: Bytes, cut: nat, suffix: Bytes)
    requires Accepts(rep)
    ensures cut < |rep| ==> !Accepts(rep[..cut])
    ensures suffix != [] ==> !Accepts(rep + suffix)
  {
    if cut < |rep| {
      assert rep[..cut] + rep[cut..] == rep;
      if Accepts(rep[..cut]) {
        StrictExtensionRejected(rep[..cut], rep[cut..]);
      }
    }
    if suffix != [] {
      StrictExtensionRejected(rep, suffix);
    }
  }

  lemma StrictExtensionRejected(rep: Bytes, suffix: Bytes)
    requires Accepts(rep) && suffix != []
    ensures !Accepts(rep + suffix)
  {
    var body := rep[HEADER..];
    assert (rep + suffix)[HEADER..] == body + suffix;
    assert (rep + suffix)[8..12] == rep[8..12];
    ParseConcat(body, suffix);
    if Parse(suffix).1 == Ok {
      ParseNonEmpty(suffix);
    }
  }

  lemma AppendHeader(a: Bytes, b: Bytes)
    requires |a| >= HEADER && |b| >= HEADER
    ensures var ab := AppendBatch(a, b);
            && |ab| >= HEADER && Sequence(ab) == Sequence(a)
            && ab[HEADER..] == a[HEADER..] + b[HEADER..]
            && DecodeFixed(ab[8..12]) == (Count(a) + Count(b)) % TWO_32
  {
    var ab := AppendBatch(a, b);
    Pow256Widths();
    FixedRoundTrip((Count(a) + Count(b)) % TWO_32, 4);
    assert ab[..8] == a[..8];
    assert ab[8..12] == EncodeFixed((Count(a) + Count(b)) % TWO_32, 4);
  }

  lemma AppendOps(a: Bytes, b: Bytes)
    requires Accepts(a) && |b| >= HEADER
    ensures var ab := AppendBatch(a, b);
            && |ab| >= HEADER
            && IterateOps(ab) == IterateOps(a) + IterateOps(b)
            && Parse(ab[HEADER..]).1 == Parse(b[HEADER..]).1
  {
    AppendHeader(a, b);
    hide AppendBatch, Count, Parse;
    ParseConcat(a[HEADER..], b[HEADER..]);
  }

  lemma CountBound(rep: Bytes)
    requires |rep| >= HEADER
    ensures -0x8000_0000 <= Count(rep) < 0x8000_0000
  {
    Pow256Widths();
  }

  lemma AppendCount(a: Bytes, b: Bytes)
    requires |a| >= HEADER && |b| >= HEADER && Count(a) >= 0
    ensures var n, ab := Count(a) + Count(b), AppendBatch(a, b);
            |ab| >= HEADER && Count(ab) == (if n < 0x8000_0000 then n else n - TWO_32)
  {
    hide AppendBatch, EncodeFixed, DecodeFixed;
    AppendHeader(a, b);
    CountBound(a);
    CountBound(b);
    var n := Count(a) + Count(b);
    assert n % TWO_32 == if n >= 0 then n else n + TWO_32;
  }

  /** Append is a homomorphism into memtable inserts: inserting Append(a, b) adds exactly a's entries and then
      b's updates numbered on from there, whatever b's own sequence field says and even if b is malformed. */
  lemma AppendIsHomomorphic(a: Bytes, b: Bytes)
    requires Accepts(a) && |b| >= HEADER
    ensures var ab := AppendBatch(a, b);
            && |ab| >= HEADER && Sequence(ab) == Sequence(a)
            && RecordEntries(ab) == RecordEntries(a) + Numbered(IterateOps(b), Sequence(a) + |IterateOps(a)|)
            && |IterateOps(a)| == Count(a)
  {
    AppendHeader(a, b);
    AppendOps(a, b);
    NumberedAppend(a, b, AppendBatch(a, b));
  }

  lemma NumberedAppend(a: Bytes, b: Bytes, ab: Bytes)
    requires |a| >= HEADER && |ab| >= HEADER && Sequence(ab) == Sequence(a)
    requires IterateOps(ab) == IterateOps(a) + IterateOps(b)
    ensures RecordEntries(ab) == RecordEntries(a) + Numbered(IterateOps(b), Sequence(a) + |IterateOps(a)|)
  {
    hide IterateOps, Sequence, Numbered;
    NumberedConcat(IterateOps(a), IterateOps(b), Sequence(a));
  }

  lemma AcceptedCount(rep: Bytes)
    requires Accepts(rep)
    ensures |rep| >= HEADER && |IterateOps(rep)| == |RecordEntries(rep)| == Count(rep)
  {
  }

  /** What Iterate says of Append(a, b) for an accepted a, exactly: what it says of b, except that an accepted b makes
      the count wrong when the two counts together no longer fit a C++ int. In particular a wrong count in b never
      becomes right. */
  lemma AppendAccepted(a: Bytes, b: Bytes)
    requires Accepts(a) && |b| >= HEADER
    ensures var ab := AppendBatch(a, b);
            && IterateStatus(ab)
               == (if Accepts(b) && Count(a) + Count(b) >= 0x8000_0000 then WrongCount else IterateStatus(b))
            && (Accepts(ab) ==> |ab| >= HEADER && Count(ab) == Count(a) + Count(b))
  {
    hide Parse, Count, Sequence, AppendBatch, EncodeFixed, DecodeFixed;
    AppendOps(a, b);
    AppendCount(a, b);
    AcceptedCount(a);
    CountBound(b);
  }

  /** An accepted batch adds Count entries whose sequence numbers run on from the header's without a gap. */
  lemma AcceptedEntriesAreContiguous(rep: Bytes, i: nat)
    requires Accepts(rep) && i < |RecordEntries(rep)|
    ensures |RecordEntries(rep)| == Count(rep)
    ensures RecordEntries(rep)[i].seqno == Wrap(Sequence(rep) + i)
  {
    hide IterateOps, IterateStatus, Sequence, Count, Numbered, Wrap;
    AcceptedCount(rep);
    NumberedAt(IterateOps(rep), Sequence(rep), i);
  }
}
