/** The bytes of a batch and the entries they stand for, spelled out: what a reader with the format's description at
    hand would check, whatever encoder and decoder agree on between themselves. */
module ByteFormat {
  import opened Coding
  import opened WriteBatches

  // ----- numbers and lengths -----

  /** Fixed-width integers are little-endian. */
  lemma {:induction false} FixedBytes(v: nat, width: nat, i: nat)
    requires i < width
    ensures EncodeFixed(v, width)[i] as int == (v / Pow256(i)) % 256
  {
    if i > 0 {
      FixedBytes(v / 256, width - 1, i - 1);
      DivideTwice(v, 256, Pow256(i - 1));
    } else {
      assert Pow256(0) == 1;
    }
  }

  lemma DivideTwice(v: nat, a: nat, b: nat)
    requires a > 0 && b > 0
    ensures a * b > 0 && v / (a * b) == (v / a) / b
  {
    var q := v / a;
    TwoDigits(v, a, b, q, v % a, q / b, q % b);
  }

  lemma TwoDigits(v: nat, a: nat, b: nat, q: nat, r: nat, p: nat, s: nat)
    requires v == a * q + r && q == b * p + s && r < a && s < b
    ensures a * b > 0 && v / (a * b) == p
  {
    Split(a, b, p, s, r);
    assert v == (a * b) * p + (a * s + r);
    Quotient(v, a * b, p, a * s + r);
  }

  lemma Split(a: nat, b: nat, p: nat, s: nat, r: nat)
    requires r < a && s < b
    ensures a * b > 0 && a * (b * p + s) + r == (a * b) * p + (a * s + r) && a * s + r < a * b
  {
    Associate(a, b, p);
    Distribute(a, b * p, s);
    Distribute(a, b - s, s);
    AtLeast(a, b - s);
    AtLeast(a, b);
  }

  lemma Associate(a: int, b: int, c: int)
    ensures a * (b * c) == (a * b) * c
  {
  }

  lemma Distribute(a: int, b: int, c: int)
    ensures a * (b + c) == a * b + a * c
  {
  }

  lemma AtLeast(a: nat, b: nat)
    requires b > 0
    ensures a * b >= a
  {
  }

  lemma Quotient(v: int, n: int, q: int, r: int)
    requires n > 0 && v == n * q + r && 0 <= r < n
    ensures v / n == q
  {
    var d := v / n - q;
    assert n * d + v % n == r;
    assert d > 0 ==> n * d >= n;
    assert d < 0 ==> n * d <= -n;
  }

  /** Lengths are written in groups of seven bits, the lowest first; every group but the last is marked with 128. */
  lemma {:induction false} VarintBytes(v: nat, i: nat)
    requires i < |EncodeVarint(v)|
    ensures EncodeVarint(v)[i] as int
         == (v / Pow128(i)) % 128 + if i < |EncodeVarint(v)| - 1 then 128 else 0
  {
    if i > 0 {
      VarintBytes(v / 128, i - 1);
      DivideTwice(v, 128, Pow128(i - 1));
    } else {
      assert Pow128(0) == 1;
    }
  }

  /** A slice is its length and then its bytes. */
  lemma SliceBytes(s: Bytes)
    requires |s| < TWO_32
    ensures EncodeSlice(s) == EncodeVarint(|s|) + s
    ensures |s| < 128 ==> EncodeSlice(s) == [|s| as Byte] + s
  {
    hide EncodeVarint;
    WholeLength(|s|);
    if |s| < 128 { ShortVarint(|s|); }
  }

  lemma WholeLength(n: nat)
    requires n < TWO_32
    ensures n % TWO_32 == n
  {
  }

  lemma ShortVarint(v: nat)
    requires v < 128
    ensures EncodeVarint(v) == [v as Byte]
  {
  }

  // ----- a batch -----

  /** The sequence number is in bytes 0 to 7, the count in bytes 8 to 11, low byte first; then come the updates. */
  lemma HeaderBytes(sequence: nat, ops: seq<Op>, i: nat)
    requires sequence < TWO_64 && |ops| < TWO_32 && i < 8
    ensures var rep := EncodeBatch(sequence, ops);
            && |rep| >= 12 && rep[12..] == EncodeOps(ops)
            && rep[i] as int == (sequence / Pow256(i)) % 256
            && (i < 4 ==> rep[8 + i] as int == (|ops| / Pow256(i)) % 256)
  {
    FixedBytes(sequence, 8, i);
    if i < 4 { FixedBytes(|ops|, 4, i); }
    hide EncodeFixed, EncodeOps;
  }

  /** A batch with one Put: tag 1, the key, the value; inserted, it is a value entry. */
  lemma PutInBytes(sequence: nat, key: Bytes, value: Bytes)
    requires sequence < TWO_64 && |key| < TWO_32 && |value| < TWO_32
    ensures var rep := EncodeBatch(sequence, [Put(key, value)]);
            && |rep| >= 12 && rep[8..12] == [1, 0, 0, 0]
            && rep[12..] == [1] + (EncodeVarint(|key|) + key) + (EncodeVarint(|value|) + value)
            && RecordEntries(rep) == [Entry(sequence, Value, key, value)]
  {
    hide *;
    var op := Op.Put(key, value);
    OneUpdate(sequence, op);
    PutBytes(key, value);
    EntryOf(op, sequence);
  }

  lemma PutBytes(key: Bytes, value: Bytes)
    requires |key| < TWO_32 && |value| < TWO_32
    ensures EncodeOp(Put(key, value)) == [1] + (EncodeVarint(|key|) + key) + (EncodeVarint(|value|) + value)
  {
    hide EncodeVarint, EncodeSlice;
    SliceBytes(key);
    SliceBytes(value);
  }

  lemma EntryOf(op: Op, sequence: nat)
    requires sequence < TWO_64
    ensures NumberedEntry(op, sequence)
         == if op.Put? then Entry(sequence, Value, op.key, op.value) else Entry(sequence, Deletion, op.key, [])
  {
    WrapStep(sequence);
  }

  /** A batch with one Delete: tag 0 and the key; inserted, it is a deletion entry without a value. */
  lemma DeleteInBytes(sequence: nat, key: Bytes)
    requires sequence < TWO_64 && |key| < TWO_32
    ensures var rep := EncodeBatch(sequence, [Delete(key)]);
            && |rep| >= 12 && rep[8..12] == [1, 0, 0, 0]
            && rep[12..] == [0] + (EncodeVarint(|key|) + key)
            && RecordEntries(rep) == [Entry(sequence, Deletion, key, [])]
  {
    hide *;
    var op := Op.Delete(key);
    OneUpdate(sequence, op);
    DeleteBytes(key);
    EntryOf(op, sequence);
  }

  lemma DeleteBytes(key: Bytes)
    requires |key| < TWO_32
    ensures EncodeOp(Delete(key)) == [0] + (EncodeVarint(|key|) + key)
  {
    hide EncodeVarint, EncodeSlice;
    SliceBytes(key);
  }

  lemma OneUpdate(sequence: nat, op: Op)
    requires sequence < TWO_64 && |op.key| < TWO_32 && (op.Put? ==> |op.value| < TWO_32)
    ensures var rep := EncodeBatch(sequence, [op]);
            && |rep| >= 12 && rep[8..12] == [1, 0, 0, 0] && rep[12..] == EncodeOp(op)
            && RecordEntries(rep) == [NumberedEntry(op, sequence)]
  {
    hide EncodeBatch, IterateOps, IterateStatus, Sequence, EncodeFixed, EncodeOp, NumberedEntry;
    var ops := [op];
    CountOfOne(sequence, ops);
    BatchRoundTrip(sequence, ops);
    assert EncodeOps(ops) == EncodeOp(ops[0]) + EncodeOps(ops[1..]) == EncodeOp(op) + [] == EncodeOp(op);
    assert Numbered(ops, sequence) == [NumberedEntry(ops[0], sequence)] + Numbered(ops[1..], sequence + 1);
  }

  lemma CountOfOne(sequence: nat, ops: seq<Op>)
    requires |ops| == 1
    ensures var rep := EncodeBatch(sequence, ops);
            |rep| >= 12 && rep[8..12] == [1, 0, 0, 0] && rep[12..] == EncodeOps(ops)
  {
    hide EncodeOps, EncodeFixed;
    FixedOne();
  }

  lemma FixedOne()
    ensures EncodeFixed(1, 4) == [1, 0, 0, 0]
  {
    assert EncodeFixed(1, 4) == [1] + EncodeFixed(0, 3);
    ZeroFixed(3);
    assert EncodeFixed(0, 3) == [0, 0, 0];
  }

  /** Whatever the bytes, a batch's entries are its updates one for one: a Put gives a value entry with its key and
      value, a Delete a deletion entry with its key and no value, numbered on from the header. */
  lemma EntryCarries(rep: Bytes, i: nat)
    requires |rep| >= 12 && i < |RecordEntries(rep)|
    ensures |RecordEntries(rep)| == |IterateOps(rep)|
    ensures var e, op := RecordEntries(rep)[i], IterateOps(rep)[i];
            && (e.kind == Value <==> op.Put?) && (e.kind == Deletion <==> op.Delete?)
            && e.key == op.key && e.value == (if op.Put? then op.value else [])
            && e.seqno == (Sequence(rep) + i) % 0x1_0000_0000_0000_0000
  {
    hide IterateOps, Sequence;
    NumberedCarries(IterateOps(rep), Sequence(rep), i);
  }

  lemma {:induction false} NumberedCarries(ops: seq<Op>, sequence: nat, i: nat)
    requires i < |ops|
    ensures var e, op := Numbered(ops, sequence)[i], ops[i];
            && (e.kind == Value <==> op.Put?)
            && e.key == op.key && e.value == (if op.Put? then op.value else [])
            && e.seqno == (sequence + i) % 0x1_0000_0000_0000_0000
  {
    if i > 0 { NumberedCarries(ops[1..], sequence + 1, i - 1); }
  }

  // ----- failures -----

  /** Why reading a record fails: its tag is neither 0 nor 1, or the key or, after tag 1, the value behind the key is
      not a complete slice. */
  lemma FailuresExactly(b: Bytes)
    requires b != []
    ensures ParseOp(b) == Malformed(UnknownTag) <==> b[0] != 0 && b[0] != 1
    ensures ParseOp(b) == Malformed(BadDelete) <==> b[0] == 0 && DecodeSlice(b[1..]).None?
    ensures ParseOp(b) == Malformed(BadPut) <==>
              b[0] == 1 && (|| DecodeSlice(b[1..]).None?
                            || DecodeSlice(b[1 + DecodeSlice(b[1..]).value.1..]).None?)
  {
    hide DecodeSlice;
  }

  /** And why a batch is rejected: fewer than 12 bytes, its first malformed record, or else a count that is not the
      number of its records. */
  lemma RejectedExactly(rep: Bytes)
    ensures IterateStatus(rep) == TooSmall <==> |rep| < 12
    ensures |rep| >= 12 ==>
              && (IterateStatus(rep) == WrongCount
                  <==> Parse(rep[12..]).1 == Ok && |IterateOps(rep)| != Count(rep))
              && (IterateStatus(rep) !in {Ok, WrongCount} ==> IterateStatus(rep) == Parse(rep[12..]).1)
  {
    if |rep| >= 12 { ReadingEnds(rep[12..]); }
    hide Parse, Count;
  }

  lemma {:induction false} ReadingEnds(b: Bytes)
    ensures Parse(b).1 in {Ok, BadPut, BadDelete, UnknownTag}
    decreases |b|
  {
    if b != [] && ParseOp(b).Parsed? { ReadingEnds(b[ParseOp(b).size..]); }
  }
}
