/** util/random.hpp: the multiplicative generator modulo 2^31 - 1, and why it runs through every seed. */
module RandomNumbers {
  import opened Coding

  const M: nat := 2147483647
  const A: nat := 16807
  const N: nat := 2147483646  // seeds in use: 1 to N

  predicate Seed(s: int) { 1 <= s <= N }

  function Step(s: nat): nat { (A * s) % M }

  function Iterate(s: nat, k: nat): nat { if k == 0 then s else Step(Iterate(s, k - 1)) }

  /** Next's arithmetic on an arbitrary 32-bit seed: a shift, a mask, an addition cut to 32 bits, a subtraction. */
  function ShiftAdd(seed: nat): nat {
    var product := (seed * A) % TWO_64;
    var sum := (product / 0x8000_0000 + product % 0x8000_0000) % TWO_32;
    if sum > M then sum - M else sum
  }

  /** Below 2^31 nothing overflows, and the shift-and-add is the remainder modulo M, except that M stays M: 0 and M
      are the two seeds that never change. */
  lemma ShiftAddIsStep(seed: nat)
    requires seed < 0x8000_0000
    ensures seed * A < TWO_64
    ensures (seed * A) / 0x8000_0000 + (seed * A) % 0x8000_0000 < TWO_32
    ensures seed < M ==> ShiftAdd(seed) == Step(seed)
    ensures seed == 0 || seed == M ==> ShiftAdd(seed) == seed
    ensures Seed(seed) ==> Seed(ShiftAdd(seed))
  {
    var product := seed * A;
    var sum := product / 0x8000_0000 + product % 0x8000_0000;
    assert product < TWO_64 && sum < TWO_32;
    Unfolded(seed, product, sum);
    hide ShiftAdd;
    Folded(product, sum);
    if Seed(seed) {
      NeverZero(seed);
    }
  }

  lemma Unfolded(seed: nat, product: nat, sum: nat)
    requires product == seed * A < TWO_64 && sum == product / 0x8000_0000 + product % 0x8000_0000 < TWO_32
    ensures ShiftAdd(seed) == if sum > M then sum - M else sum
  {
    assert product % TWO_64 == product;
  }

  /** Folding the bits above the 31st onto the others keeps the remainder, and leaves at most one M too much. */
  lemma Folded(product: nat, sum: nat)
    requires product <= A * M && sum == product / 0x8000_0000 + product % 0x8000_0000
    ensures sum < 2 * M
    ensures product < A * M ==> product % M == if sum >= M then sum - M else sum
    ensures product == A * M ==> sum == M
    ensures sum == M ==> product % M == 0
  {
    var q := product / 0x8000_0000;
    assert product == M * q + sum;
  }

  /** M is never the result: multiplying by A can be undone, as 1407677000 * A == 11017 * M + 1. */
  lemma NeverZero(seed: nat)
    requires Seed(seed)
    ensures Step(seed) != 0
  {
    var q, r := (A * seed) / M, Step(seed);
    assert A * seed == M * q + r;
    assert 1407677000 * r == seed + M * (11017 * seed - 1407677000 * q);
  }

  class Random {
    var seed: nat

    ghost predicate Valid()
      reads this
    {
      Seed(seed)
    }

    constructor (s: nat)
      requires s < TWO_32
      ensures Valid()
      ensures seed == if s % 0x8000_0000 == 0 || s % 0x8000_0000 == M then 1 else s % 0x8000_0000
    {
      seed := s % 0x8000_0000;
      new;
      if seed == 0 || seed == M {
        seed := 1;
      }
    }

    method Next() returns (r: nat)
      requires Valid()
      modifies this
      ensures Valid() && seed == Step(old(seed)) && r == seed
      ensures r == (16807 * old(seed)) % 2147483647 && 0 < r < 2147483647
    {
      ShiftAddIsStep(seed);
      var product := (seed * A) % TWO_64;
      seed := (product / 0x8000_0000 + product % 0x8000_0000) % TWO_32;
      if seed > M {
        seed := seed - M;
      }
      r := seed;
    }

    method Uniform(n: nat) returns (r: nat)
      requires Valid() && 0 < n < 0x8000_0000
      modifies this
      ensures Valid() && seed == Step(old(seed))
      ensures r < n && r == Step(old(seed)) % n
    {
      r := Next();
      r := r % n;
    }

    /** `base` random bits, for a `base` picked from 0 to maxLog. */
    method Skewed(maxLog: nat) returns (r: nat)
      requires Valid() && maxLog <= 30
      modifies this
      ensures Valid() && seed == Iterate(old(seed), 2)
      ensures var base := Iterate(old(seed), 1) % (maxLog + 1);
              r < Pow2(base) <= Pow2(maxLog) && r == Iterate(old(seed), 2) % Pow2(base)
    {
      assert Iterate(seed, 0) == seed && Iterate(seed, 1) == Step(seed);
      var base := Uniform(maxLog + 1);
      Pow2Grows(base, maxLog);
      Pow2Grows(maxLog, 30);
      Pow2Limit();
      r := Uniform(Pow2(base));
    }
  }

  function Pow2(k: nat): (r: nat)
    ensures r > 0
  {
    if k == 0 then 1 else 2 * Pow2(k - 1)
  }

  lemma {:induction false} Pow2Grows(a: nat, b: nat)
    requires a <= b
    ensures Pow2(a) <= Pow2(b)
  {
    if a < b { Pow2Grows(a, b - 1); }
  }

  lemma Pow2Limit()
    ensures Pow2(30) == 0x4000_0000
  {
    assert Pow2(10) == 0x400;
    assert Pow2(20) == 0x10_0000;
  }
}
