/** OptionalBST of main.cpp: split a range at its smallest element, again and again, adding up weight times level. */
module OptionalBst {
  /** `j` is the leftmost minimum of data[lo..hi], both ends included. */
  ghost predicate LeftmostMin(data: seq<int>, j: int, lo: int, hi: int)
    requires 0 <= lo && hi < |data|
  {
    && lo <= j <= hi
    && (forall k :: lo <= k < j ==> data[j] < data[k])
    && (forall k :: j < k <= hi ==> data[j] <= data[k])
  }

  /** `j` is the leftmost minimum of everything between `i` and `j`. */
  ghost predicate Dominates(data: seq<int>, j: int, i: int)
    requires 0 <= i < |data| && 0 <= j < |data|
  {
    LeftmostMin(data, j, if i < j then i else j, if i < j then j else i)
  }

  /** Where `i` sits in the range: the positions of the range that dominate it, itself among them. */
  ghost function Above(data: seq<int>, left: int, right: int, i: int): set<int>
    requires 0 <= left && right < |data| && 0 <= i < |data|
  {
    set j | left <= j <= right && Dominates(data, j, i)
  }

  /** Sum over positions lo to hi - 1 of weight times level, the range's own root being at `level`. */
  ghost function Cost(data: seq<int>, weights: seq<int>, left: int, right: int, level: int, lo: int, hi: int): int
    requires 0 <= left <= lo && right < |data| <= |weights| && hi <= right + 1
    decreases hi - lo
  {
    if hi <= lo then 0
    else Cost(data, weights, left, right, level, lo, hi - 1)
         + (level - 1 + |Above(data, left, right, hi - 1)|) * weights[hi - 1]
  }

  class Cell {
    var value: int

    constructor ()
      ensures value == 0
    {
      value := 0;
    }
  }

  /** std::min_element. */
  method MinElement(data: seq<int>, left: nat, right: nat) returns (m: nat)
    requires left <= right < |data|
    ensures LeftmostMin(data, m, left, right)
  {
    m := left;
    var i := left + 1;
    while i <= right
      invariant left <= m < i <= right + 1
      invariant LeftmostMin(data, m, left, i - 1)
    {
      if data[i] < data[m] {
        m := i;
      }
      i := i + 1;
    }
  }

  method AddLevels(data: seq<int>, weights: seq<int>, left: int, right: int, level: int, result: Cell)
    requires 0 <= left && right < |data| <= |weights|
    modifies result
    ensures result.value == old(result.value) + Cost(data, weights, left, right, level, left, right + 1)
    decreases right + 1 - left
  {
    if left > right {
      return;
    }
    var m: int := MinElement(data, left, right);
    result.value := result.value + level * weights[m];
    AddLevels(data, weights, left, m - 1, level + 1, result);
    AddLevels(data, weights, m + 1, right, level + 1, result);
    CostSplits(data, weights, left, right, level, m);
  }

  method OptionalBST(data: seq<int>, weights: seq<int>) returns (result: int)
    requires |data| <= |weights|
    ensures result == WeightedDepth(data, weights, |data|)
  {
    var cell := new Cell();
    AddLevels(data, weights, 0, |data| - 1, 1, cell);
    CostIsWeightedDepth(data, weights, |data|);
    result := cell.value;
  }

  /** The sum over i < n of weight[i] times the number of positions that dominate i. */
  ghost function WeightedDepth(data: seq<int>, weights: seq<int>, n: nat): int
    requires n <= |data| <= |weights|
  {
    if n == 0 then 0 else WeightedDepth(data, weights, n - 1) + weights[n - 1] * Depth(data, n - 1)
  }

  ghost function Depth(data: seq<int>, i: nat): nat
    requires i < |data|
  {
    |set j | 0 <= j < |data| && Dominates(data, j, i)|
  }

  lemma {:induction false} CostIsWeightedDepth(data: seq<int>, weights: seq<int>, n: nat)
    requires n <= |data| <= |weights|
    ensures Cost(data, weights, 0, |data| - 1, 1, 0, n) == WeightedDepth(data, weights, n)
  {
    if n > 0 {
      CostIsWeightedDepth(data, weights, n - 1);
      WholeRange(data, n - 1);
    }
  }

  lemma WholeRange(data: seq<int>, i: nat)
    requires i < |data|
    ensures |Above(data, 0, |data| - 1, i)| == Depth(data, i)
  {
    assert Above(data, 0, |data| - 1, i) == set j | 0 <= j < |data| && Dominates(data, j, i);
  }

  // ----- splitting at the minimum -----

  /** The minimum dominates the whole range and is dominated by itself only. */
  lemma AboveRoot(data: seq<int>, left: int, right: int, m: int)
    requires 0 <= left && right < |data| && LeftmostMin(data, m, left, right)
    ensures Above(data, left, right, m) == {m}
  {
    forall j | left <= j <= right && j != m ensures !Dominates(data, j, m) {
      assert if j < m then data[m] < data[j] else data[m] <= data[j];
    }
    assert Dominates(data, m, m);
  }

  lemma AboveLeft(data: seq<int>, left: int, right: int, m: int, i: int)
    requires 0 <= left && right < |data| && LeftmostMin(data, m, left, right) && left <= i < m
    ensures |Above(data, left, right, i)| == 1 + |Above(data, left, m - 1, i)|
  {
    assert Dominates(data, m, i);
    forall j | m < j <= right ensures !Dominates(data, j, i) {
      assert data[m] <= data[j];
    }
    assert Above(data, left, right, i) == Above(data, left, m - 1, i) + {m};
  }

  lemma AboveRight(data: seq<int>, left: int, right: int, m: int, i: int)
    requires 0 <= left && right < |data| && LeftmostMin(data, m, left, right) && m < i <= right
    ensures |Above(data, left, right, i)| == 1 + |Above(data, m + 1, right, i)|
  {
    assert Dominates(data, m, i);
    forall j | left <= j < m ensures !Dominates(data, j, i) {
      assert data[m] < data[j];
    }
    assert Above(data, left, right, i) == Above(data, m + 1, right, i) + {m};
  }

  lemma {:induction false} CostLeft(data: seq<int>, weights: seq<int>, left: int, right: int, level: int, m: int, hi: int)
    requires 0 <= left <= hi <= m <= right < |data| <= |weights| && LeftmostMin(data, m, left, right)
    ensures Cost(data, weights, left, right, level, left, hi) == Cost(data, weights, left, m - 1, level + 1, left, hi)
    decreases hi - left
  {
    hide Above, LeftmostMin;
    if hi > left {
      CostLeft(data, weights, left, right, level, m, hi - 1);
      AboveLeft(data, left, right, m, hi - 1);
    }
  }

  lemma {:induction false} CostRight(data: seq<int>, weights: seq<int>, left: int, right: int, level: int, m: int, hi: int)
    requires 0 <= left <= m < hi <= right + 1 && right < |data| <= |weights| && LeftmostMin(data, m, left, right)
    ensures Cost(data, weights, left, right, level, left, hi)
         == Cost(data, weights, left, right, level, left, m + 1)
            + Cost(data, weights, m + 1, right, level + 1, m + 1, hi)
    decreases hi - m
  {
    hide Above, LeftmostMin;
    if hi > m + 1 {
      CostRight(data, weights, left, right, level, m, hi - 1);
      AboveRight(data, left, right, m, hi - 1);
    }
  }

  /** The cost of a range is its minimum's share plus the costs of both sides, one level down. */
  lemma CostSplits(data: seq<int>, weights: seq<int>, left: int, right: int, level: int, m: int)
    requires 0 <= left && right < |data| <= |weights| && LeftmostMin(data, m, left, right)
    ensures Cost(data, weights, left, right, level, left, right + 1)
         == level * weights[m] + Cost(data, weights, left, m - 1, level + 1, left, m)
            + Cost(data, weights, m + 1, right, level + 1, m + 1, right + 1)
  {
    CostLeft(data, weights, left, right, level, m, m);
    CostRight(data, weights, left, right, level, m, right + 1);
    AboveRoot(data, left, right, m);
  }

  // ----- what the unit test expects -----

  /** A single element costs its weight, at level 1. So the test's expectation, key times weight, holds if and only if
      the key is 1 or the weight 0; for {10} and {20} it does not. */
  lemma SingleElement(key: int, weight: int)
    ensures WeightedDepth([key], [weight], 1) == weight
    ensures WeightedDepth([key], [weight], 1) == key * weight <==> key == 1 || weight == 0
    ensures WeightedDepth([10], [20], 1) != 10 * 20
  {
    SingleDepth(key, weight);
    SingleDepth(10, 20);
    if key * weight == weight {
      assert (key - 1) * weight == 0;
    }
  }

  lemma SingleDepth(key: int, weight: int)
    ensures WeightedDepth([key], [weight], 1) == weight
  {
    var data := [key];
    assert Dominates(data, 0, 0);
    assert (set j | 0 <= j < |data| && Dominates(data, j, 0)) == {0};
    assert WeightedDepth(data, [weight], 0) == 0;
  }

  /** Of equal elements the leftmost comes first: in {1, 1} the left one is at level 1 and the right one at level 2. */
  lemma TiesGoLeft(a: int, b: int)
    ensures WeightedDepth([1, 1], [a, b], 2) == a + 2 * b
  {
    var data := [1, 1];
    assert Dominates(data, 0, 0) && !Dominates(data, 1, 0);
    assert Dominates(data, 0, 1) && Dominates(data, 1, 1);
    assert (set j | 0 <= j < |data| && Dominates(data, j, 0)) == {0};
    assert (set j | 0 <= j < |data| && Dominates(data, j, 1)) == {0, 1};
    assert WeightedDepth(data, [a, b], 0) == 0;
    assert WeightedDepth(data, [a, b], 1) == a;
  }
}
