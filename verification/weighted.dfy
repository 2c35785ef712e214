/**
 * Weighted choice among an item reward's payload variants (`getRandomItem`):
 * a draw in 1..total picks the first variant whose running cumulative weight
 * reaches it.
 */
module Weighted {
  import opened Rules

  /** `items.sumOf { it.weight }`; with non-negative weights it bounds every single weight. */
  function TotalWeight(items: seq<WeightedItem>): (t: int)
    ensures items == [] ==> t == 0
    ensures NonNegativeWeights(items) ==> t >= 0 && forall i :: 0 <= i < |items| ==> items[i].weight <= t
  {
    if items == [] then 0
    else
      var n := |items| - 1;
      assert forall i :: 0 <= i < n ==> items[..n][i] == items[i];
      TotalWeight(items[..n]) + items[n].weight
  }

  /** The running weight after the first `n` variants. */
  function PrefixWeight(items: seq<WeightedItem>, n: nat): int
    requires n <= |items|
  {
    TotalWeight(items[..n])
  }

  /** The running weight once variant `j` has been added. */
  function RunningWeight(items: seq<WeightedItem>, j: nat): int
    requires j < |items|
  {
    PrefixWeight(items, j + 1)
  }

  lemma PrefixWeightStep(items: seq<WeightedItem>, n: nat)
    requires n < |items|
    ensures PrefixWeight(items, n + 1) == PrefixWeight(items, n) + items[n].weight
  {
    assert items[..n + 1][..n] == items[..n];
  }

  predicate NonNegativeWeights(items: seq<WeightedItem>) {
    forall i :: 0 <= i < |items| ==> items[i].weight >= 0
  }

  /** With non-negative weights the running weight never decreases. */
  lemma {:induction false} PrefixWeightMonotone(items: seq<WeightedItem>, a: nat, b: nat)
    requires NonNegativeWeights(items)
    requires a <= b <= |items|
    ensures PrefixWeight(items, a) <= PrefixWeight(items, b)
    decreases b - a
  {
    if a < b {
      PrefixWeightStep(items, a);
      PrefixWeightMonotone(items, a + 1, b);
    }
  }

  /** The first index at or after `i` whose running weight reaches `draw` (`|items|` if none). */
  function FirstReachingFrom(items: seq<WeightedItem>, draw: int, i: nat): (k: nat)
    requires i <= |items|
    requires forall j :: 0 <= j < i ==> RunningWeight(items, j) < draw
    ensures i <= k <= |items|
    ensures forall j :: 0 <= j < k ==> RunningWeight(items, j) < draw
    ensures k < |items| ==> draw <= RunningWeight(items, k)
    decreases |items| - i
  {
    if i == |items| || draw <= RunningWeight(items, i) then i
    else FirstReachingFrom(items, draw, i + 1)
  }

  function FirstReaching(items: seq<WeightedItem>, draw: int): (k: nat)
    ensures k <= |items|
    ensures forall j :: 0 <= j < k ==> RunningWeight(items, j) < draw
    ensures k < |items| ==> draw <= RunningWeight(items, k)
  {
    FirstReachingFrom(items, draw, 0)
  }

  /** The variant `getRandomItem` returns for the draw `draw`; "" when the total weight is not positive. */
  function WeightedChoice(items: seq<WeightedItem>, draw: int): (c: string)
    ensures TotalWeight(items) <= 0 ==> c == ""
    ensures c == "" || exists k :: 0 <= k < |items| && items[k].value == c
  {
    if TotalWeight(items) <= 0 then ""
    else
      var k := FirstReaching(items, draw);
      if k < |items| then items[k].value else ""
  }

  /** The first variant reaching the draw is the one the scan stops at. */
  lemma FirstReachingIsUnique(items: seq<WeightedItem>, draw: int, i: nat)
    requires i < |items|
    requires forall j :: 0 <= j < i ==> RunningWeight(items, j) < draw
    requires draw <= RunningWeight(items, i)
    ensures FirstReaching(items, draw) == i
  {
  }

  /**
   * `getRandomItem`, with `draw` the value `(1..totalWeight).random()` gave.
   * The loop accumulates the running weight and stops at the first variant
   * that reaches the draw.
   */
  method RandomItem(items: seq<WeightedItem>, draw: int) returns (value: string)
    ensures TotalWeight(items) <= 0 ==> value == ""
    ensures value == WeightedChoice(items, draw)
  {
    var totalWeight := TotalWeight(items);
    if totalWeight <= 0 {
      return "";
    }
    var weight := 0;
    var i := 0;
    while i < |items|
      invariant 0 <= i <= |items|
      invariant weight == PrefixWeight(items, i)
      invariant forall j :: 0 <= j < i ==> RunningWeight(items, j) < draw
    {
      PrefixWeightStep(items, i);
      weight := weight + items[i].weight;
      if draw <= weight {
        FirstReachingIsUnique(items, draw, i);
        return items[i].value;
      }
      i := i + 1;
    }
    assert items[..|items|] == items;
    return "";
  }

  /** A draw no larger than the total weight is reached by some variant. */
  lemma FirstReachingInRange(items: seq<WeightedItem>, draw: int)
    requires 1 <= draw <= TotalWeight(items)
    ensures FirstReaching(items, draw) < |items|
  {
    assert items != [];
    assert items[..|items|] == items;
    assert RunningWeight(items, |items| - 1) == TotalWeight(items);
  }

  /**
   * With non-negative weights and a draw in 1..total, the choice is a real
   * variant, never "", and that variant has positive weight.
   */
  lemma ChoiceIsPositiveVariant(items: seq<WeightedItem>, draw: int)
    requires NonNegativeWeights(items)
    requires 1 <= draw <= TotalWeight(items)
    ensures FirstReaching(items, draw) < |items|
    ensures items[FirstReaching(items, draw)].weight > 0
    ensures WeightedChoice(items, draw) == items[FirstReaching(items, draw)].value
  {
    FirstReachingInRange(items, draw);
    var k := FirstReaching(items, draw);
    PrefixWeightStep(items, k);
    assert PrefixWeight(items, k) < draw by {
      if k > 0 {
        assert RunningWeight(items, k - 1) < draw;
      } else {
        assert items[..0] == [];
      }
    }
  }

  /** A draw in 1..total picks variant `k` exactly when it lies in that variant's cumulative band. */
  lemma ChoiceBand(items: seq<WeightedItem>, draw: int, k: nat)
    requires NonNegativeWeights(items)
    requires 1 <= draw <= TotalWeight(items)
    requires k < |items|
    ensures FirstReaching(items, draw) == k <==> PrefixWeight(items, k) < draw <= RunningWeight(items, k)
  {
    var f := FirstReaching(items, draw);
    ChoiceIsPositiveVariant(items, draw);
    if f == k {
      if k > 0 { assert RunningWeight(items, k - 1) < draw; }
    } else if PrefixWeight(items, k) < draw <= RunningWeight(items, k) {
      if f < k {
        PrefixWeightMonotone(items, f + 1, k);
      }
    }
  }

  predicate InBand(r: int, lo: int, hi: int) {
    lo < r <= hi
  }

  /** The draws `lo + 1 .. hi`. */
  function Band(lo: int, hi: int): (b: set<int>)
    ensures forall r :: r in b <==> InBand(r, lo, hi)
  {
    set r | lo < r <= hi && InBand(r, lo, hi)
  }

  lemma {:induction false} BandSize(lo: int, hi: int)
    requires lo <= hi
    ensures |Band(lo, hi)| == hi - lo
    decreases hi - lo
  {
    if lo < hi {
      BandSize(lo, hi - 1);
      assert Band(lo, hi) == Band(lo, hi - 1) + {hi};
    } else {
      assert Band(lo, hi) == {};
    }
  }

  predicate PicksVariant(items: seq<WeightedItem>, r: int, k: nat) {
    1 <= r <= TotalWeight(items) && FirstReaching(items, r) == k
  }

  /** The draws in 1..total that pick variant `k`. */
  function DrawsPicking(items: seq<WeightedItem>, k: nat): (d: set<int>)
    ensures forall r :: r in d <==> PicksVariant(items, r, k)
  {
    set r | 1 <= r <= TotalWeight(items) && PicksVariant(items, r, k)
  }

  /**
   * Of the `total` equally likely draws 1..total, exactly `weight` pick each
   * variant: the choice is proportional to the weights.
   */
  lemma DrawsPerVariant(items: seq<WeightedItem>, k: nat)
    requires NonNegativeWeights(items)
    requires k < |items|
    ensures |DrawsPicking(items, k)| == items[k].weight
  {
    var total := TotalWeight(items);
    var lo, hi := PrefixWeight(items, k), RunningWeight(items, k);
    PrefixWeightStep(items, k);
    PrefixWeightMonotone(items, 0, k);
    PrefixWeightMonotone(items, k + 1, |items|);
    assert items[..0] == [] && items[..|items|] == items;
    assert 0 <= lo && hi <= total;
    var picks := DrawsPicking(items, k);
    var band := Band(lo, hi);
    forall r | r in band ensures r in picks {
      ChoiceBand(items, r, k);
    }
    forall r | r in picks ensures r in band {
      ChoiceBand(items, r, k);
    }
    assert picks == band;
    BandSize(lo, hi);
  }
}
