/** CPU utilisation from two samples of 64-bit counters whose sums may wrap. */
module CpuUsage {

  const MODULUS: int := 0x1_0000_0000_0000_0000

  type uint64 = x: int | 0 <= x < MODULUS

  function Wrap(x: int): uint64 { x % MODULUS }

  /** The difference of two counters as 64-bit subtraction computes it. */
  function Difference(x: uint64, y: uint64): uint64 { Wrap(x as int - y as int) }

  /** The sum of the counters as 64-bit addition computes it. */
  function WrappedSum(values: seq<uint64>): uint64 {
    if values == [] then 0 else Wrap(WrappedSum(values[..|values| - 1]) + values[|values| - 1])
  }

  function TrueSum(values: seq<uint64>): int {
    if values == [] then 0 else TrueSum(values[..|values| - 1]) + values[|values| - 1]
  }

  /** The position of the idle time in the list of counters. */
  const IDLE: nat := 3

  /** The percentage, from 64-bit differences and real arithmetic. */
  function Percentage(totalDelta: uint64, idleDelta: uint64): real {
    if totalDelta == 0 then 0.0 else (1.0 - idleDelta as real / totalDelta as real) * 100.0
  }

  method Usage(before: seq<uint64>, after: seq<uint64>) returns (percent: real)
    requires |before| > IDLE && |after| > IDLE
    ensures percent == Percentage(Difference(WrappedSum(after), WrappedSum(before)), Difference(after[3], before[3]))
  {
    var totalBefore: uint64, totalAfter: uint64 := 0, 0;
    for i := 0 to |before|
      invariant totalBefore == WrappedSum(before[..i])
    {
      assert before[..i + 1][..i] == before[..i];
      totalBefore := Wrap(totalBefore + before[i]);
    }
    assert before[..|before|] == before;
    for i := 0 to |after|
      invariant totalAfter == WrappedSum(after[..i])
    {
      assert after[..i + 1][..i] == after[..i];
      totalAfter := Wrap(totalAfter + after[i]);
    }
    assert after[..|after|] == after;
    var totalDelta, idleDelta := Difference(totalAfter, totalBefore), Difference(after[IDLE], before[IDLE]);
    if totalDelta == 0 {
      return 0.0;
    }
    percent := (1.0 - idleDelta as real / totalDelta as real) * 100.0;
  }

  lemma WrapAgain(x: int, y: int)
    ensures Wrap(Wrap(x) + y) == Wrap(x + y) && Wrap(y - Wrap(x)) == Wrap(y - x)
  {
    assert x == x / MODULUS * MODULUS + Wrap(x);
    WrapShift(Wrap(x) + y, x / MODULUS);
    WrapShift(y - x, x / MODULUS);
  }

  lemma {:induction false} WrapShift(x: int, k: int)
    ensures Wrap(x + k * MODULUS) == Wrap(x)
    decreases if k < 0 then -k else k
  {
    if k > 0 {
      WrapShift(x, k - 1);
      assert Wrap(x + (k - 1) * MODULUS + MODULUS) == Wrap(x + (k - 1) * MODULUS);
    } else if k < 0 {
      WrapShift(x, k + 1);
      assert Wrap(x + (k + 1) * MODULUS - MODULUS) == Wrap(x + (k + 1) * MODULUS);
    }
  }

  lemma {:induction false} SumWraps(values: seq<uint64>)
    ensures WrappedSum(values) == Wrap(TrueSum(values))
    decreases |values|
  {
    if values != [] {
      var before := values[..|values| - 1];
      SumWraps(before);
      WrapAgain(TrueSum(before), values[|values| - 1]);
    }
  }

  /** The difference of the wrapped sums is the true difference modulo 2^64. */
  lemma {:induction false} DifferenceWraps(before: seq<uint64>, after: seq<uint64>)
    ensures Difference(WrappedSum(after), WrappedSum(before)) == Wrap(TrueSum(after) - TrueSum(before))
  {
    SumWraps(before);
    SumWraps(after);
    WrapAgain(TrueSum(before), WrappedSum(after));
    WrapAgain(TrueSum(after), -TrueSum(before));
  }

  predicate Monotone(before: seq<uint64>, after: seq<uint64>) {
    |before| == |after| && forall i :: 0 <= i < |before| ==> before[i] <= after[i]
  }

  /** No single counter advances more than all of them together. */
  lemma {:induction false} OnePart(before: seq<uint64>, after: seq<uint64>, i: nat)
    requires Monotone(before, after) && i < |before|
    ensures 0 <= after[i] as int - before[i] as int <= TrueSum(after) - TrueSum(before)
    decreases |before|
  {
    var n := |before| - 1;
    if i < n {
      OnePart(before[..n], after[..n], i);
    } else if n > 0 {
      OnePart(before[..n], after[..n], 0);
    }
  }

  /**
   Counters that never decrease give the true utilisation, in [0, 100], even when the 64-bit sums
   wrap, as long as they advanced by less than 2^64 in total.
   */
  lemma {:induction false} UsageIsAPercentage(before: seq<uint64>, after: seq<uint64>)
    requires Monotone(before, after) && |before| > 3 && TrueSum(after) - TrueSum(before) < MODULUS
    ensures var total, idle := TrueSum(after) - TrueSum(before), after[3] as int - before[3] as int;
            var percent := Percentage(Difference(WrappedSum(after), WrappedSum(before)), Difference(after[3], before[3]));
            && 0.0 <= percent <= 100.0
            && (total == 0 ==> percent == 0.0)
            && (total > 0 ==> percent * total as real == 100.0 * (total - idle) as real)
  {
    hide Percentage, WrappedSum, TrueSum, Wrap;
    DifferenceWraps(before, after);
    OnePart(before, after, IDLE);
    var total, idle := TrueSum(after) - TrueSum(before), after[IDLE] as int - before[IDLE] as int;
    InRangeIsUnwrapped(total);
    InRangeIsUnwrapped(idle);
    InRange(total, idle);
    Scales(total, idle);
  }

  lemma InRangeIsUnwrapped(x: int)
    requires 0 <= x < MODULUS
    ensures Wrap(x) == x
  {
  }

  lemma Quotient(x: real, y: real)
    requires x >= 0.0 && y > 0.0
    ensures x / y * y == x && x / y >= 0.0
    ensures x / y <= 1.0 <==> x <= y
  {
    var q := x / y;
    assert q * y == x;
    if q <= 1.0 {
      assert (1.0 - q) * y >= 0.0;
    } else {
      assert (q - 1.0) * y > 0.0;
    }
  }

  lemma Scales(total: uint64, idle: uint64)
    ensures total == 0 ==> Percentage(total, idle) == 0.0
    ensures total > 0 ==> Percentage(total, idle) * total as real == 100.0 * (total as int - idle as int) as real
  {
    if total > 0 {
      var x, y := idle as real, total as real;
      Quotient(x, y);
      var q := x / y;
      assert (1.0 - q) * 100.0 * y == 100.0 * (y - q * y);
    }
  }

  /** For any two samples the result lies in [0, 100] exactly when the idle difference does not exceed the total. */
  lemma InRange(total: uint64, idle: uint64)
    ensures 0.0 <= Percentage(total, idle) <= 100.0 <==> total == 0 || idle <= total
  {
    if total > 0 {
      Quotient(idle as real, total as real);
    }
  }
}
