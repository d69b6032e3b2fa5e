/**
 * Reducing the three per-slot readings (millidegrees, each possibly absent)
 * to their mean over the present ones, the pump's threshold rule on that
 * mean, and rounding a mean to the nearest millidegree.
 */
module Aggregate {
  import opened Optional

  /** `UMBRAL_ACTIVACION_C` (22.0 °C), in millidegrees. */
  const UmbralMilli: int := 22000

  /** The exact mean `sum / count` of `count` readings, in millidegrees. */
  datatype Mean = Mean(sum: int, count: nat)

  /** `validas`: the present readings, in slot order. */
  function Present(readings: seq<Option<int>>): (vs: seq<int>)
    ensures |vs| <= |readings|
    ensures |vs| == 0 <==> forall i :: 0 <= i < |readings| ==> readings[i].None?
  {
    if |readings| == 0 then []
    else
      var rest := Present(readings[1..]);
      assert forall i :: 1 <= i < |readings| ==> readings[i] == readings[1..][i - 1];
      match readings[0]
      case Some(v) => [v] + rest
      case None => rest
  }

  function Sum(vs: seq<int>): int {
    if |vs| == 0 then 0 else vs[0] + Sum(vs[1..])
  }

  /** `avg`: the mean of the present readings, `None` when there are none. */
  function Average(readings: seq<Option<int>>): (avg: Option<Mean>)
    ensures avg.None? <==> forall i :: 0 <= i < |readings| ==> readings[i].None?
    ensures avg.Some? ==> 0 < avg.value.count <= |readings|
    ensures avg.Some? ==> avg.value == Mean(Total(readings), |PresentSlots(readings)|)
  {
    var vs := Present(readings);
    PresentTotal(readings);
    PresentCount(readings);
    if |vs| == 0 then None else Some(Mean(Sum(vs), |vs|))
  }

  /** The slots that hold a reading. */
  ghost function PresentSlots(readings: seq<Option<int>>): set<nat> {
    set i: nat | i < |readings| && readings[i].Some?
  }

  /** The slots that hold the reading `v`. */
  ghost function SlotsWith(readings: seq<Option<int>>, v: int): set<nat> {
    set i: nat | i < |readings| && readings[i] == Some(v)
  }

  /** The total of the readings, an absent one counting as zero. */
  function Total(readings: seq<Option<int>>): int {
    if |readings| == 0 then 0
    else Total(readings[..|readings| - 1]) + match readings[|readings| - 1] { case Some(v) => v case None => 0 }
  }

  /** `Present` of a list extended by one reading. */
  lemma {:induction false} PresentSnoc(readings: seq<Option<int>>, t: Option<int>)
    ensures Present(readings + [t]) == Present(readings) + (if t.Some? then [t.value] else [])
    decreases |readings|
  {
    if |readings| == 0 {
      assert ([] + [t])[1..] == [];
    } else {
      assert (readings + [t])[1..] == readings[1..] + [t];
      PresentSnoc(readings[1..], t);
    }
  }

  lemma SumSnoc(vs: seq<int>, v: int)
    ensures Sum(vs + [v]) == Sum(vs) + v
  {
    if |vs| > 0 {
      assert (vs + [v])[1..] == vs[1..] + [v];
      SumSnoc(vs[1..], v);
    }
  }

  /** A list is its front followed by its last reading. */
  lemma LastSplit(readings: seq<Option<int>>)
    requires |readings| > 0
    ensures readings == readings[..|readings| - 1] + [readings[|readings| - 1]]
  {
  }

  /** The present readings add up to the total. */
  lemma {:induction false} PresentTotal(readings: seq<Option<int>>)
    ensures Sum(Present(readings)) == Total(readings)
    decreases |readings|
  {
    if |readings| > 0 {
      var front, t := readings[..|readings| - 1], readings[|readings| - 1];
      LastSplit(readings);
      PresentTotal(front);
      PresentSnoc(front, t);
      if t.Some? {
        SumSnoc(Present(front), t.value);
      } else {
        assert Present(front) + [] == Present(front);
      }
    }
  }

  /** There are as many present readings as slots holding one. */
  lemma {:induction false} PresentCount(readings: seq<Option<int>>)
    ensures |Present(readings)| == |PresentSlots(readings)|
    decreases |readings|
  {
    if |readings| > 0 {
      var front, t := readings[..|readings| - 1], readings[|readings| - 1];
      LastSplit(readings);
      PresentCount(front);
      PresentSnoc(front, t);
      SlotsSnoc(front, t);
    }
  }

  /** Extending the readings by one adds its slot exactly when it holds a reading. */
  lemma SlotsSnoc(front: seq<Option<int>>, t: Option<int>)
    ensures PresentSlots(front + [t]) == PresentSlots(front) + (if t.Some? then {|front|} else {})
    ensures |PresentSlots(front + [t])| == |PresentSlots(front)| + (if t.Some? then 1 else 0)
  {
    var r := front + [t];
    forall i: nat | i < |front| ensures r[i] == front[i] {}
    assert |front| !in PresentSlots(front);
  }

  /** Extending the readings by one adds its slot exactly when it holds `v`. */
  lemma SlotsWithSnoc(front: seq<Option<int>>, t: Option<int>, v: int)
    ensures SlotsWith(front + [t], v) == SlotsWith(front, v) + (if t == Some(v) then {|front|} else {})
    ensures |SlotsWith(front + [t], v)| == |SlotsWith(front, v)| + (if t == Some(v) then 1 else 0)
  {
    var r := front + [t];
    forall i: nat | i < |front| ensures r[i] == front[i] {}
    assert |front| !in SlotsWith(front, v);
  }

  /**
   * The present readings are the readings of the occupied slots, each value
   * as many times as slots hold it.
   */
  lemma {:induction false} PresentValues(readings: seq<Option<int>>, v: int)
    ensures multiset(Present(readings))[v] == |SlotsWith(readings, v)|
    decreases |readings|
  {
    if |readings| > 0 {
      var front, t := readings[..|readings| - 1], readings[|readings| - 1];
      LastSplit(readings);
      PresentValues(front, v);
      PresentSnoc(front, t);
      SlotsWithSnoc(front, t, v);
      MultisetSnoc(Present(front), t, v);
    }
  }

  /** Appending a reading's value, if any, counts it once more. */
  lemma MultisetSnoc(vs: seq<int>, t: Option<int>, v: int)
    ensures multiset(vs + (if t.Some? then [t.value] else []))[v] == multiset(vs)[v] + (if t == Some(v) then 1 else 0)
  {
    if t.Some? {
      assert multiset(vs + [t.value]) == multiset(vs) + multiset{t.value};
    } else {
      assert vs + [] == vs;
    }
  }

  /** Every present reading is at least `lo`. */
  ghost predicate PresentAtLeast(readings: seq<Option<int>>, lo: int) {
    forall i :: 0 <= i < |readings| && readings[i].Some? ==> lo <= readings[i].value
  }

  /** Every present reading is at most `hi`. */
  ghost predicate PresentAtMost(readings: seq<Option<int>>, hi: int) {
    forall i :: 0 <= i < |readings| && readings[i].Some? ==> readings[i].value <= hi
  }

  /** `Present` of a non-empty list: the head's value, if any, then the rest. */
  lemma PresentCons(readings: seq<Option<int>>)
    requires |readings| > 0
    ensures readings[0].Some? ==> Present(readings) == [readings[0].value] + Present(readings[1..])
    ensures readings[0].None? ==> Present(readings) == Present(readings[1..])
  {
  }

  lemma {:induction false} SumAtLeast(readings: seq<Option<int>>, lo: int)
    requires PresentAtLeast(readings, lo)
    ensures lo * |Present(readings)| <= Sum(Present(readings))
  {
    if |readings| > 0 {
      assert PresentAtLeast(readings[1..], lo) by {
        forall i | 0 <= i < |readings| - 1 && readings[1..][i].Some?
          ensures lo <= readings[1..][i].value
        {
          assert readings[1..][i] == readings[i + 1];
        }
      }
      SumAtLeast(readings[1..], lo);
      PresentSum(readings);
      Distribute(lo, |Present(readings[1..])|);
    }
  }

  lemma {:induction false} SumAtMost(readings: seq<Option<int>>, hi: int)
    requires PresentAtMost(readings, hi)
    ensures Sum(Present(readings)) <= hi * |Present(readings)|
  {
    if |readings| > 0 {
      assert PresentAtMost(readings[1..], hi) by {
        forall i | 0 <= i < |readings| - 1 && readings[1..][i].Some?
          ensures readings[1..][i].value <= hi
        {
          assert readings[1..][i] == readings[i + 1];
        }
      }
      SumAtMost(readings[1..], hi);
      PresentSum(readings);
      Distribute(hi, |Present(readings[1..])|);
    }
  }

  /** The sum and count of the present readings, split at the head. */
  lemma PresentSum(readings: seq<Option<int>>)
    requires |readings| > 0
    ensures readings[0].Some? ==>
      && Sum(Present(readings)) == readings[0].value + Sum(Present(readings[1..]))
      && |Present(readings)| == 1 + |Present(readings[1..])|
    ensures readings[0].None? ==> Present(readings) == Present(readings[1..])
  {
    PresentCons(readings);
    if readings[0].Some? {
      var vs := [readings[0].value] + Present(readings[1..]);
      assert vs[1..] == Present(readings[1..]);
    }
  }

  lemma Distribute(k: int, n: nat)
    ensures k * (n + 1) == k + k * n
  {
  }

  /**
   * The mean lies between any bounds of the present readings, so between
   * their minimum and maximum: `lo <= sum / count <= hi`.
   */
  lemma AverageWithin(readings: seq<Option<int>>, lo: int, hi: int)
    requires PresentAtLeast(readings, lo) && PresentAtMost(readings, hi)
    requires Average(readings).Some?
    ensures var m := Average(readings).value; lo * m.count <= m.sum <= hi * m.count
  {
    SumAtLeast(readings, lo);
    SumAtMost(readings, hi);
  }

  /**
   * The pump rule on the readings themselves: ON exactly when some slot
   * holds a reading and the readings' total exceeds the threshold times
   * their number.
   */
  lemma PumpRule(readings: seq<Option<int>>)
    ensures PumpOn(Average(readings)) <==>
      |PresentSlots(readings)| > 0 && Total(readings) > UmbralMilli * |PresentSlots(readings)|
  {
  }

  /** The pump rule: ON exactly when a mean exists and exceeds the threshold (`avg > UMBRAL`). */
  predicate PumpOn(avg: Option<Mean>) {
    avg.Some? && avg.value.sum > UmbralMilli * avg.value.count
  }

  /** ON needs some present reading above the threshold. */
  lemma PumpOnNeedsWarmReading(readings: seq<Option<int>>)
    requires PumpOn(Average(readings))
    ensures exists i :: 0 <= i < |readings| && readings[i].Some? && readings[i].value > UmbralMilli
  {
    if !exists i :: 0 <= i < |readings| && readings[i].Some? && readings[i].value > UmbralMilli {
      SumAtMost(readings, UmbralMilli);
      assert false;
    }
  }

  /** Every present reading above the threshold, and at least one of them, turns the pump ON. */
  lemma AllWarmTurnsPumpOn(readings: seq<Option<int>>)
    requires exists i :: 0 <= i < |readings| && readings[i].Some?
    requires PresentAtLeast(readings, UmbralMilli + 1)
    ensures PumpOn(Average(readings))
  {
    SumAtLeast(readings, UmbralMilli + 1);
  }

  /** A mean exactly at the threshold leaves the pump OFF. */
  lemma ThresholdIsOff(sum: int, count: nat)
    requires count > 0 && sum == UmbralMilli * count
    ensures !PumpOn(Some(Mean(sum, count)))
  {
  }

  /** `a / c` rounded to the nearest integer, halves away from zero. */
  function RoundDiv(a: nat, c: nat): (q: nat)
    requires c > 0
    ensures -(c as int) <= 2 * (q * c - a) <= c
  {
    var q := (2 * a + c) / (2 * c);
    DivBounds(2 * a + c, 2 * c, q);
    q
  }

  lemma DivBounds(x: nat, d: nat, q: nat)
    requires d > 0 && q == x / d
    ensures q * d <= x < q * d + d
  {
  }

  /** `round(sum / count, 3)` in millidegrees: within half a millidegree of the exact mean. */
  function RoundMean(m: Mean): (r: int)
    requires m.count > 0
    ensures -(m.count as int) <= 2 * (r * m.count - m.sum) <= m.count
  {
    if m.sum < 0 then -(RoundDiv(-m.sum, m.count) as int) else RoundDiv(m.sum, m.count)
  }
}
