/**
 * What the runway chart computes before drawing: on a quarterly axis, the indices of the points
 * that get a tick (the first point of each quarter) and the tick labels; and the x-axis value at
 * which the cash runs out, where the chart draws a reference line.
 */
module RunwayChart {
  import opened Wrappers
  import opened RunwayCalculations

  /** The quarter label of every point. */
  function Quarters(data: seq<RunwayDataPoint>): seq<string> {
    seq(|data|, i requires 0 <= i < |data| => data[i].Quarter())
  }

  /** Position `i` holds the first occurrence of its key. */
  predicate FirstOccurrence<T(==)>(keys: seq<T>, i: int)
    requires 0 <= i < |keys|
  {
    forall j :: 0 <= j < i ==> keys[j] != keys[i]
  }

  /** Increasing positions of keys, exactly those that hold the first occurrence of their key. */
  predicate IsFirstOccurrences<T(==)>(keys: seq<T>, indices: seq<int>) {
    && (forall k :: 0 <= k < |indices| ==> 0 <= indices[k] < |keys|)
    && (forall k, l :: 0 <= k < l < |indices| ==> indices[k] < indices[l])
    && (forall i :: 0 <= i < |keys| ==> (i in indices <==> FirstOccurrence(keys, i)))
  }

  /** Tick indices for data: the first point of each of its quarters, in order. */
  predicate IsTickIndices(data: seq<RunwayDataPoint>, indices: seq<int>) {
    IsFirstOccurrences(Quarters(data), indices)
  }

  /** A key not among the keys seen so far occurs first where it is; adding it extends what was seen. */
  lemma SeenStep<T>(keys: seq<T>, index: int, seen: set<T>)
    requires 0 <= index < |keys| && seen == set j | 0 <= j < index :: keys[j]
    ensures keys[index] !in seen <==> FirstOccurrence(keys, index)
    ensures seen + {keys[index]} == set j | 0 <= j < index + 1 :: keys[j]
  {
    if keys[index] in seen {
      var j :| 0 <= j < index && keys[j] == keys[index];
    }
  }

  /**
   * `tickIndices`: undefined unless the axis is quarterly and there is data; otherwise the index
   * of every point whose quarter label has not been seen before, in order.
   */
  method TickIndices(data: Option<seq<RunwayDataPoint>>, useQuarterlyLabels: bool) returns (r: Option<seq<int>>)
    ensures r.Some? <==> useQuarterlyLabels && data.Some?
    ensures r.Some? ==> IsTickIndices(data.value, r.value)
  {
    if !useQuarterlyLabels || data.None? {
      return None;
    }
    var points := data.value;
    ghost var keys := Quarters(points);
    var indices: seq<int> := [];
    var seenQuarters: set<string> := {};
    for index := 0 to |points|
      invariant forall k :: 0 <= k < |indices| ==> 0 <= indices[k] < index
      invariant forall k, l :: 0 <= k < l < |indices| ==> indices[k] < indices[l]
      invariant forall i :: 0 <= i < index ==> (i in indices <==> FirstOccurrence(keys, i))
      invariant seenQuarters == set j | 0 <= j < index :: keys[j]
    {
      var quarter := points[index].Quarter();
      assert quarter == keys[index];
      SeenStep(keys, index, seenQuarters);
      if quarter !in seenQuarters {
        indices := indices + [index];
        seenQuarters := seenQuarters + {quarter};
      }
    }
    r := Some(indices);
  }

  /** The first position that has the same key as position `i`. */
  lemma FirstWithKey<T>(keys: seq<T>, i: int) returns (f: int)
    requires 0 <= i < |keys|
    ensures 0 <= f <= i && keys[f] == keys[i] && FirstOccurrence(keys, f)
    decreases i
  {
    if FirstOccurrence(keys, i) {
      f := i;
    } else {
      var j :| 0 <= j < i && keys[j] == keys[i];
      f := FirstWithKey(keys, j);
    }
  }

  /**
   * Every key has exactly one first occurrence: some listed position carries it, and no two listed
   * positions carry the same key.
   */
  lemma FirstOccurrencesCoverOnce<T>(keys: seq<T>, indices: seq<int>)
    requires IsFirstOccurrences(keys, indices)
    ensures forall i :: 0 <= i < |keys| ==> exists k :: 0 <= k < |indices| && keys[indices[k]] == keys[i]
    ensures forall k, l :: 0 <= k < l < |indices| ==> keys[indices[k]] != keys[indices[l]]
  {
    forall i | 0 <= i < |keys|
      ensures exists k :: 0 <= k < |indices| && keys[indices[k]] == keys[i]
    {
      var f := FirstWithKey(keys, i);
      assert f in indices;
      var k :| 0 <= k < |indices| && indices[k] == f;
    }
    forall k, l | 0 <= k < l < |indices|
      ensures keys[indices[k]] != keys[indices[l]]
    {
      assert indices[l] in indices;
      assert FirstOccurrence(keys, indices[l]);
    }
  }

  /**
   * `data.findIndex(point => point.cash <= 0)`: the first point whose cash is not positive, or -1
   * when every point has positive cash.
   */
  function FirstRunout(data: seq<RunwayDataPoint>): (r: int)
    ensures -1 <= r < |data|
    ensures r == -1 <==> forall i :: 0 <= i < |data| ==> data[i].cash > 0
    ensures r >= 0 ==> data[r].cash <= 0 && forall i :: 0 <= i < r ==> data[i].cash > 0
  {
    if |data| == 0 then -1
    else if data[0].cash <= 0 then 0
    else
      var k := FirstRunout(data[1..]);
      if k == -1 then -1 else k + 1
  }

  /** A value on the chart's x axis: a quarter label or a month label. */
  datatype AxisValue = QuarterValue(quarter: string) | MonthValue(month: MonthLabel)

  /** The axis value of a point, in the axis's labelling. */
  function AxisValueOf(p: RunwayDataPoint, useQuarterlyLabels: bool): AxisValue {
    if useQuarterlyLabels then QuarterValue(p.Quarter()) else MonthValue(p.month)
  }

  /**
   * `runoutPoint`: none without data or when the cash never runs out; otherwise the axis value of
   * the first point whose cash is not positive.
   */
  function RunoutPoint(data: Option<seq<RunwayDataPoint>>, useQuarterlyLabels: bool): (r: Option<AxisValue>)
    ensures r.Some? <==> data.Some? && exists i :: 0 <= i < |data.value| && data.value[i].cash <= 0
    ensures r.Some? ==> exists i :: (0 <= i < |data.value| && data.value[i].cash <= 0 &&
      (forall j :: 0 <= j < i ==> data.value[j].cash > 0) && r.value == AxisValueOf(data.value[i], useQuarterlyLabels))
  {
    if data.None? || |data.value| == 0 then None
    else
      var runoutIndex := FirstRunout(data.value);
      if runoutIndex == -1 then None
      else Some(AxisValueOf(data.value[runoutIndex], useQuarterlyLabels))
  }

  /**
   * On a computed runway the cash runs out at the last point if anywhere: every earlier point has
   * positive cash.
   */
  lemma RunoutOfRunway(startingCash: int, month: int, year: int, employees: seq<RunwayEmployee>)
    ensures var p := RunwayPoints(startingCash, month, year, employees);
      FirstRunout(p) == if p[|p| - 1].cash <= 0 then |p| - 1 else -1
  {
    var p := RunwayPoints(startingCash, month, year, employees);
    RunwayStart(startingCash, month, year, employees);
    RunwayCash(startingCash, month, year, employees);
  }

  /**
   * The supplied ticks: with data, a quarterly axis and tick indices, `data[i]?.quarter` for each
   * tick index (undefined past the end of the data); otherwise none.
   */
  function Ticks(data: Option<seq<RunwayDataPoint>>, useQuarterlyLabels: bool, tickIndices: Option<seq<int>>)
    : (r: Option<seq<Option<string>>>)
    ensures r.Some? <==> data.Some? && |data.value| > 0 && useQuarterlyLabels && tickIndices.Some?
    ensures r.Some? ==> |r.value| == |tickIndices.value|
  {
    if data.Some? && |data.value| > 0 && useQuarterlyLabels && tickIndices.Some? then
      var d, ix := data.value, tickIndices.value;
      Some(seq(|ix|, k requires 0 <= k < |ix| =>
        if 0 <= ix[k] < |d| then Some(d[ix[k]].Quarter()) else None))
    else None
  }

  /**
   * Ticks from tick indices are all defined and all different, and every quarter of the data is
   * among them.
   */
  lemma TicksOfTickIndices(data: seq<RunwayDataPoint>, indices: seq<int>)
    requires |data| > 0 && IsTickIndices(data, indices)
    ensures var t := Ticks(Some(data), true, Some(indices)).value; var keys := Quarters(data);
      && (forall k :: 0 <= k < |t| ==> t[k] == Some(keys[indices[k]]))
      && (forall k, l :: 0 <= k < l < |t| ==> t[k] != t[l])
      && (forall i :: 0 <= i < |data| ==> Some(keys[i]) in t)
  {
    var t := Ticks(Some(data), true, Some(indices)).value;
    var keys := Quarters(data);
    FirstOccurrencesCoverOnce(keys, indices);
    forall k | 0 <= k < |t|
      ensures t[k] == Some(keys[indices[k]])
    {
    }
    forall i | 0 <= i < |data|
      ensures Some(keys[i]) in t
    {
      var k :| 0 <= k < |indices| && keys[indices[k]] == keys[i];
      assert t[k] == Some(keys[i]);
    }
  }
}
