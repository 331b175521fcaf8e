/** time_range (analytics/lib/time_utils.py): the end times that a chart shows. */
module TimeRange {
  import opened Options
  import opened Sums
  import opened CountTables

  /** floor_to_hour and floor_to_day. */
  function Floor(step: Time, t: Time): Time
    requires step > 0
  {
    t - t % step
  }

  /** ceiling_to_hour and ceiling_to_day. */
  function CeilingTo(step: Time, t: Time): Time
    requires step > 0
  {
    if Floor(step, t) == t then t else Floor(step, t) + step
  }

  /** CountStat.FREQUENCIES. */
  function StepOf(frequency: string): Option<Time> {
    if frequency == "hour" then Some(HOUR) else if frequency == "day" then Some(DAY) else None
  }

  /** The grid points from `start` to `end`. */
  ghost function Grid(start: Time, end: Time, step: Time): set<Time>
    requires step > 0
  {
    set t: Time | start <= t <= end && t % step == 0
  }

  function Max(a: int, b: int): int {
    if a < b then b else a
  }

  function Min(a: int, b: int): int {
    if a < b then a else b
  }

  /** Neighbours are `step` apart. */
  ghost predicate Spaced(times: seq<Time>, step: Time) {
    forall i | 0 <= i < |times| - 1 :: times[i + 1] == times[i] + step
  }

  /** list.reverse. */
  function Reverse(s: seq<Time>): (r: seq<Time>)
    ensures |r| == |s| && forall i | 0 <= i < |s| :: r[i] == s[|s| - 1 - i]
  {
    if s == [] then [] else Reverse(s[1..]) + [s[0]]
  }

  /** Between a grid point and the one before it there is none. */
  lemma NextGridPoint(t: Time, u: Time, step: Time)
    requires step == HOUR || step == DAY
    requires t % step == 0 && u % step == 0 && t - step < u <= t
    ensures u == t
  {
    if step == HOUR {} else {}
  }

  lemma PreviousIsOnGrid(t: Time, step: Time)
    requires step == HOUR || step == DAY
    requires t % step == 0
    ensures (t - step) % step == 0
  {
    if step == HOUR {} else {}
  }

  /** The loop: all grid points from `last` down to `start`. */
  method Backwards(start: Time, last: Time, step: Time) returns (times: seq<Time>)
    requires (step == HOUR || step == DAY) && last % step == 0
    ensures forall t :: t in times <==> start <= t <= last && t % step == 0
    ensures forall i | 0 <= i < |times| - 1 :: times[i + 1] == times[i] - step
    ensures times != [] ==> times[0] == last
    ensures last - |times| * step < start && (times != [] ==> start <= last - (|times| - 1) * step)
  {
    times := [];
    var current := last;
    while current >= start
      invariant current % step == 0 && current == last - |times| * step
      invariant forall t :: t in times <==> current < t <= last && t % step == 0
      invariant forall t | t in times :: start <= t
      invariant forall i | 0 <= i < |times| - 1 :: times[i + 1] == times[i] - step
      invariant times != [] ==> times[0] == last && times[|times| - 1] == current + step && start <= current + step
      decreases current - start + step
    {
      ghost var before := times;
      times := times + [current];
      PreviousIsOnGrid(current, step);
      forall t ensures t in times <==> current - step < t <= last && t % step == 0 {
        if current - step < t <= current && t % step == 0 {
          NextGridPoint(current, t, step);
        }
      }
      current := current - step;
      assert |times| * step == |before| * step + step;
    }
  }

  lemma {:induction false} Descending(times: seq<Time>, step: Time, i: nat, j: nat)
    requires step > 0 && (forall k | 0 <= k < |times| - 1 :: times[k + 1] == times[k] - step) && i < j < |times|
    ensures times[j] < times[i]
    decreases j
  {
    if j > i + 1 {
      Descending(times, step, i, j - 1);
    }
    assert times[j - 1 + 1] == times[j - 1] - step;
  }

  /** A list whose neighbours are a step apart has as many elements as members. */
  lemma DescendingSize(times: seq<Time>, step: Time)
    requires step > 0 && forall i | 0 <= i < |times| - 1 :: times[i + 1] == times[i] - step
    ensures |set t | t in times| == |times|
  {
    forall i, j | 0 <= i < j < |times| ensures times[i] != times[j] { Descending(times, step, i, j); }
    SetSize(times);
  }

  /** Raising the start of the range never adds grid points. */
  lemma SmallerGrid(start: Time, start': Time, last: Time, step: Time)
    requires step > 0 && start' <= start
    ensures |Grid(start, last, step)| <= |Grid(start', last, step)|
  {
    var small, large := Grid(start, last, step), Grid(start', last, step);
    assert large == small + (large - small);
  }

  /** How many points the loop finds, when min_length has moved the start. */
  lemma LengthOf(start: Time, last: Time, step: Time, minLength: Option<int>, n: nat)
    requires step > 0
    requires var start' := if minLength.Some? then Min(start, last - (minLength.value - 1) * step) else start;
             && last - n * step < start' && (n > 0 ==> start' <= last - (n - 1) * step)
             && n == |Grid(start', last, step)|
    ensures n == if minLength.Some? then Max(minLength.value, |Grid(start, last, step)|) else |Grid(start, last, step)|
  {
    if minLength.Some? {
      var m := minLength.value;
      var padded := last - (m - 1) * step;
      if padded < start {
        SmallerGrid(start, padded, last, step);
        Compare(n, m, step);
        if n > 0 { Compare(m, n, step); }
        if n == 0 { Compare(1, m, step); }
      } else {
        Compare(n, m, step);
      }
    }
  }

  /** Multiples of the step are ordered as their factors. */
  lemma Compare(a: int, b: int, step: Time)
    requires step > 0
    ensures a * step > (b - 1) * step <==> a >= b
    ensures (a - 1) * step >= (b - 1) * step <==> a >= b
  {
    if a >= b {
      assert (a - b) * step >= 0;
      assert a * step == (b - 1) * step + (a - b) * step + step;
      assert (a - 1) * step == (b - 1) * step + (a - b) * step;
    } else {
      assert (b - 1 - a) * step >= 0;
      assert (b - 1) * step == a * step + (b - 1 - a) * step;
      assert (a - 1) * step == a * step - step;
    }
  }

  /** time_range; None for an unknown frequency. The result is the ascending grid that ends at
      floor(end), as long as both min_length and the grid points from `start` on ask for. */
  method TimeRange(start: Time, end: Time, frequency: string,
                   minLength: Option<int>) returns (result: Option<seq<Time>>)
    ensures result.None? <==> frequency != "hour" && frequency != "day"
    ensures result.Some? ==>
              var step, times := if frequency == "hour" then 3_600_000_000 else 86_400_000_000, result.value;
              var last := end - end % step; var asked := |Grid(start, last, step)|;
              && Spaced(times, step) && (times != [] ==> times[|times| - 1] == last)
              && |times| == (if minLength.Some? then Max(minLength.value, asked) else asked)
              && (minLength.None? ==> forall t :: t in times <==> start <= t <= last && t % step == 0)
  {
    if StepOf(frequency).None? {
      return None;
    }
    var step := StepOf(frequency).value;
    hide Grid, Spaced, Floor, Max, Min;
    var last := Floor(step, end);
    FloorIsOnGrid(end, step);
    var from := if minLength.Some? then Min(start, last - (minLength.value - 1) * step) else start;
    var times := Backwards(from, last, step);
    DescendingSize(times, step);
    MembersAreGrid(times, from, last, step);
    LengthOf(start, last, step, minLength, |times|);
    ReverseAscends(times, step);
    result := Some(Reverse(times));
  }

  lemma MembersAreGrid(times: seq<Time>, start: Time, last: Time, step: Time)
    requires step > 0 && forall t :: t in times <==> start <= t <= last && t % step == 0
    ensures (set t | t in times) == Grid(start, last, step)
  {}

  /** Reversing a descending list keeps its members. */
  lemma ReverseAscends(times: seq<Time>, step: Time)
    requires forall i | 0 <= i < |times| - 1 :: times[i + 1] == times[i] - step
    ensures Spaced(Reverse(times), step)
    ensures forall t :: t in times <==> t in Reverse(times)
    ensures times != [] ==> Reverse(times)[|times| - 1] == times[0]
  {
    var r := Reverse(times);
    forall i | 0 <= i < |times| - 1 ensures r[i + 1] == r[i] + step {
      var k := |times| - 2 - i;
      assert r[i + 1] == times[k] && r[i] == times[k + 1];
    }
    forall t | t in times ensures t in r {
      var i :| 0 <= i < |times| && times[i] == t;
      assert r[|times| - 1 - i] == t;
    }
  }

  lemma FloorIsOnGrid(t: Time, step: Time)
    requires step == HOUR || step == DAY
    ensures Floor(step, t) == t - t % step && Floor(step, t) % step == 0 && Floor(step, t) <= t < Floor(step, t) + step
  {
    if step == HOUR {} else {}
  }

  /** Different grid points are at least a step apart. */
  lemma FarApart(t: Time, u: Time, step: Time)
    requires (step == HOUR || step == DAY) && t % step == 0 && u % step == 0 && t < u
    ensures t + step <= u
  {
    if step == HOUR {} else {}
  }

  lemma GridAround(t: Time, start: Time, end: Time, step: Time)
    requires (step == HOUR || step == DAY) && t % step == 0
    ensures t <= end <==> t <= Floor(step, end)
    ensures start <= t <==> CeilingTo(step, start) <= t
  {
    var last, first := Floor(step, end), Floor(step, start);
    FloorIsOnGrid(end, step);
    FloorIsOnGrid(start, step);
    hide Floor;
    if last < t { FarApart(last, t, step); }
    if first < t { FarApart(first, t, step); }
  }

  lemma CeilingIsOnGrid(t: Time, step: Time)
    requires step == HOUR || step == DAY
    ensures CeilingTo(step, t) % step == 0 && t <= CeilingTo(step, t)
  {
    FloorIsOnGrid(t, step);
    hide Floor;
    if step == HOUR {} else {}
  }

  /** The documented form: without min_length, the end times from ceiling(start) to floor(end),
      both included, and none when they have crossed. */
  lemma FromCeilingToFloor(start: Time, end: Time, step: Time)
    requires step == HOUR || step == DAY
    ensures var first, last := CeilingTo(step, start), Floor(step, end);
            && (forall t :: t in Grid(start, last, step) <==> first <= t <= last && t % step == 0)
            && (first <= last ==> first in Grid(start, last, step) && last in Grid(start, last, step))
  {
    hide CeilingTo;
    hide Floor;
    FloorIsOnGrid(end, step);
    CeilingIsOnGrid(start, step);
    var first := CeilingTo(step, start);
    forall t | t % step == 0 ensures start <= t <==> first <= t { GridAround(t, start, end, step); }
  }
}
