/** Moving windows: the ring buffer kept in indicator state, and the raw form that reads the
    bar series directly. Both fold the same values in the same order. */
module StrategyWindows {
  import opened StrategyProgram
  import opened Modulo

  /** The float functions the aggregates call, taken as given. */
  datatype Maths = Maths(value: nat -> real, sqrt: real -> real, log: real -> real)

  /** Conversion to an integer truncates toward zero. */
  function Trunc(x: real): int {
    if x >= 0.0 then x.Floor else -(-x).Floor
  }

  function Clamp(n: int, lo: int, hi: int): (r: int)
    requires lo <= hi
    ensures lo <= r <= hi
  {
    if n < lo then lo else if n > hi then hi else n
  }

  // ---- aggregates over a window ------------------------------------------------------------------

  function Sum(xs: seq<real>): real {
    if xs == [] then 0.0 else Sum(xs[..|xs| - 1]) + xs[|xs| - 1]
  }

  function SquaredDiffs(xs: seq<real>, mean: real): real {
    if xs == [] then 0.0
    else SquaredDiffs(xs[..|xs| - 1], mean) + (xs[|xs| - 1] - mean) * (xs[|xs| - 1] - mean)
  }

  /** The first of the values no later value exceeds (falls below). */
  function Extreme(xs: seq<real>, highest: bool): real
    requires xs != []
  {
    var last := xs[|xs| - 1];
    if |xs| == 1 then last
    else
      var acc := Extreme(xs[..|xs| - 1], highest);
      if highest then if last > acc then last else acc else if last < acc then last else acc
  }

  function Aggregate(w: Window, xs: seq<real>, sqrt: real -> real): real
    requires xs != []
  {
    var k := |xs| as real;
    match w
    case Sma => Sum(xs) / k
    case Highest => Extreme(xs, true)
    case Lowest => Extreme(xs, false)
    case Stddev =>
      var variance := SquaredDiffs(xs, Sum(xs) / k) / k;
      if variance > 0.0 then sqrt(variance) else 0.0
  }

  /** The maximum and minimum really are: one of the values, and none is beyond it. */
  lemma {:induction false} ExtremeIsExtreme(xs: seq<real>, highest: bool)
    requires xs != []
    ensures Extreme(xs, highest) in xs
    ensures forall x :: x in xs ==> if highest then x <= Extreme(xs, highest) else Extreme(xs, highest) <= x
  {
    if |xs| > 1 {
      var n := |xs| - 1;
      ExtremeIsExtreme(xs[..n], highest);
      assert xs == xs[..n] + [xs[n]];
    }
  }

  // ---- the ring --------------------------------------------------------------------------------------

  /** Element `i` of the values pushed so far lives at this position of the state block. */
  function RingIndex(i: nat, cap: nat): (k: nat)
    requires cap > 0
    ensures 1 <= k <= cap
  {
    1 + i % cap
  }

  /** Count and buffer after one more value. */
  function RingPush(st: seq<real>, cap: nat, x: real): seq<real>
    requires 0 < cap && |st| == 1 + cap && Trunc(st[0]) >= 0
  {
    var count := Trunc(st[0]);
    st[RingIndex(count, cap) := x][0 := (count + 1) as real]
  }

  /** The last `k` values pushed. */
  function RingWindow(st: seq<real>, cap: nat, k: nat): seq<real>
    requires 0 < cap && |st| == 1 + cap && k <= Trunc(st[0])
  {
    seq(k, i requires 0 <= i < k => st[RingIndex(Trunc(st[0]) - k + i, cap)])
  }

  /** The state of a ring into which all of these values were pushed, one a bar. */
  ghost predicate Pushed(st: seq<real>, cap: nat, xs: seq<real>) {
    && 0 < cap && |st| == 1 + cap && st[0] == |xs| as real
    && forall i :: 0 <= i < |xs| && |xs| - cap <= i ==> st[RingIndex(i, cap)] == xs[i]
  }

  lemma PushedPush(st: seq<real>, cap: nat, xs: seq<real>, x: real)
    requires Pushed(st, cap, xs)
    ensures Pushed(RingPush(st, cap, x), cap, xs + [x])
  {
    var st', ys := RingPush(st, cap, x), xs + [x];
    forall i | 0 <= i < |ys| && |ys| - cap <= i ensures st'[RingIndex(i, cap)] == ys[i] {
      if i < |xs| { NoSharedPosition(i, |xs|, cap); }
    }
  }

  lemma WindowOfPushed(st: seq<real>, cap: nat, xs: seq<real>, k: nat)
    requires Pushed(st, cap, xs) && k <= cap && k <= |xs|
    ensures Trunc(st[0]) == |xs| && RingWindow(st, cap, k) == xs[|xs| - k..]
  {
    var n := |xs|;
    assert Trunc(n as real) == n;
    forall i | 0 <= i < k ensures RingWindow(st, cap, k)[i] == xs[|xs| - k..][i] {
      assert RingWindow(st, cap, k)[i] == st[RingIndex(n - k + i, cap)];
      assert st[RingIndex(|xs| - k + i, cap)] == xs[|xs| - k + i];
    }
  }

  // ---- ring form and raw form ---------------------------------------------------------------------------

  function Lagged(s: seq<real>, j: int, lag: nat): real
    requires s != [] && j < |s|
  {
    s[if j - lag > 0 then j - lag else 0]
  }

  /** Window length a moving aggregate uses once `count` values are there. */
  function Length(n: real, cap: nat, count: nat): (k: nat)
    requires 0 < cap && 0 < count
    ensures 0 < k <= cap && k <= count
  {
    var want := Clamp(Trunc(n), 1, cap);
    if count < want then count else want
  }

  function RawWindow(s: seq<real>, t: nat, lag: nat, k: nat): seq<real>
    requires t < |s| && k <= t + 1
  {
    seq(k, i requires 0 <= i < k => Lagged(s, t - k + 1 + i, lag))
  }

  /** How far back a delay reaches. */
  function Back(n: real, cap: nat, count: nat): (b: nat)
    requires 0 < cap && 0 < count
    ensures b < cap && b < count
  {
    var want := Clamp(Trunc(n), 0, cap - 1);
    var avail := if count < cap then count else cap;
    if want < avail - 1 then want else avail - 1
  }

  /** The lagged series, bar by bar. */
  function Series(s: seq<real>, t: nat, lag: nat): seq<real>
    requires t <= |s| && s != []
  {
    seq(t, j requires 0 <= j < t => Lagged(s, j, lag))
  }

  lemma SeriesNext(s: seq<real>, t: nat, lag: nat)
    requires t < |s|
    ensures Series(s, t + 1, lag) == Series(s, t, lag) + [Lagged(s, t, lag)]
  {}

  lemma RawIsSeries(s: seq<real>, t: nat, lag: nat, k: nat)
    requires t < |s| && k <= t + 1
    ensures RawWindow(s, t, lag, k) == Series(s, t + 1, lag)[t + 1 - k..]
  {}

  /** A ring operator that ran once per bar since bar 0 on a lagged series gives at every bar
      what its raw form reads from the series: the same values, folded in the same order. */
  lemma RingIsRaw(w: Window, st: seq<real>, cap: nat, s: seq<real>, t: nat, lag: nat, n: real, sqrt: real -> real)
    requires t < |s| && Pushed(st, cap, Series(s, t, lag))
    ensures var st' := RingPush(st, cap, Lagged(s, t, lag));
      && Pushed(st', cap, Series(s, t + 1, lag))
      && RingWindow(st', cap, Length(n, cap, t + 1)) == RawWindow(s, t, lag, Length(n, cap, t + 1))
      && Aggregate(w, RingWindow(st', cap, Length(n, cap, t + 1)), sqrt)
         == Aggregate(w, RawWindow(s, t, lag, Length(n, cap, t + 1)), sqrt)
  {
    var xs, k := Series(s, t + 1, lag), Length(n, cap, t + 1);
    var st' := RingPush(st, cap, Lagged(s, t, lag));
    SeriesNext(s, t, lag);
    PushedPush(st, cap, Series(s, t, lag), Lagged(s, t, lag));
    hide RingPush, Aggregate, Length, Pushed, RingWindow, RawWindow, Lagged;
    assert |xs| == t + 1;
    WindowOfPushed(st', cap, xs, k);
    RawIsSeries(s, t, lag, k);
    hide Series;
  }

  /** The same for a delay: one value that many bars back. */
  lemma DelayIsRaw(st: seq<real>, cap: nat, s: seq<real>, t: nat, lag: nat, n: real)
    requires t < |s| && Pushed(st, cap, Series(s, t, lag))
    ensures var st' := RingPush(st, cap, Lagged(s, t, lag));
      var back := Back(n, cap, t + 1);
      && Pushed(st', cap, Series(s, t + 1, lag))
      && st'[RingIndex(t - back, cap)] == Lagged(s, t - back, lag)
  {
    SeriesNext(s, t, lag);
    PushedPush(st, cap, Series(s, t, lag), Lagged(s, t, lag));
    assert Series(s, t + 1, lag)[t - Back(n, cap, t + 1)] == Lagged(s, t - Back(n, cap, t + 1), lag);
  }

  /** The state of a ring fed one lagged bar at a time since bar 0. */
  ghost function RingAfter(cap: nat, s: seq<real>, t: nat, lag: nat): (st: seq<real>)
    requires 0 < cap && t <= |s| && s != []
    ensures Pushed(st, cap, Series(s, t, lag))
  {
    if t == 0 then seq(1 + cap, _ => 0.0)
    else
      var st := RingAfter(cap, s, t - 1, lag);
      SeriesNext(s, t - 1, lag);
      PushedPush(st, cap, Series(s, t - 1, lag), Lagged(s, t - 1, lag));
      RingPush(st, cap, Lagged(s, t - 1, lag))
  }

  /** At every bar, for every capacity, window and lag, both forms of every aggregate agree. */
  lemma EveryBarAgrees(w: Window, cap: nat, s: seq<real>, t: nat, lag: nat, n: real, sqrt: real -> real)
    requires 0 < cap && t < |s|
    ensures var st := RingAfter(cap, s, t + 1, lag);
      var k := Length(n, cap, t + 1);
      && Trunc(st[0]) == t + 1 && RingWindow(st, cap, k) == RawWindow(s, t, lag, k)
      && Aggregate(w, RingWindow(st, cap, k), sqrt) == Aggregate(w, RawWindow(s, t, lag, k), sqrt)
      && st[RingIndex(t - Back(n, cap, t + 1), cap)] == Lagged(s, t - Back(n, cap, t + 1), lag)
  {
    hide Aggregate, RingPush, RingWindow, RawWindow, Length, Back;
    RingIsRaw(w, RingAfter(cap, s, t, lag), cap, s, t, lag, n, sqrt);
    DelayIsRaw(RingAfter(cap, s, t, lag), cap, s, t, lag, n);
    WindowOfPushed(RingAfter(cap, s, t + 1, lag), cap, Series(s, t + 1, lag), 0);
  }
}
