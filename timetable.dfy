/** The departure times produced by a counting loop
    `for (t = start; t < end; t += step)`: the half-open window
    [start, end) sampled every `step` seconds. */
module Timetable {

  /** The ticks of the window [start, end) stepped by `step`, in the order the loop visits them. */
  function Ticks(start: int, end: int, step: int): (ts: seq<int>)
    requires step > 0
    decreases end - start
  {
    if start < end then [start] + Ticks(start + step, end, step) else []
  }

  /** The k-th tick is start + k * step. */
  lemma {:induction false} TicksAt(start: int, end: int, step: int, k: nat)
    requires step > 0
    requires k < |Ticks(start, end, step)|
    ensures Ticks(start, end, step)[k] == start + k * step
    decreases end - start
  {
    if k > 0 {
      TicksAt(start + step, end, step, k - 1);
      assert start + step + (k - 1) * step == start + k * step;
    }
  }

  /** Every tick lies in the half-open window. */
  lemma {:induction false} TicksInWindow(start: int, end: int, step: int)
    requires step > 0
    ensures forall t :: t in Ticks(start, end, step) ==> start <= t < end
    decreases end - start
  {
    if start < end {
      TicksInWindow(start + step, end, step);
    }
  }

  /** Ticks are strictly ascending in visiting order. */
  lemma {:induction false} TicksStrictlyAscending(start: int, end: int, step: int)
    requires step > 0
    ensures forall j, k :: 0 <= j < k < |Ticks(start, end, step)| ==>
              Ticks(start, end, step)[j] < Ticks(start, end, step)[k]
    decreases end - start
  {
    if start < end {
      var ts := Ticks(start, end, step);
      var rest := Ticks(start + step, end, step);
      TicksStrictlyAscending(start + step, end, step);
      TicksInWindow(start + step, end, step);
      forall j, k | 0 <= j < k < |ts| ensures ts[j] < ts[k] {
        assert ts[k] == rest[k - 1];
        if j > 0 {
          assert ts[j] == rest[j - 1];
        } else {
          assert rest[k - 1] in rest;
        }
      }
    }
  }

  /** The number of ticks is the least n with start + n * step >= end, i.e. the
      ceiling of (end - start) / step for a non-empty window, and zero otherwise. */
  lemma {:induction false} TicksCount(start: int, end: int, step: int)
    requires step > 0
    ensures start >= end <==> |Ticks(start, end, step)| == 0
    ensures start < end ==>
              start + (|Ticks(start, end, step)| - 1) * step < end <= start + |Ticks(start, end, step)| * step
    decreases end - start
  {
    if start < end {
      var n := |Ticks(start, end, step)|;
      TicksCount(start + step, end, step);
      assert n == |Ticks(start + step, end, step)| + 1;
      assert start + step + (n - 1) * step == start + n * step;
      assert start + step + (n - 2) * step == start + (n - 1) * step;
    }
  }

  /** A time is a tick exactly when it lies in the window and is a whole number of steps after start. */
  lemma {:induction false} TicksMembership(start: int, end: int, step: int, t: int)
    requires step > 0
    ensures t in Ticks(start, end, step) <==> start <= t < end && (t - start) % step == 0
    decreases end - start
  {
    if start < end {
      TicksMembership(start + step, end, step, t);
      if t >= start + step {
        assert (t - start) % step == (t - (start + step)) % step by {
          ShiftMod(t - start - step, step);
        }
      } else if start < t {
        assert 0 < t - start < step;
        assert (t - start) % step != 0;
      }
    } else {
      assert Ticks(start, end, step) == [];
    }
  }

  /** Adding one step does not change the remainder. */
  lemma ShiftMod(a: int, step: int)
    requires step > 0
    ensures (a + step) % step == a % step
  {
    var q, r := a / step, a % step;
    var q', r' := (a + step) / step, (a + step) % step;
    var d := q' - q - 1;
    assert d * step == q' * step - (q + 1) * step == r - r';
  }

  /** The shuttle's service window 09:00 to 13:00 in 5-minute steps: 48 departures,
      the first at 32400 s, the last at 46500 s; 46800 s itself is excluded. */
  lemma ShuttleTicks()
    ensures |Ticks(9 * 3600, 13 * 3600, 300)| == 48
    ensures Ticks(9 * 3600, 13 * 3600, 300)[0] == 32400
    ensures Ticks(9 * 3600, 13 * 3600, 300)[47] == 46500
    ensures 46800 !in Ticks(9 * 3600, 13 * 3600, 300)
  {
    TicksCount(32400, 46800, 300);
    var n := |Ticks(32400, 46800, 300)|;
    assert (n - 1) * 300 < 14400 <= n * 300;
    TicksAt(32400, 46800, 300, 0);
    TicksAt(32400, 46800, 300, 47);
    TicksInWindow(32400, 46800, 300);
  }
}
