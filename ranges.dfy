/** Python's `range(start, stop, step)` over integers. */
module Ranges {

  /** The values `range(start, stop, step)` produces, in order.  A zero step
      makes Python raise `ValueError`, so callers check it first. */
  function Range(start: int, stop: int, step: int): seq<int>
    requires step != 0
    decreases if step > 0 then stop - start else start - stop
  {
    if (step > 0 && start < stop) || (step < 0 && start > stop) then
      [start] + Range(start + step, stop, step)
    else
      []
  }

  /** The `k`-th value is `start + k * step`. */
  lemma {:induction false} RangeIndex(start: int, stop: int, step: int, k: nat)
    requires step != 0 && k < |Range(start, stop, step)|
    ensures Range(start, stop, step)[k] == start + k * step
    decreases k
  {
    if k > 0 {
      RangeIndex(start + step, stop, step, k - 1);
      assert (k - 1) * step + step == k * step;
    }
  }

  /** With a positive step there are `n` values exactly when the `n`-th step
      reaches `stop` and the one before it does not. */
  lemma {:induction false} RangeLength(start: int, stop: int, step: int)
    requires step > 0
    ensures |Range(start, stop, step)| == 0 <==> stop <= start
    ensures var n := |Range(start, stop, step)|;
      n > 0 ==> start + (n - 1) * step < stop <= start + n * step
    decreases stop - start
  {
    if start < stop {
      RangeLength(start + step, stop, step);
      var n' := |Range(start + step, stop, step)|;
      assert (n' + 1) * step == n' * step + step;
    }
  }

  /** Euclidean division is unique. */
  lemma DivModUnique(n: int, s: int, q: int, r: int)
    requires s > 0 && n == q * s + r && 0 <= r < s
    ensures n / s == q && n % s == r
  {
    var a, b := n / s, n % s;
    assert (a - q) * s == r - b;
    if a > q {
      MulAtLeast(a - q, s);
    } else if a < q {
      MulAtLeast(q - a, s);
    }
  }

  lemma MulAtLeast(x: int, s: int)
    requires x >= 1 && s > 0
    ensures x * s >= s
  {
  }

  /** With a positive step, `x` is produced exactly when it lies in
      `[start, stop)` and is a whole number of steps past `start`. */
  lemma {:induction false} RangeMember(start: int, stop: int, step: int, x: int)
    requires step > 0
    ensures x in Range(start, stop, step) <==> start <= x < stop && (x - start) % step == 0
    decreases stop - start
  {
    if start < stop {
      RangeMember(start + step, stop, step, x);
      var d := x - start;
      DivModUnique(d - step, step, d / step - 1, d % step);
      if 0 < d < step {
        DivModUnique(d, step, 0, d);
      }
    }
  }

  /** With a positive step, `range(start, stop + 1, step)` lies within
      `[start, stop]` and holds `stop` exactly when `stop` is a whole
      number of steps past `start`. */
  lemma InclusiveRangeBounds(start: int, stop: int, step: int)
    requires step > 0
    ensures var values := Range(start, stop + 1, step);
      (forall k :: 0 <= k < |values| ==> start <= values[k] <= stop) &&
      (stop in values <==> start <= stop && (stop - start) % step == 0)
  {
    var values := Range(start, stop + 1, step);
    forall k | 0 <= k < |values|
      ensures start <= values[k] <= stop
    {
      RangeMember(start, stop + 1, step, values[k]);
    }
    RangeMember(start, stop + 1, step, stop);
  }

  /** With a negative step every value lies in `(stop, start]`. */
  lemma {:induction false} RangeBoundsNegative(start: int, stop: int, step: int, x: int)
    requires step < 0
    requires x in Range(start, stop, step)
    ensures stop < x <= start
    decreases start - stop
  {
    if x != start {
      RangeBoundsNegative(start + step, stop, step, x);
    }
  }

  /** A range never repeats a value. */
  lemma {:induction false} RangeDistinct(start: int, stop: int, step: int)
    requires step != 0
    ensures forall i, j :: 0 <= i < j < |Range(start, stop, step)| ==>
      Range(start, stop, step)[i] != Range(start, stop, step)[j]
    decreases if step > 0 then stop - start else start - stop
  {
    var r := Range(start, stop, step);
    if r != [] {
      var tail := Range(start + step, stop, step);
      assert r == [start] + tail;
      RangeDistinct(start + step, stop, step);
      forall x | x in tail
        ensures x != start
      {
        if step > 0 {
          RangeMember(start + step, stop, step, x);
        } else {
          RangeBoundsNegative(start + step, stop, step, x);
        }
      }
      forall i, j | 0 <= i < j < |r|
        ensures r[i] != r[j]
      {
        assert r[j] == tail[j - 1] && tail[j - 1] in tail;
        if i > 0 {
          assert r[i] == tail[i - 1];
          assert tail[i - 1] != tail[j - 1];
        } else {
          assert r[i] == start;
          assert tail[j - 1] != start;
        }
      }
    }
  }
}
