/**
  The arithmetic both sliders share (src/components/slider.ts and
  src/lib/slider.ts): clamping, the percentage the progress bar shows,
  `Math.round` and the snapping of a dragged offset to the step. Numbers
  are reals: JavaScript's floating point is not modelled.
*/
module Ranges {

  /** `constrain(value, min, max)`: `value` pulled into [lo, hi]. */
  function Constrain(value: real, lo: real, hi: real): (r: real)
    requires lo <= hi
    ensures lo <= r <= hi
    ensures lo <= value <= hi ==> r == value
    ensures value < lo ==> r == lo
    ensures value > hi ==> r == hi
  {
    if value < lo then lo else if value > hi then hi else value
  }

  /**
    `getPercent`: 0 at the minimum, otherwise the value's position between
    min and max as a percentage clamped to [0, 100]. When max equals min
    the division gives an infinity of the value's sign, which the clamp
    turns into 100 above the minimum and 0 below it.
  */
  function Percent(value: real, min: real, max: real): (r: real)
    ensures 0.0 <= r <= 100.0
    ensures value == min ==> r == 0.0
    ensures max == min && value > min ==> r == 100.0
    ensures max == min && value < min ==> r == 0.0
  {
    if value == min then 0.0
    else if max == min then (if value > min then 100.0 else 0.0)
    else Constrain((value - min) / (max - min) * 100.0, 0.0, 100.0)
  }

  /** Division by a positive number keeps order. */
  lemma DivMonotone(a: real, b: real, d: real)
    requires d > 0.0 && a <= b
    ensures a / d <= b / d
  {
    var qa, qb := a / d, b / d;
    assert qa * d == a && qb * d == b;
    if qa > qb {
      MulLess(qb, qa, d);
    }
  }

  /** Multiplying by a positive number keeps strict order. */
  lemma MulLess(x: real, y: real, c: real)
    requires x < y && c > 0.0
    ensures x * c < y * c
  {
    assert y * c - x * c == (y - x) * c;
  }

  /**
    Over a proper range [min, max] the percentage is the value's share of
    the range; below the range it is 0 and above it 100.
  */
  lemma PercentOfRange(value: real, min: real, max: real)
    requires min < max
    ensures min <= value <= max ==> Percent(value, min, max) == (value - min) / (max - min) * 100.0
    ensures value >= max ==> Percent(value, min, max) == 100.0
    ensures value <= min ==> Percent(value, min, max) == 0.0
  {
    var d := max - min;
    var q := (value - min) / d;
    DivMonotone(0.0, d, d);
    assert d / d == 1.0;
    assert 0.0 / d == 0.0;
    if min <= value <= max {
      DivMonotone(0.0, value - min, d);
      DivMonotone(value - min, d, d);
    } else if value > max {
      DivMonotone(d, value - min, d);
    } else {
      DivMonotone(value - min, 0.0, d);
    }
  }

  /** The progress bar never moves backwards when the value grows. */
  lemma {:induction false} PercentMonotone(v1: real, v2: real, min: real, max: real)
    requires min < max && v1 <= v2
    ensures Percent(v1, min, max) <= Percent(v2, min, max)
  {
    PercentOfRange(v1, min, max);
    PercentOfRange(v2, min, max);
    if min < v1 && v2 < max {
      DivMonotone(v1 - min, v2 - min, max - min);
    }
  }

  /** `Math.round`: the nearest integer, halves rounded up. */
  function RoundHalfUp(x: real): (k: int)
    ensures x - 0.5 < k as real <= x + 0.5
  {
    (x + 0.5).Floor
  }

  /** `Math.round(diff / step) * step`. */
  function Snap(diff: real, step: real): real
    requires step != 0.0
  {
    RoundHalfUp(diff / step) as real * step
  }

  /** Snapping moves an offset by at most half a step, and keeps a multiple of the step. */
  lemma SnapWithinHalfStep(diff: real, step: real)
    requires step > 0.0
    ensures diff - step / 2.0 < Snap(diff, step) <= diff + step / 2.0
    ensures diff == (diff / step).Floor as real * step ==> Snap(diff, step) == diff
  {
    var q := diff / step;
    var k := RoundHalfUp(q) as real;
    assert Snap(diff, step) == k * step;
    assert diff == q * step;
    WithinHalf(diff, q, k, step);
    var f := q.Floor as real;
    if diff == f * step {
      Cancel(q, f, step);
      assert RoundHalfUp(q) == q.Floor;
    }
  }

  /** A positive factor cancels. */
  lemma Cancel(a: real, b: real, c: real)
    requires a * c == b * c && c > 0.0
    ensures a == b
  {
    if a < b {
      MulLess(a, b, c);
    } else if b < a {
      MulLess(b, a, c);
    }
  }

  /** A number within half of `q` scales to one within half a step of `q * step`. */
  lemma WithinHalf(diff: real, q: real, k: real, step: real)
    requires diff == q * step && q - 0.5 < k <= q + 0.5 && step > 0.0
    ensures diff - step / 2.0 < k * step <= diff + step / 2.0
  {
    var e := k - q;
    var es := e * step;
    Distributes(q, e, step);
    assert k * step == diff + es;
    MulLess(-0.5, e, step);
    assert -0.5 * step == -(step / 2.0);
    assert -(step / 2.0) < es;
    assert 0.5 * step == step / 2.0;
    if e < 0.5 {
      MulLess(e, 0.5, step);
    } else {
      assert e == 0.5;
      assert es == 0.5 * step;
    }
  }

  lemma Distributes(a: real, b: real, c: real)
    ensures (a + b) * c == a * c + b * c
  {
  }

  /** The groove's bounding rectangle. */
  datatype Rect = Rect(left: real, top: real, width: real, height: real)

  /**
    The drag rate of a mouse position: its share of the groove, from the
    left edge, or from the bottom when vertical, clamped to [0, 1].
  */
  function Rate(vertical: bool, clientX: real, clientY: real, rect: Rect): (r: real)
    requires vertical ==> rect.height > 0.0
    requires !vertical ==> rect.width > 0.0
    ensures 0.0 <= r <= 1.0
  {
    if vertical then Constrain(1.0 - (clientY - rect.top) / rect.height, 0.0, 1.0)
    else Constrain((clientX - rect.left) / rect.width, 0.0, 1.0)
  }

  /**
    A position at or before the groove's start gives rate 0, one at or past
    its end gives rate 1 (the start is the left edge, or the bottom edge
    when vertical).
  */
  lemma RateAtEdges(vertical: bool, clientX: real, clientY: real, rect: Rect)
    requires vertical ==> rect.height > 0.0
    requires !vertical ==> rect.width > 0.0
    ensures !vertical && clientX <= rect.left ==> Rate(vertical, clientX, clientY, rect) == 0.0
    ensures !vertical && clientX >= rect.left + rect.width ==> Rate(vertical, clientX, clientY, rect) == 1.0
    ensures vertical && clientY >= rect.top + rect.height ==> Rate(vertical, clientX, clientY, rect) == 0.0
    ensures vertical && clientY <= rect.top ==> Rate(vertical, clientX, clientY, rect) == 1.0
  {
    if !vertical && clientX >= rect.left + rect.width {
      DivMonotone(rect.width, clientX - rect.left, rect.width);
      assert rect.width / rect.width == 1.0;
    }
    if vertical && clientY >= rect.top + rect.height {
      DivMonotone(rect.height, clientY - rect.top, rect.height);
      assert rect.height / rect.height == 1.0;
    }
    if !vertical && clientX <= rect.left {
      DivMonotone(clientX - rect.left, 0.0, rect.width);
    }
    if vertical && clientY <= rect.top {
      DivMonotone(clientY - rect.top, 0.0, rect.height);
    }
  }

  /** The value a drag at `rate` sets, before any decimal rounding. */
  function DragValue(min: real, max: real, step: real, rate: real): real
  {
    var diff := (max - min) * rate;
    min + (if step != 0.0 then Snap(diff, step) else diff)
  }

  /** Without a step a drag lands exactly on its share of [min, max]. */
  lemma DragWithoutStep(min: real, max: real, rate: real)
    requires min <= max && 0.0 <= rate <= 1.0
    ensures DragValue(min, max, 0.0, rate) == min + (max - min) * rate
    ensures min <= DragValue(min, max, 0.0, rate) <= max
  {
    DragShare(min, max, rate);
  }

  /**
    With a positive step a drag lands within half a step of its share, so
    the slider can end up to half a step beyond either end of the range
    when the range is not a multiple of the step.
  */
  lemma DragWithStep(min: real, max: real, step: real, rate: real)
    requires min <= max && 0.0 <= rate <= 1.0 && step > 0.0
    ensures min - step / 2.0 < DragValue(min, max, step, rate) <= max + step / 2.0
  {
    var diff := (max - min) * rate;
    DragShare(min, max, rate);
    DragValueSnapped(min, max, step, rate);
    SnapWithinHalfStep(diff, step);
    WithinReach(min, max, diff, Snap(diff, step), step / 2.0);
  }

  /** The share of [min, max] a rate in [0, 1] selects lies within its width. */
  lemma DragShare(min: real, max: real, rate: real)
    requires min <= max && 0.0 <= rate <= 1.0
    ensures 0.0 <= (max - min) * rate <= max - min
  {
    ShareOfRange(max - min, rate);
  }

  /** With a step, the drag value is `min` plus the snapped share. */
  lemma DragValueSnapped(min: real, max: real, step: real, rate: real)
    requires step != 0.0
    ensures DragValue(min, max, step, rate) == min + Snap((max - min) * rate, step)
  {
  }

  lemma WithinReach(min: real, max: real, diff: real, snapped: real, half: real)
    requires 0.0 <= diff <= max - min && diff - half < snapped <= diff + half
    ensures min - half < min + snapped <= max + half
  {
  }

  /** A drag at the groove's start always gives the minimum. */
  lemma DragAtStart(min: real, max: real, step: real)
    ensures DragValue(min, max, step, 0.0) == min
  {
    assert (max - min) * 0.0 == 0.0;
    if step != 0.0 {
      SnapOfZero(step);
    }
  }

  lemma SnapOfZero(step: real)
    requires step != 0.0
    ensures Snap(0.0, step) == 0.0
  {
    assert 0.0 / step == 0.0;
    assert RoundHalfUp(0.0) == 0;
  }

  lemma ShareOfRange(width: real, rate: real)
    requires width >= 0.0 && 0.0 <= rate <= 1.0
    ensures 0.0 <= width * rate <= width
    ensures width * 0.0 == 0.0
  {
    if width > 0.0 {
      if rate < 1.0 {
        MulLess(rate, 1.0, width);
      }
      if rate > 0.0 {
        MulLess(0.0, rate, width);
      }
    }
  }
}
