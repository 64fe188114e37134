/**
  The `<f-slider>` component (src/components/slider.ts): arrow keys and the
  wheel step the value inside [min, max], a drag sets it from the mouse
  position, and 'change' is emitted only when the value really changes.
*/
module Sliders {
  import opened Wrappers
  import opened Ranges

  /**
    `toDecimal(x, 4)`: `x` rounded to four decimals, halves up. The
    library function is not part of this model; this is the rounding it
    names.
  */
  function ToDecimal4(x: real): (r: real)
    ensures x - 0.00005 < r <= x + 0.00005
  {
    RoundHalfUp(x * 10000.0) as real / 10000.0
  }

  /** A number with at most four decimals. */
  predicate FourDecimals(x: real)
  {
    (x * 10000.0).Floor as real == x * 10000.0
  }

  /** Rounding to four decimals keeps order, and leaves four-decimal numbers alone. */
  lemma ToDecimal4Monotone(x: real, y: real)
    requires x <= y
    ensures ToDecimal4(x) <= ToDecimal4(y)
  {
    assert RoundHalfUp(x * 10000.0) <= RoundHalfUp(y * 10000.0);
  }

  lemma ToDecimal4Keeps(x: real)
    requires FourDecimals(x)
    ensures ToDecimal4(x) == x
  {
    assert RoundHalfUp(x * 10000.0) == (x * 10000.0).Floor;
  }

  /** Up on a vertical slider, right on a horizontal one. */
  predicate StepsUp(vertical: bool, key: string)
  {
    (vertical && key == "ArrowUp") || (!vertical && key == "ArrowRight")
  }

  /** Down on a vertical slider, left on a horizontal one. */
  predicate StepsDown(vertical: bool, key: string)
  {
    (vertical && key == "ArrowDown") || (!vertical && key == "ArrowLeft")
  }

  /**
    The value an arrow key asks for: up (vertical) or right (horizontal)
    adds a step but not past max, down or left removes one but not below
    min; any other key asks for nothing.
  */
  function KeyTarget(vertical: bool, key: string, value: real, step: real, min: real, max: real): (r: Option<real>)
    ensures r.Some? <==> StepsUp(vertical, key) || StepsDown(vertical, key)
    ensures StepsUp(vertical, key) ==>
      r.value <= max && r.value <= value + step && (r.value == value + step || r.value == max)
    ensures StepsDown(vertical, key) ==>
      r.value >= min && r.value >= value - step && (r.value == value - step || r.value == min)
  {
    if vertical && key == "ArrowUp" then Some(if value + step < max then value + step else max)
    else if vertical && key == "ArrowDown" then Some(if value - step > min then value - step else min)
    else if !vertical && key == "ArrowLeft" then Some(if value - step > min then value - step else min)
    else if !vertical && key == "ArrowRight" then Some(if value + step < max then value + step else max)
    else None
  }

  /** Keys move the value by at most one step and never out of [min, max]. */
  lemma KeyTargetInRange(vertical: bool, key: string, value: real, step: real, min: real, max: real)
    requires min <= value <= max && step >= 0.0
    ensures var r := KeyTarget(vertical, key, value, step, min, max);
      r.Some? ==> min <= r.value <= max && value - step <= r.value <= value + step
  {
  }

  /** Whether a wheel turn steps up: up on a vertical slider, down on a horizontal one. */
  predicate WheelUp(vertical: bool, deltaY: real)
  {
    (deltaY < 0.0 && vertical) || (deltaY > 0.0 && !vertical)
  }

  /** The value a wheel turn asks for: one step clamped to the range, rounded to four decimals. */
  function WheelTarget(vertical: bool, deltaY: real, value: real, step: real, min: real, max: real): real
  {
    ToDecimal4(if WheelUp(vertical, deltaY) then (if value + step < max then value + step else max)
               else (if value - step > min then value - step else min))
  }

  /** With four-decimal bounds the wheel keeps the value in [min, max]. */
  lemma WheelTargetInRange(vertical: bool, deltaY: real, value: real, step: real, min: real, max: real)
    requires min <= value <= max && step >= 0.0 && FourDecimals(min) && FourDecimals(max)
    ensures min <= WheelTarget(vertical, deltaY, value, step, min, max) <= max
  {
    var c := if WheelUp(vertical, deltaY) then (if value + step < max then value + step else max)
             else (if value - step > min then value - step else min);
    ToDecimal4Monotone(min, c);
    ToDecimal4Monotone(c, max);
    ToDecimal4Keeps(min);
    ToDecimal4Keeps(max);
  }

  class Slider {
    var vertical: bool
    var min: real
    var max: real
    var step: real
    var value: real
    /** Whether the slider has the focus (`document.activeElement === this.el`). */
    var focused: bool
    /** The values emitted with 'change', oldest first. */
    var changes: seq<real>

    constructor()
      ensures !vertical && min == 0.0 && max == 100.0 && step == 1.0 && value == 0.0
      ensures !focused && changes == []
    {
      vertical := false;
      min := 0.0;
      max := 100.0;
      step := 1.0;
      value := 0.0;
      focused := false;
      changes := [];
    }

    /** The value lies in its range and the step is not negative. */
    predicate InRange()
      reads this
    {
      min <= value <= max && step >= 0.0
    }

    /** `getPercent`. */
    function GetPercent(): (r: real)
      reads this
      ensures 0.0 <= r <= 100.0
      ensures value == min ==> r == 0.0
    {
      Percent(value, min, max)
    }

    /** Sets the value and emits 'change', unless the value stays the same. */
    method SetValue(newValue: real)
      modifies this
      ensures value == newValue
      ensures changes == if newValue != old(value) then old(changes) + [newValue] else old(changes)
      ensures vertical == old(vertical) && min == old(min) && max == old(max) && step == old(step)
      ensures focused == old(focused)
    {
      if newValue != value {
        value := newValue;
        changes := changes + [newValue];
      }
    }

    /** `onKeyDown`: arrow keys step the value, Escape gives up the focus. */
    method OnKeyDown(key: string)
      modifies this
      ensures var target := KeyTarget(old(vertical), key, old(value), old(step), old(min), old(max));
        && value == (if target.Some? then target.value else old(value))
        && changes == (if target.Some? && target.value != old(value) then old(changes) + [target.value] else old(changes))
      ensures focused == (old(focused) && key != "Escape")
      ensures vertical == old(vertical) && min == old(min) && max == old(max) && step == old(step)
      ensures old(InRange()) ==> InRange()
    {
      var target := KeyTarget(vertical, key, value, step, min, max);
      if key == "Escape" {
        focused := false;
      }
      if target.Some? {
        if InRange() {
          KeyTargetInRange(vertical, key, value, step, min, max);
        }
        SetValue(target.value);
      }
    }

    /** `onWheel`: ignored without a step or the focus, otherwise one step up or down. */
    method OnWheel(deltaY: real)
      modifies this
      ensures step == 0.0 || !focused ==> value == old(value) && changes == old(changes)
      ensures step != 0.0 && focused ==>
        var target := WheelTarget(vertical, deltaY, old(value), step, min, max);
        value == target && changes == (if target != old(value) then old(changes) + [target] else old(changes))
      ensures vertical == old(vertical) && min == old(min) && max == old(max) && step == old(step)
      ensures focused == old(focused)
      ensures old(InRange()) && FourDecimals(min) && FourDecimals(max) ==> InRange()
    {
      if step == 0.0 || !focused {
        return;
      }
      if InRange() && FourDecimals(min) && FourDecimals(max) {
        WheelTargetInRange(vertical, deltaY, value, step, min, max);
      }
      SetValue(WheelTarget(vertical, deltaY, value, step, min, max));
    }

    /** `changeValueByEvent`: a mouse position over the groove sets the value by its drag rate. */
    method ChangeValueByEvent(clientX: real, clientY: real, rect: Rect)
      requires vertical ==> rect.height > 0.0
      requires !vertical ==> rect.width > 0.0
      modifies this
      ensures vertical == old(vertical) && min == old(min) && max == old(max) && step == old(step)
      ensures var target := ToDecimal4(DragValue(min, max, step, Rate(vertical, clientX, clientY, rect)));
        value == target && changes == (if target != old(value) then old(changes) + [target] else old(changes))
      ensures focused == old(focused)
    {
      var rate := Rate(vertical, clientX, clientY, rect);
      SetValue(ToDecimal4(DragValue(min, max, step, rate)));
    }

    method OnFocus()
      modifies this
      ensures focused && value == old(value) && changes == old(changes)
      ensures vertical == old(vertical) && min == old(min) && max == old(max) && step == old(step)
    {
      focused := true;
    }

    method OnBlur()
      modifies this
      ensures !focused && value == old(value) && changes == old(changes)
      ensures vertical == old(vertical) && min == old(min) && max == old(max) && step == old(step)
    {
      focused := false;
    }
  }
}
