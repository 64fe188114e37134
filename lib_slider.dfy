/**
  The older slider of src/lib/slider.ts. It differs from the component in
  three ways: the wheel needs no focus, nothing is rounded to four
  decimals, and stepping up by key clamps only from below, so the value
  can pass the maximum.
*/
module LibSliders {
  import opened Wrappers
  import opened Ranges
  import Sliders

  /**
    The value an arrow key asks for, as written: up (vertical) or right
    (horizontal) gives `max(value + step, min)`, down or left gives
    `max(value - step, min)`.
  */
  function KeyTarget(vertical: bool, key: string, value: real, step: real, min: real): (r: Option<real>)
    ensures r.Some? <==> Sliders.StepsUp(vertical, key) || Sliders.StepsDown(vertical, key)
    ensures r.Some? ==> r.value >= min
    ensures Sliders.StepsUp(vertical, key) ==>
      r.value >= value + step && (r.value == value + step || r.value == min)
    ensures Sliders.StepsDown(vertical, key) ==>
      r.value >= value - step && (r.value == value - step || r.value == min)
  {
    if vertical && key == "ArrowUp" then Some(if value + step > min then value + step else min)
    else if vertical && key == "ArrowDown" then Some(if value - step > min then value - step else min)
    else if !vertical && key == "ArrowLeft" then Some(if value - step > min then value - step else min)
    else if !vertical && key == "ArrowRight" then Some(if value + step > min then value + step else min)
    else None
  }

  /** Stepping down is the same as in the component: it never goes below min. */
  lemma StepDownAgrees(vertical: bool, key: string, value: real, step: real, min: real, max: real)
    requires (vertical && key == "ArrowDown") || (!vertical && key == "ArrowLeft")
    ensures KeyTarget(vertical, key, value, step, min) == Sliders.KeyTarget(vertical, key, value, step, min, max)
  {
  }

  /** The wheel: one step clamped to [min, max]. */
  function WheelTarget(vertical: bool, deltaY: real, value: real, step: real, min: real, max: real): real
  {
    if Sliders.WheelUp(vertical, deltaY) then (if value + step < max then value + step else max)
    else (if value - step > min then value - step else min)
  }

  lemma WheelTargetInRange(vertical: bool, deltaY: real, value: real, step: real, min: real, max: real)
    requires min <= value <= max && step >= 0.0
    ensures min <= WheelTarget(vertical, deltaY, value, step, min, max) <= max
    ensures WheelTarget(vertical, deltaY, value, step, min, max) != value ==>
      (Sliders.WheelUp(vertical, deltaY) ==> value < WheelTarget(vertical, deltaY, value, step, min, max)) &&
      (!Sliders.WheelUp(vertical, deltaY) ==> WheelTarget(vertical, deltaY, value, step, min, max) < value)
  {
  }

  class Slider {
    var vertical: bool
    var min: real
    var max: real
    var step: real
    var value: real
    /** The values emitted with 'change', oldest first. */
    var changes: seq<real>

    constructor()
      ensures !vertical && min == 0.0 && max == 100.0 && step == 1.0 && value == 0.0 && changes == []
    {
      vertical := false;
      min := 0.0;
      max := 100.0;
      step := 1.0;
      value := 0.0;
      changes := [];
    }

    predicate InRange()
      reads this
    {
      min <= value <= max && step >= 0.0
    }

    /** `getPercent`, the same as the component's. */
    function GetPercent(): (r: real)
      reads this
      ensures 0.0 <= r <= 100.0
      ensures value == min ==> r == 0.0
    {
      Percent(value, min, max)
    }

    /** Sets the value and emits 'change', unless the value stays the same. */
    method SetValue(newValue: real)
      modifies this
      ensures value == newValue
      ensures changes == if newValue != old(value) then old(changes) + [newValue] else old(changes)
      ensures vertical == old(vertical) && min == old(min) && max == old(max) && step == old(step)
    {
      if newValue != value {
        value := newValue;
        changes := changes + [newValue];
      }
    }

    /** `onKeyDown` as written: the value never falls below min but may rise past max. */
    method OnKeyDown(key: string)
      modifies this
      ensures var target := KeyTarget(old(vertical), key, old(value), old(step), old(min));
        && value == (if target.Some? then target.value else old(value))
        && changes == (if target.Some? && target.value != old(value) then old(changes) + [target.value] else old(changes))
      ensures vertical == old(vertical) && min == old(min) && max == old(max) && step == old(step)
      ensures old(min <= value) ==> min <= value
    {
      var target := KeyTarget(vertical, key, value, step, min);
      if target.Some? {
        SetValue(target.value);
      }
    }

    /** `onKeyDown` with the upper clamp the wheel already has: the value stays in [min, max]. */
    method OnKeyDownCorrected(key: string)
      modifies this
      ensures var target := Sliders.KeyTarget(old(vertical), key, old(value), old(step), old(min), old(max));
        && value == (if target.Some? then target.value else old(value))
        && changes == (if target.Some? && target.value != old(value) then old(changes) + [target.value] else old(changes))
      ensures vertical == old(vertical) && min == old(min) && max == old(max) && step == old(step)
      ensures old(InRange()) ==> InRange()
    {
      var target := Sliders.KeyTarget(vertical, key, value, step, min, max);
      if target.Some? {
        if InRange() {
          Sliders.KeyTargetInRange(vertical, key, value, step, min, max);
        }
        SetValue(target.value);
      }
    }

    /** `onWheel`: ignored without a step, otherwise one step up or down inside [min, max]. */
    method OnWheel(deltaY: real)
      modifies this
      ensures step == 0.0 ==> value == old(value) && changes == old(changes)
      ensures step != 0.0 ==>
        var target := WheelTarget(vertical, deltaY, old(value), step, min, max);
        value == target && changes == (if target != old(value) then old(changes) + [target] else old(changes))
      ensures vertical == old(vertical) && min == old(min) && max == old(max) && step == old(step)
      ensures old(InRange()) ==> InRange()
    {
      if step != 0.0 {
        if InRange() {
          WheelTargetInRange(vertical, deltaY, value, step, min, max);
        }
        SetValue(WheelTarget(vertical, deltaY, value, step, min, max));
      }
    }

    /** `changeValueByEvent`: a mouse position over the groove sets the value by its drag rate. */
    method ChangeValueByEvent(clientX: real, clientY: real, rect: Rect)
      requires vertical ==> rect.height > 0.0
      requires !vertical ==> rect.width > 0.0
      modifies this
      ensures vertical == old(vertical) && min == old(min) && max == old(max) && step == old(step)
      ensures var target := DragValue(min, max, step, Rate(vertical, clientX, clientY, rect));
        value == target && changes == (if target != old(value) then old(changes) + [target] else old(changes))
    {
      var rate := Rate(vertical, clientX, clientY, rect);
      SetValue(DragValue(min, max, step, rate));
    }
  }

  /**
    ArrowUp on a vertical slider standing at its maximum of 100 with step 1
    moves it to 101, past the maximum, and emits that value.
  */
  method ArrowUpPassesMax() returns (s: Slider)
    ensures s.value == 101.0 && s.value > s.max && s.changes == [101.0]
  {
    s := new Slider();
    s.vertical := true;
    s.value := 100.0;
    s.OnKeyDown("ArrowUp");
  }

  /** With the clamp, the same key press leaves the slider at its maximum and emits nothing. */
  method ArrowUpStopsAtMax() returns (s: Slider)
    ensures s.value == 100.0 && s.value == s.max && s.changes == []
  {
    s := new Slider();
    s.vertical := true;
    s.value := 100.0;
    s.OnKeyDownCorrected("ArrowUp");
  }
}
