/** The `<f-switch>` toggle of src/lib/switch.ts. */
module Switches {

  /**
    Whether a key press toggles the switch: Enter always does, ArrowLeft
    only when it is on, ArrowRight only when it is off.
  */
  predicate KeyToggles(checked: bool, key: string)
  {
    key == "Enter" || (key == "ArrowLeft" && checked) || (key == "ArrowRight" && !checked)
  }

  /** The state after a key press: ArrowLeft always ends off, ArrowRight always on. */
  lemma KeyOutcome(checked: bool, key: string)
    ensures var after := if KeyToggles(checked, key) then !checked else checked;
      && (key == "ArrowLeft" ==> !after)
      && (key == "ArrowRight" ==> after)
      && (key == "Enter" ==> after == !checked)
      && (key !in {"Enter", "ArrowLeft", "ArrowRight"} ==> after == checked)
  {
  }

  class Switch {
    var checked: bool
    /** The values emitted with 'change', oldest first. */
    var changes: seq<bool>

    constructor()
      ensures !checked && changes == []
    {
      checked := false;
      changes := [];
    }

    /** `onClick`: flips the switch and emits the new state. */
    method OnClick()
      modifies this
      ensures checked == !old(checked)
      ensures changes == old(changes) + [checked]
    {
      checked := !checked;
      changes := changes + [checked];
    }

    /** `onKeyDown`: a toggling key acts as a click; other keys do nothing. */
    method OnKeyDown(key: string)
      modifies this
      ensures KeyToggles(old(checked), key) ==> checked == !old(checked) && changes == old(changes) + [checked]
      ensures !KeyToggles(old(checked), key) ==> checked == old(checked) && changes == old(changes)
      ensures key == "ArrowLeft" ==> !checked
      ensures key == "ArrowRight" ==> checked
    {
      if key == "Enter" {
        OnClick();
      } else if key == "ArrowLeft" {
        if checked {
          OnClick();
        }
      } else if key == "ArrowRight" {
        if !checked {
          OnClick();
        }
      }
    }
  }

  /** Two clicks bring the switch back to where it was and emit both states. */
  method TwoClicksRestore(s: Switch)
    modifies s
    ensures s.checked == old(s.checked)
    ensures s.changes == old(s.changes) + [!old(s.checked), old(s.checked)]
  {
    s.OnClick();
    s.OnClick();
  }
}
