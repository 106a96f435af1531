/**
 * The page controller: the global `state` object, the drop slots, the two
 * inputs, the power display, the LED bulb and the touch globals, updated in
 * place by the event handlers.  Each handler is proved to perform the
 * matching transition of `Simulation`.
 */
module Controller {
  import opened Wrappers
  import opened CircuitState
  import opened LedBands
  import opened PowerCalc
  import opened Simulation

  class ElectroLab {
    var flags: Flags
    const slots: array<Slot>
    const graphics: set<string>
    var voltage: Option<real>
    var resistance: Option<real>
    var display: Display
    var lamp: Lamp
    var touchType: Option<string>
    var touchSourceId: Option<string>
    var floating: bool

    /** The controller's state as a value. */
    ghost function Model(): State
      reads this, slots
    {
      State(flags, slots[..], graphics, voltage, resistance, display, lamp,
            touchType, touchSourceId, floating)
    }

    constructor (zones: seq<(string, Rect)>, graphics: set<string>, v: Option<real>, r: Option<real>)
      ensures fresh(slots)
      ensures Model() == Init(zones, graphics, v, r)
    {
      flags := InitialFlags;
      slots := new Slot[|zones|](j requires 0 <= j < |zones| => Slot(zones[j].0, zones[j].1, false, None));
      this.graphics := graphics;
      voltage, resistance := v, r;
      display, lamp := Zero, Off;
      touchType, touchSourceId, floating := None, None, false;
    }

    /** Power display to "0.00", bulb to white without animation. */
    method ResetDisplay()
      modifies `display, `lamp
      ensures Model() == Reset(old(Model()))
    {
      display := Zero;
      lamp := Off;
    }

    /** The bulb's colour update for a current in mA. */
    method UpdateLedColour(mA: real)
      modifies `lamp
      ensures Model() == old(Model()).(lamp := Show(old(lamp), mA))
    {
      var colour := White;
      if mA > 0.0 && mA < 50.0 {
        colour := PaleYellow;
      } else if mA >= 50.0 && mA < 150.0 {
        colour := Amber;
      } else if mA >= 150.0 && mA <= 200.0 {
        colour := Orange;
      } else if mA > 200.0 {
        colour := Black;
        lamp := lamp.(blinking := true);
      }
      lamp := lamp.(colour := colour);
    }

    /** Placement of a dragged component of `kind` from source `sourceId` into
        slot `i` (the mouse drop handler calls this with its payload). */
    method HandlePlacement(i: nat, kind: string, sourceId: string) returns (outcome: Outcome)
      requires i < slots.Length
      modifies this, slots
      ensures outcome == Attempt(old(Model()), i, kind, sourceId)
      ensures Model() == Place(old(Model()), i, kind, sourceId)
    {
      if kind == slots[i].kind && !slots[i].filled {
        if sourceId !in graphics {
          return Threw;
        }
        slots[i] := slots[i].(filled := true, graphic := Some(sourceId));
        flags := flags[kind := true];
        ResetDisplay();
        return Placed;
      }
      return Refused;
    }

    /** Touch start on a draggable: record its kind and id and make the
        floating copy of its graphic. */
    method OnTouchStart(kind: string, sourceId: string)
      requires sourceId in graphics
      modifies `touchType, `touchSourceId, `floating
      ensures Model() == Step(old(Model()), TouchStart(kind, sourceId))
    {
      touchType := Some(kind);
      touchSourceId := Some(sourceId);
      floating := true;
    }

    /** Touch end at (x, y): try placement on every slot whose rectangle holds
        the point, then drop the floating copy and the touch globals.  A throw
        from a placement ends the handler before the clean-up. */
    method OnTouchEnd(x: real, y: real)
      modifies this, slots
      ensures Model() == EndTouch(old(Model()), x, y)
    {
      if !floating {
        return;
      }
      if touchType.None? || touchSourceId.None? {
        floating, touchType, touchSourceId := false, None, None;
        return;
      }
      var kind, id := touchType.value, touchSourceId.value;
      var i := 0;
      while i < slots.Length
        invariant 0 <= i <= slots.Length
        invariant floating && touchType == Some(kind) && touchSourceId == Some(id)
        invariant Sweep(Model(), x, y, kind, id, i) == Sweep(old(Model()), x, y, kind, id, 0)
      {
        if Contains(slots[i].rect, x, y) {
          var outcome := HandlePlacement(i, kind, id);
          if outcome == Threw {
            return;
          }
        }
        i := i + 1;
      }
      floating, touchType, touchSourceId := false, None, None;
    }

    /** An edit of the voltage field: the new parsed value, display reset. */
    method OnVoltageInput(v: Option<real>)
      modifies `voltage, `display, `lamp
      ensures Model() == Step(old(Model()), EditVoltage(v))
    {
      voltage := v;
      ResetDisplay();
    }

    /** An edit of the resistance field: the new parsed value, display reset. */
    method OnResistanceInput(r: Option<real>)
      modifies `resistance, `display, `lamp
      ensures Model() == Step(old(Model()), EditResistance(r))
    {
      resistance := r;
      ResetDisplay();
    }

    /** The "generate" button. */
    method CalculateAndDisplay()
      modifies `display, `lamp
      ensures Model() == Calculate(old(Model()))
    {
      if !IsSet(flags, Resistor) || !IsSet(flags, Led) {
        return;
      }
      if voltage.None? || voltage.value <= 0.0 || resistance.None? || resistance.value <= 0.0 {
        return;
      }
      var v, r := voltage.value, resistance.value;
      var current := v / r;
      var power := v * current;
      assert voltage == Some(v) && resistance == Some(r) && v > 0.0 && r > 0.0;
      assert Compute(Some(v), Some(r)) == Some(Reading(current, power));
      display := Shown(power);
      UpdateLedColour(current * 1000.0);
    }
  }
}
