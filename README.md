# ElectroLab power simulation — Dafny model

ElectroLab is a browser widget: the learner drags a resistor and an LED
into the slots of a circuit whose battery is already in place, enters a
voltage V and a resistance R, and presses "generate". The widget then
shows the power P = V·I with I = V/R, and colours the LED by the current
in milliamps. This project models the widget's controller from
`script.js`:

- the `state` flag object and the readiness filter (`CircuitState`);
- the LED band chain and the bulb's blink animation (`LedBands`);
- the V/R and V·I calculation (`PowerCalc`);
- every handler as a pure transition over the whole page state, with the
  invariant of reachable states and monotonicity over whole runs
  (`Simulation`);
- the controller as a class (`Controller.ElectroLab`). Its fields are
  updated in place by methods that mirror the handlers. Each method is
  proved to perform the matching `Simulation` transition.

Modelling decisions:
- `state` is a `map<string, bool>`. `state[type] = true` can add a key
  for any kind a slot declares, so the key set is open. A missing key
  reads as false, as `undefined` does.
- A parsed input is an `Option<real>`. `None` stands for NaN.
- The power display is `Zero` (the text "0.00") or `Shown(power)`, where
  `power` is the exact real.
- The bulb is a colour and a `blinking` flag.
- Slots are an array of `Slot(kind, rect, filled, graphic)`. `graphic` is
  the id of the source whose graphic the slot copied.
- `getElementById(sourceId)` finding no element holding an svg throws a
  `TypeError` before any mutation. This case is modelled as the outcome
  `Threw`. Inside the touch-end loop such a throw ends the handler before
  its clean-up.

Behaviour of the code the model keeps:
- Touch end does not stop at the first successful placement. Every slot
  whose rectangle holds the release point gets an attempt, so two
  overlapping free slots of the touched kind are both filled
  (`Simulation.TouchEndSpec`).
- There is no touch-cancel handler. The model has no cancel clean-up.
- The burnout colour is `#000000`.
- The colour update only ever starts the blink animation and never stops
  it; only a reset stops it. `Simulation.BlinkIffBurnout` proves that on
  every reachable state the bulb blinks exactly when the shown reading is
  over 200 mA.

## Model

| member | source | states |
|---|---|---|
| `CircuitState.InitialFlagsOk` | script.js:7-11 | the initial flags (resistor and led false, battery true) are well formed, not ready, and need exactly resistor and led |
| `CircuitState.ReadyIffGate` | script.js:142-161 | on a well-formed flag object the "no component needed" filter holds iff resistor and led are both set, which is the guard the calculation repeats |
| `CircuitState.ReadyIgnoresBattery` | script.js:143-145 | the needed set and readiness are the same whatever the battery flag |
| `CircuitState.SetFlagOk` | script.js:38 | setting a kind's flag keeps the flags well formed, clears no flag and removes exactly that kind from the needed set |
| `LedBands.BandTable` | script.js:185-192 | each colour holds exactly on its interval: white for mA <= 0, pale yellow on (0, 50), amber on [50, 150), orange on [150, 200], black above 200; so the bands are disjoint and cover every current |
| `LedBands.BandFill` | script.js:185-190 | the fill written for a current is "#ffffff" for mA <= 0, "#fffc5f" on (0, 50), "#fc9653" on [50, 150), "#ff3c01" on [150, 200] and "#000000" above 200, and distinct bands write distinct fills |
| `LedBands.BandMonotone` | script.js:185-192 | a larger current never selects a dimmer band |
| `LedBands.ShowAnimation` | script.js:185-195 | the colour update sets the fill to the band; blinking afterwards iff it blinked before or the band is burnout; other bands leave the animation alone |
| `LedBands.ShowLit` | script.js:164-195 | from the reset bulb the update gives the lit bulb of the reading; repeating an update changes nothing |
| `PowerCalc.ComputeSpec` | script.js:202-208 | a reading exists iff both inputs are numbers > 0; then I·R = V, P·R = V·V, and both are positive |
| `PowerCalc.Examples` | script.js:207-213 | 12 V / 100 Ω gives 0.12 A, 1.44 W, amber; 5 V / 1000 Ω gives 5 mA, 0.025 W, pale yellow; 300 V / 10 Ω gives 30 A, 9000 W, burnout; zero or NaN inputs give nothing |
| `Simulation.Sweep` | script.js:120-128 | the touch-end loop keeps the number of slots and the set of resolvable sources |
| `Simulation.Step` | script.js:29-227 | no handler adds or removes slots or changes which sources resolve |
| `Simulation.Run` | script.js:216-227 | a run of events keeps the number of slots and the resolvable sources |
| `Simulation.PlaceSpec` | script.js:29-46 | placement declines iff the kind differs from the slot's or the slot is filled, and then nothing changes; on success the slot is filled with the source's graphic, the kind's flag is set, the display is "0.00" and the bulb is white without animation; other slots, other flags, inputs and touch globals are unchanged |
| `Simulation.PlaceIdempotent` | script.js:30-36 | after a successful placement, any further placement into that slot declines and changes nothing |
| `Simulation.PlaceGrows` | script.js:29-46 | placement never clears a flag or changes a filled slot |
| `Simulation.PlaceInv` | script.js:29-46 | placement keeps the invariant of reachable states |
| `Simulation.SweepResult` | script.js:120-128 | with a resolvable source the loop never throws; afterwards each slot holding the point (inclusive bounds) and accepting the kind is filled and every other slot is unchanged; the flag is set and the display reset iff at least one slot was filled |
| `Simulation.SweepMiss` | script.js:120-128 | a point outside every rectangle leaves the state unchanged |
| `Simulation.SweepGrows` | script.js:120-128 | the loop, thrown or not, clears no flag and changes no filled slot |
| `Simulation.SweepInv` | script.js:120-128 | the loop, thrown or not, keeps the invariant of reachable states |
| `Simulation.TouchEndInv` | script.js:112-138 | the touch-end handler keeps the invariant, clears no flag and changes no filled slot |
| `Simulation.TouchEndSpec` | script.js:112-138 | without a floating copy touch end does nothing; with one, on a reachable state, every hit slot that accepts the touched kind is filled, the kind's flag is set iff one was, the display is reset iff one was, and the floating copy, touch type and source id are always cleared; the inputs and the resolvable sources are unchanged |
| `Simulation.TouchEndMiss` | script.js:112-138 | a release outside every slot leaves flags, slots, display, bulb, inputs and resolvable sources unchanged and still clears the touch session |
| `Simulation.CalculateSpec` | script.js:199-214 | "generate" changes nothing unless resistor and led are set and V and R are numbers > 0; otherwise only the display and the bulb change, the power shown satisfies P·R = V·V, and the colour is the band of V/R·1000 mA |
| `Simulation.BlinkIffBurnout` | script.js:164-195 | on a reachable state the bulb blinks iff a reading is shown and its current exceeds 200 mA |
| `Simulation.CalculateIdempotent` | script.js:199-214 | pressing "generate" twice equals pressing it once |
| `Simulation.CalculateInv` | script.js:199-214 | the calculation keeps the invariant: the shown power and the bulb are those of the current inputs |
| `Simulation.EditResets` | script.js:217-221 | an edit of either input stores the new value and resets the display to "0.00" and the bulb to white without animation, keeping the invariant |
| `Simulation.InitInv` | script.js:7-15 | the page after load satisfies the invariant and is not ready |
| `Simulation.StepInv` | script.js:29-227 | every handler keeps the invariant and clears no flag and no filled slot |
| `Simulation.RunInv` | script.js:29-227 | every state a run reaches keeps the invariant; flags and filled slots never revert |
| `Simulation.ReachableReadiness` | script.js:142-161 | on every reachable state the battery flag is set and the status is ready iff resistor and led are placed |
| `Simulation.SessionPlacements` | script.js:29-46 | dropping the resistor and then the LED into their slots fills both slots with the dropped graphics and sets both flags |
| `Simulation.SessionGenerate` | script.js:199-214 | "generate" with 12 V and 100 Ω on a ready, reset page shows 1.44 W with an amber bulb that does not blink |
| `Simulation.TwelveVoltSession` | script.js:29-214 | dropping the resistor and LED, entering 12 V and 100 Ω and pressing "generate" shows 1.44 W with an amber, non-blinking bulb; a second LED drop changes nothing |
| `Controller.ElectroLab.constructor` | script.js:7-15 | the controller starts in the initial state: initial flags, empty slots, display reset, no touch session |
| `Controller.ElectroLab.ResetDisplay` | script.js:164-177 | the display becomes "0.00" and the bulb white without animation; nothing else changes |
| `Controller.ElectroLab.UpdateLedColour` | script.js:179-196 | the bulb takes the band colour, and starts blinking only in the burnout band; nothing else changes |
| `Controller.ElectroLab.HandlePlacement` | script.js:29-46 | returns the outcome and performs the state change of `Simulation.Place` on the fields and the slot array |
| `Controller.ElectroLab.OnTouchStart` | script.js:83-101 | records the touched kind and source id and creates the floating copy |
| `Controller.ElectroLab.OnTouchEnd` | script.js:112-138 | performs `Simulation.EndTouch`: the hit-test loop over the slot array with its placements, then the clean-up |
| `Controller.ElectroLab.OnVoltageInput` | script.js:217-221 | stores the new voltage and resets the display |
| `Controller.ElectroLab.OnResistanceInput` | script.js:217-221 | stores the new resistance and resets the display |
| `Controller.ElectroLab.CalculateAndDisplay` | script.js:199-214 | performs `Simulation.Calculate` on the display and bulb fields |

## Left out

- DOM styling and presentation are not modelled: border colours, scaling on hover, opacity of the dragged source, status dot colours, texts and pulse animation, ghost size and position, the fill transition. Readiness is modelled; how it is drawn is not.
- The touch-move handler only repositions the floating copy and blocks scrolling, so it is not modelled. The floating copy is a boolean without a position.
- A second touch start before a touch end replaces the floating copy and leaves the old element on the page. The model keeps one boolean and does not track orphaned elements.
- `navigator.vibrate` and the `setTimeout` that removes the button's `clicked` class are not modelled. They are a host capability and an asynchronous cosmetic effect.
- The drag payload channel (`dataTransfer`) and `cloneNode` are not modelled. A mouse drop is the event `Drop(zone, kind, sourceId)` handed to placement, and the copied graphic is the source id.
- `parseFloat` and `toFixed(2)` are not modelled: inputs are already-parsed reals (`None` for NaN) and the display holds the exact power. Float rounding at the band limits 50, 150 and 200 mA, and infinite inputs, are not modelled.
- `Simulation.Step` and `Controller.ElectroLab.OnTouchStart`: a touch start is assumed to be on a draggable that holds an svg graphic (its id resolves). The touch-start handler would throw on an item without one; every draggable on the page has one.
- The guards on missing DOM hooks (`pDisplay`, `#slot-led`, `.led-bulb`) are not modelled. The display and the bulb are always present in the model, so a reset before the LED is placed also resets the abstract bulb.
- Slot rectangles are fixed. Layout changes (scrolling, resizing) are not modelled.
- The initial status render on `DOMContentLoaded` is not modelled beyond the initial flags. The initial display "0.00", the white bulb and unfilled slots are taken as the page's initial markup.
