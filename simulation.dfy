/**
 * The widget's handlers as pure transitions over its whole state: placement
 * into a drop slot, the touch gesture, the two input fields and the
 * "generate" button.  The class in `Controller` is proved to follow these.
 */
module Simulation {
  import opened Wrappers
  import opened CircuitState
  import opened LedBands
  import opened PowerCalc

  /** A slot's bounding rectangle in client coordinates. */
  datatype Rect = Rect(left: real, top: real, right: real, bottom: real)

  /** Hit test with inclusive bounds on all four sides. */
  predicate Contains(r: Rect, x: real, y: real) {
    x >= r.left && x <= r.right && y >= r.top && y <= r.bottom
  }

  /** A drop slot: its declared kind, its rectangle, whether it carries the
      `filled` class and the id of the source whose graphic it copied. */
  datatype Slot = Slot(kind: string, rect: Rect, filled: bool, graphic: Option<string>)

  /** The power display: "0.00" after a reset, or a computed power. */
  datatype Display = Zero | Shown(power: real)

  /** What a placement attempt does: fills the slot, declines (returns false),
      or throws because the source id names no element holding a graphic. */
  datatype Outcome = Placed | Refused | Threw

  datatype State = State(
    flags: Flags,
    slots: seq<Slot>,
    graphics: set<string>,     // ids of page elements that hold an svg graphic
    voltage: Option<real>,     // parsed voltage input, None for NaN
    resistance: Option<real>,  // parsed resistance input, None for NaN
    display: Display,
    lamp: Lamp,
    touchType: Option<string>,
    touchSourceId: Option<string>,
    floating: bool             // the floating copy of a touched component exists
  )

  /** The events the page delivers to the handlers. */
  datatype Event =
    | Drop(zone: nat, kind: string, sourceId: string)  // mouse drop with its payload
    | TouchStart(kind: string, sourceId: string)       // touch on a draggable
    | TouchEnd(x: real, y: real)                       // release point
    | EditVoltage(v: Option<real>)
    | EditResistance(r: Option<real>)
    | Generate

  /** The page after load: empty slots, initial flags, reset display. */
  function Init(zones: seq<(string, Rect)>, graphics: set<string>, v: Option<real>, r: Option<real>): State {
    State(InitialFlags,
          seq(|zones|, j requires 0 <= j < |zones| => Slot(zones[j].0, zones[j].1, false, None)),
          graphics, v, r, Zero, Off, None, None, false)
  }

  /** The slot accepts a component: same kind, not yet filled. */
  predicate Accepts(s: Slot, kind: string) {
    kind == s.kind && !s.filled
  }

  function Attempt(st: State, i: nat, kind: string, id: string): Outcome
    requires i < |st.slots|
  {
    if !Accepts(st.slots[i], kind) then Refused
    else if id !in st.graphics then Threw
    else Placed
  }

  /** Power display back to "0.00" and the bulb back to white, no animation. */
  function Reset(st: State): State {
    st.(display := Zero, lamp := Off)
  }

  /** Placement into slot `i`: on success the slot is filled with a copy of the
      source's graphic, the kind's flag is set and the display is reset. */
  function Place(st: State, i: nat, kind: string, id: string): State
    requires i < |st.slots|
  {
    if Attempt(st, i, kind, id) != Placed then st
    else Reset(st.(slots := st.slots[i := st.slots[i].(filled := true, graphic := Some(id))],
                   flags := st.flags[kind := true]))
  }

  /** The touch-end loop from slot `i` on: every slot whose rectangle holds the
      release point gets a placement attempt, in order; a throw ends the loop
      (the second component tells whether one did). */
  function Sweep(st: State, x: real, y: real, kind: string, id: string, i: nat): (r: (State, bool))
    requires i <= |st.slots|
    ensures |r.0.slots| == |st.slots| && r.0.graphics == st.graphics
    decreases |st.slots| - i
  {
    if i == |st.slots| then (st, false)
    else if !Contains(st.slots[i].rect, x, y) then Sweep(st, x, y, kind, id, i + 1)
    else if Attempt(st, i, kind, id) == Threw then (st, true)
    else Sweep(Place(st, i, kind, id), x, y, kind, id, i + 1)
  }

  /** Ghost removed and the touch globals set back to null. */
  function Cleared(st: State): State {
    st.(floating := false, touchType := None, touchSourceId := None)
  }

  /** The touch-end handler. */
  function EndTouch(st: State, x: real, y: real): State {
    if !st.floating then st
    // a null kind matches no slot (the two globals are only ever set together)
    else if st.touchType.None? || st.touchSourceId.None? then Cleared(st)
    else
      var sw := Sweep(st, x, y, st.touchType.value, st.touchSourceId.value, 0);
      if sw.1 then sw.0 else Cleared(sw.0)
  }

  /** The "generate" button. */
  function Calculate(st: State): State {
    if !Gate(st.flags) then st
    else match Compute(st.voltage, st.resistance)
      case None => st
      case Some(rd) => st.(display := Shown(rd.power), lamp := Show(st.lamp, MilliAmps(rd)))
  }

  /** The event refers to an existing slot, and a touch starts on a draggable
      (every draggable holds an svg graphic). */
  predicate EventOk(st: State, ev: Event) {
    (ev.Drop? ==> ev.zone < |st.slots|) &&
    (ev.TouchStart? ==> ev.sourceId in st.graphics)
  }

  function Step(st: State, ev: Event): (r: State)
    requires EventOk(st, ev)
    ensures |r.slots| == |st.slots| && r.graphics == st.graphics
  {
    match ev
    case Drop(i, k, id) => Place(st, i, k, id)
    case TouchStart(k, id) => st.(touchType := Some(k), touchSourceId := Some(id), floating := true)
    case TouchEnd(x, y) => EndTouch(st, x, y)
    case EditVoltage(v) => Reset(st.(voltage := v))
    case EditResistance(r) => Reset(st.(resistance := r))
    case Generate => Calculate(st)
  }

  function Run(st: State, evs: seq<Event>): (r: State)
    requires forall e :: e in evs ==> EventOk(st, e)
    ensures |r.slots| == |st.slots| && r.graphics == st.graphics
    decreases |evs|
  {
    if evs == [] then st
    else
      var next := Step(st, evs[0]);
      forall e | e in evs[1..]
        ensures EventOk(next, e)
      {
        assert e in evs;
        assert EventOk(st, e);
        assert |next.slots| == |st.slots| && next.graphics == st.graphics;
      }
      Run(next, evs[1..])
  }

  // ---------------------------------------------------------------------------
  // Invariants and monotonicity

  /** What every reachable state satisfies.  A shown reading is always the one
      the current inputs give on a ready circuit, and the bulb matches it. */
  predicate Inv(st: State) {
    FlagsOk(st.flags) &&
    (forall j :: 0 <= j < |st.slots| ==> (st.slots[j].filled <==> st.slots[j].graphic.Some?)) &&
    (st.display.Zero? ==> st.lamp == Off) &&
    (st.display.Shown? ==>
       Gate(st.flags) &&
       var c := Compute(st.voltage, st.resistance);
       c.Some? && st.display.power == c.value.power && st.lamp == Lit(MilliAmps(c.value))) &&
    (st.floating ==> st.touchType.Some? && st.touchSourceId.Some? && st.touchSourceId.value in st.graphics)
  }

  /** `b` is `a` or a later state: same slots layout, filled slots unchanged,
      keys kept and no flag cleared. */
  predicate Grows(a: State, b: State) {
    |b.slots| == |a.slots| && b.graphics == a.graphics &&
    (forall j :: 0 <= j < |a.slots| ==>
       b.slots[j].kind == a.slots[j].kind && b.slots[j].rect == a.slots[j].rect &&
       (a.slots[j].filled ==> b.slots[j] == a.slots[j])) &&
    (forall k :: k in a.flags ==> k in b.flags && (a.flags[k] ==> b.flags[k]))
  }

  lemma GrowsTrans(a: State, b: State, c: State)
    requires Grows(a, b) && Grows(b, c)
    ensures Grows(a, c)
  {
  }

  // ---------------------------------------------------------------------------
  // Placement

  /** Placement succeeds iff the kinds match and the slot is free (and the
      source resolves); otherwise nothing changes.  On success only the slot,
      the kind's flag and the display change. */
  lemma PlaceSpec(st: State, i: nat, kind: string, id: string)
    requires i < |st.slots|
    ensures Attempt(st, i, kind, id) == Refused <==> kind != st.slots[i].kind || st.slots[i].filled
    ensures Attempt(st, i, kind, id) == Placed <==> Accepts(st.slots[i], kind) && id in st.graphics
    ensures Attempt(st, i, kind, id) != Placed ==> Place(st, i, kind, id) == st
    ensures Attempt(st, i, kind, id) == Placed ==>
      var r := Place(st, i, kind, id);
      r.slots[i].filled && r.slots[i].graphic == Some(id) &&
      IsSet(r.flags, kind) &&
      (forall k :: k != kind ==> (k in r.flags <==> k in st.flags) && (k in st.flags ==> r.flags[k] == st.flags[k])) &&
      (forall j :: 0 <= j < |st.slots| && j != i ==> r.slots[j] == st.slots[j]) &&
      r.display == Zero && r.lamp == Off &&
      r == st.(slots := r.slots, flags := r.flags, display := Zero, lamp := Off)
  {
  }

  /** Placing again into a filled slot is a no-op that declines, for any
      kind and source. */
  lemma PlaceIdempotent(st: State, i: nat, kind: string, id: string, kind2: string, id2: string)
    requires i < |st.slots|
    requires Attempt(st, i, kind, id) == Placed
    ensures Attempt(Place(st, i, kind, id), i, kind2, id2) == Refused
    ensures Place(Place(st, i, kind, id), i, kind2, id2) == Place(st, i, kind, id)
  {
  }

  lemma PlaceGrows(st: State, i: nat, kind: string, id: string)
    requires i < |st.slots|
    ensures Grows(st, Place(st, i, kind, id))
  {
  }

  lemma PlaceInv(st: State, i: nat, kind: string, id: string)
    requires i < |st.slots| && Inv(st)
    ensures Inv(Place(st, i, kind, id))
  {
  }

  // ---------------------------------------------------------------------------
  // Touch end

  /** Some slot from `i` on holds the point and accepts the kind. */
  predicate HitFrom(st: State, x: real, y: real, kind: string, i: nat) {
    exists j :: i <= j < |st.slots| && Contains(st.slots[j].rect, x, y) && Accepts(st.slots[j], kind)
  }

  /** The slot after the sweep: filled iff it holds the point and accepted. */
  function SweptSlot(s: Slot, x: real, y: real, kind: string, id: string): Slot {
    if Contains(s.rect, x, y) && Accepts(s, kind) then s.(filled := true, graphic := Some(id)) else s
  }

  lemma HitFromUnfold(st: State, x: real, y: real, kind: string, i: nat)
    requires i < |st.slots|
    ensures HitFrom(st, x, y, kind, i) <==>
      (Contains(st.slots[i].rect, x, y) && Accepts(st.slots[i], kind)) || HitFrom(st, x, y, kind, i + 1)
  {
    if HitFrom(st, x, y, kind, i) {
      var j :| i <= j < |st.slots| && Contains(st.slots[j].rect, x, y) && Accepts(st.slots[j], kind);
      if j > i { assert HitFrom(st, x, y, kind, i + 1); }
    }
  }

  /** Whether a hit lies ahead depends only on the slots from `i` on. */
  lemma HitFromFrame(a: State, b: State, x: real, y: real, kind: string, i: nat)
    requires |a.slots| == |b.slots|
    requires forall j :: i <= j < |a.slots| ==> a.slots[j] == b.slots[j]
    ensures HitFrom(a, x, y, kind, i) == HitFrom(b, x, y, kind, i)
  {
    if HitFrom(a, x, y, kind, i) {
      var j :| i <= j < |a.slots| && Contains(a.slots[j].rect, x, y) && Accepts(a.slots[j], kind);
      assert b.slots[j] == a.slots[j];
    }
    if HitFrom(b, x, y, kind, i) {
      var j :| i <= j < |b.slots| && Contains(b.slots[j].rect, x, y) && Accepts(b.slots[j], kind);
      assert b.slots[j] == a.slots[j];
    }
  }

  /** With a resolvable source the sweep never throws, and its result is every
      hit-and-accepting slot filled, the kind's flag set and the display reset
      exactly when at least one slot was filled; nothing else changes. */
  lemma {:induction false} SweepResult(st: State, x: real, y: real, kind: string, id: string, i: nat)
    requires i <= |st.slots| && id in st.graphics
    ensures var r := Sweep(st, x, y, kind, id, i);
      !r.1 &&
      (forall j :: 0 <= j < i ==> r.0.slots[j] == st.slots[j]) &&
      (forall j :: i <= j < |st.slots| ==> r.0.slots[j] == SweptSlot(st.slots[j], x, y, kind, id)) &&
      r.0 == (if HitFrom(st, x, y, kind, i)
              then Reset(st.(slots := r.0.slots, flags := st.flags[kind := true]))
              else st.(slots := r.0.slots))
    decreases |st.slots| - i
  {
    if i < |st.slots| {
      var s := st.slots[i];
      var next := if Contains(s.rect, x, y) then Place(st, i, kind, id) else st;
      assert Sweep(st, x, y, kind, id, i) == Sweep(next, x, y, kind, id, i + 1);
      assert next.slots[i] == SweptSlot(s, x, y, kind, id);
      assert forall j :: 0 <= j < |st.slots| && j != i ==> next.slots[j] == st.slots[j];
      SweepResult(next, x, y, kind, id, i + 1);
      HitFromUnfold(st, x, y, kind, i);
      HitFromFrame(st, next, x, y, kind, i + 1);
    }
  }

  /** A release point outside every slot from `i` on changes nothing. */
  lemma {:induction false} SweepMiss(st: State, x: real, y: real, kind: string, id: string, i: nat)
    requires i <= |st.slots|
    requires forall j :: i <= j < |st.slots| ==> !Contains(st.slots[j].rect, x, y)
    ensures Sweep(st, x, y, kind, id, i) == (st, false)
    decreases |st.slots| - i
  {
    if i < |st.slots| {
      SweepMiss(st, x, y, kind, id, i + 1);
    }
  }

  /** The sweep, thrown or not, only moves forward. */
  lemma {:induction false} SweepGrows(st: State, x: real, y: real, kind: string, id: string, i: nat)
    requires i <= |st.slots|
    ensures Grows(st, Sweep(st, x, y, kind, id, i).0)
    decreases |st.slots| - i
  {
    if i < |st.slots| && Contains(st.slots[i].rect, x, y) && Attempt(st, i, kind, id) != Threw {
      var next := Place(st, i, kind, id);
      PlaceGrows(st, i, kind, id);
      SweepGrows(next, x, y, kind, id, i + 1);
      GrowsTrans(st, next, Sweep(next, x, y, kind, id, i + 1).0);
    } else if i < |st.slots| && !Contains(st.slots[i].rect, x, y) {
      SweepGrows(st, x, y, kind, id, i + 1);
    }
  }

  /** The sweep, thrown or not, keeps the invariant. */
  lemma {:induction false} SweepInv(st: State, x: real, y: real, kind: string, id: string, i: nat)
    requires i <= |st.slots| && Inv(st)
    ensures Inv(Sweep(st, x, y, kind, id, i).0)
    decreases |st.slots| - i
  {
    if i < |st.slots| && Contains(st.slots[i].rect, x, y) && Attempt(st, i, kind, id) != Threw {
      PlaceInv(st, i, kind, id);
      SweepInv(Place(st, i, kind, id), x, y, kind, id, i + 1);
    } else if i < |st.slots| && !Contains(st.slots[i].rect, x, y) {
      SweepInv(st, x, y, kind, id, i + 1);
    }
  }

  /** Touch end keeps the invariant and only moves forward. */
  lemma TouchEndInv(st: State, x: real, y: real)
    requires Inv(st)
    ensures Inv(EndTouch(st, x, y)) && Grows(st, EndTouch(st, x, y))
  {
    if st.floating {
      SweepGrows(st, x, y, st.touchType.value, st.touchSourceId.value, 0);
      SweepInv(st, x, y, st.touchType.value, st.touchSourceId.value, 0);
    }
  }

  /** Touch end without a floating copy does nothing.  With one, on a reachable state,
      every slot holding the release point and accepting the touched kind is
      filled, the kind's flag is set iff some slot was, and the touch session
      is always cleared. */
  lemma TouchEndSpec(st: State, x: real, y: real)
    requires Inv(st)
    ensures !st.floating ==> EndTouch(st, x, y) == st
    ensures st.floating ==>
      var r := EndTouch(st, x, y);
      var kind := st.touchType.value;
      !r.floating && r.touchType == None && r.touchSourceId == None &&
      |r.slots| == |st.slots| &&
      (forall j :: 0 <= j < |st.slots| ==>
         r.slots[j] == SweptSlot(st.slots[j], x, y, kind, st.touchSourceId.value)) &&
      r.flags == (if HitFrom(st, x, y, kind, 0) then st.flags[kind := true] else st.flags) &&
      (HitFrom(st, x, y, kind, 0) ==> r.display == Zero && r.lamp == Off) &&
      (!HitFrom(st, x, y, kind, 0) ==> r.display == st.display && r.lamp == st.lamp) &&
      r.voltage == st.voltage && r.resistance == st.resistance && r.graphics == st.graphics
  {
    if st.floating {
      SweepResult(st, x, y, st.touchType.value, st.touchSourceId.value, 0);
    }
  }

  /** A release outside every slot leaves flags, slots and display as they
      were; the touch session is still cleared. */
  lemma TouchEndMiss(st: State, x: real, y: real)
    requires forall j :: 0 <= j < |st.slots| ==> !Contains(st.slots[j].rect, x, y)
    ensures var r := EndTouch(st, x, y);
      r.flags == st.flags && r.slots == st.slots &&
      r.display == st.display && r.lamp == st.lamp &&
      r.voltage == st.voltage && r.resistance == st.resistance && r.graphics == st.graphics &&
      (st.floating ==> !r.floating && r.touchType == None && r.touchSourceId == None)
  {
    if st.floating && st.touchType.Some? && st.touchSourceId.Some? {
      SweepMiss(st, x, y, st.touchType.value, st.touchSourceId.value, 0);
    }
  }

  // ---------------------------------------------------------------------------
  // Calculation and input edits

  /** The calculation changes nothing unless the circuit is ready and both
      inputs are positive numbers; then it shows V * V / R and lights the bulb
      from V / R in mA. */
  lemma CalculateSpec(st: State)
    ensures (!Gate(st.flags) || st.voltage.None? || st.resistance.None? ||
             st.voltage.value <= 0.0 || st.resistance.value <= 0.0) ==> Calculate(st) == st
    ensures Gate(st.flags) && st.voltage.Some? && st.resistance.Some? &&
            st.voltage.value > 0.0 && st.resistance.value > 0.0 ==>
      var v, r := st.voltage.value, st.resistance.value;
      var res := Calculate(st);
      res.display.Shown? && res.display.power * r == v * v &&
      res.lamp.colour == Band(v / r * 1000.0) &&
      res == st.(display := res.display, lamp := res.lamp)
  {
  }

  /** On a reachable state the bulb blinks exactly when the shown reading is a
      burnout current. */
  lemma BlinkIffBurnout(st: State)
    requires Inv(st)
    ensures st.lamp.blinking <==>
      st.display.Shown? && MilliAmps(Compute(st.voltage, st.resistance).value) > 200.0
  {
  }

  /** Pressing "generate" twice is the same as pressing it once. */
  lemma CalculateIdempotent(st: State)
    ensures Calculate(Calculate(st)) == Calculate(st)
  {
  }

  lemma CalculateInv(st: State)
    requires Inv(st)
    ensures Inv(Calculate(st)) && Grows(st, Calculate(st))
  {
  }

  /** Editing either input resets the display and the bulb. */
  lemma EditResets(st: State, v: Option<real>)
    ensures Step(st, EditVoltage(v)) == st.(voltage := v, display := Zero, lamp := Off)
    ensures Step(st, EditResistance(v)) == st.(resistance := v, display := Zero, lamp := Off)
    ensures Inv(st) ==> Inv(Step(st, EditVoltage(v))) && Inv(Step(st, EditResistance(v)))
  {
  }

  // ---------------------------------------------------------------------------
  // Whole runs

  lemma InitInv(zones: seq<(string, Rect)>, graphics: set<string>, v: Option<real>, r: Option<real>)
    ensures Inv(Init(zones, graphics, v, r))
    ensures !Ready(Init(zones, graphics, v, r).flags)
  {
    InitialFlagsOk();
  }

  lemma StepInv(st: State, ev: Event)
    requires Inv(st) && EventOk(st, ev)
    ensures Inv(Step(st, ev)) && Grows(st, Step(st, ev))
  {
    match ev
    case Drop(i, k, id) =>
      PlaceInv(st, i, k, id);
      PlaceGrows(st, i, k, id);
    case TouchStart(k, id) =>
    case TouchEnd(x, y) =>
      TouchEndInv(st, x, y);
    case EditVoltage(v) =>
      EditResets(st, v);
    case EditResistance(r) =>
      EditResets(st, r);
    case Generate =>
      CalculateInv(st);
  }

  /** Every state a run reaches keeps the invariant, and no flag and no filled
      slot ever reverts. */
  lemma {:induction false} RunInv(st: State, evs: seq<Event>)
    requires Inv(st)
    requires forall e :: e in evs ==> EventOk(st, e)
    ensures Inv(Run(st, evs)) && Grows(st, Run(st, evs))
    decreases |evs|
  {
    if evs != [] {
      var next := Step(st, evs[0]);
      StepInv(st, evs[0]);
      forall e | e in evs[1..]
        ensures EventOk(next, e)
      {
        assert e in evs;
        assert EventOk(st, e);
      }
      RunInv(next, evs[1..]);
      GrowsTrans(st, next, Run(next, evs[1..]));
    }
  }

  /** On every reachable state the status filter reports ready exactly when
      `resistor` and `led` are both placed, whatever the battery flag. */
  lemma ReachableReadiness(zones: seq<(string, Rect)>, graphics: set<string>, v: Option<real>, r: Option<real>, evs: seq<Event>)
    requires forall e :: e in evs ==> EventOk(Init(zones, graphics, v, r), e)
    ensures var st := Run(Init(zones, graphics, v, r), evs);
      IsSet(st.flags, Battery) &&
      (Ready(st.flags) <==> IsSet(st.flags, Resistor) && IsSet(st.flags, Led))
  {
    InitInv(zones, graphics, v, r);
    RunInv(Init(zones, graphics, v, r), evs);
    ReadyIffGate(Run(Init(zones, graphics, v, r), evs).flags);
  }

  /** The two drops of a session fill both slots and set both flags. */
  lemma SessionPlacements(graphics: set<string>, zones: seq<(string, Rect)>)
    requires "src-resistor" in graphics && "src-led" in graphics
    requires zones == [(Resistor, Rect(0.0, 0.0, 10.0, 10.0)), (Led, Rect(20.0, 0.0, 30.0, 10.0))]
    ensures var s0 := Init(zones, graphics, None, None);
      var s2 := Step(Step(s0, Drop(0, Resistor, "src-resistor")), Drop(1, Led, "src-led"));
      s2 == s0.(flags := map[Resistor := true, Led := true, Battery := true],
                slots := [Slot(Resistor, zones[0].1, true, Some("src-resistor")),
                          Slot(Led, zones[1].1, true, Some("src-led"))])
  {
    var s0 := Init(zones, graphics, None, None);
    assert s0.slots == [Slot(Resistor, zones[0].1, false, None), Slot(Led, zones[1].1, false, None)];
    var s1 := Step(s0, Drop(0, Resistor, "src-resistor"));
    assert s1.slots == [Slot(Resistor, zones[0].1, true, Some("src-resistor")), Slot(Led, zones[1].1, false, None)];
  }

  /** "generate" on a ready circuit with 12 V and 100 ohm after a reset. */
  lemma SessionGenerate(st: State)
    requires Gate(st.flags) && st.voltage == Some(12.0) && st.resistance == Some(100.0)
    requires st.display == Zero && st.lamp == Off
    ensures Step(st, Generate) == st.(display := Shown(1.44), lamp := Lamp(Amber, false))
  {
    assert Compute(Some(12.0), Some(100.0)) == Some(Reading(0.12, 1.44));
  }

  /** A whole session: the resistor and the LED are dropped into their slots,
      12 V and 100 ohm are entered and "generate" is pressed.  The display
      shows 1.44 W and the bulb is amber (120 mA) without animation; a
      second drop on the filled LED slot changes nothing. */
  lemma TwelveVoltSession(graphics: set<string>)
    requires "src-resistor" in graphics && "src-led" in graphics
    ensures var zones := [(Resistor, Rect(0.0, 0.0, 10.0, 10.0)), (Led, Rect(20.0, 0.0, 30.0, 10.0))];
      var evs := [Drop(0, Resistor, "src-resistor"), Drop(1, Led, "src-led"),
                  EditVoltage(Some(12.0)), EditResistance(Some(100.0)), Generate,
                  Drop(1, Led, "src-led")];
      var st := Run(Init(zones, graphics, None, None), evs);
      st.display == Shown(1.44) && st.lamp == Lamp(Amber, false) && Ready(st.flags)
  {
    var zones := [(Resistor, Rect(0.0, 0.0, 10.0, 10.0)), (Led, Rect(20.0, 0.0, 30.0, 10.0))];
    var e0, e1, e2, e3, e4, e5 := Drop(0, Resistor, "src-resistor"), Drop(1, Led, "src-led"),
      EditVoltage(Some(12.0)), EditResistance(Some(100.0)), Generate, Drop(1, Led, "src-led");
    var s0 := Init(zones, graphics, None, None);
    var s1 := Step(s0, e0);
    var s2 := Step(s1, e1);
    SessionPlacements(graphics, zones);
    var s3 := Step(s2, e2);
    var s4 := Step(s3, e3);
    assert s4 == s2.(voltage := Some(12.0), resistance := Some(100.0));
    var s5 := Step(s4, e4);
    SessionGenerate(s4);
    var s6 := Step(s5, e5);
    assert s6 == s5;
    ReadyIffGate(s6.flags);
    assert Run(s6, []) == s6;
    assert Run(s5, [e5]) == s6;
    assert Run(s4, [e4, e5]) == s6;
    assert Run(s3, [e3, e4, e5]) == s6;
    assert Run(s2, [e2, e3, e4, e5]) == s6;
    assert Run(s1, [e1, e2, e3, e4, e5]) == s6;
  }
}
