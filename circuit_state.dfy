/**
 * The circuit flags of the widget: a JavaScript object keyed by component
 * kind, holding whether that kind has been placed.  `battery` is fixed in the
 * circuit and starts placed; `resistor` and `led` must be dragged in.
 */
module CircuitState {

  const Resistor: string := "resistor"
  const Led: string := "led"
  const Battery: string := "battery"

  /** The `state` object: placement writes `state[type] = true` for the kind it
      placed, so the key set is open (any kind a slot declares). */
  type Flags = map<string, bool>

  const InitialFlags: Flags := map[Resistor := false, Led := false, Battery := true]

  /** Truthiness of `state[k]`: a missing key reads as `undefined`, which is falsy. */
  predicate IsSet(f: Flags, k: string) {
    k in f && f[k]
  }

  /** The kinds still missing: keys other than `battery` whose flag is false. */
  function Needed(f: Flags): set<string> {
    set k | k in f && k != Battery && !f[k]
  }

  /** The status shown as "circuit ready": nothing is still needed. */
  predicate Ready(f: Flags) {
    Needed(f) == {}
  }

  /** The guard that opens the calculation: `resistor` and `led` both set. */
  predicate Gate(f: Flags) {
    IsSet(f, Resistor) && IsSet(f, Led)
  }

  /** What every reachable flag object satisfies: the three initial keys are
      present, battery is set, and any other key was only ever written true. */
  predicate FlagsOk(f: Flags) {
    Resistor in f && Led in f && IsSet(f, Battery) &&
    forall k :: k in f && k != Resistor && k != Led ==> f[k]
  }

  lemma InitialFlagsOk()
    ensures FlagsOk(InitialFlags)
    ensures !Ready(InitialFlags) && !Gate(InitialFlags)
    ensures Needed(InitialFlags) == {Resistor, Led}
  {
    assert Resistor in Needed(InitialFlags);
  }

  /** Readiness (the filter over the keys) and the calculation's own guard agree
      on every reachable flag object. */
  lemma ReadyIffGate(f: Flags)
    requires FlagsOk(f)
    ensures Ready(f) <==> Gate(f)
  {
    if Gate(f) {
      forall k | k in f && k != Battery
        ensures f[k]
      {
        if k != Resistor && k != Led {
          assert f[k];
        }
      }
      assert Needed(f) == {};
    } else if !IsSet(f, Resistor) {
      assert Resistor in Needed(f);
    } else {
      assert Led in Needed(f);
    }
  }

  /** Readiness does not depend on the battery flag, whatever its value. */
  lemma ReadyIgnoresBattery(f: Flags, b: bool)
    ensures Needed(f[Battery := b]) == Needed(f)
    ensures Ready(f[Battery := b]) <==> Ready(f)
  {
  }

  /** Setting a kind's flag keeps the flag object well formed, never clears a
      flag, and removes exactly that kind from the needed set. */
  lemma SetFlagOk(f: Flags, kind: string)
    requires FlagsOk(f)
    ensures FlagsOk(f[kind := true])
    ensures Needed(f[kind := true]) == Needed(f) - {kind}
    ensures forall k :: IsSet(f, k) ==> IsSet(f[kind := true], k)
  {
  }
}
