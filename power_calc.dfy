/**
 * The calculation behind the "generate" button: current I = V / R and
 * power P = V * I from the two parsed inputs, rejected unless both are
 * numbers greater than zero.
 */
module PowerCalc {
  import opened Wrappers
  import opened LedBands

  /** A computed reading: current in amperes and power in watts. */
  datatype Reading = Reading(current: real, power: real)

  /** `None` stands for a NaN input, `Some(x)` for a parsed number. */
  function Compute(v: Option<real>, r: Option<real>): Option<Reading> {
    if v.None? || v.value <= 0.0 || r.None? || r.value <= 0.0 then None
    else
      var i := v.value / r.value;
      Some(Reading(i, v.value * i))
  }

  /** A reading exists exactly for two positive numbers; it obeys Ohm's law
      (I * R = V) and gives P * R = V * V, both positive. */
  lemma ComputeSpec(v: Option<real>, r: Option<real>)
    ensures Compute(v, r).Some? <==> v.Some? && r.Some? && v.value > 0.0 && r.value > 0.0
    ensures Compute(v, r).Some? ==>
      var rd := Compute(v, r).value;
      rd.current * r.value == v.value && rd.power * r.value == v.value * v.value &&
      rd.current > 0.0 && rd.power > 0.0
  {
  }

  /** The current handed to the LED, in milliamps. */
  function MilliAmps(rd: Reading): real {
    rd.current * 1000.0
  }

  /** Worked readings: 12 V over 100 ohm, 5 V over 1000 ohm, 300 V over 10 ohm. */
  lemma Examples()
    ensures Compute(Some(12.0), Some(100.0)) == Some(Reading(0.12, 1.44))
    ensures Band(MilliAmps(Reading(0.12, 1.44))) == Amber
    ensures Compute(Some(5.0), Some(1000.0)) == Some(Reading(0.005, 0.025))
    ensures Band(MilliAmps(Reading(0.005, 0.025))) == PaleYellow
    ensures Compute(Some(300.0), Some(10.0)) == Some(Reading(30.0, 9000.0))
    ensures Band(MilliAmps(Reading(30.0, 9000.0))) == Black
    ensures Compute(Some(0.0), Some(10.0)) == None && Compute(Some(5.0), None) == None
  {
  }
}
