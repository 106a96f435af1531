/**
 * The LED bulb inside the LED slot: the fill colour chosen from the current
 * in milliamps, and the blink animation that only the burnout band starts.
 */
module LedBands {

  datatype Colour = White | PaleYellow | Amber | Orange | Black

  /** The fill written to the bulb for each colour. */
  function Hex(c: Colour): string {
    match c
    case White => "#ffffff"
    case PaleYellow => "#fffc5f"
    case Amber => "#fc9653"
    case Orange => "#ff3c01"
    case Black => "#000000"
  }

  /** The colour band for a current in mA, as the if-chain tries it. */
  function Band(mA: real): Colour {
    if mA > 0.0 && mA < 50.0 then PaleYellow
    else if mA >= 50.0 && mA < 150.0 then Amber
    else if mA >= 150.0 && mA <= 200.0 then Orange
    else if mA > 200.0 then Black
    else White
  }

  /** Brightness order of the bands. */
  function Rank(c: Colour): nat {
    match c
    case White => 0
    case PaleYellow => 1
    case Amber => 2
    case Orange => 3
    case Black => 4
  }

  /** The bulb: its fill and whether the blink animation runs. */
  datatype Lamp = Lamp(colour: Colour, blinking: bool)

  /** The reset bulb: white fill, animation "none". */
  const Off: Lamp := Lamp(White, false)

  /** The bulb after the colour update for `mA`: the fill follows the band; the
      animation is started by the burnout band and left as it was otherwise. */
  function Show(lamp: Lamp, mA: real): Lamp {
    Lamp(Band(mA), if mA > 200.0 then true else lamp.blinking)
  }

  /** The bulb a reading of `mA` produces from a reset bulb. */
  function Lit(mA: real): Lamp {
    Lamp(Band(mA), mA > 200.0)
  }

  /** The band table: each colour holds exactly on its interval, so the bands
      are disjoint and cover every current. */
  lemma BandTable(mA: real)
    ensures Band(mA) == White <==> mA <= 0.0
    ensures Band(mA) == PaleYellow <==> 0.0 < mA < 50.0
    ensures Band(mA) == Amber <==> 50.0 <= mA < 150.0
    ensures Band(mA) == Orange <==> 150.0 <= mA <= 200.0
    ensures Band(mA) == Black <==> mA > 200.0
  {
  }

  /** The fill written to the bulb for a current, band by band; different
      bands never write the same fill. */
  lemma BandFill(mA: real)
    ensures mA <= 0.0 ==> Hex(Band(mA)) == "#ffffff"
    ensures 0.0 < mA < 50.0 ==> Hex(Band(mA)) == "#fffc5f"
    ensures 50.0 <= mA < 150.0 ==> Hex(Band(mA)) == "#fc9653"
    ensures 150.0 <= mA <= 200.0 ==> Hex(Band(mA)) == "#ff3c01"
    ensures mA > 200.0 ==> Hex(Band(mA)) == "#000000"
    ensures forall b: real :: Hex(Band(b)) == Hex(Band(mA)) ==> Band(b) == Band(mA)
  {
  }

  /** A larger current never selects a dimmer band. */
  lemma BandMonotone(a: real, b: real)
    requires a <= b
    ensures Rank(Band(a)) <= Rank(Band(b))
  {
  }

  /** Only the burnout band touches the animation, and it only ever starts it. */
  lemma ShowAnimation(lamp: Lamp, mA: real)
    ensures Show(lamp, mA).colour == Band(mA)
    ensures Show(lamp, mA).blinking <==> lamp.blinking || Band(mA) == Black
    ensures Band(mA) != Black ==> Show(lamp, mA).blinking == lamp.blinking
  {
  }

  /** From a reset bulb, or from the bulb the same reading already lit, the
      update yields the lit bulb; repeating an update changes nothing. */
  lemma ShowLit(lamp: Lamp, mA: real)
    ensures Show(Off, mA) == Lit(mA)
    ensures Show(Lit(mA), mA) == Lit(mA)
    ensures Show(Show(lamp, mA), mA) == Show(lamp, mA)
  {
  }
}
