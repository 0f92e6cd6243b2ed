/** `convert_length_inches_to_cm` in additions/additions_3_unit_conversions.py:
    `round(inches * 2.54)`, with the product taken as the exact fraction
    `254 * inches / 100`. */
module UnitConversions {
  import opened Rounding

  /** The length in whole centimetres nearest to `inches`, an exact half
      going to the even neighbour. */
  function InchesToCm(inches: int): (cm: int)
    // within half a centimetre of the exact value 2.54 * inches
    ensures 2 * (254 * inches - 100 * cm) <= 100
    ensures 2 * (100 * cm - 254 * inches) <= 100
    // halfway cases (2.54 * inches ending in .5) go to the even centimetre
    ensures 2 * (254 * inches - 100 * cm) == 100 || 2 * (100 * cm - 254 * inches) == 100 ==> cm % 2 == 0
  {
    RoundHalfEven(254 * inches, 100)
  }

  /** A hundred inches more is exactly 254 centimetres more. */
  lemma {:induction false} InchesToCmShift(inches: int)
    ensures InchesToCm(inches + 100) == InchesToCm(inches) + 254
  {
    var cm := InchesToCm(inches);
    RoundHalfEvenUnique(254 * (inches + 100), 100, cm + 254);
  }

  /** A few values, among them the two halfway cases 63.5 and 190.5, which
      go to the even neighbours 64 and 190. */
  lemma InchesToCmExamples()
    ensures InchesToCm(0) == 0 && InchesToCm(1) == 3 && InchesToCm(12) == 30
    ensures InchesToCm(25) == 64 && InchesToCm(75) == 190
    ensures InchesToCm(-25) == -64
  {
    RoundHalfEvenUnique(0, 100, 0);
    RoundHalfEvenUnique(254, 100, 3);
    RoundHalfEvenUnique(3048, 100, 30);
    RoundHalfEvenUnique(6350, 100, 64);
    RoundHalfEvenUnique(19050, 100, 190);
    RoundHalfEvenUnique(-6350, 100, -64);
  }

  /** A longer length in inches never gives a shorter one in centimetres. */
  lemma InchesToCmMonotone(i1: int, i2: int)
    requires i1 <= i2
    ensures InchesToCm(i1) <= InchesToCm(i2)
  {
    RoundHalfEvenMonotone(254 * i1, 254 * i2, 100);
  }
}
