/** `convert_temperature_fahrenheit_to_celsius` in
    additions/additions_2_temperature.py: `round((f - 32) * 5 / 9)`, with the
    quotient taken as the exact fraction `5 * (f - 32) / 9`. */
module Temperature {
  import opened Rounding

  /** The Celsius temperature nearest to `fahrenheit`. */
  function FahrenheitToCelsius(fahrenheit: int): (celsius: int)
    // within half a degree of the exact value 5 * (fahrenheit - 32) / 9
    ensures 2 * (5 * (fahrenheit - 32) - 9 * celsius) <= 9
    ensures 2 * (9 * celsius - 5 * (fahrenheit - 32)) <= 9
  {
    RoundHalfEven(5 * (fahrenheit - 32), 9)
  }

  /** A ninth of an odd number of degrees is never exactly halfway, so the
      rounding mode never matters: the nearest integer is strictly nearest. */
  lemma FahrenheitNoTies(fahrenheit: int)
    ensures 2 * (5 * (fahrenheit - 32) - 9 * FahrenheitToCelsius(fahrenheit)) != 9
    ensures 2 * (9 * FahrenheitToCelsius(fahrenheit) - 5 * (fahrenheit - 32)) != 9
  {
    var c := FahrenheitToCelsius(fahrenheit);
    var d := 5 * (fahrenheit - 32) - 9 * c;
    assert 2 * d == 10 * (fahrenheit - 32) - 18 * c;
    assert (2 * d) % 2 == 0;
  }

  /** Nine degrees Fahrenheit more is five degrees Celsius more. */
  lemma {:induction false} FahrenheitToCelsiusShift(fahrenheit: int)
    ensures FahrenheitToCelsius(fahrenheit + 9) == FahrenheitToCelsius(fahrenheit) + 5
  {
    var c := FahrenheitToCelsius(fahrenheit);
    FahrenheitNoTies(fahrenheit);
    RoundHalfEvenUnique(5 * (fahrenheit + 9 - 32), 9, c + 5);
  }

  /** The reference points: water freezes at 0 and boils at 100, and the
      scales meet at -40. */
  lemma FahrenheitToCelsiusExamples()
    ensures FahrenheitToCelsius(32) == 0
    ensures FahrenheitToCelsius(212) == 100
    ensures FahrenheitToCelsius(-40) == -40
    ensures FahrenheitToCelsius(98) == 37 && FahrenheitToCelsius(0) == -18
  {
    RoundHalfEvenUnique(0, 9, 0);
    RoundHalfEvenUnique(900, 9, 100);
    RoundHalfEvenUnique(-360, 9, -40);
    RoundHalfEvenUnique(330, 9, 37);
    RoundHalfEvenUnique(-160, 9, -18);
  }

  /** A warmer Fahrenheit reading never gives a colder Celsius one. */
  lemma FahrenheitToCelsiusMonotone(f1: int, f2: int)
    requires f1 <= f2
    ensures FahrenheitToCelsius(f1) <= FahrenheitToCelsius(f2)
  {
    RoundHalfEvenMonotone(5 * (f1 - 32), 5 * (f2 - 32), 9);
  }
}
