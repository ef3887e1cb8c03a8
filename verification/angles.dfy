/** Angle arithmetic shared by the steering logic: angles are exact reals in
    degrees, two angles name the same orientation when they differ by a whole
    number of turns, and the canonical ("wrapped") form of an angle lies in the
    half-open range (-180, 180]. */
module Angles {

  function Abs(x: real): real {
    if x < 0.0 then -x else x
  }

  /** The angle covered by k full turns. */
  function Turns(k: int): real {
    360.0 * k as real
  }

  /** True when a and b differ by an integer multiple of 360 degrees. */
  ghost predicate Congruent(a: real, b: real) {
    exists k: int :: a - b == Turns(k)
  }

  lemma CongruentByTurns(a: real, b: real, k: int)
    requires a - b == 360.0 * k as real
    ensures Congruent(a, b)
  {
    assert a - b == Turns(k);
  }

  /** Extracts the number of turns between two congruent angles. */
  lemma TurnsOfCongruent(a: real, b: real) returns (k: int)
    requires Congruent(a, b)
    ensures a - b == 360.0 * k as real
  {
    k :| a - b == Turns(k);
  }

  lemma CongruentSymmetric(a: real, b: real)
    requires Congruent(a, b)
    ensures Congruent(b, a)
  {
    var k := TurnsOfCongruent(a, b);
    CongruentByTurns(b, a, -k);
  }

  lemma CongruentTransitive(a: real, b: real, c: real)
    requires Congruent(a, b) && Congruent(b, c)
    ensures Congruent(a, c)
  {
    var k := TurnsOfCongruent(a, b);
    var j := TurnsOfCongruent(b, c);
    CongruentByTurns(a, c, k + j);
  }

  /** Turning both angles by the same amount keeps them congruent. */
  lemma CongruentShift(a: real, b: real, c: real)
    requires Congruent(a, b)
    ensures Congruent(a + c, b + c)
  {
    var k := TurnsOfCongruent(a, b);
    CongruentByTurns(a + c, b + c, k);
  }

  /** Congruence is compatible with subtraction. */
  lemma CongruentDifference(a: real, b: real, c: real, d: real)
    requires Congruent(a, b) && Congruent(c, d)
    ensures Congruent(a - c, b - d)
  {
    var k := TurnsOfCongruent(a, b);
    var j := TurnsOfCongruent(c, d);
    CongruentByTurns(a - c, b - d, k - j);
  }

  /** Canonical representative of an angle in (-180, 180]. */
  function Wrap(a: real): (r: real)
    ensures -180.0 < r <= 180.0
    ensures Congruent(r, a)
  {
    var k := ((180.0 - a) / 360.0).Floor;
    CongruentByTurns(a + 360.0 * k as real, a, k);
    a + 360.0 * k as real
  }

  /** Only one angle in (-180, 180] names a given orientation. */
  lemma WrapUnique(x: real, a: real)
    requires -180.0 < x <= 180.0
    requires Congruent(x, a)
    ensures x == Wrap(a)
  {
    CongruentSymmetric(Wrap(a), a);
    CongruentTransitive(x, a, Wrap(a));
    var k := TurnsOfCongruent(x, Wrap(a));
    assert -360.0 < 360.0 * k as real < 360.0;
    assert k == 0;
  }

  /** Wrapping an angle already in range leaves it alone. */
  lemma WrapOfCanonical(a: real)
    requires -180.0 < a <= 180.0
    ensures Wrap(a) == a
  {
    CongruentByTurns(a, a, 0);
    WrapUnique(a, a);
  }

  /** A wrapped angle is already canonical: wrapping it again changes nothing. */
  lemma WrapIdempotent(a: real)
    ensures Wrap(Wrap(a)) == Wrap(a)
  {
    WrapOfCanonical(Wrap(a));
  }

  /** Congruent angles wrap to the same canonical angle. */
  lemma WrapOfCongruent(a: real, b: real)
    requires Congruent(a, b)
    ensures Wrap(a) == Wrap(b)
  {
    CongruentTransitive(Wrap(a), a, b);
    WrapUnique(Wrap(a), b);
  }
}
