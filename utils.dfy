/** The comparison helpers of src/utils/mod.rs, with `f64` modelled as `real`. */
module Utils {

  /** `f64::MAX`, the largest finite double, (2 - 2^-52) * 2^1023, written out exactly. */
  const F64Max: real := 179769313486231570814527423731704356798070567525844996598917476803157260780028538760589558632766878171540458953514382464234321326889464182768467546703537516986049910576551282076245490090389328944075868508455133942304583236903222948165808559332123348274797826204144723168738177180919299881250404026184124858368.0

  /** `f64::MIN`, the most negative finite double. */
  const F64Min: real := -F64Max

  /** `min_f64`: the first argument unless the second is strictly smaller. */
  function MinF64(a: real, b: real): (r: real)
    ensures r <= a && r <= b
    ensures r == a || r == b
    ensures a <= b ==> r == a
  {
    if a <= b then a else b
  }

  /** `max_f64`: the first argument unless the second is strictly larger. */
  function MaxF64(a: real, b: real): (r: real)
    ensures r >= a && r >= b
    ensures r == a || r == b
    ensures a >= b ==> r == a
  {
    if a >= b then a else b
  }

  lemma MinLeMax(a: real, b: real)
    ensures MinF64(a, b) <= MaxF64(a, b)
  {
  }

  // Facts about real multiplication that the solver does not always find on its own.

  lemma MulPos(a: real, b: real)
    requires a > 0.0 && b > 0.0
    ensures a * b > 0.0
  {
  }

  lemma MulNeg(a: real, b: real)
    requires a < 0.0 && b < 0.0
    ensures a * b > 0.0
  {
    MulPos(-a, -b);
    assert (-a) * (-b) == a * b;
  }

  lemma MulNonneg(a: real, b: real)
    requires a >= 0.0 && b >= 0.0
    ensures a * b >= 0.0
  {
  }

  lemma MulLt(a: real, b: real, c: real)
    requires c > 0.0
    ensures a < b <==> a * c < b * c
  {
    if a < b {
      assert (b - a) * c > 0.0;
      assert (b - a) * c == b * c - a * c;
    } else {
      assert (a - b) * c >= 0.0;
      assert (a - b) * c == a * c - b * c;
    }
  }
}
