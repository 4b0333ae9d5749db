/** The colour algebra and the final byte conversion of src/utils/color.rs. */
module Colors {
  import opened Numerics

  /** A linear RGB colour; channels are unbounded while light is accumulated. */
  datatype Color = Color(r: real, g: real, b: real)

  /** `Color::default()`. */
  function Black(): Color { Color(0.0, 0.0, 0.0) }

  function White(): Color { Color(1.0, 1.0, 1.0) }

  function Add(a: Color, b: Color): Color { Color(a.r + b.r, a.g + b.g, a.b + b.b) }

  function Sub(a: Color, b: Color): Color { Color(a.r - b.r, a.g - b.g, a.b - b.b) }

  function Mul(a: Color, b: Color): Color { Color(a.r * b.r, a.g * b.g, a.b * b.b) }

  /** `Div for Color`; a zero channel in the divisor (an IEEE infinity in the source) is excluded. */
  function Div(a: Color, b: Color): Color
    requires b.r != 0.0 && b.g != 0.0 && b.b != 0.0
  {
    Color(a.r / b.r, a.g / b.g, a.b / b.b)
  }

  function Scale(c: Color, s: real): Color { Color(c.r * s, c.g * s, c.b * s) }

  function DivScalar(c: Color, s: real): Color
    requires s != 0.0
  {
    Color(c.r / s, c.g / s, c.b / s)
  }

  /** The default colour is the identity of addition, on both sides. */
  lemma BlackIsAddIdentity(c: Color)
    ensures Add(c, Black()) == c && Add(Black(), c) == c
  {
  }

  /** Black absorbs every colour under the componentwise product. */
  lemma BlackAbsorbs(c: Color)
    ensures Mul(c, Black()) == Black() && Mul(Black(), c) == Black()
  {
  }

  /** Subtraction undoes addition, channel by channel. */
  lemma SubUndoesAdd(a: Color, b: Color)
    ensures Sub(Add(a, b), b) == a
  {
  }

  /** Componentwise division undoes the componentwise product. */
  lemma DivUndoesMul(a: Color, b: Color)
    requires b.r != 0.0 && b.g != 0.0 && b.b != 0.0
    ensures Div(Mul(a, b), b) == a
  {
  }

  /** Division by a scalar undoes scaling by it. */
  lemma DivScalarUndoesScale(c: Color, s: real)
    requires s != 0.0
    ensures DivScalar(Scale(c, s), s) == c
  {
  }

  /** Rust's `u8`. */
  newtype u8 = x: int | 0 <= x < 256

  /** `num::clamp`: below the range gives the lower end, above it the upper end. */
  function Clamp(x: real, lo: real, hi: real): (r: real)
    requires lo <= hi
    ensures lo <= r <= hi
    ensures lo <= x <= hi ==> r == x
    ensures x < lo ==> r == lo
    ensures x > hi ==> r == hi
  {
    if x < lo then lo else if x > hi then hi else x
  }

  /**
   * One channel of the byte conversion, `(255 * clamp(sqrt(c * scale), 0, 1)) as u8`, for
   * a finite positive scale. A negative product makes `sqrt` NaN, which clamps to NaN and casts
   * to 0; otherwise the value lies in [0, 255] and the cast truncates, that is takes the floor.
   */
  function Channel(env: Env, value: real): (r: u8)
    ensures value < 0.0 ==> r == 0
    ensures SoundSqrt(env) && value == 0.0 ==> r == 0
    ensures SoundSqrt(env) && value >= 1.0 ==> r == 255
  {
    if value < 0.0 then 0
    else
      var byte := (255.0 * Clamp(env.sqrt(value), 0.0, 1.0)).Floor;
      assert 0 <= byte <= 255 by {
        var clamped := Clamp(env.sqrt(value), 0.0, 1.0);
        assert 0.0 <= 255.0 * clamped <= 255.0;
      }
      assert SoundSqrt(env) && value >= 1.0 ==> byte == 255 by {
        if SoundSqrt(env) && value >= 1.0 {
          assert env.sqrt(1.0) <= env.sqrt(value);
        }
      }
      byte as u8
  }

  /**
   * The channel for a sample count, `scale = 1.0 / samples as f64`. A zero count makes the scale
   * +infinity: a positive channel saturates at 255, zero times infinity is NaN and casts to 0,
   * and a negative channel gives sqrt of -infinity, NaN, hence 0.
   */
  function SampledChannel(env: Env, c: real, samples: int): (r: u8)
    ensures samples > 0 && SoundSqrt(env) ==> (c <= 0.0 ==> r == 0) && (c >= samples as real ==> r == 255)
  {
    if samples == 0 then (if c > 0.0 then 255 else 0)
    else
      var scale := 1.0 / samples as real;
      assert samples > 0 && c >= samples as real ==> c * scale >= 1.0 by {
        if samples > 0 && c >= samples as real {
          assert c * scale == c / samples as real;
        }
      }
      assert samples > 0 && c < 0.0 ==> c * scale < 0.0;
      Channel(env, c * scale)
  }

  /** `to_rgb_with_samples`: the three channels, each scaled down by the sample count. */
  function ToRgbWithSamples(env: Env, c: Color, samples: int): (u8, u8, u8)
  {
    (SampledChannel(env, c.r, samples), SampledChannel(env, c.g, samples), SampledChannel(env, c.b, samples))
  }

  /** `to_rgb`: the channels without scaling. */
  function ToRgb(env: Env, c: Color): (u8, u8, u8)
  {
    (Channel(env, c.r), Channel(env, c.g), Channel(env, c.b))
  }

  /** `to_rgb()` is `to_rgb_with_samples(1)`. */
  lemma ToRgbIsOneSample(env: Env, c: Color)
    ensures ToRgb(env, c) == ToRgbWithSamples(env, c, 1)
  {
  }

  /** Black converts to black, and a channel of at least the sample count is fully lit. */
  lemma ToRgbWithSamplesExtremes(env: Env, c: Color, samples: int)
    requires SoundSqrt(env) && samples > 0
    ensures c == Black() ==> ToRgbWithSamples(env, c, samples) == (0, 0, 0)
    ensures c.r >= samples as real && c.g >= samples as real && c.b >= samples as real ==>
              ToRgbWithSamples(env, c, samples) == (255, 255, 255)
  {
  }
}
