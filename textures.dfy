/**
 * The textures of src/textures/: a constant colour, a 3D checker pattern, Perlin marble
 * noise and an image lookup.
 */
module Textures {
  import opened Vectors
  import opened Numerics
  import opened Colors
  import Perlin
  import Utils

  /** One decoded RGB pixel. */
  type Rgb = (u8, u8, u8)

  /** A decoded image, row by row from the top, `width * height` pixels. */
  datatype Image = Image(width: nat, height: nat, pixels: seq<Rgb>)

  /** `u32` image dimensions. */
  const U32Limit: nat := 0x1_0000_0000

  /**
   * The images `ImageTexture::new` is given: non-empty, with `u32` dimensions and one pixel
   * per position.
   */
  type RgbImage = im: Image | 1 <= im.width < U32Limit && 1 <= im.height < U32Limit && |im.pixels| == im.width * im.height
    witness Image(1, 1, [(0, 0, 0)])

  /** The texture kinds that implement the `Texture` trait. */
  datatype Texture =
    | Constant(color: Color)
    | Checker(odd: Texture, even: Texture)
    | Noise(perlin: Perlin.Perlin, scale: real)
    | ImageTexture(image: RgbImage)

  /** The largest `usize`. */
  const UsizeMax: int := 0x1_0000_0000_0000_0000 - 1

  /** `x as usize` for a float: truncation, saturating at 0 (also for NaN) and at `usize::MAX`. */
  function SaturatingUsize(x: real): (r: nat)
    ensures r <= UsizeMax
    ensures x < 0.0 ==> r == 0
    ensures 0.0 <= x && x.Floor <= UsizeMax ==> r == x.Floor
  {
    if x < 0.0 then 0 else if x.Floor > UsizeMax then UsizeMax else x.Floor
  }

  /** `clamp(i, 0, n - 1)` on indices. */
  function ClampIndex(i: nat, n: nat): (r: nat)
    requires n >= 1
    ensures r < n
    ensures i < n ==> r == i
    ensures i >= n ==> r == n - 1
  {
    if i > n - 1 then n - 1 else i
  }

  /** The column `i` of `ImageTexture::color`: `u` scaled to the width, then clamped. */
  function Column(u: real, width: nat): (i: nat)
    requires width >= 1
    ensures i < width
  {
    ClampIndex(SaturatingUsize(u * width as real), width)
  }

  /** The row `j` of `ImageTexture::color`: `1 - v` scaled to the height (v runs bottom-up), then clamped. */
  function Row(v: real, height: nat): (j: nat)
    requires height >= 1
    ensures j < height
  {
    ClampIndex(SaturatingUsize((1.0 - v) * height as real), height)
  }

  lemma BelowOneScaled(c: real, n: real)
    requires n >= 1.0 && 0.0 <= c < 1.0
    ensures 0.0 <= c * n < n
  {
    Utils.MulLt(c, 1.0, n);
    Utils.MulNonneg(c, n);
  }

  lemma FloorBelow(x: real, n: int)
    requires 0.0 <= x < n as real
    ensures 0 <= x.Floor < n
  {
  }

  lemma ScaledFloor(c: real, n: nat)
    requires 1 <= n && 0.0 <= c < 1.0
    ensures 0 <= (c * n as real).Floor < n
  {
    BelowOneScaled(c, n as real);
    FloorBelow(c * n as real, n);
  }

  /** A coordinate in [0, 1) picks cell floor(c * n), so the clamp never changes it. */
  lemma ScaledIndexInRange(c: real, n: nat)
    requires 1 <= n < U32Limit && 0.0 <= c < 1.0
    ensures 0 <= (c * n as real).Floor < n
    ensures ClampIndex(SaturatingUsize(c * n as real), n) == (c * n as real).Floor
  {
    ScaledFloor(c, n);
    assert SaturatingUsize(c * n as real) == (c * n as real).Floor;
  }

  /** Inside the unit square the lookup is the unclamped `floor(u * width)`, `floor((1 - v) * height)`. */
  lemma PixelInsideUnitSquare(u: real, v: real, width: nat, height: nat)
    requires 1 <= width < U32Limit && 1 <= height < U32Limit
    requires 0.0 <= u < 1.0 && 0.0 < v <= 1.0
    ensures Column(u, width) == (u * width as real).Floor
    ensures Row(v, height) == ((1.0 - v) * height as real).Floor
  {
    ScaledIndexInRange(u, width);
    ScaledIndexInRange(1.0 - v, height);
  }

  /** Coordinates below the square clamp to the first column, beyond it to the last one. */
  lemma ColumnClamps(u: real, width: nat)
    requires 1 <= width < U32Limit
    ensures u < 0.0 ==> Column(u, width) == 0
    ensures u >= 1.0 ==> Column(u, width) == width - 1
  {
    if u >= 1.0 {
      Utils.MulLt(1.0, u, width as real);
      var x := u * width as real;
      assert x >= width as real;
      assert x.Floor >= width;
      assert SaturatingUsize(x) >= width;
    } else if u < 0.0 {
      assert -u * width as real > 0.0 by { Utils.MulPos(-u, width as real); }
    }
  }

  /** The position of pixel (i, j) in the row-major pixel sequence lies inside it. */
  lemma PixelIndexInBounds(width: nat, height: nat, i: nat, j: nat)
    requires i < width && j < height
    ensures j * width + i < width * height
  {
    assert j * width <= (height - 1) * width by {
      assert (height - 1) * width - j * width == (height - 1 - j) * width;
    }
    assert (height - 1) * width == height * width - width;
  }

  /** `get_pixel(i, j)`: the pixel in column i of row j, one of the image's own pixels. */
  function GetPixel(im: RgbImage, i: nat, j: nat): (rgb: Rgb)
    requires i < im.width && j < im.height
    ensures rgb in im.pixels
  {
    PixelIndexInBounds(im.width, im.height, i, j);
    im.pixels[j * im.width + i]
  }

  /** A byte channel as a fraction, `byte as f64 / 255.0`. */
  function ByteFraction(b: u8): (r: real)
    ensures 0.0 <= r <= 1.0
    ensures r * 255.0 == b as real
  {
    (b as int) as real / 255.0
  }

  /** `ImageTexture::color`: the pixel under (u, v), each channel scaled into [0, 1]. */
  function ImageColor(im: RgbImage, u: real, v: real): (c: Color)
    ensures 0.0 <= c.r <= 1.0 && 0.0 <= c.g <= 1.0 && 0.0 <= c.b <= 1.0
    ensures var rgb := GetPixel(im, Column(u, im.width), Row(v, im.height));
            c.r * 255.0 == rgb.0 as real && c.g * 255.0 == rgb.1 as real && c.b * 255.0 == rgb.2 as real
  {
    var rgb := GetPixel(im, Column(u, im.width), Row(v, im.height));
    Color(ByteFraction(rgb.0), ByteFraction(rgb.1), ByteFraction(rgb.2))
  }

  /**
   * The product of sines that decides the checker cell; with a sine bounded by 1 it lies in
   * [-1, 1].
   */
  function CheckerSign(env: Env, point: Vec3): (r: real)
    ensures BoundedSin(env) ==> -1.0 <= r <= 1.0
  {
    var sx, sy, sz := env.sin(10.0 * point.x), env.sin(10.0 * point.y), env.sin(10.0 * point.z);
    assert BoundedSin(env) ==> -1.0 <= sx * sy * sz <= 1.0 by {
      if BoundedSin(env) {
        UnitProduct(sx, sy);
        UnitProduct(sx * sy, sz);
      }
    }
    sx * sy * sz
  }

  lemma UnitProduct(a: real, b: real)
    requires -1.0 <= a <= 1.0 && -1.0 <= b <= 1.0
    ensures -1.0 <= a * b <= 1.0
  {
    if a >= 0.0 && b >= 0.0 {
      FractionProduct(a, b);
    } else if a >= 0.0 {
      FractionProduct(a, -b);
      assert a * b == -(a * -b);
    } else if b >= 0.0 {
      FractionProduct(-a, b);
      assert a * b == -(-a * b);
    } else {
      FractionProduct(-a, -b);
      assert a * b == -a * -b;
    }
  }

  lemma FractionProduct(x: real, y: real)
    requires 0.0 <= x <= 1.0 && 0.0 <= y <= 1.0
    ensures 0.0 <= x * y <= 1.0
  {
    Utils.MulNonneg(x, y);
    Utils.MulNonneg(1.0 - x, y);
    assert (1.0 - x) * y == y - x * y;
  }

  /**
   * `NoiseTexture::color`: white scaled by `0.5 * (1 + sin(scale * z + 10 * turbulence(p, 7)))`,
   * a grey level whose phase the turbulence shifts.
   */
  function NoiseColor(env: Env, perlin: Perlin.Perlin, scale: real, point: Vec3): (c: Color)
    ensures c.r == c.g == c.b == 0.5 * (1.0 + env.sin(scale * point.z + Perlin.Turbulence(perlin, point, 7) * 10.0))
  {
    Colors.Scale(Colors.Scale(White(), 0.5), 1.0 + env.sin(scale * point.z + Perlin.Turbulence(perlin, point, 7) * 10.0))
  }

  /** `Texture::color` for each kind. */
  function TextureColor(env: Env, t: Texture, u: real, v: real, point: Vec3): (c: Color)
    decreases t
    ensures t.Constant? ==> c == t.color
    ensures t.Checker? && CheckerSign(env, point) < 0.0 ==> c == TextureColor(env, t.odd, u, v, point)
    ensures t.Checker? && CheckerSign(env, point) >= 0.0 ==> c == TextureColor(env, t.even, u, v, point)
    ensures t.Noise? ==> c == NoiseColor(env, t.perlin, t.scale, point)
    ensures t.ImageTexture? ==> c == ImageColor(t.image, u, v)
  {
    match t
    case Constant(color) => color
    case Checker(odd, even) =>
      if CheckerSign(env, point) < 0.0 then TextureColor(env, odd, u, v, point)
      else TextureColor(env, even, u, v, point)
    case Noise(perlin, scale) => NoiseColor(env, perlin, scale, point)
    case ImageTexture(image) => ImageColor(image, u, v)
  }

  /** A sine that stays within [-1, 1] where the marble texture evaluates it. */
  ghost predicate BoundedSin(env: Env)
  {
    forall x :: -1.0 <= env.sin(x) <= 1.0
  }

  /** Marble noise is a grey level in [0, 1]. */
  lemma NoiseColorIsGrey(env: Env, perlin: Perlin.Perlin, scale: real, point: Vec3)
    requires BoundedSin(env)
    ensures var c := NoiseColor(env, perlin, scale, point);
            c.r == c.g == c.b && 0.0 <= c.r <= 1.0
  {
    var s := env.sin(scale * point.z + Perlin.Turbulence(perlin, point, 7) * 10.0);
    assert -1.0 <= s <= 1.0;
  }

  /** A checker of one texture with itself is that texture. */
  lemma CheckerOfSameTexture(env: Env, t: Texture, u: real, v: real, point: Vec3)
    ensures TextureColor(env, Checker(t, t), u, v, point) == TextureColor(env, t, u, v, point)
  {
  }
}
