/**
 * `Scene` of src/scene.rs: the path integrator `get_color` and the row partition of `render`.
 * The threads of `render` run one after another here; each thread's random generator becomes
 * the draws a caller passes in, and the camera is the function that maps a point of the unit
 * square to a primary ray.
 */
module Scenes {
  import opened Wrappers
  import opened Numerics
  import opened Rays
  import opened Materials
  import opened Hittables
  import Colors
  import Utils

  /** The random numbers one bounce of a path takes: the draws of the world query and the scatter draws. */
  datatype BounceDraws = BounceDraws(medium: Draws, scatter: ScatterDraws)

  /** The random numbers one sample takes: the two jitters and the draws of each bounce, by depth left. */
  datatype SampleDraws = SampleDraws(jitterX: real, jitterY: real, path: nat -> BounceDraws)

  /** `Scene::new`: the world, the camera's `get_ray` and the background colour. */
  datatype Scene = Scene(objects: Hittable, camera: (real, real) -> Ray, background: Colors.Color)

  /**
   * The query `get_color` puts to the world: `hit(ray, 0.001, f64::MAX)`, with the draws the
   * constant media on the way take. The lower end keeps a bounce off its own surface.
   */
  type World = (Ray, Draws) -> Option<HitRecord>

  /** The world of a hittable: its hits between 0.001 and the largest double. */
  function WorldOf(env: Env, h: Hittable): World
  {
    (ray: Ray, draws: Draws) => Hit(env, h, ray, 0.001, Utils.F64Max, draws)
  }

  // ---------------------------------------------------------------------------------------
  // get_color
  // ---------------------------------------------------------------------------------------

  /**
   * `get_color`: black once the depth is spent; the background when the world reports no hit;
   * otherwise what the surface emits, plus, when it scatters, the colour brought back along the
   * scattered ray with one bounce less, filtered by the attenuation.
   */
  function GetColor(env: Env, world: World, background: Colors.Color, ray: Ray, depth: int, path: nat -> BounceDraws): (c: Colors.Color)
    ensures depth <= 0 ==> c == Colors.Black()
    ensures depth > 0 && world(ray, path(depth).medium).None? ==> c == background
    ensures depth > 0 ==>
              var r := world(ray, path(depth).medium);
              (r.Some? && Scatter(env, r.value.material, ray, r.value, path(depth).scatter).None?) ==>
                c == Emit(env, r.value.material, r.value.u, r.value.v, r.value.point)
    decreases depth
  {
    if depth <= 0 then Colors.Black()
    else
      var d := path(depth);
      match world(ray, d.medium)
      case None => background
      case Some(rec) =>
        var emitted := Emit(env, rec.material, rec.u, rec.v, rec.point);
        match Scatter(env, rec.material, ray, rec, d.scatter)
        case None => emitted
        case Some(s) => Colors.Add(emitted, Colors.Mul(GetColor(env, world, background, s.ray, depth - 1, path), s.attenuation))
  }

  /**
   * A path of depth `depth` asks the world at most `depth` times, one bounce per query, so the
   * draws for depths above it are never used.
   */
  lemma {:induction false} GetColorUsesDepthDraws(env: Env, world: World, background: Colors.Color, ray: Ray, depth: int,
                                                  p: nat -> BounceDraws, q: nat -> BounceDraws)
    requires forall k: nat :: 1 <= k <= depth ==> p(k) == q(k)
    ensures GetColor(env, world, background, ray, depth, p) == GetColor(env, world, background, ray, depth, q)
    decreases depth
  {
    if depth > 0 {
      assert p(depth) == q(depth);
      var d := p(depth);
      var r := world(ray, d.medium);
      if r.Some? {
        var s := Scatter(env, r.value.material, ray, r.value, d.scatter);
        if s.Some? {
          GetColorUsesDepthDraws(env, world, background, s.value.ray, depth - 1, p, q);
        }
      }
    }
  }

  /** No hit the world reports is on a light. */
  ghost predicate Unlit(world: World)
  {
    forall ray, draws :: world(ray, draws).Some? ==> !world(ray, draws).value.material.Light?
  }

  /** Every hit the world reports is on a light. */
  ghost predicate AllLights(world: World)
  {
    forall ray, draws :: world(ray, draws).Some? ==> world(ray, draws).value.material.Light?
  }

  /** A hittable without lights among its materials makes an unlit world, and one of lights only a world of lights. */
  lemma WorldOfMaterials(env: Env, h: Hittable)
    ensures (forall m :: m in MaterialsOf(h) ==> !m.Light?) ==> Unlit(WorldOf(env, h))
    ensures (forall m :: m in MaterialsOf(h) ==> m.Light?) ==> AllLights(WorldOf(env, h))
  {
    forall ray, draws
      ensures var r := WorldOf(env, h)(ray, draws); r.Some? ==> r.value.material in MaterialsOf(h)
    {
      HitMaterialIsOwn(env, h, ray, 0.001, Utils.F64Max, draws);
    }
  }

  /** An unlit world in front of a black background is black: nothing along a path emits. */
  lemma {:induction false} NoLightIsDark(env: Env, world: World, ray: Ray, depth: int, path: nat -> BounceDraws)
    requires Unlit(world)
    ensures GetColor(env, world, Colors.Black(), ray, depth, path) == Colors.Black()
    decreases depth
  {
    if depth > 0 {
      var d := path(depth);
      var r := world(ray, d.medium);
      if r.Some? {
        var rec := r.value;
        assert !rec.material.Light?;
        var emitted := Emit(env, rec.material, rec.u, rec.v, rec.point);
        assert emitted == Colors.Black();
        var s := Scatter(env, rec.material, ray, rec, d.scatter);
        if s.Some? {
          var back := GetColor(env, world, Colors.Black(), s.value.ray, depth - 1, path);
          assert GetColor(env, world, Colors.Black(), ray, depth, path) == Colors.Add(emitted, Colors.Mul(back, s.value.attenuation));
          NoLightIsDark(env, world, s.value.ray, depth - 1, path);
          Colors.BlackAbsorbs(s.value.attenuation);
          Colors.BlackIsAddIdentity(Colors.Black());
        }
      }
    }
  }

  /**
   * In a world of lights every path ends at the first surface, so any depth of at least one
   * gives the colour of a single bounce.
   */
  lemma LightsEndPaths(env: Env, world: World, background: Colors.Color, ray: Ray, depth: int, path: nat -> BounceDraws)
    requires depth >= 1 && AllLights(world) && path(depth) == path(1)
    ensures GetColor(env, world, background, ray, depth, path) == GetColor(env, world, background, ray, 1, path)
  {
    var r := world(ray, path(1).medium);
  }

  // ---------------------------------------------------------------------------------------
  // The row partition of render
  // ---------------------------------------------------------------------------------------

  /**
   * `blocks`: the rows per thread, `height / threads` rounded down (the source divides as
   * floating-point numbers and truncates, which is the integer quotient for image sizes below
   * 2^53). With no threads no row is rendered, so the value does not matter then.
   */
  function Blocks(height: nat, threads: nat): nat
  {
    if threads == 0 then 0 else height / threads
  }

  /** The threads' blocks fit in the height, and one more row per thread would not. */
  lemma BlocksBound(height: nat, threads: nat)
    requires threads > 0
    ensures Blocks(height, threads) * threads <= height < (Blocks(height, threads) + 1) * threads
    ensures height == Blocks(height, threads) * threads + height % threads
  {
  }

  /** Multiplication by a natural number keeps the order. */
  lemma MulMono(a: nat, b: nat, c: nat)
    requires a <= b
    ensures a * c <= b * c && c * a <= c * b
  {
    assert b * c == a * c + (b - a) * c;
  }

  /** The end of thread t's rows: the smaller of `width` (sic) and `blocks * (t + 1)`. */
  function RowEnd(width: nat, blocks: nat, t: nat): nat
  {
    if width < blocks * (t + 1) then width else blocks * (t + 1)
  }

  /**
   * The primary ray of one sample of the pixel at (row, col): the camera's ray through the
   * jittered point, x = (col + jitter) / width and y = (height - row - 1 + jitter) / height, so
   * that row 0 is the top of the image.
   */
  function SampleRay(scene: Scene, width: nat, height: nat, row: nat, col: nat, d: SampleDraws): Ray
    requires row < height && col < width
  {
    var x := (col as real + d.jitterX) / width as real;
    var y := ((height - row - 1) as real + d.jitterY) / height as real;
    scene.camera(x, y)
  }

  /** `Color::default()` plus the first k samples of the pixel at (row, col), in order. */
  function PixelColor(env: Env, world: World, scene: Scene, width: nat, height: nat, depth: int, row: nat, col: nat,
                      draws: (nat, nat, nat) -> SampleDraws, k: nat): Colors.Color
    requires row < height && col < width
  {
    if k == 0 then Colors.Black()
    else
      var d := draws(row, col, k - 1);
      Colors.Add(PixelColor(env, world, scene, width, height, depth, row, col, draws, k - 1),
                 GetColor(env, world, scene.background, SampleRay(scene, width, height, row, col, d), depth, d.path))
  }

  /** Every pixel of the image, each the sum of `samples` samples; black outside the image. */
  function Pixels(env: Env, world: World, scene: Scene, width: nat, height: nat, samples: nat, depth: int,
                  draws: (nat, nat, nat) -> SampleDraws): (nat, nat) -> Colors.Color
  {
    (row: nat, col: nat) => PixelAt(env, world, scene, width, height, samples, depth, draws, row, col)
  }

  /** The pixel at (row, col): the sum of its `samples` samples inside the image, black outside. */
  function PixelAt(env: Env, world: World, scene: Scene, width: nat, height: nat, samples: nat, depth: int,
                   draws: (nat, nat, nat) -> SampleDraws, row: nat, col: nat): Colors.Color
  {
    if row < height && col < width then PixelColor(env, world, scene, width, height, depth, row, col, draws, samples)
    else Colors.Black()
  }

  /** The first n pixels of a row, in column order. */
  function RowColors(pixel: (nat, nat) -> Colors.Color, row: nat, n: nat): (r: seq<Colors.Color>)
    ensures |r| == n
  {
    if n == 0 then [] else RowColors(pixel, row, n - 1) + [pixel(row, n - 1)]
  }

  /** Column c of a row is the pixel at (row, c). */
  lemma {:induction false} RowPixel(pixel: (nat, nat) -> Colors.Color, row: nat, n: nat, c: nat)
    requires c < n
    ensures RowColors(pixel, row, n)[c] == pixel(row, c)
  {
    if c < n - 1 {
      RowPixel(pixel, row, n - 1, c);
    }
  }

  /** The pixels of rows rowStart up to rowEnd, row after row; nothing when the range is empty. */
  function ChunkColors(pixel: (nat, nat) -> Colors.Color, width: nat, rowStart: nat, rowEnd: nat): seq<Colors.Color>
    decreases rowEnd
  {
    if rowEnd <= rowStart then []
    else ChunkColors(pixel, width, rowStart, rowEnd - 1) + RowColors(pixel, rowEnd - 1, width)
  }

  /** A range of rows gives `width` pixels per row. */
  lemma {:induction false} ChunkLength(pixel: (nat, nat) -> Colors.Color, width: nat, rowStart: nat, rowEnd: nat)
    requires rowStart <= rowEnd
    ensures |ChunkColors(pixel, width, rowStart, rowEnd)| == width * (rowEnd - rowStart)
    decreases rowEnd
  {
    if rowStart < rowEnd {
      ChunkLength(pixel, width, rowStart, rowEnd - 1);
      assert width * (rowEnd - rowStart) == width * (rowEnd - 1 - rowStart) + width;
    }
  }

  /** Every thread's rows end within the image, so `height - row - 1` never goes below zero. */
  lemma ChunkWithinHeight(width: nat, height: nat, threads: nat, t: nat)
    requires t < threads
    ensures RowEnd(width, Blocks(height, threads), t) <= height
  {
    var b := Blocks(height, threads);
    BlocksBound(height, threads);
    MulMono(t + 1, threads, b);
  }

  /** The threads' row ranges come one after another: each ends no later than every later one starts. */
  lemma ChunksInOrder(width: nat, height: nat, threads: nat, t: nat, u: nat)
    requires t < u
    ensures RowEnd(width, Blocks(height, threads), t) <= u * Blocks(height, threads)
  {
    MulMono(t + 1, u, Blocks(height, threads));
  }

  /** The rows of thread t, from `t * blocks` to `RowEnd`. */
  function ThreadColors(pixel: (nat, nat) -> Colors.Color, width: nat, height: nat, threads: nat, t: nat): seq<Colors.Color>
  {
    var b := Blocks(height, threads);
    ChunkColors(pixel, width, t * b, RowEnd(width, b, t))
  }

  /** The pixels of the first t threads' chunks, in thread order. */
  function ImageColors(pixel: (nat, nat) -> Colors.Color, width: nat, height: nat, threads: nat, t: nat): seq<Colors.Color>
  {
    if t == 0 then []
    else ImageColors(pixel, width, height, threads, t - 1) + ThreadColors(pixel, width, height, threads, t - 1)
  }

  /** The rows the first t threads render: all rows below the smaller of width and t * blocks. */
  function Covered(width: nat, blocks: nat, t: nat): nat
  {
    if width < t * blocks then width else t * blocks
  }

  /** Adjacent row ranges join into one. */
  lemma {:induction false} ChunksJoin(pixel: (nat, nat) -> Colors.Color, width: nat, a: nat, b: nat, c: nat)
    requires a <= b <= c
    ensures ChunkColors(pixel, width, a, c) == ChunkColors(pixel, width, a, b) + ChunkColors(pixel, width, b, c)
    decreases c
  {
    if c > b {
      ChunksJoin(pixel, width, a, b, c - 1);
      var row := RowColors(pixel, c - 1, width);
      var ab, bc := ChunkColors(pixel, width, a, b), ChunkColors(pixel, width, b, c - 1);
      assert ChunkColors(pixel, width, a, c) == ab + bc + row;
      assert ChunkColors(pixel, width, b, c) == bc + row;
      assert ab + bc + row == ab + (bc + row);
    }
  }

  /** Which rows thread t adds to the first t - 1 threads' rows. */
  lemma CoveredStep(width: nat, height: nat, threads: nat, t: nat)
    requires 0 < t <= threads
    ensures var b := Blocks(height, threads);
            var start := (t - 1) * b;
            && Covered(width, b, t) <= height
            && (width <= start ==> Covered(width, b, t - 1) == width && RowEnd(width, b, t - 1) <= start
                                   && Covered(width, b, t) == width)
            && (start < width ==> Covered(width, b, t - 1) == start && RowEnd(width, b, t - 1) == Covered(width, b, t))
  {
    var b := Blocks(height, threads);
    ChunkWithinHeight(width, height, threads, t - 1);
    assert t * b == (t - 1) * b + b;
    assert b * (t - 1 + 1) == t * b;
  }

  /**
   * The first t threads together render exactly the rows 0 up to `Covered`, in order: the
   * ranges are contiguous, and once `width` cuts them off the later ones are empty.
   */
  lemma {:induction false} ImageIsFirstRows(pixel: (nat, nat) -> Colors.Color, width: nat, height: nat, threads: nat, t: nat)
    requires t <= threads
    ensures Covered(width, Blocks(height, threads), t) <= height
    ensures ImageColors(pixel, width, height, threads, t) == ChunkColors(pixel, width, 0, Covered(width, Blocks(height, threads), t))
  {
    var b := Blocks(height, threads);
    if t > 0 {
      ImageIsFirstRows(pixel, width, height, threads, t - 1);
      CoveredStep(width, height, threads, t);
      var start := (t - 1) * b;
      if start < width {
        ChunksJoin(pixel, width, 0, start, RowEnd(width, b, t - 1));
      }
    }
  }

  /** The pixel at (row, col) of the rows 0 up to e sits at index row * width + col. */
  lemma {:induction false} FirstRowsPixel(pixel: (nat, nat) -> Colors.Color, width: nat, e: nat, row: nat, col: nat)
    requires row < e && col < width
    ensures row * width + col < |ChunkColors(pixel, width, 0, e)|
    ensures ChunkColors(pixel, width, 0, e)[row * width + col] == pixel(row, col)
    decreases e
  {
    var before := ChunkColors(pixel, width, 0, e - 1);
    ChunkLength(pixel, width, 0, e - 1);
    if row < e - 1 {
      FirstRowsPixel(pixel, width, e - 1, row, col);
    } else {
      assert row * width == width * (e - 1);
      RowPixel(pixel, row, width, col);
    }
  }

  /** The whole image of `render` over a world: every thread's chunk, in thread order. */
  function Image(env: Env, world: World, scene: Scene, width: nat, height: nat, samples: nat, depth: int, threads: nat,
                 draws: (nat, nat, nat) -> SampleDraws): seq<Colors.Color>
  {
    ImageColors(Pixels(env, world, scene, width, height, samples, depth, draws), width, height, threads, threads)
  }

  /** The image holds `width` pixels for each row below the smaller of `width` and `blocks * threads`. */
  lemma ImageLength(env: Env, world: World, scene: Scene, width: nat, height: nat, samples: nat, depth: int, threads: nat,
                    draws: (nat, nat, nat) -> SampleDraws)
    ensures Covered(width, Blocks(height, threads), threads) <= height
    ensures |Image(env, world, scene, width, height, samples, depth, threads, draws)| == width * Covered(width, Blocks(height, threads), threads)
  {
    var pixel := Pixels(env, world, scene, width, height, samples, depth, draws);
    ImageIsFirstRows(pixel, width, height, threads, threads);
    ChunkLength(pixel, width, 0, Covered(width, Blocks(height, threads), threads));
  }

  /** In the threads' rows, the pixel at (row, col) sits at index row * width + col. */
  lemma ImageColorsPixel(pixel: (nat, nat) -> Colors.Color, width: nat, height: nat, threads: nat, row: nat, col: nat)
    requires row < Covered(width, Blocks(height, threads), threads) && col < width
    ensures var image := ImageColors(pixel, width, height, threads, threads);
            && row < height && row * width + col < |image|
            && image[row * width + col] == pixel(row, col)
  {
    ImageIsFirstRows(pixel, width, height, threads, threads);
    FirstRowsPixel(pixel, width, Covered(width, Blocks(height, threads), threads), row, col);
  }

  /** The rows are laid out one after another, each in column order, each pixel its samples' sum. */
  lemma ImagePixel(env: Env, world: World, scene: Scene, width: nat, height: nat, samples: nat, depth: int, threads: nat,
                   draws: (nat, nat, nat) -> SampleDraws, row: nat, col: nat)
    requires row < Covered(width, Blocks(height, threads), threads) && col < width
    ensures var image := Image(env, world, scene, width, height, samples, depth, threads, draws);
            && row < height && row * width + col < |image|
            && image[row * width + col] == PixelColor(env, world, scene, width, height, depth, row, col, draws, samples)
  {
    var pixel := Pixels(env, world, scene, width, height, samples, depth, draws);
    ImageColorsPixel(pixel, width, height, threads, row, col);
  }

  /** A positive factor can be cancelled. */
  lemma MulCancel(w: nat, x: nat, y: nat)
    requires w > 0
    ensures w * x == w * y <==> x == y
  {
    if x < y {
      MulMono(x + 1, y, w);
    } else if y < x {
      MulMono(y + 1, x, w);
    }
  }

  /** The threads cover every row exactly when their count divides the height and the width is at least the height. */
  lemma CoveredIsHeightIff(width: nat, height: nat, threads: nat)
    requires threads > 0
    ensures Covered(width, Blocks(height, threads), threads) == height <==> height % threads == 0 && width >= height
  {
    var b := Blocks(height, threads);
    BlocksBound(height, threads);
    assert threads * b == b * threads;
  }

  /** `width * Covered` is all of `width * height` exactly when threads divides height and width >= height. */
  lemma CoveredAllIff(width: nat, height: nat, threads: nat)
    requires threads > 0 && width > 0
    ensures width * Covered(width, Blocks(height, threads), threads) == width * height
            <==> height % threads == 0 && width >= height
  {
    CoveredIsHeightIff(width, height, threads);
    MulCancel(width, Covered(width, Blocks(height, threads), threads), height);
  }

  /**
   * With at least one thread and a non-empty row, the image has all `width * height` pixels
   * exactly when the thread count divides the height and the width is at least the height;
   * otherwise the trailing rows are missing.
   */
  lemma FullImageIff(env: Env, world: World, scene: Scene, width: nat, height: nat, samples: nat, depth: int, threads: nat,
                     draws: (nat, nat, nat) -> SampleDraws)
    requires threads > 0 && width > 0
    ensures |Image(env, world, scene, width, height, samples, depth, threads, draws)| == width * height
            <==> height % threads == 0 && width >= height
  {
    ImageLength(env, world, scene, width, height, samples, depth, threads, draws);
    CoveredAllIff(width, height, threads);
  }

  // ---------------------------------------------------------------------------------------
  // render, run thread after thread
  // ---------------------------------------------------------------------------------------

  /** The sample loop of one pixel: `Color::default()` plus each sample's colour, in order. */
  method RenderPixel(env: Env, world: World, scene: Scene, width: nat, height: nat, samples: nat, depth: int, row: nat, col: nat,
                     draws: (nat, nat, nat) -> SampleDraws) returns (color: Colors.Color)
    requires row < height && col < width
    ensures color == PixelColor(env, world, scene, width, height, depth, row, col, draws, samples)
  {
    color := Colors.Black();
    for k := 0 to samples
      invariant color == PixelColor(env, world, scene, width, height, depth, row, col, draws, k)
    {
      var d := draws(row, col, k);
      var ray := SampleRay(scene, width, height, row, col, d);
      var c := GetColor(env, world, scene.background, ray, depth, d.path);
      assert PixelColor(env, world, scene, width, height, depth, row, col, draws, k + 1) == Colors.Add(color, c);
      color := Colors.Add(color, c);
    }
  }

  /** The column loop of one row: every pixel pushed in column order. */
  method RenderRow(env: Env, world: World, scene: Scene, width: nat, height: nat, samples: nat, depth: int, row: nat,
                   draws: (nat, nat, nat) -> SampleDraws) returns (result: seq<Colors.Color>)
    requires row < height
    ensures result == RowColors(Pixels(env, world, scene, width, height, samples, depth, draws), row, width)
  {
    ghost var pixel := Pixels(env, world, scene, width, height, samples, depth, draws);
    result := [];
    for col := 0 to width
      invariant result == RowColors(pixel, row, col)
    {
      var color := RenderPixel(env, world, scene, width, height, samples, depth, row, col, draws);
      assert color == pixel(row, col);
      result := result + [color];
    }
  }

  /** One row more at the end of a range adds that row's pixels. */
  lemma ChunkStep(pixel: (nat, nat) -> Colors.Color, width: nat, rowStart: nat, row: nat)
    requires rowStart <= row
    ensures ChunkColors(pixel, width, rowStart, row + 1) == ChunkColors(pixel, width, rowStart, row) + RowColors(pixel, row, width)
  {
  }

  /** Appending row `row` to the rows from rowStart up to it gives the rows up to row + 1. */
  lemma ChunkAppend(pixel: (nat, nat) -> Colors.Color, width: nat, rowStart: nat, row: nat,
                    before: seq<Colors.Color>, rowColors: seq<Colors.Color>)
    requires rowStart <= row
    requires before == ChunkColors(pixel, width, rowStart, row) && rowColors == RowColors(pixel, row, width)
    ensures before + rowColors == ChunkColors(pixel, width, rowStart, row + 1)
  {
    ChunkStep(pixel, width, rowStart, row);
  }

  /** The row loop of one thread over a non-empty or empty range of rows, in order. */
  method RenderRows(env: Env, world: World, scene: Scene, width: nat, height: nat, samples: nat, depth: int,
                    draws: (nat, nat, nat) -> SampleDraws, rowStart: nat, rowEnd: nat) returns (result: seq<Colors.Color>)
    requires rowStart <= rowEnd <= height
    ensures result == ChunkColors(Pixels(env, world, scene, width, height, samples, depth, draws), width, rowStart, rowEnd)
  {
    ghost var pixel := Pixels(env, world, scene, width, height, samples, depth, draws);
    result := [];
    for row := rowStart to rowEnd
      invariant result == ChunkColors(pixel, width, rowStart, row)
    {
      var rowColors := RenderRow(env, world, scene, width, height, samples, depth, row, draws);
      ChunkAppend(pixel, width, rowStart, row, result, rowColors);
      result := result + rowColors;
    }
  }

  /** One thread's work: the pixels of each of its rows, row after row; none when the range is empty. */
  method RenderChunk(env: Env, world: World, scene: Scene, width: nat, height: nat, samples: nat, depth: int,
                     draws: (nat, nat, nat) -> SampleDraws, rowStart: nat, rowEnd: nat) returns (result: seq<Colors.Color>)
    requires rowEnd <= height
    ensures result == ChunkColors(Pixels(env, world, scene, width, height, samples, depth, draws), width, rowStart, rowEnd)
  {
    if rowEnd <= rowStart {
      result := [];
    } else {
      result := RenderRows(env, world, scene, width, height, samples, depth, draws, rowStart, rowEnd);
    }
  }

  /** The spawn loop of `render`: thread t renders its rows into a vector of its own. */
  method SpawnThreads(env: Env, world: World, scene: Scene, width: nat, height: nat, samples: nat, depth: int, threads: nat,
                      draws: (nat, nat, nat) -> SampleDraws) returns (handles: seq<seq<Colors.Color>>)
    ensures |handles| == threads
    ensures forall t :: 0 <= t < threads ==>
              handles[t] == ThreadColors(Pixels(env, world, scene, width, height, samples, depth, draws), width, height, threads, t)
  {
    ghost var pixel := Pixels(env, world, scene, width, height, samples, depth, draws);
    var blocks := Blocks(height, threads);
    handles := [];
    for thrd := 0 to threads
      invariant |handles| == thrd
      invariant forall i :: 0 <= i < thrd ==> handles[i] == ThreadColors(pixel, width, height, threads, i)
    {
      ChunkWithinHeight(width, height, threads, thrd);
      var result := RenderChunk(env, world, scene, width, height, samples, depth, draws, thrd * blocks, RowEnd(width, blocks, thrd));
      assert result == ThreadColors(pixel, width, height, threads, thrd);
      handles := handles + [result];
    }
  }

  /** The join loop of `render`: the threads' vectors appended in thread order. */
  method JoinThreads(ghost pixel: (nat, nat) -> Colors.Color, width: nat, height: nat, threads: nat,
                     handles: seq<seq<Colors.Color>>) returns (image: seq<Colors.Color>)
    requires |handles| == threads
    requires forall t :: 0 <= t < threads ==> handles[t] == ThreadColors(pixel, width, height, threads, t)
    ensures image == ImageColors(pixel, width, height, threads, threads)
  {
    image := [];
    for idx := 0 to |handles|
      invariant image == ImageColors(pixel, width, height, threads, idx)
    {
      image := image + handles[idx];
    }
  }

  /**
   * `render`: each thread renders its rows into a vector of its own, and the vectors are
   * appended in thread order.
   */
  method Render(env: Env, scene: Scene, width: nat, height: nat, samples: nat, depth: int, threads: nat,
                draws: (nat, nat, nat) -> SampleDraws) returns (image: seq<Colors.Color>)
    ensures image == Image(env, WorldOf(env, scene.objects), scene, width, height, samples, depth, threads, draws)
  {
    var world := WorldOf(env, scene.objects);
    var handles := SpawnThreads(env, world, scene, width, height, samples, depth, threads, draws);
    image := JoinThreads(Pixels(env, world, scene, width, height, samples, depth, draws), width, height, threads, handles);
  }
}
