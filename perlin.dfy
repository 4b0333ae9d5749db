/** The Perlin noise tables and lookups of src/textures/perlin.rs. */
module Perlin {
  import opened Vectors
  import Utils

  /** `POINT_COUNT`. */
  const PointCount: nat := 256

  /** A permutation table: 256 entries, each a valid index into the tables. */
  predicate IsTable(s: seq<nat>)
  {
    |s| == PointCount && forall i :: 0 <= i < |s| ==> s[i] < PointCount
  }

  /** The fields of `struct Perlin`: 256 random vectors and three permutation tables. */
  datatype PerlinTables = PerlinTables(rnd: seq<Vec3>, x: seq<nat>, y: seq<nat>, z: seq<nat>)

  /** The shape every `Perlin` value has once `Perlin::new` has built it. */
  type Perlin = p: PerlinTables | |p.rnd| == PointCount && IsTable(p.x) && IsTable(p.y) && IsTable(p.z)
    witness PerlinTables(seq(256, _ => Vec3(0.0, 0.0, 0.0)), seq(256, _ => 0), seq(256, _ => 0), seq(256, _ => 0))

  /** The identity `(0..n).collect()`. */
  function Identity(n: nat): (s: seq<nat>)
    ensures |s| == n && forall i :: 0 <= i < n ==> s[i] == i
  {
    seq(n, i => i)
  }

  /** Exchanging two entries. */
  function Swap(s: seq<nat>, i: nat, j: nat): (r: seq<nat>)
    requires i < |s| && j < |s|
    ensures |r| == |s| && r[i] == s[j] && r[j] == s[i]
    ensures forall p :: 0 <= p < |s| && p != i && p != j ==> r[p] == s[p]
  {
    s[i := s[j]][j := s[i]]
  }

  lemma SwapIsPermutation(s: seq<nat>, i: nat, j: nat)
    requires i < |s| && j < |s|
    ensures multiset(Swap(s, i, j)) == multiset(s)
  {
    var t := s[i := s[j]];
    assert multiset(t) == multiset(s) - multiset{s[i]} + multiset{s[j]};
    assert multiset(t[j := s[i]]) == multiset(t) - multiset{t[j]} + multiset{s[i]};
  }

  /**
   * The random choices of `permutate`: step k handles i = 255 - k and draws j from
   * `gen_range(0, i)`, so j < i.
   */
  predicate ValidShuffleDraws(js: seq<nat>)
  {
    |js| == PointCount - 1 && forall k :: 0 <= k < |js| ==> js[k] < PointCount - 1 - k
  }

  /** The table after the first k steps of `permutate`. */
  function ShuffleSteps(s: seq<nat>, js: seq<nat>, k: nat): (r: seq<nat>)
    requires |s| == PointCount && ValidShuffleDraws(js) && k <= |js|
    ensures |r| == PointCount
  {
    if k == 0 then s else Swap(ShuffleSteps(s, js, k - 1), PointCount - k, js[k - 1])
  }

  /** Every step only exchanges two entries, so the table keeps its multiset. */
  lemma {:induction false} ShuffleIsPermutation(s: seq<nat>, js: seq<nat>, k: nat)
    requires |s| == PointCount && ValidShuffleDraws(js) && k <= |js|
    ensures multiset(ShuffleSteps(s, js, k)) == multiset(s)
  {
    if k > 0 {
      ShuffleIsPermutation(s, js, k - 1);
      SwapIsPermutation(ShuffleSteps(s, js, k - 1), PointCount - k, js[k - 1]);
    }
  }

  /** Once step k has run, positions from 256 - k upwards are never touched again. */
  lemma {:induction false} ShuffleKeepsSettled(s: seq<nat>, js: seq<nat>, k: nat, m: nat, p: nat)
    requires |s| == PointCount && ValidShuffleDraws(js) && k <= m <= |js|
    requires PointCount - k <= p < PointCount
    ensures ShuffleSteps(s, js, m)[p] == ShuffleSteps(s, js, k)[p]
  {
    if k < m {
      ShuffleKeepsSettled(s, js, k, m - 1, p);
    }
  }

  /** Step k + 1 exchanges entry 255 - k with entry js[k]. */
  lemma ShuffleStep(s: seq<nat>, js: seq<nat>, k: nat)
    requires |s| == PointCount && ValidShuffleDraws(js) && k < |js|
    ensures ShuffleSteps(s, js, k + 1) == Swap(ShuffleSteps(s, js, k), PointCount - 1 - k, js[k])
  {
  }

  /** The body of the `permutate` loop: entries i and j change places through a temporary. */
  method Exchange(arr: array<nat>, i: nat, j: nat)
    requires i < arr.Length && j < arr.Length
    modifies arr
    ensures arr[..] == Swap(old(arr[..]), i, j)
  {
    var tmp := arr[j];
    arr[j] := arr[i];
    arr[i] := tmp;
  }

  /**
   * `permutate`: for i from 255 down to 1, exchange entry i with an entry j < i chosen by
   * the draws.
   */
  method Permutate(arr: array<nat>, js: seq<nat>)
    requires arr.Length == PointCount && ValidShuffleDraws(js)
    modifies arr
    ensures arr[..] == ShuffleSteps(old(arr[..]), js, PointCount - 1)
    ensures multiset(arr[..]) == multiset(old(arr[..]))
  {
    ghost var original := arr[..];
    var i := PointCount - 1;
    while i >= 1
      invariant 0 <= i <= PointCount - 1
      invariant arr[..] == ShuffleSteps(original, js, PointCount - 1 - i)
    {
      var j := js[PointCount - 1 - i];
      Exchange(arr, i, j);
      ShuffleStep(original, js, PointCount - 1 - i);
      i := i - 1;
    }
    ghost var result := arr[..];
    assert result == ShuffleSteps(original, js, PointCount - 1);
    ShuffleIsPermutation(original, js, PointCount - 1);
    assert multiset(result) == multiset(original);
  }

  /** Each of 0..n-1 occurs once in the identity, nothing else occurs. */
  lemma {:induction false} IdentityCounts(n: nat, v: nat)
    ensures multiset(Identity(n))[v] == (if v < n then 1 else 0)
  {
    if n > 0 {
      assert Identity(n) == Identity(n - 1) + [n - 1];
      IdentityCounts(n - 1, v);
    }
  }

  /** `generate_permutation`: the identity 0..255, shuffled by `permutate`. */
  method GeneratePermutation(js: seq<nat>) returns (perm: seq<nat>)
    requires ValidShuffleDraws(js)
    ensures perm == ShuffleSteps(Identity(PointCount), js, PointCount - 1)
    ensures IsTable(perm)
    ensures forall v: nat :: multiset(perm)[v] == (if v < PointCount then 1 else 0)
  {
    var arr := new nat[PointCount](i => i);
    assert arr[..] == Identity(PointCount);
    Permutate(arr, js);
    perm := arr[..];
    forall v: nat
      ensures multiset(perm)[v] == (if v < PointCount then 1 else 0)
    {
      IdentityCounts(PointCount, v);
    }
    forall i | 0 <= i < |perm|
      ensures perm[i] < PointCount
    {
      assert perm[i] in multiset(perm);
    }
  }

  /** `Perlin::new`: 256 vectors from `random_range(-1, 1)` and three shuffled tables. */
  method NewPerlin(rndDraws: seq<Vec3>, jx: seq<nat>, jy: seq<nat>, jz: seq<nat>) returns (p: Perlin)
    requires |rndDraws| == PointCount && forall k :: 0 <= k < |rndDraws| ==> UnitDraws(rndDraws[k])
    requires ValidShuffleDraws(jx) && ValidShuffleDraws(jy) && ValidShuffleDraws(jz)
    ensures |p.rnd| == PointCount
    ensures forall k :: 0 <= k < |p.rnd| ==> p.rnd[k] == RandomRange(-1.0, 1.0, rndDraws[k])
    ensures p.x == ShuffleSteps(Identity(PointCount), jx, PointCount - 1)
    ensures p.y == ShuffleSteps(Identity(PointCount), jy, PointCount - 1)
    ensures p.z == ShuffleSteps(Identity(PointCount), jz, PointCount - 1)
  {
    var rnd := seq(PointCount, k requires 0 <= k < PointCount => RandomRange(-1.0, 1.0, rndDraws[k]));
    var x := GeneratePermutation(jx);
    var y := GeneratePermutation(jy);
    var z := GeneratePermutation(jz);
    p := PerlinTables(rnd, x, y, z);
  }

  /** `f64::floor(c) as usize`: the saturating cast sends negative floors to 0. */
  function LatticeIndex(c: real): nat
  {
    if c.Floor < 0 then 0 else c.Floor
  }

  /** `c - c.floor()`. */
  function Frac(c: real): (r: real)
    ensures 0.0 <= r < 1.0
  {
    c - c.Floor as real
  }

  /** `2^n`. */
  function Pow2(n: nat): (r: nat)
    ensures r >= 1
  {
    if n == 0 then 1 else 2 * Pow2(n - 1)
  }

  /** The bitwise XOR `a ^ b` of two naturals, lowest bit first. */
  function Xor(a: nat, b: nat): nat
    decreases a + b
  {
    if a == 0 && b == 0 then 0 else 2 * Xor(a / 2, b / 2) + (a + b) % 2
  }

  /** XOR stays within the bits of its operands: below 2^n when both are. */
  lemma {:induction false} XorBound(a: nat, b: nat, n: nat)
    requires a < Pow2(n) && b < Pow2(n)
    ensures Xor(a, b) < Pow2(n)
    decreases n
  {
    if n > 0 && (a != 0 || b != 0) {
      XorBound(a / 2, b / 2, n - 1);
    }
  }

  /** The XOR of three table entries; entries below 256 fit in a byte, so does their XOR. */
  function Xor3(a: nat, b: nat, c: nat): (r: nat)
    requires a < 256 && b < 256 && c < 256
    ensures r < 256
  {
    assert Pow2(8) == 256;
    XorBound(a, b, 8);
    XorBound(Xor(a, b), c, 8);
    Xor(Xor(a, b), c)
  }

  /**
   * The random vector at lattice corner (i + ii, j + jj, k + kk):
   * `rnd[x[(i+ii) & 255] ^ y[(j+jj) & 255] ^ z[(k+kk) & 255]]`; masking with 255 is taking the
   * remainder modulo 256, so every lookup is in bounds.
   */
  function CornerIndex(p: Perlin, i: nat, j: nat, k: nat, ii: nat, jj: nat, kk: nat): (r: nat)
    ensures r < |p.rnd|
  {
    Xor3(p.x[(i + ii) % 256], p.y[(j + jj) % 256], p.z[(k + kk) % 256])
  }

  /** The random vector at corner (ii, jj, kk) of the lattice cell holding the point. */
  function CornerAt(p: Perlin, point: Vec3, ii: nat, jj: nat, kk: nat): Vec3
  {
    p.rnd[CornerIndex(p, LatticeIndex(point.x), LatticeIndex(point.y), LatticeIndex(point.z), ii, jj, kk)]
  }

  /** The first n corner vectors around a point, corner (ii, jj, kk) at position 4 ii + 2 jj + kk. */
  function CornersUpTo(p: Perlin, point: Vec3, n: nat): (c: seq<Vec3>)
    requires n <= 8
    ensures |c| == n
  {
    if n == 0 then [] else CornersUpTo(p, point, n - 1) + [CornerAt(p, point, (n - 1) / 4, ((n - 1) / 2) % 2, (n - 1) % 2)]
  }

  /** The eight corner vectors around a point. */
  function Corners(p: Perlin, point: Vec3): (c: seq<Vec3>)
    ensures |c| == 8
  {
    CornersUpTo(p, point, 8)
  }

  /** Position m of the first n corners holds corner (m / 4, (m / 2) % 2, m % 2). */
  lemma {:induction false} CornersUpToAt(p: Perlin, point: Vec3, n: nat, m: nat)
    requires m < n <= 8
    ensures CornersUpTo(p, point, n)[m] == CornerAt(p, point, m / 4, (m / 2) % 2, m % 2)
  {
    if m < n - 1 {
      CornersUpToAt(p, point, n - 1, m);
    }
  }

  /** Position 4 ii + 2 jj + kk of the corner sequence holds corner (ii, jj, kk). */
  lemma CornerPosition(p: Perlin, point: Vec3, ii: nat, jj: nat, kk: nat)
    requires ii < 2 && jj < 2 && kk < 2
    ensures Corners(p, point)[4 * ii + 2 * jj + kk] == CornerAt(p, point, ii, jj, kk)
  {
    var n := 4 * ii + 2 * jj + kk;
    assert n / 4 == ii && (n / 2) % 2 == jj && n % 2 == kk;
    CornersUpToAt(p, point, 8, n);
  }

  /**
   * The nested loops of `noise` that fill the 2x2x2 value array `c`, held flat: cell
   * (ii, jj, kk) at position 4 ii + 2 jj + kk.
   */
  method NoiseCorners(p: Perlin, point: Vec3) returns (c: seq<Vec3>)
    ensures c == Corners(p, point)
  {
    c := seq(8, _ => Vec3(0.0, 0.0, 0.0));
    for ii := 0 to 2
      invariant |c| == 8
      invariant forall n :: 0 <= n < 4 * ii ==> c[n] == Corners(p, point)[n]
    {
      for jj := 0 to 2
        invariant |c| == 8
        invariant forall n :: 0 <= n < 4 * ii + 2 * jj ==> c[n] == Corners(p, point)[n]
      {
        for kk := 0 to 2
          invariant |c| == 8
          invariant forall n :: 0 <= n < 4 * ii + 2 * jj + kk ==> c[n] == Corners(p, point)[n]
        {
          CornerPosition(p, point, ii, jj, kk);
          c := c[4 * ii + 2 * jj + kk := CornerAt(p, point, ii, jj, kk)];
        }
      }
    }
  }

  /**
   * The smoothstep `u * u * (3 - 2 u)` of `perlin_interpolation`: it maps [0, 1] onto itself,
   * fixing both ends, so each corner weight stays a fraction.
   */
  function Smooth(u: real): (r: real)
    ensures 0.0 <= u <= 1.0 ==> 0.0 <= r <= 1.0
    ensures u == 0.0 ==> r == 0.0
    ensures u == 1.0 ==> r == 1.0
  {
    var r := u * u * (3.0 - 2.0 * u);
    assert 0.0 <= u <= 1.0 ==> 0.0 <= r <= 1.0 by {
      if 0.0 <= u <= 1.0 {
        Utils.MulNonneg(u * u, 3.0 - 2.0 * u);
        Utils.MulNonneg((1.0 - u) * (1.0 - u), 1.0 + 2.0 * u);
        assert 1.0 - r == (1.0 - u) * (1.0 - u) * (1.0 + 2.0 * u);
      }
    }
    r
  }

  /** The smoothstep is symmetric about 1/2: the weight of the far corner is the complement. */
  lemma SmoothComplement(u: real)
    ensures Smooth(1.0 - u) == 1.0 - Smooth(u)
  {
    assert (1.0 - u) * (1.0 - u) * (3.0 - 2.0 * (1.0 - u)) == 1.0 - u * u * (3.0 - 2.0 * u);
  }

  /** The weight of corner bit `i` along one axis: the smoothed offset for 1, its complement for 0. */
  function CornerWeight(i: nat, uu: real): real
  {
    i as real * uu + (1.0 - i as real) * (1.0 - uu)
  }

  /**
   * The contribution of corner (i, j, k) to `perlin_interpolation`, given the smoothed offsets
   * uu, vv, ww.
   */
  function Term(c: seq<Vec3>, u: real, v: real, w: real, uu: real, vv: real, ww: real, i: nat, j: nat, k: nat): real
    requires |c| == 8 && i < 2 && j < 2 && k < 2
  {
    var weight := Vec3(u - i as real, v - j as real, w - k as real);
    CornerWeight(i, uu) * CornerWeight(j, vv) * CornerWeight(k, ww) * Dot(c[4 * i + 2 * j + k], weight)
  }

  /** The sum of the first n terms, in the loop order of `perlin_interpolation`. */
  function PartialInterpolation(c: seq<Vec3>, u: real, v: real, w: real, n: nat): real
    requires |c| == 8 && n <= 8
  {
    if n == 0 then 0.0
    else
      PartialInterpolation(c, u, v, w, n - 1)
        + Term(c, u, v, w, Smooth(u), Smooth(v), Smooth(w), (n - 1) / 4, ((n - 1) / 2) % 2, (n - 1) % 2)
  }

  /** `perlin_interpolation`: the smoothly weighted sum over the eight corners. */
  function Interpolation(c: seq<Vec3>, u: real, v: real, w: real): real
    requires |c| == 8
  {
    PartialInterpolation(c, u, v, w, 8)
  }

  /** Term number 4 i + 2 j + k of the sum is the term of corner (i, j, k). */
  lemma InterpolationStep(c: seq<Vec3>, u: real, v: real, w: real, i: nat, j: nat, k: nat)
    requires |c| == 8 && i < 2 && j < 2 && k < 2
    ensures PartialInterpolation(c, u, v, w, 4 * i + 2 * j + k + 1)
         == PartialInterpolation(c, u, v, w, 4 * i + 2 * j + k) + Term(c, u, v, w, Smooth(u), Smooth(v), Smooth(w), i, j, k)
  {
    var n := 4 * i + 2 * j + k;
    assert n / 4 == i && (n / 2) % 2 == j && n % 2 == k;
  }

  /** The innermost loop of `perlin_interpolation`: corners (i, j, 0) and (i, j, 1). */
  method InterpolateOverK(c: seq<Vec3>, u: real, v: real, w: real, i: nat, j: nat, acc0: real) returns (acc: real)
    requires |c| == 8 && i < 2 && j < 2
    requires acc0 == PartialInterpolation(c, u, v, w, 4 * i + 2 * j)
    ensures acc == PartialInterpolation(c, u, v, w, 4 * i + 2 * j + 2)
  {
    var uu := Smooth(u);
    var vv := Smooth(v);
    var ww := Smooth(w);
    acc := acc0;
    for k := 0 to 2
      invariant acc == PartialInterpolation(c, u, v, w, 4 * i + 2 * j + k)
    {
      InterpolationStep(c, u, v, w, i, j, k);
      acc := acc + Term(c, u, v, w, uu, vv, ww, i, j, k);
    }
  }

  /** The middle loop of `perlin_interpolation`: corners (i, 0, _) and (i, 1, _). */
  method InterpolateOverJ(c: seq<Vec3>, u: real, v: real, w: real, i: nat, acc0: real) returns (acc: real)
    requires |c| == 8 && i < 2
    requires acc0 == PartialInterpolation(c, u, v, w, 4 * i)
    ensures acc == PartialInterpolation(c, u, v, w, 4 * i + 4)
  {
    acc := acc0;
    for j := 0 to 2
      invariant acc == PartialInterpolation(c, u, v, w, 4 * i + 2 * j)
    {
      acc := InterpolateOverK(c, u, v, w, i, j, acc);
    }
  }

  /** The nested loops of `perlin_interpolation`. */
  method InterpolationLoop(c: seq<Vec3>, u: real, v: real, w: real) returns (acc: real)
    requires |c| == 8
    ensures acc == Interpolation(c, u, v, w)
  {
    acc := 0.0;
    for i := 0 to 2
      invariant acc == PartialInterpolation(c, u, v, w, 4 * i)
    {
      acc := InterpolateOverJ(c, u, v, w, i, acc);
    }
  }

  /** At a lattice point every corner term vanishes, so the interpolation is 0. */
  lemma {:induction false} InterpolationAtCorner(c: seq<Vec3>)
    requires |c| == 8
    ensures Interpolation(c, 0.0, 0.0, 0.0) == 0.0
  {
    assert Smooth(0.0) == 0.0;
    forall n | 0 <= n <= 8
      ensures PartialInterpolation(c, 0.0, 0.0, 0.0, n) == 0.0
    {
      PartialAtCornerZero(c, n);
    }
  }

  lemma {:induction false} PartialAtCornerZero(c: seq<Vec3>, n: nat)
    requires |c| == 8 && n <= 8
    ensures PartialInterpolation(c, 0.0, 0.0, 0.0, n) == 0.0
  {
    if n > 0 {
      PartialAtCornerZero(c, n - 1);
      var i, j, k := (n - 1) / 4, ((n - 1) / 2) % 2, (n - 1) % 2;
      assert Smooth(0.0) == 0.0;
      if i == 0 && j == 0 && k == 0 {
        assert Dot(c[0], Vec3(0.0, 0.0, 0.0)) == 0.0;
      } else if i == 1 {
        assert CornerWeight(i, 0.0) == 0.0;
      } else if j == 1 {
        assert CornerWeight(j, 0.0) == 0.0;
      } else {
        assert CornerWeight(k, 0.0) == 0.0;
      }
    }
  }

  /** `noise`: the interpolation of the corner vectors at the fractional offsets. */
  function Noise(p: Perlin, point: Vec3): real
  {
    Interpolation(Corners(p, point), Frac(point.x), Frac(point.y), Frac(point.z))
  }

  /** `noise` as the source computes it: fill the corner array, then interpolate. */
  method NoiseAt(p: Perlin, point: Vec3) returns (n: real)
    ensures n == Noise(p, point)
  {
    var c := NoiseCorners(p, point);
    n := InterpolationLoop(c, Frac(point.x), Frac(point.y), Frac(point.z));
  }

  /** Perlin noise vanishes on the integer lattice, whatever the tables hold. */
  lemma NoiseVanishesOnLattice(p: Perlin, point: Vec3)
    requires OnLattice(point)
    ensures Noise(p, point) == 0.0
  {
    InterpolationAtCorner(Corners(p, point));
  }

  /** The point after k rounds of `tmp_point = tmp_point * 2.0`. */
  function Doubled(point: Vec3, k: nat): Vec3
  {
    if k == 0 then point else Scale(Doubled(point, k - 1), 2.0)
  }

  /** The weight after k rounds of `weight *= 0.5`. */
  function Halved(k: nat): real
  {
    if k == 0 then 1.0 else Halved(k - 1) * 0.5
  }

  /** Perlin noise as a function of the point. */
  function NoiseField(p: Perlin): Vec3 -> real
  {
    x => Noise(p, x)
  }

  /** The octave sum of `turbulence` over the first `depth` rounds, for a given noise function. */
  function Octaves(noise: Vec3 -> real, point: Vec3, depth: nat): real
  {
    if depth == 0 then 0.0
    else Octaves(noise, point, depth - 1) + Halved(depth - 1) * noise(Doubled(point, depth - 1))
  }

  /** `turbulence`: the absolute value of the octave sum of Perlin noise. */
  function Turbulence(p: Perlin, point: Vec3, depth: nat): (r: real)
    ensures r >= 0.0
    ensures r == Octaves(NoiseField(p), point, depth) || r == -Octaves(NoiseField(p), point, depth)
  {
    var acc := Octaves(NoiseField(p), point, depth);
    if acc < 0.0 then -acc else acc
  }

  /** One round of the loop adds the weighted noise at the current point. */
  lemma OctaveStep(noise: Vec3 -> real, point: Vec3, round: nat, tmp: Vec3, weight: real, acc: real, n: real)
    requires acc == Octaves(noise, point, round) && tmp == Doubled(point, round) && weight == Halved(round)
    requires n == noise(tmp)
    ensures acc + weight * n == Octaves(noise, point, round + 1)
    ensures weight * 0.5 == Halved(round + 1) && Scale(tmp, 2.0) == Doubled(point, round + 1)
  {
  }

  /** The loop of `turbulence`: `depth` rounds, halving the weight and doubling the point. */
  method OctaveLoop(p: Perlin, point: Vec3, depth: nat) returns (acc: real)
    ensures acc == Octaves(NoiseField(p), point, depth)
  {
    acc := 0.0;
    var tmp := point;
    var weight := 1.0;
    for round := 0 to depth
      invariant acc == Octaves(NoiseField(p), point, round)
      invariant tmp == Doubled(point, round) && weight == Halved(round)
    {
      var n := NoiseAt(p, tmp);
      assert n == NoiseField(p)(tmp);
      OctaveStep(NoiseField(p), point, round, tmp, weight, acc, n);
      acc := acc + weight * n;
      weight := weight * 0.5;
      tmp := Scale(tmp, 2.0);
    }
  }

  /** `turbulence`: the octave loop, then the absolute value of the sum. */
  method TurbulenceLoop(p: Perlin, point: Vec3, depth: nat) returns (r: real)
    ensures r == Turbulence(p, point, depth)
  {
    var acc := OctaveLoop(p, point, depth);
    r := if acc < 0.0 then -acc else acc;
  }

  /** A point with integer coordinates. */
  predicate OnLattice(point: Vec3)
  {
    point.x == point.x.Floor as real && point.y == point.y.Floor as real && point.z == point.z.Floor as real
  }

  /** Doubling keeps a point on the integer lattice. */
  lemma {:induction false} DoubledOnLattice(point: Vec3, k: nat)
    requires OnLattice(point)
    ensures OnLattice(Doubled(point, k))
  {
    if k > 0 {
      DoubledOnLattice(point, k - 1);
      var q := Doubled(point, k - 1);
      assert (2.0 * q.x).Floor == 2 * q.x.Floor;
      assert (2.0 * q.y).Floor == 2 * q.y.Floor;
      assert (2.0 * q.z).Floor == 2 * q.z.Floor;
    }
  }

  /** Every octave samples a lattice point, so turbulence vanishes on the integer lattice. */
  lemma {:induction false} TurbulenceVanishesOnLattice(p: Perlin, point: Vec3, depth: nat)
    requires OnLattice(point)
    ensures Turbulence(p, point, depth) == 0.0
  {
    OctavesVanish(p, point, depth);
  }

  /** Octaves of a noise that is zero at every doubled point sum to zero. */
  lemma {:induction false} OctavesOfZeros(noise: Vec3 -> real, point: Vec3, depth: nat)
    requires forall k: nat :: k < depth ==> noise(Doubled(point, k)) == 0.0
    ensures Octaves(noise, point, depth) == 0.0
  {
    if depth > 0 {
      OctavesOfZeros(noise, point, depth - 1);
    }
  }

  /** On the lattice every octave samples a lattice point, so the octave sum is zero. */
  lemma OctavesVanish(p: Perlin, point: Vec3, depth: nat)
    requires OnLattice(point)
    ensures Octaves(NoiseField(p), point, depth) == 0.0
  {
    forall k: nat | k < depth
      ensures NoiseField(p)(Doubled(point, k)) == 0.0
    {
      DoubledOnLattice(point, k);
      NoiseVanishesOnLattice(p, Doubled(point, k));
    }
    OctavesOfZeros(NoiseField(p), point, depth);
  }
}
