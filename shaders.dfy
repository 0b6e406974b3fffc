/** The vertex shader and the ten procedural materials of src/shaders.rs.
    Sines and noise samples are opaque (Math.sin, Uniforms.noise); what is
    modelled is the arithmetic that builds their arguments, the threshold
    chains that pick a palette entry, the clamped blend weights, and the
    final scaling by the fragment's light intensity. */
module Shaders {
  import opened Linear
  import opened Types
  import opened Bands

  // ---------------------------------------------------------------------
  // Scalar helpers with the semantics of f32::abs, f32::max and f32::clamp

  function Abs(x: real): (r: real)
    ensures r >= 0.0 && (r == x || r == -x)
  {
    if x < 0.0 then -x else x
  }

  function Max(x: real, y: real): (r: real)
    ensures r >= x && r >= y && (r == x || r == y)
  {
    if x > y then x else y
  }

  /** f32::clamp, which panics unless lo <= hi. */
  function Clamp(x: real, lo: real, hi: real): (r: real)
    requires lo <= hi
    ensures lo <= r <= hi
    ensures lo <= x <= hi ==> r == x
    ensures x < lo ==> r == lo
    ensures x > hi ==> r == hi
  {
    if x < lo then lo else if x > hi then hi else x
  }

  /** The mean of two noise samples, as (n1 + n2) * 0.5: it lies between
      them, so two samples in [-1, 1] give a mean in [-1, 1]. */
  function Mean(a: real, b: real): (r: real)
    ensures a <= b ==> a <= r <= b
    ensures b <= a ==> b <= r <= a
  {
    (a + b) * 0.5
  }

  // ---------------------------------------------------------------------
  // Vertex shader

  /** The normal matrix: the inverse of the transposed upper 3x3 of the
      model matrix, or the identity when that has no inverse. */
  function NormalMatrix(model: Mat4): Mat3 {
    UnwrapOr(TryInverse3(Transpose3(Mat4ToMat3(model))), Identity3())
  }

  /** The clip-space position: projection * view * model applied to (p, 1). */
  function Clip(p: Vec3, u: Uniforms): Vec4 {
    MulVec4(Mul4(Mul4(u.projection, u.view), u.model), Vec4(p.x, p.y, p.z, 1.0))
  }

  /** The perspective divide: x, y and z of the clip position divided by its
      w, and w set to 1. With a division that is exact for non-zero
      divisors, scaling the result back by w gives the clip position. */
  function Ndc(p: Vec3, u: Uniforms, m: Math): (r: Vec4)
    ensures r.w == 1.0
    ensures var clip := Clip(p, u);
      ExactDiv(m) && clip.w != 0.0 ==>
        Vec4(r.x * clip.w, r.y * clip.w, r.z * clip.w, clip.w) == clip
  {
    var clip := Clip(p, u);
    Vec4(m.div(clip.x, clip.w), m.div(clip.y, clip.w), m.div(clip.z, clip.w), 1.0)
  }

  /** The viewport matrix applied to the divided position. */
  function ScreenPosition(p: Vec3, u: Uniforms, m: Math): Vec3 {
    var screen := MulVec4(u.viewport, Ndc(p, u, m));
    Vec3(screen.x, screen.y, screen.z)
  }

  /** vertex_shader: copies the four input fields and fills in the two
      transformed ones. */
  function VertexShader(v: Vertex, u: Uniforms, m: Math): (r: Vertex)
    ensures r.position == v.position && r.normal == v.normal
    ensures r.texCoords == v.texCoords && r.color == v.color
  {
    Vertex(v.position, v.normal, v.texCoords, v.color,
           ScreenPosition(v.position, u, m),
           MulVec3(NormalMatrix(u.model), v.normal))
  }

  /** A singular model matrix leaves the normal untransformed. */
  lemma SingularModelKeepsNormal(v: Vertex, u: Uniforms, m: Math)
    requires Det3(Mat4ToMat3(u.model)) == 0.0
    ensures VertexShader(v, u, m).transformedNormal == v.normal
  {
    DetTranspose3(Mat4ToMat3(u.model));
    IdentityMulVec3(v.normal);
  }

  /** Any other model matrix transforms the normal by the inverse of its
      transposed 3x3 block. */
  lemma RegularModelTransformsNormal(v: Vertex, u: Uniforms, m: Math)
    requires Det3(Mat4ToMat3(u.model)) != 0.0
    ensures VertexShader(v, u, m).transformedNormal
         == MulVec3(TryInverse3(Transpose3(Mat4ToMat3(u.model))).value, v.normal)
    ensures MulMat3(Transpose3(Mat4ToMat3(u.model)), NormalMatrix(u.model)) == Identity3()
  {
    DetTranspose3(Mat4ToMat3(u.model));
    TryInverse3IsInverse(Transpose3(Mat4ToMat3(u.model)));
  }

  // ---------------------------------------------------------------------
  // Fragment shader dispatch

  /** fragment_shader: selectors 0 to 9 name the ten materials, any other
      selector falls back to planeta_mancha. Every material ends by scaling
      its colour by the fragment's light intensity. */
  function FragmentShader(f: Fragment, u: Uniforms, m: Math, shader: U8): (c: Color)
    ensures c.Scaled? && c.factor == f.intensity
  {
    match shader
    case 0 => Neon(f, u, m)
    case 1 => Raro(f, u, m)
    case 2 => Saturno(f, u, m)
    case 3 => Azul(f, u, m)
    case 4 => Celular(f, u, m)
    case 5 => Mancha(f, u, m)
    case 6 => Sol(f, u, m)
    case 7 => Rocoso(f, u, m)
    case 8 => Gaseoso(f, u, m)
    case 9 => Arcilla(f, u, m)
    case _ => Mancha(f, u, m)
  }

  /** An out-of-range selector shades exactly like selector 5. */
  lemma DispatchFallback(f: Fragment, u: Uniforms, m: Math, shader: U8)
    requires shader >= 10
    ensures FragmentShader(f, u, m, shader) == FragmentShader(f, u, m, 5)
    ensures FragmentShader(f, u, m, shader) == Mancha(f, u, m)
  {
  }

  // ---------------------------------------------------------------------
  // planeta_raro (selector 1): five bands on a wave, each a noise-weighted
  // blend of one palette colour into the next

  const RaroPalette: seq<Color> := [Rgb(255, 0, 255), Rgb(0, 255, 255), Rgb(0, 255, 127),
                                    Rgb(255, 105, 180), Rgb(255, 165, 0)]
  const RaroThresholds: seq<real> := [-0.6, -0.2, 0.2, 0.6]

  function RaroBase(wave: real, noise: real): (c: Color)
    ensures var k := Ascending(wave, RaroThresholds);
      c == Lerp(RaroPalette[k], RaroPalette[(k + 1) % 5], noise)
  {
    var p, ts := RaroPalette, RaroThresholds;
    AscendingRegions(wave, ts);
    if wave < ts[0] then Lerp(p[0], p[1], noise)
    else if wave < ts[1] then Lerp(p[1], p[2], noise)
    else if wave < ts[2] then Lerp(p[2], p[3], noise)
    else if wave < ts[3] then Lerp(p[3], p[4], noise)
    else Lerp(p[4], p[0], noise)
  }

  /** planeta_raro: the wave sin(12y + 5 sin(10x + 10y + 0.04 t)) picks two
      neighbouring palette entries, blended by |noise|, lit by the intensity. */
  function Raro(f: Fragment, u: Uniforms, m: Math): (c: Color)
    ensures var p := f.vertexPosition;
      var wave := m.sin(p.y * 12.0 + m.sin(p.x * 10.0 + p.y * 10.0 + u.time as real * 0.04) * 5.0);
      var k := Ascending(wave, RaroThresholds);
      c.Scaled? && c.factor == f.intensity && c.base.Lerp?
      && c.base.from == RaroPalette[k] && c.base.to == RaroPalette[(k + 1) % 5]
    ensures c.Scaled? && c.base.Lerp? && 0.0 <= c.base.t && (NoiseBounded(u.noise) ==> c.base.t <= 1.0)
  {
    var p := f.vertexPosition;
    var t := u.time as real * 0.04;
    var swirl := m.sin(p.x * 10.0 + p.y * 10.0 + t);
    var noise := Abs(u.noise.get3(p.x * 7.0, p.y * 7.0, p.z * 7.0 + t));
    var wave := m.sin(p.y * 12.0 + swirl * 5.0);
    Scaled(RaroBase(wave, noise), f.intensity)
  }

  // ---------------------------------------------------------------------
  // planeta_saturno (selector 2): five horizontal bands

  const SaturnoPalette: seq<Color> := [Rgb(255, 204, 102), Rgb(255, 153, 51), Rgb(204, 102, 0),
                                       Rgb(153, 76, 0), Rgb(102, 51, 0)]
  const SaturnoThresholds: seq<real> := [-0.8, -0.4, 0.0, 0.4]

  function SaturnoBase(bands: real): (c: Color)
    ensures c == SaturnoPalette[Ascending(bands, SaturnoThresholds)]
  {
    var p, ts := SaturnoPalette, SaturnoThresholds;
    AscendingRegions(bands, ts);
    if bands < ts[0] then p[0]
    else if bands < ts[1] then p[1]
    else if bands < ts[2] then p[2]
    else if bands < ts[3] then p[3]
    else p[4]
  }

  /** planeta_saturno: the band of sin(10y + 0.5 sin(0.01 t)), lit by the intensity. */
  function Saturno(f: Fragment, u: Uniforms, m: Math): (c: Color)
    ensures var bands := m.sin(f.vertexPosition.y * 10.0 + m.sin(u.time as real * 0.02 * 0.5) * 0.5);
      c == Scaled(SaturnoPalette[Ascending(bands, SaturnoThresholds)], f.intensity)
  {
    var p := f.vertexPosition;
    var t := u.time as real * 0.02;
    var pulsate := m.sin(t * 0.5) * 0.5;
    var bands := m.sin(p.y * 10.0 + pulsate);
    Scaled(SaturnoBase(bands), f.intensity)
  }

  // ---------------------------------------------------------------------
  // planeta_azul (selector 3): eight colours, eight thresholds declared,
  // seven of them compared

  const AzulPalette: seq<Color> := [Rgb(173, 216, 230), Rgb(135, 206, 250), Rgb(0, 191, 255),
                                    Rgb(64, 224, 208), Rgb(0, 206, 209), Rgb(70, 130, 180),
                                    Rgb(0, 105, 148), Rgb(25, 25, 112)]
  const AzulThresholds: seq<real> := [-0.8, -0.6, -0.4, -0.2, 0.0, 0.2, 0.4, 0.6]

  function AzulBase(bands: real): (c: Color)
    ensures c == AzulPalette[Ascending(bands, AzulThresholds[..7])]
  {
    var p, ts := AzulPalette, AzulThresholds[..7];
    AscendingRegions(bands, ts);
    if bands < ts[0] then p[0]
    else if bands < ts[1] then p[1]
    else if bands < ts[2] then p[2]
    else if bands < ts[3] then p[3]
    else if bands < ts[4] then p[4]
    else if bands < ts[5] then p[5]
    else if bands < ts[6] then p[6]
    else p[7]
  }

  /** planeta_azul: the band of sin(15y + 0.5 sin(0.01 t)), lit by the intensity. */
  function Azul(f: Fragment, u: Uniforms, m: Math): (c: Color)
    ensures var bands := m.sin(f.vertexPosition.y * 15.0 + m.sin(u.time as real * 0.02 * 0.5) * 0.5);
      c == Scaled(AzulPalette[Ascending(bands, AzulThresholds[..7])], f.intensity)
  {
    var p := f.vertexPosition;
    var t := u.time as real * 0.02;
    var pulsate := m.sin(t * 0.5) * 0.5;
    var bands := m.sin(p.y * 15.0 + pulsate);
    Scaled(AzulBase(bands), f.intensity)
  }

  // ---------------------------------------------------------------------
  // planeta_celular (selector 4): four rings on a noise value, four
  // thresholds declared, three of them compared

  const CelularPalette: seq<Color> := [Rgb(85, 107, 47), Rgb(124, 252, 0), Rgb(34, 139, 34),
                                       Rgb(173, 255, 47)]
  const CelularThresholds: seq<real> := [0.1, 0.3, 0.5, 0.7]

  function CelularBase(noise: real): (c: Color)
    ensures c == CelularPalette[Ascending(noise, CelularThresholds[..3])]
  {
    var p, ts := CelularPalette, CelularThresholds[..3];
    AscendingRegions(noise, ts);
    if noise < ts[0] then p[0]
    else if noise < ts[1] then p[1]
    else if noise < ts[2] then p[2]
    else p[3]
  }

  /** planeta_celular: the ring of a 2-D noise sample at 600 times the
      pulsed (x, z), lit by the intensity. */
  function Celular(f: Fragment, u: Uniforms, m: Math): (c: Color)
    ensures var p := f.vertexPosition;
      var t := u.time as real * 0.03;
      var noise := Abs(u.noise.get2((p.x + m.sin(t * 0.5) * 0.2) * 600.0, p.z * 600.0 + t));
      c == Scaled(CelularPalette[Ascending(noise, CelularThresholds[..3])], f.intensity)
  {
    var p := f.vertexPosition;
    var t := u.time as real * 0.03;
    var pulsate := m.sin(t * 0.5) * 0.2;
    var noise := Abs(u.noise.get2((p.x + pulsate) * 600.0, p.z * 600.0 + t));
    Scaled(CelularBase(noise), f.intensity)
  }

  // ---------------------------------------------------------------------
  // planeta_mancha (selector 5, and the fallback): rock blends, spots and dots

  const SpotColor: Color := Rgb(139, 69, 19)
  const RockBaseColor: Color := Rgb(210, 105, 30)
  const HighlightColor: Color := Rgb(255, 140, 0)
  const DotColor: Color := Rgb(255, 222, 173)
  const DotsThreshold: real := 0.05

  /** The spot threshold, 0.2 times a pulse sin(..) * 0.5 + 0.5. */
  function ManchaSpotThreshold(u: Uniforms, m: Math): real {
    var t := u.time as real * 0.03;
    0.2 * (m.sin(t * 0.6) * 0.5 + 0.5)
  }

  function ManchaDots(f: Fragment, u: Uniforms): real {
    var p := f.vertexPosition;
    Abs(u.noise.get2(p.x * 50.0, p.y * 50.0))
  }

  /** The colour before lighting: dots win over spots, spots over rock. */
  function ManchaBase(spot: real, spotThreshold: real, rock: real, dots: real): (c: Color)
    ensures dots < DotsThreshold ==> c == DotColor
    ensures dots >= DotsThreshold && spot < spotThreshold ==> c == Lerp(SpotColor, RockBaseColor, rock)
    ensures dots >= DotsThreshold && spot >= spotThreshold ==> c == Lerp(RockBaseColor, HighlightColor, rock)
  {
    var base := if spot < spotThreshold then Lerp(SpotColor, RockBaseColor, rock)
                else Lerp(RockBaseColor, HighlightColor, rock);
    if dots < DotsThreshold then DotColor else base
  }

  /** planeta_mancha: dots, else a spot or rock blend weighted by |rock
      noise|, lit by the intensity. */
  function Mancha(f: Fragment, u: Uniforms, m: Math): (c: Color)
    ensures c.Scaled? && c.factor == f.intensity
    ensures ManchaDots(f, u) < DotsThreshold ==> c.base == DotColor
    ensures ManchaDots(f, u) >= DotsThreshold ==>
      c.base.Lerp? && (c.base.from == SpotColor || c.base.from == RockBaseColor)
      && 0.0 <= c.base.t && (NoiseBounded(u.noise) ==> c.base.t <= 1.0)
  {
    var p := f.vertexPosition;
    var rock := Abs(u.noise.get3(p.x * 15.0, p.y * 15.0, p.z * 15.0));
    var spot := Abs(u.noise.get2(p.x * 15.0, p.y * 15.0));
    Scaled(ManchaBase(spot, ManchaSpotThreshold(u, m), rock, ManchaDots(f, u)), f.intensity)
  }

  /** Where the dots noise is below 0.05 the result is the dot colour,
      whatever the spot and rock noise. */
  lemma ManchaDotsWin(f: Fragment, u: Uniforms, m: Math)
    requires ManchaDots(f, u) < DotsThreshold
    ensures Mancha(f, u, m) == Scaled(DotColor, f.intensity)
  {
  }

  /** With a bounded sine the spot threshold pulses within [0, 0.2], so a
      spot noise of 0.2 or more always takes the rock/highlight blend. */
  lemma ManchaSpotThresholdRange(u: Uniforms, m: Math)
    requires SineBounded(m)
    ensures 0.0 <= ManchaSpotThreshold(u, m) <= 0.2
  {
    var t := u.time as real * 0.03;
    assert -1.0 <= m.sin(t * 0.6) <= 1.0;
  }

  // ---------------------------------------------------------------------
  // sol (selector 6): two noise samples averaged, two blends

  const CoreColor: Color := Rgb(255, 255, 200)
  const MidColor: Color := Rgb(255, 223, 0)
  const CoronaColor: Color := Rgb(255, 140, 0)

  /** The second blend weight, clamp(n * 0.5 + 0.5, 0, 1). */
  function SolWeight(n: real): (w: real)
    ensures 0.0 <= w <= 1.0
    ensures -1.0 <= n <= 1.0 ==> w == n * 0.5 + 0.5
  {
    Clamp(n * 0.5 + 0.5, 0.0, 1.0)
  }

  function SolBase(n: real): Color {
    Lerp(Lerp(CoreColor, MidColor, Abs(n)), CoronaColor, SolWeight(n))
  }

  /** sol: core blended into mid by |n|, then into the corona by the clamped
      weight, lit by the intensity; n is the mean of two 3-D samples. */
  function Sol(f: Fragment, u: Uniforms, m: Math): (c: Color)
    ensures c.Scaled? && c.factor == f.intensity
    ensures c.base.Lerp? && c.base.to == CoronaColor && 0.0 <= c.base.t <= 1.0
    ensures c.base.from.Lerp? && c.base.from.from == CoreColor && c.base.from.to == MidColor
    ensures 0.0 <= c.base.from.t && (NoiseBounded(u.noise) ==> c.base.from.t <= 1.0)
  {
    var x, y, z := f.vertexPosition.x, f.vertexPosition.y, f.depth;
    var t := u.time as real * 0.02;
    var pulsate := m.sin(t * 0.5) * 0.6;
    var n1 := u.noise.get3(x * 1000.0, y * 1000.0, (z + pulsate) * 1000.0);
    var n2 := u.noise.get3((x + 1000.0) * 1000.0, (y + 1000.0) * 1000.0, (z + 1000.0 + pulsate) * 1000.0);
    Scaled(SolBase(Mean(n1, n2)), f.intensity)
  }

  // ---------------------------------------------------------------------
  // planeta_rocoso (selector 7): seven stone colours on descending strict
  // thresholds, then a diffuse light term

  const RocosoPalette: seq<Color> := [Rgb(245, 222, 179), Rgb(222, 184, 135), Rgb(210, 180, 140),
                                      Rgb(188, 143, 143), Rgb(205, 133, 63), Rgb(139, 69, 19),
                                      Rgb(160, 82, 45)]
  const RocosoThresholds: seq<real> := [0.6, 0.4, 0.2, 0.0, -0.2, -0.4]

  function RocosoBase(n: real): (c: Color)
    ensures c == RocosoPalette[Descending(n, RocosoThresholds)]
  {
    var p, ts := RocosoPalette, RocosoThresholds;
    DescendingRegions(n, ts);
    if n > ts[0] then p[0]
    else if n > ts[1] then p[1]
    else if n > ts[2] then p[2]
    else if n > ts[3] then p[3]
    else if n > ts[4] then p[4]
    else if n > ts[5] then p[5]
    else p[6]
  }

  /** normalize((1, 1, 0.5)): the vector has length 1.5, so the unit vector is exact. */
  const LightDir: Vec3 := Vec3(2.0 / 3.0, 2.0 / 3.0, 1.0 / 3.0)

  lemma LightDirIsNormalized()
    ensures LightDir == Vec3(1.0 / 1.5, 1.0 / 1.5, 0.5 / 1.5)
    ensures Dot3(LightDir, LightDir) == 1.0
  {
  }

  /** 0.6 ambient plus 0.4 times the non-negative diffuse term. */
  function LightFactor(normal: Vec3): (k: real)
    ensures k >= 0.6
    ensures Dot3(LightDir, normal) <= 1.0 ==> k <= 1.0
    ensures Dot3(LightDir, normal) <= 0.0 ==> k == 0.6
  {
    0.6 + 0.4 * Max(Dot3(LightDir, normal), 0.0)
  }

  /** For a normal of length at most 1 the light factor stays within [0.6, 1]. */
  lemma LightFactorBounded(normal: Vec3)
    requires Dot3(normal, normal) <= 1.0
    ensures 0.6 <= LightFactor(normal) <= 1.0
  {
    var d := Sub3(LightDir, normal);
    assert Dot3(d, d) >= 0.0;
    assert Dot3(d, d) == Dot3(LightDir, LightDir) - 2.0 * Dot3(LightDir, normal) + Dot3(normal, normal);
    LightDirIsNormalized();
  }

  /** The stone noise of planeta_rocoso: the mean of two 3-D samples. */
  function RocosoNoise(f: Fragment, u: Uniforms, m: Math): real {
    var x, y, z := f.vertexPosition.x, f.vertexPosition.y, f.depth;
    var t := u.time as real * 0.01;
    var pulsate := m.sin(t * 0.5) * 0.1;
    var n1 := u.noise.get3((x + pulsate) * 1000.0, (y + pulsate) * 1000.0, z * 1000.0 + t);
    var n2 := u.noise.get3((x + 1000.0 + pulsate) * 1000.0, (y + 1000.0 + pulsate) * 1000.0, z * 1000.0 + t);
    Mean(n1, n2)
  }

  /** planeta_rocoso: the stone of the noise band, scaled by the light
      factor, then by the intensity. */
  function Rocoso(f: Fragment, u: Uniforms, m: Math): (c: Color)
    ensures c.Scaled? && c.factor == f.intensity && c.base.Scaled?
    ensures c.base.base == RocosoPalette[Descending(RocosoNoise(f, u, m), RocosoThresholds)]
    ensures 0.6 <= c.base.factor
    ensures Dot3(LightDir, f.normal) <= 1.0 ==> c.base.factor <= 1.0
  {
    Scaled(Scaled(RocosoBase(RocosoNoise(f, u, m)), LightFactor(f.normal)), f.intensity)
  }

  // ---------------------------------------------------------------------
  // planeta_gaseoso (selector 8): cloud/fog blend with a latitude gradient

  const CloudColor: Color := Rgb(255, 255, 255)
  const FogColor: Color := Rgb(120, 120, 120)

  /** clamp(1 - |y|, 0, 1): 1 on the equator, 0 from |y| = 1 outwards. */
  function Gradient(y: real): (g: real)
    ensures 0.0 <= g <= 1.0
    ensures 0.0 <= 1.0 - g <= 1.0
    ensures y == 0.0 ==> g == 1.0
    ensures Abs(y) >= 1.0 ==> g == 0.0
    ensures Abs(y) <= 1.0 ==> g == 1.0 - Abs(y)
  {
    Clamp(1.0 - Abs(y), 0.0, 1.0)
  }

  /** planeta_gaseoso: cloud blended into fog by |n|, then into fog by
      1 - gradient, lit by the intensity. */
  function Gaseoso(f: Fragment, u: Uniforms, m: Math): (c: Color)
    ensures c.Scaled? && c.factor == f.intensity
    ensures c.base.Lerp? && c.base.to == FogColor && 0.0 <= c.base.t <= 1.0
    ensures f.vertexPosition.y == 0.0 ==> c.base.t == 0.0
    ensures Abs(f.vertexPosition.y) >= 1.0 ==> c.base.t == 1.0
    ensures c.base.from.Lerp? && c.base.from.from == CloudColor && c.base.from.to == FogColor
    ensures 0.0 <= c.base.from.t && (NoiseBounded(u.noise) ==> c.base.from.t <= 1.0)
  {
    var x, y, z := f.vertexPosition.x, f.vertexPosition.y, f.depth;
    var t := u.time as real * 0.01;
    var pulsate := m.sin(t * 0.3) * 0.5;
    var n1 := u.noise.get3((x + pulsate) * 200.0, (y + pulsate) * 200.0, z * 200.0 + t);
    var n2 := u.noise.get3((x - pulsate) * 200.0, (y - pulsate) * 200.0, z * 200.0 - t);
    var n := Mean(n1, n2);
    Scaled(Lerp(Lerp(CloudColor, FogColor, Abs(n)), FogColor, 1.0 - Gradient(y)), f.intensity)
  }

  // ---------------------------------------------------------------------
  // planeta_arcilla (selector 9): five colours on descending strict
  // thresholds, faded towards the last one away from the equator

  const ArcillaPalette: seq<Color> := [Rgb(173, 216, 230), Rgb(135, 206, 250), Rgb(70, 130, 180),
                                       Rgb(30, 144, 255), Rgb(0, 105, 148)]
  const ArcillaThresholds: seq<real> := [0.4, 0.2, 0.0, -0.2]

  function ArcillaBase(n: real): (c: Color)
    ensures c == ArcillaPalette[Descending(n, ArcillaThresholds)]
  {
    var p, ts := ArcillaPalette, ArcillaThresholds;
    DescendingRegions(n, ts);
    if n > ts[0] then p[0]
    else if n > ts[1] then p[1]
    else if n > ts[2] then p[2]
    else if n > ts[3] then p[3]
    else p[4]
  }

  /** The clay noise of planeta_arcilla: the mean of two 3-D samples. */
  function ArcillaNoise(f: Fragment, u: Uniforms, m: Math): real {
    var x, y, z := f.vertexPosition.x, f.vertexPosition.y, f.depth;
    var t := u.time as real * 0.02;
    var pulsate := m.sin(t * 0.3) * 0.3;
    var n1 := u.noise.get3((x + pulsate) * 500.0, (y + pulsate) * 500.0, z * 500.0 + t);
    var n2 := u.noise.get3((x - pulsate) * 500.0, (y - pulsate) * 500.0, z * 500.0 - t);
    Mean(n1, n2)
  }

  /** planeta_arcilla: the colour of the noise band faded towards color_5 by
      1 - gradient, lit by the intensity. */
  function Arcilla(f: Fragment, u: Uniforms, m: Math): (c: Color)
    ensures c.Scaled? && c.factor == f.intensity && c.base.Lerp?
    ensures c.base.from == ArcillaPalette[Descending(ArcillaNoise(f, u, m), ArcillaThresholds)]
    ensures c.base.to == ArcillaPalette[4] && 0.0 <= c.base.t <= 1.0
    ensures f.vertexPosition.y == 0.0 ==> c.base.t == 0.0
    ensures Abs(f.vertexPosition.y) >= 1.0 ==> c.base.t == 1.0
  {
    Scaled(Lerp(ArcillaBase(ArcillaNoise(f, u, m)), ArcillaPalette[4], 1.0 - Gradient(f.vertexPosition.y)), f.intensity)
  }

  // ---------------------------------------------------------------------
  // planeta_neon (selector 0): five stripes on a doubly nested wave

  const NeonPalette: seq<Color> := [Rgb(255, 20, 147), Rgb(0, 191, 255), Rgb(50, 205, 50),
                                    Rgb(255, 255, 0), Rgb(75, 0, 130)]
  const NeonThresholds: seq<real> := [-0.8, -0.4, 0.0, 0.4]

  function NeonBase(wave: real): (c: Color)
    ensures c == NeonPalette[Ascending(wave, NeonThresholds)]
  {
    var p, ts := NeonPalette, NeonThresholds;
    AscendingRegions(wave, ts);
    if wave < ts[0] then p[0]
    else if wave < ts[1] then p[1]
    else if wave < ts[2] then p[2]
    else if wave < ts[3] then p[3]
    else p[4]
  }

  /** planeta_neon: the stripe of sin(10x + sin(10x + 10y + 0.04 t)), lit by
      the intensity. */
  function Neon(f: Fragment, u: Uniforms, m: Math): (c: Color)
    ensures var p := f.vertexPosition;
      var wave := m.sin(p.x * 10.0 + m.sin(p.x * 10.0 + p.y * 10.0 + u.time as real * 0.04));
      c == Scaled(NeonPalette[Ascending(wave, NeonThresholds)], f.intensity)
  {
    var p := f.vertexPosition;
    var t := u.time as real * 0.04;
    var movement := m.sin(p.x * 10.0 + p.y * 10.0 + t);
    var wave := m.sin(p.x * 10.0 + movement);
    Scaled(NeonBase(wave), f.intensity)
  }

  // ---------------------------------------------------------------------
  // Band properties of the individual materials

  /** planeta_saturno: first band iff v < -0.8, last band iff v >= 0.4, a
      value on a threshold goes up a band, and bands never go down as v grows. */
  lemma SaturnoBands(v: real, w: real)
    ensures SaturnoBase(v) == SaturnoPalette[0] <==> v < -0.8
    ensures SaturnoBase(v) == SaturnoPalette[4] <==> v >= 0.4
    ensures SaturnoBase(-0.4) == SaturnoPalette[2]
    ensures v <= w ==> Ascending(v, SaturnoThresholds) <= Ascending(w, SaturnoThresholds)
  {
    if v <= w { AscendingMonotone(v, w, SaturnoThresholds); }
  }

  /** planeta_neon: the same shape as planeta_saturno on its own wave. */
  lemma NeonBands(v: real, w: real)
    ensures NeonBase(v) == NeonPalette[0] <==> v < -0.8
    ensures NeonBase(v) == NeonPalette[4] <==> v >= 0.4
    ensures NeonBase(0.0) == NeonPalette[3]
    ensures v <= w ==> Ascending(v, NeonThresholds) <= Ascending(w, NeonThresholds)
  {
    if v <= w { AscendingMonotone(v, w, NeonThresholds); }
  }

  /** planeta_raro: first blend iff v < -0.6, the wrap-around blend back to
      the first colour iff v >= 0.6, non-decreasing band index. */
  lemma RaroBands(v: real, w: real, noise: real)
    ensures Ascending(v, RaroThresholds) == 0 <==> v < -0.6
    ensures Ascending(v, RaroThresholds) == 4 <==> v >= 0.6
    ensures v >= 0.6 ==> RaroBase(v, noise) == Lerp(RaroPalette[4], RaroPalette[0], noise)
    ensures Ascending(0.2, RaroThresholds) == 3
    ensures v <= w ==> Ascending(v, RaroThresholds) <= Ascending(w, RaroThresholds)
  {
    if v <= w { AscendingMonotone(v, w, RaroThresholds); }
    AscendingOnThreshold(RaroThresholds, 2);
  }

  /** planeta_azul: threshold_8 (0.6) is never compared, so every value from
      0.4 upwards gets color_8. */
  lemma AzulUpperBand(v: real)
    ensures v >= 0.4 <==> AzulBase(v) == AzulPalette[7]
    ensures v >= 0.4 ==> AzulBase(v) == AzulBase(AzulThresholds[7])
  {
  }

  /** planeta_celular: ring_threshold_4 (0.7) is never compared, so every
      noise value from 0.5 upwards gets ring_color_4. */
  lemma CelularUpperBand(v: real)
    ensures v >= 0.5 <==> CelularBase(v) == CelularPalette[3]
    ensures v >= 0.5 ==> CelularBase(v) == CelularBase(CelularThresholds[3])
  {
  }

  /** planeta_rocoso: strict `>` sends a value on a threshold to the later
      band, every value <= -0.4 gets color_7, and the band index never grows
      as the noise grows. */
  lemma RocosoBands(v: real, w: real)
    ensures RocosoBase(v) == RocosoPalette[6] <==> v <= -0.4
    ensures RocosoBase(v) == RocosoPalette[0] <==> v > 0.6
    ensures RocosoBase(0.2) == RocosoPalette[3]
    ensures v <= w ==> Descending(w, RocosoThresholds) <= Descending(v, RocosoThresholds)
  {
    var ts := RocosoThresholds;
    var k := Descending(v, ts);
    DescendingBand(v, ts, 0);
    DescendingBand(v, ts, 6);
    RocosoPaletteDistinct();
    assert RocosoBase(v) == RocosoPalette[6] <==> k == 6;
    assert RocosoBase(v) == RocosoPalette[0] <==> k == 0;
    if v <= w { DescendingMonotone(v, w, ts); }
    DescendingOnThreshold(ts, 2);
  }

  /** The seven stone colours are pairwise different. */
  lemma RocosoPaletteDistinct()
    ensures forall i, j :: 0 <= i < j < |RocosoPalette| ==> RocosoPalette[i] != RocosoPalette[j]
  {
  }

  /** planeta_arcilla: the same shape with four thresholds; values <= -0.2
      get color_5. */
  lemma ArcillaBands(v: real, w: real)
    ensures ArcillaBase(v) == ArcillaPalette[4] <==> v <= -0.2
    ensures ArcillaBase(v) == ArcillaPalette[0] <==> v > 0.4
    ensures ArcillaBase(0.0) == ArcillaPalette[3]
    ensures v <= w ==> Descending(w, ArcillaThresholds) <= Descending(v, ArcillaThresholds)
  {
    if v <= w { DescendingMonotone(v, w, ArcillaThresholds); }
  }
}
