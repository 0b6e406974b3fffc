/** The values the pipeline passes between its stages: colours, vertices,
    fragments and the per-draw uniforms (src/main.rs:24-31), together with
    the numeric collaborators the model keeps opaque. */
module Types {
  import opened Linear

  /** An unsigned 32-bit value (u32). */
  type U32 = n: int | 0 <= n < 0x1_0000_0000

  /** An unsigned 8-bit value (u8), as the shader selector. */
  type U8 = n: int | 0 <= n < 0x100

  /** A colour, described by the expression that built it. The channel
      arithmetic of Color::lerp and Color * f32 lives in color.rs, which is
      not part of this model, so those two operations are kept as terms.
      Colours built the same way are equal. Colours built differently count
      as different here, although the real lerp and * may map different
      terms to the same colour (a lerp with weight 0 returns its start, for
      one). No property of the model relies on that difference. */
  datatype Color =
    | Rgb(r: bv8, g: bv8, b: bv8)            // Color::new(r, g, b)
    | Lerp(from: Color, to: Color, t: real)  // from.lerp(&to, t)
    | Scaled(base: Color, factor: real)      // base * factor

  /** A mesh vertex; the last two fields are filled in by the vertex shader. */
  datatype Vertex = Vertex(
    position: Vec3,
    normal: Vec3,
    texCoords: Vec2,
    color: Color,
    transformedPosition: Vec3,
    transformedNormal: Vec3)

  /** The fields of a rasterised fragment that the renderer and the shaders read. */
  datatype Fragment = Fragment(
    position: Vec2,
    depth: real,
    normal: Vec3,
    intensity: real,
    vertexPosition: Vec3)

  /** A FastNoiseLite instance: deterministic 2-D and 3-D samplers. */
  datatype Noise = Noise(get2: (real, real) -> real, get3: (real, real, real) -> real)

  /** The f32 operations whose results real arithmetic does not give:
      sin, and division (which yields an infinity or NaN for a zero divisor). */
  datatype Math = Math(sin: real -> real, div: (real, real) -> real)

  /** The per-draw bundle built in main for every planet. */
  datatype Uniforms = Uniforms(
    model: Mat4,
    view: Mat4,
    projection: Mat4,
    viewport: Mat4,
    time: U32,
    noise: Noise)

  /** A sine that stays within [-1, 1], as f32::sin does. */
  ghost predicate SineBounded(m: Math) {
    forall x :: -1.0 <= m.sin(x) <= 1.0
  }

  /** A division that agrees with real division wherever the divisor is not
      zero (f32 division up to rounding). */
  ghost predicate ExactDiv(m: Math) {
    forall a, b :: b != 0.0 ==> m.div(a, b) == a / b
  }

  /** Noise samples within [-1, 1], the range FastNoiseLite produces. */
  ghost predicate NoiseBounded(n: Noise) {
    (forall x, y :: -1.0 <= n.get2(x, y) <= 1.0)
    && (forall x, y, z :: -1.0 <= n.get3(x, y, z) <= 1.0)
  }
}
