# A model of a software rasteriser's render core

The program draws a small solar system on the CPU. Each frame has two phases:

- **Background blit.** The framebuffer is first filled from a background image, scaled by nearest neighbour.
- **Planet draws.** Each planet's mesh then goes through a fixed pipeline:
  - the vertex shader moves every vertex into screen space;
  - consecutive vertices are grouped into triangles;
  - each triangle is rasterised into fragments;
  - fragments that fall outside the framebuffer are culled;
  - every remaining fragment is coloured by one of ten procedural "materials" and sent to the framebuffer as a point request.

This project models that layer in Dafny, over exact real arithmetic. It also proves what the layer guarantees:

- what the pipeline hands to the framebuffer, and in which order;
- that the background pass covers every pixel exactly once;
- that the colour packing can be read back;
- where the viewport maps the device square;
- which palette entry each material's threshold chain picks.

Modules:

- `Linear`: vectors and matrices over `real`, with the 3x3 determinant and `try_inverse`.
- `Types`: `Color`, `Vertex`, `Fragment` and the per-draw `Uniforms`, plus the opaque numeric collaborators. These are `Math` (f32 `sin` and division) and `Noise` (the 2-D and 3-D noise samplers).
- `Bands`: the `if v < t1 … else if …` and `if v > t1 …` threshold chains that every banded material uses. Each chain is modelled as a band index, with its characterisation, monotonicity and boundary lemmas.
- `Shaders`: `vertex_shader`, `fragment_shader` and the ten materials of `src/shaders.rs`.
- `Framebuffers`: the framebuffer as the renderer sees it. It has a fixed size, an active colour and the sequence of `point` requests it has received.
- `Renderer`: `render` and `create_viewport_matrix` from `src/main.rs`. `render` is written as four loops (vertex shading, triangle assembly, rasterisation, fragment shading). Each loop is proved equal to a specification function, and the specification functions carry the lemmas.
- `Background`: `render_background` from `src/main.rs`. It is a nested row/column loop, proved to issue exactly the row-major sequence of texel requests. The module also covers the `0xRRGGBB` packing.

A colour is kept as the expression that built it: `Rgb`, `Lerp` or `Scaled`. The code for `Color::lerp`, `Color * f32` and `to_hex` lives in `color.rs`, which is not part of this model. So `lerp` and `*` are kept as terms, and `to_hex` is opaque. Distinct colour terms count as distinct colours, which the real `lerp` and `*` do not guarantee: a lerp with weight 0 returns its start colour, for one. The band properties are therefore stated on the band index, or in the direction from band to colour. `to_hex` and the rasteriser `triangle` (in `triangle.rs`, also not part of this model) are parameters of `Render`.

## Model

| member | source | states |
|---|---|---|
| `Shaders.VertexShader` | src/shaders.rs:12-45 | The result has the input's position, normal, texture coordinates and colour; only the two transformed fields are new. |
| `Shaders.Ndc` | src/shaders.rs:13-28 | The divided point has w = 1. With a division that is exact for non-zero divisors, and a non-zero clip w, its x, y and z times clip w give back the clip position `projection * view * model * (p, 1)`. |
| `Shaders.SingularModelKeepsNormal` | src/shaders.rs:32-35 | When the model's upper 3x3 has determinant 0, `try_inverse` fails, the identity is used, and the transformed normal equals the normal. |
| `Shaders.RegularModelTransformsNormal` | src/shaders.rs:32-35 | Otherwise the normal is multiplied by `try_inverse`'s result, and the transposed 3x3 times the normal matrix is the identity. |
| `Linear.TryInverse3` | src/shaders.rs:33 | `try_inverse` yields no matrix exactly when the determinant is zero. |
| `Linear.TryInverse3IsInverse` | src/shaders.rs:33 | When `try_inverse` yields a matrix, m times it is the identity. |
| `Linear.AdjugateRight` | src/shaders.rs:33 | m times its adjugate is det(m) times the identity. |
| `Linear.DetTranspose3` | src/shaders.rs:33 | Transposing does not change the determinant, so singularity of the model matrix and of its transpose coincide. |
| `Shaders.FragmentShader` | src/shaders.rs:47-60 | For every `u8` selector, the result is some colour scaled by the fragment's intensity. |
| `Shaders.DispatchFallback` | src/shaders.rs:59 | Every selector of 10 or more shades exactly as selector 5 (`planeta_mancha`). |
| `Bands.Ascending` | src/shaders.rs:91-101 | The branch a `<` chain takes: all earlier thresholds are <= v, and v is below the threshold of the branch taken. |
| `Bands.Descending` | src/shaders.rs:351-365 | The branch a `>` chain takes: v is <= all earlier thresholds and above the one of the branch taken. |
| `Bands.AscendingBand` | src/shaders.rs:126-136 | With increasing thresholds, v gets band k if and only if ts[k-1] <= v < ts[k]. |
| `Bands.AscendingMonotone` | src/shaders.rs:487-497 | A larger value never gets an earlier ascending band. |
| `Bands.AscendingOnThreshold` | src/shaders.rs:91-101 | A value equal to a threshold fails the strict `<` and takes the band above. |
| `Bands.AscendingRegions` | src/shaders.rs:169-185 | The band of every region of an increasing chain, at once. |
| `Bands.DescendingBand` | src/shaders.rs:448-458 | With decreasing thresholds, v gets band k if and only if ts[k] < v <= ts[k-1]. |
| `Bands.DescendingMonotone` | src/shaders.rs:351-365 | A larger value never gets a later descending band. |
| `Bands.DescendingOnThreshold` | src/shaders.rs:351-365 | A value equal to a threshold fails the strict `>` and takes the next band. |
| `Bands.DescendingRegions` | src/shaders.rs:448-458 | The band of every region of a decreasing chain, at once. |
| `Shaders.RaroBase` | src/shaders.rs:91-101 | The `planeta_raro` base colour is palette entry k blended into entry k+1 (entry 5 into entry 1) by the noise value, where k is the ascending band of the wave value. |
| `Shaders.RaroBands` | src/shaders.rs:86-101 | Band 0 if and only if wave < -0.6; band 4 if and only if wave >= 0.6, where the colour is `color_5` blended into `color_1`; 0.2 falls in the band above; the band is monotone in the wave value. |
| `Shaders.SaturnoBase` | src/shaders.rs:121-133 | `planeta_saturno` picks the palette entry of the ascending band of the sine value. |
| `Shaders.SaturnoBands` | src/shaders.rs:121-133 | `color_1` if and only if v < -0.8; `color_5` if and only if v >= 0.4; -0.4 goes up to `color_3`; the band is monotone. |
| `Shaders.AzulBase` | src/shaders.rs:159-185 | `planeta_azul` picks by the first seven thresholds only. |
| `Shaders.AzulUpperBand` | src/shaders.rs:159-185 | `threshold_8` (0.6) is never compared: v >= 0.4 if and only if the result is `color_8`, the same colour as at 0.6. |
| `Shaders.CelularBase` | src/shaders.rs:207-220 | `planeta_celular` picks by the first three ring thresholds only. |
| `Shaders.CelularUpperBand` | src/shaders.rs:207-220 | `ring_threshold_4` (0.7) is never compared: noise >= 0.5 if and only if the result is `ring_color_4`. |
| `Shaders.ManchaBase` | src/shaders.rs:260-270 | Dots below 0.05 win over everything; otherwise the spot threshold chooses the spot/rock blend or the rock/highlight blend. |
| `Shaders.ManchaDotsWin` | src/shaders.rs:252-272 | With the dots noise below 0.05, `planeta_mancha` is `dot_color * intensity`, whatever the spot and rock noise. |
| `Shaders.ManchaSpotThresholdRange` | src/shaders.rs:235-250 | With a sine in [-1, 1], the pulsing spot threshold stays in [0, 0.2]. |
| `Shaders.Mean` | src/shaders.rs:304 | The mean of two noise samples lies between them, so it stays in [-1, 1] when both samples do. |
| `Shaders.SolWeight` | src/shaders.rs:304-308 | The second `sol` blend weight lies in [0, 1], and equals n*0.5+0.5 for noise in [-1, 1]. |
| `Shaders.RocosoBase` | src/shaders.rs:344-365 | `planeta_rocoso` picks the palette entry of the descending band of the noise value. |
| `Shaders.RocosoBands` | src/shaders.rs:344-365 | `color_7` if and only if n <= -0.4; `color_1` if and only if n > 0.6; 0.2 goes down to `color_4`; the band never grows as n grows. |
| `Shaders.LightDirIsNormalized` | src/shaders.rs:367 | normalize((1, 1, 0.5)) is (2/3, 2/3, 1/3), a unit vector. |
| `Shaders.LightFactor` | src/shaders.rs:368-370 | 0.6 + 0.4*max(dot, 0) is at least 0.6, at most 1 when dot <= 1, and exactly 0.6 when the normal faces away. |
| `Shaders.LightFactorBounded` | src/shaders.rs:367-370 | For a normal of length at most 1, the light factor lies in [0.6, 1]. |
| `Shaders.Gradient` | src/shaders.rs:402 | clamp(1 - \|y\|, 0, 1) and 1 minus it are both valid blend weights; it is 1 at y = 0, 0 for \|y\| >= 1, and 1 - \|y\| in between. |
| `Shaders.ArcillaBase` | src/shaders.rs:441-458 | `planeta_arcilla` picks the palette entry of the descending band of the noise value. |
| `Shaders.ArcillaBands` | src/shaders.rs:443-458 | `color_5` if and only if n <= -0.2; `color_1` if and only if n > 0.4; 0.0 goes down to `color_4`; the band never grows as n grows. |
| `Shaders.NeonBase` | src/shaders.rs:482-497 | `planeta_neon` picks the palette entry of the ascending band of the wave value. |
| `Shaders.NeonBands` | src/shaders.rs:482-497 | `color_1` if and only if v < -0.8; `color_5` if and only if v >= 0.4; 0.0 goes up to `color_4`; the band is monotone. |
| `Shaders.Neon` | src/shaders.rs:467-500 | `planeta_neon` is the palette entry of the ascending band of sin(10x + sin(10x + 10y + 0.04 time)), scaled by the intensity. |
| `Shaders.Raro` | src/shaders.rs:65-104 | `planeta_raro` blends palette entry k into entry k+1 (entry 5 into entry 1), where k is the band of sin(12y + 5 sin(10x + 10y + 0.04 time)). The weight is \|noise\|, in [0, 1] for bounded noise. The result is scaled by the intensity. |
| `Shaders.Saturno` | src/shaders.rs:106-139 | `planeta_saturno` is the palette entry of the band of sin(10y + 0.5 sin(0.02 time * 0.5)), scaled by the intensity. |
| `Shaders.Azul` | src/shaders.rs:141-188 | `planeta_azul` is the palette entry of the seven-threshold band of sin(15y + 0.5 sin(0.02 time * 0.5)), scaled by the intensity. |
| `Shaders.Celular` | src/shaders.rs:190-223 | `planeta_celular` is the ring colour of the three-threshold band of \|noise((x + 0.2 sin(0.03 time * 0.5)) * 600, 600 z + 0.03 time)\|, scaled by the intensity. |
| `Shaders.Mancha` | src/shaders.rs:226-273 | `planeta_mancha` is scaled by the intensity. Below the dots threshold it is `dot_color`. Otherwise it is a blend from `spot_color` or `rock_base_color`, whose weight \|rock noise\| is in [0, 1] for bounded noise. |
| `Shaders.Sol` | src/shaders.rs:276-311 | `sol` blends core into mid, then the result into the corona, scaled by the intensity. The outer weight is always in [0, 1]; the inner weight \|n\| is in [0, 1] for bounded noise. |
| `Shaders.Rocoso` | src/shaders.rs:313-373 | `planeta_rocoso` is the stone of the descending band of the mean noise, scaled by a light factor of at least 0.6 (at most 1 when dot(light, normal) <= 1), then by the intensity. |
| `Shaders.Gaseoso` | src/shaders.rs:376-409 | `planeta_gaseoso` blends cloud into fog by \|n\| (in [0, 1] for bounded noise), then into fog by a weight in [0, 1]. That weight is 0 on the equator and 1 from \|y\| = 1 outwards. The result is scaled by the intensity. |
| `Shaders.Arcilla` | src/shaders.rs:412-465 | `planeta_arcilla` is the colour of the descending band of the mean noise, faded towards `color_5` by a weight in [0, 1]. That weight is 0 on the equator and 1 from \|y\| = 1 outwards. The result is scaled by the intensity. |
| `Shaders.Abs` | src/shaders.rs:248 | f32::abs is non-negative and is v or -v. |
| `Shaders.Max` | src/shaders.rs:368 | f32::max is at least both arguments and is one of them. |
| `Shaders.Clamp` | src/shaders.rs:308 | clamp keeps the value inside [lo, hi], returns it unchanged inside, and returns the nearer bound outside. |
| `Renderer.ViewportMatrix` | src/main.rs:95-102 | The viewport matrix sends every (x, y, z, 1) to ((x+1)w/2, (1-y)h/2, z, 1). |
| `Renderer.ViewportCorners` | src/main.rs:95-102 | (-1, 1) goes to pixel (0, 0), (1, -1) to (width, height), and the origin to the centre. |
| `Renderer.ViewportInside` | src/main.rs:95-102 | A point in the device square lands inside [0, width] x [0, height]. |
| `Renderer.ViewportFlipsY` | src/main.rs:98 | The vertical axis is flipped: a higher device y gives a smaller screen row. |
| `Renderer.VertexShaderScreen` | src/shaders.rs:30-42 | With the viewport from create_viewport_matrix, the vertex shader's screen position is the divided position scaled onto the window. |
| `Renderer.AsUsize` | src/main.rs:128-129 | `as usize` truncates toward zero, sends values below 1 (including negative ones) to 0, and saturates at usize::MAX. |
| `Renderer.Transformed` | src/main.rs:105-109 | The vertex stage has the input's length, and element i is the vertex shader applied to input i. |
| `Renderer.TransformVertices` | src/main.rs:105-109 | The vertex loop computes exactly `Transformed`. |
| `Renderer.Triangles` | src/main.rs:111-120 | Assembly yields n/3 triangles; triangle k is (v[3k], v[3k+1], v[3k+2]); a trailing one or two vertices are dropped. |
| `Renderer.AssembleTriangles` | src/main.rs:111-120 | The `step_by(3)` loop with its `i + 2 < len` guard computes exactly `Triangles`. |
| `Renderer.CollectFragments` | src/main.rs:122-125 | The rasterisation loop yields each triangle's fragments, concatenated in triangle order. |
| `Renderer.RasterizeAllAppend` | src/main.rs:122-125 | Rasterising two runs of triangles gives the first run's fragments followed by the second's. |
| `Renderer.ShadeWrites` | src/main.rs:127-137 | The fragment stage issues at most one request per fragment, and every request is inside the framebuffer. |
| `Renderer.ShadeWritesAppend` | src/main.rs:127-137 | The fragment stage treats its input one fragment at a time: shading two runs gives the requests of the first, then those of the second. |
| `Renderer.ShadeWritesSingle` | src/main.rs:130-136 | An on-screen fragment yields exactly its own request (truncated coordinates, `to_hex` of its shaded colour, its depth); an off-screen one yields none. |
| `Renderer.OnScreenFragmentsDrawInOrder` | src/main.rs:127-137 | When every fragment is on screen, there is one request per fragment, in fragment order. |
| `Renderer.OffScreenFragmentsDrawNothing` | src/main.rs:130 | Fragments that all fail the bounds test produce no request. |
| `Renderer.WritesComeFromFragments` | src/main.rs:127-137 | Every request is the request of some on-screen fragment. |
| `Renderer.OffScreenTrianglesDrawNothing` | src/main.rs:122-137 | Triangles whose fragments all lie off screen add no request. |
| `Renderer.ShadeWritesStep` | src/main.rs:127-137 | One more fragment appends its request exactly when it is on screen. |
| `Renderer.ShadeFragments` | src/main.rs:127-137 | The fragment loop appends exactly `ShadeWrites` to the framebuffer's requests, and leaves the colour of the last one as the active colour. |
| `Renderer.Render` | src/main.rs:104-138 | The framebuffer receives, in order, the requests of the on-screen fragments of the transformed, assembled and rasterised mesh; the active colour is that of the last request. |
| `Framebuffers.LastColorAppend` | src/main.rs:134 | The active colour after two runs of requests is the one after the second run, started from the colour the first run left. |
| `Framebuffers.Framebuffer.Point` | src/main.rs:135 | A point request is appended with the active colour. |
| `Framebuffers.Framebuffer.SetCurrentColor` | src/main.rs:134 | Sets the colour of later requests. |
| `Background.Pack` | src/main.rs:247 | The packed texel is below 2^24, and its three bytes read back as r, g and b. |
| `Background.PackUnpack` | src/main.rs:247 | Every value below 2^24 is the packing of its own three bytes. |
| `Background.TexelCoordBound` | src/main.rs:243-244 | For x < fw and tw > 0, x*tw/fw < tw, so `get_pixel` stays inside the texture. |
| `Background.TexelCoordMonotone` | src/main.rs:243-244 | The texel coordinate never decreases as the pixel coordinate grows. |
| `Background.TexelCoordSameSize` | src/main.rs:243-244 | A texture of the framebuffer's size is sampled at the pixel's own coordinate. |
| `Background.BackgroundFlat` | src/main.rs:241-251 | The first n requests of the pass: request i is for column i % width of row i / width. |
| `Background.PrefixStep` | src/main.rs:241-251 | After y*width + x requests, the next one is for pixel (x, y). |
| `Background.BackgroundInBounds` | src/main.rs:241-251 | The pass issues width*height requests, all inside the framebuffer and all at depth 1.0. |
| `Background.BackgroundCoversAll` | src/main.rs:241-251 | Pixel (x, y) is requested at index y*width + x, with the colour of the texel it scales to. |
| `Background.BackgroundNoRepeat` | src/main.rs:241-251 | No pixel is requested twice. |
| `Background.SameSizeCopies` | src/main.rs:243-247 | A texture of the framebuffer's size is copied pixel for pixel. |
| `Background.RenderBackground` | src/main.rs:237-253 | The nested loops append exactly the row-major request sequence to the framebuffer, and leave the last texel's colour active. |

## Left out

- The window, the event loop, key polling, frame timing, `update_with_buffer`, `main` and `handle_input` (src/main.rs:141-231, 257-333). These are I/O around the core.
- `create_model_matrix`, `create_view_matrix`, `create_perspective_matrix`, `look_at`, `perspective` and the camera. These are floating-point numerics from nalgebra_glm; the model, view and projection matrices are arbitrary inputs in `Uniforms`.
- `load_texture` and `to_rgb8`. Image decoding is foreign code; the texture arrives as dimensions plus a texel lookup.
- FastNoiseLite. Noise samples come from the opaque `Noise` functions, and `sin` and f32 division from the opaque `Math` record.
- f32 rounding, NaN and infinity. All arithmetic is exact over `real`. The perspective divide by w = 0, which gives an infinity or NaN in the source (src/shaders.rs:24-26), gives an arbitrary real through `Math.div`.
- `AsUsize`: a NaN coordinate, which `as usize` sends to 0, cannot arise over the reals.
- `Color::new`, `lerp`, `*` and `to_hex` (color.rs is not part of this model). A colour is the expression that built it, and `to_hex` is a parameter of `Render`. The clamping of channels inside `lerp` and `*` is therefore not modelled.
- `triangle` (triangle.rs is not part of this model) is a parameter of `Render`. Which fragments it produces, and their attributes, are not modelled.
- What `Framebuffer::point` does with a request (bounds check, depth test, storing the pixel): framebuffer.rs is not part of this model. The framebuffer is modelled as the trace of requests it receives.
- `Background.RenderBackground`: it requires three things, and the source's behaviour when they fail is not modelled.
  - The products `x * texture_width` and `y * texture_height` fit in a u32. Otherwise a debug build panics and a release build wraps around.
  - The framebuffer width and height fit in a u32. `as u32` (src/main.rs:243-244) would otherwise truncate them silently, in every build.
  - The texture is non-empty when the framebuffer is. `get_pixel` (src/main.rs:246) would otherwise panic, in every build.
- The Rust `Vertex`, `Fragment` and `Obj` types (not part of this model). Only the fields the core reads or writes are modelled.
