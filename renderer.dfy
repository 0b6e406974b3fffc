/** The render pass of src/main.rs: vertex shading, triangle assembly,
    rasterisation, and the per-fragment bounds check, shading and point
    request. The rasteriser itself (triangle.rs) is not part of this model
    and is a parameter: whatever fragments it yields for a triangle, the pass
    is stated in terms of them. */
module Renderer {
  import opened Linear
  import opened Types
  import opened Shaders
  import opened Framebuffers

  /** usize::MAX on a 64-bit target. */
  const UsizeMax: nat := 0xFFFF_FFFF_FFFF_FFFF

  /** `v as usize` on an f32: truncation toward zero, with negative values
      (and NaN, which the exact reals do not have) going to 0 and values
      past the top saturating at usize::MAX. */
  function AsUsize(v: real): (n: nat)
    ensures n <= UsizeMax
    ensures v < 1.0 ==> n == 0
    ensures 0.0 <= v < UsizeMax as real ==> n as real <= v < n as real + 1.0
    ensures v >= UsizeMax as real ==> n == UsizeMax
  {
    if v <= 0.0 then 0
    else if v >= UsizeMax as real then UsizeMax
    else v.Floor
  }

  // ---------------------------------------------------------------------
  // The viewport matrix

  /** create_viewport_matrix: maps x from [-1, 1] onto [0, width] and y from
      [-1, 1] onto [height, 0], leaving z and w alone. */
  function ViewportMatrix(width: real, height: real): (r: Mat4)
    ensures forall p: Vec4 {:trigger MulVec4(r, p)} :: p.w == 1.0 ==>
      MulVec4(r, p) == Vec4((p.x + 1.0) * width / 2.0, (1.0 - p.y) * height / 2.0, p.z, 1.0)
  {
    Mat4(Vec4(width / 2.0, 0.0, 0.0, width / 2.0),
         Vec4(0.0, -height / 2.0, 0.0, height / 2.0),
         Vec4(0.0, 0.0, 1.0, 0.0),
         Vec4(0.0, 0.0, 0.0, 1.0))
  }

  /** The corners of normalised device space land on the corners of the
      window, with +y at the top row: (-1, 1) on (0, 0) and (1, -1) on
      (width, height). */
  lemma ViewportCorners(width: real, height: real, z: real)
    ensures MulVec4(ViewportMatrix(width, height), Vec4(-1.0, 1.0, z, 1.0)) == Vec4(0.0, 0.0, z, 1.0)
    ensures MulVec4(ViewportMatrix(width, height), Vec4(1.0, -1.0, z, 1.0)) == Vec4(width, height, z, 1.0)
    ensures MulVec4(ViewportMatrix(width, height), Vec4(0.0, 0.0, z, 1.0))
         == Vec4(width / 2.0, height / 2.0, z, 1.0)
  {
  }

  /** Inside the device square, the screen position stays inside the window. */
  lemma ViewportInside(width: real, height: real, p: Vec4)
    requires width >= 0.0 && height >= 0.0 && p.w == 1.0
    requires -1.0 <= p.x <= 1.0 && -1.0 <= p.y <= 1.0
    ensures var s := MulVec4(ViewportMatrix(width, height), p);
      0.0 <= s.x <= width && 0.0 <= s.y <= height
  {
    var s := MulVec4(ViewportMatrix(width, height), p);
    assert s.x == (p.x + 1.0) * width / 2.0 && s.y == (1.0 - p.y) * height / 2.0;
    HalfScale(p.x + 1.0, width, s.x);
    HalfScale(1.0 - p.y, height, s.y);
  }

  lemma HalfScale(a: real, w: real, r: real)
    requires 0.0 <= a <= 2.0 && w >= 0.0 && r == a * w / 2.0
    ensures 0.0 <= r <= w
  {
    assert 0.0 <= a * w;
    assert a * w <= 2.0 * w by {
      assert (2.0 - a) * w >= 0.0;
    }
  }

  /** The y axis is flipped: a point higher up in device space lands on a
      smaller row. */
  lemma ViewportFlipsY(width: real, height: real, p: Vec4, q: Vec4)
    requires height > 0.0 && p.w == 1.0 && q.w == 1.0 && p.y < q.y
    ensures MulVec4(ViewportMatrix(width, height), q).y < MulVec4(ViewportMatrix(width, height), p).y
  {
    assert (1.0 - p.y) * height - (1.0 - q.y) * height == (q.y - p.y) * height;
  }

  /** With the uniforms' viewport built by create_viewport_matrix, the
      vertex shader's screen position is the device position scaled onto
      the window. */
  lemma VertexShaderScreen(v: Vertex, u: Uniforms, m: Math, width: real, height: real)
    requires u.viewport == ViewportMatrix(width, height)
    ensures var ndc := Ndc(v.position, u, m);
      VertexShader(v, u, m).transformedPosition
        == Vec3((ndc.x + 1.0) * width / 2.0, (1.0 - ndc.y) * height / 2.0, ndc.z)
  {
  }

  // ---------------------------------------------------------------------
  // The stages of render, as functions on the whole input

  /** A primitive: three shaded vertices. */
  datatype Triangle = Triangle(a: Vertex, b: Vertex, c: Vertex)

  /** The vertex stage: every vertex through the vertex shader, in order. */
  function Transformed(vs: seq<Vertex>, u: Uniforms, m: Math): (r: seq<Vertex>)
    ensures |r| == |vs|
    ensures forall i :: 0 <= i < |vs| ==> r[i] == VertexShader(vs[i], u, m)
  {
    if vs == [] then []
    else Transformed(vs[..|vs| - 1], u, m) + [VertexShader(vs[|vs| - 1], u, m)]
  }

  /** Primitive assembly: consecutive groups of three, a trailing group of
      one or two vertices dropped. */
  function Triangles(vs: seq<Vertex>): (r: seq<Triangle>)
    ensures |r| == |vs| / 3
    ensures forall k :: 0 <= k < |r| ==> r[k] == Triangle(vs[3 * k], vs[3 * k + 1], vs[3 * k + 2])
  {
    if |vs| < 3 then []
    else
      var rest := Triangles(vs[3..]);
      var r := [Triangle(vs[0], vs[1], vs[2])] + rest;
      assert forall k :: 1 <= k < |r| ==> r[k] == rest[k - 1];
      r
  }

  /** Rasterisation: the fragments of each triangle, concatenated in
      triangle order. */
  function RasterizeAll(tris: seq<Triangle>, raster: (Vertex, Vertex, Vertex) -> seq<Fragment>): seq<Fragment> {
    if tris == [] then []
    else
      var t := tris[|tris| - 1];
      RasterizeAll(tris[..|tris| - 1], raster) + raster(t.a, t.b, t.c)
  }

  /** The bounds test of render, on the truncated coordinates. */
  predicate OnScreen(f: Fragment, width: nat, height: nat) {
    AsUsize(f.position.x) < width && AsUsize(f.position.y) < height
  }

  /** The per-fragment colour of render: fragment_shader under the draw's
      uniforms and shader selector, packed by to_hex. */
  function Shade(u: Uniforms, m: Math, shader: U8, toHex: Color -> bv32): Fragment -> bv32 {
    f => toHex(FragmentShader(f, u, m, shader))
  }

  /** The point request a fragment turns into: its truncated coordinates,
      its packed colour, and its depth. */
  function WriteOf(f: Fragment, shade: Fragment -> bv32): Write {
    Write(AsUsize(f.position.x), AsUsize(f.position.y), shade(f), f.depth)
  }

  /** The fragment stage: the point requests of the on-screen fragments, in
      fragment order. */
  function ShadeWrites(frags: seq<Fragment>, width: nat, height: nat, shade: Fragment -> bv32): (r: seq<Write>)
    ensures |r| <= |frags|
    ensures forall i :: 0 <= i < |r| ==> r[i].x < width && r[i].y < height
  {
    if frags == [] then []
    else
      var f := frags[|frags| - 1];
      var init := ShadeWrites(frags[..|frags| - 1], width, height, shade);
      if OnScreen(f, width, height) then init + [WriteOf(f, shade)] else init
  }

  /** Everything render asks of the framebuffer, as a function of its inputs. */
  function RenderWrites(width: nat, height: nat, u: Uniforms, m: Math, vertices: seq<Vertex>, shader: U8,
                        raster: (Vertex, Vertex, Vertex) -> seq<Fragment>, toHex: Color -> bv32): seq<Write> {
    ShadeWrites(RasterizeAll(Triangles(Transformed(vertices, u, m)), raster), width, height, Shade(u, m, shader, toHex))
  }

  // ---------------------------------------------------------------------
  // Properties of the stages

  /** Rasterising two runs of triangles yields the fragments of the first
      run followed by those of the second. */
  lemma {:induction false} RasterizeAllAppend(a: seq<Triangle>, b: seq<Triangle>,
                                              raster: (Vertex, Vertex, Vertex) -> seq<Fragment>)
    ensures RasterizeAll(a + b, raster) == RasterizeAll(a, raster) + RasterizeAll(b, raster)
    decreases |b|
  {
    if b == [] {
      assert a + b == a;
    } else {
      var t := b[|b| - 1];
      var b' := b[..|b| - 1];
      assert (a + b)[..|a + b| - 1] == a + b';
      RasterizeAllAppend(a, b', raster);
    }
  }

  /** The fragment stage treats its input one fragment at a time: shading
      two runs gives the requests of the first followed by those of the second. */
  lemma {:induction false} ShadeWritesAppend(a: seq<Fragment>, b: seq<Fragment>, width: nat, height: nat,
                                             shade: Fragment -> bv32)
    ensures ShadeWrites(a + b, width, height, shade)
         == ShadeWrites(a, width, height, shade) + ShadeWrites(b, width, height, shade)
    decreases |b|
  {
    if b == [] {
      assert a + b == a;
    } else {
      var b' := b[..|b| - 1];
      assert (a + b)[..|a + b| - 1] == a + b';
      ShadeWritesAppend(a, b', width, height, shade);
    }
  }

  /** One fragment yields exactly one request when it is on screen and none
      otherwise. */
  lemma ShadeWritesSingle(f: Fragment, width: nat, height: nat, shade: Fragment -> bv32)
    ensures OnScreen(f, width, height) ==> ShadeWrites([f], width, height, shade) == [WriteOf(f, shade)]
    ensures !OnScreen(f, width, height) ==> ShadeWrites([f], width, height, shade) == []
  {
    assert [f][..0] == [];
  }

  /** Fragments that all fall outside the framebuffer produce no request. */
  lemma {:induction false} OffScreenFragmentsDrawNothing(frags: seq<Fragment>, width: nat, height: nat,
                                                        shade: Fragment -> bv32)
    requires forall i :: 0 <= i < |frags| ==> !OnScreen(frags[i], width, height)
    ensures ShadeWrites(frags, width, height, shade) == []
    decreases |frags|
  {
    if frags != [] {
      OffScreenFragmentsDrawNothing(frags[..|frags| - 1], width, height, shade);
    }
  }

  /** When every fragment is on screen, each yields exactly one request,
      in fragment order. */
  lemma {:induction false} OnScreenFragmentsDrawInOrder(frags: seq<Fragment>, width: nat, height: nat,
                                                       shade: Fragment -> bv32)
    requires forall i :: 0 <= i < |frags| ==> OnScreen(frags[i], width, height)
    ensures var r := ShadeWrites(frags, width, height, shade);
      |r| == |frags| && forall i :: 0 <= i < |frags| ==> r[i] == WriteOf(frags[i], shade)
    decreases |frags|
  {
    if frags != [] {
      var init := frags[..|frags| - 1];
      OnScreenFragmentsDrawInOrder(init, width, height, shade);
      assert forall i :: 0 <= i < |init| ==> init[i] == frags[i];
    }
  }

  /** Every request carries on-screen coordinates that come from some
      fragment's position, that fragment's depth and its shaded colour. */
  lemma {:induction false} WritesComeFromFragments(frags: seq<Fragment>, width: nat, height: nat,
                                                  shade: Fragment -> bv32)
    ensures forall w :: w in ShadeWrites(frags, width, height, shade) ==>
      exists i :: 0 <= i < |frags| && OnScreen(frags[i], width, height) && w == WriteOf(frags[i], shade)
    decreases |frags|
  {
    if frags != [] {
      var init := frags[..|frags| - 1];
      WritesComeFromFragments(init, width, height, shade);
      forall w | w in ShadeWrites(frags, width, height, shade)
        ensures exists i :: 0 <= i < |frags| && OnScreen(frags[i], width, height) && w == WriteOf(frags[i], shade)
      {
        if w in ShadeWrites(init, width, height, shade) {
          var i :| 0 <= i < |init| && OnScreen(init[i], width, height) && w == WriteOf(init[i], shade);
          assert frags[i] == init[i];
        } else {
          assert w == WriteOf(frags[|frags| - 1], shade);
        }
      }
    }
  }

  /** A triangle whose fragments all fall outside the framebuffer adds no
      request to the pass, wherever it sits in the mesh. */
  lemma {:induction false} OffScreenTrianglesDrawNothing(tris: seq<Triangle>, width: nat, height: nat,
                                                        raster: (Vertex, Vertex, Vertex) -> seq<Fragment>,
                                                        shade: Fragment -> bv32)
    requires forall k :: 0 <= k < |tris| ==>
      forall f :: f in raster(tris[k].a, tris[k].b, tris[k].c) ==> !OnScreen(f, width, height)
    ensures ShadeWrites(RasterizeAll(tris, raster), width, height, shade) == []
    decreases |tris|
  {
    if tris != [] {
      var init := tris[..|tris| - 1];
      var t := tris[|tris| - 1];
      OffScreenTrianglesDrawNothing(init, width, height, raster, shade);
      OffScreenFragmentsDrawNothing(raster(t.a, t.b, t.c), width, height, shade);
      ShadeWritesAppend(RasterizeAll(init, raster), raster(t.a, t.b, t.c), width, height, shade);
    }
  }

  /** One more fragment of the fragment loop. */
  lemma ShadeWritesStep(frags: seq<Fragment>, i: nat, width: nat, height: nat,
                        shade: Fragment -> bv32)
    requires i < |frags|
    ensures ShadeWrites(frags[..i + 1], width, height, shade)
         == ShadeWrites(frags[..i], width, height, shade)
          + (if OnScreen(frags[i], width, height) then [WriteOf(frags[i], shade)] else [])
  {
    assert frags[..i + 1][..i] == frags[..i];
  }

  // ---------------------------------------------------------------------
  // render, stage by stage

  /** The loop over vertex_array that fills transformed_vertices. */
  method TransformVertices(vs: seq<Vertex>, u: Uniforms, m: Math) returns (out: seq<Vertex>)
    ensures out == Transformed(vs, u, m)
  {
    out := [];
    var i := 0;
    while i < |vs|
      invariant 0 <= i <= |vs|
      invariant out == Transformed(vs[..i], u, m)
    {
      assert vs[..i + 1][..i] == vs[..i];
      out := out + [VertexShader(vs[i], u, m)];
      i := i + 1;
    }
    assert vs[..|vs|] == vs;
  }

  /** The step_by(3) loop: a group is pushed only when its third vertex exists. */
  method AssembleTriangles(vs: seq<Vertex>) returns (tris: seq<Triangle>)
    ensures tris == Triangles(vs)
  {
    tris := [];
    var i := 0;
    while i < |vs|
      invariant i % 3 == 0 && i <= |vs| + 2
      invariant |tris| == (if i <= |vs| then i else |vs|) / 3
      invariant forall k :: 0 <= k < |tris| ==> tris[k] == Triangle(vs[3 * k], vs[3 * k + 1], vs[3 * k + 2])
    {
      if i + 2 < |vs| {
        tris := tris + [Triangle(vs[i], vs[i + 1], vs[i + 2])];
      }
      i := i + 3;
    }
    assert |tris| == |Triangles(vs)|;
  }

  /** The loop that extends fragments with each triangle's rasterisation. */
  method CollectFragments(tris: seq<Triangle>, raster: (Vertex, Vertex, Vertex) -> seq<Fragment>)
    returns (frags: seq<Fragment>)
    ensures frags == RasterizeAll(tris, raster)
  {
    frags := [];
    var k := 0;
    while k < |tris|
      invariant 0 <= k <= |tris|
      invariant frags == RasterizeAll(tris[..k], raster)
    {
      assert tris[..k + 1][..k] == tris[..k];
      frags := frags + raster(tris[k].a, tris[k].b, tris[k].c);
      k := k + 1;
    }
    assert tris[..|tris|] == tris;
  }

  /** The loop over fragments: bounds check, shading, set_current_color
      and point for each fragment that lands inside the framebuffer. */
  method ShadeFragments(fb: Framebuffer, frags: seq<Fragment>, shade: Fragment -> bv32)
    modifies fb
    ensures fb.writes == old(fb.writes) + ShadeWrites(frags, fb.width, fb.height, shade)
    ensures fb.currentColor
         == LastColor(ShadeWrites(frags, fb.width, fb.height, shade), old(fb.currentColor))
  {
    var i := 0;
    while i < |frags|
      invariant 0 <= i <= |frags|
      invariant fb.writes == old(fb.writes) + ShadeWrites(frags[..i], fb.width, fb.height, shade)
      invariant fb.currentColor
             == LastColor(ShadeWrites(frags[..i], fb.width, fb.height, shade), old(fb.currentColor))
    {
      ghost var done := ShadeWrites(frags[..i], fb.width, fb.height, shade);
      ShadeWritesStep(frags, i, fb.width, fb.height, shade);
      var f := frags[i];
      var x := AsUsize(f.position.x);
      var y := AsUsize(f.position.y);
      if x < fb.width && y < fb.height {
        var color := shade(f);
        fb.SetCurrentColor(color);
        fb.Point(x, y, f.depth);
        assert fb.writes == old(fb.writes) + (done + [WriteOf(f, shade)]);
        LastColorAppend(done, [WriteOf(f, shade)], old(fb.currentColor));
      } else {
        assert done + [] == done;
      }
      i := i + 1;
    }
    assert frags[..|frags|] == frags;
  }

  /** render: the framebuffer receives, in order, one request per on-screen
      fragment of the mesh, and is left with the colour of the last of them. */
  method Render(fb: Framebuffer, u: Uniforms, m: Math, vertices: seq<Vertex>, shader: U8,
                raster: (Vertex, Vertex, Vertex) -> seq<Fragment>, toHex: Color -> bv32)
    modifies fb
    ensures fb.writes == old(fb.writes) + RenderWrites(fb.width, fb.height, u, m, vertices, shader, raster, toHex)
    ensures fb.currentColor
         == LastColor(RenderWrites(fb.width, fb.height, u, m, vertices, shader, raster, toHex), old(fb.currentColor))
  {
    var transformed := TransformVertices(vertices, u, m);
    var tris := AssembleTriangles(transformed);
    var frags := CollectFragments(tris, raster);
    ShadeFragments(fb, frags, Shade(u, m, shader, toHex));
  }
}
