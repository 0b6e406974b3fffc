/** The background pass of src/main.rs: every framebuffer pixel, row by
    row, takes the colour of the texel the framebuffer coordinates scale to,
    at depth 1.0. Decoding the image file is not part of this model: the
    texture arrives already converted to 8-bit RGB. */
module Background {
  import opened Types
  import opened Framebuffers

  /** One 8-bit RGB texel, as get_pixel returns it. */
  datatype Texel = Texel(r: bv8, g: bv8, b: bv8)

  /** An RGB8 image: its dimensions and its texel lookup, meaningful for
      coordinates inside the dimensions. */
  datatype Texture = Texture(width: U32, height: U32, pixel: (nat, nat) -> Texel)

  /** The three channels of a packed 0xRRGGBB value. */
  function Unpack(c: bv32): Texel {
    Texel(((c >> 16) & 0xFF) as bv8, ((c >> 8) & 0xFF) as bv8, (c & 0xFF) as bv8)
  }

  /** A texel packed as 0xRRGGBB: the top byte stays clear and the channels
      can be read back. */
  function Pack(p: Texel): (c: bv32)
    ensures c < 0x100_0000
    ensures Unpack(c) == p
  {
    ((p.r as bv32) << 16) | ((p.g as bv32) << 8) | (p.b as bv32)
  }

  /** Every 0xRRGGBB value is the packing of its own channels. */
  lemma PackUnpack(c: bv32)
    requires c < 0x100_0000
    ensures Pack(Unpack(c)) == c
  {
  }

  /** The texel coordinate of framebuffer coordinate i: i * texDim / fbDim,
      in unsigned integer arithmetic. */
  function TexelCoord(i: nat, fbDim: nat, texDim: nat): nat
    requires fbDim > 0
  {
    i * texDim / fbDim
  }

  /** Scaling never leaves the texture. */
  lemma TexelCoordBound(i: nat, fbDim: nat, texDim: nat)
    requires i < fbDim && texDim > 0
    ensures TexelCoord(i, fbDim, texDim) < texDim
  {
    MulLe(i + 1, fbDim, texDim);
    DivBelow(i * texDim, fbDim, texDim);
  }

  /** Scaling keeps the order of coordinates. */
  lemma TexelCoordMonotone(i: nat, j: nat, fbDim: nat, texDim: nat)
    requires i <= j && fbDim > 0
    ensures TexelCoord(i, fbDim, texDim) <= TexelCoord(j, fbDim, texDim)
  {
    MulLe(i, j, texDim);
    DivMonotone(i * texDim, j * texDim, fbDim);
  }

  /** A texture of the framebuffer's own size is read texel for texel. */
  lemma TexelCoordSameSize(i: nat, dim: nat)
    requires dim > 0
    ensures TexelCoord(i, dim, dim) == i
  {
    RowIndex(i, 0, dim);
  }

  /** The request the background pass makes for pixel (x, y). */
  function BackgroundWrite(x: nat, y: nat, fbWidth: nat, fbHeight: nat, tex: Texture): Write
    requires fbWidth > 0 && fbHeight > 0
  {
    var p := tex.pixel(TexelCoord(x, fbWidth, tex.width), TexelCoord(y, fbHeight, tex.height));
    Write(x, y, Pack(p), 1.0)
  }

  /** The first n requests of the pass, in row-major order: request i is
      for column i % width of row i / width. */
  function BackgroundFlat(n: nat, fbWidth: nat, fbHeight: nat, tex: Texture): (r: seq<Write>)
    requires fbWidth > 0 && fbHeight > 0
    ensures |r| == n
    ensures forall i :: 0 <= i < n ==> r[i] == BackgroundWrite(i % fbWidth, i / fbWidth, fbWidth, fbHeight, tex)
  {
    if n == 0 then []
    else BackgroundFlat(n - 1, fbWidth, fbHeight, tex) + [BackgroundWrite((n - 1) % fbWidth, (n - 1) / fbWidth, fbWidth, fbHeight, tex)]
  }

  lemma MulNonneg(a: int, b: int)
    requires a >= 0 && b >= 0
    ensures a * b >= 0
  {
  }

  lemma MulLe(a: int, b: int, c: nat)
    requires a <= b
    ensures a * c <= b * c
  {
    MulNonneg(b - a, c);
    assert (b - a) * c == b * c - a * c;
  }

  lemma DivBelow(a: nat, d: nat, t: nat)
    requires d > 0 && a < d * t
    ensures a / d < t
  {
    var q := a / d;
    assert d * q <= a;
    if q >= t {
      MulLe(t, q, d);
      assert false;
    }
  }

  lemma DivMonotone(a: nat, b: nat, d: nat)
    requires a <= b && d > 0
    ensures a / d <= b / d
  {
    var qa, qb := a / d, b / d;
    assert d * qa <= a && b < d * qb + d;
    if qa > qb {
      MulLe(qb + 1, qa, d);
      assert false;
    }
  }

  /** Row y, column x sits at index y * width + x, and the index gives the
      row and column back. */
  lemma RowIndex(y: nat, x: nat, width: nat)
    requires x < width
    ensures (y * width + x) / width == y && (y * width + x) % width == x
  {
    var i := y * width + x;
    var q, r := i / width, i % width;
    assert i == width * q + r && 0 <= r < width;
    if q < y {
      MulLe(q + 1, y, width);
      assert false;
    } else if q > y {
      MulLe(y + 1, q, width);
      assert false;
    }
  }

  /** The first n requests, none when the framebuffer is empty. */
  function BackgroundPrefix(n: nat, fbWidth: nat, fbHeight: nat, tex: Texture): seq<Write> {
    if fbWidth == 0 || fbHeight == 0 then [] else BackgroundFlat(n, fbWidth, fbHeight, tex)
  }

  /** The whole pass: width * height requests. */
  function BackgroundWrites(fbWidth: nat, fbHeight: nat, tex: Texture): seq<Write> {
    BackgroundPrefix(fbWidth * fbHeight, fbWidth, fbHeight, tex)
  }

  /** The request after the first y * width + x is the one for pixel (x, y). */
  lemma PrefixStep(x: nat, y: nat, fbWidth: nat, fbHeight: nat, tex: Texture)
    requires x < fbWidth && y < fbHeight
    ensures BackgroundPrefix(y * fbWidth + x + 1, fbWidth, fbHeight, tex)
         == BackgroundPrefix(y * fbWidth + x, fbWidth, fbHeight, tex) + [BackgroundWrite(x, y, fbWidth, fbHeight, tex)]
  {
    RowIndex(y, x, fbWidth);
  }

  /** Every request of the pass is for a pixel inside the framebuffer, at
      depth 1.0, and there are width * height of them. */
  lemma BackgroundInBounds(fbWidth: nat, fbHeight: nat, tex: Texture)
    ensures var r := BackgroundWrites(fbWidth, fbHeight, tex);
      |r| == fbWidth * fbHeight
      && forall i :: 0 <= i < |r| ==> r[i].x < fbWidth && r[i].y < fbHeight && r[i].depth == 1.0
  {
    var r := BackgroundWrites(fbWidth, fbHeight, tex);
    forall i | 0 <= i < |r|
      ensures r[i].x < fbWidth && r[i].y < fbHeight
    {
      DivBelow(i, fbWidth, fbHeight);
    }
  }

  /** Pixel (x, y) is requested at index y * width + x, with the colour of
      the texel it scales to. */
  lemma BackgroundCoversAll(fbWidth: nat, fbHeight: nat, tex: Texture, x: nat, y: nat)
    requires x < fbWidth && y < fbHeight
    ensures var r := BackgroundWrites(fbWidth, fbHeight, tex);
      y * fbWidth + x < |r| && r[y * fbWidth + x] == BackgroundWrite(x, y, fbWidth, fbHeight, tex)
  {
    var r := BackgroundWrites(fbWidth, fbHeight, tex);
    var i := y * fbWidth + x;
    assert i < |r| by {
      MulLe(y + 1, fbHeight, fbWidth);
      assert (y + 1) * fbWidth == i - x + fbWidth;
      assert fbHeight * fbWidth == fbWidth * fbHeight;
    }
    RowIndex(y, x, fbWidth);
    assert r[i] == BackgroundWrite(i % fbWidth, i / fbWidth, fbWidth, fbHeight, tex);
  }

  /** No pixel is requested twice: two requests for the same pixel are the
      same request. */
  lemma BackgroundNoRepeat(fbWidth: nat, fbHeight: nat, tex: Texture)
    ensures var r := BackgroundWrites(fbWidth, fbHeight, tex);
      forall i, j :: 0 <= i < |r| && 0 <= j < |r| && r[i].x == r[j].x && r[i].y == r[j].y ==> i == j
  {
    var r := BackgroundWrites(fbWidth, fbHeight, tex);
    forall i, j | 0 <= i < |r| && 0 <= j < |r| && r[i].x == r[j].x && r[i].y == r[j].y
      ensures i == j
    {
      assert r[i].x == i % fbWidth && r[i].y == i / fbWidth;
      assert r[j].x == j % fbWidth && r[j].y == j / fbWidth;
      IndexFromRowColumn(i, fbWidth);
      IndexFromRowColumn(j, fbWidth);
    }
  }

  lemma IndexFromRowColumn(i: nat, width: nat)
    requires width > 0
    ensures i == (i / width) * width + i % width
  {
  }

  /** A texture of the framebuffer's own size is copied pixel for pixel. */
  lemma SameSizeCopies(fbWidth: nat, fbHeight: nat, tex: Texture, x: nat, y: nat)
    requires tex.width == fbWidth && tex.height == fbHeight && x < fbWidth && y < fbHeight
    ensures BackgroundWrite(x, y, fbWidth, fbHeight, tex).color == Pack(tex.pixel(x, y))
  {
    TexelCoordSameSize(x, fbWidth);
    TexelCoordSameSize(y, fbHeight);
  }

  /** render_background: every row in turn, every column of the row in
      turn. The requires are the conditions under which the u32 arithmetic
      neither truncates nor overflows and get_pixel stays inside the texture. */
  method RenderBackground(fb: Framebuffer, tex: Texture)
    requires fb.width < 0x1_0000_0000 && fb.height < 0x1_0000_0000
    requires fb.width == 0 || (fb.width - 1) * tex.width < 0x1_0000_0000
    requires fb.height == 0 || (fb.height - 1) * tex.height < 0x1_0000_0000
    requires fb.width > 0 && fb.height > 0 ==> tex.width > 0 && tex.height > 0
    modifies fb
    ensures fb.writes == old(fb.writes) + BackgroundWrites(fb.width, fb.height, tex)
    ensures fb.currentColor == LastColor(BackgroundWrites(fb.width, fb.height, tex), old(fb.currentColor))
  {
    ghost var n := 0;
    var y := 0;
    while y < fb.height
      invariant 0 <= y <= fb.height && n == y * fb.width
      invariant fb.writes == old(fb.writes) + BackgroundPrefix(n, fb.width, fb.height, tex)
      invariant fb.currentColor == LastColor(BackgroundPrefix(n, fb.width, fb.height, tex), old(fb.currentColor))
    {
      var x := 0;
      while x < fb.width
        invariant 0 <= x <= fb.width && n == y * fb.width + x
        invariant fb.writes == old(fb.writes) + BackgroundPrefix(n, fb.width, fb.height, tex)
        invariant fb.currentColor == LastColor(BackgroundPrefix(n, fb.width, fb.height, tex), old(fb.currentColor))
      {
        MulLe(x, fb.width - 1, tex.width);
        MulLe(y, fb.height - 1, tex.height);
        assert x * tex.width < 0x1_0000_0000 && y * tex.height < 0x1_0000_0000;
        var tx := x * tex.width / fb.width;
        var ty := y * tex.height / fb.height;
        TexelCoordBound(x, fb.width, tex.width);
        TexelCoordBound(y, fb.height, tex.height);
        assert tx < tex.width && ty < tex.height;
        var pixel := tex.pixel(tx, ty);
        var color := Pack(pixel);
        fb.SetCurrentColor(color);
        fb.Point(x, y, 1.0);
        PrefixStep(x, y, fb.width, fb.height, tex);
        n := n + 1;
        x := x + 1;
      }
      assert n == (y + 1) * fb.width;
      y := y + 1;
    }
    assert n == fb.width * fb.height;
  }
}
