/**
 * Geometry shared by every pass: the rectangle `setRectangle` writes into
 * the position buffer, the fixed texture coordinates `render` writes into
 * the texcoord buffer, and the vertex shader's pixel-to-clip-space mapping.
 */
module Geometry {

  datatype Vec2 = Vec2(x: real, y: real)

  /** Number of vertices `drawArrays` draws per pass: two triangles. */
  const VertexCount: nat := 6

  /**
   * `setRectangle(gl, x, y, width, height)`: two triangles
   * (x1,y1) (x2,y1) (x1,y2) and (x1,y2) (x2,y1) (x2,y2).
   */
  function SetRectangle(x: real, y: real, width: real, height: real): (v: seq<Vec2>)
    ensures |v| == VertexCount
    ensures forall k :: 0 <= k < |v| ==>
      (v[k].x == x || v[k].x == x + width) && (v[k].y == y || v[k].y == y + height)
  {
    var x1 := x;
    var x2 := x + width;
    var y1 := y;
    var y2 := y + height;
    [Vec2(x1, y1), Vec2(x2, y1), Vec2(x1, y2), Vec2(x1, y2), Vec2(x2, y1), Vec2(x2, y2)]
  }

  /** The texture coordinates `render` uploads, one per vertex. */
  const TexCoords: seq<Vec2> :=
    [Vec2(0.0, 0.0), Vec2(1.0, 0.0), Vec2(0.0, 1.0), Vec2(0.0, 1.0), Vec2(1.0, 0.0), Vec2(1.0, 1.0)]

  /**
   * The two triangles share the diagonal from (x2,y1) to (x1,y2), and
   * together they touch all four corners of the rectangle.
   */
  lemma RectangleIsTwoTriangles(x: real, y: real, width: real, height: real)
    ensures var v := SetRectangle(x, y, width, height);
      && v[2] == v[3] && v[1] == v[4]
      && Vec2(x, y) in v && Vec2(x + width, y) in v
      && Vec2(x, y + height) in v && Vec2(x + width, y + height) in v
  {
    var v := SetRectangle(x, y, width, height);
    assert v[0] == Vec2(x, y);
    assert v[5] == Vec2(x + width, y + height);
  }

  /**
   * Texture coordinate k is the position of vertex k normalised to the
   * rectangle, so the whole texture is mapped onto the rectangle.
   */
  lemma TexCoordsNormalisePositions(x: real, y: real, width: real, height: real)
    requires width != 0.0 && height != 0.0
    ensures var v := SetRectangle(x, y, width, height);
      forall k :: 0 <= k < VertexCount ==>
        TexCoords[k] == Vec2((v[k].x - x) / width, (v[k].y - y) / height)
  {
    assert (x + width - x) / width == 1.0;
    assert (y + height - y) / height == 1.0;
    assert (x - x) / width == 0.0;
    assert (y - y) / height == 0.0;
  }

  /** A position between 0 and a positive size, divided by the size, lies in [0, 1]. */
  lemma UnitRatio(a: real, b: real)
    requires b != 0.0
    ensures b > 0.0 && 0.0 <= a <= b ==> 0.0 <= a / b <= 1.0
  {
    if b > 0.0 && 0.0 <= a <= b {
      assert (a / b) * b == a;
    }
  }

  /**
   * The vertex shader: `zeroToOne = a_position / u_resolution`, doubled,
   * shifted by -1, then the y component multiplied by `u_flipY`.
   * A zero resolution component divides by zero, which GLSL leaves
   * undefined.  That happens: the first tick renders the image before it
   * has loaded, with width and height 0.  The model gives clip
   * coordinates only for a non-zero resolution.
   */
  function ClipOf(p: Vec2, resolution: Vec2, flipY: real): (c: Vec2)
    requires resolution.x != 0.0 && resolution.y != 0.0
    ensures resolution.x > 0.0 && 0.0 <= p.x <= resolution.x ==> -1.0 <= c.x <= 1.0
    ensures resolution.y > 0.0 && 0.0 <= p.y <= resolution.y && (flipY == 1.0 || flipY == -1.0)
      ==> -1.0 <= c.y <= 1.0
  {
    UnitRatio(p.x, resolution.x);
    UnitRatio(p.y, resolution.y);
    var zeroToOne := Vec2(p.x / resolution.x, p.y / resolution.y);
    var zeroToTwo := Vec2(zeroToOne.x * 2.0, zeroToOne.y * 2.0);
    var clipSpace := Vec2(zeroToTwo.x - 1.0, zeroToTwo.y - 1.0);
    Vec2(clipSpace.x * 1.0, clipSpace.y * flipY)
  }

  /** The inverse of the vertex mapping, from clip space back to pixels. */
  function PixelOf(c: Vec2, resolution: Vec2, flipY: real): Vec2
    requires flipY == 1.0 || flipY == -1.0
  {
    Vec2((c.x + 1.0) / 2.0 * resolution.x, (c.y * flipY + 1.0) / 2.0 * resolution.y)
  }

  /** With flipY = +1 or -1 the vertex mapping loses nothing: it is invertible. */
  lemma ClipRoundTrip(p: Vec2, resolution: Vec2, flipY: real)
    requires resolution.x != 0.0 && resolution.y != 0.0
    requires flipY == 1.0 || flipY == -1.0
    ensures PixelOf(ClipOf(p, resolution, flipY), resolution, flipY) == p
  {
    var c := ClipOf(p, resolution, flipY);
    assert c.y * flipY == c.y * flipY;
    assert flipY * flipY == 1.0;
    assert c.y * flipY == p.y / resolution.y * 2.0 - 1.0;
  }

  /** The final pass's flipY = -1 mirrors the image vertically and nothing else. */
  lemma FlipMirrorsY(p: Vec2, resolution: Vec2)
    requires resolution.x != 0.0 && resolution.y != 0.0
    ensures ClipOf(p, resolution, -1.0).x == ClipOf(p, resolution, 1.0).x
    ensures ClipOf(p, resolution, -1.0).y == -ClipOf(p, resolution, 1.0).y
  {
  }

  /** Where the four corners of a w x h rectangle land in clip space. */
  lemma CornerClips(w: real, h: real, flipY: real)
    requires w > 0.0 && h > 0.0
    ensures ClipOf(Vec2(0.0, 0.0), Vec2(w, h), flipY) == Vec2(-1.0, -flipY)
    ensures ClipOf(Vec2(w, 0.0), Vec2(w, h), flipY) == Vec2(1.0, -flipY)
    ensures ClipOf(Vec2(0.0, h), Vec2(w, h), flipY) == Vec2(-1.0, flipY)
    ensures ClipOf(Vec2(w, h), Vec2(w, h), flipY) == Vec2(1.0, flipY)
  {
    assert w / w == 1.0 && h / h == 1.0;
    assert 0.0 / w == 0.0 && 0.0 / h == 0.0;
  }

  /** The clip-space images of the six vertices of `setRectangle(0, 0, w, h)`. */
  function ClippedRectangle(w: real, h: real, flipY: real): seq<Vec2>
    requires w > 0.0 && h > 0.0
  {
    var v := SetRectangle(0.0, 0.0, w, h);
    seq(VertexCount, k requires 0 <= k < VertexCount => ClipOf(v[k], Vec2(w, h), flipY))
  }

  /**
   * With the resolution equal to the rectangle's size, the rectangle
   * `setRectangle(0, 0, w, h)` lands exactly on the corners of clip space
   * [-1, 1] x [-1, 1], and reaches every one of them, for either flip.
   */
  lemma FullRectangleCoversClipSpace(w: real, h: real, flipY: real)
    requires w > 0.0 && h > 0.0
    requires flipY == 1.0 || flipY == -1.0
    ensures forall k :: 0 <= k < VertexCount ==>
      var c := ClippedRectangle(w, h, flipY)[k];
      (c.x == -1.0 || c.x == 1.0) && (c.y == -1.0 || c.y == 1.0)
    ensures forall cx, cy :: (cx == -1.0 || cx == 1.0) && (cy == -1.0 || cy == 1.0) ==>
      Vec2(cx, cy) in ClippedRectangle(w, h, flipY)
  {
    ClippedRectangleValues(w, h, flipY);
  }

  lemma ClippedRectangleValues(w: real, h: real, flipY: real)
    requires w > 0.0 && h > 0.0
    ensures ClippedRectangle(w, h, flipY) ==
      [Vec2(-1.0, -flipY), Vec2(1.0, -flipY), Vec2(-1.0, flipY),
       Vec2(-1.0, flipY), Vec2(1.0, -flipY), Vec2(1.0, flipY)]
  {
    var v := SetRectangle(0.0, 0.0, w, h);
    CornerClips(w, h, flipY);
    assert v == [Vec2(0.0, 0.0), Vec2(w, 0.0), Vec2(0.0, h), Vec2(0.0, h), Vec2(w, 0.0), Vec2(w, h)];
  }
}
